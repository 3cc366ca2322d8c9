/** `UploadFilter.parseRequest`: the two passes that turn the decoded parts
    into request attributes (direct and routed uploads) and a parameter map
    (every other field). */
module Reconciler {
  import opened Multipart
  import opened FieldMaps

  // ---------------------------------------------------------------------
  // What the passes should compute, stated on the part sequence alone.
  // ---------------------------------------------------------------------

  /** The parts named `name`, in arrival order. */
  function Named(parts: seq<Part>, name: string): seq<Part>
    decreases |parts|
  {
    if |parts| == 0 then []
    else
      Named(parts[..|parts| - 1], name)
      + (if parts[|parts| - 1].fieldName == name then [parts[|parts| - 1]] else [])
  }

  /** The field names of the submission. */
  function FieldNames(parts: seq<Part>): set<string> {
    set p | p in parts :: p.fieldName
  }

  /** Names that end up as parameter groups before routing. */
  function GroupKeys(c: Conventions, parts: seq<Part>): set<string> {
    set p | p in parts && !IsDirect(c, p.fieldName) :: p.fieldName
  }

  /** Names that are attached directly as uploads. */
  function DirectNames(c: Conventions, parts: seq<Part>): set<string> {
    set p | p in parts && IsDirect(c, p.fieldName) :: p.fieldName
  }

  lemma {:induction false} NamedNonEmpty(parts: seq<Part>, name: string)
    ensures |Named(parts, name)| > 0 <==> name in FieldNames(parts)
    decreases |parts|
  {
    if |parts| > 0 {
      var pre, p := parts[..|parts| - 1], parts[|parts| - 1];
      NamedNonEmpty(pre, name);
      assert parts == pre + [p];
      assert FieldNames(parts) == FieldNames(pre) + {p.fieldName};
    }
  }

  /** The first part named `name`. */
  function FirstNamed(parts: seq<Part>, name: string): Part
    requires name in FieldNames(parts)
  {
    NamedNonEmpty(parts, name);
    Named(parts, name)[0]
  }

  /** The last part named `name`. */
  function LastNamed(parts: seq<Part>, name: string): Part
    requires name in FieldNames(parts)
  {
    NamedNonEmpty(parts, name);
    Named(parts, name)[|Named(parts, name)| - 1]
  }

  /** The field a routing field points at: the text of its first part. */
  function TargetOf(parts: seq<Part>, key: string): string
    requires key in FieldNames(parts)
  {
    FirstNamed(parts, key).text
  }

  /** Group keys carrying the routing suffix. */
  function RoutingKeys(c: Conventions, parts: seq<Part>): set<string> {
    set k | k in GroupKeys(c, parts) && IsRouting(c, k)
  }

  /** Targets of routing fields for which a group exists. */
  function MatchedTargets(c: Conventions, parts: seq<Part>): set<string> {
    set k | k in RoutingKeys(c, parts) && TargetOf(parts, k) in GroupKeys(c, parts) :: TargetOf(parts, k)
  }

  /** Attribute names under which routed uploads are published. */
  function RoutedKeys(c: Conventions, parts: seq<Part>): set<string> {
    set t | t in MatchedTargets(c, parts) :: t + c.inputId
  }

  // ---------------------------------------------------------------------
  // The passes as the filter runs them.
  // ---------------------------------------------------------------------

  /** State after the first pass: the attributes set so far and the TreeMap. */
  datatype Classified = Classified(attrs: Attributes, fields: FieldMap<Part>)

  lemma SnocSets(c: Conventions, parts: seq<Part>)
    requires |parts| > 0
    ensures var pre, p := parts[..|parts| - 1], parts[|parts| - 1];
      && FieldNames(parts) == FieldNames(pre) + {p.fieldName}
      && GroupKeys(c, parts) == GroupKeys(c, pre) + (if IsDirect(c, p.fieldName) then {} else {p.fieldName})
      && DirectNames(c, parts) == DirectNames(c, pre) + (if IsDirect(c, p.fieldName) then {p.fieldName} else {})
  {
    var pre, p := parts[..|parts| - 1], parts[|parts| - 1];
    assert parts == pre + [p];
  }

  /** What the routing pass needs of the TreeMap: its key list and key set
      agree, and it holds the non-empty groups of `parts`. */
  predicate GroupsListed(c: Conventions, parts: seq<Part>, fields: FieldMap<Part>) {
    && (forall k :: k in fields.keys ==> k in fields.groups)
    && (forall k :: k in fields.groups ==> k in fields.keys)
    && fields.groups.Keys == GroupKeys(c, parts)
    && (forall k :: k in fields.groups ==> |fields.groups[k]| > 0 && fields.groups[k] == Named(parts, k))
  }

  /** The TreeMap after reading `parts`: in key order, one group per
      non-direct name. */
  predicate GroupsRead(c: Conventions, parts: seq<Part>, fields: FieldMap<Part>) {
    StrictlySorted(fields.keys) && GroupsListed(c, parts, fields)
  }

  /** The attributes after reading `parts`: the last part of each direct name. */
  predicate DirectRead(c: Conventions, parts: seq<Part>, attrs: Attributes, after: Attributes) {
    && after.Keys == attrs.Keys + DirectNames(c, parts)
    && (forall k :: k in DirectNames(c, parts) ==> k in FieldNames(parts) && after[k] == FileItem(LastNamed(parts, k)))
    && (forall k :: k in attrs && k !in DirectNames(c, parts) ==> after[k] == attrs[k])
  }

  lemma FieldNamesSnoc(parts: seq<Part>)
    requires |parts| > 0
    ensures FieldNames(parts) == FieldNames(parts[..|parts| - 1]) + {parts[|parts| - 1].fieldName}
  {
    assert parts == parts[..|parts| - 1] + [parts[|parts| - 1]];
  }

  lemma LastNamedSnoc(parts: seq<Part>, k: string)
    requires |parts| > 0 && k in FieldNames(parts)
    ensures var pre, p := parts[..|parts| - 1], parts[|parts| - 1];
      LastNamed(parts, k) == if k == p.fieldName then p else LastNamed(pre, k)
  {
    var pre, p := parts[..|parts| - 1], parts[|parts| - 1];
    FieldNamesSnoc(parts);
    NamedNonEmpty(pre, k);
  }

  /** A direct part: the TreeMap is untouched, the attribute is overwritten. */
  lemma ClassifyDirectStep(c: Conventions, parts: seq<Part>, attrs: Attributes, prev: Classified)
    requires |parts| > 0 && IsDirect(c, parts[|parts| - 1].fieldName)
    requires GroupsRead(c, parts[..|parts| - 1], prev.fields)
    requires DirectRead(c, parts[..|parts| - 1], attrs, prev.attrs)
    ensures GroupsRead(c, parts, prev.fields)
    ensures var p := parts[|parts| - 1]; DirectRead(c, parts, attrs, prev.attrs[p.fieldName := FileItem(p)])
  {
    var pre, p := parts[..|parts| - 1], parts[|parts| - 1];
    SnocSets(c, parts);
    forall k | k in prev.fields.groups
      ensures prev.fields.groups[k] == Named(parts, k)
    {
      assert k in GroupKeys(c, pre);
      assert k != p.fieldName;
    }
    DirectOverwrite(c, parts, attrs, prev.attrs);
  }

  lemma DirectOverwrite(c: Conventions, parts: seq<Part>, attrs: Attributes, before: Attributes)
    requires |parts| > 0 && IsDirect(c, parts[|parts| - 1].fieldName)
    requires DirectRead(c, parts[..|parts| - 1], attrs, before)
    ensures var p := parts[|parts| - 1]; DirectRead(c, parts, attrs, before[p.fieldName := FileItem(p)])
  {
    var pre, p := parts[..|parts| - 1], parts[|parts| - 1];
    var after := before[p.fieldName := FileItem(p)];
    SnocSets(c, parts);
    forall k | k in DirectNames(c, parts)
      ensures k in FieldNames(parts) && after[k] == FileItem(LastNamed(parts, k))
    {
      LastNamedSnoc(parts, k);
      if k != p.fieldName {
        assert k in DirectNames(c, pre);
      }
    }
  }

  /** Any other part: appended to its group, attributes untouched. */
  lemma ClassifyGroupStep(c: Conventions, parts: seq<Part>, attrs: Attributes, prev: Classified)
    requires |parts| > 0 && !IsDirect(c, parts[|parts| - 1].fieldName)
    requires GroupsRead(c, parts[..|parts| - 1], prev.fields)
    requires DirectRead(c, parts[..|parts| - 1], attrs, prev.attrs)
    ensures var p := parts[|parts| - 1]; GroupsRead(c, parts, Append(prev.fields, p.fieldName, p))
    ensures DirectRead(c, parts, attrs, prev.attrs)
  {
    GroupAppend(c, parts, prev.fields);
    DirectKept(c, parts, attrs, prev.attrs);
  }

  lemma GroupAppend(c: Conventions, parts: seq<Part>, fields: FieldMap<Part>)
    requires |parts| > 0 && !IsDirect(c, parts[|parts| - 1].fieldName)
    requires GroupsRead(c, parts[..|parts| - 1], fields)
    ensures var p := parts[|parts| - 1]; GroupsRead(c, parts, Append(fields, p.fieldName, p))
  {
    var pre, p := parts[..|parts| - 1], parts[|parts| - 1];
    SnocSets(c, parts);
    if p.fieldName !in fields.groups {
      assert p.fieldName !in GroupKeys(c, pre);
      assert p.fieldName !in FieldNames(pre);
      NamedNonEmpty(pre, p.fieldName);
    }
  }

  lemma DirectKept(c: Conventions, parts: seq<Part>, attrs: Attributes, before: Attributes)
    requires |parts| > 0 && !IsDirect(c, parts[|parts| - 1].fieldName)
    requires DirectRead(c, parts[..|parts| - 1], attrs, before)
    ensures DirectRead(c, parts, attrs, before)
  {
    var pre := parts[..|parts| - 1];
    SnocSets(c, parts);
    forall k | k in DirectNames(c, parts)
      ensures k in FieldNames(parts) && LastNamed(parts, k) == LastNamed(pre, k)
    {
      LastNamedSnoc(parts, k);
    }
  }

  /** First pass: a part whose name has the direct suffix is set as an
      attribute under its own name; every other part is appended to its
      name's group in the TreeMap. */
  function Classify(c: Conventions, parts: seq<Part>, attrs: Attributes): (r: Classified)
    ensures Valid(r.fields)
    ensures r.fields.groups.Keys == GroupKeys(c, parts)
    ensures forall k :: k in r.fields.groups ==> r.fields.groups[k] == Named(parts, k)
    ensures r.attrs.Keys == attrs.Keys + DirectNames(c, parts)
    ensures forall k :: k in DirectNames(c, parts) ==> k in FieldNames(parts) && r.attrs[k] == FileItem(LastNamed(parts, k))
    ensures forall k :: k in attrs && k !in DirectNames(c, parts) ==> r.attrs[k] == attrs[k]
    decreases |parts|
  {
    if |parts| == 0 then Classified(attrs, Empty())
    else
      var pre, p := parts[..|parts| - 1], parts[|parts| - 1];
      var prev := Classify(c, pre, attrs);
      if IsDirect(c, p.fieldName) then
        ClassifyDirectStep(c, parts, attrs, prev);
        Classified(prev.attrs[p.fieldName := FileItem(p)], prev.fields)
      else
        ClassifyGroupStep(c, parts, attrs, prev);
        Classified(prev.attrs, Append(prev.fields, p.fieldName, p))
  }

  /** The two lists the second pass fills: `unlabeledUploads` (targets) and
      `removes`, one entry each per routing key, in key order. */
  datatype Routing = Routing(targets: seq<string>, removes: seq<string>)

  /** Second pass: for each key with the routing suffix, record the text of
      its first part as a target and the key itself for removal. */
  function ScanRouting(c: Conventions, groups: map<string, seq<Part>>, keys: seq<string>): (r: Routing)
    requires forall k :: k in keys ==> k in groups && |groups[k]| > 0
    ensures |r.targets| == |r.removes|
    ensures forall k :: k in r.removes <==> k in keys && IsRouting(c, k)
    ensures forall i :: 0 <= i < |r.removes| ==> r.targets[i] == groups[r.removes[i]][0].text
    decreases |keys|
  {
    if |keys| == 0 then Routing([], [])
    else
      var prev := ScanRouting(c, groups, keys[..|keys| - 1]);
      var k := keys[|keys| - 1];
      assert keys == keys[..|keys| - 1] + [k];
      if IsRouting(c, k) then Routing(prev.targets + [groups[k][0].text], prev.removes + [k])
      else prev
  }

  /** Attributes written and keys marked while resolving the targets. */
  datatype Attached = Attached(attrs: Attributes, removes: seq<string>)

  /** The routed names `t + INPUT_ID` for targets that have a group. */
  function RoutedNames(c: Conventions, groups: map<string, seq<Part>>, targets: seq<string>): set<string> {
    set t | t in targets && t in groups :: t + c.inputId
  }

  /** For each target with a group, publish the group's first part as the
      attribute `target + INPUT_ID` and mark the target for removal; a
      target without a group is skipped. */
  function AttachUnlabeled(c: Conventions, groups: map<string, seq<Part>>, targets: seq<string>, attrs: Attributes): (r: Attached)
    requires forall k :: k in groups ==> |groups[k]| > 0
    ensures forall t :: t in r.removes <==> t in targets && t in groups
    ensures r.attrs.Keys == attrs.Keys + RoutedNames(c, groups, targets)
    ensures forall t :: t in targets && t in groups ==> r.attrs[t + c.inputId] == FileItem(groups[t][0])
    ensures forall k :: k in attrs && k !in RoutedNames(c, groups, targets) ==> r.attrs[k] == attrs[k]
    decreases |targets|
  {
    if |targets| == 0 then Attached(attrs, [])
    else
      var pre, t := targets[..|targets| - 1], targets[|targets| - 1];
      var prev := AttachUnlabeled(c, groups, pre, attrs);
      RoutedNamesSnoc(c, groups, targets);
      if t in groups then
        SuffixInjective(c, groups, pre, t);
        Attached(prev.attrs[t + c.inputId := FileItem(groups[t][0])], prev.removes + [t])
      else prev
  }

  lemma RoutedNamesSnoc(c: Conventions, groups: map<string, seq<Part>>, targets: seq<string>)
    requires |targets| > 0
    ensures var pre, t := targets[..|targets| - 1], targets[|targets| - 1];
      && (forall u :: u in targets <==> u in pre || u == t)
      && RoutedNames(c, groups, targets) == RoutedNames(c, groups, pre) + (if t in groups then {t + c.inputId} else {})
  {
    var pre, t := targets[..|targets| - 1], targets[|targets| - 1];
    assert targets == pre + [t];
  }

  /** Two targets never share a routed name: `t + INPUT_ID` determines `t`. */
  lemma SuffixInjective(c: Conventions, groups: map<string, seq<Part>>, pre: seq<string>, t: string)
    ensures forall u :: u in pre && u in groups && u + c.inputId == t + c.inputId ==> u == t
  {
    forall u | u in pre && u in groups && u + c.inputId == t + c.inputId
      ensures u == t
    {
      SuffixCancels(c.inputId, u, t);
    }
  }

  /** One `String[]` of the parameter map: the group's texts in arrival
      order (the source builds a one-element array for a single part and
      copies the list otherwise; both give the same array). */
  function ValuesOf(group: seq<Part>): (values: seq<string>)
    requires |group| > 0
    ensures |values| == |group|
    ensures forall i :: 0 <= i < |group| ==> values[i] == group[i].text
  {
    if |group| == 1 then [group[0].text]
    else seq(|group|, i requires 0 <= i < |group| => group[i].text)
  }

  /** The attributes and parameter map `parseRequest` leaves behind. */
  datatype Parsed = Parsed(attrs: Attributes, params: Params)

  /** `parseRequest`: first pass, routing pass, resolution of the targets,
      removal of the marked keys, and the remaining groups as parameters. */
  function ParseRequest(c: Conventions, parts: seq<Part>, attrs: Attributes): (r: Parsed)
    ensures WellFormed(r.params)
    ensures forall k :: k in r.params ==> !IsDirect(c, k)
  {
    var first := Classify(c, parts, attrs);
    var groups := first.fields.groups;
    var scan := ScanRouting(c, groups, first.fields.keys);
    var attached := AttachUnlabeled(c, groups, scan.targets, first.attrs);
    var removes := scan.removes + attached.removes;
    var remaining := groups - (set k | k in removes);
    Parsed(attached.attrs, map k | k in remaining :: ValuesOf(remaining[k]))
  }

  // ---------------------------------------------------------------------
  // What the passes compute.
  // ---------------------------------------------------------------------

  /** The routing pass finds exactly the routing keys, and the targets it
      resolves are exactly the matched targets. */
  lemma RoutingStage(c: Conventions, parts: seq<Part>, attrs: Attributes)
    ensures var first := Classify(c, parts, attrs);
      var scan := ScanRouting(c, first.fields.groups, first.fields.keys);
      && (set k | k in scan.removes) == RoutingKeys(c, parts)
      && (set t | t in scan.targets && t in first.fields.groups) == MatchedTargets(c, parts)
  {
    var first := Classify(c, parts, attrs);
    assert GroupsListed(c, parts, first.fields);
    ScanFinds(c, parts, first.fields);
  }

  /** The routing pass over a TreeMap holding the groups of `parts`. */
  lemma ScanFinds(c: Conventions, parts: seq<Part>, fields: FieldMap<Part>)
    requires GroupsListed(c, parts, fields)
    ensures var scan := ScanRouting(c, fields.groups, fields.keys);
      && (set k | k in scan.removes) == RoutingKeys(c, parts)
      && (set t | t in scan.targets && t in fields.groups) == MatchedTargets(c, parts)
  {
    ScanRemovesRouting(c, parts, fields);
    ScanTargetsSound(c, parts, fields);
    ScanTargetsComplete(c, parts, fields);
  }

  lemma ScanTargetsSound(c: Conventions, parts: seq<Part>, fields: FieldMap<Part>)
    requires GroupsListed(c, parts, fields)
    ensures forall t :: t in ScanRouting(c, fields.groups, fields.keys).targets && t in fields.groups ==>
      t in MatchedTargets(c, parts)
  {
    var scan := ScanRouting(c, fields.groups, fields.keys);
    forall t | t in scan.targets && t in fields.groups
      ensures t in MatchedTargets(c, parts)
    {
      var i :| 0 <= i < |scan.targets| && scan.targets[i] == t;
      ScanTargetMatched(c, parts, fields, i);
    }
  }

  lemma ScanTargetsComplete(c: Conventions, parts: seq<Part>, fields: FieldMap<Part>)
    requires GroupsListed(c, parts, fields)
    ensures forall t :: t in MatchedTargets(c, parts) ==> t in ScanRouting(c, fields.groups, fields.keys).targets
  {
    var scan := ScanRouting(c, fields.groups, fields.keys);
    ScanRemovesRouting(c, parts, fields);
    forall t | t in MatchedTargets(c, parts)
      ensures t in scan.targets
    {
      var k :| k in RoutingKeys(c, parts) && TargetOf(parts, k) in GroupKeys(c, parts) && TargetOf(parts, k) == t;
      var i :| 0 <= i < |scan.removes| && scan.removes[i] == k;
      ScanTargetMatched(c, parts, fields, i);
    }
  }

  lemma ScanRemovesRouting(c: Conventions, parts: seq<Part>, fields: FieldMap<Part>)
    requires GroupsListed(c, parts, fields)
    ensures forall k :: k in ScanRouting(c, fields.groups, fields.keys).removes <==> k in RoutingKeys(c, parts)
  {
  }

  lemma ScanTargetMatched(c: Conventions, parts: seq<Part>, fields: FieldMap<Part>, i: int)
    requires GroupsListed(c, parts, fields)
    requires 0 <= i < |ScanRouting(c, fields.groups, fields.keys).removes|
    ensures var scan := ScanRouting(c, fields.groups, fields.keys);
      && scan.removes[i] in RoutingKeys(c, parts)
      && scan.targets[i] == TargetOf(parts, scan.removes[i])
      && (scan.targets[i] in fields.groups ==> scan.targets[i] in MatchedTargets(c, parts))
  {
    ScanRemovesRouting(c, parts, fields);
    var scan := ScanRouting(c, fields.groups, fields.keys);
    var k := scan.removes[i];
    assert k in scan.removes;
    assert fields.groups[k] == Named(parts, k);
  }

  /** The texts of some parts, in order. */
  function Texts(ps: seq<Part>): seq<string> {
    seq(|ps|, i requires 0 <= i < |ps| => ps[i].text)
  }

  /** The parameters `parseRequest` should produce: every group that is
      neither a routing key nor a matched target, with its texts in arrival
      order. */
  function ExpectedParams(c: Conventions, parts: seq<Part>): Params {
    map k | k in GroupKeys(c, parts) - RoutingKeys(c, parts) - MatchedTargets(c, parts) :: Texts(Named(parts, k))
  }

  /** The part published under a routed name `target + INPUT_ID`. */
  ghost function RoutedPart(c: Conventions, parts: seq<Part>, k: string): Part
    requires k in RoutedKeys(c, parts)
  {
    var t :| t in MatchedTargets(c, parts) && k == t + c.inputId;
    FirstNamed(parts, t)
  }

  /** The attributes `parseRequest` should leave: routed uploads over the
      last part of each direct name over what was there before. */
  ghost function ExpectedAttrs(c: Conventions, parts: seq<Part>, attrs: Attributes): Attributes {
    map k | k in attrs.Keys + DirectNames(c, parts) + RoutedKeys(c, parts) ::
      if k in RoutedKeys(c, parts) then FileItem(RoutedPart(c, parts, k))
      else if k in DirectNames(c, parts) then FileItem(LastNamed(parts, k))
      else attrs[k]
  }

  /** The parameter map holds exactly the groups that are neither routing
      keys nor matched targets, each with its parts' texts in arrival order. */
  lemma ParamsListed(c: Conventions, parts: seq<Part>, attrs: Attributes)
    ensures var r := ParseRequest(c, parts, attrs);
      && r.params.Keys == GroupKeys(c, parts) - RoutingKeys(c, parts) - MatchedTargets(c, parts)
      && forall k :: k in r.params ==>
           |r.params[k]| == |Named(parts, k)|
           && forall i :: 0 <= i < |r.params[k]| ==> r.params[k][i] == Named(parts, k)[i].text
  {
    RoutingStage(c, parts, attrs);
  }

  lemma ExpectedParamsUnique(c: Conventions, parts: seq<Part>, m: Params)
    requires m.Keys == GroupKeys(c, parts) - RoutingKeys(c, parts) - MatchedTargets(c, parts)
    requires forall k :: k in m ==>
           |m[k]| == |Named(parts, k)|
           && forall i :: 0 <= i < |m[k]| ==> m[k][i] == Named(parts, k)[i].text
    ensures m == ExpectedParams(c, parts)
  {
    var e := ExpectedParams(c, parts);
    forall k | k in e
      ensures m[k] == e[k]
    {
    }
  }

  /** `parseRequest`'s parameter map is `ExpectedParams`. */
  lemma ParamsCharacterized(c: Conventions, parts: seq<Part>, attrs: Attributes)
    ensures ParseRequest(c, parts, attrs).params == ExpectedParams(c, parts)
  {
    ParamsListed(c, parts, attrs);
    ExpectedParamsUnique(c, parts, ParseRequest(c, parts, attrs).params);
  }

  /** The attributes after `parseRequest`: the earlier ones, overwritten by
      the last part of each direct name, overwritten in turn by the first
      part of each matched target under `target + INPUT_ID`. */
  lemma AttributesCharacterized(c: Conventions, parts: seq<Part>, attrs: Attributes)
    ensures var r := ParseRequest(c, parts, attrs);
      && r.attrs.Keys == attrs.Keys + DirectNames(c, parts) + RoutedKeys(c, parts)
      && (forall t :: t in MatchedTargets(c, parts) ==> r.attrs[t + c.inputId] == FileItem(FirstNamed(parts, t)))
      && (forall k :: k in DirectNames(c, parts) && k !in RoutedKeys(c, parts) ==> r.attrs[k] == FileItem(LastNamed(parts, k)))
      && (forall k :: k in attrs && k !in DirectNames(c, parts) && k !in RoutedKeys(c, parts) ==> r.attrs[k] == attrs[k])
  {
    RoutingStage(c, parts, attrs);
    var first := Classify(c, parts, attrs);
    var scan := ScanRouting(c, first.fields.groups, first.fields.keys);
    assert GroupsListed(c, parts, first.fields);
    AttachedAttrs(c, parts, attrs, first, scan.targets);
  }

  /** The resolution of the targets, given the first pass's results. */
  lemma AttachedAttrs(c: Conventions, parts: seq<Part>, attrs: Attributes, first: Classified, targets: seq<string>)
    requires GroupsListed(c, parts, first.fields)
    requires DirectRead(c, parts, attrs, first.attrs)
    requires (set t | t in targets && t in first.fields.groups) == MatchedTargets(c, parts)
    ensures var r := AttachUnlabeled(c, first.fields.groups, targets, first.attrs).attrs;
      && r.Keys == attrs.Keys + DirectNames(c, parts) + RoutedKeys(c, parts)
      && (forall t :: t in MatchedTargets(c, parts) ==> r[t + c.inputId] == FileItem(FirstNamed(parts, t)))
      && (forall k :: k in DirectNames(c, parts) && k !in RoutedKeys(c, parts) ==> r[k] == FileItem(LastNamed(parts, k)))
      && (forall k :: k in attrs && k !in DirectNames(c, parts) && k !in RoutedKeys(c, parts) ==> r[k] == attrs[k])
  {
    var groups := first.fields.groups;
    assert RoutedNames(c, groups, targets) == RoutedKeys(c, parts);
    forall t | t in MatchedTargets(c, parts)
      ensures groups[t][0] == FirstNamed(parts, t)
    {
      assert t in GroupKeys(c, parts);
    }
  }

  lemma ExpectedAttrsUnique(c: Conventions, parts: seq<Part>, attrs: Attributes, m: Attributes)
    requires m.Keys == attrs.Keys + DirectNames(c, parts) + RoutedKeys(c, parts)
    requires forall t :: t in MatchedTargets(c, parts) ==> m[t + c.inputId] == FileItem(FirstNamed(parts, t))
    requires forall k :: k in DirectNames(c, parts) && k !in RoutedKeys(c, parts) ==> m[k] == FileItem(LastNamed(parts, k))
    requires forall k :: k in attrs && k !in DirectNames(c, parts) && k !in RoutedKeys(c, parts) ==> m[k] == attrs[k]
    ensures m == ExpectedAttrs(c, parts, attrs)
  {
    var e := ExpectedAttrs(c, parts, attrs);
    forall k | k in e
      ensures m[k] == e[k]
    {
      if k in RoutedKeys(c, parts) {
        var t :| t in MatchedTargets(c, parts) && k == t + c.inputId;
        RoutedPartOf(c, parts, t);
      }
    }
  }

  /** `parseRequest`'s attributes are `ExpectedAttrs`. */
  lemma AttributesAsExpected(c: Conventions, parts: seq<Part>, attrs: Attributes)
    ensures ParseRequest(c, parts, attrs).attrs == ExpectedAttrs(c, parts, attrs)
  {
    AttributesCharacterized(c, parts, attrs);
    ExpectedAttrsUnique(c, parts, attrs, ParseRequest(c, parts, attrs).attrs);
  }

  /** The routed name of a matched target carries that target's first part. */
  lemma RoutedPartOf(c: Conventions, parts: seq<Part>, t: string)
    requires t in MatchedTargets(c, parts)
    ensures t + c.inputId in RoutedKeys(c, parts)
    ensures RoutedPart(c, parts, t + c.inputId) == FirstNamed(parts, t)
  {
    var k := t + c.inputId;
    var u :| u in MatchedTargets(c, parts) && k == u + c.inputId && RoutedPart(c, parts, k) == FirstNamed(parts, u);
    SuffixCancels(c.inputId, t, u);
  }

  /** `t + suffix` determines `t`. */
  lemma SuffixCancels(suffix: string, t: string, u: string)
    requires t + suffix == u + suffix
    ensures t == u
  {
    assert |t| == |u|;
    assert t == (t + suffix)[..|t|];
    assert u == (u + suffix)[..|u|];
  }
}
