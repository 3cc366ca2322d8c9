/** Consequences of `parseRequest` a caller relies on, each stated for one
    kind of field: direct uploads, routed uploads, stale routing fields, and
    ordinary form fields. */
module ReconcilerLaws {
  import opened Multipart
  import opened Reconciler

  /** Every part named with the direct suffix is an attribute under its own
      name and never a parameter. The attribute holds the last such part,
      unless a routed upload was later published under the same name. */
  lemma DirectPartIsAttribute(c: Conventions, parts: seq<Part>, attrs: Attributes, p: Part)
    requires p in parts && IsDirect(c, p.fieldName)
    ensures var r := ParseRequest(c, parts, attrs);
      && p.fieldName in r.attrs
      && p.fieldName !in r.params
      && (p.fieldName !in RoutedKeys(c, parts) ==> r.attrs[p.fieldName] == FileItem(LastNamed(parts, p.fieldName)))
  {
    AttributesCharacterized(c, parts, attrs);
    assert p.fieldName in DirectNames(c, parts);
  }

  /** A routing field whose first value names an existing group publishes
      that group's first part as `target + INPUT_ID`; neither the routing
      field nor the target remains a parameter. */
  lemma RoutedUpload(c: Conventions, parts: seq<Part>, attrs: Attributes, key: string)
    requires key in FieldNames(parts) && !IsDirect(c, key) && IsRouting(c, key)
    requires TargetOf(parts, key) in FieldNames(parts) && !IsDirect(c, TargetOf(parts, key))
    ensures var r := ParseRequest(c, parts, attrs);
      var target := TargetOf(parts, key);
      && r.attrs[target + c.inputId] == FileItem(FirstNamed(parts, target))
      && target !in r.params
      && key !in r.params
  {
    var target := TargetOf(parts, key);
    assert key in GroupKeys(c, parts);
    assert target in GroupKeys(c, parts);
    assert key in RoutingKeys(c, parts);
    assert target in MatchedTargets(c, parts);
    AttributesCharacterized(c, parts, attrs);
    ParamsCharacterized(c, parts, attrs);
  }

  /** A routing field whose target has no group is dropped silently: it is
      not a parameter, and no attribute is written for its target. */
  lemma UnmatchedRouting(c: Conventions, parts: seq<Part>, attrs: Attributes, key: string)
    requires key in FieldNames(parts) && !IsDirect(c, key) && IsRouting(c, key)
    requires TargetOf(parts, key) !in FieldNames(parts) || IsDirect(c, TargetOf(parts, key))
    ensures var r := ParseRequest(c, parts, attrs);
      var name := TargetOf(parts, key) + c.inputId;
      && key !in r.params
      && name !in RoutedKeys(c, parts)
      && (name in r.attrs <==> name in attrs || name in DirectNames(c, parts))
  {
    var target := TargetOf(parts, key);
    assert key in GroupKeys(c, parts);
    assert key in RoutingKeys(c, parts);
    assert target !in GroupKeys(c, parts);
    ParamsCharacterized(c, parts, attrs);
    AttributesCharacterized(c, parts, attrs);
    if target + c.inputId in RoutedKeys(c, parts) {
      var t :| t in MatchedTargets(c, parts) && t + c.inputId == target + c.inputId;
      SuffixCancels(c.inputId, t, target);
      assert false;
    }
  }

  /** Appending a part whose name is already present changes neither the
      field sets nor the first part of any name. */
  lemma RepeatedNameSnoc(c: Conventions, parts: seq<Part>, q: Part)
    requires q.fieldName in FieldNames(parts)
    ensures FieldNames(parts + [q]) == FieldNames(parts)
    ensures GroupKeys(c, parts + [q]) == GroupKeys(c, parts)
    ensures DirectNames(c, parts + [q]) == DirectNames(c, parts)
    ensures forall k :: k != q.fieldName ==> Named(parts + [q], k) == Named(parts, k)
    ensures forall k :: k in FieldNames(parts) ==> FirstNamed(parts + [q], k) == FirstNamed(parts, k)
  {
    var all := parts + [q];
    assert all[..|all| - 1] == parts;
    SnocSets(c, all);
    forall k | k in FieldNames(parts)
      ensures FirstNamed(all, k) == FirstNamed(parts, k)
    {
      NamedNonEmpty(parts, k);
    }
  }

  /** Under a further part for a routing key, every set the outcome is
      determined by stays the same. */
  lemma RoutingSnocSets(c: Conventions, parts: seq<Part>, key: string, text: string)
    requires key in FieldNames(parts) && !IsDirect(c, key) && IsRouting(c, key)
    ensures var more := parts + [Part(key, text)];
      && GroupKeys(c, more) == GroupKeys(c, parts)
      && DirectNames(c, more) == DirectNames(c, parts)
      && RoutingKeys(c, more) == RoutingKeys(c, parts)
      && MatchedTargets(c, more) == MatchedTargets(c, parts)
      && RoutedKeys(c, more) == RoutedKeys(c, parts)
  {
    RepeatedNameSnoc(c, parts, Part(key, text));
  }

  lemma ExpectedParamsSnoc(c: Conventions, parts: seq<Part>, key: string, text: string)
    requires key in FieldNames(parts) && !IsDirect(c, key) && IsRouting(c, key)
    ensures ExpectedParams(c, parts + [Part(key, text)]) == ExpectedParams(c, parts)
  {
    var more := parts + [Part(key, text)];
    RepeatedNameSnoc(c, parts, Part(key, text));
    RoutingSnocSets(c, parts, key, text);
    assert key in RoutingKeys(c, parts);
    var e1, e2 := ExpectedParams(c, more), ExpectedParams(c, parts);
    forall k | k in e2
      ensures e1[k] == e2[k]
    {
      assert Named(more, k) == Named(parts, k);
    }
  }

  lemma SnocPartsAgree(c: Conventions, parts: seq<Part>, key: string, text: string, k: string)
    requires key in FieldNames(parts) && !IsDirect(c, key) && IsRouting(c, key)
    ensures var more := parts + [Part(key, text)];
      && (k in RoutedKeys(c, parts) ==> k in RoutedKeys(c, more) && RoutedPart(c, more, k) == RoutedPart(c, parts, k))
      && (k in DirectNames(c, parts) ==> k in FieldNames(more) && LastNamed(more, k) == LastNamed(parts, k))
  {
    var more := parts + [Part(key, text)];
    RepeatedNameSnoc(c, parts, Part(key, text));
    RoutingSnocSets(c, parts, key, text);
    if k in RoutedKeys(c, parts) {
      var t :| t in MatchedTargets(c, parts) && k == t + c.inputId;
      RoutedPartOf(c, parts, t);
      RoutedPartOf(c, more, t);
    }
    if k in DirectNames(c, parts) {
      NamedNonEmpty(parts, k);
      assert Named(more, k) == Named(parts, k);
    }
  }

  lemma ExpectedAttrsSnoc(c: Conventions, parts: seq<Part>, attrs: Attributes, key: string, text: string)
    requires key in FieldNames(parts) && !IsDirect(c, key) && IsRouting(c, key)
    ensures ExpectedAttrs(c, parts + [Part(key, text)], attrs) == ExpectedAttrs(c, parts, attrs)
  {
    var more := parts + [Part(key, text)];
    RoutingSnocSets(c, parts, key, text);
    var e1, e2 := ExpectedAttrs(c, more, attrs), ExpectedAttrs(c, parts, attrs);
    forall k | k in e2
      ensures e1[k] == e2[k]
    {
      SnocPartsAgree(c, parts, key, text, k);
    }
  }

  /** Only the first value of a routing field is consulted: a further part
      under a routing key leaves the whole outcome unchanged. */
  lemma LaterRoutingValuesIgnored(c: Conventions, parts: seq<Part>, attrs: Attributes, key: string, text: string)
    requires key in FieldNames(parts) && !IsDirect(c, key) && IsRouting(c, key)
    ensures ParseRequest(c, parts + [Part(key, text)], attrs) == ParseRequest(c, parts, attrs)
  {
    var more := parts + [Part(key, text)];
    ExpectedParamsSnoc(c, parts, key, text);
    ExpectedAttrsSnoc(c, parts, attrs, key, text);
    ParamsCharacterized(c, more, attrs);
    ParamsCharacterized(c, parts, attrs);
    AttributesAsExpected(c, more, attrs);
    AttributesAsExpected(c, parts, attrs);
  }

  /** With no direct or routing name, nothing is attached or routed. */
  lemma PlainSets(c: Conventions, parts: seq<Part>)
    requires forall p :: p in parts ==> !IsDirect(c, p.fieldName) && !IsRouting(c, p.fieldName)
    ensures DirectNames(c, parts) == {} && RoutedKeys(c, parts) == {}
    ensures GroupKeys(c, parts) - RoutingKeys(c, parts) - MatchedTargets(c, parts) == FieldNames(parts)
  {
    assert DirectNames(c, parts) == {};
    assert GroupKeys(c, parts) == FieldNames(parts);
    assert RoutingKeys(c, parts) == {};
    assert MatchedTargets(c, parts) == {};
  }

  /** A submission with no direct or routing names: attributes untouched,
      and one parameter per field name holding its texts in arrival order. */
  lemma PlainFieldsOnly(c: Conventions, parts: seq<Part>, attrs: Attributes)
    requires forall p :: p in parts ==> !IsDirect(c, p.fieldName) && !IsRouting(c, p.fieldName)
    ensures var r := ParseRequest(c, parts, attrs);
      && r.attrs == attrs
      && r.params.Keys == FieldNames(parts)
      && forall k :: k in r.params ==> r.params[k] == Texts(Named(parts, k))
  {
    PlainSets(c, parts);
    PlainParams(c, parts, attrs);
    PlainAttrs(c, parts, attrs);
  }

  lemma PlainParams(c: Conventions, parts: seq<Part>, attrs: Attributes)
    requires DirectNames(c, parts) == {} && RoutedKeys(c, parts) == {}
    requires GroupKeys(c, parts) - RoutingKeys(c, parts) - MatchedTargets(c, parts) == FieldNames(parts)
    ensures var r := ParseRequest(c, parts, attrs);
      && r.params.Keys == FieldNames(parts)
      && forall k :: k in r.params ==> r.params[k] == Texts(Named(parts, k))
  {
    ParamsCharacterized(c, parts, attrs);
  }

  lemma PlainAttrs(c: Conventions, parts: seq<Part>, attrs: Attributes)
    requires DirectNames(c, parts) == {} && RoutedKeys(c, parts) == {}
    ensures ParseRequest(c, parts, attrs).attrs == attrs
  {
    AttributesCharacterized(c, parts, attrs);
  }
}
