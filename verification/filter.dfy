/** `UploadFilter.doFilter`: gate on multipart content, decode (or record
    the decode failure), reconcile the parts, fold in the original
    parameters, and hand the wrapped request on. */
module Filter {
  import opened Wrappers
  import opened Decimal
  import opened Multipart
  import opened Reconciler
  import opened ReconcilerLaws
  import opened Merger
  import opened ParameterView
  import opened FilterConfig

  /** What the multipart decoder returns: the parts in arrival order, or the
      `FileUploadException` it threw (a size-limit breach among others). */
  datatype Decoded = Decoded(parts: seq<Part>) | DecodeFailed(cause: string)

  /** The incoming request as the filter sees it: its attributes, and its own
      parameters with the order `getParameterNames` enumerates them in. */
  datatype Request = Request(attrs: Attributes, parameters: Params, parameterNames: seq<string>)

  /** What the servlet container guarantees of a request's parameters: the
      enumeration lists each name once and every array is non-empty. */
  predicate ValidRequest(req: Request) {
    && Distinct(req.parameterNames)
    && (forall n :: n in req.parameterNames ==> n in req.parameters)
    && (forall k :: k in req.parameters ==> k in req.parameterNames)
    && WellFormed(req.parameters)
  }

  /** How `doFilter` ends: the request passed on untouched, the wrapped
      request passed on (with the attributes set on the way), or the merge
      loop's exception (after the attributes were set). */
  datatype FilterResult =
    | PassedThrough(request: Request)
    | Forwarded(attrs: Attributes, wrapped: UploadRequest)
    | Threw(attrs: Attributes, error: MergeError)

  /** The attributes a failed decode leaves: the exception under
      `UPLOAD_ERROR_KEY`, then `maxSize` as decimal text under `FILE_SIZE_KEY`. */
  function DecodeFailureAttrs(c: Conventions, cfg: Config, cause: string, attrs: Attributes): Attributes {
    attrs[c.uploadErrorKey := UploadError(cause)][c.fileSizeKey := Text(LongToString(cfg.maxSize))]
  }

  /** The attributes and body parameters `doFilter` has before the merge. */
  function BodyFields(c: Conventions, cfg: Config, decoded: Decoded, attrs: Attributes): (r: Parsed)
    ensures WellFormed(r.params)
  {
    match decoded
    case DecodeFailed(cause) => Parsed(DecodeFailureAttrs(c, cfg, cause, attrs), map[])
    case Decoded(parts) => ParseRequest(c, parts, attrs)
  }

  /** `doFilter`. `isMultipart` is `ServletFileUpload.isMultipartContent`,
      `decoded` the decoder's answer (consulted only for multipart requests). */
  function DoFilter(c: Conventions, cfg: Config, isMultipart: bool, decoded: Decoded, req: Request): (r: FilterResult)
    requires ValidRequest(req)
    ensures r.PassedThrough? <==> !isMultipart
    ensures r.PassedThrough? ==> r.request == req
    ensures r.Forwarded? ==> WellFormed(r.wrapped.parameters)
    ensures r.Forwarded? ==> req.parameters.Keys <= r.wrapped.parameters.Keys
  {
    if !isMultipart then PassedThrough(req)
    else
      var body := BodyFields(c, cfg, decoded, req.attrs);
      match MergeOriginal(body.params, req.parameterNames, req.parameters)
      case Success(merged) => Forwarded(body.attrs, UploadRequest(merged))
      case Failure(e) => Threw(body.attrs, e)
  }

  /** A failed decode does not stop the request: the error and the size
      limit (as text `Long.parseLong` reads back as `maxSize`) are set, and
      the wrapped request carries only the original parameters, each as its
      first value. */
  lemma DecodeFailureContinues(c: Conventions, cfg: Config, cause: string, req: Request)
    requires ValidRequest(req)
    ensures var r := DoFilter(c, cfg, true, DecodeFailed(cause), req);
      && r.Forwarded?
      && r.attrs[c.fileSizeKey] == Text(LongToString(cfg.maxSize))
      && (c.uploadErrorKey != c.fileSizeKey ==> r.attrs[c.uploadErrorKey] == UploadError(cause))
      && (forall k :: k in req.attrs && k != c.uploadErrorKey && k != c.fileSizeKey ==> r.attrs[k] == req.attrs[k])
      && (LongMin <= cfg.maxSize <= LongMax ==> ParseLong(r.attrs[c.fileSizeKey].value) == Some(cfg.maxSize))
      && r.wrapped.parameters == FirstValues(req.parameters)
  {
    var attrs := DecodeFailureAttrs(c, cfg, cause, req.attrs);
    assert BodyFields(c, cfg, DecodeFailed(cause), req.attrs) == Parsed(attrs, map[]);
    MergeIsUnion(map[], req.parameterNames, req.parameters);
    var merged := MergeOriginal(map[], req.parameterNames, req.parameters);
    assert merged.Success? && merged.value == FirstValues(req.parameters);
    assert DoFilter(c, cfg, true, DecodeFailed(cause), req) == Forwarded(attrs, UploadRequest(merged.value));
    DecodeFailureAttrsSet(c, cfg, cause, req.attrs);
  }

  lemma DecodeFailureAttrsSet(c: Conventions, cfg: Config, cause: string, attrs: Attributes)
    ensures var r := DecodeFailureAttrs(c, cfg, cause, attrs);
      && r[c.fileSizeKey] == Text(LongToString(cfg.maxSize))
      && (c.uploadErrorKey != c.fileSizeKey ==> r[c.uploadErrorKey] == UploadError(cause))
      && (forall k :: k in attrs && k != c.uploadErrorKey && k != c.fileSizeKey ==> r[k] == attrs[k])
      && (LongMin <= cfg.maxSize <= LongMax ==> ParseLong(r[c.fileSizeKey].value) == Some(cfg.maxSize))
  {
    if LongMin <= cfg.maxSize <= LongMax {
      LongTextRoundTrip(cfg.maxSize);
    }
  }

  /** A decoded body: the wrapped request is passed on exactly when no
      original parameter shares a name with a body parameter. It then holds
      the body's parameters unchanged plus each original-only parameter as
      its first value; otherwise the merge throws on a shared name. Either
      way the attributes are those `parseRequest` left. */
  lemma DecodedRequest(c: Conventions, cfg: Config, parts: seq<Part>, req: Request)
    requires ValidRequest(req)
    ensures var r := DoFilter(c, cfg, true, Decoded(parts), req);
      var parsed := ParseRequest(c, parts, req.attrs);
      && (r.Forwarded? <==> parsed.params.Keys !! req.parameters.Keys)
      && (r.Forwarded? ==> r.attrs == parsed.attrs && r.wrapped.parameters == parsed.params + FirstValues(req.parameters))
      && (r.Threw? ==> r.attrs == parsed.attrs && r.error.name in parsed.params && r.error.name in req.parameters)
  {
    MergeIsUnion(ParseRequest(c, parts, req.attrs).params, req.parameterNames, req.parameters);
  }

  /** A field that stays a body parameter (neither a direct upload, a
      routing key nor a routed target) and is also among the original
      request's parameters is not appended to: the merge throws. */
  lemma SharedFieldThrows(c: Conventions, cfg: Config, parts: seq<Part>, req: Request, name: string)
    requires ValidRequest(req)
    requires name in ExpectedParams(c, parts) && name in req.parameters
    ensures var r := DoFilter(c, cfg, true, Decoded(parts), req);
      var parsed := ParseRequest(c, parts, req.attrs);
      && r.Threw?
      && r.attrs == parsed.attrs
      && r.error.name in parsed.params && r.error.name in req.parameters
  {
    ParamsCharacterized(c, parts, req.attrs);
    DecodedRequest(c, cfg, parts, req);
  }

  /** Two body parts `colors` = `red`, `blue` with a query parameter
      `colors` = `green` do not give `red, blue, green`: the merge throws on
      `colors`. */
  lemma ColorsThrow(c: Conventions, cfg: Config, attrs: Attributes)
    requires !IsDirect(c, "colors") && !IsRouting(c, "colors")
    ensures var req := Request(attrs, map["colors" := ["green"]], ["colors"]);
      DoFilter(c, cfg, true, Decoded([Part("colors", "red"), Part("colors", "blue")]), req)
        == Threw(attrs, UnsupportedAdd("colors"))
  {
    var parts := [Part("colors", "red"), Part("colors", "blue")];
    var req := Request(attrs, map["colors" := ["green"]], ["colors"]);
    assert ValidRequest(req);
    assert forall p :: p in parts ==> p.fieldName == "colors";
    assert parts[0] in parts;
    PlainFieldStays(c, parts, "colors");
    PlainSets(c, parts);
    PlainAttrs(c, parts, attrs);
    SharedFieldThrows(c, cfg, parts, req, "colors");
  }

  /** In a body with no direct or routing names every field stays a parameter. */
  lemma PlainFieldStays(c: Conventions, parts: seq<Part>, name: string)
    requires forall p :: p in parts ==> !IsDirect(c, p.fieldName) && !IsRouting(c, p.fieldName)
    requires name in FieldNames(parts)
    ensures name in ExpectedParams(c, parts)
  {
    PlainSets(c, parts);
  }

  /** What downstream code reads from the wrapped request after a decoded
      body: a body field answers with its parts' texts in arrival order, an
      original-only parameter with its first value, and a routing key or a
      matched target with null. */
  lemma ForwardedReads(c: Conventions, cfg: Config, parts: seq<Part>, req: Request, name: string)
    requires ValidRequest(req)
    requires DoFilter(c, cfg, true, Decoded(parts), req).Forwarded?
    ensures var view := DoFilter(c, cfg, true, Decoded(parts), req).wrapped;
      && (name in ExpectedParams(c, parts) ==> GetParameterValues(view, name) == Some(Texts(Named(parts, name))))
      && (name in req.parameters ==> GetParameter(view, name) == Some(req.parameters[name][0]))
      && (name !in req.parameters && (name in RoutingKeys(c, parts) || name in MatchedTargets(c, parts)) ==>
            GetParameter(view, name).None?)
  {
    DecodedRequest(c, cfg, parts, req);
    ParamsCharacterized(c, parts, req.attrs);
  }

  /** With the default limit, a failed decode reports the text "1000000". */
  lemma DefaultLimitText()
    ensures LongToString(DefaultMaxSize) == "1000000"
  {
    assert NatDigits(1) == "1";
    assert NatDigits(10) == "10";
    assert NatDigits(100) == "100";
    assert NatDigits(1000) == "1000";
    assert NatDigits(10000) == "10000";
    assert NatDigits(100000) == "100000";
  }
}
