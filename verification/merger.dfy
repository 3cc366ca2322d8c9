/** The loop of `doFilter` that folds the original request's own parameters
    (those that did not come from the multipart body, such as the query
    string) into the map built from the body. */
module Merger {
  import opened Wrappers
  import opened Multipart

  /** Adding to the list `Arrays.asList` returns throws
      `UnsupportedOperationException`: that list has a fixed size. The name
      is the parameter whose value was being appended. */
  datatype MergeError = UnsupportedAdd(name: string)

  predicate Distinct(names: seq<string>) {
    forall i, j :: 0 <= i < j < |names| ==> names[i] != names[j]
  }

  /** Each original parameter as a one-element array of its first value
      (what `getParameter` returns). */
  function FirstValues(original: Params): (r: Params)
    requires WellFormed(original)
  {
    map k | k in original :: [original[k][0]]
  }

  /** The merge loop over the original request's parameter names, in the
      order `getParameterNames` yields them: a name absent from
      `parameters` is put as `{getParameter(name)}`; a name already there
      makes the loop throw. */
  function MergeOriginal(parameters: Params, names: seq<string>, original: Params): (r: Result<Params, MergeError>)
    requires Distinct(names)
    requires forall n :: n in names ==> n in original && |original[n]| > 0
    ensures r.Success? <==> forall n :: n in names ==> n !in parameters
    ensures r.Failure? ==> r.error.name in names && r.error.name in parameters
    ensures r.Success? ==> r.value.Keys == parameters.Keys + (set n | n in names)
    ensures r.Success? ==> forall k :: k in parameters ==> r.value[k] == parameters[k]
    ensures r.Success? ==> forall n :: n in names ==> r.value[n] == [original[n][0]]
    decreases |names|
  {
    if |names| == 0 then Success(parameters)
    else
      var name := names[0];
      if name !in parameters then
        assert forall n :: n in names[1..] ==> n != name;
        MergeOriginal(parameters[name := [original[name][0]]], names[1..], original)
      else
        Failure(UnsupportedAdd(name))
  }

  /** Over a complete enumeration of the original names the merge succeeds
      exactly when no name is shared, and then yields the body's map with
      every original parameter's first value added; the enumeration order
      does not matter. */
  lemma MergeIsUnion(parameters: Params, names: seq<string>, original: Params)
    requires Distinct(names) && WellFormed(original)
    requires forall n :: n in names <==> n in original
    ensures var r := MergeOriginal(parameters, names, original);
      && (r.Success? <==> parameters.Keys !! original.Keys)
      && (r.Success? ==> r.value == parameters + FirstValues(original))
  {
    var r := MergeOriginal(parameters, names, original);
    if r.Success? {
      var u := parameters + FirstValues(original);
      assert r.value.Keys == u.Keys;
      forall k | k in u
        ensures r.value[k] == u[k]
      {
        if k in original {
          assert k in names;
        }
      }
    }
  }
}
