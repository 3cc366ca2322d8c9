/** `UploadFilter.UploadRequest`: the request wrapper that answers every
    parameter read from the merged map. Its other methods delegate to the
    wrapped request and are not part of this model. */
module ParameterView {
  import opened Wrappers
  import opened Multipart

  /** The wrapper holds nothing but the merged parameter map. */
  datatype UploadRequest = UploadRequest(parameters: Params)

  /** `getParameterValues`: the stored array, or null for an unknown name. */
  function GetParameterValues(req: UploadRequest, name: string): (r: Option<seq<string>>)
    ensures r.Some? <==> name in req.parameters
    ensures r.Some? ==> r.value == req.parameters[name]
  {
    if name in req.parameters then Some(req.parameters[name]) else None
  }

  /** `getParameter`: element 0 of what `getParameterValues` returns, or
      null when that is null. The stored array must have an element 0. */
  function GetParameter(req: UploadRequest, name: string): (r: Option<string>)
    requires name in req.parameters ==> |req.parameters[name]| > 0
    ensures r.Some? <==> GetParameterValues(req, name).Some?
    ensures r.Some? ==> r.value == GetParameterValues(req, name).value[0]
  {
    if name in req.parameters then Some(req.parameters[name][0]) else None
  }

  /** `getParameterNames`: the names for which `getParameterValues` answers. */
  function GetParameterNames(req: UploadRequest): (names: set<string>)
    ensures forall n :: n in names <==> GetParameterValues(req, n).Some?
  {
    req.parameters.Keys
  }

  /** `getParameterMap`: agrees with `getParameterValues` on every name. */
  function GetParameterMap(req: UploadRequest): (m: Params)
    ensures forall n :: n in m <==> GetParameterValues(req, n).Some?
    ensures forall n :: n in m ==> GetParameterValues(req, n) == Some(m[n])
  {
    req.parameters
  }
}
