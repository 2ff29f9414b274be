/** What happens after a materialised use case is sent, shared by both variants of
    the engine: `responseToString`, `Curl` and the verdict of `Test`. The HTTP
    exchange itself is an input: either the transport failed, or a response arrived
    whose body could or could not be read and decoded as JSON. */
module Exchange {
  import opened Wrappers
  import opened JsonValue
  import opened Errors
  import opened Text
  import opened Binder

  datatype Exchange =
      /** `http.NewRequest` or `http.DefaultClient.Do` failed. */
    | TransportError(reason: string)
      /** A response with its status, the outcome of `io.ReadAll` on its body, and the
          outcome `json.Unmarshal` would have on that body. */
    | Response(status: int, body: Result<string, string>, decoded: Result<Json, string>)

  /** Binds the variables of a use case from a decoded response root into an environment. */
  type Bind = (Json, Json) -> Bound

  /** The text handed back to the caller, the environment after binding, and the error. */
  datatype Read = Read(output: string, env: Json, err: Option<Error>)

  /** `responseToString`: read the body; without variables return it unparsed;
      otherwise decode it and bind, returning the body text even when decoding or
      binding fails. */
  function ResponseToString(hasVars: bool, body: Result<string, string>, decoded: Result<Json, string>, env: Json, bind: Bind): (r: Read)
    ensures body.Failure? ==> r == Read("", env, Some(ReadFailed(body.error)))
    ensures body.Success? ==> r.output == body.value
    ensures body.Success? && !hasVars ==> r.env == env && r.err.None?
    ensures body.Success? && hasVars && decoded.Failure? ==> r.env == env && r.err == Some(DecodeFailed(decoded.error))
    ensures body.Success? && hasVars && decoded.Success? ==>
      r.env == bind(decoded.value, env).env && r.err == bind(decoded.value, env).err
  {
    match body
    case Failure(reason) => Read("", env, Some(ReadFailed(reason)))
    case Success(text) =>
      if !hasVars then Read(text, env, None)
      else
        match decoded
        case Failure(reason) => Read(text, env, Some(DecodeFailed(reason)))
        case Success(root) =>
          var b := bind(root, env);
          Read(text, b.env, b.err)
  }

  /** Without variables the body is never decoded: the outcome does not depend on
      whether it is JSON at all. */
  lemma NoVarsNoDecode(body: Result<string, string>, d1: Result<Json, string>, d2: Result<Json, string>,
                       env: Json, bind: Bind)
    ensures ResponseToString(false, body, d1, env, bind) == ResponseToString(false, body, d2, env, bind)
  {
  }

  /** `Curl`: the body on success; on any error the body is discarded. */
  function Curl(hasVars: bool, x: Exchange, env: Json, bind: Bind): (r: Read)
    ensures r.err.Some? ==> r.output == ""
    ensures r.err.None? <==>
      x.Response? && ResponseToString(hasVars, x.body, x.decoded, env, bind).err.None?
    ensures r.err.None? ==> r.output == x.body.value
    ensures x.TransportError? ==> r == Read("", env, Some(TransportFailed(x.reason)))
    ensures x.Response? ==> r.env == ResponseToString(hasVars, x.body, x.decoded, env, bind).env
  {
    match x
    case TransportError(reason) => Read("", env, Some(TransportFailed(reason)))
    case Response(status, body, decoded) =>
      var out := ResponseToString(hasVars, body, decoded, env, bind);
      if out.err.Some? then Read("", out.env, out.err) else out
  }

  /** The verdict of a test run: the environment after binding, and the failure. */
  datatype Verdict = Verdict(env: Json, err: Option<Error>)

  /** `Test`: the exchange and binding errors come first; then a status other than
      `wantStatus` fails; then the check fails exactly when the lower-cased
      `expected` is not contained in the lower-cased body. */
  function Test(wantStatus: int, expected: string, hasVars: bool, x: Exchange, env: Json, bind: Bind): (r: Verdict)
    ensures x.TransportError? ==> r == Verdict(env, Some(TransportFailed(x.reason)))
    ensures x.Response? ==>
      var out := ResponseToString(hasVars, x.body, x.decoded, env, bind);
      && r.env == out.env
      && (out.err.Some? ==> r.err == out.err)
      && (out.err.None? && x.status != wantStatus ==> r.err == Some(StatusMismatch(wantStatus, x.status)))
      && (out.err.None? && x.status == wantStatus ==>
            (r.err.None? <==> ContainsFold(out.output, expected))
            && (r.err.Some? ==> r.err == Some(ResponseMismatch(expected, out.output))))
  {
    match x
    case TransportError(reason) => Verdict(env, Some(TransportFailed(reason)))
    case Response(status, body, decoded) =>
      var out := ResponseToString(hasVars, body, decoded, env, bind);
      if out.err.Some? then Verdict(out.env, out.err)
      else if wantStatus != status then Verdict(out.env, Some(StatusMismatch(wantStatus, status)))
      else if !Contains(ToLower(out.output), ToLower(expected)) then
        Verdict(out.env, Some(ResponseMismatch(expected, out.output)))
      else Verdict(out.env, None)
  }

  /** An empty expectation never fails the content check: a test passes exactly when
      the exchange and binding succeed and the status matches. */
  lemma EmptyExpectationPasses(wantStatus: int, hasVars: bool, x: Exchange, env: Json, bind: Bind)
    ensures Test(wantStatus, "", hasVars, x, env, bind).err.None? <==>
      x.Response? && ResponseToString(hasVars, x.body, x.decoded, env, bind).err.None? && x.status == wantStatus
  {
    if x.Response? {
      ContainsEmpty(ToLower(ResponseToString(hasVars, x.body, x.decoded, env, bind).output));
    }
  }
}
