/** A use case of usecase.go: its definition as configured, its materialisation
    against the current environment (`NewAPIUseCase`), its display prefix, and the
    two ways of running it (`Curl` in normal mode, `Test` in test mode). */
module UseCases {
  import opened Wrappers
  import opened JsonValue
  import opened Errors
  import opened Text
  import opened Scan
  import opened Binder
  import opened Template
  import Exchange

  /** A use case as the configuration declares it. */
  datatype UseCase = UseCase(
    name: string,
    httpMethod: string,
    endpoint: string,
    body: string,
    headers: map<string, string>,
    wantStatus: int,
    wantResponse: string,
    vars: map<string, string>,
    delay: int)

  /** A materialised use case. `body` is `None` until the body template has been
      resolved, as Go's `Body` reader stays nil until then. */
  datatype ApiUseCase = ApiUseCase(
    name: string,
    httpMethod: string,
    endpoint: string,
    body: Option<string>,
    headers: map<string, string>,
    vars: map<string, string>,
    wantStatus: int,
    wantResponse: string,
    delay: int)

  /** `Prefix`: `[Name] Method Endpoint`, or `Method Endpoint` when unnamed. */
  function Prefix(name: string, httpMethod: string, endpoint: string): (r: string)
    ensures |r| > |endpoint| && r[|r| - |endpoint|..] == endpoint
    ensures name == "" ==> |httpMethod| < |r| && r[..|httpMethod|] == httpMethod
    ensures name != "" ==> r[0] == '['
    ensures name == "" ==> |r| == |httpMethod| + 1 + |endpoint| && r[|httpMethod|] == ' '
  {
    if name != "" then "[" + name + "] " + httpMethod + " " + endpoint
    else httpMethod + " " + endpoint
  }

  /** A named prefix is the unnamed one behind the bracketed name and a space. */
  lemma PrefixNamed(name: string, httpMethod: string, endpoint: string)
    requires name != ""
    ensures Prefix(name, httpMethod, endpoint) == "[" + name + "] " + Prefix("", httpMethod, endpoint)
  {
  }

  /** The name of a named use case is read back from its prefix by the scanner that
      reads `key[i]` path segments, when the name holds no bracket. */
  lemma PrefixShowsName(name: string, httpMethod: string, endpoint: string)
    requires name != "" && '[' !in name && ']' !in name
    ensures ExtractSubstringBetween(Prefix(name, httpMethod, endpoint), '[', ']') == (name, "")
  {
    var rest := " " + httpMethod + " " + endpoint;
    ExtractBracketed("", name, rest, '[', ']');
    var p := Prefix(name, httpMethod, endpoint);
    assert p == "[" + name + "] " + httpMethod + " " + endpoint;
    assert p == "" + ['['] + name + [']'] + rest;
  }

  /** Every header value resolves. */
  predicate HeadersResolve(headers: map<string, string>, env: Json, resolve: Resolver)
  {
    forall k :: k in headers ==> resolve(headers[k], env).Success?
  }

  /** The header loop of `NewAPIUseCase`, visiting the headers in `order`: the first
      header whose value fails to resolve stops it, naming that original value. */
  function ResolveHeaders(headers: map<string, string>, order: seq<string>, env: Json, resolve: Resolver)
    : (r: Result<map<string, string>, string>)
    requires forall i :: 0 <= i < |order| ==> order[i] in headers
    ensures r.Success? <==> forall i :: 0 <= i < |order| ==> resolve(headers[order[i]], env).Success?
    ensures r.Success? ==> forall k :: k in r.value <==> k in order
    ensures r.Success? ==> forall k :: k in r.value ==> r.value[k] == resolve(headers[k], env).value
    ensures r.Failure? ==> exists i :: 0 <= i < |order| && r.error == headers[order[i]] && resolve(headers[order[i]], env).Failure?
    decreases |order|
  {
    if |order| == 0 then Success(map[])
    else
      var k := order[0];
      match resolve(headers[k], env)
      case Failure(_) => Failure(headers[k])
      case Success(v) =>
        match ResolveHeaders(headers, order[1..], env, resolve)
        case Failure(h) =>
          var i :| 0 <= i < |order[1..]| && h == headers[order[1..][i]] && resolve(headers[order[1..][i]], env).Failure?;
          assert order[i + 1] == order[1..][i];
          Failure(h)
        case Success(m) =>
          assert forall j :: 1 <= j < |order| ==> order[j] == order[1..][j - 1];
          Success(m[k := v])
  }

  /** The header map once every value has resolved. */
  function ResolvedHeaders(headers: map<string, string>, env: Json, resolve: Resolver): map<string, string>
    requires HeadersResolve(headers, env, resolve)
  {
    map k | k in headers :: resolve(headers[k], env).value
  }

  /** The use case and the error `NewAPIUseCase` returns; the use case is returned
      even on error, partially resolved, so that its prefix can be shown. */
  datatype Materialized = Materialized(api: ApiUseCase, err: Option<Error>)

  /** `NewAPIUseCase`: method, variables, expected status and response, and delay are
      copied as they are; headers, then name, then endpoint, then body are resolved,
      and the first failure returns what has been resolved so far with an error
      naming the field and its unresolved value. A header failure leaves the
      original header map in place. */
  function NewApiUseCase(env: Json, uc: UseCase, resolve: Resolver, headerOrder: seq<string>): (r: Materialized)
    requires Enumerates(headerOrder, uc.headers.Keys)
    ensures r.api.httpMethod == uc.httpMethod && r.api.vars == uc.vars && r.api.wantStatus == uc.wantStatus
    ensures r.api.wantResponse == uc.wantResponse && r.api.delay == uc.delay
    ensures r.err.None? <==>
      && HeadersResolve(uc.headers, env, resolve)
      && resolve(uc.name, env).Success? && resolve(uc.endpoint, env).Success? && resolve(uc.body, env).Success?
    ensures !HeadersResolve(uc.headers, env, resolve) ==>
      && r.api.headers == uc.headers && r.api.name == uc.name && r.api.endpoint == uc.endpoint && r.api.body == None
      && r.err.Some? && r.err.value.TemplateInvalid? && r.err.value.field == "header"
      && r.err.value.original in uc.headers.Values && resolve(r.err.value.original, env).Failure?
    ensures HeadersResolve(uc.headers, env, resolve) ==> r.api.headers == ResolvedHeaders(uc.headers, env, resolve)
    ensures HeadersResolve(uc.headers, env, resolve) && resolve(uc.name, env).Failure? ==>
      && r.api.name == uc.name && r.api.endpoint == uc.endpoint && r.api.body == None
      && r.err == Some(TemplateInvalid("name", uc.name))
    ensures HeadersResolve(uc.headers, env, resolve) && resolve(uc.name, env).Success? ==>
      r.api.name == resolve(uc.name, env).value
    ensures HeadersResolve(uc.headers, env, resolve) && resolve(uc.name, env).Success? && resolve(uc.endpoint, env).Failure? ==>
      && r.api.endpoint == uc.endpoint && r.api.body == None
      && r.err == Some(TemplateInvalid("endpoint", uc.endpoint))
    ensures HeadersResolve(uc.headers, env, resolve) && resolve(uc.name, env).Success? && resolve(uc.endpoint, env).Success? ==>
      r.api.endpoint == resolve(uc.endpoint, env).value
      && (resolve(uc.body, env).Failure? ==> r.api.body == None && r.err == Some(TemplateInvalid("body", uc.body)))
      && (resolve(uc.body, env).Success? ==> r.api.body == Some(resolve(uc.body, env).value))
  {
    var initial := ApiUseCase(uc.name, uc.httpMethod, uc.endpoint, None, uc.headers, uc.vars, uc.wantStatus, uc.wantResponse, uc.delay);
    HeaderOrderCovers(uc.headers, headerOrder, env, resolve);
    match ResolveHeaders(uc.headers, headerOrder, env, resolve)
    case Failure(h) => Materialized(initial, Some(TemplateInvalid("header", h)))
    case Success(hs) =>
      assert hs == ResolvedHeaders(uc.headers, env, resolve);
      var withHeaders := initial.(headers := hs);
      match resolve(uc.name, env)
      case Failure(_) => Materialized(withHeaders, Some(TemplateInvalid("name", uc.name)))
      case Success(name) =>
        var withName := withHeaders.(name := name);
        match resolve(uc.endpoint, env)
        case Failure(_) => Materialized(withName, Some(TemplateInvalid("endpoint", uc.endpoint)))
        case Success(endpoint) =>
          var withEndpoint := withName.(endpoint := endpoint);
          match resolve(uc.body, env)
          case Failure(_) => Materialized(withEndpoint, Some(TemplateInvalid("body", uc.body)))
          case Success(body) => Materialized(withEndpoint.(body := Some(body)), None)
  }

  /** Over an enumeration of the headers, the header loop succeeds exactly when every
      header resolves, and a failure names the value of a header that does not. */
  lemma HeaderOrderCovers(headers: map<string, string>, order: seq<string>, env: Json, resolve: Resolver)
    requires Enumerates(order, headers.Keys)
    ensures ResolveHeaders(headers, order, env, resolve).Success? <==> HeadersResolve(headers, env, resolve)
    ensures ResolveHeaders(headers, order, env, resolve).Failure? ==>
      ResolveHeaders(headers, order, env, resolve).error in headers.Values
  {
    var r := ResolveHeaders(headers, order, env, resolve);
    if HeadersResolve(headers, env, resolve) {
      assert forall i :: 0 <= i < |order| ==> order[i] in headers;
    } else {
      var k :| k in headers && resolve(headers[k], env).Failure?;
      assert k in order;
    }
    if r.Failure? {
      var i :| 0 <= i < |order| && r.error == headers[order[i]] && resolve(headers[order[i]], env).Failure?;
      assert headers[order[i]] in headers.Values;
    }
  }

  /** The resolver that leaves every template as it is. */
  function Verbatim(s: string, env: Json): Result<string, string>
  {
    Success(s)
  }

  /** With nothing to substitute, materialisation succeeds and changes no field. */
  lemma MaterializeVerbatim(env: Json, uc: UseCase, headerOrder: seq<string>)
    requires Enumerates(headerOrder, uc.headers.Keys)
    ensures NewApiUseCase(env, uc, Verbatim, headerOrder) ==
      Materialized(ApiUseCase(uc.name, uc.httpMethod, uc.endpoint, Some(uc.body), uc.headers,
                              uc.vars, uc.wantStatus, uc.wantResponse, uc.delay), None)
  {
    var r := NewApiUseCase(env, uc, Verbatim, headerOrder);
    assert r.api.headers == uc.headers;
  }

  /** The expectation of a test: the text between the first `{` and the first `}`
      of `WantResponse`, or empty when there is no such pair. */
  function Expectation(wantResponse: string): string
  {
    ExtractSubstringBetween(wantResponse, '{', '}').0
  }

  /** An expectation written as `{...}` anywhere after brace-free text is read back. */
  lemma ExpectationBracketed(pre: string, expected: string, rest: string)
    requires '{' !in pre && '}' !in pre && '}' !in expected
    ensures Expectation(pre + "{" + expected + "}" + rest) == expected
  {
    ExtractBracketed(pre, expected, rest, '{', '}');
  }

  /** A `WantResponse` without a `{`...`}` pair expects nothing. */
  lemma ExpectationWithoutBraces(wantResponse: string)
    requires !FirstBefore(wantResponse, '{', '}')
    ensures Expectation(wantResponse) == ""
  {
  }

  /** The binder of this use case's variables, visiting them in `order`. */
  function BindVars(vars: map<string, string>, order: seq<string>): Exchange.Bind
    requires Enumerates(order, vars.Keys)
  {
    (root, env) => SeekAndSetEnv(vars, order, root, env)
  }

  /** `Curl` of this use case: on success the body, and the environment with the
      variables bound; on any error an empty output. */
  function Curl(api: ApiUseCase, x: Exchange.Exchange, env: Json, varOrder: seq<string>): (r: Exchange.Read)
    requires Enumerates(varOrder, api.vars.Keys)
    ensures r.err.Some? ==> r.output == ""
    ensures r.err.None? <==>
      && x.Response? && x.body.Success?
      && (|api.vars| > 0 ==> x.decoded.Success? && SeekAndSetEnv(api.vars, varOrder, x.decoded.value, env).err.None?)
    ensures r.err.None? ==> r.output == x.body.value
    ensures r.err.None? && |api.vars| > 0 && env.Obj? ==> r.env == Obj(Expected(Extract, api.vars, x.decoded.value, env.fields))
    ensures r.env == env || (x.Response? && x.decoded.Success? && r.env == SeekAndSetEnv(api.vars, varOrder, x.decoded.value, env).env)
  {
    Exchange.Curl(|api.vars| > 0, x, env, BindVars(api.vars, varOrder))
  }

  /** `Test` of this use case, with the expectation taken from `WantResponse`. */
  function Test(api: ApiUseCase, x: Exchange.Exchange, env: Json, varOrder: seq<string>): (r: Exchange.Verdict)
    requires Enumerates(varOrder, api.vars.Keys)
    ensures r.err.None? <==>
      && x.Response? && x.body.Success?
      && (|api.vars| > 0 ==> x.decoded.Success? && SeekAndSetEnv(api.vars, varOrder, x.decoded.value, env).err.None?)
      && x.status == api.wantStatus
      && ContainsFold(x.body.value, Expectation(api.wantResponse))
    ensures x.Response? && x.body.Success? && |api.vars| > 0 && x.decoded.Success? ==>
      r.env == SeekAndSetEnv(api.vars, varOrder, x.decoded.value, env).env
    ensures r.env == env || (x.Response? && x.decoded.Success? && r.env == SeekAndSetEnv(api.vars, varOrder, x.decoded.value, env).env)
  {
    Exchange.Test(api.wantStatus, Expectation(api.wantResponse), |api.vars| > 0, x, env, BindVars(api.vars, varOrder))
  }
}
