/** The older variant of the engine in internal/usecase.go, which the command line
    does not use. It differs from usecase.go in four ways: its scanner answers
    `("", "")` when the delimiters are missing, binding paths are split on `,`, a
    bare segment is looked up (unstripped) at the current depth without descending,
    and materialisation never returns an error: only headers and endpoint are
    templated, and a template failure ends the process instead. */
module Legacy {
  import opened Wrappers
  import opened JsonValue
  import opened Errors
  import opened Text
  import Scan
  import opened Binder
  import opened Template
  import Exchange
  import UseCases

  /** The legacy `extractSubstringBetween`: like the current one when the first `s`
      precedes the first `e`, and `("", "")` otherwise. */
  function ExtractSubstringBetween(input: string, s: char, e: char): (r: (string, string))
    ensures Scan.FirstBefore(input, s, e) ==> r == Scan.ExtractSubstringBetween(input, s, e)
    ensures !Scan.FirstBefore(input, s, e) ==> r == ("", "")
  {
    Scan.FirstBeforeIndexes(input, s, e);
    var i := IndexOf(input, s);
    var j := IndexOf(input, e);
    if i == -1 || j == -1 || i >= j then ("", "")
    else (input[i + 1..j], input[..i])
  }

  /** Both scanners find the same text between the delimiters; only the text before
      differs, and only when there is no delimited text. */
  lemma SameDelimitedText(input: string, s: char, e: char)
    ensures ExtractSubstringBetween(input, s, e).0 == Scan.ExtractSubstringBetween(input, s, e).0
  {
  }

  /** One legacy path step from `depth`: the new depth and the value to bind. An
      indexed segment is taken exactly as in usecase.go and descends; any other
      segment is looked up as written, spaces and all, and the depth stays. */
  function LegacyStep(depth: Json, node: string): (r: Result<(Json, Json), Error>)
    ensures ParseSegment(node).Indexed? ==>
      match StepInto(depth, ParseSegment(node))
      case Success(v) => r == Success((v, v))
      case Failure(e) => r == Failure(e)
    ensures ParseSegment(node).Bare? ==>
      && (r.Success? <==> depth.Obj? && node in depth.fields)
      && (r.Success? ==> r.value == (depth, depth.fields[node]))
      && (r.Failure? ==> r.error == ResponseDoesNotContain(node))
  {
    SameDelimitedText(node, '[', ']');
    var (index, rest) := ExtractSubstringBetween(node, '[', ']');
    var index', rest' := RemoveSpaces(index), RemoveSpaces(rest);
    if index' != "" then
      match StepInto(depth, Indexed(rest', index'))
      case Failure(e) => Failure(e)
      case Success(v) => Success((v, v))
    else
      match StepInto(depth, Bare(node))
      case Failure(e) => Failure(e)
      case Success(v) => Success((depth, v))
  }

  /** The legacy walk; `value` is the value of the last segment taken, `nil` before
      the first. */
  function LegacyWalk(depth: Json, value: Json, segments: seq<string>): Result<Json, Error>
    decreases |segments|
  {
    if |segments| == 0 then Success(value)
    else
      match LegacyStep(depth, segments[0])
      case Failure(e) => Failure(e)
      case Success(next) => LegacyWalk(next.0, next.1, segments[1..])
  }

  /** The value a legacy binding's path selects: the path is split on `,`. */
  function LegacyExtract(root: Json, path: string): Result<Json, Error>
  {
    LegacyWalk(root, Null, Split(path, ','))
  }

  /** A segment without `[` is bare for the legacy scanner. */
  lemma BareSegment(depth: Json, node: string)
    requires '[' !in node
    ensures LegacyStep(depth, node) ==
      if depth.Obj? && node in depth.fields then Success((depth, depth.fields[node]))
      else Failure(ResponseDoesNotContain(node))
  {
    assert !Scan.FirstBefore(node, '[', ']');
  }

  /** A walk over bare segments never leaves `depth`: it succeeds exactly when every
      segment is a key of `depth`, and yields the value of the last one. */
  lemma {:induction false} BareWalk(depth: Json, value: Json, segments: seq<string>)
    requires forall i :: 0 <= i < |segments| ==> '[' !in segments[i]
    ensures LegacyWalk(depth, value, segments).Success? <==>
      |segments| == 0 || (depth.Obj? && forall i :: 0 <= i < |segments| ==> segments[i] in depth.fields)
    ensures LegacyWalk(depth, value, segments).Success? ==>
      LegacyWalk(depth, value, segments).value == if |segments| == 0 then value else depth.fields[segments[|segments| - 1]]
    decreases |segments|
  {
    if |segments| > 0 {
      BareSegment(depth, segments[0]);
      var tail := segments[1..];
      assert forall i :: 1 <= i < |segments| ==> tail[i - 1] == segments[i];
      if depth.Obj? && segments[0] in depth.fields {
        BareWalk(depth, depth.fields[segments[0]], tail);
        if |tail| > 0 {
          assert tail[|tail| - 1] == segments[|segments| - 1];
        }
      }
    }
  }

  /** A legacy path of bare keys `k1,k2,...,kn` needs every key at the root of the
      response and binds the root value of the last one. */
  lemma BarePath(root: Json, keys: seq<string>)
    requires |keys| >= 1
    requires forall i :: 0 <= i < |keys| ==> '[' !in keys[i] && ',' !in keys[i]
    ensures LegacyExtract(root, Join(keys, ',')).Success? <==>
      root.Obj? && forall i :: 0 <= i < |keys| ==> keys[i] in root.fields
    ensures LegacyExtract(root, Join(keys, ',')).Success? ==>
      LegacyExtract(root, Join(keys, ',')).value == root.fields[keys[|keys| - 1]]
  {
    SplitJoin(keys, ',');
    BareWalk(root, Null, keys);
  }

  /** The legacy `seekAndSetEnv`: the same declared-variables-only binding loop as
      usecase.go, over legacy paths. */
  function SeekAndSetEnv(vars: map<string, string>, order: seq<string>, root: Json, env: Json): (r: Bound)
    requires Enumerates(order, vars.Keys)
    ensures r.err.None? <==>
      |vars| == 0 || (env.Obj? && forall k :: k in vars ==> k in env.fields && Extracts(LegacyExtract, vars, root, k))
    ensures r.err.None? && env.Obj? ==> r.env == Obj(Expected(LegacyExtract, vars, root, env.fields))
    ensures !env.Obj? ==> r.env == env
    ensures env.Obj? ==> r.env.Obj? && r.env.fields.Keys == env.fields.Keys
  {
    SeekAndSetEnvFacts(LegacyExtract, vars, order, root, env);
    BindEach(LegacyExtract, vars, order, root, env)
  }

  /** A legacy use case as configured: no delay. */
  datatype UseCase = UseCase(
    name: string,
    httpMethod: string,
    endpoint: string,
    body: string,
    headers: map<string, string>,
    wantStatus: int,
    wantResponse: string,
    vars: map<string, string>)

  /** A materialised legacy use case; requests go to `baseUrl + endpoint`. */
  datatype ApiUseCase = ApiUseCase(
    name: string,
    httpMethod: string,
    baseUrl: string,
    endpoint: string,
    body: string,
    headers: map<string, string>,
    vars: map<string, string>,
    wantStatus: int,
    wantResponse: string)

  /** The legacy `NewAPIUseCase`. It has no error result: it resolves every header
      and the endpoint, and copies name and body verbatim. `None` stands for the
      process ending inside the template helper when a template fails. */
  function NewApiUseCase(baseUrl: string, env: Json, uc: UseCase, resolve: Resolver): (r: Option<ApiUseCase>)
    ensures r.None? <==> !UseCases.HeadersResolve(uc.headers, env, resolve) || resolve(uc.endpoint, env).Failure?
    ensures r.Some? ==>
      && r.value.name == uc.name && r.value.body == uc.body
      && r.value.httpMethod == uc.httpMethod && r.value.baseUrl == baseUrl
      && r.value.endpoint == resolve(uc.endpoint, env).value
      && r.value.headers.Keys == uc.headers.Keys
      && (forall k :: k in uc.headers ==> r.value.headers[k] == resolve(uc.headers[k], env).value)
      && r.value.vars == uc.vars && r.value.wantStatus == uc.wantStatus && r.value.wantResponse == uc.wantResponse
  {
    if !UseCases.HeadersResolve(uc.headers, env, resolve) || resolve(uc.endpoint, env).Failure? then None
    else
      var headers := UseCases.ResolvedHeaders(uc.headers, env, resolve);
      Some(ApiUseCase(uc.name, uc.httpMethod, baseUrl, resolve(uc.endpoint, env).value, uc.body, headers,
                      uc.vars, uc.wantStatus, uc.wantResponse))
  }

  /** Where the current materialisation succeeds, the legacy one does too, with the
      same headers and endpoint but the name and body left untemplated. */
  lemma LegacyLeavesNameAndBody(baseUrl: string, env: Json, uc: UseCases.UseCase, resolve: Resolver, headerOrder: seq<string>)
    requires Enumerates(headerOrder, uc.headers.Keys)
    requires UseCases.NewApiUseCase(env, uc, resolve, headerOrder).err.None?
    ensures var configured := UseCase(uc.name, uc.httpMethod, uc.endpoint, uc.body, uc.headers, uc.wantStatus, uc.wantResponse, uc.vars);
      var legacy := NewApiUseCase(baseUrl, env, configured, resolve);
      var current := UseCases.NewApiUseCase(env, uc, resolve, headerOrder).api;
      && legacy.Some?
      && legacy.value.headers == current.headers && legacy.value.endpoint == current.endpoint
      && legacy.value.name == uc.name && legacy.value.body == uc.body
      && current.name == resolve(uc.name, env).value && current.body == Some(resolve(uc.body, env).value)
  {
  }

  /** The legacy `Prefix`, written out on its own. */
  function Prefix(api: ApiUseCase): (r: string)
    ensures r == UseCases.Prefix(api.name, api.httpMethod, api.endpoint)
  {
    var prefix := api.httpMethod + " " + api.endpoint;
    if api.name != "" then "[" + api.name + "] " + api.httpMethod + " " + api.endpoint else prefix
  }

  function BindVars(vars: map<string, string>, order: seq<string>): Exchange.Bind
    requires Enumerates(order, vars.Keys)
  {
    (root, env) => SeekAndSetEnv(vars, order, root, env)
  }

  /** The legacy `Curl`: as in usecase.go, over legacy bindings. */
  function Curl(api: ApiUseCase, x: Exchange.Exchange, env: Json, varOrder: seq<string>): (r: Exchange.Read)
    requires Enumerates(varOrder, api.vars.Keys)
    ensures r.err.Some? ==> r.output == ""
    ensures r.err.None? <==>
      && x.Response? && x.body.Success?
      && (|api.vars| > 0 ==> x.decoded.Success? && SeekAndSetEnv(api.vars, varOrder, x.decoded.value, env).err.None?)
    ensures r.err.None? ==> r.output == x.body.value
    ensures x.Response? && x.body.Success? && |api.vars| > 0 && x.decoded.Success? ==>
      r.env == SeekAndSetEnv(api.vars, varOrder, x.decoded.value, env).env
    ensures !(x.Response? && x.body.Success? && |api.vars| > 0 && x.decoded.Success?) ==> r.env == env
  {
    Exchange.Curl(|api.vars| > 0, x, env, BindVars(api.vars, varOrder))
  }

  /** The legacy `Test`: binding, then status, then case-insensitive containment of
      the `{...}` expectation found by the legacy scanner, which is the same text
      the current scanner finds. */
  function Test(api: ApiUseCase, x: Exchange.Exchange, env: Json, varOrder: seq<string>): (r: Exchange.Verdict)
    requires Enumerates(varOrder, api.vars.Keys)
    ensures r.err.None? <==>
      && x.Response? && x.body.Success?
      && (|api.vars| > 0 ==> x.decoded.Success? && SeekAndSetEnv(api.vars, varOrder, x.decoded.value, env).err.None?)
      && x.status == api.wantStatus
      && ContainsFold(x.body.value, UseCases.Expectation(api.wantResponse))
    ensures r == Exchange.Test(api.wantStatus, UseCases.Expectation(api.wantResponse), |api.vars| > 0, x, env, BindVars(api.vars, varOrder))
    ensures x.Response? && x.body.Success? && |api.vars| > 0 && x.decoded.Success? ==>
      r.env == SeekAndSetEnv(api.vars, varOrder, x.decoded.value, env).env
  {
    SameDelimitedText(api.wantResponse, '{', '}');
    var expected := ExtractSubstringBetween(api.wantResponse, '{', '}').0;
    Exchange.Test(api.wantStatus, expected, |api.vars| > 0, x, env, BindVars(api.vars, varOrder))
  }
}
