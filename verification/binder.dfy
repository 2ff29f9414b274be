/** The path extractor and variable binder of usecase.go: `getValueForKey`,
    `setValueForKey` and `seekAndSetEnv`. A binding `name: path` walks the decoded
    response from its root along the `.`-separated segments of `path`, each a bare
    `key` or an indexed `key[i]`, and writes the value reached into the declared
    variable `name` of the environment. */
module Binder {
  import opened Wrappers
  import opened JsonValue
  import opened Errors
  import opened Text
  import opened Scan
  import Strconv

  /** `getValueForKey`: the member `key` of an object. */
  function GetValueForKey(data: Json, key: string): (r: Result<Json, Error>)
    ensures r.Success? <==> data.Obj? && key in data.fields
    ensures r.Success? ==> r.value == data.fields[key]
    ensures !data.Obj? ==> r == Failure(NotAMap)
    ensures data.Obj? && key !in data.fields ==> r == Failure(KeyNotFound(key))
  {
    match data
    case Obj(m) => if key in m then Success(m[key]) else Failure(KeyNotFound(key))
    case _ => Failure(NotAMap)
  }

  /** `setValueForKey`: overwrite an already declared variable. The set of declared
      variables never changes, and no other variable is touched. */
  function SetValueForKey(env: Json, key: string, value: Json): (r: Result<Json, Error>)
    ensures !env.Obj? ==> r == Failure(NotAMap)
    ensures env.Obj? && key !in env.fields ==> r == Failure(NotDefinedInConfig(key))
    ensures env.Obj? && key in env.fields ==>
      && r.Success? && r.value.Obj?
      && r.value.fields.Keys == env.fields.Keys
      && r.value.fields[key] == value
      && (forall k :: k in env.fields && k != key ==> r.value.fields[k] == env.fields[k])
  {
    match env
    case Obj(m) => if key in m then Success(Obj(m[key := value])) else Failure(NotDefinedInConfig(key))
    case _ => Failure(NotAMap)
  }

  /** One path segment after scanning: a bare key, or a key with a non-empty index text. */
  datatype Segment = Bare(key: string) | Indexed(key: string, index: string)

  /** How `seekAndSetEnv` reads one segment: the text between the first `[` and the
      first following `]` is the index and the text before that `[` the key, both
      with every space removed; anything after the `]` is ignored. An empty index
      (`key[]`) or a segment without brackets is a bare key. */
  function ParseSegment(node: string): (seg: Segment)
    ensures ' ' !in seg.key
    ensures seg.Indexed? ==> seg.index != "" && ' ' !in seg.index
    ensures !FirstBefore(node, '[', ']') ==> seg == Bare(RemoveSpaces(node))
  {
    var (index, rest) := ExtractSubstringBetween(node, '[', ']');
    var index', rest' := RemoveSpaces(index), RemoveSpaces(rest);
    if index' != "" then Indexed(rest', index') else Bare(rest')
  }

  /** Scanning `key[index]tail` gives back the key and index, spaces removed. */
  lemma ParseIndexedSegment(key: string, index: string, tail: string)
    requires '[' !in key && ']' !in key && ']' !in index
    requires RemoveSpaces(index) != ""
    ensures ParseSegment(key + "[" + index + "]" + tail) == Indexed(RemoveSpaces(key), RemoveSpaces(index))
  {
    ExtractBracketed(key, index, tail, '[', ']');
  }

  /** `key[]`, or brackets holding only spaces, reads as the bare key. */
  lemma ParseEmptyIndex(key: string, spaces: string, tail: string)
    requires '[' !in key && ']' !in key
    requires forall i :: 0 <= i < |spaces| ==> spaces[i] == ' '
    ensures ParseSegment(key + "[" + spaces + "]" + tail) == Bare(RemoveSpaces(key))
  {
    ExtractBracketed(key, spaces, tail, '[', ']');
    OnlySpaces(spaces);
  }

  lemma {:induction false} OnlySpaces(s: string)
    requires forall i :: 0 <= i < |s| ==> s[i] == ' '
    ensures RemoveSpaces(s) == ""
  {
    if |s| > 0 {
      OnlySpaces(s[1..]);
    }
  }

  /** One step of the walk from the current node. A bare key must name a member of
      an object, and the walk descends into it. An indexed step first parses the
      index, then needs the member to be an array with `0 <= index < length`, and
      descends into that element. */
  function StepInto(node: Json, seg: Segment): (r: Result<Json, Error>)
    ensures seg.Bare? ==>
      (r.Success? <==> node.Obj? && seg.key in node.fields)
      && (r.Success? ==> r.value == node.fields[seg.key])
      && (r.Failure? ==> r.error == ResponseDoesNotContain(seg.key))
    ensures seg.Indexed? && Strconv.Atoi(seg.index).Failure? ==>
      r == Failure(BadIndex(Strconv.Atoi(seg.index).error))
    ensures seg.Indexed? && Strconv.Atoi(seg.index).Success? ==>
      var i := Strconv.Atoi(seg.index).value;
      (r.Success? <==>
        && node.Obj? && seg.key in node.fields
        && node.fields[seg.key].Arr? && 0 <= i < |node.fields[seg.key].items|)
      && (r.Success? ==> r.value == node.fields[seg.key].items[i])
      && (r.Failure? ==>
            if !node.Obj? || seg.key !in node.fields then r.error == ResponseDoesNotContain(seg.key)
            else if !node.fields[seg.key].Arr? then r.error == NotAnArray(node.fields[seg.key])
            else r.error == IndexOutOfBounds(seg.key, |node.fields[seg.key].items|))
  {
    match seg
    case Bare(key) =>
      (match GetValueForKey(node, key)
       case Failure(_) => Failure(ResponseDoesNotContain(key))
       case Success(v) => Success(v))
    case Indexed(key, index) =>
      match Strconv.Atoi(index)
      case Failure(e) => Failure(BadIndex(e))
      case Success(i) =>
        match GetValueForKey(node, key)
        case Failure(_) => Failure(ResponseDoesNotContain(key))
        case Success(v) =>
          if !v.Arr? then Failure(NotAnArray(v))
          else if i < 0 || i >= |v.items| then Failure(IndexOutOfBounds(key, |v.items|))
          else Success(v.items[i])
  }

  /** The walk over the segments of a path, left to right, each step from the node
      the previous one reached. */
  function Walk(node: Json, segments: seq<string>): Result<Json, Error>
    decreases |segments|
  {
    if |segments| == 0 then Success(node)
    else
      match StepInto(node, ParseSegment(segments[0]))
      case Failure(e) => Failure(e)
      case Success(next) => Walk(next, segments[1..])
  }

  /** Walking `a + b` is walking `a`, then `b` from wherever `a` ended. */
  lemma {:induction false} WalkAppend(node: Json, a: seq<string>, b: seq<string>)
    ensures Walk(node, a + b) == match Walk(node, a) case Failure(e) => Failure(e) case Success(v) => Walk(v, b)
    decreases |a|
  {
    if |a| == 0 {
      assert a + b == b;
    } else {
      assert (a + b)[0] == a[0];
      assert (a + b)[1..] == a[1..] + b;
      match StepInto(node, ParseSegment(a[0]))
      case Failure(_) =>
      case Success(next) => WalkAppend(next, a[1..], b);
    }
  }

  /** The value a binding's path selects in a decoded response: the path is split
      on `.` and walked from the root. */
  function Extract(root: Json, path: string): Result<Json, Error>
  {
    Walk(root, Split(path, '.'))
  }

  /** `order` lists every key of `keys` exactly once: the order in which Go's map
      iteration happened to visit them. */
  predicate Enumerates(order: seq<string>, keys: set<string>)
  {
    && (forall i :: 0 <= i < |order| ==> order[i] in keys)
    && (forall k :: k in keys ==> k in order)
    && (forall i, j :: 0 <= i < j < |order| ==> order[i] != order[j])
  }

  /** The environment after binding, and the error that stopped binding, if any. */
  datatype Bound = Bound(env: Json, err: Option<Error>)

  /** How a binding's path selects a value from the response root. */
  type Extractor = (Json, string) -> Result<Json, Error>

  /** Binding `k` has a path, and it selects a value from the response root. */
  predicate Extracts(extract: Extractor, vars: map<string, string>, root: Json, k: string)
  {
    k in vars && extract(root, vars[k]).Success?
  }

  /** The bindings of `order`, one after the other, each from the response root.
      The first failure stops the loop, keeping the writes already made. */
  function BindEach(extract: Extractor, vars: map<string, string>, order: seq<string>, root: Json, env: Json): Bound
    requires forall i :: 0 <= i < |order| ==> order[i] in vars
    decreases |order|
  {
    if |order| == 0 then Bound(env, None)
    else
      var k := order[0];
      match extract(root, vars[k])
      case Failure(e) => Bound(env, Some(e))
      case Success(v) =>
        match SetValueForKey(env, k, v)
        case Failure(e) => Bound(env, Some(e))
        case Success(env') => BindEach(extract, vars, order[1..], root, env')
  }

  /** Binding succeeds exactly when the environment is an object declaring every
      target and every path extracts. */
  lemma {:induction false} BindEachSucceeds(extract: Extractor, vars: map<string, string>, order: seq<string>, root: Json, env: Json)
    requires forall i :: 0 <= i < |order| ==> order[i] in vars
    ensures BindEach(extract, vars, order, root, env).err.None? <==>
      |order| == 0 || (env.Obj? && forall i :: 0 <= i < |order| ==> order[i] in env.fields && Extracts(extract, vars, root, order[i]))
    decreases |order|
  {
    if |order| > 0 {
      var k := order[0];
      var tail := order[1..];
      assert forall i :: 1 <= i < |order| ==> tail[i - 1] == order[i];
      match extract(root, vars[k])
      case Failure(e) =>
      case Success(v) =>
        match SetValueForKey(env, k, v)
        case Failure(e) =>
        case Success(env') =>
          BindEachSucceeds(extract, vars, tail, root, env');
          assert env'.Obj? && env'.fields.Keys == env.fields.Keys;
    }
  }

  /** Binding never adds or removes a declared variable. Every variable ends with its
      old value or the value its own path selects; on success, every bound variable
      holds that value. */
  lemma {:induction false} BindEachWrites(extract: Extractor, vars: map<string, string>, order: seq<string>, root: Json, env: Json)
    requires forall i :: 0 <= i < |order| ==> order[i] in vars
    requires forall i, j :: 0 <= i < j < |order| ==> order[i] != order[j]
    requires env.Obj?
    ensures var r := BindEach(extract, vars, order, root, env);
      && r.env.Obj? && r.env.fields.Keys == env.fields.Keys
      && (forall k :: k in env.fields && k !in order ==> r.env.fields[k] == env.fields[k])
      && (forall k :: k in env.fields ==>
            r.env.fields[k] == env.fields[k] || (Extracts(extract, vars, root, k) && r.env.fields[k] == extract(root, vars[k]).value))
      && (r.err.None? ==> forall k :: k in env.fields && k in order ==>
            Extracts(extract, vars, root, k) && r.env.fields[k] == extract(root, vars[k]).value)
    decreases |order|
  {
    if |order| > 0 {
      var k := order[0];
      var tail := order[1..];
      assert forall i :: 1 <= i < |order| ==> tail[i - 1] == order[i];
      assert k !in tail;
      assert forall x :: x in order ==> x == k || x in tail;
      match extract(root, vars[k])
      case Failure(e) =>
      case Success(v) =>
        match SetValueForKey(env, k, v)
        case Failure(e) =>
        case Success(env') =>
          BindEachWrites(extract, vars, tail, root, env');
    }
  }

  /** The environment a successful `seekAndSetEnv` leaves: every bound variable holds
      the value its path selects, every other variable keeps its value. */
  function Expected(extract: Extractor, vars: map<string, string>, root: Json, fields: map<string, Json>): map<string, Json>
  {
    map k | k in fields :: if Extracts(extract, vars, root, k) then extract(root, vars[k]).value else fields[k]
  }

  /** The facts `SeekAndSetEnv` promises, gathered from the two `BindEach` lemmas. */
  lemma SeekAndSetEnvFacts(extract: Extractor, vars: map<string, string>, order: seq<string>, root: Json, env: Json)
    requires Enumerates(order, vars.Keys)
    ensures var r := BindEach(extract, vars, order, root, env);
      && (r.err.None? <==>
            |vars| == 0 || (env.Obj? && forall k :: k in vars ==> k in env.fields && Extracts(extract, vars, root, k)))
      && (r.err.None? && env.Obj? ==> r.env == Obj(Expected(extract, vars, root, env.fields)))
      && (!env.Obj? ==> r.env == env)
      && (env.Obj? ==> r.env.Obj? && r.env.fields.Keys == env.fields.Keys)
      && (env.Obj? ==> forall k :: k in env.fields ==>
            r.env.fields[k] == env.fields[k] || (Extracts(extract, vars, root, k) && r.env.fields[k] == extract(root, vars[k]).value))
  {
    OrderCoversVars(extract, vars, order, root, env);
    if env.Obj? {
      BindEachWrites(extract, vars, order, root, env);
      ExpectedOnSuccess(extract, vars, order, root, env);
    } else {
      NonObjectUntouched(extract, vars, order, root, env);
    }
  }

  /** The success condition of `BindEach`, restated over the keys of `vars`. */
  lemma OrderCoversVars(extract: Extractor, vars: map<string, string>, order: seq<string>, root: Json, env: Json)
    requires Enumerates(order, vars.Keys)
    ensures BindEach(extract, vars, order, root, env).err.None? <==>
      |vars| == 0 || (env.Obj? && forall k :: k in vars ==> k in env.fields && Extracts(extract, vars, root, k))
  {
    BindEachSucceeds(extract, vars, order, root, env);
    if |vars| != 0 {
      var k :| k in vars;
      assert k in order;
    }
    if |order| != 0 {
      assert order[0] in vars;
    }
  }

  /** On success the environment is `Expected`, in whatever order the bindings ran. */
  lemma ExpectedOnSuccess(extract: Extractor, vars: map<string, string>, order: seq<string>, root: Json, env: Json)
    requires Enumerates(order, vars.Keys)
    requires env.Obj?
    ensures var r := BindEach(extract, vars, order, root, env);
      r.err.None? ==> r.env == Obj(Expected(extract, vars, root, env.fields))
  {
    var r := BindEach(extract, vars, order, root, env);
    BindEachWrites(extract, vars, order, root, env);
    if r.err.None? {
      OrderCoversVars(extract, vars, order, root, env);
      var e := Expected(extract, vars, root, env.fields);
      assert forall k :: k in env.fields ==> r.env.fields[k] == e[k] by {
        forall k | k in env.fields
          ensures r.env.fields[k] == e[k]
        {
          if k in vars {
            assert k in order;
          }
        }
      }
      assert r.env.fields == e;
    }
  }

  /** Binding into an environment that is not an object writes nothing. */
  lemma {:induction false} NonObjectUntouched(extract: Extractor, vars: map<string, string>, order: seq<string>, root: Json, env: Json)
    requires forall i :: 0 <= i < |order| ==> order[i] in vars
    requires !env.Obj?
    ensures BindEach(extract, vars, order, root, env).env == env
  {
  }

  /** `seekAndSetEnv`, visiting the bindings in `order`. Whatever the order, binding
      succeeds exactly when every path extracts and every target is declared, and
      then the environment is `Expected`; a failure leaves the declared variables
      unchanged as a set, each holding its old value or its extracted one. */
  function SeekAndSetEnv(vars: map<string, string>, order: seq<string>, root: Json, env: Json): (r: Bound)
    requires Enumerates(order, vars.Keys)
    ensures r.err.None? <==>
      |vars| == 0 || (env.Obj? && forall k :: k in vars ==> k in env.fields && Extracts(Extract, vars, root, k))
    ensures r.err.None? && env.Obj? ==> r.env == Obj(Expected(Extract, vars, root, env.fields))
    ensures !env.Obj? ==> r.env == env
    ensures env.Obj? ==> r.env.Obj? && r.env.fields.Keys == env.fields.Keys
    ensures env.Obj? ==> forall k :: k in env.fields ==>
      r.env.fields[k] == env.fields[k] || (Extracts(Extract, vars, root, k) && r.env.fields[k] == Extract(root, vars[k]).value)
  {
    SeekAndSetEnvFacts(Extract, vars, order, root, env);
    BindEach(Extract, vars, order, root, env)
  }

  /** Bindings succeed or fail, and on success write, the same whatever order Go's
      map iteration picks. */
  lemma SeekAndSetEnvOrderIrrelevant(vars: map<string, string>, o1: seq<string>, o2: seq<string>, root: Json, env: Json)
    requires Enumerates(o1, vars.Keys) && Enumerates(o2, vars.Keys)
    ensures SeekAndSetEnv(vars, o1, root, env).err.None? <==> SeekAndSetEnv(vars, o2, root, env).err.None?
    ensures SeekAndSetEnv(vars, o1, root, env).err.None? ==> SeekAndSetEnv(vars, o1, root, env) == SeekAndSetEnv(vars, o2, root, env)
  {
  }
}
