/** The cases of usecase_test.go, and a few more on the same document, stated over
    the model: the response `{"data":[{"id":1},{"id":2}],"result":"ok"}` and the
    declared variables `result`, `id` and `item3`. */
module Examples {
  import opened Wrappers
  import opened JsonValue
  import opened Errors
  import opened Binder
  import opened Template
  import Paths
  import Strconv
  import Legacy
  import UseCases

  /** The decoded response of the binding test. */
  function Document(): Json
  {
    Obj(map["data" := Arr([Obj(map["id" := Num(1.0)]), Obj(map["id" := Num(2.0)])]), "result" := Str("ok")])
  }

  /** The declared variables of the binding test. */
  function Declared(): Json
  {
    Obj(map["result" := Num(0.0), "id" := Str(""), "item3" := Null])
  }

  /** `result: result` binds `"ok"` and leaves the other variables alone. */
  lemma ResultBindsOk()
    ensures SeekAndSetEnv(map["result" := "result"], ["result"], Document(), Declared())
      == Bound(Obj(Declared().fields["result" := Str("ok")]), None)
  {
    OkResult("result");
    SingleBinding("result", "result", Document(), Declared());
  }

  /** The path `result` selects `"ok"`. */
  lemma OkResult(path: string)
    requires path == "result"
    ensures Extract(Document(), path) == Success(Str("ok"))
  {
    KeyPath(Document(), path);
  }

  /** A plain key, as a path, selects that member. */
  lemma KeyPath(root: Json, key: string)
    requires Paths.PlainKey(key)
    ensures Extract(root, key) == Paths.TakeStep(root, Paths.Key(key))
  {
    var steps := [Paths.Key(key)];
    assert Paths.RenderSteps(steps) == [key];
    Paths.ExtractRendered(root, steps);
    assert steps[1..] == [];
  }

  /** One binding whose path extracts: it writes a declared variable, and is refused
      for an undeclared one. */
  lemma SingleBinding(k: string, path: string, root: Json, env: Json)
    requires env.Obj? && Extract(root, path).Success?
    ensures SeekAndSetEnv(map[k := path], [k], root, env) ==
      if k in env.fields then Bound(Obj(env.fields[k := Extract(root, path).value]), None)
      else Bound(env, Some(NotDefinedInConfig(k)))
  {
    var vars := map[k := path];
    var v := Extract(root, path).value;
    assert SeekAndSetEnv(vars, [k], root, env) == BindEach(Extract, vars, [k], root, env);
    assert vars[k] == path;
    if k in env.fields {
      assert BindEach(Extract, vars, [k], root, env) == BindEach(Extract, vars, [], root, Obj(env.fields[k := v])) by {
        assert [k][1..] == [];
      }
    }
  }

  /** Then, in the environment the first binding left, `id: data[0].id` binds the
      first element's id, `1`, and `result` keeps `"ok"`. */
  lemma IdBindsFirstId()
    ensures var after := Obj(Declared().fields["result" := Str("ok")]);
      SeekAndSetEnv(map["id" := "data[0].id"], ["id"], Document(), after)
        == Bound(Obj(after.fields["id" := Num(1.0)]), None)
  {
    var after := Obj(Declared().fields["result" := Str("ok")]);
    FirstId("data[0].id");
    SingleBinding("id", "data[0].id", Document(), after);
  }

  /** The path `data[0].id` selects `1`. */
  lemma FirstId(path: string)
    requires path == "data[0].id"
    ensures Extract(Document(), path) == Success(Num(1.0))
  {
    assert path == "data" + "[" + [Strconv.DigitChar(0)] + "]." + "id";
    IndexedField(Document(), "data", 0, "id", path);
    LookupIndexedField(Document(), "data", 0, "id");
  }

  /** The typed lookup of `key[i].field` where every step can be taken. */
  lemma LookupIndexedField(root: Json, key: string, i: nat, field: string)
    requires root.Obj? && key in root.fields && root.fields[key].Arr? && i < |root.fields[key].items|
    requires root.fields[key].items[i].Obj? && field in root.fields[key].items[i].fields
    ensures Paths.Lookup(root, [Paths.At(key, i), Paths.Key(field)]) == Success(root.fields[key].items[i].fields[field])
  {
    var steps := [Paths.At(key, i), Paths.Key(field)];
    var element := root.fields[key].items[i];
    assert Paths.TakeStep(root, steps[0]) == Success(element);
    assert steps[1..] == [Paths.Key(field)];
    assert Paths.Lookup(element, steps[1..]) == Success(element.fields[field]) by {
      assert Paths.TakeStep(element, Paths.Key(field)) == Success(element.fields[field]);
      assert steps[1..][1..] == [];
    }
  }

  /** `key[i].field`, for a one-digit `i`, selects `field` of element `i` of `key`. */
  lemma IndexedField(root: Json, key: string, i: nat, field: string, path: string)
    requires i < 10 && Paths.PlainKey(key) && Paths.PlainKey(field)
    requires path == key + "[" + [Strconv.DigitChar(i)] + "]." + field
    ensures Extract(root, path) == Paths.Lookup(root, [Paths.At(key, i), Paths.Key(field)])
  {
    var steps := [Paths.At(key, i), Paths.Key(field)];
    var segs := Paths.RenderSteps(steps);
    assert segs == [key + "[" + [Strconv.DigitChar(i)] + "]", field];
    assert segs[1..] == [field];
    assert Text.Join(segs, '.') == segs[0] + ['.'] + field;
    assert segs[0] + ['.'] + field == path;
    Paths.ExtractRendered(root, steps);
  }

  /** `key[i]`, for a one-digit `i`, selects element `i` of `key`. */
  lemma IndexedKey(root: Json, key: string, i: nat, path: string)
    requires i < 10 && Paths.PlainKey(key)
    requires path == key + "[" + [Strconv.DigitChar(i)] + "]"
    ensures Extract(root, path) == Paths.TakeStep(root, Paths.At(key, i))
  {
    var steps := [Paths.At(key, i)];
    assert Paths.RenderSteps(steps) == [path];
    Paths.ExtractRendered(root, steps);
    assert Paths.Lookup(root, steps) == Paths.TakeStep(root, Paths.At(key, i)) by {
      assert steps[1..] == [];
    }
  }

  /** An index past the end names the key and the array's length. */
  lemma IndexPastEnd(path: string)
    requires path == "data[5].id"
    ensures Extract(Document(), path) == Failure(IndexOutOfBounds("data", 2))
  {
    SpellDataFive(path);
    ExtractPastEnd(Document(), "data", 5, "id", path);
  }

  /** The path of the past-the-end example, in the pieces the path renderer glues. */
  lemma SpellDataFive(path: string)
    requires path == "data[5].id"
    ensures path == "data" + "[" + [Strconv.DigitChar(5)] + "]." + "id"
  {
    assert [Strconv.DigitChar(5)] == "5";
  }

  /** Extracting `key[i].field` with `i` past the end of the array `key` fails on the index. */
  lemma ExtractPastEnd(root: Json, key: string, i: nat, field: string, path: string)
    requires i < 10 && Paths.PlainKey(key) && Paths.PlainKey(field)
    requires path == key + "[" + [Strconv.DigitChar(i)] + "]." + field
    requires root.Obj? && key in root.fields && root.fields[key].Arr? && i >= |root.fields[key].items|
    ensures Extract(root, path) == Failure(IndexOutOfBounds(key, |root.fields[key].items|))
  {
    IndexedField(root, key, i, field, path);
    LookupPastEnd(root, key, i, field);
  }

  /** The typed lookup of `key[i].field` with `i` past the end of the array `key`. */
  lemma LookupPastEnd(root: Json, key: string, i: nat, field: string)
    requires root.Obj? && key in root.fields && root.fields[key].Arr? && i >= |root.fields[key].items|
    ensures Paths.Lookup(root, [Paths.At(key, i), Paths.Key(field)]) == Failure(IndexOutOfBounds(key, |root.fields[key].items|))
  {
    assert Paths.TakeStep(root, Paths.At(key, i)) == Failure(IndexOutOfBounds(key, |root.fields[key].items|));
  }

  /** The message of that failure names the key and the length, not the index asked for. */
  lemma IndexPastEndMessage()
    ensures Message(IndexOutOfBounds("data", 2)) == "index requested is out of bounds, length 'data' is 2"
  {
    Strconv.FormatDigit(2);
  }

  /** The message of a binding to an undeclared variable names it. */
  lemma UndeclaredMessage(k: string)
    ensures var m := Message(NotDefinedInConfig(k));
      Text.OccursAt(m, k, 5) && Text.Contains(m, "was not defined in the config")
  {
    var tail := "was not defined in the config";
    var m := Message(NotDefinedInConfig(k));
    var head := "var '";
    assert m == head + k + ("' " + tail);
    OccursBetween(head, k, "' " + tail);
    assert m == (head + k + "' ") + tail + "";
    OccursBetween(head + k + "' ", tail, "");
  }

  /** `b` occurs in `a + b + c` right after `a`. */
  lemma OccursBetween(a: string, b: string, c: string)
    ensures Text.OccursAt(a + b + c, b, |a|)
  {
    assert (a + b + c)[|a|..|a| + |b|] == b;
  }

  /** Indexing a member that is not an array reports the member. */
  lemma IndexIntoString(path: string)
    requires path == "result[0]"
    ensures Extract(Document(), path) == Failure(NotAnArray(Str("ok")))
  {
    assert path == "result" + "[" + [Strconv.DigitChar(0)] + "]";
    IndexedKey(Document(), "result", 0, path);
  }

  /** A binding to a variable the configuration does not declare fails and writes
      nothing. */
  lemma UndeclaredTarget()
    ensures SeekAndSetEnv(map["token" := "result"], ["token"], Document(), Declared())
      == Bound(Declared(), Some(NotDefinedInConfig("token")))
  {
    OkResult("result");
    SingleBinding("token", "result", Document(), Declared());
  }

  /** The legacy dialect writes the same binding as `data[0],id`. */
  lemma LegacyIdBindsFirstId(path: string)
    requires path == "data[0],id"
    ensures Legacy.LegacyExtract(Document(), path) == Success(Num(1.0))
  {
    assert path == "data" + "[" + [Strconv.DigitChar(0)] + "]," + "id";
    LegacyIndexedField(Document(), "data", 0, "id", path);
  }

  /** A legacy `key[i],field`, for a one-digit `i`, steps into element `i` of `key`
      and then binds its `field`. */
  lemma LegacyIndexedField(root: Json, key: string, i: nat, field: string, path: string)
    requires i < 10 && Paths.PlainKey(key) && ',' !in key && '[' !in field && ',' !in field
    requires path == key + "[" + [Strconv.DigitChar(i)] + "]," + field
    requires root.Obj? && key in root.fields && root.fields[key].Arr? && i < |root.fields[key].items|
    requires root.fields[key].items[i].Obj? && field in root.fields[key].items[i].fields
    ensures Legacy.LegacyExtract(root, path) == Success(root.fields[key].items[i].fields[field])
  {
    var seg := key + "[" + [Strconv.DigitChar(i)] + "]";
    var element := root.fields[key].items[i];
    SplitTwo(seg, field, path);
    LegacyIndexedStep(root, key, i);
    Legacy.BareSegment(element, field);
    var segs := [seg, field];
    assert segs[1..] == [field];
    assert Legacy.LegacyWalk(element, element, [field]) == Success(element.fields[field]) by {
      assert [field][1..] == [];
    }
    assert Legacy.LegacyWalk(root, Null, segs) == Legacy.LegacyWalk(element, element, [field]);
  }

  /** A path of two separator-free pieces splits into them. */
  lemma SplitTwo(a: string, b: string, path: string)
    requires ',' !in a && ',' !in b && path == a + [','] + b
    ensures Text.Split(path, ',') == [a, b]
  {
    var segs := [a, b];
    assert segs[1..] == [b];
    assert Text.Join(segs, ',') == path;
    Text.SplitJoin(segs, ',');
  }

  /** A legacy `key[i]` segment, for a one-digit `i`, descends into element `i` of
      `key` and binds that element. */
  lemma LegacyIndexedStep(root: Json, key: string, i: nat)
    requires i < 10 && Paths.PlainKey(key) && ',' !in key
    requires root.Obj? && key in root.fields && root.fields[key].Arr? && i < |root.fields[key].items|
    ensures ',' !in key + "[" + [Strconv.DigitChar(i)] + "]"
    ensures Legacy.LegacyStep(root, key + "[" + [Strconv.DigitChar(i)] + "]") ==
      Success((root.fields[key].items[i], root.fields[key].items[i]))
  {
    var d := [Strconv.DigitChar(i)];
    var seg := key + "[" + d + "]";
    assert seg == key + ['['] + d + [']'] + "";
    assert ',' !in seg by {
      assert forall k :: 0 <= k < |seg| ==> seg[k] == (if k < |key| then key[k] else if k == |key| then '[' else if k == |key| + 1 then d[0] else ']');
    }
    Scan.ExtractBracketed(key, d, "", '[', ']');
    assert Scan.FirstBefore(seg, '[', ']');
    assert Legacy.ExtractSubstringBetween(seg, '[', ']') == (d, key);
    assert Text.RemoveSpaces(d) == d;
    Strconv.AtoiFormatInt(i);
    assert Binder.StepInto(root, Indexed(key, d)) == Success(root.fields[key].items[i]);
  }

  /** A resolver answering the four template test cases, and passing any other text
      through unchanged: the facts assumed about the template engine can all hold
      together. */
  function TestResolver(): Resolver
  {
    (s: string, env: Json) =>
      if s == "{{ .url }}/users" then Success(TestUrl + "/users")
      else if s == "{{ url }}/users" then Failure("function \"url\" not defined")
      else if s == "{{ .token_value }}/users" then Success("/users")
      else Success(s)
  }

  lemma TestsCanAllHold()
    ensures AgreesWithTests(TestResolver())
  {
  }

  /** With an engine that agrees with the tests, the test's use case with the
      undotted placeholder `{{ url }}` as endpoint fails materialisation, naming the
      endpoint and its unresolved text. */
  lemma UndottedEndpointFails(resolve: Resolver, name: string)
    requires AgreesWithTests(resolve)
    requires resolve(name, TestEnv()).Success?
    ensures var uc := UseCases.UseCase(name, "GET", "{{ url }}/users", "", map[], 200, "", map[], 0);
      UseCases.NewApiUseCase(TestEnv(), uc, resolve, []).err == Some(TemplateInvalid("endpoint", "{{ url }}/users"))
  {
  }
}
