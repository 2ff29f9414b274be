/** A typed reference semantics for the path dialect of variable bindings: a path
    is a list of steps, each a member key or a key with an array index. `Render`
    prints a path the way a configuration writes it (`data[0].id`), and the textual
    extractor of usecase.go agrees with the typed lookup on every rendered path. */
module Paths {
  import opened Wrappers
  import opened JsonValue
  import opened Errors
  import opened Text
  import opened Scan
  import opened Binder
  import Strconv

  datatype Step = Key(k: string) | At(k: string, i: int)

  /** A key the dialect can spell: no separator, bracket or space. */
  predicate PlainKey(k: string)
  {
    '.' !in k && '[' !in k && ']' !in k && ' ' !in k
  }

  /** A path whose keys are plain and whose indexes fit in a Go `int`. */
  predicate Spellable(steps: seq<Step>)
  {
    forall j :: 0 <= j < |steps| ==> PlainKey(steps[j].k) && (steps[j].At? ==> Strconv.InInt64(steps[j].i))
  }

  /** One typed step: the member `k` of an object, and for `At`, element `i` of that
      member, which must be an array long enough. */
  function TakeStep(node: Json, s: Step): Result<Json, Error>
  {
    if !(node.Obj? && s.k in node.fields) then Failure(ResponseDoesNotContain(s.k))
    else
      var v := node.fields[s.k];
      match s
      case Key(_) => Success(v)
      case At(_, i) =>
        if !v.Arr? then Failure(NotAnArray(v))
        else if i < 0 || i >= |v.items| then Failure(IndexOutOfBounds(s.k, |v.items|))
        else Success(v.items[i])
  }

  /** The value at the end of a typed path, with the error of the first step that
      cannot be taken. */
  function Lookup(node: Json, steps: seq<Step>): Result<Json, Error>
    decreases |steps|
  {
    if |steps| == 0 then Success(node)
    else
      match TakeStep(node, steps[0])
      case Failure(e) => Failure(e)
      case Success(next) => Lookup(next, steps[1..])
  }

  function RenderStep(s: Step): string
  {
    match s
    case Key(k) => k
    case At(k, i) => k + "[" + Strconv.FormatInt(i) + "]"
  }

  function RenderSteps(steps: seq<Step>): (r: seq<string>)
    ensures |r| == |steps|
    ensures forall j :: 0 <= j < |steps| ==> r[j] == RenderStep(steps[j])
  {
    if |steps| == 0 then [] else [RenderStep(steps[0])] + RenderSteps(steps[1..])
  }

  /** The binding text for a typed path. */
  function Render(steps: seq<Step>): string
  {
    Join(RenderSteps(steps), '.')
  }

  /** `%d` prints only digits and a leading minus sign. */
  lemma FormatIntPlain(n: int)
    ensures '.' !in Strconv.FormatInt(n) && ' ' !in Strconv.FormatInt(n)
    ensures '[' !in Strconv.FormatInt(n) && ']' !in Strconv.FormatInt(n)
  {
    var r := Strconv.FormatInt(n);
    assert forall j :: 0 <= j < |r| ==> Strconv.IsDigit(r[j]) || r[j] == '-' by {
      if n < 0 {
        assert forall j :: 1 <= j < |r| ==> r[j] == r[1..][j - 1];
      }
    }
  }

  /** The segment scanner reads a rendered step back as the matching segment. */
  lemma ParseRenderedStep(s: Step)
    requires PlainKey(s.k)
    ensures s.Key? ==> ParseSegment(RenderStep(s)) == Bare(s.k)
    ensures s.At? ==> ParseSegment(RenderStep(s)) == Indexed(s.k, Strconv.FormatInt(s.i))
  {
    match s
    case Key(k) =>
      assert !FirstBefore(k, '[', ']');
    case At(k, i) =>
      var d := Strconv.FormatInt(i);
      FormatIntPlain(i);
      ParseIndexedSegment(k, d, "");
      assert k + "[" + d + "]" + "" == k + "[" + d + "]";
  }

  /** One rendered step, scanned and taken, is the typed step. */
  lemma StepRendered(node: Json, s: Step)
    requires PlainKey(s.k) && (s.At? ==> Strconv.InInt64(s.i))
    ensures StepInto(node, ParseSegment(RenderStep(s))) == TakeStep(node, s)
  {
    ParseRenderedStep(s);
    if s.At? {
      Strconv.AtoiFormatInt(s.i);
      IndexedStep(node, s.k, s.i);
    }
  }

  /** A rendered `key[i]` step, taken, is the typed step. */
  lemma IndexedStep(node: Json, k: string, i: int)
    requires Strconv.Atoi(Strconv.FormatInt(i)) == Success(i)
    ensures StepInto(node, Indexed(k, Strconv.FormatInt(i))) == TakeStep(node, At(k, i))
  {
  }

  /** Walking the rendered segments is the typed lookup. */
  lemma {:induction false} WalkRendered(node: Json, steps: seq<Step>)
    requires Spellable(steps)
    ensures Walk(node, RenderSteps(steps)) == Lookup(node, steps)
    decreases |steps|
  {
    if |steps| > 0 {
      var segs := RenderSteps(steps);
      assert segs[1..] == RenderSteps(steps[1..]);
      assert Spellable(steps[1..]) by {
        assert forall j :: 1 <= j < |steps| ==> steps[1..][j - 1] == steps[j];
      }
      StepRendered(node, steps[0]);
      match TakeStep(node, steps[0])
      case Failure(_) =>
      case Success(next) => WalkRendered(next, steps[1..]);
    }
  }

  /** The extractor of usecase.go computes the typed lookup of any non-empty
      spellable path, errors included. */
  lemma ExtractRendered(root: Json, steps: seq<Step>)
    requires |steps| >= 1
    requires Spellable(steps)
    ensures Extract(root, Render(steps)) == Lookup(root, steps)
  {
    var segs := RenderSteps(steps);
    forall j | 0 <= j < |segs|
      ensures '.' !in segs[j]
    {
      if steps[j].At? {
        FormatIntPlain(steps[j].i);
      }
    }
    SplitJoin(segs, '.');
    WalkRendered(root, steps);
  }
}
