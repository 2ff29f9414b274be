/** The command line of cmd/main.go: which configuration file it reads, and the loop
    that materialises and runs each configured request in turn, threading the shared
    environment of variables from one request to the next. Reading files, the
    network and the pretty-printer are inputs; what the loop prints is a list of
    events. */
module Runner {
  import opened Wrappers
  import opened JsonValue
  import opened Errors
  import opened Binder
  import opened Template
  import Exchange
  import opened UseCases

  const DefaultConfigFile: string := "courier.yaml"
  const DefaultFolderConfigFile: string := ".courier/config.yaml"

  /** `getConfigFile`: the file named on the command line, else `courier.yaml`, else
      `.courier/config.yaml`, whichever is found first; `present` says whether a
      path names an existing file. */
  function GetConfigFile(name: string, present: string -> bool): (r: Result<string, Error>)
    ensures r.Success? <==> present(name) || present(DefaultConfigFile) || present(DefaultFolderConfigFile)
    ensures r.Success? ==> present(r.value)
    ensures present(name) ==> r == Success(name)
    ensures !present(name) && present(DefaultConfigFile) ==> r == Success(DefaultConfigFile)
    ensures r.Failure? ==> r.error == ConfigNotFound
  {
    var first := if present(name) then name else DefaultConfigFile;
    var second := if present(first) then first else DefaultFolderConfigFile;
    if present(second) then Success(second) else Failure(ConfigNotFound)
  }

  /** The first of `candidates` that is present. */
  function FirstPresent(candidates: seq<string>, present: string -> bool): (r: Option<string>)
    ensures r.Some? ==> r.value in candidates && present(r.value)
    ensures r.None? <==> forall i :: 0 <= i < |candidates| ==> !present(candidates[i])
  {
    if |candidates| == 0 then None
    else if present(candidates[0]) then Some(candidates[0])
    else
      var r := FirstPresent(candidates[1..], present);
      assert forall i :: 1 <= i < |candidates| ==> candidates[i] == candidates[1..][i - 1];
      r
  }

  /** The configuration file chosen is the first present one of the three candidates. */
  lemma ConfigIsFirstPresent(name: string, present: string -> bool)
    ensures GetConfigFile(name, present) ==
      match FirstPresent([name, DefaultConfigFile, DefaultFolderConfigFile], present)
      case Some(f) => Success(f)
      case None => Failure(ConfigNotFound)
  {
    var candidates := [name, DefaultConfigFile, DefaultFolderConfigFile];
    var tail := [DefaultConfigFile, DefaultFolderConfigFile];
    var last := [DefaultFolderConfigFile];
    assert candidates[1..] == tail && tail[1..] == last && last[1..] == [];
    assert FirstPresent(last, present) == if present(DefaultFolderConfigFile) then Some(DefaultFolderConfigFile) else None;
    assert FirstPresent(tail, present) == if present(DefaultConfigFile) then Some(DefaultConfigFile) else FirstPresent(last, present);
  }

  /** `-t` runs every request as a test; otherwise each body is shown, pretty-printed
      as JSON under `-json`. */
  datatype Mode = Normal(prettyJson: bool) | Testing

  /** What the loop has no control over: the template engine, the server (answering
      the `i`-th request), and the JSON pretty-printer. */
  datatype World = World(
    resolve: Resolver,
    server: (nat, ApiUseCase) -> Exchange.Exchange,
    pretty: string -> Result<string, string>)
  /** The order in which Go's map iteration visits the headers and the variables of
      one request. */
  datatype Orders = Orders(headerOrder: seq<string>, varOrder: seq<string>)

  /** A configured request, with the map orders its iteration of the loop will see. */
  datatype Request = Request(uc: UseCase, orders: Orders)

  predicate Scheduled(q: Request)
  {
    Enumerates(q.orders.headerOrder, q.uc.headers.Keys) && Enumerates(q.orders.varOrder, q.uc.vars.Keys)
  }

  /** One line of output: an error under the request's prefix, a passed test, or a
      response body. */
  datatype Event = Failed(prefix: string, err: Error) | Passed(prefix: string) | Shown(output: string)

  /** What the loop printed, the environment it leaves, and whether it ended the process. */
  datatype Outcome = Outcome(events: seq<Event>, env: Json, exited: bool)

  /** The environment keeps its shape: an object keeps its keys, anything else stays. */
  predicate SameShape(before: Json, after: Json)
  {
    (before.Obj? ==> after.Obj? && after.fields.Keys == before.fields.Keys) && (!before.Obj? ==> after == before)
  }

  /** The `i`-th iteration of the loop. A materialisation failure ends the process
      in both modes; in test mode every other failure is reported and the loop goes
      on; otherwise a request or pretty-printing failure ends the process. */
  function Step(i: nat, q: Request, env: Json, mode: Mode, w: World): (r: Outcome)
    requires Scheduled(q)
    ensures |r.events| == 1
    ensures SameShape(env, r.env)
    ensures mode.Normal? ==> (r.exited <==> r.events[0].Failed?) && !r.events[0].Passed?
    ensures var m := NewApiUseCase(env, q.uc, w.resolve, q.orders.headerOrder);
      && (m.err.Some? ==> r == Outcome([Failed(Prefix(m.api.name, m.api.httpMethod, m.api.endpoint), m.err.value)], env, true))
      && (mode.Testing? ==> (r.exited <==> m.err.Some?) && !r.events[0].Shown?)
      && (m.err.None? && mode.Testing? ==>
            (r.events[0].Passed? <==> Test(m.api, w.server(i, m.api), env, q.orders.varOrder).err.None?))
      && (m.err.None? && mode == Normal(false) && r.events[0].Shown? ==>
            r.events[0].output == Curl(m.api, w.server(i, m.api), env, q.orders.varOrder).output)
  {
    var m := NewApiUseCase(env, q.uc, w.resolve, q.orders.headerOrder);
    var prefix := Prefix(m.api.name, m.api.httpMethod, m.api.endpoint);
    if m.err.Some? then Outcome([Failed(prefix, m.err.value)], env, true)
    else
      var x := w.server(i, m.api);
      match mode
      case Testing =>
        var v := Test(m.api, x, env, q.orders.varOrder);
        Outcome([if v.err.Some? then Failed(prefix, v.err.value) else Passed(prefix)], v.env, false)
      case Normal(prettyJson) =>
        var rd := Curl(m.api, x, env, q.orders.varOrder);
        if rd.err.Some? then Outcome([Failed(prefix, rd.err.value)], rd.env, true)
        else if !prettyJson then Outcome([Shown(rd.output)], rd.env, false)
        else
          match w.pretty(rd.output)
          case Failure(reason) => Outcome([Failed(prefix, PrettyFailed(reason))], rd.env, true)
          case Success(text) => Outcome([Shown(text)], rd.env, false)
  }

  /** In test mode, a materialised request reports its verdict under its prefix:
      the `Test` error as a failure, or a pass. */
  lemma StepTesting(i: nat, q: Request, env: Json, w: World)
    requires Scheduled(q)
    ensures var m := NewApiUseCase(env, q.uc, w.resolve, q.orders.headerOrder);
      var v := Test(m.api, w.server(i, m.api), env, q.orders.varOrder);
      var prefix := Prefix(m.api.name, m.api.httpMethod, m.api.endpoint);
      m.err.None? ==>
        Step(i, q, env, Testing, w).events == [if v.err.Some? then Failed(prefix, v.err.value) else Passed(prefix)]
  {
  }

  /** The environment an iteration leaves is the one its request's binding left:
      unchanged when the request could not be materialised, and after `Test` or
      `Curl` otherwise, whether or not they failed. */
  lemma StepEnv(i: nat, q: Request, env: Json, mode: Mode, w: World)
    requires Scheduled(q)
    ensures var m := NewApiUseCase(env, q.uc, w.resolve, q.orders.headerOrder);
      Step(i, q, env, mode, w).env ==
        if m.err.Some? then env
        else if mode.Testing? then Test(m.api, w.server(i, m.api), env, q.orders.varOrder).env
        else Curl(m.api, w.server(i, m.api), env, q.orders.varOrder).env
  {
  }

  /** Outside test mode, a materialised request ends the process exactly when `Curl`
      fails or, under `-json`, the pretty-printer rejects the body; the event is that
      failure under the request's prefix, and otherwise the (pretty-printed) body. */
  lemma StepNormal(i: nat, q: Request, env: Json, prettyJson: bool, w: World)
    requires Scheduled(q)
    ensures var m := NewApiUseCase(env, q.uc, w.resolve, q.orders.headerOrder);
      var c := Curl(m.api, w.server(i, m.api), env, q.orders.varOrder);
      var prefix := Prefix(m.api.name, m.api.httpMethod, m.api.endpoint);
      var r := Step(i, q, env, Normal(prettyJson), w);
      m.err.None? ==>
        && (r.exited <==> c.err.Some? || (prettyJson && w.pretty(c.output).Failure?))
        && (c.err.Some? ==> r.events == [Failed(prefix, c.err.value)])
        && (c.err.None? && prettyJson && w.pretty(c.output).Failure? ==>
              r.events == [Failed(prefix, PrettyFailed(w.pretty(c.output).error))])
        && (!r.exited ==> r.events == [Shown(if prettyJson then w.pretty(c.output).value else c.output)])
  {
  }

  /** One iteration of a loop over items of type `T`: from the position, the item and
      the environment, to what the iteration did. */
  type Stepper<!T> = (nat, T, Json) --> Outcome

  /** What every iteration over `items` guarantees the fold: it can run, reports
      exactly one event, reports a failure when it ends the process, and keeps the
      environment's shape. */
  ghost predicate Steps<T>(step: Stepper<T>, items: seq<T>)
  {
    forall n: nat, x: T, e: Json :: x in items ==> step.requires(n, x, e) && Reports(e, step(n, x, e))
  }

  /** An iteration from `env` reported one event, a failure if it ended the process,
      and kept the environment's shape. */
  predicate Reports(env: Json, o: Outcome)
  {
    |o.events| == 1 && (o.exited ==> o.events[0].Failed?) && SameShape(env, o.env)
  }

  /** The loop over `items`, the first being the `i`-th: one event per item until an
      iteration ends the process; each iteration sees the environment the previous
      one left. */
  function Fold<T>(i: nat, items: seq<T>, env: Json, step: Stepper<T>): (r: Outcome)
    requires Steps(step, items)
    ensures |r.events| <= |items|
    ensures !r.exited ==> |r.events| == |items|
    ensures r.exited ==> |r.events| >= 1 && r.events[|r.events| - 1].Failed?
    ensures SameShape(env, r.env)
    decreases |items|
  {
    if |items| == 0 then Outcome([], env, false)
    else
      var s := step(i, items[0], env);
      if s.exited then s
      else
        var rest := Fold(i + 1, items[1..], s.env, step);
        Outcome(s.events + rest.events, rest.env, rest.exited)
  }

  /** Iterations that can run over `a` and over `b` can run over `a + b`. */
  lemma StepsAppend<T>(a: seq<T>, b: seq<T>, step: Stepper<T>)
    requires Steps(step, a) && Steps(step, b)
    ensures Steps(step, a + b)
  {
    assert forall x :: x in a + b ==> x in a || x in b;
  }

  /** What folding over `a` then `b` gives: the fold over `a` if that ended the
      process, else its events followed by those of the fold over `b` from the
      environment it left. */
  function Then<T>(i: nat, a: seq<T>, b: seq<T>, env: Json, step: Stepper<T>): Outcome
    requires Steps(step, a) && Steps(step, b)
  {
    var ra := Fold(i, a, env, step);
    if ra.exited then ra
    else
      var rb := Fold(i + |a|, b, ra.env, step);
      Outcome(ra.events + rb.events, rb.env, rb.exited)
  }

  /** Folding over `a + b` is folding over `a`, then, unless that ended the process,
      over `b` from the environment `a` left behind. */
  lemma {:induction false} FoldAppend<T>(i: nat, a: seq<T>, b: seq<T>, env: Json, step: Stepper<T>)
    requires Steps(step, a) && Steps(step, b)
    ensures Steps(step, a + b)
    ensures Fold(i, a + b, env, step) == Then(i, a, b, env, step)
    decreases |a|
  {
    StepsAppend(a, b, step);
    if |a| == 0 {
      assert a + b == b;
    } else if !step(i, a[0], env).exited {
      var s := step(i, a[0], env);
      StepsAppend(a[1..], b, step);
      FoldAppend(i + 1, a[1..], b, s.env, step);
      FoldAppendCons(i, a, b, env, step);
    } else {
      assert (a + b)[0] == a[0];
    }
  }

  /** The inductive step of `FoldAppend`, past a first iteration that goes on. */
  lemma FoldAppendCons<T>(i: nat, a: seq<T>, b: seq<T>, env: Json, step: Stepper<T>)
    requires |a| >= 1 && Steps(step, a) && Steps(step, b) && Steps(step, a + b) && Steps(step, a[1..] + b)
    requires !step(i, a[0], env).exited
    requires Fold(i + 1, a[1..] + b, step(i, a[0], env).env, step) == Then(i + 1, a[1..], b, step(i, a[0], env).env, step)
    ensures Fold(i, a + b, env, step) == Then(i, a, b, env, step)
  {
    assert (a + b)[0] == a[0];
    assert (a + b)[1..] == a[1..] + b;
    FoldCons(i, a + b, env, step);
    ThenCons(i, a, b, env, step);
  }

  /** One iteration of the fold, when it goes on. */
  lemma FoldCons<T>(i: nat, items: seq<T>, env: Json, step: Stepper<T>)
    requires |items| >= 1 && Steps(step, items) && Steps(step, items[1..])
    requires !step(i, items[0], env).exited
    ensures var s := step(i, items[0], env);
      var rest := Fold(i + 1, items[1..], s.env, step);
      Fold(i, items, env, step) == Outcome(s.events + rest.events, rest.env, rest.exited)
  {
  }

  /** One iteration of `Then`, when it goes on. */
  lemma ThenCons<T>(i: nat, a: seq<T>, b: seq<T>, env: Json, step: Stepper<T>)
    requires |a| >= 1 && Steps(step, a) && Steps(step, b) && Steps(step, a[1..])
    requires !step(i, a[0], env).exited
    ensures var s := step(i, a[0], env);
      var t := Then(i + 1, a[1..], b, s.env, step);
      Then(i, a, b, env, step) == Outcome(s.events + t.events, t.env, t.exited)
  {
    var s := step(i, a[0], env);
    FoldCons(i, a, env, step);
    var rest := Fold(i + 1, a[1..], s.env, step);
    if !rest.exited {
      var rb := Fold(i + |a|, b, rest.env, step);
      assert s.events + (rest.events + rb.events) == (s.events + rest.events) + rb.events;
    }
  }

  /** Every iteration over `items` that does not end the process shows a body. */
  ghost predicate ShowsUnlessExiting<T>(step: Stepper<T>, items: seq<T>)
  {
    forall n: nat, x: T, e: Json :: x in items && step.requires(n, x, e) ==>
      step(n, x, e).exited || (|step(n, x, e).events| >= 1 && step(n, x, e).events[0].Shown?)
  }

  /** When only a failing iteration stops, all events are shown bodies except
      possibly the last, which is then the failure. */
  lemma {:induction false} FoldFailFast<T>(i: nat, items: seq<T>, env: Json, step: Stepper<T>)
    requires Steps(step, items) && ShowsUnlessExiting(step, items)
    ensures var r := Fold(i, items, env, step);
      && (forall k :: 0 <= k < |r.events| - 1 ==> r.events[k].Shown?)
      && (!r.exited ==> forall k :: 0 <= k < |r.events| ==> r.events[k].Shown?)
    decreases |items|
  {
    if |items| > 0 {
      var r := Fold(i, items, env, step);
      var s := step(i, items[0], env);
      if !s.exited {
        var rest := Fold(i + 1, items[1..], s.env, step);
        FoldFailFast(i + 1, items[1..], s.env, step);
        FoldCons(i, items, env, step);
        assert r.events == s.events + rest.events;
        assert forall k :: 1 <= k < |r.events| ==> r.events[k] == rest.events[k - 1];
      }
    }
  }

  /** No iteration over `items` shows a body, and one ends the process only over a
      template it cannot resolve. */
  ghost predicate ReportsOnly<T>(step: Stepper<T>, items: seq<T>)
  {
    forall n: nat, x: T, e: Json :: x in items && step.requires(n, x, e) ==>
      && |step(n, x, e).events| >= 1
      && !step(n, x, e).events[0].Shown?
      && (step(n, x, e).exited ==> step(n, x, e).events[0].Failed? && step(n, x, e).events[0].err.TemplateInvalid?)
  }

  /** When iterations only report, so does the loop, and it stops only over a template. */
  lemma {:induction false} FoldReportsOnly<T>(i: nat, items: seq<T>, env: Json, step: Stepper<T>)
    requires Steps(step, items) && ReportsOnly(step, items)
    ensures var r := Fold(i, items, env, step);
      && (forall k :: 0 <= k < |r.events| ==> !r.events[k].Shown?)
      && (r.exited ==> r.events[|r.events| - 1].err.TemplateInvalid?)
    decreases |items|
  {
    if |items| > 0 {
      var r := Fold(i, items, env, step);
      var s := step(i, items[0], env);
      if !s.exited {
        var rest := Fold(i + 1, items[1..], s.env, step);
        FoldReportsOnly(i + 1, items[1..], s.env, step);
        FoldCons(i, items, env, step);
        assert r.events == s.events + rest.events;
        assert forall k :: 1 <= k < |r.events| ==> r.events[k] == rest.events[k - 1];
      }
    }
  }

  /** Every iteration over `items` goes on to the next. */
  ghost predicate NeverExits<T>(step: Stepper<T>, items: seq<T>)
  {
    forall n: nat, x: T, e: Json :: x in items && step.requires(n, x, e) ==> !step(n, x, e).exited
  }

  /** When no iteration stops, the loop reaches the end. */
  lemma {:induction false} FoldRunsAll<T>(i: nat, items: seq<T>, env: Json, step: Stepper<T>)
    requires Steps(step, items) && NeverExits(step, items)
    ensures !Fold(i, items, env, step).exited
    decreases |items|
  {
    if |items| > 0 {
      var s := step(i, items[0], env);
      FoldRunsAll(i + 1, items[1..], s.env, step);
    }
  }

  predicate AllScheduled(reqs: seq<Request>)
  {
    forall k :: 0 <= k < |reqs| ==> Scheduled(reqs[k])
  }

  /** The iteration of cmd/main.go in the given mode and world, as a stepper. */
  function StepOf(mode: Mode, w: World): (step: Stepper<Request>)
    ensures forall n: nat, q: Request, e: Json :: Scheduled(q) ==> step.requires(n, q, e)
  {
    (n: nat, q: Request, e: Json) requires Scheduled(q) => Step(n, q, e, mode, w)
  }

  /** The iteration of cmd/main.go meets what the fold needs of it. */
  lemma StepOfSteps(mode: Mode, w: World, reqs: seq<Request>)
    requires AllScheduled(reqs)
    ensures Steps(StepOf(mode, w), reqs)
  {
    var step := StepOf(mode, w);
    forall n: nat, q: Request, e: Json | q in reqs
      ensures step.requires(n, q, e) && Reports(e, step(n, q, e))
    {
      var s := Step(n, q, e, mode, w);
    }
  }

  /** The loop of cmd/main.go over the configured requests, the first being the `i`-th. */
  function Run(i: nat, reqs: seq<Request>, env: Json, mode: Mode, w: World): (r: Outcome)
    requires AllScheduled(reqs)
    ensures |r.events| <= |reqs|
    ensures !r.exited ==> |r.events| == |reqs|
    ensures r.exited ==> |r.events| >= 1 && r.events[|r.events| - 1].Failed?
    ensures SameShape(env, r.env)
  {
    StepOfSteps(mode, w, reqs);
    Fold(i, reqs, env, StepOf(mode, w))
  }

  /** The run is the fold of the iteration over the requests. */
  lemma RunIsFold(i: nat, reqs: seq<Request>, env: Json, mode: Mode, w: World)
    requires AllScheduled(reqs)
    ensures Steps(StepOf(mode, w), reqs)
    ensures Run(i, reqs, env, mode, w) == Fold(i, reqs, env, StepOf(mode, w))
  {
    StepOfSteps(mode, w, reqs);
  }

  /** Running `a + b` is running `a`, then, unless it ended the process, running `b`
      from the environment `a` left behind: bindings made by earlier requests are
      what later requests are materialised against. */
  lemma RunAppend(i: nat, a: seq<Request>, b: seq<Request>, env: Json, mode: Mode, w: World)
    requires AllScheduled(a) && AllScheduled(b)
    ensures AllScheduled(a + b)
    ensures var ra := Run(i, a, env, mode, w);
      Run(i, a + b, env, mode, w) ==
        if ra.exited then ra
        else
          var rb := Run(i + |a|, b, ra.env, mode, w);
          Outcome(ra.events + rb.events, rb.env, rb.exited)
  {
    StepOfSteps(mode, w, a);
    StepOfSteps(mode, w, b);
    FoldAppend(i, a, b, env, StepOf(mode, w));
    assert forall k :: |a| <= k < |a| + |b| ==> (a + b)[k] == b[k - |a|];
  }

  /** Outside test mode an iteration that goes on shows a body. */
  lemma NormalShows(prettyJson: bool, w: World, reqs: seq<Request>)
    requires AllScheduled(reqs)
    ensures ShowsUnlessExiting(StepOf(Normal(prettyJson), w), reqs)
  {
    var step := StepOf(Normal(prettyJson), w);
    forall n: nat, q: Request, e: Json | q in reqs && step.requires(n, q, e)
      ensures step(n, q, e).exited || (|step(n, q, e).events| >= 1 && step(n, q, e).events[0].Shown?)
    {
      var s := Step(n, q, e, Normal(prettyJson), w);
    }
  }

  /** Outside test mode the loop is fail-fast: every event is a shown body except
      possibly the last, which is then the failure that ended the process. */
  lemma NormalFailFast(i: nat, reqs: seq<Request>, env: Json, prettyJson: bool, w: World)
    requires AllScheduled(reqs)
    ensures var r := Run(i, reqs, env, Normal(prettyJson), w);
      && (forall k :: 0 <= k < |r.events| - 1 ==> r.events[k].Shown?)
      && (!r.exited ==> forall k :: 0 <= k < |r.events| ==> r.events[k].Shown?)
  {
    StepOfSteps(Normal(prettyJson), w, reqs);
    NormalShows(prettyJson, w, reqs);
    FoldFailFast(i, reqs, env, StepOf(Normal(prettyJson), w));
  }

  /** A loop over one request is that request's iteration, with the process going on
      unless it ended it. */
  lemma RunOne(i: nat, q: Request, env: Json, mode: Mode, w: World)
    requires Scheduled(q)
    ensures AllScheduled([q])
    ensures var s := Step(i, q, env, mode, w);
      Run(i, [q], env, mode, w) == Outcome(s.events, s.env, s.exited)
  {
    RunIsFold(i, [q], env, mode, w);
    var s := Step(i, q, env, mode, w);
    assert s.events + [] == s.events;
  }

  /** Outside test mode, a request that cannot be materialised or whose `Curl` fails is
      the last one run: the loop over `a + [q] + b` reports what `a` reported, then
      that failure, and nothing of `b`. */
  lemma NormalStopsAtFailure(i: nat, a: seq<Request>, q: Request, b: seq<Request>, env: Json, prettyJson: bool, w: World)
    requires AllScheduled(a) && Scheduled(q) && AllScheduled(b)
    ensures AllScheduled(a + [q] + b)
    ensures var mode := Normal(prettyJson);
      var ra := Run(i, a, env, mode, w);
      var m := NewApiUseCase(ra.env, q.uc, w.resolve, q.orders.headerOrder);
      var s := Step(i + |a|, q, ra.env, mode, w);
      !ra.exited && (m.err.Some? || Curl(m.api, w.server(i + |a|, m.api), ra.env, q.orders.varOrder).err.Some?) ==>
        && s.exited && s.events[0].Failed?
        && Run(i, a + [q] + b, env, mode, w) == Outcome(ra.events + s.events, s.env, true)
  {
    var mode := Normal(prettyJson);
    var ra := Run(i, a, env, mode, w);
    StepNormal(i + |a|, q, ra.env, prettyJson, w);
    RunOne(i + |a|, q, ra.env, mode, w);
    RunAppend(i, a, [q], env, mode, w);
    RunAppend(i, a + [q], b, env, mode, w);
  }

  /** In test mode an iteration shows no body, and ends the process only over a
      template. */
  lemma TestingReports(w: World, reqs: seq<Request>)
    requires AllScheduled(reqs)
    ensures ReportsOnly(StepOf(Testing, w), reqs)
  {
    var step := StepOf(Testing, w);
    forall n: nat, q: Request, e: Json | q in reqs && step.requires(n, q, e)
      ensures |step(n, q, e).events| >= 1 && !step(n, q, e).events[0].Shown?
      ensures step(n, q, e).exited ==> step(n, q, e).events[0].Failed? && step(n, q, e).events[0].err.TemplateInvalid?
    {
      var s := Step(n, q, e, Testing, w);
    }
  }

  /** In test mode a failing test does not stop the loop: only a request that cannot
      be materialised ends the process, and no body is shown. */
  lemma TestingStopsOnlyOnTemplates(i: nat, reqs: seq<Request>, env: Json, w: World)
    requires AllScheduled(reqs)
    ensures var r := Run(i, reqs, env, Testing, w);
      && (forall k :: 0 <= k < |r.events| ==> !r.events[k].Shown?)
      && (r.exited ==> |r.events| >= 1 && r.events[|r.events| - 1].Failed? && r.events[|r.events| - 1].err.TemplateInvalid?)
  {
    var step := StepOf(Testing, w);
    RunIsFold(i, reqs, env, Testing, w);
    StepOfSteps(Testing, w, reqs);
    TestingReports(w, reqs);
    FoldReportsOnly(i, reqs, env, step);
  }

  /** In test mode, with a template engine that resolves everything, no iteration
      ends the process. */
  lemma TestingGoesOn(w: World, reqs: seq<Request>)
    requires AllScheduled(reqs)
    requires forall s, e :: w.resolve(s, e).Success?
    ensures NeverExits(StepOf(Testing, w), reqs)
  {
    var step := StepOf(Testing, w);
    forall n: nat, q: Request, e: Json | q in reqs && step.requires(n, q, e)
      ensures !step(n, q, e).exited
    {
      var s := Step(n, q, e, Testing, w);
    }
  }

  /** With a template engine that resolves everything, test mode reports on every
      request. */
  lemma TestingReportsAll(i: nat, reqs: seq<Request>, env: Json, w: World)
    requires AllScheduled(reqs)
    requires forall s, e :: w.resolve(s, e).Success?
    ensures !Run(i, reqs, env, Testing, w).exited
    ensures |Run(i, reqs, env, Testing, w).events| == |reqs|
  {
    StepOfSteps(Testing, w, reqs);
    TestingGoesOn(w, reqs);
    FoldRunsAll(i, reqs, env, StepOf(Testing, w));
  }
}
