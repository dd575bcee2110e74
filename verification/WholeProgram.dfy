/** The pipeline and the language cache as one machine.  A worker that has taken a path with a language
    is inside one `lang_cache_get` call (src/parse.c:185) until the call returns, and only then parses
    the file; while it is inside the call it may sleep on `loaded` (src/lang.c:175). */
module WholeProgram {
  import opened Optional
  import opened Languages
  import opened CStrings
  import opened SortedLines
  import opened Parsing
  import opened Discovery
  import opened TagsFile
  import P = Pipeline
  import R = PipelineRuns
  import O = PipelineOutput
  import S = Schedules
  import L = LangProtocol

  datatype State = State(pipe: P.State, cache: L.State)

  datatype Action =
    | Pipe(pipeStep: P.Action)
    | Cache(cacheStep: L.Action)

  function Start(c: P.Config): State {
    State(P.Start(c), L.State([], [], seq(c.n, _ => L.Caller(LANGUAGES[0], L.Idle))))
  }

  ghost predicate Enabled(s: State, a: Action) {
    match a
    case Pipe(b) =>
      && P.Enabled(s.pipe, b)
      && (b.Parse? ==> b.i < |s.cache.callers| && !L.InCall(s.cache.callers[b.i]))
    case Cache(b) => !b.Open? && L.Enabled(s.cache, b)
  }

  predicate Spurious(a: Action) {
    match a
    case Pipe(b) => P.Spurious(b)
    case Cache(b) => b.Spurious?
  }

  /** What `lang_cache_get` gave worker `i` for `path`: an entry or NULL. */
  ghost predicate GotEntry(s: State, i: nat, path: string)
    requires i < |s.cache.callers|
  {
    var status := s.cache.callers[i].status;
    LanguageOf(path).Some? && status.Returned? && status.result.Some?
  }

  /** The lines of each file as the thread that takes step `b` sees them. */
  ghost function Seen(w: World, c: P.Config, s: State, b: P.Action): P.Config
    requires WorldOk(w)
  {
    if b.Parse? && b.i < |s.cache.callers|
    then c.(lines := path => FileLines(path, GotEntry(s, b.i, path), w.file(path)))
    else c
  }

  /** A worker that gets a path with a language goes straight into its call. */
  ghost function Opened(cache: L.State, pipe: P.State, b: P.Action): L.State {
    if b.WorkerGet? && b.i < |pipe.workers| && b.i < |cache.callers| && pipe.workers[b.i].pc.Parsing? then
      match LanguageOf(pipe.workers[b.i].pc.path)
      case None => cache
      case Some(name) => L.Step(cache, L.Open(b.i, name))
    else cache
  }

  ghost function Step(w: World, c: P.Config, s: State, a: Action): State
    requires WorldOk(w) && Enabled(s, a)
  {
    match a
    case Pipe(b) =>
      var pipe := P.Step(Seen(w, c, s, b), s.pipe, b);
      State(pipe, Opened(s.cache, pipe, b))
    case Cache(b) => s.(cache := L.Step(s.cache, b))
  }

  // ----- The invariant -----

  /** Only a worker with a path in hand is inside a call, and the call is for that path's language. */
  ghost predicate CallOk(worker: P.Worker, caller: L.Caller) {
    match worker.pc
    case Parsing(path) =>
      (match LanguageOf(path)
       case None => !L.InCall(caller)
       case Some(name) => caller.name == name && caller.status != L.Idle)
    case _ => !L.InCall(caller)
  }

  ghost predicate CallsOk(pipe: P.State, cache: L.State) {
    && |cache.callers| == |pipe.workers|
    && forall i :: 0 <= i < |pipe.workers| ==> CallOk(pipe.workers[i], cache.callers[i])
  }

  ghost predicate Inv(c: P.Config, s: State) {
    P.Control(c, s.pipe) && L.Inv(s.cache) && CallsOk(s.pipe, s.cache)
  }

  lemma {:induction false} StartIsOk(c: P.Config)
    requires P.ConfigOk(c)
    ensures Inv(c, Start(c)) && L.Initial(Start(c).cache)
  {
    P.StartIsOk(c);
  }

  /** A step of the pipeline moves one worker at most, from the point the step is taken at. */
  lemma {:induction false} OneWorkerMoves(c: P.Config, s: P.State, b: P.Action, j: nat)
    requires P.Enabled(s, b) && j < |s.workers|
    ensures var s' := P.Step(c, s, b);
      && |s'.workers| == |s.workers|
      && (s'.workers[j].pc == s.workers[j].pc
          || (b.WorkerGet? && b.i == j && s.workers[j].pc == P.Getting)
          || (b.Parse? && b.i == j && s'.workers[j].pc == P.Getting)
          || ((b.SortUnique? || b.Publish?) && b.i == j && !s.workers[j].pc.Parsing? && !s'.workers[j].pc.Parsing?))
  {
  }

  lemma {:induction false} PipeKeepsCall(w: World, c: P.Config, s: State, b: P.Action, j: nat)
    requires WorldOk(w) && CallsOk(s.pipe, s.cache) && Enabled(s, Pipe(b)) && j < |s.pipe.workers|
    ensures var s' := Step(w, c, s, Pipe(b));
      |s'.pipe.workers| == |s.pipe.workers| == |s'.cache.callers| && CallOk(s'.pipe.workers[j], s'.cache.callers[j])
  {
    OneWorkerMoves(Seen(w, c, s, b), s.pipe, b, j);
    assert CallOk(s.pipe.workers[j], s.cache.callers[j]);
    hide P.Step, P.Enabled;
  }

  lemma LanguageIsListed(path: string)
    ensures LanguageOf(path).Some? ==> LanguageOf(path).value in LANGUAGES
  {
    if FindExtension(path).Some? { NineLanguages(FindExtension(path).value, 0); }
  }

  lemma {:induction false} OpenedKeepsInv(w: World, c: P.Config, s: State, b: P.Action)
    requires WorldOk(w) && CallsOk(s.pipe, s.cache) && L.Inv(s.cache) && Enabled(s, Pipe(b))
    ensures L.Inv(Step(w, c, s, Pipe(b)).cache)
  {
    if b.WorkerGet? {
      var pc := Step(w, c, s, Pipe(b)).pipe.workers[b.i].pc;
      assert CallOk(s.pipe.workers[b.i], s.cache.callers[b.i]);
      if pc.Parsing? && LanguageOf(pc.path).Some? {
        LanguageIsListed(pc.path);
        L.OpenKeepsInv(s.cache, b.i, LanguageOf(pc.path).value);
      }
    }
    hide P.Step, P.Enabled, L.Inv, L.Step;
  }

  lemma {:induction false} CacheKeepsCalls(s: State, b: L.Action)
    requires CallsOk(s.pipe, s.cache) && Enabled(s, Cache(b))
    ensures CallsOk(s.pipe, L.Step(s.cache, b))
  {
    var cache := L.Step(s.cache, b);
    forall i | 0 <= i < |s.pipe.workers| ensures CallOk(s.pipe.workers[i], cache.callers[i]) {
      assert CallOk(s.pipe.workers[i], s.cache.callers[i]);
    }
  }

  /** The lines a thread sees do not touch the control state. */
  lemma {:induction false} ControlIgnoresLines(w: World, c: P.Config, s: State, b: P.Action, pipe: P.State)
    requires WorldOk(w)
    ensures P.Control(Seen(w, c, s, b), pipe) <==> P.Control(c, pipe)
    ensures R.Work(Seen(w, c, s, b), pipe) == R.Work(c, pipe)
  {
    hide P.WorkWaitersOk, P.OutWaitersOk, P.PhasesOk, P.PublishedOk;
  }

  lemma {:induction false} StepKeepsInv(w: World, c: P.Config, s: State, a: Action)
    requires WorldOk(w) && Inv(c, s) && Enabled(s, a)
    ensures Inv(c, Step(w, c, s, a))
  {
    match a {
      case Pipe(b) =>
        var s' := Step(w, c, s, a);
        ControlIgnoresLines(w, c, s, b, s.pipe);
        P.StepKeepsControl(Seen(w, c, s, b), s.pipe, b);
        ControlIgnoresLines(w, c, s, b, s'.pipe);
        OpenedKeepsInv(w, c, s, b);
        hide P.Control, L.Inv, P.Step, P.Enabled, L.Step, CallOk;
        assert |s.pipe.workers| == |s.cache.callers|;
        forall j | 0 <= j < |s.pipe.workers|
          ensures |s'.pipe.workers| == |s.pipe.workers| == |s'.cache.callers|
          ensures CallOk(s'.pipe.workers[j], s'.cache.callers[j])
        {
          PipeKeepsCall(w, c, s, b, j);
        }
      case Cache(b) =>
        L.StepKeepsInv(s.cache, b);
        CacheKeepsCalls(s, b);
    }
  }

  // ----- Runs -----

  ghost predicate IsRun(w: World, c: P.Config, s: State, run: seq<Action>)
    requires WorldOk(w)
    decreases |run|
  {
    run != [] ==> Enabled(s, run[0]) && IsRun(w, c, Step(w, c, s, run[0]), run[1..])
  }

  ghost function After(w: World, c: P.Config, s: State, run: seq<Action>): State
    requires WorldOk(w) && IsRun(w, c, s, run)
    decreases |run|
  {
    if run == [] then s else After(w, c, Step(w, c, s, run[0]), run[1..])
  }

  lemma {:induction false} RunKeepsInv(w: World, c: P.Config, s: State, run: seq<Action>)
    requires WorldOk(w) && Inv(c, s) && IsRun(w, c, s, run)
    ensures Inv(c, After(w, c, s, run))
    decreases |run|
  {
    hide Inv, Step, Enabled;
    if run != [] {
      StepKeepsInv(w, c, s, run[0]);
      RunKeepsInv(w, c, Step(w, c, s, run[0]), run[1..]);
    }
  }

  // ----- Progress -----

  lemma {:induction false} SomeThreadCanMove(c: P.Config, s: State) returns (a: Action)
    requires P.ConfigOk(c) && Inv(c, s) && s.pipe.main != P.Finished
    ensures Enabled(s, a) && !Spurious(a)
  {
    if L.NoneInCall(s.cache) {
      var b := R.SomeThreadCanMove(c, s.pipe);
      assert |s.cache.callers| == |s.pipe.workers|;
      hide P.Control, L.Inv;
      a := Pipe(b);
    } else {
      var b := L.SomeCallerCanMove(s.cache);
      a := Cache(b);
    }
  }

  /** No reachable state short of completion is stuck, whoever sleeps on a queue or on the cache, and
      whichever loads failed on the way. */
  lemma {:induction false} NeverStuck(w: World, c: P.Config, run: seq<Action>) returns (a: Action)
    requires WorldOk(w) && P.ConfigOk(c) && IsRun(w, c, Start(c), run)
    requires After(w, c, Start(c), run).pipe.main != P.Finished
    ensures Enabled(After(w, c, Start(c), run), a) && !Spurious(a)
  {
    StartIsOk(c);
    RunKeepsInv(w, c, Start(c), run);
    hide Inv, IsRun, After, Enabled;
    a := SomeThreadCanMove(c, After(w, c, Start(c), run));
  }

  // ----- Termination -----

  /** Paths no worker has taken yet: each may still cost one call. */
  function Waiting(pipe: P.State): nat {
    |pipe.todo| + |pipe.work.items|
  }

  function CallCost(n: nat): nat {
    2 * (n + 1) + 1
  }

  ghost function Work(c: P.Config, s: State): int {
    R.Work(c, s.pipe) + L.Work(s.cache) + CallCost(c.n) * Waiting(s.pipe)
  }

  lemma {:induction false} WaitingAfter(c: P.Config, s: P.State, b: P.Action)
    requires P.Enabled(s, b)
    ensures var s' := P.Step(c, s, b);
      Waiting(s') == if b.WorkerGet? && s.work.items != [] then Waiting(s) - 1 else Waiting(s)
  {
  }

  lemma {:induction false} OpeningAdds(w: World, c: P.Config, s: State, b: P.Action)
    requires WorldOk(w) && Inv(c, s) && Enabled(s, Pipe(b))
    ensures var s' := Step(w, c, s, Pipe(b));
      L.Work(s'.cache) <= L.Work(s.cache) + if TakesPath(s.pipe, b) then CallCost(c.n) else 0
  {
    if b.WorkerGet? {
      var pc := Step(w, c, s, Pipe(b)).pipe.workers[b.i].pc;
      assert CallOk(s.pipe.workers[b.i], s.cache.callers[b.i]);
      if pc.Parsing? && LanguageOf(pc.path).Some? {
        LanguageIsListed(pc.path);
        L.StepUsesWork(s.cache, L.Open(b.i, LanguageOf(pc.path).value));
      }
    }
    hide P.Step, P.Enabled, L.Inv, L.Step, L.Work;
  }

  /** The step takes a path off the work queue. */
  predicate TakesPath(pipe: P.State, b: P.Action) {
    b.WorkerGet? && pipe.work.items != []
  }

  lemma {:induction false} PipelineWorkFalls(w: World, c: P.Config, s: State, b: P.Action)
    requires WorldOk(w) && P.Control(c, s.pipe) && Enabled(s, Pipe(b))
    ensures R.Work(c, Step(w, c, s, Pipe(b)).pipe) <=
      if P.Spurious(b) then R.Work(c, s.pipe) + 1 else R.Work(c, s.pipe) - 1
  {
    var s' := Step(w, c, s, Pipe(b));
    ControlIgnoresLines(w, c, s, b, s.pipe);
    ControlIgnoresLines(w, c, s, b, s'.pipe);
    R.StepUsesWork(Seen(w, c, s, b), s.pipe, b);
    hide P.Control, P.Step, P.Enabled, R.Work, P.Spurious, Opened, Seen;
  }

  lemma {:induction false} WaitingCost(w: World, c: P.Config, s: State, b: P.Action, cost: nat)
    requires WorldOk(w) && Enabled(s, Pipe(b))
    ensures cost * Waiting(Step(w, c, s, Pipe(b)).pipe) ==
      cost * Waiting(s.pipe) - if TakesPath(s.pipe, b) then cost else 0
  {
    WaitingAfter(Seen(w, c, s, b), s.pipe, b);
    hide P.Step, P.Enabled, Waiting, Opened, Seen;
    if TakesPath(s.pipe, b) { OneLess(cost, Waiting(s.pipe)); }
  }

  lemma {:induction false} PipeUsesWork(w: World, c: P.Config, s: State, b: P.Action)
    requires WorldOk(w) && Inv(c, s) && Enabled(s, Pipe(b))
    ensures Work(c, Step(w, c, s, Pipe(b))) <= if P.Spurious(b) then Work(c, s) + 1 else Work(c, s) - 1
  {
    PipelineWorkFalls(w, c, s, b);
    WaitingCost(w, c, s, b, CallCost(c.n));
    OpeningAdds(w, c, s, b);
    hide Inv, Enabled, Step, R.Work, L.Work, Waiting, CallCost, P.Spurious;
  }

  lemma {:induction false} CacheUsesWork(c: P.Config, s: State, b: L.Action)
    requires Inv(c, s) && Enabled(s, Cache(b))
    ensures Work(c, s.(cache := L.Step(s.cache, b))) <= if b.Spurious? then Work(c, s) + 1 else Work(c, s) - 1
  {
    L.StepUsesWork(s.cache, b);
    hide Inv, L.Step, L.Work, R.Work, Waiting, CallCost;
  }

  /** Every step that is not a spurious wakeup uses up work; a spurious wakeup adds one unit at most. */
  lemma {:induction false} StepUsesWork(w: World, c: P.Config, s: State, a: Action)
    requires WorldOk(w) && Inv(c, s) && Enabled(s, a)
    ensures Work(c, Step(w, c, s, a)) <= if Spurious(a) then Work(c, s) + 1 else Work(c, s) - 1
  {
    hide Inv, Enabled, Work;
    match a {
      case Pipe(b) => PipeUsesWork(w, c, s, b);
      case Cache(b) => CacheUsesWork(c, s, b);
    }
  }

  lemma OneLess(cost: nat, x: int)
    ensures cost * (x - 1) == cost * x - cost
  {
  }

  lemma {:induction false} WorkIsNatural(c: P.Config, s: State)
    requires Inv(c, s)
    ensures Work(c, s) >= 0
  {
    R.WorkIsNatural(c, s.pipe);
    R.Times(CallCost(c.n), 0, Waiting(s.pipe));
    hide Inv, L.Work, R.Work, Waiting, CallCost;
  }

  function SpuriousCount(run: seq<Action>): nat {
    if run == [] then 0 else (if Spurious(run[0]) then 1 else 0) + SpuriousCount(run[1..])
  }

  lemma {:induction false} WorkBoundsRun(w: World, c: P.Config, s: State, run: seq<Action>)
    requires WorldOk(w) && Inv(c, s) && IsRun(w, c, s, run)
    ensures |run| + Work(c, After(w, c, s, run)) <= Work(c, s) + 2 * SpuriousCount(run)
    decreases |run|
  {
    hide Inv, Step, Enabled, Work;
    if run != [] {
      StepKeepsInv(w, c, s, run[0]);
      StepUsesWork(w, c, s, run[0]);
      WorkBoundsRun(w, c, Step(w, c, s, run[0]), run[1..]);
    }
  }

  /** A bound on every run, the steps inside `lang_cache_get` included, with p paths and n workers:
      (n+3)(3p+5n+5) + n+2 + (2n+3)p, plus two for each spurious wakeup. */
  lemma {:induction false} EveryRunEnds(w: World, c: P.Config, run: seq<Action>)
    requires WorldOk(w) && P.ConfigOk(c) && IsRun(w, c, Start(c), run)
    ensures var n, p := c.n, |c.paths|;
      |run| <= (n + 3) * (3 * p + 5 * n + 5) + n + 2 + (2 * n + 3) * p + 2 * SpuriousCount(run)
  {
    StartIsOk(c);
    WorkBoundsRun(w, c, Start(c), run);
    RunKeepsInv(w, c, Start(c), run);
    WorkIsNatural(c, After(w, c, Start(c), run));
    StartWork(c);
    hide Inv, Work, IsRun, After, Start;
  }

  lemma {:induction false} StartWork(c: P.Config)
    requires P.ConfigOk(c)
    ensures var n, p := c.n, |c.paths|;
      Work(c, Start(c)) <= (n + 3) * (3 * p + 5 * n + 5) + n + 2 + (2 * n + 3) * p
  {
    R.StartRank(c);
    R.Times(c.n + 3, R.Rank(P.Start(c)), 3 * |c.paths| + 5 * c.n + 5);
    StartIsOk(c);
    L.IdleWeighsNothing(Start(c).cache);
    assert Waiting(P.Start(c)) == |c.paths| && CallCost(c.n) == 2 * c.n + 3;
    hide R.Rank, R.Asleep, L.Work, Waiting, CallCost;
  }

  // ----- With a fixed load result per language: the same outputs as the pipeline alone -----

  ghost predicate LoadsAs(w: World, c: P.Config, s: State, run: seq<Action>)
    requires WorldOk(w) && IsRun(w, c, s, run)
    decreases |run|
  {
    run != [] ==> LoadedAs(w, s, run[0]) && LoadsAs(w, c, Step(w, c, s, run[0]), run[1..])
  }

  ghost predicate LoadedAs(w: World, s: State, a: Action)
    requires Enabled(s, a)
  {
    match a
    case Pipe(_) => true
    case Cache(b) => b.Finish? ==> b.loaded == w.loads(s.cache.callers[b.t].name)
  }

  /** The pipeline's part of a run. */
  function PipeSteps(run: seq<Action>): seq<P.Action> {
    if run == [] then []
    else
      match run[0]
      case Pipe(b) => [b] + PipeSteps(run[1..])
      case Cache(_) => PipeSteps(run[1..])
  }

  /** Each step keeps: what a call returned is what the language's load gives. */
  lemma {:induction false} StepAgrees(w: World, c: P.Config, s: State, a: Action)
    requires WorldOk(w) && Inv(c, s) && Enabled(s, a) && L.ResultsAgree(s.cache, w.loads) && LoadedAs(w, s, a)
    ensures L.ResultsAgree(Step(w, c, s, a).cache, w.loads)
  {
    match a {
      case Pipe(b) => hide P.Step, P.Enabled, P.Control, L.Inv;
      case Cache(b) =>
        L.StepAgrees(s.cache, b, w.loads);
        hide L.Inv, L.Step, P.Control;
    }
  }

  /** So a worker parses with the entry that the language's load decides. */
  lemma {:induction false} ParsesAsConfigured(w: World, paths: seq<string>, jobs: nat, s: State, b: P.Action)
    requires WorldOk(w) && Inv(Program(w, paths, jobs), s) && L.ResultsAgree(s.cache, w.loads) && Enabled(s, Pipe(b))
    ensures var c := Program(w, paths, jobs);
      P.Step(Seen(w, c, s, b), s.pipe, b) == P.Step(c, s.pipe, b)
  {
    if b.Parse? {
      assert CallOk(s.pipe.workers[b.i], s.cache.callers[b.i]);
      hide P.Control, L.Inv;
      var path := s.pipe.workers[b.i].pc.path;
      assert GotEntry(s, b.i, path) == EntryFound(w, path);
    }
  }

  /** Leaving out the cache's steps gives a run of the pipeline through the same states. */
  lemma {:induction false} PipelinePart(w: World, paths: seq<string>, jobs: nat, s: State, run: seq<Action>)
    requires WorldOk(w) && Inv(Program(w, paths, jobs), s) && L.ResultsAgree(s.cache, w.loads)
    requires IsRun(w, Program(w, paths, jobs), s, run) && LoadsAs(w, Program(w, paths, jobs), s, run)
    ensures var c := Program(w, paths, jobs);
      && R.IsRun(c, s.pipe, PipeSteps(run))
      && R.After(c, s.pipe, PipeSteps(run)) == After(w, c, s, run).pipe
    decreases |run|
  {
    if run != [] {
      var c := Program(w, paths, jobs);
      var next := Step(w, c, s, run[0]);
      StepKeepsInv(w, c, s, run[0]);
      StepAgrees(w, c, s, run[0]);
      hide Inv, P.Step, P.Enabled, L.Step, L.Enabled, L.ResultsAgree, Program;
      PipelinePart(w, paths, jobs, next, run[1..]);
      match run[0] {
        case Pipe(b) =>
          ParsesAsConfigured(w, paths, jobs, s, b);
          var rest := PipeSteps(run[1..]);
          assert ([b] + rest)[1..] == rest;
        case Cache(b) =>
      }
    }
  }

  ghost predicate Leads(w: World, c: P.Config, s: State, run: seq<Action>, t: State)
    requires WorldOk(w)
  {
    IsRun(w, c, s, run) && LoadsAs(w, c, s, run) && After(w, c, s, run) == t
  }

  lemma {:induction false} Prepend(w: World, c: P.Config, s: State, a: Action, run: seq<Action>, t: State)
    requires WorldOk(w) && Enabled(s, a) && LoadedAs(w, s, a) && Leads(w, c, Step(w, c, s, a), run, t)
    ensures Leads(w, c, s, [a] + run, t)
  {
    hide Enabled, Step, LoadedAs;
    assert ([a] + run)[1..] == run;
  }

  lemma {:induction false} Chain(w: World, c: P.Config, s: State, front: seq<Action>, t: State,
                                 rest: seq<Action>, u: State)
    requires WorldOk(w) && Leads(w, c, s, front, t) && Leads(w, c, t, rest, u)
    ensures Leads(w, c, s, front + rest, u)
    decreases |front|
  {
    hide Enabled, Step, LoadedAs;
    if front == [] {
      assert front + rest == rest;
    } else {
      Chain(w, c, Step(w, c, s, front[0]), front[1..], t, rest, u);
      Prepend(w, c, s, front[0], front[1..] + rest, u);
      assert [front[0]] + (front[1..] + rest) == front + rest;
    }
  }

  /** Between two steps of the pipeline with no call open. */
  ghost predicate Quiet(w: World, c: P.Config, s: State) {
    Inv(c, s) && L.ResultsAgree(s.cache, w.loads) && L.NoneInCall(s.cache)
  }

  /** Only thread `i` is inside a call, which it has just begun. */
  ghost predicate OnlyTrying(cache: L.State, i: nat) {
    && i < |cache.callers| && cache.callers[i].status == L.Trying
    && forall j :: 0 <= j < |cache.callers| && j != i ==> !L.InCall(cache.callers[j])
  }

  /** A call with the cache to itself ends in one or two steps. */
  lemma {:induction false} CallAlone(w: World, c: P.Config, s: State, i: nat) returns (run: seq<Action>, t: State)
    requires WorldOk(w) && Inv(c, s) && L.ResultsAgree(s.cache, w.loads) && OnlyTrying(s.cache, i)
    ensures Leads(w, c, s, run, t) && Quiet(w, c, t) && t.pipe == s.pipe
  {
    var look := Cache(L.Look(i));
    LookAlone(s.cache, i);
    var u := Step(w, c, s, look);
    StepKeepsInv(w, c, s, look);
    StepAgrees(w, c, s, look);
    if L.NoneInCall(u.cache) {
      run, t := [look], u;
      hide Inv, L.ResultsAgree, Step, Enabled, L.NoneInCall;
      Prepend(w, c, s, look, [], u);
      assert [look] + [] == [look];
    } else {
      var finish := Cache(L.Finish(i, w.loads(u.cache.callers[i].name)));
      FinishAlone(u.cache, i, w.loads(u.cache.callers[i].name));
      t := Step(w, c, u, finish);
      StepKeepsInv(w, c, u, finish);
      StepAgrees(w, c, u, finish);
      run := [look, finish];
      hide Inv, L.ResultsAgree, L.Step, L.Enabled, L.NoneInCall;
      Prepend(w, c, u, finish, [], t);
      Prepend(w, c, s, look, [finish] + [], t);
      assert [look] + ([finish] + []) == [look, finish];
    }
  }

  lemma {:induction false} LookAlone(cache: L.State, i: nat)
    requires L.Inv(cache) && OnlyTrying(cache, i)
    ensures var next := L.Step(cache, L.Look(i));
      || L.NoneInCall(next)
      || (next.callers[i].status == L.Loading
          && forall j :: 0 <= j < |next.callers| && j != i ==> !L.InCall(next.callers[j]))
  {
    L.SomeoneLoads(cache);
  }

  lemma {:induction false} FinishAlone(cache: L.State, i: nat, loaded: bool)
    requires i < |cache.callers| && cache.callers[i].status == L.Loading
    requires forall j :: 0 <= j < |cache.callers| && j != i ==> !L.InCall(cache.callers[j])
    ensures L.NoneInCall(L.Step(cache, L.Finish(i, loaded)))
  {
  }

  /** A step of the pipeline, followed by the call it opens if it opens one. */
  lemma {:induction false} LiftStep(w: World, paths: seq<string>, jobs: nat, s: State, b: P.Action)
    returns (run: seq<Action>, t: State)
    requires WorldOk(w) && Quiet(w, Program(w, paths, jobs), s) && P.Enabled(s.pipe, b)
    ensures var c := Program(w, paths, jobs);
      Leads(w, c, s, run, t) && Quiet(w, c, t) && t.pipe == P.Step(c, s.pipe, b)
  {
    var c, a := Program(w, paths, jobs), Pipe(b);
    assert |s.cache.callers| == |s.pipe.workers|;
    assert Enabled(s, a);
    var u := Step(w, c, s, a);
    StepKeepsInv(w, c, s, a);
    StepAgrees(w, c, s, a);
    ParsesAsConfigured(w, paths, jobs, s, b);
    if L.NoneInCall(u.cache) {
      run, t := [], u;
      assert Leads(w, c, u, [], u);
    } else {
      OpenedAlone(w, c, s, b);
      run, t := CallAlone(w, c, u, b.i);
    }
    hide Inv, L.ResultsAgree, Step, Enabled, L.NoneInCall, P.Step, P.Enabled, Program;
    Prepend(w, c, s, a, run, t);
    run := [a] + run;
  }

  lemma {:induction false} OpenedAlone(w: World, c: P.Config, s: State, b: P.Action)
    requires WorldOk(w) && Inv(c, s) && Enabled(s, Pipe(b))
    requires L.NoneInCall(s.cache) && !L.NoneInCall(Step(w, c, s, Pipe(b)).cache)
    ensures b.WorkerGet? && OnlyTrying(Step(w, c, s, Pipe(b)).cache, b.i)
  {
    hide P.Control, L.Inv, P.Step, P.Enabled;
  }

  /** Conversely every run of the pipeline is the pipeline's part of a run of the whole program. */
  lemma {:induction false} LiftRun(w: World, paths: seq<string>, jobs: nat, s: State, steps: seq<P.Action>)
    returns (run: seq<Action>, t: State)
    requires WorldOk(w) && Quiet(w, Program(w, paths, jobs), s)
    requires R.IsRun(Program(w, paths, jobs), s.pipe, steps)
    ensures Leads(w, Program(w, paths, jobs), s, run, t)
    ensures t.pipe == R.After(Program(w, paths, jobs), s.pipe, steps)
    decreases |steps|
  {
    hide Quiet, P.Step, P.Enabled, Program;
    if steps == [] {
      run, t := [], s;
    } else {
      var front, u := LiftStep(w, paths, jobs, s, steps[0]);
      var rest;
      rest, t := LiftRun(w, paths, jobs, u, steps[1..]);
      Chain(w, Program(w, paths, jobs), s, front, u, rest, t);
      run := front + rest;
    }
  }

  // ----- What a finished run of the whole program wrote -----

  ghost predicate FinishedRun(w: World, c: P.Config, run: seq<Action>)
    requires WorldOk(w)
  {
    && IsRun(w, c, Start(c), run) && LoadsAs(w, c, Start(c), run)
    && After(w, c, Start(c), run).pipe.main == P.Finished
  }

  ghost function Output(w: World, c: P.Config, run: seq<Action>): seq<string>
    requires WorldOk(w) && FinishedRun(w, c, run)
  {
    After(w, c, Start(c), run).pipe.output
  }

  ghost predicate ScheduleIndependent(w: World, c: P.Config)
    requires WorldOk(w)
  {
    forall run, run' :: FinishedRun(w, c, run) && FinishedRun(w, c, run') ==> Output(w, c, run) == Output(w, c, run')
  }

  lemma {:induction false} StartIsQuiet(w: World, c: P.Config)
    requires P.ConfigOk(c)
    ensures Quiet(w, c, Start(c))
  {
    StartIsOk(c);
  }

  /** Waiting on the cache adds no output: what the whole program writes, the pipeline writes. */
  lemma {:induction false} OutputOfPipeline(w: World, paths: seq<string>, jobs: nat, run: seq<Action>)
    requires WorldOk(w) && jobs >= 1 && FinishedRun(w, Program(w, paths, jobs), run)
    ensures var c := Program(w, paths, jobs);
      O.FinishedRun(c, PipeSteps(run)) && O.Output(c, PipeSteps(run)) == Output(w, c, run)
  {
    StartIsQuiet(w, Program(w, paths, jobs));
    PipelinePart(w, paths, jobs, Start(Program(w, paths, jobs)), run);
    hide IsRun, After, R.IsRun, R.After, LoadsAs, Inv, L.ResultsAgree;
  }

  /** ... and loses none: what the pipeline can write, the whole program can write. */
  lemma {:induction false} OutputOfWhole(w: World, paths: seq<string>, jobs: nat, steps: seq<P.Action>)
    returns (run: seq<Action>)
    requires WorldOk(w) && jobs >= 1 && O.FinishedRun(Program(w, paths, jobs), steps)
    ensures var c := Program(w, paths, jobs);
      FinishedRun(w, c, run) && Output(w, c, run) == O.Output(c, steps)
  {
    var c := Program(w, paths, jobs);
    StartIsQuiet(w, c);
    var t;
    run, t := LiftRun(w, paths, jobs, Start(c), steps);
    hide IsRun, After, R.IsRun, R.After, LoadsAs, Quiet;
  }

  /** On every finished run, the lines written are those of the indexed files. */
  lemma {:induction false} TagsFileHasTheLines(w: World, roots: seq<Root>, here: Node, jobs: nat,
                                               run: seq<Action>, l: string)
    requires WorldOk(w) && jobs >= 1 && FinishedRun(w, Program(w, MainPaths(roots, here), jobs), run)
    ensures l in Output(w, Program(w, MainPaths(roots, here), jobs), run) <==>
      exists f :: Indexed(roots, here, f) && l in LinesOf(w, f)
  {
    OutputOfPipeline(w, MainPaths(roots, here), jobs, run);
    OutputHasIndexedLines(w, roots, here, jobs, PipeSteps(run), l);
    hide FinishedRun, Output, O.FinishedRun, O.Output, MainPaths, LinesOf, Indexed, Program;
  }

  /** For any operands that reach no line-yielding file by the same path twice, or with one worker: the
      tags file lists the lines of the indexed files, each once, in increasing byte order. */
  lemma {:induction false} TagsFileIsListing(w: World, roots: seq<Root>, here: Node, jobs: nat, run: seq<Action>)
    requires WorldOk(w) && jobs >= 1
    requires jobs == 1 || O.NoRepeats(Program(w, MainPaths(roots, here), jobs))
    requires FinishedRun(w, Program(w, MainPaths(roots, here), jobs), run)
    ensures var out := Output(w, Program(w, MainPaths(roots, here), jobs), run);
      && (forall i, j :: 0 <= i < j < |out| ==> Before(out[i], out[j]))
      && (forall l :: l in out <==> exists f :: Indexed(roots, here, f) && l in LinesOf(w, f))
  {
    var out := Output(w, Program(w, MainPaths(roots, here), jobs), run);
    ListingIsStrict(w, roots, here, jobs, run);
    hide FinishedRun, Output, O.NoRepeats, MainPaths, LinesOf, Indexed, Program, Before;
    forall i, j | 0 <= i < j < |out| ensures Before(out[i], out[j]) { StrcmpIsByteOrder(out[i], out[j]); }
    forall l ensures l in out <==> exists f :: Indexed(roots, here, f) && l in LinesOf(w, f) {
      TagsFileHasTheLines(w, roots, here, jobs, run, l);
    }
  }

  lemma {:induction false} ListingIsStrict(w: World, roots: seq<Root>, here: Node, jobs: nat, run: seq<Action>)
    requires WorldOk(w) && jobs >= 1
    requires jobs == 1 || O.NoRepeats(Program(w, MainPaths(roots, here), jobs))
    requires FinishedRun(w, Program(w, MainPaths(roots, here), jobs), run)
    ensures StrictlySorted(Output(w, Program(w, MainPaths(roots, here), jobs), run))
  {
    OutputOfPipeline(w, MainPaths(roots, here), jobs, run);
    OutputIsStrict(w, roots, here, jobs, PipeSteps(run));
    hide FinishedRun, Output, O.FinishedRun, O.Output, MainPaths, Program;
  }

  /** So it depends neither on the schedule nor on the number of workers. */
  lemma {:induction false} TagsFileIgnoresSchedule(w: World, roots: seq<Root>, here: Node,
                                                   jobs: nat, run: seq<Action>, jobs': nat, run': seq<Action>)
    requires WorldOk(w) && jobs >= 1 && jobs' >= 1
    requires jobs == 1 || O.NoRepeats(Program(w, MainPaths(roots, here), jobs))
    requires jobs' == 1 || O.NoRepeats(Program(w, MainPaths(roots, here), jobs'))
    requires FinishedRun(w, Program(w, MainPaths(roots, here), jobs), run)
    requires FinishedRun(w, Program(w, MainPaths(roots, here), jobs'), run')
    ensures Output(w, Program(w, MainPaths(roots, here), jobs), run) ==
            Output(w, Program(w, MainPaths(roots, here), jobs'), run')
  {
    ListingIsStrict(w, roots, here, jobs, run);
    ListingIsStrict(w, roots, here, jobs', run');
    hide FinishedRun, Output, O.NoRepeats, LinesOf, Indexed;
    var out, out' := Output(w, Program(w, MainPaths(roots, here), jobs), run),
                     Output(w, Program(w, MainPaths(roots, here), jobs'), run');
    forall l ensures l in out <==> l in out' {
      TagsFileHasTheLines(w, roots, here, jobs, run, l);
      TagsFileHasTheLines(w, roots, here, jobs', run', l);
    }
    StrictListingIsUnique(out, out');
  }

  /** Every line written is the tag of a match in an indexed file that is not skipped. */
  lemma {:induction false} EveryLineIsATag(w: World, roots: seq<Root>, here: Node, jobs: nat,
                                           run: seq<Action>, l: string)
    returns (f: string, j: nat, start: nat, end: nat, kind: string)
    requires WorldOk(w) && jobs >= 1 && FinishedRun(w, Program(w, MainPaths(roots, here), jobs), run)
    requires l in Output(w, Program(w, MainPaths(roots, here), jobs), run)
    ensures Indexed(roots, here, f) && IsTagOf(l, f, w.file(f), j, start, end, kind)
    ensures LanguageOf(f).Some? && w.loads(LanguageOf(f).value) && w.file(f).accepted && w.file(f).parses
    ensures |w.file(f).content.value| <= 2097152
    ensures forall a: nat, b: nat :: a + 4096 < b <= |w.file(f).content.value| ==> '\n' in w.file(f).content.value[a..b]
  {
    TagsFileHasTheLines(w, roots, here, jobs, run, l);
    hide FinishedRun, Output, MainPaths, Indexed, Program, IsParsed;
    f :| Indexed(roots, here, f) && l in LinesOf(w, f);
    WhenFileIsSkipped(f, EntryFound(w, f), w.file(f));
    j, start, end, kind := LineIsTag(f, EntryFound(w, f), w.file(f), l);
  }

  /** And every tag is written: if an indexed file is readable, at most 2 MiB long, without a line over
      4096 bytes, and its language loads and parses it, then each of its first 4096 matches with a
      printable name and a kind is in the tags file, or else a match that names the same bytes with a
      higher pattern, or earlier with the same. */
  lemma {:induction false} EveryTagIsWritten(w: World, roots: seq<Root>, here: Node, jobs: nat, run: seq<Action>,
                                             f: string, name: string, i: nat, start: nat, end: nat, kind: string)
    returns (l: string, j: nat, winner: string)
    requires WorldOk(w) && jobs >= 1 && FinishedRun(w, Program(w, MainPaths(roots, here), jobs), run)
    requires Indexed(roots, here, f) && LanguageOf(f) == Some(name) && w.loads(name)
    requires var file := w.file(f);
      && file.accepted && file.parses && file.content.Some? && |file.content.value| <= 2097152
      && (forall a: nat, b: nat :: a + 4096 < b <= |file.content.value| ==> '\n' in file.content.value[a..b])
      && i < |file.matches| && i < 4096 && Complete(file.content.value, file.matches[i], start, end, kind)
    ensures var ms := w.file(f).matches;
      && l in Output(w, Program(w, MainPaths(roots, here), jobs), run)
      && IsTagOf(l, f, w.file(f), j, start, end, winner)
      && (ms[j].pattern > ms[i].pattern || (ms[j].pattern == ms[i].pattern && j <= i))
  {
    WhenFileIsSkipped(f, EntryFound(w, f), w.file(f));
    hide FinishedRun, Output, MainPaths, Indexed, Program, IsParsed, IsTagOf, Complete;
    l, j, winner := MatchHasTag(f, EntryFound(w, f), w.file(f), i, start, end, kind);
    TagsFileHasTheLines(w, roots, here, jobs, run, l);
  }

  /** The queue sizes main asks for, on every run. */
  lemma {:induction false} QueueSizes(w: World, paths: seq<string>, jobs: nat, run: seq<Action>)
    requires WorldOk(w) && jobs >= 1
    requires IsRun(w, Program(w, paths, jobs), Start(Program(w, paths, jobs)), run)
    ensures var s := After(w, Program(w, paths, jobs), Start(Program(w, paths, jobs)), run);
      && s.pipe.work.cap == 512 && |s.pipe.work.items| <= 512
      && s.pipe.outq.cap == jobs && |s.pipe.outq.items| <= jobs
  {
    StartIsOk(Program(w, paths, jobs));
    RunKeepsInv(w, Program(w, paths, jobs), Start(Program(w, paths, jobs)), run);
  }

  /** For one operand or none there is no condition. */
  lemma {:induction false} OneOperandIsSafe(w: World, roots: seq<Root>, here: Node,
                                            jobs: nat, run: seq<Action>, jobs': nat, run': seq<Action>)
    requires WorldOk(w) && |roots| <= 1 && TreeOk(Operands(roots, here)[0].tree) && jobs >= 1 && jobs' >= 1
    requires FinishedRun(w, Program(w, MainPaths(roots, here), jobs), run)
    requires FinishedRun(w, Program(w, MainPaths(roots, here), jobs'), run')
    ensures Output(w, Program(w, MainPaths(roots, here), jobs), run) ==
            Output(w, Program(w, MainPaths(roots, here), jobs'), run')
  {
    OneOperandHasNoRepeats(w, roots, here, jobs);
    OneOperandHasNoRepeats(w, roots, here, jobs');
    TagsFileIgnoresSchedule(w, roots, here, jobs, run, jobs', run');
  }

  /** The exact condition for any operands. */
  lemma {:induction false} WhenOperandsAreSafe(w: World, roots: seq<Root>, here: Node, jobs: nat)
    requires WorldOk(w) && jobs >= 1
    ensures var c := Program(w, MainPaths(roots, here), jobs);
      ScheduleIndependent(w, c) <==> jobs == 1 || O.NoRepeats(c)
  {
    var paths := MainPaths(roots, here);
    var c := Program(w, paths, jobs);
    WhenPipelineIsSafe(w, roots, here, jobs);
    hide FinishedRun, Output, O.FinishedRun, O.Output, O.NoRepeats, Program, MainPaths;
    if S.ScheduleIndependent(c) {
      forall run, run' | FinishedRun(w, c, run) && FinishedRun(w, c, run')
        ensures Output(w, c, run) == Output(w, c, run')
      {
        OutputOfPipeline(w, paths, jobs, run);
        OutputOfPipeline(w, paths, jobs, run');
      }
    } else {
      var steps, steps' :|
        O.FinishedRun(c, steps) && O.FinishedRun(c, steps') && O.Output(c, steps) != O.Output(c, steps');
      var run := OutputOfWhole(w, paths, jobs, steps);
      var run' := OutputOfWhole(w, paths, jobs, steps');
    }
  }

  /** `tsag a.c a.c` with two workers, where a.c holds `int f;`: different schedules write different
      tags files. */
  lemma {:induction false} NamingAFileTwice(here: Node) returns (w: World, roots: seq<Root>)
    ensures w == OneFileWorld() && WorldOk(w)
    ensures roots == [Root("a.c", Regular), Root("a.c", Regular)]
    ensures !ScheduleIndependent(w, Program(w, MainPaths(roots, here), 2))
  {
    w, roots := OneFileWorld(), [Root("a.c", Regular), Root("a.c", Regular)];
    AcYieldsALine();
    AcTwiceIsPutTwice(here);
    hide OneFileWorld, LinesOf, MainPaths, ScheduleIndependent;
    WhenOperandsAreSafe(w, roots, here, 2);
    var c := Program(w, MainPaths(roots, here), 2);
    assert c.paths[0] == c.paths[1] && c.lines(c.paths[0]) != [];
  }
}
