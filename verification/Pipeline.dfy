/** The threads as a step machine: main, N workers, merge, and the two queues between them
    (src/main.c:121-138, src/worker.c:34-42, src/merge.c:11-37).  Module WholeProgram adds the wait for
    a language that a worker may have before it parses.

    A step is one critical section of a queue, one file parsed, one sort-and-uniq, one join or the
    final drain; the scheduler picks any enabled step, wakes any sleeper a signal may wake, and may
    wake a sleeper spuriously. */
module Pipeline {
  import opened Optional
  import opened Sums
  import opened SortedLines
  import Merging
  import Q = IoQueueProtocol

  /** `n` workers, a work queue of `cap` slots, the paths main puts, and the lines each file yields. */
  datatype Config = Config(n: nat, cap: nat, paths: seq<string>, lines: string -> seq<string>)

  ghost predicate ConfigOk(c: Config) {
    c.n >= 1 && c.cap >= 1
  }

  datatype MainPc = Enqueueing | Joining(k: nat) | JoiningMerge | Finished

  datatype WorkerPc = Getting | Parsing(path: string) | Sorting | Publishing | Exited

  datatype MergePc = Collecting | Draining | Done

  datatype Worker = Worker(pc: WorkerPc, vec: seq<string>)

  /** A vector travels through `outq` as the number of the worker that owns it.  `takers[j]` records
      which worker took the j-th path. */
  datatype State = State(
    main: MainPc, todo: seq<string>, work: Q.Monitor<string>,
    workers: seq<Worker>, outq: Q.Monitor<nat>,
    merge: MergePc, batches: seq<nat>, output: seq<string>,
    takers: seq<nat>)

  datatype Action =
    | MainPut(wake: Option<nat>) | CloseWork | Join | CloseOut | JoinMerge
    | WorkerGet(i: nat, wake: Option<nat>) | Parse(i: nat) | SortUnique(i: nat) | Publish(i: nat, wake: Option<nat>)
    | MergeGet(wake: Option<nat>) | Drain
    | WakeMain | WakeGetter(i: nat) | WakePublisher(i: nat) | WakeMerge

  const MAIN: nat := 0
  const MERGE: nat := 1

  /** Thread number of worker `i`. */
  function Tid(i: nat): nat { i + 2 }

  predicate Spurious(a: Action) {
    a.WakeMain? || a.WakeGetter? || a.WakePublisher? || a.WakeMerge?
  }

  function Start(c: Config): State {
    State(Enqueueing, c.paths, Q.Fresh(c.cap), seq(c.n, _ => Worker(Getting, [])), Q.Fresh(c.n),
          Collecting, [], [], [])
  }

  /** The queue operation a step performs on the work queue, if any. */
  ghost function WorkOp(s: State, a: Action): Option<Q.Op<string>> {
    match a
    case MainPut(wake) => if s.todo != [] then Some(Q.TryPut(MAIN, s.todo[0], wake)) else None
    case CloseWork => Some(Q.Close(MAIN))
    case WorkerGet(i, wake) => Some(Q.TryGet(Tid(i), wake))
    case WakeMain => Some(Q.SpuriousPut(MAIN))
    case WakeGetter(i) => Some(Q.SpuriousGet(Tid(i)))
    case _ => None
  }

  ghost function OutOp(s: State, a: Action): Option<Q.Op<nat>> {
    match a
    case Publish(i, wake) => Some(Q.TryPut(Tid(i), i, wake))
    case CloseOut => Some(Q.Close(MAIN))
    case MergeGet(wake) => Some(Q.TryGet(MERGE, wake))
    case WakePublisher(i) => Some(Q.SpuriousPut(Tid(i)))
    case WakeMerge => Some(Q.SpuriousGet(MERGE))
    case _ => None
  }

  /** The thread is at the point where it takes this step. */
  ghost predicate AtStep(s: State, a: Action) {
    match a
    case MainPut(_) => s.main == Enqueueing && s.todo != []
    case CloseWork => s.main == Enqueueing && s.todo == []
    case Join => s.main.Joining? && s.main.k < |s.workers| && s.workers[s.main.k].pc == Exited
    case CloseOut => s.main.Joining? && s.main.k == |s.workers|
    case JoinMerge => s.main == JoiningMerge && s.merge == Done
    case WorkerGet(i, _) => i < |s.workers| && s.workers[i].pc == Getting
    case Parse(i) => i < |s.workers| && s.workers[i].pc.Parsing?
    case SortUnique(i) => i < |s.workers| && s.workers[i].pc == Sorting
    case Publish(i, _) => i < |s.workers| && s.workers[i].pc == Publishing
    case MergeGet(_) => s.merge == Collecting
    case Drain => s.merge == Draining
    case WakeMain => true
    case WakeGetter(i) => i < |s.workers|
    case WakePublisher(i) => i < |s.workers|
    case WakeMerge => true
  }

  ghost predicate Enabled(s: State, a: Action) {
    && AtStep(s, a)
    && (WorkOp(s, a).Some? ==> Q.Enabled(s.work, WorkOp(s, a).value))
    && (OutOp(s, a).Some? ==> Q.Enabled(s.outq, OutOp(s, a).value))
  }

  /** The scheduler is free: whoever sleeps may wake for no reason, a worker may take any step it is at,
      and a put or get that wakes someone may wake any sleeper. */
  lemma {:induction false} SchedulerIsFree(s: State, i: nat, sleeper: nat)
    requires i < |s.workers|
    ensures MAIN in s.work.putAsleep ==> Enabled(s, WakeMain)
    ensures Tid(i) in s.work.getAsleep ==> Enabled(s, WakeGetter(i))
    ensures MERGE in s.outq.getAsleep ==> Enabled(s, WakeMerge)
    ensures s.workers[i].pc.Parsing? ==> Enabled(s, Parse(i))
    ensures s.workers[i].pc == Sorting ==> Enabled(s, SortUnique(i))
    ensures s.workers[i].pc == Getting && Tid(i) !in s.work.getAsleep + s.work.putAsleep + s.work.putWoken ==>
      && (sleeper in s.work.putAsleep ==> Enabled(s, WorkerGet(i, Some(sleeper))))
      && (s.work.putAsleep == {} ==> Enabled(s, WorkerGet(i, None)))
  {
  }

  function SetWorker(s: State, i: nat, w: Worker): seq<Worker>
    requires i < |s.workers|
  {
    s.workers[i := w]
  }

  /** The contents of the collected vectors, in the order they arrived. */
  ghost function BatchLines(workers: seq<Worker>, batches: seq<nat>): (r: seq<seq<string>>)
    ensures |r| == |batches|
  {
    seq(|batches|, k requires 0 <= k < |batches| =>
      if batches[k] < |workers| then workers[batches[k]].vec else [])
  }

  ghost function Step(c: Config, s: State, a: Action): State
    requires Enabled(s, a)
  {
    var work := if WorkOp(s, a).Some? then Q.Step(s.work, WorkOp(s, a).value) else s.work;
    var outq := if OutOp(s, a).Some? then Q.Step(s.outq, OutOp(s, a).value) else s.outq;
    var t := s.(work := work, outq := outq);
    match a
    case MainPut(_) => if |s.work.items| == s.work.cap then t else t.(todo := s.todo[1..])
    case CloseWork => t.(main := Joining(0))
    case Join => t.(main := Joining(s.main.k + 1))
    case CloseOut => t.(main := JoiningMerge)
    case JoinMerge => t.(main := Finished)
    case WorkerGet(i, _) =>
      (match Q.GetOutcome(s.work.items, s.work.closed)
       case MustWait => t
       case Drained => t.(workers := SetWorker(s, i, s.workers[i].(pc := Sorting)))
       case Got(path) =>
         t.(workers := SetWorker(s, i, s.workers[i].(pc := Parsing(path))), takers := s.takers + [i]))
    case Parse(i) =>
      t.(workers := SetWorker(s, i, Worker(Getting, s.workers[i].vec + c.lines(s.workers[i].pc.path))))
    case SortUnique(i) => t.(workers := SetWorker(s, i, Worker(Publishing, SortUniq(s.workers[i].vec))))
    case Publish(i, _) =>
      if |s.outq.items| == s.outq.cap then t
      else t.(workers := SetWorker(s, i, s.workers[i].(pc := Exited)))
    case MergeGet(_) =>
      (match Q.GetOutcome(s.outq.items, s.outq.closed)
       case MustWait => t
       case Drained => t.(merge := Draining)
       case Got(b) => t.(batches := s.batches + [b]))
    case Drain =>
      t.(merge := Done, output := SortLines(Merging.Flatten(BatchLines(s.workers, s.batches))))
    case _ => t
  }

  // ----- The invariant -----

  /** What worker `i` has taken, as lines in the order it parsed them. */
  ghost function VecOf(c: Config, takers: seq<nat>, i: nat): seq<string>
    requires |takers| <= |c.paths|
  {
    if takers == [] then []
    else
      var last := |takers| - 1;
      VecOf(c, takers[..last], i) + if takers[last] == i then c.lines(c.paths[last]) else []
  }

  ghost predicate QueuesOk(c: Config, s: State) {
    && Q.Inv(s.work) && Q.Inv(s.outq)
    && s.work.cap == c.cap && s.outq.cap == c.n == |s.workers|
  }

  /** Who can be inside a wait on the work queue: main with a path in hand, workers that get. */
  ghost predicate WorkWaitersOk(s: State) {
    && (forall t :: t in s.work.putAsleep || t in s.work.putWoken ==>
          t == MAIN && s.main == Enqueueing && s.todo != [])
    && (forall t :: t in s.work.getAsleep || t in s.work.getWoken ==>
          2 <= t < |s.workers| + 2 && s.workers[t - 2].pc == Getting)
  }

  /** Only merge ever waits on the output queue. */
  ghost predicate OutWaitersOk(s: State) {
    && s.outq.putAsleep == {} && s.outq.putWoken == {}
    && (forall t :: t in s.outq.getAsleep || t in s.outq.getWoken ==> t == MERGE && s.merge == Collecting)
  }

  ghost predicate PhasesOk(s: State) {
    && (s.work.closed <==> s.main != Enqueueing)
    && (s.work.closed ==> s.todo == [])
    && (s.outq.closed <==> s.main == JoiningMerge || s.main == Finished)
    && (s.main.Joining? ==> s.main.k <= |s.workers|)
    && (forall i :: 0 <= i < |s.workers| ==>
          ((s.main.Joining? && i < s.main.k) || s.outq.closed ==> s.workers[i].pc == Exited)
          && (s.workers[i].pc in {Sorting, Publishing, Exited} ==> s.work.closed && s.work.items == []))
    && (s.merge != Collecting ==> s.outq.closed && s.outq.items == [])
    && (s.main == Finished ==> s.merge == Done)
  }

  ghost predicate WorkerOk(c: Config, takers: seq<nat>, w: Worker, i: nat)
    requires |takers| <= |c.paths|
  {
    match w.pc
    case Getting => w.vec == VecOf(c, takers, i)
    case Parsing(path) => w.vec + c.lines(path) == VecOf(c, takers, i)
    case Sorting => w.vec == VecOf(c, takers, i)
    case _ => w.vec == SortUniq(VecOf(c, takers, i))
  }

  /** The paths taken so far are a prefix of the paths put; the rest is queued or still to be put. */
  ghost predicate TakenOk(c: Config, s: State) {
    && |s.takers| <= |c.paths| && s.work.items + s.todo == c.paths[|s.takers|..]
    && (forall j :: 0 <= j < |s.takers| ==> s.takers[j] < |s.workers|)
  }

  ghost predicate VectorsOk(c: Config, s: State)
    requires |s.takers| <= |c.paths|
  {
    forall i :: 0 <= i < |s.workers| ==> WorkerOk(c, s.takers, s.workers[i], i)
  }

  /** Each vector is published once, by the worker that then exits. */
  ghost predicate PublishedOk(s: State) {
    && Distinct(s.batches + s.outq.items)
    && (forall b :: b in s.batches + s.outq.items <==> 0 <= b < |s.workers| && s.workers[b].pc == Exited)
  }

  ghost predicate OutputOk(s: State) {
    s.merge == Done ==> s.output == SortLines(Merging.Flatten(BatchLines(s.workers, s.batches)))
  }

  /** What does not depend on the lines the files yield. */
  ghost predicate Control(c: Config, s: State) {
    QueuesOk(c, s) && WorkWaitersOk(s) && OutWaitersOk(s) && PhasesOk(s) && TakenOk(c, s) && PublishedOk(s)
  }

  ghost predicate Inv(c: Config, s: State) {
    Control(c, s) && VectorsOk(c, s) && OutputOk(s)
  }

  lemma {:induction false} StartIsOk(c: Config)
    requires ConfigOk(c)
    ensures Inv(c, Start(c))
  {
    assert c.paths[0..] == c.paths;
    assert [] + c.paths == c.paths;
  }

  /** Room in the output queue: whoever is about to publish finds a free slot. */
  lemma {:induction false} PublishNeverBlocks(c: Config, s: State, i: nat)
    requires QueuesOk(c, s) && PublishedOk(s) && i < |s.workers| && s.workers[i].pc != Exited
    ensures |s.outq.items| + |s.batches| < s.outq.cap
  {
    var published := s.batches + s.outq.items;
    DistinctParts(published, [i]);
    var all := seq(|s.workers|, k => k);
    forall x | x in published + [i] ensures x in all { assert all[x] == x; }
    Pigeonhole(published + [i], all);
  }

  lemma {:induction false} KeepsQueues(c: Config, s: State, a: Action)
    requires Control(c, s) && Enabled(s, a)
    ensures QueuesOk(c, Step(c, s, a))
  {
    hide WorkWaitersOk, OutWaitersOk, PhasesOk, TakenOk, PublishedOk, Q.Step, Q.Inv, Q.Enabled;
    if WorkOp(s, a).Some? { Q.StepKeepsInv(s.work, WorkOp(s, a).value); }
    if OutOp(s, a).Some? { Q.StepKeepsInv(s.outq, OutOp(s, a).value); }
  }

  lemma {:induction false} MainPutWaiters(c: Config, s: State, wake: Option<nat>)
    requires WorkWaitersOk(s) && Enabled(s, MainPut(wake)) && |s.work.items| <= s.work.cap
    ensures WorkWaitersOk(Step(c, s, MainPut(wake)))
  {
  }

  lemma {:induction false} WorkerGetWaiters(c: Config, s: State, i: nat, wake: Option<nat>)
    requires WorkWaitersOk(s) && Enabled(s, WorkerGet(i, wake))
    ensures WorkWaitersOk(Step(c, s, WorkerGet(i, wake)))
  {
  }

  lemma {:induction false} OtherWaiters(c: Config, s: State, a: Action)
    requires WorkWaitersOk(s) && Enabled(s, a) && !a.MainPut? && !a.WorkerGet?
    ensures WorkWaitersOk(Step(c, s, a))
  {
  }

  lemma {:induction false} KeepsWorkWaiters(c: Config, s: State, a: Action)
    requires QueuesOk(c, s) && WorkWaitersOk(s) && Enabled(s, a)
    ensures WorkWaitersOk(Step(c, s, a))
  {
    assert |s.work.items| <= s.work.cap;
    hide QueuesOk, WorkWaitersOk, Step, Enabled;
    match a {
      case MainPut(wake) => MainPutWaiters(c, s, wake);
      case WorkerGet(i, wake) => WorkerGetWaiters(c, s, i, wake);
      case _ => OtherWaiters(c, s, a);
    }
  }

  lemma {:induction false} KeepsOutWaiters(c: Config, s: State, a: Action)
    requires Control(c, s) && Enabled(s, a)
    ensures OutWaitersOk(Step(c, s, a))
  {
    hide QueuesOk, WorkWaitersOk, PhasesOk, TakenOk, PublishedOk;
    if a.Publish? { PublishNeverBlocks(c, s, a.i); }
  }

  lemma {:induction false} MainPhases(c: Config, s: State, a: Action)
    requires PhasesOk(s) && Enabled(s, a)
    requires a.MainPut? || a.CloseWork? || a.Join? || a.CloseOut? || a.JoinMerge?
    ensures PhasesOk(Step(c, s, a))
  {
  }

  lemma {:induction false} WorkerPhases(c: Config, s: State, a: Action)
    requires PhasesOk(s) && Enabled(s, a)
    requires a.WorkerGet? || a.Parse? || a.SortUnique? || a.Publish?
    ensures PhasesOk(Step(c, s, a))
  {
    assert s.workers[a.i].pc != Exited;
    assert !s.outq.closed && s.merge == Collecting;
  }

  lemma {:induction false} OtherPhases(c: Config, s: State, a: Action)
    requires PhasesOk(s) && Enabled(s, a) && (a.MergeGet? || a.Drain? || Spurious(a))
    ensures PhasesOk(Step(c, s, a))
  {
  }

  lemma {:induction false} KeepsPhases(c: Config, s: State, a: Action)
    requires PhasesOk(s) && Enabled(s, a)
    ensures PhasesOk(Step(c, s, a))
  {
    hide PhasesOk, Enabled, Step;
    if a.MainPut? || a.CloseWork? || a.Join? || a.CloseOut? || a.JoinMerge? {
      MainPhases(c, s, a);
    } else if a.WorkerGet? || a.Parse? || a.SortUnique? || a.Publish? {
      WorkerPhases(c, s, a);
    } else {
      OtherPhases(c, s, a);
    }
  }

  lemma {:induction false} VecOfTaken(c: Config, takers: seq<nat>, taker: nat, i: nat)
    requires |takers| < |c.paths|
    ensures VecOf(c, takers + [taker], i) ==
      if taker == i then VecOf(c, takers, i) + c.lines(c.paths[|takers|]) else VecOf(c, takers, i)
  {
    assert VecOf(c, takers, i) + [] == VecOf(c, takers, i);
    assert (takers + [taker])[..|takers|] == takers;
  }

  lemma {:induction false} KeepsPrefix(c: Config, s: State, a: Action)
    requires Enabled(s, a) && |s.takers| <= |c.paths| && s.work.items + s.todo == c.paths[|s.takers|..]
    ensures var s' := Step(c, s, a);
      |s'.takers| <= |c.paths| && s'.work.items + s'.todo == c.paths[|s'.takers|..]
  {
    var s' := Step(c, s, a);
    if a.WorkerGet? && s.work.items != [] {
      assert s'.work.items + s'.todo == c.paths[|s.takers|..][1..];
    } else if a.MainPut? {
      assert s'.work.items + s'.todo == s.work.items + s.todo;
    }
  }

  lemma {:induction false} TakerStep(c: Config, s: State, a: Action, i: nat)
    requires Enabled(s, a) && TakenOk(c, s) && VectorsOk(c, s)
    requires a.WorkerGet? && s.work.items != [] && i < |s.workers|
    ensures WorkerOk(c, s.takers + [a.i], Step(c, s, a).workers[i], i)
  {
    assert s.work.items[0] == (s.work.items + s.todo)[0] == c.paths[|s.takers|];
    assert WorkerOk(c, s.takers, s.workers[i], i);
    VecOfTaken(c, s.takers, a.i, i);
    hide VecOf, TakenOk, VectorsOk;
  }

  lemma {:induction false} LocalStep(c: Config, s: State, a: Action, i: nat)
    requires Enabled(s, a) && TakenOk(c, s) && VectorsOk(c, s)
    requires !(a.WorkerGet? && s.work.items != []) && i < |s.workers|
    ensures WorkerOk(c, s.takers, Step(c, s, a).workers[i], i)
  {
    assert WorkerOk(c, s.takers, s.workers[i], i);
    hide VecOf, TakenOk, VectorsOk, Q.Step, Q.Enabled;
  }

  lemma {:induction false} KeepsTaken(c: Config, s: State, a: Action)
    requires QueuesOk(c, s) && TakenOk(c, s) && Enabled(s, a)
    ensures TakenOk(c, Step(c, s, a))
  {
    hide QueuesOk, Q.Step, Q.Enabled;
    KeepsPrefix(c, s, a);
  }

  lemma {:induction false} KeepsVectors(c: Config, s: State, a: Action)
    requires Inv(c, s) && Enabled(s, a) && |Step(c, s, a).takers| <= |c.paths|
    ensures VectorsOk(c, Step(c, s, a))
  {
    hide QueuesOk, WorkWaitersOk, OutWaitersOk, PhasesOk, PublishedOk, OutputOk, VecOf, WorkerOk, Q.Step, Q.Enabled;
    var s' := Step(c, s, a);
    forall i | 0 <= i < |s'.workers| ensures WorkerOk(c, s'.takers, s'.workers[i], i) {
      if a.WorkerGet? && s.work.items != [] {
        TakerStep(c, s, a, i);
      } else {
        LocalStep(c, s, a, i);
      }
    }
  }

  lemma {:induction false} PublishStep(c: Config, s: State, i: nat, wake: Option<nat>)
    requires PublishedOk(s) && Enabled(s, Publish(i, wake)) && |s.outq.items| < s.outq.cap
    ensures PublishedOk(Step(c, s, Publish(i, wake)))
  {
    var s' := Step(c, s, Publish(i, wake));
    var before, after := s.batches + s.outq.items, s'.batches + s'.outq.items;
    assert after == before + [i];
    DistinctParts(before, [i]);
  }

  lemma {:induction false} CollectStep(c: Config, s: State, wake: Option<nat>)
    requires PublishedOk(s) && Enabled(s, MergeGet(wake))
    ensures PublishedOk(Step(c, s, MergeGet(wake)))
  {
    var s' := Step(c, s, MergeGet(wake));
    if s.outq.items != [] {
      assert s.outq.items == [s.outq.items[0]] + s.outq.items[1..];
    }
    assert s'.batches + s'.outq.items == s.batches + s.outq.items;
  }

  lemma {:induction false} KeepsPublished(c: Config, s: State, a: Action)
    requires QueuesOk(c, s) && PublishedOk(s) && Enabled(s, a)
    ensures PublishedOk(Step(c, s, a))
  {
    hide QueuesOk;
    match a {
      case Publish(i, wake) =>
        PublishNeverBlocks(c, s, i);
        PublishStep(c, s, i, wake);
      case MergeGet(wake) => CollectStep(c, s, wake);
      case _ => assert Step(c, s, a).batches + Step(c, s, a).outq.items == s.batches + s.outq.items;
    }
  }

  lemma {:induction false} KeepsOutput(c: Config, s: State, a: Action)
    requires PhasesOk(s) && OutputOk(s) && Enabled(s, a)
    ensures OutputOk(Step(c, s, a))
  {
    var s' := Step(c, s, a);
    if s'.merge == Done && s.merge == Done {
      assert forall i :: 0 <= i < |s.workers| ==> s.workers[i].pc == Exited;
      assert s'.workers == s.workers && s'.batches == s.batches;
    }
  }

  lemma {:induction false} StepKeepsControl(c: Config, s: State, a: Action)
    requires Control(c, s) && Enabled(s, a)
    ensures Control(c, Step(c, s, a))
  {
    KeepsQueues(c, s, a);
    KeepsWorkWaiters(c, s, a);
    KeepsOutWaiters(c, s, a);
    KeepsPhases(c, s, a);
    KeepsTaken(c, s, a);
    KeepsPublished(c, s, a);
    hide QueuesOk, WorkWaitersOk, OutWaitersOk, PhasesOk, TakenOk, PublishedOk, Enabled, Step;
  }

  lemma {:induction false} StepKeepsInv(c: Config, s: State, a: Action)
    requires Inv(c, s) && Enabled(s, a)
    ensures Inv(c, Step(c, s, a))
  {
    StepKeepsControl(c, s, a);
    KeepsVectors(c, s, a);
    KeepsOutput(c, s, a);
    hide QueuesOk, WorkWaitersOk, OutWaitersOk, PhasesOk, PublishedOk, VectorsOk, OutputOk, Enabled, Step;
  }
}
