/** Every run of the pipeline: nothing gets stuck, nothing overruns, everything ends. */
module PipelineRuns {
  import opened Optional
  import opened Sums
  import opened Pipeline
  import Q = IoQueueProtocol

  ghost predicate IsRun(c: Config, s: State, run: seq<Action>)
    decreases |run|
  {
    run != [] ==> Enabled(s, run[0]) && IsRun(c, Step(c, s, run[0]), run[1..])
  }

  ghost function After(c: Config, s: State, run: seq<Action>): State
    requires IsRun(c, s, run)
    decreases |run|
  {
    if run == [] then s else After(c, Step(c, s, run[0]), run[1..])
  }

  lemma {:induction false} RunKeepsInv(c: Config, s: State, run: seq<Action>)
    requires Inv(c, s) && IsRun(c, s, run)
    ensures Inv(c, After(c, s, run))
    decreases |run|
  {
    hide Inv, Step, Enabled;
    if run != [] {
      StepKeepsInv(c, s, run[0]);
      RunKeepsInv(c, Step(c, s, run[0]), run[1..]);
    }
  }

  // ----- Safety -----

  /** In every reachable state: the paths taken are a prefix of the paths put, path j by exactly the
      worker `takers[j]`; no thread ever sleeps in a put on the output queue; merge has room in
      `batches[n]` for what it gets; and once it leaves the collect loop it holds every worker's
      vector exactly once. */
  lemma {:induction false} RunIsSafe(c: Config, run: seq<Action>)
    requires ConfigOk(c) && IsRun(c, Start(c), run)
    ensures var s := After(c, Start(c), run);
      && |s.takers| + |s.work.items| + |s.todo| == |c.paths|
      && s.work.items + s.todo == c.paths[|s.takers|..]
      && s.outq.putAsleep == {}
      && (s.outq.items != [] ==> |s.batches| < c.n)
      && (s.merge != Collecting ==>
            |s.batches| == c.n && Distinct(s.batches) && forall b :: b in s.batches <==> 0 <= b < c.n)
  {
    StartIsOk(c);
    RunKeepsInv(c, Start(c), run);
    var s := After(c, Start(c), run);
    BatchesAreWorkers(c, s);
  }

  lemma {:induction false} BatchesAreWorkers(c: Config, s: State)
    requires Control(c, s)
    ensures |s.takers| + |s.work.items| + |s.todo| == |c.paths|
    ensures |s.batches| + |s.outq.items| <= c.n
    ensures s.merge != Collecting ==>
      |s.batches| == c.n && Distinct(s.batches) && forall b :: b in s.batches <==> 0 <= b < c.n
  {
    assert |s.work.items + s.todo| == |c.paths| - |s.takers|;
    var all := seq(c.n, k => k);
    var published := s.batches + s.outq.items;
    forall x | x in published ensures x in all { assert all[x] == x; }
    Pigeonhole(published, all);
    if s.merge != Collecting {
      assert published == s.batches;
      forall b | 0 <= b < c.n ensures b in s.batches { assert s.workers[b].pc == Exited; }
      forall i, j | 0 <= i < j < |all| ensures all[i] != all[j] { }
      forall x | x in all ensures x in s.batches { }
      Pigeonhole(all, s.batches);
    }
  }

  // ----- Progress -----

  lemma AnySleeper(asleep: set<nat>) returns (wake: Option<nat>)
    ensures Q.CanSignal(asleep, wake)
  {
    if asleep == {} {
      wake := None;
    } else {
      var t :| t in asleep;
      wake := Some(t);
    }
  }

  lemma {:induction false} WorkerCanMove(c: Config, s: State, i: nat) returns (a: Action)
    requires Control(c, s) && i < |s.workers| && s.workers[i].pc != Exited
    requires s.workers[i].pc == Getting ==> Tid(i) !in s.work.getAsleep
    ensures Enabled(s, a) && !Spurious(a)
  {
    hide TakenOk, PublishedOk, PhasesOk, QueuesOk;
    var wake;
    match s.workers[i].pc
    case Getting =>
      wake := AnySleeper(s.work.putAsleep);
      a := WorkerGet(i, wake);
    case Parsing(_) => a := Parse(i);
    case Sorting => a := SortUnique(i);
    case Publishing =>
      wake := AnySleeper(s.outq.getAsleep);
      a := Publish(i, wake);
  }

  /** A full work queue never leaves everyone asleep: main sleeping means woken or idle getters. */
  lemma {:induction false} SomeWorkerIsUp(c: Config, s: State) returns (i: nat)
    requires ConfigOk(c) && Control(c, s) && s.main == Enqueueing && MAIN in s.work.putAsleep
    ensures i < |s.workers| && s.workers[i].pc != Exited && Tid(i) !in s.work.getAsleep
  {
    hide TakenOk, PublishedOk;
    assert s.work.putWoken == {} by {
      forall t ensures t !in s.work.putWoken { }
    }
    assert s.work.items != [];
    if s.work.getAsleep == {} {
      i := 0;
    } else {
      Q.SleeperHasWokenPeer(s.work);
      var t :| t in s.work.getWoken;
      i := t - 2;
    }
  }

  lemma {:induction false} MainSideCanMove(c: Config, s: State) returns (a: Action)
    requires ConfigOk(c) && Control(c, s) && s.main == Enqueueing
    ensures Enabled(s, a) && !Spurious(a)
  {
    hide QueuesOk, PhasesOk, TakenOk, PublishedOk;
    if s.todo == [] {
      a := CloseWork;
    } else if MAIN in s.work.putAsleep {
      var i := SomeWorkerIsUp(c, s);
      a := WorkerCanMove(c, s, i);
    } else {
      var wake := AnySleeper(s.work.getAsleep);
      a := MainPut(wake);
    }
  }

  lemma {:induction false} JoinSideCanMove(c: Config, s: State) returns (a: Action)
    requires Control(c, s) && s.main.Joining?
    ensures Enabled(s, a) && !Spurious(a)
  {
    if s.main.k == |s.workers| {
      a := CloseOut;
    } else if s.workers[s.main.k].pc == Exited {
      a := Join;
    } else {
      a := WorkerCanMove(c, s, s.main.k);
    }
  }

  lemma {:induction false} MergeSideCanMove(c: Config, s: State) returns (a: Action)
    requires Control(c, s) && s.main == JoiningMerge
    ensures Enabled(s, a) && !Spurious(a)
  {
    match s.merge
    case Collecting => a := MergeGet(None);
    case Draining => a := Drain;
    case Done => a := JoinMerge;
  }

  lemma {:induction false} SomeThreadCanMove(c: Config, s: State) returns (a: Action)
    requires ConfigOk(c) && Control(c, s) && s.main != Finished
    ensures Enabled(s, a) && !Spurious(a)
  {
    hide Control, Enabled;
    match s.main
    case Enqueueing => a := MainSideCanMove(c, s);
    case Joining(_) => a := JoinSideCanMove(c, s);
    case JoiningMerge => a := MergeSideCanMove(c, s);
  }

  /** No reachable state short of completion is stuck, whatever sleeps. */
  lemma {:induction false} NeverStuck(c: Config, run: seq<Action>) returns (a: Action)
    requires ConfigOk(c) && IsRun(c, Start(c), run) && After(c, Start(c), run).main != Finished
    ensures Enabled(After(c, Start(c), run), a) && !Spurious(a)
  {
    StartIsOk(c);
    RunKeepsInv(c, Start(c), run);
    hide IsRun, After;
    a := SomeThreadCanMove(c, After(c, Start(c), run));
  }

  // ----- Termination -----

  function MainRank(main: MainPc, n: nat): nat {
    match main
    case Enqueueing => n + 3
    case Joining(k) => if k <= n then n - k + 2 else 0
    case JoiningMerge => 1
    case Finished => 0
  }

  function WorkerRank(pc: WorkerPc): nat {
    match pc
    case Getting => 4
    case Parsing(_) => 5
    case Sorting => 3
    case Publishing => 2
    case Exited => 0
  }

  function MergeRank(merge: MergePc): nat {
    match merge
    case Collecting => 2
    case Draining => 1
    case Done => 0
  }

  function WorkerRanks(workers: seq<Worker>): (r: seq<nat>)
    ensures |r| == |workers|
  {
    seq(|workers|, i requires 0 <= i < |workers| => WorkerRank(workers[i].pc))
  }

  /** Steps of useful work still to come, at most. */
  ghost function Rank(s: State): nat {
    3 * |s.todo| + 2 * |s.work.items| + |s.outq.items|
    + Sum(WorkerRanks(s.workers)) + MainRank(s.main, |s.workers|) + MergeRank(s.merge)
  }

  ghost function Asleep(s: State): nat {
    |s.work.putAsleep| + |s.work.getAsleep| + |s.outq.putAsleep| + |s.outq.getAsleep|
  }

  lemma {:induction false} RanksAfter(workers: seq<Worker>, i: nat, w: Worker)
    requires i < |workers|
    ensures Sum(WorkerRanks(workers[i := w])) + WorkerRank(workers[i].pc) ==
      Sum(WorkerRanks(workers)) + WorkerRank(w.pc)
  {
    SumUpdate(WorkerRanks(workers), i, WorkerRank(w.pc));
    assert WorkerRanks(workers[i := w]) == WorkerRanks(workers)[i := WorkerRank(w.pc)];
  }

  /** A step either does useful work, or puts its thread to sleep, or is a spurious wakeup. */
  ghost predicate Useful(s: State, s': State) { Rank(s') < Rank(s) }

  ghost predicate Sleeps(s: State, s': State) { Rank(s') == Rank(s) && Asleep(s') == Asleep(s) + 1 }

  lemma {:induction false} AtMostThreads(c: Config, s: State)
    requires QueuesOk(c, s) && WorkWaitersOk(s) && OutWaitersOk(s)
    ensures |s.work.putAsleep| <= 1 && |s.work.getAsleep| <= c.n && |s.outq.getAsleep| <= 1
    ensures Asleep(s) <= c.n + 2
  {
    assert s.work.putAsleep <= {MAIN};
    SubsetCardinality(s.work.putAsleep, {MAIN});
    assert s.outq.getAsleep <= {MERGE};
    SubsetCardinality(s.outq.getAsleep, {MERGE});
    var tids := seq(c.n, (i: nat) => Tid(i));
    forall t | t in s.work.getAsleep ensures t in Elements(tids) { assert tids[t - 2] == t; }
    SubsetCardinality(s.work.getAsleep, Elements(tids));
    ElementsAtMost(tids);
  }

  lemma {:induction false} MainPutRank(c: Config, s: State, wake: Option<nat>)
    requires Enabled(s, MainPut(wake))
    ensures var s' := Step(c, s, MainPut(wake)); Useful(s, s') || Sleeps(s, s')
  {
  }

  lemma {:induction false} WorkerGetRank(c: Config, s: State, i: nat, wake: Option<nat>)
    requires Enabled(s, WorkerGet(i, wake))
    ensures var s' := Step(c, s, WorkerGet(i, wake)); Useful(s, s') || Sleeps(s, s')
  {
    RanksAfter(s.workers, i, s.workers[i].(pc := Sorting));
    if s.work.items != [] { RanksAfter(s.workers, i, s.workers[i].(pc := Parsing(s.work.items[0]))); }
    hide WorkerRanks, Sum;
  }

  lemma {:induction false} LocalRank(c: Config, s: State, a: Action)
    requires Enabled(s, a) && (a.Parse? || a.SortUnique?)
    ensures Useful(s, Step(c, s, a))
  {
    RanksAfter(s.workers, a.i, Step(c, s, a).workers[a.i]);
    hide WorkerRanks, Sum;
  }

  lemma {:induction false} PublishRank(c: Config, s: State, i: nat, wake: Option<nat>)
    requires Enabled(s, Publish(i, wake))
    ensures var s' := Step(c, s, Publish(i, wake)); Useful(s, s') || Sleeps(s, s')
  {
    RanksAfter(s.workers, i, s.workers[i].(pc := Exited));
    hide WorkerRanks, Sum;
  }

  lemma {:induction false} MergeGetRank(c: Config, s: State, wake: Option<nat>)
    requires Enabled(s, MergeGet(wake))
    ensures var s' := Step(c, s, MergeGet(wake)); Useful(s, s') || Sleeps(s, s')
  {
    hide Sum;
  }

  lemma {:induction false} OtherRank(c: Config, s: State, a: Action)
    requires Enabled(s, a)
    requires a.CloseWork? || a.Join? || a.CloseOut? || a.JoinMerge? || a.Drain?
    ensures Useful(s, Step(c, s, a))
  {
    hide Sum;
  }

  lemma {:induction false} StepIsUsefulOrSleeps(c: Config, s: State, a: Action)
    requires Enabled(s, a) && !Spurious(a)
    ensures var s' := Step(c, s, a); Useful(s, s') || Sleeps(s, s')
  {
    hide Enabled, Step, Useful, Sleeps;
    match a {
      case MainPut(wake) => MainPutRank(c, s, wake);
      case WorkerGet(i, wake) => WorkerGetRank(c, s, i, wake);
      case Parse(_) => LocalRank(c, s, a);
      case SortUnique(_) => LocalRank(c, s, a);
      case Publish(i, wake) => PublishRank(c, s, i, wake);
      case MergeGet(wake) => MergeGetRank(c, s, wake);
      case _ => OtherRank(c, s, a);
    }
  }

  lemma {:induction false} SpuriousRank(c: Config, s: State, a: Action)
    requires Enabled(s, a) && Spurious(a)
    ensures var s' := Step(c, s, a); Rank(s') == Rank(s) && Asleep(s') + 1 == Asleep(s)
  {
    hide Sum;
  }

  /** Work left: useful steps weigh more than all the sleepers one of them can wake. */
  ghost function Work(c: Config, s: State): int {
    (c.n + 3) * Rank(s) + (c.n + 2) - Asleep(s)
  }

  lemma Times(k: nat, x: int, y: int)
    requires x <= y
    ensures k * x <= k * y
  {
  }

  lemma {:induction false} SleepersBound(c: Config, s: State)
    requires Control(c, s)
    ensures Asleep(s) <= c.n + 2
  {
    AtMostThreads(c, s);
  }

  lemma {:induction false} WorkIsNatural(c: Config, s: State)
    requires Control(c, s)
    ensures Work(c, s) >= 0
  {
    hide Control, Rank, Asleep;
    SleepersBound(c, s);
    Times(c.n + 3, 0, Rank(s));
  }

  lemma {:induction false} StepUsesWork(c: Config, s: State, a: Action)
    requires Control(c, s) && Enabled(s, a)
    ensures if Spurious(a) then Work(c, Step(c, s, a)) == Work(c, s) + 1
            else Work(c, Step(c, s, a)) < Work(c, s)
  {
    hide Rank, Asleep, Step, Enabled, Control, Spurious;
    StepKeepsControl(c, s, a);
    var s' := Step(c, s, a);
    SleepersBound(c, s);
    SleepersBound(c, s');
    if Spurious(a) {
      SpuriousRank(c, s, a);
    } else {
      StepIsUsefulOrSleeps(c, s, a);
      if Useful(s, s') { Times(c.n + 3, Rank(s'), Rank(s) - 1); }
    }
  }

  function SpuriousCount(run: seq<Action>): nat {
    if run == [] then 0 else (if Spurious(run[0]) then 1 else 0) + SpuriousCount(run[1..])
  }

  lemma {:induction false} WorkBoundsRun(c: Config, s: State, run: seq<Action>)
    requires Inv(c, s) && IsRun(c, s, run)
    ensures |run| + Work(c, After(c, s, run)) <= Work(c, s) + 2 * SpuriousCount(run)
    decreases |run|
  {
    hide Control, Step, Enabled, Work;
    if run != [] {
      StepKeepsInv(c, s, run[0]);
      StepUsesWork(c, s, run[0]);
      WorkBoundsRun(c, Step(c, s, run[0]), run[1..]);
    }
  }

  /** With p paths and n workers no run is longer than (n+3)(3p+5n+5)+n+2 steps, plus two for each
      spurious wakeup: so, with NeverStuck, every run that is continued long enough finishes. */
  lemma {:induction false} EveryRunEnds(c: Config, run: seq<Action>)
    requires ConfigOk(c) && IsRun(c, Start(c), run)
    ensures |run| <= (c.n + 3) * (3 * |c.paths| + 5 * c.n + 5) + c.n + 2 + 2 * SpuriousCount(run)
  {
    StartIsOk(c);
    WorkBoundsRun(c, Start(c), run);
    RunKeepsInv(c, Start(c), run);
    WorkIsNatural(c, After(c, Start(c), run));
    StartRank(c);
    hide Inv, Rank, Asleep, IsRun, After, Start;
    Times(c.n + 3, Rank(Start(c)), 3 * |c.paths| + 5 * c.n + 5);
  }

  lemma {:induction false} StartRank(c: Config)
    requires ConfigOk(c)
    ensures Rank(Start(c)) <= 3 * |c.paths| + 5 * c.n + 5 && Asleep(Start(c)) == 0
  {
    SumBound(WorkerRanks(Start(c).workers), 4);
  }
}
