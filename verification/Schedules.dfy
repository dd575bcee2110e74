/** Every way of sharing out the files is some schedule; hence exactly when the schedule is
    visible in the output. */
module Schedules {
  import opened Optional
  import opened SortedLines
  import opened Pipeline
  import opened PipelineRuns
  import opened PipelineOutput
  import M = Merging
  import Q = IoQueueProtocol

  ghost predicate Leads(c: Config, s: State, run: seq<Action>, t: State) {
    IsRun(c, s, run) && After(c, s, run) == t
  }

  lemma {:induction false} Chain(c: Config, s: State, r: seq<Action>, t: State, r': seq<Action>, u: State)
    requires Leads(c, s, r, t) && Leads(c, t, r', u)
    ensures Leads(c, s, r + r', u)
    decreases |r|
  {
    hide Step, Enabled;
    if r == [] {
      assert r + r' == r';
    } else {
      Chain(c, Step(c, s, r[0]), r[1..], t, r', u);
      assert (r + r')[1..] == r[1..] + r';
    }
  }

  lemma {:induction false} One(c: Config, s: State, a: Action, t: State)
    requires Enabled(s, a) && Step(c, s, a) == t
    ensures Leads(c, s, [a], t)
  {
  }

  lemma {:induction false} Three(c: Config, s: State, a: Action, t: State, b: Action, u: State, d: Action, v: State)
    requires Leads(c, s, [a], t) && Leads(c, t, [b], u) && Leads(c, u, [d], v)
    ensures Leads(c, s, [a, b, d], v)
  {
    Chain(c, s, [a], t, [b], u);
    Chain(c, s, [a] + [b], u, [d], v);
    assert [a] + [b] + [d] == [a, b, d];
  }

  ghost predicate Assignment(c: Config, takers: seq<nat>) {
    |takers| == |c.paths| && forall j :: 0 <= j < |takers| ==> takers[j] < c.n
  }

  // ----- Handing out the files, one at a time -----

  /** The first `j` files are parsed and everyone is idle. */
  ghost function Handed(c: Config, takers: seq<nat>, j: nat): State
    requires Assignment(c, takers) && j <= |takers|
  {
    State(Enqueueing, c.paths[j..], Q.Fresh(c.cap),
          seq(c.n, (i: nat) => Worker(Getting, VecOf(c, takers[..j], i))), Q.Fresh(c.n),
          Collecting, [], [], takers[..j])
  }

  lemma {:induction false} HandPut(c: Config, takers: seq<nat>, j: nat)
    requires ConfigOk(c) && Assignment(c, takers) && j < |takers|
    ensures var s := Handed(c, takers, j);
      Leads(c, s, [MainPut(None)], s.(todo := c.paths[j + 1..], work := Q.Fresh(c.cap).(items := [c.paths[j]])))
  {
    var s := Handed(c, takers, j);
    assert s.todo[1..] == c.paths[j + 1..];
    assert [] + [c.paths[j]] == [c.paths[j]];
    One(c, s, MainPut(None), s.(todo := c.paths[j + 1..], work := Q.Fresh(c.cap).(items := [c.paths[j]])));
  }

  lemma {:induction false} HandGet(c: Config, takers: seq<nat>, j: nat, s: State)
    requires ConfigOk(c) && Assignment(c, takers) && j < |takers|
    requires s == Handed(c, takers, j).(todo := c.paths[j + 1..], work := Q.Fresh(c.cap).(items := [c.paths[j]]))
    ensures Leads(c, s, [WorkerGet(takers[j], None)],
      s.(work := Q.Fresh(c.cap), takers := takers[..j + 1],
         workers := s.workers[takers[j] := s.workers[takers[j]].(pc := Parsing(c.paths[j]))]))
  {
    var i := takers[j];
    assert takers[..j] + [i] == takers[..j + 1];
    assert s.work.items[1..] == [];
    One(c, s, WorkerGet(i, None),
        s.(work := Q.Fresh(c.cap), takers := takers[..j + 1],
           workers := s.workers[i := s.workers[i].(pc := Parsing(c.paths[j]))]));
  }

  lemma {:induction false} HandParse(c: Config, takers: seq<nat>, j: nat, s: State)
    requires ConfigOk(c) && Assignment(c, takers) && j < |takers|
    requires var h, i := Handed(c, takers, j), takers[j];
      s == h.(todo := c.paths[j + 1..], takers := takers[..j + 1],
              workers := h.workers[i := h.workers[i].(pc := Parsing(c.paths[j]))])
    ensures Leads(c, s, [Parse(takers[j])], Handed(c, takers, j + 1))
  {
    var i, t := takers[j], Handed(c, takers, j + 1);
    assert takers[..j + 1] == takers[..j] + [i];
    forall k: nat | k < c.n ensures Step(c, s, Parse(i)).workers[k] == t.workers[k] {
      VecOfTaken(c, takers[..j], i, k);
    }
    assert Step(c, s, Parse(i)).workers == t.workers;
    One(c, s, Parse(i), t);
  }

  lemma {:induction false} HandOne(c: Config, takers: seq<nat>, j: nat) returns (run: seq<Action>)
    requires ConfigOk(c) && Assignment(c, takers) && j < |takers|
    ensures Leads(c, Handed(c, takers, j), run, Handed(c, takers, j + 1))
  {
    var i, h := takers[j], Handed(c, takers, j);
    var put := h.(todo := c.paths[j + 1..], work := Q.Fresh(c.cap).(items := [c.paths[j]]));
    var got := put.(work := Q.Fresh(c.cap), takers := takers[..j + 1],
                    workers := put.workers[i := put.workers[i].(pc := Parsing(c.paths[j]))]);
    HandPut(c, takers, j);
    HandGet(c, takers, j, put);
    HandParse(c, takers, j, got);
    Three(c, h, MainPut(None), put, WorkerGet(i, None), got, Parse(i), Handed(c, takers, j + 1));
    run := [MainPut(None), WorkerGet(i, None), Parse(i)];
  }

  lemma {:induction false} HandAll(c: Config, takers: seq<nat>, j: nat) returns (run: seq<Action>)
    requires ConfigOk(c) && Assignment(c, takers) && j <= |takers|
    ensures Leads(c, Start(c), run, Handed(c, takers, j))
  {
    if j == 0 {
      assert c.paths[0..] == c.paths && takers[..0] == [];
      assert Handed(c, takers, 0).workers == Start(c).workers;
      run := [];
    } else {
      var r := HandAll(c, takers, j - 1);
      var one := HandOne(c, takers, j - 1);
      Chain(c, Start(c), r, Handed(c, takers, j - 1), one, Handed(c, takers, j));
      run := r + one;
    }
  }

  // ----- Wrapping up, one worker at a time -----

  ghost function Upto(k: nat): seq<nat> {
    seq(k, (m: nat) => m)
  }

  /** The work queue is closed and the first `i` workers have published and gone. */
  ghost function Wrapped(c: Config, takers: seq<nat>, i: nat): State
    requires Assignment(c, takers) && i <= c.n
  {
    State(Joining(0), [], Q.Fresh(c.cap).(closed := true),
          seq(c.n, (k: nat) => if k < i then Worker(Exited, SortUniq(VecOf(c, takers, k)))
                               else Worker(Getting, VecOf(c, takers, k))),
          Q.Fresh(c.n).(items := Upto(i)),
          Collecting, [], [], takers)
  }

  lemma {:induction false} WrapStart(c: Config, takers: seq<nat>)
    requires ConfigOk(c) && Assignment(c, takers)
    ensures Leads(c, Handed(c, takers, |takers|), [CloseWork], Wrapped(c, takers, 0))
  {
    var s, t := Handed(c, takers, |takers|), Wrapped(c, takers, 0);
    assert takers[..|takers|] == takers;
    assert s.workers == t.workers;
    assert Step(c, s, CloseWork).work == t.work;
    One(c, s, CloseWork, t);
  }

  lemma {:induction false} WrapOne(c: Config, takers: seq<nat>, i: nat) returns (run: seq<Action>)
    requires ConfigOk(c) && Assignment(c, takers) && i < c.n
    ensures Leads(c, Wrapped(c, takers, i), run, Wrapped(c, takers, i + 1))
  {
    var s, t := Wrapped(c, takers, i), Wrapped(c, takers, i + 1);
    var drained := s.(workers := s.workers[i := Worker(Sorting, VecOf(c, takers, i))]);
    var sorted := s.(workers := s.workers[i := Worker(Publishing, SortUniq(VecOf(c, takers, i)))]);
    assert Step(c, s, WorkerGet(i, None)).work == s.work;
    One(c, s, WorkerGet(i, None), drained);
    assert drained.workers[i := Worker(Publishing, SortUniq(VecOf(c, takers, i)))] == sorted.workers;
    One(c, drained, SortUnique(i), sorted);
    WrapPublish(c, takers, i, sorted);
    Three(c, s, WorkerGet(i, None), drained, SortUnique(i), sorted, Publish(i, None), t);
    run := [WorkerGet(i, None), SortUnique(i), Publish(i, None)];
  }

  lemma {:induction false} WrapPublish(c: Config, takers: seq<nat>, i: nat, s: State)
    requires ConfigOk(c) && Assignment(c, takers) && i < c.n
    requires var w := Wrapped(c, takers, i);
      s == w.(workers := w.workers[i := Worker(Publishing, SortUniq(VecOf(c, takers, i)))])
    ensures Leads(c, s, [Publish(i, None)], Wrapped(c, takers, i + 1))
  {
    var t := Wrapped(c, takers, i + 1);
    assert Upto(i) + [i] == Upto(i + 1);
    assert Step(c, s, Publish(i, None)).workers == t.workers;
    One(c, s, Publish(i, None), t);
  }

  lemma {:induction false} WrapAll(c: Config, takers: seq<nat>, i: nat) returns (run: seq<Action>)
    requires ConfigOk(c) && Assignment(c, takers) && i <= c.n
    ensures Leads(c, Wrapped(c, takers, 0), run, Wrapped(c, takers, i))
  {
    if i == 0 {
      run := [];
    } else {
      var r := WrapAll(c, takers, i - 1);
      var one := WrapOne(c, takers, i - 1);
      Chain(c, Wrapped(c, takers, 0), r, Wrapped(c, takers, i - 1), one, Wrapped(c, takers, i));
      run := r + one;
    }
  }

  // ----- Joining, collecting, draining -----

  ghost function Joined(c: Config, takers: seq<nat>, k: nat): State
    requires Assignment(c, takers)
  {
    Wrapped(c, takers, c.n).(main := Joining(k))
  }

  lemma {:induction false} JoinAll(c: Config, takers: seq<nat>, k: nat) returns (run: seq<Action>)
    requires ConfigOk(c) && Assignment(c, takers) && k <= c.n
    ensures Leads(c, Wrapped(c, takers, c.n), run, Joined(c, takers, k))
  {
    if k == 0 {
      run := [];
    } else {
      var r := JoinAll(c, takers, k - 1);
      One(c, Joined(c, takers, k - 1), Join, Joined(c, takers, k));
      Chain(c, Wrapped(c, takers, c.n), r, Joined(c, takers, k - 1), [Join], Joined(c, takers, k));
      run := r + [Join];
    }
  }

  /** The output queue is closed and merge has the vectors of the first `k` workers. */
  ghost function Collected(c: Config, takers: seq<nat>, k: nat): State
    requires Assignment(c, takers) && k <= c.n
  {
    Wrapped(c, takers, c.n).(main := JoiningMerge,
      outq := Q.Fresh(c.n).(closed := true, items := Upto(c.n)[k..]), batches := Upto(k))
  }

  lemma {:induction false} CollectStart(c: Config, takers: seq<nat>)
    requires ConfigOk(c) && Assignment(c, takers)
    ensures Leads(c, Joined(c, takers, c.n), [CloseOut], Collected(c, takers, 0))
  {
    var s, t := Joined(c, takers, c.n), Collected(c, takers, 0);
    assert Upto(c.n)[0..] == Upto(c.n);
    assert Step(c, s, CloseOut).outq == t.outq;
    One(c, s, CloseOut, t);
  }

  lemma {:induction false} CollectOne(c: Config, takers: seq<nat>, k: nat)
    requires ConfigOk(c) && Assignment(c, takers) && k < c.n
    ensures Leads(c, Collected(c, takers, k), [MergeGet(None)], Collected(c, takers, k + 1))
  {
    var s, t := Collected(c, takers, k), Collected(c, takers, k + 1);
    assert s.outq.items[0] == k && s.outq.items[1..] == t.outq.items;
    assert Upto(k) + [k] == Upto(k + 1);
    assert Step(c, s, MergeGet(None)).outq == t.outq;
    One(c, s, MergeGet(None), t);
  }

  lemma {:induction false} CollectAll(c: Config, takers: seq<nat>, k: nat) returns (run: seq<Action>)
    requires ConfigOk(c) && Assignment(c, takers) && k <= c.n
    ensures Leads(c, Collected(c, takers, 0), run, Collected(c, takers, k))
  {
    if k == 0 {
      run := [];
    } else {
      var r := CollectAll(c, takers, k - 1);
      CollectOne(c, takers, k - 1);
      Chain(c, Collected(c, takers, 0), r, Collected(c, takers, k - 1), [MergeGet(None)], Collected(c, takers, k));
      run := r + [MergeGet(None)];
    }
  }

  ghost function Ended(c: Config, takers: seq<nat>): State
    requires Assignment(c, takers)
  {
    Collected(c, takers, c.n).(main := Finished, merge := Done,
      output := SortLines(M.Flatten(Batches(c, takers, Upto(c.n)))))
  }

  lemma {:induction false} DrainAndEnd(c: Config, takers: seq<nat>) returns (run: seq<Action>)
    requires ConfigOk(c) && Assignment(c, takers)
    ensures Leads(c, Collected(c, takers, c.n), run, Ended(c, takers))
  {
    var s, t := Collected(c, takers, c.n), Ended(c, takers);
    var drained := s.(merge := Draining);
    var done := drained.(merge := Done, output := t.output);
    assert s.outq.items == [];
    assert Step(c, s, MergeGet(None)).outq == s.outq;
    One(c, s, MergeGet(None), drained);
    assert BatchLines(s.workers, s.batches) == Batches(c, takers, Upto(c.n));
    One(c, drained, Drain, done);
    One(c, done, JoinMerge, t);
    Three(c, s, MergeGet(None), drained, Drain, done, JoinMerge, t);
    run := [MergeGet(None), Drain, JoinMerge];
  }

  /** Any assignment of files to workers is realised by some schedule that finishes. */
  lemma {:induction false} EveryAssignmentHappens(c: Config, takers: seq<nat>) returns (run: seq<Action>)
    requires ConfigOk(c) && Assignment(c, takers)
    ensures FinishedRun(c, run) && After(c, Start(c), run).takers == takers
    ensures Output(c, run) == SortLines(M.Flatten(Batches(c, takers, Upto(c.n))))
  {
    hide Step, Enabled, Handed, Wrapped, Joined, Collected, Start;
    var hand := HandAll(c, takers, |takers|);
    WrapStart(c, takers);
    Chain(c, Start(c), hand, Handed(c, takers, |takers|), [CloseWork], Wrapped(c, takers, 0));
    var wrap := WrapAll(c, takers, c.n);
    Chain(c, Start(c), hand + [CloseWork], Wrapped(c, takers, 0), wrap, Wrapped(c, takers, c.n));
    var join := JoinAll(c, takers, c.n);
    Chain(c, Start(c), hand + [CloseWork] + wrap, Wrapped(c, takers, c.n), join, Joined(c, takers, c.n));
    var tail := Finish(c, takers);
    run := hand + [CloseWork] + wrap + join;
    Chain(c, Start(c), run, Joined(c, takers, c.n), tail, Ended(c, takers));
    run := run + tail;
    EndedIs(c, takers);
  }

  lemma {:induction false} EndedIs(c: Config, takers: seq<nat>)
    requires Assignment(c, takers)
    ensures Ended(c, takers).takers == takers && Ended(c, takers).main == Finished
  {
  }

  lemma {:induction false} Finish(c: Config, takers: seq<nat>) returns (run: seq<Action>)
    requires ConfigOk(c) && Assignment(c, takers)
    ensures Leads(c, Joined(c, takers, c.n), run, Ended(c, takers))
  {
    hide Step, Enabled, Handed, Wrapped, Joined, Collected, Ended;
    CollectStart(c, takers);
    var collect := CollectAll(c, takers, c.n);
    Chain(c, Joined(c, takers, c.n), [CloseOut], Collected(c, takers, 0), collect, Collected(c, takers, c.n));
    var end := DrainAndEnd(c, takers);
    Chain(c, Joined(c, takers, c.n), [CloseOut] + collect, Collected(c, takers, c.n), end, Ended(c, takers));
    run := [CloseOut] + collect + end;
  }

  // ----- Exactly when the schedule is invisible -----

  ghost predicate ScheduleIndependent(c: Config) {
    forall run, run' :: FinishedRun(c, run) && FinishedRun(c, run') ==> Output(c, run) == Output(c, run')
  }

  lemma {:induction false} FlattenTwice(bs: seq<seq<string>>, a: nat, b: nat, l: string)
    requires a < b < |bs| && l in bs[a] && l in bs[b]
    ensures multiset(M.Flatten(bs))[l] >= 2
  {
    if a == 0 {
      FlattenMembers(bs[1..], l);
      assert l in bs[1..][b - 1];
      assert l in M.Flatten(bs[1..]);
      assert l in multiset(M.Flatten(bs[1..])) && l in multiset(bs[0]);
    } else {
      FlattenTwice(bs[1..], a - 1, b - 1, l);
    }
  }

  /** One worker takes everything: every line comes out once. */
  lemma {:induction false} OneTakerListsOnce(c: Config, takers: seq<nat>, l: string)
    requires Assignment(c, takers) && forall j :: 0 <= j < |takers| ==> takers[j] == 0
    ensures multiset(SortLines(M.Flatten(Batches(c, takers, Upto(c.n)))))[l] <= 1
  {
    var bs := Batches(c, takers, Upto(c.n));
    forall k | 0 <= k < |bs| ensures StrictlySorted(bs[k]) { BatchMember(c, takers, Upto(c.n), k, l); }
    forall a, b, x | 0 <= a < b < |bs| && x in bs[a] ensures x !in bs[b] {
      BatchMember(c, takers, Upto(c.n), b, x);
    }
    MergeIsStrict(bs);
    StrictMultiplicity(SortLines(M.Flatten(bs)), l);
  }

  /** Two workers take two copies of a path: its lines come out twice. */
  lemma {:induction false} TwoTakersListTwice(c: Config, takers: seq<nat>, j: nat, k: nat, l: string)
    requires Assignment(c, takers) && c.n >= 2 && j < |takers| && k < |takers|
    requires takers[j] == 0 && takers[k] == 1 && l in c.lines(c.paths[j]) && l in c.lines(c.paths[k])
    ensures multiset(SortLines(M.Flatten(Batches(c, takers, Upto(c.n)))))[l] >= 2
  {
    var bs := Batches(c, takers, Upto(c.n));
    assert Took(c, takers, 0, j, l) && Took(c, takers, 1, k, l);
    BatchMember(c, takers, Upto(c.n), 0, l);
    BatchMember(c, takers, Upto(c.n), 1, l);
    FlattenTwice(bs, 0, 1, l);
    SortLinesIsSortedPermutation(M.Flatten(bs));
  }

  /** With two workers or more, a line that two of the files put share makes two schedules that write
      different tags files. */
  lemma {:induction false} SharedLineShowsSchedule(c: Config, j: nat, k: nat, l: string)
    returns (run: seq<Action>, run': seq<Action>)
    requires ConfigOk(c) && c.n >= 2
    requires j < k < |c.paths| && l in c.lines(c.paths[j]) && l in c.lines(c.paths[k])
    ensures FinishedRun(c, run) && FinishedRun(c, run') && Output(c, run) != Output(c, run')
  {
    var alone: seq<nat> := seq(|c.paths|, _ => 0);
    var shared := alone[k := 1];
    run := EveryAssignmentHappens(c, alone);
    run' := EveryAssignmentHappens(c, shared);
    OneTakerListsOnce(c, alone, l);
    TwoTakersListTwice(c, shared, j, k, l);
  }

  /** The exact condition, for any files: every schedule writes the same tags file if and only if
      there is one worker, or no line comes from two of the files put. */
  lemma {:induction false} WhenScheduleIsInvisible(c: Config)
    requires ConfigOk(c)
    ensures ScheduleIndependent(c) <==> c.n == 1 || NoSharedLine(c)
  {
    if c.n == 1 || NoSharedLine(c) {
      forall run, run' | FinishedRun(c, run) && FinishedRun(c, run') ensures Output(c, run) == Output(c, run') {
        OutputIgnoresSchedule(c, run, c, run');
      }
    } else {
      var j, k, l :| 0 <= j < k < |c.paths| && l in c.lines(c.paths[j]) && l in c.lines(c.paths[k]);
      var run, run' := SharedLineShowsSchedule(c, j, k, l);
    }
  }
}
