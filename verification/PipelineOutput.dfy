/** What a finished run wrote: the strictly increasing listing of all lines of all files. */
module PipelineOutput {
  import opened Sums
  import opened CStrings
  import opened SortedLines
  import opened Pipeline
  import opened PipelineRuns
  import M = Merging

  /** A line belongs to one path only. */
  ghost predicate LinesNameTheirPath(c: Config) {
    forall p, q, l :: p in c.paths && q in c.paths && l in c.lines(p) && l in c.lines(q) ==> p == q
  }

  /** No path that yields a line is put twice. */
  ghost predicate NoRepeats(c: Config) {
    forall j, k :: 0 <= j < k < |c.paths| && c.paths[j] == c.paths[k] ==> c.lines(c.paths[j]) == []
  }

  /** No line comes from two of the files put. */
  ghost predicate NoSharedLine(c: Config) {
    forall j, k, l :: 0 <= j < k < |c.paths| && l in c.lines(c.paths[j]) ==> l !in c.lines(c.paths[k])
  }

  /** When lines name their path, sharing a line means naming a path twice. */
  lemma {:induction false} SharingIsRepeating(c: Config)
    requires LinesNameTheirPath(c)
    ensures NoSharedLine(c) <==> NoRepeats(c)
  {
    if NoRepeats(c) {
      forall j, k, l | 0 <= j < k < |c.paths| && l in c.lines(c.paths[j]) ensures l !in c.lines(c.paths[k]) {
        assert c.paths[j] in c.paths && c.paths[k] in c.paths;
      }
    }
    if !NoRepeats(c) {
      var j, k :| 0 <= j < k < |c.paths| && c.paths[j] == c.paths[k] && c.lines(c.paths[j]) != [];
      assert c.lines(c.paths[j])[0] in c.lines(c.paths[k]);
    }
  }

  ghost predicate SomeFileHas(c: Config, l: string) {
    exists j :: 0 <= j < |c.paths| && l in c.lines(c.paths[j])
  }

  /** `out` lists each line of each file once, in strcmp order. */
  ghost predicate Listing(c: Config, out: seq<string>) {
    StrictlySorted(out) && forall l :: l in out <==> SomeFileHas(c, l)
  }

  /** Path `j` was taken by worker `i` and yields `l`. */
  ghost predicate Took(c: Config, takers: seq<nat>, i: nat, j: int, l: string) {
    0 <= j < |takers| <= |c.paths| && takers[j] == i && l in c.lines(c.paths[j])
  }

  lemma {:induction false} VecOfMeaning(c: Config, takers: seq<nat>, i: nat, l: string)
    requires |takers| <= |c.paths|
    ensures l in VecOf(c, takers, i) <==> exists j :: Took(c, takers, i, j, l)
  {
    if takers != [] {
      var last := |takers| - 1;
      var init := takers[..last];
      VecOfMeaning(c, init, i, l);
      assert takers == init + [takers[last]];
      if exists j :: Took(c, init, i, j, l) {
        var j :| Took(c, init, i, j, l);
        assert Took(c, takers, i, j, l);
      }
      if exists j :: Took(c, takers, i, j, l) {
        var j :| Took(c, takers, i, j, l);
        assert j < last ==> Took(c, init, i, j, l);
      }
      if takers[last] == i && l in c.lines(c.paths[last]) { assert Took(c, takers, i, last, l); }
    }
  }

  // ----- Merging disjoint strict listings -----

  ghost predicate Disjoint(bs: seq<seq<string>>) {
    forall i, j, l :: 0 <= i < j < |bs| && l in bs[i] ==> l !in bs[j]
  }

  lemma {:induction false} FlattenMembers(bs: seq<seq<string>>, l: string)
    ensures l in M.Flatten(bs) <==> exists k :: 0 <= k < |bs| && l in bs[k]
  {
    if bs != [] {
      FlattenMembers(bs[1..], l);
      if l in M.Flatten(bs[1..]) {
        var k :| 0 <= k < |bs[1..]| && l in bs[1..][k];
        assert l in bs[k + 1];
      }
      if exists k :: 0 <= k < |bs| && l in bs[k] {
        var k :| 0 <= k < |bs| && l in bs[k];
        assert k > 0 ==> l in bs[1..][k - 1];
      }
    }
  }

  lemma {:induction false} StrictMultiplicity(s: seq<string>, l: string)
    requires StrictlySorted(s)
    ensures multiset(s)[l] <= 1
  {
    if s != [] {
      StrictMultiplicity(s[1..], l);
      assert s == [s[0]] + s[1..];
      if s[0] == l && l in s[1..] {
        var k :| 0 <= k < |s[1..]| && s[1..][k] == l;
        assert Less(s[0], s[k + 1]);
        StrcmpZero(l, l);
      }
    }
  }

  lemma {:induction false} FlattenMultiplicity(bs: seq<seq<string>>, l: string)
    requires Disjoint(bs) && forall k :: 0 <= k < |bs| ==> StrictlySorted(bs[k])
    ensures multiset(M.Flatten(bs))[l] <= 1
  {
    if bs != [] {
      FlattenMultiplicity(bs[1..], l);
      StrictMultiplicity(bs[0], l);
      if l in bs[0] {
        FlattenMembers(bs[1..], l);
        assert l !in M.Flatten(bs[1..]);
      }
    }
  }

  lemma TwiceThereTwiceCounted(s: seq<string>, i: nat, j: nat)
    requires i < j < |s|
    ensures s[i] == s[j] ==> multiset(s)[s[i]] >= 2
  {
    assert s == s[..j] + s[j..];
    assert s[..j][i] in s[..j] && s[j..][0] in s[j..];
  }

  lemma {:induction false} SortedOnceIsStrict(s: seq<string>)
    requires Sorted(s) && forall l :: multiset(s)[l] <= 1
    ensures StrictlySorted(s)
  {
    StrcmpIsTotalOrder();
    forall i, j | 0 <= i < j < |s| ensures Less(s[i], s[j]) {
      TwiceThereTwiceCounted(s, i, j);
    }
  }

  lemma SameMembers(s: seq<string>, t: seq<string>, l: string)
    requires multiset(s) == multiset(t)
    ensures l in s <==> l in t
  {
    assert l in s <==> l in multiset(s);
    assert l in t <==> l in multiset(t);
  }

  /** The k-way merge of disjoint strict listings is a strict listing of their union. */
  lemma {:induction false} MergeIsStrict(bs: seq<seq<string>>)
    requires Disjoint(bs) && forall k :: 0 <= k < |bs| ==> StrictlySorted(bs[k])
    ensures StrictlySorted(SortLines(M.Flatten(bs)))
    ensures forall l :: l in SortLines(M.Flatten(bs)) <==> exists k :: 0 <= k < |bs| && l in bs[k]
  {
    var out := SortLines(M.Flatten(bs));
    SortLinesIsSortedPermutation(M.Flatten(bs));
    forall l ensures multiset(out)[l] <= 1 { FlattenMultiplicity(bs, l); }
    SortedOnceIsStrict(out);
    forall l ensures l in out <==> exists k :: 0 <= k < |bs| && l in bs[k] {
      SameMembers(out, M.Flatten(bs), l);
      FlattenMembers(bs, l);
    }
  }

  // ----- The drain step is the heap merge -----

  /** Where merge is about to drain, it holds one vector from each worker, each of them sorted: what
      the heap merge asks for. */
  lemma {:induction false} BatchesAreReady(c: Config, s: State)
    requires Inv(c, s) && s.merge == Draining
    ensures |BatchLines(s.workers, s.batches)| == c.n
    ensures forall b :: 0 <= b < c.n ==> StrictlySorted(BatchLines(s.workers, s.batches)[b])
    ensures forall b :: 0 <= b < c.n ==> Sorted(BatchLines(s.workers, s.batches)[b])
  {
    BatchesAreWorkers(c, s);
    StrcmpIsTotalOrder();
    hide QueuesOk, WorkWaitersOk, OutWaitersOk;
    forall b | 0 <= b < c.n ensures StrictlySorted(BatchLines(s.workers, s.batches)[b]) {
      var i := s.batches[b];
      assert i in s.batches;
      assert s.workers[i].pc == Exited && WorkerOk(c, s.takers, s.workers[i], i);
      SortUniqIsStrictListing(VecOf(c, s.takers, i));
    }
  }

  /** In every reachable state where merge drains, the heap merge on an array of `n` cursors gives the
      output of that step. */
  method DrainByHeap(batches: seq<seq<string>>, n: nat, ghost c: Config, ghost run: seq<Action>)
    returns (out: seq<string>)
    requires ConfigOk(c) && n == c.n && IsRun(c, Start(c), run) && After(c, Start(c), run).merge == Draining
    requires var s := After(c, Start(c), run); batches == BatchLines(s.workers, s.batches)
    ensures var s := After(c, Start(c), run); Enabled(s, Drain) && out == Step(c, s, Drain).output
  {
    StartIsOk(c);
    RunKeepsInv(c, Start(c), run);
    BatchesAreReady(c, After(c, Start(c), run));
    out := M.MergeLines(batches, n);
  }

  // ----- The finished state -----

  ghost predicate FinishedRun(c: Config, run: seq<Action>) {
    IsRun(c, Start(c), run) && After(c, Start(c), run).main == Finished
  }

  ghost function Output(c: Config, run: seq<Action>): seq<string>
    requires FinishedRun(c, run)
  {
    After(c, Start(c), run).output
  }

  lemma {:induction false} AllTaken(c: Config, s: State)
    requires ConfigOk(c) && Inv(c, s) && s.main == Finished
    ensures |s.takers| == |c.paths| && s.merge == Done
    ensures forall j :: 0 <= j < |s.takers| ==> s.takers[j] < c.n
    ensures forall b :: 0 <= b < c.n ==> s.workers[b].vec == SortUniq(VecOf(c, s.takers, b))
  {
    assert s.workers[0].pc == Exited;
    assert s.work.items == [] && s.todo == [];
    assert |c.paths[|s.takers|..]| == 0;
    forall b | 0 <= b < c.n ensures s.workers[b].vec == SortUniq(VecOf(c, s.takers, b)) {
      assert WorkerOk(c, s.takers, s.workers[b], b);
    }
  }

  /** When the run is over, every path was taken, and the output merges each worker's sorted,
      duplicate-free lines, in some order of the workers. */
  lemma {:induction false} FinishedState(c: Config, run: seq<Action>) returns (takers: seq<nat>, order: seq<nat>)
    requires ConfigOk(c) && FinishedRun(c, run)
    ensures |takers| == |c.paths| && forall j :: 0 <= j < |takers| ==> takers[j] < c.n
    ensures Distinct(order) && forall b :: b in order <==> 0 <= b < c.n
    ensures takers == After(c, Start(c), run).takers
    ensures Output(c, run) == SortLines(M.Flatten(Batches(c, takers, order)))
  {
    StartIsOk(c);
    RunKeepsInv(c, Start(c), run);
    var s := After(c, Start(c), run);
    BatchesAreWorkers(c, s);
    AllTaken(c, s);
    takers, order := s.takers, s.batches;
    hide IsRun, After, Start, Step;
    forall k | 0 <= k < |order|
      ensures BatchLines(s.workers, order)[k] == SortUniq(VecOf(c, takers, order[k]))
    {
      assert order[k] in order;
    }
    assert BatchLines(s.workers, order) == Batches(c, takers, order);
  }

  /** The vectors of the workers in `order`, when the files went to `takers`. */
  ghost function Batches(c: Config, takers: seq<nat>, order: seq<nat>): (bs: seq<seq<string>>)
    requires |takers| <= |c.paths|
    ensures |bs| == |order|
  {
    seq(|order|, k requires 0 <= k < |order| => SortUniq(VecOf(c, takers, order[k])))
  }

  lemma {:induction false} BatchMember(c: Config, takers: seq<nat>, order: seq<nat>, k: nat, l: string)
    requires |takers| <= |c.paths| && k < |order|
    ensures StrictlySorted(Batches(c, takers, order)[k])
    ensures l in Batches(c, takers, order)[k] <==> exists j :: Took(c, takers, order[k], j, l)
  {
    SortUniqIsStrictListing(VecOf(c, takers, order[k]));
    VecOfMeaning(c, takers, order[k], l);
  }

  /** A line comes from one file, which one worker took: so different workers' vectors are disjoint. */
  lemma {:induction false} BatchesAreDisjoint(c: Config, takers: seq<nat>, order: seq<nat>)
    requires |takers| == |c.paths| && Distinct(order)
    requires NoSharedLine(c) || |order| <= 1
    ensures Disjoint(Batches(c, takers, order))
  {
    var bs := Batches(c, takers, order);
    if |order| > 1 {
      forall a, b, l | 0 <= a < b < |bs| && l in bs[a] ensures l !in bs[b] {
        BatchMember(c, takers, order, a, l);
        BatchMember(c, takers, order, b, l);
        TakenOnce(c, takers, order[a], order[b], l);
      }
    }
  }

  lemma {:induction false} TakenOnce(c: Config, takers: seq<nat>, a: nat, b: nat, l: string)
    requires |takers| == |c.paths| && NoSharedLine(c)
    ensures forall j, k :: Took(c, takers, a, j, l) && Took(c, takers, b, k, l) ==> a == b
  {
  }

  lemma FlattenSorted(bs: seq<seq<string>>, l: string)
    ensures l in SortLines(M.Flatten(bs)) <==> exists k :: 0 <= k < |bs| && l in bs[k]
  {
    SortLinesIsSortedPermutation(M.Flatten(bs));
    SameMembers(SortLines(M.Flatten(bs)), M.Flatten(bs), l);
    FlattenMembers(bs, l);
  }

  /** Nothing is lost and nothing is made up, on any run whatever: the lines written are those of the
      files put. */
  lemma {:induction false} OutputHasTheLines(c: Config, run: seq<Action>, l: string)
    requires ConfigOk(c) && FinishedRun(c, run)
    ensures l in Output(c, run) <==> SomeFileHas(c, l)
  {
    var takers, order := FinishedState(c, run);
    var bs := Batches(c, takers, order);
    FlattenSorted(bs, l);
    hide FinishedRun, Output, Batches, IsRun, After;
    if exists k :: 0 <= k < |bs| && l in bs[k] {
      var k :| 0 <= k < |bs| && l in bs[k];
      BatchMember(c, takers, order, k, l);
      var j :| Took(c, takers, order[k], j, l);
    }
    if SomeFileHas(c, l) {
      var j :| 0 <= j < |c.paths| && l in c.lines(c.paths[j]);
      assert takers[j] in order;
      var k :| 0 <= k < |order| && order[k] == takers[j];
      assert Took(c, takers, order[k], j, l);
      BatchMember(c, takers, order, k, l);
    }
  }

  /** The main theorem on one run: whatever the schedule, the spurious wakeups and the number of
      workers, the tags file is the strictly increasing listing of the union of all files' lines. */
  lemma {:induction false} OutputIsListing(c: Config, run: seq<Action>)
    requires ConfigOk(c) && FinishedRun(c, run)
    requires NoSharedLine(c) || c.n == 1
    ensures Listing(c, Output(c, run))
  {
    var takers, order := FinishedState(c, run);
    if c.n == 1 { OneWorkerOrder(order); }
    BatchesAreDisjoint(c, takers, order);
    var bs := Batches(c, takers, order);
    forall k | 0 <= k < |bs| ensures StrictlySorted(bs[k]) { BatchMember(c, takers, order, k, ""); }
    MergeIsStrict(bs);
    forall l ensures l in Output(c, run) <==> SomeFileHas(c, l) { OutputHasTheLines(c, run, l); }
  }

  lemma OneWorkerOrder(order: seq<nat>)
    requires Distinct(order) && forall b :: b in order <==> 0 <= b < 1
    ensures |order| <= 1
  {
    forall b | b in order ensures b in [0] { assert b == 0; }
    Pigeonhole(order, [0]);
  }

  /** Two programs over the same files agree, however many workers and slots each has, in whatever
      order the paths are put, and whatever the two schedulers do. */
  lemma {:induction false} OutputIgnoresSchedule(c: Config, run: seq<Action>, c': Config, run': seq<Action>)
    requires ConfigOk(c) && FinishedRun(c, run) && (NoSharedLine(c) || c.n == 1)
    requires ConfigOk(c') && FinishedRun(c', run') && (NoSharedLine(c') || c'.n == 1)
    requires forall l :: SomeFileHas(c, l) <==> SomeFileHas(c', l)
    ensures Output(c, run) == Output(c', run')
  {
    OutputIsListing(c, run);
    OutputIsListing(c', run');
    StrictListingIsUnique(Output(c, run), Output(c', run'));
  }
}
