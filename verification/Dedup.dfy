/** The bounded per-file table of byte ranges (src/linevec.c:80-101), and the rule it implements:
    the highest pattern per range wins. */
module Deduplication {
  const DEDUP_CAP: nat := 1024

  datatype DedupEntry = DedupEntry(start: nat, end: nat, pattern: nat, idx: nat)

  ghost predicate Found(es: seq<DedupEntry>, start: nat, end: nat, k: nat) {
    && k < |es| && es[k].start == start && es[k].end == end
    && forall j :: 0 <= j < k ==> !(es[j].start == start && es[j].end == end)
  }

  ghost predicate Absent(es: seq<DedupEntry>, start: nat, end: nat) {
    forall j :: 0 <= j < |es| ==> !(es[j].start == start && es[j].end == end)
  }

  ghost function FirstFound(es: seq<DedupEntry>, start: nat, end: nat): (k: nat)
    requires !Absent(es, start, end)
    ensures Found(es, start, end, k)
  {
    if es[0].start == start && es[0].end == end then 0
    else
      assert forall j :: 0 <= j < |es| - 1 ==> es[1..][j] == es[j + 1];
      FirstFound(es[1..], start, end) + 1
  }

  class Dedup {
    const entries: array<DedupEntry>
    var count: nat

    ghost predicate Valid()
      reads this
    {
      entries.Length == DEDUP_CAP && count <= DEDUP_CAP
    }

    ghost function Entries(): seq<DedupEntry>
      reads this, entries
      requires Valid()
    {
      entries[..count]
    }

    constructor ()
      ensures Valid() && fresh(entries) && Entries() == []
    {
      entries := new DedupEntry[DEDUP_CAP](_ => DedupEntry(0, 0, 0, 0));
      count := 0;
    }

    /** A match is dropped exactly when its range is in the table with no lower a pattern.  A
        surviving match of a known range raises the stored pattern and gets that range's slot; one
        of an unknown range gets the slot past the end. */
    method Claim(start: nat, end: nat, pattern: nat, vecLen: nat) returns (survives: bool, slot: nat)
      requires Valid()
      modifies entries
      ensures Valid()
      ensures Absent(old(Entries()), start, end) ==>
        survives && slot == vecLen && Entries() == old(Entries())
      ensures forall k: nat :: Found(old(Entries()), start, end, k) ==>
        var e := old(Entries())[k];
        (survives <==> pattern > e.pattern) && (survives ==> slot == e.idx)
        && Entries() == if survives then old(Entries())[k := e.(pattern := pattern)] else old(Entries())
    {
      for k := 0 to count
        invariant forall j :: 0 <= j < k ==> !(entries[j].start == start && entries[j].end == end)
        invariant Entries() == old(Entries())
      {
        if entries[k].start == start && entries[k].end == end {
          assert Found(old(Entries()), start, end, k);
          if pattern <= entries[k].pattern { return false, 0; }
          slot := entries[k].idx;
          entries[k] := entries[k].(pattern := pattern);
          assert Entries() == old(Entries())[k := old(Entries())[k].(pattern := pattern)];
          return true, slot;
        }
      }
      return true, vecLen;
    }

    method Track(start: nat, end: nat, pattern: nat, idx: nat)
      requires Valid()
      modifies this`count, entries
      ensures Valid()
      ensures Entries() == if |old(Entries())| < 1024
                           then old(Entries()) + [DedupEntry(start, end, pattern, idx)]
                           else old(Entries())
    {
      if count < DEDUP_CAP {
        entries[count] := DedupEntry(start, end, pattern, idx);
        count := count + 1;
      }
    }
  }

  // ----- The rule -----

  /** A match that makes a line: its byte range, its pattern index, the line. */
  datatype Yield = Yield(start: nat, end: nat, pattern: nat, line: string) {
    function Range(): (nat, nat) { (start, end) }
  }

  /** The distinct ranges, in order of first appearance. */
  ghost function Ranges(ys: seq<Yield>): seq<(nat, nat)> {
    if ys == [] then []
    else
      var rs, r := Ranges(ys[..|ys| - 1]), ys[|ys| - 1].Range();
      if r in rs then rs else rs + [r]
  }

  /** The table has room for the first DEDUP_CAP distinct ranges only. */
  ghost function Tracked(ys: seq<Yield>): seq<(nat, nat)> {
    var rs := Ranges(ys);
    if |rs| <= DEDUP_CAP then rs else rs[..DEDUP_CAP]
  }

  /** The matches that get a place in the output: the first of each tracked range, and every one of
      an untracked range. */
  ghost function Kept(ys: seq<Yield>): (ks: seq<nat>)
    ensures forall p :: 0 <= p < |ks| ==> ks[p] < |ys|
  {
    if ys == [] then []
    else
      var init, last := ys[..|ys| - 1], |ys| - 1;
      if ys[last].Range() in Tracked(init) then Kept(init) else Kept(init) + [last]
  }

  /** The match of range `r` with the highest pattern, the earliest of them on ties. */
  ghost function Best(ys: seq<Yield>, r: (nat, nat)): (b: nat)
    requires r in Ranges(ys)
    ensures b < |ys| && ys[b].Range() == r
  {
    var init, last := ys[..|ys| - 1], |ys| - 1;
    if ys[last].Range() == r && (r !in Ranges(init) || ys[last].pattern > init[Best(init, r)].pattern)
    then last
    else Best(init, r)
  }

  ghost function LineFor(ys: seq<Yield>, i: nat): string
    requires i < |ys|
  {
    var r := ys[i].Range();
    if r in Tracked(ys) then ys[Best(ys, r)].line else ys[i].line
  }

  ghost function DedupLines(ys: seq<Yield>): (lines: seq<string>)
    ensures |lines| == |Kept(ys)|
  {
    seq(|Kept(ys)|, p requires 0 <= p < |Kept(ys)| => LineFor(ys, Kept(ys)[p]))
  }

  lemma {:induction false} RangesAreDistinct(ys: seq<Yield>)
    ensures forall i, j :: 0 <= i < j < |Ranges(ys)| ==> Ranges(ys)[i] != Ranges(ys)[j]
    ensures forall r :: r in Ranges(ys) <==> exists i :: 0 <= i < |ys| && ys[i].Range() == r
  {
    if ys != [] {
      var init := ys[..|ys| - 1];
      RangesAreDistinct(init);
      forall r | r in Ranges(ys) ensures exists i :: 0 <= i < |ys| && ys[i].Range() == r {
        if r in Ranges(init) {
          var i :| 0 <= i < |init| && init[i].Range() == r;
          assert ys[i].Range() == r;
        } else {
          assert ys[|ys| - 1].Range() == r;
        }
      }
      forall i | 0 <= i < |ys| ensures ys[i].Range() in Ranges(ys) {
        if i < |init| { assert init[i].Range() in Ranges(init); }
      }
    }
  }

  /** The winner has the highest pattern of its range and is the earliest with it. */
  lemma {:induction false} BestWins(ys: seq<Yield>, r: (nat, nat), j: nat)
    requires r in Ranges(ys) && j < |ys| && ys[j].Range() == r
    ensures ys[j].pattern <= ys[Best(ys, r)].pattern
    ensures j < Best(ys, r) ==> ys[j].pattern < ys[Best(ys, r)].pattern
  {
    var init := ys[..|ys| - 1];
    RangesAreDistinct(init);
    if j < |init| {
      assert init[j].Range() == r;
      BestWins(init, r, j);
    } else if r in Ranges(init) {
      BestWins(init, r, Best(init, r));
    }
  }

  /** The tracked ranges are the first 1024 of those listed. */
  lemma TrackedMeaning(ys: seq<Yield>)
    ensures Tracked(ys) <= Ranges(ys)
    ensures |Tracked(ys)| == if |Ranges(ys)| < 1024 then |Ranges(ys)| else 1024
  {
  }

  lemma {:induction false} TrackedGrows(ys: seq<Yield>, n: nat)
    requires n <= |ys|
    ensures Ranges(ys[..n]) <= Ranges(ys)
    ensures forall r :: r in Tracked(ys[..n]) ==> r in Tracked(ys)
    ensures forall r :: r in Ranges(ys[..n]) && r in Tracked(ys) ==> r in Tracked(ys[..n])
  {
    if n == |ys| {
      assert ys[..n] == ys;
    } else {
      var init := ys[..|ys| - 1];
      TrackedGrows(init, n);
      assert init[..n] == ys[..n];
      RangesAreDistinct(ys);
    }
  }

  lemma {:induction false} KeptIncreases(ys: seq<Yield>)
    ensures forall p, q :: 0 <= p < q < |Kept(ys)| ==> Kept(ys)[p] < Kept(ys)[q]
  {
    if ys != [] { KeptIncreases(ys[..|ys| - 1]); }
  }

  /** A place is kept by match `i` exactly when `i` is the first of a tracked range, or any match of
      an untracked one. */
  lemma {:induction false} WhichAreKept(ys: seq<Yield>, i: nat)
    requires i < |ys|
    ensures i in Kept(ys) <==>
      (ys[i].Range() in Tracked(ys) ==> forall j :: 0 <= j < i ==> ys[j].Range() != ys[i].Range())
    decreases |ys|
  {
    var init, last := ys[..|ys| - 1], |ys| - 1;
    if i < last {
      WhichAreKept(init, i);
      KeptEarlier(ys, i);
      assert forall j :: 0 <= j < i ==> ys[j] == init[j];
    } else {
      RangesAreDistinct(init);
      TrackedGrows(ys, last);
      assert i !in Kept(init);
      if forall j :: 0 <= j < last ==> ys[j].Range() != ys[last].Range() {
        assert ys[last].Range() !in Ranges(init);
      } else {
        var j :| 0 <= j < last && ys[j].Range() == ys[last].Range();
        assert init[j].Range() == ys[last].Range();
      }
    }
  }

  lemma {:induction false} KeptEarlier(ys: seq<Yield>, i: nat)
    requires i < |ys| - 1
    ensures i in Kept(ys) <==> i in Kept(ys[..|ys| - 1])
    ensures ys[i].Range() in Tracked(ys) <==> ys[i].Range() in Tracked(ys[..|ys| - 1])
  {
    TrackedGrows(ys, |ys| - 1);
    RangesAreDistinct(ys[..|ys| - 1]);
    assert ys[..|ys| - 1][i].Range() in Ranges(ys[..|ys| - 1]);
  }

  /** Each tracked range has a line at its first appearance, and it is the winner's. */
  lemma {:induction false} TrackedRangeHasItsLine(ys: seq<Yield>, r: (nat, nat)) returns (p: nat)
    requires r in Tracked(ys)
    ensures p < |Kept(ys)| && ys[Kept(ys)[p]].Range() == r
    ensures forall j :: 0 <= j < Kept(ys)[p] ==> ys[j].Range() != r
    ensures DedupLines(ys)[p] == ys[Best(ys, r)].line
  {
    RangesAreDistinct(ys);
    assert r in Ranges(ys);
    var i :| 0 <= i < |ys| && ys[i].Range() == r;
    while exists j :: 0 <= j < i && ys[j].Range() == r
      invariant 0 <= i < |ys| && ys[i].Range() == r
      decreases i
    {
      var j :| 0 <= j < i && ys[j].Range() == r;
      i := j;
    }
    WhichAreKept(ys, i);
    p :| p < |Kept(ys)| && Kept(ys)[p] == i;
  }

  /** ... and no other line. */
  lemma {:induction false} OneLinePerTrackedRange(ys: seq<Yield>, p: nat, q: nat)
    requires p < |Kept(ys)| && q < |Kept(ys)|
    requires ys[Kept(ys)[p]].Range() == ys[Kept(ys)[q]].Range()
    requires ys[Kept(ys)[p]].Range() in Tracked(ys)
    ensures p == q
  {
    KeptIncreases(ys);
    WhichAreKept(ys, Kept(ys)[p]);
    WhichAreKept(ys, Kept(ys)[q]);
    assert Kept(ys)[p] in Kept(ys) && Kept(ys)[q] in Kept(ys);
  }

  /** Every match of a range that found no room in the table keeps a line of its own. */
  lemma {:induction false} UntrackedMatchKeepsItsLine(ys: seq<Yield>, i: nat) returns (p: nat)
    requires i < |ys| && ys[i].Range() !in Tracked(ys)
    ensures p < |Kept(ys)| && Kept(ys)[p] == i && DedupLines(ys)[p] == ys[i].line
  {
    WhichAreKept(ys, i);
    p :| p < |Kept(ys)| && Kept(ys)[p] == i;
  }

  /** Every match has a line: its own, or that of a match of the same range with a higher pattern, or
      earlier with the same. */
  lemma {:induction false} EveryMatchHasALine(ys: seq<Yield>, k: nat) returns (p: nat, b: nat)
    requires k < |ys|
    ensures p < |DedupLines(ys)| && b < |ys| && DedupLines(ys)[p] == ys[b].line
    ensures ys[b].Range() == ys[k].Range()
    ensures ys[b].pattern > ys[k].pattern || (ys[b].pattern == ys[k].pattern && b <= k)
  {
    var r := ys[k].Range();
    RangesAreDistinct(ys);
    if r in Tracked(ys) {
      p := TrackedRangeHasItsLine(ys, r);
      b := Best(ys, r);
      BestWins(ys, r, k);
    } else {
      p := UntrackedMatchKeepsItsLine(ys, k);
      b := k;
    }
  }

  /** And every line is some match's. */
  lemma EveryLineHasAMatch(ys: seq<Yield>, line: string) returns (b: nat)
    requires line in DedupLines(ys)
    ensures b < |ys| && ys[b].line == line
  {
    var p: nat :| p < |DedupLines(ys)| && DedupLines(ys)[p] == line;
    var i := Kept(ys)[p];
    assert LineFor(ys, i) == line;
    b := if ys[i].Range() in Tracked(ys) then Best(ys, ys[i].Range()) else i;
  }

  // ----- The table while the file is read -----

  /** The table after the matches `ys`, when the file's lines start at `base` in the vector. */
  ghost predicate Describes(es: seq<DedupEntry>, ys: seq<Yield>, base: nat) {
    && |es| == |Tracked(ys)|
    && forall k :: 0 <= k < |es| ==> DescribesEntry(es[k], Tracked(ys)[k], ys, base)
  }

  ghost predicate DescribesEntry(e: DedupEntry, r: (nat, nat), ys: seq<Yield>, base: nat) {
    && (e.start, e.end) == r && r in Ranges(ys)
    && e.pattern == ys[Best(ys, r)].pattern
    && base <= e.idx < base + |Kept(ys)|
    && ys[Kept(ys)[e.idx - base]].Range() == r
  }

  /** One more match of a tracked range moves no range, place or other winner. */
  lemma {:induction false} TrackedStep(ys: seq<Yield>, y: Yield)
    requires y.Range() in Tracked(ys)
    ensures Ranges(ys + [y]) == Ranges(ys) && Kept(ys + [y]) == Kept(ys) && Tracked(ys + [y]) == Tracked(ys)
    ensures forall r :: r in Ranges(ys) ==>
      Best(ys + [y], r) == if r == y.Range() && y.pattern > ys[Best(ys, r)].pattern then |ys| else Best(ys, r)
  {
    assert (ys + [y])[..|ys|] == ys;
  }

  lemma {:induction false} EntryAfterTracked(e: DedupEntry, r: (nat, nat), ys: seq<Yield>, y: Yield, base: nat)
    requires DescribesEntry(e, r, ys, base) && y.Range() in Tracked(ys)
    ensures var raised := r == y.Range() && y.pattern > e.pattern;
      DescribesEntry(if raised then e.(pattern := y.pattern) else e, r, ys + [y], base)
  {
    hide Kept, Best, Ranges, Tracked;
    TrackedStep(ys, y);
  }

  lemma {:induction false} LineAfterTracked(ys: seq<Yield>, y: Yield, i: nat)
    requires y.Range() in Tracked(ys) && i < |ys|
    ensures LineFor(ys + [y], i) ==
      if ys[i].Range() == y.Range() && y.pattern > ys[Best(ys, y.Range())].pattern then y.line else LineFor(ys, i)
  {
    hide Kept, Best, Ranges;
    TrackedStep(ys, y);
  }

  lemma {:induction false} DropStep(es: seq<DedupEntry>, ys: seq<Yield>, y: Yield, base: nat)
    requires Describes(es, ys, base) && y.Range() in Tracked(ys)
    requires y.pattern <= ys[Best(ys, y.Range())].pattern
    ensures Describes(es, ys + [y], base) && DedupLines(ys + [y]) == DedupLines(ys)
  {
    hide LineFor, Kept, Best, Ranges, Tracked;
    TrackedStep(ys, y);
    forall k | 0 <= k < |es| ensures DescribesEntry(es[k], Tracked(ys)[k], ys + [y], base) {
      EntryAfterTracked(es[k], Tracked(ys)[k], ys, y, base);
    }
    forall p | 0 <= p < |Kept(ys)| ensures LineFor(ys + [y], Kept(ys)[p]) == LineFor(ys, Kept(ys)[p]) {
      LineAfterTracked(ys, y, Kept(ys)[p]);
    }
  }

  lemma {:induction false} RaiseKeepsTable(es: seq<DedupEntry>, ys: seq<Yield>, y: Yield, base: nat, k: nat)
    requires Describes(es, ys, base) && k < |es| && Tracked(ys)[k] == y.Range()
    requires y.pattern > ys[Best(ys, y.Range())].pattern
    ensures Describes(es[k := es[k].(pattern := y.pattern)], ys + [y], base)
  {
    hide Kept, Best, Ranges;
    TrackedStep(ys, y);
    RangesAreDistinct(ys);
    forall j | 0 <= j < |es| ensures
      DescribesEntry(es[k := es[k].(pattern := y.pattern)][j], Tracked(ys)[j], ys + [y], base)
    {
      assert DescribesEntry(es[j], Tracked(ys)[j], ys, base);
      EntryAfterTracked(es[j], Tracked(ys)[j], ys, y, base);
    }
  }

  lemma {:induction false} RaiseReplacesLine(ys: seq<Yield>, y: Yield, slot: nat)
    requires y.Range() in Tracked(ys) && y.pattern > ys[Best(ys, y.Range())].pattern
    requires slot < |Kept(ys)| && ys[Kept(ys)[slot]].Range() == y.Range()
    ensures DedupLines(ys + [y]) == DedupLines(ys)[slot := y.line]
  {
    hide LineFor, Kept, Best, Ranges, Tracked;
    TrackedStep(ys, y);
    forall p | 0 <= p < |Kept(ys)|
      ensures LineFor(ys + [y], Kept(ys)[p]) == if p == slot then y.line else LineFor(ys, Kept(ys)[p])
    {
      LineAfterTracked(ys, y, Kept(ys)[p]);
      if ys[Kept(ys)[p]].Range() == y.Range() { OneLinePerTrackedRange(ys, p, slot); }
    }
    assert |DedupLines(ys + [y])| == |DedupLines(ys)|;
  }

  /** One more match of an untracked range adds a place, and the range if it is new and fits. */
  lemma {:induction false} UntrackedStep(ys: seq<Yield>, y: Yield)
    requires y.Range() !in Tracked(ys)
    ensures Kept(ys + [y]) == Kept(ys) + [|ys|]
    ensures Tracked(ys + [y]) == if |Tracked(ys)| < DEDUP_CAP then Tracked(ys) + [y.Range()] else Tracked(ys)
    ensures Ranges(ys) <= Ranges(ys + [y]) && y.Range() in Ranges(ys + [y])
    ensures |Tracked(ys)| < DEDUP_CAP ==> y.Range() !in Ranges(ys) && Best(ys + [y], y.Range()) == |ys|
    ensures forall r :: r in Ranges(ys) && r != y.Range() ==> Best(ys + [y], r) == Best(ys, r)
  {
    assert (ys + [y])[..|ys|] == ys;
  }

  lemma {:induction false} EntryAfterUntracked(e: DedupEntry, r: (nat, nat), ys: seq<Yield>, y: Yield, base: nat)
    requires DescribesEntry(e, r, ys, base) && y.Range() !in Tracked(ys) && r in Tracked(ys)
    ensures DescribesEntry(e, r, ys + [y], base)
  {
    hide Kept, Best, Ranges;
    UntrackedStep(ys, y);
  }

  lemma {:induction false} LineAfterUntracked(ys: seq<Yield>, y: Yield, i: nat)
    requires y.Range() !in Tracked(ys) && i < |ys|
    ensures LineFor(ys + [y], i) == LineFor(ys, i)
  {
    hide Kept, Best, Ranges;
    UntrackedStep(ys, y);
    RangesAreDistinct(ys);
    assert ys[i].Range() in Ranges(ys);
  }

  lemma {:induction false} NewEntry(ys: seq<Yield>, y: Yield, base: nat)
    requires y.Range() !in Tracked(ys) && |Tracked(ys)| < DEDUP_CAP
    ensures DescribesEntry(DedupEntry(y.start, y.end, y.pattern, base + |Kept(ys)|), y.Range(), ys + [y], base)
  {
    UntrackedStep(ys, y);
  }

  lemma {:induction false} PushKeepsEntries(es: seq<DedupEntry>, ys: seq<Yield>, y: Yield, base: nat)
    requires Describes(es, ys, base) && y.Range() !in Tracked(ys)
    ensures forall k :: 0 <= k < |es| ==> DescribesEntry(es[k], Tracked(ys)[k], ys + [y], base)
  {
    forall k | 0 <= k < |es| ensures DescribesEntry(es[k], Tracked(ys)[k], ys + [y], base) {
      EntryAfterUntracked(es[k], Tracked(ys)[k], ys, y, base);
    }
  }

  lemma {:induction false} TrackedAfterPush(ys: seq<Yield>, y: Yield)
    requires y.Range() !in Tracked(ys)
    ensures Tracked(ys + [y]) == if |Tracked(ys)| < DEDUP_CAP then Tracked(ys) + [y.Range()] else Tracked(ys)
  {
    UntrackedStep(ys, y);
  }

  lemma {:induction false} PushKeepsTable(es: seq<DedupEntry>, ys: seq<Yield>, y: Yield, base: nat)
    requires Describes(es, ys, base) && y.Range() !in Tracked(ys)
    ensures |es| < DEDUP_CAP ==>
      Describes(es + [DedupEntry(y.start, y.end, y.pattern, base + |Kept(ys)|)], ys + [y], base)
    ensures |es| >= DEDUP_CAP ==> Describes(es, ys + [y], base)
  {
    hide DescribesEntry, Kept, Best, Ranges, Tracked;
    TrackedAfterPush(ys, y);
    PushKeepsEntries(es, ys, y, base);
    if |es| < DEDUP_CAP { NewEntry(ys, y, base); }
  }

  lemma {:induction false} PushAddsLine(ys: seq<Yield>, y: Yield)
    requires y.Range() !in Tracked(ys)
    ensures DedupLines(ys + [y]) == DedupLines(ys) + [y.line]
  {
    hide Kept, Best, Ranges, Tracked;
    UntrackedStep(ys, y);
    forall p | 0 <= p < |Kept(ys)| ensures LineFor(ys + [y], Kept(ys)[p]) == LineFor(ys, Kept(ys)[p]) {
      LineAfterUntracked(ys, y, Kept(ys)[p]);
    }
    assert LineFor(ys + [y], |ys|) == y.line;
  }

  /** The match loop's state: the table describes the file's matches so far, and the vector holds
      earlier files' lines followed by this file's. */
  ghost predicate InStep(es: seq<DedupEntry>, items: seq<string>, before: seq<string>, ys: seq<Yield>) {
    Describes(es, ys, |before|) && items == before + DedupLines(ys)
  }

  lemma {:induction false} StartsInStep(before: seq<string>)
    ensures InStep([], before, before, [])
  {
    assert before + DedupLines([]) == before;
  }

  lemma {:induction false} ItemsInStep(es: seq<DedupEntry>, items: seq<string>, before: seq<string>, ys: seq<Yield>)
    requires InStep(es, items, before, ys)
    ensures items == before + DedupLines(ys)
  {
  }

  lemma {:induction false} ClaimUnknown(es: seq<DedupEntry>, items: seq<string>, before: seq<string>,
                                        ys: seq<Yield>, y: Yield)
    requires InStep(es, items, before, ys) && Absent(es, y.start, y.end)
    ensures var e := DedupEntry(y.start, y.end, y.pattern, |items|);
      InStep(if |es| < DEDUP_CAP then es + [e] else es, items + [y.line], before, ys + [y])
  {
    hide Describes, DedupLines, Tracked, Kept, Best, Ranges;
    AbsentIsUntracked(es, ys, |before|, y.Range());
    PushKeepsTable(es, ys, y, |before|);
    PushAddsLine(ys, y);
  }

  lemma {:induction false} AbsentIsUntracked(es: seq<DedupEntry>, ys: seq<Yield>, base: nat, r: (nat, nat))
    requires Describes(es, ys, base) && Absent(es, r.0, r.1)
    ensures r !in Tracked(ys)
  {
    forall k | 0 <= k < |es| ensures Tracked(ys)[k] != r {
      assert DescribesEntry(es[k], Tracked(ys)[k], ys, base);
    }
  }

  lemma {:induction false} FoundIsTracked(es: seq<DedupEntry>, ys: seq<Yield>, base: nat, r: (nat, nat), k: nat)
    requires Describes(es, ys, base) && Found(es, r.0, r.1, k)
    ensures Tracked(ys)[k] == r && r in Tracked(ys) && r in Ranges(ys)
    ensures es[k].pattern == ys[Best(ys, r)].pattern
    ensures base <= es[k].idx < base + |Kept(ys)| && ys[Kept(ys)[es[k].idx - base]].Range() == r
  {
    assert DescribesEntry(es[k], Tracked(ys)[k], ys, base);
  }

  lemma {:induction false} ClaimKnownDrop(es: seq<DedupEntry>, items: seq<string>, before: seq<string>,
                                          ys: seq<Yield>, y: Yield, k: nat)
    requires InStep(es, items, before, ys) && Found(es, y.start, y.end, k) && y.pattern <= es[k].pattern
    ensures y.Range() in Ranges(ys)
    ensures InStep(es, items, before, ys + [y])
  {
    hide Describes, DedupLines, Tracked, Kept, Best, Ranges;
    FoundIsTracked(es, ys, |before|, y.Range(), k);
    DropStep(es, ys, y, |before|);
  }

  lemma {:induction false} ClaimKnownRaise(es: seq<DedupEntry>, items: seq<string>, before: seq<string>,
                                           ys: seq<Yield>, y: Yield, k: nat)
    requires InStep(es, items, before, ys) && Found(es, y.start, y.end, k) && y.pattern > es[k].pattern
    ensures y.Range() in Ranges(ys) && es[k].idx < |items|
    ensures InStep(es[k := es[k].(pattern := y.pattern)], items[es[k].idx := y.line], before, ys + [y])
  {
    hide Describes, DedupLines, Tracked, Kept, Best, Ranges;
    FoundIsTracked(es, ys, |before|, y.Range(), k);
    RaiseKeepsTable(es, ys, y, |before|, k);
    RaiseReplacesLine(ys, y, es[k].idx - |before|);
  }
}
