/** The merge thread (src/merge.c): collect every batch, seed the heap, drain it in order. */
module Merging {
  import opened CStrings
  import opened SortedLines
  import opened CursorHeap
  import opened Sequences
  import opened IoQueues

  function Flatten(batches: seq<seq<string>>): seq<string> {
    if batches == [] then [] else batches[0] + Flatten(batches[1..])
  }

  /** The first `pos[b]` lines of every batch `b`, as a bag. */
  ghost function Taken(batches: seq<seq<string>>, pos: seq<nat>): multiset<string>
    requires Positions(batches, pos)
  {
    if batches == [] then multiset{} else multiset(batches[0][..pos[0]]) + Taken(batches[1..], pos[1..])
  }

  ghost predicate Positions(batches: seq<seq<string>>, pos: seq<nat>) {
    |pos| == |batches| && forall b :: 0 <= b < |pos| ==> pos[b] <= |batches[b]|
  }

  lemma {:induction false} TakenAdvances(batches: seq<seq<string>>, pos: seq<nat>, b: nat)
    requires Positions(batches, pos) && b < |pos| && pos[b] < |batches[b]|
    ensures Positions(batches, pos[b := pos[b] + 1])
    ensures Taken(batches, pos[b := pos[b] + 1]) == Taken(batches, pos) + multiset{batches[b][pos[b]]}
  {
    var pos' := pos[b := pos[b] + 1];
    if b == 0 {
      assert batches[0][..pos[0] + 1] == batches[0][..pos[0]] + [batches[0][pos[0]]];
      assert pos'[1..] == pos[1..];
    } else {
      TakenAdvances(batches[1..], pos[1..], b - 1);
      assert pos'[1..] == pos[1..][b - 1 := pos[b] + 1];
    }
  }

  lemma {:induction false} TakenCount(batches: seq<seq<string>>, pos: seq<nat>)
    requires Positions(batches, pos)
    ensures |Taken(batches, pos)| <= |Flatten(batches)|
  {
    if batches != [] {
      TakenCount(batches[1..], pos[1..]);
    }
  }

  /** Never more lines written than there are. */
  lemma TakenIsBounded(batches: seq<seq<string>>, pos: seq<nat>, out: seq<string>)
    requires Positions(batches, pos) && multiset(out) == Taken(batches, pos)
    ensures |out| <= |Flatten(batches)|
  {
    TakenCount(batches, pos);
    assert |out| == |multiset(out)|;
  }

  lemma {:induction false} TakenAtStart(batches: seq<seq<string>>, pos: seq<nat>)
    requires Positions(batches, pos) && forall b :: 0 <= b < |pos| ==> pos[b] == 0
    ensures Taken(batches, pos) == multiset{}
  {
    if batches != [] {
      TakenAtStart(batches[1..], pos[1..]);
    }
  }

  lemma {:induction false} TakenAtEnd(batches: seq<seq<string>>, pos: seq<nat>)
    requires Positions(batches, pos) && forall b :: 0 <= b < |pos| ==> pos[b] == |batches[b]|
    ensures Taken(batches, pos) == multiset(Flatten(batches))
  {
    if batches != [] {
      TakenAtEnd(batches[1..], pos[1..]);
      assert batches[0][..pos[0]] == batches[0];
    }
  }

  /** The heap holds exactly one cursor for each batch among the first `bound` with lines left,
      and that cursor is the batch's next line. */
  ghost predicate HoldsNextLines(batches: seq<seq<string>>, pos: seq<nat>, h: seq<HeapEntry>, bound: nat)
    requires Positions(batches, pos)
  {
    forall e: HeapEntry :: multiset(h)[e] ==
      if e.batch < |batches| && e.batch < bound && e.idx == pos[e.batch] < |batches[e.batch]| then 1 else 0
  }

  /** What was written is in order and nothing still to come is below it. */
  ghost predicate WrittenInOrder(batches: seq<seq<string>>, pos: seq<nat>, out: seq<string>)
    requires Positions(batches, pos)
  {
    && Sorted(out)
    && forall x, b :: x in out && 0 <= b < |pos| && pos[b] < |batches[b]| ==> Leq(x, batches[b][pos[b]])
  }

  /** Writing the minimal cursor's line keeps the output in order, whatever that batch holds next. */
  lemma WriteStep(batches: seq<seq<string>>, pos: seq<nat>, h: seq<HeapEntry>, e: HeapEntry, out: seq<string>)
    requires Positions(batches, pos) && HoldsNextLines(batches, pos, h, |batches|) && AllInRange(batches, h)
    requires forall b :: 0 <= b < |batches| ==> Sorted(batches[b])
    requires WrittenInOrder(batches, pos, out) && e in h && IsMinimum(batches, e, h)
    ensures e.batch < |batches| && e.idx == pos[e.batch] < |batches[e.batch]|
    ensures Positions(batches, pos[e.batch := e.idx + 1])
    ensures WrittenInOrder(batches, pos[e.batch := e.idx + 1], out + [LineAt(batches, e)])
  {
    StrcmpIsTotalOrder();
    assert multiset(h)[e] > 0;
    var pos', x := pos[e.batch := e.idx + 1], LineAt(batches, e);
    forall b | 0 <= b < |pos| && pos'[b] < |batches[b]| ensures Leq(x, batches[b][pos'[b]]) {
      if b == e.batch {
        assert Leq(batches[b][e.idx], batches[b][e.idx + 1]);
      } else {
        var other := HeapEntry(b, pos[b]);
        assert multiset(h)[other] == 1;
        assert AtMost(batches, e, other);
      }
    }
    forall y | y in out ensures Leq(y, x) { assert pos[e.batch] < |batches[e.batch]|; }
    forall y, b | y in out + [x] && 0 <= b < |pos'| && pos'[b] < |batches[b]|
      ensures Leq(y, batches[b][pos'[b]])
    {
      if y in out { assert Leq(y, x); }
      assert Leq(x, batches[b][pos'[b]]);
    }
  }

  /** The cursor of `e` gives way to the next cursor of its batch, if there is one. */
  lemma CursorStep(batches: seq<seq<string>>, pos: seq<nat>, h: seq<HeapEntry>, e: HeapEntry, g: seq<HeapEntry>)
    requires Positions(batches, pos) && HoldsNextLines(batches, pos, h, |batches|)
    requires e.batch < |batches| && e.idx == pos[e.batch] < |batches[e.batch]|
    requires multiset(h) == if e.idx + 1 < |batches[e.batch]|
                            then multiset(g) - multiset{HeapEntry(e.batch, e.idx + 1)} + multiset{e}
                            else multiset(g) + multiset{e}
    requires e.idx + 1 < |batches[e.batch]| ==> HeapEntry(e.batch, e.idx + 1) in multiset(g)
    ensures Positions(batches, pos[e.batch := e.idx + 1])
    ensures HoldsNextLines(batches, pos[e.batch := e.idx + 1], g, |batches|)
  {
    var pos', next := pos[e.batch := e.idx + 1], HeapEntry(e.batch, e.idx + 1);
    forall c: HeapEntry
      ensures multiset(g)[c] ==
        if c.batch < |batches| && c.idx == pos'[c.batch] < |batches[c.batch]| then 1 else 0
    {
      assert multiset(h)[c] ==
        if c.batch < |batches| && c.idx == pos[c.batch] < |batches[c.batch]| then 1 else 0;
    }
  }

  lemma SeedStep(batches: seq<seq<string>>, pos: seq<nat>, h: seq<HeapEntry>, g: seq<HeapEntry>, i: nat)
    requires Positions(batches, pos) && HoldsNextLines(batches, pos, h, i) && i < |batches| && pos[i] == 0
    requires multiset(g) == if |batches[i]| > 0 then multiset(h) + multiset{HeapEntry(i, 0)} else multiset(h)
    ensures HoldsNextLines(batches, pos, g, i + 1)
  {
    forall c: HeapEntry
      ensures multiset(g)[c] ==
        if c.batch < |batches| && c.batch < i + 1 && c.idx == pos[c.batch] < |batches[c.batch]| then 1 else 0
    {
      assert multiset(h)[c] ==
        if c.batch < |batches| && c.batch < i && c.idx == pos[c.batch] < |batches[c.batch]| then 1 else 0;
    }
  }

  /** populate (src/merge.c:19-27) */
  method Populate(heap: array<HeapEntry>, batches: seq<seq<string>>, ghost pos: seq<nat>) returns (size: nat)
    requires |batches| <= heap.Length
    requires Positions(batches, pos) && forall b :: 0 <= b < |pos| ==> pos[b] == 0
    modifies heap
    ensures size <= |batches|
    ensures AllInRange(batches, heap[..size]) && HeapOrdered(batches, heap[..size])
    ensures HoldsNextLines(batches, pos, heap[..size], |batches|)
  {
    size := 0;
    for i := 0 to |batches|
      invariant size <= i
      invariant AllInRange(batches, heap[..size]) && HeapOrdered(batches, heap[..size])
      invariant HoldsNextLines(batches, pos, heap[..size], i)
    {
      ghost var h := heap[..size];
      if |batches[i]| > 0 {
        size := HeapPush(heap, size, HeapEntry(i, 0), batches);
      }
      SeedStep(batches, pos, h, heap[..size], i);
    }
  }

  /** One turn of the drain loop after a successful pop: advance the batch and push it back. */
  method Advance(heap: array<HeapEntry>, size: nat, entry: HeapEntry, batches: seq<seq<string>>,
                 ghost pos: seq<nat>, ghost h: seq<HeapEntry>)
    returns (newSize: nat)
    requires size < heap.Length && AllInRange(batches, heap[..size]) && HeapOrdered(batches, heap[..size])
    requires Positions(batches, pos) && HoldsNextLines(batches, pos, h, |batches|)
    requires multiset(h) == multiset(heap[..size]) + multiset{entry}
    requires entry.batch < |batches| && entry.idx == pos[entry.batch] < |batches[entry.batch]|
    modifies heap
    ensures newSize <= size + 1
    ensures AllInRange(batches, heap[..newSize]) && HeapOrdered(batches, heap[..newSize])
    ensures Positions(batches, pos[entry.batch := entry.idx + 1])
    ensures HoldsNextLines(batches, pos[entry.batch := entry.idx + 1], heap[..newSize], |batches|)
  {
    newSize := size;
    if entry.idx + 1 < |batches[entry.batch]| {
      newSize := HeapPush(heap, size, HeapEntry(entry.batch, entry.idx + 1), batches);
    }
    CursorStep(batches, pos, h, entry, heap[..newSize]);
  }

  lemma NothingLeft(batches: seq<seq<string>>, pos: seq<nat>, out: seq<string>)
    requires Positions(batches, pos) && HoldsNextLines(batches, pos, [], |batches|)
    requires WrittenInOrder(batches, pos, out)
    ensures Taken(batches, pos) == multiset(Flatten(batches)) && Sorted(out)
  {
    forall b | 0 <= b < |pos| ensures pos[b] == |batches[b]| {
      var e := HeapEntry(b, pos[b]);
      assert multiset([])[e] == 0;
    }
    TakenAtEnd(batches, pos);
  }

  /** The sorted bag of all lines, and as many writes as lines. */
  lemma DrainedOutput(batches: seq<seq<string>>, out: seq<string>)
    requires Sorted(out) && multiset(out) == multiset(Flatten(batches))
    ensures out == SortLines(Flatten(batches)) && |out| == |Flatten(batches)|
  {
    SortLinesIsSortedPermutation(Flatten(batches));
    SortedPermutationIsUnique(out, SortLines(Flatten(batches)));
    assert |out| == |multiset(out)|;
  }

  /** Populate and drain.  The output is the sorted permutation of all the lines of all the batches,
      one pop a line, for any number of batches, empty ones and equal heads included. */
  method MergeLines(batches: seq<seq<string>>, n: nat) returns (out: seq<string>)
    requires |batches| <= n
    requires forall b :: 0 <= b < |batches| ==> Sorted(batches[b])
    ensures out == SortLines(Flatten(batches))
    ensures |out| == |Flatten(batches)|
  {
    var heap := new HeapEntry[n](_ => HeapEntry(0, 0));
    ghost var pos: seq<nat> := seq(|batches|, _ => 0);
    TakenAtStart(batches, pos);
    assert WrittenInOrder(batches, pos, []);
    ghost var total := |Flatten(batches)|;
    hide Taken, Flatten, HoldsNextLines, WrittenInOrder, SortLines, HeapOrdered, IsMinimum, Sorted;
    var size: nat := Populate(heap, batches, pos);

    // drain
    out := [];
    while true
      invariant 0 <= size <= n == heap.Length
      invariant Positions(batches, pos) && multiset(out) == Taken(batches, pos)
      invariant WrittenInOrder(batches, pos, out)
      invariant AllInRange(batches, heap[..size]) && HeapOrdered(batches, heap[..size])
      invariant HoldsNextLines(batches, pos, heap[..size], |batches|)
      invariant |out| <= total
      decreases total - |out|
    {
      ghost var h := heap[..size];
      var found, entry, rest := HeapPop(heap, size, batches);
      if !found { break; }
      WriteMinimum(batches, pos, h, heap[..rest], entry, out);
      out := out + [batches[entry.batch][entry.idx]];
      size := Advance(heap, rest, entry, batches, pos, h);
      pos := pos[entry.batch := entry.idx + 1];
      TakenIsBounded(batches, pos, out);
    }
    assert heap[..size] == [];
    NothingLeft(batches, pos, out);
    DrainedOutput(batches, out);
  }

  /** Everything one write keeps. */
  lemma WriteMinimum(batches: seq<seq<string>>, pos: seq<nat>, h: seq<HeapEntry>, g: seq<HeapEntry>,
                     e: HeapEntry, out: seq<string>)
    requires Positions(batches, pos) && HoldsNextLines(batches, pos, h, |batches|) && AllInRange(batches, h)
    requires forall b :: 0 <= b < |batches| ==> Sorted(batches[b])
    requires WrittenInOrder(batches, pos, out) && multiset(out) == Taken(batches, pos)
    requires multiset(h) == multiset(g) + multiset{e} && InRange(batches, e) && IsMinimum(batches, e, h)
    ensures e.idx == pos[e.batch]
    ensures var pos', out' := pos[e.batch := e.idx + 1], out + [LineAt(batches, e)];
      && Positions(batches, pos')
      && WrittenInOrder(batches, pos', out') && multiset(out') == Taken(batches, pos')
  {
    hide Taken, WrittenInOrder, HoldsNextLines, IsMinimum, Sorted;
    MinimumIsHeld(h, g, e);
    WriteStep(batches, pos, h, e, out);
    TakenAdvances(batches, pos, e.batch);
  }

  lemma MinimumIsHeld(h: seq<HeapEntry>, g: seq<HeapEntry>, e: HeapEntry)
    requires multiset(h) == multiset(g) + multiset{e}
    ensures e in h
  {
    assert e in multiset(h);
  }

  /** The collect loop (src/merge.c:11-17), from the moment the queue is closed: by then everything was
      published, and a published vector is not touched again, so it stands for its contents.
      `batches` has room for `n` vectors and is never overrun. */
  method Collect(outq: IoQueue<seq<string>>, n: nat) returns (batches: seq<seq<string>>)
    requires outq.Valid() && outq.closed && |outq.Contents()| <= n
    modifies outq`head, outq`count
    ensures outq.Valid() && outq.Contents() == [] && batches == old(outq.Contents())
  {
    ghost var queued := outq.Contents();
    batches := [];
    while true
      invariant outq.Valid() && outq.closed && batches + outq.Contents() == queued
      decreases outq.count
    {
      ghost var waiting := outq.Contents();
      var r := outq.TryGet();
      if !r.Got? { break; }
      assert |batches| < n;
      MoveHead(batches, waiting);
      batches := batches + [r.item];
    }
  }

  /** The whole thread body. */
  method Merge(outq: IoQueue<seq<string>>, n: nat) returns (out: seq<string>)
    requires outq.Valid() && outq.closed && |outq.Contents()| <= n
    requires forall b :: b in outq.Contents() ==> Sorted(b)
    modifies outq`head, outq`count
    ensures outq.Valid() && outq.Contents() == []
    ensures out == SortLines(Flatten(old(outq.Contents())))
  {
    var batches := Collect(outq, n);
    out := MergeLines(batches, n);
  }
}
