/** The binary min-heap of cursors into sorted batches (src/heap.c).

    The order of two cursors is the `strcmp` order of the lines they point at, which live outside
    the heap, in `batches`. */
module CursorHeap {
  import opened CStrings

  datatype HeapEntry = HeapEntry(batch: nat, idx: nat)

  predicate InRange(batches: seq<seq<string>>, e: HeapEntry) {
    e.batch < |batches| && e.idx < |batches[e.batch]|
  }

  function LineAt(batches: seq<seq<string>>, e: HeapEntry): string
    requires InRange(batches, e)
  {
    batches[e.batch][e.idx]
  }

  predicate HeapLess(batches: seq<seq<string>>, a: HeapEntry, b: HeapEntry)
    requires InRange(batches, a) && InRange(batches, b)
  {
    Less(LineAt(batches, a), LineAt(batches, b))
  }

  ghost predicate AtMost(batches: seq<seq<string>>, a: HeapEntry, b: HeapEntry)
    requires InRange(batches, a) && InRange(batches, b)
  {
    Leq(LineAt(batches, a), LineAt(batches, b))
  }

  ghost predicate AllInRange(batches: seq<seq<string>>, h: seq<HeapEntry>) {
    forall e :: e in h ==> InRange(batches, e)
  }

  function Parent(j: nat): (p: nat)
    requires j > 0
    ensures p < j
  {
    (j - 1) / 2
  }

  /** The edge from node `j` to its parent is in heap order. */
  ghost predicate EdgeOrdered(batches: seq<seq<string>>, h: seq<HeapEntry>, j: nat)
    requires AllInRange(batches, h)
  {
    0 < j < |h| ==> AtMost(batches, h[Parent(j)], h[j])
  }

  /** Node `j` is not below its grandparent: the extra fact that survives a broken edge at its parent. */
  ghost predicate GrandparentOrdered(batches: seq<seq<string>>, h: seq<HeapEntry>, j: nat)
    requires AllInRange(batches, h)
  {
    0 < j < |h| && Parent(j) > 0 ==> AtMost(batches, h[Parent(Parent(j))], h[j])
  }

  ghost predicate HeapOrdered(batches: seq<seq<string>>, h: seq<HeapEntry>)
    requires AllInRange(batches, h)
  {
    forall j: nat :: EdgeOrdered(batches, h, j)
  }

  lemma {:induction false} RootIsMinimal(batches: seq<seq<string>>, h: seq<HeapEntry>, k: nat)
    requires AllInRange(batches, h) && HeapOrdered(batches, h) && k < |h|
    ensures AtMost(batches, h[0], h[k])
  {
    StrcmpIsTotalOrder();
    if k > 0 {
      RootIsMinimal(batches, h, Parent(k));
      assert EdgeOrdered(batches, h, k);
    }
  }

  ghost predicate IsMinimum(batches: seq<seq<string>>, m: HeapEntry, h: seq<HeapEntry>)
    requires AllInRange(batches, h) && InRange(batches, m)
  {
    forall e :: e in h ==> AtMost(batches, m, e)
  }

  lemma RootIsMinimum(batches: seq<seq<string>>, h: seq<HeapEntry>)
    requires AllInRange(batches, h) && HeapOrdered(batches, h) && h != []
    ensures h[0] in h && IsMinimum(batches, h[0], h)
  {
    forall e | e in h ensures AtMost(batches, h[0], e) {
      var k: nat :| k < |h| && h[k] == e;
      RootIsMinimal(batches, h, k);
    }
  }

  lemma SwapKeepsMultiset<T>(s: seq<T>, i: nat, j: nat)
    requires i < |s| && j < |s|
    ensures multiset(s[i := s[j]][j := s[i]]) == multiset(s)
  {
  }

  method Swap(heap: array<HeapEntry>, ghost size: nat, i: nat, j: nat)
    requires i < size <= heap.Length && j < size
    modifies heap
    ensures heap[..size] == old(heap[..size])[i := old(heap[j])][j := old(heap[i])]
    ensures multiset(heap[..size]) == old(multiset(heap[..size]))
    ensures heap[size..] == old(heap[size..])
  {
    SwapKeepsMultiset(heap[..size], i, j);
    heap[i], heap[j] := heap[j], heap[i];
  }

  /** Restores heap order when only the edge above `idx` may be broken. */
  method HeapifyUp(heap: array<HeapEntry>, idx: nat, ghost size: nat, batches: seq<seq<string>>)
    requires idx < size <= heap.Length && AllInRange(batches, heap[..size])
    requires forall j: nat :: j != idx ==> EdgeOrdered(batches, heap[..size], j)
    requires forall j: nat :: 0 < j && Parent(j) == idx ==> GrandparentOrdered(batches, heap[..size], j)
    modifies heap
    ensures multiset(heap[..size]) == old(multiset(heap[..size]))
    ensures heap[size..] == old(heap[size..])
    ensures AllInRange(batches, heap[..size]) && HeapOrdered(batches, heap[..size])
  {
    if idx == 0 { return; }
    var p := Parent(idx);
    assert heap[idx] in heap[..size] && heap[p] in heap[..size];
    if HeapLess(batches, heap[idx], heap[p]) {
      ghost var h := heap[..size];
      Swap(heap, size, p, idx);
      SiftUpStep(batches, h, idx);
      HeapifyUp(heap, p, size, batches);
    } else {
      NoSwapNeeded(batches, heap[idx], heap[p]);
    }
  }

  lemma NoSwapNeeded(batches: seq<seq<string>>, a: HeapEntry, b: HeapEntry)
    requires InRange(batches, a) && InRange(batches, b) && !HeapLess(batches, a, b)
    ensures AtMost(batches, b, a)
  {
    StrcmpIsTotalOrder();
  }

  /** One swap with the parent moves the only possibly broken edge one level up. */
  lemma SiftUpStep(batches: seq<seq<string>>, h: seq<HeapEntry>, idx: nat)
    requires 0 < idx < |h| && AllInRange(batches, h)
    requires forall j: nat :: j != idx ==> EdgeOrdered(batches, h, j)
    requires forall j: nat :: 0 < j && Parent(j) == idx ==> GrandparentOrdered(batches, h, j)
    requires HeapLess(batches, h[idx], h[Parent(idx)])
    ensures var g := h[Parent(idx) := h[idx]][idx := h[Parent(idx)]];
      AllInRange(batches, g)
      && (forall j: nat :: j != Parent(idx) ==> EdgeOrdered(batches, g, j))
      && (forall j: nat :: 0 < j && Parent(j) == Parent(idx) ==> GrandparentOrdered(batches, g, j))
  {
    StrcmpIsTotalOrder();
    var p := Parent(idx);
    var g := h[p := h[idx]][idx := h[p]];
    forall j: nat | j != p ensures EdgeOrdered(batches, g, j) {
      if j != idx { assert EdgeOrdered(batches, h, j); }
      if 0 < j && Parent(j) == idx { assert GrandparentOrdered(batches, h, j); }
    }
    forall j: nat | 0 < j && Parent(j) == p ensures GrandparentOrdered(batches, g, j) {
      if j != idx { assert EdgeOrdered(batches, h, j); }
      assert EdgeOrdered(batches, h, p);
    }
  }

  /** Restores heap order when only the edges below `idx` may be broken. */
  method HeapifyDown(heap: array<HeapEntry>, idx: nat, size: nat, batches: seq<seq<string>>)
    requires (idx < size || size == 0) && size <= heap.Length && AllInRange(batches, heap[..size])
    requires forall j: nat :: 0 < j && Parent(j) != idx ==> EdgeOrdered(batches, heap[..size], j)
    requires forall j: nat :: 0 < j && Parent(j) == idx ==> GrandparentOrdered(batches, heap[..size], j)
    modifies heap
    ensures multiset(heap[..size]) == old(multiset(heap[..size]))
    ensures heap[size..] == old(heap[size..])
    ensures AllInRange(batches, heap[..size]) && HeapOrdered(batches, heap[..size])
    decreases size - idx
  {
    var smallest, l, r := idx, idx * 2 + 1, idx * 2 + 2;
    ghost var h := heap[..size];
    assert forall k :: 0 <= k < size ==> heap[k] == h[k] && heap[k] in h;
    if l < size && HeapLess(batches, heap[l], heap[smallest]) { smallest := l; }
    if r < size && HeapLess(batches, heap[r], heap[smallest]) { smallest := r; }
    SmallestOfFamily(batches, h, idx, smallest);
    if smallest != idx {
      Swap(heap, size, smallest, idx);
      SiftDownStep(batches, h, idx, smallest);
      HeapifyDown(heap, smallest, size, batches);
    }
  }

  /** The two comparisons pick a least node among `idx` and its children. */
  lemma SmallestOfFamily(batches: seq<seq<string>>, h: seq<HeapEntry>, idx: nat, smallest: nat)
    requires AllInRange(batches, h) && (idx < |h| || h == [])
    requires var l, r := idx * 2 + 1, idx * 2 + 2;
      var first := if l < |h| && HeapLess(batches, h[l], h[idx]) then l else idx;
      smallest == if r < |h| && HeapLess(batches, h[r], h[first]) then r else first
    ensures smallest != idx ==>
      0 < smallest < |h| && Parent(smallest) == idx && HeapLess(batches, h[smallest], h[idx])
      && forall j: nat :: 0 < j < |h| && Parent(j) == idx ==> AtMost(batches, h[smallest], h[j])
    ensures smallest == idx ==> forall j: nat :: 0 < j && Parent(j) == idx ==> EdgeOrdered(batches, h, j)
  {
    StrcmpIsTotalOrder();
    assert forall j: nat :: 0 < j && Parent(j) == idx ==> j == idx * 2 + 1 || j == idx * 2 + 2;
  }

  /** One swap with the smaller child moves the only possibly broken edges one level down. */
  lemma SiftDownStep(batches: seq<seq<string>>, h: seq<HeapEntry>, idx: nat, child: nat)
    requires child < |h| && AllInRange(batches, h) && 0 < child && Parent(child) == idx
    requires forall j: nat :: 0 < j && Parent(j) != idx ==> EdgeOrdered(batches, h, j)
    requires forall j: nat :: 0 < j && Parent(j) == idx ==> GrandparentOrdered(batches, h, j)
    requires HeapLess(batches, h[child], h[idx])
    requires forall j: nat :: 0 < j < |h| && Parent(j) == idx ==> AtMost(batches, h[child], h[j])
    ensures var g := h[child := h[idx]][idx := h[child]];
      AllInRange(batches, g)
      && (forall j: nat :: 0 < j && Parent(j) != child ==> EdgeOrdered(batches, g, j))
      && (forall j: nat :: 0 < j && Parent(j) == child ==> GrandparentOrdered(batches, g, j))
  {
    StrcmpIsTotalOrder();
    var g := h[child := h[idx]][idx := h[child]];
    forall j: nat | 0 < j && Parent(j) != child ensures EdgeOrdered(batches, g, j) {
      if Parent(j) != idx { assert EdgeOrdered(batches, h, j); }
      if j == idx { assert GrandparentOrdered(batches, h, child); }
    }
    forall j: nat | 0 < j && Parent(j) == child ensures GrandparentOrdered(batches, g, j) {
      assert EdgeOrdered(batches, h, j);
    }
  }

  method HeapPush(heap: array<HeapEntry>, size: nat, entry: HeapEntry, batches: seq<seq<string>>)
    returns (newSize: nat)
    requires size < heap.Length && InRange(batches, entry)
    requires AllInRange(batches, heap[..size]) && HeapOrdered(batches, heap[..size])
    modifies heap
    ensures newSize == size + 1
    ensures multiset(heap[..newSize]) == old(multiset(heap[..size])) + multiset{entry}
    ensures AllInRange(batches, heap[..newSize]) && HeapOrdered(batches, heap[..newSize])
  {
    ghost var h := heap[..size];
    heap[size] := entry;
    newSize := size + 1;
    assert heap[..newSize] == h + [entry];
    forall j: nat | j != size ensures EdgeOrdered(batches, heap[..newSize], j) {
      assert EdgeOrdered(batches, h, j);
    }
    HeapifyUp(heap, size, newSize, batches);
  }

  method HeapPop(heap: array<HeapEntry>, size: nat, batches: seq<seq<string>>)
    returns (found: bool, out: HeapEntry, newSize: nat)
    requires size <= heap.Length
    requires AllInRange(batches, heap[..size]) && HeapOrdered(batches, heap[..size])
    modifies heap
    ensures found <==> size > 0
    ensures !found ==> newSize == size && heap[..] == old(heap[..])
    ensures found ==> newSize == size - 1 && InRange(batches, out)
    ensures found ==> old(multiset(heap[..size])) == multiset(heap[..newSize]) + multiset{out}
    ensures found ==> IsMinimum(batches, out, old(heap[..size]))
    ensures AllInRange(batches, heap[..newSize]) && HeapOrdered(batches, heap[..newSize])
  {
    if size == 0 { return false, HeapEntry(0, 0), 0; }
    ghost var h := heap[..size];
    out := heap[0];
    RootIsMinimum(batches, h);
    heap[0] := heap[size - 1];
    newSize := size - 1;
    found := true;
    PopStep(batches, h);
    ghost var g := h[0 := h[size - 1]][..newSize];
    assert heap[..newSize] == g;
    HeapifyDown(heap, 0, newSize, batches);
    assert multiset(heap[..newSize]) == multiset(g);
  }

  /** Moving the last cursor to the root loses exactly the root and breaks only the root's edges. */
  lemma PopStep(batches: seq<seq<string>>, h: seq<HeapEntry>)
    requires h != [] && AllInRange(batches, h) && HeapOrdered(batches, h)
    ensures var g := h[0 := h[|h| - 1]][..|h| - 1];
      multiset(h) == multiset(g) + multiset{h[0]}
      && AllInRange(batches, g)
      && (forall j: nat :: 0 < j && Parent(j) != 0 ==> EdgeOrdered(batches, g, j))
      && (forall j: nat :: 0 < j && Parent(j) == 0 ==> GrandparentOrdered(batches, g, j))
  {
    var last := |h| - 1;
    var g := h[0 := h[last]][..last];
    if last > 0 {
      assert g == [h[last]] + h[1..last];
      assert h == [h[0]] + h[1..last] + [h[last]];
    } else {
      assert h == [h[0]];
    }
    forall j: nat | 0 < j && Parent(j) != 0 ensures EdgeOrdered(batches, g, j) {
      assert EdgeOrdered(batches, h, j);
    }
  }
}
