/** The growable vector of finished tag lines each worker owns (src/linevec.c). */
module LineVectors {
  import opened SortedLines

  /** SIZE_MAX / (2 * sizeof(char*)) with 64-bit sizes: a capacity above this is never doubled. */
  const MAX_DOUBLED_CAPACITY: nat := 0xFFFF_FFFF_FFFF_FFFF / 16

  class LineVec {
    var items: array<string>
    var len: nat

    ghost predicate Valid()
      reads this
    {
      0 < items.Length && len <= items.Length
    }

    function Items(): seq<string>
      reads this, items
      requires Valid()
    {
      items[..len]
    }

    constructor (cap: nat)
      requires cap > 0
      ensures Valid() && fresh(items) && items.Length == cap && Items() == []
    {
      items := new string[cap](_ => "");
      len := 0;
    }

    /** Appends `line`, doubling a full buffer.  Refuses, and changes nothing, exactly when the
        buffer is full and its doubled size would not fit a `size_t`. */
    method Push(line: string) returns (ok: bool)
      requires Valid()
      modifies this, items
      ensures Valid() && (items == old(items) || fresh(items))
      ensures ok <==> old(len) < old(items.Length) || old(items.Length) * 16 <= 0xFFFF_FFFF_FFFF_FFFF
      ensures Items() == if ok then old(Items()) + [line] else old(Items())
      ensures !ok ==> items == old(items)
      ensures items.Length == if old(len) < old(items.Length) || !ok then old(items.Length)
                              else 2 * old(items.Length)
    {
      if len == items.Length {
        if items.Length > MAX_DOUBLED_CAPACITY { return false; }
        var grown := new string[2 * items.Length](_ => "");
        forall i | 0 <= i < len { grown[i] := items[i]; }
        items := grown;
      }
      items[len] := line;
      len := len + 1;
      return true;
    }

    method Replace(idx: nat, line: string)
      requires Valid() && idx < len
      modifies items
      ensures Valid() && Items() == old(Items())[idx := line]
    {
      items[idx] := line;
    }

    /** Stands for `qsort` with `compare_lines`: the sorted permutation of the contents, which is
        unique because lines that compare equal are equal. */
    method Sort()
      requires Valid()
      modifies items
      ensures Valid() && Items() == SortLines(old(Items()))
    {
      var sorted := SortLines(items[..len]);
      SortLinesIsSortedPermutation(items[..len]);
      assert |sorted| == |multiset(sorted)| == len;
      forall i | 0 <= i < len { items[i] := sorted[i]; }
    }

    /** The in-place compaction: `w` never passes `r`, so every read sees an original line. */
    method Unique()
      requires Valid()
      modifies this`len, items
      ensures Valid() && Items() == Uniq(old(Items()))
    {
      ghost var before := Items();
      var w := 0;
      assert Uniq(before[..0]) == [];
      hide Uniq;
      for r := 0 to len
        invariant w <= r <= len == |before| && len <= items.Length
        invariant items[..w] == Uniq(before[..r])
        invariant forall k :: r <= k < len ==> items[k] == before[k]
      {
        UniqStep(before, r);
        assert w > 0 ==> items[..w][w - 1] == items[w - 1];
        if w > 0 && items[r] == items[w - 1] { continue; }
        items[w] := items[r];
        w := w + 1;
        assert items[..w] == Uniq(before[..r]) + [before[r]];
      }
      assert before[..len] == before;
      len := w;
    }

    /** The worker's last two calls before it publishes (src/worker.c:40-41). */
    method SortAndUnique()
      requires Valid()
      modifies this`len, items
      ensures Valid() && Items() == SortUniq(old(Items()))
      ensures StrictlySorted(Items()) && forall x :: x in Items() <==> x in old(Items())
    {
      SortUniqIsStrictListing(Items());
      Sort();
      Unique();
    }
  }
}
