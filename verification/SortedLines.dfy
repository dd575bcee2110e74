/** Sorted and duplicate-free sequences of lines: what `qsort` with `compare_lines`, the uniq pass
    and the merge promise, as functions and their laws. */
module SortedLines {
  import opened CStrings

  ghost predicate Sorted(s: seq<string>) {
    forall i, j :: 0 <= i < j < |s| ==> Leq(s[i], s[j])
  }

  ghost predicate StrictlySorted(s: seq<string>) {
    forall i, j :: 0 <= i < j < |s| ==> Less(s[i], s[j])
  }

  function Insert(x: string, s: seq<string>): seq<string> {
    if s == [] || Leq(x, s[0]) then [x] + s else [s[0]] + Insert(x, s[1..])
  }

  /** The sorted permutation of `s`.  Lines that compare equal are equal, so it is the only one. */
  function SortLines(s: seq<string>): seq<string> {
    if s == [] then [] else Insert(s[0], SortLines(s[1..]))
  }

  lemma {:induction false} InsertedElement(x: string, s: seq<string>, y: string)
    requires y in Insert(x, s)
    ensures y == x || y in s
  {
    if s != [] && !Leq(x, s[0]) && y != s[0] { InsertedElement(x, s[1..], y); }
  }

  lemma {:induction false} InsertKeepsSorted(x: string, s: seq<string>)
    requires Sorted(s)
    ensures Sorted(Insert(x, s))
    ensures multiset(Insert(x, s)) == multiset{x} + multiset(s)
  {
    StrcmpIsTotalOrder();
    if s == [] || Leq(x, s[0]) {
    } else {
      InsertKeepsSorted(x, s[1..]);
      var t := Insert(x, s[1..]);
      assert s == [s[0]] + s[1..];
      forall y | y in t ensures Leq(s[0], y) { InsertedElement(x, s[1..], y); }
    }
  }

  lemma {:induction false} SortLinesIsSortedPermutation(s: seq<string>)
    ensures Sorted(SortLines(s))
    ensures multiset(SortLines(s)) == multiset(s)
  {
    if s != [] {
      SortLinesIsSortedPermutation(s[1..]);
      InsertKeepsSorted(s[0], SortLines(s[1..]));
      assert s == [s[0]] + s[1..];
    }
  }

  lemma {:induction false} SortedPermutationIsUnique(s: seq<string>, t: seq<string>)
    requires Sorted(s) && Sorted(t) && multiset(s) == multiset(t)
    ensures s == t
  {
    if s == [] {
      assert |t| == |multiset(t)| == 0;
    } else {
      assert s[0] in multiset(s);
      assert s[0] in t;
      assert t[0] in multiset(t);
      assert t[0] in s;
      assert s[0] == t[0] by { StrcmpIsTotalOrder(); }
      TailMultiset(s);
      TailMultiset(t);
      SortedPermutationIsUnique(s[1..], t[1..]);
    }
  }

  lemma TailMultiset(s: seq<string>)
    requires s != []
    ensures s == [s[0]] + s[1..] && multiset(s[1..]) == multiset(s) - multiset{s[0]}
  {
    assert s == [s[0]] + s[1..];
  }

  lemma {:induction false} StrictListingIsUnique(s: seq<string>, t: seq<string>)
    requires StrictlySorted(s) && StrictlySorted(t)
    requires forall x :: x in s <==> x in t
    ensures s == t
  {
    StrcmpIsTotalOrder();
    assert t != [] ==> t[0] in t;
    if s != [] {
      assert s[0] in s && s[0] in t;
      assert t[0] in s;
      assert s[0] == t[0];
      forall x ensures x in s[1..] <==> x in t[1..] {
        assert x in s[1..] <==> x in s && x != s[0];
        assert x in t[1..] <==> x in t && x != t[0];
      }
      StrictListingIsUnique(s[1..], t[1..]);
    }
  }

  /** Drop every element equal to the last one kept. */
  function Uniq(s: seq<string>): seq<string> {
    if s == [] then []
    else
      var kept, x := Uniq(s[..|s| - 1]), s[|s| - 1];
      if kept != [] && kept[|kept| - 1] == x then kept else kept + [x]
  }

  lemma UniqStep(s: seq<string>, r: nat)
    requires r < |s|
    ensures var kept := Uniq(s[..r]);
      Uniq(s[..r + 1]) == if kept != [] && kept[|kept| - 1] == s[r] then kept else kept + [s[r]]
  {
    assert s[..r + 1][..r] == s[..r];
  }

  /** No longer than its input, and every dropped line equals a kept one. */
  lemma {:induction false} UniqKeepsTheSet(s: seq<string>)
    ensures |Uniq(s)| <= |s|
    ensures s != [] ==> Uniq(s) != [] && Uniq(s)[|Uniq(s)| - 1] == s[|s| - 1]
    ensures forall x :: x in Uniq(s) <==> x in s
  {
    if s != [] {
      var init := s[..|s| - 1];
      UniqKeepsTheSet(init);
      assert s == init + [s[|s| - 1]];
    }
  }

  lemma {:induction false} UniqOfSortedIsStrict(s: seq<string>)
    requires Sorted(s)
    ensures StrictlySorted(Uniq(s))
  {
    if s != [] {
      var init, x := s[..|s| - 1], s[|s| - 1];
      UniqOfSortedIsStrict(init);
      UniqKeepsTheSet(init);
      StrcmpIsTotalOrder();
      var kept := Uniq(init);
      forall i | 0 <= i < |kept| && Uniq(s) == kept + [x] ensures Less(kept[i], x) {
        assert kept[i] in init;
        assert Leq(kept[i], x);
        if kept[i] == x {
          assert kept[|kept| - 1] in init;
          assert Leq(kept[|kept| - 1], x);
          assert Leq(kept[i], kept[|kept| - 1]);
        }
      }
    }
  }

  /** What one worker publishes: its lines sorted, with exact duplicates dropped. */
  function SortUniq(s: seq<string>): seq<string> {
    Uniq(SortLines(s))
  }

  lemma SortUniqIsStrictListing(s: seq<string>)
    ensures StrictlySorted(SortUniq(s))
    ensures forall x :: x in SortUniq(s) <==> x in s
  {
    SortLinesIsSortedPermutation(s);
    UniqOfSortedIsStrict(SortLines(s));
    UniqKeepsTheSet(SortLines(s));
    forall x ensures x in SortLines(s) <==> x in s {
      assert x in SortLines(s) <==> x in multiset(SortLines(s));
      assert x in s <==> x in multiset(s);
    }
  }
}
