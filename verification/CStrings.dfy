/** C strings and the order `strcmp` gives them.

    A C string is the sequence of bytes in front of its terminator, one `char` a byte.  `strcmp`
    compares bytes as unsigned values, and the terminator is below every byte, so the end of a
    sequence is below every element.
  */
module CStrings {

  /** Only the sign of the result means anything, as for the library function. */
  function Strcmp(a: string, b: string): int {
    if a == "" then
      if b == "" then 0 else -1
    else if b == "" then 1
    else if a[0] != b[0] then a[0] as int - b[0] as int
    else Strcmp(a[1..], b[1..])
  }

  predicate Less(a: string, b: string) {
    Strcmp(a, b) < 0
  }

  predicate Leq(a: string, b: string) {
    Strcmp(a, b) <= 0
  }

  lemma {:induction false} StrcmpZero(a: string, b: string)
    ensures Strcmp(a, b) == 0 <==> a == b
  {
    if a != "" && b != "" && a[0] == b[0] {
      StrcmpZero(a[1..], b[1..]);
      assert a == [a[0]] + a[1..] && b == [b[0]] + b[1..];
    }
  }

  lemma {:induction false} StrcmpFlip(a: string, b: string)
    ensures Strcmp(a, b) < 0 <==> Strcmp(b, a) > 0
  {
    if a != "" && b != "" && a[0] == b[0] {
      StrcmpFlip(a[1..], b[1..]);
    }
  }

  lemma {:induction false} StrcmpTransitive(a: string, b: string, c: string)
    requires Leq(a, b) && Leq(b, c)
    ensures Leq(a, c)
    ensures Less(a, b) || Less(b, c) ==> Less(a, c)
  {
    if a != "" && b != "" && c != "" && a[0] == b[0] == c[0] {
      StrcmpTransitive(a[1..], b[1..], c[1..]);
    }
  }

  /** `a` comes before `b` byte by byte: it is a proper prefix, or smaller at the first difference. */
  ghost predicate Before(a: string, b: string) {
    || (a <= b && a != b)
    || exists k: nat :: k < |a| && k < |b| && a[..k] == b[..k] && a[k] < b[k]
  }

  /** `strcmp` is that order. */
  lemma {:induction false} StrcmpIsByteOrder(a: string, b: string)
    ensures Less(a, b) <==> Before(a, b)
  {
    if a != "" && b != "" {
      if a[0] == b[0] {
        StrcmpIsByteOrder(a[1..], b[1..]);
        BeforeTail(a, b);
      } else if a[0] < b[0] {
        assert a[..0] == b[..0];
      } else {
        assert forall k: nat :: 0 < k < |a| && k < |b| ==> a[..k][0] != b[..k][0];
      }
    }
  }

  lemma BeforeTail(a: string, b: string)
    requires a != "" && b != "" && a[0] == b[0]
    ensures Before(a, b) <==> Before(a[1..], b[1..])
  {
    assert a == [a[0]] + a[1..] && b == [a[0]] + b[1..];
    if k: nat :| k < |a| && k < |b| && a[..k] == b[..k] && a[k] < b[k] {
      assert a[1..][..k - 1] == a[..k][1..] == b[..k][1..] == b[1..][..k - 1];
      assert a[1..][k - 1] < b[1..][k - 1];
    }
    if k: nat :| k < |a[1..]| && k < |b[1..]| && a[1..][..k] == b[1..][..k] && a[1..][k] < b[1..][k] {
      assert a[..k + 1] == [a[0]] + a[1..][..k] == [a[0]] + b[1..][..k] == b[..k + 1];
      assert a[k + 1] < b[k + 1];
    }
  }

  /** `strcmp` is a total order: what the heap, the sort and the uniq pass rely on. */
  lemma StrcmpIsTotalOrder()
    ensures forall a, b {:trigger Leq(a, b)} :: Leq(a, b) || Less(b, a)
    ensures forall a, b {:trigger Less(a, b)} :: Less(a, b) <==> Leq(a, b) && a != b
    ensures forall a, b {:trigger Leq(a, b)} :: Leq(a, b) && Leq(b, a) ==> a == b
    ensures forall a: string :: Leq(a, a)
    ensures forall a, b, c {:trigger Leq(a, b), Leq(b, c)} :: Leq(a, b) && Leq(b, c) ==> Leq(a, c)
  {
    forall a: string, b: string
      ensures Leq(a, b) || Less(b, a)
      ensures Less(a, b) <==> Leq(a, b) && a != b
      ensures Leq(a, b) && Leq(b, a) ==> a == b
    {
      StrcmpZero(a, b);
      StrcmpFlip(a, b);
      StrcmpFlip(b, a);
    }
    forall a: string ensures Leq(a, a) { StrcmpZero(a, a); }
    forall a: string, b: string, c: string | Leq(a, b) && Leq(b, c) ensures Leq(a, c) {
      StrcmpTransitive(a, b, c);
    }
  }
}
