/** The byte scans of src/parse.c: generated-file test, source line around an offset, printable names. */
module Scanning {

  const MAX_LINE_LEN: nat := 512
  const MAX_SRC_LINE_LEN: nat := 4096

  /** No newline among bytes `from` up to `to`. */
  ghost predicate NewlineFree(src: string, from: nat, to: nat)
    requires from <= to <= |src|
  {
    forall k :: from <= k < to ==> src[k] != '\n'
  }

  /** Some stretch without a newline is longer than 4096 bytes. */
  ghost predicate HasLongRun(src: string) {
    exists i: nat, j: nat :: i + 4096 < j <= |src| && NewlineFree(src, i, j)
  }

  method HasLongLine(src: string) returns (r: bool)
    ensures r <==> HasLongRun(src)
  {
    var run: nat := 0;
    for i := 0 to |src|
      invariant run <= i && run <= MAX_SRC_LINE_LEN
      invariant NewlineFree(src, i - run, i)
      invariant run == i || src[i - run - 1] == '\n'
      invariant forall a: nat, b: nat :: a + MAX_SRC_LINE_LEN < b <= i ==> !NewlineFree(src, a, b)
    {
      if src[i] == '\n' {
        run := 0;
        continue;
      }
      run := run + 1;
      if run > MAX_SRC_LINE_LEN {
        assert NewlineFree(src, i + 1 - run, i + 1);
        return true;
      }
    }
    return false;
  }

  /** Walk left from `s` while the byte before is not a newline and `limit` is not reached. */
  function Back(src: string, s: nat, limit: nat): (r: nat)
    requires limit <= s <= |src|
    ensures limit <= r <= s && NewlineFree(src, r, s)
    ensures r == limit || src[r - 1] == '\n'
  {
    if s > limit && src[s - 1] != '\n' then
      Back(src, s - 1, limit)
    else s
  }

  /** Walk right from `e` while the byte there is not a newline and `limit` is not reached. */
  function Forward(src: string, e: nat, limit: nat): (r: nat)
    requires e <= limit <= |src|
    ensures e <= r <= limit && NewlineFree(src, e, r)
    ensures r == limit || src[r] == '\n'
    decreases limit - e
  {
    if e < limit && src[e] != '\n' then
      Forward(src, e + 1, limit)
    else e
  }

  function BackLimit(start: nat): nat {
    if start > MAX_LINE_LEN then start - MAX_LINE_LEN else 0
  }

  function ForwardLimit(len: nat, start: nat): nat
    requires start <= len
  {
    if len - start > MAX_LINE_LEN then start + MAX_LINE_LEN else len
  }

  function LineStart(src: string, start: nat): nat
    requires start <= |src|
  {
    Back(src, start, BackLimit(start))
  }

  function LineEnd(src: string, start: nat): nat
    requires start <= |src|
  {
    Forward(src, start, ForwardLimit(|src|, start))
  }

  function LineText(src: string, start: nat): string
    requires start <= |src|
  {
    src[LineStart(src, start)..LineEnd(src, start)]
  }

  method LineRange(src: string, start: nat) returns (s: nat, e: nat)
    requires start <= |src|
    ensures s == LineStart(src, start) && e == LineEnd(src, start)
    ensures s <= start <= e <= |src| && src[s..e] == LineText(src, start)
  {
    s := start;
    var backLimit := BackLimit(start);
    while s > backLimit && src[s - 1] != '\n'
      invariant backLimit <= s <= start
      invariant LineStart(src, start) == Back(src, s, backLimit)
    {
      s := s - 1;
    }
    e := start;
    var forwardLimit := ForwardLimit(|src|, start);
    while e < forwardLimit && src[e] != '\n'
      invariant start <= e <= forwardLimit
      invariant LineEnd(src, start) == Forward(src, e, forwardLimit)
    {
      e := e + 1;
    }
  }

  /** `[s, e)` is newline-free around `start`, at most 512 bytes each way, and stops short of 512
      only at a newline or at the end of the source. */
  ghost predicate ClippedLine(src: string, start: nat, s: nat, e: nat) {
    && s <= start <= e <= |src|
    && start - s <= 512 && e - start <= 512
    && NewlineFree(src, s, e)
    && (s == 0 || src[s - 1] == '\n' || start - s == 512)
    && (e == |src| || src[e] == '\n' || e - start == 512)
  }

  lemma LineIsClipped(src: string, start: nat)
    requires start <= |src|
    ensures ClippedLine(src, start, LineStart(src, start), LineEnd(src, start))
    ensures |LineText(src, start)| <= 1024
  {
  }

  /** The clipped window is unique, so it is the maximal one. */
  lemma ClippedLineIsUnique(src: string, start: nat, s: nat, e: nat)
    requires ClippedLine(src, start, s, e)
    ensures s == LineStart(src, start) && e == LineEnd(src, start)
  {
    LineIsClipped(src, start);
  }

  /** When both halves of the source line fit, the window is the whole line. */
  lemma WholeLineWhenItFits(src: string, start: nat, s: nat, e: nat)
    requires s <= start <= e <= |src| && NewlineFree(src, s, e)
    requires s == 0 || src[s - 1] == '\n'
    requires e == |src| || src[e] == '\n'
    requires start - s <= 512 && e - start <= 512
    ensures LineText(src, start) == src[s..e]
  {
    ClippedLineIsUnique(src, start, s, e);
  }

  /** `isprint` in the C locale, which the program never leaves. */
  predicate IsPrint(c: char) {
    ' ' <= c <= '~'
  }

  predicate Printable(name: string) {
    forall k :: 0 <= k < |name| ==> IsPrint(name[k])
  }

  method NameIsPrintable(name: string) returns (r: bool)
    ensures r <==> Printable(name)
    ensures r <==> forall c :: c in name ==> 0x20 <= c as int <= 0x7e
  {
    for k := 0 to |name|
      invariant forall j :: 0 <= j < k ==> IsPrint(name[j])
    {
      assert name[k] in name;
      if !IsPrint(name[k]) { return false; }
    }
    return true;
  }
}
