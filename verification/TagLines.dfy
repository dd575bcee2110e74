/** Writing and reading one line of a tags file (src/parse.c:74-109, src/parse.c:147-178). */
module TagLines {
  import opened Optional
  import opened Sequences

  // ----- escape_pattern -----

  predicate IsEol(c: char) {
    c == '\n' || c == '\r'
  }

  function EscapeByte(c: char, last: bool): string {
    if c == '\t' then "\\t"
    else if c == '\\' then "\\\\"
    else if c == '/' then "\\/"
    else if c == '$' && last then "\\$"
    else [c]
  }

  /** Stops at the first CR or LF; `$` is escaped only as the very last byte of the input. */
  function Escape(src: string): string {
    if src == "" || IsEol(src[0]) then ""
    else EscapeByte(src[0], |src| == 1) + Escape(src[1..])
  }

  lemma EscapeFrom(src: string, i: nat)
    requires i < |src| && !IsEol(src[i])
    ensures Escape(src[i..]) == EscapeByte(src[i], i + 1 == |src|) + Escape(src[i + 1..])
  {
    assert src[i..][1..] == src[i + 1..];
  }

  /** The first pass: how many bytes the second one will write. */
  method CountEscaped(src: string) returns (w: nat)
    ensures w == |Escape(src)|
  {
    w := 0;
    for i := 0 to |src|
      invariant w + |Escape(src[i..])| == |Escape(src)|
    {
      var c := src[i];
      if c == '\n' || c == '\r' { return; }
      EscapeFrom(src, i);
      if c == '\t' || c == '\\' || c == '/' || (c == '$' && i + 1 == |src|) {
        w := w + 2;
      } else {
        w := w + 1;
      }
    }
  }

  lemma EscapeStops(src: string, i: nat)
    requires i <= |src| && (i == |src| || IsEol(src[i]))
    ensures Escape(src[i..]) == ""
  {
  }

  /** One turn of the second pass. */
  method WriteByte(dst: array<char>, out: nat, c: char, last: bool) returns (end: nat)
    requires out + |EscapeByte(c, last)| <= dst.Length
    modifies dst
    ensures end == out + |EscapeByte(c, last)|
    ensures dst[..end] == old(dst[..out]) + EscapeByte(c, last)
  {
    if c == '\t' {
      dst[out], dst[out + 1] := '\\', 't';
      return out + 2;
    }
    if c == '\\' || c == '/' {
      dst[out], dst[out + 1] := '\\', c;
      return out + 2;
    }
    if c == '$' && last {
      dst[out], dst[out + 1] := '\\', '$';
      return out + 2;
    }
    dst[out] := c;
    end := out + 1;
  }

  /** The second pass fills exactly the bytes the first one counted. */
  method EscapePattern(src: string) returns (dst: array<char>)
    ensures fresh(dst) && dst[..] == Escape(src) + "\0"
  {
    var w := CountEscaped(src);
    dst := new char[w + 1](_ => ' ');
    var out: nat, i: nat := 0, 0;
    assert src[0..] == src;
    hide Escape, EscapeByte;
    while i < |src|
      invariant i <= |src| && out <= w && dst.Length == w + 1
      invariant dst[..out] + Escape(src[i..]) == Escape(src)
    {
      var c := src[i];
      if c == '\n' || c == '\r' { break; }
      EscapeFrom(src, i);
      Regroup(dst[..out], EscapeByte(c, i + 1 == |src|), Escape(src[i + 1..]));
      out := WriteByte(dst, out, c, i + 1 == |src|);
      i := i + 1;
    }
    EscapeStops(src, i);
    assert dst[..out] == Escape(src);
    dst[w] := '\0';
  }

  function Unescape(t: string): string {
    if t == "" then ""
    else if t[0] == '\\' && |t| >= 2 then [if t[1] == 't' then '\t' else t[1]] + Unescape(t[2..])
    else [t[0]] + Unescape(t[1..])
  }

  /** Every backslash starts a pair, and no slash stands outside a pair. */
  predicate WellEscaped(t: string) {
    if t == "" then true
    else if t[0] == '\\' then |t| >= 2 && WellEscaped(t[2..])
    else t[0] != '/' && WellEscaped(t[1..])
  }

  predicate NoRawControl(t: string) {
    '\t' !in t && '\r' !in t && '\n' !in t
  }

  function UpToEol(src: string): string {
    if src == "" || IsEol(src[0]) then "" else [src[0]] + UpToEol(src[1..])
  }

  lemma PrependUnit(c: char, last: bool, rest: string)
    requires !IsEol(c)
    ensures var t := EscapeByte(c, last) + rest;
      && Unescape(t) == [c] + Unescape(rest)
      && (WellEscaped(rest) ==> WellEscaped(t))
      && (NoRawControl(rest) ==> NoRawControl(t))
  {
    var u := EscapeByte(c, last);
    var t := u + rest;
    if |u| == 2 { assert t[2..] == rest; } else { assert t[1..] == rest; }
  }

  /** Decoding the output gives back the input up to the first CR or LF, and the output holds no raw
      tab, CR or LF and no unescaped slash. */
  lemma {:induction false} EscapeRoundTrip(src: string)
    ensures Unescape(Escape(src)) == UpToEol(src)
    ensures WellEscaped(Escape(src)) && NoRawControl(Escape(src))
  {
    if src != "" && !IsEol(src[0]) {
      EscapeRoundTrip(src[1..]);
      PrependUnit(src[0], |src| == 1, Escape(src[1..]));
    }
  }

  /** The line is what stands before the first CR or LF. */
  lemma {:induction false} UpToEolMeaning(src: string)
    ensures UpToEol(src) <= src && '\n' !in UpToEol(src) && '\r' !in UpToEol(src)
    ensures UpToEol(src) != src ==> src[|UpToEol(src)|] == '\n' || src[|UpToEol(src)|] == '\r'
  {
    if src != "" && !IsEol(src[0]) {
      UpToEolMeaning(src[1..]);
      assert src == [src[0]] + src[1..];
    }
  }

  /** How many tabs, backslashes and slashes. */
  ghost function Specials(line: string): nat {
    multiset(line)['\t'] + multiset(line)['\\'] + multiset(line)['/']
  }

  lemma SpecialsStep(c: char, rest: string)
    ensures Specials([c] + rest) == Specials(rest) + if c in {'\t', '\\', '/'} then 1 else 0
  {
    assert multiset([c] + rest) == multiset{c} + multiset(rest);
  }

  /** The input is one line that ends in a `$`. */
  ghost predicate EndsInDollar(src: string) {
    src != "" && src[|src| - 1] == '$' && '\n' !in src && '\r' !in src
  }

  lemma EndsInDollarStep(src: string)
    requires src != "" && !IsEol(src[0])
    ensures EndsInDollar(src) <==> if |src| == 1 then src[0] == '$' else EndsInDollar(src[1..])
  {
    assert src == [src[0]] + src[1..];
  }

  /** One more byte for each tab, backslash and slash, and for a `$` that ends the input: nothing else
      is escaped. */
  lemma {:induction false} EscapeLength(src: string)
    ensures |Escape(src)| == |UpToEol(src)| + Specials(UpToEol(src)) + if EndsInDollar(src) then 1 else 0
  {
    if src != "" && !IsEol(src[0]) {
      EscapeLength(src[1..]);
      SpecialsStep(src[0], UpToEol(src[1..]));
      EndsInDollarStep(src);
      assert |Escape(src)| == |EscapeByte(src[0], |src| == 1)| + |Escape(src[1..])|;
      assert UpToEol(src) == [src[0]] + UpToEol(src[1..]);
      assert |src| == 1 ==> src[1..] == "" && !EndsInDollar("");
      hide Specials, EndsInDollar, Escape, UpToEol;
    } else {
      assert UpToEol(src) == "" && multiset("") == multiset{};
      assert src != "" ==> src[0] in src;
    }
  }

  /** Bytes other than tab, backslash, slash, CR and LF are copied; so is a `$` with a byte after it. */
  lemma {:induction false} OtherBytesAreCopied(plain: string, rest: string)
    requires forall c :: c in plain ==> c !in {'\t', '\\', '/', '\r', '\n'}
    requires '$' !in plain || rest != ""
    ensures Escape(plain + rest) == plain + Escape(rest)
  {
    if plain == "" {
      assert plain + rest == rest;
    } else {
      assert forall c :: c in plain[1..] ==> c in plain;
      OtherBytesAreCopied(plain[1..], rest);
      assert plain[0] in plain;
      assert (plain + rest)[1..] == plain[1..] + rest;
      assert plain == [plain[0]] + plain[1..];
    }
  }

  /** A backslash stands before a `t`, a backslash, a slash, or a `$` that ends the text. */
  ghost predicate OnlyKnownPairs(t: string) {
    if t == "" then true
    else if t[0] == '\\' then
      |t| >= 2 && t[1] in {'t', '\\', '/', '$'} && (t[1] == '$' ==> |t| == 2) && OnlyKnownPairs(t[2..])
    else OnlyKnownPairs(t[1..])
  }

  lemma {:induction false} EscapeMakesKnownPairs(src: string)
    ensures OnlyKnownPairs(Escape(src))
  {
    if src != "" && !IsEol(src[0]) {
      EscapeMakesKnownPairs(src[1..]);
      var u, rest := EscapeByte(src[0], |src| == 1), Escape(src[1..]);
      assert (u + rest)[|u|..] == rest;
      assert |src| == 1 ==> rest == "";
    }
  }

  /** The last pair or byte of an escaped text is a `$` without a backslash. */
  predicate EndsInBareDollar(t: string) {
    if t == "" then false
    else if t[0] == '\\' && |t| >= 2 then EndsInBareDollar(t[2..])
    else t == "$" || EndsInBareDollar(t[1..])
  }

  /** A final `$` is left bare exactly when a CR or LF follows it in the window: "a$" is written
      a\$ but "a$" before a CR is written a$. */
  lemma {:induction false} WhenDollarStaysBare(src: string)
    ensures EndsInBareDollar(Escape(src)) <==>
      UpToEol(src) != src && UpToEol(src) != "" && UpToEol(src)[|UpToEol(src)| - 1] == '$'
  {
    if src != "" && !IsEol(src[0]) {
      WhenDollarStaysBare(src[1..]);
      var u, rest := EscapeByte(src[0], |src| == 1), Escape(src[1..]);
      assert (u + rest)[|u|..] == rest;
      assert rest == "" <==> UpToEol(src[1..]) == "" by { EscapeRoundTrip(src[1..]); }
      assert UpToEol(src) == src <==> UpToEol(src[1..]) == src[1..] by {
        assert src == [src[0]] + src[1..];
      }
    }
  }

  // ----- C strings: what `%s` prints stops at the first NUL -----

  function UpToNul(s: string): string {
    if s == "" || s[0] == '\0' then "" else [s[0]] + UpToNul(s[1..])
  }

  /** The part of a source line that reaches the tags file. */
  function Shown(src: string): string {
    UpToNul(UpToEol(src))
  }

  /** What is shown is what stands before the first CR, LF or NUL. */
  lemma {:induction false} ShownMeaning(src: string)
    ensures Shown(src) <= src && forall c :: c in Shown(src) ==> c !in {'\n', '\r', '\0'}
    ensures Shown(src) != src ==> src[|Shown(src)|] in {'\n', '\r', '\0'}
  {
    if src != "" && !IsEol(src[0]) && src[0] != '\0' {
      ShownMeaning(src[1..]);
      assert UpToEol(src)[1..] == UpToEol(src[1..]);
      assert src == [src[0]] + src[1..];
    }
  }

  lemma {:induction false} UpToNulOfAppend(a: string, b: string)
    requires '\0' !in a
    ensures UpToNul(a + b) == a + UpToNul(b)
  {
    if a == "" {
      assert a + b == b;
    } else {
      UpToNulOfAppend(a[1..], b);
      assert (a + b)[1..] == a[1..] + b;
    }
  }

  lemma {:induction false} UpToNulOfString(a: string)
    ensures '\0' !in UpToNul(a)
    ensures '\0' !in a ==> UpToNul(a) == a
  {
    if a != "" && a[0] != '\0' { UpToNulOfString(a[1..]); }
  }

  /** Cutting an escaped line at a NUL never splits a pair. */
  lemma {:induction false} TruncatedRoundTrip(src: string)
    ensures Unescape(UpToNul(Escape(src))) == Shown(src)
    ensures WellEscaped(UpToNul(Escape(src))) && NoRawControl(UpToNul(Escape(src)))
  {
    if src != "" && !IsEol(src[0]) {
      TruncatedRoundTrip(src[1..]);
      var u, rest := EscapeByte(src[0], |src| == 1), Escape(src[1..]);
      if src[0] == '\0' {
        assert (u + rest)[0] == '\0';
      } else {
        UpToNulOfAppend(u, rest);
        PrependUnit(src[0], |src| == 1, UpToNul(rest));
        assert Shown(src) == [src[0]] + Shown(src[1..]);
      }
    }
  }

  // ----- The line -----

  /** "%.*s\t%s\t/^%s$/;\"\t%s\n" */
  function PrintTag(name: string, path: string, pattern: string, kind: string): string {
    name + "\t" + path + "\t" + "/^" + pattern + "$/" + ";\"\t" + kind + "\n"
  }

  datatype Tag = Tag(name: string, path: string, text: string, kind: string)

  /** Split at the first `c`. */
  function Split(s: string, c: char): Option<(string, string)> {
    if s == "" then None
    else if s[0] == c then Some(("", s[1..]))
    else match Split(s[1..], c)
      case None => None
      case Some((a, b)) => Some(([s[0]] + a, b))
  }

  /** Split at the first slash that no backslash escapes. */
  function SplitAtSlash(t: string): Option<(string, string)> {
    if t == "" then None
    else if t[0] == '/' then Some(("", t[1..]))
    else
      var k := if t[0] == '\\' && |t| >= 2 then 2 else 1;
      match SplitAtSlash(t[k..])
      case None => None
      case Some((a, b)) => Some((t[..k] + a, b))
  }

  function DropPrefix(s: string, prefix: string): Option<string> {
    if prefix <= s then Some(s[|prefix|..]) else None
  }

  function DropSuffix(s: string, suffix: string): Option<string> {
    if |suffix| <= |s| && s[|s| - |suffix|..] == suffix then Some(s[..|s| - |suffix|]) else None
  }

  /** The address and kind fields, as (text, kind). */
  function ReadAddress(field: string): Option<(string, string)> {
    match DropPrefix(field, "/^")
    case None => None
    case Some(body) =>
      match SplitAtSlash(body)
      case None => None
      case Some((pattern, tail)) =>
        match (DropSuffix(pattern, "$"), DropPrefix(tail, ";\"\t"))
        case (Some(escaped), Some(last)) =>
          (match DropSuffix(last, "\n")
           case None => None
           case Some(kind) => Some((Unescape(escaped), kind)))
        case _ => None
  }

  /** A reader of tag lines that works from left to right, as an editor's search does: the first two
      tabs, then the first unescaped slash.  It knows nothing of how the line was made. */
  function ReadTag(line: string): Option<Tag> {
    match Split(line, '\t')
    case None => None
    case Some((name, line1)) =>
      match Split(line1, '\t')
      case None => None
      case Some((path, address)) =>
        match ReadAddress(address)
        case None => None
        case Some((text, kind)) => Some(Tag(name, path, text, kind))
  }

  lemma {:induction false} SplitOfAppend(a: string, c: char, b: string)
    requires c !in a
    ensures Split(a + [c] + b, c) == Some((a, b))
  {
    var s := a + [c] + b;
    if a == "" {
      assert s[1..] == b;
    } else {
      SplitOfAppend(a[1..], c, b);
      assert s[1..] == a[1..] + [c] + b;
      assert a == [a[0]] + a[1..];
    }
  }

  lemma {:induction false} SplitAtSlashOfPattern(p: string, rest: string)
    requires WellEscaped(p)
    ensures SplitAtSlash(p + "$/" + rest) == Some((p + "$", rest))
  {
    var t := p + "$/" + rest;
    if p == "" {
      assert t[1..] == "/" + rest;
      assert t[1..][1..] == rest;
      assert t[..1] + "" == p + "$";
    } else {
      var k := if p[0] == '\\' then 2 else 1;
      SplitAtSlashOfPattern(p[k..], rest);
      assert t[k..] == p[k..] + "$/" + rest;
      assert t[..k] + (p[k..] + "$") == p + "$";
    }
  }

  lemma DropPrefixOf(prefix: string, s: string)
    ensures DropPrefix(prefix + s, prefix) == Some(s)
  {
  }

  lemma DropSuffixOf(s: string, suffix: string)
    ensures DropSuffix(s + suffix, suffix) == Some(s)
  {
  }

  /** The address and kind fields as printed. */
  function PrintAddress(pattern: string, kind: string): string {
    "/^" + (pattern + "$/" + (";\"\t" + (kind + "\n")))
  }

  lemma AddressRoundTrip(pattern: string, kind: string)
    requires WellEscaped(pattern)
    ensures ReadAddress(PrintAddress(pattern, kind)) == Some((Unescape(pattern), kind))
  {
    var last := kind + "\n";
    var tail := ";\"\t" + last;
    DropPrefixOf("/^", pattern + "$/" + tail);
    SplitAtSlashOfPattern(pattern, tail);
    DropSuffixOf(pattern, "$");
    DropPrefixOf(";\"\t", last);
    DropSuffixOf(kind, "\n");
    hide DropPrefix, DropSuffix, SplitAtSlash, Unescape, WellEscaped;
  }

  /** Reading a printed line gives back every field: for any name and path without a tab, any
      well-escaped pattern, and any kind. */
  lemma TagRoundTrip(name: string, path: string, pattern: string, kind: string)
    requires '\t' !in name && '\t' !in path && WellEscaped(pattern)
    ensures ReadTag(PrintTag(name, path, pattern, kind)) == Some(Tag(name, path, Unescape(pattern), kind))
  {
    var address := PrintAddress(pattern, kind);
    assert PrintTag(name, path, pattern, kind) == name + ['\t'] + (path + ['\t'] + address);
    SplitOfAppend(name, '\t', path + ['\t'] + address);
    SplitOfAppend(path, '\t', address);
    AddressRoundTrip(pattern, kind);
  }

  lemma {:induction false} SplitPartIsFree(s: string, c: char)
    ensures Split(s, c).Some? ==> c !in Split(s, c).value.0
  {
    if s != "" && s[0] != c { SplitPartIsFree(s[1..], c); }
  }

  /** The path that is read back never holds a tab. */
  lemma ReadPathHasNoTab(line: string)
    ensures ReadTag(line).Some? ==> '\t' !in ReadTag(line).value.path
  {
    SplitPartIsFree(line, '\t');
    if Split(line, '\t').Some? { SplitPartIsFree(Split(line, '\t').value.1, '\t'); }
  }

  // ----- A reader for every path -----

  /** Split at the last `c`. */
  function SplitLast(s: string, c: char): Option<(string, string)> {
    if s == "" then None
    else
      var init, x := s[..|s| - 1], s[|s| - 1];
      if x == c then Some((init, ""))
      else match SplitLast(init, c)
        case None => None
        case Some((a, b)) => Some((a, b + [x]))
  }

  lemma SplitLastStep(t: string, x: char, c: char)
    ensures SplitLast(t + [x], c) ==
      if x == c then Some((t, ""))
      else match SplitLast(t, c)
        case None => None
        case Some((a, b)) => Some((a, b + [x]))
  {
    assert (t + [x])[..|t|] == t;
  }

  lemma {:induction false} SplitLastOfAppend(a: string, c: char, b: string)
    requires c !in b
    ensures SplitLast(a + [c] + b, c) == Some((a, b))
  {
    if b == "" {
      SplitLastStep(a, c, c);
      assert a + [c] + b == a + [c];
    } else {
      var init, x := b[..|b| - 1], b[|b| - 1];
      assert b == init + [x];
      assert a + [c] + b == a + [c] + init + [x];
      assert c !in init;
      SplitLastOfAppend(a, c, init);
      SplitLastStep(a + [c] + init, x, c);
      hide SplitLast;
    }
  }

  /** The text between the anchors of an address. */
  function ReadPattern(address: string): Option<string> {
    match DropPrefix(address, "/^")
    case None => None
    case Some(body) =>
      match DropSuffix(body, "$/;\"")
      case None => None
      case Some(pattern) => Some(Unescape(pattern))
  }

  /** A reader that cuts at the first tab and at the last two: what lies between is the path. */
  function ReadOutsideIn(line: string): Option<Tag> {
    match Split(line, '\t')
    case None => None
    case Some((name, line1)) =>
      match SplitLast(line1, '\t')
      case None => None
      case Some((line2, last)) =>
        match SplitLast(line2, '\t')
        case None => None
        case Some((path, address)) =>
          match (ReadPattern(address), DropSuffix(last, "\n"))
          case (Some(text), Some(kind)) => Some(Tag(name, path, text, kind))
          case _ => None
  }

  /** The address without the kind field. */
  function PrintAnchors(pattern: string): string {
    "/^" + (pattern + "$/;\"")
  }

  lemma ReadPatternOfAnchors(pattern: string)
    ensures ReadPattern(PrintAnchors(pattern)) == Some(Unescape(pattern))
  {
    DropPrefixOf("/^", pattern + "$/;\"");
    DropSuffixOf(pattern, "$/;\"");
    hide DropPrefix, DropSuffix, Unescape;
  }

  lemma PrintedFields(name: string, path: string, pattern: string, kind: string)
    ensures PrintTag(name, path, pattern, kind) ==
      name + ['\t'] + ((path + ['\t'] + PrintAnchors(pattern)) + ['\t'] + (kind + "\n"))
  {
    assert "$/" + ";\"\t" == "$/;\"" + ['\t'];
    assert PrintTag(name, path, pattern, kind) ==
      name + "\t" + path + "\t" + "/^" + pattern + ("$/" + ";\"\t") + kind + "\n";
  }

  /** It gives back every field, whatever the path holds: tabs, newlines, slashes. */
  lemma TagRoundTripAnyPath(name: string, path: string, pattern: string, kind: string)
    requires '\t' !in name && '\t' !in pattern && '\t' !in kind
    ensures ReadOutsideIn(PrintTag(name, path, pattern, kind)) == Some(Tag(name, path, Unescape(pattern), kind))
  {
    var address, last := PrintAnchors(pattern), kind + "\n";
    assert '\t' !in address && '\t' !in last;
    PrintedFields(name, path, pattern, kind);
    hide PrintTag, PrintAnchors, Split, SplitLast, ReadPattern, Unescape, DropSuffix;
    SplitOfAppend(name, '\t', (path + ['\t'] + address) + ['\t'] + last);
    SplitLastOfAppend(path + ['\t'] + address, '\t', last);
    SplitLastOfAppend(path, '\t', address);
    ReadPatternOfAnchors(pattern);
    DropSuffixOf(kind, "\n");
  }

  lemma PrintTagHasNoNul(name: string, path: string, pattern: string, kind: string)
    requires '\0' !in name && '\0' !in path && '\0' !in pattern && '\0' !in kind
    ensures '\0' !in PrintTag(name, path, pattern, kind)
  {
  }
}
