/** From a file's query matches to lines in the worker's vector (src/parse.c:119-252). */
module Parsing {
  import opened Optional
  import opened Sequences
  import opened Languages
  import opened Scanning
  import opened TagLines
  import opened Deduplication
  import opened LineVectors

  const MAX_FILE_SIZE: nat := 2 * 1024 * 1024
  const MAX_MATCHES_PER_FILE: nat := 4096

  datatype Capture = Capture(id: string, start: nat, end: nat)

  /** What the query cursor hands over: a pattern index and captured nodes. */
  datatype Match = Match(captures: seq<Capture>, pattern: nat)

  datatype MatchInfo = MatchInfo(start: nat, end: nat, kind: string)

  /** Node offsets lie in the source, in order: tree-sitter's promise. */
  ghost predicate InSource(src: string, m: Match) {
    forall c :: c in m.captures ==> c.start <= c.end <= |src|
  }

  predicate IsName(c: Capture) {
    c.id == "name"
  }

  predicate IsKind(c: Capture) {
    |c.id| > 5 && c.id[..5] == "kind."
  }

  ghost function LastSuch(cs: seq<Capture>, p: Capture -> bool): (r: Option<Capture>)
    ensures r.Some? ==> r.value in cs && p(r.value)
    ensures r.None? ==> forall c :: c in cs ==> !p(c)
  {
    if cs == [] then None
    else if p(cs[|cs| - 1]) then Some(cs[|cs| - 1])
    else LastSuch(cs[..|cs| - 1], p)
  }

  /** The last `name` capture and the last `kind.` capture, when both are there and the name is not
      empty. */
  ghost function ExtractMatch(m: Match): Option<MatchInfo> {
    match (LastSuch(m.captures, IsName), LastSuch(m.captures, IsKind))
    case (Some(n), Some(k)) =>
      if n.start == n.end then None else Some(MatchInfo(n.start, n.end, k.id[5..]))
    case _ => None
  }

  ghost predicate LastName(cs: seq<Capture>, a: nat) {
    a < |cs| && cs[a].id == "name" && forall i :: a < i < |cs| ==> cs[i].id != "name"
  }

  ghost predicate LastKind(cs: seq<Capture>, b: nat, kind: string) {
    b < |cs| && cs[b].id == "kind." + kind && kind != "" && forall i :: b < i < |cs| ==> !("kind." < cs[i].id)
  }

  /** The match names the bytes `start..end` as a `kind`: its last capture called `name`, which is not
      empty, and its last one called `kind.` and something more. */
  ghost predicate Names(m: Match, start: nat, end: nat, kind: string) {
    && start != end
    && (exists a: nat :: LastName(m.captures, a) && m.captures[a].start == start && m.captures[a].end == end)
    && (exists b: nat :: LastKind(m.captures, b, kind))
  }

  lemma {:induction false} LastSuchMeaning(cs: seq<Capture>, p: Capture -> bool) returns (k: nat)
    ensures LastSuch(cs, p).Some? ==> k < |cs| && cs[k] == LastSuch(cs, p).value
    ensures LastSuch(cs, p).Some? ==> p(cs[k]) && forall i :: k < i < |cs| ==> !p(cs[i])
    ensures LastSuch(cs, p).None? ==> forall i :: 0 <= i < |cs| ==> !p(cs[i])
  {
    k := 0;
    if cs != [] {
      if p(cs[|cs| - 1]) {
        k := |cs| - 1;
      } else {
        k := LastSuchMeaning(cs[..|cs| - 1], p);
      }
    }
  }

  lemma KindPrefix(c: Capture)
    ensures IsKind(c) <==> "kind." < c.id
    ensures IsKind(c) ==> c.id == "kind." + c.id[5..] && c.id[5..] != ""
  {
    if IsKind(c) { assert c.id == c.id[..5] + c.id[5..]; }
  }

  lemma {:induction false} LastKindMeaning(cs: seq<Capture>, kind: string)
    ensures (exists b: nat :: LastKind(cs, b, kind)) <==>
      LastSuch(cs, IsKind).Some? && LastSuch(cs, IsKind).value.id[5..] == kind
  {
    var k := LastSuchMeaning(cs, IsKind);
    forall c ensures IsKind(c) <==> "kind." < c.id { KindPrefix(c); }
    if LastSuch(cs, IsKind).Some? {
      KindPrefix(cs[k]);
      assert LastKind(cs, k, cs[k].id[5..]);
    }
    if b: nat :| LastKind(cs, b, kind) {
      assert "kind." < cs[b].id && IsKind(cs[b]) && cs[b].id[5..] == kind;
    }
  }

  lemma {:induction false} LastNameMeaning(cs: seq<Capture>, start: nat, end: nat)
    ensures (exists a: nat :: LastName(cs, a) && cs[a].start == start && cs[a].end == end) <==>
      LastSuch(cs, IsName).Some? && LastSuch(cs, IsName).value.start == start && LastSuch(cs, IsName).value.end == end
  {
    var k := LastSuchMeaning(cs, IsName);
    if LastSuch(cs, IsName).Some? { assert LastName(cs, k); }
    if a: nat :| LastName(cs, a) && cs[a].start == start && cs[a].end == end { assert IsName(cs[a]); }
  }

  lemma ExtractMeaning(m: Match, start: nat, end: nat, kind: string)
    ensures ExtractMatch(m) == Some(MatchInfo(start, end, kind)) <==> Names(m, start, end, kind)
  {
    LastNameMeaning(m.captures, start, end);
    LastKindMeaning(m.captures, kind);
    hide LastSuch, LastName, LastKind;
  }

  method Extract(m: Match, ghost src: string) returns (info: Option<MatchInfo>)
    requires InSource(src, m)
    ensures info == ExtractMatch(m)
    ensures info.Some? ==> info.value.start <= info.value.end <= |src|
  {
    var start: nat, end: nat, kind := 0, 0, "";
    for i := 0 to |m.captures|
      invariant start <= end
      invariant match LastSuch(m.captures[..i], IsName)
        case None => start == end
        case Some(n) => start == n.start && end == n.end
      invariant match LastSuch(m.captures[..i], IsKind)
        case None => kind == ""
        case Some(k) => kind == k.id[5..] && kind != ""
    {
      var cap := m.captures[i];
      assert m.captures[..i + 1][..i] == m.captures[..i];
      assert cap in m.captures;
      if cap.id == "name" {
        start, end := cap.start, cap.end;
      } else if |cap.id| > 5 && cap.id[..5] == "kind." {
        kind := cap.id[5..];
      }
    }
    assert m.captures[..|m.captures|] == m.captures;
    if end - start == 0 || kind == "" { return None; }
    return Some(MatchInfo(start, end, kind));
  }

  // ----- make_line -----

  ghost function MakeLine(src: string, info: MatchInfo, path: string): Option<string>
    requires info.start <= info.end <= |src|
  {
    var name := src[info.start..info.end];
    if !Printable(name) then None
    else Some(PrintTag(name, path, UpToNul(Escape(LineText(src, info.start))), info.kind))
  }

  lemma WhenLineIsMade(src: string, info: MatchInfo, path: string)
    requires info.start <= info.end <= |src|
    ensures MakeLine(src, info, path).Some? <==>
      forall k :: info.start <= k < info.end ==> 0x20 <= src[k] as int <= 0x7e
  {
    var name := src[info.start..info.end];
    if Printable(name) {
      forall k | info.start <= k < info.end ensures 0x20 <= src[k] as int <= 0x7e {
        assert src[k] == name[k - info.start];
      }
    }
  }

  lemma {:induction false} UpToNulOfTerminated(s: string)
    ensures UpToNul(s + "\0") == UpToNul(s)
  {
    if s != "" && s[0] != '\0' {
      UpToNulOfTerminated(s[1..]);
      assert (s + "\0")[1..] == s[1..] + "\0";
    }
  }

  method MakeTagLine(src: string, info: MatchInfo, path: string) returns (line: Option<string>)
    requires info.start <= info.end <= |src|
    ensures line == MakeLine(src, info, path)
    ensures line.Some? <==> forall k :: info.start <= k < info.end ==> 0x20 <= src[k] as int <= 0x7e
  {
    WhenLineIsMade(src, info, path);
    var name := src[info.start..info.end];
    var printable := NameIsPrintable(name);
    if !printable { return None; }
    var s, e := LineRange(src, info.start);
    var pattern := EscapePattern(src[s..e]);
    UpToNulOfTerminated(Escape(src[s..e]));
    return Some(PrintTag(name, path, UpToNul(pattern[..]), info.kind));
  }

  /** Reading a printed line recovers the name, the path, the source line up to its first CR, LF or
      NUL, and the kind: for every source, every match in it, and every path. */
  lemma LineRoundTrip(src: string, info: MatchInfo, path: string)
    requires info.start <= info.end <= |src| && '\t' !in info.kind && MakeLine(src, info, path).Some?
    ensures ReadOutsideIn(MakeLine(src, info, path).value) ==
      Some(Tag(src[info.start..info.end], path, Shown(LineText(src, info.start)), info.kind))
  {
    var name := src[info.start..info.end];
    assert '\t' !in name by { assert !IsPrint('\t'); }
    TruncatedRoundTrip(LineText(src, info.start));
    TagRoundTripAnyPath(name, path, UpToNul(Escape(LineText(src, info.start))), info.kind);
  }

  /** So printing is injective on those fields, across files. */
  lemma PrintingIsInjective(src: string, info: MatchInfo, path: string,
                            src': string, info': MatchInfo, path': string)
    requires info.start <= info.end <= |src| && '\t' !in info.kind
    requires info'.start <= info'.end <= |src'| && '\t' !in info'.kind
    requires MakeLine(src, info, path).Some? && MakeLine(src, info, path) == MakeLine(src', info', path')
    ensures path == path' && info.kind == info'.kind
    ensures src[info.start..info.end] == src'[info'.start..info'.end]
    ensures Shown(LineText(src, info.start)) == Shown(LineText(src', info'.start))
  {
    LineRoundTrip(src, info, path);
    LineRoundTrip(src', info', path');
  }

  /** The left-to-right reader recovers the fields too when the path holds no tab. */
  lemma LeftToRightRoundTrip(src: string, info: MatchInfo, path: string)
    requires info.start <= info.end <= |src| && '\t' !in path && MakeLine(src, info, path).Some?
    ensures ReadTag(MakeLine(src, info, path).value) ==
      Some(Tag(src[info.start..info.end], path, Shown(LineText(src, info.start)), info.kind))
  {
    var name := src[info.start..info.end];
    assert '\t' !in name by { assert !IsPrint('\t'); }
    TruncatedRoundTrip(LineText(src, info.start));
    TagRoundTrip(name, path, UpToNul(Escape(LineText(src, info.start))), info.kind);
  }

  /** For that reader a tab in the path is the one thing that spoils it. */
  lemma WhenLeftToRightWorks(src: string, info: MatchInfo, path: string)
    requires info.start <= info.end <= |src| && MakeLine(src, info, path).Some?
    ensures (ReadTag(MakeLine(src, info, path).value).Some?
             && ReadTag(MakeLine(src, info, path).value).value.path == path) <==> '\t' !in path
  {
    ReadPathHasNoTab(MakeLine(src, info, path).value);
    if '\t' !in path { LeftToRightRoundTrip(src, info, path); }
  }

  /** A line is a C string: `strcmp` and `fputs` see all of it. */
  lemma LineHasNoNul(src: string, info: MatchInfo, path: string)
    requires info.start <= info.end <= |src| && '\0' !in path && '\0' !in info.kind
    requires MakeLine(src, info, path).Some?
    ensures '\0' !in MakeLine(src, info, path).value
  {
    var name := src[info.start..info.end];
    assert '\0' !in name by { assert !IsPrint('\0'); }
    UpToNulOfString(Escape(LineText(src, info.start)));
    PrintTagHasNoNul(name, path, UpToNul(Escape(LineText(src, info.start))), info.kind);
  }

  // ----- parse_file_lines -----

  /** What one match contributes before deduplication. */
  ghost function YieldOf(src: string, path: string, m: Match): Option<Yield>
    requires InSource(src, m)
  {
    match ExtractMatch(m)
    case None => None
    case Some(info) =>
      match MakeLine(src, info, path)
      case None => None
      case Some(line) => Some(Yield(info.start, info.end, m.pattern, line))
  }

  ghost predicate AllInSource(src: string, ms: seq<Match>) {
    forall m :: m in ms ==> InSource(src, m)
  }

  ghost function YieldsOf(src: string, path: string, ms: seq<Match>): seq<Yield>
    requires AllInSource(src, ms)
  {
    if ms == [] then []
    else
      var ys := YieldsOf(src, path, ms[..|ms| - 1]);
      match YieldOf(src, path, ms[|ms| - 1])
      case None => ys
      case Some(y) => ys + [y]
  }

  /** Every line made so far belongs to this source and path. */
  lemma {:induction false} YieldsAreMade(src: string, path: string, ms: seq<Match>)
    requires AllInSource(src, ms)
    ensures |YieldsOf(src, path, ms)| <= |ms|
    ensures forall y :: y in YieldsOf(src, path, ms) ==>
      exists m :: m in ms && YieldOf(src, path, m) == Some(y)
  {
    if ms != [] { YieldsAreMade(src, path, ms[..|ms| - 1]); }
  }

  /** A match that makes a tag: a name of printable bytes, and a kind. */
  ghost predicate Complete(src: string, m: Match, start: nat, end: nat, kind: string) {
    && Names(m, start, end, kind) && start <= end <= |src|
    && forall k :: start <= k < end ==> 0x20 <= src[k] as int <= 0x7e
  }

  /** The line of such a match. */
  ghost function LineOf(src: string, path: string, start: nat, end: nat, kind: string): Option<string>
    requires start <= end <= |src|
  {
    MakeLine(src, MatchInfo(start, end, kind), path)
  }

  ghost predicate MadeFrom(src: string, path: string, m: Match, y: Yield) {
    exists kind :: Complete(src, m, y.start, y.end, kind) && y.pattern == m.pattern
                   && LineOf(src, path, y.start, y.end, kind) == Some(y.line)
  }

  lemma YieldOfMeaning(src: string, path: string, m: Match)
    requires InSource(src, m)
    ensures YieldOf(src, path, m).Some? ==> MadeFrom(src, path, m, YieldOf(src, path, m).value)
    ensures YieldOf(src, path, m).None? ==> forall start, end, kind :: !Complete(src, m, start, end, kind)
  {
    if ExtractMatch(m).Some? {
      var info := ExtractMatch(m).value;
      ExtractMeaning(m, info.start, info.end, info.kind);
      WhenLineIsMade(src, info, path);
      assert YieldOf(src, path, m).Some? ==> Complete(src, m, info.start, info.end, info.kind);
    }
    forall start, end, kind | Complete(src, m, start, end, kind) ensures YieldOf(src, path, m).Some? {
      ExtractMeaning(m, start, end, kind);
      WhenLineIsMade(src, MatchInfo(start, end, kind), path);
    }
  }

  ghost predicate Increasing(ix: seq<nat>) {
    forall p, q :: 0 <= p < q < |ix| ==> ix[p] < ix[q]
  }

  /** `ix` lists the matches that contribute, and `ys` what they contribute. */
  ghost predicate Contributions(src: string, path: string, ms: seq<Match>, ys: seq<Yield>, ix: seq<nat>)
    requires AllInSource(src, ms)
  {
    && |ix| == |ys| && Increasing(ix)
    && (forall p :: 0 <= p < |ix| ==> ix[p] < |ms| && YieldOf(src, path, ms[ix[p]]) == Some(ys[p]))
    && (forall i :: 0 <= i < |ms| && YieldOf(src, path, ms[i]).Some? ==> i in ix)
  }

  lemma {:induction false} MoreContributions(src: string, path: string, ms: seq<Match>, ys: seq<Yield>, ix: seq<nat>,
                                             m: Match)
    requires AllInSource(src, ms) && InSource(src, m) && Contributions(src, path, ms, ys, ix)
    ensures AllInSource(src, ms + [m])
    ensures match YieldOf(src, path, m)
      case None => Contributions(src, path, ms + [m], ys, ix)
      case Some(y) => Contributions(src, path, ms + [m], ys + [y], ix + [|ms|])
  {
    hide YieldOf, InSource;
    var more := ix + [|ms|];
    assert more[|ix|] == |ms|;
    assert forall k :: k in ix ==> k in more;
  }

  lemma {:induction false} YieldsAreContributions(src: string, path: string, ms: seq<Match>) returns (ix: seq<nat>)
    requires AllInSource(src, ms)
    ensures Contributions(src, path, ms, YieldsOf(src, path, ms), ix)
  {
    ix := [];
    if ms != [] {
      var init, last := ms[..|ms| - 1], ms[|ms| - 1];
      assert ms == init + [last];
      var before := YieldsAreContributions(src, path, init);
      MoreContributions(src, path, init, YieldsOf(src, path, init), before, last);
      hide Contributions, YieldOf, InSource;
      ix := if YieldOf(src, path, last).Some? then before + [|init|] else before;
    }
  }

  /** The contributions are those of the complete matches, each once and in their order. */
  lemma {:induction false} YieldsMeaning(src: string, path: string, ms: seq<Match>) returns (ix: seq<nat>)
    requires AllInSource(src, ms)
    ensures |ix| == |YieldsOf(src, path, ms)| && Increasing(ix)
    ensures forall p :: 0 <= p < |ix| ==> ix[p] < |ms| && MadeFrom(src, path, ms[ix[p]], YieldsOf(src, path, ms)[p])
    ensures forall i, start, end, kind ::
      0 <= i < |ms| && Complete(src, ms[i], start, end, kind) ==> i in ix
  {
    ix := YieldsAreContributions(src, path, ms);
    hide YieldsOf, YieldOf, MadeFrom, Complete, Increasing;
    forall i | 0 <= i < |ms|
      ensures InSource(src, ms[i])
      ensures YieldOf(src, path, ms[i]).Some? ==> MadeFrom(src, path, ms[i], YieldOf(src, path, ms[i]).value)
      ensures YieldOf(src, path, ms[i]).None? ==> forall start, end, kind :: !Complete(src, ms[i], start, end, kind)
    {
      assert ms[i] in ms;
      YieldOfMeaning(src, path, ms[i]);
    }
  }

  /** Every complete match among the first 4096 has a line in the file's lines: its own, or the line of
      another of them that names the same bytes with a higher pattern, or earlier with the same. */
  lemma {:induction false} MatchHasLine(src: string, path: string, ms: seq<Match>, i: nat,
                                        start: nat, end: nat, kind: string)
    returns (line: string, j: nat, winner: string)
    requires AllInSource(src, ms) && i < |ms| && i < 4096 && Complete(src, ms[i], start, end, kind)
    ensures line in DedupLines(YieldsOf(src, path, Capped(ms)))
    ensures j < |ms| && j < 4096 && Complete(src, ms[j], start, end, winner)
    ensures ms[j].pattern > ms[i].pattern || (ms[j].pattern == ms[i].pattern && j <= i)
    ensures LineOf(src, path, start, end, winner) == Some(line)
  {
    var capped := Capped(ms);
    assert AllInSource(src, capped) && capped[i] == ms[i] && |capped| <= 4096;
    hide InSource, Complete, MakeLine, YieldsOf, Capped, DedupLines;
    var ys := YieldsOf(src, path, capped);
    var ix := YieldsMeaning(src, path, capped);
    var k: nat :| k < |ix| && ix[k] == i;
    SameRange(src, path, ms[i], start, end, kind, ys[k]);
    var p, b := EveryMatchHasALine(ys, k);
    j, line := ix[b], ys[b].line;
    LowerIndex(ix, b, k);
    assert MadeFrom(src, path, capped[j], ys[b]);
    AtCapped(ms, j);
    winner :| Complete(src, ms[j], ys[b].start, ys[b].end, winner) && ys[b].pattern == ms[j].pattern
              && LineOf(src, path, ys[b].start, ys[b].end, winner) == Some(line);
  }

  lemma AtCapped(ms: seq<Match>, j: nat)
    ensures j < |Capped(ms)| <==> j < |ms| && j < 4096
    ensures j < |Capped(ms)| ==> Capped(ms)[j] == ms[j]
  {
  }

  lemma LowerIndex(ix: seq<nat>, b: nat, k: nat)
    requires Increasing(ix) && b < |ix| && k < |ix|
    ensures b <= k ==> ix[b] <= ix[k]
  {
  }

  lemma SameRange(src: string, path: string, m: Match, start: nat, end: nat, kind: string, y: Yield)
    requires Complete(src, m, start, end, kind) && MadeFrom(src, path, m, y)
    ensures y.start == start && y.end == end && y.pattern == m.pattern
  {
    var other :| Complete(src, m, y.start, y.end, other);
    ExtractMeaning(m, start, end, kind);
    ExtractMeaning(m, y.start, y.end, other);
  }

  /** Whether a complete match makes a line depends on its range alone: so a range in the table never
      meets an unprintable match, and raising its pattern early does no harm. */
  lemma RepeatedRangeIsPrintable(src: string, path: string, ms: seq<Match>, info: MatchInfo)
    requires AllInSource(src, ms) && info.start <= info.end <= |src|
    ensures (info.start, info.end) in Ranges(YieldsOf(src, path, ms)) ==> MakeLine(src, info, path).Some?
  {
    var ys := YieldsOf(src, path, ms);
    if (info.start, info.end) in Ranges(ys) {
      RangesAreDistinct(ys);
      var i :| 0 <= i < |ys| && ys[i].Range() == (info.start, info.end);
      assert ys[i] in ys;
      YieldsAreMade(src, path, ms);
      var m :| m in ms && YieldOf(src, path, m) == Some(ys[i]);
    }
  }

  function Capped(ms: seq<Match>): seq<Match> {
    if |ms| <= MAX_MATCHES_PER_FILE then ms else ms[..MAX_MATCHES_PER_FILE]
  }

  ghost function MadeBy(src: string, path: string, pattern: nat, info: MatchInfo): seq<Yield>
    requires info.start <= info.end <= |src|
  {
    match MakeLine(src, info, path)
    case None => []
    case Some(line) => [Yield(info.start, info.end, pattern, line)]
  }

  lemma YieldsSnoc(src: string, path: string, done: seq<Match>, m: Match)
    requires AllInSource(src, done) && InSource(src, m)
    ensures AllInSource(src, done + [m])
    ensures YieldsOf(src, path, done + [m]) ==
      match ExtractMatch(m)
      case None => YieldsOf(src, path, done)
      case Some(info) => YieldsOf(src, path, done) + MadeBy(src, path, m.pattern, info)
  {
    assert (done + [m])[..|done|] == done;
  }

  /** One turn of the match loop on a complete match; `made` is what the match contributes. */
  method AppendMatch(src: string, path: string, pattern: nat, info: MatchInfo, seen: Dedup, vec: LineVec,
                     ghost before: seq<string>, ghost ys: seq<Yield>)
    returns (ghost made: seq<Yield>)
    requires seen.Valid() && vec.Valid() && vec.len <= MAX_DOUBLED_CAPACITY
    requires info.start <= info.end <= |src|
    requires InStep(seen.Entries(), vec.Items(), before, ys)
    requires (info.start, info.end) in Ranges(ys) ==> MakeLine(src, info, path).Some?
    modifies seen, seen.entries, vec, vec.items
    ensures seen.Valid() && vec.Valid() && (vec.items == old(vec.items) || fresh(vec.items))
    ensures vec.len <= old(vec.len) + 1
    ensures made == MadeBy(src, path, pattern, info)
    ensures InStep(seen.Entries(), vec.Items(), before, ys + made)
  {
    hide InStep;
    var line: Option<string>;
    ghost var es, items, text := seen.Entries(), vec.Items(), MakeLine(src, info, path);
    ghost var y := Yield(info.start, info.end, pattern, if text.Some? then text.value else "");
    made := if text.Some? then [y] else [];
    ghost var known := !Absent(es, info.start, info.end);
    ghost var k := if known then FirstFound(es, info.start, info.end) else 0;
    if known {
      if pattern <= es[k].pattern { ClaimKnownDrop(es, items, before, ys, y, k); }
      else { ClaimKnownRaise(es, items, before, ys, y, k); }
    } else { ClaimUnknown(es, items, before, ys, y); }
    var survives, slot := seen.Claim(info.start, info.end, pattern, vec.len);
    if !survives { return; }
    line := MakeTagLine(src, info, path);
    if line == None {
      assert ys + made == ys;
      return;
    }
    if slot == vec.len {
      var idx := vec.len;
      var pushed := vec.Push(line.value);
      seen.Track(info.start, info.end, pattern, idx);
    } else {
      vec.Replace(slot, line.value);
    }
  }

  /** Between turns of the match loop, after the matches `done`. */
  ghost predicate Ready(src: string, path: string, done: seq<Match>, seen: Dedup, vec: LineVec, before: seq<string>)
    reads seen, seen.entries, vec, vec.items
  {
    && AllInSource(src, done) && seen.Valid() && vec.Valid()
    && vec.len <= |before| + |done|
    && InStep(seen.Entries(), vec.Items(), before, YieldsOf(src, path, done))
  }

  /** One turn of the match loop, for the match that follows `done`. */
  method Turn(src: string, path: string, m: Match, seen: Dedup, vec: LineVec,
              ghost before: seq<string>, ghost done: seq<Match>)
    requires InSource(src, m) && |before| + |done| <= MAX_DOUBLED_CAPACITY
    requires Ready(src, path, done, seen, vec, before)
    modifies seen, seen.entries, vec, vec.items
    ensures vec.items == old(vec.items) || fresh(vec.items)
    ensures Ready(src, path, done + [m], seen, vec, before)
  {
    YieldsSnoc(src, path, done, m);
    hide InStep, YieldsOf, ExtractMatch, MadeBy, MakeLine, Ranges;
    var info := Extract(m, src);
    if info.Some? {
      RepeatedRangeIsPrintable(src, path, done, info.value);
      ghost var made := AppendMatch(src, path, m.pattern, info.value, seen, vec, before, YieldsOf(src, path, done));
    }
  }

  /** The match loop.  Lines of earlier files are untouched, and this file adds exactly the lines the
      rule gives for its first MAX_MATCHES_PER_FILE matches. */
  method AppendMatches(src: string, path: string, ms: seq<Match>, vec: LineVec)
    requires AllInSource(src, ms)
    requires vec.Valid() && vec.len + MAX_MATCHES_PER_FILE <= MAX_DOUBLED_CAPACITY
    modifies vec, vec.items
    ensures vec.Valid() && (vec.items == old(vec.items) || fresh(vec.items))
    ensures vec.Items() == old(vec.Items()) + DedupLines(YieldsOf(src, path, Capped(ms)))
  {
    var seen := new Dedup();
    ghost var before := vec.Items();
    StartsInStep(before);
    assert Ready(src, path, [], seen, vec, before);
    hide Ready, DedupLines, YieldsOf, InSource;
    var examined: nat := 0;
    var n: nat := 0;
    while n < |ms|
      invariant examined == n <= |ms| && n <= MAX_MATCHES_PER_FILE
      invariant fresh(seen) && fresh(seen.entries) && (vec.items == old(vec.items) || fresh(vec.items))
      invariant Ready(src, path, ms[..n], seen, vec, before)
    {
      examined := examined + 1;
      if examined > MAX_MATCHES_PER_FILE { break; }
      OneMore(ms, n);
      assert ms[n] in ms;
      Turn(src, path, ms[n], seen, vec, before, ms[..n]);
      n := n + 1;
    }
    assert ms[..n] == Capped(ms);
    FileIsDone(src, path, ms[..n], seen, vec, before);
  }

  lemma FileIsDone(src: string, path: string, done: seq<Match>, seen: Dedup, vec: LineVec, before: seq<string>)
    requires Ready(src, path, done, seen, vec, before) && AllInSource(src, done)
    ensures vec.Valid() && vec.Items() == before + DedupLines(YieldsOf(src, path, done))
  {
    ItemsInStep(seen.Entries(), vec.Items(), before, YieldsOf(src, path, done));
  }

  /** One file as the worker meets it: whether the parser takes the language, the content if it can be
      read, whether parsing succeeds, and the matches. */
  datatype SourceFile = SourceFile(accepted: bool, content: Option<string>, parses: bool, matches: seq<Match>)

  /** Capture names come from the queries of src/queries.h: no tab and no NUL in them. */
  ghost predicate PlainCaptures(ms: seq<Match>) {
    forall m, c :: m in ms && c in m.captures ==> '\t' !in c.id && '\0' !in c.id
  }

  ghost predicate WellFormed(f: SourceFile) {
    PlainCaptures(f.matches) && (f.content.Some? ==> AllInSource(f.content.value, f.matches))
  }

  /** The file is parsed at all; `entry` says that its language was loaded. */
  ghost predicate IsParsed(path: string, entry: bool, f: SourceFile) {
    && FindExtension(path).Some? && entry && f.accepted
    && f.content.Some? && |f.content.value| <= MAX_FILE_SIZE && !HasLongRun(f.content.value)
    && f.parses
  }

  /** The seven ways a file is skipped, with the limits as numbers. */
  lemma WhenFileIsSkipped(path: string, entry: bool, f: SourceFile)
    ensures !IsParsed(path, entry, f) <==>
      || FindExtension(path) == None || !entry || !f.accepted || f.content == None || !f.parses
      || |f.content.value| > 2097152
      || exists i: nat, j: nat :: i + 4096 < j <= |f.content.value| && '\n' !in f.content.value[i..j]
  {
    if f.content.Some? {
      var src := f.content.value;
      forall i: nat, j: nat | i + 4096 < j <= |src| ensures NewlineFree(src, i, j) <==> '\n' !in src[i..j] {
        if '\n' !in src[i..j] {
          forall k | i <= k < j ensures src[k] != '\n' { assert src[k] == src[i..j][k - i]; }
        }
      }
    }
  }

  ghost function FileLines(path: string, entry: bool, f: SourceFile): seq<string>
    requires WellFormed(f)
  {
    if IsParsed(path, entry, f) then DedupLines(YieldsOf(f.content.value, path, Capped(f.matches))) else []
  }

  method ParseFileLines(path: string, entry: bool, f: SourceFile, vec: LineVec) returns (status: int)
    requires WellFormed(f)
    requires vec.Valid() && vec.len + MAX_MATCHES_PER_FILE <= MAX_DOUBLED_CAPACITY
    modifies vec, vec.items
    ensures vec.Valid() && (vec.items == old(vec.items) || fresh(vec.items))
    ensures vec.Items() == old(vec.Items()) + FileLines(path, entry, f)
    ensures status == if IsParsed(path, entry, f) then 0 else 1
    ensures status == 1 <==>
      || FindExtension(path) == None || !entry || !f.accepted || f.content == None || !f.parses
      || |f.content.value| > 2097152
      || exists i: nat, j: nat :: i + 4096 < j <= |f.content.value| && '\n' !in f.content.value[i..j]
    ensures status == 1 ==> vec.Items() == old(vec.Items())
  {
    WhenFileIsSkipped(path, entry, f);
    if FindExtension(path) == None { return 1; }
    if !entry { return 1; }
    if !f.accepted { return 1; }
    if f.content == None || |f.content.value| > MAX_FILE_SIZE { return 1; }
    var src := f.content.value;
    var long := HasLongLine(src);
    if long { return 1; }
    if !f.parses { return 1; }
    AppendMatches(src, path, f.matches, vec);
    return 0;
  }

  lemma KindIsPlain(ms: seq<Match>, j: nat, start: nat, end: nat, kind: string)
    requires PlainCaptures(ms) && j < |ms| && Names(ms[j], start, end, kind)
    ensures '\t' !in kind && '\0' !in kind
  {
    var b: nat :| LastKind(ms[j].captures, b, kind);
    var c := ms[j].captures[b];
    assert ms[j] in ms && c in ms[j].captures;
    assert forall x :: x in kind ==> x in c.id;
  }

  lemma CompleteIsNamed(src: string, m: Match, start: nat, end: nat, kind: string)
    requires Complete(src, m, start, end, kind)
    ensures Names(m, start, end, kind) && start <= end <= |src|
  {
  }

  /** Each line of a file is printed for one of its first 4096 matches. */
  lemma {:induction false} LineComesFromMatch(path: string, entry: bool, f: SourceFile, line: string)
    returns (j: nat, start: nat, end: nat, kind: string)
    requires WellFormed(f) && line in FileLines(path, entry, f)
    ensures IsParsed(path, entry, f) && j < |f.matches| && j < 4096
    ensures Complete(f.content.value, f.matches[j], start, end, kind) && '\t' !in kind && '\0' !in kind
    ensures LineOf(f.content.value, path, start, end, kind) == Some(line)
  {
    var src, ms := f.content.value, Capped(f.matches);
    assert AllInSource(src, ms);
    var ys := YieldsOf(src, path, ms);
    hide InSource, Complete, MakeLine, YieldsOf, Capped, DedupLines, PlainCaptures;
    var b := EveryLineHasAMatch(ys, line);
    var ix := YieldsMeaning(src, path, ms);
    j, start, end := ix[b], ys[b].start, ys[b].end;
    AtCapped(f.matches, j);
    assert MadeFrom(src, path, ms[j], ys[b]);
    kind :| Complete(src, ms[j], start, end, kind) && LineOf(src, path, start, end, kind) == Some(line);
    CompleteIsNamed(src, ms[j], start, end, kind);
    KindIsPlain(f.matches, j, start, end, kind);
  }

  /** A line names the file it came from: the fact that keeps the workers' batches disjoint. */
  lemma LineNamesItsPath(path: string, entry: bool, f: SourceFile, line: string)
    requires WellFormed(f) && line in FileLines(path, entry, f)
    ensures ReadOutsideIn(line).Some? && ReadOutsideIn(line).value.path == path
  {
    var j, start, end, kind := LineComesFromMatch(path, entry, f, line);
    LineRoundTrip(f.content.value, MatchInfo(start, end, kind), path);
  }

  /** No line of a file holds a NUL, so `strcmp` compares whole lines in the sort and in the merge. */
  lemma FileLinesHaveNoNul(path: string, entry: bool, f: SourceFile, line: string)
    requires WellFormed(f) && '\0' !in path && line in FileLines(path, entry, f)
    ensures '\0' !in line
  {
    var j, start, end, kind := LineComesFromMatch(path, entry, f, line);
    LineHasNoNul(f.content.value, MatchInfo(start, end, kind), path);
  }

  /** `line` reads back as the tag of match `j`: its name, its file, the source line, its kind. */
  ghost predicate IsTagOf(line: string, path: string, f: SourceFile, j: nat, start: nat, end: nat, kind: string) {
    && f.content.Some? && j < |f.matches| && j < 4096
    && Complete(f.content.value, f.matches[j], start, end, kind)
    && ReadOutsideIn(line) ==
         Some(Tag(f.content.value[start..end], path, Shown(LineText(f.content.value, start)), kind))
  }

  /** A file's lines are tags of its matches ... */
  lemma {:induction false} LineIsTag(path: string, entry: bool, f: SourceFile, line: string)
    returns (j: nat, start: nat, end: nat, kind: string)
    requires WellFormed(f) && line in FileLines(path, entry, f)
    ensures IsParsed(path, entry, f) && IsTagOf(line, path, f, j, start, end, kind)
  {
    j, start, end, kind := LineComesFromMatch(path, entry, f, line);
    LineRoundTrip(f.content.value, MatchInfo(start, end, kind), path);
  }

  /** ... and each complete match among the first 4096 of a file that is not skipped has its tag there,
      or that of another match of the same bytes with a higher pattern, or earlier with the same. */
  lemma {:induction false} MatchHasTag(path: string, entry: bool, f: SourceFile, i: nat,
                                       start: nat, end: nat, kind: string)
    returns (line: string, j: nat, winner: string)
    requires WellFormed(f) && IsParsed(path, entry, f)
    requires i < |f.matches| && i < 4096 && Complete(f.content.value, f.matches[i], start, end, kind)
    ensures line in FileLines(path, entry, f) && IsTagOf(line, path, f, j, start, end, winner)
    ensures f.matches[j].pattern > f.matches[i].pattern || (f.matches[j].pattern == f.matches[i].pattern && j <= i)
  {
    line, j, winner := MatchHasLine(f.content.value, path, f.matches, i, start, end, kind);
    KindIsPlain(f.matches, j, start, end, winner);
    LineRoundTrip(f.content.value, MatchInfo(start, end, winner), path);
  }
}
