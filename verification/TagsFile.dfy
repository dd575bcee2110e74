/** From the command line to the tags file: discovery, parsing, the pipeline and the merge together. */
module TagsFile {
  import opened Optional
  import opened Languages
  import opened SortedLines
  import opened Deduplication
  import opened LineVectors
  import opened Parsing
  import opened Discovery
  import opened Pipeline
  import opened PipelineOutput
  import opened Schedules

  const QUEUE_CAPACITY: nat := 512

  /** The files on disk as the parser meets them, and which languages load. */
  datatype World = World(file: string -> SourceFile, loads: string -> bool)

  ghost predicate WorldOk(w: World) {
    forall p: string :: WellFormed(w.file(p))
  }

  /** `lang_cache_get` succeeds for this path. */
  ghost predicate EntryFound(w: World, path: string) {
    match LanguageOf(path)
    case None => false
    case Some(name) => w.loads(name)
  }

  /** Everything one file contributes: a function of its path. */
  ghost function LinesOf(w: World, path: string): seq<string>
    requires WorldOk(w)
  {
    FileLines(path, EntryFound(w, path), w.file(path))
  }

  /** One command-line operand and the tree under it. */
  datatype Root = Root(path: string, tree: Node)

  /** No operand means the current directory. */
  function Operands(roots: seq<Root>, here: Node): (rs: seq<Root>)
    ensures rs != []
  {
    if roots == [] then [Root(".", here)] else roots
  }

  ghost function RootPaths(roots: seq<Root>): seq<string> {
    if roots == [] then [] else RootPaths(roots[..|roots| - 1]) + Walk(roots[|roots| - 1].path, roots[|roots| - 1].tree)
  }

  /** The paths main puts, in order. */
  ghost function MainPaths(roots: seq<Root>, here: Node): seq<string> {
    RootPaths(Operands(roots, here))
  }

  method EnqueueAll(roots: seq<Root>, here: Node) returns (queued: seq<string>)
    ensures queued == MainPaths(roots, here)
    ensures queued == if roots == [] then Walk(".", here) else RootPaths(roots)
  {
    if |roots| == 0 {
      queued := EnqueuePath(".", here);
      OneRoot(Root(".", here));
      assert queued == MainPaths(roots, here);
      return;
    }
    queued := [];
    for i := 0 to |roots|
      invariant queued == RootPaths(roots[..i])
    {
      assert roots[..i + 1][..i] == roots[..i];
      var more := EnqueuePath(roots[i].path, roots[i].tree);
      queued := queued + more;
    }
    assert roots[..|roots|] == roots;
  }

  lemma {:induction false} OneRoot(r: Root)
    ensures RootPaths([r]) == Walk(r.path, r.tree)
  {
    assert [r][..0] == [];
    assert [] + Walk(r.path, r.tree) == Walk(r.path, r.tree);
  }

  ghost function Program(w: World, paths: seq<string>, jobs: nat): Config
    requires WorldOk(w)
  {
    Config(jobs, QUEUE_CAPACITY, paths, p => LinesOf(w, p))
  }

  // ----- One worker -----

  ghost function LinesOfAll(w: World, paths: seq<string>): seq<string>
    requires WorldOk(w)
  {
    if paths == [] then []
    else LinesOfAll(w, paths[..|paths| - 1]) + LinesOf(w, paths[|paths| - 1])
  }

  lemma {:induction false} FileLinesBound(path: string, entry: bool, f: SourceFile)
    requires WellFormed(f)
    ensures |FileLines(path, entry, f)| <= MAX_MATCHES_PER_FILE
  {
    if IsParsed(path, entry, f) {
      var ys := YieldsOf(f.content.value, path, Capped(f.matches));
      YieldsAreMade(f.content.value, path, Capped(f.matches));
      KeptBound(ys);
    }
  }

  lemma {:induction false} KeptBound(ys: seq<Yield>)
    ensures |Kept(ys)| <= |ys|
  {
    if ys != [] { KeptBound(ys[..|ys| - 1]); }
  }

  /** The worker's body for the paths `io_queue_get` gave it before NULL; `files[k]` and `entries[k]`
      are what it found for the k-th of them. */
  method RunWorker(taken: seq<string>, files: seq<SourceFile>, entries: seq<bool>, ghost w: World)
    returns (vec: LineVec)
    requires WorldOk(w) && |files| == |entries| == |taken|
    requires forall k :: 0 <= k < |taken| ==> files[k] == w.file(taken[k]) && entries[k] == EntryFound(w, taken[k])
    requires (|taken| + 1) * MAX_MATCHES_PER_FILE <= MAX_DOUBLED_CAPACITY
    ensures vec.Valid() && vec.Items() == SortUniq(LinesOfAll(w, taken))
  {
    vec := new LineVec(128);
    for k := 0 to |taken|
      invariant vec.Valid() && fresh(vec) && fresh(vec.items)
      invariant vec.Items() == LinesOfAll(w, taken[..k]) && vec.len <= k * MAX_MATCHES_PER_FILE
    {
      assert taken[..k + 1][..k] == taken[..k];
      FileLinesBound(taken[k], entries[k], files[k]);
      var status := ParseFileLines(taken[k], entries[k], files[k], vec);
    }
    assert taken[..|taken|] == taken;
    vec.SortAndUnique();
  }

  /** Paths are C strings, and so is every line of a vector: `strcmp` sees whole lines. */
  lemma {:induction false} VectorsAreStrings(w: World, taken: seq<string>, line: string)
    requires WorldOk(w) && forall p :: p in taken ==> '\0' !in p
    requires line in LinesOfAll(w, taken)
    ensures '\0' !in line
  {
    var last := taken[|taken| - 1];
    if line in LinesOf(w, last) {
      FileLinesHaveNoNul(last, EntryFound(w, last), w.file(last), line);
    } else {
      VectorsAreStrings(w, taken[..|taken| - 1], line);
    }
  }

  /** The paths worker `i` took, in order. */
  ghost function TakenBy(paths: seq<string>, takers: seq<nat>, i: nat): seq<string>
    requires |takers| <= |paths|
  {
    if takers == [] then []
    else
      var last := |takers| - 1;
      TakenBy(paths, takers[..last], i) + if takers[last] == i then [paths[last]] else []
  }

  /** The method computes the vector that the step machine gives worker `i`. */
  lemma {:induction false} WorkerVectorAgrees(w: World, paths: seq<string>, jobs: nat, takers: seq<nat>, i: nat)
    requires WorldOk(w) && |takers| <= |paths|
    ensures VecOf(Program(w, paths, jobs), takers, i) == LinesOfAll(w, TakenBy(paths, takers, i))
  {
    if takers != [] {
      var last := |takers| - 1;
      WorkerVectorAgrees(w, paths, jobs, takers[..last], i);
      var before := TakenBy(paths, takers[..last], i);
      if takers[last] == i {
        assert (before + [paths[last]])[..|before|] == before;
      } else {
        assert before + [] == before;
      }
    }
  }

  // ----- The whole program -----

  /** A line names its path. */
  lemma {:induction false} LinesNamePaths(w: World, paths: seq<string>, jobs: nat)
    requires WorldOk(w)
    ensures LinesNameTheirPath(Program(w, paths, jobs))
  {
    var c := Program(w, paths, jobs);
    forall p, q, l | p in c.paths && q in c.paths && l in c.lines(p) && l in c.lines(q) ensures p == q {
      LineNamesItsPath(p, EntryFound(w, p), w.file(p), l);
      LineNamesItsPath(q, EntryFound(w, q), w.file(q), l);
    }
  }

  /** `f` is the path of a regular file under an operand, or under `.` when there is none. */
  ghost predicate Reached(roots: seq<Root>, here: Node, f: string) {
    exists r, names ::
      && (if roots == [] then r == Root(".", here) else r in roots)
      && FileAt(r.tree, names) && f == JoinPath(r.path, names)
  }

  /** ... without an ignored component, and in a known language. */
  ghost predicate Indexed(roots: seq<Root>, here: Node, f: string) {
    && Reached(roots, here, f)
    && !HasComponent(f, ".git") && !HasComponent(f, "build") && !HasComponent(f, "dist")
    && exists name :: LanguageOf(f) == Some(name)
  }

  ghost predicate IndexedHave(w: World, roots: seq<Root>, here: Node, l: string)
    requires WorldOk(w)
  {
    exists f :: Indexed(roots, here, f) && l in LinesOf(w, f)
  }

  lemma {:induction false} RootPathsMeaning(rs: seq<Root>, f: string)
    ensures f in RootPaths(rs) <==> exists r :: r in rs && f in Walk(r.path, r.tree)
  {
    if rs != [] {
      var init, last := rs[..|rs| - 1], rs[|rs| - 1];
      assert rs == init + [last];
      RootPathsMeaning(init, f);
    }
  }

  lemma {:induction false} MainPathsMeaning(roots: seq<Root>, here: Node, f: string)
    ensures f in MainPaths(roots, here) <==> Indexed(roots, here, f)
  {
    var rs := Operands(roots, here);
    RootPathsMeaning(rs, f);
    hide RootPaths, Walk, FileAt, HasComponent, LanguageOf;
    if r :| r in rs && f in Walk(r.path, r.tree) {
      QueuedMeaning(r.path, r.tree, f);
      var names :| FileAt(r.tree, names) && f == JoinPath(r.path, names);
      assert Reached(roots, here, f);
    }
    if Indexed(roots, here, f) {
      var r, names :|
        && (if roots == [] then r == Root(".", here) else r in roots)
        && FileAt(r.tree, names) && f == JoinPath(r.path, names);
      QueuedMeaning(r.path, r.tree, f);
      assert r in rs;
    }
  }

  lemma {:induction false} FilesOfOperands(w: World, roots: seq<Root>, here: Node, jobs: nat, l: string)
    requires WorldOk(w)
    ensures SomeFileHas(Program(w, MainPaths(roots, here), jobs), l) <==> IndexedHave(w, roots, here, l)
  {
    var paths := MainPaths(roots, here);
    hide LinesOf, MainPaths, Indexed;
    if j :| 0 <= j < |paths| && l in LinesOf(w, paths[j]) { MainPathsMeaning(roots, here, paths[j]); }
    if f :| Indexed(roots, here, f) && l in LinesOf(w, f) {
      MainPathsMeaning(roots, here, f);
      var j :| 0 <= j < |paths| && paths[j] == f;
      assert l in LinesOf(w, paths[j]);
    }
  }

  /** For any operands that reach no line-yielding file by the same path twice, or with one worker,
      every complete run writes a strictly increasing listing. */
  lemma {:induction false} OutputIsStrict(w: World, roots: seq<Root>, here: Node, jobs: nat, run: seq<Action>)
    requires WorldOk(w) && jobs >= 1
    requires jobs == 1 || NoRepeats(Program(w, MainPaths(roots, here), jobs))
    requires FinishedRun(Program(w, MainPaths(roots, here), jobs), run)
    ensures StrictlySorted(Output(Program(w, MainPaths(roots, here), jobs), run))
  {
    var c := Program(w, MainPaths(roots, here), jobs);
    hide FinishedRun, NoRepeats, NoSharedLine, MainPaths, LinesOf, SomeFileHas, Output;
    LinesNamePaths(w, MainPaths(roots, here), jobs);
    SharingIsRepeating(c);
    OutputIsListing(c, run);
  }

  /** On every complete run the lines written are those of the indexed files. */
  lemma {:induction false} OutputHasIndexedLines(w: World, roots: seq<Root>, here: Node, jobs: nat,
                                                 run: seq<Action>, l: string)
    requires WorldOk(w) && jobs >= 1 && FinishedRun(Program(w, MainPaths(roots, here), jobs), run)
    ensures l in Output(Program(w, MainPaths(roots, here), jobs), run) <==> IndexedHave(w, roots, here, l)
  {
    hide FinishedRun, MainPaths, LinesOf, SomeFileHas, IndexedHave, Output;
    OutputHasTheLines(Program(w, MainPaths(roots, here), jobs), run, l);
    FilesOfOperands(w, roots, here, jobs, l);
  }

  /** One operand, or none, never reaches a file twice. */
  lemma {:induction false} OneOperandHasNoRepeats(w: World, roots: seq<Root>, here: Node, jobs: nat)
    requires WorldOk(w) && |roots| <= 1 && TreeOk(Operands(roots, here)[0].tree)
    ensures NoRepeats(Program(w, MainPaths(roots, here), jobs))
  {
    var r := Operands(roots, here)[0];
    assert Operands(roots, here) == [r];
    OneRoot(r);
    WalkIsDistinct(r.path, r.tree);
  }

  /** For any operands: exactly when no file that yields a line is reached by the same path twice, or
      there is one worker. */
  lemma {:induction false} WhenPipelineIsSafe(w: World, roots: seq<Root>, here: Node, jobs: nat)
    requires WorldOk(w) && jobs >= 1
    ensures var c := Program(w, MainPaths(roots, here), jobs);
      ScheduleIndependent(c) <==> jobs == 1 || NoRepeats(c)
  {
    LinesNamePaths(w, MainPaths(roots, here), jobs);
    SharingIsRepeating(Program(w, MainPaths(roots, here), jobs));
    WhenScheduleIsInvisible(Program(w, MainPaths(roots, here), jobs));
  }

  // ----- Naming a file twice -----

  const AC_SOURCE: string := "int f;"
  const AC_MATCH: Match := Match([Capture("name", 4, 5), Capture("kind.variable", 0, 6)], 0)
  const AC_FILE: SourceFile := SourceFile(true, Some(AC_SOURCE), true, [AC_MATCH])

  /** a.c holds the text `int f;`, in which the query finds the variable f; there is no other file. */
  ghost function OneFileWorld(): World {
    World(p => if p == "a.c" then AC_FILE else SourceFile(true, None, false, []), _ => true)
  }

  lemma LanguageOfAc()
    ensures LanguageOf("a.c") == Some("c")
  {
    ExtensionMeaning("a", "c");
    assert "a" + "." + "c" == "a.c";
    assert EXT_LANG[0] == ("c", "c");
  }

  lemma AcIsWellFormed()
    ensures AC_MATCH.captures == [Capture("name", 4, 5)] + [Capture("kind.variable", 0, 6)]
    ensures InSource(AC_SOURCE, AC_MATCH) && WellFormed(AC_FILE)
  {
    forall c | c in AC_MATCH.captures ensures '\t' !in c.id && '\0' !in c.id && c.start <= c.end <= |AC_SOURCE| {
      assert c == AC_MATCH.captures[0] || c == AC_MATCH.captures[1];
    }
  }

  lemma OneFileWorldIsOk()
    ensures WorldOk(OneFileWorld()) && OneFileWorld().file("a.c") == AC_FILE && OneFileWorld().loads("c")
  {
    AcIsWellFormed();
    hide AC_FILE;
  }

  lemma AcMatchIsComplete()
    ensures ExtractMatch(AC_MATCH) == Some(MatchInfo(4, 5, "variable"))
  {
    var n, k := Capture("name", 4, 5), Capture("kind.variable", 0, 6);
    AcIsWellFormed();
    assert AC_MATCH.captures[..1] == [n] && [n][..0] == [];
    assert LastSuch([n], IsName) == Some(n);
    assert !IsName(k) && IsKind(k);
    assert k.id[5..] == "variable";
  }

  lemma {:induction false} AcYieldsALine()
    ensures WorldOk(OneFileWorld()) && LinesOf(OneFileWorld(), "a.c") != []
  {
    OneFileWorldIsOk();
    LanguageOfAc();
    AcIsWellFormed();
    AcHasAYield();
    hide OneFileWorld, YieldsOf;
    assert Capped(AC_FILE.matches) == AC_FILE.matches == [AC_MATCH];
  }

  lemma {:induction false} AcHasAYield()
    ensures AllInSource(AC_SOURCE, [AC_MATCH]) && Kept(YieldsOf(AC_SOURCE, "a.c", [AC_MATCH])) != []
  {
    AcIsWellFormed();
    AcMatchIsComplete();
    assert AC_SOURCE[4..5] == "f";
    assert [AC_MATCH][..0] == [];
    var y := YieldOf(AC_SOURCE, "a.c", AC_MATCH).value;
    hide MakeLine, YieldOf, ExtractMatch;
    assert YieldsOf(AC_SOURCE, "a.c", [AC_MATCH]) == [y];
    hide YieldsOf;
    assert [y][..0] == [];
  }

  lemma {:induction false} AcIsAccepted()
    ensures Walk("a.c", Regular) == ["a.c"]
  {
    LanguageOfAc();
    ComponentsOfName("a.c");
    assert "a.c" !in IGNORED_FILES;
    hide LanguageOf, Components;
  }

  lemma {:induction false} AcTwiceIsPutTwice(here: Node)
    ensures MainPaths([Root("a.c", Regular), Root("a.c", Regular)], here) == ["a.c", "a.c"]
  {
    var r := Root("a.c", Regular);
    AcIsAccepted();
    hide Walk;
    assert [r, r][..1] == [r];
    OneRoot(r);
    assert ["a.c"] + ["a.c"] == ["a.c", "a.c"];
  }
}
