/** Finding the files to index (src/discover.c): the ignore test and the explicit-stack walk. */
module Discovery {
  import opened Optional
  import opened Sums
  import opened Sequences
  import opened Languages

  const IGNORED_FILES: seq<string> := [".git", "build", "dist"]

  // ----- is_ignored -----

  /** The bytes in front of the first slash. */
  function UpToSlash(s: string): (c: string)
    ensures |c| <= |s| && c == s[..|c|] && '/' !in c
    ensures |c| < |s| ==> s[|c|] == '/'
  {
    if s == "" || s[0] == '/' then "" else [s[0]] + UpToSlash(s[1..])
  }

  /** The nonempty components between slashes. */
  function Components(path: string): seq<string>
    decreases |path|
  {
    if path == "" then []
    else if path[0] == '/' then Components(path[1..])
    else [UpToSlash(path)] + Components(path[|UpToSlash(path)|..])
  }

  ghost predicate HasIgnored(cs: seq<string>) {
    exists c :: c in cs && c in IGNORED_FILES
  }

  ghost predicate Ignored(path: string) {
    HasIgnored(Components(path))
  }

  lemma SplitOff(path: string)
    requires path != "" && path[0] != '/'
    ensures UpToSlash(path) != ""
    ensures HasIgnored(Components(path)) <==>
      UpToSlash(path) in IGNORED_FILES || HasIgnored(Components(path[|UpToSlash(path)|..]))
  {
    var c, rest := UpToSlash(path), Components(path[|UpToSlash(path)|..]);
    assert Components(path) == [c] + rest;
    if UpToSlash(path) in IGNORED_FILES { assert c in Components(path); }
    if HasIgnored(rest) {
      var d :| d in rest && d in IGNORED_FILES;
      assert d in Components(path);
    }
  }

  lemma LeadingSlash(path: string, p: nat)
    requires p < |path| && path[p] == '/'
    ensures Components(path[p..]) == Components(path[p + 1..])
  {
    assert path[p..][1..] == path[p + 1..];
  }

  lemma LeadingComponent(path: string, p: nat, end: nat)
    requires p < end <= |path| && path[p] != '/' && path[p..end] == UpToSlash(path[p..])
    ensures HasIgnored(Components(path[p..])) <==>
      path[p..end] in IGNORED_FILES || HasIgnored(Components(path[end..]))
  {
    SplitOff(path[p..]);
    assert path[p..][end - p..] == path[end..];
  }

  lemma NothingToIgnore()
    ensures !HasIgnored(Components(""))
  {
  }

  method InList(comp: string) returns (r: bool)
    ensures r <==> comp in IGNORED_FILES
  {
    for i := 0 to |IGNORED_FILES|
      invariant forall j :: 0 <= j < i ==> comp != IGNORED_FILES[j]
    {
      if comp == IGNORED_FILES[i] { return true; }
    }
    return false;
  }

  /** `strchr(p, '/')`, or the end of the string. */
  method FindSlash(path: string, p: nat) returns (end: nat)
    requires p <= |path|
    ensures p <= end <= |path| && path[p..end] == UpToSlash(path[p..])
    ensures p < |path| && path[p] != '/' ==> p < end
    ensures end < |path| ==> path[end] == '/'
  {
    end := p + |UpToSlash(path[p..])|;
  }

  /** The scan with moving pointers is the test on components. */
  method IsIgnored(path: string) returns (r: bool)
    ensures r <==> Ignored(path)
  {
    hide Components, HasIgnored;
    var p: nat := 0;
    assert path[0..] == path;
    NothingToIgnore();
    while true
      invariant p <= |path|
      invariant Ignored(path) <==> HasIgnored(Components(path[p..]))
      decreases |path| - p
    {
      while p < |path| && path[p] == '/'
        invariant p <= |path|
        invariant Ignored(path) <==> HasIgnored(Components(path[p..]))
      {
        LeadingSlash(path, p);
        p := p + 1;
      }
      if p == |path| { break; }
      var end := FindSlash(path, p);
      LeadingComponent(path, p, end);
      if !(end - p == 1 && path[p] == '.') {
        var listed := InList(path[p..end]);
        if listed { return true; }
      } else {
        DotIsNotIgnored();
        assert path[p..end] == ".";
      }
      if end == |path| {
        p := end;
        break;
      }
      LeadingSlash(path, end);
      p := end + 1;
    }
    assert path[p..] == "";
    return false;
  }

  lemma DotIsNotIgnored()
    ensures "." !in IGNORED_FILES
  {
    assert forall i :: 0 <= i < |IGNORED_FILES| ==> |IGNORED_FILES[i]| > 1;
  }

  lemma {:induction false} ComponentsOfAppend(a: string, b: string)
    ensures Components(a + "/" + b) == Components(a) + Components(b)
    decreases |a|
  {
    var s := a + "/" + b;
    if a == "" {
      assert s[1..] == b;
    } else if a[0] == '/' {
      ComponentsOfAppend(a[1..], b);
      assert s[1..] == a[1..] + "/" + b;
    } else {
      var c := UpToSlash(a);
      UpToSlashOfAppend(a, b);
      ComponentsOfAppend(a[|c|..], b);
      assert s[|c|..] == a[|c|..] + "/" + b;
    }
  }

  lemma {:induction false} UpToSlashOfAppend(a: string, b: string)
    ensures UpToSlash(a + "/" + b) == UpToSlash(a)
  {
    var s := a + "/" + b;
    if a != "" && a[0] != '/' {
      UpToSlashOfAppend(a[1..], b);
      assert s[1..] == a[1..] + "/" + b;
    }
  }

  lemma {:induction false} ComponentsOfName(name: string)
    requires name != "" && '/' !in name
    ensures Components(name) == [name]
  {
    UpToSlashOfName(name);
  }

  lemma {:induction false} UpToSlashOfName(name: string)
    requires '/' !in name
    ensures UpToSlash(name) == name
  {
    if name != "" { UpToSlashOfName(name[1..]); }
  }

  lemma HasIgnoredAppend(a: seq<string>, b: seq<string>)
    ensures HasIgnored(a + b) <==> HasIgnored(a) || HasIgnored(b)
  {
    if HasIgnored(a) {
      var c :| c in a && c in IGNORED_FILES;
      assert c in a + b;
    }
    if HasIgnored(b) {
      var c :| c in b && c in IGNORED_FILES;
      assert c in a + b;
    }
  }

  /** Pruning is exact: a child is ignored exactly when its parent is or its own name is listed. */
  lemma PruningIsExact(path: string, name: string)
    requires name != "" && '/' !in name
    ensures Ignored(path + "/" + name) <==> Ignored(path) || name in IGNORED_FILES
  {
    ComponentsOfAppend(path, name);
    ComponentsOfName(name);
    HasIgnoredAppend(Components(path), Components(name));
    if name in IGNORED_FILES { assert name in [name]; }
  }

  /** `path[p..q]` is a component: nonempty, without a slash, and between slashes or ends. */
  ghost predicate IsComponent(path: string, p: nat, q: nat) {
    && p < q <= |path| && '/' !in path[p..q]
    && (p == 0 || path[p - 1] == '/') && (q == |path| || path[q] == '/')
  }

  ghost predicate HasComponent(path: string, c: string) {
    exists p: nat, q: nat :: IsComponent(path, p, q) && path[p..q] == c
  }

  lemma {:induction false} ComponentsMeaning(path: string, c: string)
    ensures c in Components(path) <==> HasComponent(path, c)
    decreases |path|
  {
    if path == "" {
    } else if path[0] == '/' {
      ComponentsMeaning(path[1..], c);
      ShiftComponents(path, 1, c);
      assert !IsComponentAtStart(path, c);
    } else {
      var first := UpToSlash(path);
      SplitOff(path);
      ComponentsMeaning(path[|first|..], c);
      ShiftComponents(path, |first|, c);
      assert IsComponent(path, 0, |first|);
      FirstComponent(path, c);
    }
  }

  ghost predicate IsComponentAtStart(path: string, c: string) {
    exists q: nat :: IsComponent(path, 0, q) && path[0..q] == c
  }

  lemma {:induction false} UpToSlashIs(s: string, q: nat)
    requires q <= |s| && '/' !in s[..q] && (q == |s| || s[q] == '/')
    ensures UpToSlash(s) == s[..q]
  {
    if q > 0 {
      assert s[..q][0] != '/';
      assert s[1..][..q - 1] == s[..q][1..];
      UpToSlashIs(s[1..], q - 1);
      assert s[..q] == [s[0]] + s[1..][..q - 1];
    }
  }

  lemma FirstComponent(path: string, c: string)
    requires path != "" && path[0] != '/'
    ensures IsComponentAtStart(path, c) <==> c == UpToSlash(path)
  {
    var first := UpToSlash(path);
    SplitOff(path);
    assert IsComponent(path, 0, |first|) && path[0..|first|] == first;
    if q: nat :| IsComponent(path, 0, q) && path[0..q] == c {
      assert path[..q] == path[0..q];
      UpToSlashIs(path, q);
    }
  }

  /** The first `n` bytes are a slash, or a component that a slash or the end follows. */
  ghost predicate IsHead(path: string, n: nat) {
    && 0 < n <= |path|
    && ((n == 1 && path[0] == '/') || ('/' !in path[..n] && (n == |path| || path[n] == '/')))
  }

  lemma ComponentBehindHead(path: string, n: nat, p: nat, q: nat)
    requires IsHead(path, n) && IsComponent(path, p, q) && p > 0
    ensures p >= n && IsComponent(path[n..], p - n, q - n) && path[n..][p - n..q - n] == path[p..q]
  {
    assert p - 1 < n ==> path[p - 1] == path[..n][p - 1];
    SliceOfTail(path, n, p - n, q - n);
  }

  lemma ComponentInFront(path: string, n: nat, p: nat, q: nat)
    requires IsHead(path, n) && IsComponent(path[n..], p, q)
    ensures IsComponent(path, n + p, n + q) && path[n + p..n + q] == path[n..][p..q]
  {
    SliceOfTail(path, n, p, q);
    assert path[n..][p..q][0] == path[n + p];
  }

  /** Behind a first component, or a leading slash, the rest has the other components. */
  lemma ShiftComponents(path: string, n: nat, c: string)
    requires IsHead(path, n)
    ensures HasComponent(path, c) <==> IsComponentAtStart(path, c) || HasComponent(path[n..], c)
  {
    if p: nat, q: nat :| IsComponent(path, p, q) && path[p..q] == c {
      if p > 0 { ComponentBehindHead(path, n, p, q); }
    }
    if p: nat, q: nat :| IsComponent(path[n..], p, q) && path[n..][p..q] == c {
      ComponentInFront(path, n, p, q);
    }
    if q: nat :| IsComponent(path, 0, q) && path[0..q] == c {
      assert HasComponent(path, c);
    }
    hide IsComponent, IsHead;
  }

  /** A path is ignored exactly when `.git`, `build` or `dist` is one of its components. */
  lemma IgnoredMeaning(path: string)
    ensures Ignored(path) <==> HasComponent(path, ".git") || HasComponent(path, "build") || HasComponent(path, "dist")
  {
    ComponentsMeaning(path, ".git");
    ComponentsMeaning(path, "build");
    ComponentsMeaning(path, "dist");
    assert IGNORED_FILES[0] == ".git" && IGNORED_FILES[1] == "build" && IGNORED_FILES[2] == "dist";
    assert forall c :: c in IGNORED_FILES <==> c == ".git" || c == "build" || c == "dist";
    hide Components, HasComponent;
  }

  // ----- enqueue_path -----

  /** What `lstat` and `readdir` show.  A failed `lstat` or `opendir` is reported and skipped. */
  datatype Node =
    | Regular
    | Directory(entries: seq<Entry>)
    | Unreadable
    | Missing
    | Special

  datatype Entry = Entry(name: string, node: Node)

  predicate IsDots(name: string) {
    name == "." || name == ".."
  }

  /** What a file system guarantees: names in a directory are nonempty, slash-free, pairwise distinct. */
  ghost predicate TreeOk(node: Node) {
    node.Directory? ==> EntriesOk(node.entries)
  }

  ghost predicate EntriesOk(es: seq<Entry>) {
    && (forall i, j :: 0 <= i < j < |es| ==> es[i].name != es[j].name)
    && forall i :: 0 <= i < |es| ==>
         es[i].name != "" && '/' !in es[i].name && TreeOk(es[i].node)
  }

  function ChildPath(path: string, name: string): string {
    if path == "." then name else path + "/" + name
  }

  ghost predicate HasLanguage(path: string) {
    LanguageOf(path).Some?
  }

  /** The walk as a recursion, in the order the stack produces: last entry first. */
  ghost function Walk(path: string, node: Node): seq<string>
    decreases node, 1
  {
    if Ignored(path) then []
    else match node
      case Regular => if HasLanguage(path) then [path] else []
      case Directory(es) => WalkEntries(path, es)
      case _ => []
  }

  ghost function WalkEntries(path: string, es: seq<Entry>): seq<string>
    decreases es, 0
  {
    if es == [] then []
    else
      var e := es[|es| - 1];
      (if IsDots(e.name) then [] else Walk(ChildPath(path, e.name), e.node)) + WalkEntries(path, es[..|es| - 1])
  }

  datatype Item = Item(path: string, node: Node)

  ghost function WalkStack(stack: seq<Item>): seq<string> {
    if stack == [] then []
    else Walk(stack[|stack| - 1].path, stack[|stack| - 1].node) + WalkStack(stack[..|stack| - 1])
  }

  function Size(node: Node): nat
    decreases node, 1
  {
    1 + if node.Directory? then EntriesSize(node.entries) else 0
  }

  function EntriesSize(es: seq<Entry>): nat
    decreases es, 0
  {
    if es == [] then 0 else Size(es[|es| - 1].node) + EntriesSize(es[..|es| - 1])
  }

  ghost function StackSize(stack: seq<Item>): nat {
    if stack == [] then 0 else Size(stack[|stack| - 1].node) + StackSize(stack[..|stack| - 1])
  }

  lemma StackTop(stack: seq<Item>, item: Item)
    ensures WalkStack(stack + [item]) == Walk(item.path, item.node) + WalkStack(stack)
    ensures StackSize(stack + [item]) == Size(item.node) + StackSize(stack)
  {
    assert (stack + [item])[..|stack|] == stack;
  }

  lemma PopItem(stack: seq<Item>)
    requires stack != []
    ensures var item, rest := stack[|stack| - 1], stack[..|stack| - 1];
      WalkStack(stack) == Walk(item.path, item.node) + WalkStack(rest)
      && StackSize(stack) == Size(item.node) + StackSize(rest)
  {
  }

  lemma OneItem(root: string, tree: Node)
    ensures WalkStack([Item(root, tree)]) == Walk(root, tree) && WalkStack([]) == []
  {
    assert [Item(root, tree)][..0] == [];
    assert Walk(root, tree) + [] == Walk(root, tree);
  }

  lemma EntriesStep(path: string, es: seq<Entry>, i: nat)
    requires i < |es|
    ensures WalkEntries(path, es[..i + 1]) ==
      (if IsDots(es[i].name) then [] else Walk(ChildPath(path, es[i].name), es[i].node)) + WalkEntries(path, es[..i])
    ensures EntriesSize(es[..i + 1]) == Size(es[i].node) + EntriesSize(es[..i])
  {
    assert es[..i + 1][..i] == es[..i];
  }

  lemma NoEntries(path: string)
    ensures WalkEntries(path, []) == [] && EntriesSize([]) == 0
  {
  }

  /** The readdir loop: push every entry but the dots. */
  method PushChildren(path: string, es: seq<Entry>, rest: seq<Item>) returns (stack: seq<Item>)
    ensures WalkStack(stack) == WalkEntries(path, es) + WalkStack(rest)
    ensures StackSize(stack) <= EntriesSize(es) + StackSize(rest)
  {
    hide Walk, WalkEntries, WalkStack, EntriesSize, Size, StackSize;
    stack := rest;
    NoEntries(path);
    assert es[..0] == [];
    for i := 0 to |es|
      invariant WalkStack(stack) == WalkEntries(path, es[..i]) + WalkStack(rest)
      invariant StackSize(stack) <= EntriesSize(es[..i]) + StackSize(rest)
    {
      EntriesStep(path, es, i);
      if es[i].name != "." && es[i].name != ".." {
        var child := Item(ChildPath(path, es[i].name), es[i].node);
        StackTop(stack, child);
        stack := stack + [child];
      }
    }
    assert es[..|es|] == es;
  }

  /** One turn of the worklist, on the item popped off `rest`. */
  method Visit(item: Item, rest: seq<Item>) returns (stack: seq<Item>, put: seq<string>)
    ensures put + WalkStack(stack) == Walk(item.path, item.node) + WalkStack(rest)
    ensures StackSize(stack) < StackSize(rest) + Size(item.node)
  {
    stack, put := rest, [];
    var ignored := IsIgnored(item.path);
    if ignored { return; }
    match item.node
    case Missing =>
    case Unreadable =>
    case Special =>
    case Regular =>
      var ext := FindExtension(item.path);
      if ext == None { return; }
      var lang := LookUpExtension(ext.value);
      if lang == None { return; }
      put := [item.path];
    case Directory(es) =>
      stack := PushChildren(item.path, es, rest);
  }

  /** The worklist.  `queued` lists the `io_queue_put` calls in order. */
  method EnqueuePath(root: string, tree: Node) returns (queued: seq<string>)
    ensures queued == Walk(root, tree)
  {
    OneItem(root, tree);
    hide Walk, WalkStack, Size, StackSize;
    var stack: seq<Item> := [Item(root, tree)];
    queued := [];
    while stack != []
      invariant queued + WalkStack(stack) == Walk(root, tree)
      decreases StackSize(stack)
    {
      var item, rest := stack[|stack| - 1], stack[..|stack| - 1];
      PopItem(stack);
      var put;
      ghost var before := queued;
      stack, put := Visit(item, rest);
      queued := queued + put;
      Regroup(before, put, WalkStack(stack));
      Regroup(before, Walk(item.path, item.node), WalkStack(rest));
    }
  }

  // ----- The walk against a filter over all files -----

  /** Every regular file below `path`, whatever its name: no pruning, no language test. */
  ghost function AllFiles(path: string, node: Node): seq<string>
    decreases node, 1
  {
    match node
    case Regular => [path]
    case Directory(es) => AllEntryFiles(path, es)
    case _ => []
  }

  ghost function AllEntryFiles(path: string, es: seq<Entry>): seq<string>
    decreases es, 0
  {
    if es == [] then []
    else
      var e := es[|es| - 1];
      AllEntryFiles(path, es[..|es| - 1]) + if IsDots(e.name) then [] else AllFiles(ChildPath(path, e.name), e.node)
  }

  /** `names` leads from `node` to a regular file, through directories, by entries that are not dots. */
  ghost predicate FileAt(node: Node, names: seq<string>)
    decreases |names|
  {
    if names == [] then node.Regular?
    else
      && node.Directory? && names[0] != "." && names[0] != ".."
      && exists k :: 0 <= k < |node.entries| && node.entries[k].name == names[0]
                     && FileAt(node.entries[k].node, names[1..])
  }

  /** The names with slashes between them. */
  function Slashed(names: seq<string>): string
    requires names != []
  {
    if |names| == 1 then names[0] else names[0] + "/" + Slashed(names[1..])
  }

  /** The path of `names` under `root`, where a root `.` leaves no trace. */
  function JoinPath(root: string, names: seq<string>): string {
    if names == [] then root
    else if root == "." then Slashed(names)
    else root + "/" + Slashed(names)
  }

  /** One step down the path, for a child that is not a dot. */
  lemma JoinChild(path: string, names: seq<string>)
    requires names != [] && names[0] != "."
    ensures JoinPath(ChildPath(path, names[0]), names[1..]) == JoinPath(path, names)
  {
    var child := ChildPath(path, names[0]);
    if path != "." { assert child[|path|] == '/'; }
    assert child != ".";
    if |names| > 1 {
      assert path != "." ==> path + "/" + Slashed(names) == path + "/" + names[0] + "/" + Slashed(names[1..]);
    }
  }

  /** The files of a tree, said without the walk: the paths of the names that lead to them. */
  lemma {:induction false} AllFilesMeaning(path: string, node: Node, f: string)
    ensures f in AllFiles(path, node) <==> exists names :: FileAt(node, names) && f == JoinPath(path, names)
    decreases node, 2
  {
    match node {
      case Directory(es) =>
        EntryFilesMeaning(path, es, f);
        if k, names :| EntryLeads(path, es, k, names, f) {
          assert FileAt(node, names);
        }
        if names :| FileAt(node, names) && f == JoinPath(path, names) {
          var k :| 0 <= k < |es| && es[k].name == names[0] && FileAt(es[k].node, names[1..]);
          assert EntryLeads(path, es, k, names, f);
        }
      case Regular =>
        assert FileAt(node, []) && JoinPath(path, []) == path;
      case _ =>
    }
  }

  /** `names`, which start at entry `k`, lead to the file `f`. */
  ghost predicate EntryLeads(path: string, es: seq<Entry>, k: int, names: seq<string>, f: string) {
    && 0 <= k < |es| && names != [] && es[k].name == names[0] && names[0] != "." && names[0] != ".."
    && FileAt(es[k].node, names[1..]) && f == JoinPath(path, names)
  }

  lemma {:induction false} EntryFilesMeaning(path: string, es: seq<Entry>, f: string)
    ensures f in AllEntryFiles(path, es) <==> exists k, names :: EntryLeads(path, es, k, names, f)
    decreases es, 1
  {
    if es != [] {
      var init, last := es[..|es| - 1], |es| - 1;
      EntryFilesMeaning(path, init, f);
      if k, names :| EntryLeads(path, init, k, names, f) {
        assert EntryLeads(path, es, k, names, f);
      }
      if !IsDots(es[last].name) { LastEntryMeaning(path, es, last, f); }
      if k, names :| EntryLeads(path, es, k, names, f) {
        assert k < last ==> EntryLeads(path, init, k, names, f);
        if k == last { assert !IsDots(es[last].name); }
      }
    }
  }

  lemma {:induction false} LastEntryMeaning(path: string, es: seq<Entry>, last: int, f: string)
    requires last == |es| - 1 >= 0 && !IsDots(es[last].name)
    ensures var e := es[last];
      f in AllFiles(ChildPath(path, e.name), e.node) <==> exists names :: EntryLeads(path, es, last, names, f)
    decreases es, 0
  {
    var e := es[last];
    AllFilesMeaning(ChildPath(path, e.name), e.node, f);
    if below :| FileAt(e.node, below) && f == JoinPath(ChildPath(path, e.name), below) {
      var names := [e.name] + below;
      assert names[1..] == below;
      JoinChild(path, names);
      assert EntryLeads(path, es, last, names, f);
    }
    if names :| EntryLeads(path, es, last, names, f) {
      JoinChild(path, names);
      assert FileAt(e.node, names[1..]) && f == JoinPath(ChildPath(path, e.name), names[1..]);
    }
  }

  ghost predicate Accepted(path: string) {
    !Ignored(path) && HasLanguage(path)
  }

  /** `f` is `path` itself or lies below it. */
  ghost predicate Below(path: string, f: string) {
    f == path || path == "." || path + "/" <= f
  }

  lemma {:induction false} FilesAreBelow(path: string, node: Node, f: string)
    requires f in AllFiles(path, node)
    ensures Below(path, f)
    decreases node, 1
  {
    if node.Directory? { EntryFilesAreBelow(path, node.entries, f); }
  }

  lemma {:induction false} EntryFilesAreBelow(path: string, es: seq<Entry>, f: string)
    requires f in AllEntryFiles(path, es)
    ensures path == "." || path + "/" <= f
    decreases es, 0
  {
    var e := es[|es| - 1];
    if f in AllEntryFiles(path, es[..|es| - 1]) {
      EntryFilesAreBelow(path, es[..|es| - 1], f);
    } else {
      var child := ChildPath(path, e.name);
      FilesAreBelow(child, e.node, f);
      if path != "." {
        assert child[|path|] == '/';
        assert path + "/" <= child <= f;
      }
    }
  }

  lemma IgnoredBelow(path: string, f: string)
    requires Ignored(path) && Below(path, f)
    ensures Ignored(f)
  {
    if f == path {
    } else if path == "." {
      ComponentsOfName(".");
      DotIsNotIgnored();
      assert false;
    } else {
      var rest := f[|path| + 1..];
      assert f == path + "/" + rest;
      ComponentsOfAppend(path, rest);
      HasIgnoredAppend(Components(path), Components(rest));
    }
  }

  /** The walk queues exactly the files whose own path is accepted: pruning loses nothing else. */
  lemma {:induction false} WalkIsFilter(path: string, node: Node, f: string)
    ensures f in Walk(path, node) <==> f in AllFiles(path, node) && Accepted(f)
    decreases node, 1
  {
    if Ignored(path) {
      if f in AllFiles(path, node) {
        FilesAreBelow(path, node, f);
        IgnoredBelow(path, f);
      }
    } else if node.Directory? {
      WalkEntriesIsFilter(path, node.entries, f);
    }
  }

  lemma {:induction false} WalkEntriesIsFilter(path: string, es: seq<Entry>, f: string)
    ensures f in WalkEntries(path, es) <==> f in AllEntryFiles(path, es) && Accepted(f)
    decreases es, 0
  {
    if es != [] {
      var e := es[|es| - 1];
      WalkEntriesIsFilter(path, es[..|es| - 1], f);
      if !IsDots(e.name) { WalkIsFilter(ChildPath(path, e.name), e.node, f); }
    }
  }

  // ----- Paths from one root are pairwise distinct -----

  /** A file below two children of one directory fixes the child's name. */
  lemma ChildNameIsFixed(path: string, a: string, b: string, f: string)
    requires '/' !in a && '/' !in b && a != "." && b != "."
    requires path != "." ==> ChildPath(path, a) != "." && ChildPath(path, b) != "."
    requires Below(ChildPath(path, a), f) && Below(ChildPath(path, b), f)
    ensures a == b
  {
    var q := if path == "." then "" else path + "/";
    assert ChildPath(path, a) == q + a && ChildPath(path, b) == q + b;
    var rest := f[|q|..];
    assert rest == a || a + "/" <= rest;
    assert rest == b || b + "/" <= rest;
    assert rest[..|a|] == a && rest[..|b|] == b;
    assert |a| < |rest| ==> rest[|a|] == '/';
    assert |b| < |rest| ==> rest[|b|] == '/';
  }

  lemma {:induction false} EntryFileHasName(path: string, es: seq<Entry>, f: string) returns (i: nat)
    requires f in AllEntryFiles(path, es)
    ensures i < |es| && !IsDots(es[i].name) && Below(ChildPath(path, es[i].name), f)
  {
    var init, e := es[..|es| - 1], es[|es| - 1];
    if f in AllEntryFiles(path, init) {
      i := EntryFileHasName(path, init, f);
    } else {
      i := |es| - 1;
      FilesAreBelow(ChildPath(path, e.name), e.node, f);
    }
  }

  lemma ChildIsNotDot(path: string, name: string)
    requires '/' !in name && !IsDots(name)
    ensures ChildPath(path, name) != "."
  {
    if path != "." { assert ChildPath(path, name)[|path|] == '/'; }
  }

  lemma {:induction false} FilesAreDistinct(path: string, node: Node)
    requires TreeOk(node)
    ensures Distinct(AllFiles(path, node))
    decreases node, 1
  {
    if node.Directory? { EntryFilesAreDistinct(path, node.entries); }
  }

  lemma {:induction false} EntryFilesAreDistinct(path: string, es: seq<Entry>)
    requires EntriesOk(es)
    ensures Distinct(AllEntryFiles(path, es))
    decreases es, 0
  {
    if es != [] {
      var init, e := es[..|es| - 1], es[|es| - 1];
      EntryFilesAreDistinct(path, init);
      if !IsDots(e.name) {
        var a, b := AllEntryFiles(path, init), AllFiles(ChildPath(path, e.name), e.node);
        FilesAreDistinct(ChildPath(path, e.name), e.node);
        forall f | f in a ensures f !in b {
          if f in b {
            var i := EntryFileHasName(path, init, f);
            FilesAreBelow(ChildPath(path, e.name), e.node, f);
            ChildIsNotDot(path, es[i].name);
            ChildIsNotDot(path, e.name);
            ChildNameIsFixed(path, es[i].name, e.name, f);
            assert false;
          }
        }
        DistinctParts(a, b);
      }
    }
  }

  lemma {:induction false} WalkIsDistinct(path: string, node: Node)
    requires TreeOk(node)
    ensures Distinct(Walk(path, node))
    decreases node, 1
  {
    if node.Directory? { WalkEntriesAreDistinct(path, node.entries); }
  }

  lemma {:induction false} WalkEntriesAreDistinct(path: string, es: seq<Entry>)
    requires EntriesOk(es)
    ensures Distinct(WalkEntries(path, es))
    decreases es, 0
  {
    if es != [] {
      var init, e := es[..|es| - 1], es[|es| - 1];
      WalkEntriesAreDistinct(path, init);
      if !IsDots(e.name) {
        var child := ChildPath(path, e.name);
        WalkIsDistinct(child, e.node);
        EntryFilesAreDistinct(path, es);
        DistinctParts(AllEntryFiles(path, init), AllFiles(child, e.node));
        forall f | f in Walk(child, e.node) ensures f !in WalkEntries(path, init) {
          WalkIsFilter(child, e.node, f);
          WalkEntriesIsFilter(path, init, f);
        }
        DistinctParts(Walk(child, e.node), WalkEntries(path, init));
      }
    }
  }

  /** The recursive filter: every file of the tree, kept when its own path is accepted. */
  ghost function Filtered(fs: seq<string>): seq<string> {
    if fs == [] then []
    else Filtered(fs[..|fs| - 1]) + if Accepted(fs[|fs| - 1]) then [fs[|fs| - 1]] else []
  }

  lemma {:induction false} FilteredMeaning(fs: seq<string>)
    requires Distinct(fs)
    ensures Distinct(Filtered(fs))
    ensures forall f :: f in Filtered(fs) <==> f in fs && Accepted(f)
  {
    if fs != [] {
      var init, last := fs[..|fs| - 1], fs[|fs| - 1];
      assert fs == init + [last];
      DistinctParts(init, [last]);
      FilteredMeaning(init);
      DistinctParts(Filtered(init), if Accepted(last) then [last] else []);
    }
  }

  /** The paths queued, said without the walk: those of the names that lead to a regular file, when the
      path has no ignored component and a known extension. */
  lemma {:induction false} QueuedMeaning(root: string, tree: Node, f: string)
    ensures f in Walk(root, tree) <==>
      && (exists names :: FileAt(tree, names) && f == JoinPath(root, names))
      && !HasComponent(f, ".git") && !HasComponent(f, "build") && !HasComponent(f, "dist")
      && exists name :: LanguageOf(f) == Some(name)
  {
    WalkIsFilter(root, tree, f);
    AllFilesMeaning(root, tree, f);
    IgnoredMeaning(f);
    assert LanguageOf(f).Some? ==> LanguageOf(f) == Some(LanguageOf(f).value);
    hide Walk, AllFiles, HasComponent, LanguageOf, FileAt;
  }

  /** On every finite tree the worklist terminates having queued each accepted regular file exactly
      once and nothing else: as a bag, the recursive filter; and no path twice. */
  lemma DiscoveryIsExact(root: string, tree: Node)
    requires TreeOk(tree)
    ensures Distinct(Walk(root, tree))
    ensures multiset(Walk(root, tree)) == multiset(Filtered(AllFiles(root, tree)))
  {
    WalkIsDistinct(root, tree);
    FilesAreDistinct(root, tree);
    FilteredMeaning(AllFiles(root, tree));
    forall f ensures f in Walk(root, tree) <==> f in Filtered(AllFiles(root, tree)) {
      WalkIsFilter(root, tree, f);
    }
    DistinctSameMembers(Walk(root, tree), Filtered(AllFiles(root, tree)));
  }

  lemma {:induction false} DistinctMultiplicity(s: seq<string>, x: string)
    requires Distinct(s)
    ensures multiset(s)[x] == if x in s then 1 else 0
  {
    if s != [] {
      var init, last := s[..|s| - 1], s[|s| - 1];
      assert s == init + [last];
      DistinctMultiplicity(init, x);
      assert last !in init;
    }
  }

  lemma DistinctSameMembers(s: seq<string>, t: seq<string>)
    requires Distinct(s) && Distinct(t) && forall x :: x in s <==> x in t
    ensures multiset(s) == multiset(t)
  {
    forall x ensures multiset(s)[x] == multiset(t)[x] {
      DistinctMultiplicity(s, x);
      DistinctMultiplicity(t, x);
    }
  }
}
