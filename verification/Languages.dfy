/** From a path to a language name (src/lang.c:12-34). */
module Languages {
  import opened Optional

  const EXT_LANG: seq<(string, string)> := [
    ("c", "c"), ("h", "cpp"), ("cpp", "cpp"), ("cc", "cpp"), ("hpp", "cpp"),
    ("cu", "cpp"), ("cuh", "cpp"), ("py", "python"), ("lua", "lua"), ("js", "javascript"),
    ("ts", "typescript"), ("zig", "zig"), ("rs", "rust"), ("go", "go")]

  /** The distinct names in the second column. */
  const LANGUAGES: seq<string> :=
    ["c", "cpp", "python", "lua", "javascript", "typescript", "zig", "rust", "go"]

  /** The part of `s` after its last `c`, as `strrchr` finds it; None when there is no `c`. */
  function AfterLast(s: string, c: char): Option<string> {
    if s == "" then None
    else if s[|s| - 1] == c then Some("")
    else match AfterLast(s[..|s| - 1], c)
      case None => None
      case Some(t) => Some(t + [s[|s| - 1]])
  }

  lemma {:induction false} AfterLastMeaning(s: string, c: char, t: string) returns (front: string)
    requires AfterLast(s, c) == Some(t)
    ensures s == front + [c] + t && c !in t
  {
    var init, x := s[..|s| - 1], s[|s| - 1];
    assert s == init + [x];
    if x == c {
      front := init;
    } else {
      front := AfterLastMeaning(init, c, t[..|t| - 1]);
    }
  }

  /** The last component: what follows the last slash, or all of a path without one. */
  function BaseName(path: string): string {
    if path == "" || path[|path| - 1] == '/' then ""
    else BaseName(path[..|path| - 1]) + [path[|path| - 1]]
  }

  lemma {:induction false} BaseNameMeaning(path: string) returns (dir: string)
    ensures path == dir + BaseName(path) && '/' !in BaseName(path)
    ensures dir == "" || dir[|dir| - 1] == '/'
  {
    if path == "" || path[|path| - 1] == '/' {
      dir := path;
    } else {
      dir := BaseNameMeaning(path[..|path| - 1]);
      assert path == path[..|path| - 1] + [path[|path| - 1]];
    }
  }

  function FindExtension(path: string): Option<string> {
    var base := BaseName(path);
    match AfterLast(base, '.')
    case None => None
    case Some(ext) => if |ext| + 1 == |base| || ext == "" then None else Some(ext)
  }

  lemma {:induction false} AfterLastOfAppend(s: string, c: char, t: string)
    requires c !in t
    ensures AfterLast(s + [c] + t, c) == Some(t)
  {
    var whole := s + [c] + t;
    if t != "" {
      AfterLastOfAppend(s, c, t[..|t| - 1]);
      assert whole[..|whole| - 1] == s + [c] + t[..|t| - 1];
      assert t == t[..|t| - 1] + [t[|t| - 1]];
    } else {
      assert whole[|whole| - 1] == c;
    }
  }

  lemma {:induction false} BaseNameOfAppend(stem: string, t: string)
    requires '/' !in t
    ensures BaseName(stem + t) == BaseName(stem) + t
  {
    var whole := stem + t;
    if t == "" {
      assert whole == stem;
    } else {
      BaseNameOfAppend(stem, t[..|t| - 1]);
      assert whole[..|whole| - 1] == stem + t[..|t| - 1];
      assert whole[|whole| - 1] == t[|t| - 1];
      assert t == t[..|t| - 1] + [t[|t| - 1]];
    }
  }

  lemma BaseNameIsEmpty(stem: string)
    ensures BaseName(stem) == "" <==> stem == "" || stem[|stem| - 1] == '/'
  {
  }

  /** An extension is what follows the last dot of the last component: it is nonempty, and the dot
      is not that component's first byte. */
  lemma ExtensionMeaning(stem: string, ext: string)
    requires '.' !in ext && '/' !in ext
    ensures FindExtension(stem + "." + ext) ==
      if ext == "" || stem == "" || stem[|stem| - 1] == '/' then None else Some(ext)
  {
    BaseNameOfAppend(stem, "." + ext);
    assert stem + "." + ext == stem + ("." + ext);
    assert BaseName(stem) + ("." + ext) == BaseName(stem) + ['.'] + ext;
    AfterLastOfAppend(BaseName(stem), '.', ext);
    BaseNameIsEmpty(stem);
  }

  /** Every path with an extension has that shape. */
  lemma ExtensionShape(path: string, ext: string) returns (stem: string)
    requires FindExtension(path) == Some(ext)
    ensures ext != "" && '.' !in ext && '/' !in ext
    ensures path == stem + "." + ext && stem != "" && stem[|stem| - 1] != '/'
  {
    var dir := BaseNameMeaning(path);
    var base := BaseName(path);
    var front := AfterLastMeaning(base, '.', ext);
    SlashFreeParts(base, front, ext);
    stem := dir + front;
    assert stem[|stem| - 1] == front[|front| - 1];
  }

  lemma SlashFreeParts(base: string, front: string, ext: string)
    requires '/' !in base && base == front + ['.'] + ext
    ensures '/' !in front && '/' !in ext
  {
    assert forall i :: 0 <= i < |front| ==> front[i] == base[i];
    assert forall i :: 0 <= i < |ext| ==> ext[i] == base[|front| + 1 + i];
  }

  ghost function ExtToLang(ext: string): Option<string> {
    FirstMatch(ext, 0)
  }

  ghost function FirstMatch(ext: string, from: nat): Option<string>
    requires from <= |EXT_LANG|
    decreases |EXT_LANG| - from
  {
    if from == |EXT_LANG| then None
    else if EXT_LANG[from].0 == ext then Some(EXT_LANG[from].1)
    else FirstMatch(ext, from + 1)
  }

  /** The language a path is parsed in, if any. */
  ghost function LanguageOf(path: string): Option<string> {
    match FindExtension(path)
    case None => None
    case Some(ext) => ExtToLang(ext)
  }

  method LookUpExtension(ext: string) returns (name: Option<string>)
    ensures name == ExtToLang(ext)
  {
    var i := 0;
    while i < |EXT_LANG|
      invariant 0 <= i <= |EXT_LANG|
      invariant ExtToLang(ext) == FirstMatch(ext, i)
    {
      if EXT_LANG[i].0 == ext { return Some(EXT_LANG[i].1); }
      i := i + 1;
    }
    return None;
  }

  lemma NamesAreListed(i: nat)
    requires i < |EXT_LANG|
    ensures EXT_LANG[i].1 in LANGUAGES
  {
    assert LANGUAGES[0] == "c" && LANGUAGES[1] == "cpp" && LANGUAGES[2] == "python"
        && LANGUAGES[3] == "lua" && LANGUAGES[4] == "javascript" && LANGUAGES[5] == "typescript"
        && LANGUAGES[6] == "zig" && LANGUAGES[7] == "rust" && LANGUAGES[8] == "go";
  }

  /** Every extension maps into the nine languages. */
  lemma {:induction false} NineLanguages(ext: string, from: nat)
    requires from <= |EXT_LANG|
    ensures FirstMatch(ext, from).Some? ==> FirstMatch(ext, from).value in LANGUAGES
    ensures |LANGUAGES| == 9
    decreases |EXT_LANG| - from
  {
    if from < |EXT_LANG| {
      NamesAreListed(from);
      NineLanguages(ext, from + 1);
    }
  }

  /** The table once more, one language at a time. */
  predicate Speaks(ext: string, name: string) {
    || (name == "c" && ext == "c")
    || (name == "cpp" && ext in {"h", "cpp", "cc", "hpp", "cu", "cuh"})
    || (name == "python" && ext == "py")
    || (name == "lua" && ext == "lua")
    || (name == "javascript" && ext == "js")
    || (name == "typescript" && ext == "ts")
    || (name == "zig" && ext == "zig")
    || (name == "rust" && ext == "rs")
    || (name == "go" && ext == "go")
  }

  lemma {:induction false} LowerRows(ext: string)
    ensures FirstMatch(ext, 7) ==
      if ext == "py" then Some("python") else if ext == "lua" then Some("lua")
      else if ext == "js" then Some("javascript") else if ext == "ts" then Some("typescript")
      else if ext == "zig" then Some("zig") else if ext == "rs" then Some("rust")
      else if ext == "go" then Some("go") else None
  {
    assert FirstMatch(ext, 14) == None;
    assert FirstMatch(ext, 12) == if ext == "rs" then Some("rust") else if ext == "go" then Some("go") else None;
    assert FirstMatch(ext, 10) ==
      if ext == "ts" then Some("typescript") else if ext == "zig" then Some("zig") else FirstMatch(ext, 12);
    assert FirstMatch(ext, 8) ==
      if ext == "lua" then Some("lua") else if ext == "js" then Some("javascript") else FirstMatch(ext, 10);
  }

  lemma {:induction false} UpperRows(ext: string)
    ensures ExtToLang(ext) ==
      if ext == "c" then Some("c") else if ext in {"h", "cpp", "cc", "hpp", "cu", "cuh"} then Some("cpp")
      else FirstMatch(ext, 7)
  {
    assert FirstMatch(ext, 6) == if ext == "cuh" then Some("cpp") else FirstMatch(ext, 7);
    assert FirstMatch(ext, 4) == if ext == "hpp" || ext == "cu" then Some("cpp") else FirstMatch(ext, 6);
    assert FirstMatch(ext, 2) == if ext == "cpp" || ext == "cc" then Some("cpp") else FirstMatch(ext, 4);
  }

  lemma {:induction false} ExtToLangIsTable(ext: string, name: string)
    ensures ExtToLang(ext) == Some(name) <==> Speaks(ext, name)
  {
    UpperRows(ext);
    LowerRows(ext);
    hide ExtToLang, FirstMatch;
  }

  /** Nine languages, and no other extension. */
  lemma {:induction false} WhichLanguage(ext: string)
    ensures ExtToLang(ext) == Some("c") <==> ext == "c"
    ensures ExtToLang(ext) == Some("cpp") <==> ext in {"h", "cpp", "cc", "hpp", "cu", "cuh"}
    ensures ExtToLang(ext) == Some("python") <==> ext == "py"
    ensures ExtToLang(ext) == Some("lua") <==> ext == "lua"
    ensures ExtToLang(ext) == Some("javascript") <==> ext == "js"
    ensures ExtToLang(ext) == Some("typescript") <==> ext == "ts"
    ensures ExtToLang(ext) == Some("zig") <==> ext == "zig"
    ensures ExtToLang(ext) == Some("rust") <==> ext == "rs"
    ensures ExtToLang(ext) == Some("go") <==> ext == "go"
    ensures ExtToLang(ext) == None <==>
      ext !in {"c", "h", "cpp", "cc", "hpp", "cu", "cuh", "py", "lua", "js", "ts", "zig", "rs", "go"}
  {
    forall name ensures ExtToLang(ext) == Some(name) <==> Speaks(ext, name) { ExtToLangIsTable(ext, name); }
    assert ExtToLang(ext).Some? ==> ExtToLang(ext) == Some(ExtToLang(ext).value);
  }

  /** `path` ends in a dot and `ext`, and the dot does not start its last component. */
  predicate HasExtension(path: string, stem: string, ext: string) {
    path == stem + "." + ext && stem != "" && stem[|stem| - 1] != '/'
  }

  /** The language of any path. */
  lemma LanguageOfMeaning(path: string, name: string)
    ensures LanguageOf(path) == Some(name) <==> exists stem, ext :: HasExtension(path, stem, ext) && Speaks(ext, name)
  {
    if LanguageOf(path) == Some(name) {
      var ext := FindExtension(path).value;
      var stem := ExtensionShape(path, ext);
      ExtToLangIsTable(ext, name);
      assert HasExtension(path, stem, ext);
    }
    if stem, ext :| HasExtension(path, stem, ext) && Speaks(ext, name) {
      SpokenIsPlain(ext, name);
      ExtensionMeaning(stem, ext);
      ExtToLangIsTable(ext, name);
    }
  }

  lemma SpokenIsPlain(ext: string, name: string)
    requires Speaks(ext, name)
    ensures ext != "" && '.' !in ext && '/' !in ext
  {
  }
}
