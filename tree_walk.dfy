/** The structure survey of a downloaded snapshot (`RepositoryScanner._analyze_structure` and
    `_determine_project_type`). The snapshot is a tree value; `os.walk` is modelled by `Walk`. */
module TreeWalk {
  import opened Wrappers
  import opened Text
  import opened Histograms
  import opened FileClassifier

  /** A snapshot: files carry their byte size and their decoded text. */
  datatype Node = File(name: string, size: nat, text: string) | Dir(name: string, children: seq<Node>)

  /** One file the walk visits: the directory names from the snapshot root down to it. */
  datatype Entry = Entry(dirs: seq<string>, name: string, size: nat, text: string)

  /** The relative path `os.path.relpath(os.path.join(root, file), repo_path)`. */
  function PathOf(e: Entry): string {
    JoinPath(e.dirs + [e.name])
  }

  /** The first entry of a directory listing called `name`, if any. */
  function ChildNamed(children: seq<Node>, name: string): (r: Option<Node>)
    ensures r.Some? <==> exists k :: 0 <= k < |children| && children[k].name == name
    ensures r.Some? ==> r.value in children && r.value.name == name
  {
    if children == [] then None
    else if children[0].name == name then Some(children[0])
    else ChildNamed(children[1..], name)
  }

  /** Follows the '/'-separated `segments` down from a directory listing to a regular file. */
  function Lookup(children: seq<Node>, segments: seq<string>): Option<string>
    decreases segments
  {
    if segments == [] then None
    else
      match ChildNamed(children, segments[0])
      case Some(File(_, _, text)) => if |segments| == 1 then Some(text) else None
      case Some(Dir(_, cs)) => Lookup(cs, segments[1..])
      case None => None
  }

  /** `open(os.path.join(repo_path, path)).read()`: the text of the regular file at the
      relative `path`, or None when there is none (opening fails). */
  function ReadText(root: Node, path: string): Option<string> {
    if root.Dir? then Lookup(root.children, Split(path, '/')) else None
  }

  /** No directory on the way is one the walk prunes. */
  predicate Unpruned(dirs: seq<string>) {
    forall k :: 0 <= k < |dirs| ==> dirs[k] !in IgnoredDirs
  }

  /** The files listed directly in a directory, in listing order. */
  function FilesIn(children: seq<Node>, dirs: seq<string>): (r: seq<Entry>)
    ensures forall k :: 0 <= k < |r| ==> r[k].dirs == dirs
  {
    if children == [] then []
    else
      var c := children[0];
      (if c.File? then [Entry(dirs, c.name, c.size, c.text)] else []) + FilesIn(children[1..], dirs)
  }

  /** `os.walk` top-down from one directory: its own files first, then each sub-directory
      that survives `dirs[:] = [d for d in dirs if d not in ignored_dirs]`, depth first. */
  function WalkDir(children: seq<Node>, dirs: seq<string>): seq<Entry>
    decreases children, 1
  {
    FilesIn(children, dirs) + WalkSubdirs(children, dirs)
  }

  function WalkSubdirs(children: seq<Node>, dirs: seq<string>): seq<Entry>
    decreases children, 0
  {
    if children == [] then []
    else
      var c := children[0];
      (if c.Dir? && c.name !in IgnoredDirs then WalkDir(c.children, dirs + [c.name]) else [])
      + WalkSubdirs(children[1..], dirs)
  }

  /** Every file `os.walk(repo_path)` reports, in order (nothing when the root is no directory). */
  function Walk(root: Node): seq<Entry> {
    if root.Dir? then WalkDir(root.children, []) else []
  }

  lemma {:induction false} WalkDirUnpruned(children: seq<Node>, dirs: seq<string>)
    requires Unpruned(dirs)
    ensures forall e :: e in WalkDir(children, dirs) ==> Unpruned(e.dirs)
    decreases children, 1
  {
    WalkSubdirsUnpruned(children, dirs);
  }

  lemma {:induction false} WalkSubdirsUnpruned(children: seq<Node>, dirs: seq<string>)
    requires Unpruned(dirs)
    ensures forall e :: e in WalkSubdirs(children, dirs) ==> Unpruned(e.dirs)
    decreases children, 0
  {
    if children != [] {
      var c := children[0];
      if c.Dir? && c.name !in IgnoredDirs {
        WalkDirUnpruned(c.children, dirs + [c.name]);
      }
      WalkSubdirsUnpruned(children[1..], dirs);
    }
  }

  /** Pruning happens before descending: no file the walk reports lies below a directory
      whose name is in `ignored_dirs`. */
  lemma WalkAvoidsIgnoredDirs(root: Node)
    ensures forall e :: e in Walk(root) ==> Unpruned(e.dirs)
  {
    if root.Dir? {
      WalkDirUnpruned(root.children, []);
    }
  }

  function InfoOf(e: Entry): FileInfo {
    AnalyzeFile(e.name, PathOf(e), e.size, e.text)
  }

  /** The `files` list the walk loop builds: one record per visited file that
      `_should_ignore_file` does not skip, in walk order. */
  function Records(es: seq<Entry>): seq<FileInfo> {
    if es == [] then []
    else
      var e := es[|es| - 1];
      Records(es[..|es| - 1]) + (if ShouldIgnoreFile(e.name) then [] else [InfoOf(e)])
  }

  /** The languages of the code files among `files`, in order. */
  function CodeLanguages(files: seq<FileInfo>): seq<string> {
    if files == [] then []
    else
      var f := files[|files| - 1];
      CodeLanguages(files[..|files| - 1]) + (if f.isCode then [f.language] else [])
  }

  lemma RecordsSnoc(es: seq<Entry>, e: Entry)
    ensures Records(es + [e]) == Records(es) + (if ShouldIgnoreFile(e.name) then [] else [InfoOf(e)])
  {
    assert (es + [e])[..|es|] == es;
  }

  lemma CodeLanguagesSnoc(files: seq<FileInfo>, f: FileInfo)
    ensures CodeLanguages(files + [f]) == CodeLanguages(files) + (if f.isCode then [f.language] else [])
  {
    assert (files + [f])[..|files|] == files;
  }

  /** Every record comes from a visited, not ignored file and is that file's analysis. */
  lemma {:induction false} RecordsFromEntries(es: seq<Entry>)
    ensures forall f :: f in Records(es) ==> exists e :: e in es && !ShouldIgnoreFile(e.name) && f == InfoOf(e)
  {
    if es != [] {
      RecordsFromEntries(es[..|es| - 1]);
      forall f | f in Records(es)
        ensures exists e :: e in es && !ShouldIgnoreFile(e.name) && f == InfoOf(e)
      {
        if f in Records(es[..|es| - 1]) {
          var e :| e in es[..|es| - 1] && !ShouldIgnoreFile(e.name) && f == InfoOf(e);
          assert e in es;
        } else {
          assert es[|es| - 1] in es;
        }
      }
    }
  }

  /** Every recorded file is a visited file outside the pruned directories, with a name the
      ignore patterns let through. */
  lemma RecordedFilesAvoidIgnored(root: Node)
    ensures forall f :: f in Records(Walk(root)) ==>
      exists e :: e in Walk(root) && Unpruned(e.dirs) && !ShouldIgnoreFile(e.name) && f == InfoOf(e)
  {
    WalkAvoidsIgnoredDirs(root);
    RecordsFromEntries(Walk(root));
  }

  /** `count` of `lang` in the histogram, 0 when the key is absent. */
  function CountOf(languages: map<string, nat>, lang: string): nat {
    if lang in languages then languages[lang] else 0
  }

  /** `_determine_project_type`: the first of python, javascript, java with more than five
      files; else "cpp" if any C++ or C file; else the first of php, go, rust with more than
      five files; else "multi-language". */
  function DetermineProjectType(languages: map<string, nat>): (t: string)
    ensures t == "python" <==> CountOf(languages, "python") > 5
    ensures t == "cpp" <==> (CountOf(languages, "python") <= 5 && CountOf(languages, "javascript") <= 5
                             && CountOf(languages, "java") <= 5 && ("cpp" in languages || "c" in languages))
    ensures t !in {"cpp", "multi-language"} ==> CountOf(languages, t) > 5
    ensures t == "multi-language" <==> (!("cpp" in languages || "c" in languages)
              && forall l :: l in {"python", "javascript", "java", "php", "go", "rust"} ==> CountOf(languages, l) <= 5)
  {
    if CountOf(languages, "python") > 5 then "python"
    else if CountOf(languages, "javascript") > 5 then "javascript"
    else if CountOf(languages, "java") > 5 then "java"
    else if "cpp" in languages || "c" in languages then "cpp"
    else if CountOf(languages, "php") > 5 then "php"
    else if CountOf(languages, "go") > 5 then "go"
    else if CountOf(languages, "rust") > 5 then "rust"
    else "multi-language"
  }

  /** The classification as a table of (type, test) rows tried in order. */
  datatype TypeTest = MoreThanFive(lang: string) | AnyOf(langs: set<string>)

  const ProjectTypeTable: seq<(string, TypeTest)> := [
    ("python", MoreThanFive("python")), ("javascript", MoreThanFive("javascript")),
    ("java", MoreThanFive("java")), ("cpp", AnyOf({"cpp", "c"})),
    ("php", MoreThanFive("php")), ("go", MoreThanFive("go")), ("rust", MoreThanFive("rust"))]

  predicate Passes(test: TypeTest, languages: map<string, nat>) {
    match test
    case MoreThanFive(l) => CountOf(languages, l) > 5
    case AnyOf(ls) => exists l :: l in ls && l in languages
  }

  function FirstPassing(table: seq<(string, TypeTest)>, languages: map<string, nat>): string {
    if table == [] then "multi-language"
    else if Passes(table[0].1, languages) then table[0].0
    else FirstPassing(table[1..], languages)
  }

  /** The if-chain agrees with the table read top to bottom: ties are broken by row order. */
  lemma ProjectTypeIsFirstPassingRow(languages: map<string, nat>)
    ensures DetermineProjectType(languages) == FirstPassing(ProjectTypeTable, languages)
  {
    var t := ProjectTypeTable;
    assert Passes(AnyOf({"cpp", "c"}), languages) <==> "cpp" in languages || "c" in languages by {
      if "cpp" in languages { assert "cpp" in {"cpp", "c"}; }
      if "c" in languages { assert "c" in {"cpp", "c"}; }
    }
    var L := languages;
    assert t[6..][1..] == [];
    assert FirstPassing(t[6..], L) == if CountOf(L, "rust") > 5 then "rust" else "multi-language";
    assert t[5..][1..] == t[6..];
    assert FirstPassing(t[5..], L) == if CountOf(L, "go") > 5 then "go" else FirstPassing(t[6..], L);
    assert t[4..][1..] == t[5..];
    assert FirstPassing(t[4..], L) == if CountOf(L, "php") > 5 then "php" else FirstPassing(t[5..], L);
    assert t[3..][1..] == t[4..];
    assert FirstPassing(t[3..], L) == if "cpp" in L || "c" in L then "cpp" else FirstPassing(t[4..], L);
    assert t[2..][1..] == t[3..];
    assert FirstPassing(t[2..], L) == if CountOf(L, "java") > 5 then "java" else FirstPassing(t[3..], L);
    assert t[1..][1..] == t[2..];
    assert FirstPassing(t[1..], L) == if CountOf(L, "javascript") > 5 then "javascript" else FirstPassing(t[2..], L);
  }

  datatype Structure = Structure(
    totalFiles: nat, codeFiles: nat, languages: map<string, nat>, projectType: string,
    files: seq<FileInfo>)

  /** The language histogram has one key per language among the code files, counting that
      language's code files; its values add up to the number of code files. */
  lemma LanguageHistogram(root: Node)
    ensures var s := StructureOf(root);
      (forall l :: l in s.languages <==> l in CodeLanguages(s.files))
      && (forall l :: l in s.languages ==> s.languages[l] == Count(CodeLanguages(s.files), l))
      && s.codeFiles == MapSum(s.languages) && s.totalFiles == |s.files|
  {
    var s := StructureOf(root);
    TallyOntoZeros(map[], CodeLanguages(s.files));
  }

  /** The structure of a snapshot as `_analyze_structure` reports it. */
  function StructureOf(root: Node): Structure {
    var files := Records(Walk(root));
    var languages := TallyAll(map[], CodeLanguages(files));
    Structure(|files|, |CodeLanguages(files)|, languages, DetermineProjectType(languages), files)
  }

  /** One turn of the walk loop: an ignored entry changes nothing; any other adds its record,
      and a code record adds its language to the histogram. */
  lemma SurveyStep(es: seq<Entry>, e: Entry)
    ensures var files := Records(es);
      && (ShouldIgnoreFile(e.name) ==> Records(es + [e]) == files)
      && (!ShouldIgnoreFile(e.name) ==> Records(es + [e]) == files + [InfoOf(e)])
      && (InfoOf(e).isCode ==>
            TallyAll(map[], CodeLanguages(files + [InfoOf(e)])) == Tally(TallyAll(map[], CodeLanguages(files)), InfoOf(e).language)
            && |CodeLanguages(files + [InfoOf(e)])| == |CodeLanguages(files)| + 1)
      && (!InfoOf(e).isCode ==> CodeLanguages(files + [InfoOf(e)]) == CodeLanguages(files))
  {
    var files := Records(es);
    var info := InfoOf(e);
    RecordsSnoc(es, e);
    CodeLanguagesSnoc(files, info);
    if info.isCode {
      TallyAllSnoc(map[], CodeLanguages(files), info.language);
    }
  }

  /** The body of `_analyze_structure`'s walk loop over the visited files `entries`: skips
      ignored names and keeps the file counters and the language histogram in step with the
      recorded files. */
  method Survey(entries: seq<Entry>) returns (total: nat, code: nat, languages: map<string, nat>, files: seq<FileInfo>)
    ensures files == Records(entries)
    ensures total == |files|
    ensures code == |CodeLanguages(files)| == MapSum(languages)
    ensures languages == TallyAll(map[], CodeLanguages(files))
  {
    total, code := 0, 0;
    languages := map[];
    files := [];
    var i := 0;
    ghost var done: seq<Entry> := [];
    while i < |entries|
      invariant 0 <= i <= |entries| && done == entries[..i]
      invariant files == Records(done)
      invariant total == |files|
      invariant code == |CodeLanguages(files)|
      invariant languages == TallyAll(map[], CodeLanguages(files))
    {
      var e := entries[i];
      SurveyStep(done, e);
      if !ShouldIgnoreFile(e.name) {
        total := total + 1;
        var info := InfoOf(e);
        if info.isCode {
          code := code + 1;
          languages := Tally(languages, info.language);
        }
        files := files + [info];
      }
      PrefixSnoc(entries, i);
      done := done + [e];
      i := i + 1;
    }
    assert done == entries;
    TallyOntoZeros(map[], CodeLanguages(files));
  }

  /** `_analyze_structure`: surveys every file `os.walk` visits, then classifies the project. */
  method AnalyzeStructure(root: Node) returns (s: Structure)
    ensures s == StructureOf(root)
    ensures s.totalFiles == |s.files|
    ensures s.codeFiles == MapSum(s.languages)
  {
    var total, code, languages, files := Survey(Walk(root));
    s := Structure(total, code, languages, DetermineProjectType(languages), files);
  }
}
