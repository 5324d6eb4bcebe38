/** Ignore rules and language classification of single files
    (`RepositoryScanner.ignored_dirs`, `ignored_files`, `_should_ignore_file`, `_analyze_file`). */
module FileClassifier {
  import opened Wrappers
  import opened Text

  /** Directory names the walk prunes, compared by exact equality: the glob-looking entries
      "*.log" and "*.tmp" only prune directories literally named so. */
  const IgnoredDirs: seq<string> :=
    [".git", ".svn", ".hg", "__pycache__", "node_modules", ".venv", "venv", "env", "build",
     "dist", "target", ".idea", ".vscode", ".DS_Store", "*.log", "*.tmp"]

  /** File-name patterns: an entry starting with '*' matches by suffix, any other exactly. */
  const IgnoredFiles: seq<string> :=
    ["package-lock.json", "yarn.lock", "requirements.txt", "Pipfile.lock", "poetry.lock",
     ".gitignore", "README.md", "LICENSE", "CHANGELOG.md", "*.md", "*.txt"]

  predicate PatternIgnores(pattern: string, name: string) {
    if StartsWith(pattern, "*") then EndsWith(name, pattern[1..]) else name == pattern
  }

  /** The loop of `_should_ignore_file` over `patterns`, returning at the first hit. */
  function IgnoredBy(patterns: seq<string>, name: string): (r: bool)
    ensures r <==> exists k :: 0 <= k < |patterns| && PatternIgnores(patterns[k], name)
  {
    if patterns == [] then false
    else if PatternIgnores(patterns[0], name) then true
    else
      assert forall k :: 1 <= k < |patterns| ==> patterns[k] == patterns[1..][k - 1];
      IgnoredBy(patterns[1..], name)
  }

  function ShouldIgnoreFile(name: string): bool {
    IgnoredBy(IgnoredFiles, name)
  }

  /** The exact names that are not already covered by the two suffix patterns. */
  const ExactIgnored: set<string> :=
    {"package-lock.json", "yarn.lock", "Pipfile.lock", "poetry.lock", ".gitignore", "LICENSE"}

  /** A file is ignored exactly when it is one of the exact names or ends in ".md" or ".txt";
      in particular every Markdown and every text file is skipped, whatever its other name. */
  lemma ShouldIgnoreFileIff(name: string)
    ensures ShouldIgnoreFile(name)
        <==> name in ExactIgnored || EndsWith(name, ".md") || EndsWith(name, ".txt")
  {
    var ps := IgnoredFiles;
    forall k | 0 <= k < 9 ensures PatternIgnores(ps[k], name) <==> name == ps[k] {
      ExactPattern(name, k);
    }
    SuffixPatterns(name);
    ExactNames(name);
    assert EndsWith("requirements.txt", ".txt");
    assert EndsWith("README.md", ".md") && EndsWith("CHANGELOG.md", ".md");
  }

  lemma ExactPattern(name: string, k: nat)
    requires k < 9
    ensures PatternIgnores(IgnoredFiles[k], name) <==> name == IgnoredFiles[k]
  {
    assert IgnoredFiles[k][0] != '*';
  }

  lemma SuffixPatterns(name: string)
    ensures PatternIgnores(IgnoredFiles[9], name) <==> EndsWith(name, ".md")
    ensures PatternIgnores(IgnoredFiles[10], name) <==> EndsWith(name, ".txt")
  {
    var md := IgnoredFiles[9];
    var txt := IgnoredFiles[10];
    assert md == "*.md" && txt == "*.txt";
    assert StartsWith(md, "*") && md[1..] == ".md";
    assert StartsWith(txt, "*") && txt[1..] == ".txt";
  }

  lemma ExactNames(name: string)
    ensures (exists k :: 0 <= k < 9 && name == IgnoredFiles[k])
        <==> name in ExactIgnored || name in {"requirements.txt", "README.md", "CHANGELOG.md"}
  {
    var ps := IgnoredFiles;
    if name in ExactIgnored || name in {"requirements.txt", "README.md", "CHANGELOG.md"} {
      assert name == ps[0] || name == ps[1] || name == ps[2] || name == ps[3] || name == ps[4]
          || name == ps[5] || name == ps[6] || name == ps[7] || name == ps[8];
    }
  }

  /** Index of the last '.' in `s`. */
  function LastDot(s: string): (r: Option<nat>)
    ensures r.Some? ==> r.value < |s| && s[r.value] == '.' && '.' !in s[r.value + 1..]
    ensures r.None? ==> '.' !in s
  {
    if s == [] then None
    else if s[|s| - 1] == '.' then Some(|s| - 1)
    else
      var r := LastDot(s[..|s| - 1]);
      assert r.Some? ==> s[r.value + 1..] == s[..|s| - 1][r.value + 1..] + [s[|s| - 1]];
      r
  }

  /** Some character of `s` before index `d` is not a dot. */
  predicate NonDotBefore(s: string, d: nat)
    requires d <= |s|
  {
    exists k :: 0 <= k < d && s[k] != '.'
  }

  /** `os.path.splitext(name)[1]` for a base name: from the last dot to the end, unless every
      character before that dot is a dot too (".bashrc", "..x"), in which case it is empty. */
  function Extension(name: string): (ext: string)
    ensures ext == [] || (ext[0] == '.' && '.' !in ext[1..] && EndsWith(name, ext))
  {
    match LastDot(name)
    case Some(d) =>
      if NonDotBefore(name, d) then
        assert name[d..][1..] == name[d + 1..];
        name[d..]
      else []
    case None => []
  }

  /** The extension of a name built from a stem with a non-dot character, a dot and a suffix
      without dots is that dot and suffix; a hidden file's leading dot does not count. */
  lemma ExtensionOfBuilt(stem: string, suffix: string)
    requires exists k :: 0 <= k < |stem| && stem[k] != '.'
    requires '.' !in suffix
    ensures Extension(stem + "." + suffix) == "." + suffix
  {
    var name := stem + "." + suffix;
    var d := LastDot(name).value;
    assert name[|stem|] == '.';
    assert d == |stem|;
    var k :| 0 <= k < |stem| && stem[k] != '.';
    assert name[k] != '.';
    assert name[d..] == "." + suffix;
  }

  lemma HiddenFileHasNoExtension()
    ensures Extension(".bashrc") == ""
  {
    assert LastDot(".bashrc") == Some(0) by {
      assert '.' !in ".bashrc"[1..];
    }
  }

  /** `lang_map`: lower-case extension to language. */
  const LangMap: map<string, string> := map[
    ".py" := "python", ".js" := "javascript", ".ts" := "typescript",
    ".java" := "java", ".cpp" := "cpp", ".c" := "c", ".cs" := "csharp",
    ".php" := "php", ".rb" := "ruby", ".go" := "go", ".rs" := "rust",
    ".swift" := "swift", ".kt" := "kotlin", ".scala" := "scala",
    ".html" := "html", ".css" := "css", ".sql" := "sql",
    ".sh" := "bash", ".ps1" := "powershell", ".bat" := "batch"]

  /** No extension maps to the placeholder language "unknown". */
  lemma LanguagesAreKnown()
    ensures forall k :: k in LangMap ==> LangMap[k] != "unknown"
  {
    forall k | k in LangMap ensures LangMap[k] != "unknown" {
      assert |LangMap[k]| != 7;
    }
  }

  datatype FileInfo = FileInfo(path: string, size: nat, isCode: bool, language: string, lines: nat)

  /** Number of lines `f.readlines()` returns for a file whose decoded text is `text`. */
  function LineCount(text: string): nat {
    |ReadLines(TranslateNewlines(text))|
  }

  /** `_analyze_file`: a file is code exactly when its lower-cased extension is a key of
      `lang_map`; only code files get a language and a line count. */
  function AnalyzeFile(name: string, relPath: string, size: nat, text: string): (info: FileInfo)
    ensures info.path == relPath && info.size == size
    ensures info.isCode <==> LowerStr(Extension(name)) in LangMap
    ensures info.isCode ==> info.language == LangMap[LowerStr(Extension(name))] && info.language != "unknown"
    ensures !info.isCode ==> info.language == "unknown" && info.lines == 0
  {
    var ext := LowerStr(Extension(name));
    LanguagesAreKnown();
    if ext in LangMap then FileInfo(relPath, size, true, LangMap[ext], LineCount(text))
    else FileInfo(relPath, size, false, "unknown", 0)
  }

  /** Classification round trip: a name whose extension is a key of `lang_map`, in any
      letter case, is a code file of that key's language. */
  lemma ClassifyKnownExtension(stem: string, suffix: string, relPath: string, size: nat, text: string)
    requires exists k :: 0 <= k < |stem| && stem[k] != '.'
    requires '.' !in suffix
    requires "." + LowerStr(suffix) in LangMap
    ensures var info := AnalyzeFile(stem + "." + suffix, relPath, size, text);
            info.isCode && info.language == LangMap["." + LowerStr(suffix)]
            && info.lines == LineCount(text)
  {
    ExtensionOfBuilt(stem, suffix);
    assert LowerStr("." + suffix) == "." + LowerStr(suffix);
  }
}
