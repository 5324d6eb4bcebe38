/** The dependency survey (`RepositoryScanner._analyze_dependencies` and the per-ecosystem
    `_analyze_*_deps` helpers). Only the snapshot's top level is consulted. */
module Dependencies {
  import opened Wrappers
  import opened Text
  import opened TreeWalk

  datatype Dependency = Dependency(
    name: string, version: Option<string>, manager: string, depType: Option<string>, file: string)

  datatype DependencyReport = DependencyReport(
    packageManagers: seq<string>, dependencies: seq<Dependency>,
    vulnerableDeps: seq<Dependency>, outdatedDeps: seq<Dependency>)

  /** A section of `package.json`: an object of name/version pairs in document order, or some
      other JSON value (whose `.items()` raises and ends the parse). */
  datatype DepSection = Table(entries: seq<(string, string)>) | NotATable

  /** The two keys of a parsed `package.json` object that the survey reads. */
  datatype PackageJson = PackageJson(dependencies: Option<DepSection>, devDependencies: Option<DepSection>)

  /** `os.path.exists(os.path.join(repo_path, name))` for a top-level name. */
  predicate RootHas(root: Node, name: string) {
    root.Dir? && ChildNamed(root.children, name).Some?
  }

  /** The (marker file, package manager) pairs each ecosystem helper tests, in order. */
  function MarkersFor(projectType: string): seq<(string, string)> {
    if projectType == "python" then [("requirements.txt", "pip"), ("setup.py", "setuptools"), ("pyproject.toml", "poetry")]
    else if projectType == "javascript" then [("package.json", "npm"), ("yarn.lock", "yarn")]
    else if projectType == "java" then [("pom.xml", "maven"), ("build.gradle", "gradle")]
    else if projectType == "cpp" then [("CMakeLists.txt", "cmake"), ("Makefile", "make")]
    else if projectType == "go" then [("go.mod", "go modules")]
    else if projectType == "rust" then [("Cargo.toml", "cargo")]
    else []
  }

  /** The managers whose marker file is present, in marker order. */
  function Managers(root: Node, markers: seq<(string, string)>): (r: seq<string>)
    ensures |r| <= |markers|
    ensures forall m :: m in r ==> exists k :: 0 <= k < |markers| && markers[k].1 == m && RootHas(root, markers[k].0)
    ensures forall k :: 0 <= k < |markers| && RootHas(root, markers[k].0) ==> markers[k].1 in r
  {
    if markers == [] then []
    else
      var last := markers[|markers| - 1];
      Managers(root, markers[..|markers| - 1]) + (if RootHas(root, last.0) then [last.1] else [])
  }

  /** A requirements line yields a dependency when, stripped, it is neither blank nor a comment. */
  predicate Declares(line: string) {
    Strip(line) != [] && !StartsWith(Strip(line), "#")
  }

  /** `line.split('==')[0].split('>=')[0].split('<=')[0]`. */
  function RequirementName(line: string): (r: string)
    ensures StartsWith(line, r)
    ensures !Contains(r, "==") && !Contains(r, ">=") && !Contains(r, "<=")
  {
    var a := BeforeFirst(line, "==");
    var b := BeforeFirst(a, ">=");
    var c := BeforeFirst(b, "<=");
    NotContainedInPrefix(a, b, "==");
    NotContainedInPrefix(b, c, "==");
    NotContainedInPrefix(b, c, ">=");
    assert line[..|c|] == c by {
      assert a[..|b|] == b && b[..|c|] == c && line[..|a|] == a;
    }
    c
  }

  function Requirement(line: string): Dependency {
    Dependency(RequirementName(Strip(line)), None, "pip", None, "requirements.txt")
  }

  /** The dependencies read from the lines of `requirements.txt`, in file order. */
  function RequirementsOf(lines: seq<string>): seq<Dependency> {
    if lines == [] then []
    else
      var last := lines[|lines| - 1];
      RequirementsOf(lines[..|lines| - 1]) + (if Declares(last) then [Requirement(last)] else [])
  }

  lemma RequirementsOfSnoc(lines: seq<string>, line: string)
    ensures RequirementsOf(lines + [line])
            == RequirementsOf(lines) + (if Declares(line) then [Requirement(line)] else [])
  {
    assert (lines + [line])[..|lines|] == lines;
  }

  /** The stripped declaring lines, in order. */
  function DeclaringLines(lines: seq<string>): seq<string> {
    if lines == [] then []
    else
      var last := lines[|lines| - 1];
      DeclaringLines(lines[..|lines| - 1]) + (if Declares(last) then [Strip(last)] else [])
  }

  /** Exactly one dependency per declaring line, in the same order, named by the cut of that
      line: a prefix of it free of `==`, `>=` and `<=`. */
  lemma {:induction false} OneDependencyPerLine(lines: seq<string>)
    ensures |RequirementsOf(lines)| == |DeclaringLines(lines)|
    ensures forall k :: 0 <= k < |RequirementsOf(lines)| ==>
      var d := RequirementsOf(lines)[k];
      var line := DeclaringLines(lines)[k];
      line != [] && !StartsWith(line, "#") && d.name == RequirementName(line) && StartsWith(line, d.name)
      && !Contains(d.name, "==") && !Contains(d.name, ">=") && !Contains(d.name, "<=")
      && d.manager == "pip" && d.file == "requirements.txt" && d.version.None?
  {
    if lines != [] {
      OneDependencyPerLine(lines[..|lines| - 1]);
    }
  }

  /** A pinned requirement `name==version` declares `name` whenever `name` holds none of
      '=', '>' and '<'. */
  lemma PinnedName(name: string, version: string)
    requires '=' !in name && '>' !in name && '<' !in name
    ensures RequirementName(name + "==" + version) == name
  {
    CutAtSeparator(name, "==", version);
    MissingFirstChar(name, ">=");
    MissingFirstChar(name, "<=");
  }

  /** A line `name==version` read from the file (with its newline) declares a dependency
      named `name`, as for "flask==2.0.1": the name starts with neither a blank nor '#' and
      holds none of '=', '>' and '<', and the version does not end in a blank. */
  lemma PinnedLine(name: string, version: string)
    requires name != [] && !IsSpace(name[0]) && name[0] != '#'
    requires '=' !in name && '>' !in name && '<' !in name
    requires version != [] && !IsSpace(version[|version| - 1])
    ensures Declares(name + "==" + version + "\n")
    ensures Requirement(name + "==" + version + "\n").name == name
  {
    var s := name + "==" + version;
    StripTrailingNewline(s);
    assert s[..1] != "#" by { assert s[..1][0] == name[0]; }
    PinnedName(name, version);
  }


  function SectionDeps(section: Option<DepSection>, depType: string): seq<Dependency> {
    match section
    case Some(Table(entries)) =>
      seq(|entries|, k requires 0 <= k < |entries| =>
        Dependency(entries[k].0, Some(entries[k].1), "npm", Some(depType), "package.json"))
    case _ => []
  }

  /** The dependencies of a parsed `package.json`: `dependencies` then `devDependencies`; a
      `dependencies` value that is not an object stops the parse before `devDependencies`. */
  function PackageDeps(p: PackageJson): seq<Dependency> {
    if p.dependencies == Some(NotATable) then []
    else SectionDeps(p.dependencies, "dependencies") + SectionDeps(p.devDependencies, "devDependencies")
  }

  /** Every npm dependency carries its version, one of the two section names and the file name. */
  lemma PackageDepsShape(p: PackageJson)
    ensures forall d :: d in PackageDeps(p) ==>
      d.manager == "npm" && d.file == "package.json" && d.version.Some?
      && d.depType in {Some("dependencies"), Some("devDependencies")}
  {
  }

  /** The `dependencies` list each ecosystem helper returns; `pkg` is the parsed `package.json`
      (None when `json.load` fails). */
  function DeclaredDeps(root: Node, projectType: string, pkg: Option<PackageJson>): seq<Dependency> {
    if projectType == "python" then
      match ReadText(root, "requirements.txt")
      case Some(text) => RequirementsOf(ReadLines(TranslateNewlines(text)))
      case None => []
    else if projectType == "javascript" && ReadText(root, "package.json").Some? && pkg.Some? then
      PackageDeps(pkg.value)
    else []
  }

  /** Appends the managers whose marker is present (the `if os.path.exists(...)` sequence). */
  method PresentManagers(root: Node, markers: seq<(string, string)>) returns (r: seq<string>)
    ensures r == Managers(root, markers)
  {
    r := [];
    var i := 0;
    while i < |markers|
      invariant 0 <= i <= |markers|
      invariant r == Managers(root, markers[..i])
    {
      assert markers[..i + 1][..i] == markers[..i];
      if RootHas(root, markers[i].0) {
        r := r + [markers[i].1];
      }
      i := i + 1;
    }
    assert markers[..i] == markers;
  }

  /** `_analyze_python_deps`'s read loop over `requirements.txt`. */
  method ReadRequirements(text: string) returns (deps: seq<Dependency>)
    ensures deps == RequirementsOf(ReadLines(TranslateNewlines(text)))
  {
    var lines := ReadLines(TranslateNewlines(text));
    deps := [];
    var i := 0;
    while i < |lines|
      invariant 0 <= i <= |lines|
      invariant deps == RequirementsOf(lines[..i])
    {
      PrefixSnoc(lines, i);
      RequirementsOfSnoc(lines[..i], lines[i]);
      var line := Strip(lines[i]);
      if line != [] && !StartsWith(line, "#") {
        deps := deps + [Dependency(RequirementName(line), None, "pip", None, "requirements.txt")];
      }
      i := i + 1;
    }
    assert lines[..i] == lines;
  }

  /** The inner `for name, version in pkg_data[dep_type].items()` loop. */
  method AppendSection(deps: seq<Dependency>, entries: seq<(string, string)>, depType: string)
    returns (r: seq<Dependency>)
    ensures r == deps + SectionDeps(Some(Table(entries)), depType)
  {
    r := deps;
    var j := 0;
    while j < |entries|
      invariant 0 <= j <= |entries|
      invariant r == deps + SectionDeps(Some(Table(entries[..j])), depType)
    {
      r := r + [Dependency(entries[j].0, Some(entries[j].1), "npm", Some(depType), "package.json")];
      j := j + 1;
    }
    assert entries[..j] == entries;
  }

  /** `_analyze_node_deps`'s pass over the two sections of `package.json`. */
  method ReadPackageJson(p: PackageJson) returns (deps: seq<Dependency>)
    ensures deps == PackageDeps(p)
  {
    deps := [];
    match p.dependencies {
      case Some(NotATable) => return;
      case Some(Table(entries)) => deps := AppendSection(deps, entries, "dependencies");
      case None =>
    }
    match p.devDependencies {
      case Some(NotATable) => return;
      case Some(Table(entries)) => deps := AppendSection(deps, entries, "devDependencies");
      case None =>
    }
  }

  /** `_analyze_dependencies`: dispatch on the project type; php and every other type get
      nothing, and the vulnerable and outdated lists are never filled. */
  method AnalyzeDependencies(root: Node, projectType: string, pkg: Option<PackageJson>)
    returns (r: DependencyReport)
    ensures r.packageManagers == Managers(root, MarkersFor(projectType))
    ensures r.dependencies == DeclaredDeps(root, projectType, pkg)
    ensures r.vulnerableDeps == [] && r.outdatedDeps == []
  {
    var managers := PresentManagers(root, MarkersFor(projectType));
    var deps: seq<Dependency> := [];
    if projectType == "python" {
      var req := ReadText(root, "requirements.txt");
      if req.Some? {
        deps := ReadRequirements(req.value);
      }
    } else if projectType == "javascript" {
      if ReadText(root, "package.json").Some? && pkg.Some? {
        deps := ReadPackageJson(pkg.value);
      }
    }
    r := DependencyReport(managers, deps, [], []);
  }

  /** Types outside the six ecosystems (php, multi-language, ...) get no managers and no
      dependencies. */
  lemma OtherTypesGetNothing(root: Node, projectType: string, pkg: Option<PackageJson>)
    requires projectType !in {"python", "javascript", "java", "cpp", "go", "rust"}
    ensures Managers(root, MarkersFor(projectType)) == []
    ensures DeclaredDeps(root, projectType, pkg) == []
  {
  }

  /** Only the python and javascript helpers ever list dependencies. */
  lemma MarkerOnlyEcosystems(root: Node, projectType: string, pkg: Option<PackageJson>)
    requires projectType in {"java", "cpp", "go", "rust"}
    ensures DeclaredDeps(root, projectType, pkg) == []
    ensures |Managers(root, MarkersFor(projectType))| <= 2
  {
  }
}
