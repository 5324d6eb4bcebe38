/** The scan pipeline of `RepositoryScanner`: scan modes, repository-level checks, the report
    helpers and the `scan_repository` entry point. */
module Scanner {
  import opened Wrappers
  import opened Text
  import opened Histograms
  import opened Findings
  import opened RepoUrl
  import opened FileClassifier
  import opened TreeWalk
  import opened Dependencies
  import opened Detection

  // ---------------------------------------------------------------------------------------
  // Scan modes

  /** The code files among `files`, in order. */
  function CodeFiles(files: seq<FileInfo>): (r: seq<FileInfo>)
    ensures |r| <= |files|
    ensures forall f :: f in r ==> f in files && f.isCode
  {
    if files == [] then []
    else
      var last := files[|files| - 1];
      CodeFiles(files[..|files| - 1]) + (if last.isCode then [last] else [])
  }

  /** The findings of scanning each of `files`, one after another. */
  function ScanAll(root: Node, files: seq<FileInfo>): seq<Finding> {
    if files == [] then []
    else ScanAll(root, files[..|files| - 1]) + FileScan(root, files[|files| - 1])
  }

  lemma ScanAllSnoc(root: Node, files: seq<FileInfo>, f: FileInfo)
    ensures ScanAll(root, files + [f]) == ScanAll(root, files) + FileScan(root, f)
  {
    assert (files + [f])[..|files|] == files;
  }

  /** Scanning a prefix of the files yields a prefix of the findings. */
  lemma {:induction false} ScanAllPrefix(root: Node, files: seq<FileInfo>, n: nat)
    requires n <= |files|
    ensures ScanAll(root, files[..n]) <= ScanAll(root, files)
    decreases |files| - n
  {
    if n < |files| {
      ScanAllPrefix(root, files, n + 1);
      PrefixSnoc(files, n);
      ScanAllSnoc(root, files[..n], files[n]);
    } else {
      assert files[..n] == files;
    }
  }

  /** The sensitive names looked for at the snapshot's top level, in order. */
  const SensitiveFiles: seq<string> := [
    ".env", ".env.local", ".env.production", "config.json", "secrets.json", "credentials.json",
    "private.key"]

  /** Files strictly larger than this many bytes are reported (10 MiB). */
  const LargeFileLimit: nat := 10 * 1024 * 1024

  function SensitiveFinding(name: string): Finding {
    Finding(Some("Sensitive File Exposure"), Some("high"), name, 0, "", Some("unknown"),
            "Sensitive file " + name + " found in repository")
  }

  function LargeFinding(info: FileInfo): Finding {
    Finding(Some("Large File"), Some("low"), info.path, 0, "", Some(info.language),
            "Large file detected: " + info.path + " (" + NatToString(info.size) + " bytes)")
  }

  /** One finding per name in `names` present at the top level, in list order. */
  function SensitiveFindings(root: Node, names: seq<string>): seq<Finding> {
    if names == [] then []
    else
      var last := names[|names| - 1];
      SensitiveFindings(root, names[..|names| - 1]) + (if RootHas(root, last) then [SensitiveFinding(last)] else [])
  }

  /** One finding per recorded file larger than the limit, in walk order. */
  function LargeFindings(files: seq<FileInfo>): seq<Finding> {
    if files == [] then []
    else
      var last := files[|files| - 1];
      LargeFindings(files[..|files| - 1]) + (if last.size > LargeFileLimit then [LargeFinding(last)] else [])
  }

  function RepositoryLevel(root: Node, files: seq<FileInfo>): seq<Finding> {
    SensitiveFindings(root, SensitiveFiles) + LargeFindings(files)
  }

  /** The sensitive-file findings are exactly the present names, high, at line 0. */
  lemma {:induction false} SensitiveFindingsSpec(root: Node, names: seq<string>)
    ensures |SensitiveFindings(root, names)| <= |names|
    ensures forall f :: f in SensitiveFindings(root, names) ==>
      f.severity == Some("high") && f.line == 0 && f.file in names && RootHas(root, f.file)
    ensures forall name :: name in names && RootHas(root, name) ==> SensitiveFinding(name) in SensitiveFindings(root, names)
  {
    if names != [] {
      var init := names[..|names| - 1];
      SensitiveFindingsSpec(root, init);
      assert names == init + [names[|names| - 1]];
    }
  }

  /** The large-file findings are exactly the recorded files over the limit, low, at line 0. */
  lemma {:induction false} LargeFindingsSpec(files: seq<FileInfo>)
    ensures |LargeFindings(files)| <= |files|
    ensures forall f :: f in LargeFindings(files) ==>
      f.severity == Some("low") && f.line == 0 && exists g :: g in files && g.size > LargeFileLimit && f == LargeFinding(g)
    ensures forall g :: g in files && g.size > LargeFileLimit ==> LargeFinding(g) in LargeFindings(files)
  {
    if files != [] {
      var init := files[..|files| - 1];
      LargeFindingsSpec(init);
      assert files == init + [files[|files| - 1]];
    }
  }

  /** `_scan_repository_level`. */
  method ScanRepositoryLevel(root: Node, files: seq<FileInfo>) returns (fs: seq<Finding>)
    ensures fs == RepositoryLevel(root, files)
  {
    fs := [];
    var i := 0;
    while i < |SensitiveFiles|
      invariant 0 <= i <= |SensitiveFiles|
      invariant fs == SensitiveFindings(root, SensitiveFiles[..i])
    {
      assert SensitiveFiles[..i + 1][..i] == SensitiveFiles[..i];
      if RootHas(root, SensitiveFiles[i]) {
        fs := fs + [SensitiveFinding(SensitiveFiles[i])];
      }
      i := i + 1;
    }
    assert SensitiveFiles[..i] == SensitiveFiles;
    var j := 0;
    while j < |files|
      invariant 0 <= j <= |files|
      invariant fs == SensitiveFindings(root, SensitiveFiles) + LargeFindings(files[..j])
    {
      assert files[..j + 1][..j] == files[..j];
      if files[j].size > LargeFileLimit {
        fs := fs + [LargeFinding(files[j])];
      }
      j := j + 1;
    }
    assert files[..j] == files;
  }

  lemma CodeFilesSnoc(files: seq<FileInfo>, f: FileInfo)
    ensures f.isCode ==> CodeFiles(files + [f]) == CodeFiles(files) + [f]
    ensures !f.isCode ==> CodeFiles(files + [f]) == CodeFiles(files)
  {
    assert (files + [f])[..|files|] == files;
    if !f.isCode {
      assert CodeFiles(files + [f]) == CodeFiles(files) + [];
    }
  }

  /** One more file adds its findings when it is a code file, and nothing otherwise. */
  lemma ScanCodeStep(root: Node, files: seq<FileInfo>, i: nat)
    requires i < |files|
    ensures files[i].isCode ==>
      ScanAll(root, CodeFiles(files[..i + 1])) == ScanAll(root, CodeFiles(files[..i])) + FileScan(root, files[i])
    ensures !files[i].isCode ==> ScanAll(root, CodeFiles(files[..i + 1])) == ScanAll(root, CodeFiles(files[..i]))
  {
    PrefixSnoc(files, i);
    CodeFilesSnoc(files[..i], files[i]);
    if files[i].isCode {
      ScanAllSnoc(root, CodeFiles(files[..i]), files[i]);
    }
  }

  /** `_full_scan`'s loop: scans the code files among `files`, in order. */
  method ScanCodeFiles(root: Node, files: seq<FileInfo>) returns (fs: seq<Finding>)
    ensures fs == ScanAll(root, CodeFiles(files))
  {
    fs := [];
    var i := 0;
    while i < |files|
      invariant 0 <= i <= |files|
      invariant fs == ScanAll(root, CodeFiles(files[..i]))
    {
      ScanCodeStep(root, files, i);
      if files[i].isCode {
        var found := ScanFile(root, files[i]);
        fs := fs + found;
      }
      i := i + 1;
    }
    assert files[..i] == files;
  }

  /** `_full_scan`: every code file in walk order, then the repository-level findings. */
  method FullScan(root: Node, s: Structure) returns (fs: seq<Finding>)
    ensures fs == ScanAll(root, CodeFiles(s.files)) + RepositoryLevel(root, s.files)
  {
    fs := ScanCodeFiles(root, s.files);
    var repo := ScanRepositoryLevel(root, s.files);
    fs := fs + repo;
  }

  /** At most this many code files are scanned in quick mode. */
  const QuickScanLimit: nat := 10

  /** `files[:n]`. */
  function Take<T>(xs: seq<T>, n: nat): (r: seq<T>)
    ensures r <= xs && |r| == if n < |xs| then n else |xs|
  {
    if n < |xs| then xs[..n] else xs
  }

  /** `_quick_scan`: the first ten code files only, and no repository-level checks. */
  method QuickScan(root: Node, s: Structure) returns (fs: seq<Finding>)
    ensures fs == ScanAll(root, Take(CodeFiles(s.files), QuickScanLimit))
  {
    var code: seq<FileInfo> := [];
    var i := 0;
    while i < |s.files|
      invariant 0 <= i <= |s.files|
      invariant code == CodeFiles(s.files[..i])
    {
      PrefixSnoc(s.files, i);
      CodeFilesSnoc(s.files[..i], s.files[i]);
      if s.files[i].isCode {
        code := code + [s.files[i]];
      }
      i := i + 1;
    }
    assert s.files[..i] == s.files;
    var chosen := Take(code, QuickScanLimit);
    fs := [];
    var j := 0;
    while j < |chosen|
      invariant 0 <= j <= |chosen|
      invariant fs == ScanAll(root, chosen[..j])
    {
      PrefixSnoc(chosen, j);
      ScanAllSnoc(root, chosen[..j], chosen[j]);
      var found := ScanFile(root, chosen[j]);
      fs := fs + found;
      j := j + 1;
    }
    assert chosen[..j] == chosen;
  }

  /** Quick mode reports a prefix of what full mode reports, and with ten or fewer code
      files it reports everything full mode finds in the files themselves. */
  lemma QuickIsPrefixOfFull(root: Node, files: seq<FileInfo>)
    ensures ScanAll(root, Take(CodeFiles(files), QuickScanLimit))
            <= ScanAll(root, CodeFiles(files)) + RepositoryLevel(root, files)
    ensures |CodeFiles(files)| <= QuickScanLimit ==>
      ScanAll(root, Take(CodeFiles(files), QuickScanLimit)) == ScanAll(root, CodeFiles(files))
  {
    var code := CodeFiles(files);
    if QuickScanLimit < |code| {
      ScanAllPrefix(root, code, QuickScanLimit);
    }
  }

  // ---------------------------------------------------------------------------------------
  // Report helpers

  /** The four severities every breakdown starts with, at zero. */
  const EmptyBreakdown: map<string, nat> := map["critical" := 0, "high" := 0, "medium" := 0, "low" := 0]

  /** Tallying severities onto the four zeros: those four keys stay, every other key is a
      severity that occurs, each value counts its severity and the values sum to the length. */
  lemma BreakdownSpec(sevs: seq<string>)
    ensures var b := TallyAll(EmptyBreakdown, sevs);
      (forall k :: k in EmptyBreakdown ==> k in b)
      && (forall k :: k in b <==> k in EmptyBreakdown || k in sevs)
      && (forall k :: k in b ==> b[k] == Count(sevs, k))
      && MapSum(b) == |sevs|
  {
    TallyOntoZeros(EmptyBreakdown, sevs);
  }

  /** A severity breakdown of `fs`: the four severities are always keys, every other key is
      a severity that occurs (a missing one counts as medium), each value counts its severity,
      and the values sum to the number of findings. */
  ghost predicate BreakdownOf(b: map<string, nat>, fs: seq<Finding>) {
    (forall k :: k in EmptyBreakdown ==> k in b)
    && (forall k :: k in b <==> k in EmptyBreakdown || k in SeveritiesOrMedium(fs))
    && (forall k :: k in b ==> b[k] == Count(SeveritiesOrMedium(fs), k))
    && MapSum(b) == |fs|
  }

  /** `_get_severity_breakdown`: counts `vuln.get('severity', 'medium')`; a severity outside
      the four gets a key of its own. */
  method GetSeverityBreakdown(fs: seq<Finding>) returns (b: map<string, nat>)
    ensures BreakdownOf(b, fs)
  {
    b := EmptyBreakdown;
    var i := 0;
    while i < |fs|
      invariant 0 <= i <= |fs|
      invariant b == TallyAll(EmptyBreakdown, SeveritiesOrMedium(fs[..i]))
    {
      assert SeveritiesOrMedium(fs[..i + 1]) == SeveritiesOrMedium(fs[..i]) + [SeverityOrMedium(fs[i])];
      TallyAllSnoc(EmptyBreakdown, SeveritiesOrMedium(fs[..i]), SeverityOrMedium(fs[i]));
      b := Tally(b, SeverityOrMedium(fs[i]));
      i := i + 1;
    }
    assert fs[..i] == fs;
    BreakdownSpec(SeveritiesOrMedium(fs));
  }

  const ReviewFindings := "Review and fix all detected vulnerabilities"
  const UpdateVulnerable := "Update vulnerable dependencies"
  const UpdateOutdated := "Update outdated dependencies"
  const NothingToDo := "No immediate security issues detected"

  /** The position of an item in the order the recommendations are appended. */
  function RecommendationRank(item: string): nat {
    if item == ReviewFindings then 0
    else if item == UpdateVulnerable then 1
    else if item == UpdateOutdated then 2
    else 3
  }

  /** What `_generate_recommendations` promises: one to three items, each present exactly
      when its condition holds, in append order with none twice, and the no-issues item
      only alone. */
  predicate RecommendationsFor(recs: seq<string>, fs: seq<Finding>, deps: DependencyReport) {
    1 <= |recs| <= 3
    && (ReviewFindings in recs <==> fs != [])
    && (UpdateVulnerable in recs <==> deps.vulnerableDeps != [])
    && (UpdateOutdated in recs <==> deps.outdatedDeps != [])
    && (NothingToDo in recs <==> fs == [] && deps.vulnerableDeps == [] && deps.outdatedDeps == [])
    && (NothingToDo in recs ==> recs == [NothingToDo])
    && (forall p, q :: 0 <= p < q < |recs| ==> RecommendationRank(recs[p]) < RecommendationRank(recs[q]))
  }

  /** `_generate_recommendations`. */
  method GenerateRecommendations(fs: seq<Finding>, deps: DependencyReport) returns (recs: seq<string>)
    ensures RecommendationsFor(recs, fs, deps)
  {
    recs := [];
    if fs != [] {
      recs := recs + [ReviewFindings];
    }
    if deps.vulnerableDeps != [] {
      recs := recs + [UpdateVulnerable];
    }
    if deps.outdatedDeps != [] {
      recs := recs + [UpdateOutdated];
    }
    if recs == [] {
      recs := recs + [NothingToDo];
    }
  }

  // ---------------------------------------------------------------------------------------
  // The entry point

  datatype ScanSummary = ScanSummary(
    totalFiles: nat, codeFiles: nat, languages: map<string, nat>, projectType: string,
    totalVulnerabilities: nat, severityBreakdown: map<string, nat>)

  datatype Report = Report(
    url: string, platform: string, owner: string, name: string, summary: ScanSummary,
    vulnerabilities: seq<Finding>, dependencies: DependencyReport, recommendations: seq<string>,
    timestamp: string)

  /** `_generate_report`; the timestamp is passed in. */
  method GenerateReport(info: RepoInfo, s: Structure, fs: seq<Finding>, deps: DependencyReport, timestamp: string)
    returns (r: Report)
    ensures r.url == info.url && r.platform == PlatformName(info.platform)
    ensures r.owner == info.owner && r.name == info.repo
    ensures r.summary.totalFiles == s.totalFiles && r.summary.codeFiles == s.codeFiles
    ensures r.summary.languages == s.languages && r.summary.projectType == s.projectType
    ensures r.summary.totalVulnerabilities == |fs|
    ensures BreakdownOf(r.summary.severityBreakdown, fs)
    ensures r.vulnerabilities == fs && r.dependencies == deps && r.timestamp == timestamp
    ensures RecommendationsFor(r.recommendations, fs, deps)
  {
    var breakdown := GetSeverityBreakdown(fs);
    var recs := GenerateRecommendations(fs, deps);
    r := Report(info.url, PlatformName(info.platform), info.owner, info.repo,
                ScanSummary(s.totalFiles, s.codeFiles, s.languages, s.projectType, |fs|, breakdown),
                fs, deps, recs, timestamp);
  }

  /** The findings the mode selects: exactly 'full' runs the full scan, any other value the
      quick scan. */
  function ModeFindings(root: Node, s: Structure, scanType: string): seq<Finding> {
    if scanType == "full" then ScanAll(root, CodeFiles(s.files)) + RepositoryLevel(root, s.files)
    else ScanAll(root, Take(CodeFiles(s.files), QuickScanLimit))
  }

  /** `scan_repository`. The download is an input: `snapshot` is the unpacked repository, or
      None when downloading failed; `pkg` is the parsed `package.json`, if it parses. The scan
      type defaults to "full". */
  method ScanRepository(url: string, snapshot: Option<Node>, pkg: Option<PackageJson>, timestamp: string,
                        scanType: string := "full")
    returns (r: Result<Report>)
    ensures ParseRepoUrl(url).None? ==> r == Err("Invalid repository URL")
    ensures ParseRepoUrl(url).Some? && snapshot.None? ==> r == Err("Failed to download repository")
    ensures r.Ok? <==> ParseRepoUrl(url).Some? && snapshot.Some?
    ensures r.Ok? ==> r.value.url == url
    ensures r.Ok? ==>
      var info := ParseRepoUrl(url).value;
      r.value.platform == PlatformName(info.platform) && r.value.owner == info.owner && r.value.name == info.repo
    ensures r.Ok? ==>
      var root := snapshot.value;
      var s := StructureOf(root);
      r.value.summary.totalFiles == s.totalFiles && r.value.summary.codeFiles == s.codeFiles
      && r.value.summary.languages == s.languages && r.value.summary.projectType == s.projectType
      && r.value.vulnerabilities == ModeFindings(root, s, scanType)
      && r.value.summary.totalVulnerabilities == |r.value.vulnerabilities|
      && r.value.dependencies.packageManagers == Managers(root, MarkersFor(s.projectType))
      && r.value.dependencies.dependencies == DeclaredDeps(root, s.projectType, pkg)
      && r.value.dependencies.vulnerableDeps == [] && r.value.dependencies.outdatedDeps == []
      && r.value.timestamp == timestamp
    ensures r.Ok? ==> BreakdownOf(r.value.summary.severityBreakdown, r.value.vulnerabilities)
    ensures r.Ok? ==> RecommendationsFor(r.value.recommendations, r.value.vulnerabilities, r.value.dependencies)
  {
    var info := ParseRepoUrl(url);
    if info.None? {
      return Err("Invalid repository URL");
    }
    if snapshot.None? {
      return Err("Failed to download repository");
    }
    var root := snapshot.value;
    var s := AnalyzeStructure(root);
    var fs: seq<Finding>;
    if scanType == "full" {
      fs := FullScan(root, s);
    } else {
      fs := QuickScan(root, s);
    }
    var deps := AnalyzeDependencies(root, s.projectType, pkg);
    var report := GenerateReport(info.value, s, fs, deps, timestamp);
    return Ok(report);
  }
}
