/** Line-by-line detection in one file (`RepositoryScanner._scan_file`). */
module Detection {
  import opened Wrappers
  import opened Text
  import opened Findings
  import opened FileClassifier
  import opened Patterns
  import opened TreeWalk

  /** The finding a rule produces on line `n` of the file described by `info`. */
  function MakeFinding(rule: Rule, info: FileInfo, n: nat, line: string): Finding {
    Finding(Some(KindOf(rule)), Some("medium"), info.path, n, Strip(line), Some(info.language),
            KindOf(rule) + " detected in " + info.path + ":" + NatToString(n))
  }

  /** The findings of the first `m` rules, tried in order, on line `n`. */
  function LineFindings(m: nat, info: FileInfo, n: nat, line: string): seq<Finding>
    requires m <= |Rules|
  {
    if m == 0 then []
    else
      LineFindings(m - 1, info, n, line)
      + (if Matches(Rules[m - 1], line) then [MakeFinding(Rules[m - 1], info, n, line)] else [])
  }

  /** The findings of all rules on all `lines`, numbered from 1. */
  function FileFindings(info: FileInfo, lines: seq<string>): seq<Finding> {
    if lines == [] then []
    else FileFindings(info, lines[..|lines| - 1]) + LineFindings(|Rules|, info, |lines|, lines[|lines| - 1])
  }

  /** `content.split('\n')` of the text as read in text mode. */
  function ContentLines(content: string): seq<string> {
    Split(TranslateNewlines(content), '\n')
  }

  /** The position of a rule in `Rules`. */
  function RuleIndex(rule: Rule): (k: nat)
    ensures k < |Rules| && Rules[k] == rule
  {
    match rule
    case Password => 0
    case ApiKey => 1
    case Exec => 2
    case Eval => 3
    case SqlInjection => 4
    case InnerHtml => 5
  }

  lemma IndexOfRule(k: nat)
    requires k < |Rules|
    ensures RuleIndex(Rules[k]) == k
  {
  }

  /** Recovers the rule from the type a finding reports (6 for any other type). */
  function KindIndex(kind: Option<string>): nat {
    if kind == Some("Hardcoded Password") then 0
    else if kind == Some("Hardcoded API Key") then 1
    else if kind == Some("Code Execution") then 2
    else if kind == Some("Code Evaluation") then 3
    else if kind == Some("SQL Injection") then 4
    else if kind == Some("XSS Vulnerability") then 5
    else 6
  }

  /** The reported types are distinct, so the type identifies the rule. */
  lemma KindIdentifiesRule(rule: Rule)
    ensures KindIndex(Some(KindOf(rule))) == RuleIndex(rule)
  {
  }

  /** Sort key of a finding: line first, then rule order. */
  function Rank(f: Finding): nat {
    f.line * 6 + KindIndex(f.kind)
  }

  predicate StrictlyOrdered(fs: seq<Finding>) {
    forall a, b :: 0 <= a < b < |fs| ==> Rank(fs[a]) < Rank(fs[b])
  }

  /** Every rank in `fs` lies in `lo..hi - 1`. */
  predicate RanksWithin(fs: seq<Finding>, lo: nat, hi: nat) {
    forall k :: 0 <= k < |fs| ==> lo <= Rank(fs[k]) < hi
  }

  /** The finding of rule `k` on line `n` ranks `k` places into the line's block. */
  lemma RankOfFinding(k: nat, info: FileInfo, n: nat, line: string)
    requires k < |Rules|
    ensures Rank(MakeFinding(Rules[k], info, n, line)) == n * 6 + k
  {
    KindIdentifiesRule(Rules[k]);
    IndexOfRule(k);
  }

  /** Trying one more rule adds its finding or nothing. */
  lemma LineFindingsStep(m: nat, info: FileInfo, n: nat, line: string)
    requires 0 < m <= |Rules|
    ensures LineFindings(m, info, n, line) == LineFindings(m - 1, info, n, line)
         || LineFindings(m, info, n, line) == LineFindings(m - 1, info, n, line) + [MakeFinding(Rules[m - 1], info, n, line)]
  {
    if !Matches(Rules[m - 1], line) {
      assert LineFindings(m, info, n, line) == LineFindings(m - 1, info, n, line) + [];
    }
  }

  /** A line's findings are at most one per rule, ranked within the line's block, in rule order. */
  lemma {:induction false} LineFindingsOrdered(m: nat, info: FileInfo, n: nat, line: string)
    requires m <= |Rules|
    ensures |LineFindings(m, info, n, line)| <= m
    ensures StrictlyOrdered(LineFindings(m, info, n, line))
    ensures RanksWithin(LineFindings(m, info, n, line), n * 6, n * 6 + m)
  {
    if m > 0 {
      LineFindingsOrdered(m - 1, info, n, line);
      LineFindingsStep(m, info, n, line);
      RankOfFinding(m - 1, info, n, line);
      RankedSnoc(LineFindings(m - 1, info, n, line), MakeFinding(Rules[m - 1], info, n, line),
                 LineFindings(m, info, n, line), n * 6, n * 6 + m - 1);
    }
  }

  /** Appending at most one finding ranked `mid`, after a run ranked below `mid`, keeps the
      run strictly ordered and extends its block by one. */
  lemma RankedSnoc(prev: seq<Finding>, f: Finding, all: seq<Finding>, lo: nat, mid: nat)
    requires all == prev || all == prev + [f]
    requires lo <= mid && Rank(f) == mid
    requires StrictlyOrdered(prev) && RanksWithin(prev, lo, mid)
    ensures |all| <= |prev| + 1 && StrictlyOrdered(all) && RanksWithin(all, lo, mid + 1)
  {
    if all == prev {
      RankedAppend(prev, [], all, lo, mid, mid + 1);
    } else {
      RankedAppend(prev, [f], all, lo, mid, mid + 1);
    }
  }

  /** Two strictly ordered runs whose ranks lie in consecutive blocks make a strictly
      ordered run over both blocks. */
  lemma RankedAppend(prev: seq<Finding>, here: seq<Finding>, all: seq<Finding>, lo: nat, mid: nat, hi: nat)
    requires all == prev + here && lo <= mid <= hi
    requires StrictlyOrdered(prev) && RanksWithin(prev, lo, mid)
    requires StrictlyOrdered(here) && RanksWithin(here, mid, hi)
    ensures StrictlyOrdered(all) && RanksWithin(all, lo, hi)
  {
    forall k | 0 <= k < |all| ensures lo <= Rank(all[k]) < hi {
      if k < |prev| {
        assert all[k] == prev[k];
      } else {
        assert all[k] == here[k - |prev|];
      }
    }
    forall a, b | 0 <= a < b < |all| ensures Rank(all[a]) < Rank(all[b]) {
      if b < |prev| {
        assert all[a] == prev[a] && all[b] == prev[b];
      } else if a < |prev| {
        assert all[a] == prev[a] && all[b] == here[b - |prev|];
      } else {
        assert all[a] == here[a - |prev|] && all[b] == here[b - |prev|];
      }
    }
  }

  /** Every finding of a line is the finding of a rule that matches the line. */
  lemma {:induction false} LineFindingsSound(m: nat, info: FileInfo, n: nat, line: string)
    requires m <= |Rules|
    ensures forall f :: f in LineFindings(m, info, n, line) ==>
      exists r :: Matches(r, line) && f == MakeFinding(r, info, n, line)
  {
    if m > 0 {
      LineFindingsSound(m - 1, info, n, line);
    }
  }

  /** Every rule among the first `m` that matches the line gives its finding. */
  lemma {:induction false} LineFindingsComplete(m: nat, info: FileInfo, n: nat, line: string)
    requires m <= |Rules|
    ensures forall r :: RuleIndex(r) < m && Matches(r, line) ==> MakeFinding(r, info, n, line) in LineFindings(m, info, n, line)
  {
    if m > 0 {
      LineFindingsComplete(m - 1, info, n, line);
      var prev := LineFindings(m - 1, info, n, line);
      var tail := if Matches(Rules[m - 1], line) then [MakeFinding(Rules[m - 1], info, n, line)] else [];
      assert LineFindings(m, info, n, line) == prev + tail;
      forall r | RuleIndex(r) < m && Matches(r, line)
        ensures MakeFinding(r, info, n, line) in prev + tail
      {
        if RuleIndex(r) < m - 1 {
          assert MakeFinding(r, info, n, line) in prev;
        } else {
          assert Rules[m - 1] == r;
          assert tail == [MakeFinding(r, info, n, line)];
        }
      }
    }
  }

  /** Line `n` (1-based) of `lines`. */
  function LineAt(lines: seq<string>, n: nat): string
    requires 1 <= n <= |lines|
  {
    lines[n - 1]
  }

  lemma FileFindingsSnoc(info: FileInfo, lines: seq<string>, line: string)
    ensures FileFindings(info, lines + [line]) == FileFindings(info, lines) + LineFindings(|Rules|, info, |lines| + 1, line)
  {
    assert (lines + [line])[..|lines|] == lines;
  }

  /** The findings of a file are at most six per line and strictly ordered by line, then rule. */
  lemma {:induction false} FileFindingsOrdered(info: FileInfo, lines: seq<string>)
    ensures |FileFindings(info, lines)| <= 6 * |lines|
    ensures StrictlyOrdered(FileFindings(info, lines))
    ensures RanksWithin(FileFindings(info, lines), 6, 6 * (|lines| + 1))
  {
    if lines != [] {
      var init := lines[..|lines| - 1];
      FileFindingsOrdered(info, init);
      LineFindingsOrdered(|Rules|, info, |lines|, lines[|lines| - 1]);
      var prev := FileFindings(info, init);
      var here := LineFindings(|Rules|, info, |lines|, lines[|lines| - 1]);
      assert FileFindings(info, lines) == prev + here;
      RankedAppend(prev, here, FileFindings(info, lines), 6, 6 * |lines|, 6 * (|lines| + 1));
    }
  }

  /** Every finding of a file names a line in 1..|lines| and a rule matching that line, and is
      that rule's finding: severity 'medium', the stripped line, the file's path. */
  lemma {:induction false} FileFindingsSound(info: FileInfo, lines: seq<string>)
    ensures forall f :: f in FileFindings(info, lines) ==>
      1 <= f.line <= |lines| && exists r :: Matches(r, LineAt(lines, f.line)) && f == MakeFinding(r, info, f.line, LineAt(lines, f.line))
  {
    if lines != [] {
      var init := lines[..|lines| - 1];
      FileFindingsSound(info, init);
      LineFindingsSound(|Rules|, info, |lines|, lines[|lines| - 1]);
      var prev := FileFindings(info, init);
      var here := LineFindings(|Rules|, info, |lines|, lines[|lines| - 1]);
      assert FileFindings(info, lines) == prev + here;
      forall f: Finding | f in prev + here
        ensures 1 <= f.line <= |lines|
        ensures exists r :: Matches(r, LineAt(lines, f.line)) && f == MakeFinding(r, info, f.line, LineAt(lines, f.line))
      {
        if f in prev {
          var r :| Matches(r, LineAt(init, f.line)) && f == MakeFinding(r, info, f.line, LineAt(init, f.line));
          assert LineAt(lines, f.line) == LineAt(init, f.line);
        } else {
          assert f in here;
          var r :| Matches(r, lines[|lines| - 1]) && f == MakeFinding(r, info, |lines|, lines[|lines| - 1]);
          assert LineAt(lines, f.line) == lines[|lines| - 1];
        }
      }
    }
  }

  /** Every (line, rule) pair where the rule matches the line gives a finding. */
  lemma {:induction false} FileFindingsComplete(info: FileInfo, lines: seq<string>)
    ensures forall n, r :: 1 <= n <= |lines| && Matches(r, LineAt(lines, n)) ==>
      MakeFinding(r, info, n, LineAt(lines, n)) in FileFindings(info, lines)
  {
    if lines != [] {
      var init := lines[..|lines| - 1];
      FileFindingsComplete(info, init);
      LineFindingsComplete(|Rules|, info, |lines|, lines[|lines| - 1]);
      var prev := FileFindings(info, init);
      var here := LineFindings(|Rules|, info, |lines|, lines[|lines| - 1]);
      assert FileFindings(info, lines) == prev + here;
      forall n, r | 1 <= n <= |lines| && Matches(r, LineAt(lines, n))
        ensures MakeFinding(r, info, n, LineAt(lines, n)) in prev + here
      {
        if n < |lines| {
          assert LineAt(lines, n) == LineAt(init, n);
          assert MakeFinding(r, info, n, LineAt(init, n)) in prev;
        } else {
          assert MakeFinding(r, info, n, lines[|lines| - 1]) in here;
        }
      }
    }
  }

  /** `_scan_file`'s inner loop: every rule, in order, on line `n`. */
  method ScanLine(info: FileInfo, n: nat, line: string) returns (found: seq<Finding>)
    ensures found == LineFindings(|Rules|, info, n, line)
  {
    found := [];
    var j := 0;
    while j < |Rules|
      invariant 0 <= j <= |Rules|
      invariant found == LineFindings(j, info, n, line)
    {
      var rule := Rules[j];
      if Matches(rule, line) {
        found := found + [MakeFinding(rule, info, n, line)];
      }
      j := j + 1;
    }
  }

  /** `_scan_file`'s outer loop: every line, numbered from 1. */
  method ScanLines(info: FileInfo, lines: seq<string>) returns (fs: seq<Finding>)
    ensures fs == FileFindings(info, lines)
  {
    fs := [];
    var i := 0;
    while i < |lines|
      invariant 0 <= i <= |lines|
      invariant fs == FileFindings(info, lines[..i])
    {
      var found := ScanLine(info, i + 1, lines[i]);
      FileFindingsSnoc(info, lines[..i], lines[i]);
      PrefixSnoc(lines, i);
      fs := fs + found;
      i := i + 1;
    }
    assert lines[..i] == lines;
  }

  /** `_scan_file`: reads the file (nothing when it cannot be opened) and scans its lines. */
  method ScanFile(root: Node, info: FileInfo) returns (fs: seq<Finding>)
    ensures fs == FileScan(root, info)
  {
    var content := ReadText(root, info.path);
    if content.None? {
      return [];
    }
    fs := ScanLines(info, ContentLines(content.value));
  }

  /** The findings `_scan_file` returns for one file of the snapshot. */
  function FileScan(root: Node, info: FileInfo): seq<Finding> {
    match ReadText(root, info.path)
    case Some(content) => FileFindings(info, ContentLines(content))
    case None => []
  }

  /** The scanned lines are newline-free, so each rule test is the regular-expression search. */
  lemma ScannedLinesHaveNoNewline(content: string)
    ensures forall k :: 0 <= k < |ContentLines(content)| ==> '\n' !in ContentLines(content)[k]
  {
  }

  /** `split('\n')` counts one line more than the line counter `_analyze_file` stores when the
      text is empty or ends with a newline, and the same number otherwise. */
  lemma ScannedVersusCountedLines(content: string)
    ensures var t := TranslateNewlines(content);
      |ContentLines(content)| == LineCount(content) + (if t == [] || t[|t| - 1] == '\n' then 1 else 0)
  {
    var t := TranslateNewlines(content);
    var extra := if t == [] || t[|t| - 1] == '\n' then 1 else 0;
    SplitHasOneMoreLine(t);
    assert |Split(t, '\n')| == |ReadLines(t)| + extra;
    assert |ContentLines(content)| == |Split(t, '\n')|;
    assert LineCount(content) == |ReadLines(t)|;
  }
}
