/** The rule-based helpers of `AIVulnerabilityAnalyzer` (backend/ai_analyzer.py): the summary
    counts, the risk assessment, the recommendation list and the fix priority. */
module AiAnalyzer {
  import opened Wrappers
  import opened Text
  import opened Findings

  /** These helpers index `v['severity']` and `v['type']` directly, so a finding without
      them raises; the model asks for them instead. */
  predicate HasSeverity(fs: seq<Finding>) {
    forall f :: f in fs ==> f.severity.Some?
  }

  predicate HasKind(fs: seq<Finding>) {
    forall f :: f in fs ==> f.kind.Some?
  }

  // ---------------------------------------------------------------------------------------
  // Summary

  datatype Summary =
    | NothingDetected
    | Counts(total: nat, critical: nat, high: nat, medium: nat, low: nat, actions: seq<string>)

  function CriticalAction(n: nat): string {
    "- " + NatToString(n) + " critical vulnerabilities need immediate attention\n"
  }

  function HighAction(n: nat): string {
    "- " + NatToString(n) + " high-severity vulnerabilities should be addressed soon\n"
  }

  /** `_generate_summary`: the counts it prints and the action lines it appends. */
  function GenerateSummary(fs: seq<Finding>): (r: Summary)
    requires HasSeverity(fs)
    ensures fs == [] <==> r == NothingDetected
    ensures r.Counts? ==>
      r.total == |fs|
      && r.critical == CountSeverity(fs, "critical") && r.high == CountSeverity(fs, "high")
      && r.medium == CountSeverity(fs, "medium") && r.low == CountSeverity(fs, "low")
      && r.critical + r.high + r.medium + r.low <= r.total
    ensures r.Counts? ==>
      (CriticalAction(r.critical) in r.actions <==> r.critical > 0)
      && (HighAction(r.high) in r.actions <==> r.high > 0)
      && |r.actions| <= 2
  {
    if fs == [] then NothingDetected
    else
      var critical := CountSeverity(fs, "critical");
      var high := CountSeverity(fs, "high");
      SeverityBucketsBounded(fs);
      ActionsDiffer(critical, high);
      Counts(|fs|, critical, high, CountSeverity(fs, "medium"), CountSeverity(fs, "low"),
             (if critical > 0 then [CriticalAction(critical)] else [])
             + (if high > 0 then [HighAction(high)] else []))
  }

  /** The two action lines can never be mistaken for each other. */
  lemma ActionsDiffer(m: nat, n: nat)
    ensures CriticalAction(m) != HighAction(n)
  {
    var c := CriticalAction(m);
    var h := HighAction(n);
    // "...attention\n" and "...soon\n" differ four characters from the end
    assert c[|c| - 4] == 'i';
    assert h[|h| - 4] == 'o';
  }

  // ---------------------------------------------------------------------------------------
  // Risk assessment

  /** The weight of one finding: 0 for a severity outside the four. */
  function Weight(f: Finding): (w: nat)
    ensures w <= 10
  {
    if f.severity == Some("critical") then 10
    else if f.severity == Some("high") then 7
    else if f.severity == Some("medium") then 4
    else if f.severity == Some("low") then 1
    else 0
  }

  function RiskScore(fs: seq<Finding>): nat {
    if fs == [] then 0 else RiskScore(fs[..|fs| - 1]) + Weight(fs[|fs| - 1])
  }

  lemma RiskScoreSnoc(fs: seq<Finding>, f: Finding)
    ensures RiskScore(fs + [f]) == RiskScore(fs) + Weight(f)
  {
    assert (fs + [f])[..|fs|] == fs;
  }

  /** The score is the weighted count of the four severities. */
  lemma {:induction false} RiskScoreIsWeightedCount(fs: seq<Finding>)
    ensures RiskScore(fs) == 10 * CountSeverity(fs, "critical") + 7 * CountSeverity(fs, "high")
                           + 4 * CountSeverity(fs, "medium") + CountSeverity(fs, "low")
  {
    if fs != [] {
      RiskScoreIsWeightedCount(fs[..|fs| - 1]);
    }
  }

  const CriticalRisk := "Immediate action required. Multiple critical vulnerabilities detected."
  const HighRisk := "High risk. Several vulnerabilities need attention."
  const MediumRisk := "Medium risk. Some vulnerabilities should be addressed."
  const LowRisk := "Low risk. Minor vulnerabilities detected."

  /** The level ladder and its description. */
  function RiskLevel(score: nat): (string, string) {
    if score >= 20 then ("critical", CriticalRisk)
    else if score >= 10 then ("high", HighRisk)
    else if score >= 5 then ("medium", MediumRisk)
    else ("low", LowRisk)
  }

  function LevelRank(level: string): nat {
    if level == "critical" then 3 else if level == "high" then 2 else if level == "medium" then 1 else 0
  }

  datatype Risk = Risk(level: string, score: nat, description: string)

  /** `_assess_risk`. */
  method AssessRisk(fs: seq<Finding>) returns (r: Risk)
    requires HasSeverity(fs)
    ensures fs == [] ==> r == Risk("low", 0, "No vulnerabilities detected")
    ensures fs != [] ==> r.score == RiskScore(fs) && (r.level, r.description) == RiskLevel(r.score)
  {
    if fs == [] {
      return Risk("low", 0, "No vulnerabilities detected");
    }
    var score := 0;
    var i := 0;
    while i < |fs|
      invariant 0 <= i <= |fs|
      invariant score == RiskScore(fs[..i])
    {
      PrefixSnoc(fs, i);
      RiskScoreSnoc(fs[..i], fs[i]);
      var sev := fs[i].severity.value;
      if sev == "critical" {
        score := score + 10;
      } else if sev == "high" {
        score := score + 7;
      } else if sev == "medium" {
        score := score + 4;
      } else if sev == "low" {
        score := score + 1;
      }
      i := i + 1;
    }
    assert fs[..i] == fs;
    var (level, description) := RiskLevel(score);
    r := Risk(level, score, description);
  }

  /** Adding a finding never lowers the score nor the level, and two criticals are already
      the top level. */
  lemma MoreFindingsMoreRisk(fs: seq<Finding>, f: Finding)
    ensures RiskScore(fs) <= RiskScore(fs + [f])
    ensures LevelRank(RiskLevel(RiskScore(fs)).0) <= LevelRank(RiskLevel(RiskScore(fs + [f])).0)
  {
    RiskScoreSnoc(fs, f);
  }

  lemma TwoCriticalsAreCritical(fs: seq<Finding>)
    requires CountSeverity(fs, "critical") >= 2
    ensures RiskLevel(RiskScore(fs)).0 == "critical"
  {
    RiskScoreIsWeightedCount(fs);
  }

  // ---------------------------------------------------------------------------------------
  // Recommendations

  /** The six vulnerability types with specific advice, in the order they are tested. */
  const AdvisedTypes: seq<string> := [
    "SQL Injection", "Command Injection", "Cross-site Scripting (XSS)",
    "Buffer Overflow", "Path Traversal", "Hardcoded Credentials"]

  const Advice: seq<string> := [
    "Implement parameterized queries and input validation",
    "Avoid command execution with user input, use safe APIs",
    "Implement input sanitization and Content Security Policy",
    "Use safe string functions and implement bounds checking",
    "Validate file paths and implement proper access controls",
    "Use environment variables or secure credential management"]

  const GeneralAdvice: seq<string> := [
    "Implement regular security audits",
    "Use automated security testing tools",
    "Follow OWASP security guidelines",
    "Keep dependencies updated",
    "Implement proper logging and monitoring"]

  const ContinueAdvice := "Continue following security best practices"

  function Kinds(fs: seq<Finding>): (r: seq<string>)
    requires HasKind(fs)
    ensures |r| == |fs| && forall i :: 0 <= i < |fs| ==> Some(r[i]) == fs[i].kind
  {
    seq(|fs|, i requires 0 <= i < |fs| => fs[i].kind.value)
  }

  /** The specific advice of the first `k` table rows, for the types that occur. */
  function AdviceUpTo(k: nat, kinds: seq<string>): seq<string>
    requires k <= 6
  {
    if k == 0 then []
    else AdviceUpTo(k - 1, kinds) + (if AdvisedTypes[k - 1] in kinds then [Advice[k - 1]] else [])
  }

  lemma AdviceDistinct()
    ensures forall i, j :: 0 <= i < j < 6 ==> Advice[i] != Advice[j]
  {
    assert |Advice[0]| == 52 && |Advice[1]| == 54 && |Advice[2]| == 56;
    assert |Advice[3]| == 55 && |Advice[4]| == 56 && |Advice[5]| == 57;
    assert Advice[2][55] == 'y' && Advice[4][55] == 's';
  }

  /** The table row of an advice text, 6 for a text of no row. */
  function AdviceIndex(a: string): (i: nat)
    ensures i <= 6 && (i < 6 ==> Advice[i] == a)
  {
    if a == Advice[0] then 0
    else if a == Advice[1] then 1
    else if a == Advice[2] then 2
    else if a == Advice[3] then 3
    else if a == Advice[4] then 4
    else if a == Advice[5] then 5
    else 6
  }

  lemma AdviceIndexOfRow(j: nat)
    requires j < 6
    ensures AdviceIndex(Advice[j]) == j
  {
    AdviceDistinct();
  }

  /** Row `j`'s advice is given exactly when its type occurs, each at most once. */
  lemma {:induction false} AdviceUpToSpec(k: nat, kinds: seq<string>)
    requires k <= 6
    ensures forall a :: a in AdviceUpTo(k, kinds) ==>
      exists j :: 0 <= j < k && a == Advice[j] && AdvisedTypes[j] in kinds
    ensures forall j :: 0 <= j < k ==> (Advice[j] in AdviceUpTo(k, kinds) <==> AdvisedTypes[j] in kinds)
    ensures forall p, q :: 0 <= p < q < |AdviceUpTo(k, kinds)| ==>
      AdviceUpTo(k, kinds)[p] != AdviceUpTo(k, kinds)[q]
    ensures |AdviceUpTo(k, kinds)| <= k
  {
    AdviceDistinct();
    if k > 0 {
      AdviceUpToSpec(k - 1, kinds);
      var init := AdviceUpTo(k - 1, kinds);
      assert Advice[k - 1] !in init;
    }
  }

  /** The specific advice comes in table order: each item's row is below `k` and rows
      strictly increase along the list. */
  lemma {:induction false} AdviceUpToOrdered(k: nat, kinds: seq<string>)
    requires k <= 6
    ensures forall p :: 0 <= p < |AdviceUpTo(k, kinds)| ==> AdviceIndex(AdviceUpTo(k, kinds)[p]) < k
    ensures forall p, q :: 0 <= p < q < |AdviceUpTo(k, kinds)| ==>
      AdviceIndex(AdviceUpTo(k, kinds)[p]) < AdviceIndex(AdviceUpTo(k, kinds)[q])
  {
    if k > 0 {
      AdviceUpToOrdered(k - 1, kinds);
      var init := AdviceUpTo(k - 1, kinds);
      AdviceIndexOfRow(k - 1);
      if AdvisedTypes[k - 1] in kinds {
        var all := AdviceUpTo(k, kinds);
        assert all == init + [Advice[k - 1]];
        forall p | 0 <= p < |all| ensures AdviceIndex(all[p]) < k {
          if p < |init| { assert all[p] == init[p]; }
        }
        forall p, q | 0 <= p < q < |all| ensures AdviceIndex(all[p]) < AdviceIndex(all[q]) {
          assert all[p] == init[p];
          if q < |init| { assert all[q] == init[q]; }
        }
      } else {
        assert AdviceUpTo(k, kinds) == init + [];
      }
    }
  }

  /** `_generate_recommendations`. */
  method GenerateRecommendations(fs: seq<Finding>) returns (r: seq<string>)
    requires HasKind(fs)
    ensures fs == [] ==> r == [ContinueAdvice]
    ensures fs != [] ==> r == AdviceUpTo(6, Kinds(fs)) + GeneralAdvice
  {
    if fs == [] {
      return [ContinueAdvice];
    }
    var kinds := Kinds(fs);
    r := [];
    if AdvisedTypes[0] in kinds {
      r := r + [Advice[0]];
    }
    assert r == AdviceUpTo(1, kinds);
    if AdvisedTypes[1] in kinds {
      r := r + [Advice[1]];
    }
    assert r == AdviceUpTo(2, kinds);
    if AdvisedTypes[2] in kinds {
      r := r + [Advice[2]];
    }
    assert r == AdviceUpTo(3, kinds);
    if AdvisedTypes[3] in kinds {
      r := r + [Advice[3]];
    }
    assert r == AdviceUpTo(4, kinds);
    if AdvisedTypes[4] in kinds {
      r := r + [Advice[4]];
    }
    assert r == AdviceUpTo(5, kinds);
    if AdvisedTypes[5] in kinds {
      r := r + [Advice[5]];
    }
    r := r + GeneralAdvice;
  }

  /** For a nonempty input: one item per listed type that occurs, none twice, in table
      order, then exactly the five general items. */
  lemma RecommendationsShape(fs: seq<Finding>)
    requires HasKind(fs) && fs != []
    ensures var r := AdviceUpTo(6, Kinds(fs)) + GeneralAdvice;
      6 + 5 >= |r| >= 5 && r[|r| - 5..] == GeneralAdvice
      && (forall j :: 0 <= j < 6 ==> (Advice[j] in r[..|r| - 5] <==> AdvisedTypes[j] in Kinds(fs)))
      && (forall p, q :: 0 <= p < q < |r| - 5 ==> r[p] != r[q])
      && (forall p, q :: 0 <= p < q < |r| - 5 ==> AdviceIndex(r[p]) < AdviceIndex(r[q]))
  {
    AdviceUpToSpec(6, Kinds(fs));
    AdviceUpToOrdered(6, Kinds(fs));
    var a := AdviceUpTo(6, Kinds(fs));
    assert (a + GeneralAdvice)[..|a|] == a;
  }

  // ---------------------------------------------------------------------------------------
  // Priority

  /** `_get_priority`: the four severities map one-to-one onto the four priorities, and any
      other value gets 'Medium'. */
  function GetPriority(severity: string): (p: string)
    ensures p == "Immediate" <==> severity == "critical"
    ensures p == "High" <==> severity == "high"
    ensures p == "Low" <==> severity == "low"
    ensures p == "Medium" <==> severity !in {"critical", "high", "low"}
  {
    if severity == "critical" then "Immediate"
    else if severity == "high" then "High"
    else if severity == "medium" then "Medium"
    else if severity == "low" then "Low"
    else "Medium"
  }
}
