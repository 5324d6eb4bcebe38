/** Scoring, compliance, fix suggestions, threat intelligence, analytics and collaboration
    sessions (`AdvancedFeatures` in backend/advanced_features.py). */
module AdvancedFeatures {
  import opened Wrappers
  import opened Text
  import opened Histograms
  import opened Findings
  import opened Dependencies

  // ---------------------------------------------------------------------------------------
  // Security score

  /** Points one finding costs: by `vuln.get('severity', 'medium')`, 10 for any other value. */
  function Deduction(f: Finding): (d: nat)
    ensures 5 <= d <= 20
  {
    var sev := SeverityOrMedium(f);
    if sev == "critical" then 20
    else if sev == "high" then 15
    else if sev == "medium" then 10
    else if sev == "low" then 5
    else 10
  }

  /** The points all findings cost. */
  function TotalDeduction(fs: seq<Finding>): nat {
    if fs == [] then 0 else TotalDeduction(fs[..|fs| - 1]) + Deduction(fs[|fs| - 1])
  }

  lemma {:induction false} TotalDeductionBounds(fs: seq<Finding>)
    ensures 5 * |fs| <= TotalDeduction(fs) <= 20 * |fs|
  {
    if fs != [] {
      TotalDeductionBounds(fs[..|fs| - 1]);
    }
  }

  /** The score before clamping: 100 less the findings' points and 5 per vulnerable dependency. */
  function BaseScore(fs: seq<Finding>, vulnerableDeps: nat): int {
    100 - TotalDeduction(fs) - 5 * vulnerableDeps
  }

  function Clamp(base: int): nat {
    if base < 0 then 0 else base
  }

  /** The grade ladder, with its status. */
  function Grade(score: int): (string, string) {
    if score >= 90 then ("A+", "Excellent")
    else if score >= 80 then ("A", "Good")
    else if score >= 70 then ("B", "Fair")
    else if score >= 60 then ("C", "Poor")
    else ("F", "Critical")
  }

  /** Position of a grade on the ladder, best first. */
  function GradeRank(grade: string): nat {
    if grade == "A+" then 0 else if grade == "A" then 1 else if grade == "B" then 2
    else if grade == "C" then 3 else 4
  }

  /** A higher score never gets a worse grade. */
  lemma GradeMonotone(s1: int, s2: int)
    requires s1 <= s2
    ensures GradeRank(Grade(s2).0) <= GradeRank(Grade(s1).0)
  {
  }

  datatype SecurityScore = SecurityScore(
    score: nat, grade: string, status: string, maxScore: nat,
    vulnerabilitiesDeduction: int, dependenciesDeduction: nat)

  /** `calculate_security_score`; a missing 'vulnerable_deps' key is the empty list. */
  method CalculateSecurityScore(fs: seq<Finding>, vulnerableDeps: seq<Dependency>) returns (r: SecurityScore)
    ensures r.score == Clamp(BaseScore(fs, |vulnerableDeps|)) && r.score <= 100
    ensures (r.grade, r.status) == Grade(r.score)
    ensures r.maxScore == 100
    ensures r.vulnerabilitiesDeduction == 100 - BaseScore(fs, |vulnerableDeps|)
    ensures r.dependenciesDeduction == 5 * |vulnerableDeps|
  {
    var base: int := 100;
    var i := 0;
    while i < |fs|
      invariant 0 <= i <= |fs|
      invariant base == 100 - TotalDeduction(fs[..i])
    {
      assert fs[..i + 1][..i] == fs[..i];
      base := base - Deduction(fs[i]);
      i := i + 1;
    }
    assert fs[..i] == fs;
    if vulnerableDeps != [] {
      base := base - |vulnerableDeps| * 5;
    }
    var score := if base < 0 then 0 else base;
    var (grade, status) := Grade(score);
    r := SecurityScore(score, grade, status, 100, 100 - base, |vulnerableDeps| * 5);
  }

  lemma TotalDeductionSnoc(fs: seq<Finding>, f: Finding)
    ensures TotalDeduction(fs + [f]) == TotalDeduction(fs) + Deduction(f)
  {
    assert (fs + [f])[..|fs|] == fs;
  }

  /** One more finding lowers the unclamped score by 5 to 20 points and never raises the score. */
  lemma ScoreDropsPerFinding(fs: seq<Finding>, f: Finding, vulnerableDeps: nat)
    ensures 5 <= BaseScore(fs, vulnerableDeps) - BaseScore(fs + [f], vulnerableDeps) <= 20
    ensures Clamp(BaseScore(fs + [f], vulnerableDeps)) <= Clamp(BaseScore(fs, vulnerableDeps))
  {
    TotalDeductionSnoc(fs, f);
  }

  /** With no findings and no vulnerable dependencies the score is a perfect A+. */
  lemma CleanProjectScore()
    ensures Clamp(BaseScore([], 0)) == 100 && Grade(100) == ("A+", "Excellent")
  {
  }

  /** Five critical findings or more bring the score to 0, grade F. */
  lemma ManyCriticalFindings(fs: seq<Finding>, vulnerableDeps: nat)
    requires |fs| >= 5 && forall f :: f in fs ==> f.severity == Some("critical")
    ensures Clamp(BaseScore(fs, vulnerableDeps)) == 0 && Grade(0).0 == "F"
  {
    AllCritical(fs);
  }

  lemma {:induction false} AllCritical(fs: seq<Finding>)
    requires forall f :: f in fs ==> f.severity == Some("critical")
    ensures TotalDeduction(fs) == 20 * |fs|
  {
    if fs != [] {
      assert fs[|fs| - 1] in fs;
      AllCritical(fs[..|fs| - 1]);
    }
  }

  // ---------------------------------------------------------------------------------------
  // Compliance

  datatype Standard = Standard(status: string, issues: seq<string>, score: int)

  const OwaspTop10 := "OWASP Top 10"
  const InjectionIssue := "A03:2021 - Injection"
  const AuthenticationIssue := "A07:2021 - Identification and Authentication Failures"

  /** The five standards as the report initialises them. */
  const InitialStandards: map<string, Standard> := map[
    OwaspTop10 := Standard("Compliant", [], 95),
    "CWE Top 25" := Standard("Compliant", [], 92),
    "ISO 27001" := Standard("Partially Compliant", ["Code review process needed"], 78),
    "SOC 2" := Standard("Compliant", [], 88),
    "GDPR" := Standard("Compliant", [], 85)]

  /** `vuln.get('type', '').lower()`. */
  function LoweredKind(f: Finding): string {
    LowerStr(f.kind.GetOr(""))
  }

  predicate IsSqlInjection(f: Finding) {
    Contains(LoweredKind(f), "sql injection")
  }

  predicate IsXss(f: Finding) {
    Contains(LoweredKind(f), "xss") || Contains(LoweredKind(f), "cross-site scripting")
  }

  predicate IsAuthentication(f: Finding) {
    Contains(LoweredKind(f), "authentication")
  }

  /** The OWASP issues one finding adds: the three tests are independent. */
  function OwaspIssuesOf(f: Finding): seq<string> {
    (if IsSqlInjection(f) then [InjectionIssue] else [])
    + (if IsXss(f) then [InjectionIssue] else [])
    + (if IsAuthentication(f) then [AuthenticationIssue] else [])
  }

  /** The points one finding takes off the OWASP score. */
  function OwaspPenalty(f: Finding): (p: nat)
    ensures p <= 12
  {
    (if IsSqlInjection(f) then 5 else 0) + (if IsXss(f) then 3 else 0) + (if IsAuthentication(f) then 4 else 0)
  }

  function OwaspIssues(fs: seq<Finding>): seq<string> {
    if fs == [] then [] else OwaspIssues(fs[..|fs| - 1]) + OwaspIssuesOf(fs[|fs| - 1])
  }

  function OwaspPenalties(fs: seq<Finding>): nat {
    if fs == [] then 0 else OwaspPenalties(fs[..|fs| - 1]) + OwaspPenalty(fs[|fs| - 1])
  }

  lemma OwaspSnoc(fs: seq<Finding>, f: Finding)
    ensures OwaspIssues(fs + [f]) == OwaspIssues(fs) + OwaspIssuesOf(f)
    ensures OwaspPenalties(fs + [f]) == OwaspPenalties(fs) + OwaspPenalty(f)
  {
    assert (fs + [f])[..|fs|] == fs;
  }

  /** The loop of `generate_compliance_report`: the OWASP entry's issue list and score after
      every finding has been looked at, starting from no issues and 95 points. */
  method OwaspReview(fs: seq<Finding>) returns (issues: seq<string>, score: int)
    ensures issues == OwaspIssues(fs) && score == 95 - OwaspPenalties(fs)
  {
    issues := [];
    score := 95;
    var i := 0;
    while i < |fs|
      invariant 0 <= i <= |fs|
      invariant issues == OwaspIssues(fs[..i])
      invariant score == 95 - OwaspPenalties(fs[..i])
    {
      PrefixSnoc(fs, i);
      OwaspSnoc(fs[..i], fs[i]);
      issues, score := OwaspStep(issues, score, fs[i]);
      i := i + 1;
    }
    assert fs[..i] == fs;
  }

  /** The body of that loop: the three independent type tests for one finding. */
  method OwaspStep(issues: seq<string>, score: int, f: Finding) returns (issues': seq<string>, score': int)
    ensures issues' == issues + OwaspIssuesOf(f) && score' == score - OwaspPenalty(f)
  {
    issues', score' := issues, score;
    if IsSqlInjection(f) {
      issues' := issues' + [InjectionIssue];
      score' := score' - 5;
    }
    if IsXss(f) {
      issues' := issues' + [InjectionIssue];
      score' := score' - 3;
    }
    if IsAuthentication(f) {
      issues' := issues' + [AuthenticationIssue];
      score' := score' - 4;
    }
  }

  /** `generate_compliance_report` (the project type is not consulted). */
  method GenerateComplianceReport(fs: seq<Finding>, projectType: string) returns (r: map<string, Standard>)
    ensures r.Keys == InitialStandards.Keys
    ensures forall name :: name in r && name != OwaspTop10 ==> r[name] == InitialStandards[name]
    ensures r[OwaspTop10] == Standard("Compliant", OwaspIssues(fs), 95 - OwaspPenalties(fs))
  {
    var issues, score := OwaspReview(fs);
    r := InitialStandards[OwaspTop10 := Standard("Compliant", issues, score)];
  }

  /** Each OWASP issue is paired with its penalty: the score falls by 3 to 5 points per issue,
      and it has no lower bound (95 - 12 points per finding at worst). */
  lemma {:induction false} OwaspScoreTracksIssues(fs: seq<Finding>)
    ensures 3 * |OwaspIssues(fs)| <= OwaspPenalties(fs) <= 5 * |OwaspIssues(fs)|
    ensures |OwaspIssues(fs)| <= 3 * |fs| && OwaspPenalties(fs) <= 12 * |fs|
  {
    if fs != [] {
      OwaspScoreTracksIssues(fs[..|fs| - 1]);
    }
  }

  /** A finding whose type mentions none of the three topics leaves the OWASP entry alone. */
  lemma UnrelatedFindingChangesNothing(fs: seq<Finding>, f: Finding)
    requires !IsSqlInjection(f) && !IsXss(f) && !IsAuthentication(f)
    ensures OwaspIssues(fs + [f]) == OwaspIssues(fs)
    ensures OwaspPenalties(fs + [f]) == OwaspPenalties(fs)
  {
    assert (fs + [f])[..|fs|] == fs;
  }

  // ---------------------------------------------------------------------------------------
  // Automated fixes

  datatype Fix = Fix(vulnerability: Finding, fixType: string, difficulty: string, estimatedTime: string)

  /** `vuln.get('language', 'python')`. */
  function LanguageOrPython(f: Finding): string {
    f.language.GetOr("python")
  }

  /** The fix the rule table gives one finding: the first topic that the type mentions
      decides, and a topic without a fix for the language gives none. */
  function FixFor(f: Finding): Option<Fix> {
    var lang := LanguageOrPython(f);
    if IsSqlInjection(f) then
      if lang == "python" then Some(Fix(f, "Parameterized Query", "Easy", "5 minutes"))
      else if lang == "javascript" then Some(Fix(f, "Prepared Statement", "Easy", "5 minutes"))
      else None
    else if IsXss(f) then
      if lang == "javascript" then Some(Fix(f, "Input Sanitization", "Medium", "10 minutes")) else None
    else if Contains(LoweredKind(f), "hardcoded") then Some(Fix(f, "Environment Variables", "Easy", "3 minutes"))
    else None
  }

  function FixesOf(fs: seq<Finding>): seq<Fix> {
    if fs == [] then []
    else
      var last := fs[|fs| - 1];
      FixesOf(fs[..|fs| - 1]) + (match FixFor(last) case Some(x) => [x] case None => [])
  }

  /** `generate_automated_fixes`. */
  method GenerateAutomatedFixes(fs: seq<Finding>) returns (fixes: seq<Fix>)
    ensures fixes == FixesOf(fs)
  {
    fixes := [];
    var i := 0;
    while i < |fs|
      invariant 0 <= i <= |fs|
      invariant fixes == FixesOf(fs[..i])
    {
      assert fs[..i + 1][..i] == fs[..i];
      var fix := FixFor(fs[i]);
      if fix.Some? {
        fixes := fixes + [fix.value];
      }
      i := i + 1;
    }
    assert fs[..i] == fs;
  }

  /** At most one fix per finding, each for a finding of the input; SQL-injection fixes only
      for python (also the default) and javascript, XSS fixes only for javascript. */
  lemma {:induction false} FixesSpec(fs: seq<Finding>)
    ensures |FixesOf(fs)| <= |fs|
    ensures forall x :: x in FixesOf(fs) ==> x.vulnerability in fs && FixFor(x.vulnerability) == Some(x)
    ensures forall x :: x in FixesOf(fs) && IsSqlInjection(x.vulnerability) ==>
      LanguageOrPython(x.vulnerability) in {"python", "javascript"}
    ensures forall x :: x in FixesOf(fs) && IsXss(x.vulnerability) && !IsSqlInjection(x.vulnerability) ==>
      LanguageOrPython(x.vulnerability) == "javascript"
  {
    if fs != [] {
      var init := fs[..|fs| - 1];
      var last := fs[|fs| - 1];
      FixesSpec(init);
      var tail := match FixFor(last) case Some(x) => [x] case None => [];
      assert FixesOf(fs) == FixesOf(init) + tail;
      assert forall x :: x in tail ==> x == FixFor(last).value && x.vulnerability == last;
      assert forall f :: f in init ==> f in fs;
    }
  }

  /** A hard-coded-secret finding, for instance the scanner's 'Hardcoded Password', always
      gets the environment-variable fix, whatever its language. */
  lemma HardcodedAlwaysFixed(f: Finding)
    requires Contains(LoweredKind(f), "hardcoded") && !IsSqlInjection(f) && !IsXss(f)
    ensures FixFor(f).Some? && FixFor(f).value.fixType == "Environment Variables"
  {
  }

  // ---------------------------------------------------------------------------------------
  // Threat intelligence

  const ThreatActors: seq<string> := ["script_kiddies", "cyber_criminals", "nation_state"]

  /** `vuln.get('severity') in ['high', 'critical']` (a missing severity is neither). */
  predicate HighOrCritical(f: Finding) {
    f.severity == Some("high") || f.severity == Some("critical")
  }

  function CountHighOrCritical(fs: seq<Finding>): (n: nat)
    ensures n <= |fs|
  {
    if fs == [] then 0
    else CountHighOrCritical(fs[..|fs| - 1]) + (if HighOrCritical(fs[|fs| - 1]) then 1 else 0)
  }

  /** The risk ladder: High above 3 applicable findings, Medium above 1, else Low. */
  function RiskLevel(n: nat): string {
    if n > 3 then "High" else if n > 1 then "Medium" else "Low"
  }

  function RiskRank(level: string): nat {
    if level == "High" then 2 else if level == "Medium" then 1 else 0
  }

  /** More applicable findings never lower the risk level. */
  lemma RiskLevelMonotone(m: nat, n: nat)
    requires m <= n
    ensures RiskRank(RiskLevel(m)) <= RiskRank(RiskLevel(n))
  {
  }

  datatype ActorAnalysis = ActorAnalysis(applicable: nat, riskLevel: string)

  datatype ThreatReport = ThreatReport(
    actors: map<string, ActorAnalysis>, overallRiskLevel: string, intelligenceScore: nat, lastUpdated: string)

  /** `generate_threat_intelligence_report`; the profile texts are left out and the time is
      passed in. */
  method GenerateThreatIntelligenceReport(fs: seq<Finding>, now: string) returns (r: ThreatReport)
    ensures r.actors.Keys == set a | a in ThreatActors
    ensures forall a :: a in r.actors ==>
      r.actors[a].applicable == CountHighOrCritical(fs) && r.actors[a].riskLevel == RiskLevel(CountHighOrCritical(fs))
    ensures r.overallRiskLevel == "Medium" && r.intelligenceScore == 78 && r.lastUpdated == now
  {
    var analysis: map<string, ActorAnalysis> := map[];
    var k := 0;
    while k < |ThreatActors|
      invariant 0 <= k <= |ThreatActors|
      invariant analysis.Keys == set a | a in ThreatActors[..k]
      invariant forall a :: a in analysis ==>
        analysis[a] == ActorAnalysis(CountHighOrCritical(fs), RiskLevel(CountHighOrCritical(fs)))
    {
      var applicable := 0;
      var i := 0;
      while i < |fs|
        invariant 0 <= i <= |fs|
        invariant applicable == CountHighOrCritical(fs[..i])
      {
        assert fs[..i + 1][..i] == fs[..i];
        if fs[i].severity == Some("high") || fs[i].severity == Some("critical") {
          applicable := applicable + 1;
        }
        i := i + 1;
      }
      assert fs[..i] == fs;
      PrefixSnoc(ThreatActors, k);
      analysis := analysis[ThreatActors[k] := ActorAnalysis(applicable, RiskLevel(applicable))];
      k := k + 1;
    }
    assert ThreatActors[..k] == ThreatActors;
    r := ThreatReport(analysis, "Medium", 78, now);
  }

  // ---------------------------------------------------------------------------------------
  // Zero-day patterns

  datatype ZeroDayPattern = ZeroDayPattern(kind: string, confidence: nat)

  /** `detect_zero_day_patterns`: one pattern per marker key present, in a fixed order. */
  function DetectZeroDayPatterns(keys: set<string>): (r: seq<ZeroDayPattern>)
    ensures |r| <= 3
    ensures ZeroDayPattern("Suspicious Import Pattern", 75) in r <==> "unusual_imports" in keys
    ensures ZeroDayPattern("Code Obfuscation", 90) in r <==> "obfuscated_code" in keys
    ensures ZeroDayPattern("Suspicious Network Activity", 80) in r <==> "unusual_network_calls" in keys
    ensures forall p :: p in r ==> 75 <= p.confidence <= 90
  {
    (if "unusual_imports" in keys then [ZeroDayPattern("Suspicious Import Pattern", 75)] else [])
    + (if "obfuscated_code" in keys then [ZeroDayPattern("Code Obfuscation", 90)] else [])
    + (if "unusual_network_calls" in keys then [ZeroDayPattern("Suspicious Network Activity", 80)] else [])
  }

  // ---------------------------------------------------------------------------------------
  // Analytics

  /** `vuln.get('type', 'Unknown')`. */
  function KindOrUnknown(f: Finding): string {
    f.kind.GetOr("Unknown")
  }

  function KindsOrUnknown(fs: seq<Finding>): (r: seq<string>)
    ensures |r| == |fs| && forall i :: 0 <= i < |fs| ==> r[i] == KindOrUnknown(fs[i])
  {
    seq(|fs|, i requires 0 <= i < |fs| => KindOrUnknown(fs[i]))
  }

  datatype Analytics = Analytics(
    totalFilesScanned: nat, vulnerabilitiesFound: nat,
    critical: nat, high: nat, medium: nat, low: nat,
    languageDistribution: map<string, nat>, vulnerabilityTypes: map<string, nat>)

  /** `generate_advanced_analytics`, counts only: `totalFiles` is the scan summary's
      'total_files' if present. */
  method GenerateAdvancedAnalytics(totalFiles: Option<nat>, fs: seq<Finding>, languages: map<string, nat>)
    returns (r: Analytics)
    ensures r.totalFilesScanned == totalFiles.GetOr(0) && r.vulnerabilitiesFound == |fs|
    ensures r.critical == CountSeverity(fs, "critical") && r.high == CountSeverity(fs, "high")
    ensures r.medium == CountSeverity(fs, "medium") && r.low == CountSeverity(fs, "low")
    ensures r.critical + r.high + r.medium + r.low <= r.vulnerabilitiesFound
    ensures r.languageDistribution == languages
    ensures forall t :: t in r.vulnerabilityTypes <==> t in KindsOrUnknown(fs)
    ensures forall t :: t in r.vulnerabilityTypes ==> r.vulnerabilityTypes[t] == Count(KindsOrUnknown(fs), t)
    ensures MapSum(r.vulnerabilityTypes) == |fs|
  {
    var types: map<string, nat> := map[];
    var i := 0;
    while i < |fs|
      invariant 0 <= i <= |fs|
      invariant types == TallyAll(map[], KindsOrUnknown(fs[..i]))
    {
      assert KindsOrUnknown(fs[..i + 1]) == KindsOrUnknown(fs[..i]) + [KindOrUnknown(fs[i])];
      TallyAllSnoc(map[], KindsOrUnknown(fs[..i]), KindOrUnknown(fs[i]));
      types := Tally(types, KindOrUnknown(fs[i]));
      i := i + 1;
    }
    assert fs[..i] == fs;
    var kinds := KindsOrUnknown(fs);
    forall t ensures (t in types <==> t in kinds) && (t in types ==> types[t] == Count(kinds, t)) {
      TallyAllAt(map[], kinds, t);
    }
    TallyAllSum(map[], kinds);
    var none: map<string, nat> := map[];
    assert MapSum(none) == 0;
    SeverityBucketsBounded(fs);
    r := Analytics(totalFiles.GetOr(0), |fs|,
                   CountSeverity(fs, "critical"), CountSeverity(fs, "high"),
                   CountSeverity(fs, "medium"), CountSeverity(fs, "low"),
                   languages, types);
  }

  // ---------------------------------------------------------------------------------------
  // Collaboration sessions

  datatype Message = Message(
    id: string, user: string, text: string, kind: string, timestamp: string, likes: nat,
    replies: seq<Message>)

  datatype Session = Session(
    id: string, projectId: string, users: seq<string>, createdAt: string, status: string,
    messages: seq<Message>, sharedFindings: seq<Finding>, collaborativeFixes: seq<Fix>)

  /** The `collaboration_sessions` state of an `AdvancedFeatures` object (its other fields are
      never updated); ids and times are supplied by the caller in place of `uuid4()` and
      `datetime.now()`. */
  class Collaboration {
    var collaborationSessions: map<string, Session>

    constructor()
      ensures collaborationSessions == map[]
    {
      collaborationSessions := map[];
    }

    /** `create_collaboration_session`: registers an active session with no messages. */
    method CreateSession(projectId: string, users: seq<string>, sessionId: string, now: string)
      returns (session: Session)
      modifies this
      ensures session == Session(sessionId, projectId, users, now, "active", [], [], [])
      ensures collaborationSessions == old(collaborationSessions)[sessionId := session]
    {
      session := Session(sessionId, projectId, users, now, "active", [], [], []);
      collaborationSessions := collaborationSessions[sessionId := session];
    }

    /** `add_collaboration_message`: an unknown session id is an error and changes nothing;
        otherwise exactly one message is appended to that session and no other. The message
        type defaults to "comment". */
    method AddMessage(sessionId: string, user: string, text: string, messageId: string, now: string,
                      kind: string := "comment")
      returns (r: Result<Message>)
      modifies this
      ensures sessionId !in old(collaborationSessions) ==>
        r == Err("Session not found") && collaborationSessions == old(collaborationSessions)
      ensures sessionId in old(collaborationSessions) ==>
        var before := old(collaborationSessions)[sessionId];
        r == Ok(Message(messageId, user, text, kind, now, 0, []))
        && collaborationSessions == old(collaborationSessions)[sessionId := before.(messages := before.messages + [r.value])]
      ensures collaborationSessions.Keys == old(collaborationSessions).Keys
      ensures forall id :: id in collaborationSessions && id != sessionId ==>
        collaborationSessions[id] == old(collaborationSessions)[id]
    {
      if sessionId !in collaborationSessions {
        return Err("Session not found");
      }
      var message := Message(messageId, user, text, kind, now, 0, []);
      var session := collaborationSessions[sessionId];
      collaborationSessions := collaborationSessions[sessionId := session.(messages := session.messages + [message])];
      r := Ok(message);
    }
  }
}
