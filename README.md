# SudarshanChakraAI scanner core in Dafny

This project models the rule-based core of the SudarshanChakraAI security scanner. It has three parts.

- **Repository scanner** (`backend/repository_scanner.py`). It parses a GitHub, GitLab or Bitbucket URL, walks the downloaded tree with `os.walk`, and keeps the same ignore rules as the source. It classifies files by extension and picks the project type with the source's if-chain. It surveys dependencies from `requirements.txt` and `package.json` and from marker files. It runs the six per-line vulnerability patterns over every code file, or over the first ten code files for any scan type other than `'full'`. It adds the repository-level checks for sensitive and large files. Finally it assembles the report: a severity breakdown and the one-to-three recommendations.
- **Advanced features** (`backend/advanced_features.py`). This covers the security score and grade, the OWASP compliance entry, the automated-fix rule table, the threat-intelligence risk ladder, zero-day markers, analytics counts, and the collaboration-session registry.
- **Risk helpers** (`backend/ai_analyzer.py`). These are the summary counts, the weighted risk assessment, the recommendation list and the fix priority.

How the source's parts are represented:

- The downloaded repository is a value of type `TreeWalk.Node`: a tree of named files (size and decoded text) and directories.
- The walk is `TreeWalk.Walk`. It is top-down: a directory's files first, then its sub-directories in order. Pruning is by exact name.
- Reading a file is `TreeWalk.ReadText`. It follows the '/'-separated path and takes the first child of each name.
- Text read in text mode goes through universal-newline translation (`Text.TranslateNewlines`).
- `readlines` and `split('\n')` are modelled separately, and `Detection.ScannedVersusCountedLines` states how they differ.
- `re.search` with `re.IGNORECASE` is modelled twice:
  - by direct predicates (`Patterns.Matches`), which the scanner runs;
  - by a small regular-expression semantics (`Patterns.Search` over `Patterns.Regex`).
- `Patterns.MatchesIsSearch` proves the two agree on every line the scanner can see (lines contain no newline).
- Finding records are `Findings.Finding`. The keys that the advanced features and risk helpers read with `.get` defaults (`type`, `severity`, `language`) are `Option` values, so a missing key is distinguishable from any string.
- Object state that the source updates in place is a class with `modifies` clauses: the session registry is `AdvancedFeatures.Collaboration`.
- Loops are methods proved against specification functions (`Survey`, `ScanLines`, `FullScan`, `QuickScan`, `CalculateSecurityScore`, `AssessRisk`, …).

Quirks of the code that the model keeps:

- **Scan type.** `scan_repository` runs the quick scan for every `scan_type` other than `'full'` (`backend/repository_scanner.py:55-58`). It does not reject or normalise other values.
- **Ignored directories.** The glob-looking entries (`'*.log'`, `'*.tmp'`) are compared by exact name.
- **Removing `.git`.** `.replace('.git', '')` does not rescan its output. `RepoUrl.RemoveAllDoesNotRescan` shows a name that still contains `.git` afterwards.
- **Score breakdown.** `breakdown.vulnerabilities_deduction` is `100 - base_score`, and `base_score` already includes the dependency deduction.
- **OWASP status.** The OWASP status stays `'Compliant'` whatever its score.

## Model

| member | source | states |
|---|---|---|
| RepoUrl.ParseWith | backend/repository_scanner.py:83-93 | a parse found by the first-match search keeps the URL and names one of the platforms searched |
| RepoUrl.ParseBuiltUrl | backend/repository_scanner.py:75-93 | round trip: `http(s)://HOST/owner/repo[/…]` parses back to that platform, that owner and the repository name with ".git" removed |
| RepoUrl.ParsedUrlShape | backend/repository_scanner.py:75-93 | soundness: every accepted URL is scheme + host + owner segment + "/" + raw segment + an empty or '/'-led tail, and the name is the raw segment with ".git" removed |
| RepoUrl.ParseWithOnlyMatch | backend/repository_scanner.py:83-93 | when exactly one platform pattern matches, the search reports that platform |
| RepoUrl.ParsedPlatformMatched | backend/repository_scanner.py:83-89 | the reported platform is one whose pattern matched, with owner and raw name taken from that match |
| RepoUrl.OnlyOwnPrefix | backend/repository_scanner.py:77-81 | the three host patterns (with either scheme) never accept each other's URLs |
| RepoUrl.RemoveAllDoesNotRescan | backend/repository_scanner.py:89 | removing ".git" does not rescan: "x.g.gitit" becomes "x.git" |
| FileClassifier.IgnoredBy | backend/repository_scanner.py:231-239 | the pattern loop reports true exactly when some pattern matches (a '*' pattern by suffix, any other exactly) |
| FileClassifier.ShouldIgnoreFileIff | backend/repository_scanner.py:21-25 | a file is ignored exactly when its name is one of the listed names or ends in ".md" or ".txt" |
| FileClassifier.Extension | backend/repository_scanner.py:252 | `splitext` gives "" or a suffix of the name that starts with its only '.' |
| FileClassifier.ExtensionOfBuilt | backend/repository_scanner.py:252 | a name stem + "." + suffix (stem not all dots, suffix without dots) has extension "." + suffix |
| FileClassifier.HiddenFileHasNoExtension | backend/repository_scanner.py:252 | a leading-dot name such as ".bashrc" has no extension |
| FileClassifier.AnalyzeFile | backend/repository_scanner.py:241-275 | path and size are recorded; a file is code iff its lower-cased extension is in `lang_map`, then with that language; otherwise "unknown" with 0 lines |
| FileClassifier.LanguagesAreKnown | backend/repository_scanner.py:255-265 | no `lang_map` language is "unknown", so a code file never reports the non-code language |
| FileClassifier.ClassifyKnownExtension | backend/repository_scanner.py:252-271 | a name with a `lang_map` extension in any letter case is code of that language with its `readlines` count |
| TreeWalk.ChildNamed | backend/repository_scanner.py:333-334 | a top-level name exists iff some child has that name, and the child found has it |
| TreeWalk.WalkAvoidsIgnoredDirs | backend/repository_scanner.py:200-202 | no walked file lies under a directory whose name is in `ignored_dirs` |
| TreeWalk.RecordedFilesAvoidIgnored | backend/repository_scanner.py:200-220 | every recorded file comes from a walked, non-ignored file name under no pruned directory |
| TreeWalk.RecordsFromEntries | backend/repository_scanner.py:204-220 | every file record is the analysis of a walked entry whose name is not ignored |
| TreeWalk.DetermineProjectType | backend/repository_scanner.py:277-296 | python iff more than 5 python files; cpp iff no earlier type qualifies and cpp or c occurs; multi-language iff no type qualifies; any other type has more than 5 files |
| TreeWalk.ProjectTypeIsFirstPassingRow | backend/repository_scanner.py:281-296 | the if-chain equals the first passing row of the priority table python, javascript, java, cpp, php, go, rust |
| TreeWalk.LanguageHistogram | backend/repository_scanner.py:211-218 | `languages` has exactly the code languages as keys, each mapped to its number of code files, and the values sum to `code_files` |
| TreeWalk.Survey | backend/repository_scanner.py:200-220 | the walk loop records the non-ignored files in walk order, `total_files` is their number and `code_files` the sum of the `languages` histogram |
| TreeWalk.AnalyzeStructure | backend/repository_scanner.py:188-229 | the structure is the survey of the walk with the project type of its histogram; `total_files == len(files)` and `code_files` is the histogram total |
| Dependencies.Managers | backend/repository_scanner.py:333-357 | a manager is listed iff its marker file exists at the top level, at most one per marker |
| Dependencies.PresentManagers | backend/repository_scanner.py:392-444 | the marker tests append exactly the managers of present markers, in order |
| Dependencies.RequirementName | backend/repository_scanner.py:342 | the name is a prefix of the line containing none of "==", ">=", "<=" |
| Dependencies.PinnedName | backend/repository_scanner.py:342 | for a name without '=', '>', '<', `name==version` yields exactly `name` |
| Dependencies.PinnedLine | backend/repository_scanner.py:338-345 | a line `name==version` with its newline (as "flask==2.0.1") declares a dependency named exactly `name` |
| Text.StripTrailingNewline | backend/repository_scanner.py:339 | stripping a line read with its newline gives back the line when it has no blank at either end |
| Dependencies.OneDependencyPerLine | backend/repository_scanner.py:338-345 | one pip dependency per non-blank, non-comment line, in line order, named from that line |
| Dependencies.ReadRequirements | backend/repository_scanner.py:336-347 | the line loop yields exactly the dependencies of the declaring lines |
| Dependencies.AppendSection | backend/repository_scanner.py:374-381 | one npm dependency per entry of a section, appended in order |
| Dependencies.ReadPackageJson | backend/repository_scanner.py:369-383 | `dependencies` then `devDependencies`; a non-object `dependencies` aborts both |
| Dependencies.PackageDepsShape | backend/repository_scanner.py:375-381 | every npm dependency carries a version, its section name and "package.json" |
| Dependencies.AnalyzeDependencies | backend/repository_scanner.py:298-326 | managers are those of the project type's present markers, dependencies the declared ones; vulnerable and outdated lists stay empty |
| Dependencies.OtherTypesGetNothing | backend/repository_scanner.py:310-322 | a project type outside the six ecosystems gets no managers and no dependencies |
| Dependencies.MarkerOnlyEcosystems | backend/repository_scanner.py:392-444 | java, cpp, go and rust report at most two managers and never dependencies |
| Patterns.MatchesIsSearch | backend/repository_scanner.py:487-498 | on a newline-free line, each rule's direct test holds iff `re.search` of its pattern (case-insensitive) finds a match |
| Detection.KindIdentifiesRule | backend/repository_scanner.py:487-494 | the six vulnerability types are distinct, so a finding's type identifies its rule |
| Detection.LineFindingsOrdered | backend/repository_scanner.py:497-507 | per line at most one finding per rule, strictly in rule order, every rank inside that line's block |
| Detection.ScanLine | backend/repository_scanner.py:497-507 | trying the six rules on one line yields exactly the findings of the rules that match, in rule order (the specification function whose soundness, completeness and order the lemmas prove) |
| Detection.LineFindingsSound | backend/repository_scanner.py:493-505 | every finding of a line comes from a rule that matches the line |
| Detection.LineFindingsComplete | backend/repository_scanner.py:493-505 | every rule that matches the line produces its finding |
| Detection.FileFindingsOrdered | backend/repository_scanner.py:493-505 | a file's findings are ordered by (line, rule), at most six per line, with 1-based line numbers |
| Detection.FileFindingsSound | backend/repository_scanner.py:493-505 | every finding names a line 1..n and a rule matching that line, with type, severity "medium", stripped content, language and description as built |
| Detection.FileFindingsComplete | backend/repository_scanner.py:493-505 | every (line, rule) match yields a finding |
| Detection.ScanLines | backend/repository_scanner.py:493-505 | the nested loops produce exactly the (line, rule) findings in order |
| Detection.ScanFile | backend/repository_scanner.py:477-512 | a readable file is split on '\n' after newline translation and scanned; an unreadable one yields no finding |
| Detection.ScannedLinesHaveNoNewline | backend/repository_scanner.py:482-484 | no scanned line contains a newline |
| Detection.ScannedVersusCountedLines | backend/repository_scanner.py:270-271 | the scan sees one more line than `readlines` counts when the text is empty or ends in a newline, otherwise the same number |
| Scanner.CodeFiles | backend/repository_scanner.py:468 | the code files are a sub-list of the files, all code |
| Scanner.ScanAllPrefix | backend/repository_scanner.py:463-475 | scanning a prefix of the files yields a prefix of the findings |
| Scanner.ScanCodeFiles | backend/repository_scanner.py:451-455 | the loop scans exactly the code files, in order |
| Scanner.FullScan | backend/repository_scanner.py:446-461 | the full scan is every code file's findings followed by the repository-level findings |
| Scanner.Take | backend/repository_scanner.py:468 | `[:10]` is a prefix of length min(10, n) |
| Scanner.QuickScan | backend/repository_scanner.py:463-475 | the quick scan is the findings of the first ten code files |
| Scanner.QuickIsPrefixOfFull | backend/repository_scanner.py:446-475 | the quick scan's findings are a prefix of the full scan's and equal its code-file part when there are at most ten code files |
| Scanner.SensitiveFindingsSpec | backend/repository_scanner.py:519-534 | a high-severity finding is reported exactly for each listed sensitive name that exists at the top level |
| Scanner.LargeFindingsSpec | backend/repository_scanner.py:537-547 | a low-severity finding is reported exactly for each file larger than 10 MiB |
| Scanner.ScanRepositoryLevel | backend/repository_scanner.py:514-549 | the loops produce the sensitive-file findings then the large-file findings |
| Scanner.BreakdownSpec | backend/repository_scanner.py:575-581 | counting severities onto the four zeros keeps those four keys, adds only severities that occur, counts each one and sums to the number counted |
| Scanner.GetSeverityBreakdown | backend/repository_scanner.py:575-581 | the four severities are always keys, any other key is a severity that occurs, values count findings (missing severity counts as medium) and sum to the number of findings |
| Scanner.GenerateRecommendations | backend/repository_scanner.py:583-600 | 1 to 3 items; each item iff its condition, in append order (review, vulnerable, outdated) with none twice; "No immediate security issues detected" iff nothing to report, and then alone |
| Scanner.GenerateReport | backend/repository_scanner.py:551-573 | the report carries the parsed URL, platform name, owner and name, the structure's counts, the findings with their count, a severity breakdown with the four keys, exact counts summing to the number of findings, the dependencies, and 1 to 3 recommendations each present iff its condition |
| Scanner.ScanRepository | backend/repository_scanner.py:27-73 | an unparseable URL or failed download is the matching error; a parsed URL with a snapshot always gives a report, which carries the URL with its parsed platform, owner and name, the structure of the snapshot, the findings of the chosen mode (full by default), the dependencies, the severity breakdown of those findings and the recommendations for them, each present iff its condition |
| Findings.SeveritiesOrMedium | backend/repository_scanner.py:578-579 | one severity per finding, "medium" when missing |
| Findings.SeverityBucketsBounded | backend/advanced_features.py:334-337 | the four exact-match severity buckets sum to at most the number of findings |
| Histograms.TallyAllSum | backend/repository_scanner.py:215-218 | tallying a list adds exactly its length to the histogram's total |
| AdvancedFeatures.Deduction | backend/advanced_features.py:34-40 | one finding costs between 5 and 20 points |
| AdvancedFeatures.TotalDeductionBounds | backend/advanced_features.py:33-40 | n findings cost between 5n and 20n points |
| AdvancedFeatures.CalculateSecurityScore | backend/advanced_features.py:28-75 | score = max(0, 100 − deductions − 5·vulnerable deps) ≤ 100, graded by the ladder, with the unclamped deduction in the breakdown |
| AdvancedFeatures.GradeMonotone | backend/advanced_features.py:50-64 | a higher score never gets a worse grade |
| AdvancedFeatures.ScoreDropsPerFinding | backend/advanced_features.py:32-47 | one more finding lowers the unclamped score by 5 to 20 and never raises the score |
| AdvancedFeatures.CleanProjectScore | backend/advanced_features.py:30-53 | no findings and no vulnerable dependencies give 100, A+ Excellent |
| AdvancedFeatures.ManyCriticalFindings | backend/advanced_features.py:32-47 | five critical findings bring the score to 0, grade F |
| AdvancedFeatures.OwaspPenalty | backend/advanced_features.py:111-121 | one finding takes at most 12 points off the OWASP score |
| AdvancedFeatures.GenerateComplianceReport | backend/advanced_features.py:77-123 | only the OWASP entry changes: its issues and score follow the three independent type tests; the other four standards stay as initialised |
| AdvancedFeatures.OwaspReview | backend/advanced_features.py:107-121 | after the loop the OWASP issues are each finding's issues in finding order and the score is 95 minus all penalties |
| AdvancedFeatures.OwaspStep | backend/advanced_features.py:108-121 | one finding adds an injection issue for SQL injection and for XSS and an authentication issue, each test independent, taking 5, 3 and 4 points |
| AdvancedFeatures.OwaspScoreTracksIssues | backend/advanced_features.py:108-121 | each OWASP issue costs 3 to 5 points, at most three issues per finding, no lower bound |
| AdvancedFeatures.UnrelatedFindingChangesNothing | backend/advanced_features.py:108-121 | a type mentioning none of the three topics adds no issue and no penalty |
| AdvancedFeatures.GenerateAutomatedFixes | backend/advanced_features.py:153-206 | the loop emits the rule table's fix for each finding that has one, in order |
| AdvancedFeatures.FixesSpec | backend/advanced_features.py:157-204 | at most one fix per finding; SQL-injection fixes only for python (the default) and javascript, XSS fixes only for javascript |
| AdvancedFeatures.HardcodedAlwaysFixed | backend/advanced_features.py:195-204 | a hard-coded-secret finding gets the environment-variable fix in any language |
| AdvancedFeatures.CountHighOrCritical | backend/advanced_features.py:269-272 | the applicable count never exceeds the number of findings |
| AdvancedFeatures.RiskLevelMonotone | backend/advanced_features.py:277 | more applicable findings never lower the risk level |
| AdvancedFeatures.GenerateThreatIntelligenceReport | backend/advanced_features.py:243-290 | every actor gets the same applicable count (high or critical findings) and its risk level; overall "Medium", score 78 |
| AdvancedFeatures.DetectZeroDayPatterns | backend/advanced_features.py:292-321 | each pattern appears iff its marker key is present, at most three, confidences 75–90 |
| AdvancedFeatures.GenerateAdvancedAnalytics | backend/advanced_features.py:323-364 | files scanned defaults to 0; exact-match severity buckets sum to at most the total; the type histogram ("Unknown" when missing) counts each type and sums to the number of findings |
| AdvancedFeatures.Collaboration.constructor | backend/advanced_features.py:14 | a new object has no sessions |
| AdvancedFeatures.Collaboration.CreateSession | backend/advanced_features.py:208-223 | a new active session with empty lists is registered under its id |
| AdvancedFeatures.Collaboration.AddMessage | backend/advanced_features.py:225-241 | unknown id: error, nothing changes; otherwise exactly one new message is appended to that session and no other session changes |
| AiAnalyzer.GenerateSummary | backend/ai_analyzer.py:336-364 | nothing detected iff no findings; else total and four counts each ≤ total, and each action line present iff its count is positive |
| AiAnalyzer.ActionsDiffer | backend/ai_analyzer.py:359-362 | the critical and high action lines are always different texts |
| AiAnalyzer.Weight | backend/ai_analyzer.py:378-385 | one finding weighs at most 10 |
| AiAnalyzer.RiskScoreIsWeightedCount | backend/ai_analyzer.py:376-385 | risk score = 10·critical + 7·high + 4·medium + 1·low |
| AiAnalyzer.AssessRisk | backend/ai_analyzer.py:366-405 | empty input is low/0; otherwise the weighted score with the level ladder 20/10/5 and its description |
| AiAnalyzer.MoreFindingsMoreRisk | backend/ai_analyzer.py:376-397 | adding a finding never lowers the score or the level |
| AiAnalyzer.TwoCriticalsAreCritical | backend/ai_analyzer.py:388-390 | two critical findings already reach the critical level |
| AiAnalyzer.AdviceUpToSpec | backend/ai_analyzer.py:416-434 | each specific advice appears iff its type occurs, none twice |
| AiAnalyzer.AdviceUpToOrdered | backend/ai_analyzer.py:416-434 | the specific advice comes in table order: the rows of the items strictly increase |
| AiAnalyzer.GenerateRecommendations | backend/ai_analyzer.py:407-445 | empty input: only "Continue following security best practices"; otherwise the specific advice followed by the five general items |
| AiAnalyzer.RecommendationsShape | backend/ai_analyzer.py:411-445 | a nonempty input gives 5 to 11 items ending in the five general ones, with distinct specific items exactly for the types present, in table order |
| AiAnalyzer.GetPriority | backend/ai_analyzer.py:447-455 | critical, high and low map one-to-one to Immediate, High and Low; everything else, medium included, to Medium |

## Left out

- Downloading (`_download_repository` and its GitHub, GitLab and git helpers) and `_cleanup`: network, zip and subprocess I/O. A download is an `Option<Node>` snapshot passed to `Scanner.ScanRepository`. `_cleanup`'s `rmtree` has no effect on the report.
- The generic `except Exception` path of `scan_repository` ("Scan failed: …") and the `except` branches that swallow errors in the structure, dependency and file scans. The model raises no exceptions apart from the modelled error paths: an unreadable file and a failed `json.load`.
- Byte decoding: a file's text is its decoded text. UTF-8 decoding with `errors='ignore'`, and a decode error part-way through `requirements.txt`, are not modelled.
- `json.load`: `package.json` arrives already parsed as `Dependencies.PackageJson`, or `None` when parsing fails. Versions are strings.
- `re`: the six patterns are modelled by direct predicates, proved equal to a small regex semantics. Case folding is ASCII only, so `re.IGNORECASE` matches of non-ASCII characters (such as the Kelvin sign for 'k') are not modelled.
- File reads follow the relative path through the tree and take the first child of each name. A tree with two siblings of the same name reads the first.
- The `directories` key of the structure (never filled by the source), and dict insertion order: the model's maps are unordered. This drops the order of:
  - the `languages` histogram;
  - `severity_breakdown`: the four severities first, then any other severity in order of first occurrence;
  - the analytics `vulnerability_types`;
  - the compliance standards;
  - the threat-actor analysis.
- Clocks and identifiers: `datetime.now()` and `uuid4()` values are parameters.
- Floating point: `scan_duration` and `files_per_second` in the analytics.
- Constant text: the analytics insights and recommendations, the threat-actor profiles and per-actor recommendations, the zero-day descriptions, the fixes' before/after code and explanations, and the summary's Markdown layout.
- `predict_future_vulnerabilities` and `create_winning_demo_data`: constant demonstration data with no behaviour.
- The machine-learning and LLM parts of `backend/ai_analyzer.py` and `backend/llm_service.py`, `backend/cve_database.py` (SQLite), the FastAPI entry points and the frontend: outside the rule-based core.
- AiAnalyzer.GenerateSummary, AiAnalyzer.AssessRisk, AiAnalyzer.GenerateRecommendations: a finding without `severity` (or `type`) raises `KeyError` in the source. The model requires these keys instead of modelling the exception.
- FileClassifier.AnalyzeFile: `os.path.splitext(file)[1].lower()` is modelled with ASCII lower-casing (`Text.LowerStr`). Python's `str.lower()` also folds non-ASCII characters; the Kelvin sign is the one that lowers to an ASCII letter. So a name such as `a.\u212At`, which the source records as kotlin code with its line count, is "unknown" with 0 lines in the model. The same ASCII lower-casing serves the `.lower()` calls of the compliance and fix tables, whose target words contain no 'k', so their results are unaffected.
- AdvancedFeatures.Collaboration.CreateSession, AdvancedFeatures.Collaboration.AddMessage: sessions and messages are values. In the source the dict returned by `create_collaboration_session` is the stored one, the `users` list is stored by reference, and `add_collaboration_message` returns the appended object. So a later message, or a change the caller makes to `users` or to a returned dict, shows through every alias. The model returns snapshots and does not capture this aliasing.
- AdvancedFeatures.Collaboration.AddMessage: the other fields of `AdvancedFeatures` (`real_time_updates`, `analytics_data`, `innovation_features`) are never read or updated by the modelled operations, so the class holds only the session map.
