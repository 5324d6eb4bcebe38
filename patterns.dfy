/** The six detection rules of `RepositoryScanner._scan_file`, each a regular expression applied
    with `re.search(pattern, line, re.IGNORECASE)`. `Regex` gives the meaning of the patterns
    (the leftmost-anywhere search of a small regular-expression language); `Matches` is the
    direct, hand-written test the scanner model runs, and `MatchesIsSearch` proves the two agree. */
module Patterns {
  import opened Text

  datatype Rule = Password | ApiKey | Exec | Eval | SqlInjection | InnerHtml

  /** The rules in the order they are tried on each line. */
  const Rules: seq<Rule> := [Password, ApiKey, Exec, Eval, SqlInjection, InnerHtml]

  /** The finding type each rule reports. */
  function KindOf(rule: Rule): string {
    match rule
    case Password => "Hardcoded Password"
    case ApiKey => "Hardcoded API Key"
    case Exec => "Code Execution"
    case Eval => "Code Evaluation"
    case SqlInjection => "SQL Injection"
    case InnerHtml => "XSS Vulnerability"
  }

  // ---------------------------------------------------------------------------------------
  // The regular expressions

  /** The character classes the patterns use: `\s`, `["']`, `[^"']`, `.`, one literal. */
  datatype CharClass = Space | Quote | NotQuote | AnyButNewline | Exactly(c: char)

  predicate IsQuote(c: char) {
    c == '"' || c == '\''
  }

  predicate In(cls: CharClass, c: char) {
    match cls
    case Space => IsSpace(c)
    case Quote => IsQuote(c)
    case NotQuote => !IsQuote(c)
    case AnyButNewline => c != '\n'
    case Exactly(d) => c == d
  }

  /** A pattern element: a literal word compared case-insensitively (given in lower case),
      one character of a class, or any number of them (`*`). */
  datatype Elem = Word(w: string) | One(cls: CharClass) | Star(cls: CharClass)

  predicate AllIn(cls: CharClass, s: string, i: nat, k: nat)
    requires i <= k <= |s|
  {
    forall t :: i <= t < k ==> In(cls, s[t])
  }

  /** Pattern `p` matches exactly `s[i..j]`. */
  ghost predicate MatchesFrom(p: seq<Elem>, s: string, i: nat, j: nat)
    decreases |p|
  {
    i <= j <= |s| &&
    if p == [] then i == j
    else
      match p[0]
      case Word(w) => i + |w| <= j && LowerStr(s[i..i + |w|]) == w && MatchesFrom(p[1..], s, i + |w|, j)
      case One(cls) => i < j && In(cls, s[i]) && MatchesFrom(p[1..], s, i + 1, j)
      case Star(cls) => exists k :: i <= k <= j && AllIn(cls, s, i, k) && MatchesFrom(p[1..], s, k, j)
  }

  /** `re.search`: the pattern matches some stretch of `s`. */
  ghost predicate Search(p: seq<Elem>, s: string) {
    exists i, j :: 0 <= i <= j <= |s| && MatchesFrom(p, s, i, j)
  }

  /** `[^"']*["']` */
  const ClosingRegex: seq<Elem> := [Star(NotQuote), One(Quote)]

  /** `["'][^"']*["']` */
  const QuotedRegex: seq<Elem> := [One(Quote)] + ClosingRegex

  /** `\s*["'][^"']*["']` */
  const SpacesQuoted: seq<Elem> := [Star(Space)] + QuotedRegex

  /** `=\s*["'][^"']*["']` */
  const EqualsQuoted: seq<Elem> := [One(Exactly('='))] + SpacesQuoted

  /** `\s*=\s*["'][^"']*["']`: the assignment pattern after its name. */
  const AssignmentTail: seq<Elem> := [Star(Space)] + EqualsQuoted

  /** `name\s*=\s*["'][^"']*["']` */
  function AssignmentRegex(name: string): seq<Elem> {
    [Word(name)] + AssignmentTail
  }

  /** `name\s*c` */
  function KeywordRegex(name: string, c: char): seq<Elem> {
    [Word(name), Star(Space), One(Exactly(c))]
  }

  /** `SELECT.*FROM.*WHERE.*\$\{` */
  const SqlRegex: seq<Elem> := [
    Word("select"), Star(AnyButNewline), Word("from"), Star(AnyButNewline), Word("where"),
    Star(AnyButNewline), One(Exactly('$')), One(Exactly('{'))]

  function Regex(rule: Rule): seq<Elem> {
    match rule
    case Password => AssignmentRegex("password")
    case ApiKey => AssignmentRegex("api_key")
    case Exec => KeywordRegex("exec", '(')
    case Eval => KeywordRegex("eval", '(')
    case SqlInjection => SqlRegex
    case InnerHtml => KeywordRegex("innerhtml", '=')
  }

  // ---------------------------------------------------------------------------------------
  // The direct tests

  /** `w` (lower case) occurs at `i`, ignoring ASCII case. */
  predicate WordAt(s: string, i: nat, w: string) {
    i + |w| <= |s| && LowerStr(s[i..i + |w|]) == w
  }

  /** The first index at or after `i` that is not whitespace (or `|s|`). */
  function SkipSpace(s: string, i: nat): (r: nat)
    requires i <= |s|
    ensures i <= r <= |s|
    ensures forall t :: i <= t < r ==> IsSpace(s[t])
    ensures r == |s| || !IsSpace(s[r])
    decreases |s| - i
  {
    if i < |s| && IsSpace(s[i]) then SkipSpace(s, i + 1) else i
  }

  /** `w`, optional whitespace, then `c`. */
  predicate KeywordThen(s: string, i: nat, w: string, c: char) {
    WordAt(s, i, w) && var j := SkipSpace(s, i + |w|); j < |s| && s[j] == c
  }

  predicate HasQuoteFrom(s: string, from: nat) {
    exists m | from <= m < |s| :: IsQuote(s[m])
  }

  /** `w`, optional whitespace, `=`, optional whitespace, a quote, and a later quote. */
  predicate AssignsQuoted(s: string, i: nat, w: string) {
    WordAt(s, i, w) && EqualsQuotedAfter(s, i + |w|)
  }

  /** Optional whitespace, `=`, then a quoted stretch, from `x`. */
  predicate EqualsQuotedAfter(s: string, x: nat)
    requires x <= |s|
  {
    var a := SkipSpace(s, x);
    a < |s| && s[a] == '=' && QuotedAfter(s, a + 1)
  }

  /** The first non-space character at or after `x` is a quote, and a second quote follows. */
  predicate QuotedAfter(s: string, x: nat)
    requires x <= |s|
  {
    var b := SkipSpace(s, x);
    b < |s| && IsQuote(s[b]) && HasQuoteFrom(s, b + 1)
  }

  /** "${" starts at or after `from`. */
  predicate DollarBraceFrom(s: string, from: nat) {
    exists d | from <= d < |s| - 1 :: s[d] == '$' && s[d + 1] == '{'
  }

  /** "where" occurs at or after `from`, followed by "${". */
  predicate WhereThen(s: string, from: nat) {
    exists c | from <= c <= |s| :: WordAt(s, c, "where") && DollarBraceFrom(s, c + 5)
  }

  /** "from" occurs at or after `from`, followed by "where" and "${". */
  predicate FromThen(s: string, from: nat) {
    exists b | from <= b <= |s| :: WordAt(s, b, "from") && WhereThen(s, b + 4)
  }

  /** "select", later "from", later "where", later "${", each after the end of the one before. */
  predicate SqlChain(s: string) {
    exists a | 0 <= a <= |s| :: WordAt(s, a, "select") && FromThen(s, a + 6)
  }

  /** The scanner's test of one rule on one line. */
  predicate Matches(rule: Rule, s: string) {
    match rule
    case Password => exists i | 0 <= i <= |s| :: AssignsQuoted(s, i, "password")
    case ApiKey => exists i | 0 <= i <= |s| :: AssignsQuoted(s, i, "api_key")
    case Exec => exists i | 0 <= i <= |s| :: KeywordThen(s, i, "exec", '(')
    case Eval => exists i | 0 <= i <= |s| :: KeywordThen(s, i, "eval", '(')
    case SqlInjection => SqlChain(s)
    case InnerHtml => exists i | 0 <= i <= |s| :: KeywordThen(s, i, "innerhtml", '=')
  }

  // ---------------------------------------------------------------------------------------
  // The direct tests decide the regular expressions

  /** Skipping whitespace stops at the first character that is not whitespace. */
  lemma {:induction false} SkipSpaceStopsAt(s: string, i: nat, k: nat)
    requires i <= k < |s| && AllIn(Space, s, i, k) && !IsSpace(s[k])
    ensures SkipSpace(s, i) == k
    decreases k - i
  {
    if i < k {
      assert In(Space, s[i]);
      SkipSpaceStopsAt(s, i + 1, k);
    }
  }

  /** The first quote at or after `from`, if any. */
  function FirstQuote(s: string, from: nat): (m: nat)
    requires from <= |s|
    ensures from <= m <= |s| && AllIn(NotQuote, s, from, m)
    ensures m < |s| ==> IsQuote(s[m])
    ensures m == |s| ==> !HasQuoteFrom(s, from)
    decreases |s| - from
  {
    if from == |s| then from
    else if IsQuote(s[from]) then from
    else
      var m := FirstQuote(s, from + 1);
      assert In(NotQuote, s[from]);
      m
  }

  /** The empty pattern matches only the empty stretch. */
  lemma MatchesEmpty(s: string, i: nat, j: nat)
    ensures MatchesFrom([], s, i, j) <==> i == j <= |s|
  {
  }

  /** A one-element pattern `One(cls)` matches one character of the class. */
  lemma MatchesOne(cls: CharClass, s: string, i: nat, j: nat)
    ensures MatchesFrom([One(cls)], s, i, j) <==> i < |s| && In(cls, s[i]) && j == i + 1
  {
    assert [One(cls)][1..] == [];
    MatchesEmpty(s, i + 1, j);
  }

  /** A pattern that starts with a word matches from `i` when the word is there and the rest
      matches after it. */
  lemma WordThen(w: string, t: seq<Elem>, s: string, i: nat, j: nat)
    ensures MatchesFrom([Word(w)] + t, s, i, j) <==> (WordAt(s, i, w) && MatchesFrom(t, s, i + |w|, j))
  {
    var p := [Word(w)] + t;
    assert p[0] == Word(w) && p[1..] == t;
    if MatchesFrom(t, s, i + |w|, j) {
      assert i + |w| <= j <= |s|;
    }
  }

  /** A pattern that starts with one character of a class matches from `i` when that character
      is there and the rest matches after it. */
  lemma OneThen(cls: CharClass, t: seq<Elem>, s: string, i: nat, j: nat)
    ensures MatchesFrom([One(cls)] + t, s, i, j) <==> (i < |s| && In(cls, s[i]) && MatchesFrom(t, s, i + 1, j))
  {
    var p := [One(cls)] + t;
    assert p[0] == One(cls) && p[1..] == t;
    if MatchesFrom(t, s, i + 1, j) {
      assert i + 1 <= j <= |s|;
    }
  }

  /** A run of the class on `s[i..k]` followed by a match of the rest from `k` matches
      `[Star(cls)] + t`. */
  lemma StarThenIntro(cls: CharClass, t: seq<Elem>, s: string, i: nat, k: nat, j: nat)
    requires i <= k <= |s| && AllIn(cls, s, i, k) && MatchesFrom(t, s, k, j)
    ensures MatchesFrom([Star(cls)] + t, s, i, j)
  {
    var p := [Star(cls)] + t;
    assert p[0] == Star(cls) && p[1..] == t;
    assert k <= j <= |s|;
  }

  /** A match of `[Star(cls)] + t` splits into a run of the class and a match of the rest. */
  lemma StarThenElim(cls: CharClass, t: seq<Elem>, s: string, i: nat, j: nat) returns (k: nat)
    requires MatchesFrom([Star(cls)] + t, s, i, j)
    ensures i <= k <= j <= |s| && AllIn(cls, s, i, k) && MatchesFrom(t, s, k, j)
  {
    var p := [Star(cls)] + t;
    assert p[0] == Star(cls) && p[1..] == t;
    k :| i <= k <= j && AllIn(cls, s, i, k) && MatchesFrom(t, s, k, j);
  }

  /** `[^"']*["']` matches from `k` exactly when a quote follows. */
  lemma ClosingQuote(s: string, k: nat)
    requires k <= |s|
    ensures HasQuoteFrom(s, k) ==> MatchesFrom(ClosingRegex, s, k, FirstQuote(s, k) + 1)
    ensures forall j: nat :: MatchesFrom(ClosingRegex, s, k, j) ==> HasQuoteFrom(s, k)
  {
    var p := ClosingRegex;
    assert p == [Star(NotQuote)] + [One(Quote)];
    if HasQuoteFrom(s, k) {
      var m := FirstQuote(s, k);
      MatchesOne(Quote, s, m, m + 1);
      StarThenIntro(NotQuote, [One(Quote)], s, k, m, m + 1);
    }
    forall j: nat | MatchesFrom(p, s, k, j) ensures HasQuoteFrom(s, k) {
      var m := StarThenElim(NotQuote, [One(Quote)], s, k, j);
      MatchesOne(Quote, s, m, j);
      assert IsQuote(s[m]);
    }
  }

  /** `\s*c` matches from `x` exactly when the first non-space character is `c`. */
  lemma SpacesThenChar(s: string, x: nat, c: char)
    requires x <= |s| && !IsSpace(c)
    ensures SkipSpace(s, x) < |s| && s[SkipSpace(s, x)] == c ==>
      MatchesFrom([Star(Space), One(Exactly(c))], s, x, SkipSpace(s, x) + 1)
    ensures forall j: nat :: MatchesFrom([Star(Space), One(Exactly(c))], s, x, j) ==>
      SkipSpace(s, x) < |s| && s[SkipSpace(s, x)] == c
  {
    var p := [Star(Space), One(Exactly(c))];
    assert p == [Star(Space)] + [One(Exactly(c))];
    var k := SkipSpace(s, x);
    if k < |s| && s[k] == c {
      MatchesOne(Exactly(c), s, k, k + 1);
      assert AllIn(Space, s, x, k);
      StarThenIntro(Space, [One(Exactly(c))], s, x, k, k + 1);
    }
    forall j: nat | MatchesFrom(p, s, x, j) ensures k < |s| && s[k] == c {
      var m := StarThenElim(Space, [One(Exactly(c))], s, x, j);
      MatchesOne(Exactly(c), s, m, j);
      SkipSpaceStopsAt(s, x, m);
    }
  }

  /** `w\s*c` matches from `i` exactly when `KeywordThen` holds there. */
  lemma KeywordRegexAt(s: string, i: nat, w: string, c: char)
    requires i <= |s| && !IsSpace(c)
    ensures KeywordThen(s, i, w, c) ==> MatchesFrom(KeywordRegex(w, c), s, i, SkipSpace(s, i + |w|) + 1)
    ensures forall j: nat :: MatchesFrom(KeywordRegex(w, c), s, i, j) ==> KeywordThen(s, i, w, c)
  {
    var p := KeywordRegex(w, c);
    var t := [Star(Space), One(Exactly(c))];
    assert p == [Word(w)] + t;
    if KeywordThen(s, i, w, c) {
      SpacesThenChar(s, i + |w|, c);
      WordThen(w, t, s, i, SkipSpace(s, i + |w|) + 1);
    }
    forall j: nat | MatchesFrom(p, s, i, j) ensures KeywordThen(s, i, w, c) {
      WordThen(w, t, s, i, j);
      SpacesThenChar(s, i + |w|, c);
    }
  }

  /** `["'][^"']*["']` from `b`. */
  lemma Quoted(s: string, b: nat)
    requires b <= |s|
    ensures b < |s| && IsQuote(s[b]) && HasQuoteFrom(s, b + 1) ==>
      MatchesFrom(QuotedRegex, s, b, FirstQuote(s, b + 1) + 1)
    ensures forall j: nat :: MatchesFrom(QuotedRegex, s, b, j) ==>
      b < |s| && IsQuote(s[b]) && HasQuoteFrom(s, b + 1)
  {
    var u := ClosingRegex;
    if b < |s| {
      ClosingQuote(s, b + 1);
      if IsQuote(s[b]) && HasQuoteFrom(s, b + 1) {
        OneThen(Quote, u, s, b, FirstQuote(s, b + 1) + 1);
      }
    }
    forall j: nat | MatchesFrom(QuotedRegex, s, b, j) ensures b < |s| && IsQuote(s[b]) && HasQuoteFrom(s, b + 1) {
      OneThen(Quote, u, s, b, j);
      ClosingQuote(s, b + 1);
    }
  }

  /** `\s*["'][^"']*["']` from `x`. */
  lemma SpacesThenQuoted(s: string, x: nat)
    requires x <= |s|
    ensures QuotedAfter(s, x) ==> exists j: nat :: x <= j <= |s| && MatchesFrom(SpacesQuoted, s, x, j)
    ensures forall j: nat :: MatchesFrom(SpacesQuoted, s, x, j) ==> QuotedAfter(s, x)
  {
    var b := SkipSpace(s, x);
    if QuotedAfter(s, x) {
      Quoted(s, b);
      assert AllIn(Space, s, x, b);
      StarThenIntro(Space, QuotedRegex, s, x, b, FirstQuote(s, b + 1) + 1);
    }
    forall j: nat | MatchesFrom(SpacesQuoted, s, x, j) ensures QuotedAfter(s, x) {
      var m := StarThenElim(Space, QuotedRegex, s, x, j);
      Quoted(s, m);
      SkipSpaceStopsAt(s, x, m);
    }
  }

  /** `=\s*["'][^"']*["']` from `a`. */
  lemma EqualsThenQuoted(s: string, a: nat)
    requires a <= |s|
    ensures a < |s| && s[a] == '=' && QuotedAfter(s, a + 1) ==>
      exists j: nat :: a <= j <= |s| && MatchesFrom(EqualsQuoted, s, a, j)
    ensures forall j: nat :: MatchesFrom(EqualsQuoted, s, a, j) ==>
      a < |s| && s[a] == '=' && QuotedAfter(s, a + 1)
  {
    if a < |s| && s[a] == '=' && QuotedAfter(s, a + 1) {
      SpacesThenQuoted(s, a + 1);
      var j: nat :| a + 1 <= j <= |s| && MatchesFrom(SpacesQuoted, s, a + 1, j);
      OneThen(Exactly('='), SpacesQuoted, s, a, j);
    }
    forall j: nat | MatchesFrom(EqualsQuoted, s, a, j) ensures a < |s| && s[a] == '=' && QuotedAfter(s, a + 1) {
      OneThen(Exactly('='), SpacesQuoted, s, a, j);
      SpacesThenQuoted(s, a + 1);
    }
  }

  /** `\s*=\s*["'][^"']*["']` from `x`. */
  lemma SpacesEqualsQuoted(s: string, x: nat)
    requires x <= |s|
    ensures EqualsQuotedAfter(s, x) ==> exists j: nat :: x <= j <= |s| && MatchesFrom(AssignmentTail, s, x, j)
    ensures forall j: nat :: MatchesFrom(AssignmentTail, s, x, j) ==> EqualsQuotedAfter(s, x)
  {
    var a := SkipSpace(s, x);
    if EqualsQuotedAfter(s, x) {
      EqualsThenQuoted(s, a);
      var j: nat :| a <= j <= |s| && MatchesFrom(EqualsQuoted, s, a, j);
      assert AllIn(Space, s, x, a);
      StarThenIntro(Space, EqualsQuoted, s, x, a, j);
    }
    forall j: nat | MatchesFrom(AssignmentTail, s, x, j) ensures EqualsQuotedAfter(s, x) {
      var m := StarThenElim(Space, EqualsQuoted, s, x, j);
      EqualsThenQuoted(s, m);
      assert m < |s| && s[m] == '=' && QuotedAfter(s, m + 1);
      SkipSpaceStopsAt(s, x, m);
    }
  }

  /** `w\s*=\s*["'][^"']*["']` matches from `i` exactly when `AssignsQuoted` holds there. */
  lemma AssignmentRegexAt(s: string, i: nat, w: string)
    requires i <= |s|
    ensures AssignsQuoted(s, i, w) ==> exists j: nat :: i <= j <= |s| && MatchesFrom(AssignmentRegex(w), s, i, j)
    ensures forall j: nat :: MatchesFrom(AssignmentRegex(w), s, i, j) ==> AssignsQuoted(s, i, w)
  {
    var p := AssignmentRegex(w);
    if AssignsQuoted(s, i, w) {
      SpacesEqualsQuoted(s, i + |w|);
      var j: nat :| i + |w| <= j <= |s| && MatchesFrom(AssignmentTail, s, i + |w|, j);
      WordThen(w, AssignmentTail, s, i, j);
    }
    forall j: nat | MatchesFrom(p, s, i, j) ensures AssignsQuoted(s, i, w) {
      WordThen(w, AssignmentTail, s, i, j);
      SpacesEqualsQuoted(s, i + |w|);
    }
  }

  /** `p` matches some stretch of `s` that starts at `x`. */
  ghost predicate MatchesAt(p: seq<Elem>, s: string, x: nat) {
    exists j: nat :: x <= j <= |s| && MatchesFrom(p, s, x, j)
  }

  /** On a line without newlines, `.*` lets the rest start anywhere later. */
  lemma AnyThen(t: seq<Elem>, s: string, x: nat)
    requires '\n' !in s && x <= |s|
    ensures MatchesAt([Star(AnyButNewline)] + t, s, x) <==> exists m: nat :: x <= m <= |s| && MatchesAt(t, s, m)
  {
    var p := [Star(AnyButNewline)] + t;
    assert p[1..] == t;
    if MatchesAt(p, s, x) {
      var j: nat :| x <= j <= |s| && MatchesFrom(p, s, x, j);
      var m :| x <= m <= j && AllIn(AnyButNewline, s, x, m) && MatchesFrom(t, s, m, j);
      assert MatchesAt(t, s, m);
    }
    if m: nat :| x <= m <= |s| && MatchesAt(t, s, m) {
      var j: nat :| m <= j <= |s| && MatchesFrom(t, s, m, j);
      assert AllIn(AnyButNewline, s, x, m) by {
        forall u | x <= u < m ensures In(AnyButNewline, s[u]) {
          assert s[u] in s;
        }
      }
      assert MatchesFrom(p, s, x, j);
    }
  }

  /** `\$\{` from `d`. */
  lemma DollarBraceAt(s: string, d: nat)
    ensures MatchesAt(SqlRegex[6..], s, d) <==> d + 1 < |s| && s[d] == '$' && s[d + 1] == '{'
  {
    var p := SqlRegex[6..];
    assert p == [One(Exactly('$')), One(Exactly('{'))];
    assert p[1..] == [One(Exactly('{'))];
    var e := d + 1;
    if MatchesAt(p, s, d) {
      var j: nat :| d <= j <= |s| && MatchesFrom(p, s, d, j);
      MatchesOne(Exactly('{'), s, e, j);
    }
    if d + 1 < |s| && s[d] == '$' && s[d + 1] == '{' {
      MatchesOne(Exactly('{'), s, e, d + 2);
      assert MatchesFrom(p, s, d, d + 2);
    }
  }

  /** `.*\$\{` from `x`. */
  lemma AnyThenDollarBrace(s: string, x: nat)
    requires '\n' !in s && x <= |s|
    ensures MatchesAt(SqlRegex[5..], s, x) <==> DollarBraceFrom(s, x)
  {
    assert SqlRegex[5..] == [Star(AnyButNewline)] + SqlRegex[6..];
    AnyThen(SqlRegex[6..], s, x);
    if MatchesAt(SqlRegex[5..], s, x) {
      var m: nat :| x <= m <= |s| && MatchesAt(SqlRegex[6..], s, m);
      DollarBraceAt(s, m);
    }
    if DollarBraceFrom(s, x) {
      var d :| x <= d < |s| - 1 && s[d] == '$' && s[d + 1] == '{';
      DollarBraceAt(s, d);
    }
  }

  /** `WHERE.*\$\{` from `c`. */
  lemma WhereAt(s: string, c: nat)
    requires '\n' !in s && c <= |s|
    ensures MatchesAt(SqlRegex[4..], s, c) <==> WordAt(s, c, "where") && DollarBraceFrom(s, c + 5)
  {
    var p := SqlRegex[4..];
    assert p[0] == Word("where") && p[1..] == SqlRegex[5..];
    if MatchesAt(p, s, c) {
      var j: nat :| c <= j <= |s| && MatchesFrom(p, s, c, j);
      assert MatchesFrom(p[1..], s, c + 5, j);
      AnyThenDollarBrace(s, c + 5);
    }
    if WordAt(s, c, "where") && DollarBraceFrom(s, c + 5) {
      AnyThenDollarBrace(s, c + 5);
      var j: nat :| c + 5 <= j <= |s| && MatchesFrom(p[1..], s, c + 5, j);
      assert MatchesFrom(p, s, c, j);
    }
  }

  /** `.*WHERE.*\$\{` from `x`. */
  lemma AnyThenWhere(s: string, x: nat)
    requires '\n' !in s && x <= |s|
    ensures MatchesAt(SqlRegex[3..], s, x) <==> WhereThen(s, x)
  {
    assert SqlRegex[3..] == [Star(AnyButNewline)] + SqlRegex[4..];
    AnyThen(SqlRegex[4..], s, x);
    if MatchesAt(SqlRegex[3..], s, x) {
      var m: nat :| x <= m <= |s| && MatchesAt(SqlRegex[4..], s, m);
      WhereAt(s, m);
    }
    if WhereThen(s, x) {
      var c :| x <= c <= |s| && WordAt(s, c, "where") && DollarBraceFrom(s, c + 5);
      WhereAt(s, c);
    }
  }

  /** `FROM.*WHERE.*\$\{` from `b`. */
  lemma FromAt(s: string, b: nat)
    requires '\n' !in s && b <= |s|
    ensures MatchesAt(SqlRegex[2..], s, b) <==> WordAt(s, b, "from") && WhereThen(s, b + 4)
  {
    var p := SqlRegex[2..];
    assert p[0] == Word("from") && p[1..] == SqlRegex[3..];
    if MatchesAt(p, s, b) {
      var j: nat :| b <= j <= |s| && MatchesFrom(p, s, b, j);
      assert MatchesFrom(p[1..], s, b + 4, j);
      AnyThenWhere(s, b + 4);
    }
    if WordAt(s, b, "from") && WhereThen(s, b + 4) {
      AnyThenWhere(s, b + 4);
      var j: nat :| b + 4 <= j <= |s| && MatchesFrom(p[1..], s, b + 4, j);
      assert MatchesFrom(p, s, b, j);
    }
  }

  /** `.*FROM.*WHERE.*\$\{` from `x`. */
  lemma AnyThenFrom(s: string, x: nat)
    requires '\n' !in s && x <= |s|
    ensures MatchesAt(SqlRegex[1..], s, x) <==> FromThen(s, x)
  {
    assert SqlRegex[1..] == [Star(AnyButNewline)] + SqlRegex[2..];
    AnyThen(SqlRegex[2..], s, x);
    if MatchesAt(SqlRegex[1..], s, x) {
      var m: nat :| x <= m <= |s| && MatchesAt(SqlRegex[2..], s, m);
      FromAt(s, m);
    }
    if FromThen(s, x) {
      var b :| x <= b <= |s| && WordAt(s, b, "from") && WhereThen(s, b + 4);
      FromAt(s, b);
    }
  }

  /** `SELECT.*FROM.*WHERE.*\$\{` from `a`. */
  lemma SelectAt(s: string, a: nat)
    requires '\n' !in s && a <= |s|
    ensures MatchesAt(SqlRegex, s, a) <==> WordAt(s, a, "select") && FromThen(s, a + 6)
  {
    var p := SqlRegex;
    assert p[0] == Word("select");
    if MatchesAt(p, s, a) {
      var j: nat :| a <= j <= |s| && MatchesFrom(p, s, a, j);
      assert MatchesFrom(p[1..], s, a + 6, j);
      AnyThenFrom(s, a + 6);
    }
    if WordAt(s, a, "select") && FromThen(s, a + 6) {
      AnyThenFrom(s, a + 6);
      var j: nat :| a + 6 <= j <= |s| && MatchesFrom(p[1..], s, a + 6, j);
      assert MatchesFrom(p, s, a, j);
    }
  }

  /** A search succeeds exactly when the pattern matches from some start. */
  lemma SearchIsMatchAt(p: seq<Elem>, s: string)
    ensures Search(p, s) <==> exists i: nat :: i <= |s| && MatchesAt(p, s, i)
  {
    if Search(p, s) {
      var i, j :| 0 <= i <= j <= |s| && MatchesFrom(p, s, i, j);
      assert MatchesAt(p, s, i);
    }
  }

  /** On a line (no newline inside), the scanner's test of each rule is exactly
      `re.search(pattern, line, re.IGNORECASE)` for that rule's pattern. */
  lemma MatchesIsSearch(rule: Rule, s: string)
    requires '\n' !in s
    ensures Matches(rule, s) <==> Search(Regex(rule), s)
  {
    SearchIsMatchAt(Regex(rule), s);
    match rule
    case Password =>
      forall i: nat | i <= |s| ensures MatchesAt(Regex(rule), s, i) <==> AssignsQuoted(s, i, "password") {
        AssignmentRegexAt(s, i, "password");
      }
    case ApiKey =>
      forall i: nat | i <= |s| ensures MatchesAt(Regex(rule), s, i) <==> AssignsQuoted(s, i, "api_key") {
        AssignmentRegexAt(s, i, "api_key");
      }
    case Exec =>
      forall i: nat | i <= |s| ensures MatchesAt(Regex(rule), s, i) <==> KeywordThen(s, i, "exec", '(') {
        KeywordRegexAt(s, i, "exec", '(');
      }
    case Eval =>
      forall i: nat | i <= |s| ensures MatchesAt(Regex(rule), s, i) <==> KeywordThen(s, i, "eval", '(') {
        KeywordRegexAt(s, i, "eval", '(');
      }
    case SqlInjection =>
      forall i: nat | i <= |s| ensures MatchesAt(Regex(rule), s, i) <==> WordAt(s, i, "select") && FromThen(s, i + 6) {
        SelectAt(s, i);
      }
    case InnerHtml =>
      forall i: nat | i <= |s| ensures MatchesAt(Regex(rule), s, i) <==> KeywordThen(s, i, "innerhtml", '=') {
        KeywordRegexAt(s, i, "innerhtml", '=');
      }
  }
}
