/** The string operations of Python that the scanner relies on, on `string` (= `seq<char>`). */
module Text {
  import opened Wrappers

  /** Python's `str.isspace()`; it is also the set of characters `\s` matches in a `re`
      pattern over `str` and the set that `str.strip()` removes. */
  predicate IsSpace(c: char) {
    var n := c as int;
    (9 <= n <= 13) || (0x1c <= n <= 0x20) || n == 0x85 || n == 0xa0 || n == 0x1680
    || (0x2000 <= n <= 0x200a) || n == 0x2028 || n == 0x2029 || n == 0x202f || n == 0x205f
    || n == 0x3000
  }

  /** ASCII lower-casing of one character. */
  function Lower(c: char): (r: char)
    ensures ('A' <= c <= 'Z') ==> r as int == c as int + 32
    ensures !('A' <= c <= 'Z') ==> r == c
  {
    if 'A' <= c <= 'Z' then (c as int + 32) as char else c
  }

  /** `s.lower()` (ASCII letters only). */
  function LowerStr(s: string): (r: string)
    ensures |r| == |s|
    ensures forall i :: 0 <= i < |s| ==> r[i] == Lower(s[i])
  {
    seq(|s|, i requires 0 <= i < |s| => Lower(s[i]))
  }

  predicate StartsWith(s: string, p: string) {
    |p| <= |s| && s[..|p|] == p
  }

  predicate EndsWith(s: string, p: string) {
    |p| <= |s| && s[|s| - |p|..] == p
  }

  /** `p` occurs in `s` starting at index `i`. */
  predicate OccursAt(s: string, p: string, i: int) {
    0 <= i && i + |p| <= |s| && s[i..i + |p|] == p
  }

  /** Python's `p in s` for strings. */
  predicate Contains(s: string, p: string) {
    exists i | 0 <= i <= |s| - |p| :: OccursAt(s, p, i)
  }

  /** Extending a prefix of `s` by one element gives the next prefix. */
  lemma PrefixSnoc<T>(s: seq<T>, i: nat)
    requires i < |s|
    ensures s[..i + 1] == s[..i] + [s[i]]
  {
  }

  /** A one-character string occurs exactly where that character is. */
  lemma OccursChar(s: string, c: char, i: int)
    ensures OccursAt(s, [c], i) <==> (0 <= i < |s| && s[i] == c)
  {
    if 0 <= i < |s| {
      assert s[i..i + 1] == [s[i]];
    }
  }

  lemma ContainsChar(s: string, c: char)
    ensures Contains(s, [c]) <==> c in s
  {
    if c in s {
      var i :| 0 <= i < |s| && s[i] == c;
      OccursChar(s, c, i);
    }
    if Contains(s, [c]) {
      var i :| 0 <= i <= |s| - 1 && OccursAt(s, [c], i);
      OccursChar(s, c, i);
    }
  }

  /** Index of the leftmost occurrence of `p` in `s` at or after `from`. */
  function Find(s: string, p: string, from: nat): (r: Option<nat>)
    requires from <= |s|
    ensures r.Some? ==> from <= r.value && OccursAt(s, p, r.value)
    ensures r.Some? ==> forall k :: from <= k < r.value ==> !OccursAt(s, p, k)
    ensures r.None? ==> forall k :: from <= k ==> !OccursAt(s, p, k)
    decreases |s| - from
  {
    if OccursAt(s, p, from) then Some(from)
    else if from + |p| >= |s| then None
    else Find(s, p, from + 1)
  }

  /** `s.split(sep)[0]`: the text before the first occurrence of `sep`, or all of `s`. */
  function BeforeFirst(s: string, sep: string): (r: string)
    ensures StartsWith(s, r)
    ensures |sep| > 0 ==> !Contains(r, sep)
    ensures Contains(s, sep) ==> OccursAt(s, sep, |r|)
    ensures forall k :: 0 <= k < |r| ==> !OccursAt(s, sep, k)
    ensures !Contains(s, sep) ==> r == s
  {
    match Find(s, sep, 0)
    case Some(i) =>
      assert s[..i][..|s[..i]|] == s[..i];
      NoOccurrenceInPrefix(s, sep, i);
      s[..i]
    case None => assert s[..|s|] == s; s
  }

  /** Cutting at a one-character separator: the part before it holds no such character and
      is followed by it, unless the separator does not occur at all. */
  lemma BeforeFirstChar(s: string, c: char)
    ensures var r := BeforeFirst(s, [c]);
      |r| <= |s| && s[..|r|] == r && c !in r && (|r| < |s| ==> s[|r|] == c)
  {
    var r := BeforeFirst(s, [c]);
    ContainsChar(r, c);
    if |r| < |s| {
      OccursChar(s, c, |r|);
    }
  }

  /** Cutting `name + sep + rest` at `sep` gives back `name` when `name` holds no character
      that starts `sep`. */
  lemma CutAtSeparator(name: string, sep: string, rest: string)
    requires |sep| > 0 && sep[0] !in name
    ensures BeforeFirst(name + sep + rest, sep) == name
  {
    var s := name + sep + rest;
    assert s[|name|..|name| + |sep|] == sep;
    assert OccursAt(s, sep, |name|);
    var r := BeforeFirst(s, sep);
    assert |r| <= |name|;
    assert s[..|name|] == name;
  }

  /** A text lacking the first character of `p` does not contain `p`. */
  lemma MissingFirstChar(s: string, p: string)
    requires |p| > 0 && p[0] !in s
    ensures !Contains(s, p)
  {
    forall i | 0 <= i <= |s| - |p| ensures !OccursAt(s, p, i) {
      assert s[i..i + |p|][0] == s[i];
    }
  }

  /** A prefix of `s` cut before the first occurrence of `sep` does not contain `sep`. */
  lemma NoOccurrenceInPrefix(s: string, sep: string, i: nat)
    requires i <= |s|
    requires forall k :: 0 <= k < i ==> !OccursAt(s, sep, k)
    ensures |sep| > 0 ==> !Contains(s[..i], sep)
  {
    if |sep| > 0 {
      forall k | 0 <= k <= |s[..i]| - |sep| ensures !OccursAt(s[..i], sep, k) {
        assert !OccursAt(s, sep, k);
        if k + |sep| <= i {
          assert s[..i][k..k + |sep|] == s[k..k + |sep|];
        }
      }
    }
  }

  /** A prefix of a text without `p` is without `p` too. */
  lemma NotContainedInPrefix(s: string, r: string, p: string)
    requires StartsWith(s, r) && !Contains(s, p)
    ensures !Contains(r, p)
  {
    forall i | 0 <= i <= |r| - |p| ensures !OccursAt(r, p, i) {
      assert !OccursAt(s, p, i);
      assert r[i..i + |p|] == s[..|r|][i..i + |p|];
    }
  }

  /** `s.replace(p, '')` for a non-empty `p`: every occurrence found by a left-to-right,
      non-overlapping scan is deleted; the result is not scanned again. */
  function RemoveAll(s: string, p: string): (r: string)
    requires |p| > 0
    ensures |r| <= |s|
    ensures !Contains(s, p) ==> r == s
    decreases |s|
  {
    match Find(s, p, 0)
    case Some(i) => s[..i] + RemoveAll(s[i + |p|..], p)
    case None => s
  }

  /** Drops leading characters for which `str.isspace()` holds. */
  function TrimStart(s: string): (r: string)
    ensures |r| <= |s| && r == s[|s| - |r|..]
    ensures r == [] || !IsSpace(r[0])
    ensures forall k :: 0 <= k < |s| - |r| ==> IsSpace(s[k])
  {
    if |s| > 0 && IsSpace(s[0]) then TrimStart(s[1..]) else s
  }

  /** Drops trailing characters for which `str.isspace()` holds. */
  function TrimEnd(s: string): (r: string)
    ensures |r| <= |s| && r == s[..|r|]
    ensures r == [] || !IsSpace(r[|r| - 1])
    ensures forall k :: |r| <= k < |s| ==> IsSpace(s[k])
  {
    if |s| > 0 && IsSpace(s[|s| - 1]) then TrimEnd(s[..|s| - 1]) else s
  }

  /** Python's `s.strip()`. */
  function Strip(s: string): (r: string)
    ensures r == [] || (!IsSpace(r[0]) && !IsSpace(r[|r| - 1]))
    ensures Contains(s, r)
  {
    var t := TrimStart(s);
    var r := TrimEnd(t);
    assert s[|s| - |t|..][..|r|] == s[|s| - |t|..|s| - |t| + |r|];
    assert OccursAt(s, r, |s| - |t|);
    r
  }

  /** Stripping a line read with its newline gives back the line when it neither starts nor
      ends with a blank. */
  lemma StripTrailingNewline(s: string)
    requires s != [] && !IsSpace(s[0]) && !IsSpace(s[|s| - 1])
    ensures Strip(s + "\n") == s
  {
    var t := s + "\n";
    assert TrimStart(t) == t;
    assert t[..|t| - 1] == s;
    assert TrimEnd(t) == TrimEnd(s);
  }

  /** Python's `s.split(sep)` for a one-character separator: always at least one piece. */
  function Split(s: string, sep: char): (r: seq<string>)
    ensures |r| >= 1
    ensures forall k :: 0 <= k < |r| ==> sep !in r[k]
    decreases |s|
  {
    match Find(s, [sep], 0)
    case Some(i) =>
      assert s[i] == sep by { assert s[i..i + 1] == [sep]; }
      assert sep !in s[..i] by {
        forall k | 0 <= k < i ensures s[k] != sep { assert !OccursAt(s, [sep], k); assert s[k..k + 1] == [s[k]]; }
      }
      [s[..i]] + Split(s[i + 1..], sep)
    case None =>
      assert sep !in s by {
        forall k | 0 <= k < |s| ensures s[k] != sep { assert !OccursAt(s, [sep], k); assert s[k..k + 1] == [s[k]]; }
      }
      [s]
  }

  /** Number of characters `c` in `s`. */
  function CountChar(s: string, c: char): nat {
    if s == [] then 0 else (if s[0] == c then 1 else 0) + CountChar(s[1..], c)
  }

  /** Python's `f.readlines()` on text already read: the lines, each keeping its '\n',
      the last one possibly without. */
  function ReadLines(s: string): (r: seq<string>)
    ensures forall k :: 0 <= k < |r| ==> |r[k]| > 0
    decreases |s|
  {
    if s == [] then []
    else match Find(s, "\n", 0)
      case Some(i) => [s[..i + 1]] + ReadLines(s[i + 1..])
      case None => [s]
  }

  /** The two line splits of the scanner disagree by one exactly when the text is empty or
      ends with a newline: `split('\n')` then yields a final empty piece that `readlines()`
      does not. */
  lemma {:induction false} SplitHasOneMoreLine(s: string)
    ensures |Split(s, '\n')| == |ReadLines(s)| + (if s == [] || s[|s| - 1] == '\n' then 1 else 0)
    decreases |s|
  {
    assert ['\n'] == "\n";
    match Find(s, "\n", 0)
    case Some(i) =>
      var rest := s[i + 1..];
      assert |Split(s, '\n')| == 1 + |Split(rest, '\n')|;
      assert |ReadLines(s)| == 1 + |ReadLines(rest)|;
      SplitHasOneMoreLine(rest);
      if rest != [] {
        assert rest[|rest| - 1] == s[|s| - 1];
      } else {
        OccursChar(s, '\n', i);
      }
    case None =>
      assert |Split(s, '\n')| == 1;
      if s != [] {
        assert |ReadLines(s)| == 1;
        OccursChar(s, '\n', |s| - 1);
      }
  }

  /** Python's universal-newline translation on reading a file in text mode:
      "\r\n" and a lone "\r" both become "\n". */
  function TranslateNewlines(s: string): (r: string)
    ensures '\r' !in r
    decreases |s|
  {
    if s == [] then []
    else if s[0] == '\r' then
      if |s| > 1 && s[1] == '\n' then "\n" + TranslateNewlines(s[2..]) else "\n" + TranslateNewlines(s[1..])
    else [s[0]] + TranslateNewlines(s[1..])
  }

  /** Joins path components with '/', as `os.path.join` and `os.path.relpath` produce them. */
  function JoinPath(parts: seq<string>): string {
    if parts == [] then "" else if |parts| == 1 then parts[0] else parts[0] + "/" + JoinPath(parts[1..])
  }

  /** Decimal digits of `n`, as `str(n)` prints a non-negative integer. */
  function NatToString(n: nat): (r: string)
    ensures |r| >= 1
    ensures forall k :: 0 <= k < |r| ==> '0' <= r[k] <= '9'
  {
    var d := [(48 + n % 10) as char];
    if n < 10 then d else NatToString(n / 10) + d
  }
}
