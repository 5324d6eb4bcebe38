/** Parsing a repository URL into platform, owner and repository name
    (`RepositoryScanner._parse_repo_url`). */
module RepoUrl {
  import opened Wrappers
  import opened Text

  datatype Platform = GitHub | GitLab | Bitbucket

  /** The platforms in the order the pattern dictionary lists them. */
  const Platforms: seq<Platform> := [GitHub, GitLab, Bitbucket]

  function PlatformName(p: Platform): string {
    match p
    case GitHub => "github"
    case GitLab => "gitlab"
    case Bitbucket => "bitbucket"
  }

  /** The host part of each platform's pattern, with the slash that follows it. */
  function Host(p: Platform): string {
    match p
    case GitHub => "github.com/"
    case GitLab => "gitlab.com/"
    case Bitbucket => "bitbucket.org/"
  }

  /** `https?://`: the secure scheme is tried first, as the greedy `s?` does. */
  function Scheme(secure: bool): string {
    if secure then "https://" else "http://"
  }

  datatype RepoInfo = RepoInfo(platform: Platform, owner: string, repo: string, url: string)

  /** The length of the `https?://HOST/` prefix of `url` for platform `p`, if it has one. */
  function PrefixLength(p: Platform, url: string): Option<nat> {
    if StartsWith(url, Scheme(true) + Host(p)) then Some(|Scheme(true) + Host(p)|)
    else if StartsWith(url, Scheme(false) + Host(p)) then Some(|Scheme(false) + Host(p)|)
    else None
  }

  /** `([^/]+)/([^/]+)` matched at the start of `rest`: the two captured groups. */
  function MatchOwnerRepo(rest: string): Option<(string, string)> {
    var owner := BeforeFirst(rest, "/");
    if owner == [] || |owner| == |rest| then None
    else
      var repo := BeforeFirst(rest[|owner| + 1..], "/");
      if repo == [] then None else Some((owner, repo))
  }

  /** `re.match(r'https?://HOST/([^/]+)/([^/]+)', url)`: the two captured groups. The match is
      anchored at the start only, so anything may follow the second group. */
  function MatchPlatform(p: Platform, url: string): Option<(string, string)> {
    match PrefixLength(p, url)
    case None => None
    case Some(n) => if n <= |url| then MatchOwnerRepo(url[n..]) else None
  }

  /** Tries the platforms of `ps` in order and reports the first that matches. */
  function ParseWith(ps: seq<Platform>, url: string): (r: Option<RepoInfo>)
    ensures r.Some? ==> r.value.url == url && r.value.platform in ps
  {
    if ps == [] then None
    else match MatchPlatform(ps[0], url)
      case Some((owner, repo)) => Some(RepoInfo(ps[0], owner, RemoveAll(repo, ".git"), url))
      case None => ParseWith(ps[1..], url)
  }

  /** `_parse_repo_url`: `None` for a URL of no supported platform. */
  function ParseRepoUrl(url: string): Option<RepoInfo> {
    ParseWith(Platforms, url)
  }

  /** A URL segment as `[^/]+` captures it. */
  predicate IsSegment(s: string) {
    s != [] && '/' !in s
  }

  lemma BeforeFirstSegment(seg: string, rest: string)
    requires IsSegment(seg)
    requires rest == [] || rest[0] == '/'
    ensures BeforeFirst(seg + rest, "/") == seg
  {
    var s := seg + rest;
    var r := BeforeFirst(s, "/");
    assert s[..|seg|] == seg;
    OccursChar(s, '/', |r|);
    OccursChar(s, '/', |seg|);
    OccursChar(r, '/', |seg|);
    assert |r| >= |seg|;
  }

  /** The owner/repository groups of a path built from two segments. */
  lemma MatchBuiltPath(owner: string, repo: string, tail: string)
    requires IsSegment(owner) && IsSegment(repo)
    requires tail == [] || tail[0] == '/'
    ensures MatchOwnerRepo(owner + "/" + repo + tail) == Some((owner, repo))
  {
    var rest := owner + "/" + repo + tail;
    assert rest == owner + ("/" + repo + tail);
    BeforeFirstSegment(owner, "/" + repo + tail);
    assert rest[|owner| + 1..] == repo + tail;
    BeforeFirstSegment(repo, tail);
  }

  /** Whenever the groups match, the path is owner + "/" + repo + tail. */
  lemma MatchedPathShape(rest: string) returns (tail: string)
    requires MatchOwnerRepo(rest).Some?
    ensures var (owner, repo) := MatchOwnerRepo(rest).value;
            rest == owner + "/" + repo + tail && IsSegment(owner) && IsSegment(repo)
            && (tail == [] || tail[0] == '/')
  {
    var owner := BeforeFirst(rest, "/");
    var after := rest[|owner| + 1..];
    var repo := BeforeFirst(after, "/");
    tail := after[|repo|..];
    BeforeFirstChar(rest, '/');
    BeforeFirstChar(after, '/');
    assert after == repo + tail by {
      assert after[..|repo|] == repo;
    }
    assert rest == owner + "/" + after by {
      assert rest == rest[..|owner|] + [rest[|owner|]] + rest[|owner| + 1..];
    }
  }

  /** Hosts differ at their fourth letter, and the schemes at their fifth, so a URL built
      with one scheme and host does not start with any other scheme and host. */
  lemma OnlyOwnPrefix(q: Platform, secure2: bool, p: Platform, secure: bool, body: string)
    requires q != p || secure != secure2
    ensures !StartsWith(Scheme(secure) + Host(p) + body, Scheme(secure2) + Host(q))
  {
    var u := Scheme(secure) + Host(p) + body;
    var pre := Scheme(secure2) + Host(q);
    var i := if secure != secure2 then 4 else |Scheme(secure)| + 3;
    assert i < |pre| && i < |u|;
    assert u[i] != pre[i];
    if |pre| <= |u| {
      assert u[..|pre|][i] != pre[i];
    }
  }

  lemma PrefixOf(p: Platform, secure: bool, body: string)
    ensures PrefixLength(p, Scheme(secure) + Host(p) + body) == Some(|Scheme(secure) + Host(p)|)
    ensures (Scheme(secure) + Host(p) + body)[|Scheme(secure) + Host(p)|..] == body
  {
    var u := Scheme(secure) + Host(p) + body;
    assert u[..|Scheme(secure) + Host(p)|] == Scheme(secure) + Host(p);
    if !secure {
      OnlyOwnPrefix(p, true, p, false, body);
    }
  }

  /** Round trip: a URL built from a scheme, a supported host, an owner segment and a
      repository segment (and any path after it) parses back to that platform and owner, and
      to the repository name with ".git" removed. */
  lemma ParseBuiltUrl(secure: bool, p: Platform, owner: string, repo: string, tail: string)
    requires IsSegment(owner) && IsSegment(repo)
    requires tail == [] || tail[0] == '/'
    ensures var url := Scheme(secure) + Host(p) + (owner + "/" + repo + tail);
            ParseRepoUrl(url) == Some(RepoInfo(p, owner, RemoveAll(repo, ".git"), url))
  {
    var body := owner + "/" + repo + tail;
    var url := Scheme(secure) + Host(p) + body;
    PrefixOf(p, secure, body);
    MatchBuiltPath(owner, repo, tail);
    assert MatchPlatform(p, url) == Some((owner, repo));
    forall q | q != p ensures MatchPlatform(q, url).None? {
      OnlyOwnPrefix(q, true, p, secure, body);
      OnlyOwnPrefix(q, false, p, secure, body);
    }
    ParseWithOnlyMatch(Platforms, url, p);
  }

  /** When exactly one platform of `ps` matches, the search reports that one. */
  lemma {:induction false} ParseWithOnlyMatch(ps: seq<Platform>, url: string, p: Platform)
    requires p in ps
    requires MatchPlatform(p, url).Some?
    requires forall q :: q != p ==> MatchPlatform(q, url).None?
    ensures ParseWith(ps, url)
         == Some(RepoInfo(p, MatchPlatform(p, url).value.0, RemoveAll(MatchPlatform(p, url).value.1, ".git"), url))
  {
    if ps[0] != p {
      ParseWithOnlyMatch(ps[1..], url, p);
    }
  }

  /** The platform a parse reports is one whose pattern matched. */
  lemma ParsedPlatformMatched(ps: seq<Platform>, url: string)
    requires ParseWith(ps, url).Some?
    ensures var info := ParseWith(ps, url).value;
            MatchPlatform(info.platform, url) == Some((info.owner, ParseOwnRaw(info.platform, url)))
            && info.repo == RemoveAll(ParseOwnRaw(info.platform, url), ".git") && info.url == url
  {
    if MatchPlatform(ps[0], url).None? {
      ParsedPlatformMatched(ps[1..], url);
    }
  }

  /** The raw repository group matched for platform `p` ("" when it does not match). */
  function ParseOwnRaw(p: Platform, url: string): string {
    match MatchPlatform(p, url)
    case Some((_, repo)) => repo
    case None => ""
  }

  /** Soundness: whenever a record is returned, the URL is
      scheme + host + owner + "/" + raw + tail with owner and raw single segments and tail
      empty or a further path, and the record's name is `raw` with ".git" removed. */
  lemma ParsedUrlShape(url: string) returns (secure: bool, raw: string, tail: string)
    requires ParseRepoUrl(url).Some?
    ensures var info := ParseRepoUrl(url).value;
            && url == Scheme(secure) + Host(info.platform) + (info.owner + "/" + raw + tail)
            && IsSegment(info.owner) && IsSegment(raw) && (tail == [] || tail[0] == '/')
            && info.repo == RemoveAll(raw, ".git") && info.url == url
  {
    var info := ParseRepoUrl(url).value;
    var p := info.platform;
    ParsedPlatformMatched(Platforms, url);
    raw := ParseOwnRaw(p, url);
    var n;
    secure, n := MatchedPrefix(p, url);
    var pre := Scheme(secure) + Host(p);
    var rest := url[n..];
    assert MatchOwnerRepo(rest) == Some((info.owner, raw));
    tail := MatchedPathShape(rest);
    assert url == pre + rest by {
      assert url == url[..n] + rest;
    }
  }

  /** A URL some platform's pattern matches starts with a scheme and that platform's host. */
  lemma MatchedPrefix(p: Platform, url: string) returns (secure: bool, n: nat)
    requires MatchPlatform(p, url).Some?
    ensures n == |Scheme(secure) + Host(p)| <= |url| && url[..n] == Scheme(secure) + Host(p)
    ensures MatchPlatform(p, url) == MatchOwnerRepo(url[n..])
  {
    secure := StartsWith(url, Scheme(true) + Host(p));
    n := PrefixLength(p, url).value;
  }

  /** `str.replace` does not rescan what it produces: a name can still contain ".git"
      afterwards, so ".git"-freeness of the result is not a property of the parser. */
  lemma RemoveAllDoesNotRescan()
    ensures RemoveAll("x.g.gitit", ".git") == "x.git"
  {
    var s := "x.g.gitit";
    assert s[0..4][0] != '.' && s[1..5][2] != 'i' && s[2..6][0] != '.';
    assert s[3..7] == ".git";
    assert Find(s, ".git", 0) == Some(3);
    assert s[..3] == "x.g" && s[7..] == "it";
    assert Find("it", ".git", 0) == None;
  }
}
