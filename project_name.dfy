/** `toProjectName` of the browser client (frontend/src/utils/gerrit.js): turns
    what a user typed or pasted (a project name, an encoded project name, or
    a Gerrit web or REST URL) into a Gerrit project name.

    A URL is tried against three patterns in turn: a gitiles browse path, a
    `/projects/<name>` REST path, and a `project:<name>` search in the `q`
    query parameter.  Anything else, and any URL whose parsing or decoding
    throws, falls back to the trimmed text with `%2F` turned into `/`. */
module ProjectName {
  import opened Wrappers
  import opened Text
  import opened Percent
  import opened JsonValue

  /** `/^https?:\/\//i.test(s)` */
  predicate IsHttpUrl(s: string) {
    StartsWithIgnoreCase(s, "http://") || StartsWithIgnoreCase(s, "https://")
  }

  /** The two parts of a parsed URL the extraction reads: `u.pathname` and
      the query string behind `u.searchParams`. */
  datatype Url = Url(pathname: string, query: string)

  /** Length of the longest prefix of `s` holding none of `stops`. */
  function Span(s: string, stops: set<char>): (n: nat)
    ensures n <= |s|
    ensures forall i :: 0 <= i < n ==> s[i] !in stops
    ensures n < |s| ==> s[n] in stops
  {
    if s == [] || s[0] in stops then 0 else 1 + Span(s[1..], stops)
  }

  lemma {:induction false} SpanConcat(a: string, b: string, stops: set<char>)
    requires forall i :: 0 <= i < |a| ==> a[i] !in stops
    requires b != [] ==> b[0] in stops
    ensures Span(a + b, stops) == |a|
  {
    if a != [] {
      assert (a + b)[1..] == a[1..] + b;
      SpanConcat(a[1..], b, stops);
    } else {
      assert a + b == b;
    }
  }

  /** `new URL(s)` for a string that starts with `http://` or `https://`:
      the host runs up to the first `/`, `?` or `#` and must not be empty
      (otherwise the constructor throws); the path runs up to `?` or `#`
      and is `/` when empty; the query runs from `?` up to `#`. */
  function ParseHttpUrl(s: string): (r: Option<Url>)
    requires IsHttpUrl(s)
    ensures r.Some? ==> r.value.pathname != [] && r.value.pathname[0] == '/'
  {
    var afterScheme := if StartsWithIgnoreCase(s, "https://") then s[8..] else s[7..];
    var hostLen := Span(afterScheme, {'/', '?', '#'});
    if hostLen == 0 then None
    else
      var rest := afterScheme[hostLen..];
      var pathLen := Span(rest, {'?', '#'});
      var path := if pathLen == 0 then "/" else rest[..pathLen];
      var afterPath := rest[pathLen..];
      var query := if afterPath != [] && afterPath[0] == '?' then afterPath[1..][..Span(afterPath[1..], {'#'})] else [];
      Some(Url(path, query))
  }

  /** `u.searchParams.get(name)`: the decoded value of the first `&`-separated
      pair whose decoded name is `name`; a pair without `=` has the empty value. */
  function QueryGet(query: string, name: string): (r: Option<string>)
    ensures query == [] ==> r.None?
  {
    FirstParam(Split(query, '&'), name)
  }

  function FirstParam(pairs: seq<string>, name: string): (r: Option<string>)
    ensures (forall i :: 0 <= i < |pairs| ==> pairs[i] == []) ==> r.None?
  {
    if pairs == [] then None
    else
      var p := pairs[0];
      var k := match IndexOf(p, '=') case Some(k) => k case None => |p|;
      var value := if k < |p| then p[k + 1..] else [];
      if p != [] && FormDecode(p[..k]) == name then Some(FormDecode(value))
      else FirstParam(pairs[1..], name)
  }

  /** The three regular expressions. */
  datatype Pattern =
    | Gitiles       // `/\/plugins\/gitiles\/([^/][^+]*)\/\+\//i`
    | Projects      // `/\/projects\/([^/]+)(?:\/|$)/i`
    | ProjectToken  // `/project:([^ ]+)/i`

  /** The literal each pattern starts with, in lower case. */
  function Literal(p: Pattern): string {
    match p
    case Gitiles => "/plugins/gitiles/"
    case Projects => "/projects/"
    case ProjectToken => "project:"
  }

  /** The captured group when `p` matches at position `i` of `s`.
      `Projects` and `ProjectToken` capture the longest non-empty run without
      `/` (respectively a space).  `Gitiles` needs a first character other
      than `/` and then, before the first `+` after it, a `/` followed by `+/`;
      the group ends at that `/`, the only place the backtracking `[^+]*`
      can stop. */
  function MatchAt(p: Pattern, s: string, i: nat): (g: Option<string>)
    ensures g.Some? ==> g.value != [] && i + |Literal(p)| <= |s|
  {
    var lit := Literal(p);
    if !(i + |lit| <= |s| && EqualsIgnoreCase(s[i..i + |lit|], lit)) then None
    else
      var tail := s[i + |lit|..];
      match p
      case Projects =>
        var n := Span(tail, {'/'});
        if n == 0 then None else Some(tail[..n])
      case ProjectToken =>
        var n := Span(tail, {' '});
        if n == 0 then None else Some(tail[..n])
      case Gitiles =>
        if tail == [] || tail[0] == '/' then None
        else
          var n := 1 + Span(tail[1..], {'+'});
          if 2 <= n && n + 1 < |tail| && tail[n - 1] == '/' && tail[n + 1] == '/' then Some(tail[..n - 1])
          else None
  }

  /** `p` matches nowhere in `s` before position `k`. */
  predicate NoMatchBefore(p: Pattern, s: string, i: nat, k: nat) {
    forall k' :: i <= k' < k ==> MatchAt(p, s, k').None?
  }

  /** `s.match(re)`: the group of the leftmost match at or after `i`. */
  function Search(p: Pattern, s: string, i: nat): (g: Option<string>)
    requires i <= |s|
    ensures g.Some? ==> exists k :: i <= k <= |s| && MatchAt(p, s, k) == g && NoMatchBefore(p, s, i, k)
    ensures g.None? <==> NoMatchBefore(p, s, i, |s| + 1)
    decreases |s| - i
  {
    if MatchAt(p, s, i).Some? then
      assert NoMatchBefore(p, s, i, i);
      MatchAt(p, s, i)
    else if i == |s| then None
    else
      var g := Search(p, s, i + 1);
      SearchStep(p, s, i, g);
      g
  }

  /** One step of the search: no match at `i`, and the search from `i + 1`
      gave `g`. */
  lemma SearchStep(p: Pattern, s: string, i: nat, g: Option<string>)
    requires i < |s| && MatchAt(p, s, i).None?
    requires g.Some? ==> exists k :: i + 1 <= k <= |s| && MatchAt(p, s, k) == g && NoMatchBefore(p, s, i + 1, k)
    requires g.None? <==> NoMatchBefore(p, s, i + 1, |s| + 1)
    ensures g.Some? ==> exists k :: i <= k <= |s| && MatchAt(p, s, k) == g && NoMatchBefore(p, s, i, k)
    ensures g.None? <==> NoMatchBefore(p, s, i, |s| + 1)
  {
    if g.Some? {
      var k :| i + 1 <= k <= |s| && MatchAt(p, s, k) == g && NoMatchBefore(p, s, i + 1, k);
      assert NoMatchBefore(p, s, i, k);
    }
  }

  /** `decodeURIComponent(g).replace(/%2F/gi, "/")`; a decoding error throws. */
  function DecodeName(g: string): Option<string> {
    match PercentDecode(g)
    case None => None
    case Some(d) => Some(ReplaceEncodedSlash(d))
  }

  /** The body of the `try` block once the URL is parsed: the gitiles
      pattern on the decoded `path`, then the projects pattern on
      `projectsIn`, then the `q` parameter.  `None` is a fall-through: no
      pattern matched, or decoding the matched group threw. */
  function FromUrlParts(path: string, projectsIn: string, query: string): (r: Option<string>)
    ensures Search(Gitiles, path, 0).Some? ==> r == Search(Gitiles, path, 0)
    ensures Search(Gitiles, path, 0).None? && Search(Projects, projectsIn, 0).Some? ==>
      r == DecodeName(Search(Projects, projectsIn, 0).value)
    ensures Search(Gitiles, path, 0).None? && Search(Projects, projectsIn, 0).None? ==>
      var qp := QueryGet(query, "q").GetOr("");
      r == if Search(ProjectToken, qp, 0).Some? then DecodeName(Search(ProjectToken, qp, 0).value) else None
  {
    match Search(Gitiles, path, 0)
    case Some(g) => Some(g)
    case None =>
      match Search(Projects, projectsIn, 0)
      case Some(g) => DecodeName(g)
      case None =>
        var qp := QueryGet(query, "q").GetOr("");
        match Search(ProjectToken, qp, 0)
        case Some(g) => DecodeName(g)
        case None => None
  }

  /** The `try` block as written: the projects pattern is matched against the
      already decoded path, so an encoded slash in the name has become a path
      separator before the pattern sees it. */
  function FromUrlAsWritten(s: string): (r: Option<string>)
    requires IsHttpUrl(s)
    ensures r.Some? ==> ParseHttpUrl(s).Some? && PercentDecode(ParseHttpUrl(s).value.pathname).Some?
    ensures ParseHttpUrl(s).Some? && PercentDecode(ParseHttpUrl(s).value.pathname).Some? ==>
      var u := ParseHttpUrl(s).value;
      var path := PercentDecode(u.pathname).value;
      && (Search(Gitiles, path, 0).Some? ==> r == Search(Gitiles, path, 0))
      && (Search(Gitiles, path, 0).None? && Search(Projects, path, 0).Some? ==>
            r == DecodeName(Search(Projects, path, 0).value))
  {
    match ParseHttpUrl(s)
    case None => None
    case Some(u) =>
      match PercentDecode(u.pathname)
      case None => None
      case Some(path) => FromUrlParts(path, path, u.query)
  }

  /** The `try` block with the projects pattern matched against the path as
      it appears in the URL, so that the decoding of the captured name sees
      its encoded slashes. */
  function FromUrl(s: string): (r: Option<string>)
    requires IsHttpUrl(s)
    ensures r.Some? ==> ParseHttpUrl(s).Some? && PercentDecode(ParseHttpUrl(s).value.pathname).Some?
    ensures ParseHttpUrl(s).Some? && PercentDecode(ParseHttpUrl(s).value.pathname).Some? ==>
      var u := ParseHttpUrl(s).value;
      var path := PercentDecode(u.pathname).value;
      && (Search(Gitiles, path, 0).Some? ==> r == Search(Gitiles, path, 0))
      && (Search(Gitiles, path, 0).None? && Search(Projects, u.pathname, 0).Some? ==>
            r == DecodeName(Search(Projects, u.pathname, 0).value))
  {
    match ParseHttpUrl(s)
    case None => None
    case Some(u) =>
      match PercentDecode(u.pathname)
      case None => None
      case Some(path) => FromUrlParts(path, u.pathname, u.query)
  }

  /** `toProjectName(input)` as written.  It throws only for a truthy
      non-string, which has no `trim`; blank input gives `""`; text that is
      not an http(s) URL is trimmed and has every encoded slash replaced. */
  function ToProjectNameAsWritten(input: Value): (r: Result<string, JsError>)
    ensures r.Err? <==> Truthy(input) && !input.Str?
    ensures !Truthy(input) ==> r == Ok([])
    ensures input.Str? && Trim(input.s) == [] ==> r == Ok([])
    ensures input.Str? && !IsHttpUrl(Trim(input.s)) ==> r == Ok(ReplaceEncodedSlash(Trim(input.s)))
    ensures input.Str? && IsHttpUrl(Trim(input.s)) && FromUrlAsWritten(Trim(input.s)).Some? ==>
      r == Ok(FromUrlAsWritten(Trim(input.s)).value)
    ensures input.Str? && IsHttpUrl(Trim(input.s)) && FromUrlAsWritten(Trim(input.s)).None? ==>
      r == Ok(ReplaceEncodedSlash(Trim(input.s)))
  {
    var s :- TrimOrBlank(input);
    if s == [] then Ok([])
    else if IsHttpUrl(s) && FromUrlAsWritten(s).Some? then Ok(FromUrlAsWritten(s).value)
    else Ok(ReplaceEncodedSlash(s))
  }

  /** `toProjectName(input)` with the projects pattern corrected.  It throws
      only for a truthy non-string, which has no `trim`; blank input gives
      `""`; text that is not an http(s) URL is trimmed and has every encoded
      slash replaced. */
  function ToProjectName(input: Value): (r: Result<string, JsError>)
    ensures r.Err? <==> Truthy(input) && !input.Str?
    ensures !Truthy(input) ==> r == Ok([])
    ensures input.Str? && Trim(input.s) == [] ==> r == Ok([])
    ensures input.Str? && !IsHttpUrl(Trim(input.s)) ==> r == Ok(ReplaceEncodedSlash(Trim(input.s)))
    ensures input.Str? && IsHttpUrl(Trim(input.s)) && FromUrl(Trim(input.s)).Some? ==>
      r == Ok(FromUrl(Trim(input.s)).value)
    ensures input.Str? && IsHttpUrl(Trim(input.s)) && FromUrl(Trim(input.s)).None? ==>
      r == Ok(ReplaceEncodedSlash(Trim(input.s)))
  {
    var s :- TrimOrBlank(input);
    if s == [] then Ok([])
    else if IsHttpUrl(s) && FromUrl(s).Some? then Ok(FromUrl(s).value)
    else Ok(ReplaceEncodedSlash(s))
  }

  /** On text that is not a URL the result holds no encoded slash. */
  lemma RawNameHasNoEncodedSlash(input: Value)
    requires input.Str? && !IsHttpUrl(Trim(input.s))
    ensures !HasEncodedSlash(ToProjectName(input).value)
    ensures !HasEncodedSlash(ToProjectNameAsWritten(input).value)
  {
    ReplaceLeavesNoEncodedSlash(Trim(input.s));
  }

  /** A string of characters that may appear in a host name here. */
  predicate PlainHost(h: string) {
    h != [] && forall i :: 0 <= i < |h| ==> h[i] != '/' && h[i] != '?' && h[i] != '#' && !IsSpace(h[i])
  }

  /** Parsing `https://<host><path>` gives back the path when the path starts
      with `/` and holds no `?` or `#`. */
  lemma ParseHostPath(h: string, path: string)
    requires PlainHost(h)
    requires path != [] && path[0] == '/'
    requires forall i :: 0 <= i < |path| ==> path[i] != '?' && path[i] != '#'
    ensures IsHttpUrl("https://" + h + path)
    ensures ParseHttpUrl("https://" + h + path) == Some(Url(path, []))
  {
    var s := "https://" + h + path;
    assert s[..8] == "https://";
    assert s[8..] == h + path;
    SpanConcat(h, path, {'/', '?', '#'});
    assert (h + path)[|h|..] == path;
    SpanConcat(path, [], {'?', '#'});
    assert path + [] == path;
  }

  /** The result for a trimmed http(s) URL from which a name is extracted. */
  lemma UrlResult(s: string)
    requires s != [] && !IsSpace(s[0]) && !IsSpace(s[|s| - 1]) && IsHttpUrl(s)
    ensures FromUrl(s).Some? ==> ToProjectName(Str(s)) == Ok(FromUrl(s).value)
    ensures FromUrlAsWritten(s).Some? ==> ToProjectNameAsWritten(Str(s)) == Ok(FromUrlAsWritten(s).value)
  {
    assert Trim(s) == s;
  }

  /** `https://<host><path>` is an http(s) URL with nothing to trim. */
  lemma UrlShape(h: string, path: string)
    requires PlainHost(h)
    requires path != [] && path[0] == '/' && !IsSpace(path[|path| - 1])
    ensures var s := "https://" + h + path;
      s != [] && !IsSpace(s[0]) && !IsSpace(s[|s| - 1]) && IsHttpUrl(s)
  {
    var s := "https://" + h + path;
    assert s[..8] == "https://";
    assert s[|s| - 1] == path[|path| - 1];
  }

  /** For `https://<host><path>`, the input is the URL itself. */
  lemma HostPathResult(h: string, path: string)
    requires PlainHost(h)
    requires path != [] && path[0] == '/' && !IsSpace(path[|path| - 1])
    ensures var s := "https://" + h + path;
      IsHttpUrl(s) &&
      (FromUrl(s).Some? ==> ToProjectName(Str(s)) == Ok(FromUrl(s).value)) &&
      (FromUrlAsWritten(s).Some? ==> ToProjectNameAsWritten(Str(s)) == Ok(FromUrlAsWritten(s).value))
  {
    UrlShape(h, path);
    UrlResult("https://" + h + path);
  }

  /** The extraction from `https://<host><path>`. */
  lemma FromHostPath(h: string, path: string, d: string)
    requires PlainHost(h)
    requires path != [] && path[0] == '/'
    requires forall i :: 0 <= i < |path| ==> path[i] != '?' && path[i] != '#'
    requires PercentDecode(path) == Some(d)
    ensures IsHttpUrl("https://" + h + path)
    ensures FromUrl("https://" + h + path) == FromUrlParts(d, path, [])
    ensures FromUrlAsWritten("https://" + h + path) == FromUrlParts(d, d, [])
  {
    ParseHostPath(h, path);
  }

  /** The gitiles pattern needs a `+`. */
  lemma NoPlusNoGitiles(s: string)
    requires '+' !in s
    ensures Search(Gitiles, s, 0).None?
  {
    forall k | 0 <= k <= |s| ensures MatchAt(Gitiles, s, k).None? {
      var lit := Literal(Gitiles);
      if k + |lit| <= |s| && EqualsIgnoreCase(s[k..k + |lit|], lit) {
        var tail := s[k + |lit|..];
        if tail != [] && tail[0] != '/' {
          NoStopInSuffix(s, k + |lit| + 1, '+');
          assert tail[1..] == s[k + |lit| + 1..];
          SpanAll(tail[1..], {'+'});
        }
      }
    }
  }

  /** A character absent from `s` is absent from each of its suffixes. */
  lemma NoStopInSuffix(s: string, j: nat, c: char)
    requires c !in s && j <= |s|
    ensures forall i :: 0 <= i < |s[j..]| ==> s[j..][i] != c
  {
    forall i | 0 <= i < |s[j..]| ensures s[j..][i] != c {
      assert s[j..][i] == s[j + i];
      assert s[j + i] in s;
    }
  }

  /** Without a stop character the span is the whole string. */
  lemma SpanAll(s: string, stops: set<char>)
    requires forall i :: 0 <= i < |s| ==> s[i] !in stops
    ensures Span(s, stops) == |s|
  {
    SpanConcat(s, [], stops);
    assert s + [] == s;
  }

  /** The path of a gitiles browse URL has the shape the URL lemmas need. */
  lemma GitilesPathPlain(p: string, rest: string)
    requires forall i :: 0 <= i < |p| ==> p[i] !in {'?', '#', '%'}
    requires forall i :: 0 <= i < |rest| ==> rest[i] !in {'?', '#', '%'} && !IsSpace(rest[i])
    ensures var path := "/plugins/gitiles/" + p + "/+/" + rest;
      path[0] == '/' && !IsSpace(path[|path| - 1]) &&
      forall i :: 0 <= i < |path| ==> path[i] != '?' && path[i] != '#' && path[i] != '%'
  {
    var path := "/plugins/gitiles/" + p + "/+/" + rest;
    forall i | 0 <= i < |path| ensures path[i] != '?' && path[i] != '#' && path[i] != '%' {
      if 17 <= i < 17 + |p| {
        assert path[i] == p[i - 17];
      } else if 20 + |p| <= i {
        assert path[i] == rest[i - 20 - |p|];
      }
    }
  }

  /** A gitiles browse URL `https://<host>/plugins/gitiles/<p>/+/<rest>`
      yields `p`, both as written and corrected. */
  lemma GitilesUrlYieldsProject(h: string, p: string, rest: string)
    requires PlainHost(h)
    requires p != [] && p[0] != '/' && '+' !in p
    requires forall i :: 0 <= i < |p| ==> p[i] !in {'?', '#', '%'}
    requires forall i :: 0 <= i < |rest| ==> rest[i] !in {'?', '#', '%'} && !IsSpace(rest[i])
    ensures var url := Str("https://" + h + ("/plugins/gitiles/" + p + "/+/" + rest));
      ToProjectName(url) == Ok(p) && ToProjectNameAsWritten(url) == Ok(p)
  {
    var path := "/plugins/gitiles/" + p + "/+/" + rest;
    GitilesPathPlain(p, rest);
    assert '%' !in path;
    FromHostPath(h, path, path);
    GitilesMatch(p, rest);
    HostPathResult(h, path);
  }

  lemma GitilesMatch(p: string, rest: string)
    requires p != [] && p[0] != '/' && '+' !in p
    ensures Search(Gitiles, "/plugins/gitiles/" + p + "/+/" + rest, 0) == Some(p)
  {
    var path := "/plugins/gitiles/" + p + "/+/" + rest;
    var tail := p + "/+/" + rest;
    assert path[17..] == tail;
    assert path[..17] == Literal(Gitiles);
    assert tail[1..] == (p[1..] + "/") + ("+/" + rest);
    SpanConcat(p[1..] + "/", "+/" + rest, {'+'});
    assert tail[..|p|] == p;
    assert MatchAt(Gitiles, path, 0) == Some(p);
  }

  /** The projects pattern at the start of `/projects/<name>`, where the name
      holds no `/`, captures the name. */
  lemma ProjectsMatch(name: string, after: string)
    requires name != [] && '/' !in name
    requires after != [] ==> after[0] == '/'
    ensures Search(Projects, "/projects/" + name + after, 0) == Some(name)
  {
    var path := "/projects/" + name + after;
    assert path[..10] == Literal(Projects);
    assert path[10..] == name + after;
    SpanConcat(name, after, {'/'});
    assert (name + after)[..|name|] == name;
    assert MatchAt(Projects, path, 0) == Some(name);
  }

  /** Encoded text holds no `/`, `?`, `#`, `+` or space. */
  lemma EncodedIsPlain(p: string)
    requires AllAscii(p)
    ensures forall i :: 0 <= i < |PercentEncode(p)| ==> PercentEncode(p)[i] !in {'/', '?', '#', '+', ' '}
    ensures p != [] ==> PercentEncode(p) != []
  {
  }

  /** A `/projects/<name>` REST URL whose name is encoded the way the backend
      encodes project names gives the name back, encoded slashes included. */
  lemma ProjectsUrlRoundTrip(h: string, p: string)
    requires PlainHost(h)
    requires p != [] && AllAscii(p) && '+' !in p && !HasEncodedSlash(p)
    ensures ToProjectName(Str("https://" + h + ("/projects/" + PercentEncode(p)))) == Ok(p)
  {
    var e := PercentEncode(p);
    var raw := "/projects/" + e;
    ProjectsRawPath(p);
    FromProjectsPath(h, p);
    ProjectsNotGitiles(p);
    ProjectsMatch(e, []);
    assert raw + [] == raw;
    DecodeEncode(p);
    ReplaceWithoutEncodedSlash(p);
    assert DecodeName(e) == Some(p);
    ProjectsBranch("/projects/" + p, raw, e);
    HostPathResult(h, raw);
  }

  /** When the gitiles pattern misses and the projects pattern captures `g`,
      the result is the decoded `g`. */
  lemma ProjectsBranch(path: string, projectsIn: string, g: string)
    requires Search(Gitiles, path, 0).None? && Search(Projects, projectsIn, 0) == Some(g)
    ensures FromUrlParts(path, projectsIn, []) == DecodeName(g)
  {
  }

  /** A search URL `https://<host>/?q=project:<p>` gives `p`, both as
      written and corrected, when `p` needs no escaping in a query. */
  lemma QueryUrlRoundTrip(h: string, p: string)
    requires PlainHost(h)
    requires QuerySafe(p)
    ensures var url := Str("https://" + h + "/?q=project:" + p);
      ToProjectName(url) == Ok(p) && ToProjectNameAsWritten(url) == Ok(p)
  {
    var s := "https://" + h + "/?q=project:" + p;
    QueryFromUrl(h, p);
    QueryUrlTrimmed(h, p);
    UrlResult(s);
  }

  /** A search URL has nothing to trim. */
  lemma QueryUrlTrimmed(h: string, p: string)
    requires QuerySafe(p)
    ensures var s := "https://" + h + "/?q=project:" + p;
      s != [] && !IsSpace(s[0]) && !IsSpace(s[|s| - 1])
  {
    var x := "https://" + h + "/?q=project:";
    var s := x + p;
    assert s[|s| - 1] == p[|p| - 1];
    assert s[0] == x[0] == 'h';
  }

  /** Both extractions take the `q` branch on a search URL. */
  lemma QueryFromUrl(h: string, p: string)
    requires PlainHost(h) && QuerySafe(p)
    ensures var s := "https://" + h + "/?q=project:" + p;
      IsHttpUrl(s) && FromUrl(s) == Some(p) && FromUrlAsWritten(s) == Some(p)
  {
    ParseQueryUrl(h, p);
    assert PercentDecode("/") == Some("/");
    QueryParts(p);
  }

  /** The `q` branch of the extraction on the path `/`. */
  lemma QueryParts(p: string)
    requires QuerySafe(p)
    ensures FromUrlParts("/", "/", "q=project:" + p) == Some(p)
  {
    NoPlusNoGitiles("/");
    ShortPathNoProjects("/");
    QueryGetSingle(p);
    TokenMatch(p);
    PlainDecodeName(p);
  }

  /** Characters a project name may hold to appear unescaped in the `q`
      parameter: none of `&`, `#`, `%`, `+` or white space. */
  predicate QuerySafe(p: string) {
    p != [] && forall i :: 0 <= i < |p| ==> p[i] !in {'&', '#', '%', '+'} && !IsSpace(p[i])
  }

  lemma ParseQueryUrl(h: string, p: string)
    requires PlainHost(h) && QuerySafe(p)
    ensures IsHttpUrl("https://" + h + "/?q=project:" + p)
    ensures ParseHttpUrl("https://" + h + "/?q=project:" + p) == Some(Url("/", "q=project:" + p))
  {
    QueryHasNoHash(p);
    ParseHostPathQuery(h, "/", "q=project:" + p);
    QueryUrlShape(h, p);
  }

  lemma QueryUrlShape(h: string, p: string)
    ensures "https://" + h + "/?q=project:" + p == "https://" + h + ("/" + ("?" + ("q=project:" + p)))
  {
    var x := "https://" + h;
    assert x + "/?q=project:" + p == x + ("/?q=project:" + p);
    assert "/?q=project:" == "/" + ("?" + "q=project:");
  }

  lemma QueryHasNoHash(p: string)
    requires QuerySafe(p)
    ensures forall i :: 0 <= i < |"q=project:" + p| ==> ("q=project:" + p)[i] != '#'
  {
    var q := "q=project:" + p;
    forall i | 0 <= i < |q| ensures q[i] != '#' {
      if 10 <= i { assert q[i] == p[i - 10]; }
    }
  }

  /** Parsing `https://<host><path>?<query>` when the path holds no `?` or
      `#` and the query no `#`. */
  lemma ParseHostPathQuery(h: string, path: string, q: string)
    requires PlainHost(h)
    requires path != [] && path[0] == '/'
    requires forall i :: 0 <= i < |path| ==> path[i] != '?' && path[i] != '#'
    requires forall i :: 0 <= i < |q| ==> q[i] != '#'
    ensures IsHttpUrl("https://" + h + (path + ("?" + q)))
    ensures ParseHttpUrl("https://" + h + (path + ("?" + q))) == Some(Url(path, q))
  {
    var rest := path + ("?" + q);
    var s := "https://" + h + rest;
    assert s[..8] == "https://";
    assert s[8..] == h + rest;
    SpanConcat(h, rest, {'/', '?', '#'});
    assert (h + rest)[|h|..] == rest;
    SpanConcat(path, "?" + q, {'?', '#'});
    assert rest[..|path|] == path;
    assert rest[|path|..] == "?" + q;
    assert ("?" + q)[1..] == q;
    SpanAll(q, {'#'});
    assert q[..|q|] == q;
  }

  /** No projects match in a path shorter than `/projects/`. */
  lemma ShortPathNoProjects(path: string)
    requires |path| < 10
    ensures Search(Projects, path, 0).None?
  {
    assert NoMatchBefore(Projects, path, 0, |path| + 1);
  }

  /** The only parameter of `q=project:<p>` is `q`, with value `project:<p>`. */
  lemma QueryGetSingle(p: string)
    requires QuerySafe(p)
    ensures QueryGet("q=project:" + p, "q") == Some("project:" + p)
  {
    var q := "q=project:" + p;
    assert '&' !in q by {
      forall i | 0 <= i < |q| ensures q[i] != '&' {
        if 10 <= i { assert q[i] == p[i - 10]; }
      }
    }
    assert IndexOf(q, '=') == Some(1);
    assert q[..1] == "q" && q[2..] == "project:" + p;
    QuerySafePlain("project:" + p, p);
  }

  lemma QuerySafePlain(v: string, p: string)
    requires QuerySafe(p) && v == "project:" + p
    ensures '%' !in v && '+' !in v && FormDecode(v) == v
  {
    forall i | 0 <= i < |v| ensures v[i] != '%' && v[i] != '+' {
      if 8 <= i { assert v[i] == p[i - 8]; }
    }
  }

  /** `project:<p>` captures `p` when `p` holds no space. */
  lemma TokenMatch(p: string)
    requires QuerySafe(p)
    ensures Search(ProjectToken, "project:" + p, 0) == Some(p)
  {
    var t := "project:" + p;
    assert t[..8] == Literal(ProjectToken);
    assert t[8..] == p;
    SpanAll(p, {' '});
    assert p[..|p|] == p;
    assert MatchAt(ProjectToken, t, 0) == Some(p);
  }

  lemma PlainDecodeName(p: string)
    requires QuerySafe(p)
    ensures DecodeName(p) == Some(p)
  {
    assert '%' !in p by {
      forall i | 0 <= i < |p| ensures p[i] != '%' { }
    }
    NoPercentNoEncodedSlash(p);
    ReplaceWithoutEncodedSlash(p);
  }

  /** The raw path `/projects/<encoded name>` has the shape the URL lemmas need. */
  lemma ProjectsRawPath(p: string)
    requires p != [] && AllAscii(p)
    ensures var raw := "/projects/" + PercentEncode(p);
      raw[0] == '/' && !IsSpace(raw[|raw| - 1]) &&
      (forall i :: 0 <= i < |raw| ==> raw[i] != '?' && raw[i] != '#') &&
      PercentEncode(p) != [] && '/' !in PercentEncode(p)
  {
    var e := PercentEncode(p);
    var raw := "/projects/" + e;
    EncodedIsPlain(p);
    assert raw[|raw| - 1] == e[|e| - 1];
    forall i | 0 <= i < |raw| ensures raw[i] != '?' && raw[i] != '#' {
      if 10 <= i {
        assert raw[i] == e[i - 10];
      }
    }
  }

  /** Decoding the path of a REST URL for `p` gives `/projects/<p>`. */
  lemma FromProjectsPath(h: string, p: string)
    requires PlainHost(h)
    requires p != [] && AllAscii(p) && '+' !in p
    ensures var raw := "/projects/" + PercentEncode(p);
      var s := "https://" + h + raw;
      IsHttpUrl(s) &&
      FromUrl(s) == FromUrlParts("/projects/" + p, raw, []) &&
      FromUrlAsWritten(s) == FromUrlParts("/projects/" + p, "/projects/" + p, [])
  {
    var e := PercentEncode(p);
    ProjectsRawPath(p);
    ProjectsPathDecodes(p);
    FromHostPath(h, "/projects/" + e, "/projects/" + p);
  }

  /** A decoded `/projects/<p>` path without `+` is no gitiles path. */
  lemma ProjectsNotGitiles(p: string)
    requires '+' !in p
    ensures Search(Gitiles, "/projects/" + p, 0).None?
  {
    NoPlusAfterPrefix("/projects/", p);
    NoPlusNoGitiles("/projects/" + p);
  }

  lemma ProjectsPathDecodes(p: string)
    requires AllAscii(p)
    ensures PercentDecode("/projects/" + PercentEncode(p)) == Some("/projects/" + p)
  {
    DecodeEncode(p);
    DecodePlainPrefix("/projects/", PercentEncode(p));
  }

  lemma NoPlusAfterPrefix(a: string, b: string)
    requires '+' !in a && '+' !in b
    ensures '+' !in a + b
  {
  }

  /** As written, a REST URL for the project `a/b`, encoded as `a%2Fb`,
      gives only `a`, where the corrected extraction gives `a/b`. */
  lemma AsWrittenCutsAtEncodedSlash(h: string, a: string, b: string)
    requires PlainHost(h)
    requires a != [] && '/' !in a
    requires AllAscii(a + "/" + b) && '+' !in a + "/" + b && '%' !in a + "/" + b
    ensures var url := Str("https://" + h + ("/projects/" + PercentEncode(a + "/" + b)));
      ToProjectNameAsWritten(url) == Ok(a) && ToProjectName(url) == Ok(a + "/" + b)
  {
    var p := a + "/" + b;
    NoPercentNoEncodedSlash(p);
    ProjectsUrlRoundTrip(h, p);
    AsWrittenFirstSegment(h, a, b);
  }

  lemma NoPercentNoEncodedSlash(s: string)
    requires '%' !in s
    ensures !HasEncodedSlash(s)
  {
    forall i | 0 <= i < |s| ensures !EncodedSlashAt(s, i) {
      assert s[i] in s;
    }
  }

  /** The as-written half: the decoded path `/projects/a/b` is cut at `a`. */
  lemma AsWrittenFirstSegment(h: string, a: string, b: string)
    requires PlainHost(h)
    requires a != [] && '/' !in a
    requires AllAscii(a + "/" + b) && '+' !in a + "/" + b && '%' !in a + "/" + b
    ensures ToProjectNameAsWritten(Str("https://" + h + ("/projects/" + PercentEncode(a + "/" + b)))) == Ok(a)
  {
    var p := a + "/" + b;
    var raw := "/projects/" + PercentEncode(p);
    ProjectsRawPath(p);
    FromProjectsPath(h, p);
    ProjectsNotGitiles(p);
    ProjectsPathCut(a, b);
    NameDecodes(a, b);
    ProjectsBranch("/projects/" + p, "/projects/" + p, a);
    HostPathResult(h, raw);
  }

  /** The projects pattern on `/projects/a/b` captures `a`. */
  lemma ProjectsPathCut(a: string, b: string)
    requires a != [] && '/' !in a
    ensures Search(Projects, "/projects/" + (a + "/" + b), 0) == Some(a)
  {
    assert "/projects/" + (a + "/" + b) == "/projects/" + a + ("/" + b);
    ProjectsMatch(a, "/" + b);
  }

  /** The first segment of a name without `%` decodes to itself. */
  lemma NameDecodes(a: string, b: string)
    requires '%' !in a + "/" + b
    ensures DecodeName(a) == Some(a)
  {
    assert forall i :: 0 <= i < |a| ==> a[i] == (a + "/" + b)[i];
    assert '%' !in a;
    NoPercentNoEncodedSlash(a);
    ReplaceWithoutEncodedSlash(a);
  }

  /** The case `team/repo` on any host: the REST URL ends in
      `/projects/team%2Frepo`; as written it gives `team`. */
  lemma AsWrittenTeamRepo(h: string)
    requires PlainHost(h)
    ensures var url := Str("https://" + h + "/projects/team%2Frepo");
      ToProjectNameAsWritten(url) == Ok("team") && ToProjectName(url) == Ok("team/repo")
  {
    TeamRepoUrl(h);
    AsWrittenCutsAtEncodedSlash(h, "team", "repo");
  }

  lemma TeamRepoUrl(h: string)
    ensures AllAscii("team" + "/" + "repo") && '+' !in "team" + "/" + "repo" && '%' !in "team" + "/" + "repo"
    ensures "team" + "/" + "repo" == "team/repo"
    ensures "https://" + h + ("/projects/" + PercentEncode("team" + "/" + "repo")) == "https://" + h + "/projects/team%2Frepo"
  {
    EncodeSlash();
    EncodeBetween("team", "/", "repo");
    assert "/projects/" + ("team" + "%2F" + "repo") == "/projects/team%2Frepo";
  }

  lemma EncodeSlash()
    ensures AllAscii("/") && PercentEncode("/") == "%2F"
  {
    assert PercentEncode("/") == EncodeChar('/') + PercentEncode([]);
  }
}
