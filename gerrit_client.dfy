/** The Gerrit REST client of the server (backend/gerrit_client.py): the
    unwrapping of a Gerrit answer, the filtering of a project's tags and
    the browse URL of a tag.  The HTTP exchange itself is left out: the
    answer, and the tag list it decodes to, are inputs. */
module GerritClient {
  import opened Wrappers
  import opened Text
  import opened JsonValue

  /** An HTTP answer: its status and its body. */
  datatype Response = Response(status: int, text: string)

  /** What the client raises: an answer that is not a success, or a Python
      exception (a missing key, a method the value does not have). */
  datatype GerritError = ApiError(status: int) | Raised

  /** The line Gerrit puts in front of every JSON body. */
  const MagicPrefix: string := ")]}'"

  /** The text `_resp2json` hands to the JSON parser: only a 2xx answer
      has one; a body starting with the magic prefix loses its first line,
      and has none when there is no second line. */
  function JsonText(resp: Response): (r: Result<string, GerritError>)
    ensures !(200 <= resp.status < 300) ==> r == Err(ApiError(resp.status))
    ensures 200 <= resp.status < 300 && !StartsWith(resp.text, MagicPrefix) ==> r == Ok(resp.text)
    ensures 200 <= resp.status < 300 && StartsWith(resp.text, MagicPrefix) ==> (r.Ok? <==> '\n' in resp.text)
    ensures r.Ok? ==> EndsWith(resp.text, r.value)
  {
    if resp.status / 100 != 2 then Err(ApiError(resp.status))
    else if !StartsWith(resp.text, MagicPrefix) then Ok(resp.text)
    else match IndexOf(resp.text, '\n')
      case None => Err(Raised)
      case Some(k) => Ok(resp.text[k + 1..])
  }

  /** `_resp2json(response)`, with `json.loads` as a parameter that gives
      `None` for a text that is not JSON. */
  function Resp2Json(resp: Response, parse: string -> Option<Value>): (r: Result<Value, GerritError>)
    ensures r.Ok? ==> JsonText(resp).Ok? && parse(JsonText(resp).value) == Some(r.value)
    ensures JsonText(resp).Err? ==> r == Err(JsonText(resp).error)
  {
    var text :- JsonText(resp);
    match parse(text)
    case None => Err(Raised)
    case Some(v) => Ok(v)
  }

  /** A successful answer whose first line is the magic prefix gives exactly
      the text after that line to the parser. */
  lemma MagicLineDropped(status: int, line: string, body: string)
    requires 200 <= status < 300 && '\n' !in line
    ensures JsonText(Response(status, MagicPrefix + line + "\n" + body)) == Ok(body)
  {
    var text := MagicPrefix + line + "\n" + body;
    var k := |MagicPrefix + line|;
    assert text[..|MagicPrefix|] == MagicPrefix;
    assert text[k] == '\n';
    assert forall j :: 0 <= j < k ==> text[j] == (MagicPrefix + line)[j];
    assert IndexOf(text, '\n') == Some(k);
    assert text[k + 1..] == body;
  }

  /* ---------------- search_tags ---------------- */

  /** Python's `pattern in v`: a substring of a string, an element of a
      list, a key of a dictionary; any other value raises. */
  function PyIn(pattern: string, v: Value): (r: Result<bool, GerritError>)
    ensures v.Str? ==> r == Ok(Contains(v.s, pattern))
    ensures r.Err? <==> !(v.Str? || v.Arr? || v.Obj?)
  {
    match v
    case Str(s) => Ok(Contains(s, pattern))
    case Arr(items) => Ok(Str(pattern) in items)
    case Obj(fs) => Ok(pattern in Keys(fs))
    case _ => Err(Raised)
  }

  /** `pattern in t['ref'] or pattern in t.get('name', '')` */
  function TagTest(t: Value, pattern: string): (r: Result<bool, GerritError>)
    ensures r.Ok? ==> t.Obj? && "ref" in Keys(t.fields)
  {
    if !t.Obj? || "ref" !in Keys(t.fields) then Err(Raised)
    else
      var inRef :- PyIn(pattern, Get(t.fields, "ref"));
      if inRef then Ok(true)
      else
        var name := Get(t.fields, "name");
        PyIn(pattern, if name.Undefined? then Str("") else name)
  }

  /** The comprehension `[t for t in tags if test(t)]`, where a test that
      raises ends it. */
  function KeepMatching(tags: seq<Value>, test: Value -> Result<bool, GerritError>): (r: Result<seq<Value>, GerritError>)
    ensures r.Ok? ==> |r.value| <= |tags|
  {
    if tags == [] then Ok([])
    else
      var hit :- test(tags[0]);
      var rest :- KeepMatching(tags[1..], test);
      Ok(if hit then [tags[0]] + rest else rest)
  }

  /** `search_tags(project, pattern)` on the project's tag list. */
  function SearchTags(tags: seq<Value>, pattern: string): (r: Result<seq<Value>, GerritError>)
    ensures r.Ok? <==> forall i :: 0 <= i < |tags| ==> TagTest(tags[i], pattern).Ok?
    ensures r.Ok? ==> |r.value| <= |tags| && forall i :: 0 <= i < |r.value| ==> TagTest(r.value[i], pattern) == Ok(true)
  {
    KeepMatchingFacts(tags, t => TagTest(t, pattern));
    KeepMatching(tags, t => TagTest(t, pattern))
  }

  lemma {:induction false} KeepMatchingFacts(tags: seq<Value>, test: Value -> Result<bool, GerritError>)
    ensures var r := KeepMatching(tags, test);
      && (r.Ok? <==> forall i :: 0 <= i < |tags| ==> test(tags[i]).Ok?)
      && (r.Ok? ==> forall i :: 0 <= i < |r.value| ==> test(r.value[i]) == Ok(true))
    decreases |tags|
  {
    if tags != [] {
      KeepMatchingFacts(tags[1..], test);
      assert forall i :: 1 <= i < |tags| ==> tags[i] == tags[1..][i - 1];
    }
  }

  lemma {:induction false} KeepMatchingAppend(a: seq<Value>, b: seq<Value>, test: Value -> Result<bool, GerritError>)
    requires KeepMatching(a, test).Ok? && KeepMatching(b, test).Ok?
    ensures KeepMatching(a + b, test) == Ok(KeepMatching(a, test).value + KeepMatching(b, test).value)
    decreases |a|
  {
    if a == [] {
      assert a + b == b;
      assert [] + KeepMatching(b, test).value == KeepMatching(b, test).value;
    } else {
      var ab := a + b;
      assert ab[0] == a[0] && ab[1..] == a[1..] + b;
      KeepStep(a, test);
      KeepMatchingAppend(a[1..], b, test);
      KeepStep(ab, test);
      var ra := KeepMatching(a[1..], test).value;
      var rb := KeepMatching(b, test).value;
      assert ([a[0]] + ra) + rb == [a[0]] + (ra + rb);
    }
  }

  lemma KeepStep(tags: seq<Value>, test: Value -> Result<bool, GerritError>)
    requires tags != [] && test(tags[0]).Ok? && KeepMatching(tags[1..], test).Ok?
    ensures var rest := KeepMatching(tags[1..], test).value;
      KeepMatching(tags, test) == Ok(if test(tags[0]).value then [tags[0]] + rest else rest)
  {
  }

  /** Filtering a list made of two parts filters each part in turn: the kept
      tags stay in their original order. */
  lemma SearchTagsAppend(a: seq<Value>, b: seq<Value>, pattern: string)
    requires SearchTags(a, pattern).Ok? && SearchTags(b, pattern).Ok?
    ensures SearchTags(a + b, pattern) == Ok(SearchTags(a, pattern).value + SearchTags(b, pattern).value)
  {
    KeepMatchingAppend(a, b, t => TagTest(t, pattern));
  }

  lemma {:induction false} KeepMatchingKeeps(tags: seq<Value>, test: Value -> Result<bool, GerritError>, i: nat)
    requires KeepMatching(tags, test).Ok? && i < |tags| && test(tags[i]) == Ok(true)
    ensures tags[i] in KeepMatching(tags, test).value
    decreases |tags|
  {
    if i > 0 {
      assert tags[1..][i - 1] == tags[i];
      KeepMatchingKeeps(tags[1..], test, i - 1);
    }
  }

  /** Every tag that matches is kept. */
  lemma SearchTagsKeepsMatches(tags: seq<Value>, pattern: string, i: nat)
    requires SearchTags(tags, pattern).Ok? && i < |tags| && TagTest(tags[i], pattern) == Ok(true)
    ensures tags[i] in SearchTags(tags, pattern).value
  {
    KeepMatchingKeeps(tags, t => TagTest(t, pattern), i);
  }

  /* ---------------- get_tag_url_by_exact_name ---------------- */

  /** `for x in v`: a list gives its elements, a dictionary its keys, a string
      its characters; any other value raises. */
  function Iterated(v: Value): (r: Result<seq<Value>, GerritError>)
    ensures v.Arr? ==> r == Ok(v.items)
    ensures r.Ok? <==> v.Arr? || v.Obj? || v.Str?
  {
    match v
    case Arr(items) => Ok(items)
    case Obj(fs) => Ok(seq(|fs|, i requires 0 <= i < |fs| => Str(fs[i].0)))
    case Str(s) => Ok(seq(|s|, i requires 0 <= i < |s| => Str([s[i]])))
    case _ => Err(Raised)
  }

  /** `tag.get("web_links", [])`, iterated. */
  function WebLinks(tag: Fields): Result<seq<Value>, GerritError> {
    var v := Get(tag, "web_links");
    Iterated(if v.Undefined? then Arr([]) else v)
  }

  /** The link without one leading `/`. */
  function DropLeadingSlash(link: string): (r: string)
    ensures if link != [] && link[0] == '/' then [link[0]] + r == link else r == link
  {
    if StartsWith(link, "/") then link[1..] else link
  }

  /** The base without one trailing `a`. */
  function DropTrailingA(base: string): (r: string)
    ensures if base != [] && base[|base| - 1] == 'a' then r + "a" == base else r == base
  {
    if EndsWith(base, "a") then base[..|base| - 1] else base
  }

  /** `base_url.rstrip('/')` without one trailing `a`, followed by the link
      without one leading `/`, as the client writes it. */
  function ComposeTagUrlAsWritten(baseUrl: string, link: string): (r: string)
    ensures StartsWith(link, "http") ==> r == link
    ensures !StartsWith(link, "http") ==> r == DropTrailingA(RStripChar(baseUrl, '/')) + DropLeadingSlash(link)
  {
    if StartsWith(link, "http") then link
    else DropTrailingA(RStripChar(baseUrl, '/')) + DropLeadingSlash(link)
  }

  /** A base that is the server's root, without the `/a/` of authenticated
      access, loses the `/` between the host and a relative link: with the
      base `https://g.example.com/` the link `/plugins/gitiles/...` becomes
      `https://g.example.complugins/gitiles/...`. */
  lemma AsWrittenDropsSeparator(h: string, rel: string)
    requires h != [] && h[|h| - 1] != '/' && h[|h| - 1] != 'a' && !EndsWith(h, "/a")
    requires !StartsWith("/" + rel, "http")
    ensures ComposeTagUrlAsWritten(h + "/", "/" + rel) == h + rel
    ensures ComposeTagUrl(h + "/", "/" + rel) == h + "/" + rel
  {
    RStripOne(h, '/');
    var link := "/" + rel;
    assert link[0] == '/' && [link[0]] + rel == link;
    RootOfAuthenticatedBase(h);
  }

  /** The root of the server: the base without its trailing `/`s and
      without the `/a` of authenticated access. */
  function ServerRoot(baseUrl: string): (r: string)
    ensures r == [] || r[|r| - 1] != '/' || EndsWith(RStripChar(baseUrl, '/'), "/a")
  {
    var base := RStripChar(baseUrl, '/');
    if EndsWith(base, "/a") then base[..|base| - 2] else base
  }

  /** The browse URL of a link: an absolute link as it is, a relative one
      under the server's root, separated by one `/`. */
  function ComposeTagUrl(baseUrl: string, link: string): (r: string)
    ensures StartsWith(link, "http") ==> r == link
  {
    if StartsWith(link, "http") then link
    else ServerRoot(baseUrl) + "/" + DropLeadingSlash(link)
  }

  /** The base with a host `h` and its `/a/` form give the same URL. */
  lemma RootOfAuthenticatedBase(h: string)
    requires h != [] && h[|h| - 1] != '/' && !EndsWith(h, "/a")
    ensures ServerRoot(h + "/a/") == h
    ensures ServerRoot(h + "/") == h
  {
    assert h + "/a/" == (h + "/a") + ['/'];
    RStripOne(h + "/a", '/');
    assert EndsWith(h + "/a", "/a");
    assert (h + "/a")[..|h|] == h;
    RStripOne(h, '/');
  }

  /** Removing the trailing `c`s of `s + [c]`, where `s` does not end with
      `c`, gives `s`. */
  lemma RStripOne(s: string, c: char)
    requires s != [] && s[|s| - 1] != c
    ensures RStripChar(s + [c], c) == s
  {
  }

  /** For the authenticated base the client is configured with, the
      client's composition is the intended one. */
  lemma AsWrittenAgreesOnAuthenticatedBase(h: string, link: string)
    requires h != [] && h[|h| - 1] != '/' && !EndsWith(h, "/a")
    ensures ComposeTagUrlAsWritten(h + "/a/", link) == ComposeTagUrl(h + "/a/", link)
  {
    if !StartsWith(link, "http") {
      RootOfAuthenticatedBase(h);
      var base := h + "/a";
      assert h + "/a/" == base + ['/'];
      RStripOne(base, '/');
      var d := DropTrailingA(base);
      assert d == (d + "a")[..|d|] == base[..|h| + 1] == h + "/";
      var rel := DropLeadingSlash(link);
      assert ComposeTagUrlAsWritten(h + "/a/", link) == (h + "/") + rel;
      assert ComposeTagUrl(h + "/a/", link) == h + "/" + rel;
    }
  }

  /** Both forms of the base give the same URL for every link. */
  lemma AnonymousAndAuthenticatedBasesAgree(h: string, link: string)
    requires h != [] && h[|h| - 1] != '/' && !EndsWith(h, "/a")
    ensures ComposeTagUrl(h + "/", link) == ComposeTagUrl(h + "/a/", link)
  {
    RootOfAuthenticatedBase(h);
  }

  /** `link["url"]`, composed: the link must have a string `url`. */
  function LinkUrl(link: Fields, baseUrl: string): (r: Result<string, GerritError>)
    ensures r.Ok? <==> Get(link, "url").Str?
    ensures r.Ok? ==> r.value == ComposeTagUrlAsWritten(baseUrl, Get(link, "url").s)
  {
    var url := Get(link, "url");
    if url.Str? then Ok(ComposeTagUrlAsWritten(baseUrl, url.s)) else Err(Raised)
  }

  /** The link is a `browse` link. */
  predicate IsBrowse(link: Value)
    requires link.Obj?
  {
    PyGet(link.fields, "name") == Str("browse")
  }

  /** The links of one tag from the `j`-th on: the first browse link, none,
      or an exception for a link that is not an object before it. */
  function ScanLinks(links: seq<Value>, j: nat): (r: Result<Option<Fields>, GerritError>)
    requires j <= |links|
    decreases |links| - j
  {
    if j == |links| then Ok(None)
    else if !links[j].Obj? then Err(Raised)
    else if IsBrowse(links[j]) then Ok(Some(links[j].fields))
    else ScanLinks(links, j + 1)
  }

  /** The tag has the name asked for. */
  predicate HasRef(tag: Value, tagName: string)
    requires tag.Obj?
  {
    PyGet(tag.fields, "ref") == Str("refs/tags/" + tagName)
  }

  /** The tags from the `i`-th on: the browse link the loops stop at. */
  function ScanTags(tags: seq<Value>, i: nat, tagName: string): (r: Result<Option<Fields>, GerritError>)
    requires i <= |tags|
    decreases |tags| - i
  {
    if i == |tags| then Ok(None)
    else if !tags[i].Obj? then Err(Raised)
    else if !HasRef(tags[i], tagName) then ScanTags(tags, i + 1, tagName)
    else
      var links :- WebLinks(tags[i].fields);
      var found :- ScanLinks(links, 0);
      if found.Some? then Ok(found) else ScanTags(tags, i + 1, tagName)
  }

  /** The answer of the lookup: the URL of the browse link the loops stop
      at, or `None`. */
  function TagUrl(tags: seq<Value>, tagName: string, baseUrl: string): (r: Result<Option<string>, GerritError>)
    ensures ScanTags(tags, 0, tagName) == Ok(None) <==> r == Ok(None)
  {
    match ScanTags(tags, 0, tagName)
    case Err(e) => Err(e)
    case Ok(None) => Ok(None)
    case Ok(Some(link)) =>
      var url :- LinkUrl(link, baseUrl);
      Ok(Some(url))
  }

  /** `get_tag_url_by_exact_name(project, tag_name)` on the project's tag
      list: the loop over the tags and, inside it, over the links of a tag
      with the name asked for. */
  method GetTagUrlByExactName(tags: seq<Value>, tagName: string, baseUrl: string)
    returns (r: Result<Option<string>, GerritError>)
    ensures r == TagUrl(tags, tagName, baseUrl)
  {
    var i := 0;
    while i < |tags|
      invariant 0 <= i <= |tags|
      invariant ScanTags(tags, i, tagName) == ScanTags(tags, 0, tagName)
    {
      var tag := tags[i];
      if !tag.Obj? {
        return Err(Raised);
      }
      if PyGet(tag.fields, "ref") == Str("refs/tags/" + tagName) {
        var links := WebLinks(tag.fields);
        if links.Err? {
          return Err(links.error);
        }
        var j := 0;
        while j < |links.value|
          invariant 0 <= j <= |links.value|
          invariant ScanLinks(links.value, j) == ScanLinks(links.value, 0)
        {
          var link := links.value[j];
          if !link.Obj? {
            return Err(Raised);
          }
          if PyGet(link.fields, "name") == Str("browse") {
            var url := Get(link.fields, "url");
            if !url.Str? {
              return Err(Raised);
            }
            return Ok(Some(ComposeTagUrlAsWritten(baseUrl, url.s)));
          }
          j := j + 1;
        }
      }
      i := i + 1;
    }
    return Ok(None);
  }

  /* ---------------- what the lookup promises ---------------- */

  /** A link object that is not a browse link. */
  predicate OtherLink(link: Value) {
    link.Obj? && !IsBrowse(link)
  }

  /** A tag the lookup passes over: an object that either has another name,
      or has only links that are not browse links. */
  predicate PassedOver(tag: Value, tagName: string) {
    tag.Obj? && (!HasRef(tag, tagName) || (WebLinks(tag.fields).Ok? && NoBrowseLink(WebLinks(tag.fields).value, 0)))
  }

  /** No link from the `j`-th on is a browse link, and all are objects. */
  predicate NoBrowseLink(links: seq<Value>, j: nat) {
    forall k :: j <= k < |links| ==> OtherLink(links[k])
  }

  lemma {:induction false} ScanLinksNone(links: seq<Value>, j: nat)
    requires j <= |links|
    ensures ScanLinks(links, j) == Ok(None) <==> NoBrowseLink(links, j)
    decreases |links| - j
  {
    if j < |links| {
      ScanLinksNone(links, j + 1);
      assert NoBrowseLink(links, j) <==> OtherLink(links[j]) && NoBrowseLink(links, j + 1);
      if OtherLink(links[j]) {
        LinkStep(links, j, ScanLinks(links, j + 1));
      }
    }
  }

  /** The lookup finds nothing exactly when it passes over every tag: a tag
      with another name is never looked into, and a tag with the name but
      no browse link does not stop the search. */
  lemma {:induction false} NoneIffPassedOver(tags: seq<Value>, tagName: string, baseUrl: string)
    ensures TagUrl(tags, tagName, baseUrl) == Ok(None) <==> forall k :: 0 <= k < |tags| ==> PassedOver(tags[k], tagName)
  {
    ScanNoneIffPassedOver(tags, 0, tagName);
  }

  lemma {:induction false} ScanNoneIffPassedOver(tags: seq<Value>, i: nat, tagName: string)
    requires i <= |tags|
    ensures ScanTags(tags, i, tagName) == Ok(None) <==> forall k :: i <= k < |tags| ==> PassedOver(tags[k], tagName)
    decreases |tags| - i
  {
    if i < |tags| {
      ScanNoneIffPassedOver(tags, i + 1, tagName);
      NoneStep(tags, i, tagName);
    }
  }

  /** The step of `ScanNoneIffPassedOver`, from the tags after the `i`-th to
      the tags from the `i`-th on. */
  lemma NoneStep(tags: seq<Value>, i: nat, tagName: string)
    requires i < |tags|
    requires ScanTags(tags, i + 1, tagName) == Ok(None) <==> forall k :: i + 1 <= k < |tags| ==> PassedOver(tags[k], tagName)
    ensures ScanTags(tags, i, tagName) == Ok(None) <==> forall k :: i <= k < |tags| ==> PassedOver(tags[k], tagName)
  {
    ScanStep(tags, i, tagName);
    assert (forall k :: i <= k < |tags| ==> PassedOver(tags[k], tagName)) <==>
           PassedOver(tags[i], tagName) && (forall k :: i + 1 <= k < |tags| ==> PassedOver(tags[k], tagName));
  }

  /** One step of the scan: it goes on past the `i`-th tag exactly when it
      passes over that tag. */
  lemma ScanStep(tags: seq<Value>, i: nat, tagName: string)
    requires i < |tags|
    ensures ScanTags(tags, i, tagName) == Ok(None) <==>
            PassedOver(tags[i], tagName) && ScanTags(tags, i + 1, tagName) == Ok(None)
    ensures PassedOver(tags[i], tagName) ==> ScanTags(tags, i, tagName) == ScanTags(tags, i + 1, tagName)
  {
    if tags[i].Obj? && HasRef(tags[i], tagName) && WebLinks(tags[i].fields).Ok? {
      ScanLinksNone(WebLinks(tags[i].fields).value, 0);
    }
  }

  lemma {:induction false} FirstBrowseLink(links: seq<Value>, j: nat, m: nat)
    requires j <= m < |links| && links[m].Obj? && IsBrowse(links[m])
    requires forall k :: j <= k < m ==> OtherLink(links[k])
    ensures ScanLinks(links, j) == Ok(Some(links[m].fields))
    decreases m - j
  {
    if j < m {
      FirstBrowseLink(links, j + 1, m);
      LinkStep(links, j, Ok(Some(links[m].fields)));
    } else {
      BrowseHere(links, j);
    }
  }

  lemma BrowseHere(links: seq<Value>, j: nat)
    requires j < |links| && links[j].Obj? && IsBrowse(links[j])
    ensures ScanLinks(links, j) == Ok(Some(links[j].fields))
  {
  }

  lemma LinkStep(links: seq<Value>, j: nat, r: Result<Option<Fields>, GerritError>)
    requires j < |links| && OtherLink(links[j]) && ScanLinks(links, j + 1) == r
    ensures ScanLinks(links, j) == r
  {
  }

  /** The first browse link of the first tag with the name that has one
      decides the answer, composed from the client's base; a browse link
      without a string `url` raises. */
  lemma FirstBrowseWins(tags: seq<Value>, i: nat, m: nat, tagName: string, baseUrl: string)
    requires i < |tags| && tags[i].Obj? && HasRef(tags[i], tagName) && WebLinks(tags[i].fields).Ok?
    requires forall k :: 0 <= k < i ==> PassedOver(tags[k], tagName)
    requires var links := WebLinks(tags[i].fields).value;
      && m < |links| && links[m].Obj? && IsBrowse(links[m])
      && forall k :: 0 <= k < m ==> OtherLink(links[k])
    ensures var link := WebLinks(tags[i].fields).value[m].fields;
      TagUrl(tags, tagName, baseUrl) ==
        (if Get(link, "url").Str? then Ok(Some(ComposeTagUrlAsWritten(baseUrl, Get(link, "url").s))) else Err(Raised))
  {
    FirstBrowseLink(WebLinks(tags[i].fields).value, 0, m);
    SkipPassedOver(tags, 0, i, tagName);
  }

  lemma {:induction false} SkipPassedOver(tags: seq<Value>, k: nat, i: nat, tagName: string)
    requires k <= i <= |tags|
    requires forall j :: k <= j < i ==> PassedOver(tags[j], tagName)
    ensures ScanTags(tags, k, tagName) == ScanTags(tags, i, tagName)
    decreases i - k
  {
    if k < i {
      ScanStep(tags, k, tagName);
      SkipPassedOver(tags, k + 1, i, tagName);
    }
  }
}
