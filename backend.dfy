/** The Python server (backend/main.py): the stored list of profiles with
    its create, replace and delete handlers, the version helpers, the
    resolution of Gerrit tag URLs and Artifactory artifacts, and the
    server-side generation of the package document.  The file holding the
    profiles, the Gerrit server, the Artifactory server and the
    environment are parameters. */
module Backend {
  import opened Wrappers
  import opened Text
  import opened JsonValue
  import opened ProfileUtils
  import GeneratePage
  import LegacyApp

  /** The HTTP failures of the handlers: 400, 404, and 500 for an exception
      the handler does not catch. */
  datatype HttpError = BadRequest | NotFound | ServerError {
    function Code(): (c: nat)
      ensures 400 <= c < 600
    {
      match this
      case BadRequest => 400
      case NotFound => 404
      case ServerError => 500
    }
  }

  /** An exception raised inside a handler and not caught there. */
  datatype Exception = Raised

  /* ---------------- looking a profile up by id ---------------- */

  /** `str(a) == str(b)` on the values `str` renders here (containers are
      never equal to anything). */
  predicate SameId(a: Value, b: Value) {
    PyStr(a).Some? && PyStr(a) == PyStr(b)
  }

  /** The profile at `i` has the id `id`. */
  predicate IdAt(profiles: seq<Value>, i: nat, id: Value)
    requires i < |profiles|
  {
    profiles[i].Obj? && SameId(PyGet(profiles[i].fields, "sw_package_id"), id)
  }

  /** Every profile in `[from, to)` is an object without the id. */
  predicate ClearBetween(profiles: seq<Value>, from: nat, to: nat, id: Value)
    requires to <= |profiles|
  {
    forall j :: from <= j < to ==> profiles[j].Obj? && !IdAt(profiles, j, id)
  }

  /** The scan of `_index_by_id` from position `k` on: the first profile with
      the id, none, or an exception when an entry before it is not an object
      (`p.get` raises). */
  function FindFrom(profiles: seq<Value>, id: Value, k: nat): (r: Result<Option<nat>, Exception>)
    requires k <= |profiles|
    ensures r.Ok? && r.value.Some? ==>
              k <= r.value.value < |profiles| && IdAt(profiles, r.value.value, id)
              && ClearBetween(profiles, k, r.value.value, id)
    ensures r.Ok? && r.value.None? ==> ClearBetween(profiles, k, |profiles|, id)
    ensures r.Err? ==> exists j :: k <= j < |profiles| && !profiles[j].Obj? && ClearBetween(profiles, k, j, id)
    decreases |profiles| - k
  {
    if k == |profiles| then Ok(None)
    else if !profiles[k].Obj? then Err(Raised)
    else if IdAt(profiles, k, id) then Ok(Some(k))
    else FindFrom(profiles, id, k + 1)
  }

  /** `for i, p in enumerate(profiles): if str(p.get("sw_package_id")) == str(id)`. */
  function FindById(profiles: seq<Value>, id: Value): Result<Option<nat>, Exception> {
    FindFrom(profiles, id, 0)
  }

  /** `_index_by_id(profiles, id)`: the index of the first profile with the
      id, or -1 when none has it. */
  method IndexById(profiles: seq<Value>, id: Value) returns (r: Result<int, Exception>)
    ensures FindById(profiles, id).Err? ==> r == Err(Raised)
    ensures FindById(profiles, id) == Ok(None) ==> r == Ok(-1)
    ensures FindById(profiles, id).Ok? && FindById(profiles, id).value.Some? ==>
              r == Ok(FindById(profiles, id).value.value)
  {
    var i := 0;
    while i < |profiles|
      invariant 0 <= i <= |profiles|
      invariant FindFrom(profiles, id, i) == FindById(profiles, id)
    {
      if !profiles[i].Obj? {
        return Err(Raised);
      }
      if SameId(PyGet(profiles[i].fields, "sw_package_id"), id) {
        return Ok(i);
      }
      i := i + 1;
    }
    r := Ok(-1);
  }

  /** A profile put in place of the first one with its id is what the next
      lookup of that id finds. */
  lemma FindAfterReplace(profiles: seq<Value>, i: nat, p: Value, id: Value)
    requires FindById(profiles, id) == Ok(Some(i))
    requires p.Obj? && SameId(PyGet(p.fields, "sw_package_id"), id)
    ensures FindById(profiles[i := p], id) == Ok(Some(i))
  {
    var ps := profiles[i := p];
    assert forall j :: 0 <= j < i ==> ps[j] == profiles[j];
    assert IdAt(ps, i, id) && ClearBetween(ps, 0, i, id);
    FindFirst(ps, i, id);
  }

  /** A profile appended when no profile has its id is what the next lookup
      of that id finds. */
  lemma FindAfterAppend(profiles: seq<Value>, p: Value, id: Value)
    requires FindById(profiles, id) == Ok(None)
    requires p.Obj? && SameId(PyGet(p.fields, "sw_package_id"), id)
    ensures FindById(profiles + [p], id) == Ok(Some(|profiles|))
  {
    var ps := profiles + [p];
    assert forall j :: 0 <= j < |profiles| ==> ps[j] == profiles[j];
    assert IdAt(ps, |profiles|, id) && ClearBetween(ps, 0, |profiles|, id);
    FindFirst(ps, |profiles|, id);
  }

  lemma FindFirst(ps: seq<Value>, i: nat, id: Value)
    requires i < |ps| && IdAt(ps, i, id) && ClearBetween(ps, 0, i, id)
    ensures FindById(ps, id) == Ok(Some(i))
  {
  }

  /* ---------------- the stored profiles ---------------- */

  /** The `mode` a successful write reports. */
  datatype Mode = ReplacedAll | Updated | Created | Deleted

  /** `int(s) if s.isdigit() else s` for an ASCII id taken from the path. */
  function PathId(s: string): (r: Value)
    ensures r.Num? <==> s != [] && AllDigits(s)
    ensures r.Num? ==> r.n >= 0 && PyStr(r) == Some(NatToString(r.n))
    ensures r.Str? ==> r == Str(s)
  {
    if s != [] && AllDigits(s) then Num(DigitsValue(s)) else Str(s)
  }

  /** `if "sw_package_id" not in incoming: incoming["sw_package_id"] = ...`:
      an object without the key takes the path's id.  On a string `in` is a
      substring test and on a list a membership test; when it fails, the
      assignment raises, and when it holds the body is stored as it came.
      On any other value `in` itself raises. */
  function PutBody(pathId: string, incoming: Value): (r: Result<Value, HttpError>)
    ensures r.Ok? <==>
      || incoming.Obj?
      || (incoming.Str? && Contains(incoming.s, "sw_package_id"))
      || (incoming.Arr? && Str("sw_package_id") in incoming.items)
    ensures r.Err? ==> r.error == ServerError
    ensures r.Ok? && !incoming.Obj? ==> r.value == incoming
    ensures incoming.Obj? ==>
      && r.Ok? && r.value.Obj?
      && Get(r.value.fields, "sw_package_id") ==
           (if "sw_package_id" in Keys(incoming.fields) then Get(incoming.fields, "sw_package_id") else PathId(pathId))
      && forall k :: k != "sw_package_id" ==> Get(r.value.fields, k) == Get(incoming.fields, k)
  {
    match incoming
    case Obj(fs) =>
      if "sw_package_id" in Keys(fs) then Ok(incoming)
      else Ok(Obj(Put(fs, "sw_package_id", PathId(pathId))))
    case Str(s) => if Contains(s, "sw_package_id") then Ok(incoming) else Err(ServerError)
    case Arr(xs) => if Str("sw_package_id") in xs then Ok(incoming) else Err(ServerError)
    case _ => Err(ServerError)
  }

  /** The content of the profiles file, which every handler reads and
      writes back whole. */
  class ProfileStore {
    var profiles: seq<Value>

    constructor(stored: seq<Value>)
      ensures profiles == stored
    {
      profiles := stored;
    }

    /** `POST /api/profiles`: a list replaces everything; an object with an
        id replaces the first profile with that id, or is appended. */
    method Upsert(body: Value) returns (r: Result<Mode, HttpError>)
      modifies this
      ensures body.Arr? ==> r == Ok(ReplacedAll) && profiles == body.items
      ensures body.Obj? && "sw_package_id" !in Keys(body.fields) ==> r == Err(BadRequest)
      ensures body.Obj? && "sw_package_id" in Keys(body.fields) ==>
        var f := FindById(old(profiles), Get(body.fields, "sw_package_id"));
        && (f.Err? ==> r == Err(ServerError))
        && (f.Ok? && f.value.Some? ==> r == Ok(Updated) && profiles == old(profiles)[f.value.value := body])
        && (f.Ok? && f.value.None? ==> r == Ok(Created) && profiles == old(profiles) + [body])
      ensures !body.Arr? && !body.Obj? ==>
        r == Err(if body.Str? && !Contains(body.s, "sw_package_id") then BadRequest else ServerError)
      ensures r.Err? ==> profiles == old(profiles)
    {
      if body.Arr? {
        profiles := body.items;
        return Ok(ReplacedAll);
      }
      if !body.Obj? {
        // `"sw_package_id" not in body` is a substring test on a string and
        // raises on a number; indexing a string with a key raises.
        return Err(if body.Str? && !Contains(body.s, "sw_package_id") then BadRequest else ServerError);
      }
      if "sw_package_id" !in Keys(body.fields) {
        return Err(BadRequest);
      }
      var idx := IndexById(profiles, Get(body.fields, "sw_package_id"));
      if idx.Err? {
        return Err(ServerError);
      }
      if idx.value >= 0 {
        profiles := profiles[idx.value := body];
        r := Ok(Updated);
      } else {
        profiles := profiles + [body];
        r := Ok(Created);
      }
    }

    /** `PUT /api/profiles/{id}`: the body with the path's id filled in
        (see `PutBody`) replaces the first profile with the path's id, or is
        appended. */
    method Replace(pathId: string, incoming: Value) returns (r: Result<Mode, HttpError>)
      modifies this
      ensures PutBody(pathId, incoming).Err? ==> r == Err(ServerError)
      ensures PutBody(pathId, incoming).Ok? ==>
        var stored := PutBody(pathId, incoming).value;
        var f := FindById(old(profiles), Str(pathId));
        && (f.Err? ==> r == Err(ServerError))
        && (f.Ok? && f.value.Some? ==> r == Ok(Updated) && profiles == old(profiles)[f.value.value := stored])
        && (f.Ok? && f.value.None? ==> r == Ok(Created) && profiles == old(profiles) + [stored])
      ensures r.Err? ==> profiles == old(profiles)
    {
      var stored := PutBody(pathId, incoming);
      if stored.Err? {
        return Err(ServerError);
      }
      var idx := IndexById(profiles, Str(pathId));
      if idx.Err? {
        return Err(ServerError);
      }
      if idx.value >= 0 {
        profiles := profiles[idx.value := stored.value];
        r := Ok(Updated);
      } else {
        profiles := profiles + [stored.value];
        r := Ok(Created);
      }
    }

    /** `DELETE /api/profiles/{id}`: 404 for an unknown id; otherwise the
        first profile with the id is removed and nothing else changes. */
    method Delete(pathId: string) returns (r: Result<Mode, HttpError>)
      modifies this
      ensures var f := FindById(old(profiles), Str(pathId));
        && (f.Err? ==> r == Err(ServerError))
        && (f == Ok(None) ==> r == Err(NotFound))
        && (f.Ok? && f.value.Some? ==>
              r == Ok(Deleted) && profiles == old(profiles)[..f.value.value] + old(profiles)[f.value.value + 1..])
      ensures r.Err? ==> profiles == old(profiles)
    {
      var idx := IndexById(profiles, Str(pathId));
      if idx.Err? {
        return Err(ServerError);
      }
      if idx.value < 0 {
        return Err(NotFound);
      }
      profiles := profiles[..idx.value] + profiles[idx.value + 1..];
      r := Ok(Deleted);
    }
  }

  /** Writing a profile whose id renders as text and then looking that id up
      finds the profile that was written, whether it replaced an entry or
      was appended. */
  lemma UpsertThenFind(profiles: seq<Value>, body: Fields)
    requires "sw_package_id" in Keys(body)
    requires PyStr(Get(body, "sw_package_id")).Some?
    requires FindById(profiles, Get(body, "sw_package_id")).Ok?
    ensures var id := Get(body, "sw_package_id");
      match FindById(profiles, id)
      case Ok(Some(i)) => FindById(profiles[i := Obj(body)], id) == Ok(Some(i))
      case Ok(None) => FindById(profiles + [Obj(body)], id) == Ok(Some(|profiles|))
      case Err(_) => true
  {
    var id := Get(body, "sw_package_id");
    assert PyGet(body, "sw_package_id") == id;
    match FindById(profiles, id)
    case Ok(Some(i)) => FindAfterReplace(profiles, i, Obj(body), id);
    case Ok(None) => FindAfterAppend(profiles, Obj(body), id);
  }

  /* ---------------- versions ---------------- */

  /** `_release_from_sw_version`: the part after the last `_`, or the whole
      version when it has none. */
  function ReleaseFromSwVersion(sw: string): (r: string)
    ensures r == LastSegment(sw, '_')
  {
    if sw == "" then ""
    else if '_' in sw then
      LastOfSplit(sw, '_');
      var parts := Split(sw, '_');
      parts[|parts| - 1]
    else sw
  }

  /** `parse_sw_package_version`: blank for a blank version, otherwise the
      release followed by `.0`. */
  function ParseSwPackageVersion(sw: string): (r: string)
    ensures sw == "" ==> r == ""
    ensures sw != "" ==> r == ReleaseFromSwVersion(sw) + ".0"
  {
    if sw == "" then ""
    else
      var numeric := if '_' in sw then (LastOfSplit(sw, '_'); Split(sw, '_')[|Split(sw, '_')| - 1]) else sw;
      numeric + ".0"
  }

  /** The server and the legacy page agree on the package version of every
      non-blank version; for a blank one the server gives `""` and the page `".0"`. */
  lemma PackageVersionSides(sw: string)
    ensures sw != "" ==> ParseSwPackageVersion(sw) == LegacyApp.PackageVersion(sw)
    ensures sw == "" ==> ParseSwPackageVersion(sw) == "" && LegacyApp.PackageVersion(sw) == ".0"
  {
    if sw == "" {
      assert LastSegment(sw, '_') == "";
    }
  }

  /** Python's `_fill_versions` keeps a `version` of `0` or `False`, which
      the browser's `fillVersionFields` replaces. */
  lemma FalsyVersionKept(sw: string, v: Value)
    requires v == Num(0) || v == Bool(false)
    ensures FillVersions(Obj([("version", v)]), sw, Py) == Obj([("version", v)])
    ensures FillVersions(Obj([("version", v)]), sw, Js) == Obj([("version", Str(sw))])
  {
    var o := Obj([("version", v)]);
    assert FillVersions(v, sw, Py) == v;
  }

  /* ---------------- Gerrit and Artifactory ---------------- */

  /** `get_tag_url_by_exact_name(project, tag)`: the URL, `None`, or `None`
      as well when the call raises. */
  type TagUrlLookup = (string, string) -> Option<string>

  /** `_resolve_gerrit_tag_url(project, tag, g)` */
  function ResolveGerritTagUrl(project: string, tag: string, lookup: TagUrlLookup): (r: string)
    ensures r == "" <==> Trim(project) == ""
    ensures Trim(project) != "" && lookup(Trim(project), tag).Some? && lookup(Trim(project), tag).value != "" ==>
              r == lookup(Trim(project), tag).value
    ensures Trim(project) != "" && (lookup(Trim(project), tag).None? || lookup(Trim(project), tag) == Some("")) ==>
              r == Trim(project)
  {
    var p := Trim(project);
    if p == "" then ""
    else match lookup(p, tag)
      case Some(url) => if url != "" then url else p
      case None => p
  }

  /** `_ARTIFACT_MAP[name]["props"](sw, release)`: the properties searched
      for each known artifact name, in order. */
  function ArtifactProps(name: string, sw: string, release: string): (r: Option<seq<(string, string)>>)
    ensures r.Some? <==> name in {"SUM SWLM", "SUM SWP1", "SUM SWP2", "SUM SWP4"}
  {
    if name == "SUM SWLM" then Some([("baseline.sw.version", sw), ("type", "swlm")])
    else if name == "SUM SWP1" then Some([("release", release), ("type", "swp1")])
    else if name == "SUM SWP2" then Some([("release", release), ("type", "swp2")])
    else if name == "SUM SWP4" then Some([("release", release), ("type", "swp4")])
    else None
  }

  /** `find_artifact_by_properties(props)`: the single URL, or `None` when it raises. */
  type ArtifactFinder = seq<(string, string)> -> Option<string>

  /** The storage API's checksum for `(repo, path)`: `""` when the answer is
      not a success or has none, `None` when the request raises. */
  type ChecksumFetch = (string, string) -> Option<string>

  /** The `repo` and `path` `_artifact_sha256_from_url` asks the storage API
      about: the URL must start with the base and a `/` and hold at least one
      more `/`. */
  function StorageTarget(base: string, url: string): (r: Option<(string, string)>)
    ensures r.Some? ==> base != "" && StartsWith(url, base + "/")
  {
    if base == "" || !StartsWith(url, base + "/") then None
    else
      var parts := Split(url[|base| + 1..], '/');
      if |parts| < 2 then None else Some((parts[0], Join(parts[1..], "/")))
  }

  /** A URL composed as `base/repo/path` is taken apart into that repo and path. */
  lemma StorageTargetOfComposed(base: string, repo: string, path: string)
    requires base != "" && '/' !in repo
    ensures StorageTarget(base, base + "/" + repo + "/" + path) == Some((repo, path))
  {
    var url := base + "/" + repo + "/" + path;
    assert url[..|base + "/"|] == base + "/";
    assert url[|base| + 1..] == repo + "/" + path;
    SplitAtFirst(repo, '/', path);
    var parts := Split(repo + "/" + path, '/');
    assert parts[1..] == Split(path, '/');
    JoinSplit(path, '/');
  }

  /** `_artifact_sha256_from_url(url, client)`: `""` without a base or for a
      URL outside it; otherwise what the storage API answers, `None` when
      the request raises. */
  function ArtifactSha(baseUrl: string, url: string, fetch: ChecksumFetch): (r: Option<string>)
    ensures StorageTarget(RStripChar(baseUrl, '/'), url).None? ==> r == Some("")
    ensures StorageTarget(RStripChar(baseUrl, '/'), url).Some? ==>
              var target := StorageTarget(RStripChar(baseUrl, '/'), url).value;
              r == fetch(target.0, target.1)
  {
    var base := RStripChar(baseUrl, '/');
    match StorageTarget(base, url)
    case None => Some("")
    case Some((repo, path)) => fetch(repo, path)
  }

  /** The checksum of a URL composed as `base/repo/path` under the
      configured base is what the storage API answers for that repo and path. */
  lemma ShaOfComposedUrl(baseUrl: string, repo: string, path: string, fetch: ChecksumFetch)
    requires RStripChar(baseUrl, '/') != "" && '/' !in repo
    ensures ArtifactSha(baseUrl, RStripChar(baseUrl, '/') + "/" + repo + "/" + path, fetch) == fetch(repo, path)
  {
    StorageTargetOfComposed(RStripChar(baseUrl, '/'), repo, path);
  }

  /* ---------------- generate_swlm ---------------- */

  /** `x.strip()` on a value that must be a string (anything else raises). */
  function PyStrip(v: Value): (r: Result<string, Exception>)
    ensures r.Ok? <==> v.Str?
    ensures r.Ok? ==> r.value == Trim(v.s)
  {
    if v.Str? then Ok(Trim(v.s)) else Err(Raised)
  }

  /** `for x in (v or [])`: the elements of a list, none for a falsy value;
      any other value raises once its elements are used as objects. */
  function PyList(v: Value): (r: Result<seq<Value>, Exception>)
    ensures r.Ok? <==> v.Arr? || !PyTruthy(v)
    ensures v.Arr? ==> r == Ok(v.items)
  {
    if v.Arr? then Ok(v.items) else if !PyTruthy(v) then Ok([]) else Err(Raised)
  }

  /** A value whose `.get` is called: only objects have it. */
  function PyDict(v: Value): (r: Result<Fields, Exception>)
    ensures r.Ok? <==> v.Obj?
  {
    if v.Obj? then Ok(v.fields) else Err(Raised)
  }

  /** One additional-information entry: its own project, else the
      reference's, resolved; a blank project gives a blank location. */
  function ResolveInfo(ai: Value, baseProject: string, sw: string, lookup: TagUrlLookup): (r: Result<Value, Exception>)
    ensures r.Ok? <==> ai.Obj? && PyOr(PyGet(ai.fields, "location"), PyOr(Str(baseProject), Str(""))).Str?
    ensures r.Ok? ==>
      var project := Trim(PyOr(PyGet(ai.fields, "location"), PyOr(Str(baseProject), Str(""))).s);
      && r.value.Obj?
      && Get(r.value.fields, "location") == Str(ResolveGerritTagUrl(project, sw, lookup))
      && forall k :: k != "location" ==> Get(r.value.fields, k) == Get(ai.fields, k)
  {
    var fs :- PyDict(ai);
    var project :- PyStrip(PyOr(PyGet(fs, "location"), PyOr(Str(baseProject), Str(""))));
    var url := if project != "" then ResolveGerritTagUrl(project, sw, lookup) else "";
    Ok(Obj(Put(fs, "location", Str(url))))
  }

  /** The change log of a resolved reference. */
  function ChangeLogOf(cl: Fields, url: string, sw: string): (r: Value)
    ensures r.Obj? && Keys(r.fields) == ["filenamn", "version", "location"]
    ensures Get(r.fields, "filenamn") ==
      if PyTruthy(PyGet(cl, "filenamn")) then PyGet(cl, "filenamn")
      else if PyTruthy(PyGet(cl, "filename")) then PyGet(cl, "filename")
      else Str("Gerrit log")
    ensures Get(r.fields, "version") == Str(sw) && Get(r.fields, "location") == Str(url)
  {
    var fs := [("filenamn", PyOr(PyGet(cl, "filenamn"), PyOr(PyGet(cl, "filename"), Str("Gerrit log")))),
               ("version", Str(sw)),
               ("location", Str(url))];
    assert "filenamn" != "location" && "version" != "location" && "filenamn" != "version";
    assert fs[1..][1..] == [("location", Str(url))];
    assert Get(fs, "location") == Get(fs[1..], "location") == Get(fs[1..][1..], "location");
    Obj(fs)
  }

  /** `{**ref, location, additional_information, change_log, components}` */
  function ResolvedRefFields(fs: Fields, url: string, infos: seq<Value>, changeLog: Value): Fields {
    Put(Put(Put(Put(fs, "location", Str(url)), "additional_information", Arr(infos)), "change_log", changeLog),
        "components", PyOr(PyGet(fs, "components"), Arr([])))
  }

  /** One source reference of the document. */
  function ResolveRef(ref: Value, sw: string, lookup: TagUrlLookup): (r: Result<Value, Exception>)
    ensures r.Ok? ==> ref.Obj? && PyOr(PyGet(ref.fields, "location"), Str("")).Str?
    ensures ref.Obj? && PyOr(PyGet(ref.fields, "location"), Str("")).Str? ==>
      r == ResolveRefAt(ref.fields, Trim(PyOr(PyGet(ref.fields, "location"), Str("")).s), sw, lookup)
  {
    var fs :- PyDict(ref);
    var base :- PyStrip(PyOr(PyGet(fs, "location"), Str("")));
    ResolveRefAt(fs, base, sw, lookup)
  }

  /** The reference `fs` whose trimmed project is `base`: its location, its
      additional information and its change log resolved to Gerrit tag URLs. */
  function ResolveRefAt(fs: Fields, base: string, sw: string, lookup: TagUrlLookup): (r: Result<Value, Exception>)
    ensures r.Ok? ==> r.value.Obj? && Get(r.value.fields, "location") == Str(ResolveGerritTagUrl(base, sw, lookup))
    ensures PyList(PyGet(fs, "additional_information")).Err? ==> r.Err?
  {
    var url := ResolveGerritTagUrl(base, sw, lookup);
    var ais :- PyList(PyGet(fs, "additional_information"));
    var infos :- TryMap(ais, (i: nat, ai: Value) => ResolveInfo(ai, base, sw, lookup));
    var cl :- PyDict(PyOr(PyGet(fs, "change_log"), Obj([])));
    var clProject :- PyStrip(PyOr(PyGet(cl, "location"), PyOr(Str(base), Str(""))));
    var clUrl := if clProject != "" then ResolveGerritTagUrl(clProject, sw, lookup) else "";
    var changeLog := ChangeLogOf(cl, clUrl, sw);
    ResolvedRefFieldsGet(fs, url, infos, changeLog);
    Ok(Obj(ResolvedRefFields(fs, url, infos, changeLog)))
  }

  /** A reference resolves exactly when its additional information is a
      list (or falsy) of entries that each resolve, and its change log is an
      object (or falsy) whose project, or the reference's, is a string. */
  lemma ResolveRefAtSucceeds(fs: Fields, base: string, sw: string, lookup: TagUrlLookup)
    ensures ResolveRefAt(fs, base, sw, lookup).Ok? <==>
      var ais := PyList(PyGet(fs, "additional_information"));
      var cl := PyOr(PyGet(fs, "change_log"), Obj([]));
      && ais.Ok? && (forall j :: 0 <= j < |ais.value| ==> ResolveInfo(ais.value[j], base, sw, lookup).Ok?)
      && cl.Obj? && PyOr(PyGet(cl.fields, "location"), PyOr(Str(base), Str(""))).Str?
  {
    var ais := PyList(PyGet(fs, "additional_information"));
    if ais.Ok? {
      var infos := TryMap(ais.value, (i: nat, ai: Value) => ResolveInfo(ai, base, sw, lookup));
      assert infos.Ok? <==> forall j :: 0 <= j < |ais.value| ==> ResolveInfo(ais.value[j], base, sw, lookup).Ok?;
    }
  }

  /** `sorted(a.get("source_references_idx") or [])` on a list of numbers. */
  function SortedIndices(v: Value): (r: Result<seq<Value>, Exception>)
    ensures r.Ok? ==> AllNumbers(r.value) && Sorting.Sorted(Numbers(r.value))
    ensures r.Ok? && v.Arr? ==> AllNumbers(v.items) && multiset(Numbers(r.value)) == multiset(Numbers(v.items))
    ensures !PyTruthy(v) ==> r == Ok([])
    ensures v.Arr? && AllNumbers(v.items) ==> r.Ok?
  {
    if !PyTruthy(v) then Ok([])
    else if v.Arr? && AllNumbers(v.items) then Ok(SortNumeric(v.items))
    else Err(Raised)
  }

  /** Where an artifact was found, and its checksum; both blank for an
      unknown name or a failed search, the checksum alone blank when only
      its request fails. */
  function ArtifactLocation(name: string, sw: string, release: string, find: ArtifactFinder,
                            baseUrl: string, fetch: ChecksumFetch): (r: (string, string))
    ensures ArtifactProps(name, sw, release).None? ==> r == ("", "")
    ensures r.0 == "" ==> r.1 == ""
    ensures ArtifactProps(name, sw, release).Some? && find(ArtifactProps(name, sw, release).value).None? ==>
              r == ("", "")
    ensures ArtifactProps(name, sw, release).Some? && find(ArtifactProps(name, sw, release).value).Some? ==>
              var loc := find(ArtifactProps(name, sw, release).value).value;
              r == (loc, ArtifactSha(baseUrl, loc, fetch).GetOr(""))
  {
    match ArtifactProps(name, sw, release)
    case None => ("", "")
    case Some(props) =>
      match find(props)
      case None => ("", "")
      case Some(loc) =>
        match ArtifactSha(baseUrl, loc, fetch)
        case None => (loc, "")
        case Some(sha) => (loc, sha)
  }

  /** `GET /api/artifacts/resolve`: without a token the client cannot be
      made (500); an unknown name is a 400; a failed search or checksum
      request is a 404. */
  function ResolveArtifactEndpoint(name: string, sw: string, svc: Services): (r: Result<(string, string), HttpError>)
    ensures !svc.hasToken ==> r == Err(ServerError)
    ensures svc.hasToken ==> (r == Err(BadRequest) <==> ArtifactProps(name, sw, ReleaseFromSwVersion(sw)).None?)
    ensures r.Ok? ==> var props := ArtifactProps(name, sw, ReleaseFromSwVersion(sw));
      && props.Some? && svc.find(props.value) == Some(r.value.0)
      && ArtifactSha(svc.baseUrl, r.value.0, svc.fetch) == Some(r.value.1)
  {
    if !svc.hasToken then Err(ServerError)
    else match ArtifactProps(name, sw, ReleaseFromSwVersion(sw))
      case None => Err(BadRequest)
      case Some(props) =>
        match svc.find(props)
        case None => Err(NotFound)
        case Some(url) =>
          match ArtifactSha(svc.baseUrl, url, svc.fetch)
          case None => Err(NotFound)
          case Some(sha) => Ok((url, sha))
  }

  /** The `i`-th artifact of the document. */
  function ResolveArtifact(i: nat, a: Value, sw: string, release: string, find: ArtifactFinder,
                           baseUrl: string, fetch: ChecksumFetch): (r: Result<Value, Exception>)
    ensures r.Ok? ==> a.Obj? && PyOr(PyGet(a.fields, "name"), Str("")).Str?
    ensures r.Ok? ==> r.value.Obj? && Keys(r.value.fields) == GeneratePage.ArtifactKeys
  {
    var fs :- PyDict(a);
    var name :- PyStrip(PyOr(PyGet(fs, "name"), Str("")));
    var idx :- SortedIndices(PyGet(fs, "source_references_idx"));
    var found := ArtifactLocation(name, sw, release, find, baseUrl, fetch);
    GeneratePage.RecordKeys(i, name, Str(sw), (Str(found.0), Str(found.1)), idx);
    Ok(Obj(GeneratePage.ArtifactRecord(i, name, Str(sw), (Str(found.0), Str(found.1)), idx)))
  }

  /** The endpoint and the document agree: what the endpoint resolves for a
      name is the location and checksum the document records for it, and a
      name the endpoint refuses with 400 gets blanks in the document. */
  lemma EndpointAgreesWithDocument(name: string, sw: string, svc: Services)
    requires svc.hasToken
    ensures var r := ResolveArtifactEndpoint(name, sw, svc);
      var loc := ArtifactLocation(name, sw, ReleaseFromSwVersion(sw), svc.find, svc.baseUrl, svc.fetch);
      && (r.Ok? ==> loc == r.value)
      && (r == Err(BadRequest) ==> loc == ("", ""))
  {
  }

  /** The outside world `generate_swlm` talks to. */
  datatype Services = Services(
    tagUrl: TagUrlLookup,         // Gerrit
    find: ArtifactFinder,         // Artifactory search
    baseUrl: string,              // ARTIFACTORY_BASE_URL, "" when unset
    fetch: ChecksumFetch,         // Artifactory storage API
    hasToken: bool)               // ARTIFACTORY_TOKEN is set

  const DocumentKeys: seq<string> :=
    ["sw_package_id", "sw_package_version", "sw_package_type", "generic_product_module",
     "source_references", "swad", "swdd", "artifacts", "sw_version"]

  /** The object literal pairing `keys` with `values`. */
  function Literal(keys: seq<string>, values: seq<Value>): (fs: Fields)
    requires |keys| == |values|
    ensures Keys(fs) == keys
    ensures forall i :: 0 <= i < |keys| ==> fs[i].1 == values[i]
  {
    var fs := seq(|keys|, i requires 0 <= i < |keys| => (keys[i], values[i]));
    assert forall i :: 0 <= i < |keys| ==> Keys(fs)[i] == keys[i];
    fs
  }

  /** The document `generate_swlm` returns, from its nine values. */
  function Document(id: Value, version: string, kind: Value, gpm: Value, refs: seq<Value>,
                    swad: Value, swdd: Value, arts: seq<Value>, sw: string): Fields {
    Literal(DocumentKeys, [id, Str(version), kind, gpm, Arr(refs), swad, swdd, Arr(arts), Str(sw)])
  }

  /** The document of the matched profile `m`, filled as `filled`. */
  function DocumentOf(m: Fields, filled: Fields, sw: string, refs: seq<Value>, arts: seq<Value>): Fields {
    Document(PyGet(m, "sw_package_id"), ParseSwPackageVersion(sw), PyOr(PyGet(m, "sw_package_type"), Str("standard")),
             PyOr(PyGet(filled, "generic_product_module"), Obj([])), refs,
             PyOr(PyGet(filled, "swad"), Arr([])), PyOr(PyGet(filled, "swdd"), Arr([])), arts, sw)
  }

  /** The version requested: both it and the id must be present and truthy
      (400); a version that is not a string raises on `.split`. */
  function RequestedVersion(payload: Fields): (r: Result<string, HttpError>)
    ensures r == Err(BadRequest) <==> !PyTruthy(PyGet(payload, "sw_package_id")) || !PyTruthy(PyGet(payload, "sw_version"))
    ensures r.Ok? ==> PyGet(payload, "sw_version") == Str(r.value) && r.value != ""
  {
    var id := PyGet(payload, "sw_package_id");
    var swv := PyGet(payload, "sw_version");
    if !PyTruthy(id) || !PyTruthy(swv) then Err(BadRequest)
    else if swv.Str? then Ok(swv.s)
    else Err(ServerError)
  }

  /** The profile `generate_swlm` works on: the first stored profile with the
      requested id, which must not be empty (404). */
  function Match(payload: Fields, profiles: seq<Value>): (r: Result<Fields, HttpError>)
    ensures r.Err? ==> r.error != BadRequest
    ensures FindById(profiles, PyGet(payload, "sw_package_id")).Err? ==> r == Err(ServerError)
    ensures FindById(profiles, PyGet(payload, "sw_package_id")) == Ok(None) ==> r == Err(NotFound)
    ensures forall i :: (FindById(profiles, PyGet(payload, "sw_package_id")) == Ok(Some(i)) &&
                         i < |profiles| && !PyTruthy(profiles[i])) ==> r == Err(NotFound)
    ensures r.Ok? ==> exists i ::
              && 0 <= i < |profiles| && profiles[i] == Obj(r.value)
              && IdAt(profiles, i, PyGet(payload, "sw_package_id"))
              && ClearBetween(profiles, 0, i, PyGet(payload, "sw_package_id"))
  {
    match FindById(profiles, PyGet(payload, "sw_package_id"))
    case Err(_) => Err(ServerError)
    case Ok(None) => Err(NotFound)
    case Ok(Some(i)) => if !PyTruthy(profiles[i]) then Err(NotFound) else Ok(profiles[i].fields)
  }

  /** The first stored profile with the requested id, when it is not empty,
      is the match. */
  lemma MatchFirst(payload: Fields, profiles: seq<Value>, i: nat)
    requires i < |profiles| && IdAt(profiles, i, PyGet(payload, "sw_package_id"))
    requires ClearBetween(profiles, 0, i, PyGet(payload, "sw_package_id")) && PyTruthy(profiles[i])
    ensures Match(payload, profiles) == Ok(profiles[i].fields)
  {
    FindFirst(profiles, i, PyGet(payload, "sw_package_id"));
  }

  /** The resolved references of the filled profile, before renumbering. */
  function ResolvedRefs(filled: Fields, sw: string, lookup: TagUrlLookup): Result<seq<Value>, Exception> {
    var items :- PyList(PyGet(filled, "source_references"));
    TryMap(items, (i: nat, ref: Value) => ResolveRef(ref, sw, lookup))
  }

  /** The resolved artifacts of the filled profile. */
  function ResolvedArtifacts(filled: Fields, sw: string, svc: Services): Result<seq<Value>, Exception> {
    var items :- PyList(PyGet(filled, "artifacts"));
    TryMap(items, (i: nat, a: Value) =>
      ResolveArtifact(i, a, sw, ReleaseFromSwVersion(sw), svc.find, svc.baseUrl, svc.fetch))
  }

  /** Steps 2 to 5 of `generate_swlm` on the matched profile `m`: any
      exception is a 500. */
  function Build(m: Fields, sw: string, svc: Services): (r: Result<Value, HttpError>)
    ensures r.Err? ==> r.error == ServerError
  {
    FilledObject(m, sw);
    var filled := FillVersions(Obj(m), sw, Py).fields;
    var refs := ResolvedRefs(filled, sw, svc.tagUrl);
    if refs.Err? || !svc.hasToken then Err(ServerError)
    else
      var arts := ResolvedArtifacts(filled, sw, svc);
      if arts.Err? then Err(ServerError)
      else Ok(Obj(DocumentOf(m, filled, sw, Renumber(refs.value), arts.value)))
  }

  /** `generate_swlm(payload)` as one expression: the reference of the
      method below. */
  function Generate(payload: Fields, profiles: seq<Value>, svc: Services): (r: Result<Value, HttpError>)
    ensures r.Ok? ==> PyTruthy(PyGet(payload, "sw_package_id")) && PyGet(payload, "sw_version").Str?
    ensures r.Ok? ==>
      && Match(payload, profiles).Ok? && r.value.Obj? && Keys(r.value.fields) == DocumentKeys
      && r.value.fields[0].1 == PyGet(Match(payload, profiles).value, "sw_package_id")
      && r.value.fields[8].1 == PyGet(payload, "sw_version")
  {
    var sw :- RequestedVersion(payload);
    var m :- Match(payload, profiles);
    var r := Build(m, sw, svc);
    if r.Ok? then BuiltDocument(m, sw, svc); r else r
  }

  lemma FilledObject(m: Fields, sw: string)
    ensures FillVersions(Obj(m), sw, Py).Obj?
  {
  }

  /** `POST /api/generate/swlm`: the handler's loops append one resolved
      reference and one resolved artifact at a time. */
  method GenerateSwlm(payload: Fields, profiles: seq<Value>, svc: Services) returns (r: Result<Value, HttpError>)
    ensures r == Generate(payload, profiles, svc)
  {
    var sw :- RequestedVersion(payload);
    var m :- Match(payload, profiles);
    FilledObject(m, sw);
    var filled := FillVersions(Obj(m), sw, Py).fields;
    var refsIn := PyList(PyGet(filled, "source_references"));
    if refsIn.Err? {
      return Err(ServerError);
    }
    var refs := ResolveAll(refsIn.value, (i: nat, ref: Value) => ResolveRef(ref, sw, svc.tagUrl));
    if refs.Err? || !svc.hasToken {
      return Err(ServerError);
    }
    var artsIn := PyList(PyGet(filled, "artifacts"));
    if artsIn.Err? {
      return Err(ServerError);
    }
    var arts := ResolveAll(artsIn.value, (i: nat, a: Value) =>
      ResolveArtifact(i, a, sw, ReleaseFromSwVersion(sw), svc.find, svc.baseUrl, svc.fetch));
    if arts.Err? {
      return Err(ServerError);
    }
    r := Ok(Obj(DocumentOf(m, filled, sw, Renumber(refs.value), arts.value)));
  }

  /** `out = []; for i, x in enumerate(xs): out.append(f(i, x))`, where an
      exception ends the handler. */
  method ResolveAll(xs: seq<Value>, f: (nat, Value) -> Result<Value, Exception>) returns (r: Result<seq<Value>, Exception>)
    ensures r == TryMap(xs, f)
  {
    var out := [];
    var i := 0;
    while i < |xs|
      invariant 0 <= i <= |xs|
      invariant TryMap(xs[..i], f) == Ok(out)
    {
      TryMapStep(xs, f, i);
      var y := f(i, xs[i]);
      if y.Err? {
        TryMapPrefixFails(xs, f, i + 1);
        return Err(y.error);
      }
      out := out + [y.value];
      i := i + 1;
    }
    assert xs[..i] == xs;
    r := Ok(out);
  }

  /* ---------------- what generate_swlm promises ---------------- */

  /** The request is refused with 400 exactly when the id or the version is
      missing or falsy, and with 404 when they are given but no profile has
      the id. */
  lemma GenerateRejects(payload: Fields, profiles: seq<Value>, svc: Services)
    ensures Generate(payload, profiles, svc) == Err(BadRequest) <==>
              !PyTruthy(PyGet(payload, "sw_package_id")) || !PyTruthy(PyGet(payload, "sw_version"))
    ensures RequestedVersion(payload).Ok? && FindById(profiles, PyGet(payload, "sw_package_id")) == Ok(None) ==>
              Generate(payload, profiles, svc) == Err(NotFound)
  {
  }

  /** A document the server returns has the fixed keys in order; it carries
      the stored id; its package version is the release followed by `.0`;
      its type defaults to `standard`; its generic product module, SWAD and
      SWDD come from the filled profile; its references are the resolved
      ones numbered 1..N in their stored order; its artifacts are the
      resolved records; its version is the one requested. */
  lemma BuiltDocument(m: Fields, sw: string, svc: Services)
    requires sw != "" && Build(m, sw, svc).Ok?
    ensures Build(m, sw, svc).value.Obj?
    ensures var fs := Build(m, sw, svc).value.fields;
      var filled := FillVersions(Obj(m), sw, Py).fields;
      && Keys(fs) == DocumentKeys
      && fs[0].1 == PyGet(m, "sw_package_id")
      && fs[1].1 == Str(ReleaseFromSwVersion(sw) + ".0")
      && fs[2].1 == (if PyTruthy(PyGet(m, "sw_package_type")) then PyGet(m, "sw_package_type") else Str("standard"))
      && fs[3].1 == PyOr(PyGet(filled, "generic_product_module"), Obj([]))
      && fs[4].1.Arr? && Renumbered(fs[4].1.items)
      && fs[4].1 == Arr(Renumber(ResolvedRefs(filled, sw, svc.tagUrl).value))
      && fs[5].1 == PyOr(PyGet(filled, "swad"), Arr([]))
      && fs[6].1 == PyOr(PyGet(filled, "swdd"), Arr([]))
      && fs[7].1 == Arr(ResolvedArtifacts(filled, sw, svc).value)
      && fs[8].1 == Str(sw)
  {
    FilledObject(m, sw);
    var filled := FillVersions(Obj(m), sw, Py).fields;
    var refs := ResolvedRefs(filled, sw, svc.tagUrl).value;
    var arts := ResolvedArtifacts(filled, sw, svc).value;
    assert Build(m, sw, svc) == Ok(Obj(DocumentOf(m, filled, sw, Renumber(refs), arts)));
    DocumentFields(PyGet(m, "sw_package_id"), ParseSwPackageVersion(sw), PyOr(PyGet(m, "sw_package_type"), Str("standard")),
                   PyOr(PyGet(filled, "generic_product_module"), Obj([])), Renumber(refs),
                   PyOr(PyGet(filled, "swad"), Arr([])), PyOr(PyGet(filled, "swdd"), Arr([])), arts, sw);
  }

  lemma DocumentFields(id: Value, version: string, kind: Value, gpm: Value, refs: seq<Value>,
                       swad: Value, swdd: Value, arts: seq<Value>, sw: string)
    ensures var fs := Document(id, version, kind, gpm, refs, swad, swdd, arts, sw);
      && Keys(fs) == DocumentKeys
      && fs[0].1 == id && fs[1].1 == Str(version) && fs[2].1 == kind && fs[3].1 == gpm && fs[4].1 == Arr(refs)
      && fs[5].1 == swad && fs[6].1 == swdd && fs[7].1 == Arr(arts) && fs[8].1 == Str(sw)
  {
    var vs := [id, Str(version), kind, gpm, Arr(refs), swad, swdd, Arr(arts), Str(sw)];
    var fs := Literal(DocumentKeys, vs);
    assert fs == Document(id, version, kind, gpm, refs, swad, swdd, arts, sw);
    assert fs[0].1 == vs[0] && fs[1].1 == vs[1] && fs[2].1 == vs[2];
    assert fs[3].1 == vs[3] && fs[4].1 == vs[4] && fs[5].1 == vs[5];
    assert fs[6].1 == vs[6] && fs[7].1 == vs[7] && fs[8].1 == vs[8];
  }

  /** Each artifact of the document is numbered by its position and carries
      the requested version and its sorted reference indices; an artifact
      whose name is not in the map has a blank location and checksum. */
  lemma ResolvedArtifactRecord(i: nat, a: Value, sw: string, release: string, find: ArtifactFinder,
                               baseUrl: string, fetch: ChecksumFetch)
    requires ResolveArtifact(i, a, sw, release, find, baseUrl, fetch).Ok?
    ensures a.Obj? && PyOr(PyGet(a.fields, "name"), Str("")).Str?
    ensures var fs := ResolveArtifact(i, a, sw, release, find, baseUrl, fetch).value.fields;
      var name := Trim(PyOr(PyGet(a.fields, "name"), Str("")).s);
      && Keys(fs) == GeneratePage.ArtifactKeys
      && fs[0].1 == Num(i + 1)
      && fs[1].1 == Str(name)
      && fs[3].1 == Str(sw)
      && fs[8].1.Arr? && AllNumbers(fs[8].1.items) && Sorting.Sorted(Numbers(fs[8].1.items))
      && (ArtifactProps(name, sw, release).None? ==> fs[4].1 == Str("") && fs[5].1 == Str(""))
    ensures var fs := ResolveArtifact(i, a, sw, release, find, baseUrl, fetch).value.fields;
      var name := Trim(PyOr(PyGet(a.fields, "name"), Str("")).s);
      var found := ArtifactLocation(name, sw, release, find, baseUrl, fetch);
      && fs[4].1 == Str(found.0) && fs[5].1 == Str(found.1)
      && SortedIndices(PyGet(a.fields, "source_references_idx")).Ok?
      && fs[8].1 == Arr(SortedIndices(PyGet(a.fields, "source_references_idx")).value)
  {
    var fs := a.fields;
    var name := PyStrip(PyOr(PyGet(fs, "name"), Str(""))).value;
    var found := ArtifactLocation(name, sw, release, find, baseUrl, fetch);
    var idx := SortedIndices(PyGet(fs, "source_references_idx")).value;
    var rec := GeneratePage.ArtifactRecord(i, name, Str(sw), (Str(found.0), Str(found.1)), idx);
    assert ResolveArtifact(i, a, sw, release, find, baseUrl, fetch) == Ok(Obj(rec));
    RecordFields(i, name, Str(sw), (Str(found.0), Str(found.1)), idx);
  }

  lemma RecordFields(i: nat, name: string, version: Value, meta: (Value, Value), idx: seq<Value>)
    ensures var fs := GeneratePage.ArtifactRecord(i, name, version, meta, idx);
      && Keys(fs) == GeneratePage.ArtifactKeys
      && fs[0].1 == Num(i + 1) && fs[1].1 == Str(name) && fs[3].1 == version
      && fs[4].1 == meta.0 && fs[5].1 == meta.1 && fs[8].1 == Arr(idx)
  {
    GeneratePage.RecordKeys(i, name, version, meta, idx);
  }

  /** A resolved reference keeps its other fields and points at its tag URL
      (or its project when no tag is found).  Entry j of its additional
      information is entry j of the stored list resolved on its own; its
      change log points at the tag URL of the change log's own project,
      else the reference's; its components default to `[]`. */
  lemma ResolvedReference(fs: Fields, base: string, sw: string, lookup: TagUrlLookup)
    requires ResolveRefAt(fs, base, sw, lookup).Ok?
    ensures var r := ResolveRefAt(fs, base, sw, lookup).value.fields;
      var ais := PyList(PyGet(fs, "additional_information"));
      var cl := PyOr(PyGet(fs, "change_log"), Obj([]));
      && Get(r, "location") == Str(ResolveGerritTagUrl(base, sw, lookup))
      && ais.Ok? && Get(r, "additional_information").Arr?
      && |Get(r, "additional_information").items| == |ais.value|
      && (forall j :: 0 <= j < |ais.value| ==>
            && ResolveInfo(ais.value[j], base, sw, lookup).Ok?
            && Get(r, "additional_information").items[j] == ResolveInfo(ais.value[j], base, sw, lookup).value)
      && cl.Obj? && PyOr(PyGet(cl.fields, "location"), PyOr(Str(base), Str(""))).Str?
      && var clProject := Trim(PyOr(PyGet(cl.fields, "location"), PyOr(Str(base), Str(""))).s);
      && Get(r, "change_log") == ChangeLogOf(cl.fields, ResolveGerritTagUrl(clProject, sw, lookup), sw)
      && Get(r, "components") == PyOr(PyGet(fs, "components"), Arr([]))
      && (forall k :: k != "location" && k != "additional_information" && k != "change_log" && k != "components" ==>
            Get(r, k) == Get(fs, k))
  {
    var url := ResolveGerritTagUrl(base, sw, lookup);
    var ais := PyList(PyGet(fs, "additional_information")).value;
    var infos := TryMap(ais, (i: nat, ai: Value) => ResolveInfo(ai, base, sw, lookup)).value;
    var cl := PyDict(PyOr(PyGet(fs, "change_log"), Obj([]))).value;
    var clProject := PyStrip(PyOr(PyGet(cl, "location"), PyOr(Str(base), Str("")))).value;
    var clUrl := if clProject != "" then ResolveGerritTagUrl(clProject, sw, lookup) else "";
    assert clUrl == ResolveGerritTagUrl(clProject, sw, lookup);
    ResolvedRefFieldsGet(fs, url, infos, ChangeLogOf(cl, clUrl, sw));
  }

  lemma ResolvedRefFieldsGet(fs: Fields, url: string, infos: seq<Value>, changeLog: Value)
    ensures var r := ResolvedRefFields(fs, url, infos, changeLog);
      && Get(r, "location") == Str(url)
      && Get(r, "additional_information") == Arr(infos)
      && Get(r, "change_log") == changeLog
      && Get(r, "components") == PyOr(PyGet(fs, "components"), Arr([]))
      && forall k :: k != "location" && k != "additional_information" && k != "change_log" && k != "components" ==>
           Get(r, k) == Get(fs, k)
  {
    forall k {
      GetAfterFour(fs, "location", Str(url), "additional_information", Arr(infos), "change_log", changeLog,
                   "components", PyOr(PyGet(fs, "components"), Arr([])), k);
    }
  }
}
