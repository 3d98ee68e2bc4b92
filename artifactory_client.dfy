/** The Artifactory client of the server (backend/artifactory_client.py):
    the token check when a client is made, the AQL query searching one
    repository by properties, and the choice of the single artifact in the
    answer.  The HTTP exchange is left out: the server's answer to the
    query is an input. */
module ArtifactoryClient {
  import opened Wrappers
  import opened Text
  import opened JsonValue
  import Backend

  /** What the client raises. */
  datatype ClientError =
    | MissingToken               // ValueError from the constructor
    | SearchFailed(status: int)  // the search answered with another status than 200
    | NoArtifact                 // no candidate
    | Several(count: nat)        // more than one candidate
    | Raised                     // a Python exception on a malformed answer

  /** A client of one repository, with the token read from the environment. */
  datatype Client = Client(repo: string, token: string)

  /** `ArtifactoryClient(repo)`: a missing or empty token raises. */
  function NewClient(repo: string, token: Option<string>): (r: Result<Client, ClientError>)
    ensures r.Ok? <==> token.Some? && token.value != ""
    ensures r.Ok? ==> r.value == Client(repo, token.value)
    ensures r.Err? ==> r.error == MissingToken
  {
    if token.None? || token.value == "" then Err(MissingToken) else Ok(Client(repo, token.value))
  }

  /* ---------------- the query ---------------- */

  function RepoCondition(repo: string): string {
    "\"repo\": \"" + repo + "\""
  }

  const TypeCondition: string := "\"type\": \"file\""

  function PathCondition(path: string): string {
    "\"path\": {\"$match\": \"*" + path + "*\"}"
  }

  function PropertyCondition(prop: (string, string)): string {
    "\"@" + prop.0 + "\": \"" + prop.1 + "\""
  }

  /** `if path_contains:` */
  predicate HasPath(pathContains: Option<string>) {
    pathContains.Some? && pathContains.value != ""
  }

  /** The conditions of the query, in order: the repository, the file type,
      the optional path pattern, then one per property in the order given. */
  function Conditions(repo: string, pathContains: Option<string>, props: seq<(string, string)>): (cs: seq<string>)
    ensures var n := if HasPath(pathContains) then 3 else 2;
      && |cs| == n + |props|
      && cs[0] == RepoCondition(repo) && cs[1] == TypeCondition
      && (HasPath(pathContains) ==> cs[2] == PathCondition(pathContains.value))
      && forall i :: 0 <= i < |props| ==> cs[n + i] == PropertyCondition(props[i])
  {
    var base := [RepoCondition(repo), TypeCondition] + (if HasPath(pathContains) then [PathCondition(pathContains.value)] else []);
    base + seq(|props|, i requires 0 <= i < |props| => PropertyCondition(props[i]))
  }

  /** The AQL text sent to the search API. */
  function Query(repo: string, pathContains: Option<string>, props: seq<(string, string)>): string {
    "items.find({" + Join(Conditions(repo, pathContains, props), ", ") + "})"
  }

  /** The conditions of a prefix of the properties, and of one more. */
  lemma ConditionsStep(repo: string, pathContains: Option<string>, props: seq<(string, string)>, i: nat)
    requires i < |props|
    ensures Conditions(repo, pathContains, props[..i + 1]) ==
            Conditions(repo, pathContains, props[..i]) + [PropertyCondition(props[i])]
  {
    var a := Conditions(repo, pathContains, props[..i + 1]);
    var b := Conditions(repo, pathContains, props[..i]) + [PropertyCondition(props[i])];
    assert |a| == |b|;
    var n := if HasPath(pathContains) then 3 else 2;
    forall k | 0 <= k < |a|
      ensures a[k] == b[k]
    {
      if k >= n && k < |a| - 1 {
        assert props[..i + 1][k - n] == props[..i][k - n];
      }
    }
  }

  /** The query string of `find_artifact_by_properties`, with the list of
      conditions grown one entry at a time. */
  method BuildQuery(client: Client, props: seq<(string, string)>, pathContains: Option<string>) returns (q: string)
    ensures q == Query(client.repo, pathContains, props)
  {
    var conditions := [RepoCondition(client.repo), TypeCondition];
    if HasPath(pathContains) {
      conditions := conditions + [PathCondition(pathContains.value)];
    }
    assert conditions == Conditions(client.repo, pathContains, props[..0]);
    var i := 0;
    while i < |props|
      invariant 0 <= i <= |props|
      invariant conditions == Conditions(client.repo, pathContains, props[..i])
    {
      ConditionsStep(client.repo, pathContains, props, i);
      conditions := conditions + [PropertyCondition(props[i])];
      i := i + 1;
    }
    assert props[..i] == props;
    q := "items.find({" + Join(conditions, ", ") + "})";
  }

  /** Joining one more part adds the separator and the part. */
  lemma {:induction false} JoinAppend(parts: seq<string>, x: string, sep: string)
    requires parts != []
    ensures Join(parts + [x], sep) == Join(parts, sep) + sep + x
    decreases |parts|
  {
    var ps := parts + [x];
    if |parts| == 1 {
      assert ps[1..] == [x];
    } else {
      assert ps[1..] == parts[1..] + [x];
      JoinAppend(parts[1..], x, sep);
    }
  }

  /** The query is the repository and file-type conditions, the optional
      path pattern, then each property condition, separated by `, `, in
      `items.find({...})`. */
  lemma QueryLayout(repo: string, pathContains: Option<string>, props: seq<(string, string)>, k: string, v: string)
    ensures Query(repo, None, []) == "items.find({" + RepoCondition(repo) + ", " + TypeCondition + "})"
    ensures Join(Conditions(repo, pathContains, props + [(k, v)]), ", ") ==
            Join(Conditions(repo, pathContains, props), ", ") + ", " + PropertyCondition((k, v))
  {
    var cs := Conditions(repo, None, []);
    assert cs == [RepoCondition(repo)] + [TypeCondition];
    JoinAppend([RepoCondition(repo)], TypeCondition, ", ");
    var ps := props + [(k, v)];
    ConditionsStep(repo, pathContains, ps, |props|);
    assert ps[..|props| + 1] == ps && ps[..|props|] == props;
    JoinAppend(Conditions(repo, pathContains, props), PropertyCondition((k, v)), ", ");
  }

  /* ---------------- the answer ---------------- */

  /** The folder every wanted artifact lies in. */
  const VbfFolder: string := "SWLM/xcp_disabled/vbf"

  /** `response.json().get("results", [])`, iterated: the answer must be an
      object; an empty dictionary or string gives no result, and the
      elements of any other non-list value raise when indexed by a key. */
  function Results(body: Value): (r: Result<seq<Value>, ClientError>)
    ensures body.Obj? && Get(body.fields, "results").Arr? ==> r == Ok(Get(body.fields, "results").items)
    ensures body.Obj? && Get(body.fields, "results").Undefined? ==> r == Ok([])
    ensures !body.Obj? ==> r == Err(Raised)
  {
    if !body.Obj? then Err(Raised)
    else match Get(body.fields, "results")
      case Undefined => Ok([])
      case Arr(items) => Ok(items)
      case Obj(fs) => if fs == [] then Ok([]) else Err(Raised)
      case Str(s) => if s == [] then Ok([]) else Err(Raised)
      case _ => Err(Raised)
  }

  /** `m["path"].endswith("SWLM/xcp_disabled/vbf")`: the result must be an
      object with a string path. */
  function InVbfFolder(m: Value): (r: Result<bool, ClientError>)
    ensures r.Ok? <==> m.Obj? && Get(m.fields, "path").Str?
    ensures r == Ok(true) ==> EndsWith(Get(m.fields, "path").s, VbfFolder)
  {
    if !m.Obj? then Err(Raised)
    else
      var path := Get(m.fields, "path");
      if path.Str? then Ok(EndsWith(path.s, VbfFolder)) else Err(Raised)
  }

  /** `[m for m in results if m["path"].endswith(...)]` */
  function Candidates(results: seq<Value>): (r: Result<seq<Value>, ClientError>)
    ensures r.Ok? ==> |r.value| <= |results| && forall i :: 0 <= i < |r.value| ==> r.value[i].Obj?
  {
    if results == [] then Ok([])
    else
      var hit :- InVbfFolder(results[0]);
      var rest :- Candidates(results[1..]);
      Ok(if hit then [results[0]] + rest else rest)
  }

  /** The candidates are the results in the folder, in their order: each
      candidate is one, and each result in the folder is a candidate. */
  lemma {:induction false} CandidatesAreInFolder(results: seq<Value>)
    requires Candidates(results).Ok?
    ensures forall i :: 0 <= i < |Candidates(results).value| ==>
              Candidates(results).value[i] in results && InVbfFolder(Candidates(results).value[i]) == Ok(true)
    ensures forall i :: 0 <= i < |results| && InVbfFolder(results[i]) == Ok(true) ==>
              results[i] in Candidates(results).value
    decreases |results|
  {
    if results != [] {
      CandidatesAreInFolder(results[1..]);
      assert forall i :: 1 <= i < |results| ==> results[i] == results[1..][i - 1];
    }
  }

  /** Filtering a concatenation filters each part and keeps their order:
      the candidates are the results in the folder, in the order and with
      the repetitions of the answer, and the filter raises exactly when
      one of the parts does. */
  lemma {:induction false} CandidatesAppend(a: seq<Value>, b: seq<Value>)
    ensures Candidates(a + b).Ok? <==> Candidates(a).Ok? && Candidates(b).Ok?
    ensures Candidates(a).Ok? && Candidates(b).Ok? ==>
              Candidates(a + b) == Ok(Candidates(a).value + Candidates(b).value)
    decreases |a|
  {
    if a == [] {
      assert a + b == b;
      assert Candidates(a) == Ok([]);
      if Candidates(b).Ok? {
        assert [] + Candidates(b).value == Candidates(b).value;
      }
    } else {
      var t := a[1..] + b;
      assert a == [a[0]] + a[1..];
      assert a + b == [a[0]] + t;
      CandidatesCons(a[0], a[1..]);
      CandidatesCons(a[0], t);
      CandidatesAppend(a[1..], b);
      if InVbfFolder(a[0]).Ok? && Candidates(a[1..]).Ok? && Candidates(b).Ok? {
        var head := if InVbfFolder(a[0]).value then [a[0]] else [];
        var ra, rb := Candidates(a[1..]).value, Candidates(b).value;
        assert Candidates(t) == Ok(ra + rb);
        assert Candidates(a).value == head + ra;
        assert Candidates(a + b).value == head + (ra + rb);
        assert head + (ra + rb) == (head + ra) + rb;
      }
    }
  }

  /** The filter on a list with a first element: that element, when it lies
      in the folder, then the filter on the rest. */
  lemma CandidatesCons(x: Value, rest: seq<Value>)
    ensures Candidates([x] + rest).Ok? <==> InVbfFolder(x).Ok? && Candidates(rest).Ok?
    ensures Candidates([x] + rest).Ok? ==>
              Candidates([x] + rest).value == (if InVbfFolder(x).value then [x] else []) + Candidates(rest).value
  {
    var xs := [x] + rest;
    assert xs[0] == x && xs[1..] == rest;
    if Candidates(xs).Ok? && !InVbfFolder(x).value {
      assert [] + Candidates(rest).value == Candidates(rest).value;
    }
  }

  /** One result is a candidate exactly when it lies in the folder. */
  lemma CandidatesSingle(m: Value)
    requires InVbfFolder(m).Ok?
    ensures Candidates([m]) == Ok(if InVbfFolder(m).value then [m] else [])
  {
    assert [m][0] == m && [m][1..] == [];
    assert Candidates([m][1..]) == Ok([]);
    assert [m] + [] == [m];
  }

  /** `f"{BASE_URL}/{m['repo']}/{m['path']}/{m['name']}"`: the three keys
      must be present and render as text. */
  function FullUrl(baseUrl: string, m: Value): (r: Result<string, ClientError>)
    requires m.Obj?
    ensures r.Ok? <==> PyStr(Get(m.fields, "repo")).Some? && PyStr(Get(m.fields, "path")).Some? && PyStr(Get(m.fields, "name")).Some?
  {
    var repo := PyStr(Get(m.fields, "repo"));
    var path := PyStr(Get(m.fields, "path"));
    var name := PyStr(Get(m.fields, "name"));
    if repo.None? || path.None? || name.None? then Err(Raised)
    else Ok(baseUrl + "/" + repo.value + "/" + path.value + "/" + name.value)
  }

  /** The URLs of the candidates, in order. */
  function FullUrls(baseUrl: string, candidates: seq<Value>): (r: Result<seq<string>, ClientError>)
    requires forall i :: 0 <= i < |candidates| ==> candidates[i].Obj?
    ensures r.Ok? ==> |r.value| == |candidates|
    ensures r.Ok? ==> forall i :: 0 <= i < |candidates| ==> FullUrl(baseUrl, candidates[i]) == Ok(r.value[i])
  {
    if candidates == [] then Ok([])
    else
      var first :- FullUrl(baseUrl, candidates[0]);
      var rest :- FullUrls(baseUrl, candidates[1..]);
      Ok([first] + rest)
  }

  /** What `find_artifact_by_properties` makes of the search's answer: the
      URL of the only candidate; none or several candidates raise, and so
      does another status than 200. */
  function SelectArtifact(status: int, body: Value, baseUrl: string): (r: Result<string, ClientError>)
    ensures status != 200 ==> r == Err(SearchFailed(status))
    ensures r.Ok? ==> status == 200 && Results(body).Ok? && Candidates(Results(body).value).Ok?
    ensures r.Ok? ==> var cs := Candidates(Results(body).value).value;
      |cs| == 1 && cs[0].Obj? && FullUrl(baseUrl, cs[0]) == Ok(r.value)
    ensures status == 200 && Results(body).Ok? && Candidates(Results(body).value) == Ok([]) ==> r == Err(NoArtifact)
  {
    if status != 200 then Err(SearchFailed(status))
    else
      var results :- Results(body);
      var candidates :- Candidates(results);
      var urls :- FullUrls(baseUrl, candidates);
      if |urls| == 1 then Ok(urls[0])
      else if |urls| == 0 then Err(NoArtifact)
      else Err(Several(|urls|))
  }

  /** The URLs of a single candidate are its URL. */
  lemma FullUrlsSingle(baseUrl: string, c: Value)
    requires c.Obj? && FullUrl(baseUrl, c).Ok?
    ensures FullUrls(baseUrl, [c]) == Ok([FullUrl(baseUrl, c).value])
  {
    assert [c][0] == c && [c][1..] == [];
    assert [FullUrl(baseUrl, c).value] + [] == [FullUrl(baseUrl, c).value];
  }

  /** A successful search with exactly one candidate whose URL renders
      selects that URL. */
  lemma SelectSingle(body: Value, baseUrl: string)
    requires Results(body).Ok? && Candidates(Results(body).value).Ok?
    requires |Candidates(Results(body).value).value| == 1
    requires FullUrl(baseUrl, Candidates(Results(body).value).value[0]).Ok?
    ensures SelectArtifact(200, body, baseUrl) == FullUrl(baseUrl, Candidates(Results(body).value).value[0])
  {
    var cs := Candidates(Results(body).value).value;
    assert cs == [cs[0]];
    FullUrlsSingle(baseUrl, cs[0]);
  }

  /** Two candidates are never a choice: the search reports how many it found. */
  lemma SeveralRefused(body: Value, baseUrl: string)
    requires Results(body).Ok? && Candidates(Results(body).value).Ok?
    requires |Candidates(Results(body).value).value| >= 2
    ensures SelectArtifact(200, body, baseUrl).Err?
    ensures var cs := Candidates(Results(body).value).value;
      FullUrls(baseUrl, cs).Ok? ==> SelectArtifact(200, body, baseUrl) == Err(Several(|cs|))
  {
  }

  /** `find_artifact_by_properties(props)` against a search server that
      answers each query text with a status and a body. */
  function FindByProperties(client: Client, props: seq<(string, string)>, baseUrl: string,
                            search: string -> (int, Value)): (r: Result<string, ClientError>)
    ensures var answer := search(Query(client.repo, None, props));
      r == SelectArtifact(answer.0, answer.1, baseUrl)
    ensures var answer := search(Query(client.repo, None, props));
      r.Ok? <==>
        && answer.0 == 200 && Results(answer.1).Ok? && Candidates(Results(answer.1).value).Ok?
        && |Candidates(Results(answer.1).value).value| == 1
        && FullUrl(baseUrl, Candidates(Results(answer.1).value).value[0]).Ok?
    ensures r.Ok? ==> r == FullUrl(baseUrl, Candidates(Results(search(Query(client.repo, None, props)).1).value).value[0])
  {
    var answer := search(Query(client.repo, None, props));
    var r := SelectArtifact(answer.0, answer.1, baseUrl);
    if answer.0 == 200 && Results(answer.1).Ok? && Candidates(Results(answer.1).value).Ok?
       && |Candidates(Results(answer.1).value).value| == 1
       && FullUrl(baseUrl, Candidates(Results(answer.1).value).value[0]).Ok?
    then SelectSingle(answer.1, baseUrl); r
    else r
  }

  /** The URL of a found artifact is taken apart by the server's checksum
      lookup into the artifact's repository and its path with the file name:
      the checksum asked for is the found artifact's. */
  lemma FoundUrlStorageTarget(baseUrl: string, repo: string, path: string, name: string)
    requires baseUrl != [] && baseUrl[|baseUrl| - 1] != '/' && '/' !in repo
    ensures Backend.StorageTarget(RStripChar(baseUrl, '/'), baseUrl + "/" + repo + "/" + path + "/" + name)
            == Some((repo, path + "/" + name))
  {
    assert RStripChar(baseUrl, '/') == baseUrl;
    assert baseUrl + "/" + repo + "/" + path + "/" + name == baseUrl + "/" + repo + "/" + (path + "/" + name);
    Backend.StorageTargetOfComposed(baseUrl, repo, path + "/" + name);
  }
}
