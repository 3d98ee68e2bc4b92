/** The generation pipeline of the browser client
    (frontend/src/pages/GeneratePage.jsx): the selected profile and a release
    string become the deliverable document.  Empty `version` fields are
    filled, `profile_name` is dropped, every source reference and
    additional-information entry is resolved to a Gerrit tag URL, every
    artifact to its Artifactory location and checksum, and the document is
    put in display order.

    The two lookups the page calls over HTTP are parameters: each returns
    the parsed response body, or `None` when the call throws. */
module GeneratePage {
  import opened Wrappers
  import opened Text
  import opened JsonValue
  import opened ProfileUtils

  /** `getGerritTagUrl(project, tag)`: the body `{ url }`, `None` on failure. */
  type TagLookup = (string, string) -> Option<Value>

  /** `resolveArtifactMeta(name, sw_version)`: the body `{ location, sha256 }`,
      `None` on failure. */
  type ArtifactLookup = (string, string) -> Option<Value>

  /** The URL a project resolves to: `""` for no project; the response's
      `url` when the lookup succeeds with a truthy one; the project itself
      when the lookup fails, its body has no readable `url`, or the `url` is
      empty. */
  function ResolveProject(project: string, sw: string, lookup: TagLookup): (r: Value)
    ensures project == "" ==> r == Str("")
    ensures project != "" ==> Truthy(r)
    ensures project != "" && lookup(project, sw).None? ==> r == Str(project)
    ensures project != "" && lookup(project, sw).Some? && Truthy(OptProp(lookup(project, sw).value, "url"))
            ==> r == OptProp(lookup(project, sw).value, "url")
    ensures r == Str(project) || (lookup(project, sw).Some? && r == OptProp(lookup(project, sw).value, "url"))
  {
    if project == "" then Str("")
    else
      match lookup(project, sw)
      case None => Str(project)
      case Some(resp) =>
        match Prop(resp, "url")
        case Err(_) => Str(project)
        case Ok(url) => Or(url, Str(project))
  }

  /** The project of an additional-information entry:
      `(info.location || baseProject || "").trim()`.  Reading `location` of
      `null` or trimming a non-string throws. */
  function InfoProject(info: Value, base: string): (r: Result<string, JsError>)
    ensures r.Err? <==> Nullish(info) || (Truthy(OptProp(info, "location")) && !OptProp(info, "location").Str?)
    ensures r.Ok? && Truthy(OptProp(info, "location")) ==> r.value == Trim(OptProp(info, "location").s)
    ensures r.Ok? && !Truthy(OptProp(info, "location")) ==> r.value == Trim(base)
  {
    var loc :- Prop(info, "location");
    // `baseProject || ""` is `baseProject` for every string.
    if Truthy(loc) then TrimJs(loc) else Ok(Trim(base))
  }

  /** One additional-information entry: `{...info, location: aiUrl}`. */
  function ResolveInfo(info: Value, base: string, sw: string, lookup: TagLookup): (r: Result<Value, JsError>)
    ensures r.Err? <==> InfoProject(info, base).Err?
    ensures r.Ok? ==> r.value.Obj? && Get(r.value.fields, "location") == ResolveProject(InfoProject(info, base).value, sw, lookup)
    ensures r.Ok? ==> forall k :: k != "location" ==> Get(r.value.fields, k) == Get(Spread(info), k)
  {
    var project :- InfoProject(info, base);
    Ok(Obj(Put(Spread(info), "location", ResolveProject(project, sw, lookup))))
  }

  /** `ref.change_log && typeof ref.change_log === "object"
        ? { ...ref.change_log, version: sw_version, location: refUrl }
        : { filenamn: "Gerrit log", version: sw_version, location: refUrl }` */
  function ChangeLog(cl: Value, sw: string, refUrl: Value): (r: Value)
    ensures r.Obj? && Get(r.fields, "version") == Str(sw) && Get(r.fields, "location") == refUrl
    ensures cl.Obj? ==> forall k :: k != "version" && k != "location" ==> Get(r.fields, k) == Get(cl.fields, k)
    ensures !cl.Obj? && !cl.Arr? ==>
              Get(r.fields, "filenamn") == Str("Gerrit log") && Keys(r.fields) == ["filenamn", "version", "location"]
  {
    if cl.Obj? || cl.Arr? then Obj(Put(Put(Spread(cl), "version", Str(sw)), "location", refUrl))
    else
      var fs := [("filenamn", Str("Gerrit log")), ("version", Str(sw)), ("location", refUrl)];
      assert fs[1..][1..] == [("location", refUrl)];
      assert Get(fs[1..], "location") == Get(fs[1..][1..], "location") == refUrl;
      Obj(fs)
  }

  /** The trimmed project of a source reference: `(ref.location || "").trim()`. */
  function BaseProject(ref: Value): (r: Result<string, JsError>)
    ensures r.Err? <==> Nullish(ref) || (Truthy(OptProp(ref, "location")) && !OptProp(ref, "location").Str?)
    ensures r.Ok? ==> r.value == if OptProp(ref, "location").Str? then Trim(OptProp(ref, "location").s) else []
  {
    var loc :- Prop(ref, "location");
    TrimOrBlank(loc)
  }

  /** The entries of a reference, resolved against its project. */
  function ResolveInfos(ref: Value, base: string, sw: string, lookup: TagLookup): (r: Result<seq<Value>, JsError>)
    ensures r.Ok? ==> |r.value| == |ArrayOrEmpty(OptProp(ref, "additional_information"))|
    ensures var infos := ArrayOrEmpty(OptProp(ref, "additional_information"));
      r.Ok? <==> forall j :: 0 <= j < |infos| ==> ResolveInfo(infos[j], base, sw, lookup).Ok?
    ensures var infos := ArrayOrEmpty(OptProp(ref, "additional_information"));
      r.Ok? ==> forall j :: 0 <= j < |infos| ==> r.value[j] == ResolveInfo(infos[j], base, sw, lookup).value
  {
    TryMap(ArrayOrEmpty(OptProp(ref, "additional_information")), (i: nat, info: Value) => ResolveInfo(info, base, sw, lookup))
  }

  /** One source reference: `{...ref, location: refUrl,
      additional_information: resolvedAI, change_log, components}`. */
  function ResolveRef(ref: Value, sw: string, lookup: TagLookup): (r: Result<Value, JsError>)
    ensures BaseProject(ref).Err? ==> r.Err?
    ensures BaseProject(ref).Ok? ==> (r.Err? <==> ResolveInfos(ref, BaseProject(ref).value, sw, lookup).Err?)
    ensures r.Ok? ==> r.value.Obj?
  {
    var base :- BaseProject(ref);
    var url := ResolveProject(base, sw, lookup);
    var infos :- ResolveInfos(ref, base, sw, lookup);
    Ok(Obj(RefFields(Spread(ref), url, Arr(infos), ChangeLog(OptProp(ref, "change_log"), sw, url),
                     Arr(ArrayOrEmpty(OptProp(ref, "components"))))))
  }

  /** The four assignments of the spread that builds a resolved reference. */
  function RefFields(fs: Fields, url: Value, infos: Value, changeLog: Value, components: Value): Fields {
    Put(Put(Put(Put(fs, "location", url), "additional_information", infos), "change_log", changeLog), "components", components)
  }

  /** A resolved reference carries its resolved URL, its resolved entries,
      a change log pointing at the same URL and an array of components;
      every other field is copied from the input. */
  lemma ResolvedRefFields(ref: Value, sw: string, lookup: TagLookup)
    requires ResolveRef(ref, sw, lookup).Ok?
    ensures var base := BaseProject(ref).value;
      var url := ResolveProject(base, sw, lookup);
      var fs := ResolveRef(ref, sw, lookup).value.fields;
      && Get(fs, "location") == url
      && Get(fs, "additional_information") == Arr(ResolveInfos(ref, base, sw, lookup).value)
      && Get(fs, "change_log") == ChangeLog(OptProp(ref, "change_log"), sw, url)
      && Get(fs, "components") == Arr(ArrayOrEmpty(OptProp(ref, "components")))
      && forall k :: k !in RefKeys ==> Get(fs, k) == Get(Spread(ref), k)
  {
    var base := BaseProject(ref).value;
    var url := ResolveProject(base, sw, lookup);
    var infos := Arr(ResolveInfos(ref, base, sw, lookup).value);
    var cl := ChangeLog(OptProp(ref, "change_log"), sw, url);
    var comps := Arr(ArrayOrEmpty(OptProp(ref, "components")));
    RefFieldsGet(Spread(ref), url, infos, cl, comps);
  }

  /** The keys a resolved reference overwrites. */
  const RefKeys: seq<string> := ["location", "additional_information", "change_log", "components"]

  lemma RefFieldsGet(fs: Fields, url: Value, infos: Value, changeLog: Value, components: Value)
    ensures var r := RefFields(fs, url, infos, changeLog, components);
      && Get(r, "location") == url
      && Get(r, "additional_information") == infos
      && Get(r, "change_log") == changeLog
      && Get(r, "components") == components
      && forall k :: k !in RefKeys ==> Get(r, k) == Get(fs, k)
  {
    var f1 := Put(fs, "location", url);
    var f2 := Put(f1, "additional_information", infos);
    var f3 := Put(f2, "change_log", changeLog);
    var f4 := Put(f3, "components", components);
    PutOther(f3, "components", components, "location");
    PutOther(f2, "change_log", changeLog, "location");
    PutOther(f1, "additional_information", infos, "location");
    PutOther(f3, "components", components, "additional_information");
    PutOther(f2, "change_log", changeLog, "additional_information");
    PutOther(f3, "components", components, "change_log");
    forall k | k !in RefKeys ensures Get(f4, k) == Get(fs, k) {
      PutOther(f3, "components", components, k);
      PutOther(f2, "change_log", changeLog, k);
      PutOther(f1, "additional_information", infos, k);
      PutOther(fs, "location", url, k);
    }
  }


  /** The location and checksum of an artifact: both `""` for an empty name
      or a failed lookup; otherwise `meta.location || ""` and
      `meta.sha256 || ""`, and both stay `""` when the body is `null`. */
  function ArtifactMeta(name: string, sw: string, lookup: ArtifactLookup): (r: (Value, Value))
    ensures name == "" || lookup(name, sw).None? ==> r == (Str(""), Str(""))
    ensures (r.0 == Str("") || Truthy(r.0)) && (r.1 == Str("") || Truthy(r.1))
    ensures name != "" && lookup(name, sw).Some? && Truthy(OptProp(lookup(name, sw).value, "location"))
            ==> r.0 == OptProp(lookup(name, sw).value, "location")
    ensures name != "" && lookup(name, sw).Some? && Nullish(lookup(name, sw).value) ==> r == (Str(""), Str(""))
    ensures name != "" && lookup(name, sw).Some? && !Nullish(lookup(name, sw).value)
            && Truthy(OptProp(lookup(name, sw).value, "sha256"))
            ==> r.1 == OptProp(lookup(name, sw).value, "sha256")
  {
    if name == "" then (Str(""), Str(""))
    else
      match lookup(name, sw)
      case None => (Str(""), Str(""))
      case Some(m) =>
        match Prop(m, "location")
        case Err(_) => (Str(""), Str(""))
        case Ok(location) => (Or(location, Str("")), Or(OptProp(m, "sha256"), Str("")))
  }

  /** `[{ cp: "VCTN", cpv: ["PRR"] }]` */
  const BuildtimeConfigurations: Value := Arr([Obj([("cp", Str("VCTN")), ("cpv", Arr([Str("PRR")]))])])

  /** The keys of a resolved artifact, in order. */
  const ArtifactKeys: seq<string> :=
    ["idx", "name", "kind", "version", "location", "sha256", "target_platform",
     "buildtime_configurations", "source_references_idx"]

  /** `Array.isArray(xs) ? [...xs].sort((x, y) => x - y) : []` */
  function SortedIdx(xs: Value): (r: seq<Value>)
    ensures !xs.Arr? ==> r == []
    ensures xs.Arr? && AllNumbers(xs.items) ==>
              AllNumbers(r) && Sorting.Sorted(Numbers(r)) && multiset(Numbers(r)) == multiset(Numbers(xs.items))
  {
    if xs.Arr? then SortNumeric(xs.items) else []
  }

  /** The trimmed name of an artifact: `(a.name || "").trim()`. */
  function ArtifactName(a: Value): (r: Result<string, JsError>)
    ensures r.Err? <==> Nullish(a) || (Truthy(OptProp(a, "name")) && !OptProp(a, "name").Str?)
    ensures r.Ok? ==> r.value == if OptProp(a, "name").Str? then Trim(OptProp(a, "name").s) else []
  {
    var n :- Prop(a, "name");
    TrimOrBlank(n)
  }

  /** The `i`-th artifact of the document: a fresh object with the fixed
      keys; only `name`, `version`, `source_references_idx` and the looked-up
      `location` and `sha256` depend on the input. */
  function ResolveArtifact(a: Value, i: nat, sw: string, lookup: ArtifactLookup): (r: Result<Value, JsError>)
    ensures r.Err? <==> ArtifactName(a).Err?
    ensures r.Ok? ==> r.value.Obj?
  {
    var name :- ArtifactName(a);
    Ok(Obj(ArtifactRecord(i, name, Or(OptProp(a, "version"), Str(sw)), ArtifactMeta(name, sw, lookup),
                          SortedIdx(OptProp(a, "source_references_idx")))))
  }

  function ArtifactRecord(i: nat, name: string, version: Value, meta: (Value, Value), srIdx: seq<Value>): Fields {
    [
      ("idx", Num(i + 1)),
      ("name", Str(name)),
      ("kind", Str("VBF file")),
      ("version", version),
      ("location", meta.0),
      ("sha256", meta.1),
      ("target_platform", Str("SUM1")),
      ("buildtime_configurations", BuildtimeConfigurations),
      ("source_references_idx", Arr(srIdx))
    ]
  }

  /** A resolved artifact is the fixed record built from its position, its
      trimmed name, its own version or else the release, the looked-up
      location and checksum, and its sorted reference indices; its keys
      are `ArtifactKeys`, in that order. */
  lemma ResolvedArtifactFields(a: Value, i: nat, sw: string, lookup: ArtifactLookup)
    requires ResolveArtifact(a, i, sw, lookup).Ok?
    ensures ArtifactName(a).Ok?
    ensures var name := ArtifactName(a).value;
      var fs := ResolveArtifact(a, i, sw, lookup).value.fields;
      && fs == ArtifactRecord(i, name, Or(OptProp(a, "version"), Str(sw)), ArtifactMeta(name, sw, lookup),
                              SortedIdx(OptProp(a, "source_references_idx")))
      && Keys(fs) == ArtifactKeys
  {
    var name := ArtifactName(a).value;
    RecordKeys(i, name, Or(OptProp(a, "version"), Str(sw)), ArtifactMeta(name, sw, lookup),
               SortedIdx(OptProp(a, "source_references_idx")));
  }

  lemma RecordKeys(i: nat, name: string, version: Value, meta: (Value, Value), srIdx: seq<Value>)
    ensures Keys(ArtifactRecord(i, name, version, meta, srIdx)) == ArtifactKeys
  {
    var fs := ArtifactRecord(i, name, version, meta, srIdx);
    var ks := Keys(fs);
    assert forall j :: 0 <= j < 9 ==> ks[j] == ArtifactKeys[j];
  }

  /** The resolved artifact keeps a non-empty version: its own, else the release. */
  lemma ArtifactVersionNonEmpty(a: Value, i: nat, sw: string, lookup: ArtifactLookup)
    requires sw != "" && ResolveArtifact(a, i, sw, lookup).Ok?
    ensures var fs := ResolveArtifact(a, i, sw, lookup).value.fields;
      |fs| == 9 && fs[3].0 == "version" && Truthy(fs[3].1) && (Truthy(OptProp(a, "version")) ==> fs[3].1 == OptProp(a, "version"))
  {
    var name := ArtifactName(a).value;
    var v := Or(OptProp(a, "version"), Str(sw));
    var meta, idx := ArtifactMeta(name, sw, lookup), SortedIdx(OptProp(a, "source_references_idx"));
    assert ResolveArtifact(a, i, sw, lookup).value.fields == ArtifactRecord(i, name, v, meta, idx);
    RecordVersion(i, name, v, meta, idx);
    assert Truthy(Str(sw));
  }

  lemma RecordVersion(i: nat, name: string, version: Value, meta: (Value, Value), srIdx: seq<Value>)
    ensures var fs := ArtifactRecord(i, name, version, meta, srIdx);
      |fs| == 9 && fs[3] == ("version", version)
  {
  }

  /** The profile the page has selected: `profiles[selectedProfileIdx]`. */
  function SelectedProfile(profiles: seq<Value>, selected: int): (r: Value)
    ensures !(0 <= selected < |profiles|) ==> r == Undefined
  {
    if 0 <= selected < |profiles| then profiles[selected] else Undefined
  }

  /** `const { profile_name, ...profileNoName } = fillVersionFields(profile, sw_version)`:
      destructuring `null` or `undefined` throws. */
  function WithoutName(profile: Value, sw: string): (r: Result<Fields, JsError>)
    ensures r.Err? <==> Nullish(FillVersions(profile, sw, Js))
    ensures r.Ok? ==> "profile_name" !in Keys(r.value)
  {
    var filled := FillVersions(profile, sw, Js);
    if Nullish(filled) then Err(TypeError)
    else Ok(Without(Spread(filled), ["profile_name"]))
  }

  /** The source references and the artifacts of the filled profile. */
  function Refs(fs: Fields): seq<Value> {
    ArrayOrEmpty(Get(fs, "source_references"))
  }

  function Arts(fs: Fields): seq<Value> {
    ArrayOrEmpty(Get(fs, "artifacts"))
  }

  /** The resolved references, in order: every reference resolves, or the
      whole generation fails. */
  function ResolveRefs(fs: Fields, sw: string, lookup: TagLookup): (r: Result<seq<Value>, JsError>)
    ensures r.Ok? <==> forall i :: 0 <= i < |Refs(fs)| ==> ResolveRef(Refs(fs)[i], sw, lookup).Ok?
    ensures r.Ok? ==> |r.value| == |Refs(fs)|
    ensures r.Ok? ==> forall i :: 0 <= i < |Refs(fs)| ==> r.value[i] == ResolveRef(Refs(fs)[i], sw, lookup).value
  {
    TryMap(Refs(fs), (i: nat, ref: Value) => ResolveRef(ref, sw, lookup))
  }

  /** The resolved artifacts, in order, each told its position. */
  function ResolveArtifacts(fs: Fields, sw: string, lookup: ArtifactLookup): (r: Result<seq<Value>, JsError>)
    ensures r.Ok? <==> forall i :: 0 <= i < |Arts(fs)| ==> ArtifactName(Arts(fs)[i]).Ok?
    ensures r.Ok? ==> |r.value| == |Arts(fs)|
    ensures r.Ok? ==> forall i :: 0 <= i < |Arts(fs)| ==> r.value[i] == ResolveArtifact(Arts(fs)[i], i, sw, lookup).value
  {
    TryMap(Arts(fs), (i: nat, a: Value) => ResolveArtifact(a, i, sw, lookup))
  }

  /** `{...profileNoName, source_references: renumberSourceReferences(resolvedRefs),
      artifacts: resolvedArtifacts, sw_version}` */
  function Assemble(noName: Fields, refs: seq<Value>, arts: seq<Value>, sw: string): Fields {
    Put(Put(Put(noName, "source_references", Arr(Renumber(refs))), "artifacts", Arr(arts)), "sw_version", Str(sw))
  }

  /** The assembled object holds the three new values and no other new key. */
  lemma AssembleFields(noName: Fields, refs: seq<Value>, arts: seq<Value>, sw: string, k: string)
    ensures var r := Assemble(noName, refs, arts, sw);
      && Get(r, "source_references") == Arr(Renumber(refs))
      && Get(r, "artifacts") == Arr(arts)
      && Get(r, "sw_version") == Str(sw)
      && (k !in Keys(noName) && k !in GeneratedKeys ==> k !in Keys(r))
  {
    var r1 := Put(noName, "source_references", Arr(Renumber(refs)));
    var r2 := Put(r1, "artifacts", Arr(arts));
    PutOther(r1, "artifacts", Arr(arts), "source_references");
    PutOther(r2, "sw_version", Str(sw), "source_references");
    PutOther(r2, "sw_version", Str(sw), "artifacts");
    if k !in Keys(noName) && k !in GeneratedKeys {
      PutKeys(noName, "source_references", Arr(Renumber(refs)), k);
      PutKeys(r1, "artifacts", Arr(arts), k);
      PutKeys(r2, "sw_version", Str(sw), k);
    }
  }

  /** The body of `handleGenerate` once `sw_version` is known to be non-blank.
      The references are resolved before the artifacts. */
  function Generate(profile: Value, sw: string, tags: TagLookup, metas: ArtifactLookup): (r: Result<Value, JsError>)
    ensures r.Ok? ==> r.value.Obj?
  {
    var noName :- WithoutName(profile, sw);
    var refs :- ResolveRefs(noName, sw, tags);
    var arts :- ResolveArtifacts(noName, sw, metas);
    OrderGeneratedForDisplay(Obj(Assemble(noName, refs, arts, sw)))
  }

  /** What a generated document holds: no `profile_name`; the release as
      `sw_version`; the resolved references, renumbered; the resolved
      artifacts.  Together with the contracts of `ResolveRefs` and
      `ResolveArtifacts`, one output element per input element, in order. */
  lemma GeneratedDocument(profile: Value, sw: string, tags: TagLookup, metas: ArtifactLookup)
    requires Generate(profile, sw, tags, metas).Ok?
    ensures WithoutName(profile, sw).Ok?
    ensures var noName := WithoutName(profile, sw).value;
      var doc := Generate(profile, sw, tags, metas).value.fields;
      && ResolveRefs(noName, sw, tags).Ok? && ResolveArtifacts(noName, sw, metas).Ok?
      && "profile_name" !in Keys(doc)
      && Get(doc, "sw_version") == Str(sw)
      && Get(doc, "source_references") == Arr(Renumber(ResolveRefs(noName, sw, tags).value))
      && Get(doc, "artifacts") == Arr(ResolveArtifacts(noName, sw, metas).value)
  {
    GenerateSteps(profile, sw, tags, metas);
    GeneratedKey(profile, sw, tags, metas, "sw_version");
    GeneratedKey(profile, sw, tags, metas, "source_references");
    GeneratedKey(profile, sw, tags, metas, "artifacts");
    GeneratedHasNoName(profile, sw, tags, metas);
  }

  /** One known key of the generated document, read through the ordering. */
  lemma GeneratedKey(profile: Value, sw: string, tags: TagLookup, metas: ArtifactLookup, k: string)
    requires Generate(profile, sw, tags, metas).Ok? && k in GeneratedKeys
    ensures WithoutName(profile, sw).Ok?
    ensures var noName := WithoutName(profile, sw).value;
      && ResolveRefs(noName, sw, tags).Ok? && ResolveArtifacts(noName, sw, metas).Ok?
      && Get(Generate(profile, sw, tags, metas).value.fields, k)
         == Get(Assemble(noName, ResolveRefs(noName, sw, tags).value, ResolveArtifacts(noName, sw, metas).value, sw), k)
  {
    GenerateSteps(profile, sw, tags, metas);
    var noName := WithoutName(profile, sw).value;
    OrderedGet(Assemble(noName, ResolveRefs(noName, sw, tags).value, ResolveArtifacts(noName, sw, metas).value, sw), k);
  }

  lemma GeneratedHasNoName(profile: Value, sw: string, tags: TagLookup, metas: ArtifactLookup)
    requires Generate(profile, sw, tags, metas).Ok?
    ensures "profile_name" !in Keys(Generate(profile, sw, tags, metas).value.fields)
  {
    GenerateSteps(profile, sw, tags, metas);
    var noName := WithoutName(profile, sw).value;
    var refs := ResolveRefs(noName, sw, tags).value;
    var arts := ResolveArtifacts(noName, sw, metas).value;
    NameNotGenerated();
    AssembledKeys(noName, refs, arts, sw, "profile_name");
  }

  lemma NameNotGenerated()
    ensures "profile_name" !in GeneratedKeys
  {
  }

  lemma AssembledKeys(noName: Fields, refs: seq<Value>, arts: seq<Value>, sw: string, k: string)
    requires k !in Keys(noName) && k !in GeneratedKeys
    ensures k !in Keys(OrderGeneratedForDisplay(Obj(Assemble(noName, refs, arts, sw))).value.fields)
  {
    var fs := Assemble(noName, refs, arts, sw);
    AssembleFields(noName, refs, arts, sw, k);
    OrderedKeys(fs, k);
  }

  /** The steps of a generation that succeeded. */
  lemma GenerateSteps(profile: Value, sw: string, tags: TagLookup, metas: ArtifactLookup)
    requires Generate(profile, sw, tags, metas).Ok?
    ensures WithoutName(profile, sw).Ok?
    ensures var noName := WithoutName(profile, sw).value;
      && ResolveRefs(noName, sw, tags).Ok? && ResolveArtifacts(noName, sw, metas).Ok?
      && Generate(profile, sw, tags, metas)
         == OrderGeneratedForDisplay(Obj(Assemble(noName, ResolveRefs(noName, sw, tags).value,
                                                  ResolveArtifacts(noName, sw, metas).value, sw)))
  {
  }

  /** A known key reads the same after the display ordering. */
  lemma OrderedGet(fs: Fields, k: string)
    requires k in GeneratedKeys
    ensures Get(OrderGeneratedForDisplay(Obj(fs)).value.fields, k) == Get(fs, k)
  {
    GeneratedKeysDistinct();
    PickKnownGet(fs, GeneratedKeys, k);
    assert k !in Keys(Without(fs, GeneratedKeys));
    MergeGetOutside(PickKnown(fs, GeneratedKeys), Without(fs, GeneratedKeys), k);
  }

  /** The display ordering introduces no key besides the known ones. */
  lemma OrderedKeys(fs: Fields, k: string)
    requires k !in Keys(fs) && k !in GeneratedKeys
    ensures k !in Keys(OrderGeneratedForDisplay(Obj(fs)).value.fields)
  {
    MergeKeys(PickKnown(fs, GeneratedKeys), Without(fs, GeneratedKeys), k);
  }

  /** What one press of the button does. */
  datatype Outcome =
    | Skipped              // `sw_version` blank: nothing happens
    | Failed(e: JsError)   // the handler throws; `generated` is left as it was
    | Generated(doc: Value)

  /** `handleGenerate` on the page's inputs. */
  function HandleGenerateOutcome(profiles: seq<Value>, selected: int, input: string, tags: TagLookup, metas: ArtifactLookup): (r: Outcome)
    ensures r.Skipped? <==> Trim(input) == ""
  {
    var sw := Trim(input);
    if sw == "" then Skipped
    else
      var profile := SelectedProfile(profiles, selected);
      match Generate(profile, sw, tags, metas)
      case Err(e) => Failed(e)
      case Ok(doc) => Generated(doc)
  }

  /** A press that produces a document produces one without `profile_name`
      that records the trimmed release; the document is the pipeline's on
      the selected profile, or `undefined` past the end of the list, which
      fails. */
  lemma HandleGenerateDocument(profiles: seq<Value>, selected: int, input: string, tags: TagLookup, metas: ArtifactLookup)
    requires HandleGenerateOutcome(profiles, selected, input, tags, metas).Generated?
    ensures var doc := HandleGenerateOutcome(profiles, selected, input, tags, metas).doc;
      && 0 <= selected < |profiles|
      && doc.Obj? && "profile_name" !in Keys(doc.fields)
      && Get(doc.fields, "sw_version") == Str(Trim(input))
      && Generate(profiles[selected], Trim(input), tags, metas) == Ok(doc)
  {
    var sw := Trim(input);
    var profile := SelectedProfile(profiles, selected);
    GeneratedDocument(profile, sw, tags, metas);
  }

  /** The page's state: the selected profile, the typed release, the last
      generated document (`null` at first) and the loading flag. */
  class GeneratePage {
    var selectedProfileIdx: int
    var swVersionInput: string
    var generated: Value
    var loading: bool

    constructor()
      ensures selectedProfileIdx == 0 && swVersionInput == "" && generated == Null && !loading
    {
      selectedProfileIdx := 0;
      swVersionInput := "";
      generated := Null;
      loading := false;
    }

    /** The profile selector: `setSelectedProfileIdx(Number(e.target.value))`. */
    method SelectProfile(idx: int)
      modifies this
      ensures selectedProfileIdx == idx
      ensures swVersionInput == old(swVersionInput) && generated == old(generated) && loading == old(loading)
    {
      selectedProfileIdx := idx;
    }

    /** The release input field. */
    method SetSwVersion(s: string)
      modifies this
      ensures swVersionInput == s
      ensures selectedProfileIdx == old(selectedProfileIdx) && generated == old(generated) && loading == old(loading)
    {
      swVersionInput := s;
    }

    /** `handleGenerate`: a blank release does nothing; otherwise the loading
        flag is raised, the document is generated and stored, and the flag is
        lowered again in the `finally` block, also when generation throws. */
    method HandleGenerate(profiles: seq<Value>, tags: TagLookup, metas: ArtifactLookup) returns (outcome: Outcome)
      modifies this
      ensures outcome == HandleGenerateOutcome(profiles, old(selectedProfileIdx), old(swVersionInput), tags, metas)
      ensures outcome.Generated? ==> generated == outcome.doc
      ensures !outcome.Generated? ==> generated == old(generated)
      ensures loading == (if outcome.Skipped? then old(loading) else false)
      ensures selectedProfileIdx == old(selectedProfileIdx)
      ensures swVersionInput == old(swVersionInput)
    {
      outcome := HandleGenerateOutcome(profiles, selectedProfileIdx, swVersionInput, tags, metas);
      Record(outcome);
    }

    /** The state changes of one press, given what the press produced. */
    method Record(outcome: Outcome)
      modifies this
      ensures outcome.Generated? ==> generated == outcome.doc
      ensures !outcome.Generated? ==> generated == old(generated)
      ensures loading == (if outcome.Skipped? then old(loading) else false)
      ensures selectedProfileIdx == old(selectedProfileIdx)
      ensures swVersionInput == old(swVersionInput)
    {
      match outcome
      case Skipped =>
      case Failed(_) =>
        loading := true;
        loading := false;
      case Generated(doc) =>
        loading := true;
        generated := doc;
        loading := false;
    }
  }
}
