/** Save-time normalisation and the in-memory profile list of the browser
    client (frontend/src/context/ProfilesContext.jsx).  Before a profile is
    stored, every source reference keeps only its Gerrit project name, every
    additional-information entry gets its fixed category and a content type
    derived from its kind, every change log is cleared down to its file name,
    and every artifact is cut down to its editable fields; the profile is then
    put in display order and appended to, or written over one slot of, the
    list.  The backend requests are a flag each: whether the request was
    accepted. */
module ProfilesContext {
  import opened Wrappers
  import opened Text
  import opened JsonValue
  import opened ProfileUtils
  import ProjectName
  import GeneratePage

  /** Why a save or a delete leaves the list as it was. */
  datatype Failure =
    | MissingPackageId     // "Profile must have SW Package ID!"
    | Thrown(e: JsError)   // a TypeError while normalising or reading the list
    | RequestFailed        // the backend request was rejected

  /** `contentTypeForKind(kind)`: source code for generated code, a model
      for every other kind. */
  function ContentTypeForKind(kind: Value): (r: string)
    ensures r == "application/source code" <==> kind == Str("Generated Code")
    ensures r == "application/source code" || r == "application/model"
  {
    if kind == Str("Generated Code") then "application/source code" else "application/model"
  }

  /** The kind an entry is saved with: generated code stays, anything else
      becomes Simulink. */
  function SavedKind(kind: Value): (r: string)
    ensures r == "Generated Code" || r == "Simulink"
    ensures r == "Generated Code" <==> kind == Str("Generated Code")
  {
    if kind == Str("Generated Code") then "Generated Code" else "Simulink"
  }

  /* ---------------- Number(id) ---------------- */

  /** An optional sign followed by decimal digits. */
  predicate IntegerText(t: string) {
    |t| > 0 &&
    (AllDigits(t) || (|t| > 1 && (t[0] == '-' || t[0] == '+') && AllDigits(t[1..])))
  }

  /** `Number(v)` for the values an id can hold.  A string is trimmed; a blank
      one is `0`, an optionally signed run of digits is its value, any other
      text is `NaN`.  An array or object is read through its `String`
      rendering; `undefined` is `NaN`. */
  function ToNumber(v: Value): (r: Value)
    ensures r.Num? || r.NaN?
    ensures v.Num? ==> r == v
    ensures v.Str? ==> (r.NaN? <==> Trim(v.s) != [] && !IntegerText(Trim(v.s)))
  {
    match v
    case Undefined => NaN
    case Null => Num(0)
    case Bool(b) => Num(if b then 1 else 0)
    case Num(n) => Num(n)
    case NaN => NaN
    case Str(s) => ReadInteger(Trim(s))
    case _ => ReadInteger(Trim(JsString(v)))
  }

  /** `Number` of a trimmed string. */
  function ReadInteger(t: string): (r: Value)
    ensures r.Num? || r.NaN?
    ensures r.NaN? <==> t != [] && !IntegerText(t)
  {
    if t == [] then Num(0)
    else if !IntegerText(t) then NaN
    else if AllDigits(t) then Num(DigitsValue(t))
    else if t[0] == '-' then Num(0 - DigitsValue(t[1..]))
    else Num(DigitsValue(t[1..]))
  }

  /** An id typed as the decimal rendering of an integer is stored as that
      integer. */
  lemma ToNumberOfRendering(n: int)
    ensures ToNumber(Str(IntToString(n))) == Num(n)
  {
    var t := IntToString(n);
    if n < 0 {
      var d := NatToString(-n);
      assert t == "-" + d;
      DigitsValueNatToString(-n);
      ReadNegative(d);
    } else {
      assert t == NatToString(n);
      DigitsValueNatToString(n);
      ReadDigits(t);
    }
  }

  lemma ReadDigits(t: string)
    requires t != [] && AllDigits(t)
    ensures ToNumber(Str(t)) == Num(DigitsValue(t))
  {
    TrimDigitEnds(t);
  }

  lemma ReadNegative(d: string)
    requires d != [] && AllDigits(d)
    ensures ToNumber(Str("-" + d)) == Num(0 - DigitsValue(d))
  {
    var t := "-" + d;
    assert t[1..] == d;
    TrimDigitEnds(t);
    assert !AllDigits(t) by { assert !IsDigit(t[0]); }
    assert IntegerText(t);
  }

  /** A text that starts with a digit or a sign and ends with a digit is
      left alone by trimming. */
  lemma TrimDigitEnds(t: string)
    requires t != [] && (IsDigit(t[0]) || t[0] == '-')
    requires IsDigit(t[|t| - 1])
    ensures Trim(t) == t
  {
    assert !IsSpace(t[0]) && !IsSpace(t[|t| - 1]);
  }

  /* ---------------- additional information ---------------- */

  /** The four assignments of `{...ai, category, kind, content_type, location}`. */
  function InfoFields(fs: Fields, kind: string, location: string): Fields {
    Put(Put(Put(Put(fs, "category", Str("design")), "kind", Str(kind)),
            "content_type", Str(ContentTypeForKind(Str(kind)))), "location", Str(location))
  }

  lemma InfoFieldsGet(fs: Fields, kind: string, location: string)
    ensures var r := InfoFields(fs, kind, location);
      && Get(r, "category") == Str("design")
      && Get(r, "kind") == Str(kind)
      && Get(r, "content_type") == Str(ContentTypeForKind(Str(kind)))
      && Get(r, "location") == Str(location)
      && forall k :: k != "category" && k != "kind" && k != "content_type" && k != "location" ==> Get(r, k) == Get(fs, k)
  {
    forall k {
      GetAfterFour(fs, "category", Str("design"), "kind", Str(kind),
                   "content_type", Str(ContentTypeForKind(Str(kind))), "location", Str(location), k);
    }
  }

  /** One additional-information entry as saved.  Reading a property of
      `null` throws, and so does `toProjectName` of a truthy non-string. */
  function NormalizeInfo(ai: Value): (r: Result<Value, JsError>)
    ensures r.Err? <==> Nullish(ai) || (Truthy(OptProp(ai, "location")) && !OptProp(ai, "location").Str?)
    ensures r.Ok? ==> r.value.Obj?
  {
    var kind :- Prop(ai, "kind");
    var name :- ProjectName.ToProjectNameAsWritten(Or(OptProp(ai, "location"), Str("")));
    Ok(Obj(InfoFields(Spread(ai), SavedKind(kind), name)))
  }

  /** A saved entry has the category `design`, a kind that is generated code
      or Simulink, the content type that kind calls for, the project name of
      its location (blank when it had none), and every other field of the
      input. */
  lemma SavedInfo(ai: Value)
    requires NormalizeInfo(ai).Ok?
    ensures var fs := NormalizeInfo(ai).value.fields;
      && Get(fs, "category") == Str("design")
      && (Get(fs, "kind") == Str("Generated Code") <==> OptProp(ai, "kind") == Str("Generated Code"))
      && (Get(fs, "kind") == Str("Generated Code") || Get(fs, "kind") == Str("Simulink"))
      && Get(fs, "content_type") == Str(ContentTypeForKind(Get(fs, "kind")))
      && Get(fs, "location") == Str(ProjectName.ToProjectNameAsWritten(Or(OptProp(ai, "location"), Str(""))).value)
      && (!Truthy(OptProp(ai, "location")) ==> Get(fs, "location") == Str(""))
      && forall k :: k != "category" && k != "kind" && k != "content_type" && k != "location" ==> Get(fs, k) == Get(Spread(ai), k)
  {
    var kind := SavedKind(OptProp(ai, "kind"));
    var name := ProjectName.ToProjectNameAsWritten(Or(OptProp(ai, "location"), Str(""))).value;
    InfoFieldsGet(Spread(ai), kind, name);
  }

  /** `Array.isArray(v) ? v.map(normalise) : []` */
  function NormalizeInfos(v: Value): (r: Result<seq<Value>, JsError>)
    ensures !v.Arr? ==> r == Ok([])
    ensures v.Arr? ==> (r.Ok? <==> forall i :: 0 <= i < |v.items| ==> NormalizeInfo(v.items[i]).Ok?)
    ensures v.Arr? && r.Ok? ==>
              |r.value| == |v.items| && forall i :: 0 <= i < |v.items| ==> r.value[i] == NormalizeInfo(v.items[i]).value
  {
    if v.Arr? then TryMap(v.items, (i: nat, ai: Value) => NormalizeInfo(ai)) else Ok([])
  }

  /* ---------------- change logs ---------------- */

  /** The file name a change log keeps: its own when that is a non-empty string. */
  function KeptFileName(cl: Value): (r: string)
    ensures r != []
    ensures cl.Obj? && Get(cl.fields, "filenamn").Str? && Get(cl.fields, "filenamn").s != []
            ==> r == Get(cl.fields, "filenamn").s
    ensures !cl.Obj? ==> r == "Gerrit log"
    ensures !(cl.Obj? && Get(cl.fields, "filenamn").Str? && Get(cl.fields, "filenamn").s != []) ==> r == "Gerrit log"
  {
    // Only truthy objects (arrays included) are kept; an array has no `filenamn`.
    var prev := if Truthy(cl) && (cl.Obj? || cl.Arr?) then cl else Obj([]);
    var f := OptProp(prev, "filenamn");
    if f.Str? && f.s != [] then f.s else "Gerrit log"
  }

  /** The saved change log: the kept file name, and `version` and `location`
      cleared until generation fills them. */
  function NormalizeChangeLog(cl: Value): (r: Value)
    ensures r.Obj? && Keys(r.fields) == ["filenamn", "version", "location"]
    ensures Get(r.fields, "filenamn") == Str(KeptFileName(cl))
    ensures Get(r.fields, "version") == Str("") && Get(r.fields, "location") == Str("")
  {
    var fs := [("filenamn", Str(KeptFileName(cl))), ("version", Str("")), ("location", Str(""))];
    assert fs[1..][1..] == [("location", Str(""))];
    assert Get(fs[1..], "location") == Get(fs[1..][1..], "location") == Str("");
    Obj(fs)
  }

  /** A saved change log is saved again unchanged. */
  lemma NormalizeChangeLogIdempotent(cl: Value)
    ensures NormalizeChangeLog(NormalizeChangeLog(cl)) == NormalizeChangeLog(cl)
  {
    var once := NormalizeChangeLog(cl);
    assert Get(once.fields, "filenamn") == Str(KeptFileName(cl));
    assert KeptFileName(once) == KeptFileName(cl);
  }

  /* ---------------- source references ---------------- */

  /** The four assignments of `{...sr, location, components,
      additional_information, change_log}`. */
  function RefFields(fs: Fields, location: string, components: seq<Value>, infos: seq<Value>, changeLog: Value): Fields {
    Put(Put(Put(Put(fs, "location", Str(location)), "components", Arr(components)),
            "additional_information", Arr(infos)), "change_log", changeLog)
  }

  lemma RefFieldsGet(fs: Fields, location: string, components: seq<Value>, infos: seq<Value>, changeLog: Value)
    ensures var r := RefFields(fs, location, components, infos, changeLog);
      && Get(r, "location") == Str(location)
      && Get(r, "components") == Arr(components)
      && Get(r, "additional_information") == Arr(infos)
      && Get(r, "change_log") == changeLog
      && forall k :: k != "location" && k != "components" && k != "additional_information" && k != "change_log" ==> Get(r, k) == Get(fs, k)
  {
    forall k {
      GetAfterFour(fs, "location", Str(location), "components", Arr(components),
                   "additional_information", Arr(infos), "change_log", changeLog, k);
    }
  }

  /** One source reference as saved, before renumbering. */
  function NormalizeRef(sr: Value): (r: Result<Value, JsError>)
    ensures r.Ok? ==> r.value.Obj?
  {
    var loc :- Prop(sr, "location");
    var project :- ProjectName.ToProjectNameAsWritten(loc);
    var infos :- NormalizeInfos(OptProp(sr, "additional_information"));
    Ok(Obj(RefFields(Spread(sr), project, ArrayOrEmpty(OptProp(sr, "components")), infos,
                     NormalizeChangeLog(OptProp(sr, "change_log")))))
  }

  /** A saved reference holds the project name of its location, its
      components or `[]`, its normalised entries and its cleared change log;
      every other field is the input's. */
  lemma SavedRef(sr: Value)
    requires NormalizeRef(sr).Ok?
    ensures ProjectName.ToProjectNameAsWritten(OptProp(sr, "location")).Ok?
    ensures NormalizeInfos(OptProp(sr, "additional_information")).Ok?
    ensures var fs := NormalizeRef(sr).value.fields;
      && Get(fs, "location") == Str(ProjectName.ToProjectNameAsWritten(OptProp(sr, "location")).value)
      && Get(fs, "components") == Arr(ArrayOrEmpty(OptProp(sr, "components")))
      && Get(fs, "additional_information") == Arr(NormalizeInfos(OptProp(sr, "additional_information")).value)
      && Get(fs, "change_log") == NormalizeChangeLog(OptProp(sr, "change_log"))
      && forall k :: k != "location" && k != "components" && k != "additional_information" && k != "change_log" ==> Get(fs, k) == Get(Spread(sr), k)
  {
    RefFieldsGet(Spread(sr), ProjectName.ToProjectNameAsWritten(OptProp(sr, "location")).value,
                 ArrayOrEmpty(OptProp(sr, "components")), NormalizeInfos(OptProp(sr, "additional_information")).value,
                 NormalizeChangeLog(OptProp(sr, "change_log")));
  }

  /** `renumberSourceReferences((edit.source_references || []).map(normalise))` */
  function SavedRefs(refs: Value): (r: Result<seq<Value>, JsError>)
    ensures r.Ok? ==> Renumbered(r.value)
    ensures r.Ok? ==> ItemsOrEmpty(refs).Ok? && |r.value| == |ItemsOrEmpty(refs).value|
  {
    var items :- ItemsOrEmpty(refs);
    var normalized :- TryMap(items, NormalizeRefAt);
    Ok(Renumber(normalized))
  }

  /** The `map` callback: the position is not used. */
  function NormalizeRefAt(i: nat, sr: Value): Result<Value, JsError> {
    NormalizeRef(sr)
  }

  /** The saved references are the normalised input references in their
      input order, numbered 1..N. */
  lemma SavedRefsInOrder(refs: Value, i: nat)
    requires SavedRefs(refs).Ok? && i < |SavedRefs(refs).value|
    ensures var items := ItemsOrEmpty(refs).value;
      && NormalizeRef(items[i]).Ok?
      && Get(SavedRefs(refs).value[i].fields, "idx") == Num(i + 1)
      && forall k :: k != "idx" ==> Get(SavedRefs(refs).value[i].fields, k) == Get(NormalizeRef(items[i]).value.fields, k)
  {
    var items := ItemsOrEmpty(refs).value;
    var normalized := TryMap(items, NormalizeRefAt).value;
    assert SavedRefs(refs).value == Renumber(normalized) && normalized[i] == NormalizeRef(items[i]).value by {
      assert SavedRefs(refs) == Ok(Renumber(normalized));
      assert normalized[i] == NormalizeRefAt(i, items[i]).value;
    }
    RenumberAt(normalized, i);
  }

  /** Each saved reference holds the project name of its input's location. */
  lemma SavedRefLocation(refs: Value, i: nat)
    requires SavedRefs(refs).Ok? && i < |SavedRefs(refs).value|
    ensures var items := ItemsOrEmpty(refs).value;
      && ProjectName.ToProjectNameAsWritten(OptProp(items[i], "location")).Ok?
      && Get(SavedRefs(refs).value[i].fields, "location") == Str(ProjectName.ToProjectNameAsWritten(OptProp(items[i], "location")).value)
  {
    var sr := ItemsOrEmpty(refs).value[i];
    SavedRefsInOrder(refs, i);
    SavedRefLoc(sr);
    assert "location" != "idx";
  }

  /** The location part of `SavedRef`. */
  lemma SavedRefLoc(sr: Value)
    requires NormalizeRef(sr).Ok?
    ensures ProjectName.ToProjectNameAsWritten(OptProp(sr, "location")).Ok?
    ensures Get(NormalizeRef(sr).value.fields, "location") == Str(ProjectName.ToProjectNameAsWritten(OptProp(sr, "location")).value)
  {
    SavedRef(sr);
  }

  /* ---------------- artifacts ---------------- */

  /** The saved form of the `i`-th artifact: only the name and the reference
      indices come from the input. */
  function SavedArtifactRecord(i: nat, name: Value, srIdx: seq<Value>): Fields {
    [
      ("idx", Num(i + 1)),
      ("name", name),
      ("kind", Str("VBF file")),
      ("version", Str("")),
      ("location", Str("")),
      ("sha256", Str("")),
      ("target_platform", Str("SUM1")),
      ("buildtime_configurations", GeneratePage.BuildtimeConfigurations),
      ("source_references_idx", Arr(srIdx))
    ]
  }

  /** One artifact as saved; reading `name` of `null` throws. */
  function NormalizeArtifact(a: Value, i: nat): (r: Result<Value, JsError>)
    ensures r.Err? <==> Nullish(a)
    ensures r.Ok? ==> r.value == Obj(SavedArtifactRecord(i, Or(OptProp(a, "name"), Str("")),
                                                         GeneratePage.SortedIdx(OptProp(a, "source_references_idx"))))
  {
    var name :- Prop(a, "name");
    Ok(Obj(SavedArtifactRecord(i, Or(name, Str("")), GeneratePage.SortedIdx(OptProp(a, "source_references_idx")))))
  }

  /** A saved artifact has the same keys, in the same order, as a generated one. */
  lemma SavedArtifactKeys(i: nat, name: Value, srIdx: seq<Value>)
    ensures Keys(SavedArtifactRecord(i, name, srIdx)) == GeneratePage.ArtifactKeys
  {
    var ks := Keys(SavedArtifactRecord(i, name, srIdx));
    assert forall j :: 0 <= j < 9 ==> ks[j] == GeneratePage.ArtifactKeys[j];
  }

  /** `(edit.artifacts || []).map((a, i) => ({...}))` */
  function SavedArtifacts(arts: Value): (r: Result<seq<Value>, JsError>)
    ensures r.Ok? ==> ItemsOrEmpty(arts).Ok? && |r.value| == |ItemsOrEmpty(arts).value|
    ensures r.Ok? ==> forall i :: 0 <= i < |r.value| ==>
              NormalizeArtifact(ItemsOrEmpty(arts).value[i], i).Ok? &&
              r.value[i] == NormalizeArtifact(ItemsOrEmpty(arts).value[i], i).value
  {
    var items :- ItemsOrEmpty(arts);
    TryMap(items, (i: nat, a: Value) => NormalizeArtifact(a, i))
  }

  /** The saved artifacts are numbered 1..N and carry blank generated fields;
      their reference indices are sorted. */
  lemma SavedArtifactsNumbered(arts: Value, i: nat)
    requires SavedArtifacts(arts).Ok? && i < |SavedArtifacts(arts).value|
    ensures var a := SavedArtifacts(arts).value[i];
      && a.Obj? && Keys(a.fields) == GeneratePage.ArtifactKeys
      && a.fields[0] == ("idx", Num(i + 1))
      && a.fields[3] == ("version", Str("")) && a.fields[4] == ("location", Str("")) && a.fields[5] == ("sha256", Str(""))
  {
    var src := ItemsOrEmpty(arts).value[i];
    SavedArtifactKeys(i, Or(OptProp(src, "name"), Str("")), GeneratePage.SortedIdx(OptProp(src, "source_references_idx")));
  }

  /* ---------------- the saved profile ---------------- */

  /** `{...edit, sw_package_id: numericId, source_references, artifacts}` */
  function SaveFields(fs: Fields, id: Value, refs: seq<Value>, arts: seq<Value>): Fields {
    Put(Put(Put(fs, "sw_package_id", id), "source_references", Arr(refs)), "artifacts", Arr(arts))
  }

  /** The profile `saveProfile` stores, or why it throws. */
  function ToSave(edit: Value): (r: Result<Value, Failure>)
    ensures r == Err(MissingPackageId) <==> !Truthy(OptProp(edit, "sw_package_id"))
  {
    var id := OptProp(edit, "sw_package_id");
    if !Truthy(id) then Err(MissingPackageId)
    else
      var refs := SavedRefs(OptProp(edit, "source_references"));
      var arts := SavedArtifacts(OptProp(edit, "artifacts"));
      if refs.Err? then Err(Thrown(refs.error))
      else if arts.Err? then Err(Thrown(arts.error))
      else
        // `orderProfileForDisplay` fails only on `null`.
        Ok(SavedOf(edit, refs.value, arts.value))
  }

  lemma SaveFieldsGet(fs: Fields, id: Value, refs: seq<Value>, arts: seq<Value>)
    ensures var r := SaveFields(fs, id, refs, arts);
      && Get(r, "sw_package_id") == id
      && Get(r, "source_references") == Arr(refs)
      && Get(r, "artifacts") == Arr(arts)
      && forall k :: k != "sw_package_id" && k != "source_references" && k != "artifacts" ==> Get(r, k) == Get(fs, k)
  {
    forall k {
      GetAfterThree(fs, "sw_package_id", id, "source_references", Arr(refs), "artifacts", Arr(arts), k);
    }
  }

  lemma ReadObj(fs: Fields, k: string)
    ensures OptProp(Obj(fs), k) == Get(fs, k)
  {
  }

  /** `orderProfileForDisplay` of an object. */
  function Ordered(fs: Fields): (r: Value)
    ensures r.Obj? && Keys(r.fields) == ProfileKeys
  {
    OrderProfileForDisplay(Obj(fs)).value
  }

  /** Each field of the ordered form of any field list, read by name, given
      what the list holds under the seven profile keys. */
  lemma OrderedFields(p: Fields, fs: Fields, id: Value, refs: seq<Value>, arts: seq<Value>)
    requires Get(p, "sw_package_id") == id && Get(p, "source_references") == Arr(refs)
    requires Get(p, "artifacts") == Arr(arts)
    requires Get(p, "profile_name") == Get(fs, "profile_name")
    requires Get(p, "generic_product_module") == Get(fs, "generic_product_module")
    requires Get(p, "swad") == Get(fs, "swad") && Get(p, "swdd") == Get(fs, "swdd")
    ensures var q := Ordered(p).fields;
      && Get(q, "sw_package_id") == Coalesce(id, Str(""))
      && Get(q, "profile_name") == Coalesce(Get(fs, "profile_name"), Str(""))
      && Get(q, "generic_product_module") == Coalesce(Get(fs, "generic_product_module"), BlankGpm)
      && Get(q, "source_references") == Arr(refs)
      && Get(q, "swad") == Arr(ArrayOrEmpty(Get(fs, "swad")))
      && Get(q, "swdd") == Arr(ArrayOrEmpty(Get(fs, "swdd")))
      && Get(q, "artifacts") == Arr(arts)
  {
    OrderProfileRead(Obj(p));
    ReadObj(p, "sw_package_id");
    ReadObj(p, "profile_name");
    ReadObj(p, "generic_product_module");
    ReadObj(p, "source_references");
    ReadObj(p, "swad");
    ReadObj(p, "swdd");
    ReadObj(p, "artifacts");
  }

  /** A saved profile has exactly the seven profile keys in display order:
      the id read as a number, the name and the product module of the input
      (blank when absent), its `swad` and `swdd` lists (`[]` when not
      arrays), and the normalised references and artifacts. */
  lemma SavedProfile(edit: Value)
    requires ToSave(edit).Ok?
    ensures SavedRefs(OptProp(edit, "source_references")).Ok?
    ensures SavedArtifacts(OptProp(edit, "artifacts")).Ok?
    ensures var fs := ToSave(edit).value.fields;
      && ToSave(edit).value.Obj? && Keys(fs) == ProfileKeys
      && Get(fs, "sw_package_id") == ToNumber(OptProp(edit, "sw_package_id"))
      && Get(fs, "profile_name") == Coalesce(OptProp(edit, "profile_name"), Str(""))
      && Get(fs, "generic_product_module") == Coalesce(OptProp(edit, "generic_product_module"), BlankGpm)
      && Get(fs, "source_references") == Arr(SavedRefs(OptProp(edit, "source_references")).value)
      && Get(fs, "swad") == ListProp(edit, "swad")
      && Get(fs, "swdd") == ListProp(edit, "swdd")
      && Get(fs, "artifacts") == Arr(SavedArtifacts(OptProp(edit, "artifacts")).value)
  {
    var refs := SavedRefs(OptProp(edit, "source_references")).value;
    var arts := SavedArtifacts(OptProp(edit, "artifacts")).value;
    assert ToSave(edit) == Ok(SavedOf(edit, refs, arts));
    SavedOfFields(edit, refs, arts);
  }

  /** The stored profile for given normalised lists. */
  function SavedOf(edit: Value, refs: seq<Value>, arts: seq<Value>): Value {
    SavedWithId(edit, ToNumber(OptProp(edit, "sw_package_id")), refs, arts)
  }

  /** The stored profile for a given id and normalised lists. */
  function SavedWithId(edit: Value, id: Value, refs: seq<Value>, arts: seq<Value>): Value {
    Ordered(SaveFields(Spread(edit), id, refs, arts))
  }

  lemma SavedOfFields(edit: Value, refs: seq<Value>, arts: seq<Value>)
    ensures var fs := SavedOf(edit, refs, arts).fields;
      && SavedOf(edit, refs, arts).Obj? && Keys(fs) == ProfileKeys
      && Get(fs, "sw_package_id") == ToNumber(OptProp(edit, "sw_package_id"))
      && Get(fs, "profile_name") == Coalesce(OptProp(edit, "profile_name"), Str(""))
      && Get(fs, "generic_product_module") == Coalesce(OptProp(edit, "generic_product_module"), BlankGpm)
      && Get(fs, "source_references") == Arr(refs)
      && Get(fs, "swad") == ListProp(edit, "swad")
      && Get(fs, "swdd") == ListProp(edit, "swdd")
      && Get(fs, "artifacts") == Arr(arts)
  {
    SavedWithIdFields(edit, ToNumber(OptProp(edit, "sw_package_id")), refs, arts);
  }

  lemma SavedWithIdFields(edit: Value, id: Value, refs: seq<Value>, arts: seq<Value>)
    requires !Nullish(id)
    ensures var fs := SavedWithId(edit, id, refs, arts).fields;
      && SavedWithId(edit, id, refs, arts).Obj? && Keys(fs) == ProfileKeys
      && Get(fs, "sw_package_id") == id
      && Get(fs, "profile_name") == Coalesce(OptProp(edit, "profile_name"), Str(""))
      && Get(fs, "generic_product_module") == Coalesce(OptProp(edit, "generic_product_module"), BlankGpm)
      && Get(fs, "source_references") == Arr(refs)
      && Get(fs, "swad") == ListProp(edit, "swad")
      && Get(fs, "swdd") == ListProp(edit, "swdd")
      && Get(fs, "artifacts") == Arr(arts)
  {
    SpreadGet(edit, "profile_name");
    SpreadGet(edit, "generic_product_module");
    SpreadGet(edit, "swad");
    SpreadGet(edit, "swdd");
    SaveOrderedFields(Spread(edit), id, refs, arts);
  }

  lemma SaveOrderedFields(fs: Fields, id: Value, refs: seq<Value>, arts: seq<Value>)
    ensures var q := Ordered(SaveFields(fs, id, refs, arts)).fields;
      && Get(q, "sw_package_id") == Coalesce(id, Str(""))
      && Get(q, "profile_name") == Coalesce(Get(fs, "profile_name"), Str(""))
      && Get(q, "generic_product_module") == Coalesce(Get(fs, "generic_product_module"), BlankGpm)
      && Get(q, "source_references") == Arr(refs)
      && Get(q, "swad") == Arr(ArrayOrEmpty(Get(fs, "swad")))
      && Get(q, "swdd") == Arr(ArrayOrEmpty(Get(fs, "swdd")))
      && Get(q, "artifacts") == Arr(arts)
  {
    var p := SaveFields(fs, id, refs, arts);
    SaveFieldsKept(fs, id, refs, arts);
    OrderedFields(p, fs, id, refs, arts);
  }

  /** The seven profile keys of the saved field list, one key at a time. */
  lemma SaveFieldsKept(fs: Fields, id: Value, refs: seq<Value>, arts: seq<Value>)
    ensures var p := SaveFields(fs, id, refs, arts);
      && Get(p, "sw_package_id") == id && Get(p, "source_references") == Arr(refs)
      && Get(p, "artifacts") == Arr(arts)
      && Get(p, "profile_name") == Get(fs, "profile_name")
      && Get(p, "generic_product_module") == Get(fs, "generic_product_module")
      && Get(p, "swad") == Get(fs, "swad") && Get(p, "swdd") == Get(fs, "swdd")
  {
    GetAfterThree(fs, "sw_package_id", id, "source_references", Arr(refs), "artifacts", Arr(arts), "profile_name");
    GetAfterThree(fs, "sw_package_id", id, "source_references", Arr(refs), "artifacts", Arr(arts), "generic_product_module");
    GetAfterThree(fs, "sw_package_id", id, "source_references", Arr(refs), "artifacts", Arr(arts), "swad");
    GetAfterThree(fs, "sw_package_id", id, "source_references", Arr(refs), "artifacts", Arr(arts), "swdd");
    GetAfterThree(fs, "sw_package_id", id, "source_references", Arr(refs), "artifacts", Arr(arts), "sw_package_id");
    GetAfterThree(fs, "sw_package_id", id, "source_references", Arr(refs), "artifacts", Arr(arts), "source_references");
  }

  /** `{...v}[k]` and `v?.k` agree on every key but `length`. */
  lemma SpreadGet(v: Value, k: string)
    requires k != "length"
    ensures Get(Spread(v), k) == OptProp(v, k)
  {
  }

  /** What `saveProfile` yields and leaves in the list, given the outcome of
      normalising the edited profile.  A save succeeds exactly when
      normalisation succeeds and the backend accepts; then the normalised
      profile sits at the returned index, which is the new last slot or the
      edited one, and no other entry changes.  Otherwise the list is
      unchanged and the failure is reported. */
  function SaveOutcome(profiles: seq<Value>, saved: Result<Value, Failure>, editIdx: Option<nat>, accepted: bool): (out: (Result<nat, Failure>, seq<Value>))
    requires editIdx.Some? ==> editIdx.value < |profiles|
    ensures var (r, after) := out;
      && (r.Ok? <==> saved.Ok? && accepted)
      && (saved.Err? ==> r == Err(saved.error))
      && (saved.Ok? && !accepted ==> r == Err(RequestFailed))
      && (r.Err? ==> after == profiles)
      && (r.Ok? ==>
            && r.value < |after| && after[r.value] == saved.value
            && r.value == (if editIdx.None? then |profiles| else editIdx.value)
            && |after| == (if editIdx.None? then |profiles| + 1 else |profiles|)
            && forall j :: 0 <= j < |profiles| && j != r.value ==> after[j] == profiles[j])
  {
    match saved
    case Err(e) => (Err(e), profiles)
    case Ok(p) =>
      if !accepted then (Err(RequestFailed), profiles)
      else if editIdx.None? then (Ok(|profiles|), profiles + [p])
      else (Ok(editIdx.value), profiles[editIdx.value := p])
  }

  /** The profile list the context holds, as the backend last confirmed it. */
  class Profiles {
    var profiles: seq<Value>

    /** The list `fetchProfiles` delivered on mount. */
    constructor(fetched: seq<Value>)
      ensures profiles == fetched
    {
      profiles := fetched;
    }

    /** `saveProfile(editProfile, profileEditIdx)`: the profile is normalised
        first (a throw there leaves the list alone), then stored. */
    method SaveProfile(edit: Value, editIdx: Option<nat>, accepted: bool) returns (r: Result<nat, Failure>)
      requires editIdx.Some? ==> editIdx.value < |profiles|
      modifies this
      ensures r == SaveOutcome(old(profiles), ToSave(edit), editIdx, accepted).0
      ensures profiles == SaveOutcome(old(profiles), ToSave(edit), editIdx, accepted).1
    {
      r := Store(ToSave(edit), editIdx, accepted);
    }

    /** The part of `saveProfile` after normalisation: without an index the
        saved profile is appended and its new index returned; with one it
        replaces that slot and the index is returned.  The new list is
        built before the request and kept only when the backend accepts. */
    method Store(saved: Result<Value, Failure>, editIdx: Option<nat>, accepted: bool) returns (r: Result<nat, Failure>)
      requires editIdx.Some? ==> editIdx.value < |profiles|
      modifies this
      ensures r == SaveOutcome(old(profiles), saved, editIdx, accepted).0
      ensures profiles == SaveOutcome(old(profiles), saved, editIdx, accepted).1
    {
      if saved.Err? {
        return Err(saved.error);
      }
      var arr := profiles;
      var newIdx: nat;
      if editIdx.None? {
        arr := arr + [saved.value];
        newIdx := |arr| - 1;
      } else {
        arr := arr[editIdx.value := saved.value];
        newIdx := editIdx.value;
      }
      if !accepted {
        return Err(RequestFailed);
      }
      profiles := arr;
      r := Ok(newIdx);
    }

    /** `deleteProfile(idx)`: reads the id of the entry (throwing when there
        is none), removes exactly that entry and returns 0; the id sent with
        the request is returned beside the result. */
    method DeleteProfile(idx: int, accepted: bool) returns (r: Result<nat, Failure>, sentId: Value)
      modifies this
      ensures r.Err? ==> profiles == old(profiles)
      ensures r == Err(Thrown(TypeError)) <==> !(0 <= idx < |old(profiles)|) || Nullish(old(profiles)[idx])
      ensures r.Ok? <==> 0 <= idx < |old(profiles)| && !Nullish(old(profiles)[idx]) && accepted
      ensures r.Ok? ==> r.value == 0 && profiles == old(profiles)[..idx] + old(profiles)[idx + 1..]
      ensures r.Ok? ==> sentId == OptProp(old(profiles)[idx], "sw_package_id")
    {
      sentId := Undefined;
      var arr := profiles;
      if !(0 <= idx < |arr|) || Nullish(arr[idx]) {
        return Err(Thrown(TypeError)), sentId;
      }
      sentId := OptProp(arr[idx], "sw_package_id");
      arr := arr[..idx] + arr[idx + 1..];
      if !accepted {
        return Err(RequestFailed), sentId;
      }
      profiles := arr;
      r := Ok(0);
    }
  }
}
