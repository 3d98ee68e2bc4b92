/** The first, single-file version of the browser client
    (frontend/src/App.js): a list of profiles held in memory, the profile
    selected by id, the "add" buttons of the editor and the generation of
    the package document without any lookups. */
module LegacyApp {
  import opened Wrappers
  import opened Text
  import opened JsonValue
  import opened ProfileUtils
  import ProfileEditor
  import ProfilesContext

  /** The two blank profiles the page starts with. */
  function InitialProfile(id: int): Value {
    Obj([("sw_package_id", Num(id)),
         ("swad", Arr([Obj([("id", Str("")), ("name", Str("")), ("location", Str(""))])])),
         ("swdd", Arr([Obj([("id", Str("")), ("name", Str("")), ("location", Str(""))])])),
         ("generic_product_module", Obj([("location", Str("")), ("id", Str("")), ("version", Str(""))])),
         ("source_references", Arr([])),
         ("artifacts", Arr([]))])
  }

  /** `p.sw_package_id === id` */
  predicate Matches(p: Value, id: Value) {
    StrictEquals(OptProp(p, "sw_package_id"), id)
  }

  /** The index `profiles.find` stops at: the first matching profile. */
  function FindIndex(profiles: seq<Value>, id: Value): (r: Option<nat>)
    ensures r.None? <==> forall i :: 0 <= i < |profiles| ==> !Matches(profiles[i], id)
    ensures r.Some? ==> r.value < |profiles| && Matches(profiles[r.value], id)
                        && forall j :: 0 <= j < r.value ==> !Matches(profiles[j], id)
  {
    if profiles == [] then None
    else if Matches(profiles[0], id) then Some(0)
    else match FindIndex(profiles[1..], id)
      case None => None
      case Some(k) => Some(k + 1)
  }

  /** `profiles.find(p => p.sw_package_id === id)`: `undefined` when none matches. */
  function Selected(profiles: seq<Value>, id: Value): (r: Value)
    ensures (forall i :: 0 <= i < |profiles| ==> !Matches(profiles[i], id)) ==> r == Undefined
    ensures forall i :: FirstMatch(profiles, id, i) ==> r == profiles[i]
  {
    match FindIndex(profiles, id)
    case None => Undefined
    case Some(k) =>
      assert FirstMatch(profiles, id, k);
      assert forall i :: FirstMatch(profiles, id, i) ==> i == k by {
        forall i | FirstMatch(profiles, id, i) ensures i == k {
          FirstMatchUnique(profiles, id, i, k);
        }
      }
      profiles[k]
  }

  /** `i` is the index of the first profile with the id. */
  predicate FirstMatch(profiles: seq<Value>, id: Value, i: int) {
    0 <= i < |profiles| && Matches(profiles[i], id) && forall j :: 0 <= j < i ==> !Matches(profiles[j], id)
  }

  lemma FirstMatchUnique(profiles: seq<Value>, id: Value, i: int, k: int)
    requires FirstMatch(profiles, id, i) && FirstMatch(profiles, id, k)
    ensures i == k
  {
  }

  /** `ps.map(p => p.sw_package_id === id ? {...p, ...updated} : p)` */
  function UpdatedProfiles(profiles: seq<Value>, id: Value, updated: Fields): (r: seq<Value>)
    ensures |r| == |profiles|
    ensures forall i :: 0 <= i < |profiles| && !Matches(profiles[i], id) ==> r[i] == profiles[i]
  {
    seq(|profiles|, i requires 0 <= i < |profiles| =>
      if Matches(profiles[i], id) then Obj(Merge(Spread(profiles[i]), updated)) else profiles[i])
  }

  /** Only the profiles with the selected id change: each of them takes every
      field of `updated` and keeps its own other fields. */
  lemma UpdateMergesSelected(profiles: seq<Value>, id: Value, updated: Fields, i: nat, k: string)
    requires UniqueKeys(updated) && i < |profiles| && Matches(profiles[i], id)
    ensures var r := UpdatedProfiles(profiles, id, updated);
      && r[i].Obj?
      && (k in Keys(updated) ==> Get(r[i].fields, k) == Get(updated, k))
      && (k !in Keys(updated) ==> Get(r[i].fields, k) == Get(Spread(profiles[i]), k))
  {
    var r := UpdatedProfiles(profiles, id, updated);
    assert r[i] == Obj(Merge(Spread(profiles[i]), updated));
    if k in Keys(updated) {
      MergeGetInside(Spread(profiles[i]), updated, k);
    } else {
      MergeGetOutside(Spread(profiles[i]), updated, k);
    }
  }

  /** `sw_version.split("_").pop() + ".0"`: there is no check for a blank
      input, so an empty version gives `".0"`. */
  function PackageVersion(sw: string): (r: string)
    ensures r == LastSegment(sw, '_') + ".0"
  {
    LastOfSplit(sw, '_');
    var parts := Split(sw, '_');
    parts[|parts| - 1] + ".0"
  }

  /** `{...fillVersionFields(p, sw), sw_package_version, sw_version}` */
  function Generated(p: Value, sw: string): (r: Value)
    ensures r.Obj?
    ensures Get(r.fields, "sw_package_version") == Str(PackageVersion(sw))
    ensures Get(r.fields, "sw_version") == Str(sw)
  {
    Obj(Put(Put(Spread(FillVersions(p, sw, Js)), "sw_package_version", Str(PackageVersion(sw))), "sw_version", Str(sw)))
  }

  /** The generated document is the filled profile with the package version
      (the last `_` segment followed by `.0`) and the version entered; for a
      non-blank version no `version` field of the profile is left empty. */
  lemma GeneratedFields(p: Value, sw: string)
    ensures var fs := Generated(p, sw).fields;
      && Get(fs, "sw_package_version") == Str(LastSegment(sw, '_') + ".0")
      && Get(fs, "sw_version") == Str(sw)
      && forall k :: k != "sw_package_version" && k != "sw_version" ==>
           Get(fs, k) == Get(Spread(FillVersions(p, sw, Js)), k)
    ensures sw != "" ==> NoEmptyVersion(FillVersions(p, sw, Js), Js)
  {
    var f := Spread(FillVersions(p, sw, Js));
    var r1 := Put(f, "sw_package_version", Str(PackageVersion(sw)));
    var r2 := Put(r1, "sw_version", Str(sw));
    forall k | k != "sw_package_version" && k != "sw_version"
      ensures Get(r2, k) == Get(f, k)
    {
      assert Get(r2, k) == Get(r1, k) == Get(f, k);
    }
    if sw != "" {
      FillLeavesNoEmptyVersion(p, sw, Js);
    }
  }

  /** With no version entered the package version is `.0`. */
  lemma BlankVersionGivesDotZero(p: Value, sw: string)
    requires sw == ""
    ensures Get(Generated(p, sw).fields, "sw_package_version") == Str(".0")
  {
    GeneratedFields(p, sw);
    assert LastSegment(sw, '_') == [];
  }

  /** `[...(p[key] || []), item(length + 1)]`: reading the list of an
      undefined profile throws. */
  function Appended(p: Value, key: string, reference: bool): (r: Result<seq<Value>, JsError>)
    ensures r.Ok? <==> !Nullish(p) && SpreadItems(OptProp(p, key)).Ok?
    ensures r.Ok? ==> var xs := SpreadItems(OptProp(p, key)).value;
      r.value == xs + [NewItem(|xs| + 1, reference)]
  {
    var v :- Prop(p, key);
    var xs :- SpreadItems(v);
    var n := |xs| + 1;
    Ok(xs + [NewItem(n, reference)])
  }

  /** Appending the new item numbered N+1 to a list numbered 1..N (what
      `Appended` builds) keeps it numbered 1..N+1. */
  lemma AppendedNumbered(xs: seq<Value>, reference: bool)
    requires Renumbered(xs)
    ensures Renumbered(xs + [NewItem(|xs| + 1, reference)])
  {
    var n := |xs| + 1;
    if reference {
      ProfileEditor.NewReferenceFields(n);
    } else {
      ProfileEditor.NewArtifactIdx(n);
    }
    ProfileEditor.NumberedAppend(xs, NewItem(n, reference));
  }

  /** The default reference or artifact numbered `n`. */
  function NewItem(n: nat, reference: bool): Value {
    if reference then ProfileEditor.NewReference(n) else ProfileEditor.NewArtifact(n)
  }

  /** The page's state. */
  class App {
    var profiles: seq<Value>
    var selectedProfileId: Value
    var swVersionInput: string
    var generated: Option<Value>

    constructor()
      ensures profiles == [InitialProfile(175), InitialProfile(201)]
      ensures selectedProfileId == Num(175) && swVersionInput == "" && generated.None?
    {
      profiles := [InitialProfile(175), InitialProfile(201)];
      selectedProfileId := Num(175);
      swVersionInput := "";
      generated := None;
    }

    /** `updateProfile(updated)` */
    method UpdateProfile(updated: Fields)
      modifies this
      ensures profiles == UpdatedProfiles(old(profiles), selectedProfileId, updated)
      ensures selectedProfileId == old(selectedProfileId) && swVersionInput == old(swVersionInput)
      ensures generated == old(generated)
    {
      profiles := UpdatedProfiles(profiles, selectedProfileId, updated);
    }

    /** "Add Source Reference": the selected profile's references with one
        default reference numbered after them. */
    method AddSourceReference() returns (r: Result<nat, JsError>)
      modifies this
      ensures var a := Appended(Selected(old(profiles), old(selectedProfileId)), "source_references", true);
        && (r.Ok? <==> a.Ok?)
        && (r.Ok? ==> (r.value == |a.value|
              && profiles == UpdatedProfiles(old(profiles), selectedProfileId, [("source_references", Arr(a.value))])))
        && (r.Err? ==> profiles == old(profiles))
      ensures selectedProfileId == old(selectedProfileId) && swVersionInput == old(swVersionInput)
      ensures generated == old(generated)
    {
      var a := Appended(Selected(profiles, selectedProfileId), "source_references", true);
      if a.Err? {
        return Err(TypeError);
      }
      UpdateProfile([("source_references", Arr(a.value))]);
      r := Ok(|a.value|);
    }

    /** "Add Artifact": the selected profile's artifacts with one default
        artifact numbered after them. */
    method AddArtifact() returns (r: Result<nat, JsError>)
      modifies this
      ensures var a := Appended(Selected(old(profiles), old(selectedProfileId)), "artifacts", false);
        && (r.Ok? <==> a.Ok?)
        && (r.Ok? ==> (r.value == |a.value|
              && profiles == UpdatedProfiles(old(profiles), selectedProfileId, [("artifacts", Arr(a.value))])))
        && (r.Err? ==> profiles == old(profiles))
      ensures selectedProfileId == old(selectedProfileId) && swVersionInput == old(swVersionInput)
      ensures generated == old(generated)
    {
      var a := Appended(Selected(profiles, selectedProfileId), "artifacts", false);
      if a.Err? {
        return Err(TypeError);
      }
      UpdateProfile([("artifacts", Arr(a.value))]);
      r := Ok(|a.value|);
    }

    /** Either select's `onChange`: `setSelectedProfileId(Number(e.target.value))`.
        An option's value is its profile's id rendered as text, so choosing
        the option of an integer id selects that id again. */
    method SelectProfile(value: string)
      modifies this
      ensures selectedProfileId == ProfilesContext.ToNumber(Str(value))
      ensures forall n :: value == IntToString(n) ==> selectedProfileId == Num(n)
      ensures profiles == old(profiles) && swVersionInput == old(swVersionInput) && generated == old(generated)
    {
      selectedProfileId := ProfilesContext.ToNumber(Str(value));
      forall n | value == IntToString(n) ensures selectedProfileId == Num(n) {
        ProfilesContext.ToNumberOfRendering(n);
      }
    }

    method SetSwVersion(s: string)
      modifies this
      ensures swVersionInput == s
      ensures profiles == old(profiles) && selectedProfileId == old(selectedProfileId) && generated == old(generated)
    {
      swVersionInput := s;
    }

    /** `handleGenerate` */
    method HandleGenerate()
      modifies this
      ensures generated == Some(Generated(Selected(profiles, selectedProfileId), swVersionInput))
      ensures profiles == old(profiles) && selectedProfileId == old(selectedProfileId)
      ensures swVersionInput == old(swVersionInput)
    {
      generated := Some(Generated(Selected(profiles, selectedProfileId), swVersionInput));
    }
  }
}
