/** The profile page of the browser client
    (frontend/src/pages/ProfilePage.jsx): which profile is being edited, the
    copy the editor works on, and the pending delete question.  The page
    hands saves and deletes to the profile list of `ProfilesContext`. */
module ProfilePage {
  import opened Wrappers
  import opened JsonValue
  import opened ProfileUtils
  import ProfilesContext
  import ProfileEditor

  /** The copy of a stored reference the editor starts from:
      `{...sr, components: Array.isArray(sr.components) ? [...sr.components] : [],
        additional_information: [...(sr.additional_information || [])]}` */
  function EditableReference(sr: Value): (r: Result<Value, JsError>)
    ensures r.Err? <==> Nullish(sr) || SpreadItems(OptProp(sr, "additional_information")).Err?
  {
    var comps :- Prop(sr, "components");
    var infos :- SpreadItems(OptProp(sr, "additional_information"));
    Ok(Obj(Put(Put(Spread(sr), "components", Arr(ArrayOrEmpty(comps))), "additional_information", Arr(infos))))
  }

  /** The mapping callback over the stored references. */
  function CopyReference(i: nat, sr: Value): Result<Value, JsError> {
    EditableReference(sr)
  }

  /** The copy `startEditProfile` builds of a stored profile: new `swad`,
      `swdd` and `artifacts` arrays with the same elements (`[]` when
      missing), and the references copied and renumbered. */
  function EditableCopy(p: Value): (r: Result<Fields, JsError>)
    ensures Nullish(p) ==> r == Err(TypeError)
  {
    var swad :- SpreadItems(OptProp(p, "swad"));
    var swdd :- SpreadItems(OptProp(p, "swdd"));
    var refs :- CopiedReferenceList(OptProp(p, "source_references"));
    var arts :- SpreadItems(OptProp(p, "artifacts"));
    // Reading `p.swad` of `undefined` throws before anything else.
    if Nullish(p) then Err(TypeError)
    else Ok(CopyFields(Spread(p), swad, swdd, refs, arts))
  }

  /** `renumberSourceReferences((v || []).map(...))` */
  function CopiedReferenceList(v: Value): Result<seq<Value>, JsError> {
    var items :- ItemsOrEmpty(v);
    var refs :- TryMap(items, CopyReference);
    Ok(Renumber(refs))
  }

  /** `{...p, swad, swdd, source_references, artifacts}` */
  function CopyFields(fs: Fields, swad: seq<Value>, swdd: seq<Value>, refs: seq<Value>, arts: seq<Value>): Fields {
    Put(Put(Put(Put(fs, "swad", Arr(swad)), "swdd", Arr(swdd)), "source_references", Arr(refs)), "artifacts", Arr(arts))
  }

  lemma CopyFieldsGet(fs: Fields, swad: seq<Value>, swdd: seq<Value>, refs: seq<Value>, arts: seq<Value>)
    ensures var r := CopyFields(fs, swad, swdd, refs, arts);
      && Get(r, "swad") == Arr(swad) && Get(r, "swdd") == Arr(swdd)
      && Get(r, "source_references") == Arr(refs) && Get(r, "artifacts") == Arr(arts)
      && forall k :: k != "swad" && k != "swdd" && k != "source_references" && k != "artifacts" ==> Get(r, k) == Get(fs, k)
  {
    forall k {
      GetAfterFour(fs, "swad", Arr(swad), "swdd", Arr(swdd), "source_references", Arr(refs), "artifacts", Arr(arts), k);
    }
  }

  lemma CopyFieldsReferences(fs: Fields, swad: seq<Value>, swdd: seq<Value>, refs: seq<Value>, arts: seq<Value>)
    ensures Get(CopyFields(fs, swad, swdd, refs, arts), "source_references") == Arr(refs)
  {
    GetAfterFour(fs, "swad", Arr(swad), "swdd", Arr(swdd), "source_references", Arr(refs), "artifacts", Arr(arts),
                 "source_references");
  }

  /** Building the copy throws exactly when the profile is nullish or one
      of its four lists cannot be copied. */
  lemma EditableCopyThrows(p: Value)
    ensures EditableCopy(p).Err? <==>
      || Nullish(p)
      || SpreadItems(OptProp(p, "swad")).Err? || SpreadItems(OptProp(p, "swdd")).Err?
      || CopiedReferenceList(OptProp(p, "source_references")).Err?
      || SpreadItems(OptProp(p, "artifacts")).Err?
  {
  }

  /** The parts the copy is built from, when building it succeeds. */
  lemma EditableCopyParts(p: Value)
    requires EditableCopy(p).Ok?
    ensures !Nullish(p)
    ensures SpreadItems(OptProp(p, "swad")).Ok? && SpreadItems(OptProp(p, "swdd")).Ok?
    ensures SpreadItems(OptProp(p, "artifacts")).Ok?
    ensures CopiedReferenceList(OptProp(p, "source_references")).Ok?
    ensures EditableCopy(p).value == CopyFields(Spread(p), SpreadItems(OptProp(p, "swad")).value,
      SpreadItems(OptProp(p, "swdd")).value, CopiedReferenceList(OptProp(p, "source_references")).value,
      SpreadItems(OptProp(p, "artifacts")).value)
  {
  }

  /** The copied lists hold the stored lists' elements (`[]` when missing),
      and every other field of the stored profile is copied. */
  lemma EditableCopyLists(p: Value)
    requires EditableCopy(p).Ok?
    ensures var q := EditableCopy(p).value;
      && (OptProp(p, "swad").Arr? ==> Get(q, "swad") == OptProp(p, "swad"))
      && (OptProp(p, "swdd").Arr? ==> Get(q, "swdd") == OptProp(p, "swdd"))
      && (OptProp(p, "artifacts").Arr? ==> Get(q, "artifacts") == OptProp(p, "artifacts"))
      && (!Truthy(OptProp(p, "swad")) ==> Get(q, "swad") == Arr([]))
      && (!Truthy(OptProp(p, "swdd")) ==> Get(q, "swdd") == Arr([]))
      && (!Truthy(OptProp(p, "artifacts")) ==> Get(q, "artifacts") == Arr([]))
    ensures var q := EditableCopy(p).value;
      forall k :: k != "swad" && k != "swdd" && k != "source_references" && k != "artifacts" ==> Get(q, k) == Get(Spread(p), k)
  {
    EditableCopyParts(p);
    CopyFieldsGet(Spread(p), SpreadItems(OptProp(p, "swad")).value, SpreadItems(OptProp(p, "swdd")).value,
      CopiedReferenceList(OptProp(p, "source_references")).value, SpreadItems(OptProp(p, "artifacts")).value);
  }

  /** The copied references keep their stored order, are numbered 1..N,
      each has an array of components (`[]` when the stored one is not an
      array) and keeps its other fields. */
  lemma EditableCopyReferences(p: Value)
    requires EditableCopy(p).Ok?
    ensures var q := EditableCopy(p).value;
      var refs := ArrayOrEmpty(OptProp(p, "source_references"));
      && Get(q, "source_references").Arr?
      && CopiedReferences(refs, Get(q, "source_references").items)
  {
    EditableCopyParts(p);
    var v := OptProp(p, "source_references");
    CopyFieldsReferences(Spread(p), SpreadItems(OptProp(p, "swad")).value, SpreadItems(OptProp(p, "swdd")).value,
      CopiedReferenceList(v).value, SpreadItems(OptProp(p, "artifacts")).value);
    RenumberedCopies(v);
  }

  /** `out` is the renumbered copy of the stored references `refs`. */
  ghost predicate CopiedReferences(refs: seq<Value>, out: seq<Value>) {
    && |out| == |refs|
    && Renumbered(out)
    && forall i :: 0 <= i < |refs| ==> CopiedReference(refs[i], out[i])
  }

  /** `c` is an editable copy of the stored reference `sr`: its components
      are an array, its additional information is a new array with the
      stored entries (`[]` when missing), and its fields other than `idx`,
      `components` and `additional_information` are those of `sr`. */
  ghost predicate CopiedReference(sr: Value, c: Value) {
    && EditableReference(sr).Ok?
    && c.Obj?
    && Get(c.fields, "components") == Arr(ArrayOrEmpty(OptProp(sr, "components")))
    && Get(c.fields, "additional_information") == Arr(SpreadItems(OptProp(sr, "additional_information")).value)
    && (!Truthy(OptProp(sr, "additional_information")) ==> Get(c.fields, "additional_information") == Arr([]))
    && forall k :: k != "idx" && k != "components" && k != "additional_information" ==>
         Get(c.fields, k) == Get(Spread(sr), k)
  }

  lemma RenumberedCopies(v: Value)
    requires CopiedReferenceList(v).Ok?
    ensures CopiedReferences(ArrayOrEmpty(v), CopiedReferenceList(v).value)
  {
    var items := ItemsOrEmpty(v).value;
    assert items == ArrayOrEmpty(v);
    var refs := TryMap(items, CopyReference).value;
    var out := Renumber(refs);
    forall i | 0 <= i < |items|
      ensures CopiedReference(items[i], out[i])
    {
      assert CopyReference(i, items[i]).Ok?;
      assert out[i] == WithIdx(refs[i], i);
      CopiedWithIdx(items[i], i);
    }
  }

  lemma CopiedWithIdx(sr: Value, i: nat)
    requires EditableReference(sr).Ok?
    ensures CopiedReference(sr, WithIdx(EditableReference(sr).value, i))
  {
    EditableReferenceFields(sr);
  }

  lemma EditableReferenceFields(sr: Value)
    requires EditableReference(sr).Ok?
    ensures var fs := EditableReference(sr).value.fields;
      && Get(fs, "components") == Arr(ArrayOrEmpty(OptProp(sr, "components")))
      && Get(fs, "additional_information") == Arr(SpreadItems(OptProp(sr, "additional_information")).value)
      && (!Truthy(OptProp(sr, "additional_information")) ==> Get(fs, "additional_information") == Arr([]))
      && forall k :: k != "components" && k != "additional_information" ==> Get(fs, k) == Get(Spread(sr), k)
  {
  }

  /** The page's editing state. */
  class Page {
    var editIdx: Option<nat>
    var editProfile: Option<Fields>
    var askDeleteIdx: Option<int>

    constructor()
      ensures editIdx.None? && editProfile.None? && askDeleteIdx.None?
    {
      editIdx := None;
      editProfile := None;
      askDeleteIdx := None;
    }

    /** `startAddProfile`: no index and a blank profile. */
    method StartAddProfile()
      modifies this
      ensures editIdx.None? && editProfile == Some(ProfileEditor.EmptyProfile().fields)
      ensures askDeleteIdx == old(askDeleteIdx)
    {
      editIdx := None;
      editProfile := Some(ProfileEditor.EmptyProfile().fields);
    }

    /** `startEditProfile(idx)`: the index is set first; the copy is stored
        when building it does not throw. */
    method StartEditProfile(profiles: seq<Value>, idx: nat)
      modifies this
      ensures editIdx == Some(idx)
      ensures var p := if idx < |profiles| then profiles[idx] else Undefined;
        && (EditableCopy(p).Ok? ==> editProfile == Some(EditableCopy(p).value))
        && (EditableCopy(p).Err? ==> editProfile == old(editProfile))
      ensures askDeleteIdx == old(askDeleteIdx)
    {
      var p := if idx < |profiles| then profiles[idx] else Undefined;
      editIdx := Some(idx);
      var copy := EditableCopy(p);
      if copy.Ok? {
        editProfile := Some(copy.value);
      }
    }

    /** `cancelEditProfile`: nothing is being edited any more. */
    method CancelEditProfile()
      modifies this
      ensures editIdx.None? && editProfile.None?
      ensures askDeleteIdx == old(askDeleteIdx)
    {
      editProfile := None;
      editIdx := None;
    }

    /** `onSaved(profile, index)`: the list saves the profile; the editing
        state is cleared only when that succeeds. */
    method OnSaved(ctx: ProfilesContext.Profiles, profile: Value, index: Option<nat>, accepted: bool)
      returns (r: Result<nat, ProfilesContext.Failure>)
      requires index.Some? ==> index.value < |ctx.profiles|
      modifies this, ctx
      ensures r == ProfilesContext.SaveOutcome(old(ctx.profiles), ProfilesContext.ToSave(profile), index, accepted).0
      ensures ctx.profiles == ProfilesContext.SaveOutcome(old(ctx.profiles), ProfilesContext.ToSave(profile), index, accepted).1
      ensures r.Ok? ==> editIdx.None? && editProfile.None?
      ensures r.Err? ==> editIdx == old(editIdx) && editProfile == old(editProfile)
      ensures askDeleteIdx == old(askDeleteIdx)
    {
      r := ctx.SaveProfile(profile, index, accepted);
      if r.Ok? {
        CancelEditProfile();
      }
    }

    /** The delete button of a list row. */
    method AskDelete(idx: int)
      modifies this
      ensures askDeleteIdx == Some(idx)
      ensures editIdx == old(editIdx) && editProfile == old(editProfile)
    {
      askDeleteIdx := Some(idx);
    }

    /** "Yes": the list deletes the entry; the question is closed only when
        the delete succeeds. */
    method ConfirmDelete(ctx: ProfilesContext.Profiles, accepted: bool) returns (r: Result<nat, ProfilesContext.Failure>)
      requires askDeleteIdx.Some?
      modifies this, ctx
      ensures var i := old(askDeleteIdx).value;
        r.Ok? <==> 0 <= i < |old(ctx.profiles)| && !Nullish(old(ctx.profiles)[i]) && accepted
      ensures var i := old(askDeleteIdx).value;
        r.Ok? ==> askDeleteIdx.None? && 0 <= i < |old(ctx.profiles)|
                  && ctx.profiles == old(ctx.profiles)[..i] + old(ctx.profiles)[i + 1..]
      ensures r.Err? ==> askDeleteIdx == old(askDeleteIdx) && ctx.profiles == old(ctx.profiles)
      ensures editIdx == old(editIdx) && editProfile == old(editProfile)
    {
      var sent;
      r, sent := ctx.DeleteProfile(askDeleteIdx.value, accepted);
      if r.Ok? {
        askDeleteIdx := None;
      }
    }

    /** "No": the question is closed. */
    method DenyDelete()
      modifies this
      ensures askDeleteIdx.None?
      ensures editIdx == old(editIdx) && editProfile == old(editProfile)
    {
      askDeleteIdx := None;
    }
  }
}
