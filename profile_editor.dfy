/** The profile editor of the browser client
    (frontend/src/components/ProfileEditor.jsx): the handlers that insert,
    remove and change entries of the nested lists of the profile being
    edited, the two refresh buttons that merge a CarWeaver answer into a
    component or into the generic product module, and the filter on the
    package-id field.

    Every handler copies the list of source references, changes one
    reference in place and stores `{...p, source_references: refs}`.  An
    uncaught `TypeError` in a handler leaves the state as it was; the
    refresh handlers catch every error themselves.  The CarWeaver lookups
    are parameters that answer the parsed body or `None` when the request
    fails. */
module ProfileEditor {
  import opened Wrappers
  import opened Text
  import opened JsonValue
  import opened ProfileUtils

  /* ---------------- defaults ---------------- */

  const BlankComponent: Value :=
    Obj([("id", Str("")), ("persistent_id", Str("")), ("version", Str("")), ("location", Str(""))])

  const BlankInfo: Value :=
    Obj([("title", Str("")), ("category", Str("design")), ("kind", Str("Simulink")),
         ("content_type", Str("application/model")), ("location", Str(""))])

  const BlankChangeLog: Value :=
    Obj([("filenamn", Str("Gerrit log")), ("version", Str("")), ("location", Str(""))])

  /** The reference "Add Source Reference" appends, numbered `n`. */
  function NewReference(n: nat): Value {
    Obj([("idx", Num(n)), ("name", Str("")), ("version", Str("")), ("location", Str("")),
         ("components", Arr([])), ("additional_information", Arr([])),
         ("regulatory_requirements", Arr([Str("N/A")])), ("change_log", BlankChangeLog)])
  }

  /** The artifact "Add Artifact" appends, numbered `n`. */
  function NewArtifact(n: nat): Value {
    Obj([("idx", Num(n)), ("name", Str("")), ("kind", Str("VBF file")), ("version", Str("")),
         ("location", Str("")), ("sha256", Str("")), ("target_platform", Str("SUM1")),
         ("buildtime_configurations", Arr([Obj([("cp", Str("VCTN")), ("cpv", Arr([Str("PRR")]))])])),
         ("source_references_idx", Arr([]))])
  }

  /* ---------------- list primitives ---------------- */

  /** `xs.splice(start, 1)`: a negative start counts from the end, a start
      past the end removes nothing. */
  function SpliceOne(xs: seq<Value>, start: int): (r: seq<Value>)
    ensures 0 <= start < |xs| ==> r == xs[..start] + xs[start + 1..]
    ensures start >= |xs| ==> r == xs
    ensures -|xs| <= start < 0 ==> r == xs[..|xs| + start] + xs[|xs| + start + 1..]
    ensures start < -|xs| && xs != [] ==> r == xs[1..]
  {
    var s := if start < 0 then (if |xs| + start < 0 then 0 else |xs| + start) else (if start > |xs| then |xs| else start);
    if s < |xs| then xs[..s] + xs[s + 1..] else xs
  }

  /** `[...v]` without a fallback: only arrays and strings are iterable, so
      spreading anything else (`null`, a number, a boolean, an object) throws. */
  function SpreadStrict(v: Value): (r: Result<seq<Value>, JsError>)
    ensures Nullish(v) ==> r.Err?
    ensures r.Err? <==> !v.Arr? && !v.Str?
    ensures v.Arr? ==> r == Ok(v.items)
    ensures v.Str? ==> r == Ok(Chars(v.s))
  {
    if !v.Arr? && !v.Str? then Err(TypeError) else SpreadItems(v)
  }

  /** What a handler does to the list `ref[key]` of one reference. */
  datatype ListEdit =
    | Append(item: Value)                                // `ref[key] = ref[key] || []; ref[key].push(item)`
    | RemoveAt(i: int)                                   // `ref[key].splice(i, 1)`
    | SetField(i: int, field: string, value: Value)      // `ref[key][i][field] = value`
    | Replace(i: int, item: Value)                       // `ref[key][i] = item`

  /** The list after the edit, or the `TypeError` the handler throws: reading
      a property of a missing element, `push` or `splice` on a non-array, or
      assigning a property of a non-object. */
  function EditItems(list: Value, e: ListEdit): (r: Result<seq<Value>, JsError>)
  {
    match e
    case Append(item) =>
      var xs := Or(list, Arr([]));
      if xs.Arr? then Ok(xs.items + [item]) else Err(TypeError)
    case RemoveAt(i) =>
      if list.Arr? then Ok(SpliceOne(list.items, i)) else Err(TypeError)
    case SetField(i, field, value) =>
      if list.Arr? && 0 <= i < |list.items| && list.items[i].Obj?
      then Ok(list.items[i := Obj(Put(list.items[i].fields, field, value))])
      else Err(TypeError)
    case Replace(i, item) =>
      if list.Arr? && 0 <= i < |list.items| then Ok(list.items[i := item]) else Err(TypeError)
  }

  /** One reference with its list `key` edited in place. */
  function EditList(ref: Value, key: string, e: ListEdit): (r: Result<Value, JsError>)
    ensures r.Ok? <==> ref.Obj? && EditItems(Get(ref.fields, key), e).Ok?
    ensures r.Ok? ==> r.value == Obj(Put(ref.fields, key, Arr(EditItems(Get(ref.fields, key), e).value)))
  {
    if !ref.Obj? then Err(TypeError)
    else
      var xs :- EditItems(Get(ref.fields, key), e);
      Ok(Obj(Put(ref.fields, key, Arr(xs))))
  }

  /** Appending an item and splicing out the last position gives back the
      reference, when its list was already an array. */
  lemma AppendThenRemoveLast(ref: Value, key: string, item: Value)
    requires ref.Obj? && Get(ref.fields, key).Arr?
    ensures var xs := Get(ref.fields, key).items;
      EditList(ref, key, Append(item)).Ok?
      && EditList(EditList(ref, key, Append(item)).value, key, RemoveAt(|xs|)) == Ok(ref)
  {
    var xs := Get(ref.fields, key).items;
    var list := Arr(xs + [item]);
    assert Or(Arr(xs), Arr([])) == Arr(xs);
    assert EditItems(Arr(xs), Append(item)) == Ok(xs + [item]);
    var added := Put(ref.fields, key, list);
    assert EditList(ref, key, Append(item)) == Ok(Obj(added));
    assert Get(added, key) == list;
    assert (xs + [item])[..|xs|] == xs && (xs + [item])[|xs| + 1..] == [];
    assert SpliceOne(xs + [item], |xs|) == xs;
    assert EditItems(list, RemoveAt(|xs|)) == Ok(xs);
    assert EditList(Obj(added), key, RemoveAt(|xs|)) == Ok(Obj(Put(added, key, Arr(xs))));
    PutTwice(ref.fields, key, list, Arr(xs));
    assert key in Keys(ref.fields);
    PutExisting(ref.fields, key);
  }

  /** `SetField` changes one field of one item: every other item, and every
      other field of that item, stays as it was. */
  lemma SetFieldChangesOneField(list: Value, i: int, field: string, value: Value)
    requires EditItems(list, SetField(i, field, value)).Ok?
    ensures var ys := EditItems(list, SetField(i, field, value)).value;
      && list.Arr? && |ys| == |list.items| && 0 <= i < |ys|
      && (forall j :: 0 <= j < |ys| && j != i ==> ys[j] == list.items[j])
      && ys[i].Obj? && Get(ys[i].fields, field) == value
      && (forall k :: k != field ==> Get(ys[i].fields, k) == Get(list.items[i].fields, k))
  {
  }

  /** Appending keeps the items and adds exactly one, at the end. */
  lemma AppendAddsOne(list: Value, item: Value)
    requires EditItems(list, Append(item)).Ok?
    ensures var ys := EditItems(list, Append(item)).value;
      && |ys| == |ArrayOrEmpty(list)| + 1 && ys[..|ys| - 1] == ArrayOrEmpty(list) && ys[|ys| - 1] == item
      && (list.Arr? || !Truthy(list))
  {
  }

  /* ---------------- the edited profile ---------------- */

  /** `[...(p.source_references || [])]` */
  function RefsOf(p: Fields): (r: Result<seq<Value>, JsError>) {
    SpreadItems(Get(p, "source_references"))
  }

  /** A handler on the reference at `refIdx`: copy the list, edit that
      reference in place, store `{...p, source_references: refs}`.  A
      missing reference throws. */
  function EditReference(p: Fields, refIdx: int, key: string, e: ListEdit): (r: Result<Fields, JsError>)
    ensures r.Err? <==>
      || RefsOf(p).Err? || !(0 <= refIdx < |RefsOf(p).value|)
      || EditList(RefsOf(p).value[refIdx], key, e).Err?
    ensures r.Ok? ==> forall k :: k != "source_references" ==> Get(r.value, k) == Get(p, k)
  {
    var refs :- RefsOf(p);
    if !(0 <= refIdx < |refs|) then Err(TypeError)
    else
      var ref' :- EditList(refs[refIdx], key, e);
      Ok(Put(p, "source_references", Arr(refs[refIdx := ref'])))
  }

  /** An edit of one reference's list changes nothing else: the other
      references, the other fields of that reference (its `idx` among them)
      and the other fields of the profile stay as they were, so the
      numbering of the references survives every such edit. */
  lemma EditReferenceLocal(p: Fields, refIdx: int, key: string, e: ListEdit)
    requires EditReference(p, refIdx, key, e).Ok?
    ensures RefsOf(p).Ok? && 0 <= refIdx < |RefsOf(p).value|
    ensures var q := EditReference(p, refIdx, key, e).value;
      var refs := RefsOf(p).value;
      && Get(q, "source_references").Arr?
      && |Get(q, "source_references").items| == |refs|
      && (forall j :: 0 <= j < |refs| && j != refIdx ==> Get(q, "source_references").items[j] == refs[j])
      && refs[refIdx].Obj? && Get(q, "source_references").items[refIdx].Obj?
      && (forall k :: k != key ==> Get(Get(q, "source_references").items[refIdx].fields, k) == Get(refs[refIdx].fields, k))
      && (forall k :: k != "source_references" ==> Get(q, k) == Get(p, k))
      && (key != "idx" && Renumbered(refs) ==> Renumbered(Get(q, "source_references").items))
  {
    var refs := RefsOf(p).value;
    var ref' := EditList(refs[refIdx], key, e).value;
    var ys := refs[refIdx := ref'];
    var q := Put(p, "source_references", Arr(ys));
    assert EditReference(p, refIdx, key, e) == Ok(q);
    EditListLocal(refs[refIdx], key, e);
    if key != "idx" && Renumbered(refs) {
      ReplaceKeepsNumbering(refs, refIdx, ref');
    }
  }

  /** Editing one list of a reference leaves its other fields alone. */
  lemma EditListLocal(ref: Value, key: string, e: ListEdit)
    requires EditList(ref, key, e).Ok?
    ensures ref.Obj? && EditList(ref, key, e).value.Obj?
    ensures forall k :: k != key ==> Get(EditList(ref, key, e).value.fields, k) == Get(ref.fields, k)
  {
  }

  /** Replacing an entry by one with the same `idx` keeps a list numbered. */
  lemma ReplaceKeepsNumbering(refs: seq<Value>, i: nat, ref': Value)
    requires i < |refs| && Renumbered(refs)
    requires ref'.Obj? && Get(ref'.fields, "idx") == Get(refs[i].fields, "idx")
    ensures Renumbered(refs[i := ref'])
  {
  }

  /** "Remove Source": splice the reference out and renumber the rest. */
  function RemoveReference(p: Fields, idx: int): (r: Result<Fields, JsError>)
    ensures r.Err? <==> RefsOf(p).Err?
    ensures r.Ok? ==>
      && Get(r.value, "source_references").Arr? && Renumbered(Get(r.value, "source_references").items)
      && |Get(r.value, "source_references").items| ==
           (if RefsOf(p).value != [] && idx < |RefsOf(p).value| then |RefsOf(p).value| - 1 else |RefsOf(p).value|)
      && forall k :: k != "source_references" ==> Get(r.value, k) == Get(p, k)
  {
    var refs :- RefsOf(p);
    Ok(Put(p, "source_references", Arr(Renumber(SpliceOne(refs, idx)))))
  }

  /** Removing a reference leaves the others in their order, numbered 1..N. */
  lemma RemoveReferenceRenumbers(p: Fields, idx: int)
    requires RemoveReference(p, idx).Ok? && 0 <= idx < |RefsOf(p).value|
    ensures var refs := RefsOf(p).value;
      var ys := Get(RemoveReference(p, idx).value, "source_references").items;
      && Get(RemoveReference(p, idx).value, "source_references").Arr?
      && |ys| == |refs| - 1 && Renumbered(ys)
      && (forall j, k :: 0 <= j < idx && k != "idx" ==> Get(ys[j].fields, k) == Get(Spread(refs[j]), k))
      && (forall j, k :: idx <= j < |ys| && k != "idx" ==> Get(ys[j].fields, k) == Get(Spread(refs[j + 1]), k))
  {
    var refs := RefsOf(p).value;
    var ys := Renumber(SpliceOne(refs, idx));
    assert RemoveReference(p, idx) == Ok(Put(p, "source_references", Arr(ys)));
    assert Get(RemoveReference(p, idx).value, "source_references") == Arr(ys);
    RenumberSpliced(refs, idx);
  }

  /** Splicing one reference out of a list and renumbering the rest. */
  lemma RenumberSpliced(refs: seq<Value>, idx: nat)
    requires idx < |refs|
    ensures var ys := Renumber(SpliceOne(refs, idx));
      && |ys| == |refs| - 1 && Renumbered(ys)
      && (forall j, k :: 0 <= j < idx && k != "idx" ==> Get(ys[j].fields, k) == Get(Spread(refs[j]), k))
      && (forall j, k :: idx <= j < |ys| && k != "idx" ==> Get(ys[j].fields, k) == Get(Spread(refs[j + 1]), k))
  {
    var kept := SpliceOne(refs, idx);
    var ys := Renumber(kept);
    forall j, k | 0 <= j < idx && k != "idx" ensures Get(ys[j].fields, k) == Get(Spread(refs[j]), k) {
      assert kept[j] == refs[j];
    }
    forall j, k | idx <= j < |ys| && k != "idx" ensures Get(ys[j].fields, k) == Get(Spread(refs[j + 1]), k) {
      assert kept[j] == refs[j + 1];
    }
  }

  /** "Add Source Reference": append a reference with the defaults, numbered
      after the existing ones, and renumber. */
  function AddReference(p: Fields): (r: Result<Fields, JsError>)
    ensures r.Err? <==> RefsOf(p).Err?
    ensures r.Ok? ==>
      && Get(r.value, "source_references").Arr? && Renumbered(Get(r.value, "source_references").items)
      && |Get(r.value, "source_references").items| == |RefsOf(p).value| + 1
      && forall k :: k != "source_references" ==> Get(r.value, k) == Get(p, k)
  {
    var existing :- RefsOf(p);
    Ok(Put(p, "source_references", Arr(Renumber(existing + [NewReference(|existing| + 1)]))))
  }

  /** The new reference is the last one, numbered N, with blank fields, one
      regulatory requirement `N/A` and the default change log; the list is
      numbered 1..N. */
  lemma AddReferenceAppends(p: Fields)
    requires AddReference(p).Ok?
    ensures var ys := Get(AddReference(p).value, "source_references").items;
      && Get(AddReference(p).value, "source_references").Arr?
      && |ys| == |RefsOf(p).value| + 1 && Renumbered(ys)
      && (forall k :: Get(ys[|ys| - 1].fields, k) == Get(NewReference(|ys|).fields, k))
      && Get(ys[|ys| - 1].fields, "regulatory_requirements") == Arr([Str("N/A")])
      && Get(ys[|ys| - 1].fields, "change_log") == BlankChangeLog
  {
    var existing := RefsOf(p).value;
    var n := |existing| + 1;
    NewReferenceFields(n);
    LastRenumbered(existing, NewReference(n));
  }

  lemma NewReferenceFields(n: nat)
    ensures var fs := NewReference(n).fields;
      && Get(fs, "idx") == Num(n)
      && Get(fs, "regulatory_requirements") == Arr([Str("N/A")])
      && Get(fs, "change_log") == BlankChangeLog
  {
    var fs := NewReference(n).fields;
    UniqueNewReference(n);
    GetAt(fs, 0);
    GetAt(fs, 6);
    GetAt(fs, 7);
  }

  lemma UniqueNewReference(n: nat)
    ensures UniqueKeys(NewReference(n).fields)
  {
  }

  /** The element appended before renumbering comes out last, numbered N,
      with its own other fields. */
  lemma LastRenumbered(xs: seq<Value>, x: Value)
    requires x.Obj?
    ensures var ys := Renumber(xs + [x]);
      |ys| == |xs| + 1 && Renumbered(ys)
      && forall k :: k != "idx" ==> Get(ys[|xs|].fields, k) == Get(x.fields, k)
  {
    assert (xs + [x])[|xs|] == x;
  }

  /** "Remove" on an artifact: `[...p.artifacts]` with the element spliced
      out; the artifacts are not renumbered. */
  function RemoveArtifact(p: Fields, idx: int): (r: Result<Fields, JsError>)
    ensures r.Err? <==> !Get(p, "artifacts").Arr? && !Get(p, "artifacts").Str?
    ensures r.Ok? && 0 <= idx < |SpreadStrict(Get(p, "artifacts")).value| ==>
      var arts := SpreadStrict(Get(p, "artifacts")).value;
      Get(r.value, "artifacts") == Arr(arts[..idx] + arts[idx + 1..])
    ensures r.Ok? ==> forall k :: k != "artifacts" ==> Get(r.value, k) == Get(p, k)
  {
    var arts :- SpreadStrict(Get(p, "artifacts"));
    Ok(Put(p, "artifacts", Arr(SpliceOne(arts, idx))))
  }

  /** "Add Artifact": append the default artifact numbered one past the
      current count. */
  function AddArtifact(p: Fields): (r: Result<Fields, JsError>)
    ensures r.Err? <==> SpreadItems(Get(p, "artifacts")).Err?
    ensures r.Ok? ==>
      var arts := SpreadItems(Get(p, "artifacts")).value;
      && Get(r.value, "artifacts").Arr? && |Get(r.value, "artifacts").items| == |arts| + 1
      && Get(r.value, "artifacts").items[..|arts|] == arts
      && Get(r.value, "artifacts").items[|arts|] == NewArtifact(|arts| + 1)
    ensures r.Ok? ==> forall k :: k != "artifacts" ==> Get(r.value, k) == Get(p, k)
  {
    var arts :- SpreadItems(Get(p, "artifacts"));
    Ok(Put(p, "artifacts", Arr(arts + [NewArtifact(|arts| + 1)])))
  }

  /** Adding an artifact to a numbered list keeps it numbered. */
  lemma AddArtifactNumbered(p: Fields)
    requires Get(p, "artifacts").Arr? && Renumbered(Get(p, "artifacts").items)
    ensures AddArtifact(p).Ok? && Renumbered(Get(AddArtifact(p).value, "artifacts").items)
  {
    var xs := Get(p, "artifacts").items;
    var x := NewArtifact(|xs| + 1);
    assert AddArtifact(p) == Ok(Put(p, "artifacts", Arr(xs + [x])));
    NewArtifactIdx(|xs| + 1);
    NumberedAppend(xs, x);
  }

  /** Removing an artifact keeps every survivor, and with it its own number. */
  lemma RemoveArtifactSplices(p: Fields, idx: int)
    requires Get(p, "artifacts").Arr? && 0 <= idx < |Get(p, "artifacts").items|
    ensures RemoveArtifact(p, idx).Ok?
    ensures var xs := Get(p, "artifacts").items;
      var ys := Get(RemoveArtifact(p, idx).value, "artifacts").items;
      |ys| == |xs| - 1 && (forall j :: 0 <= j < idx ==> ys[j] == xs[j]) && (forall j :: idx <= j < |ys| ==> ys[j] == xs[j + 1])
  {
    var xs := Get(p, "artifacts").items;
    var ys := xs[..idx] + xs[idx + 1..];
    assert RemoveArtifact(p, idx) == Ok(Put(p, "artifacts", Arr(ys)));
    assert Get(RemoveArtifact(p, idx).value, "artifacts") == Arr(ys);
    assert forall j :: 0 <= j < idx ==> ys[j] == xs[j];
    assert forall j :: idx <= j < |ys| ==> ys[j] == xs[j + 1];
  }

  lemma NewArtifactIdx(n: nat)
    ensures Get(NewArtifact(n).fields, "idx") == Num(n)
  {
  }

  lemma NumberedAppend(xs: seq<Value>, x: Value)
    requires Renumbered(xs) && x.Obj? && Get(x.fields, "idx") == Num(|xs| + 1)
    ensures Renumbered(xs + [x])
  {
    assert forall j :: 0 <= j < |xs| ==> (xs + [x])[j] == xs[j];
  }

  /* ---------------- the package-id field ---------------- */

  /** The position of the first character that is not a digit. */
  function FirstNonDigit(s: string): (i: nat)
    requires !AllDigits(s)
    ensures i < |s| && AllDigits(s[..i]) && !IsDigit(s[i])
  {
    if !IsDigit(s[0]) then 0
    else
      var j := FirstNonDigit(s[1..]);
      assert s[..j + 1] == [s[0]] + s[1..][..j];
      j + 1
  }

  /** `value.replace(/\D/, "")`: the first character that is not a digit is
      removed; without the `g` flag, later ones stay. */
  function FilterId(s: string): (r: string)
    ensures AllDigits(s) ==> r == s
    ensures !AllDigits(s) ==> r == s[..FirstNonDigit(s)] + s[FirstNonDigit(s) + 1..]
  {
    if s == [] then []
    else if !IsDigit(s[0]) then s[1..]
    else
      var rest := FilterId(s[1..]);
      assert AllDigits(s) <==> AllDigits(s[1..]) by {
        assert forall i :: 1 <= i < |s| ==> s[i] == s[1..][i - 1];
      }
      assert !AllDigits(s) ==>
        var j := FirstNonDigit(s[1..]);
        && FirstNonDigit(s) == j + 1
        && s[..j + 1] == [s[0]] + s[1..][..j]
        && s[j + 2..] == s[1..][j + 1..];
      [s[0]] + rest
  }

  /** Typing one character into a field that holds only digits leaves only
      digits, wherever the character goes: the filter keeps the field numeric
      keystroke by keystroke. */
  lemma FilterIdAfterKeystroke(digits: string, i: nat, c: char)
    requires AllDigits(digits) && i <= |digits|
    ensures FilterId(digits[..i] + [c] + digits[i..]) == (if IsDigit(c) then digits[..i] + [c] + digits[i..] else digits)
  {
    var s := digits[..i] + [c] + digits[i..];
    assert s[..i] == digits[..i] && s[i] == c && s[i + 1..] == digits[i..];
    if IsDigit(c) {
      assert AllDigits(s) by {
        forall k | 0 <= k < |s| ensures IsDigit(s[k]) {
          if k < i { assert s[k] == digits[k]; } else if k > i { assert s[k] == digits[k - 1]; }
        }
      }
    } else {
      FirstNonDigitUnique(s, i);
      assert digits[..i] + digits[i..] == digits;
    }
  }

  /** The first non-digit is the one after a run of digits. */
  lemma FirstNonDigitUnique(s: string, i: nat)
    requires i < |s| && AllDigits(s[..i]) && !IsDigit(s[i])
    ensures FirstNonDigit(s) == i
  {
  }

  /** Text with two non-digits keeps the second: `"a1b"` becomes `"1b"`. */
  lemma FilterIdKeepsLaterNonDigits()
    ensures FilterId("a1b") == "1b"
  {
    assert !IsDigit('a');
    assert "a1b"[1..] == "1b";
  }

  /* ---------------- CarWeaver refresh ---------------- */

  /** `String(v)` when `v != null`, else the fallback. */
  function VersionText(v: Value, fallback: Value): (r: Value)
    ensures !Nullish(v) ==> r == Str(JsString(v))
    ensures Nullish(v) ==> r == fallback
  {
    if Nullish(v) then fallback else Str(JsString(v))
  }

  /** `{...comp, id: data.id ?? comp.id ?? "", persistent_id: data.persistent_id ?? "",
      version: data.version != null ? String(data.version) : ""}` */
  function MergeComponent(comp: Value, data: Value): (r: Value)
    ensures r.Obj?
  {
    Obj(Put(Put(Put(Spread(comp), "id", Coalesce(Coalesce(OptProp(data, "id"), OptProp(comp, "id")), Str(""))),
                "persistent_id", Coalesce(OptProp(data, "persistent_id"), Str(""))),
            "version", VersionText(OptProp(data, "version"), Str(""))))
  }

  /** The merged component takes CarWeaver's id, else keeps its own, else is
      blank; takes CarWeaver's persistent id or a blank one; takes the text
      of CarWeaver's version or a blank one; every other field is kept. */
  lemma MergedComponent(comp: Value, data: Value)
    ensures var fs := MergeComponent(comp, data).fields;
      && Get(fs, "id") == (if !Nullish(OptProp(data, "id")) then OptProp(data, "id")
                           else if !Nullish(OptProp(comp, "id")) then OptProp(comp, "id") else Str(""))
      && Get(fs, "persistent_id") == (if !Nullish(OptProp(data, "persistent_id")) then OptProp(data, "persistent_id") else Str(""))
      && (!Nullish(OptProp(data, "version")) ==> Get(fs, "version") == Str(JsString(OptProp(data, "version"))))
      && (Nullish(OptProp(data, "version")) ==> Get(fs, "version") == Str(""))
      && forall k :: k != "id" && k != "persistent_id" && k != "version" ==> Get(fs, k) == Get(Spread(comp), k)
  {
    var id := Coalesce(Coalesce(OptProp(data, "id"), OptProp(comp, "id")), Str(""));
    var pid := Coalesce(OptProp(data, "persistent_id"), Str(""));
    var version := VersionText(OptProp(data, "version"), Str(""));
    var fs := MergeComponent(comp, data).fields;
    assert fs == Put(Put(Put(Spread(comp), "id", id), "persistent_id", pid), "version", version);
    GetAfterThree(Spread(comp), "id", id, "persistent_id", pid, "version", version, "id");
    GetAfterThree(Spread(comp), "id", id, "persistent_id", pid, "version", version, "persistent_id");
    GetAfterThree(Spread(comp), "id", id, "persistent_id", pid, "version", version, "version");
    forall k | k != "id" && k != "persistent_id" && k != "version"
      ensures Get(fs, k) == Get(Spread(comp), k)
    {
      GetAfterThree(Spread(comp), "id", id, "persistent_id", pid, "version", version, k);
    }
  }

  /** `{...gpm, id: data.id ?? gpm.id ?? "", version: data.version != null
      ? String(data.version) : gpm.version ?? ""}` */
  function MergeGpm(gpm: Value, data: Value): (r: Value)
    ensures r.Obj?
  {
    Obj(Put(Put(Spread(gpm), "id", Coalesce(Coalesce(OptProp(data, "id"), OptProp(gpm, "id")), Str(""))),
            "version", VersionText(OptProp(data, "version"), Coalesce(OptProp(gpm, "version"), Str("")))))
  }

  /** The merged module takes CarWeaver's id and version when it has them,
      else keeps its own, else blanks them; its location and every other
      field are kept. */
  lemma MergedGpm(gpm: Value, data: Value)
    ensures var fs := MergeGpm(gpm, data).fields;
      && Get(fs, "id") == (if !Nullish(OptProp(data, "id")) then OptProp(data, "id")
                           else if !Nullish(OptProp(gpm, "id")) then OptProp(gpm, "id") else Str(""))
      && Get(fs, "version") == (if !Nullish(OptProp(data, "version")) then Str(JsString(OptProp(data, "version")))
                                else if !Nullish(OptProp(gpm, "version")) then OptProp(gpm, "version") else Str(""))
      && forall k :: k != "id" && k != "version" ==> Get(fs, k) == Get(Spread(gpm), k)
  {
  }

  /** How a refresh ends: no location to look up, an error (caught and
      shown), or the merged answer stored. */
  datatype Refresh = NoLocation | Failed | Updated

  /** The lookup a refresh button sends: the parsed body, `None` on failure. */
  type Lookup = string -> Option<Value>

  /** `updateGpmFromCarWeaver`: the outcome and the new profile. */
  function RefreshGpm(p: Fields, lookup: Lookup): (r: (Refresh, Fields))
    ensures r.0 != Updated ==> r.1 == p
    ensures r.0 == NoLocation <==> TrimOrBlank(OptProp(Get(p, "generic_product_module"), "location")) == Ok([])
  {
    var gpm := Get(p, "generic_product_module");
    match TrimOrBlank(OptProp(gpm, "location"))
    case Err(_) => (Failed, p)
    case Ok(loc) =>
      if loc == [] then (NoLocation, p)
      else match lookup(loc)
        case None => (Failed, p)
        case Some(data) =>
          if Nullish(data) then (Failed, p)
          else (Updated, Put(p, "generic_product_module", MergeGpm(gpm, data)))
  }

  /** A successful module refresh looks up the module's trimmed location
      and stores the merge of the module with the answer; every other
      profile field stays. */
  lemma RefreshGpmMerges(p: Fields, lookup: Lookup)
    requires RefreshGpm(p, lookup).0 == Updated
    ensures var gpm := Get(p, "generic_product_module");
      var loc := TrimOrBlank(OptProp(gpm, "location"));
      && loc.Ok? && loc.value != [] && lookup(loc.value).Some? && !Nullish(lookup(loc.value).value)
      && RefreshGpm(p, lookup).1 == Put(p, "generic_product_module", MergeGpm(gpm, lookup(loc.value).value))
  {
  }

  /** The reference at `refIdx` and its component at `compIdx`, as the
      component refresh reads them; `None` when reading them throws. */
  function ComponentAt(p: Fields, refIdx: int, compIdx: int): (r: Option<(Value, Value)>)
    ensures r.Some? ==> r.value.0.Obj?
    ensures r.Some? ==>
      && RefsOf(p).Ok? && 0 <= refIdx < |RefsOf(p).value| && r.value.0 == RefsOf(p).value[refIdx]
      && var comps := Get(r.value.0.fields, "components");
      && comps.Arr? && 0 <= compIdx < |comps.items| && r.value.1 == comps.items[compIdx]
      && !Nullish(r.value.1)
    ensures RefsOf(p).Err? || refIdx < 0 ==> r.None?
  {
    match RefsOf(p)
    case Err(_) => None
    case Ok(refs) =>
      if !(0 <= refIdx < |refs|) || !refs[refIdx].Obj? then None
      else
        var comps := Get(refs[refIdx].fields, "components");
        if !comps.Arr? || !(0 <= compIdx < |comps.items|) || Nullish(comps.items[compIdx]) then None
        else Some((refs[refIdx], comps.items[compIdx]))
  }

  /** `(comp.location || ref.location || "").trim()` */
  function Locator(ref: Value, comp: Value): (r: Result<string, JsError>)
    ensures Truthy(OptProp(comp, "location")) && OptProp(comp, "location").Str? ==> r == Ok(Trim(OptProp(comp, "location").s))
    ensures !Truthy(OptProp(comp, "location")) && OptProp(ref, "location").Str? ==> r == Ok(Trim(OptProp(ref, "location").s))
  {
    TrimOrBlank(Or(OptProp(comp, "location"), OptProp(ref, "location")))
  }

  /** `updateComponentFromCarWeaver(refIdx, compIdx)`: the outcome and the
      new profile. */
  function RefreshComponent(p: Fields, refIdx: int, compIdx: int, lookup: Lookup): (r: (Refresh, Fields))
    ensures r.0 != Updated ==> r.1 == p
  {
    match ComponentAt(p, refIdx, compIdx)
    case None => (Failed, p)
    case Some((ref, comp)) =>
      match Locator(ref, comp)
      case Err(_) => (Failed, p)
      case Ok(loc) =>
        if loc == [] then (NoLocation, p)
        else match lookup(loc)
          case None => (Failed, p)
          case Some(data) =>
            if Nullish(data) then (Failed, p)
            else match EditReference(p, refIdx, "components", Replace(compIdx, MergeComponent(comp, data)))
              case Err(_) => (Failed, p)
              case Ok(q) => (Updated, q)
  }

  /** A successful component refresh replaces exactly that component by the
      merge of it with the answer to its locator; every other component,
      reference and profile field stays. */
  lemma RefreshComponentMerges(p: Fields, refIdx: int, compIdx: int, lookup: Lookup)
    requires RefreshComponent(p, refIdx, compIdx, lookup).0 == Updated
    ensures ComponentAt(p, refIdx, compIdx).Some?
    ensures var (ref, comp) := ComponentAt(p, refIdx, compIdx).value;
      && Locator(ref, comp).Ok? && Locator(ref, comp).value != []
      && lookup(Locator(ref, comp).value).Some?
      && var data := lookup(Locator(ref, comp).value).value;
      RefreshComponent(p, refIdx, compIdx, lookup).1
        == EditReference(p, refIdx, "components", Replace(compIdx, MergeComponent(comp, data))).value
  {
  }

  /** The numbering invariant of the reference list. */
  predicate RefsNumbered(p: Fields) {
    Get(p, "source_references").Arr? && Renumbered(Get(p, "source_references").items)
  }

  /** The profile being edited. */
  class Editor {
    var profile: Fields

    /** `useState(() => initial ?? EMPTY_PROFILE())` */
    constructor(initial: Option<Fields>)
      ensures initial.Some? ==> profile == initial.value
      ensures initial.None? ==> profile == EmptyProfile().fields
    {
      profile := if initial.Some? then initial.value else EmptyProfile().fields;
    }

    /** The common body of the list handlers: copy the references, edit the
        one at `refIdx` in place, store the copy. */
    method EditRef(refIdx: int, key: string, e: ListEdit) returns (r: Result<(), JsError>)
      modifies this
      ensures r.Ok? <==> EditReference(old(profile), refIdx, key, e).Ok?
      ensures r.Ok? ==> profile == EditReference(old(profile), refIdx, key, e).value
      ensures r.Err? ==> profile == old(profile)
    {
      var refs :- RefsOf(profile);
      if !(0 <= refIdx < |refs|) {
        return Err(TypeError);
      }
      var ref' :- EditList(refs[refIdx], key, e);
      refs := refs[refIdx := ref'];
      profile := Put(profile, "source_references", Arr(refs));
      r := Ok(());
    }

    /** `addComponent(refIdx)` */
    method AddComponent(refIdx: int) returns (r: Result<(), JsError>)
      modifies this
      ensures r.Ok? <==> EditReference(old(profile), refIdx, "components", Append(BlankComponent)).Ok?
      ensures r.Ok? ==> profile == EditReference(old(profile), refIdx, "components", Append(BlankComponent)).value
      ensures r.Err? ==> profile == old(profile)
      ensures RefsNumbered(old(profile)) && r.Ok? ==> RefsNumbered(profile)
    {
      r := EditRef(refIdx, "components", Append(BlankComponent));
      if r.Ok? && RefsNumbered(old(profile)) {
        EditReferenceLocal(old(profile), refIdx, "components", Append(BlankComponent));
      }
    }

    /** `removeComponent(refIdx, compIdx)` */
    method RemoveComponent(refIdx: int, compIdx: int) returns (r: Result<(), JsError>)
      modifies this
      ensures r.Ok? <==> EditReference(old(profile), refIdx, "components", RemoveAt(compIdx)).Ok?
      ensures r.Ok? ==> profile == EditReference(old(profile), refIdx, "components", RemoveAt(compIdx)).value
      ensures r.Err? ==> profile == old(profile)
      ensures RefsNumbered(old(profile)) && r.Ok? ==> RefsNumbered(profile)
    {
      r := EditRef(refIdx, "components", RemoveAt(compIdx));
      if r.Ok? && RefsNumbered(old(profile)) {
        EditReferenceLocal(old(profile), refIdx, "components", RemoveAt(compIdx));
      }
    }

    /** `updateComponentField(refIdx, compIdx, field, value)` */
    method UpdateComponentField(refIdx: int, compIdx: int, field: string, value: Value) returns (r: Result<(), JsError>)
      modifies this
      ensures r.Ok? <==> EditReference(old(profile), refIdx, "components", SetField(compIdx, field, value)).Ok?
      ensures r.Ok? ==> profile == EditReference(old(profile), refIdx, "components", SetField(compIdx, field, value)).value
      ensures r.Err? ==> profile == old(profile)
      ensures RefsNumbered(old(profile)) && r.Ok? ==> RefsNumbered(profile)
    {
      r := EditRef(refIdx, "components", SetField(compIdx, field, value));
      if r.Ok? && RefsNumbered(old(profile)) {
        EditReferenceLocal(old(profile), refIdx, "components", SetField(compIdx, field, value));
      }
    }

    /** "Add Additional Information" on the reference at `refIdx`. */
    method AddInfo(refIdx: int) returns (r: Result<(), JsError>)
      modifies this
      ensures r.Ok? <==> EditReference(old(profile), refIdx, "additional_information", Append(BlankInfo)).Ok?
      ensures r.Ok? ==> profile == EditReference(old(profile), refIdx, "additional_information", Append(BlankInfo)).value
      ensures r.Err? ==> profile == old(profile)
      ensures RefsNumbered(old(profile)) && r.Ok? ==> RefsNumbered(profile)
    {
      r := EditRef(refIdx, "additional_information", Append(BlankInfo));
      if r.Ok? && RefsNumbered(old(profile)) {
        EditReferenceLocal(old(profile), refIdx, "additional_information", Append(BlankInfo));
      }
    }

    /** "Remove" on an additional-information entry. */
    method RemoveInfo(refIdx: int, infoIdx: int) returns (r: Result<(), JsError>)
      modifies this
      ensures r.Ok? <==> EditReference(old(profile), refIdx, "additional_information", RemoveAt(infoIdx)).Ok?
      ensures r.Ok? ==> profile == EditReference(old(profile), refIdx, "additional_information", RemoveAt(infoIdx)).value
      ensures r.Err? ==> profile == old(profile)
      ensures RefsNumbered(old(profile)) && r.Ok? ==> RefsNumbered(profile)
    {
      r := EditRef(refIdx, "additional_information", RemoveAt(infoIdx));
      if r.Ok? && RefsNumbered(old(profile)) {
        EditReferenceLocal(old(profile), refIdx, "additional_information", RemoveAt(infoIdx));
      }
    }

    /** "Remove Source" on the reference at `idx`. */
    method RemoveSourceReference(idx: int) returns (r: Result<(), JsError>)
      modifies this
      ensures r.Ok? <==> RemoveReference(old(profile), idx).Ok?
      ensures r.Ok? ==> profile == RemoveReference(old(profile), idx).value && RefsNumbered(profile)
      ensures r.Err? ==> profile == old(profile)
    {
      var refs :- RefsOf(profile);
      refs := SpliceOne(refs, idx);
      profile := Put(profile, "source_references", Arr(Renumber(refs)));
      r := Ok(());
    }

    /** "Add Source Reference". */
    method AddSourceReference() returns (r: Result<(), JsError>)
      modifies this
      ensures r.Ok? <==> AddReference(old(profile)).Ok?
      ensures r.Ok? ==> profile == AddReference(old(profile)).value
      ensures r.Err? ==> profile == old(profile)
    {
      var next := AddReference(profile);
      if next.Err? {
        return Err(next.error);
      }
      profile := next.value;
      r := Ok(());
    }

    /** "Remove" on the artifact at `idx`. */
    method RemoveArtifactAt(idx: int) returns (r: Result<(), JsError>)
      modifies this
      ensures r.Ok? <==> RemoveArtifact(old(profile), idx).Ok?
      ensures r.Ok? ==> profile == RemoveArtifact(old(profile), idx).value
      ensures r.Err? ==> profile == old(profile)
    {
      var arr :- SpreadStrict(Get(profile, "artifacts"));
      arr := SpliceOne(arr, idx);
      profile := Put(profile, "artifacts", Arr(arr));
      r := Ok(());
    }

    /** "Add Artifact". */
    method AddArtifactAtEnd() returns (r: Result<(), JsError>)
      modifies this
      ensures r.Ok? <==> AddArtifact(old(profile)).Ok?
      ensures r.Ok? ==> profile == AddArtifact(old(profile)).value
      ensures r.Err? ==> profile == old(profile)
    {
      var next := AddArtifact(profile);
      if next.Err? {
        return Err(next.error);
      }
      profile := next.value;
      r := Ok(());
    }

    /** The package-id input. */
    method SetPackageId(typed: string)
      modifies this
      ensures profile == Put(old(profile), "sw_package_id", Str(FilterId(typed)))
    {
      profile := Put(profile, "sw_package_id", Str(FilterId(typed)));
    }

    /** "Update from CarWeaver" on the generic product module. */
    method UpdateGpmFromCarWeaver(lookup: Lookup) returns (o: Refresh)
      modifies this
      ensures (o, profile) == RefreshGpm(old(profile), lookup)
    {
      var gpm := Get(profile, "generic_product_module");
      var loc := TrimOrBlank(OptProp(gpm, "location"));
      if loc.Err? {
        return Failed;
      }
      if loc.value == [] {
        return NoLocation;
      }
      var data := lookup(loc.value);
      if data.None? || Nullish(data.value) {
        return Failed;
      }
      profile := Put(profile, "generic_product_module", MergeGpm(gpm, data.value));
      o := Updated;
    }

    /** "Update from CarWeaver" on one component. */
    method UpdateComponentFromCarWeaver(refIdx: int, compIdx: int, lookup: Lookup) returns (o: Refresh)
      modifies this
      ensures (o, profile) == RefreshComponent(old(profile), refIdx, compIdx, lookup)
      ensures RefsNumbered(old(profile)) ==> RefsNumbered(profile)
    {
      var at := ComponentAt(profile, refIdx, compIdx);
      if at.None? {
        return Failed;
      }
      var (ref, comp) := at.value;
      var loc := Locator(ref, comp);
      if loc.Err? {
        return Failed;
      }
      if loc.value == [] {
        return NoLocation;
      }
      var data := lookup(loc.value);
      if data.None? || Nullish(data.value) {
        return Failed;
      }
      var merged := MergeComponent(comp, data.value);
      var r := EditRef(refIdx, "components", Replace(compIdx, merged));
      if r.Err? {
        return Failed;
      }
      if RefsNumbered(old(profile)) {
        EditReferenceLocal(old(profile), refIdx, "components", Replace(compIdx, merged));
      }
      o := Updated;
    }
  }

  /** `EMPTY_PROFILE()` */
  function EmptyProfile(): (r: Value)
    ensures r.Obj? && Keys(r.fields) == ProfileKeys
  {
    Obj([("sw_package_id", Str("")), ("profile_name", Str("")), ("generic_product_module", BlankGpm),
         ("source_references", Arr([])), ("swad", Arr([])), ("swdd", Arr([])), ("artifacts", Arr([]))])
  }
}
