/** The value utilities of the browser client (frontend/src/utils/profile.js):
    renumbering of source references, the two key orderings used for display
    and the filling of empty `version` fields.  The Python backend repeats the
    renumbering and the filling; its filling differs only in what counts as an
    empty version, so both are one definition with a `Dialect`. */
module ProfileUtils {
  import opened Wrappers
  import opened JsonValue

  /* ---------------- renumbering ---------------- */

  /** Every element is an object whose `idx` is its 1-based position. */
  predicate Renumbered(xs: seq<Value>) {
    forall i :: 0 <= i < |xs| ==> xs[i].Obj? && Get(xs[i].fields, "idx") == Num(i + 1)
  }

  /** `refs.map((r, i) => ({...r, idx: i + 1}))`, and the Python comprehension
      `[{**r, "idx": i + 1} for i, r in enumerate(refs)]`. */
  function Renumber(refs: seq<Value>): (r: seq<Value>)
    ensures |r| == |refs|
    ensures Renumbered(r)
    ensures forall i, k :: 0 <= i < |r| && k != "idx" ==> Get(r[i].fields, k) == Get(Spread(refs[i]), k)
  {
    var r := seq(|refs|, i requires 0 <= i < |refs| => WithIdx(refs[i], i));
    assert forall i :: 0 <= i < |refs| ==> r[i] == WithIdx(refs[i], i);
    r
  }

  /** Renumbering gives an object its position and keeps its other fields. */
  lemma RenumberAt(xs: seq<Value>, i: nat)
    requires i < |xs| && xs[i].Obj?
    ensures Renumber(xs)[i].Obj? && Get(Renumber(xs)[i].fields, "idx") == Num(i + 1)
    ensures forall k :: k != "idx" ==> Get(Renumber(xs)[i].fields, k) == Get(xs[i].fields, k)
  {
  }

  /** `{...ref, idx: i + 1}` */
  function WithIdx(ref: Value, i: nat): (r: Value)
    ensures r.Obj? && Get(r.fields, "idx") == Num(i + 1)
    ensures forall k :: k != "idx" ==> Get(r.fields, k) == Get(Spread(ref), k)
  {
    Obj(Put(Spread(ref), "idx", Num(i + 1)))
  }

  /** Renumbering a renumbered list changes nothing. */
  lemma RenumberIdempotent(refs: seq<Value>)
    ensures Renumber(Renumber(refs)) == Renumber(refs)
  {
    var once := Renumber(refs);
    forall i | 0 <= i < |refs| ensures Renumber(once)[i] == once[i] {
      PutPutSame(Spread(refs[i]), "idx", Num(i + 1));
    }
  }

  /** Renumbering a list whose elements already carry their positions changes nothing. */
  lemma RenumberRenumbered(refs: seq<Value>)
    requires Renumbered(refs)
    ensures Renumber(refs) == refs
  {
    forall i | 0 <= i < |refs| ensures Renumber(refs)[i] == refs[i] {
      assert "idx" in Keys(refs[i].fields);
      PutExisting(refs[i].fields, "idx");
    }
  }

  /** `renumberSourceReferences(refs)`: `(refs || []).map(...)`. */
  function RenumberSourceReferences(refs: Value): (r: Result<Value, JsError>)
    ensures !Truthy(refs) ==> r == Ok(Arr([]))
    ensures r.Ok? ==> r.value.Arr? && Renumbered(r.value.items)
    ensures refs.Arr? ==> r.Ok? && |r.value.items| == |refs.items|
    ensures r.Err? <==> Truthy(refs) && !refs.Arr?
  {
    var items :- ItemsOrEmpty(refs);
    Ok(Arr(Renumber(items)))
  }

  /* ---------------- key orderings ---------------- */

  const ProfileKeys: seq<string> :=
    ["sw_package_id", "profile_name", "generic_product_module", "source_references", "swad", "swdd", "artifacts"]

  /** The four collections of a profile. */
  const ProfileLists: seq<string> := ["source_references", "swad", "swdd", "artifacts"]

  const BlankGpm: Value := Obj([("location", Str("")), ("id", Str("")), ("version", Str(""))])

  /** `Array.isArray(p.k) ? p.k : []` */
  function ListProp(p: Value, k: string): Value {
    Arr(ArrayOrEmpty(OptProp(p, k)))
  }

  /** `orderProfileForDisplay(p = {})`: exactly the seven profile keys in a
      fixed order; unknown keys are dropped. */
  function OrderProfileForDisplay(p: Value): (r: Result<Value, JsError>)
    ensures r.Err? <==> p.Null?
    ensures r.Ok? ==> r.value.Obj? && Keys(r.value.fields) == ProfileKeys
  {
    if p.Null? then Err(TypeError)
    else
      Ok(Obj([
        ("sw_package_id", Coalesce(OptProp(p, "sw_package_id"), Str(""))),
        ("profile_name", Coalesce(OptProp(p, "profile_name"), Str(""))),
        ("generic_product_module", Coalesce(OptProp(p, "generic_product_module"), BlankGpm)),
        ("source_references", ListProp(p, "source_references")),
        ("swad", ListProp(p, "swad")),
        ("swdd", ListProp(p, "swdd")),
        ("artifacts", ListProp(p, "artifacts"))
      ]))
  }

  lemma ProfileKeysDistinct()
    ensures forall i, j :: 0 <= i < j < |ProfileKeys| ==> ProfileKeys[i] != ProfileKeys[j]
  {
  }

  lemma OrderProfileUnique(p: Value)
    requires !p.Null?
    ensures UniqueKeys(OrderProfileForDisplay(p).value.fields)
  {
    ProfileKeysDistinct();
  }

  /** Each field of the ordered profile, read by name (a proof helper). */
  lemma OrderProfileRead(p: Value)
    requires !p.Null?
    ensures var q := OrderProfileForDisplay(p).value.fields;
      && Get(q, "sw_package_id") == Coalesce(OptProp(p, "sw_package_id"), Str(""))
      && Get(q, "profile_name") == Coalesce(OptProp(p, "profile_name"), Str(""))
      && Get(q, "generic_product_module") == Coalesce(OptProp(p, "generic_product_module"), BlankGpm)
      && Get(q, "source_references") == ListProp(p, "source_references")
      && Get(q, "swad") == ListProp(p, "swad")
      && Get(q, "swdd") == ListProp(p, "swdd")
      && Get(q, "artifacts") == ListProp(p, "artifacts")
  {
    var q := OrderProfileForDisplay(p).value.fields;
    OrderProfileUnique(p);
    GetAt(q, 0);
    GetAt(q, 1);
    GetAt(q, 2);
    GetAt(q, 3);
    GetAt(q, 4);
    GetAt(q, 5);
    GetAt(q, 6);
  }

  /** The ordered profile keeps every field the input carries with a usable
      value: a non-nullish id, name and product module, and the four lists
      when they are arrays.  A missing one gets its blank default: `""` for
      the id and the name, the blank product module, `[]` for a list. */
  lemma OrderProfileFields(p: Value)
    requires !p.Null?
    ensures var q := OrderProfileForDisplay(p).value.fields;
      && Get(q, "sw_package_id") == (if Nullish(OptProp(p, "sw_package_id")) then Str("") else OptProp(p, "sw_package_id"))
      && Get(q, "profile_name") == (if Nullish(OptProp(p, "profile_name")) then Str("") else OptProp(p, "profile_name"))
      && Get(q, "generic_product_module") ==
           (if Nullish(OptProp(p, "generic_product_module")) then BlankGpm else OptProp(p, "generic_product_module"))
    ensures var q := OrderProfileForDisplay(p).value.fields;
      forall i :: 3 <= i < |ProfileKeys| ==>
        Get(q, ProfileKeys[i]) == (if OptProp(p, ProfileKeys[i]).Arr? then OptProp(p, ProfileKeys[i]) else Arr([]))
  {
    OrderProfileRead(p);
    var q := OrderProfileForDisplay(p).value.fields;
    forall i | 3 <= i < |ProfileKeys|
      ensures Get(q, ProfileKeys[i]) == (if OptProp(p, ProfileKeys[i]).Arr? then OptProp(p, ProfileKeys[i]) else Arr([]))
    {
      assert ProfileKeys[i] in ["source_references", "swad", "swdd", "artifacts"];
    }
  }

  /** Ordering an ordered profile again changes nothing. */
  lemma OrderProfileIdempotent(p: Value)
    requires !p.Null?
    ensures OrderProfileForDisplay(OrderProfileForDisplay(p).value) == OrderProfileForDisplay(p)
  {
    var q := OrderProfileForDisplay(p).value;
    OrderProfileRead(p);
    assert Coalesce(OptProp(q, "sw_package_id"), Str("")) == OptProp(q, "sw_package_id");
    assert Coalesce(OptProp(q, "profile_name"), Str("")) == OptProp(q, "profile_name");
    assert Coalesce(OptProp(q, "generic_product_module"), BlankGpm) == OptProp(q, "generic_product_module");
    assert ListProp(q, "source_references") == OptProp(q, "source_references");
    assert ListProp(q, "swad") == OptProp(q, "swad");
    assert ListProp(q, "swdd") == OptProp(q, "swdd");
    assert ListProp(q, "artifacts") == OptProp(q, "artifacts");
  }

  const GeneratedKeys: seq<string> :=
    ["sw_package_id", "sw_package_version", "sw_package_type", "generic_product_module",
     "source_references", "swad", "swdd", "artifacts", "sw_version"]

  /** The keys `orderGeneratedForDisplay` emits only when their value is defined. */
  const OptionalGeneratedKeys: seq<string> := ["sw_package_version", "sw_package_type", "sw_version"]

  /** The known fields of `fs` in the order of `ks`: `{k}` for a key that is
      always emitted, `...(v !== undefined && { k: v })` for an optional one. */
  function PickKnown(fs: Fields, ks: seq<string>): (r: Fields)
    ensures forall k :: k in Keys(r) ==> k in ks
    decreases |ks|
  {
    if ks == [] then []
    else
      var k, v := ks[0], Get(fs, ks[0]);
      var head := if k in OptionalGeneratedKeys && v.Undefined? then [] else [(k, v)];
      KeysConcat(head, PickKnown(fs, ks[1..]));
      head + PickKnown(fs, ks[1..])
  }

  /** A listed key reads the same in the picked fields as in the original. */
  lemma {:induction false} PickKnownGet(fs: Fields, ks: seq<string>, k: string)
    requires Distinct(ks) && k in ks
    ensures Get(PickKnown(fs, ks), k) == Get(fs, k)
    decreases |ks|
  {
    var k0, v := ks[0], Get(fs, ks[0]);
    var head := if k0 in OptionalGeneratedKeys && v.Undefined? then [] else [(k0, v)];
    var rest := PickKnown(fs, ks[1..]);
    GetAppend(head, rest, k);
    if k == k0 {
      if head == [] {
        assert k !in ks[1..];
      }
    } else {
      PickKnownGet(fs, ks[1..], k);
    }
  }

  /** The picked fields have distinct keys; a listed key is present unless it
      is optional and undefined. */
  lemma {:induction false} PickKnownKeys(fs: Fields, ks: seq<string>)
    requires Distinct(ks)
    ensures UniqueKeys(PickKnown(fs, ks))
    ensures forall k :: k in ks ==>
      (k in Keys(PickKnown(fs, ks)) <==> !(k in OptionalGeneratedKeys && Get(fs, k).Undefined?))
    decreases |ks|
  {
    if ks != [] {
      var k0, v := ks[0], Get(fs, ks[0]);
      var head := if k0 in OptionalGeneratedKeys && v.Undefined? then [] else [(k0, v)];
      var rest := PickKnown(fs, ks[1..]);
      PickKnownKeys(fs, ks[1..]);
      KeysConcat(head, rest);
      assert k0 !in ks[1..];
      if head != [] {
        UniqueKeysCons(head + rest);
        assert (head + rest)[1..] == rest;
      } else {
        assert head + rest == rest;
      }
    }
  }

  lemma GeneratedKeysDistinct()
    ensures Distinct(GeneratedKeys)
  {
  }

  /** `orderGeneratedForDisplay(obj = {})`: the known keys in fixed order,
      then `{...ordered, ...rest}` with the remaining keys in their order. */
  function OrderGeneratedForDisplay(obj: Value): (r: Result<Value, JsError>)
    ensures r.Err? <==> obj.Null?
    ensures r.Ok? ==> r.value.Obj?
  {
    if obj.Null? then Err(TypeError)
    else
      var fs := Spread(obj);
      Ok(Obj(Merge(PickKnown(fs, GeneratedKeys), Without(fs, GeneratedKeys))))
  }

  /** For an object with distinct keys, the ordering puts the known keys first
      (the optional ones only when defined), then every other field in its
      original order, and keeps every value. */
  lemma {:induction false} OrderGeneratedKeepsFields(obj: Value)
    requires obj.Obj? && UniqueKeys(obj.fields)
    ensures var r := OrderGeneratedForDisplay(obj).value.fields;
      && r == PickKnown(obj.fields, GeneratedKeys) + Without(obj.fields, GeneratedKeys)
      && (forall k :: Get(r, k) == Get(obj.fields, k))
      && (forall k :: k in GeneratedKeys && k !in OptionalGeneratedKeys ==> k in Keys(r))
      && (forall k :: k in OptionalGeneratedKeys ==> (k in Keys(r) <==> !Get(obj.fields, k).Undefined?))
  {
    var fs := obj.fields;
    var o := PickKnown(fs, GeneratedKeys);
    var rest := Without(fs, GeneratedKeys);
    GeneratedKeysDistinct();
    PickKnownKeys(fs, GeneratedKeys);
    WithoutUnique(fs, GeneratedKeys);
    forall i | 0 <= i < |rest| ensures rest[i].0 !in Keys(o) {
      assert rest[i].0 !in GeneratedKeys;
    }
    MergeDisjoint(o, rest);
    var r := o + rest;
    forall k ensures Get(r, k) == Get(fs, k) {
      GetAppend(o, rest, k);
      if k in GeneratedKeys {
        PickKnownGet(fs, GeneratedKeys, k);
      } else {
        GetWithout(fs, GeneratedKeys, k);
      }
    }
    KeysConcat(o, rest);
  }

  /* ---------------- version filling ---------------- */

  /** Which emptiness test a `version` field is filled on. */
  datatype Dialect =
    | Js   // `!v`: any falsy value
    | Py   // `v is None or v == ""`

  predicate EmptyVersion(d: Dialect, v: Value) {
    match d
    case Js => !Truthy(v)
    case Py => v.Null? || v == Str("")
  }

  /** `b` is `a` except that `version` fields that were empty in `a` hold
      `sw`: the same constructors, the same keys in the same order, the same
      array lengths, the same scalars. */
  predicate ChangesOnlyEmptyVersions(a: Value, b: Value, sw: string, d: Dialect)
    decreases a
  {
    match a
    case Arr(xs) =>
      b.Arr? && |b.items| == |xs|
      && forall i :: 0 <= i < |xs| ==> ChangesOnlyEmptyVersions(xs[i], b.items[i], sw, d)
    case Obj(fs) =>
      b.Obj? && Keys(b.fields) == Keys(fs)
      && forall i :: 0 <= i < |fs| ==>
           if fs[i].0 == "version" && EmptyVersion(d, fs[i].1) then b.fields[i].1 == Str(sw)
           else ChangesOnlyEmptyVersions(fs[i].1, b.fields[i].1, sw, d)
    case _ => b == a
  }

  /** No `version` field anywhere in `v` is empty. */
  predicate NoEmptyVersion(v: Value, d: Dialect)
    decreases v
  {
    match v
    case Arr(xs) => forall i :: 0 <= i < |xs| ==> NoEmptyVersion(xs[i], d)
    case Obj(fs) =>
      forall i :: 0 <= i < |fs| ==>
        (fs[i].0 == "version" ==> !EmptyVersion(d, fs[i].1)) && NoEmptyVersion(fs[i].1, d)
    case _ => true
  }

  /** Some object anywhere in `v` has a `version` key. */
  predicate MentionsVersion(v: Value)
    decreases v
  {
    match v
    case Arr(xs) => exists i :: 0 <= i < |xs| && MentionsVersion(xs[i])
    case Obj(fs) => exists i :: 0 <= i < |fs| && (fs[i].0 == "version" || MentionsVersion(fs[i].1))
    case _ => false
  }

  /** `fillVersionFields(obj, sw)` in JavaScript (dialect `Js`) and
      `_fill_versions(obj, sw)` in Python (dialect `Py`): arrays are mapped,
      objects copied field by field with an empty `version` replaced by `sw`
      and every other value filled recursively, scalars returned as they are. */
  function FillVersions(v: Value, sw: string, d: Dialect): (r: Value)
    ensures ChangesOnlyEmptyVersions(v, r, sw, d)
    decreases v, 0
  {
    match v
    case Arr(xs) =>
      var ys := seq(|xs|, i requires 0 <= i < |xs| => FillVersions(xs[i], sw, d));
      assert forall i :: 0 <= i < |xs| ==> ys[i] == FillVersions(xs[i], sw, d);
      Arr(ys)
    case Obj(fs) =>
      var gs := seq(|fs|, i requires 0 <= i < |fs| => (fs[i].0, FillField(fs[i].0, fs[i].1, sw, d)));
      assert forall i :: 0 <= i < |fs| ==> gs[i] == (fs[i].0, FillField(fs[i].0, fs[i].1, sw, d));
      assert Keys(gs) == Keys(fs);
      Obj(gs)
    case _ => v
  }

  /** The new value of one field. */
  function FillField(k: string, v: Value, sw: string, d: Dialect): (r: Value)
    ensures k == "version" && EmptyVersion(d, v) ==> r == Str(sw)
    decreases v, 1
  {
    if k == "version" && EmptyVersion(d, v) then Str(sw) else FillVersions(v, sw, d)
  }

  /** With a non-empty release, no `version` field anywhere is left empty. */
  lemma {:induction false} FillLeavesNoEmptyVersion(v: Value, sw: string, d: Dialect)
    requires sw != ""
    ensures NoEmptyVersion(FillVersions(v, sw, d), d)
    decreases v
  {
    var r := FillVersions(v, sw, d);
    match v
    case Arr(xs) =>
      forall i | 0 <= i < |xs| ensures NoEmptyVersion(r.items[i], d) {
        FillLeavesNoEmptyVersion(xs[i], sw, d);
      }
    case Obj(fs) =>
      forall i | 0 <= i < |fs|
        ensures (r.fields[i].0 == "version" ==> !EmptyVersion(d, r.fields[i].1)) && NoEmptyVersion(r.fields[i].1, d)
      {
        assert r.fields[i] == (fs[i].0, FillField(fs[i].0, fs[i].1, sw, d));
        if fs[i].0 == "version" && EmptyVersion(d, fs[i].1) {
        } else {
          FillLeavesNoEmptyVersion(fs[i].1, sw, d);
          if fs[i].0 == "version" {
            FillKeepsNonEmpty(fs[i].1, sw, d);
          }
        }
      }
    case _ =>
  }

  /** Filling never empties a `version` value that was not empty. */
  lemma FillKeepsNonEmpty(v: Value, sw: string, d: Dialect)
    requires !EmptyVersion(d, v)
    ensures !EmptyVersion(d, FillVersions(v, sw, d))
  {
  }

  /** Filling a filled value changes nothing. */
  lemma {:induction false} FillIdempotent(v: Value, sw: string, d: Dialect)
    ensures FillVersions(FillVersions(v, sw, d), sw, d) == FillVersions(v, sw, d)
    decreases v
  {
    var once := FillVersions(v, sw, d);
    match v
    case Arr(xs) =>
      forall i | 0 <= i < |xs| ensures FillVersions(once.items[i], sw, d) == once.items[i] {
        FillIdempotent(xs[i], sw, d);
      }
      assert FillVersions(once, sw, d).items == once.items;
    case Obj(fs) =>
      forall i | 0 <= i < |fs| ensures FillField(fs[i].0, once.fields[i].1, sw, d) == once.fields[i].1 {
        assert once.fields[i].1 == FillField(fs[i].0, fs[i].1, sw, d);
        if fs[i].0 == "version" && EmptyVersion(d, fs[i].1) {
          assert FillVersions(Str(sw), sw, d) == Str(sw);
        } else {
          FillIdempotent(fs[i].1, sw, d);
          if fs[i].0 == "version" {
            FillKeepsNonEmpty(fs[i].1, sw, d);
          }
        }
      }
      assert FillVersions(once, sw, d).fields == once.fields;
    case _ =>
  }

  /** A value without any `version` key comes back unchanged. */
  lemma {:induction false} FillWithoutVersionKey(v: Value, sw: string, d: Dialect)
    requires !MentionsVersion(v)
    ensures FillVersions(v, sw, d) == v
    decreases v
  {
    match v
    case Arr(xs) =>
      forall i | 0 <= i < |xs| ensures FillVersions(xs[i], sw, d) == xs[i] {
        assert !MentionsVersion(xs[i]);
        FillWithoutVersionKey(xs[i], sw, d);
      }
      assert FillVersions(v, sw, d).items == xs;
    case Obj(fs) =>
      forall i | 0 <= i < |fs| ensures FillVersions(v, sw, d).fields[i] == fs[i] {
        assert fs[i].0 != "version" && !MentionsVersion(fs[i].1);
        FillWithoutVersionKey(fs[i].1, sw, d);
      }
      assert FillVersions(v, sw, d).fields == fs;
    case _ =>
  }

  /** Every `version` value anywhere in `v` is `null`, `""` or truthy: none is
      `0`, `false` or `undefined`. */
  predicate VersionsNullBlankOrTruthy(v: Value)
    decreases v
  {
    match v
    case Arr(xs) => forall i :: 0 <= i < |xs| ==> VersionsNullBlankOrTruthy(xs[i])
    case Obj(fs) =>
      forall i :: 0 <= i < |fs| ==>
        (fs[i].0 == "version" ==> fs[i].1.Null? || fs[i].1 == Str("") || Truthy(fs[i].1))
        && VersionsNullBlankOrTruthy(fs[i].1)
    case _ => true
  }

  /** The browser and the backend fill alike unless a `version` holds `0`,
      `false` or `undefined`, which only the browser replaces. */
  lemma {:induction false} FillDialectsAgree(v: Value, sw: string)
    requires VersionsNullBlankOrTruthy(v)
    ensures FillVersions(v, sw, Js) == FillVersions(v, sw, Py)
    decreases v
  {
    match v
    case Arr(xs) =>
      forall i | 0 <= i < |xs| ensures FillVersions(xs[i], sw, Js) == FillVersions(xs[i], sw, Py) {
        FillDialectsAgree(xs[i], sw);
      }
      assert FillVersions(v, sw, Js).items == FillVersions(v, sw, Py).items;
    case Obj(fs) =>
      forall i | 0 <= i < |fs| ensures FillField(fs[i].0, fs[i].1, sw, Js) == FillField(fs[i].0, fs[i].1, sw, Py) {
        FillDialectsAgree(fs[i].1, sw);
      }
      assert FillVersions(v, sw, Js).fields == FillVersions(v, sw, Py).fields;
    case _ =>
  }
}
