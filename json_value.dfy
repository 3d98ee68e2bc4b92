/** The values the program works on: parsed JSON documents as the browser
    code and the Python backend see them.  An object is an ordered list of
    fields, so that the key order of a produced document is observable.
    The module also fixes the few language rules the code relies on:
    property access, object spread, truthiness in JavaScript and in Python,
    `||`, `??`, `String(v)`, `str(v)` and numeric sorting. */
module JsonValue {
  import opened Wrappers
  import opened Text
  import Sorting

  datatype Value =
    | Undefined
    | Null
    | Bool(b: bool)
    | Num(n: int)
    | NaN
    | Str(s: string)
    | Arr(items: seq<Value>)
    | Obj(fields: seq<(string, Value)>)

  type Fields = seq<(string, Value)>

  /** The one exception the browser code can raise on its own: reading a
      property of `null`/`undefined`, or calling a method the value lacks. */
  datatype JsError = TypeError

  /* ---------------- objects as ordered field lists ---------------- */

  function Keys(fs: Fields): (ks: seq<string>)
    ensures |ks| == |fs|
    ensures forall i :: 0 <= i < |fs| ==> ks[i] == fs[i].0
  {
    if fs == [] then [] else [fs[0].0] + Keys(fs[1..])
  }

  predicate UniqueKeys(fs: Fields) {
    forall i, j :: 0 <= i < j < |fs| ==> fs[i].0 != fs[j].0
  }

  /** `o[k]`: the value stored under `k`, or `undefined` when `k` is absent. */
  function Get(fs: Fields, k: string): (v: Value)
    ensures k !in Keys(fs) ==> v == Undefined
  {
    if fs == [] then Undefined
    else if fs[0].0 == k then fs[0].1
    else Get(fs[1..], k)
  }

  lemma {:induction false} GetAt(fs: Fields, i: nat)
    requires UniqueKeys(fs) && i < |fs|
    ensures Get(fs, fs[i].0) == fs[i].1
  {
    if i > 0 {
      GetAt(fs[1..], i - 1);
    }
  }

  /** `{...o, k: v}` and `o[k] = v`: an existing key keeps its place and
      takes the new value, a new key goes to the end. */
  function Put(fs: Fields, k: string, v: Value): (r: Fields)
    ensures Get(r, k) == v
    ensures forall k' :: k' != k ==> Get(r, k') == Get(fs, k')
    ensures Keys(r) == if k in Keys(fs) then Keys(fs) else Keys(fs) + [k]
  {
    if fs == [] then [(k, v)]
    else if fs[0].0 == k then [(k, v)] + fs[1..]
    else
      var rest := Put(fs[1..], k, v);
      PutStep(fs, rest, k, v);
      [fs[0]] + rest
  }

  /** The recursive case of `Put`: the first field is kept in front of the
      tail written with `k`. */
  lemma PutStep(fs: Fields, rest: Fields, k: string, v: Value)
    requires fs != [] && fs[0].0 != k
    requires Get(rest, k) == v
    requires forall k' :: k' != k ==> Get(rest, k') == Get(fs[1..], k')
    requires Keys(rest) == if k in Keys(fs[1..]) then Keys(fs[1..]) else Keys(fs[1..]) + [k]
    ensures Get([fs[0]] + rest, k) == v
    ensures forall k' :: k' != k ==> Get([fs[0]] + rest, k') == Get(fs, k')
    ensures Keys([fs[0]] + rest) == if k in Keys(fs) then Keys(fs) else Keys(fs) + [k]
  {
    var r := [fs[0]] + rest;
    assert r[0] == fs[0] && r[1..] == rest;
    assert Keys(fs) == [fs[0].0] + Keys(fs[1..]);
    assert Keys(r) == [fs[0].0] + Keys(rest);
    assert k in Keys(fs) <==> k in Keys(fs[1..]);
  }

  /** Writing a key never duplicates one. */
  lemma PutUnique(fs: Fields, k: string, v: Value)
    requires UniqueKeys(fs)
    ensures UniqueKeys(Put(fs, k, v))
  {
    var r := Put(fs, k, v);
    var ks := Keys(r);
    forall i, j | 0 <= i < j < |r| ensures r[i].0 != r[j].0 {
      assert ks[i] == r[i].0 && ks[j] == r[j].0;
      if k !in Keys(fs) && j == |fs| {
        assert ks[j] == k;
        assert ks[i] == Keys(fs)[i];
      } else {
        assert ks[i] == Keys(fs)[i] && ks[j] == Keys(fs)[j];
      }
    }
  }

  /** Writing one key leaves another where it was. */
  lemma PutOther(fs: Fields, k: string, v: Value, k': string)
    requires k' != k
    ensures Get(Put(fs, k, v), k') == Get(fs, k')
  {
  }

  /** Reading a key after three writes: the last write of that key, or the
      original value. */
  lemma GetAfterThree(fs: Fields, k1: string, v1: Value, k2: string, v2: Value, k3: string, v3: Value, k: string)
    ensures Get(Put(Put(Put(fs, k1, v1), k2, v2), k3, v3), k) ==
      if k == k3 then v3 else if k == k2 then v2 else if k == k1 then v1 else Get(fs, k)
  {
    var r1 := Put(fs, k1, v1);
    var r2 := Put(r1, k2, v2);
    if k != k3 {
      PutOther(r2, k3, v3, k);
      if k != k2 {
        PutOther(r1, k2, v2, k);
        if k != k1 {
          PutOther(fs, k1, v1, k);
        }
      }
    }
  }

  /** Reading a key after four writes. */
  lemma GetAfterFour(fs: Fields, k1: string, v1: Value, k2: string, v2: Value, k3: string, v3: Value,
                     k4: string, v4: Value, k: string)
    ensures Get(Put(Put(Put(Put(fs, k1, v1), k2, v2), k3, v3), k4, v4), k) ==
      if k == k4 then v4 else if k == k3 then v3 else if k == k2 then v2 else if k == k1 then v1 else Get(fs, k)
  {
    var r3 := Put(Put(Put(fs, k1, v1), k2, v2), k3, v3);
    if k != k4 {
      PutOther(r3, k4, v4, k);
      GetAfterThree(fs, k1, v1, k2, v2, k3, v3, k);
    }
  }

  /** Writing one key adds no other key. */
  lemma PutKeys(fs: Fields, k: string, v: Value, k': string)
    requires k' != k && k' !in Keys(fs)
    ensures k' !in Keys(Put(fs, k, v))
  {
    if k !in Keys(fs) {
      assert Keys(Put(fs, k, v)) == Keys(fs) + [k];
    }
  }

  /** Writing the same value twice is the same as writing it once. */
  lemma {:induction false} PutPutSame(fs: Fields, k: string, v: Value)
    ensures Put(Put(fs, k, v), k, v) == Put(fs, k, v)
  {
    if fs != [] && fs[0].0 != k {
      PutPutSame(fs[1..], k, v);
    }
  }

  /** A second write of a key replaces the first. */
  lemma {:induction false} PutTwice(fs: Fields, k: string, v: Value, w: Value)
    ensures Put(Put(fs, k, v), k, w) == Put(fs, k, w)
  {
    if fs != [] && fs[0].0 != k {
      PutTwice(fs[1..], k, v, w);
    }
  }

  /** Writing a key that already holds the value changes nothing. */
  lemma {:induction false} PutExisting(fs: Fields, k: string)
    requires k in Keys(fs)
    ensures Put(fs, k, Get(fs, k)) == fs
  {
    if fs[0].0 != k {
      PutExisting(fs[1..], k);
    }
  }

  /** Assigning a key the object does not have appends the field. */
  lemma PutNew(fs: Fields, k: string, v: Value)
    requires k !in Keys(fs)
    ensures Put(fs, k, v) == fs + [(k, v)]
  {
    if fs != [] {
      assert Keys(fs) == [fs[0].0] + Keys(fs[1..]);
      PutNew(fs[1..], k, v);
    }
  }

  /** A field list with distinct keys, taken apart at its head. */
  lemma UniqueKeysCons(fs: Fields)
    requires fs != []
    ensures UniqueKeys(fs) <==> fs[0].0 !in Keys(fs[1..]) && UniqueKeys(fs[1..])
  {
    var tl := fs[1..];
    if fs[0].0 in Keys(tl) {
      var j :| 0 <= j < |tl| && Keys(tl)[j] == fs[0].0;
      assert fs[j + 1].0 == fs[0].0;
    }
    if UniqueKeys(tl) && fs[0].0 !in Keys(tl) {
      forall i, j | 0 <= i < j < |fs| ensures fs[i].0 != fs[j].0 {
        if i == 0 {
          assert Keys(tl)[j - 1] == fs[j].0;
        } else {
          assert tl[i - 1] == fs[i] && tl[j - 1] == fs[j];
        }
      }
    }
  }

  /** `{...a, ...b}`, and `Object.assign` of `b` onto `a`: the fields of `b`
      are assigned one after the other. */
  function Merge(a: Fields, b: Fields): Fields
    decreases |b|
  {
    if b == [] then a else Merge(Put(a, b[0].0, b[0].1), b[1..])
  }

  /** A key `b` does not mention keeps its value from `a`. */
  lemma {:induction false} MergeGetOutside(a: Fields, b: Fields, k: string)
    requires k !in Keys(b)
    ensures Get(Merge(a, b), k) == Get(a, k)
    decreases |b|
  {
    if b != [] {
      assert Keys(b) == [b[0].0] + Keys(b[1..]);
      MergeGetOutside(Put(a, b[0].0, b[0].1), b[1..], k);
    }
  }

  /** A key of `b` takes its value from `b`. */
  lemma {:induction false} MergeGetInside(a: Fields, b: Fields, k: string)
    requires UniqueKeys(b) && k in Keys(b)
    ensures Get(Merge(a, b), k) == Get(b, k)
    decreases |b|
  {
    assert Keys(b) == [b[0].0] + Keys(b[1..]);
    UniqueKeysCons(b);
    var a' := Put(a, b[0].0, b[0].1);
    if k == b[0].0 {
      MergeGetOutside(a', b[1..], k);
    } else {
      MergeGetInside(a', b[1..], k);
    }
  }

  /** No key of `b` is a key of `a`. */
  predicate KeysDisjoint(a: Fields, b: Fields) {
    forall i :: 0 <= i < |b| ==> b[i].0 !in Keys(a)
  }

  /** A key of the merged object is a key of one of the two. */
  lemma {:induction false} MergeKeys(a: Fields, b: Fields, k: string)
    requires k !in Keys(a) && k !in Keys(b)
    ensures k !in Keys(Merge(a, b))
    decreases |b|
  {
    if b != [] {
      assert Keys(b) == [b[0].0] + Keys(b[1..]);
      MergeKeys(Put(a, b[0].0, b[0].1), b[1..], k);
    }
  }

  /** Spreading an object after another with none of its keys lays the
      second one's fields after the first one's. */
  lemma {:induction false} MergeDisjoint(a: Fields, b: Fields)
    requires UniqueKeys(b) && KeysDisjoint(a, b)
    ensures Merge(a, b) == a + b
    decreases |b|
  {
    if b != [] {
      var a' := a + [b[0]];
      MergeAppendStep(a, b);
      DisjointStep(a, b);
      UniqueKeysCons(b);
      MergeDisjoint(a', b[1..]);
      AppendHead(a, b);
    }
  }

  lemma AppendHead(a: Fields, b: Fields)
    requires b != []
    ensures (a + [b[0]]) + b[1..] == a + b
  {
    assert b == [b[0]] + b[1..];
  }

  lemma MergeAppendStep(a: Fields, b: Fields)
    requires b != [] && KeysDisjoint(a, b)
    ensures Merge(a, b) == Merge(a + [b[0]], b[1..])
  {
    PutNew(a, b[0].0, b[0].1);
  }

  lemma DisjointStep(a: Fields, b: Fields)
    requires b != [] && UniqueKeys(b) && KeysDisjoint(a, b)
    ensures KeysDisjoint(a + [b[0]], b[1..])
  {
    var a' := a + [b[0]];
    assert Keys(a') == Keys(a) + [b[0].0];
    forall i | 0 <= i < |b| - 1 ensures b[1..][i].0 !in Keys(a') {
      assert b[1..][i] == b[i + 1];
      assert b[i + 1].0 != b[0].0;
    }
  }

  /** The fields whose key is not in `ks`, in their order: the `...rest` of a
      destructuring assignment. */
  function Without(fs: Fields, ks: seq<string>): (r: Fields)
    ensures forall i :: 0 <= i < |r| ==> r[i].0 !in ks
    ensures |r| <= |fs|
    ensures forall k :: k in Keys(r) ==> k in Keys(fs)
  {
    if fs == [] then []
    else if fs[0].0 in ks then Without(fs[1..], ks)
    else [fs[0]] + Without(fs[1..], ks)
  }

  /** Dropping fields keeps the keys distinct. */
  lemma {:induction false} WithoutUnique(fs: Fields, ks: seq<string>)
    requires UniqueKeys(fs)
    ensures UniqueKeys(Without(fs, ks))
  {
    if fs != [] {
      UniqueKeysCons(fs);
      WithoutUnique(fs[1..], ks);
      if fs[0].0 !in ks {
        var r := [fs[0]] + Without(fs[1..], ks);
        assert r[1..] == Without(fs[1..], ks);
        UniqueKeysCons(r);
      }
    }
  }

  lemma {:induction false} GetWithout(fs: Fields, ks: seq<string>, k: string)
    requires k !in ks
    ensures Get(Without(fs, ks), k) == Get(fs, k)
  {
    if fs != [] {
      GetWithout(fs[1..], ks, k);
    }
  }

  lemma {:induction false} GetAppend(a: Fields, b: Fields, k: string)
    ensures Get(a + b, k) == if k in Keys(a) then Get(a, k) else Get(b, k)
  {
    if a == [] {
      assert a + b == b;
    } else {
      var ab := a + b;
      assert ab[0] == a[0];
      assert Keys(a)[0] == a[0].0;
      if a[0].0 != k {
        assert ab[1..] == a[1..] + b;
        assert Get(ab, k) == Get(a[1..] + b, k);
        assert Get(a, k) == Get(a[1..], k);
        assert Keys(a) == [a[0].0] + Keys(a[1..]);
        GetAppend(a[1..], b, k);
      }
    }
  }

  lemma KeysConcat(a: Fields, b: Fields)
    ensures Keys(a + b) == Keys(a) + Keys(b)
  {
  }

  /** A list of names without repetitions. */
  predicate Distinct(ks: seq<string>) {
    forall i, j :: 0 <= i < j < |ks| ==> ks[i] != ks[j]
  }

  /* ---------------- JavaScript rules ---------------- */

  /** `Promise.all(xs.map(f))` once every promise has settled, and a loop
      that appends `f(i, xs[i])` for each element and stops at the first
      failure: the results in order, or the failure when any element fails. */
  function TryMap<E>(xs: seq<Value>, f: (nat, Value) -> Result<Value, E>): (r: Result<seq<Value>, E>)
    ensures r.Ok? <==> forall i :: 0 <= i < |xs| ==> f(i, xs[i]).Ok?
    ensures r.Ok? ==> |r.value| == |xs| && forall i :: 0 <= i < |xs| ==> r.value[i] == f(i, xs[i]).value
    decreases |xs|
  {
    if xs == [] then Ok([])
    else
      var n := |xs| - 1;
      var init := TryMap(xs[..n], f);
      assert forall i :: 0 <= i < n ==> xs[..n][i] == xs[i];
      if init.Err? then init
      else if f(n, xs[n]).Err? then Err(f(n, xs[n]).error)
      else Ok(init.value + [f(n, xs[n]).value])
  }

  /** Mapping one more element: the failure of the prefix, else the
      failure of the element, else the prefix's results and the element's. */
  lemma TryMapStep<E>(xs: seq<Value>, f: (nat, Value) -> Result<Value, E>, i: nat)
    requires i < |xs|
    ensures TryMap(xs[..i + 1], f) ==
      if TryMap(xs[..i], f).Err? then TryMap(xs[..i], f)
      else if f(i, xs[i]).Err? then Err(f(i, xs[i]).error)
      else Ok(TryMap(xs[..i], f).value + [f(i, xs[i]).value])
  {
    assert xs[..i + 1][..i] == xs[..i];
  }

  /** Once a prefix fails, the whole list fails with the same failure. */
  lemma {:induction false} TryMapPrefixFails<E>(xs: seq<Value>, f: (nat, Value) -> Result<Value, E>, k: nat)
    requires k <= |xs| && TryMap(xs[..k], f).Err?
    ensures TryMap(xs, f) == TryMap(xs[..k], f)
    decreases |xs|
  {
    if k == |xs| {
      assert xs[..k] == xs;
    } else {
      var n := |xs| - 1;
      assert xs[..n][..k] == xs[..k];
      TryMapPrefixFails(xs[..n], f, k);
    }
  }

  /** Truthiness in JavaScript: `undefined`, `null`, `false`, `0`, `NaN` and `""` are falsy. */
  predicate Truthy(v: Value) {
    match v
    case Undefined => false
    case Null => false
    case Bool(b) => b
    case Num(n) => n != 0
    case NaN => false
    case Str(s) => s != []
    case _ => true
  }

  /** `a || b` */
  function Or(a: Value, b: Value): Value {
    if Truthy(a) then a else b
  }

  predicate Nullish(v: Value) {
    v.Undefined? || v.Null?
  }

  /** `a ?? b` */
  function Coalesce(a: Value, b: Value): Value {
    if Nullish(a) then b else a
  }

  /** `v.k`: throws on `null`/`undefined`; arrays and strings answer `length`;
      every other property of a non-object is `undefined`. */
  function Prop(v: Value, k: string): (r: Result<Value, JsError>)
    ensures r.Err? <==> Nullish(v)
  {
    match v
    case Undefined => Err(TypeError)
    case Null => Err(TypeError)
    case Obj(fs) => Ok(Get(fs, k))
    case Arr(xs) => Ok(if k == "length" then Num(|xs|) else Undefined)
    case Str(s) => Ok(if k == "length" then Num(|s|) else Undefined)
    case _ => Ok(Undefined)
  }

  /** `v?.k` */
  function OptProp(v: Value, k: string): Value {
    match Prop(v, k)
    case Ok(x) => x
    case Err(_) => Undefined
  }

  /** The fields `{...v}` copies.  Only objects contribute fields here. */
  function Spread(v: Value): Fields {
    if v.Obj? then v.fields else []
  }

  /** `Array.isArray(v) ? v : []` */
  function ArrayOrEmpty(v: Value): seq<Value> {
    if v.Arr? then v.items else []
  }

  /** `(v || []).map(...)`: the elements mapped over; a truthy non-array has no `map`. */
  function ItemsOrEmpty(v: Value): (r: Result<seq<Value>, JsError>)
    ensures r.Err? <==> Truthy(v) && !v.Arr?
  {
    if !Truthy(v) then Ok([])
    else if v.Arr? then Ok(v.items)
    else Err(TypeError)
  }

  /** `[...(v || [])]`: arrays give their elements, strings their characters,
      every other truthy value is not iterable. */
  function SpreadItems(v: Value): (r: Result<seq<Value>, JsError>)
    ensures v.Arr? ==> r == Ok(v.items)
    ensures v.Str? ==> r == Ok(Chars(v.s))
    ensures !Truthy(v) ==> r == Ok([])
    ensures r.Err? <==> Truthy(v) && !v.Arr? && !v.Str?
  {
    if !Truthy(v) then Ok([])
    else match v
      case Arr(xs) => Ok(xs)
      case Str(s) => Ok(Chars(s))
      case _ => Err(TypeError)
  }

  /** The one-character strings a string spreads into. */
  function Chars(s: string): (r: seq<Value>)
    ensures |r| == |s|
  {
    if s == [] then [] else [Str([s[0]])] + Chars(s[1..])
  }

  /** `v.trim()`: only strings have the method. */
  function TrimJs(v: Value): (r: Result<string, JsError>)
    ensures r.Err? <==> !v.Str?
    ensures v.Str? ==> r.value == Trim(v.s)
  {
    if v.Str? then Ok(Trim(v.s)) else Err(TypeError)
  }

  /** `(v || "").trim()`: blank for a falsy value, a `TypeError` for a truthy non-string. */
  function TrimOrBlank(v: Value): (r: Result<string, JsError>)
    ensures !Truthy(v) ==> r == Ok([])
    ensures v.Str? ==> r == Ok(Trim(v.s))
    ensures r.Err? <==> Truthy(v) && !v.Str?
  {
    TrimJs(Or(v, Str("")))
  }

  /** `String(v)`. */
  function JsString(v: Value): string {
    match v
    case Undefined => "undefined"
    case Null => "null"
    case Bool(b) => if b then "true" else "false"
    case Num(n) => IntToString(n)
    case NaN => "NaN"
    case Str(s) => s
    case Arr(xs) => Join(seq(|xs|, i requires 0 <= i < |xs| => if Nullish(xs[i]) then "" else JsString(xs[i])), ",")
    case Obj(_) => "[object Object]"
  }

  /** `a === b`.  Arrays and objects are compared by identity in JavaScript;
      two values built separately are never identical, so they compare unequal.
      `NaN` is unequal to everything, itself included. */
  predicate StrictEquals(a: Value, b: Value) {
    !a.Arr? && !a.Obj? && !a.NaN? && a == b
  }

  predicate AllNumbers(xs: seq<Value>) {
    forall i :: 0 <= i < |xs| ==> xs[i].Num?
  }

  function Numbers(xs: seq<Value>): (ns: seq<int>)
    requires AllNumbers(xs)
    ensures |ns| == |xs| && forall i :: 0 <= i < |xs| ==> ns[i] == xs[i].n
  {
    seq(|xs|, i requires 0 <= i < |xs| => xs[i].n)
  }

  function FromNumbers(ns: seq<int>): (xs: seq<Value>)
    ensures |xs| == |ns| && AllNumbers(xs)
    ensures Numbers(xs) == ns
  {
    seq(|ns|, i requires 0 <= i < |ns| => Num(ns[i]))
  }

  /** `[...xs].sort((x, y) => x - y)` on a list of numbers.  A list holding
      anything else is returned in its own order. */
  function SortNumeric(xs: seq<Value>): (r: seq<Value>)
    ensures AllNumbers(xs) ==>
              (AllNumbers(r) && Sorting.Sorted(Numbers(r)) && multiset(Numbers(r)) == multiset(Numbers(xs)))
  {
    if AllNumbers(xs) then FromNumbers(Sorting.Sort(Numbers(xs))) else xs
  }

  /* ---------------- Python rules ---------------- */

  /** Truthiness in Python: `None`, `False`, `0`, `""`, `[]` and `{}` are
      falsy; `nan` is truthy. */
  predicate PyTruthy(v: Value) {
    match v
    case Undefined => false
    case Null => false
    case Bool(b) => b
    case Num(n) => n != 0
    case NaN => true
    case Str(s) => s != []
    case Arr(xs) => xs != []
    case Obj(fs) => fs != []
  }

  /** `a or b` */
  function PyOr(a: Value, b: Value): Value {
    if PyTruthy(a) then a else b
  }

  /** `d.get(k)`: `None` for a missing key. */
  function PyGet(fs: Fields, k: string): (v: Value)
    ensures k !in Keys(fs) ==> v == Null
  {
    var v := Get(fs, k);
    if v.Undefined? then Null else v
  }

  /** `str(v)` for the scalar values; containers have no rendering here. */
  function PyStr(v: Value): Option<string> {
    match v
    case Null => Some("None")
    case Bool(b) => Some(if b then "True" else "False")
    case Num(n) => Some(IntToString(n))
    case NaN => Some("nan")
    case Str(s) => Some(s)
    case _ => None
  }
}
