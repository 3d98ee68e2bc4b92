/** String operations shared by the browser code and the Python backend:
    trimming, prefix and suffix tests, substring search, ASCII case folding,
    splitting on a separator character and decimal rendering of integers. */
module Text {
  import opened Wrappers

  /** The whitespace characters that `String.prototype.trim` and `str.strip`
      both remove: tab to carriage return and the space among the ASCII
      characters, and beyond them the characters of `WideSpaces`. */
  predicate IsSpace(c: char) {
    if c < '\U{80}' then c == ' ' || '\t' <= c <= '\r' else Listed(WideSpaces, c)
  }

  /** The no-break space, the other Unicode space separators, and the line
      and paragraph separators. */
  const WideSpaces: seq<char> :=
    [ '\U{A0}', '\U{1680}', '\U{2000}', '\U{2001}', '\U{2002}', '\U{2003}', '\U{2004}', '\U{2005}'
    , '\U{2006}', '\U{2007}', '\U{2008}', '\U{2009}', '\U{200A}', '\U{2028}', '\U{2029}', '\U{202F}'
    , '\U{205F}', '\U{3000}' ]

  /** `c` occurs in `cs`, found by scanning. */
  predicate Listed(cs: seq<char>, c: char) {
    cs != [] && (cs[0] == c || Listed(cs[1..], c))
  }

  predicate IsDigit(c: char) {
    '0' <= c <= '9'
  }

  predicate AllDigits(s: string) {
    forall i :: 0 <= i < |s| ==> IsDigit(s[i])
  }

  /** Drops whitespace from the front. */
  function TrimStart(s: string): (r: string)
    ensures |r| <= |s| && r == s[|s| - |r|..]
    ensures r == [] || !IsSpace(r[0])
    ensures forall i :: 0 <= i < |s| - |r| ==> IsSpace(s[i])
  {
    if s != [] && IsSpace(s[0]) then
      var r := TrimStart(s[1..]);
      assert forall i :: 1 <= i < |s| ==> s[i] == s[1..][i - 1];
      r
    else s
  }

  /** Drops whitespace from the back. */
  function TrimEnd(s: string): (r: string)
    ensures |r| <= |s| && r == s[..|r|]
    ensures r == [] || !IsSpace(r[|r| - 1])
    ensures forall i :: |r| <= i < |s| ==> IsSpace(s[i])
  {
    if s != [] && IsSpace(s[|s| - 1]) then
      var r := TrimEnd(s[..|s| - 1]);
      assert forall i :: 0 <= i < |s| - 1 ==> s[i] == s[..|s| - 1][i];
      r
    else s
  }

  /** `s.trim()` in JavaScript, `s.strip()` in Python. */
  function Trim(s: string): (r: string)
    ensures |r| <= |s|
    ensures r == [] || (!IsSpace(r[0]) && !IsSpace(r[|r| - 1]))
    ensures s != [] && !IsSpace(s[0]) && !IsSpace(s[|s| - 1]) ==> r == s
  {
    TrimEnd(TrimStart(s))
  }

  /** Whitespace only. */
  predicate Blank(s: string) {
    forall i :: 0 <= i < |s| ==> IsSpace(s[i])
  }

  /** The trimmed string is the contiguous part of `s` left once the
      whitespace at both ends is removed: `s` is that part between a blank
      prefix and a blank suffix. */
  lemma {:induction false} TrimIsMiddle(s: string)
    ensures var r, k := Trim(s), |s| - |TrimStart(s)|;
      && k + |r| <= |s|
      && s == s[..k] + r + s[k + |r|..]
      && Blank(s[..k]) && Blank(s[k + |r|..])
  {
    var t := TrimStart(s);
    var r := TrimEnd(t);
    var front, back := s[..|s| - |t|], t[|r|..];
    forall i | 0 <= i < |front| ensures IsSpace(front[i]) {
      assert front[i] == s[i];
    }
    forall i | 0 <= i < |back| ensures IsSpace(back[i]) {
      assert back[i] == t[|r| + i];
    }
    MiddleOfSuffix(s, t, r);
  }

  /** A prefix `r` of a suffix `t` of `s`, with whitespace cut off at both
      ends, sits in `s` between that whitespace. */
  lemma MiddleOfSuffix(s: string, t: string, r: string)
    requires |t| <= |s| && t == s[|s| - |t|..]
    requires |r| <= |t| && r == t[..|r|]
    requires Blank(s[..|s| - |t|]) && Blank(t[|r|..])
    ensures var k := |s| - |t|;
      && k + |r| <= |s|
      && s == s[..k] + r + s[k + |r|..]
      && Blank(s[..k]) && Blank(s[k + |r|..])
  {
    var k := |s| - |t|;
    assert s[k + |r|..] == t[|r|..];
    assert s[k..] == r + t[|r|..];
    assert s == s[..k] + s[k..];
  }

  /** A string is blank when trimming leaves nothing, i.e. it is made of whitespace only. */
  lemma {:induction false} TrimEmptyIffBlank(s: string)
    ensures Trim(s) == [] <==> forall i :: 0 <= i < |s| ==> IsSpace(s[i])
  {
    var t := TrimStart(s);
    if t != [] {
      assert !IsSpace(t[0]);
      assert TrimEnd(t) != [];
      assert !IsSpace(s[|s| - |t|]);
    }
  }

  lemma TrimIdempotent(s: string)
    ensures Trim(Trim(s)) == Trim(s)
  {
    var r := Trim(s);
    if r != [] {
      assert TrimStart(r) == r;
      assert TrimEnd(r) == r;
    }
  }

  predicate StartsWith(s: string, p: string) {
    |p| <= |s| && s[..|p|] == p
  }

  predicate EndsWith(s: string, p: string) {
    |p| <= |s| && s[|s| - |p|..] == p
  }

  /** Python's `p in s` and JavaScript's `s.includes(p)`. */
  predicate Contains(s: string, p: string) {
    exists i :: 0 <= i <= |s| - |p| && OccursAt(s, p, i)
  }

  predicate OccursAt(s: string, p: string, i: nat) {
    i + |p| <= |s| && s[i..i + |p|] == p
  }

  function LowerChar(c: char): char {
    if 'A' <= c <= 'Z' then (c as int + 32) as char else c
  }

  /** Equality up to ASCII case, as a regular expression with the `i` flag compares letters. */
  predicate EqualsIgnoreCase(a: string, b: string) {
    |a| == |b| && forall i :: 0 <= i < |a| ==> LowerChar(a[i]) == LowerChar(b[i])
  }

  predicate StartsWithIgnoreCase(s: string, p: string) {
    |p| <= |s| && EqualsIgnoreCase(s[..|p|], p)
  }

  /** Python's `s.rstrip(c)`: every trailing occurrence of `c` is removed. */
  function RStripChar(s: string, c: char): (r: string)
    ensures |r| <= |s| && r == s[..|r|]
    ensures r == [] || r[|r| - 1] != c
    ensures forall i :: |r| <= i < |s| ==> s[i] == c
  {
    if s != [] && s[|s| - 1] == c then RStripChar(s[..|s| - 1], c) else s
  }

  /** Index of the first occurrence of `c` in `s`, if any. */
  function IndexOf(s: string, c: char): (r: Option<nat>)
    ensures r.None? <==> c !in s
    ensures r.Some? ==> r.value < |s| && s[r.value] == c && c !in s[..r.value]
  {
    if s == [] then None
    else if s[0] == c then Some(0)
    else match IndexOf(s[1..], c)
      case None => None
      case Some(k) => Some(k + 1)
  }

  /** The last piece of `s.split(c)`: everything after the last `c`, or all of `s`. */
  function LastSegment(s: string, c: char): (r: string)
    ensures c !in r
    ensures c !in s ==> r == s
  {
    if s == [] then []
    else if s[|s| - 1] == c then []
    else LastSegment(s[..|s| - 1], c) + [s[|s| - 1]]
  }

  /** The last segment is a suffix of `s`; when it is shorter than `s`, a
      separator stands just before it. */
  lemma {:induction false} LastSegmentSuffix(s: string, c: char)
    ensures var r := LastSegment(s, c);
      && EndsWith(s, r)
      && (|r| < |s| ==> s[|s| - |r| - 1] == c)
  {
    if s == [] {
    } else if s[|s| - 1] == c {
      assert LastSegment(s, c) == [];
    } else {
      var init := s[..|s| - 1];
      LastSegmentSuffix(init, c);
      SegmentStep(s, c);
      SuffixExtend(s, LastSegment(init, c));
    }
  }

  lemma SegmentStep(s: string, c: char)
    requires s != [] && s[|s| - 1] != c
    ensures LastSegment(s, c) == LastSegment(s[..|s| - 1], c) + [s[|s| - 1]]
  {
  }

  /** A suffix of all but the last character, extended by that character, is
      a suffix of the whole; the character before it is the same in both. */
  lemma SuffixExtend(s: string, r0: string)
    requires s != [] && EndsWith(s[..|s| - 1], r0)
    ensures EndsWith(s, r0 + [s[|s| - 1]])
    ensures |r0| + 1 < |s| ==> s[|s| - |r0| - 2] == s[..|s| - 1][|s| - 1 - |r0| - 1]
  {
    var init := s[..|s| - 1];
    assert s == init + [s[|s| - 1]];
    assert s[|s| - |r0| - 1..] == init[|init| - |r0|..] + [s[|s| - 1]];
  }

  /** Splits `s` at every `c`: Python's `s.split(c)` and JavaScript's `s.split(c)`. */
  function Split(s: string, c: char): (parts: seq<string>)
    ensures |parts| >= 1
    ensures c !in s ==> parts == [s]
    decreases |s|
  {
    match IndexOf(s, c)
    case None => [s]
    case Some(k) =>
      [s[..k]] + Split(s[k + 1..], c)
  }

  /** No piece of a split holds the separator. */
  lemma {:induction false} SplitPartsFree(s: string, c: char)
    ensures forall i :: 0 <= i < |Split(s, c)| ==> c !in Split(s, c)[i]
    decreases |s|
  {
    match IndexOf(s, c)
    case None =>
      NoSeparator(s, c);
    case Some(k) =>
      SplitStep(s, c, k);
      SplitPartsFree(s[k + 1..], c);
      var parts := Split(s, c);
      var rest := Split(s[k + 1..], c);
      forall i | 0 <= i < |parts| ensures c !in parts[i] {
        if i > 0 {
          assert parts[i] == rest[i - 1];
        }
      }
  }

  /** The last piece of a split is the segment after the last separator:
      JavaScript's `s.split(c).pop()` and Python's `s.split(c)[-1]`. */
  lemma {:induction false} LastOfSplit(s: string, c: char)
    ensures Split(s, c)[|Split(s, c)| - 1] == LastSegment(s, c)
    decreases |s|
  {
    match IndexOf(s, c)
    case None =>
      NoSeparator(s, c);
    case Some(k) =>
      LastOfSplit(s[k + 1..], c);
      LastAfterFirst(s, c, k);
  }

  /** The step of `LastOfSplit`: past the first separator both sides are
      those of the rest of the string. */
  lemma LastAfterFirst(s: string, c: char, k: nat)
    requires IndexOf(s, c) == Some(k)
    requires Split(s[k + 1..], c)[|Split(s[k + 1..], c)| - 1] == LastSegment(s[k + 1..], c)
    ensures Split(s, c)[|Split(s, c)| - 1] == LastSegment(s, c)
  {
    SplitLast(s, c, k);
    LastSegmentAfter(s, c, k);
  }

  /** The last piece of a split is the last piece of the split after the
      first separator. */
  lemma SplitLast(s: string, c: char, k: nat)
    requires IndexOf(s, c) == Some(k)
    ensures k < |s| && s[k] == c
    ensures Split(s, c)[|Split(s, c)| - 1] == Split(s[k + 1..], c)[|Split(s[k + 1..], c)| - 1]
  {
    var rest := Split(s[k + 1..], c);
    SplitStep(s, c, k);
    assert |rest| >= 1;
    LastOfCons(Split(s, c), s[..k], rest);
  }

  /** Without a separator the split is the whole string, and so is its last segment. */
  lemma NoSeparator(s: string, c: char)
    requires IndexOf(s, c).None?
    ensures Split(s, c) == [s] && LastSegment(s, c) == s
  {
  }

  /** The first piece of a split runs up to the first separator. */
  lemma SplitStep(s: string, c: char, k: nat)
    requires IndexOf(s, c) == Some(k) && k < |s|
    ensures Split(s, c) == [s[..k]] + Split(s[k + 1..], c)
  {
  }

  lemma LastOfCons(parts: seq<string>, p: string, rest: seq<string>)
    requires parts == [p] + rest && rest != []
    ensures parts[|parts| - 1] == rest[|rest| - 1]
  {
  }

  /** Cutting `s` after an occurrence of `c` keeps its last segment. */
  lemma {:induction false} LastSegmentAfter(s: string, c: char, k: nat)
    requires k < |s| && s[k] == c
    ensures LastSegment(s, c) == LastSegment(s[k + 1..], c)
    decreases |s|
  {
    var t := s[k + 1..];
    if s[|s| - 1] == c {
      if t != [] {
        assert t[|t| - 1] == c;
      }
    } else {
      assert s[..|s| - 1][k + 1..] == t[..|t| - 1];
      LastSegmentAfter(s[..|s| - 1], c, k);
    }
  }

  /** `sep.join(parts)` in Python, `parts.join(sep)` in JavaScript. */
  function Join(parts: seq<string>, sep: string): (r: string)
    ensures |parts| == 1 ==> r == parts[0]
  {
    if parts == [] then []
    else if |parts| == 1 then parts[0]
    else parts[0] + sep + Join(parts[1..], sep)
  }

  /** Joining the pieces of a split with the separator gives the string back. */
  lemma {:induction false} JoinSplit(s: string, c: char)
    ensures Join(Split(s, c), [c]) == s
    decreases |s|
  {
    match IndexOf(s, c)
    case None =>
      assert Split(s, c) == [s];
    case Some(k) =>
      SplitStep(s, c, k);
      var rest := Split(s[k + 1..], c);
      JoinCons(s[..k], rest, [c]);
      JoinSplit(s[k + 1..], c);
      assert Join(Split(s, c), [c]) == s[..k] + [c] + s[k + 1..];
      Around(s, k);
  }

  /** A string is its prefix, one character and its suffix. */
  lemma Around(s: string, k: nat)
    requires k < |s|
    ensures s[..k] + [s[k]] + s[k + 1..] == s
  {
    assert s[k..] == [s[k]] + s[k + 1..];
    assert s == s[..k] + s[k..];
  }

  lemma JoinCons(p: string, rest: seq<string>, sep: string)
    requires rest != []
    ensures Join([p] + rest, sep) == p + sep + Join(rest, sep)
  {
    assert ([p] + rest)[1..] == rest;
  }

  /** The split of `a + [c] + b` when `a` holds no `c`. */
  lemma SplitAtFirst(a: string, c: char, b: string)
    requires c !in a
    ensures Split(a + [c] + b, c) == [a] + Split(b, c)
  {
    var s := a + [c] + b;
    assert s[|a|] == c;
    assert forall j :: 0 <= j < |a| ==> s[j] == a[j];
    assert IndexOf(s, c) == Some(|a|);
    assert s[..|a|] == a && s[|a| + 1..] == b;
  }

  function DigitChar(d: nat): char
    requires d < 10
  {
    ['0', '1', '2', '3', '4', '5', '6', '7', '8', '9'][d]
  }

  /** Decimal rendering of a natural number without leading zeros. */
  function NatToString(n: nat): (r: string)
    ensures r != [] && AllDigits(r)
    ensures n < 10 <==> |r| == 1
    decreases n
  {
    if n < 10 then [DigitChar(n)] else NatToString(n / 10) + [DigitChar(n % 10)]
  }

  /** `str(n)` in Python, `String(n)` in JavaScript, for an integer. */
  function IntToString(n: int): (r: string)
    ensures r != []
  {
    if n < 0 then "-" + NatToString(-n) else NatToString(n)
  }

  function DigitValue(c: char): nat
    requires IsDigit(c)
  {
    c as int - '0' as int
  }

  /** The value of a string of decimal digits (leading zeros allowed). */
  function DigitsValue(s: string): nat
    requires AllDigits(s)
  {
    if s == [] then 0 else 10 * DigitsValue(s[..|s| - 1]) + DigitValue(s[|s| - 1])
  }

  /** Reading back a rendered natural number gives the number. */
  lemma {:induction false} DigitsValueNatToString(n: nat)
    ensures DigitsValue(NatToString(n)) == n
    decreases n
  {
    if n >= 10 {
      DigitsValueNatToString(n / 10);
      var s := NatToString(n);
      assert s[..|s| - 1] == NatToString(n / 10);
    }
  }
}
