/** Percent-encoding of URL components (section 2.1 of RFC 3986), restricted
    to ASCII text: `decodeURIComponent`, the lenient decoding of
    `application/x-www-form-urlencoded` query strings, Python's
    `requests.utils.quote(s, safe='')`, and the replacement of an encoded
    slash `%2F` that the browser code applies to project names. */
module Percent {
  import opened Wrappers
  import opened Text

  predicate IsAscii(c: char) {
    c as int < 0x80
  }

  predicate AllAscii(s: string) {
    forall i :: 0 <= i < |s| ==> IsAscii(s[i])
  }

  predicate IsHexDigit(c: char) {
    '0' <= c <= '9' || 'A' <= c <= 'F' || 'a' <= c <= 'f'
  }

  function HexValue(c: char): (n: nat)
    requires IsHexDigit(c)
    ensures n < 16
  {
    if '0' <= c <= '9' then c as int - '0' as int
    else if 'A' <= c <= 'F' then c as int - 'A' as int + 10
    else c as int - 'a' as int + 10
  }

  /** The upper-case hexadecimal digit section 2.1 recommends. */
  function HexDigit(n: nat): (c: char)
    requires n < 16
    ensures IsHexDigit(c) && HexValue(c) == n
  {
    if n < 10 then ('0' as int + n) as char else ('A' as int + n - 10) as char
  }

  /** `%XX` at position `i` of `s`, naming an ASCII character. */
  predicate AsciiEscapeAt(s: string, i: nat) {
    i + 3 <= |s| && s[i] == '%' && IsHexDigit(s[i + 1]) && IsHexDigit(s[i + 2])
    && HexValue(s[i + 1]) * 16 + HexValue(s[i + 2]) < 0x80
  }

  function EscapedChar(s: string, i: nat): char
    requires AsciiEscapeAt(s, i)
  {
    (HexValue(s[i + 1]) * 16 + HexValue(s[i + 2])) as char
  }

  /** `decodeURIComponent(s)`: every `%XX` becomes its character; a `%` that
      does not start a valid escape is a `URIError`, here `None`.  Escapes of
      bytes from 0x80 up, which start UTF-8 sequences, also give `None`. */
  function PercentDecode(s: string): (r: Option<string>)
    ensures '%' !in s ==> r == Some(s)
    ensures r.Some? ==> |r.value| <= |s|
    decreases |s|
  {
    if s == [] then Some([])
    else if s[0] == '%' then
      if AsciiEscapeAt(s, 0) then
        match PercentDecode(s[3..])
        case None => None
        case Some(rest) => Some([EscapedChar(s, 0)] + rest)
      else None
    else
      assert '%' !in s ==> '%' !in s[1..];
      match PercentDecode(s[1..])
      case None => None
      case Some(rest) => assert s == [s[0]] + s[1..]; Some([s[0]] + rest)
  }

  /** Decoding a text whose first part has no `%` keeps that part. */
  lemma {:induction false} DecodePlainPrefix(a: string, b: string)
    requires '%' !in a
    ensures PercentDecode(b).None? ==> PercentDecode(a + b).None?
    ensures PercentDecode(b).Some? ==> PercentDecode(a + b) == Some(a + PercentDecode(b).value)
    decreases |a|
  {
    if a != [] {
      var ab := a + b;
      PlainStep(a, b);
      DecodePlainPrefix(a[1..], b);
      DecodeOnePlain(ab);
      if PercentDecode(b).Some? {
        ConsAppend(a, PercentDecode(b).value);
      }
    } else {
      assert a + b == b;
      if PercentDecode(b).Some? {
        var d := PercentDecode(b).value;
        assert a + d == d;
      }
    }
  }

  lemma PlainStep(a: string, b: string)
    requires a != [] && '%' !in a
    ensures (a + b)[0] == a[0] != '%' && (a + b)[1..] == a[1..] + b && '%' !in a[1..]
  {
    assert a == [a[0]] + a[1..];
  }

  /** A first character other than `%` is copied. */
  lemma DecodeOnePlain(s: string)
    requires s != [] && s[0] != '%'
    ensures PercentDecode(s[1..]).None? ==> PercentDecode(s).None?
    ensures PercentDecode(s[1..]).Some? ==> PercentDecode(s) == Some([s[0]] + PercentDecode(s[1..]).value)
  {
  }

  lemma ConsAppend(a: string, d: string)
    requires a != []
    ensures [a[0]] + (a[1..] + d) == a + d
  {
  }

  /** The characters section 2.3 of RFC 3986 calls unreserved, which
      `quote(s, safe='')` leaves as they are. */
  predicate Unreserved(c: char) {
    'A' <= c <= 'Z' || 'a' <= c <= 'z' || '0' <= c <= '9' || c == '-' || c == '.' || c == '_' || c == '~'
  }

  /** One character as `quote(s, safe='')` writes it: itself when
      unreserved, `%XX` with upper-case digits otherwise. */
  function EncodeChar(c: char): (r: string)
    requires IsAscii(c)
    ensures forall i :: 0 <= i < |r| ==> Unreserved(r[i]) || r[i] == '%' || IsHexDigit(r[i])
    ensures Unreserved(c) ==> r == [c]
    ensures !Unreserved(c) ==> |r| == 3 && AsciiEscapeAt(r, 0) && EscapedChar(r, 0) == c
  {
    if Unreserved(c) then [c]
    else
      var n := c as int;
      ['%', HexDigit(n / 16), HexDigit(n % 16)]
  }

  /** `requests.utils.quote(s, safe='')` on ASCII text: every reserved or
      other character becomes `%XX`. */
  function PercentEncode(s: string): (r: string)
    requires AllAscii(s)
    ensures forall i :: 0 <= i < |r| ==> Unreserved(r[i]) || r[i] == '%' || IsHexDigit(r[i])
    ensures s != [] ==> r != []
  {
    if s == [] then []
    else
      assert AllAscii(s[1..]) by { assert forall i :: 0 <= i < |s| - 1 ==> s[1..][i] == s[i + 1]; }
      EncodeChar(s[0]) + PercentEncode(s[1..])
  }

  /** Encoding works character by character. */
  lemma {:induction false} EncodeConcat(a: string, b: string)
    requires AllAscii(a) && AllAscii(b)
    ensures AllAscii(a + b) && PercentEncode(a + b) == PercentEncode(a) + PercentEncode(b)
    decreases |a|
  {
    AsciiConcat(a, b);
    if a == [] {
      assert a + b == b;
    } else {
      var ab := a + b;
      assert ab[0] == a[0] && ab[1..] == a[1..] + b;
      EncodeConcat(a[1..], b);
      EncodeStep(ab);
      EncodeStep(a);
      Assoc(EncodeChar(a[0]), PercentEncode(a[1..]), PercentEncode(b));
    }
  }

  lemma AsciiConcat(a: string, b: string)
    requires AllAscii(a) && AllAscii(b)
    ensures AllAscii(a + b)
  {
    var ab := a + b;
    forall i | 0 <= i < |ab| ensures IsAscii(ab[i]) {
      if i < |a| { assert ab[i] == a[i]; } else { assert ab[i] == b[i - |a|]; }
    }
  }

  /** Text of unreserved characters only is left as it is. */
  lemma {:induction false} EncodeUnreserved(s: string)
    requires forall i :: 0 <= i < |s| ==> Unreserved(s[i])
    ensures AllAscii(s) && PercentEncode(s) == s
    decreases |s|
  {
    if s != [] {
      EncodeUnreserved(s[1..]);
      assert s == [s[0]] + s[1..];
    }
  }

  /** Decoding what was encoded gives the text back. */
  lemma {:induction false} DecodeEncode(s: string)
    requires AllAscii(s)
    ensures PercentDecode(PercentEncode(s)) == Some(s)
    decreases |s|
  {
    if s != [] {
      EncodeStep(s);
      DecodeEncode(s[1..]);
      DecodeCharThen(s[0], PercentEncode(s[1..]), s[1..]);
      ConsTail(s);
    }
  }

  lemma EncodeStep(s: string)
    requires s != [] && AllAscii(s)
    ensures AllAscii(s[1..]) && PercentEncode(s) == EncodeChar(s[0]) + PercentEncode(s[1..])
  {
  }

  lemma ConsTail(s: string)
    requires s != []
    ensures [s[0]] + s[1..] == s
  {
  }

  /** Between two unreserved names, only the middle part is encoded. */
  lemma EncodeBetween(a: string, m: string, b: string)
    requires forall i :: 0 <= i < |a| ==> Unreserved(a[i])
    requires forall i :: 0 <= i < |b| ==> Unreserved(b[i])
    requires AllAscii(m)
    ensures AllAscii(a + m + b) && PercentEncode(a + m + b) == a + PercentEncode(m) + b
  {
    EncodeUnreserved(a);
    EncodeUnreserved(b);
    EncodeConcat(m, b);
    AsciiConcat(m, b);
    EncodeConcat(a, m + b);
    Assoc(a, m, b);
    Assoc(a, PercentEncode(m), b);
  }

  lemma Assoc(x: string, y: string, z: string)
    ensures x + (y + z) == x + y + z
  {
  }

  /** Decoding one encoded character followed by text that decodes to `d`. */
  lemma DecodeCharThen(c: char, rest: string, d: string)
    requires IsAscii(c) && PercentDecode(rest) == Some(d)
    ensures PercentDecode(EncodeChar(c) + rest) == Some([c] + d)
  {
    var e := EncodeChar(c) + rest;
    if Unreserved(c) {
      assert e[0] == c && e[1..] == rest;
    } else {
      assert e[..3] == EncodeChar(c) && e[3..] == rest;
      assert AsciiEscapeAt(e, 0) && EscapedChar(e, 0) == c;
    }
  }

  /** The lenient decoding of a form-encoded query component: `+` is a space,
      a valid `%XX` its character, anything else stays as written. */
  function FormDecode(s: string): (r: string)
    ensures '%' !in s && '+' !in s ==> r == s
    decreases |s|
  {
    if s == [] then []
    else if s[0] == '+' then [' '] + FormDecode(s[1..])
    else if AsciiEscapeAt(s, 0) then [EscapedChar(s, 0)] + FormDecode(s[3..])
    else [s[0]] + FormDecode(s[1..])
  }

  /** `%2F` or `%2f` at position `i`. */
  predicate EncodedSlashAt(s: string, i: nat) {
    i + 3 <= |s| && s[i] == '%' && s[i + 1] == '2' && (s[i + 2] == 'F' || s[i + 2] == 'f')
  }

  predicate HasEncodedSlash(s: string) {
    exists i :: 0 <= i < |s| && EncodedSlashAt(s, i)
  }

  /** `s.replace(/%2F/gi, "/")`: every encoded slash, scanning from the left,
      becomes `/`. */
  function ReplaceEncodedSlash(s: string): (r: string)
    ensures |r| <= |s|
    ensures s != [] ==> r != [] && (r[0] == s[0] || r[0] == '/')
    decreases |s|
  {
    if s == [] then []
    else if EncodedSlashAt(s, 0) then ['/'] + ReplaceEncodedSlash(s[3..])
    else [s[0]] + ReplaceEncodedSlash(s[1..])
  }

  /** The replacement leaves no encoded slash behind. */
  lemma {:induction false} ReplaceLeavesNoEncodedSlash(s: string)
    ensures !HasEncodedSlash(ReplaceEncodedSlash(s))
    decreases |s|
  {
    if s != [] {
      if EncodedSlashAt(s, 0) {
        ReplaceLeavesNoEncodedSlash(s[3..]);
        NoEncodedSlashCons('/', ReplaceEncodedSlash(s[3..]));
      } else {
        var rest := ReplaceEncodedSlash(s[1..]);
        ReplaceLeavesNoEncodedSlash(s[1..]);
        if s[0] == '%' && |rest| >= 2 && rest[0] == '2' {
          // `rest` starts with `s[1]`, which is not `%`, so its second
          // character comes from `s[2..]`.
          assert s[1] == '2';
          assert rest == ['2'] + ReplaceEncodedSlash(s[2..]);
          assert !(s[2] == 'F' || s[2] == 'f');
        }
        NoEncodedSlashCons(s[0], rest);
      }
    }
  }

  /** A string without encoded slashes comes back unchanged. */
  lemma {:induction false} ReplaceWithoutEncodedSlash(s: string)
    requires !HasEncodedSlash(s)
    ensures ReplaceEncodedSlash(s) == s
    decreases |s|
  {
    if s != [] {
      assert !EncodedSlashAt(s, 0);
      forall i | 0 <= i < |s| - 1 ensures !EncodedSlashAt(s[1..], i) {
        assert !EncodedSlashAt(s, i + 1);
      }
      ReplaceWithoutEncodedSlash(s[1..]);
    }
  }

  /** Putting a character in front of a string without encoded slashes adds
      one only when the character is `%` and the string starts with `2F`. */
  lemma NoEncodedSlashCons(c: char, s: string)
    requires !HasEncodedSlash(s)
    requires c == '%' ==> !(|s| >= 2 && s[0] == '2' && (s[1] == 'F' || s[1] == 'f'))
    ensures !HasEncodedSlash([c] + s)
  {
    var t := [c] + s;
    forall i | 0 <= i < |t| ensures !EncodedSlashAt(t, i) {
      if i > 0 {
        assert !EncodedSlashAt(s, i - 1);
      }
    }
  }
}
