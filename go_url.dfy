/** Query-string escaping as Go's `url.QueryEscape` does it: the UTF-8
    bytes of the text, each unreserved byte (section 2.3 of RFC 3986) kept,
    a space written as `+`, every other byte written as `%` and two
    upper-case hexadecimal digits.

    The reading side, which the verification endpoint performs, is given
    as a reference inverse: `QueryUnescape` and `ParseQuery`.
 */
module GoUrl {
  import opened Outcomes
  import opened GoStrings

  type Byte = b: int | 0 <= b < 256

  /* ---------------- UTF-8 ---------------- */

  predicate IsContinuation(b: Byte) {
    0x80 <= b < 0xC0
  }

  predicate IsScalarValue(cp: int) {
    0 <= cp < 0xD800 || 0xE000 <= cp < 0x11_0000
  }

  /** The UTF-8 encoding of one character. */
  function EncodeRune(c: char): (bs: seq<Byte>)
    ensures 1 <= |bs| <= 4
    ensures |bs| == 1 <==> (c as int) < 0x80
  {
    var cp := c as int;
    if cp < 0x80 then [cp]
    else if cp < 0x800 then [0xC0 + cp / 64, 0x80 + cp % 64]
    else if cp < 0x1_0000 then [0xE0 + cp / 4096, 0x80 + (cp / 64) % 64, 0x80 + cp % 64]
    else [0xF0 + cp / 262144, 0x80 + (cp / 4096) % 64, 0x80 + (cp / 64) % 64, 0x80 + cp % 64]
  }

  /** The UTF-8 encoding of a string, which is how Go stores it. */
  function Utf8(s: string): seq<Byte> {
    if s == [] then [] else EncodeRune(s[0]) + Utf8(s[1..])
  }

  /** Reads one character off the front of `bs`, with the number of bytes
      it took. An overlong form (a character written with more bytes than
      it needs) and a surrogate are rejected. */
  function DecodeRune(bs: seq<Byte>): (r: Option<(char, nat)>)
    ensures r.Some? ==> 1 <= r.value.1 <= |bs|
  {
    if |bs| == 0 then None
    else
      var b0: int, b1: int, b2: int, b3: int :=
        bs[0], if |bs| > 1 then bs[1] else 0, if |bs| > 2 then bs[2] else 0, if |bs| > 3 then bs[3] else 0;
      if b0 < 0x80 then Some((b0 as char, 1))
      else if 0xC0 <= b0 < 0xE0 && |bs| >= 2 && IsContinuation(b1) then
        var cp := (b0 - 0xC0) * 64 + (b1 - 0x80);
        if 0x80 <= cp && IsScalarValue(cp) then Some((cp as char, 2)) else None
      else if 0xE0 <= b0 < 0xF0 && |bs| >= 3 && IsContinuation(b1) && IsContinuation(b2) then
        var cp := (b0 - 0xE0) * 4096 + (b1 - 0x80) * 64 + (b2 - 0x80);
        if 0x800 <= cp && IsScalarValue(cp) then Some((cp as char, 3)) else None
      else if 0xF0 <= b0 < 0xF8 && |bs| >= 4
              && IsContinuation(b1) && IsContinuation(b2) && IsContinuation(b3) then
        var cp := (b0 - 0xF0) * 262144 + (b1 - 0x80) * 4096 + (b2 - 0x80) * 64 + (b3 - 0x80);
        if 0x1_0000 <= cp && IsScalarValue(cp) then Some((cp as char, 4)) else None
      else None
  }

  /** Decodes a whole byte sequence as UTF-8. */
  function DecodeUtf8(bs: seq<Byte>): Option<string>
    decreases |bs|
  {
    if bs == [] then Some("")
    else
      match DecodeRune(bs)
      case None => None
      case Some((c, n)) =>
        match DecodeUtf8(bs[n..])
        case None => None
        case Some(s) => Some([c] + s)
  }

  lemma DecodeEncodedRune(c: char, rest: seq<Byte>)
    ensures DecodeRune(EncodeRune(c) + rest) == Some((c, |EncodeRune(c)|))
  {
    var cp := c as int;
    if cp < 0x80 {
      assert (EncodeRune(c) + rest)[0] == cp;
    } else if cp < 0x800 {
      DecodeTwoBytes(c, rest);
    } else if cp < 0x1_0000 {
      DecodeThreeBytes(c, rest);
    } else {
      DecodeFourBytes(c, rest);
    }
  }

  lemma DecodeTwoBytes(c: char, rest: seq<Byte>)
    requires 0x80 <= c as int < 0x800
    ensures DecodeRune(EncodeRune(c) + rest) == Some((c, 2))
  {
    var cp := c as int;
    var q, r := cp / 64, cp % 64;
    assert cp == q * 64 + r;
    var bs := EncodeRune(c) + rest;
    assert bs[0] == 0xC0 + q && bs[1] == 0x80 + r;
  }

  lemma DecodeThreeBytes(c: char, rest: seq<Byte>)
    requires 0x800 <= c as int < 0x1_0000
    ensures DecodeRune(EncodeRune(c) + rest) == Some((c, 3))
  {
    var cp := c as int;
    var q, m, r := cp / 4096, (cp / 64) % 64, cp % 64;
    assert cp / 64 == q * 64 + m;
    assert cp == q * 4096 + m * 64 + r;
    var bs := EncodeRune(c) + rest;
    assert bs[0] == 0xE0 + q && bs[1] == 0x80 + m && bs[2] == 0x80 + r;
  }

  lemma DecodeFourBytes(c: char, rest: seq<Byte>)
    requires 0x1_0000 <= c as int
    ensures DecodeRune(EncodeRune(c) + rest) == Some((c, 4))
  {
    var cp := c as int;
    var q, m1, m2, r := cp / 262144, (cp / 4096) % 64, (cp / 64) % 64, cp % 64;
    assert cp / 4096 == q * 64 + m1;
    assert cp / 64 == (cp / 4096) * 64 + m2;
    assert cp == q * 262144 + m1 * 4096 + m2 * 64 + r;
    var bs := EncodeRune(c) + rest;
    assert bs[0] == 0xF0 + q && bs[1] == 0x80 + m1 && bs[2] == 0x80 + m2 && bs[3] == 0x80 + r;
  }

  /** Decoding undoes encoding. */
  lemma {:induction false} DecodeUtf8OfUtf8(s: string)
    ensures DecodeUtf8(Utf8(s)) == Some(s)
  {
    if s != [] {
      var head := EncodeRune(s[0]);
      DecodeEncodedRune(s[0], Utf8(s[1..]));
      assert (head + Utf8(s[1..]))[|head|..] == Utf8(s[1..]);
      DecodeUtf8OfUtf8(s[1..]);
      assert [s[0]] + s[1..] == s;
    }
  }

  /* ---------------- Escaping ---------------- */

  /** The unreserved characters of section 2.3 of RFC 3986. */
  predicate IsUnreservedChar(c: char) {
    'a' <= c <= 'z' || 'A' <= c <= 'Z' || '0' <= c <= '9' || c == '-' || c == '_' || c == '.' || c == '~'
  }

  predicate IsUnreservedByte(b: Byte) {
    b < 0x80 && IsUnreservedChar(b as char)
  }

  /** One of Go's upper-case hexadecimal digits `0123456789ABCDEF`. */
  function HexDigit(d: nat): (c: char)
    requires d < 16
    ensures IsUnreservedChar(c)
  {
    if d < 10 then (('0' as int) + d) as char else (('A' as int) + d - 10) as char
  }

  predicate IsHex(c: char) {
    '0' <= c <= '9' || 'a' <= c <= 'f' || 'A' <= c <= 'F'
  }

  function HexValue(c: char): (d: nat)
    requires IsHex(c)
    ensures d < 16
  {
    if '0' <= c <= '9' then (c as int) - ('0' as int)
    else if 'a' <= c <= 'f' then (c as int) - ('a' as int) + 10
    else (c as int) - ('A' as int) + 10
  }

  /** How `url.QueryEscape` writes one byte. */
  function EscapeByte(b: Byte): (e: string)
    ensures forall i :: 0 <= i < |e| ==> IsEscapedChar(e[i])
  {
    if IsUnreservedByte(b) then [b as char]
    else if b == 32 then "+"
    else ['%', HexDigit(b / 16), HexDigit(b % 16)]
  }

  function EscapeBytes(bs: seq<Byte>): (e: string)
    ensures forall i :: 0 <= i < |e| ==> IsEscapedChar(e[i])
  {
    if bs == [] then "" else EscapeByte(bs[0]) + EscapeBytes(bs[1..])
  }

  /** Characters that can appear in an escaped query component. */
  predicate IsEscapedChar(c: char) {
    IsUnreservedChar(c) || c == '+' || c == '%'
  }

  /** `url.QueryEscape`: the escaping of the UTF-8 bytes of `s`. Its result
      holds no `&`, `=`, `?`, `#` or space, so it can sit inside a query
      string without changing the query's structure. */
  function QueryEscape(s: string): (e: string)
    ensures forall i :: 0 <= i < |e| ==> IsEscapedChar(e[i])
  {
    if s == [] then "" else EscapeBytes(EncodeRune(s[0])) + QueryEscape(s[1..])
  }

  /** An escaped character never delimits a query parameter. */
  lemma EscapedCharIsNotDelimiter(c: char)
    requires IsEscapedChar(c)
    ensures c != '&' && c != '=' && c != '?' && c != '#' && c != ' '
  {
  }

  /* ---------------- Unescaping (the reading side) ---------------- */

  function Prepend(bs: seq<Byte>, r: Option<seq<Byte>>): Option<seq<Byte>> {
    match r
    case None => None
    case Some(rest) => Some(bs + rest)
  }

  /** Reverses the escaping byte by byte: `%XX` is the byte XX, `+` is a
      space, any other character stands for its own UTF-8 bytes. A `%`
      not followed by two hexadecimal digits is an error. */
  function UnescapeBytes(t: string): Option<seq<Byte>>
    decreases |t|
  {
    if t == [] then Some([])
    else if t[0] == '%' then
      if |t| >= 3 && IsHex(t[1]) && IsHex(t[2]) then
        Prepend([HexValue(t[1]) * 16 + HexValue(t[2])], UnescapeBytes(t[3..]))
      else None
    else if t[0] == '+' then Prepend([32], UnescapeBytes(t[1..]))
    else Prepend(EncodeRune(t[0]), UnescapeBytes(t[1..]))
  }

  /** The reference inverse of `QueryEscape`: unescape the bytes, then
      decode them as UTF-8. */
  function QueryUnescape(t: string): Option<string> {
    match UnescapeBytes(t)
    case None => None
    case Some(bs) => DecodeUtf8(bs)
  }

  lemma PrependPrepend(a: seq<Byte>, b: seq<Byte>, r: Option<seq<Byte>>)
    ensures Prepend(a, Prepend(b, r)) == Prepend(a + b, r)
    ensures Prepend([], r) == r
  {
    if r.Some? {
      assert a + (b + r.value) == (a + b) + r.value;
      assert [] + r.value == r.value;
    }
  }

  lemma UnescapeEscapedByte(b: Byte, t: string)
    ensures UnescapeBytes(EscapeByte(b) + t) == Prepend([b], UnescapeBytes(t))
  {
    var e := EscapeByte(b) + t;
    if IsUnreservedByte(b) {
      assert e[0] == b as char && e[1..] == t;
    } else if b == 32 {
      assert e[0] == '+' && e[1..] == t;
    } else {
      assert e[0] == '%' && e[1] == HexDigit(b / 16) && e[2] == HexDigit(b % 16) && e[3..] == t;
      assert HexValue(HexDigit(b / 16)) == b / 16;
      assert HexValue(HexDigit(b % 16)) == b % 16;
    }
  }

  lemma {:induction false} UnescapeEscapedBytes(bs: seq<Byte>, t: string)
    ensures UnescapeBytes(EscapeBytes(bs) + t) == Prepend(bs, UnescapeBytes(t))
  {
    if bs != [] {
      calc {
        UnescapeBytes(EscapeBytes(bs) + t);
        { assert EscapeBytes(bs) + t == EscapeByte(bs[0]) + (EscapeBytes(bs[1..]) + t); }
        UnescapeBytes(EscapeByte(bs[0]) + (EscapeBytes(bs[1..]) + t));
        { UnescapeEscapedByte(bs[0], EscapeBytes(bs[1..]) + t); }
        Prepend([bs[0]], UnescapeBytes(EscapeBytes(bs[1..]) + t));
        { UnescapeEscapedBytes(bs[1..], t); }
        Prepend([bs[0]], Prepend(bs[1..], UnescapeBytes(t)));
        { PrependPrepend([bs[0]], bs[1..], UnescapeBytes(t));
          assert [bs[0]] + bs[1..] == bs; }
        Prepend(bs, UnescapeBytes(t));
      }
    } else {
      assert EscapeBytes(bs) + t == t;
      PrependPrepend([], [], UnescapeBytes(t));
    }
  }

  lemma {:induction false} UnescapeQueryEscape(s: string)
    ensures UnescapeBytes(QueryEscape(s)) == Some(Utf8(s))
  {
    if s != [] {
      UnescapeEscapedBytes(EncodeRune(s[0]), QueryEscape(s[1..]));
      UnescapeQueryEscape(s[1..]);
    }
  }

  /** Unescaping gives back exactly the escaped text. */
  lemma QueryUnescapeOfEscape(s: string)
    ensures QueryUnescape(QueryEscape(s)) == Some(s)
  {
    UnescapeQueryEscape(s);
    DecodeUtf8OfUtf8(s);
  }

  /** Text made of unreserved characters is left as it is. */
  lemma {:induction false} QueryEscapeUnreserved(s: string)
    requires forall i :: 0 <= i < |s| ==> IsUnreservedChar(s[i])
    ensures QueryEscape(s) == s
  {
    if s != [] {
      QueryEscapeUnreserved(s[1..]);
      var bs := EncodeRune(s[0]);
      assert bs == [s[0] as int];
      assert EscapeBytes(bs) == EscapeByte(bs[0]) + EscapeBytes(bs[1..]);
      assert [s[0]] + s[1..] == s;
    }
  }

  /* ---------------- Query strings ---------------- */

  /** One `key=value` piece: the key ends at the first `=`; a piece
      without `=` has an empty value. Both halves are unescaped. */
  function ParseParameter(piece: string): Option<(string, string)> {
    var halves := Split(piece, '=');
    match (QueryUnescape(halves[0]), QueryUnescape(Join(halves[1..], '=')))
    case (Some(k), Some(v)) => Some((k, v))
    case _ => None
  }

  function ParseParameters(pieces: seq<string>): Option<seq<(string, string)>> {
    if pieces == [] then Some([])
    else
      match (ParseParameter(pieces[0]), ParseParameters(pieces[1..]))
      case (Some(p), Some(ps)) => Some([p] + ps)
      case _ => None
  }

  /** Reads a query string as its `&`-separated parameters, in order. */
  function ParseQuery(query: string): Option<seq<(string, string)>> {
    ParseParameters(Split(query, '&'))
  }

  /** A parameter written as `key=QueryEscape(value)` with an unreserved key
      reads back as the pair. */
  lemma ParseEscapedParameter(key: string, value: string)
    requires |key| >= 1 && forall i :: 0 <= i < |key| ==> IsUnreservedChar(key[i])
    ensures '&' !in key + "=" + QueryEscape(value)
    ensures ParseParameter(key + "=" + QueryEscape(value)) == Some((key, value))
  {
    var e := QueryEscape(value);
    var piece := key + "=" + e;
    forall i | 0 <= i < |e| ensures e[i] != '&' && e[i] != '=' {
      EscapedCharIsNotDelimiter(e[i]);
    }
    forall i | 0 <= i < |piece| ensures piece[i] != '&' {
      if i < |key| {
        assert piece[i] == key[i];
      } else if i > |key| {
        assert piece[i] == e[i - |key| - 1];
      }
    }
    assert '=' !in key by {
      forall i | 0 <= i < |key| ensures key[i] != '=' {
        assert IsUnreservedChar(key[i]);
      }
    }
    assert piece == Join([key, e], '=');
    SplitOfJoin([key, e], '=');
    assert Split(piece, '=')[1..] == [e];
    QueryEscapeUnreserved(key);
    QueryUnescapeOfEscape(key);
    QueryUnescapeOfEscape(value);
  }

  /** Two pieces without `&`, joined by `&`, parse as the two parameters in
      order. */
  lemma ParseTwoPieces(p1: string, p2: string, a: (string, string), b: (string, string))
    requires '&' !in p1 && '&' !in p2
    requires ParseParameter(p1) == Some(a) && ParseParameter(p2) == Some(b)
    ensures ParseQuery(p1 + "&" + p2) == Some([a, b])
  {
    assert p1 + "&" + p2 == Join([p1, p2], '&');
    SplitOfJoin([p1, p2], '&');
    assert Split(p1 + "&" + p2, '&') == [p1, p2];
    assert [p1, p2][1..] == [p2];
    assert [p2][1..] == [] && [p2][0] == p2;
    assert ParseParameters([]) == Some([]);
    assert [b] + [] == [b];
    assert ParseParameters([p2]) == Some([b]);
    assert ParseParameters([p1, p2]) == Some([a] + [b]);
    assert [a] + [b] == [a, b];
  }

  /** Two escaped parameters with unreserved keys, joined by `&`, read back
      as the two pairs in order. */
  lemma ParseTwoEscapedParameters(k1: string, v1: string, k2: string, v2: string)
    requires |k1| >= 1 && forall i :: 0 <= i < |k1| ==> IsUnreservedChar(k1[i])
    requires |k2| >= 1 && forall i :: 0 <= i < |k2| ==> IsUnreservedChar(k2[i])
    ensures ParseQuery(k1 + "=" + QueryEscape(v1) + "&" + (k2 + "=" + QueryEscape(v2)))
         == Some([(k1, v1), (k2, v2)])
  {
    ParseEscapedParameter(k1, v1);
    ParseEscapedParameter(k2, v2);
    ParseTwoPieces(k1 + "=" + QueryEscape(v1), k2 + "=" + QueryEscape(v2), (k1, v1), (k2, v2));
  }
}
