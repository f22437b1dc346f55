/** encodeURIComponent and decodeURIComponent over Unicode scalar values: percent
    encoding (section 2.1 of RFC 3986) of the UTF-8 form (section 3 of RFC 3629). */
module PercentCoding {
  import opened Common

  predicate Unreserved(c: char) {
    || 'a' <= c <= 'z' || 'A' <= c <= 'Z' || '0' <= c <= '9'
    || c in {'-', '_', '.', '!', '~', '*', '\'', '(', ')'}
  }

  type Byte = b: int | 0 <= b < 256

  function Utf8(c: char): seq<Byte> {
    var n := c as int;
    var q := n / 64;
    var r := q / 64;
    if n < 0x80 then [n]
    else if n < 0x800 then [0xC0 + q, 0x80 + n % 64]
    else if n < 0x10000 then [0xE0 + r, 0x80 + q % 64, 0x80 + n % 64]
    else [0xF0 + r / 64, 0x80 + r % 64, 0x80 + q % 64, 0x80 + n % 64]
  }

  function HexDigit(n: nat): char
    requires n < 16
  {
    if n < 10 then '0' + n as char else 'A' + (n - 10) as char
  }

  function Escape(b: Byte): string {
    ['%', HexDigit(b / 16), HexDigit(b % 16)]
  }

  function Escapes(bytes: seq<Byte>): string {
    if bytes == [] then [] else Escape(bytes[0]) + Escapes(bytes[1..])
  }

  function EncodeChar(c: char): string {
    if Unreserved(c) then [c] else Escapes(Utf8(c))
  }

  function Encode(s: string): string {
    if s == [] then [] else EncodeChar(s[0]) + Encode(s[1..])
  }

  // --- Decoding ---------------------------------------------------------------------

  function HexValue(c: char): Option<nat> {
    if '0' <= c <= '9' then Some(c as int - '0' as int)
    else if 'A' <= c <= 'F' then Some(c as int - 'A' as int + 10)
    else if 'a' <= c <= 'f' then Some(c as int - 'a' as int + 10)
    else None
  }

  /** The byte escaped at position i, if there is one. */
  function ByteAt(s: string, i: nat): Option<Byte> {
    if i + 2 < |s| && s[i] == '%' && HexValue(s[i + 1]).Some? && HexValue(s[i + 2]).Some?
    then Some(16 * HexValue(s[i + 1]).value + HexValue(s[i + 2]).value)
    else None
  }

  /** The six payload bits of a continuation byte. */
  function Continuation(s: string, i: nat): Option<nat> {
    match ByteAt(s, i)
    case Some(b) => if 0x80 <= b < 0xC0 then Some(b - 0x80) else None
    case None => None
  }

  predicate Scalar(n: nat) {
    n < 0xD800 || 0xE000 <= n < 0x110000
  }

  /** The character at the head of the text and the length of its escapes; None is the
      URIError of a malformed, overlong or surrogate sequence. */
  function CharAt(s: string): Option<(char, nat)> {
    match ByteAt(s, 0)
    case None => None
    case Some(b) =>
      if b < 0x80 then Some((b as char, 3))
      else if 0xC0 <= b < 0xE0 then
        var x := Continuation(s, 3);
        if x.None? then None else
          var n := (b - 0xC0) * 64 + x.value;
          if 0x80 <= n < 0x800 then Some((n as char, 6)) else None
      else if 0xE0 <= b < 0xF0 then
        var x, y := Continuation(s, 3), Continuation(s, 6);
        if x.None? || y.None? then None else
          var n := ((b - 0xE0) * 64 + x.value) * 64 + y.value;
          if 0x800 <= n < 0x10000 && Scalar(n) then Some((n as char, 9)) else None
      else if 0xF0 <= b < 0xF8 then
        var x, y, z := Continuation(s, 3), Continuation(s, 6), Continuation(s, 9);
        if x.None? || y.None? || z.None? then None else
          var n := (((b - 0xF0) * 64 + x.value) * 64 + y.value) * 64 + z.value;
          if 0x10000 <= n && Scalar(n) then Some((n as char, 12)) else None
      else None
  }

  lemma CharAtFits(s: string)
    ensures CharAt(s).Some? ==> 3 <= CharAt(s).value.1 <= |s|
  {
  }

  function Decode(s: string): Option<string>
    decreases |s|
  {
    if s == [] then Some([])
    else if s[0] != '%' then
      var rest := Decode(s[1..]);
      if rest.None? then None else Some([s[0]] + rest.value)
    else
      var head := CharAt(s);
      CharAtFits(s);
      if head.None? then None else
        var rest := Decode(s[head.value.1..]);
        if rest.None? then None else Some([head.value.0] + rest.value)
  }

  // --- Encoding hides separators and can be undone --------------------------------------

  lemma HexDigitValue(n: nat)
    requires n < 16
    ensures HexValue(HexDigit(n)) == Some(n)
    ensures Unreserved(HexDigit(n)) && HexDigit(n) != '%'
  {
  }

  lemma {:induction false} EscapesShape(bytes: seq<Byte>)
    ensures |Escapes(bytes)| == 3 * |bytes|
    ensures forall c | c in Escapes(bytes) :: c == '%' || Unreserved(c)
  {
    if bytes != [] {
      EscapesShape(bytes[1..]);
      HexDigitValue(bytes[0] / 16);
      HexDigitValue(bytes[0] % 16);
    }
  }

  /** The k-th escape reads back as the k-th byte, whatever follows the escapes. */
  lemma {:induction false} EscapesRead(bytes: seq<Byte>, rest: string, k: nat)
    requires k < |bytes|
    ensures ByteAt(Escapes(bytes) + rest, 3 * k) == Some(bytes[k])
  {
    var s := Escapes(bytes) + rest;
    EscapesShape(bytes);
    EscapesShape(bytes[1..]);
    assert s == Escape(bytes[0]) + (Escapes(bytes[1..]) + rest);
    if k == 0 {
      HexDigitValue(bytes[0] / 16);
      HexDigitValue(bytes[0] % 16);
    } else {
      EscapesRead(bytes[1..], rest, k - 1);
      var t := Escapes(bytes[1..]) + rest;
      assert s[3 * k] == t[3 * (k - 1)] && s[3 * k + 1] == t[3 * (k - 1) + 1] && s[3 * k + 2] == t[3 * (k - 1) + 2];
    }
  }

  lemma Utf8Undone(c: char, rest: string)
    requires !Unreserved(c)
    ensures CharAt(EncodeChar(c) + rest) == Some((c, |EncodeChar(c)|))
  {
    hide ByteAt, Escapes;
    var bytes, n := Utf8(c), c as int;
    var s, q := Escapes(bytes) + rest, n / 64;
    var r := q / 64;
    EscapesShape(bytes);
    EscapesRead(bytes, rest, 0);
    if n < 0x80 {
    } else if n < 0x800 {
      EscapesRead(bytes, rest, 1);
      assert Continuation(s, 3) == Some(n % 64);
    } else if n < 0x10000 {
      EscapesRead(bytes, rest, 1);
      EscapesRead(bytes, rest, 2);
      assert Continuation(s, 3) == Some(q % 64) && Continuation(s, 6) == Some(n % 64);
      assert (r * 64 + q % 64) * 64 + n % 64 == n;
    } else {
      EscapesRead(bytes, rest, 1);
      EscapesRead(bytes, rest, 2);
      EscapesRead(bytes, rest, 3);
      assert Continuation(s, 3) == Some(r % 64);
      assert Continuation(s, 6) == Some(q % 64) && Continuation(s, 9) == Some(n % 64);
      assert ((r / 64 * 64 + r % 64) * 64 + q % 64) * 64 + n % 64 == n;
    }
  }

  /** The text starts with the escapes of these bytes, in either letter case. */
  ghost predicate Escaped(s: string, bytes: seq<Byte>) {
    forall i | 0 <= i < |bytes| :: ByteAt(s, 3 * i) == Some(bytes[i])
  }

  /** A character is read exactly from the escapes of its own UTF-8 form: nothing overlong,
      no surrogate and no stray byte is taken for one. */
  lemma CharAtIff(s: string, c: char, k: nat)
    ensures CharAt(s) == Some((c, k)) <==> k == 3 * |Utf8(c)| && Escaped(s, Utf8(c))
  {
    if CharAt(s) == Some((c, k)) {
      CharIsEscaped(s, c, k);
    }
    if k == 3 * |Utf8(c)| && Escaped(s, Utf8(c)) {
      EscapedIsChar(s, c);
    }
  }

  lemma CharIsEscaped(s: string, c: char, k: nat)
    requires CharAt(s) == Some((c, k))
    ensures k == 3 * |Utf8(c)| && Escaped(s, Utf8(c))
  {
    hide ByteAt;
    var b := ByteAt(s, 0).value;
    if b < 0x80 {
    } else if b < 0xE0 {
      Split64(b - 0xC0, Continuation(s, 3).value);
    } else if b < 0xF0 {
      ThreeEscaped(s, c, k);
    } else {
      FourEscaped(s, c, k);
    }
  }

  lemma ThreeEscaped(s: string, c: char, k: nat)
    requires CharAt(s) == Some((c, k)) && 0xE0 <= ByteAt(s, 0).value < 0xF0
    ensures k == 3 * |Utf8(c)| && Escaped(s, Utf8(c))
  {
    hide ByteAt;
    var b: int, x: int, y: int := ByteAt(s, 0).value, Continuation(s, 3).value, Continuation(s, 6).value;
    Split64((b - 0xE0) * 64 + x, y);
    Split64(b - 0xE0, x);
    assert Utf8(c) == [b, 0x80 + x, 0x80 + y];
  }

  lemma FourEscaped(s: string, c: char, k: nat)
    requires CharAt(s) == Some((c, k)) && 0xF0 <= ByteAt(s, 0).value
    ensures k == 3 * |Utf8(c)| && Escaped(s, Utf8(c))
  {
    hide ByteAt;
    var b: int, x: int := ByteAt(s, 0).value, Continuation(s, 3).value;
    var y: int, z: int := Continuation(s, 6).value, Continuation(s, 9).value;
    Split64(((b - 0xF0) * 64 + x) * 64 + y, z);
    Split64((b - 0xF0) * 64 + x, y);
    Split64(b - 0xF0, x);
    assert Utf8(c) == [b, 0x80 + x, 0x80 + y, 0x80 + z];
  }

  lemma Split64(high: nat, low: nat)
    requires low < 64
    ensures (high * 64 + low) / 64 == high && (high * 64 + low) % 64 == low
  {
  }

  lemma EscapedIsChar(s: string, c: char)
    requires Escaped(s, Utf8(c))
    ensures CharAt(s) == Some((c, 3 * |Utf8(c)|))
  {
    hide ByteAt;
    var bytes, n := Utf8(c), c as int;
    var q := n / 64;
    var r := q / 64;
    assert ByteAt(s, 3 * 0) == Some(bytes[0]);
    if n < 0x80 {
    } else if n < 0x800 {
      assert ByteAt(s, 3 * 1) == Some(bytes[1]);
    } else if n < 0x10000 {
      assert ByteAt(s, 3 * 1) == Some(bytes[1]) && ByteAt(s, 3 * 2) == Some(bytes[2]);
      assert (r * 64 + q % 64) * 64 + n % 64 == n;
    } else {
      assert ByteAt(s, 3 * 1) == Some(bytes[1]) && ByteAt(s, 3 * 2) == Some(bytes[2]);
      assert ByteAt(s, 3 * 3) == Some(bytes[3]);
      assert ((r / 64 * 64 + r % 64) * 64 + q % 64) * 64 + n % 64 == n;
    }
  }

  lemma {:induction false} DecodeEncode(s: string)
    ensures Decode(Encode(s)) == Some(s)
  {
    if s != [] {
      var c, rest := s[0], Encode(s[1..]);
      DecodeEncode(s[1..]);
      var e := EncodeChar(c) + rest;
      assert e[|EncodeChar(c)|..] == rest;
      if !Unreserved(c) {
        Utf8Undone(c, rest);
        EscapesShape(Utf8(c));
        assert e[0] == Escape(Utf8(c)[0])[0] == '%';
      }
      assert [c] + s[1..] == s;
    }
  }

  /** No separator of a route survives encoding. */
  lemma {:induction false} EncodeHidesSeparators(s: string)
    ensures forall c | c in Encode(s) :: c == '%' || Unreserved(c)
    ensures s != [] ==> Encode(s) != []
  {
    if s != [] {
      EncodeHidesSeparators(s[1..]);
      if !Unreserved(s[0]) {
        EscapesShape(Utf8(s[0]));
      }
    }
  }

  lemma {:induction false} DecodePlain(s: string)
    requires '%' !in s
    ensures Decode(s) == Some(s)
  {
    if s != [] {
      DecodePlain(s[1..]);
      assert [s[0]] + s[1..] == s;
    }
  }

  lemma {:induction false} DecodeShrinks(s: string)
    ensures Decode(s).Some? ==> |Decode(s).value| <= |s|
    decreases |s|
  {
    if s != [] {
      if s[0] != '%' {
        DecodeShrinks(s[1..]);
      } else if CharAt(s).Some? {
        CharAtFits(s);
        DecodeShrinks(s[CharAt(s).value.1..]);
      }
    }
  }
}
