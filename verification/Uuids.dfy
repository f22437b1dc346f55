/** Reading identifiers: the spellings UUID() takes and the one it prints
    (section 3 of RFC 4122). */
module Uuids {
  import opened Common

  predicate IsHex(c: char) {
    '0' <= c <= '9' || 'a' <= c <= 'f' || 'A' <= c <= 'F'
  }

  function LowerChar(c: char): char {
    if 'A' <= c <= 'F' then c + 32 as char else c
  }

  function Lower(s: string): string {
    seq(|s|, i requires 0 <= i < |s| => LowerChar(s[i]))
  }

  predicate AllHex(s: string) {
    forall i | 0 <= i < |s| :: IsHex(s[i])
  }

  // --- From text to a number ------------------------------------------------------------

  /** str.replace(word, ""), leftmost occurrences first. */
  function Removed(s: string, word: string): string
    requires word != []
  {
    if s == [] then []
    else if word <= s then Removed(s[|word|..], word)
    else [s[0]] + Removed(s[1..], word)
  }

  predicate Brace(c: char) {
    c == '{' || c == '}'
  }

  function StripBraces(s: string): string {
    if s != [] && Brace(s[0]) then StripBraces(s[1..])
    else if s != [] && Brace(s[|s| - 1]) then StripBraces(s[..|s| - 1])
    else s
  }

  function DropHyphens(s: string): string {
    if s == [] then []
    else if s[0] == '-' then DropHyphens(s[1..])
    else [s[0]] + DropHyphens(s[1..])
  }

  function DigitValue(c: char): nat
    requires IsHex(c)
  {
    if c <= '9' then c as nat - '0' as nat
    else if c <= 'F' then c as nat - 'A' as nat + 10
    else c as nat - 'a' as nat + 10
  }

  /** Hex digits, with single underscores allowed between them. */
  function ReadDigits(s: string, soFar: nat): Option<nat> {
    if s == [] || !IsHex(s[0]) then None else
      var value := 16 * soFar + DigitValue(s[0]);
      if |s| == 1 then Some(value)
      else if s[1] == '_' then ReadDigits(s[2..], value)
      else ReadDigits(s[1..], value)
  }

  predicate Space(c: char) {
    c == ' ' || '\t' <= c <= '\r'
  }

  function StripSpaces(s: string): string {
    if s != [] && Space(s[0]) then StripSpaces(s[1..])
    else if s != [] && Space(s[|s| - 1]) then StripSpaces(s[..|s| - 1])
    else s
  }

  /** int(text, 16) on ASCII text without a minus sign: a plus, a 0x and an underscore
      after it are all allowed in front of the digits. */
  function ReadHex(text: string): Option<nat> {
    var s := StripSpaces(text);
    var t := if s != [] && s[0] == '+' then s[1..] else s;
    var u := if |t| >= 2 && t[0] == '0' && (t[1] == 'x' || t[1] == 'X') then t[2..] else t;
    ReadDigits(if |u| < |t| && u != [] && u[0] == '_' then u[1..] else u, 0)
  }

  // --- From a number to text ---------------------------------------------------------------

  function DigitChar(d: nat): char
    requires d < 16
  {
    if d < 10 then '0' + d as char else 'a' + (d - 10) as char
  }

  /** The number in exactly so many hex digits. */
  function HexText(value: nat, digits: nat): (h: string)
    ensures |h| == digits
  {
    if digits == 0 then [] else HexText(value / 16, digits - 1) + [DigitChar(value % 16)]
  }

  function Grouped(h: string): string
    requires |h| == 32
  {
    h[..8] + ("-" + (h[8..12] + ("-" + (h[12..16] + ("-" + (h[16..20] + ("-" + h[20..])))))))
  }

  function ParseUuid(s: string): Option<string> {
    var h := DropHyphens(StripBraces(Removed(Removed(s, "urn:"), "uuid:")));
    if |h| != 32 then None else
      match ReadHex(h)
      case None => None
      case Some(value) => Some(Grouped(HexText(value, 32)))
  }

  // --- Printed identifiers read back ---------------------------------------------------------

  lemma {:induction false} NothingRemoved(s: string, word: string)
    requires word != [] && word[|word| - 1] !in s
    ensures Removed(s, word) == s
  {
    if s != [] {
      assert !(word <= s);
      NothingRemoved(s[1..], word);
    }
  }

  lemma {:induction false} DropJoin(a: string, b: string)
    ensures DropHyphens(a + b) == DropHyphens(a) + DropHyphens(b)
  {
    if a == [] {
      assert a + b == b;
    } else {
      assert (a + b)[1..] == a[1..] + b;
      DropJoin(a[1..], b);
    }
  }

  lemma {:induction false} DropHex(a: string)
    requires AllHex(a)
    ensures DropHyphens(a) == a
  {
    if a != [] {
      DropHex(a[1..]);
    }
  }

  lemma DropGroup(a: string, rest: string)
    requires AllHex(a)
    ensures DropHyphens(a + ("-" + rest)) == a + DropHyphens(rest)
  {
    DropJoin(a, "-" + rest);
    DropHex(a);
    assert ("-" + rest)[1..] == rest;
  }

  lemma GroupedDrops(h: string)
    requires |h| == 32 && AllHex(h)
    ensures DropHyphens(StripBraces(Grouped(h))) == h
    ensures ':' !in Grouped(h)
  {
    var g := Grouped(h);
    assert g[0] == h[0] && g[|g| - 1] == h[31];
    assert StripBraces(g) == g;
    var d, c := h[16..20] + ("-" + h[20..]), h[12..16];
    DropHex(h[20..]);
    DropGroup(h[16..20], h[20..]);
    DropGroup(c, d);
    DropGroup(h[8..12], c + ("-" + d));
    DropGroup(h[..8], h[8..12] + ("-" + (c + ("-" + d))));
  }

  /** The number a row of hex digits stands for, after so much before it. */
  function Folded(h: string, soFar: nat): nat
    requires AllHex(h)
  {
    if h == [] then soFar else Folded(h[1..], 16 * soFar + DigitValue(h[0]))
  }

  lemma {:induction false} ReadFolds(h: string, soFar: nat)
    requires AllHex(h) && h != []
    ensures ReadDigits(h, soFar) == Some(Folded(h, soFar))
  {
    if |h| > 1 {
      assert IsHex(h[1]);
      ReadFolds(h[1..], 16 * soFar + DigitValue(h[0]));
    } else {
      assert h[1..] == [];
    }
  }

  lemma {:induction false} FoldedLast(h: string, c: char, soFar: nat)
    requires AllHex(h) && IsHex(c) && AllHex(h + [c])
    ensures Folded(h + [c], soFar) == 16 * Folded(h, soFar) + DigitValue(c)
  {
    if h == [] {
      assert [] + [c] == [c] && [c][1..] == [];
    } else {
      assert (h + [c])[1..] == h[1..] + [c];
      FoldedLast(h[1..], c, 16 * soFar + DigitValue(h[0]));
    }
  }

  /** Printing what was read gives the digits back, in lower case. */
  lemma {:induction false} HexTextOf(h: string)
    requires AllHex(h)
    ensures HexText(Folded(h, 0), |h|) == Lower(h)
  {
    if h != [] {
      var front, c := h[..|h| - 1], h[|h| - 1];
      assert h == front + [c];
      HexTextOf(front);
      FoldedLast(front, c, 0);
      LowerLast(front, c);
      hide Folded, LowerChar, Lower, DigitValue, DigitChar;
      LastDigit(Folded(front, 0), c);
    }
  }

  lemma LowerLast(s: string, c: char)
    ensures Lower(s + [c]) == Lower(s) + [LowerChar(c)]
  {
  }

  lemma LastDigit(soFar: nat, c: char)
    requires IsHex(c)
    ensures DigitValue(c) < 16
    ensures (16 * soFar + DigitValue(c)) / 16 == soFar && (16 * soFar + DigitValue(c)) % 16 == DigitValue(c)
    ensures DigitChar(DigitValue(c)) == LowerChar(c)
  {
    assert DigitValue(c) < 16;
  }

  lemma ReadPlainHex(h: string)
    requires AllHex(h) && h != []
    ensures ReadHex(h) == Some(Folded(h, 0))
  {
    assert StripSpaces(h) == h;
    assert |h| >= 2 ==> IsHex(h[1]);
    ReadFolds(h, 0);
  }

  /** What is left of a spelling once its decoration is gone decides how it is read. */
  lemma BareDigitsParse(s: string, h: string)
    requires |h| == 32 && AllHex(h)
    requires DropHyphens(StripBraces(Removed(Removed(s, "urn:"), "uuid:"))) == h
    ensures ParseUuid(s) == Some(Grouped(Lower(h)))
  {
    hide Grouped, DropHyphens, StripBraces, Removed, ReadHex, HexText, Folded;
    ReadPlainHex(h);
    HexTextOf(h);
  }

  /** Thirty-two hex digits in groups are read as their lower-case form. */
  lemma GroupedParses(h: string)
    requires |h| == 32 && AllHex(h)
    ensures ParseUuid(Grouped(h)) == Some(Grouped(Lower(h)))
  {
    var g := Grouped(h);
    GroupedDrops(h);
    hide ParseUuid, Grouped, DropHyphens, StripBraces, Removed;
    NothingRemoved(g, "urn:");
    NothingRemoved(g, "uuid:");
    BareDigitsParse(g, h);
  }

  /** The other spellings are read as the same identifier: without hyphens, in braces, and
      as a URN. */
  lemma SpellingsAgree(h: string)
    requires |h| == 32 && AllHex(h)
    ensures ParseUuid(h) == ParseUuid("{" + Grouped(h) + "}") == ParseUuid("urn:uuid:" + Grouped(h))
         == Some(Grouped(Lower(h)))
  {
    hide ParseUuid, Grouped;
    PlainParses(h);
    BracedParses(h);
    UrnParses(h);
  }

  lemma PlainParses(h: string)
    requires |h| == 32 && AllHex(h)
    ensures ParseUuid(h) == Some(Grouped(Lower(h)))
  {
    NothingRemoved(h, "urn:");
    NothingRemoved(h, "uuid:");
    assert StripBraces(h) == h;
    DropHex(h);
    hide ParseUuid, Grouped, DropHyphens, StripBraces, Removed;
    BareDigitsParse(h, h);
  }

  lemma BracedParses(h: string)
    requires |h| == 32 && AllHex(h)
    ensures ParseUuid("{" + Grouped(h) + "}") == Some(Grouped(Lower(h)))
  {
    var g := Grouped(h);
    GroupedDrops(h);
    assert IsHex(g[0]) by { assert g[0] == h[0]; }
    hide ParseUuid, Grouped, DropHyphens, Removed;
    NothingRemoved("{" + g + "}", "urn:");
    NothingRemoved("{" + g + "}", "uuid:");
    BracesStripped(g);
    BareDigitsParse("{" + g + "}", h);
  }

  lemma BracesStripped(g: string)
    requires g != [] && !Brace(g[0])
    ensures StripBraces("{" + g + "}") == StripBraces(g)
  {
    assert ("{" + g + "}")[1..] == g + "}";
    assert (g + "}")[..|g|] == g;
  }

  lemma UrnParses(h: string)
    requires |h| == 32 && AllHex(h)
    ensures ParseUuid("urn:uuid:" + Grouped(h)) == Some(Grouped(Lower(h)))
  {
    var g := Grouped(h);
    GroupedDrops(h);
    assert IsHex(g[0]) by { assert g[0] == h[0]; }
    hide ParseUuid, Grouped, DropHyphens, StripBraces;
    NothingRemoved(g, "urn:");
    NothingRemoved(g, "uuid:");
    assert "urn:uuid:" + g == "urn:" + ("uuid:" + g);
    PrefixRemoved("uuid:" + g, "urn:");
    NoUrnAcross("uuid:", g);
    PrefixRemoved(g, "uuid:");
    BareDigitsParse("urn:uuid:" + g, h);
  }

  lemma PrefixRemoved(s: string, word: string)
    requires word != []
    ensures Removed(word + s, word) == Removed(s, word)
  {
    assert (word + s)[|word|..] == s;
  }

  /** Text without an r keeps clear of "urn:". */
  lemma {:induction false} NoUrnAcross(a: string, g: string)
    requires 'r' !in a && (g == [] || g[0] != 'r')
    ensures Removed(a + g, "urn:") == a + Removed(g, "urn:")
  {
    if a == [] {
      assert a + g == g;
    } else {
      var t := a + g;
      UrnNotHere(t);
      hide Removed;
      assert t[1..] == a[1..] + g;
      NoUrnAcross(a[1..], g);
      assert a + Removed(g, "urn:") == [a[0]] + (a[1..] + Removed(g, "urn:"));
    }
  }

  lemma UrnNotHere(t: string)
    requires t != [] && (|t| > 1 ==> t[1] != 'r')
    ensures Removed(t, "urn:") == [t[0]] + Removed(t[1..], "urn:")
  {
    if |t| > 1 {
      assert t[1] != "urn:"[1];
    }
  }

  lemma LowerGrouped(h: string)
    requires |h| == 32
    ensures Lower(Grouped(h)) == Grouped(Lower(h))
  {
  }

  lemma {:induction false} HexTextIsHex(value: nat, digits: nat)
    ensures AllHex(HexText(value, digits)) && Lower(HexText(value, digits)) == HexText(value, digits)
  {
    if digits > 0 {
      HexTextIsHex(value / 16, digits - 1);
      var front, c := HexText(value / 16, digits - 1), DigitChar(value % 16);
      assert Lower(front + [c]) == Lower(front) + [LowerChar(c)];
    }
  }

  /** The printed form: thirty-two digits in groups, none of them a capital. */
  ghost predicate Printed(u: string) {
    exists h :: |h| == 32 && AllHex(h) && Lower(h) == h && u == Grouped(h)
  }

  /** What is read is printed, and what is printed reads back as itself. */
  lemma PrintedIff(u: string)
    ensures ParseUuid(u) == Some(u) <==> Printed(u)
    ensures forall s :: ParseUuid(s) == Some(u) ==> Printed(u)
  {
    forall s | ParseUuid(s) == Some(u) ensures Printed(u) {
      var h := DropHyphens(StripBraces(Removed(Removed(s, "urn:"), "uuid:")));
      var value := ReadHex(h).value;
      HexTextIsHex(value, 32);
    }
    hide ParseUuid, Grouped, Lower;
    if h :| |h| == 32 && AllHex(h) && Lower(h) == h && u == Grouped(h) {
      GroupedParses(h);
    }
  }

  /** Whatever spelling was read, the printed identifier reads back as itself. */
  lemma ParseUuidStable(s: string, u: string)
    requires ParseUuid(s) == Some(u)
    ensures ParseUuid(u) == Some(u)
  {
    var h := DropHyphens(StripBraces(Removed(Removed(s, "urn:"), "uuid:")));
    var value := ReadHex(h).value;
    HexTextIsHex(value, 32);
    hide ParseUuid;
    GroupedParses(HexText(value, 32));
  }
}
