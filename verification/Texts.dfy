/** Text as the protocols measure and check it. */
module Texts {

  predicate Alphanumeric(c: char) {
    'a' <= c <= 'z' || 'A' <= c <= 'Z' || '0' <= c <= '9'
  }

  predicate LowerHex(c: char) {
    '0' <= c <= '9' || 'a' <= c <= 'f'
  }

  predicate IsHex(text: string, length: nat) {
    |text| == length && forall i :: 0 <= i < |text| ==> LowerHex(text[i])
  }

  /** A lower-case UUID: thread identifiers and lease tokens. */
  predicate IsUuid(text: string) {
    && |text| == 36
    && forall i :: 0 <= i < 36 ==> if i in {8, 13, 18, 23} then text[i] == '-' else LowerHex(text[i])
  }

  predicate IsSpace(c: char) {
    var u := c as int;
    || 0x09 <= u <= 0x0D || u == 0x20 || u == 0xA0 || u == 0x1680 || 0x2000 <= u <= 0x200A
    || u == 0x2028 || u == 0x2029 || u == 0x202F || u == 0x205F || u == 0x3000 || u == 0xFEFF
  }

  predicate Blank(text: string) {
    forall i :: 0 <= i < |text| ==> IsSpace(text[i])
  }

  function Utf8Bytes(c: char): nat {
    if c as int < 0x80 then 1 else if c as int < 0x800 then 2 else if c as int < 0x10000 then 3 else 4
  }

  /** The length of a text in UTF-8. */
  function ByteLength(text: string): nat {
    if text == "" then 0 else ByteLength(text[..|text| - 1]) + Utf8Bytes(text[|text| - 1])
  }

  lemma {:induction false} BytesJoin(a: string, b: string)
    ensures ByteLength(a + b) == ByteLength(a) + ByteLength(b)
    decreases |b|
  {
    if b == "" {
      assert a + b == a;
    } else {
      assert (a + b)[..|a + b| - 1] == a + b[..|b| - 1];
      BytesJoin(a, b[..|b| - 1]);
    }
  }

  // ----- What the checks mean -----

  /** So many lower-case hexadecimal digits. */
  ghost predicate HexDigits(text: string, length: nat) {
    |text| == length && forall c :: c in text ==> '0' <= c <= '9' || 'a' <= c <= 'f'
  }

  lemma IsHexIff(text: string, length: nat)
    ensures IsHex(text, length) <==> HexDigits(text, length)
  {
    if HexDigits(text, length) {
      assert forall i :: 0 <= i < |text| ==> text[i] in text;
    }
  }

  /** Five groups of digits, joined by hyphens. */
  ghost predicate FiveGroups(text: string) {
    exists a, b, c, d, e :: IsTheGroups(text, a, b, c, d, e)
  }

  ghost predicate IsTheGroups(text: string, a: string, b: string, c: string, d: string, e: string) {
    && HexDigits(a, 8) && HexDigits(b, 4) && HexDigits(c, 4) && HexDigits(d, 4) && HexDigits(e, 12)
    && text == a + ['-'] + b + ['-'] + c + ['-'] + d + ['-'] + e
  }

  lemma GroupIsHex(text: string, i: nat, j: nat)
    requires i <= j <= |text| && forall n :: i <= n < j ==> LowerHex(text[n])
    ensures HexDigits(text[i..j], j - i)
  {
    IsHexIff(text[i..j], j - i);
  }

  lemma UuidIff(text: string)
    ensures IsUuid(text) <==> FiveGroups(text)
  {
    if IsUuid(text) {
      GroupIsHex(text, 0, 8);
      GroupIsHex(text, 9, 13);
      GroupIsHex(text, 14, 18);
      GroupIsHex(text, 19, 23);
      GroupIsHex(text, 24, 36);
      var joined := text[0..8] + ['-'] + text[9..13] + ['-'] + text[14..18] + ['-'] + text[19..23] + ['-'] + text[24..36];
      assert text == joined;
      assert IsTheGroups(text, text[0..8], text[9..13], text[14..18], text[19..23], text[24..36]);
    }
    if a, b, c, d, e :| IsTheGroups(text, a, b, c, d, e) {
      GroupsAreAUuid(text, a, b, c, d, e);
    }
  }

  lemma GroupsAreAUuid(text: string, a: string, b: string, c: string, d: string, e: string)
    requires IsTheGroups(text, a, b, c, d, e)
    ensures IsUuid(text)
  {
    IsHexIff(a, 8);
    IsHexIff(b, 4);
    IsHexIff(c, 4);
    IsHexIff(d, 4);
    IsHexIff(e, 12);
    forall i | 0 <= i < 36
      ensures if i in {8, 13, 18, 23} then text[i] == '-' else LowerHex(text[i])
    {
      if i < 8 { assert text[i] == a[i]; }
      else if 8 < i < 13 { assert text[i] == b[i - 9]; }
      else if 13 < i < 18 { assert text[i] == c[i - 14]; }
      else if 18 < i < 23 { assert text[i] == d[i - 19]; }
      else if 23 < i { assert text[i] == e[i - 24]; }
    }
  }

  /** The code points that fit into `n` bytes of UTF-8: seven bits in one byte, and then eleven, sixteen, twenty-one. */
  function Capacity(n: nat): nat {
    if n <= 1 then 128 else if n == 2 then 2048 else if n == 3 then 65536 else 2097152
  }

  /** A character takes the fewest bytes it fits into; the bytes of a text add up (`BytesJoin`). */
  lemma BytesAreFewest(c: char)
    ensures (c as int) < Capacity(ByteLength([c])) && forall n :: 1 <= n < ByteLength([c]) ==> Capacity(n) <= c as int
  {
    assert [c][..0] == "" && ByteLength([c]) == ByteLength([c][..0]) + Utf8Bytes(c);
  }

  /** The white space and the line ends of ECMAScript. */
  const WHITE: set<int> := {
    0x9, 0xA, 0xB, 0xC, 0xD, 0x20, 0xA0, 0x1680, 0x2000, 0x2001, 0x2002, 0x2003, 0x2004, 0x2005, 0x2006, 0x2007, 0x2008, 0x2009,
    0x200A, 0x2028, 0x2029, 0x202F, 0x205F, 0x3000, 0xFEFF }

  /** A line is blank if and only if nothing is left of it when white space is trimmed. */
  lemma BlankIff(text: string)
    ensures Blank(text) <==> forall c :: c in text ==> c as int in WHITE
  {
    forall c: char
      ensures IsSpace(c) <==> c as int in WHITE
    {
    }
    assert forall i :: 0 <= i < |text| ==> text[i] in text;
  }
}
