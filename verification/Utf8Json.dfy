/**
 The CLI's UTF-8 validator and JSON string printer.

 The reference for the validator is the encoding of scalar values in section 3 of RFC 3629;
 the reference for the printer is a decoder of the string grammar in section 7 of RFC 8259.
 */
module Utf8Json {
  import opened Strings

  type byte = x: int | 0 <= x < 256

  // ------------------------------------------------------------------------------------
  // UTF-8 by its definition
  // ------------------------------------------------------------------------------------

  predicate IsScalar(cp: int) {
    0 <= cp < 0xD800 || 0xE000 <= cp <= 0x10FFFF
  }

  ghost predicate Scalars(cps: seq<int>) {
    forall k :: 0 <= k < |cps| ==> IsScalar(cps[k])
  }

  function Encode(cp: int): (r: seq<byte>)
    requires IsScalar(cp)
    ensures 1 <= |r| <= 4
  {
    if cp < 0x80 then [cp]
    else if cp < 0x800 then [0xC0 + cp / 64, 0x80 + cp % 64]
    else if cp < 0x1_0000 then [0xE0 + cp / 4096, 0x80 + cp / 64 % 64, 0x80 + cp % 64]
    else [0xF0 + cp / 262144, 0x80 + cp / 4096 % 64, 0x80 + cp / 64 % 64, 0x80 + cp % 64]
  }

  function EncodeAll(cps: seq<int>): seq<byte>
    requires Scalars(cps)
  {
    if cps == [] then [] else Encode(cps[0]) + EncodeAll(cps[1..])
  }

  /** `s` is the UTF-8 form of some text. */
  ghost predicate IsUtf8(s: seq<byte>) {
    exists cps :: Scalars(cps) && EncodeAll(cps) == s
  }

  // ------------------------------------------------------------------------------------
  // The validator's tests
  // ------------------------------------------------------------------------------------

  /** (c & 0xc0) == 0x80 */
  predicate IsTrail(c: byte) {
    c / 64 == 2
  }

  /** How many bytes follow a lead byte; -1 for a byte that leads nothing. */
  function Need(c: byte): (n: int)
    ensures -1 <= n <= 3
  {
    if c < 0x80 then 0
    else if 0xC2 <= c <= 0xDF then 1
    else if 0xE0 <= c <= 0xEF then 2
    else if 0xF0 <= c <= 0xF4 then 3
    else -1
  }

  /** The ranges of the second byte that exclude overlong forms, surrogates and beyond. */
  predicate SecondOk(c: byte, c1: byte) {
    && !(c == 0xE0 && c1 < 0xA0)
    && !(c == 0xED && c1 >= 0xA0)
    && !(c == 0xF0 && c1 < 0x90)
    && !(c == 0xF4 && c1 >= 0x90)
  }

  /** The length of the well-formed sequence `s` starts with, or 0. */
  function First(s: seq<byte>): (n: nat)
    ensures n <= |s| && n <= 4
  {
    if s == [] then 0
    else
      var need := Need(s[0]);
      if need < 0 || 1 + need > |s| then 0
      else if need == 0 then 1
      else if !SecondOk(s[0], s[1]) then 0
      else if forall j :: 1 <= j <= need ==> IsTrail(s[j]) then 1 + need
      else 0
  }

  function Over(c: byte, base: int): int {
    c as int - base
  }

  /** Six more bits from a trail byte. */
  function Join(high: int, c: byte): int {
    high * 64 + Over(c, 0x80)
  }

  /** The scalar value of a well-formed sequence. */
  function ScalarOf(s: seq<byte>, n: nat): int
    requires 1 <= n <= 4 && n <= |s|
  {
    if n == 1 then s[0]
    else if n == 2 then Join(Over(s[0], 0xC0), s[1])
    else if n == 3 then Join(Join(Over(s[0], 0xE0), s[1]), s[2])
    else Join(Join(Join(Over(s[0], 0xF0), s[1]), s[2]), s[3])
  }

  lemma Split64(high: int, c: byte)
    requires IsTrail(c)
    ensures Join(high, c) / 64 == high && Join(high, c) % 64 == Over(c, 0x80)
  {
  }

  lemma Div4096(cp: int)
    requires 0 <= cp
    ensures cp / 4096 == cp / 64 / 64 && cp / 262144 == cp / 64 / 64 / 64
  {
  }

  /** The tests accept only encodings. */
  lemma FirstIsEncoding(s: seq<byte>)
    requires First(s) > 0
    ensures var n := First(s);
            IsScalar(ScalarOf(s, n)) && Encode(ScalarOf(s, n)) == s[..n]
  {
    var n := First(s);
    if n == 2 {
      assert IsTrail(s[1]);
      Split64(Over(s[0], 0xC0), s[1]);
    } else if n == 3 {
      ThreeBytes(s);
    } else if n == 4 {
      FourBytes(s);
    }
  }

  lemma ThreeBytes(s: seq<byte>)
    requires First(s) == 3
    ensures IsScalar(ScalarOf(s, 3)) && Encode(ScalarOf(s, 3)) == s[..3]
  {
    hide Join;
    assert IsTrail(s[1]) && IsTrail(s[2]);
    var a := Over(s[0], 0xE0);
    var b := Join(a, s[1]);
    var cp := Join(b, s[2]);
    Split64(a, s[1]);
    Split64(b, s[2]);
    JoinBounds(a, s[1]);
    JoinBounds(b, s[2]);
    Div4096(cp);
    assert cp / 4096 == a;
  }

  lemma JoinBounds(high: int, c: byte)
    requires IsTrail(c)
    ensures Join(high, c) == high * 64 + (c as int - 0x80)
  {
  }

  lemma FourBytes(s: seq<byte>)
    requires First(s) == 4
    ensures IsScalar(ScalarOf(s, 4)) && Encode(ScalarOf(s, 4)) == s[..4]
  {
    hide Join;
    assert IsTrail(s[1]) && IsTrail(s[2]) && IsTrail(s[3]);
    var a := Over(s[0], 0xF0);
    var b := Join(a, s[1]);
    var c := Join(b, s[2]);
    var cp := Join(c, s[3]);
    Split64(a, s[1]);
    Split64(b, s[2]);
    Split64(c, s[3]);
    JoinBounds(a, s[1]);
    JoinBounds(b, s[2]);
    JoinBounds(c, s[3]);
    Div4096(cp);
    assert cp / 262144 == a && cp / 4096 == b;
  }

  lemma Recompose(cp: int)
    requires 0 <= cp
    ensures cp == (cp / 64) * 64 + cp % 64
  {
  }

  /** The tests accept every encoding, whatever follows it. */
  lemma EncodingIsFirst(cp: int, rest: seq<byte>)
    requires IsScalar(cp)
    ensures var s := Encode(cp) + rest;
            First(s) == |Encode(cp)| && ScalarOf(s, First(s)) == cp
  {
    var s := Encode(cp) + rest;
    Recompose(cp);
    Recompose(cp / 64);
    Recompose(cp / 64 / 64);
    Div4096(cp);
    if cp < 0x80 {
    } else if cp < 0x800 {
      assert IsTrail(s[1]);
    } else if cp < 0x1_0000 {
      assert IsTrail(s[1]) && IsTrail(s[2]);
    } else {
      assert IsTrail(s[1]) && IsTrail(s[2]) && IsTrail(s[3]);
    }
  }

  /** The text `s` encodes, if it encodes one. */
  function DecodeAll(s: seq<byte>): Option<seq<int>> {
    if s == [] then Some([])
    else
      var n := First(s);
      if n == 0 then None
      else
        var rest := DecodeAll(s[n..]);
        if rest.None? then None else Some([ScalarOf(s, n)] + rest.value)
  }

  lemma {:induction false} DecodeSound(s: seq<byte>)
    requires DecodeAll(s).Some?
    ensures Scalars(DecodeAll(s).value) && EncodeAll(DecodeAll(s).value) == s
  {
    hide First, ScalarOf, Encode;
    if s != [] {
      var n := First(s);
      DecodeSound(s[n..]);
      FirstIsEncoding(s);
      var rest := DecodeAll(s[n..]).value;
      assert ([ScalarOf(s, n)] + rest)[1..] == rest;
      assert s == s[..n] + s[n..];
    }
  }

  lemma {:induction false} DecodeComplete(cps: seq<int>)
    requires Scalars(cps)
    ensures DecodeAll(EncodeAll(cps)) == Some(cps)
  {
    hide First, ScalarOf, Encode;
    if cps != [] {
      var rest := EncodeAll(cps[1..]);
      EncodingIsFirst(cps[0], rest);
      DecodeComplete(cps[1..]);
      var s := EncodeAll(cps);
      assert s[|Encode(cps[0])|..] == rest;
      assert [cps[0]] + cps[1..] == cps;
    }
  }

  lemma DecodeIffUtf8(s: seq<byte>)
    ensures DecodeAll(s).Some? <==> IsUtf8(s)
  {
    if DecodeAll(s).Some? {
      DecodeSound(s);
    }
    if IsUtf8(s) {
      var cps :| Scalars(cps) && EncodeAll(cps) == s;
      DecodeComplete(cps);
    }
  }

  /** One text has one encoding, and one encoding one text. */
  lemma EncodingUnique(a: seq<int>, b: seq<int>)
    requires Scalars(a) && Scalars(b) && EncodeAll(a) == EncodeAll(b)
    ensures a == b
  {
    DecodeComplete(a);
    DecodeComplete(b);
  }

  lemma DecodeStep(s: seq<byte>)
    requires s != []
    ensures DecodeAll(s).Some? <==> First(s) > 0 && DecodeAll(s[First(s)..]).Some?
  {
  }

  /** json_utf8_valid: accepts exactly the UTF-8 forms of texts. */
  method Utf8Valid(s: seq<byte>) returns (ok: bool)
    ensures ok <==> IsUtf8(s)
  {
    hide First, DecodeAll, IsUtf8;
    DecodeIffUtf8(s);
    var i := 0;
    assert s[0..] == s;
    while i < |s|
      invariant i <= |s|
      invariant DecodeAll(s[i..]).Some? <==> DecodeAll(s).Some?
    {
      ghost var rest := s[i..];
      DecodeStep(rest);
      var n := SequenceAt(s, i);
      if n == 0 {
        return false;
      }
      assert rest[n..] == s[i + n..];
      i := i + n;
    }
    assert s[i..] == [];
    DecodeEmpty();
    return true;
  }

  lemma DecodeEmpty()
    ensures DecodeAll([]) == Some([])
  {
  }

  /** One pass of the validator's loop: the length of the sequence at `i`, or 0. */
  method SequenceAt(s: seq<byte>, i: nat) returns (n: nat)
    requires i < |s|
    ensures n == First(s[i..]) && i + n <= |s|
  {
    ghost var rest := s[i..];
    var c := s[i];
    var next := i + 1;
    if c < 0x80 {
      return 1;
    }
    var need := 0;
    if 0xC2 <= c <= 0xDF {
      need := 1;
    } else if 0xE0 <= c <= 0xEF {
      need := 2;
    } else if 0xF0 <= c <= 0xF4 {
      need := 3;
    } else {
      return 0;
    }
    if next + need > |s| {
      return 0;
    }
    var c1 := s[next];
    assert rest[1] == c1;
    if c == 0xE0 && c1 < 0xA0 { return 0; }
    if c == 0xED && c1 >= 0xA0 { return 0; }
    if c == 0xF0 && c1 < 0x90 { return 0; }
    if c == 0xF4 && c1 >= 0x90 { return 0; }
    for j := 0 to need
      invariant forall k :: 1 <= k <= j ==> IsTrail(rest[k])
    {
      assert rest[j + 1] == s[next + j];
      if s[next + j] / 64 != 2 {
        assert !IsTrail(rest[j + 1]);
        return 0;
      }
    }
    return 1 + need;
  }

  // ------------------------------------------------------------------------------------
  // The JSON string printer
  // ------------------------------------------------------------------------------------

  const QUOTE: byte := 0x22
  const BACKSLASH: byte := 0x5C

  /** One lower-case hexadecimal digit. */
  function Hex(d: int): byte
    requires 0 <= d < 16
  {
    if d < 10 then 0x30 + d else 0x61 + (d - 10)
  }

  /** \uXXXX for a code below 256. */
  function UEscape(c: byte): seq<byte> {
    [BACKSLASH, 0x75, 0x30, 0x30, Hex(c / 16), Hex(c % 16)]
  }

  /** What json_write_string prints for one byte. */
  function Escape(c: byte, validUtf8: bool): seq<byte> {
    if c == QUOTE || c == BACKSLASH then [BACKSLASH, c]
    else if c == 0x0A then [BACKSLASH, 0x6E]
    else if c == 0x0D then [BACKSLASH, 0x72]
    else if c == 0x09 then [BACKSLASH, 0x74]
    else if c < 0x20 then UEscape(c)
    else if !validUtf8 && c >= 0x80 then UEscape(c)
    else [c]
  }

  function Body(s: seq<byte>, validUtf8: bool): seq<byte> {
    if s == [] then [] else Escape(s[0], validUtf8) + Body(s[1..], validUtf8)
  }

  // ---- a reader of the grammar -----------------------------------------------------------

  function HexValue(c: byte): int {
    if 0x30 <= c <= 0x39 then c as int - 0x30
    else if 0x41 <= c <= 0x46 then c as int - 0x41 + 10
    else if 0x61 <= c <= 0x66 then c as int - 0x61 + 10
    else -1
  }

  function FourHex(s: seq<byte>): int
    requires |s| >= 4
  {
    if HexValue(s[0]) < 0 || HexValue(s[1]) < 0 || HexValue(s[2]) < 0 || HexValue(s[3]) < 0 then -1
    else ((HexValue(s[0]) * 16 + HexValue(s[1])) * 16 + HexValue(s[2])) * 16 + HexValue(s[3])
  }

  /** The character a two-character escape stands for, or -1. */
  function ShortEscape(c: byte): int {
    if c == QUOTE || c == BACKSLASH || c == 0x2F then c
    else if c == 0x62 then 0x08
    else if c == 0x66 then 0x0C
    else if c == 0x6E then 0x0A
    else if c == 0x72 then 0x0D
    else if c == 0x74 then 0x09
    else -1
  }

  /** A character and the bytes that spell it; length 0 when none is spelled. */
  datatype Char = Char(cp: int, len: nat)

  const NO_CHAR := Char(0, 0)

  /** The production `char` of section 7 of RFC 8259, except surrogate escapes. */
  function ReadChar(s: seq<byte>): (r: Char)
    requires s != []
    ensures r.len <= |s|
  {
    if s[0] == QUOTE || s[0] < 0x20 then NO_CHAR
    else if s[0] != BACKSLASH then
      var n := First(s);
      if n == 0 then NO_CHAR else Char(ScalarOf(s, n), n)
    else if |s| < 2 then NO_CHAR
    else if s[1] == 0x75 then
      if |s| < 6 then NO_CHAR
      else
        var u := FourHex(s[2..]);
        if u < 0 || !IsScalar(u) then NO_CHAR else Char(u, 6)
    else if ShortEscape(s[1]) < 0 then NO_CHAR
    else Char(ShortEscape(s[1]), 2)
  }

  /** Characters up to a closing quote that ends the input. */
  function ReadChars(s: seq<byte>): Option<seq<int>> {
    if s == [] then None
    else if s == [QUOTE] then Some([])
    else
      var c := ReadChar(s);
      if c.len == 0 then None
      else
        var rest := ReadChars(s[c.len..]);
        if rest.None? then None else Some([c.cp] + rest.value)
  }

  /** The text a JSON string denotes, or None if it is not a JSON string. */
  function ReadString(s: seq<byte>): Option<seq<int>> {
    if s == [] || s[0] != QUOTE then None else ReadChars(s[1..])
  }

  // ---- what was printed is read back -----------------------------------------------------

  lemma HexRead(d: int)
    requires 0 <= d < 16
    ensures HexValue(Hex(d)) == d
  {
  }

  lemma UEscapeRead(c: byte, rest: seq<byte>)
    ensures ReadChar(UEscape(c) + rest) == Char(c, 6)
  {
    var s := UEscape(c) + rest;
    HexRead(c / 16);
    HexRead(c % 16);
    assert HexValue(0x30) == 0;
    assert s[2..][0] == 0x30 && s[2..][1] == 0x30;
    assert s[2..][2] == Hex(c / 16) && s[2..][3] == Hex(c % 16);
  }

  /** An escaped byte below 0x80, or any byte of text that is not UTF-8, reads back as itself. */
  lemma EscapeRead(c: byte, validUtf8: bool, rest: seq<byte>)
    requires c < 0x80 || !validUtf8
    ensures ReadChar(Escape(c, validUtf8) + rest) == Char(c, |Escape(c, validUtf8)|)
  {
    if c != QUOTE && c != BACKSLASH && c != 0x0A && c != 0x0D && c != 0x09
       && (c < 0x20 || c >= 0x80) {
      UEscapeRead(c, rest);
    }
  }

  /** What is printed for one character of a text. */
  function Printed(cp: int): seq<byte>
    requires IsScalar(cp)
  {
    if cp < 0x80 then Escape(cp, true) else Encode(cp)
  }

  lemma LeadsHigh(cp: int, k: int)
    requires IsScalar(cp) && cp >= 0x80 && 0 <= k < |Encode(cp)|
    ensures Encode(cp)[k] >= 0x80
  {
  }

  lemma {:induction false} HighBytes(s: seq<byte>, rest: seq<byte>)
    requires forall k :: 0 <= k < |s| ==> s[k] >= 0x80
    ensures Body(s + rest, true) == s + Body(rest, true)
  {
    if s == [] {
      assert s + rest == rest;
    } else {
      assert (s + rest)[0] == s[0] && (s + rest)[1..] == s[1..] + rest;
      HighBytes(s[1..], rest);
      Assoc([s[0]], s[1..], Body(rest, true));
      assert [s[0]] + s[1..] == s;
    }
  }

  lemma BodyOfChar(cp: int, rest: seq<byte>)
    requires IsScalar(cp)
    ensures Body(Encode(cp) + rest, true) == Printed(cp) + Body(rest, true)
  {
    if cp < 0x80 {
      var s := Encode(cp) + rest;
      assert s[0] == cp && s[1..] == rest;
    } else {
      forall k | 0 <= k < |Encode(cp)| ensures Encode(cp)[k] >= 0x80 {
        LeadsHigh(cp, k);
      }
      HighBytes(Encode(cp), rest);
    }
  }

  lemma PrintedRead(cp: int, rest: seq<byte>)
    requires IsScalar(cp)
    ensures |Printed(cp)| > 0 && ReadChar(Printed(cp) + rest) == Char(cp, |Printed(cp)|)
    ensures Printed(cp) + rest != [QUOTE]
  {
    if cp < 0x80 {
      EscapeRead(cp, true, rest);
    } else {
      var s := Encode(cp) + rest;
      LeadsHigh(cp, 0);
      assert s[0] == Encode(cp)[0];
      EncodingIsFirst(cp, rest);
    }
  }

  lemma ReadOne(c: Char, p: seq<byte>, rest: seq<byte>)
    requires |p| > 0 && p + rest != [QUOTE] && ReadChar(p + rest) == c && c.len == |p|
    ensures ReadChars(p + rest) ==
            if ReadChars(rest).None? then None else Some([c.cp] + ReadChars(rest).value)
  {
    assert (p + rest)[|p|..] == rest;
  }

  lemma {:induction false} ReadsText(cps: seq<int>)
    requires Scalars(cps)
    ensures ReadChars(Body(EncodeAll(cps), true) + [QUOTE]) == Some(cps)
  {
    hide Encode, Body, Printed, ReadChar, ReadChars;
    if cps == [] {
      ReadNothing();
    } else {
      var cp, rest := cps[0], EncodeAll(cps[1..]);
      var tail := Body(rest, true) + [QUOTE];
      ReadsText(cps[1..]);
      BodyOfChar(cp, rest);
      PrintedRead(cp, tail);
      ReadOne(Char(cp, |Printed(cp)|), Printed(cp), tail);
      assert Body(EncodeAll(cps), true) + [QUOTE] == Printed(cp) + tail;
      assert [cp] + cps[1..] == cps;
    }
  }

  lemma ReadNothing()
    ensures Body([], true) == [] && Body([], false) == []
    ensures ReadChars([] + [QUOTE]) == Some([])
  {
    assert [] + [QUOTE] == [QUOTE];
  }

  lemma {:induction false} ReadsBytes(s: seq<byte>)
    ensures ReadChars(Body(s, false) + [QUOTE]) == Some(Codes(s))
  {
    hide ReadChar, ReadChars, Escape;
    if s == [] {
      ReadNothing();
    } else {
      var tail := Body(s[1..], false) + [QUOTE];
      ReadsBytes(s[1..]);
      var p := Escape(s[0], false);
      EscapeRead(s[0], false, tail);
      EscapeShape(s[0], tail);
      ReadOne(Char(s[0], |p|), p, tail);
      assert Body(s, false) + [QUOTE] == p + tail;
      assert Codes(s) == [s[0] as int] + Codes(s[1..]);
    }
  }

  lemma EscapeShape(c: byte, rest: seq<byte>)
    ensures |Escape(c, false)| > 0 && Escape(c, false) + rest != [QUOTE]
  {
    assert (Escape(c, false) + rest)[0] != QUOTE;
  }

  /** The bytes as code points of their own. */
  function Codes(s: seq<byte>): (r: seq<int>)
    ensures |r| == |s|
  {
    if s == [] then [] else [s[0] as int] + Codes(s[1..])
  }

  /**
   json_write_string: the output is a JSON string; it denotes the text that the bytes
   encode, or, when they encode none, the bytes themselves as code points.
   */
  method WriteString(s: seq<byte>) returns (out: seq<byte>)
    ensures forall cps :: Scalars(cps) && EncodeAll(cps) == s ==> ReadString(out) == Some(cps)
    ensures !IsUtf8(s) ==> ReadString(out) == Some(Codes(s))
  {
    hide Escape, ReadChars, EncodeAll;
    var validUtf8 := Utf8Valid(s);
    out := [QUOTE];
    var i := 0;
    assert s[0..] == s;
    while i < |s|
      invariant i <= |s|
      invariant out + Body(s[i..], validUtf8) == [QUOTE] + Body(s, validUtf8)
    {
      assert s[i..][0] == s[i] && s[i..][1..] == s[i + 1..];
      ghost var before := out;
      out := out + Escape(s[i], validUtf8);
      assert out + Body(s[i + 1..], validUtf8) == before + Body(s[i..], validUtf8);
      i := i + 1;
    }
    assert s[i..] == [];
    assert out + [] == out;
    assert out == [QUOTE] + Body(s, validUtf8);
    out := out + [QUOTE];
    assert out[0] == QUOTE && out[1..] == Body(s, validUtf8) + [QUOTE];
    forall cps | Scalars(cps) && EncodeAll(cps) == s ensures ReadString(out) == Some(cps) {
      assert validUtf8;
      ReadsText(cps);
    }
    if !validUtf8 {
      ReadsBytes(s);
    }
  }
}
