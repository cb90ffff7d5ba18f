/**
 core/utf8.cpp: UTF-8 and wide text, strict and lossy. Wide units are UTF-16 where wchar_t has two bytes
 (`utf16`) and code points where it has four. Masks and shifts are written as remainders and quotients.
 */
module Utf8 {

  import opened Options

  type Byte = b: nat | b < 0x100

  type Unit = nat

  datatype Decoded = Decoded(codePoint: nat, length: nat)

  const REPLACEMENT: nat := 0xfffd

  /** A Unicode scalar value: a code point that is no surrogate. */
  predicate IsScalar(c: nat) {
    c <= 0x10ffff && !(0xd800 <= c <= 0xdfff)
  }

  // ----- one code point -----

  predicate IsContinuation(b: Byte) {
    b / 0x40 == 2
  }

  /** The payload bits of 2, 3 and 4 bytes. */
  function Join2(a: nat, b: nat): nat {
    a % 0x20 * 0x40 + b % 0x40
  }

  function Join3(a: nat, b: nat, c: nat): nat {
    a % 0x10 * 0x1000 + b % 0x40 * 0x40 + c % 0x40
  }

  function Join4(a: nat, b: nat, c: nat, d: nat): nat {
    a % 0x08 * 0x40000 + b % 0x40 * 0x1000 + c % 0x40 * 0x40 + d % 0x40
  }

  function DecodeCodePoint(text: seq<Byte>, offset: nat): (r: Option<Decoded>)
    ensures r.Some? ==> 1 <= r.value.length && offset + r.value.length <= |text|
  {
    if offset >= |text| then None
    else
      var lead := text[offset];
      if lead <= 0x7f then Some(Decoded(lead, 1))
      else if 0xc2 <= lead <= 0xdf && offset + 1 < |text| && IsContinuation(text[offset + 1]) then
        Some(Decoded(Join2(lead, text[offset + 1]), 2))
      else if 0xe0 <= lead <= 0xef && offset + 2 < |text| && IsContinuation(text[offset + 1]) &&
        IsContinuation(text[offset + 2])
           && (lead != 0xe0 || text[offset + 1] >= 0xa0) && (lead != 0xed || text[offset + 1] <= 0x9f) then
        Some(Decoded(Join3(lead, text[offset + 1], text[offset + 2]), 3))
      else if 0xf0 <= lead <= 0xf4 && offset + 3 < |text| && IsContinuation(text[offset + 1]) &&
        IsContinuation(text[offset + 2])
           && IsContinuation(text[offset + 3])
           && (lead != 0xf0 || text[offset + 1] >= 0x90) && (lead != 0xf4 || text[offset + 1] <= 0x8f) then
        Some(Decoded(Join4(lead, text[offset + 1], text[offset + 2], text[offset + 3]), 4))
      else None
  }

  /** appendUtf8; only scalar values are ever appended. */
  function Utf8Bytes(c: nat): (r: seq<Byte>)
    requires c <= 0x10ffff
    ensures 1 <= |r| <= 4
  {
    if c <= 0x7f then [c]
    else if c <= 0x7ff then [0xc0 + c / 0x40, 0x80 + c % 0x40]
    else if c <= 0xffff then [0xe0 + c / 0x1000, 0x80 + c / 0x40 % 0x40, 0x80 + c % 0x40]
    else [0xf0 + c / 0x40000, 0x80 + c / 0x1000 % 0x40, 0x80 + c / 0x40 % 0x40, 0x80 + c % 0x40]
  }

  function WideUnits(c: nat, utf16: bool): (r: seq<Unit>)
    ensures 1 <= |r| <= 2
  {
    if utf16 && c > 0xffff then [0xd800 + (c - 0x10000) / 0x400 % 0x400, 0xdc00 + (c - 0x10000) % 0x400] else [c]
  }

  /** nextWideCodePoint: the code point and how many units it took. */
  function NextWide(text: seq<Unit>, offset: nat, utf16: bool): (r: Option<Decoded>)
    requires offset < |text|
    ensures r.Some? ==> 1 <= r.value.length && offset + r.value.length <= |text|
  {
    var first := text[offset];
    if utf16 then
      if 0xd800 <= first <= 0xdbff then
        if offset + 1 >= |text| || text[offset + 1] < 0xdc00 || text[offset + 1] > 0xdfff then None
        else Some(Decoded(0x10000 + (first - 0xd800) * 0x400 + (text[offset + 1] - 0xdc00), 2))
      else if 0xdc00 <= first <= 0xdfff then None
      else Some(Decoded(first, 1))
    else if first > 0x10ffff || 0xd800 <= first <= 0xdfff then None
    else Some(Decoded(first, 1))
  }

  // ----- whole texts, as scalar values -----

  function Scalars(text: seq<Byte>, offset: nat): Option<seq<nat>>
    requires offset <= |text|
    decreases |text| - offset
  {
    if offset == |text| then Some([])
    else
      match DecodeCodePoint(text, offset)
      case None => None
      case Some(d) =>
        match Scalars(text, offset + d.length)
        case None => None
        case Some(rest) => Some([d.codePoint] + rest)
  }

  /** One replacement character for each byte that starts no code point. */
  function LossyScalars(text: seq<Byte>, offset: nat): seq<nat>
    requires offset <= |text|
    decreases |text| - offset
  {
    if offset == |text| then []
    else
      match DecodeCodePoint(text, offset)
      case None => [REPLACEMENT] + LossyScalars(text, offset + 1)
      case Some(d) => [d.codePoint] + LossyScalars(text, offset + d.length)
  }

  function WideScalars(text: seq<Unit>, offset: nat, utf16: bool): Option<seq<nat>>
    requires offset <= |text|
    decreases |text| - offset
  {
    if offset == |text| then Some([])
    else
      match NextWide(text, offset, utf16)
      case None => None
      case Some(d) =>
        match WideScalars(text, offset + d.length, utf16)
        case None => None
        case Some(rest) => Some([d.codePoint] + rest)
  }

  function LossyWideScalars(text: seq<Unit>, offset: nat, utf16: bool): seq<nat>
    requires offset <= |text|
    decreases |text| - offset
  {
    if offset == |text| then []
    else
      match NextWide(text, offset, utf16)
      case None => [REPLACEMENT] + LossyWideScalars(text, offset + 1, utf16)
      case Some(d) => [d.codePoint] + LossyWideScalars(text, offset + d.length, utf16)
  }

  ghost predicate AllScalar(cs: seq<nat>) {
    forall k | 0 <= k < |cs| :: IsScalar(cs[k])
  }

  function BytesOf(cs: seq<nat>): seq<Byte>
    requires AllScalar(cs)
  {
    if cs == [] then [] else Utf8Bytes(cs[0]) + BytesOf(cs[1..])
  }

  function UnitsOf(cs: seq<nat>, utf16: bool): seq<Unit> {
    if cs == [] then [] else WideUnits(cs[0], utf16) + UnitsOf(cs[1..], utf16)
  }

  // ----- section 4 of RFC 3629 -----

  predicate IsTail(b: Byte) {
    0x80 <= b <= 0xbf
  }

  /** UTF8-char: UTF8-1, UTF8-2, UTF8-3 or UTF8-4. */
  predicate IsUtf8Char(c: seq<Byte>) {
    || (|c| == 1 && c[0] <= 0x7f)
    || (|c| == 2 && 0xc2 <= c[0] <= 0xdf && IsTail(c[1]))
    || (|c| == 3 && c[0] == 0xe0 && 0xa0 <= c[1] <= 0xbf && IsTail(c[2]))
    || (|c| == 3 && 0xe1 <= c[0] <= 0xec && IsTail(c[1]) && IsTail(c[2]))
    || (|c| == 3 && c[0] == 0xed && 0x80 <= c[1] <= 0x9f && IsTail(c[2]))
    || (|c| == 3 && 0xee <= c[0] <= 0xef && IsTail(c[1]) && IsTail(c[2]))
    || (|c| == 4 && c[0] == 0xf0 && 0x90 <= c[1] <= 0xbf && IsTail(c[2]) && IsTail(c[3]))
    || (|c| == 4 && 0xf1 <= c[0] <= 0xf3 && IsTail(c[1]) && IsTail(c[2]) && IsTail(c[3]))
    || (|c| == 4 && c[0] == 0xf4 && 0x80 <= c[1] <= 0x8f && IsTail(c[2]) && IsTail(c[3]))
  }

  function Concat<T>(parts: seq<seq<T>>): seq<T> {
    if parts == [] then [] else parts[0] + Concat(parts[1..])
  }

  ghost predicate AllUtf8Chars(parts: seq<seq<Byte>>) {
    forall k | 0 <= k < |parts| :: IsUtf8Char(parts[k])
  }

  /** UTF8-octets: any number of UTF8-char. */
  ghost predicate IsUtf8(text: seq<Byte>) {
    exists parts: seq<seq<Byte>> :: AllUtf8Chars(parts) && Concat(parts) == text
  }

  lemma CharIsDecoded(text: seq<Byte>, offset: nat, n: nat)
    requires offset + n <= |text| && IsUtf8Char(text[offset..offset + n])
    ensures DecodeCodePoint(text, offset).Some? && DecodeCodePoint(text, offset).value.length == n
  {
    var c := text[offset..offset + n];
    assert forall k | 0 <= k < n :: c[k] == text[offset + k];
  }

  /** Two, three and four bytes carry a code point there and back. */
  lemma Bytes2(c: nat)
    requires 0x80 <= c <= 0x7ff
    ensures Join2(0xc0 + c / 0x40, 0x80 + c % 0x40) == c && 0xc2 <= 0xc0 + c / 0x40 <= 0xdf
  {
  }

  lemma Bytes3(c: nat)
    requires 0x800 <= c <= 0xffff
    ensures Join3(0xe0 + c / 0x1000, 0x80 + c / 0x40 % 0x40, 0x80 + c % 0x40) == c
  {
    assert c / 0x1000 == c / 0x40 / 0x40;
  }

  lemma Bytes4(c: nat)
    requires 0x10000 <= c <= 0x10ffff
    ensures Join4(0xf0 + c / 0x40000, 0x80 + c / 0x1000 % 0x40, 0x80 + c / 0x40 % 0x40, 0x80 + c % 0x40) == c
  {
    var x := c / 0x40;
    var y := x / 0x40;
    assert c / 0x1000 == y && c / 0x40000 == y / 0x40;
    assert (0xf0 + y / 0x40) % 0x08 == y / 0x40;
    assert (0x80 + y % 0x40) % 0x40 == y % 0x40 && (0x80 + x % 0x40) % 0x40 == x % 0x40 &&
      (0x80 + c % 0x40) % 0x40 == c % 0x40;
  }

  lemma SixBits(high: nat, low: nat)
    requires low < 0x40
    ensures (high * 0x40 + low) / 0x40 == high && (high * 0x40 + low) % 0x40 == low
  {
  }

  lemma Shifts(p: nat)
    ensures p / 0x1000 == p / 0x40 / 0x40 && p / 0x40000 == p / 0x40 / 0x40 / 0x40
  {
  }

  lemma Join2Splits(a: nat, b: nat)
    requires 0xc2 <= a <= 0xdf && 0x80 <= b <= 0xbf
    ensures var c := Join2(a, b);
            0x80 <= c <= 0x7ff && 0xc0 + c / 0x40 == a && 0x80 + c % 0x40 == b
  {
  }

  lemma Join3Splits(a: nat, b: nat, c: nat)
    requires 0xe0 <= a <= 0xef && 0x80 <= b <= 0xbf && 0x80 <= c <= 0xbf
    ensures var p := Join3(a, b, c);
            p <= 0xffff && 0xe0 + p / 0x1000 == a && 0x80 + p / 0x40 % 0x40 == b && 0x80 + p % 0x40 == c
  {
    var q := (a - 0xe0) * 0x40 + (b - 0x80);
    assert a % 0x10 == a - 0xe0 && b % 0x40 == b - 0x80 && c % 0x40 == c - 0x80;
    SixBits(q, c - 0x80);
    SixBits(a - 0xe0, b - 0x80);
    Shifts(Join3(a, b, c));
  }

  lemma Join4Splits(a: nat, b: nat, c: nat, d: nat)
    requires 0xf0 <= a <= 0xf4 && 0x80 <= b <= 0xbf && 0x80 <= c <= 0xbf && 0x80 <= d <= 0xbf
    ensures var p := Join4(a, b, c, d);
            && 0xf0 + p / 0x40000 == a && 0x80 + p / 0x1000 % 0x40 == b && 0x80 + p / 0x40 % 0x40 == c &&
               0x80 + p % 0x40 == d
            && p == (a - 0xf0) * 0x40000 + (b - 0x80) * 0x1000 + (c - 0x80) * 0x40 + (d - 0x80)
  {
    var r := (a - 0xf0) * 0x40 + (b - 0x80);
    var q := r * 0x40 + (c - 0x80);
    assert a % 0x08 == a - 0xf0 && b % 0x40 == b - 0x80 && c % 0x40 == c - 0x80 && d % 0x40 == d - 0x80;
    SixBits(q, d - 0x80);
    SixBits(r, c - 0x80);
    SixBits(a - 0xf0, b - 0x80);
    Shifts(Join4(a, b, c, d));
  }

  /** What is decoded is a scalar value and is encoded to the same bytes again. */
  lemma DecodedIsEncoded(text: seq<Byte>, offset: nat)
    requires DecodeCodePoint(text, offset).Some?
    ensures var d := DecodeCodePoint(text, offset).value;
            IsScalar(d.codePoint) && Utf8Bytes(d.codePoint) == text[offset..offset + d.length]
  {
    hide Join2, Join3, Join4;
    var d := DecodeCodePoint(text, offset).value;
    var a := text[offset];
    if d.length == 2 {
      Join2Splits(a, text[offset + 1]);
    } else if d.length == 3 {
      Join3Splits(a, text[offset + 1], text[offset + 2]);
    } else if d.length == 4 {
      Join4Splits(a, text[offset + 1], text[offset + 2], text[offset + 3]);
    }
  }

  lemma EncodedIsChar(c: nat)
    requires IsScalar(c)
    ensures IsUtf8Char(Utf8Bytes(c))
  {
    Shifts(c);
  }

  lemma EncodedIsDecoded(text: seq<Byte>, offset: nat, c: nat)
    requires IsScalar(c) && offset + |Utf8Bytes(c)| <= |text|
    requires text[offset..offset + |Utf8Bytes(c)|] == Utf8Bytes(c)
    ensures DecodeCodePoint(text, offset) == Some(Decoded(c, |Utf8Bytes(c)|))
  {
    hide Join2, Join3, Join4;
    var b := Utf8Bytes(c);
    assert forall k | 0 <= k < |b| :: b[k] == text[offset + k];
    EncodedIsChar(c);
    CharIsDecoded(text, offset, |b|);
    if |b| == 2 {
      Bytes2(c);
    } else if |b| == 3 {
      Bytes3(c);
    } else if |b| == 4 {
      Bytes4(c);
    }
  }

  // ----- strict decoding accepts exactly UTF-8 -----

  lemma {:induction false} ScalarsAreEncoded(text: seq<Byte>, offset: nat)
    requires offset <= |text| && Scalars(text, offset).Some?
    ensures AllScalar(Scalars(text, offset).value) && BytesOf(Scalars(text, offset).value) == text[offset..]
    decreases |text| - offset
  {
    hide DecodeCodePoint, Utf8Bytes, IsScalar;
    if offset < |text| {
      var d := DecodeCodePoint(text, offset).value;
      DecodedIsEncoded(text, offset);
      ScalarsAreEncoded(text, offset + d.length);
      var rest := Scalars(text, offset + d.length).value;
      assert Scalars(text, offset).value[1..] == rest;
      assert text[offset..] == text[offset..offset + d.length] + text[offset + d.length..];
    }
  }

  lemma {:induction false} BytesAreDecoded(text: seq<Byte>, offset: nat, cs: seq<nat>)
    requires AllScalar(cs) && offset <= |text| && text[offset..] == BytesOf(cs)
    ensures Scalars(text, offset) == Some(cs)
    decreases |cs|
  {
    hide DecodeCodePoint, Utf8Bytes;
    if cs != [] {
      assert cs == [cs[0]] + cs[1..];
      var first := Utf8Bytes(cs[0]);
      assert |text[offset..]| == |first| + |BytesOf(cs[1..])|;
      assert text[offset..offset + |first|] == text[offset..][..|first|] == first;
      assert text[offset + |first|..] == text[offset..][|first|..] == BytesOf(cs[1..]);
      EncodedIsDecoded(text, offset, cs[0]);
      BytesAreDecoded(text, offset + |first|, cs[1..]);
    }
  }

  lemma {:induction false} ScalarsAreChars(cs: seq<nat>) returns (parts: seq<seq<Byte>>)
    requires AllScalar(cs)
    ensures AllUtf8Chars(parts) && Concat(parts) == BytesOf(cs)
    decreases |cs|
  {
    parts := [];
    if cs != [] {
      EncodedIsChar(cs[0]);
      var rest := ScalarsAreChars(cs[1..]);
      parts := [Utf8Bytes(cs[0])] + rest;
    }
  }

  lemma {:induction false} CharsAreDecoded(text: seq<Byte>, offset: nat, parts: seq<seq<Byte>>)
    requires AllUtf8Chars(parts) && offset <= |text| && text[offset..] == Concat(parts)
    ensures Scalars(text, offset).Some?
    decreases |parts|
  {
    hide DecodeCodePoint, IsUtf8Char;
    if parts != [] {
      var n := |parts[0]|;
      assert |text[offset..]| == n + |Concat(parts[1..])|;
      assert text[offset..offset + n] == text[offset..][..n] == parts[0];
      assert text[offset + n..] == text[offset..][n..] == Concat(parts[1..]);
      CharIsDecoded(text, offset, n);
      CharsAreDecoded(text, offset + n, parts[1..]);
    }
  }

  /** The strict decoder accepts exactly UTF8-octets. */
  lemma StrictAcceptsExactlyUtf8(text: seq<Byte>)
    ensures Scalars(text, 0).Some? <==> IsUtf8(text)
  {
    assert text[0..] == text;
    if Scalars(text, 0).Some? {
      ScalarsAreEncoded(text, 0);
      var parts := ScalarsAreChars(Scalars(text, 0).value);
      assert Concat(parts) == text;
    }
    if IsUtf8(text) {
      var parts: seq<seq<Byte>> :| AllUtf8Chars(parts) && Concat(parts) == text;
      CharsAreDecoded(text, 0, parts);
    }
  }

  // ----- section 2 of RFC 2781, and single code points -----

  /** One character of wide text. */
  predicate IsWideChar(c: seq<Unit>, utf16: bool) {
    if utf16 then
      || (|c| == 1 && c[0] <= 0xffff && !(0xd800 <= c[0] <= 0xdfff))
      || (|c| == 2 && 0xd800 <= c[0] <= 0xdbff && 0xdc00 <= c[1] <= 0xdfff)
    else |c| == 1 && IsScalar(c[0])
  }

  ghost predicate AllWideChars(parts: seq<seq<Unit>>, utf16: bool) {
    forall k | 0 <= k < |parts| :: IsWideChar(parts[k], utf16)
  }

  ghost predicate IsWideText(text: seq<Unit>, utf16: bool) {
    exists parts: seq<seq<Unit>> :: AllWideChars(parts, utf16) && Concat(parts) == text
  }

  /** What a wchar_t can hold. */
  ghost predicate FitsUnits(text: seq<Unit>, utf16: bool) {
    forall k | 0 <= k < |text| :: text[k] < if utf16 then 0x10000 else 0x1_0000_0000
  }

  lemma WideDecodedIsEncoded(text: seq<Unit>, offset: nat, utf16: bool)
    requires FitsUnits(text, utf16) && offset < |text| && NextWide(text, offset, utf16).Some?
    ensures var d := NextWide(text, offset, utf16).value;
            && IsScalar(d.codePoint) && WideUnits(d.codePoint, utf16) == text[offset..offset + d.length]
            && IsWideChar(text[offset..offset + d.length], utf16)
  {
  }

  lemma WideEncodedIsDecoded(text: seq<Unit>, offset: nat, c: nat, utf16: bool)
    requires IsScalar(c) && offset + |WideUnits(c, utf16)| <= |text|
    requires text[offset..offset + |WideUnits(c, utf16)|] == WideUnits(c, utf16)
    ensures NextWide(text, offset, utf16) == Some(Decoded(c, |WideUnits(c, utf16)|))
  {
    var u := WideUnits(c, utf16);
    assert forall k | 0 <= k < |u| :: u[k] == text[offset + k];
  }

  lemma WideCharIsDecoded(text: seq<Unit>, offset: nat, n: nat, utf16: bool)
    requires offset + n <= |text| && IsWideChar(text[offset..offset + n], utf16)
    ensures NextWide(text, offset, utf16).Some? && NextWide(text, offset, utf16).value.length == n
  {
    var c := text[offset..offset + n];
    assert forall k | 0 <= k < n :: c[k] == text[offset + k];
  }

  lemma {:induction false} WideScalarsAreEncoded(text: seq<Unit>, offset: nat, utf16: bool)
    requires FitsUnits(text, utf16) && offset <= |text| && WideScalars(text, offset, utf16).Some?
    ensures AllScalar(WideScalars(text, offset, utf16).value)
    ensures UnitsOf(WideScalars(text, offset, utf16).value, utf16) == text[offset..]
    decreases |text| - offset
  {
    hide NextWide, WideUnits, IsScalar, IsWideChar;
    if offset < |text| {
      var d := NextWide(text, offset, utf16).value;
      WideDecodedIsEncoded(text, offset, utf16);
      WideScalarsAreEncoded(text, offset + d.length, utf16);
      var rest := WideScalars(text, offset + d.length, utf16).value;
      assert WideScalars(text, offset, utf16).value[1..] == rest;
      assert text[offset..] == text[offset..offset + d.length] + text[offset + d.length..];
    }
  }

  lemma {:induction false} UnitsAreDecoded(text: seq<Unit>, offset: nat, cs: seq<nat>, utf16: bool)
    requires AllScalar(cs) && offset <= |text| && text[offset..] == UnitsOf(cs, utf16)
    ensures WideScalars(text, offset, utf16) == Some(cs)
    decreases |cs|
  {
    hide NextWide, WideUnits;
    if cs != [] {
      assert cs == [cs[0]] + cs[1..];
      var first := WideUnits(cs[0], utf16);
      assert |text[offset..]| == |first| + |UnitsOf(cs[1..], utf16)|;
      assert text[offset..offset + |first|] == text[offset..][..|first|] == first;
      assert text[offset + |first|..] == text[offset..][|first|..] == UnitsOf(cs[1..], utf16);
      WideEncodedIsDecoded(text, offset, cs[0], utf16);
      UnitsAreDecoded(text, offset + |first|, cs[1..], utf16);
    }
  }

  lemma {:induction false} ScalarsAreWideChars(cs: seq<nat>, utf16: bool) returns (parts: seq<seq<Unit>>)
    requires AllScalar(cs)
    ensures AllWideChars(parts, utf16) && Concat(parts) == UnitsOf(cs, utf16)
    decreases |cs|
  {
    parts := [];
    if cs != [] {
      var rest := ScalarsAreWideChars(cs[1..], utf16);
      parts := [WideUnits(cs[0], utf16)] + rest;
    }
  }

  lemma {:induction false} WideCharsAreDecoded(text: seq<Unit>, offset: nat, parts: seq<seq<Unit>>, utf16: bool)
    requires AllWideChars(parts, utf16) && offset <= |text| && text[offset..] == Concat(parts)
    ensures WideScalars(text, offset, utf16).Some?
    decreases |parts|
  {
    hide NextWide, IsWideChar;
    if parts != [] {
      var n := |parts[0]|;
      WideCharShape(parts[0], utf16);
      assert |text[offset..]| == n + |Concat(parts[1..])|;
      assert text[offset..offset + n] == text[offset..][..n] == parts[0];
      assert text[offset + n..] == text[offset..][n..] == Concat(parts[1..]);
      WideCharIsDecoded(text, offset, n, utf16);
      WideCharsAreDecoded(text, offset + n, parts[1..], utf16);
    }
  }

  lemma WideCharShape(c: seq<Unit>, utf16: bool)
    requires IsWideChar(c, utf16)
    ensures c != []
  {
  }

  lemma StrictAcceptsExactlyWideText(text: seq<Unit>, utf16: bool)
    requires FitsUnits(text, utf16)
    ensures WideScalars(text, 0, utf16).Some? <==> IsWideText(text, utf16)
  {
    assert text[0..] == text;
    if WideScalars(text, 0, utf16).Some? {
      WideScalarsAreEncoded(text, 0, utf16);
      var parts := ScalarsAreWideChars(WideScalars(text, 0, utf16).value, utf16);
      assert Concat(parts) == text;
    }
    if IsWideText(text, utf16) {
      var parts: seq<seq<Unit>> :| AllWideChars(parts, utf16) && Concat(parts) == text;
      WideCharsAreDecoded(text, 0, parts, utf16);
    }
  }

  // ----- the four conversions -----

  function ToWideStrict(text: seq<Byte>, utf16: bool): Option<seq<Unit>> {
    match Scalars(text, 0)
    case None => None
    case Some(cs) => Some(UnitsOf(cs, utf16))
  }

  function ToWideLossy(text: seq<Byte>, utf16: bool): seq<Unit> {
    UnitsOf(LossyScalars(text, 0), utf16)
  }

  function ToUtf8Strict(text: seq<Unit>, utf16: bool): Option<seq<Byte>>
    requires FitsUnits(text, utf16)
  {
    match WideScalars(text, 0, utf16)
    case None => None
    case Some(cs) =>
      WideScalarsAreEncoded(text, 0, utf16);
      Some(BytesOf(cs))
  }

  function ToUtf8Lossy(text: seq<Unit>, utf16: bool): seq<Byte>
    requires FitsUnits(text, utf16)
  {
    LossyWideAreScalar(text, 0, utf16);
    BytesOf(LossyWideScalars(text, 0, utf16))
  }

  lemma {:induction false} LossyAreScalar(text: seq<Byte>, offset: nat)
    requires offset <= |text|
    ensures AllScalar(LossyScalars(text, offset))
    ensures Scalars(text, offset).Some? ==> LossyScalars(text, offset) == Scalars(text, offset).value
    decreases |text| - offset
  {
    hide DecodeCodePoint;
    if offset < |text| {
      match DecodeCodePoint(text, offset)
      case None => LossyAreScalar(text, offset + 1);
      case Some(d) =>
        DecodedIsEncoded(text, offset);
        LossyAreScalar(text, offset + d.length);
    }
  }

  lemma {:induction false} LossyWideAreScalar(text: seq<Unit>, offset: nat, utf16: bool)
    requires FitsUnits(text, utf16) && offset <= |text|
    ensures AllScalar(LossyWideScalars(text, offset, utf16))
    ensures WideScalars(text, offset, utf16).Some? ==>
            LossyWideScalars(text, offset, utf16) == WideScalars(text, offset, utf16).value
    decreases |text| - offset
  {
    hide NextWide;
    if offset < |text| {
      match NextWide(text, offset, utf16)
      case None => LossyWideAreScalar(text, offset + 1, utf16);
      case Some(d) =>
        WideDecodedIsEncoded(text, offset, utf16);
        LossyWideAreScalar(text, offset + d.length, utf16);
    }
  }

  lemma DecodeThrough(a: seq<Byte>, text: seq<Byte>, offset: nat)
    requires a <= text && DecodeCodePoint(a, offset).Some?
    ensures DecodeCodePoint(text, offset) == DecodeCodePoint(a, offset)
  {
  }

  /** A valid beginning is decoded as it is. */
  lemma {:induction false} LossyThrough(a: seq<Byte>, text: seq<Byte>, offset: nat)
    requires a <= text && offset <= |a| && Scalars(a, offset).Some?
    ensures LossyScalars(text, offset) == Scalars(a, offset).value + LossyScalars(text, |a|)
    decreases |a| - offset
  {
    hide DecodeCodePoint;
    if offset < |a| {
      var d := DecodeCodePoint(a, offset).value;
      DecodeThrough(a, text, offset);
      LossyThrough(a, text, offset + d.length);
      var front := Scalars(a, offset + d.length).value;
      assert Scalars(a, offset).value == [d.codePoint] + front;
      assert [d.codePoint] + (front + LossyScalars(text, |a|)) == [d.codePoint] + front + LossyScalars(text, |a|);
    }
  }

  lemma DecodeFrom(text: seq<Byte>, from: nat, offset: nat)
    requires from <= offset < |text|
    ensures DecodeCodePoint(text[from..], offset - from) == DecodeCodePoint(text, offset)
  {
    hide Join2, Join3, Join4, IsContinuation;
    var rest := text[from..];
    assert forall k | offset <= k < |text| :: rest[k - from] == text[k];
    assert rest[offset - from] == text[offset];
    assert offset + 1 < |text| ==> rest[offset - from + 1] == text[offset + 1];
    assert offset + 2 < |text| ==> rest[offset - from + 2] == text[offset + 2];
    assert offset + 3 < |text| ==> rest[offset - from + 3] == text[offset + 3];
  }

  /** Decoding looks at nothing before it. */
  lemma {:induction false} LossyFrom(text: seq<Byte>, from: nat, offset: nat)
    requires from <= offset <= |text|
    ensures LossyScalars(text, offset) == LossyScalars(text[from..], offset - from)
    decreases |text| - offset
  {
    hide DecodeCodePoint;
    if offset < |text| {
      var d := DecodeCodePoint(text, offset);
      DecodeFrom(text, from, offset);
      LossyFrom(text, from, offset + if d.Some? then d.value.length else 1);
    }
  }

  /**
   A byte at which no character can be decoded becomes U+FFFD, and does so by itself: what comes before it is
   decoded as it is, and what comes after it as if it stood alone.
   */
  lemma LossyReplaces(a: seq<Byte>, x: Byte, b: seq<Byte>)
    requires Scalars(a, 0).Some? && DecodeCodePoint(a + [x] + b, |a|).None?
    ensures LossyScalars(a + [x] + b, 0) == Scalars(a, 0).value + [0xfffd] + LossyScalars(b, 0)
  {
    var text := a + [x] + b;
    assert a <= text && text[|a| + 1..] == b;
    LossyThrough(a, text, 0);
    LossyFrom(text, |a| + 1, |a| + 1);
  }

  lemma NextWideThrough(a: seq<Unit>, text: seq<Unit>, offset: nat, utf16: bool)
    requires a <= text && offset < |a| && NextWide(a, offset, utf16).Some?
    ensures NextWide(text, offset, utf16) == NextWide(a, offset, utf16)
  {
  }

  /** One step of either decoding, and no more. */
  lemma WideStep(text: seq<Unit>, offset: nat, utf16: bool)
    requires offset < |text|
    ensures var next := NextWide(text, offset, utf16);
            && LossyWideScalars(text, offset, utf16)
               == [if next.Some? then next.value.codePoint else REPLACEMENT]
                  + LossyWideScalars(text, offset + (if next.Some? then next.value.length else 1), utf16)
            && (WideScalars(text, offset, utf16).Some? ==>
                  && next.Some? && WideScalars(text, offset + next.value.length, utf16).Some?
                  && WideScalars(text, offset, utf16).value
                     == [next.value.codePoint] + WideScalars(text, offset + next.value.length, utf16).value)
  {
    hide NextWide;
  }

  lemma WideEnd(text: seq<Unit>, utf16: bool)
    ensures WideScalars(text, |text|, utf16) == Some([]) && LossyWideScalars(text, |text|, utf16) == []
  {
  }

  lemma {:induction false} LossyWideThrough(a: seq<Unit>, text: seq<Unit>, offset: nat, utf16: bool)
    requires a <= text && offset <= |a| && WideScalars(a, offset, utf16).Some?
    ensures LossyWideScalars(text, offset, utf16)
            == WideScalars(a, offset, utf16).value + LossyWideScalars(text, |a|, utf16)
    decreases |a| - offset
  {
    hide NextWide, WideScalars, LossyWideScalars;
    if offset == |a| {
      WideEnd(a, utf16);
    } else {
      WideStep(a, offset, utf16);
      WideStep(text, offset, utf16);
      NextWideThrough(a, text, offset, utf16);
      var d := NextWide(a, offset, utf16).value;
      LossyWideThrough(a, text, offset + d.length, utf16);
      var front, rest := WideScalars(a, offset + d.length, utf16).value, LossyWideScalars(text, |a|, utf16);
      assert [d.codePoint] + (front + rest) == [d.codePoint] + front + rest;
    }
  }

  lemma NextWideFrom(text: seq<Unit>, from: nat, offset: nat, utf16: bool)
    requires from <= offset < |text|
    ensures NextWide(text[from..], offset - from, utf16) == NextWide(text, offset, utf16)
  {
  }

  lemma {:induction false} LossyWideFrom(text: seq<Unit>, from: nat, offset: nat, utf16: bool)
    requires from <= offset <= |text|
    ensures LossyWideScalars(text, offset, utf16) == LossyWideScalars(text[from..], offset - from, utf16)
    decreases |text| - offset
  {
    hide NextWide, LossyWideScalars;
    if offset == |text| {
      WideEnd(text, utf16);
      WideEnd(text[from..], utf16);
    } else {
      WideStep(text, offset, utf16);
      WideStep(text[from..], offset - from, utf16);
      NextWideFrom(text, from, offset, utf16);
      var d := NextWide(text, offset, utf16);
      LossyWideFrom(text, from, offset + (if d.Some? then d.value.length else 1), utf16);
    }
  }

  /** The same for a wide unit, a lone surrogate for one. */
  lemma LossyWideReplaces(a: seq<Unit>, x: Unit, b: seq<Unit>, utf16: bool)
    requires WideScalars(a, 0, utf16).Some? && NextWide(a + [x] + b, |a|, utf16).None?
    ensures LossyWideScalars(a + [x] + b, 0, utf16)
            == WideScalars(a, 0, utf16).value + [0xfffd] + LossyWideScalars(b, 0, utf16)
  {
    var text := a + [x] + b;
    assert a <= text && text[|a| + 1..] == b;
    LossyWideThrough(a, text, 0, utf16);
    LossyWideFrom(text, |a| + 1, |a| + 1, utf16);
  }

  lemma {:induction false} UnitsFit(cs: seq<nat>, utf16: bool)
    requires AllScalar(cs)
    ensures FitsUnits(UnitsOf(cs, utf16), utf16)
  {
    if cs != [] {
      UnitsFit(cs[1..], utf16);
    }
  }

  /** Bytes to wide and back: nothing well formed is changed. */
  lemma WideAndBack(text: seq<Byte>, utf16: bool)
    requires IsUtf8(text)
    ensures ToWideStrict(text, utf16).Some?
    ensures var wide := ToWideStrict(text, utf16).value;
            FitsUnits(wide, utf16) && IsWideText(wide, utf16) && ToUtf8Strict(wide, utf16) == Some(text)
  {
    StrictAcceptsExactlyUtf8(text);
    ScalarsAreEncoded(text, 0);
    var cs := Scalars(text, 0).value;
    var wide := UnitsOf(cs, utf16);
    UnitsFit(cs, utf16);
    UnitsAreDecoded(wide, 0, cs, utf16);
    StrictAcceptsExactlyWideText(wide, utf16);
  }

  lemma Utf8AndBack(text: seq<Unit>, utf16: bool)
    requires FitsUnits(text, utf16) && IsWideText(text, utf16)
    ensures ToUtf8Strict(text, utf16).Some?
    ensures var bytes := ToUtf8Strict(text, utf16).value;
            IsUtf8(bytes) && ToWideStrict(bytes, utf16) == Some(text)
  {
    StrictAcceptsExactlyWideText(text, utf16);
    WideScalarsAreEncoded(text, 0, utf16);
    var cs := WideScalars(text, 0, utf16).value;
    BytesAreDecoded(BytesOf(cs), 0, cs);
    StrictAcceptsExactlyUtf8(BytesOf(cs));
  }

  /** Lossy conversions always give well-formed text, and on well-formed text they are the strict ones. */
  lemma LossyToWideIsWellFormed(text: seq<Byte>, utf16: bool)
    ensures FitsUnits(ToWideLossy(text, utf16), utf16) && IsWideText(ToWideLossy(text, utf16), utf16)
    ensures IsUtf8(text) ==> ToWideStrict(text, utf16) == Some(ToWideLossy(text, utf16))
  {
    LossyAreScalar(text, 0);
    var cs := LossyScalars(text, 0);
    UnitsFit(cs, utf16);
    UnitsAreDecoded(UnitsOf(cs, utf16), 0, cs, utf16);
    StrictAcceptsExactlyWideText(UnitsOf(cs, utf16), utf16);
    StrictAcceptsExactlyUtf8(text);
  }

  lemma LossyToUtf8IsWellFormed(text: seq<Unit>, utf16: bool)
    requires FitsUnits(text, utf16)
    ensures IsUtf8(ToUtf8Lossy(text, utf16))
    ensures IsWideText(text, utf16) ==> ToUtf8Strict(text, utf16) == Some(ToUtf8Lossy(text, utf16))
  {
    LossyWideAreScalar(text, 0, utf16);
    var cs := LossyWideScalars(text, 0, utf16);
    BytesAreDecoded(BytesOf(cs), 0, cs);
    StrictAcceptsExactlyUtf8(BytesOf(cs));
    StrictAcceptsExactlyWideText(text, utf16);
  }

  // ----- the loops -----

  lemma {:induction false} UnitsOfAppend(cs: seq<nat>, c: nat, utf16: bool)
    ensures UnitsOf(cs + [c], utf16) == UnitsOf(cs, utf16) + WideUnits(c, utf16)
    decreases |cs|
  {
    if cs == [] {
      assert UnitsOf([c], utf16) == WideUnits(c, utf16) + UnitsOf([], utf16);
      assert [] + [c] == [c];
    } else {
      assert (cs + [c])[1..] == cs[1..] + [c];
      UnitsOfAppend(cs[1..], c, utf16);
    }
  }

  lemma {:induction false} BytesOfAppend(cs: seq<nat>, c: nat)
    requires AllScalar(cs) && IsScalar(c)
    ensures BytesOf(cs + [c]) == BytesOf(cs) + Utf8Bytes(c)
    decreases |cs|
  {
    if cs == [] {
      assert BytesOf([c]) == Utf8Bytes(c) + BytesOf([]);
      assert [] + [c] == [c];
    } else {
      assert (cs + [c])[1..] == cs[1..] + [c];
      BytesOfAppend(cs[1..], c);
    }
  }

  /** Either reading: with replacement it never fails. */
  function Reading(text: seq<Byte>, offset: nat, replaceInvalid: bool): Option<seq<nat>>
    requires offset <= |text|
  {
    if replaceInvalid then Some(LossyScalars(text, offset)) else Scalars(text, offset)
  }

  function WideReading(text: seq<Unit>, offset: nat, replaceInvalid: bool, utf16: bool): Option<seq<nat>>
    requires offset <= |text|
  {
    if replaceInvalid then Some(LossyWideScalars(text, offset, utf16)) else WideScalars(text, offset, utf16)
  }

  function After(done: seq<nat>, rest: Option<seq<nat>>): Option<seq<nat>> {
    if rest.Some? then Some(done + rest.value) else None
  }

  lemma ReadingStep(text: seq<Byte>, offset: nat, replaceInvalid: bool, done: seq<nat>)
    requires offset < |text|
    ensures var d := DecodeCodePoint(text, offset);
            After(done, Reading(text, offset, replaceInvalid))
            == if d.Some? then After(done + [d.value.codePoint], Reading(text, offset + d.value.length, replaceInvalid))
               else if replaceInvalid then After(done + [REPLACEMENT], Reading(text, offset + 1, replaceInvalid))
               else None
  {
    hide DecodeCodePoint;
    var d := DecodeCodePoint(text, offset);
    var c, next := if d.Some? then d.value.codePoint else REPLACEMENT, offset + if d.Some? then d.value.length else 1;
    var rest := Reading(text, next, replaceInvalid);
    if rest.Some? {
      assert done + [c] + rest.value == done + ([c] + rest.value);
    }
  }

  lemma WideReadingStep(text: seq<Unit>, offset: nat, replaceInvalid: bool, utf16: bool, done: seq<nat>)
    requires offset < |text|
    ensures var d := NextWide(text, offset, utf16);
            After(done, WideReading(text, offset, replaceInvalid, utf16))
            == if d.Some? then
                 After(done + [d.value.codePoint], WideReading(text, offset + d.value.length, replaceInvalid, utf16))
               else if replaceInvalid then
                 After(done + [REPLACEMENT], WideReading(text, offset + 1, replaceInvalid, utf16))
               else None
  {
    hide NextWide;
    var d := NextWide(text, offset, utf16);
    var c, next := if d.Some? then d.value.codePoint else REPLACEMENT, offset + if d.Some? then d.value.length else 1;
    var rest := WideReading(text, next, replaceInvalid, utf16);
    if rest.Some? {
      assert done + [c] + rest.value == done + ([c] + rest.value);
    }
  }

  method DecodeUtf8(text: seq<Byte>, replaceInvalid: bool, utf16: bool) returns (output: Option<seq<Unit>>)
    ensures output == if replaceInvalid then Some(ToWideLossy(text, utf16)) else ToWideStrict(text, utf16)
  {
    hide DecodeCodePoint, WideUnits, Reading;
    var units: seq<Unit> := [];
    var offset := 0;
    ghost var done: seq<nat> := [];
    ghost var whole := Reading(text, 0, replaceInvalid);
    ReadingEnds(text, replaceInvalid);
    while offset < |text|
      invariant offset <= |text| && units == UnitsOf(done, utf16)
      invariant After(done, Reading(text, offset, replaceInvalid)) == whole
      decreases |text| - offset
    {
      var decoded := DecodeCodePoint(text, offset);
      ReadingStep(text, offset, replaceInvalid, done);
      if decoded.None? && !replaceInvalid {
        return None;
      }
      var codePoint := if decoded.None? then REPLACEMENT else decoded.value.codePoint;
      UnitsOfAppend(done, codePoint, utf16);
      units := units + WideUnits(codePoint, utf16);
      done := done + [codePoint];
      offset := offset + if decoded.None? then 1 else decoded.value.length;
    }
    output := Some(units);
  }

  lemma ReadingEnds(text: seq<Byte>, replaceInvalid: bool)
    ensures Reading(text, |text|, replaceInvalid) == Some([])
    ensures forall done: seq<nat> :: After(done, Some([])) == Some(done)
    ensures After([], Reading(text, 0, replaceInvalid)) == Reading(text, 0, replaceInvalid)
    ensures Reading(text, 0, replaceInvalid) == if replaceInvalid then Some(LossyScalars(text, 0)) else Scalars(text, 0)
  {
    var whole := Reading(text, 0, replaceInvalid);
    assert whole.Some? ==> [] + whole.value == whole.value;
    forall done: seq<nat> ensures After(done, Some([])) == Some(done) {
      assert done + [] == done;
    }
  }

  lemma WideReadingEnds(text: seq<Unit>, replaceInvalid: bool, utf16: bool)
    ensures WideReading(text, |text|, replaceInvalid, utf16) == Some([])
    ensures forall done: seq<nat> :: After(done, Some([])) == Some(done)
    ensures After([], WideReading(text, 0, replaceInvalid, utf16)) == WideReading(text, 0, replaceInvalid, utf16)
    ensures WideReading(text, 0, replaceInvalid, utf16)
         == if replaceInvalid then Some(LossyWideScalars(text, 0, utf16)) else WideScalars(text, 0, utf16)
  {
    var whole := WideReading(text, 0, replaceInvalid, utf16);
    assert whole.Some? ==> [] + whole.value == whole.value;
    forall done: seq<nat> ensures After(done, Some([])) == Some(done) {
      assert done + [] == done;
    }
  }

  method EncodeWide(text: seq<Unit>, replaceInvalid: bool, utf16: bool) returns (output: Option<seq<Byte>>)
    requires FitsUnits(text, utf16)
    ensures output == if replaceInvalid then Some(ToUtf8Lossy(text, utf16)) else ToUtf8Strict(text, utf16)
  {
    hide NextWide, Utf8Bytes, FitsUnits, WideReading;
    var bytes: seq<Byte> := [];
    var offset := 0;
    ghost var done: seq<nat> := [];
    ghost var whole := WideReading(text, 0, replaceInvalid, utf16);
    WideReadingEnds(text, replaceInvalid, utf16);
    while offset < |text|
      invariant offset <= |text| && AllScalar(done) && bytes == BytesOf(done)
      invariant After(done, WideReading(text, offset, replaceInvalid, utf16)) == whole
      decreases |text| - offset
    {
      var decoded := NextWide(text, offset, utf16);
      WideReadingStep(text, offset, replaceInvalid, utf16, done);
      if decoded.None? && !replaceInvalid {
        return None;
      }
      if decoded.Some? {
        WideDecodedIsEncoded(text, offset, utf16);
      }
      var codePoint := if decoded.None? then REPLACEMENT else decoded.value.codePoint;
      BytesOfAppend(done, codePoint);
      bytes := bytes + Utf8Bytes(codePoint);
      done := done + [codePoint];
      offset := offset + if decoded.None? then 1 else decoded.value.length;
    }
    output := Some(bytes);
  }

  method IsValidUtf8(text: seq<Byte>, utf16: bool) returns (valid: bool)
    ensures valid <==> IsUtf8(text)
  {
    StrictAcceptsExactlyUtf8(text);
    var wide := DecodeUtf8(text, false, utf16);
    valid := wide.Some?;
  }
}
