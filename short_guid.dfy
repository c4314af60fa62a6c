/**
 * `ShortGuid.Generate`: the 16 bytes of a GUID encoded in Base64 (section 4 of RFC 4648),
 * with '/' and '+' replaced by '_' and '-' (the URL-safe alphabet of section 5 of RFC 4648),
 * cut to 22 characters. The random GUID is the parameter `guid`.
 */
module ShortGuid {
  import opened Wrappers

  type byte = x: int | 0 <= x < 256
  type sextet = x: int | 0 <= x < 64

  /** The Base64 alphabet of section 4 of RFC 4648 (Table 1). */
  function Digit(i: sextet): (c: char) {
    if i < 26 then (('A' as int) + i) as char
    else if i < 52 then (('a' as int) + (i - 26)) as char
    else if i < 62 then (('0' as int) + (i - 52)) as char
    else if i == 62 then '+'
    else '/'
  }

  /** The inverse of `Digit`; -1 for a character outside the alphabet. */
  function DigitValue(c: char): int {
    if 'A' <= c <= 'Z' then c as int - 'A' as int
    else if 'a' <= c <= 'z' then c as int - 'a' as int + 26
    else if '0' <= c <= '9' then c as int - '0' as int + 52
    else if c == '+' then 62
    else if c == '/' then 63
    else -1
  }

  lemma DigitValueOfDigit(i: sextet)
    ensures DigitValue(Digit(i)) == i
  {
  }

  predicate IsBase64Char(c: char) {
    ('A' <= c <= 'Z') || ('a' <= c <= 'z') || ('0' <= c <= '9') || c == '+' || c == '/'
  }

  /** The URL-safe alphabet of section 5 of RFC 4648. */
  predicate IsUrlSafeChar(c: char) {
    ('A' <= c <= 'Z') || ('a' <= c <= 'z') || ('0' <= c <= '9') || c == '-' || c == '_'
  }

  /** One full 24-bit group: three bytes, four digits. */
  function EncodeThree(b0: byte, b1: byte, b2: byte): (q: string)
    ensures |q| == 4
  {
    [Digit(b0 / 4), Digit((b0 % 4) * 16 + b1 / 16), Digit((b1 % 16) * 4 + b2 / 64), Digit(b2 % 64)]
  }

  /** A final group of two bytes: three digits and one pad. */
  function EncodeTwo(b0: byte, b1: byte): (q: string)
    ensures |q| == 4 && q[3] == '='
  {
    [Digit(b0 / 4), Digit((b0 % 4) * 16 + b1 / 16), Digit((b1 % 16) * 4), '=']
  }

  /** A final group of one byte: two digits and two pads. */
  function EncodeOne(b0: byte): (q: string)
    ensures |q| == 4 && q[2] == '=' && q[3] == '='
  {
    [Digit(b0 / 4), Digit((b0 % 4) * 16), '=', '=']
  }

  /** `Convert.ToBase64String`. */
  function ToBase64String(b: seq<byte>): string
    decreases |b|
  {
    if |b| >= 3 then EncodeThree(b[0], b[1], b[2]) + ToBase64String(b[3..])
    else if |b| == 2 then EncodeTwo(b[0], b[1])
    else if |b| == 1 then EncodeOne(b[0])
    else ""
  }

  /** Decodes one group of four characters; `=` pads stand only at its end. */
  function DecodeQuad(q: string): Option<seq<byte>>
    requires |q| == 4
  {
    var e0, e1, e2, e3 := DigitValue(q[0]), DigitValue(q[1]), DigitValue(q[2]), DigitValue(q[3]);
    if e0 < 0 || e1 < 0 then None
    else if q[2] == '=' && q[3] == '=' then
      Some([e0 * 4 + e1 / 16])
    else if e2 >= 0 && q[3] == '=' then
      Some([e0 * 4 + e1 / 16, (e1 % 16) * 16 + e2 / 4])
    else if e2 >= 0 && e3 >= 0 then
      Some([e0 * 4 + e1 / 16, (e1 % 16) * 16 + e2 / 4, (e2 % 4) * 64 + e3])
    else None
  }

  /** Base64 decoding (section 4 of RFC 4648), the partner of `ToBase64String`. */
  function Base64Decode(s: string): Option<seq<byte>>
    decreases |s|
  {
    if |s| == 0 then Some([])
    else if |s| < 4 then None
    else match DecodeQuad(s[..4])
      case None => None
      case Some(head) =>
        match Base64Decode(s[4..])
        case None => None
        case Some(tail) => Some(head + tail)
  }

  /** `string.Replace` with one-character strings. */
  function Replace(s: string, from: char, to: char): (r: string)
    ensures |r| == |s|
    ensures forall i :: 0 <= i < |s| ==> r[i] == (if s[i] == from then to else s[i])
  {
    seq(|s|, i requires 0 <= i < |s| => if s[i] == from then to else s[i])
  }

  /** `ShortGuid.Generate`, for the GUID bytes `guid`. */
  function Generate(guid: seq<byte>): (id: string)
    requires |guid| == 16
    ensures |id| == 22
  {
    var enc := ToBase64String(guid);
    Base64Length(guid);
    var enc1 := Replace(enc, '/', '_');
    var enc2 := Replace(enc1, '+', '-');
    enc2[..22]
  }

  /** Undoes `Generate`: back to the standard alphabet, re-append the pads, decode. */
  function Decode(id: string): Option<seq<byte>> {
    Base64Decode(Replace(Replace(id, '-', '+'), '_', '/') + "==")
  }

  // ---------------------------------------------------------------- proofs

  lemma {:induction false} Base64Length(b: seq<byte>)
    ensures |ToBase64String(b)| == (|b| + 2) / 3 * 4
    decreases |b|
  {
    if |b| >= 3 {
      Base64Length(b[3..]);
      assert ToBase64String(b) == EncodeThree(b[0], b[1], b[2]) + ToBase64String(b[3..]);
      assert (|b| + 2) / 3 == (|b[3..]| + 2) / 3 + 1;
    }
  }

  lemma {:induction false} Base64Alphabet(b: seq<byte>)
    ensures forall i :: 0 <= i < |ToBase64String(b)| ==> IsBase64Char(ToBase64String(b)[i]) || ToBase64String(b)[i] == '='
    decreases |b|
  {
    if |b| >= 3 {
      Base64Alphabet(b[3..]);
      var e := ToBase64String(b);
      var head := EncodeThree(b[0], b[1], b[2]);
      var tail := ToBase64String(b[3..]);
      assert e == head + tail;
      forall i | 0 <= i < |e| ensures IsBase64Char(e[i]) || e[i] == '=' {
        if i < 4 { assert e[i] == head[i]; } else { assert e[i] == tail[i - 4]; }
      }
    }
  }

  lemma {:induction false} Base64Split(b: seq<byte>, k: nat)
    requires 3 * k <= |b|
    ensures ToBase64String(b) == ToBase64String(b[..3 * k]) + ToBase64String(b[3 * k..])
    decreases k
  {
    if k > 0 {
      var rest := b[3..];
      Base64Split(rest, k - 1);
      assert rest[..3 * (k - 1)] == b[3..3 * k];
      assert rest[3 * (k - 1)..] == b[3 * k..];
      assert b[..3 * k][3..] == b[3..3 * k];
      assert ToBase64String(b[..3 * k]) == EncodeThree(b[0], b[1], b[2]) + ToBase64String(b[3..3 * k]);
    }
  }

  lemma DigitIsNotPad(i: sextet)
    ensures Digit(i) != '='
  {
  }

  /** The digits of a full group carry the three bytes back. */
  lemma ThreeArithmetic(b0: byte, b1: byte, b2: byte)
    ensures var d1, d2 := (b0 % 4) * 16 + b1 / 16, (b1 % 16) * 4 + b2 / 64;
      (b0 / 4) * 4 + d1 / 16 == b0 && (d1 % 16) * 16 + d2 / 4 == b1 && (d2 % 4) * 64 + b2 % 64 == b2
  {
    var d1, d2 := (b0 % 4) * 16 + b1 / 16, (b1 % 16) * 4 + b2 / 64;
    assert d1 / 16 == b0 % 4 && d1 % 16 == b1 / 16;
    assert d2 / 4 == b1 % 16 && d2 % 4 == b2 / 64;
  }

  lemma ThreeRoundTrip(b0: byte, b1: byte, b2: byte)
    ensures DecodeQuad(EncodeThree(b0, b1, b2)) == Some([b0, b1, b2])
  {
    var q := EncodeThree(b0, b1, b2);
    var d0, d1, d2, d3 := b0 / 4, (b0 % 4) * 16 + b1 / 16, (b1 % 16) * 4 + b2 / 64, b2 % 64;
    assert q == [Digit(d0), Digit(d1), Digit(d2), Digit(d3)];
    DigitValueOfDigit(d0);
    DigitValueOfDigit(d1);
    DigitValueOfDigit(d2);
    DigitValueOfDigit(d3);
    DigitIsNotPad(d2);
    DigitIsNotPad(d3);
    ThreeArithmetic(b0, b1, b2);
    assert DecodeQuad(q) == Some([d0 * 4 + d1 / 16, (d1 % 16) * 16 + d2 / 4, (d2 % 4) * 64 + d3]);
  }

  lemma TwoRoundTrip(b0: byte, b1: byte)
    ensures DecodeQuad(EncodeTwo(b0, b1)) == Some([b0, b1])
  {
    DigitValueOfDigit(b0 / 4);
    DigitValueOfDigit((b0 % 4) * 16 + b1 / 16);
    DigitValueOfDigit((b1 % 16) * 4);
  }

  lemma OneRoundTrip(b0: byte)
    ensures DecodeQuad(EncodeOne(b0)) == Some([b0])
  {
    DigitValueOfDigit(b0 / 4);
    DigitValueOfDigit((b0 % 4) * 16);
  }

  /** Decoding inverts encoding, for every byte sequence. */
  lemma {:induction false} Base64RoundTrip(b: seq<byte>)
    ensures Base64Decode(ToBase64String(b)) == Some(b)
    decreases |b|
  {
    var e := ToBase64String(b);
    if |b| >= 3 {
      Base64RoundTrip(b[3..]);
      ThreeRoundTrip(b[0], b[1], b[2]);
      var head := EncodeThree(b[0], b[1], b[2]);
      assert e[..4] == head && e[4..] == ToBase64String(b[3..]);
      assert [b[0], b[1], b[2]] + b[3..] == b;
    } else if |b| == 2 {
      TwoRoundTrip(b[0], b[1]);
      assert e == EncodeTwo(b[0], b[1]);
      assert e[..4] == e && e[4..] == [];
      assert Base64Decode(e[4..]) == Some([]);
      assert [b[0], b[1]] + [] == b;
    } else if |b| == 1 {
      OneRoundTrip(b[0]);
      assert e == EncodeOne(b[0]);
      assert e[..4] == e && e[4..] == [];
      assert Base64Decode(e[4..]) == Some([]);
      assert [b[0]] + [] == b;
    }
  }

  /** The last four characters of the Base64 text of 16 bytes: two digits and "==". */
  lemma SixteenBytesTail(guid: seq<byte>)
    requires |guid| == 16
    ensures |ToBase64String(guid)| == 24
    ensures ToBase64String(guid)[20..] == EncodeOne(guid[15])
    ensures ToBase64String(guid)[22..] == "=="
  {
    Base64Length(guid);
    Base64Length(guid[..15]);
    Base64Split(guid, 5);
    assert guid[15..] == [guid[15]];
    assert ToBase64String(guid[15..]) == EncodeOne(guid[15]);
  }

  /** The 24 Base64 characters of a GUID end in "==", so the cut to 22 drops exactly the padding. */
  lemma CutDropsOnlyPadding(guid: seq<byte>)
    requires |guid| == 16
    ensures Generate(guid) + "==" == Replace(Replace(ToBase64String(guid), '/', '_'), '+', '-')
  {
    SixteenBytesTail(guid);
    var e := Replace(Replace(ToBase64String(guid), '/', '_'), '+', '-');
    assert e[22..] == "==";
    assert e == e[..22] + e[22..];
  }

  /** Every character of a short GUID is in the URL-safe alphabet: no '+', '/' or '='. */
  lemma GenerateIsUrlSafe(guid: seq<byte>)
    requires |guid| == 16
    ensures forall i :: 0 <= i < 22 ==> IsUrlSafeChar(Generate(guid)[i])
    ensures forall i :: 0 <= i < 22 ==> Generate(guid)[i] !in {'+', '/', '='}
  {
    var e := ToBase64String(guid);
    Base64Alphabet(guid);
    SixteenBytesTail(guid);
    assert e[20..] == EncodeOne(guid[15]);
    forall i | 0 <= i < 22 ensures e[i] != '=' {
      if i >= 20 { assert e[i] == EncodeOne(guid[15])[i - 20]; }
      else { Base64Split(guid, 5); Base64Length(guid[..15]); NoPadInFullGroups(guid[..15], i); }
    }
  }

  lemma {:induction false} NoPadInFullGroups(b: seq<byte>, i: nat)
    requires |b| % 3 == 0 && i < |ToBase64String(b)|
    ensures ToBase64String(b)[i] != '='
    decreases |b|
  {
    if |b| >= 3 {
      if i >= 4 { NoPadInFullGroups(b[3..], i - 4); }
    }
  }

  /** The 22nd character carries four zero fill bits, so it is one of 'A', 'Q', 'g', 'w'. */
  lemma LastCharacter(guid: seq<byte>)
    requires |guid| == 16
    ensures Generate(guid)[21] in {'A', 'Q', 'g', 'w'}
  {
    SixteenBytesTail(guid);
    var e := ToBase64String(guid);
    assert e[21] == EncodeOne(guid[15])[1] == Digit((guid[15] % 4) * 16);
  }

  /** Reversing the mapping and re-appending "==" decodes back to the GUID bytes. */
  lemma DecodeGenerate(guid: seq<byte>)
    requires |guid| == 16
    ensures Decode(Generate(guid)) == Some(guid)
  {
    var e := ToBase64String(guid);
    Base64Alphabet(guid);
    CutDropsOnlyPadding(guid);
    SixteenBytesTail(guid);
    var id := Generate(guid);
    var back := Replace(Replace(id, '-', '+'), '_', '/') + "==";
    assert |back| == 24;
    forall i | 0 <= i < 24 ensures back[i] == e[i] {
      if i < 22 {
        assert id[i] == Replace(Replace(e, '/', '_'), '+', '-')[i];
      }
    }
    assert back == e;
    Base64RoundTrip(guid);
  }

  /** Distinct GUIDs give distinct short ids. */
  lemma GenerateInjective(a: seq<byte>, b: seq<byte>)
    requires |a| == 16 && |b| == 16 && a != b
    ensures Generate(a) != Generate(b)
  {
    DecodeGenerate(a);
    DecodeGenerate(b);
  }
}
