/**
 * The text encodings of the TPM evidence: lower-case hexadecimal, Base64 with padding
 * (sections 4 and 8 of RFC 4648), UTF-8, and the `base64(hex(..))` blob built from them.
 */
module Codec {
  import opened Wrappers
  import opened Text

  // ----- hexadecimal -----

  function HexDigit(n: nat): char
    requires n < 16
  {
    if n < 10 then ('0' as int + n) as char else ('a' as int + n - 10) as char
  }

  function HexValue(c: char): (r: Option<nat>)
    ensures r.Some? ==> r.value < 16
  {
    if '0' <= c <= '9' then Some(c as int - '0' as int)
    else if 'a' <= c <= 'f' then Some(c as int - 'a' as int + 10)
    else if 'A' <= c <= 'F' then Some(c as int - 'A' as int + 10)
    else None
  }

  predicate AllHex(s: string) {
    forall i | 0 <= i < |s| :: HexValue(s[i]).Some?
  }

  /** `hex::encode`. */
  function ToHex(b: Bytes): (s: string)
    ensures |s| == 2 * |b|
  {
    if b == [] then [] else [HexDigit(b[0] / 16), HexDigit(b[0] % 16)] + ToHex(b[1..])
  }

  lemma AllHexSplits(s: string)
    requires |s| >= 2
    ensures AllHex(s) <==> HexValue(s[0]).Some? && HexValue(s[1]).Some? && AllHex(s[2..])
  {
    hide HexValue;
    assert forall i | 0 <= i < |s| - 2 :: s[2..][i] == s[i + 2];
    assert forall i | 2 <= i < |s| :: s[i] == s[2..][i - 2];
  }

  /** `hex::decode`: both cases of a digit are accepted, an odd length is not. */
  function FromHex(s: string): (r: Option<Bytes>)
    ensures r.Some? <==> |s| % 2 == 0 && AllHex(s)
    ensures r.Some? ==> |s| == 2 * |r.value|
  {
    if s == [] then Some([])
    else if |s| == 1 then None
    else
      var hi, lo, rest := HexValue(s[0]), HexValue(s[1]), FromHex(s[2..]);
      AllHexSplits(s);
      hide AllHex, HexValue;
      if hi.Some? && lo.Some? && rest.Some? then
        Some([hi.value * 16 + lo.value] + rest.value)
      else None
  }

  lemma {:induction false} FromHexOfToHex(b: Bytes)
    ensures FromHex(ToHex(b)) == Some(b)
  {
    if b != [] {
      var s := ToHex(b);
      assert s[2..] == ToHex(b[1..]);
      FromHexOfToHex(b[1..]);
      assert HexValue(s[0]) == Some(b[0] / 16) && HexValue(s[1]) == Some(b[0] % 16);
      assert [b[0]] + b[1..] == b;
    }
  }

  lemma DigitLowers(c: char)
    requires HexValue(c).Some?
    ensures HexDigit(HexValue(c).value) == LowerChar(c)
  {
  }

  lemma PairLowers(hi: char, lo: char, rest: Bytes)
    requires HexValue(hi).Some? && HexValue(lo).Some?
    ensures ToHex([HexValue(hi).value * 16 + HexValue(lo).value] + rest) == [LowerChar(hi), LowerChar(lo)] + ToHex(rest)
  {
    DigitLowers(hi);
    DigitLowers(lo);
    hide HexValue, HexDigit, LowerChar;
    var b := [HexValue(hi).value * 16 + HexValue(lo).value] + rest;
    assert b[1..] == rest && b[0] / 16 == HexValue(hi).value && b[0] % 16 == HexValue(lo).value;
  }

  /** Decoding and encoding again only lowers the case of the digits. */
  lemma {:induction false} ToHexOfFromHex(s: string)
    requires FromHex(s).Some?
    ensures ToHex(FromHex(s).value) == Lower(s)
  {
    hide HexValue, LowerChar, AllHex, ToHex;
    if s == [] {
      EmptyLowers();
    } else {
      var rest := FromHex(s[2..]).value;
      ToHexOfFromHex(s[2..]);
      AllHexSplits(s);
      PairLowers(s[0], s[1], rest);
      assert Lower(s) == [LowerChar(s[0]), LowerChar(s[1])] + Lower(s[2..]);
    }
  }

  lemma EmptyLowers()
    ensures ToHex([]) == Lower([])
  {
  }

  lemma {:induction false} HexTextOf(b: Bytes)
    ensures forall i | 0 <= i < |ToHex(b)| :: var c := ToHex(b)[i]; '0' <= c <= '9' || 'a' <= c <= 'f'
    ensures Lower(ToHex(b)) == ToHex(b) && Trimmed(ToHex(b))
  {
    if b != [] {
      HexTextOf(b[1..]);
    }
  }

  // ----- Base64 -----

  function Symbol(n: nat): char
    requires n < 64
  {
    if n < 26 then ('A' as int + n) as char
    else if n < 52 then ('a' as int + n - 26) as char
    else if n < 62 then ('0' as int + n - 52) as char
    else if n == 62 then '+' else '/'
  }

  function SymbolValue(c: char): (r: Option<nat>)
    ensures r.Some? ==> r.value < 64 && Symbol(r.value) == c
    ensures r.Some? ==> c != '=' && c != ':' && !IsSpace(c)
  {
    if 'A' <= c <= 'Z' then Some(c as int - 'A' as int)
    else if 'a' <= c <= 'z' then Some(c as int - 'a' as int + 26)
    else if '0' <= c <= '9' then Some(c as int - '0' as int + 52)
    else if c == '+' then Some(62) else if c == '/' then Some(63) else None
  }

  lemma SymbolRoundTrip(n: nat)
    requires n < 64
    ensures SymbolValue(Symbol(n)) == Some(n)
  {
  }

  function Base64Encode(b: Bytes): (s: string)
    ensures |s| % 4 == 0 && (s == [] <==> b == [])
  {
    if b == [] then []
    else if |b| == 1 then [Symbol(b[0] / 4), Symbol(b[0] % 4 * 16), '=', '=']
    else if |b| == 2 then
      [Symbol(b[0] / 4), Symbol(b[0] % 4 * 16 + b[1] / 16), Symbol(b[1] % 16 * 4), '=']
    else
      [Symbol(b[0] / 4), Symbol(b[0] % 4 * 16 + b[1] / 16), Symbol(b[1] % 16 * 4 + b[2] / 64), Symbol(b[2] % 64)]
      + Base64Encode(b[3..])
  }

  /** One group of four symbols; a padded one is accepted only with zero trailing bits. */
  function DecodeGroup(s: string, last: bool): (r: Option<Bytes>)
    requires |s| == 4
    ensures r.Some? ==> 1 <= |r.value| <= 3 && (last || |r.value| == 3)
  {
    var v0, v1, v2, v3 := SymbolValue(s[0]), SymbolValue(s[1]), SymbolValue(s[2]), SymbolValue(s[3]);
    if v0.None? || v1.None? then None
    else
      var first := v0.value * 4 + v1.value / 16;
      if v2.Some? && v3.Some? then
        Some([first, v1.value % 16 * 16 + v2.value / 4, v2.value % 4 * 64 + v3.value])
      else if !last || s[3] != '=' then None
      else if v2.Some? && v2.value % 4 == 0 then Some([first, v1.value % 16 * 16 + v2.value / 4])
      else if s[2] == '=' && v1.value % 16 == 0 then Some([first])
      else None
  }

  /** The strict `STANDARD` engine: padding required, no stray bits, no white space. */
  function Base64Decode(s: string): Option<Bytes> {
    if s == [] then Some([])
    else if |s| < 4 then None
    else
      match (DecodeGroup(s[..4], |s| == 4), Base64Decode(s[4..]))
      case (Some(head), Some(tail)) => Some(head + tail)
      case _ => None
  }

  lemma BytesOfSextets(b0: byte, b1: byte, b2: byte)
    ensures var (v0, v1, v2, v3) := (b0 / 4, b0 % 4 * 16 + b1 / 16, b1 % 16 * 4 + b2 / 64, b2 % 64);
      && v0 < 64 && v1 < 64 && v2 < 64 && v3 < 64
      && v0 * 4 + v1 / 16 == b0 && v1 % 16 * 16 + v2 / 4 == b1 && v2 % 4 * 64 + v3 == b2
  {
  }

  lemma SextetsOfBytes(v0: nat, v1: nat, v2: nat, v3: nat)
    requires v0 < 64 && v1 < 64 && v2 < 64 && v3 < 64
    ensures var (b0, b1, b2) := (v0 * 4 + v1 / 16, v1 % 16 * 16 + v2 / 4, v2 % 4 * 64 + v3);
      && b0 < 256 && b1 < 256 && b2 < 256
      && b0 / 4 == v0 && b0 % 4 * 16 + b1 / 16 == v1 && b1 % 16 * 4 + b2 / 64 == v2 && b2 % 64 == v3
      && b0 % 4 * 16 == v1 - v1 % 16 && b1 % 16 * 4 == v2 - v2 % 4
  {
  }

  lemma DecodeSymbols(v0: nat, v1: nat, v2: nat, v3: nat, last: bool)
    requires v0 < 64 && v1 < 64 && v2 < 64 && v3 < 64
    ensures DecodeGroup([Symbol(v0), Symbol(v1), Symbol(v2), Symbol(v3)], last) ==
            Some([v0 * 4 + v1 / 16, v1 % 16 * 16 + v2 / 4, v2 % 4 * 64 + v3])
  {
    SymbolRoundTrip(v0);
    SymbolRoundTrip(v1);
    SymbolRoundTrip(v2);
    SymbolRoundTrip(v3);
    hide SymbolValue, Symbol;
  }

  lemma DecodeShort(v0: nat, v1: nat, v2: nat)
    requires v0 < 64 && v1 < 64 && v2 < 64
    ensures v2 % 4 == 0 ==>
              DecodeGroup([Symbol(v0), Symbol(v1), Symbol(v2), '='], true) ==
              Some([v0 * 4 + v1 / 16, v1 % 16 * 16 + v2 / 4])
    ensures v1 % 16 == 0 ==> DecodeGroup([Symbol(v0), Symbol(v1), '=', '='], true) == Some([v0 * 4 + v1 / 16])
  {
    SymbolRoundTrip(v0);
    SymbolRoundTrip(v1);
    SymbolRoundTrip(v2);
    assert SymbolValue('=').None?;
    hide SymbolValue, Symbol;
  }

  /** A group of one, two or three bytes survives encoding; only the last one may be short. */
  lemma GroupRoundTrip(g: Bytes, last: bool)
    requires 1 <= |g| <= 3 && (last || |g| == 3)
    ensures |Base64Encode(g)| == 4 && DecodeGroup(Base64Encode(g), last) == Some(g)
  {
    hide DecodeGroup, Symbol;
    var b1, b2 := if |g| > 1 then g[1] else 0, if |g| > 2 then g[2] else 0;
    var v0, v1, v2, v3 := g[0] / 4, g[0] % 4 * 16 + b1 / 16, b1 % 16 * 4 + b2 / 64, b2 % 64;
    BytesOfSextets(g[0], b1, b2);
    if |g| == 3 {
      DecodeSymbols(v0, v1, v2, v3, last);
      assert g == [g[0], g[1], g[2]] && g[3..] == [];
      assert Base64Encode(g) == [Symbol(v0), Symbol(v1), Symbol(v2), Symbol(v3)];
    } else if |g| == 2 {
      DecodeShort(v0, v1, v2);
      assert g == [g[0], g[1]];
    } else {
      DecodeShort(v0, v1, v2);
      assert g == [g[0]];
    }
  }

  lemma {:induction false} Base64RoundTrip(b: Bytes)
    ensures Base64Decode(Base64Encode(b)) == Some(b)
  {
    var s := Base64Encode(b);
    hide DecodeGroup, Base64Encode;
    NothingEncodes();
    if |b| > 3 {
      Base64RoundTrip(b[3..]);
      GroupRoundTrip(b[..3], |s| == 4);
      assert b[..3] + b[3..] == b;
      EncodeAppend(b[..3], b[3..]);
      assert s[..4] == Base64Encode(b[..3]) && s[4..] == Base64Encode(b[3..]);
    } else if b != [] {
      GroupRoundTrip(b, true);
      assert s[..4] == s && s[4..] == [];
      assert b + [] == b;
    }
  }

  lemma FullGroupCanonical(s: string, last: bool)
    requires |s| == 4 && SymbolValue(s[3]).Some? && DecodeGroup(s, last).Some?
    ensures Base64Encode(DecodeGroup(s, last).value) == s
  {
    hide SymbolValue, Symbol;
    var g := DecodeGroup(s, last).value;
    SextetsOfBytes(SymbolValue(s[0]).value, SymbolValue(s[1]).value, SymbolValue(s[2]).value, SymbolValue(s[3]).value);
    assert g[3..] == [];
  }

  lemma ShortGroupCanonical(s: string, last: bool, v2: nat)
    requires |s| == 4 && SymbolValue(s[3]).None? && DecodeGroup(s, last).Some?
    requires if SymbolValue(s[2]).Some? then SymbolValue(s[2]) == Some(v2) else v2 == 0
    ensures Base64Encode(DecodeGroup(s, last).value) == s
  {
    hide SymbolValue, Symbol;
    var v0, v1 := SymbolValue(s[0]).value, SymbolValue(s[1]).value;
    SextetsOfBytes(v0, v1, v2, 0);
    if SymbolValue(s[2]).Some? {
      assert s == [s[0], s[1], s[2], '='];
    } else {
      assert s == [s[0], s[1], '=', '='];
    }
  }

  lemma DecodeGroupCanonical(s: string, last: bool)
    requires |s| == 4 && DecodeGroup(s, last).Some?
    ensures Base64Encode(DecodeGroup(s, last).value) == s
  {
    hide SymbolValue, Symbol, DecodeGroup, Base64Encode;
    if SymbolValue(s[3]).Some? {
      FullGroupCanonical(s, last);
    } else {
      ShortGroupCanonical(s, last, if SymbolValue(s[2]).Some? then SymbolValue(s[2]).value else 0);
    }
  }

  /** Only the canonical text decodes: no two blobs decode to the same bytes. */
  lemma {:induction false} Base64Canonical(s: string)
    requires Base64Decode(s).Some?
    ensures Base64Encode(Base64Decode(s).value) == s
  {
    hide Base64Encode, DecodeGroup, Base64Decode;
    if s == [] {
      NothingEncodes();
    } else {
      DecodeSplits(s);
      DecodeGroupCanonical(s[..4], |s| == 4);
      var head, tail := DecodeGroup(s[..4], |s| == 4).value, Base64Decode(s[4..]).value;
      assert s == s[..4] + s[4..];
      if |s| > 4 {
        Base64Canonical(s[4..]);
        EncodeAppend(head, tail);
      } else {
        NothingEncodes();
        assert s[4..] == [] && s[..4] == s && head + [] == head;
      }
    }
  }

  lemma NothingEncodes()
    ensures Base64Encode([]) == [] && Base64Decode([]) == Some([])
  {
  }

  lemma DecodeSplits(s: string)
    requires s != [] && Base64Decode(s).Some?
    ensures |s| >= 4
    ensures
      var head, tail := DecodeGroup(s[..4], |s| == 4), Base64Decode(s[4..]);
      && head.Some? && tail.Some? && Base64Decode(s).value == head.value + tail.value
      && (|s| > 4 ==> |head.value| == 3)
  {
    hide DecodeGroup;
  }

  lemma EncodeAppend(head: Bytes, tail: Bytes)
    requires |head| == 3
    ensures Base64Encode(head + tail) == Base64Encode(head) + Base64Encode(tail)
  {
    hide Symbol;
    assert (head + tail)[3..] == tail && head[3..] == [];
    assert forall i | 0 <= i < 3 :: (head + tail)[i] == head[i];
  }

  lemma {:induction false} Base64TextOf(b: Bytes)
    ensures forall i | 0 <= i < |Base64Encode(b)| :: var c := Base64Encode(b)[i]; c != ':' && !IsSpace(c)
  {
    if |b| > 2 {
      Base64TextOf(b[3..]);
    }
  }

  // ----- UTF-8 -----

  predicate Continuation(b: byte) { 0x80 <= b < 0xC0 }

  /** The length of the well-formed sequence `b` starts with, or 0. */
  function SequenceLength(b: Bytes): (n: nat)
    requires b != []
    ensures n <= |b| && n <= 4
  {
    var b0, size := b[0], |b|;
    if b0 < 0x80 then 1
    else if 0xC2 <= b0 < 0xE0 && size >= 2 && Continuation(b[1]) then 2
    else if 0xE0 <= b0 < 0xF0 && size >= 3 && Continuation(b[1]) && Continuation(b[2])
            && (b0 == 0xE0 ==> b[1] >= 0xA0) && (b0 == 0xED ==> b[1] < 0xA0) then 3
    else if 0xF0 <= b0 < 0xF5 && size >= 4 && Continuation(b[1]) && Continuation(b[2]) && Continuation(b[3])
            && (b0 == 0xF0 ==> b[1] >= 0x90) && (b0 == 0xF4 ==> b[1] < 0x90) then 4
    else 0
  }

  function ScalarAt(b: Bytes): char
    requires b != [] && SequenceLength(b) > 0
  {
    var n := SequenceLength(b);
    var code: int :=
      if n == 1 then b[0]
      else if n == 2 then 0x40 * (b[0] as int - 0xC0) + (b[1] as int - 0x80)
      else if n == 3 then 0x1000 * (b[0] as int - 0xE0) + 0x40 * (b[1] as int - 0x80) + (b[2] as int - 0x80)
      else 0x40000 * (b[0] as int - 0xF0) + 0x1000 * (b[1] as int - 0x80)
           + 0x40 * (b[2] as int - 0x80) + (b[3] as int - 0x80);
    code as char
  }

  /** `String::from_utf8`. */
  function FromUtf8(b: Bytes): Option<string> {
    if b == [] then Some([])
    else
      var n := SequenceLength(b);
      if n == 0 then None
      else
        match FromUtf8(b[n..])
        case None => None
        case Some(rest) => Some([ScalarAt(b)] + rest)
  }

  predicate Ascii(s: string) {
    forall i | 0 <= i < |s| :: s[i] as int < 0x80
  }

  /** `str::as_bytes` of an ASCII text. */
  function AsciiBytes(s: string): Bytes
    requires Ascii(s)
  {
    seq(|s|, i requires 0 <= i < |s| => s[i] as int)
  }

  lemma {:induction false} AsciiIsUtf8(s: string)
    requires Ascii(s)
    ensures FromUtf8(AsciiBytes(s)) == Some(s)
  {
    if s != [] {
      AsciiIsUtf8(s[1..]);
      assert [s[0]] + s[1..] == s;
      assert AsciiBytes(s)[1..] == AsciiBytes(s[1..]);
    }
  }

  // ----- blobs -----

  /** The text half of `read_blob`: `base64(hex(bytes))`. */
  function EncodeBlob(b: Bytes): string {
    HexTextOf(b);
    Base64Encode(AsciiBytes(ToHex(b)))
  }

  function DecodeBlob(text: string): Result<Bytes, Error> {
    match Base64Decode(Trim(text))
    case None => Err(InvalidInput)
    case Some(inner) =>
      match FromUtf8(inner)
      case None => Err(InvalidInput)
      case Some(hex) =>
        match FromHex(Trim(hex))
        case None => Err(InvalidInput)
        case Some(b) => Ok(b)
  }

  lemma EncodedBlobText(b: Bytes)
    ensures ':' !in EncodeBlob(b) && Trimmed(EncodeBlob(b))
  {
    HexTextOf(b);
    Base64TextOf(AsciiBytes(ToHex(b)));
  }

  /** `decode_blob` gives back every byte string, and neither of its trims removes anything. */
  lemma BlobRoundTrip(b: Bytes)
    ensures DecodeBlob(EncodeBlob(b)) == Ok(b)
    ensures Trim(EncodeBlob(b)) == EncodeBlob(b) && Trim(ToHex(b)) == ToHex(b)
  {
    EncodedBlobText(b);
    HexTextOf(b);
    TrimOfTrimmed(EncodeBlob(b));
    TrimOfTrimmed(ToHex(b));
    Base64RoundTrip(AsciiBytes(ToHex(b)));
    AsciiIsUtf8(ToHex(b));
    FromHexOfToHex(b);
  }

  /** The `signature:message:pcrs` text of a quote. */
  function JoinQuote(signature: string, message: string, pcrs: string): string {
    signature + ":" + message + ":" + pcrs
  }

  /** A client that splits the joined quote at its colons finds the three blobs again. */
  lemma QuoteSplits(signature: Bytes, message: Bytes, pcrs: Bytes)
    ensures
      var (s, m, p) := (EncodeBlob(signature), EncodeBlob(message), EncodeBlob(pcrs));
      && SplitOnce(JoinQuote(s, m, p), ':') == Some((s, m + ":" + p))
      && SplitOnce(m + ":" + p, ':') == Some((m, p))
      && ':' !in p
  {
    var (s, m, p) := (EncodeBlob(signature), EncodeBlob(message), EncodeBlob(pcrs));
    EncodedBlobText(signature);
    EncodedBlobText(message);
    EncodedBlobText(pcrs);
    assert JoinQuote(s, m, p) == s + [':'] + (m + ":" + p);
    SplitOnceAt(s, ':', m + ":" + p);
    SplitOnceAt(m, ':', p);
  }
}
