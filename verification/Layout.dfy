/** What the encodings look like, character by character and against literals. */
module Layout {
  import opened Wrappers
  import opened Text
  import opened Codec
  import opened Nonce
  import Tdx

  // ----- hexadecimal -----

  const HEX := "0123456789abcdef"

  lemma HexDigitIs(n: nat)
    requires n < 16
    ensures HexDigit(n) == HEX[n]
  {
  }

  /** Byte `i` is shown as its high and then its low half, in lower case. */
  lemma {:induction false} HexLayout(b: Bytes, i: nat)
    requires i < |b|
    ensures ToHex(b)[2 * i] == HEX[b[i] / 16] && ToHex(b)[2 * i + 1] == HEX[b[i] % 16]
  {
    hide HexDigit, HEX;
    HexDigitIs(b[i] / 16);
    HexDigitIs(b[i] % 16);
    if i > 0 {
      HexLayout(b[1..], i - 1);
    }
  }

  // ----- Base64 -----

  const UPPER := "ABCDEFGHIJKLMNOPQRSTUVWXYZ"
  const LOWER := "abcdefghijklmnopqrstuvwxyz"
  const DIGITS := "0123456789"

  /** Table 1 of RFC 4648. */
  const ALPHABET := UPPER + LOWER + DIGITS + "+/"

  lemma UpperIs(n: nat)
    requires n < 26
    ensures |UPPER| == 26 && UPPER[n] == ('A' as int + n) as char
  {
  }

  lemma LowerIs(n: nat)
    requires n < 26
    ensures |LOWER| == 26 && LOWER[n] == ('a' as int + n) as char
  {
  }

  lemma DigitIs(n: nat)
    requires n < 10
    ensures |DIGITS| == 10 && DIGITS[n] == ('0' as int + n) as char
  {
  }

  lemma SymbolIs(n: nat)
    requires n < 64
    ensures |ALPHABET| == 64 && Symbol(n) == ALPHABET[n]
  {
    hide UPPER, LOWER, DIGITS;
    UpperIs(if n < 26 then n else 0);
    LowerIs(if 26 <= n < 52 then n - 26 else 0);
    DigitIs(if 52 <= n < 62 then n - 52 else 0);
  }

  /** Byte `k`, and zeros behind the end. */
  function ByteAt(b: Bytes, k: nat): nat {
    if k < |b| then b[k] else 0
  }

  /** The 24 bits of group `g`, the first byte in front. */
  function Bits(b: Bytes, g: nat): nat {
    0x1_0000 * ByteAt(b, 3 * g) + 0x100 * ByteAt(b, 3 * g + 1) + ByteAt(b, 3 * g + 2)
  }

  /** The `j`-th of the four six-bit numbers. */
  function Sextet(bits: nat, j: nat): nat
    requires j < 4
  {
    if j == 0 then bits / 0x4_0000 % 64
    else if j == 1 then bits / 0x1000 % 64
    else if j == 2 then bits / 64 % 64
    else bits % 64
  }

  lemma SextetsOfNumber(v0: nat, v1: nat, v2: nat, v3: nat)
    requires v0 < 64 && v1 < 64 && v2 < 64 && v3 < 64
    ensures
      var bits := 0x4_0000 * v0 + 0x1000 * v1 + 64 * v2 + v3;
      Sextet(bits, 0) == v0 && Sextet(bits, 1) == v1 && Sextet(bits, 2) == v2 && Sextet(bits, 3) == v3
  {
    var bits := 0x4_0000 * v0 + 0x1000 * v1 + 64 * v2 + v3;
    assert bits / 64 == 0x1000 * v0 + 64 * v1 + v2;
    assert bits / 0x1000 == 64 * v0 + v1;
    assert bits / 0x4_0000 == v0;
  }

  lemma SextetsOf(b0: byte, b1: byte, b2: byte)
    ensures
      var bits := 0x1_0000 * b0 as int + 0x100 * b1 as int + b2 as int;
      && Sextet(bits, 0) == b0 / 4 && Sextet(bits, 1) == b0 % 4 * 16 + b1 / 16
      && Sextet(bits, 2) == b1 % 16 * 4 + b2 / 64 && Sextet(bits, 3) == b2 % 64
  {
    hide Sextet;
    assert 0x1_0000 * b0 as int == 0x4_0000 * (b0 / 4) + 0x1_0000 * (b0 % 4);
    assert 0x100 * b1 as int == 0x1000 * (b1 / 16) + 0x100 * (b1 % 16);
    assert b2 as int == 64 * (b2 / 64) + b2 % 64;
    SextetsOfNumber(b0 / 4, b0 % 4 * 16 + b1 / 16, b1 % 16 * 4 + b2 / 64, b2 % 64);
  }

  lemma FirstBits(b: Bytes, b1: byte, b2: byte)
    requires b != [] && b1 == (if |b| > 1 then b[1] else 0) && b2 == if |b| > 2 then b[2] else 0
    ensures
      var bits := Bits(b, 0);
      && Sextet(bits, 0) == b[0] / 4 && Sextet(bits, 1) == b[0] % 4 * 16 + b1 / 16
      && Sextet(bits, 2) == b1 % 16 * 4 + b2 / 64 && Sextet(bits, 3) == b2 % 64
  {
    SextetsOf(b[0], b1, b2);
    hide Sextet;
    assert Bits(b, 0) == 0x1_0000 * b[0] as int + 0x100 * b1 as int + b2 as int;
  }

  lemma FullGroup(b: Bytes, j: nat)
    requires |b| >= 3 && j < 4
    ensures |Base64Encode(b)| >= 4 && Base64Encode(b)[j] == Symbol(Sextet(Bits(b, 0), j))
  {
    FirstBits(b, b[1], b[2]);
    BytesOfSextets(b[0], b[1], b[2]);
    FullSymbols(b);
    hide Symbol, Sextet, Bits, Base64Encode;
  }

  lemma ShortGroup(b: Bytes, j: nat)
    requires 1 <= |b| <= 2 && j < 4
    ensures |Base64Encode(b)| >= 4
    ensures Base64Encode(b)[j] == if j <= |b| then Symbol(Sextet(Bits(b, 0), j)) else '='
  {
    var b1 := if |b| == 2 then b[1] else 0;
    FirstBits(b, b1, 0);
    BytesOfSextets(b[0], b1, 0);
    ShortSymbols(b);
    hide Symbol, Sextet, Bits, Base64Encode;
  }

  lemma FirstGroup(b: Bytes, j: nat)
    requires b != [] && j < 4
    ensures |Base64Encode(b)| >= 4
    ensures Base64Encode(b)[j] == if j <= |b| then ALPHABET[Sextet(Bits(b, 0), j)] else '='
  {
    SymbolIs(Sextet(Bits(b, 0), j));
    hide ALPHABET, Symbol, Sextet, Bits, Base64Encode;
    if |b| >= 3 {
      FullGroup(b, j);
    } else {
      ShortGroup(b, j);
    }
  }

  lemma FullSymbols(b: Bytes)
    requires |b| >= 3
    ensures
      var s := Base64Encode(b);
      && |s| >= 4 && s[0] == Symbol(b[0] / 4) && s[1] == Symbol(b[0] % 4 * 16 + b[1] / 16)
      && s[2] == Symbol(b[1] % 16 * 4 + b[2] / 64) && s[3] == Symbol(b[2] % 64)
  {
    hide Symbol;
  }

  lemma ShortSymbols(b: Bytes)
    requires 1 <= |b| <= 2
    ensures
      var s, b1 := Base64Encode(b), if |b| == 2 then b[1] else 0;
      && |s| == 4 && s[0] == Symbol(b[0] / 4) && s[1] == Symbol(b[0] % 4 * 16 + b1 / 16)
      && s[2] == (if |b| == 2 then Symbol(b1 % 16 * 4) else '=') && s[3] == '='
  {
    hide Symbol;
  }

  /**
   * Section 4 of RFC 4648: character `j` of group `g` is the alphabet's entry at the `j`-th six bits of the
   * three bytes of the group, padded with zero bits; behind a short group come padding characters.
   */
  lemma {:induction false} Base64Layout(b: Bytes, g: nat, j: nat)
    requires 3 * g < |b| && j < 4
    ensures |Base64Encode(b)| == (|b| + 2) / 3 * 4
    ensures Base64Encode(b)[4 * g + j] == if j <= |b| - 3 * g then ALPHABET[Sextet(Bits(b, g), j)] else '='
  {
    hide ALPHABET, Symbol, Sextet, Base64Encode;
    Base64Length(b);
    if g == 0 {
      FirstGroup(b, j);
    } else {
      assert b == b[..3] + b[3..];
      EncodeAppend(b[..3], b[3..]);
      Base64Length(b[..3]);
      Base64Length(b[3..]);
      Base64Layout(b[3..], g - 1, j);
      assert Bits(b[3..], g - 1) == Bits(b, g);
      hide Bits;
    }
  }

  lemma {:induction false} Base64Length(b: Bytes)
    ensures |Base64Encode(b)| == (|b| + 2) / 3 * 4
  {
    hide Base64Encode, DecodeGroup;
    if b == [] {
      NothingEncodes();
    } else if |b| <= 3 {
      GroupRoundTrip(b, true);
    } else {
      GroupRoundTrip(b[..3], false);
      Base64Length(b[3..]);
      assert b == b[..3] + b[3..];
      EncodeAppend(b[..3], b[3..]);
    }
  }

  // ----- which texts are hexadecimal -----

  const HEX_TEXT := HEX + "ABCDEF"

  lemma HexValueIs(c: char)
    ensures HexValue(c).Some? <==> c in HEX_TEXT
    ensures HexValue(c).Some? ==> HEX[HexValue(c).value] == LowerChar(c)
  {
    if HexValue(c).Some? {
      var v := HexValue(c).value;
      HexDigitIs(v);
      DigitLowers(c);
      assert HEX_TEXT[v] == HEX[v];
      if v >= 10 {
        CapitalIs(v - 10);
      }
    }
  }

  lemma CapitalIs(n: nat)
    requires n < 6
    ensures HEX_TEXT[16 + n] == ('A' as int + n) as char
  {
    assert HEX_TEXT[16 + n] == "ABCDEF"[n];
  }

  lemma HexTextIs(s: string)
    ensures AllHex(s) <==> forall i | 0 <= i < |s| :: s[i] in HEX_TEXT
  {
    hide HexValue, HEX_TEXT;
    forall i | 0 <= i < |s| ensures HexValue(s[i]).Some? <==> s[i] in HEX_TEXT {
      HexValueIs(s[i]);
    }
  }

  // ----- UTF-8 -----

  /** Section 3 of RFC 3629. */
  function Utf8Of(c: char): Bytes {
    var n := c as int;
    if n < 0x80 then [n]
    else if n < 0x800 then [0xC0 + n / 0x40, 0x80 + n % 0x40]
    else if n < 0x1_0000 then [0xE0 + n / 0x1000, 0x80 + n / 0x40 % 0x40, 0x80 + n % 0x40]
    else [0xF0 + n / 0x4_0000, 0x80 + n / 0x1000 % 0x40, 0x80 + n / 0x40 % 0x40, 0x80 + n % 0x40]
  }

  function Utf8Text(s: string): Bytes {
    if s == [] then [] else Utf8Of(s[0]) + Utf8Text(s[1..])
  }

  lemma ScalarParts(n: nat)
    ensures n == 0x40 * (n / 0x40) + n % 0x40
    ensures n / 0x40 == 0x40 * (n / 0x1000) + n / 0x40 % 0x40
    ensures n / 0x1000 == 0x40 * (n / 0x4_0000) + n / 0x1000 % 0x40
  {
  }

  lemma PartsOfScalar(v0: nat, v1: nat, v2: nat, v3: nat)
    requires v1 < 0x40 && v2 < 0x40 && v3 < 0x40
    ensures
      var n := 0x4_0000 * v0 + 0x1000 * v1 + 0x40 * v2 + v3;
      && n % 0x40 == v3 && n / 0x40 % 0x40 == v2 && n / 0x1000 % 0x40 == v1 && n / 0x4_0000 == v0
      && n / 0x40 == 0x1000 * v0 + 0x40 * v1 + v2 && n / 0x1000 == 0x40 * v0 + v1
  {
    var n := 0x4_0000 * v0 + 0x1000 * v1 + 0x40 * v2 + v3;
    assert n / 0x40 == 0x1000 * v0 + 0x40 * v1 + v2;
    assert n / 0x1000 == 0x40 * v0 + v1;
    assert n / 0x4_0000 == v0;
  }

  lemma ReadsShort(c: char, rest: Bytes)
    requires (c as int) < 0x800
    ensures
      var b := Utf8Of(c) + rest;
      SequenceLength(b) == |Utf8Of(c)| && ScalarAt(b) == c
  {
    ScalarParts(c as int);
    var n, b := c as int, Utf8Of(c) + rest;
    if n < 0x80 {
      assert b[0] == n;
    } else {
      assert b[0] == 0xC0 + n / 0x40 && b[1] == 0x80 + n % 0x40;
    }
  }

  lemma ReadsThree(c: char, rest: Bytes)
    requires 0x800 <= (c as int) < 0x1_0000
    ensures
      var b := Utf8Of(c) + rest;
      SequenceLength(b) == |Utf8Of(c)| && ScalarAt(b) == c
  {
    var n, b := c as int, Utf8Of(c) + rest;
    ScalarParts(n);
    var (x, y, z) := (n / 0x1000, n / 0x40 % 0x40, n % 0x40);
    assert n == 0x1000 * x + 0x40 * y + z && (n < 0xD800 || n >= 0xE000);
    assert |b| >= 3 && b[0] == 0xE0 + x && b[1] == 0x80 + y && b[2] == 0x80 + z;
    hide Utf8Of;
  }

  lemma ReadsFour(c: char, rest: Bytes)
    requires (c as int) >= 0x1_0000
    ensures
      var b := Utf8Of(c) + rest;
      SequenceLength(b) == |Utf8Of(c)| && ScalarAt(b) == c
  {
    var n, b := c as int, Utf8Of(c) + rest;
    ScalarParts(n);
    var (w, x, y, z) := (n / 0x4_0000, n / 0x1000 % 0x40, n / 0x40 % 0x40, n % 0x40);
    assert n == 0x4_0000 * w + 0x1000 * x + 0x40 * y + z && n < 0x11_0000;
    assert |b| >= 4 && b[0] == 0xF0 + w && b[1] == 0x80 + x && b[2] == 0x80 + y && b[3] == 0x80 + z;
    assert |Utf8Of(c)| == 4;
    hide Utf8Of;
  }

  lemma ReadsScalar(c: char, rest: Bytes)
    ensures
      var b := Utf8Of(c) + rest;
      SequenceLength(b) == |Utf8Of(c)| && ScalarAt(b) == c
  {
    hide Utf8Of, SequenceLength, ScalarAt;
    if (c as int) < 0x800 {
      ReadsShort(c, rest);
    } else if (c as int) < 0x1_0000 {
      ReadsThree(c, rest);
    } else {
      ReadsFour(c, rest);
    }
  }

  lemma WritesShort(b: Bytes)
    requires b != [] && 1 <= SequenceLength(b) <= 2
    ensures b[..SequenceLength(b)] == Utf8Of(ScalarAt(b))
  {
    if SequenceLength(b) == 2 {
      var (y, z) := (b[0] as int - 0xC0, b[1] as int - 0x80);
      PartsOfScalar(0, 0, y, z);
      assert ScalarAt(b) as int == 0x40 * y + z;
      assert b[..2] == [0xC0 + y, 0x80 + z];
    }
  }

  lemma WritesThree(b: Bytes)
    requires b != [] && SequenceLength(b) == 3
    ensures b[..3] == Utf8Of(ScalarAt(b))
  {
    var (x, y, z) := (b[0] as int - 0xE0, b[1] as int - 0x80, b[2] as int - 0x80);
    PartsOfScalar(0, x, y, z);
    var n := 0x1000 * x + 0x40 * y + z;
    assert ScalarAt(b) as int == n && 0x800 <= n < 0x1_0000;
    assert b[..3] == [0xE0 + x, 0x80 + y, 0x80 + z];
    hide ScalarAt, SequenceLength;
  }

  lemma WritesFour(b: Bytes)
    requires b != [] && SequenceLength(b) == 4
    ensures b[..4] == Utf8Of(ScalarAt(b))
  {
    var (w, x, y, z) := (b[0] as int - 0xF0, b[1] as int - 0x80, b[2] as int - 0x80, b[3] as int - 0x80);
    PartsOfScalar(w, x, y, z);
    var n := 0x4_0000 * w + 0x1000 * x + 0x40 * y + z;
    assert ScalarAt(b) as int == n && 0x1_0000 <= n;
    assert b[..4] == [0xF0 + w, 0x80 + x, 0x80 + y, 0x80 + z];
    hide ScalarAt, SequenceLength;
  }

  lemma WritesScalar(b: Bytes)
    requires b != [] && SequenceLength(b) > 0
    ensures b[..SequenceLength(b)] == Utf8Of(ScalarAt(b))
  {
    hide Utf8Of, SequenceLength, ScalarAt;
    if SequenceLength(b) <= 2 {
      WritesShort(b);
    } else if SequenceLength(b) == 3 {
      WritesThree(b);
    } else {
      WritesFour(b);
    }
  }

  lemma {:induction false} Utf8Reads(s: string)
    ensures FromUtf8(Utf8Text(s)) == Some(s)
  {
    if s != [] {
      hide Utf8Of, SequenceLength, ScalarAt;
      var rest := Utf8Text(s[1..]);
      ReadsScalar(s[0], rest);
      Utf8Reads(s[1..]);
      assert (Utf8Of(s[0]) + rest)[|Utf8Of(s[0])|..] == rest;
      assert [s[0]] + s[1..] == s;
    }
  }

  lemma {:induction false} Utf8Writes(b: Bytes)
    requires FromUtf8(b).Some?
    ensures Utf8Text(FromUtf8(b).value) == b
  {
    hide Utf8Of, SequenceLength, ScalarAt, Utf8Text;
    if b == [] {
      NothingToWrite();
    } else {
      var n := SequenceLength(b);
      var c, rest := ScalarAt(b), FromUtf8(b[n..]).value;
      WritesScalar(b);
      Utf8Writes(b[n..]);
      assert FromUtf8(b).value == [c] + rest && b == b[..n] + b[n..];
      WritesMore(c, rest);
    }
  }

  lemma NothingToWrite()
    ensures Utf8Text("") == []
  {
  }

  lemma WritesMore(c: char, rest: string)
    ensures Utf8Text([c] + rest) == Utf8Of(c) + Utf8Text(rest)
  {
    hide Utf8Of;
    assert ([c] + rest)[1..] == rest;
  }

  /** Exactly the encodings of RFC 3629 are read, each as the text it encodes. */
  lemma Utf8Exactly(b: Bytes, s: string)
    ensures FromUtf8(b) == Some(s) <==> b == Utf8Text(s)
  {
    Utf8Reads(s);
    if FromUtf8(b).Some? {
      Utf8Writes(b);
    }
  }

  // ----- blobs -----

  lemma HexReads(h: string, b: Bytes)
    ensures FromHex(h) == Some(b) <==> Lower(h) == ToHex(b)
  {
    FromHexOfToHex(b);
    HexTextOf(b);
    if FromHex(h).Some? {
      ToHexOfFromHex(h);
      FromHexOfToHex(FromHex(h).value);
    }
    if Lower(h) == ToHex(b) {
      HexIgnoresCase(ToHex(b), h);
    }
  }

  /**
   * `decode_blob` takes exactly the texts that are, apart from white space around them, the Base64 of the
   * UTF-8 of a text that is, apart from white space around it, the hexadecimal of the bytes in any case.
   */
  lemma BlobsExactly(text: string, b: Bytes)
    ensures DecodeBlob(text) == Ok(b) <==>
            exists hex: string :: Trim(text) == Base64Encode(Utf8Text(hex)) && Lower(Trim(hex)) == ToHex(b)
    ensures DecodeBlob(text).Err? ==> DecodeBlob(text).error == InvalidInput
  {
    hide Trim, Lower, FromHex, ToHex, Base64Encode, Base64Decode, FromUtf8, Utf8Text;
    var t := Trim(text);
    if DecodeBlob(text) == Ok(b) {
      var inner := Base64Decode(t).value;
      var hex := FromUtf8(inner).value;
      Base64Canonical(t);
      Utf8Exactly(inner, hex);
      HexReads(Trim(hex), b);
    }
    forall hex: string | t == Base64Encode(Utf8Text(hex)) && Lower(Trim(hex)) == ToHex(b)
      ensures DecodeBlob(text) == Ok(b)
    {
      Base64RoundTrip(Utf8Text(hex));
      Utf8Exactly(Utf8Text(hex), hex);
      HexReads(Trim(hex), b);
    }
  }

  // ----- challenges and reports -----

  /** A challenge is usable exactly if, unframed, it is 2 to 128 hexadecimal digits, an even number of them. */
  lemma UsableExactly(nonce: string)
    ensures Usable(nonce) <==>
            var t := Trim(nonce);
            |t| % 2 == 0 && 2 <= |t| <= 128 && forall i | 0 <= i < |t| :: t[i] in HEX_TEXT
  {
    HexTextIs(Trim(nonce));
    hide Trim, AllHex, HEX_TEXT;
  }

  /** Byte `k` of REPORTDATA is that of the challenge, or zero behind its end. */
  lemma ReportDataLayout(nonce: Bytes, k: nat)
    requires k < 64
    ensures Tdx.ReportData(nonce).Ok? <==> |nonce| <= 64
    ensures Tdx.ReportData(nonce).Ok? ==>
              |Tdx.ReportData(nonce).value| == 64
              && Tdx.ReportData(nonce).value[k] == if k < |nonce| then nonce[k] else 0
  {
  }

  /** A report is 1024 bytes, and REPORTDATA the 64 from the 128th on. */
  lemma ReportLayout(report: Bytes, k: nat)
    requires k < 64
    ensures Tdx.ReportDataOf(report).Ok? <==> |report| == 1024
    ensures Tdx.ReportDataOf(report).Ok? ==>
              |Tdx.ReportDataOf(report).value| == 64 && Tdx.ReportDataOf(report).value[k] == report[128 + k]
  {
  }

  // ----- words about characters -----

  /** The characters with the property White_Space: four ranges of blanks and the single ones. */
  lemma SpaceExactly(c: char)
    ensures IsSpace(c) <==>
            || c in [' ', '\t', '\n', '\U{B}', '\U{C}', '\r', '\U{85}', '\U{A0}', '\U{1680}']
            || c in ['\U{2000}', '\U{2001}', '\U{2002}', '\U{2003}', '\U{2004}', '\U{2005}', '\U{2006}', '\U{2007}']
            || c in ['\U{2008}', '\U{2009}', '\U{200A}', '\U{2028}', '\U{2029}', '\U{202F}', '\U{205F}', '\U{3000}']
  {
  }

  /** Lower case: each capital of the alphabet becomes its letter, and nothing else changes. */
  lemma LowerExactly(c: char)
    ensures (exists k :: 0 <= k < 26 && UPPER[k] == c && LOWER[k] == LowerChar(c)) || (c !in UPPER && LowerChar(c) == c)
  {
    if 'A' <= c <= 'Z' {
      var k := c as int - 'A' as int;
      UpperIs(k);
      LowerIs(k);
    } else {
      assert |UPPER| == 26;
      forall k | 0 <= k < |UPPER| ensures UPPER[k] != c {
        UpperIs(k);
      }
    }
  }

  lemma EndsExactly(s: string, tail: string)
    ensures EndsWith(s, tail) <==> exists head: string :: s == head + tail
  {
    if EndsWith(s, tail) {
      assert s == s[..|s| - |tail|] + tail;
    }
  }
}
