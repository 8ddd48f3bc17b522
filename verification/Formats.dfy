/** What numbers, timestamps, log values and the hashed stream look like, against literals. */
module Formats {
  import opened Wrappers
  import opened Text
  import opened Codec
  import opened Decimal
  import opened Calendar
  import opened Timestamp
  import opened Measurement
  import AuditLog
  import Folder

  // ----- decimal numbers -----

  const DIGITS := "0123456789"

  /** The digit of `n` with `k` digits behind it. */
  function DigitAt(n: nat, k: nat): nat {
    if k == 0 then n % 10 else DigitAt(n / 10, k - 1)
  }

  lemma DigitCharIs(d: nat)
    requires d < 10
    ensures DigitChar(d) == DIGITS[d] && DigitOf(DIGITS[d]) == d
  {
  }

  lemma {:induction false} DigitIsSmall(n: nat, k: nat)
    ensures DigitAt(n, k) < 10
  {
    if k > 0 {
      DigitIsSmall(n / 10, k - 1);
    }
  }

  /** Printed from the left, without leading zeros. */
  lemma {:induction false} DecimalLayout(n: nat, k: nat)
    requires k < |ToDecimal(n)|
    ensures DigitAt(n, k) < 10 && ToDecimal(n)[|ToDecimal(n)| - 1 - k] == DIGITS[DigitAt(n, k)]
  {
    DigitIsSmall(n, k);
    hide DigitChar, DIGITS;
    DigitCharIs(n % 10);
    if k > 0 {
      DecimalLayout(n / 10, k - 1);
    }
  }

  /** Exactly `w` of them. */
  lemma {:induction false} DigitsLayout(n: nat, w: nat, k: nat)
    requires k < w
    ensures DigitAt(n, k) < 10 && Digits(n, w)[w - 1 - k] == DIGITS[DigitAt(n, k)]
  {
    DigitIsSmall(n, k);
    hide DigitChar, DIGITS;
    DigitCharIs(n % 10);
    if k > 0 {
      DigitsLayout(n / 10, w - 1, k - 1);
    }
  }

  // ----- timestamps -----

  /** The second of a date and a time of day. */
  function SecondAt(d: Date, h: nat, m: nat, s: nat): int
    requires ValidDate(d)
  {
    DaysFromCivil(d) * 86_400 + h * 3_600 + m * 60 + s
  }

  lemma FieldsAt(d: Date, h: nat, m: nat, s: nat)
    requires ValidDate(d) && DaysFromCivil(d) >= 0 && h < 24 && m < 60 && s < 60
    ensures SecondAt(d, h, m, s) >= 0
    ensures FieldsOf(SecondAt(d, h, m, s)) == [d.year, d.month, d.day, h, m, s]
  {
    var days, sod := DaysFromCivil(d), 3600 * h + 60 * m + s;
    assert sod < 86_400;
    CivilOfCount(d);
    SplitOfDay(sod, h, m, s);
    hide DaysFromCivil, CivilFromDays, ValidDate;
    DayAndRest(days, sod);
  }

  lemma DayAndRest(days: nat, sod: nat)
    requires sod < 86_400
    ensures (days * 86_400 + sod) / 86_400 == days && (days * 86_400 + sod) % 86_400 == sod
  {
  }

  /** Six numbers with literal texts behind them. */
  function Sixfold(f: seq<int>, a: string, b: string, c: string, d: string, e: string, z: string): string
    requires |f| == 6 && forall k | 0 <= k < 6 :: f[k] >= 0
  {
    Digits(f[0], 4) + (a + (Digits(f[1], 2) + (b + (Digits(f[2], 2) + (c + (Digits(f[3], 2)
    + (d + (Digits(f[4], 2) + (e + (Digits(f[5], 2) + (z + "")))))))))))
  }

  lemma FixedIsSixfold(f: seq<int>, sep: Separators)
    requires Fit(f)
    ensures Fixed(f, sep, 0) == Sixfold(f, sep[0], sep[1], sep[2], sep[3], sep[4], sep[5])
  {
    hide Digits;
    assert Fixed(f, sep, 6) == "";
    assert Fixed(f, sep, 4) == Digits(f[4], 2) + (sep[4] + (Digits(f[5], 2) + (sep[5] + "")));
    assert Fixed(f, sep, 2) == Digits(f[2], 2) + (sep[2] + (Digits(f[3], 2) + (sep[3] + Fixed(f, sep, 4))));
  }

  /**
   * The three timestamps of every second of a valid date from 1970 to 9999, number by number:
   * `2024-05-01T12:30:00Z`, `20240501T123000Z` and `2024.05.01 12:30:00`.
   */
  lemma StampLayout(d: Date, h: nat, m: nat, s: nat)
    requires ValidDate(d) && DaysFromCivil(d) >= 0 && h < 24 && m < 60 && s < 60
    requires SecondAt(d, h, m, s) < END_OF_9999
    ensures
      var (seconds, f) := (SecondAt(d, h, m, s), [d.year, d.month, d.day, h, m, s]);
      && seconds >= 0 && (forall k | 0 <= k < 6 :: f[k] >= 0)
      && Stamp(LOG_FORMAT, seconds) == Sixfold(f, "-", "-", "T", ":", ":", "Z")
      && Stamp(FILE_NAME_FORMAT, seconds) == Sixfold(f, "", "", "T", "", "", "Z")
      && Stamp(MEASUREMENT_FORMAT, seconds) == Sixfold(f, ".", ".", " ", ":", ":", "")
  {
    FieldsAt(d, h, m, s);
    var seconds: nat, f := SecondAt(d, h, m, s), [d.year, d.month, d.day, h, m, s];
    StampIsFixed(LOG_FORMAT, seconds);
    StampIsFixed(FILE_NAME_FORMAT, seconds);
    StampIsFixed(MEASUREMENT_FORMAT, seconds);
    hide Stamp, Fixed, FieldsOf, DaysFromCivil, ValidDate, Sixfold, SecondAt;
    FixedIsSixfold(f, LOG_FORMAT);
    FixedIsSixfold(f, FILE_NAME_FORMAT);
    FixedIsSixfold(f, MEASUREMENT_FORMAT);
  }

  // ----- values in the log -----

  /** One character inside quotation marks. */
  function QuotedChar(c: char): string {
    if c == '\"' then "\\\"" else if c == '\\' then "\\\\" else [c]
  }

  function QuotedChars(s: string): string {
    if s == "" then "" else QuotedChar(s[0]) + QuotedChars(s[1..])
  }

  lemma {:induction false} EscapedIs(s: string)
    ensures AuditLog.Escaped(s) == QuotedChars(s)
  {
    if s != [] {
      EscapedIs(s[1..]);
    }
  }

  /**
   * A value stays as it is exactly if it is not empty and has no white space, quotation mark or equals sign;
   * otherwise it stands in quotation marks, with a backslash before each backslash and quotation mark.
   */
  lemma QuotedExactly(value: string)
    ensures
      var plain := value != "" && forall i | 0 <= i < |value| :: !IsSpace(value[i]) && value[i] !in "\"=";
      AuditLog.QuoteIfNeeded(value) == if plain then value else "\"" + QuotedChars(value) + "\""
  {
    AuditLog.TwoReplacesAreOneEscape(value);
    EscapedIs(value);
    hide IsSpace, AuditLog.Replace, AuditLog.Escaped;
    assert forall c: char :: c in "\"=" <==> c == '\"' || c == '=';
    if value == "" {
      assert QuotedChars("") == "" && "\"" + "" + "\"" == "\"\"";
    }
  }

  // ----- the hashed stream -----

  /** The digit of `n` to the base 256 with `k` digits behind it. */
  function ByteDigit(n: nat, k: nat): byte {
    if k == 0 then n % 256 else ByteDigit(n / 256, k - 1)
  }

  lemma {:induction false} LittleEndianLayout(n: nat, width: nat, k: nat)
    requires k < width
    ensures LittleEndian(n, width)[k] == ByteDigit(n, k)
  {
    if k > 0 {
      LittleEndianLayout(n / 256, width - 1, k - 1);
    }
  }

  /** Where the part of file `i` begins: length, name and digest of each file before it. */
  function Offset(files: seq<FileData>, i: nat): nat
    requires i <= |files|
  {
    if i == 0 then 0 else Offset(files, i - 1) + 8 + |files[i - 1].name| + 32
  }

  lemma {:induction false} OffsetShifts(files: seq<FileData>, i: nat)
    requires 1 <= i <= |files|
    ensures Offset(files, i) == 40 + |files[0].name| + Offset(files[1..], i - 1)
  {
    if i > 1 {
      OffsetShifts(files, i - 1);
    }
  }

  lemma PartsOf(prefix: Bytes, name: Bytes, digest: Bytes, rest: Bytes)
    requires |prefix| == 8 && |digest| == 32
    ensures
      var s := prefix + name + digest + rest;
      && s[..8] == prefix && s[8..8 + |name|] == name && s[8 + |name|..40 + |name|] == digest
      && s[40 + |name|..] == rest && |s| == 40 + |name| + |rest|
  {
  }

  /** What stands at `o` for a file: eight bytes of length, name, digest. */
  predicate PartAt(sha: Hash, s: Bytes, o: nat, f: FileData) {
    var n := |f.name|;
    && o + 40 + n <= |s|
    && (forall k | 0 <= k < 8 :: s[o..o + 8][k] == ByteDigit(n % 0x1_0000_0000_0000_0000, k))
    && s[o + 8..o + 8 + n] == f.name && s[o + 8 + n..o + 40 + n] == sha(f.contents)
  }

  lemma FirstPart(sha: Hash, files: seq<FileData>)
    requires files != [] && forall x: Bytes :: |sha(x)| == 32
    ensures PartAt(sha, Stream(sha, files), 0, files[0])
    ensures Stream(sha, files)[40 + |files[0].name|..] == Stream(sha, files[1..])
    ensures |Stream(sha, files)| == 40 + |files[0].name| + |Stream(sha, files[1..])|
  {
    var head, rest := files[0], Stream(sha, files[1..]);
    PartsOf(LengthPrefix(head.name), head.name, sha(head.contents), rest);
    assert Stream(sha, files) == LengthPrefix(head.name) + head.name + sha(head.contents) + rest;
    hide Stream, ByteDigit;
    forall k | 0 <= k < 8 ensures LengthPrefix(head.name)[k] == ByteDigit(|head.name| % 0x1_0000_0000_0000_0000, k) {
      LittleEndianLayout(|head.name| % U64_SIZE, 8, k);
    }
    hide LengthPrefix;
  }

  /**
   * What the total digest hashes, file by file: the length of the displayed name as eight bytes, the least
   * significant first, the name, and the 32 bytes of the digest of the contents.
   */
  lemma {:induction false} StreamLayout(sha: Hash, files: seq<FileData>, i: nat)
    requires i < |files| && forall x: Bytes :: |sha(x)| == 32
    ensures |Stream(sha, files)| == Offset(files, |files|)
    ensures PartAt(sha, Stream(sha, files), Offset(files, i), files[i])
    decreases |files|
  {
    hide Stream, PartAt;
    FirstPart(sha, files);
    StreamLength(sha, files);
    if i == 0 {
      assert Offset(files, 0) == 0;
    } else {
      OffsetShifts(files, i);
      StreamLayout(sha, files[1..], i - 1);
      assert files[1..][i - 1] == files[i];
      hide Offset;
      PartShifts(sha, Stream(sha, files), 40 + |files[0].name|, Offset(files[1..], i - 1), files[i]);
    }
  }

  lemma {:induction false} StreamLength(sha: Hash, files: seq<FileData>)
    requires forall x: Bytes :: |sha(x)| == 32
    ensures |Stream(sha, files)| == Offset(files, |files|)
  {
    if files != [] {
      StreamLength(sha, files[1..]);
      OffsetShifts(files, |files|);
    }
  }

  /** A part of the rest is a part of the whole. */
  lemma PartShifts(sha: Hash, s: Bytes, d: nat, o: nat, f: FileData)
    requires d <= |s| && PartAt(sha, s[d..], o, f)
    ensures PartAt(sha, s, d + o, f)
  {
    hide ByteDigit;
    var rest, n := s[d..], |f.name|;
    assert s[d + o..d + o + 8] == rest[o..o + 8];
    assert s[d + o + 8..d + o + 8 + n] == rest[o + 8..o + 8 + n];
    assert s[d + o + 8 + n..d + o + 40 + n] == rest[o + 8 + n..o + 40 + n];
  }

  // ----- displayed names -----

  /** One more component: a slash (byte 47) and its name. */
  lemma {:induction false} JoinMore(p: Folder.Path, n: Folder.Name)
    ensures JoinNames(p + [n]) == if p == [] then n else JoinNames(p) + [47] + n
  {
    if p == [] {
      assert p + [n] == [n];
    } else {
      JoinMore(p[1..], n);
      assert (p + [n])[1..] == p[1..] + [n];
      if |p| == 1 {
        assert p[1..] == [];
      } else {
        assert p[0] + [47] + (JoinNames(p[1..]) + [47] + n) == p[0] + [47] + JoinNames(p[1..]) + [47] + n;
      }
    }
  }

  /** The displayed name is the joined relative path as text, with slashes for backslashes (byte 92). */
  lemma DisplayLayout(w: Folder.World, root: Folder.Path, rel: Folder.Path)
    ensures
      var (text, name) := (w.lossy(JoinNames(rel)), DisplayName(w, root, root + rel));
      |name| == |text| && forall i | 0 <= i < |text| :: name[i] == if text[i] == 92 then 47 else text[i]
  {
    assert (root + rel)[|root|..] == rel;
    hide JoinNames;
  }

  /** A file is read where it is, a symlink where it leads: to a file below the root. */
  lemma ContentsExactly(w: Folder.World, root: Folder.Path, p: Folder.Path, c: Bytes)
    ensures ReadContents(w, root, p) == Some(c) <==>
            && p in w.nodes
            && (w.nodes[p] == Folder.File(Some(c))
                || (!w.nodes[p].File?
                    && exists t | t in w.nodes ::
                         Folder.Canonicalize(w, p) == Some(t) && root <= t && w.nodes[t] == Folder.File(Some(c))))
  {
    hide Folder.Canonicalize;
  }
}
