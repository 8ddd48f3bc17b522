/** The three timestamp formats: fixed length, readable, and in the order of time. */
module Timestamp {
  import opened Wrappers
  import opened Text
  import opened Order
  import opened Decimal
  import opened Calendar

  const SECONDS_PER_DAY := 86_400

  /** The text behind each of the six numbers. */
  type Separators = s: seq<string> | |s| == 6 witness ["", "", "", "", "", ""]

  const LOG_FORMAT: Separators := ["-", "-", "T", ":", ":", "Z"]
  const FILE_NAME_FORMAT: Separators := ["", "", "T", "", "", "Z"]
  const MEASUREMENT_FORMAT: Separators := [".", ".", " ", ":", ":", ""]

  const WIDTHS: seq<nat> := [4, 2, 2, 2, 2, 2]

  /** Year, month, day, hour, minute and second. */
  function FieldsOf(seconds: nat): (f: seq<int>)
    ensures |f| == 6
  {
    var days, sod := seconds / SECONDS_PER_DAY, seconds % SECONDS_PER_DAY;
    var d := CivilFromDays(days);
    [d.year, d.month, d.day, sod / 3600, sod % 3600 / 60, sod % 60]
  }

  /** The instants the four-digit year can show: from 1970 to the end of 9999. */
  const END_OF_9999: nat := 2_932_897 * SECONDS_PER_DAY

  /** The numbers from the `i`-th on, padded, each with the text behind it. */
  function Printed(f: seq<int>, sep: Separators, i: nat): string
    requires |f| == 6 && i <= 6 && forall k | 0 <= k < 6 :: f[k] >= 0
    decreases 6 - i
  {
    if i == 6 then [] else Padded(f[i], WIDTHS[i]) + (sep[i] + Printed(f, sep, i + 1))
  }

  /** The printed timestamp. */
  function Stamp(sep: Separators, seconds: nat): string
    requires seconds < END_OF_9999
  {
    FieldsInRange(seconds);
    Printed(FieldsOf(seconds), sep, 0)
  }

  lemma FieldsInRange(seconds: nat)
    requires seconds < END_OF_9999
    ensures
      var f := FieldsOf(seconds);
      && 1970 <= f[0] <= 9999 && 1 <= f[1] <= 12 && 1 <= f[2] <= 31
      && 0 <= f[3] < 24 && 0 <= f[4] < 60 && 0 <= f[5] < 60
      && ValidDate(Date(f[0], f[1], f[2]))
  {
    var days := seconds / SECONDS_PER_DAY;
    CivilIsRight(days);
    var d, first, last := CivilFromDays(days), Date(1970, 1, 1), Date(9999, 12, 31);
    DaysBeforeMonthIs(9999, 12);
    assert DaysFromCivil(first) == 0 && DaysFromCivil(last) == 2_932_896;
    hide CivilFromDays, DaysFromCivil;
    if EarlierDate(d, first) {
      CountGrows(d, first);
    } else if EarlierDate(last, d) {
      CountGrows(last, d);
    }
  }

  ghost predicate Fit(f: seq<int>) {
    |f| == 6 && forall i | 0 <= i < 6 :: 0 <= f[i] < Power10(WIDTHS[i])
  }

  /** Numbers that fit their widths are printed with exactly that many digits. */
  function Fixed(f: seq<int>, sep: Separators, i: nat): string
    requires |f| == 6 && i <= 6 && forall k | 0 <= k < 6 :: f[k] >= 0
    decreases 6 - i
  {
    if i == 6 then [] else Digits(f[i], WIDTHS[i]) + (sep[i] + Fixed(f, sep, i + 1))
  }

  lemma {:induction false} PrintedIsFixed(f: seq<int>, sep: Separators, i: nat)
    requires Fit(f) && i <= 6
    ensures Printed(f, sep, i) == Fixed(f, sep, i)
    decreases 6 - i
  {
    if i < 6 {
      PaddedIsDigits(f[i], WIDTHS[i]);
      PrintedIsFixed(f, sep, i + 1);
    }
  }

  /** The reader: numbers of the given widths, the given texts in between. */
  function Read(text: string, sep: Separators, i: nat): Option<seq<int>>
    requires i <= 6
    decreases 6 - i
  {
    if i == 6 then if text == [] then Some([]) else None
    else
      var k, n := WIDTHS[i], WIDTHS[i] + |sep[i]|;
      if |text| < n || !AllDigits(text[..k]) || text[k..n] != sep[i] then None
      else
        match Read(text[n..], sep, i + 1)
        case None => None
        case Some(rest) => Some([FromDecimal(text[..k])] + rest)
  }

  lemma ThreeParts(a: string, b: string, c: string)
    ensures
      var text := a + (b + c);
      && text[..|a|] == a && text[|a|..|a| + |b|] == b && text[|a| + |b|..] == c && |text| == |a| + |b| + |c|
  {
  }

  lemma ReadFirst(digits: string, tail: string, sep: Separators, i: nat)
    requires i < 6 && |digits| == WIDTHS[i] && AllDigits(digits)
    ensures Read(digits + (sep[i] + tail), sep, i) ==
            match Read(tail, sep, i + 1)
            case None => None
            case Some(rest) => Some([FromDecimal(digits)] + rest)
  {
    hide FromDecimal, AllDigits;
    ThreeParts(digits, sep[i], tail);
  }

  lemma {:induction false} ReadOfFixed(f: seq<int>, sep: Separators, i: nat)
    requires Fit(f) && i <= 6
    ensures Read(Fixed(f, sep, i), sep, i) == Some(f[i..])
    decreases 6 - i
  {
    if i < 6 {
      hide Digits, FromDecimal, AllDigits, Power10, Read;
      var digits, tail := Digits(f[i], WIDTHS[i]), Fixed(f, sep, i + 1);
      assert Fixed(f, sep, i) == digits + (sep[i] + tail);
      DigitsRoundTrip(f[i], WIDTHS[i]);
      hide Fixed, Fit, WIDTHS;
      ReadOfFixed(f, sep, i + 1);
      ReadFirst(digits, tail, sep, i);
      assert [f[i]] + f[i + 1..] == f[i..];
    }
  }

  function TotalLength(sep: Separators, i: nat): nat
    requires i <= 6
    decreases 6 - i
  {
    if i == 6 then 0 else WIDTHS[i] + |sep[i]| + TotalLength(sep, i + 1)
  }

  lemma {:induction false} FixedLength(f: seq<int>, sep: Separators, i: nat)
    requires Fit(f) && i <= 6
    ensures |Fixed(f, sep, i)| == TotalLength(sep, i)
    decreases 6 - i
  {
    if i < 6 {
      FixedLength(f, sep, i + 1);
    }
  }

  /** The first different number decides. */
  predicate LessFrom(a: seq<int>, b: seq<int>, i: nat)
    requires |a| == |b| == 6 && i <= 6
    decreases 6 - i
  {
    i < 6 && (a[i] < b[i] || (a[i] == b[i] && LessFrom(a, b, i + 1)))
  }

  /** Texts of one format compare like their numbers. */
  lemma {:induction false} FixedGrows(a: seq<int>, b: seq<int>, sep: Separators, i: nat)
    requires Fit(a) && Fit(b) && i <= 6 && LessFrom(a, b, i)
    ensures Lex(CharLess, Fixed(a, sep, i), Fixed(b, sep, i))
    decreases 6 - i
  {
    CharOrder();
    var (da, db) := (Digits(a[i], WIDTHS[i]), Digits(b[i], WIDTHS[i]));
    var (ra, rb) := (Fixed(a, sep, i + 1), Fixed(b, sep, i + 1));
    if a[i] == b[i] {
      FixedGrows(a, b, sep, i + 1);
      LexAfterPrefix(CharLess, sep[i], ra, rb);
      LexAfterPrefix(CharLess, da, sep[i] + ra, sep[i] + rb);
    } else {
      DigitsGrow(a[i], b[i], WIDTHS[i]);
      LexExtends(da, sep[i] + ra, db, sep[i] + rb);
    }
  }

  lemma StampIsFixed(sep: Separators, seconds: nat)
    requires seconds < END_OF_9999
    ensures Fit(FieldsOf(seconds)) && Stamp(sep, seconds) == Fixed(FieldsOf(seconds), sep, 0)
  {
    FieldsInRange(seconds);
    assert Power10(2) == 100 && Power10(4) == 10_000;
    PrintedIsFixed(FieldsOf(seconds), sep, 0);
    hide FieldsOf, Printed, Fixed;
  }

  function SecondsOf(f: seq<int>): Option<int> {
    if |f| == 6 && ValidDate(Date(f[0], f[1], f[2]))
    then Some(DaysFromCivil(Date(f[0], f[1], f[2])) * SECONDS_PER_DAY + f[3] * 3600 + f[4] * 60 + f[5])
    else None
  }

  /** A timestamp has the fixed length of its format and reads back to the second it shows. */
  lemma StampReadsBack(sep: Separators, seconds: nat)
    requires seconds < END_OF_9999
    ensures |Stamp(sep, seconds)| == TotalLength(sep, 0)
    ensures
      var f := Read(Stamp(sep, seconds), sep, 0);
      f.Some? && SecondsOf(f.value) == Some(seconds)
  {
    StampIsFixed(sep, seconds);
    var f := FieldsOf(seconds);
    ReadOfFixed(f, sep, 0);
    FixedLength(f, sep, 0);
    assert f[0..] == f;
    hide Stamp, Fixed, Read, TotalLength, CivilFromDays, DaysFromCivil, ValidDate;
    FieldsReadBack(seconds);
  }

  lemma FieldsReadBack(seconds: nat)
    requires seconds < END_OF_9999
    ensures SecondsOf(FieldsOf(seconds)) == Some(seconds)
  {
    FieldsInRange(seconds);
    CivilIsRight(seconds / SECONDS_PER_DAY);
    TimeOfDay(seconds);
    hide CivilFromDays, DaysFromCivil, ValidDate;
  }

  /** Seconds of the day, split into hours, minutes and seconds. */
  lemma SplitOfDay(sod: nat, h: nat, m: nat, s: nat)
    requires sod == 3600 * h + 60 * m + s && m < 60 && s < 60
    ensures sod / 3600 == h && sod % 3600 == 60 * m + s && sod % 3600 / 60 == m && sod % 60 == s
  {
  }

  lemma TimeOfDay(seconds: nat)
    ensures
      var sod := seconds % SECONDS_PER_DAY;
      seconds == seconds / SECONDS_PER_DAY * SECONDS_PER_DAY + sod / 3600 * 3600 + sod % 3600 / 60 * 60 + sod % 60
  {
    var sod := seconds % SECONDS_PER_DAY;
    var h, r := sod / 3600, sod % 3600;
    var m, s := r / 60, r % 60;
    SplitOfDay(sod, h, m, s);
  }

  lemma TimesGrow(s: nat, t: nat)
    requires s < t < SECONDS_PER_DAY
    ensures
      var (x, y) := ([s / 3600, s % 3600 / 60, s % 60], [t / 3600, t % 3600 / 60, t % 60]);
      x[0] < y[0] || (x[0] == y[0] && (x[1] < y[1] || (x[1] == y[1] && x[2] < y[2])))
  {
    TimeOfDay(s);
    TimeOfDay(t);
  }

  lemma DayAndTime(a: nat, b: nat)
    requires a < b && a / SECONDS_PER_DAY >= b / SECONDS_PER_DAY
    ensures a / SECONDS_PER_DAY == b / SECONDS_PER_DAY && a % SECONDS_PER_DAY < b % SECONDS_PER_DAY
  {
  }

  lemma FieldsGrow(a: nat, b: nat)
    requires a < b
    ensures LessFrom(FieldsOf(a), FieldsOf(b), 0)
  {
    var (x, y) := (FieldsOf(a), FieldsOf(b));
    if a / SECONDS_PER_DAY < b / SECONDS_PER_DAY {
      CivilGrows(a / SECONDS_PER_DAY, b / SECONDS_PER_DAY);
      hide CivilFromDays;
      assert LessFrom(x, y, 2) || x[2] >= y[2];
      assert LessFrom(x, y, 1) || x[1] > y[1] || (x[1] == y[1] && x[2] >= y[2]);
    } else {
      DayAndTime(a, b);
      TimesGrow(a % SECONDS_PER_DAY, b % SECONDS_PER_DAY);
      hide CivilFromDays;
      assert LessFrom(x, y, 5) || x[5] >= y[5];
      assert LessFrom(x, y, 4) || x[4] > y[4] || (x[4] == y[4] && x[5] >= y[5]);
      assert LessFrom(x, y, 3);
      assert LessFrom(x, y, 2);
      assert LessFrom(x, y, 1);
    }
  }

  /** Later instants have lexicographically larger timestamps, in every format. */
  lemma StampsKeepOrder(sep: Separators, a: nat, b: nat)
    requires a < b < END_OF_9999
    ensures Lex(CharLess, Stamp(sep, a), Stamp(sep, b))
  {
    StampIsFixed(sep, a);
    StampIsFixed(sep, b);
    FieldsGrow(a, b);
    FixedGrows(FieldsOf(a), FieldsOf(b), sep, 0);
  }

  /** The lengths of the three formats. */
  lemma FormatLengths(seconds: nat)
    requires seconds < END_OF_9999
    ensures |Stamp(LOG_FORMAT, seconds)| == 20
    ensures |Stamp(FILE_NAME_FORMAT, seconds)| == 16
    ensures |Stamp(MEASUREMENT_FORMAT, seconds)| == 19
  {
    StampReadsBack(LOG_FORMAT, seconds);
    StampReadsBack(FILE_NAME_FORMAT, seconds);
    StampReadsBack(MEASUREMENT_FORMAT, seconds);
    hide Stamp, Read;
    LengthOfSix(LOG_FORMAT);
    LengthOfSix(FILE_NAME_FORMAT);
    LengthOfSix(MEASUREMENT_FORMAT);
  }

  lemma LengthOfSix(sep: Separators)
    ensures TotalLength(sep, 0) == 14 + |sep[0]| + |sep[1]| + |sep[2]| + |sep[3]| + |sep[4]| + |sep[5]|
  {
    assert TotalLength(sep, 3) == 6 + |sep[3]| + |sep[4]| + |sep[5]| by {
      assert TotalLength(sep, 5) == 2 + |sep[5]|;
    }
  }
}
