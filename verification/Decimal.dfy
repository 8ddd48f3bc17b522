/** Decimal numbers as the formatting macros print them. */
module Decimal {
  import opened Text
  import opened Order

  function DigitChar(n: nat): char
    requires n < 10
  {
    ('0' as int + n) as char
  }

  predicate IsDigit(c: char) { '0' <= c <= '9' }

  function DigitOf(c: char): nat
    requires IsDigit(c)
  {
    c as int - '0' as int
  }

  /** `{}` of an unsigned number: no leading zeros. */
  function ToDecimal(n: nat): (s: string)
    ensures s != [] && forall i | 0 <= i < |s| :: IsDigit(s[i])
    ensures |s| > 1 ==> s[0] != '0'
  {
    if n < 10 then [DigitChar(n)] else ToDecimal(n / 10) + [DigitChar(n % 10)]
  }

  predicate AllDigits(s: string) {
    forall i | 0 <= i < |s| :: IsDigit(s[i])
  }

  function FromDecimal(s: string): nat
    requires AllDigits(s)
  {
    if s == [] then 0 else FromDecimal(s[..|s| - 1]) * 10 + DigitOf(s[|s| - 1])
  }

  lemma {:induction false} DecimalRoundTrip(n: nat)
    ensures FromDecimal(ToDecimal(n)) == n
  {
    var s := ToDecimal(n);
    if n >= 10 {
      DecimalRoundTrip(n / 10);
      assert s[..|s| - 1] == ToDecimal(n / 10);
    } else {
      assert s[..|s| - 1] == [];
    }
  }

  function Power10(w: nat): nat {
    if w == 0 then 1 else 10 * Power10(w - 1)
  }

  /** `{:0w}`: padded with zeros on the left to at least `w` characters. */
  function Padded(n: nat, w: nat): string {
    var s := ToDecimal(n);
    seq(if |s| < w then w - |s| else 0, _ => '0') + s
  }

  /** Exactly `w` digits. */
  function Digits(n: nat, w: nat): (s: string)
    ensures |s| == w && AllDigits(s)
  {
    if w == 0 then [] else Digits(n / 10, w - 1) + [DigitChar(n % 10)]
  }

  lemma {:induction false} DigitsOfZero(w: nat)
    ensures Digits(0, w) == seq(w, _ => '0')
  {
    if w > 0 {
      DigitsOfZero(w - 1);
    }
  }

  /** Padding a number that fits gives exactly that many digits. */
  lemma {:induction false} PaddedIsDigits(n: nat, w: nat)
    requires w >= 1 && n < Power10(w)
    ensures Padded(n, w) == Digits(n, w)
  {
    if n < 10 {
      DigitsOfZero(w - 1);
      assert n / 10 == 0;
    } else {
      PaddedIsDigits(n / 10, w - 1);
      var (s, t) := (ToDecimal(n), ToDecimal(n / 10));
      assert |t| <= |Padded(n / 10, w - 1)| == w - 1;
      assert Padded(n, w) == Padded(n / 10, w - 1) + [DigitChar(n % 10)];
    }
  }

  lemma {:induction false} DigitsRoundTrip(n: nat, w: nat)
    requires n < Power10(w)
    ensures FromDecimal(Digits(n, w)) == n
  {
    if w > 0 {
      DigitsRoundTrip(n / 10, w - 1);
      assert Digits(n, w)[..w - 1] == Digits(n / 10, w - 1);
    }
  }

  predicate CharLess(a: char, b: char) { a < b }

  lemma CharOrder()
    ensures StrictTotal(CharLess)
  {
  }

  /** Texts of one length compare like the numbers they show. */
  lemma {:induction false} DigitsGrow(a: nat, b: nat, w: nat)
    requires a < b < Power10(w)
    ensures Lex(CharLess, Digits(a, w), Digits(b, w))
  {
    CharOrder();
    var (x, y) := (Digits(a / 10, w - 1), Digits(b / 10, w - 1));
    if a / 10 == b / 10 {
      LexAfterPrefix(CharLess, x, [DigitChar(a % 10)], [DigitChar(b % 10)]);
    } else {
      DigitsGrow(a / 10, b / 10, w - 1);
      LexExtends(x, [DigitChar(a % 10)], y, [DigitChar(b % 10)]);
    }
  }

  /** The earlier part of texts of one shape decides. */
  lemma {:induction false} LexExtends(x: string, x': string, y: string, y': string)
    requires |x| == |y| && Lex(CharLess, x, y)
    ensures Lex(CharLess, x + x', y + y')
  {
    if x[0] == y[0] {
      assert (x + x')[1..] == x[1..] + x' && (y + y')[1..] == y[1..] + y';
      LexExtends(x[1..], x', y[1..], y');
    }
  }
}
