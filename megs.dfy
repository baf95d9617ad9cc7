/**
 * The size text of a report line: a byte count in megabytes with two
 * decimals and the suffix " MB", the number right-aligned in a field of
 * eight characters when sizes are aligned ("%8.2f MB"), unpadded otherwise
 * ("%.2f MB").
 *
 * The source divides as float64 and lets `fmt` round; for counts below 2^53
 * that float is exact, and `%.2f` rounds its exact value to the nearest
 * hundredth with a tie going to the even neighbour. The model does the same
 * on integers.
 */
module Megs {
  import opened Wrappers

  /** 1024 * 1024 bytes. */
  const Megabyte: nat := 1048576

  function Dist(x: int, y: int): nat
  {
    if x >= y then x - y else y - x
  }

  /** `b` bytes in hundredths of a megabyte, rounded to nearest, ties to even. */
  function Cents(b: nat): nat
  {
    var q := b * 100 / Megabyte;
    var r := b * 100 % Megabyte;
    if 2 * r > Megabyte || (2 * r == Megabyte && q % 2 == 1) then q + 1 else q
  }

  /**
   * The printed hundredths are within half a hundredth of the exact value
   * b / 2^20, and on an exact tie they are even.
   */
  lemma CentsNearest(b: nat)
    ensures 2 * Dist(Cents(b) * Megabyte, b * 100) <= Megabyte
    ensures 2 * Dist(Cents(b) * Megabyte, b * 100) == Megabyte ==> Cents(b) % 2 == 0
  {
    var q := b * 100 / Megabyte;
    var r := b * 100 % Megabyte;
    assert b * 100 == q * Megabyte + r;
  }

  /** No other count of hundredths is that close with that tie rule: the rounding is determined. */
  lemma CentsUnique(b: nat, c: nat)
    requires 2 * Dist(c * Megabyte, b * 100) <= Megabyte
    requires 2 * Dist(c * Megabyte, b * 100) == Megabyte ==> c % 2 == 0
    ensures c == Cents(b)
  {
    CentsNearest(b);
  }

  predicate IsDigit(ch: char)
  {
    '0' <= ch <= '9'
  }

  predicate AllDigits(s: string)
  {
    forall i :: 0 <= i < |s| ==> IsDigit(s[i])
  }

  function DigitChar(d: nat): (ch: char)
    requires d < 10
    ensures IsDigit(ch) && ch as int - '0' as int == d
  {
    ('0' as int + d) as char
  }

  /** The decimal digits of `n`, without leading zeros ("0" for zero). */
  function Decimal(n: nat): (s: string)
    ensures s != [] && AllDigits(s)
  {
    if n < 10 then [DigitChar(n)] else Decimal(n / 10) + [DigitChar(n % 10)]
  }

  /** The number a string of decimal digits denotes. */
  function DigitsValue(s: string): nat
    requires AllDigits(s)
  {
    if s == [] then 0
    else DigitsValue(s[..|s| - 1]) * 10 + (s[|s| - 1] as int - '0' as int)
  }

  lemma {:induction false} DecimalRoundTrip(n: nat)
    ensures DigitsValue(Decimal(n)) == n
  {
    if n >= 10 {
      var s := Decimal(n);
      assert s[..|s| - 1] == Decimal(n / 10);
      DecimalRoundTrip(n / 10);
    }
  }

  function Pow10(k: nat): nat
  {
    if k == 0 then 1 else 10 * Pow10(k - 1)
  }

  /** A number below 10^k has at most k digits. */
  lemma {:induction false} DecimalLength(n: nat, k: nat)
    requires 1 <= k && n < Pow10(k)
    ensures |Decimal(n)| <= k
  {
    if n >= 10 {
      DecimalLength(n / 10, k - 1);
    }
  }

  /** The number with two decimals, as `%.2f` prints it. */
  function Fixed2(b: nat): string
  {
    var c := Cents(b);
    Decimal(c / 100) + "." + [DigitChar(c % 100 / 10), DigitChar(c % 10)]
  }

  function Spaces(k: nat): (s: string)
    ensures |s| == k && forall i :: 0 <= i < k ==> s[i] == ' '
  {
    seq(k, _ => ' ')
  }

  /** `s` right-aligned in a field of `w` characters; longer text is never cut. */
  function PadLeft(s: string, w: nat): string
  {
    if |s| < w then Spaces(w - |s|) + s else s
  }

  /** `fmtMegs(b)`: the size text, aligned or not. */
  function FmtMegs(b: nat, align: bool): string
  {
    (if align then PadLeft(Fixed2(b), 8) else Fixed2(b)) + " MB"
  }

  function TrimLeftSpaces(s: string): string
  {
    if s != [] && s[0] == ' ' then TrimLeftSpaces(s[1..]) else s
  }

  /**
   * Reads a size text back into hundredths of a megabyte: optional leading
   * spaces, digits, a point, two digits, " MB".
   */
  function ParseCents(s: string): Option<nat>
  {
    if |s| < 3 || s[|s| - 3..] != " MB" then None
    else
      var num := TrimLeftSpaces(s[..|s| - 3]);
      if |num| < 4 || num[|num| - 3] != '.' then None
      else if !AllDigits(num[..|num| - 3]) || !AllDigits(num[|num| - 2..]) then None
      else Some(DigitsValue(num[..|num| - 3]) * 100 + DigitsValue(num[|num| - 2..]))
  }

  lemma {:induction false} TrimSpaces(k: nat, s: string)
    requires s != [] && s[0] != ' '
    ensures TrimLeftSpaces(Spaces(k) + s) == s
  {
    if k > 0 {
      assert (Spaces(k) + s)[1..] == Spaces(k - 1) + s;
      TrimSpaces(k - 1, s);
    } else {
      assert Spaces(k) + s == s;
    }
  }

  /** A padded number with two decimals and the suffix reads back as its hundredths. */
  lemma ParseLayout(pad: nat, whole: string, frac: string)
    requires whole != [] && AllDigits(whole) && |frac| == 2 && AllDigits(frac)
    ensures ParseCents(Spaces(pad) + (whole + "." + frac) + " MB") ==
            Some(DigitsValue(whole) * 100 + DigitsValue(frac))
  {
    var num := whole + "." + frac;
    var s := Spaces(pad) + num + " MB";
    assert s[|s| - 3..] == " MB";
    assert s[..|s| - 3] == Spaces(pad) + num;
    assert num[0] == whole[0];
    TrimSpaces(pad, num);
    var n := TrimLeftSpaces(s[..|s| - 3]);
    assert n == num;
    assert |n| >= 4 && n[|n| - 3] == '.';
    assert n[..|n| - 3] == whole;
    assert n[|n| - 2..] == frac;
  }

  lemma TwoDigitsValue(c: nat)
    ensures DigitsValue([DigitChar(c % 100 / 10), DigitChar(c % 10)]) == c % 100
  {
    var frac := [DigitChar(c % 100 / 10), DigitChar(c % 10)];
    var hi := [DigitChar(c % 100 / 10)];
    assert frac[..1] == hi && hi[..0] == [];
    assert DigitsValue(hi) == c % 100 / 10;
  }

  /** The size text reads back as exactly the rounded number of hundredths. */
  lemma FmtMegsReadsBack(b: nat, align: bool)
    ensures ParseCents(FmtMegs(b, align)) == Some(Cents(b))
  {
    var c := Cents(b);
    var whole := Decimal(c / 100);
    var frac := [DigitChar(c % 100 / 10), DigitChar(c % 10)];
    var num := Fixed2(b);
    assert num == whole + "." + frac;
    var pad := if align && |num| < 8 then 8 - |num| else 0;
    assert FmtMegs(b, align) == Spaces(pad) + num + " MB" by {
      if !(align && |num| < 8) {
        assert Spaces(pad) + num == num;
      }
    }
    ParseLayout(pad, whole, frac);
    DecimalRoundTrip(c / 100);
    TwoDigitsValue(c);
  }

  /**
   * Aligned size texts are at least eleven characters, and exactly eleven
   * (one column) when the printed value is below 100000.00 MB; unaligned
   * ones start with a digit.
   */
  lemma FmtMegsWidth(b: nat)
    ensures |FmtMegs(b, true)| >= 11
    ensures Cents(b) < 10000000 ==> |FmtMegs(b, true)| == 11
    ensures IsDigit(FmtMegs(b, false)[0])
  {
    if Cents(b) < 10000000 {
      DecimalLength(Cents(b) / 100, 5);
    }
  }
}
