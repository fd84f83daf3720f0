/**
 Zero-padded decimal text, as luxon's `toFormat` writes the numeric tokens
 `yyyy`, `LL` and `dd` in a locale with Latin digits: the decimal digits of a
 number, left-padded with '0' to a minimum width and never truncated.
 */
module Decimal {
  import Strings

  predicate IsDigit(c: char) {
    '0' <= c <= '9'
  }

  predicate AllDigits(s: string) {
    forall i :: 0 <= i < |s| ==> IsDigit(s[i])
  }

  function DigitValue(c: char): (d: nat)
    requires IsDigit(c)
    ensures d < 10
  {
    c as int - '0' as int
  }

  function DigitChar(d: nat): (c: char)
    requires d < 10
    ensures IsDigit(c) && DigitValue(c) == d
  {
    ('0' as int + d) as char
  }

  function Pow10(w: nat): (p: nat)
    ensures p >= 1
  {
    if w == 0 then 1 else 10 * Pow10(w - 1)
  }

  /** The number a digit string denotes (most significant digit first). */
  function Value(s: string): nat
    requires AllDigits(s)
  {
    if |s| == 0 then 0 else 10 * Value(s[..|s| - 1]) + DigitValue(s[|s| - 1])
  }

  /** The decimal text of `n`, left-padded with '0' to at least `width`
      characters. */
  function Pad(n: nat, width: nat): (s: string)
    ensures AllDigits(s)
    ensures |s| >= 1 && |s| >= width
    decreases n, width
  {
    if n < 10 && width <= 1 then [DigitChar(n)]
    else Pad(n / 10, if width == 0 then 0 else width - 1) + [DigitChar(n % 10)]
  }

  /** Reading the padded text back gives the number: padding loses nothing. */
  lemma {:induction false} PadValue(n: nat, width: nat)
    ensures Value(Pad(n, width)) == n
    decreases n, width
  {
    var s := Pad(n, width);
    if n < 10 && width <= 1 {
      assert s[..0] == [];
    } else {
      var w' := if width == 0 then 0 else width - 1;
      var p := Pad(n / 10, w');
      assert s == p + [DigitChar(n % 10)];
      assert s[..|s| - 1] == p;
      PadValue(n / 10, w');
    }
  }

  /** A number below 10^width is written with exactly `width` characters. */
  lemma {:induction false} PadLength(n: nat, width: nat)
    requires 1 <= width && n < Pow10(width)
    ensures |Pad(n, width)| == width
    decreases width
  {
    if n < 10 && width <= 1 {
    } else {
      assert width >= 2 || n >= 10;
      if width == 1 {
        assert false;
      }
      assert n / 10 < Pow10(width - 1);
      PadLength(n / 10, width - 1);
    }
  }

  /** Both facts about a padded number at once. */
  lemma PadFacts(n: nat, width: nat)
    ensures Value(Pad(n, width)) == n
    ensures 1 <= width && n < Pow10(width) ==> |Pad(n, width)| == width
  {
    PadValue(n, width);
    if 1 <= width && n < Pow10(width) { PadLength(n, width); }
  }

  /** Two numbers get the same padded text only if they are equal. */
  lemma PadInjective(a: nat, b: nat, width: nat)
    requires Pad(a, width) == Pad(b, width)
    ensures a == b
  {
    PadValue(a, width);
    PadValue(b, width);
  }

  /** Padded texts of one width compare as strings exactly as the numbers do:
      this is why zero padding makes names sort in numeric order. */
  lemma {:induction false} PadOrder(a: nat, b: nat, width: nat)
    requires 1 <= width && a < Pow10(width) && b < Pow10(width)
    ensures Strings.Less(Pad(a, width), Pad(b, width)) <==> a < b
    decreases width
  {
    if width == 1 {
      var sa, sb := Pad(a, 1), Pad(b, 1);
      assert sa == [DigitChar(a)] && sb == [DigitChar(b)];
      assert sa[1..] == [] && sb[1..] == [];
      assert DigitChar(a) < DigitChar(b) <==> a < b;
    } else {
      assert a / 10 < Pow10(width - 1) && b / 10 < Pow10(width - 1);
      var pa, pb := Pad(a / 10, width - 1), Pad(b / 10, width - 1);
      PadLength(a / 10, width - 1);
      PadLength(b / 10, width - 1);
      var ca, cb := DigitChar(a % 10), DigitChar(b % 10);
      assert Pad(a, width) == pa + [ca];
      assert Pad(b, width) == pb + [cb];
      Strings.LessAppend(pa, [ca], pb, [cb]);
      PadOrder(a / 10, b / 10, width - 1);
      assert [ca][1..] == [] && [cb][1..] == [];
      assert Strings.Less([ca], [cb]) <==> a % 10 < b % 10;
      assert pa == pb <==> a / 10 == b / 10 by {
        if pa == pb { PadInjective(a / 10, b / 10, width - 1); }
      }
      assert a == 10 * (a / 10) + a % 10;
      assert b == 10 * (b / 10) + b % 10;
    }
  }
}
