/**
 * Decimal text of integers, as Python's `str(int)` produces it inside an
 * f-string replacement field: base 10, no separators, no leading zeros,
 * and a leading '-' for negative values only.
 *
 * `DigitsValue` and `IntValue` read such text back; they are the partners
 * against which the formatting functions are proved.
 */
module Decimal {
  import opened Wrappers

  predicate IsDigit(c: char) {
    '0' <= c <= '9'
  }

  predicate AllDigits(s: string) {
    forall k :: 0 <= k < |s| ==> IsDigit(s[k])
  }

  function DigitValue(c: char): (d: nat)
    requires IsDigit(c)
    ensures d < 10
  {
    (c as int) - ('0' as int)
  }

  function DigitChar(d: nat): (c: char)
    requires d < 10
    ensures IsDigit(c) && DigitValue(c) == d
  {
    (('0' as int) + d) as char
  }

  /** Python's `str(n)` for a non-negative integer `n`. */
  function NatToString(n: nat): (s: string)
    ensures |s| >= 1
    ensures AllDigits(s)
    ensures s[0] == '0' ==> n == 0 && s == "0"
    decreases n
  {
    if n < 10 then [DigitChar(n)] else NatToString(n / 10) + [DigitChar(n % 10)]
  }

  /** Python's `str(i)` for any integer `i`. */
  function IntToString(i: int): (s: string)
    ensures |s| >= 1
    ensures s[0] == '-' <==> i < 0
    ensures forall k :: 0 <= k < |s| ==> IsDigit(s[k]) || (k == 0 && s[k] == '-')
    ensures i < 0 ==> |s| >= 2 && s[1] != '0'
  {
    if i < 0 then "-" + NatToString(-i) else NatToString(i)
  }

  /** The value of a string of decimal digits, most significant first. */
  function DigitsValue(s: string): nat
    requires AllDigits(s)
  {
    if s == [] then 0 else DigitsValue(s[..|s| - 1]) * 10 + DigitValue(s[|s| - 1])
  }

  /** Reads a whole string as an optionally negative decimal literal. */
  function IntValue(s: string): Option<int> {
    if |s| > 1 && s[0] == '-' && AllDigits(s[1..]) then Some(-(DigitsValue(s[1..]) as int))
    else if |s| > 0 && AllDigits(s) then Some(DigitsValue(s))
    else None
  }

  /** Length of the run of digits that starts `s`. */
  function DigitRun(s: string): (n: nat)
    ensures n <= |s|
    ensures AllDigits(s[..n])
    ensures n < |s| ==> !IsDigit(s[n])
  {
    if s == [] || !IsDigit(s[0]) then 0 else 1 + DigitRun(s[1..])
  }

  /** Length of the longest optionally negative decimal literal that starts `s`. */
  function IntTokenLength(s: string): (n: nat)
    ensures n <= |s|
  {
    if |s| > 0 && s[0] == '-' then 1 + DigitRun(s[1..]) else DigitRun(s)
  }

  /** Reads a decimal literal off the front of `s`; yields its value and what follows it. */
  function ReadInt(s: string): (r: Option<(int, string)>)
    ensures r.Some? ==> |r.value.1| < |s| && s == s[..|s| - |r.value.1|] + r.value.1
  {
    var n := IntTokenLength(s);
    var v :- IntValue(s[..n]);
    Some((v, s[n..]))
  }

  /** Reading back the text of `n` gives `n`. */
  lemma {:induction false} DigitsValueOfNatToString(n: nat)
    ensures DigitsValue(NatToString(n)) == n
    decreases n
  {
    if n >= 10 {
      var s := NatToString(n);
      assert s[..|s| - 1] == NatToString(n / 10);
      DigitsValueOfNatToString(n / 10);
    }
  }

  /** `IntToString` is inverted by `IntValue`: the literal denotes exactly `i`. */
  lemma IntValueOfIntToString(i: int)
    ensures IntValue(IntToString(i)) == Some(i)
  {
    if i < 0 {
      var s := IntToString(i);
      assert s[1..] == NatToString(-i);
      DigitsValueOfNatToString(-i);
    } else {
      DigitsValueOfNatToString(i);
    }
  }

  /** Distinct integers have distinct text. */
  lemma IntToStringInjective(i: int, j: int)
    requires IntToString(i) == IntToString(j)
    ensures i == j
  {
    IntValueOfIntToString(i);
    IntValueOfIntToString(j);
  }

  /** A run of digits stops at the first character that is not a digit. */
  lemma {:induction false} DigitRunOfConcat(d: string, t: string)
    requires AllDigits(d)
    requires t == [] || !IsDigit(t[0])
    ensures DigitRun(d + t) == |d|
  {
    if d != [] {
      assert (d + t)[1..] == d[1..] + t;
      DigitRunOfConcat(d[1..], t);
    } else {
      assert d + t == t;
    }
  }

  /**
   * The literal for `i`, followed by text that does not start with a digit,
   * is read back as `i` with exactly that text left over.
   */
  lemma ReadIntOfIntToString(i: int, t: string)
    requires t == [] || !IsDigit(t[0])
    ensures ReadInt(IntToString(i) + t) == Some((i, t))
  {
    var lit := IntToString(i);
    var s := lit + t;
    if i < 0 {
      var d := NatToString(-i);
      assert s[1..] == d + t;
      DigitRunOfConcat(d, t);
    } else {
      DigitRunOfConcat(lit, t);
    }
    assert IntTokenLength(s) == |lit|;
    assert s[..|lit|] == lit && s[|lit|..] == t;
    IntValueOfIntToString(i);
  }

  lemma NoNewlineInInt(i: int)
    ensures '\n' !in IntToString(i)
  {
  }

  /** A digit string of at least one digit is worth at least its first digit. */
  lemma {:induction false} DigitsValueAtLeastFirst(d: string)
    requires |d| >= 1 && AllDigits(d)
    ensures DigitsValue(d) >= DigitValue(d[0])
    decreases |d|
  {
    if |d| > 1 {
      DigitsValueAtLeastFirst(d[..|d| - 1]);
    }
  }

  /**
   * `NatToString` is the one canonical decimal text of `n`: every digit
   * string of value `n` without a superfluous leading zero is that text.
   */
  lemma {:induction false} CanonicalDecimal(d: string, n: nat)
    requires |d| >= 1 && AllDigits(d)
    requires d[0] == '0' ==> d == "0"
    requires DigitsValue(d) == n
    ensures d == NatToString(n)
    decreases |d|
  {
    var last := d[|d| - 1];
    if |d| == 1 {
      assert d == [last];
      assert DigitChar(DigitValue(last)) == last;
    } else {
      var init := d[..|d| - 1];
      assert init[0] == d[0] != '0';
      DigitsValueAtLeastFirst(init);
      assert n / 10 == DigitsValue(init) && n % 10 == DigitValue(last);
      CanonicalDecimal(init, n / 10);
      assert DigitChar(DigitValue(last)) == last;
      assert d == init + [last];
    }
  }

  /**
   * The canonical text of an integer: an optional '-' and then digits, with
   * no leading zero and no negative zero.
   */
  predicate CanonicalIntText(t: string) {
    |t| >= 1 &&
    if t[0] == '-' then |t| >= 2 && AllDigits(t[1..]) && t[1] != '0'
    else AllDigits(t) && (t[0] == '0' ==> t == "0")
  }

  /**
   * `IntToString` is the one canonical text of `i`, as Python's `str` gives
   * it: every canonical literal that denotes `i` is that text.
   */
  lemma CanonicalInt(t: string, i: int)
    requires CanonicalIntText(t)
    requires IntValue(t) == Some(i)
    ensures t == IntToString(i)
  {
    if t[0] == '-' {
      var d := t[1..];
      DigitsValueAtLeastFirst(d);
      CanonicalDecimal(d, -i);
      assert t == "-" + d;
    } else {
      CanonicalDecimal(t, i);
    }
  }
}
