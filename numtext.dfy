/**
  Number-to-text conversion as JavaScript's `Number.prototype.toString(radix)`
  performs it on integers, with upper-case digits (the callers upper-case the
  hexadecimal form), together with the inverse parser used to state round trips.
 */
module NumberText {
  import opened Arith

  /** The digit character for a digit value below 16: `0`-`9`, then `A`-`F`. */
  function DigitChar(d: nat): (c: char)
    requires d < 16
    ensures d < 10 ==> '0' <= c <= '9'
    ensures d >= 10 ==> 'A' <= c <= 'F'
  {
    if d < 10 then ('0' as int + d) as char else ('A' as int + d - 10) as char
  }

  /** The value of a digit character; 16 for a character that is not a digit. */
  function DigitValue(c: char): (v: nat)
    ensures v <= 16
  {
    if '0' <= c <= '9' then (c - '0') as nat
    else if 'A' <= c <= 'F' then (c - 'A') as nat + 10
    else 16
  }

  lemma DigitValueOfChar(d: nat)
    requires d < 16
    ensures DigitValue(DigitChar(d)) == d
  {
  }

  /** Every character of `s` is a digit of base `b`. */
  predicate AllDigits(s: string, b: nat)
  {
    forall i :: 0 <= i < |s| ==> DigitValue(s[i]) < b
  }

  /** `n` written in base `b`, most significant digit first, without leading zeros. */
  function ToBase(n: nat, b: nat): (s: string)
    requires 2 <= b <= 16
    ensures |s| >= 1
    decreases n
  {
    if n < b then [DigitChar(n)] else ToBase(n / b, b) + [DigitChar(n % b)]
  }

  /** `b` to the power `k`. */
  function Power(b: nat, k: nat): nat
  {
    if k == 0 then 1 else Power(b, k - 1) * b
  }

  /** The value of the digit string `s` read in base `b`; `k` digits of base `b` stay below `b` to the power `k`. */
  function FromBase(s: string, b: nat): (v: nat)
    ensures b >= 1 && AllDigits(s, b) ==> v < Power(b, |s|)
    decreases |s|
  {
    if s == [] then 0
    else
      var prefix, d := s[..|s| - 1], DigitValue(s[|s| - 1]);
      PrefixDigits(s, b);
      NextDigitBound(FromBase(prefix, b), d, b, Power(b, |prefix|));
      FromBase(prefix, b) * b + d
  }

  /** The digits of a base-`b` string are its leading digits and its last one. */
  lemma PrefixDigits(s: string, b: nat)
    requires s != []
    ensures AllDigits(s, b) ==> AllDigits(s[..|s| - 1], b) && DigitValue(s[|s| - 1]) < b
  {
    var prefix := s[..|s| - 1];
    forall i | 0 <= i < |prefix| ensures prefix[i] == s[i] { }
  }

  /** A value below `p` followed by one more digit of base `b` stays below `p * b`. */
  lemma NextDigitBound(high: nat, d: nat, b: nat, p: nat)
    ensures high < p && d < b ==> high * b + d < p * b
  {
    if high < p && d < b {
      assert (high + 1) * b == high * b + b;
      MulMonotone(high + 1, p, b);
    }
  }

  lemma DivModSplit(n: nat, b: nat)
    requires 2 <= b <= n
    ensures 1 <= n / b < n && n / b * b + n % b == n && n % b < b
  {
  }

  /** Reading back what `ToBase` wrote gives the number again, and only digits of base `b` were written. */
  lemma {:induction false} ToBaseRoundTrip(n: nat, b: nat)
    requires 2 <= b <= 16
    ensures AllDigits(ToBase(n, b), b)
    ensures FromBase(ToBase(n, b), b) == n
    decreases n
  {
    var s := ToBase(n, b);
    if n < b {
      DigitValueOfChar(n);
      assert s[..|s| - 1] == [];
    } else {
      var q, r := n / b, n % b;
      DivModSplit(n, b);
      var prefix := ToBase(q, b);
      ToBaseRoundTrip(q, b);
      DigitValueOfChar(r);
      assert s == prefix + [DigitChar(r)];
      assert s[..|s| - 1] == prefix;
      assert FromBase(s, b) == q * b + r;
      forall i | 0 <= i < |s| ensures DigitValue(s[i]) < b {
        if i < |s| - 1 {
          assert s[i] == prefix[i];
        }
      }
    }
  }

  /** The first character is a zero only when the number is zero. */
  lemma {:induction false} ToBaseNoLeadingZero(n: nat, b: nat)
    requires 2 <= b <= 16
    ensures (ToBase(n, b)[0] == '0') <==> n == 0
    decreases n
  {
    if n >= b {
      DivModSplit(n, b);
      ToBaseNoLeadingZero(n / b, b);
      assert ToBase(n, b)[0] == ToBase(n / b, b)[0];
    }
  }

  /** A decimal number has one digit below 10 and two digits from 10 to 99. */
  lemma DecimalLength(n: nat)
    ensures n < 10 ==> ToBase(n, 10) == [DigitChar(n)]
    ensures 10 <= n < 100 ==> ToBase(n, 10) == [DigitChar(n / 10), DigitChar(n % 10)]
  {
  }

  /**
   * JavaScript's decimal rendering of an integer: a minus sign before the magnitude when negative.
   * The text reads back as the number: its digits are decimal digits whose value is the magnitude,
   * behind a minus sign exactly when the number is negative.
   */
  function IntToString(x: int): (s: string)
    ensures x >= 0 ==> s == ToBase(x, 10)
    ensures x < 0 ==> s == "-" + ToBase(-x, 10)
    ensures x >= 0 ==> |s| >= 1 && s[0] != '-' && AllDigits(s, 10) && FromBase(s, 10) == x
    ensures x < 0 ==> |s| >= 2 && s[0] == '-' && AllDigits(s[1..], 10) && FromBase(s[1..], 10) == -x
  {
    if x < 0 then
      ToBaseRoundTrip(-x, 10);
      assert ("-" + ToBase(-x, 10))[1..] == ToBase(-x, 10);
      "-" + ToBase(-x, 10)
    else
      ToBaseRoundTrip(x, 10);
      assert DigitValue('-') == 16;
      ToBase(x, 10)
  }
}
