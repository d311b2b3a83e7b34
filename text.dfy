/** Decimal rendering of integers as Python's f-strings do it: `f"{n}"` and the
    zero-padded frame stamp `f"{t:05}"` used by the event log (event_log.py:27). */
module Text {

  predicate IsDigit(c: char) { '0' <= c <= '9' }

  predicate IsDigits(s: string) { forall i :: 0 <= i < |s| ==> IsDigit(s[i]) }

  function DigitChar(d: nat): (c: char)
    requires d < 10
    ensures IsDigit(c) && (c as int) - ('0' as int) == d
  {
    (('0' as int) + d) as char
  }

  function DigitValue(c: char): nat
    requires IsDigit(c)
  {
    (c as int) - ('0' as int)
  }

  /** The shortest decimal spelling of n, as `str(n)` for n >= 0. */
  function NatToString(n: nat): (s: string)
    ensures |s| >= 1 && IsDigits(s)
    ensures s[0] == '0' ==> n == 0
    decreases n
  {
    if n < 10 then [DigitChar(n)] else NatToString(n / 10) + [DigitChar(n % 10)]
  }

  /** `str(n)` for any int: a leading '-' for negative numbers. */
  function IntToString(n: int): string {
    if n < 0 then "-" + NatToString(-n) else NatToString(n)
  }

  /** The value of a string of decimal digits, most significant first. */
  function DigitsValue(s: string): nat
    requires IsDigits(s)
  {
    if s == [] then 0 else DigitsValue(s[..|s| - 1]) * 10 + DigitValue(s[|s| - 1])
  }

  function Zeros(k: nat): (z: string)
    ensures |z| == k && IsDigits(z)
  {
    seq(k, _ => '0')
  }

  /** Left-pads s with '0' up to the given width. */
  function ZeroPad(s: string, width: nat): (r: string)
    ensures |r| == if |s| >= width then |s| else width
    ensures r[|r| - |s|..] == s
  {
    if |s| >= width then s else Zeros(width - |s|) + s
  }

  /** `f"{t:05}"`: width 5, zero fill, the sign counted in the width. */
  function FormatFrame(t: int): string {
    if t < 0 then "-" + ZeroPad(NatToString(-t), 4) else ZeroPad(NatToString(t), 5)
  }

  // ---------------------------------------------------------------------------

  /** Reading back the digits of n gives n. */
  lemma {:induction false} NatToStringRoundTrip(n: nat)
    ensures DigitsValue(NatToString(n)) == n
  {
    if n >= 10 {
      NatToStringRoundTrip(n / 10);
      var s := NatToString(n);
      assert s[..|s| - 1] == NatToString(n / 10);
    }
  }

  /** Leading zeros do not change the value of a digit string. */
  lemma {:induction false} LeadingZerosValue(k: nat, s: string)
    requires IsDigits(s)
    ensures IsDigits(Zeros(k) + s) && DigitsValue(Zeros(k) + s) == DigitsValue(s)
    decreases |s| + k
  {
    var z := Zeros(k);
    assert IsDigits(z + s);
    if s == [] {
      assert z + s == z;
      if k > 0 {
        assert z[..k - 1] == Zeros(k - 1);
        LeadingZerosValue(k - 1, []);
        assert Zeros(k - 1) + [] == Zeros(k - 1);
      }
    } else {
      var init := s[..|s| - 1];
      assert (z + s)[..|z + s| - 1] == z + init;
      LeadingZerosValue(k, init);
    }
  }

  /** A frame stamp of a non-negative frame index is at least five digits and reads back
      as that index. */
  lemma FormatFrameRoundTrip(t: nat)
    ensures |FormatFrame(t)| >= 5 && IsDigits(FormatFrame(t))
    ensures DigitsValue(FormatFrame(t)) == t
  {
    var s := NatToString(t);
    NatToStringRoundTrip(t);
    if |s| < 5 {
      LeadingZerosValue(5 - |s|, s);
    }
  }

  /** A negative frame index is stamped as '-' and at least four digits that read back as
      its magnitude. */
  lemma FormatFrameNegative(t: int)
    requires t < 0
    ensures |FormatFrame(t)| >= 5 && FormatFrame(t)[0] == '-'
    ensures IsDigits(FormatFrame(t)[1..]) && DigitsValue(FormatFrame(t)[1..]) == -t
  {
    var s := NatToString(-t);
    NatToStringRoundTrip(-t);
    assert FormatFrame(t)[1..] == ZeroPad(s, 4);
    if |s| < 4 {
      LeadingZerosValue(4 - |s|, s);
    }
  }

  /** The stamp is exactly as wide as `str(t)` when that has five or more characters, and
      five characters otherwise. */
  lemma FormatFrameWidth(t: int)
    ensures |FormatFrame(t)| == if |IntToString(t)| >= 5 then |IntToString(t)| else 5
  {
  }

  lemma FormatFrameExamples()
    ensures FormatFrame(7) == "00007"
    ensures FormatFrame(123456) == "123456"
    ensures FormatFrame(-3) == "-0003"
  {
    assert NatToString(7) == "7";
    assert NatToString(3) == "3";
    assert NatToString(12) == "12";
    assert NatToString(123) == "123";
    assert NatToString(1234) == "1234";
    assert NatToString(12345) == "12345";
    assert NatToString(123456) == "123456";
  }
}
