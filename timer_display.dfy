/**
 * `formatTime`: the `mm:ss` text of the timer display, built from
 * JavaScript's integer-to-string conversion, `padStart(2, "0")`, `Math.floor`
 * of a division and the truncating `%` operator.
 */
module TimerDisplay {
  import opened Common

  function DigitChar(d: nat): char
    requires d < 10
  {
    ('0' as int + d) as char
  }

  predicate IsDigits(s: string)
  {
    forall i :: 0 <= i < |s| ==> '0' <= s[i] <= '9'
  }

  /** `n.toString()` for a whole number `n >= 0`: its decimal digits, no leading zero. */
  function NatToString(n: nat): (s: string)
    ensures 1 <= |s| && IsDigits(s)
    ensures n < 10 ==> |s| == 1
    ensures n < 100 ==> |s| <= 2
  {
    if n < 10 then [DigitChar(n)] else NatToString(n / 10) + [DigitChar(n % 10)]
  }

  /** `n.toString()` for any integer: a minus sign in front of negative numbers. */
  function IntToString(n: int): (s: string)
    ensures 1 <= |s|
    ensures n < 0 ==> s[0] == '-'
    ensures n >= 0 ==> IsDigits(s)
  {
    if n < 0 then "-" + NatToString(-n) else NatToString(n)
  }

  /** `s.padStart(2, "0")`. */
  function PadStart2(s: string): (r: string)
    ensures |r| == if |s| >= 2 then |s| else 2
    ensures r[|r| - |s|..] == s
    ensures forall i :: 0 <= i < |r| - |s| ==> r[i] == '0'
  {
    if |s| >= 2 then s else if |s| == 1 then "0" + s else "00"
  }

  /** The quotient `a / b` rounded toward zero. */
  function TruncDiv(a: int, b: int): int
    requires b != 0
  {
    if a >= 0 then a / b else -((-a) / b)
  }

  /**
   * JavaScript's `a % b`: what is left of `a` after taking away `b` times the
   * truncated quotient, so the remainder takes the sign of the dividend.
   */
  function JsRemainder(a: int, b: int): (r: int)
    requires b != 0
    ensures a == b * TruncDiv(a, b) + r
    ensures a >= 0 ==> 0 <= r < if b > 0 then b else -b
    ensures a < 0 ==> -(if b > 0 then b else -b) < r <= 0
  {
    if a >= 0 then a % b else -((-a) % b)
  }

  /**
   * `formatTime(seconds)`: whole minutes and the leftover seconds, each
   * padded to two characters. Dafny's `/` by a positive divisor is
   * `Math.floor` of the quotient, and the remainder is already whole.
   */
  function FormatTime(seconds: int): (r: string)
    ensures 0 <= seconds < 6000 ==> |r| == 5 && r[2] == ':'
  {
    var minutes := seconds / 60;
    var rest := JsRemainder(seconds, 60);
    PaddedTwoDigits(minutes);
    PaddedTwoDigits(rest);
    PadStart2(IntToString(minutes)) + ":" + PadStart2(IntToString(rest))
  }

  /** A number from 0 to 99 pads to exactly two characters. */
  lemma PaddedTwoDigits(n: int)
    ensures 0 <= n < 100 ==> |PadStart2(IntToString(n))| == 2
  {
  }

  /** Value of a string of decimal digits (leading zeros allowed). */
  function DigitsValue(s: string): nat
    requires IsDigits(s)
  {
    if s == [] then 0 else DigitsValue(s[..|s| - 1]) * 10 + (s[|s| - 1] as int - '0' as int)
  }

  /**
   * Reads back a display `m...m:ss` whose seconds field is below 60;
   * `None` for anything of another shape.
   */
  function ParseClock(s: string): Option<int>
  {
    if |s| < 4 || s[|s| - 3] != ':' then None
    else
      var minutes := s[..|s| - 3];
      var secs := s[|s| - 2..];
      if IsDigits(minutes) && IsDigits(secs) && DigitsValue(secs) < 60
      then Some(DigitsValue(minutes) * 60 + DigitsValue(secs))
      else None
  }

  lemma {:induction false} NatToStringValue(n: nat)
    ensures DigitsValue(NatToString(n)) == n
  {
    if n >= 10 {
      var s := NatToString(n / 10) + [DigitChar(n % 10)];
      assert s[..|s| - 1] == NatToString(n / 10);
      NatToStringValue(n / 10);
    }
  }

  /** A leading zero does not change the value. */
  lemma {:induction false} LeadingZeroValue(s: string)
    requires IsDigits(s)
    ensures IsDigits("0" + s) && DigitsValue("0" + s) == DigitsValue(s)
  {
    if s != [] {
      var z := "0" + s;
      assert z[..|z| - 1] == "0" + s[..|s| - 1];
      LeadingZeroValue(s[..|s| - 1]);
    }
  }

  /** Padding a non-negative number's digits keeps them digits and keeps the value. */
  lemma PaddedValue(n: nat)
    ensures IsDigits(PadStart2(NatToString(n)))
    ensures DigitsValue(PadStart2(NatToString(n))) == n
  {
    var s := NatToString(n);
    NatToStringValue(n);
    if |s| < 2 {
      assert PadStart2(s) == "0" + s;
      LeadingZeroValue(s);
    }
  }

  /** Every display of a non-negative count reads back as that count of seconds. */
  lemma FormatTimeRoundTrip(seconds: int)
    requires seconds >= 0
    ensures ParseClock(FormatTime(seconds)) == Some(seconds)
  {
    var m, rem := SplitSeconds(seconds);
    var a := PadStart2(NatToString(m));
    var b := PadStart2(NatToString(rem));
    FormatTimeUnfold(seconds, m, rem);
    PaddedValue(m);
    PaddedValue(rem);
    ParseJoined(a, b);
    calc {
      ParseClock(FormatTime(seconds));
      ParseClock(a + ":" + b);
      Some(DigitsValue(a) * 60 + DigitsValue(b));
      Some(m * 60 + rem);
      Some(seconds);
    }
  }

  /** For a non-negative count the display is the padded minutes and seconds fields. */
  lemma FormatTimeUnfold(seconds: int, m: nat, rem: nat)
    requires seconds >= 0 && m == seconds / 60 && rem == seconds % 60
    ensures FormatTime(seconds) == PadStart2(NatToString(m)) + ":" + PadStart2(NatToString(rem))
  {
    assert JsRemainder(seconds, 60) == rem;
    assert IntToString(m) == NatToString(m);
    assert IntToString(rem) == NatToString(rem);
  }

  /** A non-negative count is its whole minutes times 60 plus a remainder below 60. */
  lemma SplitSeconds(seconds: int) returns (m: nat, rem: nat)
    requires seconds >= 0
    ensures m == seconds / 60 && rem == seconds % 60
    ensures rem < 60 && m * 60 + rem == seconds
  {
    m, rem := seconds / 60, seconds % 60;
  }

  lemma ParseJoined(a: string, b: string)
    requires |a| >= 1 && |b| == 2 && IsDigits(a) && IsDigits(b) && DigitsValue(b) < 60
    ensures ParseClock(a + ":" + b) == Some(DigitsValue(a) * 60 + DigitsValue(b))
  {
    var r := a + ":" + b;
    assert r[|r| - 3] == ':';
    assert r[..|r| - 3] == a;
    assert r[|r| - 2..] == b;
  }

  /** Twenty-five minutes show as `25:00`, ninety seconds as `01:30`. */
  lemma FormatTimeExamples()
    ensures FormatTime(1500) == "25:00"
    ensures FormatTime(90) == "01:30"
  {
    assert 1500 / 60 == 25 && JsRemainder(1500, 60) == 0;
    assert 90 / 60 == 1 && JsRemainder(90, 60) == 30;
    assert IntToString(25) == "25" by {
      assert NatToString(2) == "2" && NatToString(5) == "5";
    }
    assert IntToString(0) == "0";
    assert PadStart2("25") == "25" && PadStart2("0") == "00";
    assert IntToString(1) == "1";
    assert IntToString(30) == "30" by {
      assert NatToString(3) == "3" && NatToString(0) == "0";
    }
    assert PadStart2("1") == "01" && PadStart2("30") == "30";
  }

  /** A negative count keeps JavaScript's signs: `-5` seconds shows as `-1:-5`. */
  lemma FormatTimeNegative()
    ensures FormatTime(-5) == "-1:-5"
  {
    assert -5 / 60 == -1;
    assert JsRemainder(-5, 60) == -5;
    assert NatToString(1) == "1";
    assert NatToString(5) == "5";
  }
}
