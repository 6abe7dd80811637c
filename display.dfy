/**
 * The two display helpers of the header: the `MM:SS` countdown text and
 * the progress-bar percentage.
 */
module Display {
  import opened Optional
  import opened Arithmetic

  predicate IsDigit(c: char) {
    '0' <= c <= '9'
  }

  predicate AllDigits(s: string) {
    forall i :: 0 <= i < |s| ==> IsDigit(s[i])
  }

  function DigitChar(d: nat): (c: char)
    requires d < 10
    ensures IsDigit(c) && c as int - '0' as int == d
  {
    ['0', '1', '2', '3', '4', '5', '6', '7', '8', '9'][d]
  }

  /** `n.toString()` for a non-negative integer: its decimal digits, no leading zero. */
  function Digits(n: nat): (s: string)
    ensures |s| >= 1 && AllDigits(s)
    ensures n < 10 <==> |s| == 1
    ensures n < 100 ==> |s| <= 2
    ensures |s| > 1 ==> s[0] != '0'
  {
    if n < 10 then [DigitChar(n)] else Digits(n / 10) + [DigitChar(n % 10)]
  }

  /** The number a string of decimal digits denotes (leading zeros allowed). */
  function DecimalValue(s: string): nat
    requires AllDigits(s)
  {
    if s == [] then 0
    else DecimalValue(s[..|s| - 1]) * 10 + (s[|s| - 1] as int - '0' as int)
  }

  /** `s.padStart(width, '0')`. */
  function PadStart(s: string, width: nat): (r: string)
    ensures |r| == if |s| >= width then |s| else width
    ensures r[|r| - |s|..] == s
    ensures forall i :: 0 <= i < |r| - |s| ==> r[i] == '0'
  {
    if |s| >= width then s else Zeros(width - |s|) + s
  }

  /** `n` copies of the padding character `'0'`. */
  function Zeros(n: nat): (z: string)
    ensures |z| == n && forall i :: 0 <= i < n ==> z[i] == '0'
  {
    seq(n, _ => '0')
  }

  /** `formatTime(seconds)`: minutes and seconds, each padded to two digits. */
  function FormatTime(seconds: nat): string {
    PadStart(Digits(seconds / 60), 2) + ":" + PadStart(Digits(seconds % 60), 2)
  }

  /** Reads an `MM:SS` text back: a minutes field, a colon, a two-digit seconds field. */
  function ParseTime(t: string): Option<nat> {
    if |t| < 5 || t[|t| - 3] != ':' then None
    else ParseFields(t[..|t| - 3], t[|t| - 2..])
  }

  /** The seconds denoted by a minutes field and a seconds field below 60. */
  function ParseFields(mm: string, ss: string): Option<nat> {
    if AllDigits(mm) && AllDigits(ss) && DecimalValue(ss) < 60 then
      Some(DecimalValue(mm) * 60 + DecimalValue(ss))
    else None
  }

  lemma {:induction false} DigitsValue(n: nat)
    ensures DecimalValue(Digits(n)) == n
  {
    if n >= 10 {
      var s := Digits(n);
      assert s[..|s| - 1] == Digits(n / 10);
      DigitsValue(n / 10);
    }
  }

  /** Leading zeros do not change the value of a digit string. */
  lemma {:induction false} LeadingZeroValue(s: string)
    requires AllDigits(s)
    ensures AllDigits("0" + s) && DecimalValue("0" + s) == DecimalValue(s)
  {
    var z := "0" + s;
    assert AllDigits(z) by {
      forall i | 0 <= i < |z| ensures IsDigit(z[i]) {
        if i > 0 { assert z[i] == s[i - 1]; }
      }
    }
    if s != [] {
      var init := s[..|s| - 1];
      assert AllDigits(init) by {
        forall i | 0 <= i < |init| ensures IsDigit(init[i]) {
          assert init[i] == s[i];
        }
      }
      LeadingZeroValue(init);
      assert z[..|z| - 1] == "0" + init;
    }
  }

  lemma PadStartValue(s: string, width: nat)
    requires AllDigits(s)
    ensures AllDigits(PadStart(s, width)) && DecimalValue(PadStart(s, width)) == DecimalValue(s)
  {
    if |s| < width {
      ZerosValue(width - |s|, s);
    }
  }

  lemma {:induction false} ZerosValue(n: nat, s: string)
    requires AllDigits(s)
    ensures AllDigits(Zeros(n) + s) && DecimalValue(Zeros(n) + s) == DecimalValue(s)
  {
    if n > 0 {
      var z := "0" + s;
      LeadingZeroValue(s);
      ZerosValue(n - 1, z);
      assert Zeros(n) + s == Zeros(n - 1) + z;
    } else {
      assert Zeros(n) + s == s;
    }
  }

  /** Reading back a minutes field, a colon and a two-digit seconds field. */
  lemma ParseJoined(mm: string, ss: string)
    requires |mm| >= 2 && AllDigits(mm) && |ss| == 2 && AllDigits(ss) && DecimalValue(ss) < 60
    ensures ParseTime(mm + ":" + ss) == Some(DecimalValue(mm) * 60 + DecimalValue(ss))
  {
    var t := mm + ":" + ss;
    JoinedSlices(mm, ss);
    ParseTimeUnfold(t);
    ParseFieldsDigits(mm, ss);
  }

  lemma JoinedSlices(mm: string, ss: string)
    requires |mm| >= 2 && |ss| == 2
    ensures var t := mm + ":" + ss; t[..|t| - 3] == mm && t[|t| - 3] == ':' && t[|t| - 2..] == ss
  {
  }

  lemma ParseTimeUnfold(t: string)
    requires |t| >= 5 && t[|t| - 3] == ':'
    ensures ParseTime(t) == ParseFields(t[..|t| - 3], t[|t| - 2..])
  {
  }

  lemma ParseFieldsDigits(mm: string, ss: string)
    requires AllDigits(mm) && AllDigits(ss) && DecimalValue(ss) < 60
    ensures ParseFields(mm, ss) == Some(DecimalValue(mm) * 60 + DecimalValue(ss))
  {
  }

  /**
   * The countdown text has the `MM:SS` shape: a minutes field of at least
   * two digits (unbounded above 59), a colon, and two seconds digits; the
   * fields denote `seconds / 60` and `seconds % 60`.
   */
  lemma FormatTimeFields(seconds: nat)
    ensures TimeFields(FormatTime(seconds), PadStart(Digits(seconds / 60), 2), PadStart(Digits(seconds % 60), 2), seconds)
  {
    PadStartValue(Digits(seconds / 60), 2);
    PadStartValue(Digits(seconds % 60), 2);
    DigitsValue(seconds / 60);
    DigitsValue(seconds % 60);
  }

  /** Reading the countdown text back gives the remaining seconds: `m * 60 + s == n`. */
  lemma ParseFormatTime(seconds: nat)
    ensures ParseTime(FormatTime(seconds)) == Some(seconds)
  {
    var t := FormatTime(seconds);
    var mm, ss := PadStart(Digits(seconds / 60), 2), PadStart(Digits(seconds % 60), 2);
    FormatTimeFields(seconds);
    assert TimeFields(t, mm, ss, seconds);
    ParseFieldsBack(t, mm, ss, seconds);
  }

  /**
   * `t` is `mm:ss` with a minutes field of at least two digits denoting
   * `seconds / 60` and a two-digit seconds field denoting `seconds % 60`.
   */
  predicate TimeFields(t: string, mm: string, ss: string, seconds: nat) {
    && t == mm + ":" + ss
    && |mm| >= 2 && AllDigits(mm) && DecimalValue(mm) == seconds / 60
    && |ss| == 2 && AllDigits(ss) && DecimalValue(ss) == seconds % 60 < 60
  }

  lemma ParseFieldsBack(t: string, mm: string, ss: string, seconds: nat)
    requires TimeFields(t, mm, ss, seconds)
    ensures ParseTime(t) == Some(seconds)
  {
    ParseJoined(mm, ss);
  }

  /** Distinct remaining times are shown as distinct texts. */
  lemma FormatTimeInjective(a: nat, b: nat)
    requires FormatTime(a) == FormatTime(b)
    ensures a == b
  {
    ParseFormatTime(a);
    ParseFormatTime(b);
  }

  /** The full exam duration reads `60:00`; minutes are not wrapped at 60. */
  lemma FormatTimeFullHour()
    ensures FormatTime(3600) == "60:00"
  {
    assert Digits(60) == "60";
    assert Digits(0) == "0";
  }

  /**
   * The progress-bar width `(index + 1) / length * 100`, or 0 for an empty
   * bank, truncated to an integer.
   */
  function Progress(index: nat, length: nat): nat {
    if length > 0 then (index + 1) * 100 / length else 0
  }

  /**
   * The bar is empty for an empty bank; otherwise it is the floor of the
   * exact ratio, at most 100 while the index is inside the bank, and full
   * exactly at the last section.
   */
  lemma ProgressBounds(index: nat, length: nat)
    ensures length == 0 ==> Progress(index, length) == 0
    ensures length > 0 ==>
      Progress(index, length) * length <= (index + 1) * 100 < (Progress(index, length) + 1) * length
    ensures index < length ==> Progress(index, length) <= 100
    ensures index < length ==> (Progress(index, length) == 100 <==> index == length - 1)
  {
    if length > 0 {
      var x := (index + 1) * 100;
      var p, r := x / length, x % length;
      assert x == length * p + r && 0 <= r < length;
      assert Progress(index, length) == p;
      if index < length {
        MulAtLeast(100, length, index + 1);
        DivMonotone(x, length * 100, length);
        DivUnique(length * 100, length, 100, 0);
        if index == length - 1 {
          assert x == length * 100;
        } else {
          assert x <= length * 100 - 100;
        }
      }
    }
  }

  /** The bar never shrinks when moving forward. */
  lemma ProgressMonotone(i: nat, j: nat, length: nat)
    requires i <= j
    ensures Progress(i, length) <= Progress(j, length)
  {
    if length > 0 {
      MulAtLeast(100, j + 1, i + 1);
      DivMonotone((i + 1) * 100, (j + 1) * 100, length);
    }
  }
}
