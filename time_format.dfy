/**
 * The time text shown by the widget: hours and minutes, each written in
 * decimal, left-padded with '0' to two characters and joined by ':'.
 */
module TimeFormat {

  predicate IsDigit(c: char)
  {
    '0' <= c <= '9'
  }

  /** The decimal digit character for 0..9. */
  function Digit(d: nat): (c: char)
    requires d < 10
    ensures IsDigit(c)
  {
    (48 + d) as char
  }

  /** The numeric value of a digit character. */
  function DigitValue(c: char): (d: nat)
    requires IsDigit(c)
    ensures d < 10 && Digit(d) == c
  {
    (c as int - 48) as nat
  }

  /** A number's decimal text, most significant digit first, without leading zeros. */
  function NatToString(n: nat): (s: string)
    ensures 1 <= |s|
    ensures forall k :: 0 <= k < |s| ==> IsDigit(s[k])
    decreases n
  {
    if n < 10 then [Digit(n)] else NatToString(n / 10) + [Digit(n % 10)]
  }

  /** The value of a string of decimal digits. */
  function ValueOf(s: string): nat
    requires forall k :: 0 <= k < |s| ==> IsDigit(s[k])
  {
    if s == [] then 0 else 10 * ValueOf(s[..|s| - 1]) + DigitValue(s[|s| - 1])
  }

  /** Reading back the decimal text of a number gives the number. */
  lemma {:induction false} NatToStringRoundTrip(n: nat)
    ensures ValueOf(NatToString(n)) == n
    decreases n
  {
    var s := NatToString(n);
    if n >= 10 {
      NatToStringRoundTrip(n / 10);
      assert s[..|s| - 1] == NatToString(n / 10);
    }
  }

  /** `padStart(2, '0')`: prefix zeros until the text is two characters long. */
  function PadStart2(s: string): (r: string)
    ensures |r| == if |s| < 2 then 2 else |s|
    ensures r[|r| - |s|..] == s
    ensures forall k :: 0 <= k < |r| - |s| ==> r[k] == '0'
  {
    if |s| >= 2 then s else seq(2 - |s|, _ => '0') + s
  }

  /** The hour and minute joined as `HH:MM`. */
  function FormatTime(hours: nat, minutes: nat): string
  {
    PadStart2(NatToString(hours)) + ":" + PadStart2(NatToString(minutes))
  }

  /** A number below 100 pads to its tens digit followed by its units digit. */
  lemma TwoDigits(n: nat)
    requires n < 100
    ensures PadStart2(NatToString(n)) == [Digit(n / 10), Digit(n % 10)]
  {
    if n >= 10 {
      assert NatToString(n / 10) == [Digit(n / 10)];
    }
  }

  /** A time of day written out from its four digits. */
  lemma FormatTimeDigits(hours: nat, minutes: nat)
    requires hours < 24 && minutes < 60
    ensures FormatTime(hours, minutes) ==
      [Digit(hours / 10), Digit(hours % 10), ':', Digit(minutes / 10), Digit(minutes % 10)]
  {
    TwoDigits(hours);
    TwoDigits(minutes);
    assert FormatTime(hours, minutes) ==
      [Digit(hours / 10), Digit(hours % 10)] + ":" + [Digit(minutes / 10), Digit(minutes % 10)];
  }

  /**
   * For a time of day the text has five characters: the two hour digits,
   * a colon and the two minute digits, each zero-padded.
   */
  lemma FormatTimeLayout(hours: nat, minutes: nat)
    requires hours < 24 && minutes < 60
    ensures var s := FormatTime(hours, minutes);
      |s| == 5 && s[2] == ':' &&
      s[0] == Digit(hours / 10) && s[1] == Digit(hours % 10) &&
      s[3] == Digit(minutes / 10) && s[4] == Digit(minutes % 10)
  {
    FormatTimeDigits(hours, minutes);
  }

  /** The hour and minute shown by an `HH:MM` text. */
  function ReadTime(s: string): (hm: (nat, nat))
    requires |s| == 5 && IsDigit(s[0]) && IsDigit(s[1]) && IsDigit(s[3]) && IsDigit(s[4])
    ensures hm.0 < 100 && hm.1 < 100
  {
    (10 * DigitValue(s[0]) + DigitValue(s[1]), 10 * DigitValue(s[3]) + DigitValue(s[4]))
  }

  /** The text of a time of day reads back as that time, so distinct times show distinct texts. */
  lemma FormatTimeRoundTrip(hours: nat, minutes: nat)
    requires hours < 24 && minutes < 60
    ensures var s := FormatTime(hours, minutes);
      |s| == 5 && IsDigit(s[0]) && IsDigit(s[1]) && IsDigit(s[3]) && IsDigit(s[4]) &&
      ReadTime(s) == (hours, minutes)
  {
    FormatTimeLayout(hours, minutes);
  }

  /** Nine past five, eleven at night and half past six. */
  lemma FormatTimeExamples()
    ensures FormatTime(9, 5) == "09:05"
    ensures FormatTime(23, 0) == "23:00"
    ensures FormatTime(6, 30) == "06:30"
  {
    FormatTimeDigits(9, 5);
    FormatTimeDigits(23, 0);
    FormatTimeDigits(6, 30);
  }
}
