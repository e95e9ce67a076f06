// The string formatters of the date utilities: `formatDateYYYYMMDD`,
// `formatTimeHHMM` and `formatDateTime`, with the decimal conversion and
// the two-digit padding they are built from, and parsers that read their
// output back.

module DateFormat {
  import opened Common
  import opened DateUtils

  predicate IsDigit(c: char) { '0' <= c <= '9' }

  predicate AllDigits(s: string) {
    forall i :: 0 <= i < |s| ==> IsDigit(s[i])
  }

  function DigitChar(d: int): (c: char)
    requires 0 <= d < 10
    ensures IsDigit(c) && c as int - '0' as int == d
  {
    ('0' as int + d) as char
  }

  function DigitValue(c: char): (d: int)
    requires IsDigit(c)
    ensures 0 <= d < 10 && DigitChar(d) == c
  {
    c as int - '0' as int
  }

  function Pow10(k: nat): (r: nat)
    ensures r >= 1
  {
    if k == 0 then 1 else 10 * Pow10(k - 1)
  }

  /** `String(n)` for a non-negative integer: its decimal digits, most
      significant first, with no leading zero. */
  function NatToString(n: nat): (r: string)
    ensures |r| >= 1 && AllDigits(r)
    ensures r[0] == '0' ==> n == 0
  {
    if n < 10 then [DigitChar(n)] else NatToString(n / 10) + [DigitChar(n % 10)]
  }

  /** `String(i)` for any integer: a minus sign before the digits of a
      negative number. */
  function IntToString(i: int): (r: string)
    ensures |r| >= 1
    ensures i >= 0 <==> IsDigit(r[0])
    ensures i < 0 <==> r[0] == '-'
  {
    if i < 0 then "-" + NatToString(-i) else NatToString(i)
  }

  /** The value of a string of decimal digits. */
  function ParseNat(s: string): nat
    requires AllDigits(s)
  {
    if |s| == 0 then 0 else ParseNat(s[..|s| - 1]) * 10 + DigitValue(s[|s| - 1])
  }

  /** Reading the digits back gives the number. */
  lemma {:induction false} ParseNatToString(n: nat)
    ensures ParseNat(NatToString(n)) == n
  {
    var r := NatToString(n);
    if n >= 10 {
      var p := NatToString(n / 10);
      assert r[..|r| - 1] == p;
      ParseNatToString(n / 10);
    }
  }

  /** A leading zero does not change the value. */
  lemma {:induction false} ParseLeadingZero(s: string)
    requires AllDigits(s)
    ensures AllDigits("0" + s) && ParseNat("0" + s) == ParseNat(s)
  {
    var z := "0" + s;
    if |s| > 0 {
      assert z[..|z| - 1] == "0" + s[..|s| - 1];
      ParseLeadingZero(s[..|s| - 1]);
    }
  }

  lemma DivTen(n: nat, p: nat)
    ensures n / 10 < p <==> n < 10 * p
  {
  }

  /** The decimal form has at most `k` digits exactly when the number is
      below 10 to the `k`. */
  lemma {:induction false} NatToStringLength(n: nat, k: nat)
    requires k >= 1
    ensures |NatToString(n)| <= k <==> n < Pow10(k)
  {
    if k > 1 {
      assert Pow10(k) == 10 * Pow10(k - 1);
      if n >= 10 {
        NatToStringLength(n / 10, k - 1);
        DivTen(n, Pow10(k - 1));
      } else {
        PowMonotone(k);
      }
    } else if n >= 10 {
      PowMonotone(k);
    }
  }

  lemma {:induction false} PowMonotone(k: nat)
    requires k >= 1
    ensures Pow10(k) >= 10
  {
    if k > 1 {
      PowMonotone(k - 1);
    }
  }

  /** `padStart(target, fill)` with a one-character fill: the string itself
      when it is long enough, and otherwise the fill repeated in front of it
      up to the target length. */
  function PadStart(s: string, target: nat, fill: char): (r: string)
    decreases target - |s|
    ensures |r| == if |s| >= target then |s| else target
    ensures r[|r| - |s|..] == s
    ensures forall i :: 0 <= i < |r| - |s| ==> r[i] == fill
  {
    if |s| >= target then s else PadStart([fill] + s, target, fill)
  }

  /** `String(n).padStart(2, '0')`: at least two characters, and below 100
      exactly two digits that read back as the number. */
  function Pad2(n: nat): (r: string)
    ensures |r| >= 2
    ensures n < 100 ==> |r| == 2 && AllDigits(r) && ParseNat(r) == n
  {
    var s := NatToString(n);
    if n < 100 then
      NatToStringLength(n, 1);
      NatToStringLength(n, 2);
      assert Pow10(2) == 100;
      ParseNatToString(n);
      if n < 10 then
        assert PadStart(s, 2, '0') == PadStart("0" + s, 2, '0') == "0" + s;
        ParseLeadingZero(s);
        PadStart(s, 2, '0')
      else
        PadStart(s, 2, '0')
    else
      PadStart(s, 2, '0')
  }

  /** `formatDateYYYYMMDD`: the year, the month from 1 and the day of the
      month, joined by dashes, month and day padded to two digits. For a
      four-digit year that is ten characters reading back as those fields. */
  function FormatDate(t: int): (r: string)
    ensures 1000 <= Year(t) <= 9999 ==>
              |r| == 10 && ParseDate(r) == Some((Year(t), Month(t) + 1, Date(t)))
  {
    FieldBounds(t);
    DateString(Year(t), Month(t) + 1, Date(t))
  }

  lemma FieldBounds(t: int)
    ensures 0 <= Month(t) < 12 && 1 <= Date(t) <= 31
  {
    var c := CivilOf(Day(t));
  }

  /** A year, a month and a day joined by dashes, month and day padded to
      two digits. A four-digit year with a month and day below 100 gives ten
      characters that read back as the three values. */
  function DateString(year: int, month: nat, date: nat): (r: string)
    ensures 1000 <= year <= 9999 && month < 100 && date < 100 ==>
              |r| == 10 && ParseDate(r) == Some((year, month, date))
  {
    if 1000 <= year <= 9999 && month < 100 && date < 100 then
      NatToStringLength(year, 4);
      NatToStringLength(year, 3);
      assert Pow10(3) == 1000 && Pow10(4) == 10000;
      ParseNatToString(year);
      ParseDateJoined(NatToString(year), Pad2(month), Pad2(date));
      IntToString(year) + "-" + Pad2(month) + "-" + Pad2(date)
    else
      IntToString(year) + "-" + Pad2(month) + "-" + Pad2(date)
  }

  /** `formatTimeHHMM`: hours and minutes, each padded to two digits; always
      five characters that read back as the hours and minutes. */
  function FormatTime(t: int): (r: string)
    ensures |r| == 5 && ParseTime(r) == Some((Hours(t), Minutes(t)))
  {
    ParseTimeJoined(Pad2(Hours(t)), Pad2(Minutes(t)));
    Pad2(Hours(t)) + ":" + Pad2(Minutes(t))
  }

  /** `formatDateTime`: the date, a space, the time. For a four-digit year
      the sixteen characters split at the space into a date and a time that
      read back as the instant's fields. */
  function FormatDateTime(t: int): (r: string)
    ensures 1000 <= Year(t) <= 9999 ==>
              && |r| == 16 && r[10] == ' '
              && ParseDate(r[..10]) == Some((Year(t), Month(t) + 1, Date(t)))
              && ParseTime(r[11..]) == Some((Hours(t), Minutes(t)))
  {
    JoinAtSpace(FormatDate(t), FormatTime(t))
  }

  /** A ten-character date and a time joined by a space split back at the
      space. */
  function JoinAtSpace(date: string, time: string): (r: string)
    ensures |r| == |date| + 1 + |time|
    ensures |date| == 10 ==> r[10] == ' ' && r[..10] == date && r[11..] == time
  {
    var r := date + " " + time;
    assert r[|date|] == ' ' && r[..|date|] == date && r[|date| + 1..] == time;
    r
  }

  /** Reads `YYYY-MM-DD` back into its year, month (from 1) and day. */
  function ParseDate(s: string): Option<(int, int, int)> {
    if |s| == 10 && s[4] == '-' && s[7] == '-'
       && AllDigits(s[..4]) && AllDigits(s[5..7]) && AllDigits(s[8..])
    then Some((ParseNat(s[..4]), ParseNat(s[5..7]), ParseNat(s[8..])))
    else None
  }

  /** Reads `HH:MM` back into hours and minutes. */
  function ParseTime(s: string): Option<(int, int)> {
    if |s| == 5 && s[2] == ':' && AllDigits(s[..2]) && AllDigits(s[3..])
    then Some((ParseNat(s[..2]), ParseNat(s[3..])))
    else None
  }

  /** Four digits, two digits and two digits joined by dashes read back
      as their values. */
  lemma ParseDateJoined(y: string, m: string, d: string)
    requires |y| == 4 && |m| == 2 && |d| == 2
    requires AllDigits(y) && AllDigits(m) && AllDigits(d)
    ensures ParseDate(y + "-" + m + "-" + d) == Some((ParseNat(y), ParseNat(m), ParseNat(d)))
  {
    var r := y + "-" + m + "-" + d;
    assert r[..4] == y && r[5..7] == m && r[8..] == d;
  }

  /** Two digits and two digits joined by a colon read back as their
      values. */
  lemma ParseTimeJoined(h: string, m: string)
    requires |h| == 2 && |m| == 2 && AllDigits(h) && AllDigits(m)
    ensures ParseTime(h + ":" + m) == Some((ParseNat(h), ParseNat(m)))
  {
    var r := h + ":" + m;
    assert r[..2] == h && r[3..] == m;
  }
}
