/** Wall-clock times as the chat service prints them.

    Both the write task of a session (client.go) and the message-history
    query (repository.go) render a `time.Time` with
    `fmt.Sprintf("%d/%02d/%02d %02d:%02d:%02d", year, month, day, hour,
    minute, second)`. A time here is the calendar reading the Go `time`
    package would give; how an instant becomes that reading (time zones,
    the calendar) belongs to the Go runtime and is not modelled. */
module ChatTime {
  import opened Base

  datatype DateTime = DateTime(year: int, month: nat, day: nat,
                               hour: nat, minute: nat, second: nat, nanosecond: nat)

  /** The ranges `time.Time`'s accessors return values in. */
  predicate WellFormed(t: DateTime) {
    && 1 <= t.month <= 12
    && 1 <= t.day <= 31
    && t.hour < 24
    && t.minute < 60
    && t.second < 60
    && t.nanosecond < 1_000_000_000
  }

  type Time = t: DateTime | WellFormed(t) witness DateTime(1970, 1, 1, 0, 0, 0, 0)

  /** `a` is not after `b`: chronological order of calendar readings. */
  predicate NotAfter(a: Time, b: Time) {
    if a.year != b.year then a.year < b.year
    else if a.month != b.month then a.month < b.month
    else if a.day != b.day then a.day < b.day
    else if a.hour != b.hour then a.hour < b.hour
    else if a.minute != b.minute then a.minute < b.minute
    else if a.second != b.second then a.second < b.second
    else a.nanosecond <= b.nanosecond
  }

  lemma NotAfterTotal(a: Time, b: Time)
    ensures NotAfter(a, b) || NotAfter(b, a)
  {
  }

  lemma NotAfterTransitive(a: Time, b: Time, c: Time)
    requires NotAfter(a, b) && NotAfter(b, c)
    ensures NotAfter(a, c)
  {
  }

  // ---------------------------------------------------------------------
  // Decimal digits

  predicate IsDigit(c: char) {
    '0' <= c <= '9'
  }

  predicate AllDigits(s: string) {
    forall i :: 0 <= i < |s| ==> IsDigit(s[i])
  }

  function Digit(d: nat): (c: char)
    requires d < 10
    ensures IsDigit(c)
  {
    ('0' as int + d) as char
  }

  function DigitValue(c: char): (d: nat)
    requires IsDigit(c)
    ensures d < 10
    ensures Digit(d) == c
  {
    c as int - '0' as int
  }

  /** `%d` of a natural number: no padding, no leading zeros. */
  function NatDecimal(n: nat): (r: string)
    ensures 1 <= |r|
    ensures AllDigits(r)
    ensures n < 10 <==> |r| == 1
  {
    if n < 10 then [Digit(n)] else NatDecimal(n / 10) + [Digit(n % 10)]
  }

  /** The value of a string of decimal digits. */
  function ParseNat(s: string): nat
    requires AllDigits(s)
  {
    if s == [] then 0 else ParseNat(s[..|s| - 1]) * 10 + DigitValue(s[|s| - 1])
  }

  lemma {:induction false} ParseNatDecimal(n: nat)
    ensures ParseNat(NatDecimal(n)) == n
  {
    var s := NatDecimal(n);
    if n >= 10 {
      assert s[..|s| - 1] == NatDecimal(n / 10);
      ParseNatDecimal(n / 10);
    }
  }

  lemma NatDecimalFourDigits(n: nat)
    requires 1000 <= n < 10000
    ensures |NatDecimal(n)| == 4
  {
    assert |NatDecimal(n / 10)| == 3 by {
      assert |NatDecimal(n / 100)| == 2 by {
        assert |NatDecimal(n / 1000)| == 1;
      }
    }
  }

  /** `%d` of an integer: a minus sign for a negative value, then its
      magnitude unpadded. */
  function IntDecimal(y: int): (r: string)
    ensures 1 <= |r|
  {
    if y < 0 then "-" + NatDecimal(-y) else NatDecimal(y)
  }

  function ParseInt(s: string): Option<int> {
    if 2 <= |s| && s[0] == '-' && AllDigits(s[1..]) then Some(-(ParseNat(s[1..]) as int))
    else if 1 <= |s| && AllDigits(s) then Some(ParseNat(s))
    else None
  }

  lemma IntDecimalRoundTrip(y: int)
    ensures ParseInt(IntDecimal(y)) == Some(y)
  {
    var s := IntDecimal(y);
    if y < 0 {
      assert s[1..] == NatDecimal(-y);
      ParseNatDecimal(-y);
    } else {
      assert !IsDigit('-');
      ParseNatDecimal(y);
    }
  }

  /** `%02d` of a value below 100: exactly two digits, zero-padded. */
  function Pad2(n: nat): (r: string)
    requires n < 100
    ensures |r| == 2 && AllDigits(r)
    ensures Value2(r) == n
  {
    [Digit(n / 10), Digit(n % 10)]
  }

  function Value2(s: string): nat
    requires |s| == 2 && AllDigits(s)
  {
    DigitValue(s[0]) * 10 + DigitValue(s[1])
  }

  /** The part of the rendering after the year: `/MM/DD HH:MM:SS`. */
  function DateClock(t: Time): (r: string)
    ensures |r| == 15
  {
    "/" + Pad2(t.month) + "/" + Pad2(t.day) + " " + Pad2(t.hour) + ":" + Pad2(t.minute) + ":" + Pad2(t.second)
  }

  /** The `year/MM/DD HH:MM:SS` rendering of client.go:129-131 and
      repository.go:143-145. Everything after the year has a fixed
      layout of 15 characters. */
  function FormatTime(t: Time): (r: string)
    ensures |r| == |IntDecimal(t.year)| + 15
    ensures r[..|r| - 15] == IntDecimal(t.year)
  {
    IntDecimal(t.year) + DateClock(t)
  }

  /** Reads a rendering back: the inverse of FormatTime, up to the
      nanoseconds that the rendering drops. */
  function ParseTime(s: string): Option<Time> {
    if |s| < 16 then None
    else
      var y := ParseInt(s[..|s| - 15]);
      var f := s[|s| - 15..];
      if y.None? || f[0] != '/' || f[3] != '/' || f[6] != ' ' || f[9] != ':' || f[12] != ':' then None
      else if !(AllDigits(f[1..3]) && AllDigits(f[4..6]) && AllDigits(f[7..9])
                && AllDigits(f[10..12]) && AllDigits(f[13..15])) then None
      else
        var t := DateTime(y.value, Value2(f[1..3]), Value2(f[4..6]), Value2(f[7..9]),
                          Value2(f[10..12]), Value2(f[13..15]), 0);
        if WellFormed(t) then Some(t) else None
  }

  lemma DateClockFields(t: Time)
    ensures var f := DateClock(t);
      && f[0] == '/' && f[3] == '/' && f[6] == ' ' && f[9] == ':' && f[12] == ':'
      && f[1..3] == Pad2(t.month) && f[4..6] == Pad2(t.day) && f[7..9] == Pad2(t.hour)
      && f[10..12] == Pad2(t.minute) && f[13..15] == Pad2(t.second)
  {
    var date := "/" + Pad2(t.month) + "/" + Pad2(t.day) + " ";
    var clock := Pad2(t.hour) + ":" + Pad2(t.minute) + ":" + Pad2(t.second);
    var f := DateClock(t);
    assert f == date + clock;
    assert f[1..3] == date[1..3] == Pad2(t.month);
    assert f[4..6] == date[4..6] == Pad2(t.day);
    assert f[7..9] == clock[0..2] == Pad2(t.hour);
    assert f[10..12] == clock[3..5] == Pad2(t.minute);
    assert f[13..15] == clock[6..8] == Pad2(t.second);
  }

  /** The rendering loses only the nanoseconds. */
  lemma FormatTimeRoundTrip(t: Time)
    ensures ParseTime(FormatTime(t)) == Some(t.(nanosecond := 0))
  {
    var s := FormatTime(t);
    assert s[|s| - 15..] == DateClock(t);
    IntDecimalRoundTrip(t.year);
    DateClockFields(t);
  }

  /** With a four-digit year the rendering is exactly 19 characters. */
  lemma FormatTimeLength(t: Time)
    requires 1000 <= t.year <= 9999
    ensures |FormatTime(t)| == 19
  {
    NatDecimalFourDigits(t.year);
  }
}
