/** What the command handlers do with the lines an operator types, and the 32-bit
    window-length check as the firmware computes it. */
module CommandLaws {
  import opened CTypes
  import opened Clock
  import opened ClockLaws
  import opened Uart
  import opened Commands

  // ------------------------------------------------------- typed lines

  /** A typed date-time block holds spaces and digits only, so no line feed. */
  lemma FormatHasNoLineFeed(t: DateTime)
    requires Formattable(t)
    ensures LF !in FormatDateTime(t)
  {
    var f := FormatDateTime(t);
    FormatFields(t);
    forall i | 0 <= i < |f|
      ensures f[i] != LF
    {
      if IsSeparatorOffset(i) {
        assert f[i] == SPACE;
      } else {
        assert IsDigit(f[i]);
      }
    }
  }

  /** SetClock followed by a typed date-time sets the clock to it, whatever ends the line. */
  lemma SetClockReadsTypedTime(t: DateTime, rest: seq<byte>, junk: seq<byte>)
    requires Formattable(t) && |junk| >= 24
    ensures ClockRead(FormatDateTime(t) + rest, junk) == t
  {
    var f := FormatDateTime(t);
    var q := f + rest;
    assert q[..DateTimeLength] == f;
    FormatHasNoLineFeed(t);
    ReadsPastEndFree(q, LF, 24, DateTimeLength);
    var n := LineRead(q, 24);
    var b := Filled(q, junk[..24], n);
    assert b[..DateTimeLength] == q[..n][..DateTimeLength] == f;
    assert b == f + b[DateTimeLength..];
    ParseFormatRoundTrip(t, b[DateTimeLength..]);
  }

  /** SetAlarm followed by two typed date-times reads exactly those as start and stop. */
  lemma SetAlarmReadsTypedWindow(start: DateTime, stop: DateTime, rest: seq<byte>, junk: seq<byte>)
    requires Formattable(start) && Formattable(stop) && |junk| >= 48
    ensures WindowRead(FormatDateTime(start) + FormatDateTime(stop) + rest, junk) == (start, stop)
  {
    var f := FormatDateTime(start);
    var g := FormatDateTime(stop);
    var q := f + g + rest;
    var m := 2 * DateTimeLength;
    var n := LineRead(q, 48);
    assert n >= m by {
      assert q[..m] == f + g;
      FormatHasNoLineFeed(start);
      FormatHasNoLineFeed(stop);
      ReadsPastEndFree(q, LF, 48, m);
    }
    var b := Filled(q, junk[..48], n);
    assert b == f + g + b[m..] by {
      assert b[..m] == q[..n][..m] == f + g;
      assert b == b[..m] + b[m..];
    }
    WindowOfTypedBlocks(start, stop, b[m..]);
  }

  /** Two typed blocks at the head of the buffer are the window SetAlarm parses. */
  lemma WindowOfTypedBlocks(start: DateTime, stop: DateTime, tail: seq<byte>)
    requires Formattable(start) && Formattable(stop)
    ensures WindowOf(FormatDateTime(start) + FormatDateTime(stop) + tail) == (start, stop)
  {
    var f := FormatDateTime(start);
    var g := FormatDateTime(stop);
    var b := f + g + tail;
    assert b == f + (g + tail);
    assert b[DateTimeLength..] == g + tail;
    ParseFormatRoundTrip(start, g + tail);
    ParseFormatRoundTrip(stop, tail);
  }

  /** SetTolTo followed by a two-digit percentage and CR LF stores `100 - p`. */
  lemma ToleranceOfTwoDigits(d1: byte, d2: byte, rest: seq<byte>, junk: seq<byte>)
    requires IsDigit(d1) && IsDigit(d2) && |junk| >= 4
    ensures ToleranceRead([SPACE, d1, d2, CR, LF] + rest, junk) == 100 - DigitsValue([d1, d2])
  {
    var q := [SPACE, d1, d2, CR, LF] + rest;
    assert Min(4, |q|) == 4 && q[..4] == [SPACE, d1, d2, CR];
    NoEndByteRead(q, LF, 4);
    var b := Filled(q, junk[..4], 4);
    assert b[1..1 + Max(4 - 2, 0)] == [d1, d2] by {
      assert b == q[..4];
    }
    assert 0 <= DigitsValue([d1, d2]) < 100 by {
      DigitRun([d1, d2], 0, 2);
      assert [d1, d2][0..2] == [d1, d2];
      assert Pow10(2) == 100 by { assert Pow10(1) == 10; }
    }
  }

  /** SetTolTo followed by a one-digit percentage and CR LF stores `100 - p`. */
  lemma ToleranceOfOneDigit(d: byte, rest: seq<byte>, junk: seq<byte>)
    requires IsDigit(d) && |junk| >= 4
    ensures ToleranceRead([SPACE, d, CR, LF] + rest, junk) == 100 - (d as int - '0' as int)
  {
    var q := [SPACE, d, CR, LF] + rest;
    FirstEndByte(q, LF, 3, 4);
    assert ReadUntilOutcome(q, LF, 1, 4) == (3, 4);
    var b := Filled(q, junk[..4], 4);
    assert b[1..2] == [d];
    assert DigitsValue([d]) == d as int - '0' as int by {
      assert [d][..0] == [];
    }
  }

  /** The read returns the index of the line feed, not a length: a two-digit percentage
      ended by a bare line feed loses its second digit. */
  lemma ToleranceWithBareLineFeed(d1: byte, d2: byte, rest: seq<byte>, junk: seq<byte>)
    requires IsDigit(d1) && IsDigit(d2) && |junk| >= 4
    ensures ToleranceRead([SPACE, d1, d2, LF] + rest, junk) == 100 - (d1 as int - '0' as int)
  {
    var q := [SPACE, d1, d2, LF] + rest;
    FirstEndByte(q, LF, 3, 4);
    assert ReadUntilOutcome(q, LF, 1, 4) == (3, 4);
    var b := Filled(q, junk[..4], 4);
    assert b[1..2] == [d1];
    assert DigitsValue([d1]) == d1 as int - '0' as int by {
      assert [d1][..0] == [];
    }
  }

  // -------------------------------------------- the window check as written

  /** SetAlarm's checks as the source computes them: the window length is taken in a
      32-bit `long`, where it wraps. */
  function WindowVerdictAsWritten(now: DateTime, start: DateTime, stop: DateTime): (r: Option<Rejection>)
    ensures r == None <==>
      TimeCompare(now, start) && TimeCompare(start, stop) && TimeDifferenceSec32(start, stop) <= MaxAlarmWindow
    ensures r == Some(StartNotAfterNow) <==> !TimeCompare(now, start)
    ensures r == Some(StopNotAfterStart) <==> TimeCompare(now, start) && !TimeCompare(start, stop)
    ensures r == Some(WindowTooLong) ==> TimeDifferenceSec32(start, stop) > MaxAlarmWindow
  {
    if !TimeCompare(now, start) then Some(StartNotAfterNow)
    else if !TimeCompare(start, stop) then Some(StopNotAfterStart)
    else if TimeDifferenceSec32(start, stop) > MaxAlarmWindow then Some(WindowTooLong)
    else None
  }

  /** While the exact length fits 32 bits the two checks agree. */
  lemma VerdictsAgreeWithin32Bits(now: DateTime, start: DateTime, stop: DateTime)
    requires -0x8000_0000 <= TimeDifferenceSec(start, stop) < 0x8000_0000
    ensures WindowVerdictAsWritten(now, start, stop) == WindowVerdict(now, start, stop)
  {
  }

  /** A window of 136 years and 30 seconds, typed as two ordinary date-times, passes the
      check as written but is too long for the exact check. */
  lemma LongWindowPassesAsWritten(now: DateTime, rest: seq<byte>, junk: seq<byte>)
    requires TimeCompare(now, LongWindowStart) && |junk| >= 48
    ensures var q := FormatDateTime(LongWindowStart) + FormatDateTime(LongWindowStop) + rest;
      WindowRead(q, junk) == (LongWindowStart, LongWindowStop) &&
      WindowVerdictAsWritten(now, LongWindowStart, LongWindowStop) == None &&
      WindowVerdict(now, LongWindowStart, LongWindowStop) == Some(WindowTooLong)
  {
    LongWindowWraps();
    SetAlarmReadsTypedWindow(LongWindowStart, LongWindowStop, rest, junk);
  }
}
