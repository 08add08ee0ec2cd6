/** Properties of the clock arithmetic: the typed date-time block and its parse are
    inverse to each other, the day number counts days, "before" is a strict order,
    and elapsed seconds add up. */
module ClockLaws {
  import opened CTypes
  import opened Clock

  /** Parsing the typed block of a date-time gives that date-time back, whatever follows it. */
  lemma ParseFormatRoundTrip(t: DateTime, rest: seq<byte>)
    requires Formattable(t)
    ensures ParseDateTime(FormatDateTime(t) + rest) == t
  {
    var f := FormatDateTime(t);
    var b := f + rest;
    FormatFields(t);
    assert Pow10(4) == 10000 && Pow10(2) == 100 && Pow10(1) == 10 by { assert Pow10(3) == 1000; }
    assert DigitsValue(b[1..5]) == t.year by { SliceOfAppend(f, rest, 1, 5); DigitsValueOfPad(t.year, 4); }
    assert DigitsValue(b[6..8]) == t.month by { SliceOfAppend(f, rest, 6, 8); DigitsValueOfPad(t.month, 2); }
    assert DigitsValue(b[9..11]) == t.day by { SliceOfAppend(f, rest, 9, 11); DigitsValueOfPad(t.day, 2); }
    assert DigitsValue(b[12..13]) == t.dotw by { SliceOfAppend(f, rest, 12, 13); DigitsValueOfPad(t.dotw, 1); }
    assert DigitsValue(b[14..16]) == t.hour by { SliceOfAppend(f, rest, 14, 16); DigitsValueOfPad(t.hour, 2); }
    assert DigitsValue(b[17..19]) == t.min by { SliceOfAppend(f, rest, 17, 19); DigitsValueOfPad(t.min, 2); }
    assert DigitsValue(b[20..22]) == t.sec by { SliceOfAppend(f, rest, 20, 22); DigitsValueOfPad(t.sec, 2); }
  }

  /** A slice inside the first part of a concatenation is that slice of the first part. */
  lemma SliceOfAppend(a: seq<byte>, b: seq<byte>, lo: nat, hi: nat)
    requires lo <= hi <= |a|
    ensures (a + b)[lo..hi] == a[lo..hi]
  {
  }

  /** Every field of a block with digits in its digit fields fits its width, so no
      `int8_t`/`int16_t` store wraps. */
  lemma ParsedFieldsFit(buf: seq<byte>)
    requires DigitFields(buf)
    ensures Formattable(ParseDateTime(buf))
  {
    var t := ParseDateTime(buf);
    assert 0 <= t.year < 10000 by {
      assert IsDigit(buf[1]) && IsDigit(buf[2]) && IsDigit(buf[3]) && IsDigit(buf[4]);
      DigitRun(buf, 1, 5);
      assert Pow10(4) == 10000 by { assert Pow10(3) == 1000; assert Pow10(2) == 100; assert Pow10(1) == 10; }
    }
    assert 0 <= t.dotw < 10 by {
      assert IsDigit(buf[12]);
      DigitRun(buf, 12, 13);
      assert Pow10(1) == 10;
    }
    assert 0 <= t.month < 100 by { TwoDigitField(buf, 6); }
    assert 0 <= t.day < 100 by { TwoDigitField(buf, 9); }
    assert 0 <= t.hour < 100 by { TwoDigitField(buf, 14); }
    assert 0 <= t.min < 100 by { TwoDigitField(buf, 17); }
    assert 0 <= t.sec < 100 by { TwoDigitField(buf, 20); }
  }

  /** ... and each field is written back as it was typed. */
  lemma ParsedFieldsRewrite(buf: seq<byte>)
    requires DigitFields(buf)
    ensures Formattable(ParseDateTime(buf))
    ensures var t := ParseDateTime(buf);
      Pad(t.year, 4) == buf[1..5] && Pad(t.month, 2) == buf[6..8] && Pad(t.day, 2) == buf[9..11] &&
      Pad(t.dotw, 1) == buf[12..13] && Pad(t.hour, 2) == buf[14..16] && Pad(t.min, 2) == buf[17..19] &&
      Pad(t.sec, 2) == buf[20..22]
  {
    ParsedFieldsFit(buf);
    var t := ParseDateTime(buf);
    assert Pad(t.year, 4) == buf[1..5] by {
      assert IsDigit(buf[1]) && IsDigit(buf[2]) && IsDigit(buf[3]) && IsDigit(buf[4]);
      DigitRun(buf, 1, 5);
    }
    assert Pad(t.dotw, 1) == buf[12..13] by {
      assert IsDigit(buf[12]);
      DigitRun(buf, 12, 13);
    }
    assert Pad(t.month, 2) == buf[6..8] by { TwoDigitField(buf, 6); }
    assert Pad(t.day, 2) == buf[9..11] by { TwoDigitField(buf, 9); }
    assert Pad(t.hour, 2) == buf[14..16] by { TwoDigitField(buf, 14); }
    assert Pad(t.min, 2) == buf[17..19] by { TwoDigitField(buf, 17); }
    assert Pad(t.sec, 2) == buf[20..22] by { TwoDigitField(buf, 20); }
  }

  /** The offsets of the seven fields in a block laid out as `SetClockType` lays it out,
      whatever the fields hold. */
  lemma Layout(x1: seq<byte>, x2: seq<byte>, x3: seq<byte>, x4: seq<byte>, x5: seq<byte>, x6: seq<byte>, x7: seq<byte>)
    requires |x1| == 4 && |x2| == 2 && |x3| == 2 && |x4| == 1 && |x5| == 2 && |x6| == 2 && |x7| == 2
    ensures var f := [SPACE] + x1 + [SPACE] + x2 + [SPACE] + x3 + [SPACE] + x4 + [SPACE] + x5 + [SPACE] + x6 + [SPACE] + x7;
      f[1..5] == x1 && f[6..8] == x2 && f[9..11] == x3 && f[12..13] == x4 && f[14..16] == x5 &&
      f[17..19] == x6 && f[20..22] == x7 &&
      forall k :: 0 <= k < DateTimeLength && IsSeparatorOffset(k) ==> f[k] == SPACE
  {
  }

  /** Where each field sits in the typed block. */
  lemma FormatFields(t: DateTime)
    requires Formattable(t)
    ensures var f := FormatDateTime(t);
      f[1..5] == Pad(t.year, 4) && f[6..8] == Pad(t.month, 2) && f[9..11] == Pad(t.day, 2) &&
      f[12..13] == Pad(t.dotw, 1) && f[14..16] == Pad(t.hour, 2) && f[17..19] == Pad(t.min, 2) &&
      f[20..22] == Pad(t.sec, 2) &&
      forall k :: 0 <= k < DateTimeLength && IsSeparatorOffset(k) ==> f[k] == SPACE
  {
    Layout(Pad(t.year, 4), Pad(t.month, 2), Pad(t.day, 2), Pad(t.dotw, 1), Pad(t.hour, 2), Pad(t.min, 2), Pad(t.sec, 2));
  }

  /** Conversely, a block with digits in its digit fields is the typed block of what it
      parses to: the two agree on every digit, and entirely when the separators are spaces. */
  lemma FormatParseRoundTrip(buf: seq<byte>)
    requires DigitFields(buf)
    ensures Formattable(ParseDateTime(buf))
    ensures forall k :: 0 <= k < DateTimeLength && !IsSeparatorOffset(k) ==>
              FormatDateTime(ParseDateTime(buf))[k] == buf[k]
    ensures (forall k :: 0 <= k < DateTimeLength && IsSeparatorOffset(k) ==> buf[k] == SPACE) ==>
              FormatDateTime(ParseDateTime(buf)) == buf[..DateTimeLength]
  {
    ParsedFieldsRewrite(buf);
    var t := ParseDateTime(buf);
    var f := FormatDateTime(t);
    FormatFields(t);
    forall k | 0 <= k < DateTimeLength && !IsSeparatorOffset(k)
      ensures f[k] == buf[k]
    {
      if k < 5 { assert f[k] == f[1..5][k - 1] && buf[k] == buf[1..5][k - 1]; }
      else if k < 8 { assert f[k] == f[6..8][k - 6] && buf[k] == buf[6..8][k - 6]; }
      else if k < 11 { assert f[k] == f[9..11][k - 9] && buf[k] == buf[9..11][k - 9]; }
      else if k < 13 { assert f[k] == f[12..13][k - 12] && buf[k] == buf[12..13][k - 12]; }
      else if k < 16 { assert f[k] == f[14..16][k - 14] && buf[k] == buf[14..16][k - 14]; }
      else if k < 19 { assert f[k] == f[17..19][k - 17] && buf[k] == buf[17..19][k - 17]; }
      else { assert f[k] == f[20..22][k - 20] && buf[k] == buf[20..22][k - 20]; }
    }
  }

  /** The bytes of the usage example of SetClock. */
  const SetClockUsage: seq<byte> :=
    [32, 50, 48, 50, 51, 32, 48, 49, 32, 49, 52, 32, 54, 32, 49, 53, 32, 52, 53, 32, 48, 48]

  lemma SetClockUsageBytes()
    ensures Ascii(" 2023 01 14 6 15 45 00") == SetClockUsage
  {
  }

  /** The value of a field of one, two or four bytes, spelled out digit by digit. */
  lemma DigitsValueOfFew(s: seq<byte>)
    requires |s| == 1 || |s| == 2 || |s| == 4
    ensures |s| == 1 ==> DigitsValue(s) == s[0] as int - 48
    ensures |s| == 2 ==> DigitsValue(s) == (s[0] as int - 48) * 10 + (s[1] as int - 48)
    ensures |s| == 4 ==>
      DigitsValue(s) == (s[0] as int - 48) * 1000 + (s[1] as int - 48) * 100 + (s[2] as int - 48) * 10 + (s[3] as int - 48)
  {
    if |s| == 1 {
      assert s[..0] == [];
    } else if |s| == 2 {
      assert s[..1][..0] == [];
      assert s[..1][0] == s[0];
    } else {
      var s3, s2, s1 := s[..3], s[..2], s[..1];
      assert s3[..2] == s2 && s2[..1] == s1 && s1[..0] == [];
      assert s1[0] == s[0] && s2[1] == s[1] && s3[2] == s[2];
    }
  }

  /** The parse of the usage example: 3:45:00 pm on Saturday 14 January 2023. */
  lemma SetClockUsageParse()
    ensures ParseDateTime(SetClockUsage) == DateTime(2023, 1, 14, 6, 15, 45, 0)
  {
    var u := SetClockUsage;
    assert u[1] == 50 && u[2] == 48 && u[3] == 50 && u[4] == 51;
    assert u[6] == 48 && u[7] == 49 && u[9] == 49 && u[10] == 52 && u[12] == 54;
    assert u[14] == 49 && u[15] == 53 && u[17] == 52 && u[18] == 53 && u[20] == 48 && u[21] == 48;
    DigitsValueOfFew(u[1..5]);
    DigitsValueOfFew(u[6..8]);
    DigitsValueOfFew(u[9..11]);
    DigitsValueOfFew(u[12..13]);
    DigitsValueOfFew(u[14..16]);
    DigitsValueOfFew(u[17..19]);
    DigitsValueOfFew(u[20..22]);
    assert DigitsValue(u[1..5]) == 2023;
    assert DigitsValue(u[6..8]) == 1;
    assert DigitsValue(u[9..11]) == 14;
    assert DigitsValue(u[12..13]) == 6;
    assert DigitsValue(u[14..16]) == 15;
    assert DigitsValue(u[17..19]) == 45;
    assert DigitsValue(u[20..22]) == 0;
  }

  /** SetClock's usage example, " 2023 01 14 6 15 45 00", sets the clock to 3:45:00 pm on
      Saturday 14 January 2023. */
  lemma SetClockUsageExample()
    ensures ParseDateTime(Ascii(" 2023 01 14 6 15 45 00")) == DateTime(2023, 1, 14, 6, 15, 45, 0)
  {
    SetClockUsageBytes();
    SetClockUsageParse();
  }

  // ------------------------------------------------------ the day number

  /** Gregorian leap years: every fourth year, except centuries not divisible by 400. */
  predicate IsLeap(y: int)
  {
    y % 4 == 0 && (y % 100 != 0 || y % 400 == 0)
  }

  function DaysInMonth(y: int, m: int): (n: int)
    requires 1 <= m <= 12
    ensures 28 <= n <= 31
  {
    if m == 2 then (if IsLeap(y) then 29 else 28)
    else if m == 4 || m == 6 || m == 9 || m == 11 then 30
    else 31
  }

  predicate ValidDate(y: int, m: int, d: int)
  {
    1 <= m <= 12 && 1 <= d <= DaysInMonth(y, m)
  }

  /** The calendar day after `y-m-d`: an independent definition of "the next day". */
  function NextDay(y: int, m: int, d: int): (r: (int, int, int))
    requires ValidDate(y, m, d)
    ensures ValidDate(r.0, r.1, r.2)
  {
    if d < DaysInMonth(y, m) then (y, m, d + 1)
    else if m < 12 then (y, m + 1, 1)
    else (y + 1, 1, 1)
  }

  /** Going from the last day of February of a year `x - 7999` (counted March-first) to
      March 1st adds 365 days plus one exactly when the new year `x` is a leap year. */
  lemma LeapStep(x: int)
    requires x >= 1
    ensures (x / 4 - (x - 1) / 4) - (x / 100 - (x - 1) / 100) + (x / 400 - (x - 1) / 400) ==
            (if IsLeap(x) then 1 else 0)
  {
    StepOf4(x);
    StepOf100(x);
    StepOf400(x);
  }

  lemma StepOf4(x: int)
    ensures x / 4 - (x - 1) / 4 == (if x % 4 == 0 then 1 else 0)
  {
  }

  lemma StepOf100(x: int)
    ensures x / 100 - (x - 1) / 100 == (if x % 100 == 0 then 1 else 0)
  {
  }

  lemma StepOf400(x: int)
    ensures x / 400 - (x - 1) / 400 == (if x % 400 == 0 then 1 else 0)
  {
  }

  /** The day number with the March-first year `Y` and month `M` the formula computes;
      from year -7999 on, `Y` is not negative and C's division is Euclidean. */
  lemma JulianDayShape(y: int, m: int, d: int)
    requires 1 <= m <= 12 && y >= -7999
    ensures var Y := if m < 3 then y + 7999 else y + 8000;
      var M := if m < 3 then m + 12 else m;
      Y >= 0 && JulianDay(y, m, d) == Y * 365 + Y / 4 - Y / 100 + Y / 400 - 1200820 + (M * 153 + 3) / 5 - 92 + d - 1
  {
  }

  /** The formula's month term advances by the length of each month from March to January. */
  lemma MonthTerm(y: int, m: int)
    requires 1 <= m <= 12 && m != 2
    ensures var M := if m < 3 then m + 12 else m;
      ((M + 1) * 153 + 3) / 5 - (M * 153 + 3) / 5 == DaysInMonth(y, m)
  {
  }

  /** Leap years repeat every 400 years, so every 8000. */
  lemma LeapShift(y: int)
    ensures IsLeap(y + 8000) == IsLeap(y)
  {
    ShiftOf4(y);
    ShiftOf100(y);
    ShiftOf400(y);
  }

  lemma ShiftOf4(y: int)
    ensures (y + 8000) % 4 == y % 4
  {
  }

  lemma ShiftOf100(y: int)
    ensures (y + 8000) % 100 == y % 100
  {
  }

  lemma ShiftOf400(y: int)
    ensures (y + 8000) % 400 == y % 400
  {
  }

  /** From the last day of February to March 1st. */
  lemma JulianDayEndOfFebruary(y: int)
    requires y >= -7999
    ensures JulianDay(y, 3, 1) == JulianDay(y, 2, DaysInMonth(y, 2)) + 1
  {
    var x := y + 8000;
    var last := DaysInMonth(y, 2);
    JulianDayShape(y, 2, last);
    JulianDayShape(y, 3, 1);
    assert JulianDay(y, 2, last) == (x - 1) * 365 + (x - 1) / 4 - (x - 1) / 100 + (x - 1) / 400 - 1200820 + 429 - 92 + last - 1;
    assert JulianDay(y, 3, 1) == x * 365 + x / 4 - x / 100 + x / 400 - 1200820 + 92 - 92;
    LeapStep(x);
    LeapShift(y);
  }

  /** From the last day of any other month to the first of the next, December included. */
  lemma JulianDayEndOfMonth(y: int, m: int)
    requires y >= -7999 && 1 <= m <= 12 && m != 2
    ensures var n := if m == 12 then (y + 1, 1) else (y, m + 1);
      JulianDay(n.0, n.1, 1) == JulianDay(y, m, DaysInMonth(y, m)) + 1
  {
    var Y := if m < 3 then y + 7999 else y + 8000;
    var M := if m < 3 then m + 12 else m;
    var base := Y * 365 + Y / 4 - Y / 100 + Y / 400 - 1200820 - 92;
    var last := DaysInMonth(y, m);
    JulianDayShape(y, m, last);
    assert JulianDay(y, m, last) == base + (M * 153 + 3) / 5 + last - 1;
    if m == 12 {
      JulianDayShape(y + 1, 1, 1);
      assert JulianDay(y + 1, 1, 1) == base + ((M + 1) * 153 + 3) / 5;
    } else {
      JulianDayShape(y, m + 1, 1);
      assert JulianDay(y, m + 1, 1) == base + ((M + 1) * 153 + 3) / 5;
    }
    MonthTerm(y, m);
  }

  /** `gregorian_calendar_to_jd` numbers consecutive days consecutively: across the end
      of a month, of a year and of February in leap and common years alike. The formula
      divides with C's truncation, which agrees with the calendar from year -7999 on. */
  lemma JulianDayNextDay(y: int, m: int, d: int)
    requires ValidDate(y, m, d) && y >= -7999
    ensures var n := NextDay(y, m, d); JulianDay(n.0, n.1, n.2) == JulianDay(y, m, d) + 1
  {
    if d < DaysInMonth(y, m) {
      assert NextDay(y, m, d) == (y, m, d + 1);
      JulianDayShape(y, m, d);
      JulianDayShape(y, m, d + 1);
    } else if m == 2 {
      assert NextDay(y, m, d) == (y, 3, 1);
      JulianDayEndOfFebruary(y);
    } else {
      JulianDayEndOfMonth(y, m);
    }
  }

  // ------------------------------------------------------------ "before"

  lemma {:induction false} LexLessIrreflexive(a: seq<int>)
    ensures !LexLess(a, a)
  {
    if |a| > 0 {
      LexLessIrreflexive(a[1..]);
    }
  }

  lemma {:induction false} LexLessTransitive(a: seq<int>, b: seq<int>, c: seq<int>)
    requires |a| == |b| == |c| && LexLess(a, b) && LexLess(b, c)
    ensures LexLess(a, c)
  {
    if a[0] == b[0] && b[0] == c[0] {
      LexLessTransitive(a[1..], b[1..], c[1..]);
    }
  }

  /** Distinct sequences are ordered one way or the other, and never both ways. */
  lemma {:induction false} LexLessTotal(a: seq<int>, b: seq<int>)
    requires |a| == |b|
    ensures a != b ==> LexLess(a, b) || LexLess(b, a)
    ensures !(LexLess(a, b) && LexLess(b, a))
  {
    if |a| > 0 {
      LexLessTotal(a[1..], b[1..]);
      if a[0] == b[0] && a[1..] == b[1..] {
        assert a == [a[0]] + a[1..] && b == [b[0]] + b[1..];
      }
    }
  }

  /** `TimeCompare` is exactly "strictly before" on (year, month, day, hour, minute, second). */
  lemma TimeCompareIsLexLess(t1: DateTime, t2: DateTime)
    ensures TimeCompare(t1, t2) == LexLess(Key(t1), Key(t2))
  {
    var a5, b5 := [t1.sec], [t2.sec];
    LexLessCons(t1.sec, t2.sec, [], []);
    assert LexLess(a5, b5) == (t1.sec < t2.sec) by {
      assert [t1.sec] == [t1.sec] + [] && [t2.sec] == [t2.sec] + [];
    }
    var a4, b4 := [t1.min] + a5, [t2.min] + b5;
    LexLessCons(t1.min, t2.min, a5, b5);
    var a3, b3 := [t1.hour] + a4, [t2.hour] + b4;
    LexLessCons(t1.hour, t2.hour, a4, b4);
    var a2, b2 := [t1.day] + a3, [t2.day] + b3;
    LexLessCons(t1.day, t2.day, a3, b3);
    var a1, b1 := [t1.month] + a2, [t2.month] + b2;
    LexLessCons(t1.month, t2.month, a2, b2);
    var a0, b0 := [t1.year] + a1, [t2.year] + b1;
    LexLessCons(t1.year, t2.year, a1, b1);
    assert a0 == Key(t1) && b0 == Key(t2);
  }

  /** One step of the lexicographic order: the heads decide, or they tie and the tails do. */
  lemma LexLessCons(x: int, y: int, a: seq<int>, b: seq<int>)
    requires |a| == |b|
    ensures LexLess([x] + a, [y] + b) == (x < y || (x == y && LexLess(a, b)))
  {
    assert ([x] + a)[1..] == a && ([y] + b)[1..] == b;
  }

  /** `TimeCompare` is a strict total order on the compared fields: false on equal times,
      never true both ways, transitive, and true one way or the other for times that differ
      in a compared field. `dotw` plays no part. */
  lemma TimeCompareIsStrictOrder(a: DateTime, b: DateTime, c: DateTime)
    ensures !TimeCompare(a, a)
    ensures !(TimeCompare(a, b) && TimeCompare(b, a))
    ensures TimeCompare(a, b) && TimeCompare(b, c) ==> TimeCompare(a, c)
    ensures Key(a) != Key(b) ==> TimeCompare(a, b) || TimeCompare(b, a)
    ensures TimeCompare(a, b) == TimeCompare(a.(dotw := c.dotw), b.(dotw := c.dotw))
  {
    TimeCompareIsLexLess(a, a);
    TimeCompareIsLexLess(a, b);
    TimeCompareIsLexLess(b, a);
    TimeCompareIsLexLess(b, c);
    TimeCompareIsLexLess(a, c);
    LexLessIrreflexive(Key(a));
    LexLessTotal(Key(a), Key(b));
    if TimeCompare(a, b) && TimeCompare(b, c) {
      LexLessTransitive(Key(a), Key(b), Key(c));
    }
  }

  // --------------------------------------------------------- differences

  /** The exact elapsed seconds vanish from a time to itself, change sign when the two
      times swap, and add up along a chain of three times. */
  lemma TimeDifferenceSecLaws(a: DateTime, b: DateTime, c: DateTime)
    ensures TimeDifferenceSec(a, a) == 0
    ensures TimeDifferenceSec(a, b) == -TimeDifferenceSec(b, a)
    ensures TimeDifferenceSec(a, c) == TimeDifferenceSec(a, b) + TimeDifferenceSec(b, c)
  {
  }

  /** A clock reading with a valid date and time of day. */
  predicate ValidTime(t: DateTime)
  {
    ValidDate(t.year, t.month, t.day) && 0 <= t.hour < 24 && 0 <= t.min < 60 && 0 <= t.sec < 60
  }

  /** The reading one second after `t`, carrying into the minute, hour and day. */
  function NextSecond(t: DateTime): (r: DateTime)
    requires ValidTime(t)
    ensures ValidTime(r)
  {
    if t.sec < 59 then t.(sec := t.sec + 1)
    else if t.min < 59 then t.(min := t.min + 1, sec := 0)
    else if t.hour < 23 then t.(hour := t.hour + 1, min := 0, sec := 0)
    else
      var n := NextDay(t.year, t.month, t.day);
      t.(year := n.0, month := n.1, day := n.2, hour := 0, min := 0, sec := 0)
  }

  /** One second later is one elapsed second, across minute, hour, day, month and year
      boundaries alike. */
  lemma TimeDifferenceSecOfNextSecond(a: DateTime)
    requires ValidTime(a) && a.year >= -7999
    ensures TimeDifferenceSec(a, NextSecond(a)) == 1
  {
    var n := NextSecond(a);
    if a.sec < 59 {
      assert n == a.(sec := a.sec + 1);
    } else if a.min < 59 {
      assert n == a.(min := a.min + 1, sec := 0);
    } else if a.hour < 23 {
      assert n == a.(hour := a.hour + 1, min := 0, sec := 0);
    } else {
      var d := NextDay(a.year, a.month, a.day);
      assert n == a.(year := d.0, month := d.1, day := d.2, hour := 0, min := 0, sec := 0);
      JulianDayNextDay(a.year, a.month, a.day);
    }
  }

  /** A window that starts on 14 January 2023 and stops 2^32 + 30 seconds later, on
      20 February 2159 at 06:28:46. */
  const LongWindowStart := DateTime(2023, 1, 14, 6, 0, 0, 0)
  const LongWindowStop := DateTime(2159, 2, 20, 4, 6, 28, 46)

  /** In a 32-bit `long` the span of that window wraps to 30 seconds. */
  lemma LongWindowWraps()
    ensures TimeCompare(LongWindowStart, LongWindowStop)
    ensures TimeDifferenceSec(LongWindowStart, LongWindowStop) == 0x1_0000_0000 + 30
    ensures TimeDifferenceSec32(LongWindowStart, LongWindowStop) == 30
  {
    assert JulianDay(2023, 1, 14) == 2459959;
    assert JulianDay(2159, 2, 20) == 2509669;
  }
}
