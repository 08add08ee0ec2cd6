/** Clock arithmetic of the command layer: fixed-width ASCII digit fields, the
    proleptic-Gregorian day number, the strict "before" test and signed elapsed
    time split into days, hours, minutes and seconds. */
module Clock {
  import opened CTypes

  /** The SDK's `datetime_t`: `year` is an `int16_t`, every other field an `int8_t`.
      No field combination is rejected or normalised. */
  datatype DateTime = DateTime(year: int, month: int, day: int, dotw: int, hour: int, min: int, sec: int)

  /** The all-zero value that stands for "no alarm window set". */
  const Unset := DateTime(0, 0, 0, 0, 0, 0, 0)

  const SecondsPerDay := 86400

  /** Bytes in one `SetClockType` block: a separator before each of the seven fields. */
  const DateTimeLength := 22

  // ---------------------------------------------------------------- digits

  function Pow10(n: nat): (p: nat)
    ensures p >= 1
  {
    if n == 0 then 1 else 10 * Pow10(n - 1)
  }

  /** The value `str2int` accumulates: each byte adds `b - '0'` to ten times the
      value of the bytes before it. Non-digit bytes are not rejected. */
  function DigitsValue(s: seq<byte>): int
  {
    if s == [] then 0 else DigitsValue(s[..|s| - 1]) * 10 + (s[|s| - 1] as int - '0' as int)
  }

  /** `str2int(str, len)`: a non-positive `len` reads nothing and gives 0. */
  method Str2Int(s: seq<byte>, len: int) returns (ret: int)
    requires len <= |s|
    ensures ret == DigitsValue(s[..Max(len, 0)])
  {
    ret := 0;
    var i := 0;
    while i < len
      invariant 0 <= i <= Max(len, 0)
      invariant ret == DigitsValue(s[..i])
    {
      assert s[..i + 1][..i] == s[..i];
      ret := ret * 10 + (s[i] as int - '0' as int);
      i := i + 1;
    }
  }

  predicate AllDigits(s: seq<byte>)
  {
    forall i :: 0 <= i < |s| ==> IsDigit(s[i])
  }

  /** The `w` low-order decimal digits of `n`, zero padded, most significant first. */
  function Pad(n: int, w: nat): (r: seq<byte>)
    ensures |r| == w && AllDigits(r)
    decreases w
  {
    if w == 0 then [] else Pad(n / 10, w - 1) + [('0' as int + n % 10) as byte]
  }

  /** A run of ASCII digits reads as its decimal value, which has at most that many digits. */
  lemma {:induction false} DigitsValueBounds(s: seq<byte>)
    requires AllDigits(s)
    ensures 0 <= DigitsValue(s) < Pow10(|s|)
  {
    if s != [] {
      DigitsValueBounds(s[..|s| - 1]);
    }
  }

  /** Reading a zero-padded field gives back the number written into it. */
  lemma {:induction false} DigitsValueOfPad(n: nat, w: nat)
    requires n < Pow10(w)
    ensures DigitsValue(Pad(n, w)) == n
  {
    if w > 0 {
      DigitsValueOfPad(n / 10, w - 1);
      var p := Pad(n, w);
      assert p[..|p| - 1] == Pad(n / 10, w - 1);
    }
  }

  /** Writing back the value of a run of digits reproduces the run. */
  lemma {:induction false} PadOfDigitsValue(s: seq<byte>)
    requires AllDigits(s)
    ensures DigitsValue(s) >= 0 && Pad(DigitsValue(s), |s|) == s
  {
    DigitsValueBounds(s);
    if s != [] {
      var init := s[..|s| - 1];
      PadOfDigitsValue(init);
      assert s == init + [s[|s| - 1]];
    }
  }

  // ------------------------------------------------- the SetClockType layout

  /** The 22-byte block `SetClockType` overlays: a separator at offsets
      0, 5, 8, 11, 13, 16 and 19, digits everywhere else. */
  predicate IsSeparatorOffset(k: int)
  {
    k == 0 || k == 5 || k == 8 || k == 11 || k == 13 || k == 16 || k == 19
  }

  /** Digits in every digit field of the block starting at `buf[0]`. */
  predicate DigitFields(buf: seq<byte>)
  {
    |buf| >= DateTimeLength &&
    forall k :: 0 <= k < DateTimeLength && !IsSeparatorOffset(k) ==> IsDigit(buf[k])
  }

  /** The fields that fit the block's digit widths. */
  predicate Formattable(t: DateTime)
  {
    0 <= t.year < 10000 && 0 <= t.month < 100 && 0 <= t.day < 100 && 0 <= t.dotw < 10 &&
    0 <= t.hour < 100 && 0 <= t.min < 100 && 0 <= t.sec < 100
  }

  /** The block an operator types for `t`, such as " 2023 01 14 6 15 45 00". */
  function FormatDateTime(t: DateTime): (r: seq<byte>)
    requires Formattable(t)
    ensures |r| == DateTimeLength
  {
    [SPACE] + Pad(t.year, 4) + [SPACE] + Pad(t.month, 2) + [SPACE] + Pad(t.day, 2) + [SPACE] +
    Pad(t.dotw, 1) + [SPACE] + Pad(t.hour, 2) + [SPACE] + Pad(t.min, 2) + [SPACE] + Pad(t.sec, 2)
  }

  /** Each field is `str2int` of its bytes, stored into the `datetime_t` field's width;
      separator bytes are skipped whatever they hold. */
  function ParseDateTime(buf: seq<byte>): DateTime
    requires |buf| >= DateTimeLength
  {
    DateTime(
      Int16(DigitsValue(buf[1..5])),
      Int8(DigitsValue(buf[6..8])),
      Int8(DigitsValue(buf[9..11])),
      Int8(DigitsValue(buf[12..13])),
      Int8(DigitsValue(buf[14..16])),
      Int8(DigitsValue(buf[17..19])),
      Int8(DigitsValue(buf[20..22])))
  }

  /** The seven `str2int` calls of the SetClock and SetAlarm handlers over the
      block that starts at `buf[at]`. */
  method ReadDateTime(buf: seq<byte>, at: nat) returns (t: DateTime)
    requires at + DateTimeLength <= |buf|
    ensures t == ParseDateTime(buf[at..])
  {
    var block := buf[at..];
    var year := Str2Int(block[1..], 4);
    var month := Str2Int(block[6..], 2);
    var day := Str2Int(block[9..], 2);
    var dotw := Str2Int(block[12..], 1);
    var hour := Str2Int(block[14..], 2);
    var min := Str2Int(block[17..], 2);
    var sec := Str2Int(block[20..], 2);
    assert block[1..][..4] == block[1..5];
    assert block[6..][..2] == block[6..8];
    assert block[9..][..2] == block[9..11];
    assert block[12..][..1] == block[12..13];
    assert block[14..][..2] == block[14..16];
    assert block[17..][..2] == block[17..19];
    assert block[20..][..2] == block[20..22];
    t := DateTime(Int16(year), Int8(month), Int8(day), Int8(dotw), Int8(hour), Int8(min), Int8(sec));
  }

  /** A run of digits reads as a value below `Pow10` of its length and is written back as itself. */
  lemma DigitRun(buf: seq<byte>, lo: nat, hi: nat)
    requires lo <= hi <= |buf|
    requires forall k :: lo <= k < hi ==> IsDigit(buf[k])
    ensures 0 <= DigitsValue(buf[lo..hi]) < Pow10(hi - lo)
    ensures Pad(DigitsValue(buf[lo..hi]), hi - lo) == buf[lo..hi]
  {
    assert AllDigits(buf[lo..hi]);
    DigitsValueBounds(buf[lo..hi]);
    PadOfDigitsValue(buf[lo..hi]);
  }

  /** A two-digit field holds a value below 100. */
  lemma TwoDigitField(buf: seq<byte>, lo: nat)
    requires lo + 2 <= |buf| && IsDigit(buf[lo]) && IsDigit(buf[lo + 1])
    ensures 0 <= DigitsValue(buf[lo..lo + 2]) < 100
    ensures Pad(DigitsValue(buf[lo..lo + 2]), 2) == buf[lo..lo + 2]
  {
    DigitRun(buf, lo, lo + 2);
    assert Pow10(2) == 100 by { assert Pow10(1) == 10; }
  }

  // --------------------------------------------------------- day numbers

  /** `gregorian_calendar_to_jd`: the Julian day number of a proleptic-Gregorian date,
      counting March as the first month of the year; every `/` is C's truncating one. */
  function JulianDay(year: int, month: int, day: int): int
  {
    var y0 := year + 8000;
    var y := if month < 3 then y0 - 1 else y0;
    var m := if month < 3 then month + 12 else month;
    y * 365 + CDiv(y, 4) - CDiv(y, 100) + CDiv(y, 400) - 1200820 + CDiv(m * 153 + 3, 5) - 92 + day - 1
  }

  // ---------------------------------------------------------- comparison

  /** `TimeCompare(t1, t2)`: true iff `t1` comes strictly before `t2`, comparing
      year, month, day, hour, minute and second in that order; `dotw` is not looked at. */
  predicate TimeCompare(t1: DateTime, t2: DateTime)
  {
    if t2.year < t1.year then false
    else if t2.year == t1.year && t2.month < t1.month then false
    else if t2.year == t1.year && t2.month == t1.month && t2.day < t1.day then false
    else if t2.year == t1.year && t2.month == t1.month && t2.day == t1.day && t2.hour < t1.hour then false
    else if t2.year == t1.year && t2.month == t1.month && t2.day == t1.day && t2.hour == t1.hour &&
            t2.min < t1.min then false
    else if t2.year == t1.year && t2.month == t1.month && t2.day == t1.day && t2.hour == t1.hour &&
            t2.min == t1.min && t2.sec <= t1.sec then false
    else true
  }

  /** The six compared fields, most significant first. */
  function Key(t: DateTime): (k: seq<int>)
    ensures |k| == 6
  {
    [t.year, t.month, t.day, t.hour, t.min, t.sec]
  }

  /** Strict lexicographic order on equally long integer sequences: an independent
      reference definition of "before". */
  predicate LexLess(a: seq<int>, b: seq<int>)
    requires |a| == |b|
  {
    |a| > 0 && (a[0] < b[0] || (a[0] == b[0] && LexLess(a[1..], b[1..])))
  }

  // --------------------------------------------------------- differences

  /** `TimeDifferenceSec(t1, t2)`: seconds from `t1` to `t2`, the day difference and
      the hour, minute and second differences taken separately and summed. This is
      the exact value; `TimeDifferenceSec32` below is what a 32-bit `long` holds. */
  function TimeDifferenceSec(t1: DateTime, t2: DateTime): int
  {
    (JulianDay(t2.year, t2.month, t2.day) - JulianDay(t1.year, t1.month, t1.day)) * SecondsPerDay
    + (t2.hour - t1.hour) * 3600 + (t2.min - t1.min) * 60 + (t2.sec - t1.sec)
  }

  /** The source's `TimeDifferenceSec` as written: `day_difference * 86400` and the sum
      are computed in a 32-bit `long` and wrap. */
  function TimeDifferenceSec32(t1: DateTime, t2: DateTime): (r: int)
    ensures -0x8000_0000 <= TimeDifferenceSec(t1, t2) < 0x8000_0000 ==> r == TimeDifferenceSec(t1, t2)
  {
    Int32(TimeDifferenceSec(t1, t2))
  }

  /** A signed duration split into whole days, hours, minutes and seconds. */
  datatype Duration = Duration(days: int, hours: int, minutes: int, seconds: int)

  /** `d` is `total` seconds split by truncating division: the parts add back up to
      `total`, the sub-day parts are below one unit of the next, and every part has
      the sign of `total`. */
  predicate IsSplitOf(d: Duration, total: int)
  {
    d.days * 86400 + d.hours * 3600 + d.minutes * 60 + d.seconds == total &&
    -24 < d.hours < 24 && -60 < d.minutes < 60 && -60 < d.seconds < 60 &&
    (total >= 0 ==> d.days >= 0 && d.hours >= 0 && d.minutes >= 0 && d.seconds >= 0) &&
    (total <= 0 ==> d.days <= 0 && d.hours <= 0 && d.minutes <= 0 && d.seconds <= 0)
  }

  /** `TimeDifference(t1, t2, out)`: the four values it writes through its out-pointer. */
  method TimeDifference(t1: DateTime, t2: DateTime) returns (d: Duration)
    ensures IsSplitOf(d, TimeDifferenceSec(t1, t2))
  {
    var elapsed := TimeDifferenceSec(t1, t2);
    var days := CDiv(elapsed, 86400);
    var hours := CDiv(elapsed - days * 86400, 3600);
    var minutes := CDiv(elapsed - days * 86400 - hours * 3600, 60);
    var seconds := elapsed - days * 86400 - hours * 3600 - minutes * 60;
    d := Duration(days, hours, minutes, seconds);
  }

  /** The split is unique: `IsSplitOf` pins every part down. */
  lemma SplitIsUnique(d1: Duration, d2: Duration, total: int)
    requires IsSplitOf(d1, total) && IsSplitOf(d2, total)
    ensures d1 == d2
  {
    var s1 := d1.hours * 3600 + d1.minutes * 60 + d1.seconds;
    var s2 := d2.hours * 3600 + d2.minutes * 60 + d2.seconds;
    assert -86400 < s1 < 86400 && -86400 < s2 < 86400;
    assert d1.days == d2.days;
    var m1 := d1.minutes * 60 + d1.seconds;
    var m2 := d2.minutes * 60 + d2.seconds;
    assert -3600 < m1 < 3600 && -3600 < m2 < 3600;
    assert d1.hours == d2.hours;
  }
}
