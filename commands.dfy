/** The command table and the command handlers. The handlers act on the firmware's
    shared state (`Alarm_Window_Start`, `Alarm_Window_Stop`, `In_Alarm_Window`,
    `Threshold`, `Scale_Sensitivity`) and on the real-time clock, which is abstracted
    as the current time and one pending alarm. Each handler returns a response tag in
    place of the text it sends. */
module Commands {
  import opened CTypes
  import opened Clock
  import opened Uart
  import opened PressureSensor

  /** `COMMAND_LENGTH`: every command name is 8 bytes long. */
  const CommandLength := 8

  /** `MAX_ALARM_WINDOW`: the longest alarm window, one day in seconds. */
  const MaxAlarmWindow := 86400

  // ------------------------------------------------------------ the table

  datatype Command = HelpInfo | SetClock | GetClock | SetUpper | SetTolTo | WeighNow | SetAlarm | GetAlarm | ClrAlarm

  /** One `CMD_Type` row: the name and the handler it selects; the row's usage text is
      `UsageOf` of the handler. */
  datatype Entry = Entry(name: string, command: Command)

  /** `CommandLookup`: the nine rows the table initialises, in order. */
  const Table: seq<Entry> := [
    Entry("HelpInfo", HelpInfo),
    Entry("SetClock", SetClock),
    Entry("GetClock", GetClock),
    Entry("SetUpper", SetUpper),
    Entry("SetTolTo", SetTolTo),
    Entry("WeighNow", WeighNow),
    Entry("SetAlarm", SetAlarm),
    Entry("GetAlarm", GetAlarm),
    Entry("ClrAlarm", ClrAlarm)
  ]

  /** The usage text of each row of `CommandLookup`. */
  function UsageOf(c: Command): string
  {
    match c
    case HelpInfo => "HelpInfo <Parameter_1>\n\nCalling HelpInfo with no parameters will list all available commands\n\nCalling HelpInfo with <Parameter_1> equal to the name of another function will give the usagae information for that function\n"
    case SetClock => "SetClock <Year> <Month> <Day> <Day of Week> <Hour> <Min> <Sec>\n\nEx: “SetClock 2023 01 14 6 15 45 00” sets the time to 3:45:00pm on Sat 14, Jan 2023\n"
    case GetClock => "GetClock\n\nReturns the current time the pi is set to.\n"
    case SetUpper => "SetUpper\n\nSets the upper bound for weight allowed during alarm period.\n"
    case SetTolTo => "SetTolTo\n\nSets the sensitivity of the weight detection during alarm period. The alarm will trigger when the current weight equals tol % of the weight set by SetUpper.\n\n <Tol> = a percentage between 0 and 99.\n"
    case WeighNow => "WeighNow\n\n Measures and returns the current weight being read by the load cells.\n"
    case SetAlarm => "SetAlarm <Year1> <Month1> <Day1> <Day of Week 1> <Hour1> <Min1> <Sec1> <Year2> <Month2> <Day2> <Day of Week 2> <Hour2> <Min2> <Sec2>\n\nEx: “SetAlarm 2023 01 14 6 15 45 00 2023 01 14 6 15 30” sets an alarm to start at 3:45:00pm on Sat 14, Jan 2023 and end 30 seconds later\n"
    case GetAlarm => "GetAlarm\n\nReturns information about any alarms that are set.\n"
    case ClrAlarm => "ClrAlarm\n\nClears any alarms that may be set\n"
  }

  /** The bytes of the name in row `i`. */
  function Name(i: nat): (r: seq<byte>)
    requires i < |Table|
  {
    Ascii(Table[i].name)
  }

  /** Every name in the listing order of the table. */
  function Names(): (r: seq<string>)
    ensures |r| == |Table| && forall i :: 0 <= i < |Table| ==> r[i] == Table[i].name
  {
    seq(|Table|, i requires 0 <= i < |Table| => Table[i].name)
  }

  /** The first row at or after `from` whose name is exactly `token`: `strncmp` over
      `COMMAND_LENGTH` bytes against an 8-character name is byte equality. */
  function LookupFrom(token: seq<byte>, from: nat): (r: Option<nat>)
    requires from <= |Table|
    ensures r.Some? ==> from <= r.value < |Table| && Name(r.value) == token
    ensures r.Some? ==> forall j :: from <= j < r.value ==> Name(j) != token
    ensures r.None? ==> forall j :: from <= j < |Table| ==> Name(j) != token
    decreases |Table| - from
  {
    if from == |Table| then None
    else if Name(from) == token then Some(from)
    else LookupFrom(token, from + 1)
  }

  /** The row a token selects, if any. */
  function Lookup(token: seq<byte>): Option<nat>
  {
    LookupFrom(token, 0)
  }

  /** The dispatch scan: rows in table order, stopping at the first whose name matches. */
  method FindCommand(token: seq<byte>) returns (r: Option<nat>)
    ensures r == Lookup(token)
    ensures r.Some? ==> r.value < |Table| && Name(r.value) == token
    ensures r.None? <==> forall j :: 0 <= j < |Table| ==> Name(j) != token
  {
    var i := 0;
    while i < |Table|
      invariant 0 <= i <= |Table|
      invariant forall j :: 0 <= j < i ==> Name(j) != token
      invariant LookupFrom(token, 0) == LookupFrom(token, i)
    {
      if Name(i) == token {
        return Some(i);
      }
      i := i + 1;
    }
    return None;
  }

  /** Every name is `COMMAND_LENGTH` bytes, so a token cut short by a read timeout
      selects no row. */
  lemma NamesAreCommandLength(token: seq<byte>)
    requires |token| != CommandLength
    ensures Lookup(token) == None
  {
    forall j | 0 <= j < |Table|
      ensures Name(j) != token
    {
      assert |Name(j)| == |Table[j].name| == CommandLength;
    }
  }

  /** Each name selects its own row: the names are distinct, so first match is the only match. */
  lemma LookupOfName(i: nat)
    requires i < |Table|
    ensures Lookup(Name(i)) == Some(i)
  {
    forall j | 0 <= j < i
      ensures Name(j) != Name(i)
    {
      NamesDiffer(j, i);
    }
  }

  /** Two distinct rows differ in the first or the fourth byte of their names. */
  lemma NamesDiffer(i: nat, j: nat)
    requires i < j < |Table|
    ensures Name(i) != Name(j)
  {
    var a := Table[i].name;
    var b := Table[j].name;
    assert a[0] != b[0] || a[3] != b[3];
    if a[0] != b[0] {
      assert Name(i)[0] != Name(j)[0];
    } else {
      assert Name(i)[3] != Name(j)[3];
    }
  }

  // ---------------------------------------------------------- responses

  /** Why a guarded command refused to run inside the alarm window. */
  datatype Refusal = ClockLocked | ThresholdLocked | ToleranceLocked | AlarmLocked

  /** Why SetAlarm turned a window down. */
  datatype Rejection = StartNotAfterNow | StopNotAfterStart | WindowTooLong

  /** What a handler sends back, by kind; the exact text is produced by library
      formatting that is not part of this model. */
  datatype Response =
    | Silent
    | Usage(text: string)
    | CommandNames(names: seq<string>)
    | Refused(refusal: Refusal)
    | ClockIs(time: DateTime)
    | WeightIs(reading: int)
    | ThresholdSet
    | ToleranceSet
    | AlarmSet
    | AlarmNotSet(rejection: Rejection)
    | NoAlarmSet
    | AlarmStartsIn(start: DateTime, wait: Duration)
    | WindowEndsIn(stop: DateTime, wait: Duration)
    | AlarmCleared

  // ------------------------------------------------------- alarm windows

  /** Which window edge a pending RTC alarm stands for. */
  datatype Edge = EnterWindow | ExitWindow

  /** A pending `rtc_set_alarm`: the time it fires at and the callback it runs. */
  datatype RtcAlarm = RtcAlarm(at: DateTime, edge: Edge)

  /** A window SetAlarm keeps: the stop comes after the start, at most a day later. */
  predicate WellFormedWindow(start: DateTime, stop: DateTime)
  {
    TimeCompare(start, stop) && TimeDifferenceSec(start, stop) <= MaxAlarmWindow
  }

  /** SetAlarm's three checks in their order: the first that fails, or none. */
  function WindowVerdict(now: DateTime, start: DateTime, stop: DateTime): (r: Option<Rejection>)
  {
    if !TimeCompare(now, start) then Some(StartNotAfterNow)
    else if !TimeCompare(start, stop) then Some(StopNotAfterStart)
    else if TimeDifferenceSec(start, stop) > MaxAlarmWindow then Some(WindowTooLong)
    else None
  }

  /** A window passes the checks exactly when it starts after `now` and is well formed;
      and each rejection names a check that really failed. */
  lemma WindowVerdictMeaning(now: DateTime, start: DateTime, stop: DateTime)
    ensures WindowVerdict(now, start, stop) == None <==> TimeCompare(now, start) && WellFormedWindow(start, stop)
    ensures WindowVerdict(now, start, stop) == Some(StartNotAfterNow) <==> !TimeCompare(now, start)
    ensures WindowVerdict(now, start, stop) == Some(StopNotAfterStart) ==> !TimeCompare(start, stop)
    ensures WindowVerdict(now, start, stop) == Some(WindowTooLong) ==> TimeDifferenceSec(start, stop) > MaxAlarmWindow
  {
  }

  /** The start and stop times SetAlarm reads from its 48-byte buffer. */
  function WindowOf(buf: seq<byte>): (r: (DateTime, DateTime))
    requires |buf| >= 2 * DateTimeLength
  {
    (ParseDateTime(buf), ParseDateTime(buf[DateTimeLength..]))
  }

  /** How many bytes a handler's line read of at most `size` bytes pops from `q`. */
  function LineRead(q: seq<byte>, size: nat): (n: nat)
    ensures n <= |q| && n <= size
  {
    ReadUntilOutcome(q, LF, 1, size).1
  }

  /** The time SetClock reads from the queue `q` into a buffer that held `junk`. */
  function ClockRead(q: seq<byte>, junk: seq<byte>): DateTime
    requires |junk| >= DateTimeLength + 2
  {
    ParseDateTime(Filled(q, junk[..24], LineRead(q, 24)))
  }

  /** The `Scale_Sensitivity` SetTolTo computes from the queue `q` into a buffer that
      held `junk`: the read returns `last`, and `100 - p` is kept as a `uint8_t`, where
      `p` is the value of the `last - 2` bytes after the separator. */
  function ToleranceRead(q: seq<byte>, junk: seq<byte>): (r: int)
    requires |junk| >= 4
    ensures 0 <= r < 256
  {
    var (last, n) := ReadUntilOutcome(q, LF, 1, 4);
    var buf := Filled(q, junk[..4], n);
    Uint8(100 - DigitsValue(buf[1..1 + Max(last as int - 2, 0)]))
  }

  /** The window SetAlarm reads from the queue `q` into a buffer that held `junk`. */
  function WindowRead(q: seq<byte>, junk: seq<byte>): (DateTime, DateTime)
    requires |junk| >= 2 * DateTimeLength + 4
  {
    WindowOf(Filled(q, junk[..48], LineRead(q, 48)))
  }

  /** The token HelpInfo looks up: bytes 1 to 8 of its 9-byte buffer after a read of
      at most 9 bytes. `strncmp` compares all eight, so on a short read the bytes the
      buffer held before (`junk`) take part. */
  function HelpToken(q: seq<byte>, junk: seq<byte>): (r: seq<byte>)
    requires |junk| >= 1 + CommandLength
    ensures |r| == CommandLength
    ensures |q| >= 1 + CommandLength ==> r == q[1..1 + CommandLength]
    ensures 1 <= |q| < 1 + CommandLength ==> r[..|q| - 1] == q[1..] && r[|q| - 1..] == junk[|q|..1 + CommandLength]
    ensures q == [] ==> r == junk[1..1 + CommandLength]
  {
    Filled(q, junk[..1 + CommandLength], Min(1 + CommandLength, |q|))[1..]
  }

  // ----------------------------------------------------- the shared state

  /** The values of the shared globals at one moment. */
  datatype SchedulerState = SchedulerState(
    now: DateTime, alarm: Option<RtcAlarm>, windowStart: DateTime, windowStop: DateTime,
    inWindow: bool, threshold: int, sensitivity: int)

  /** The globals the command handlers, the RTC callbacks and the main loop share. */
  class Scheduler {
    /** The real-time clock's current time. */
    var now: DateTime
    /** The RTC's one alarm slot. */
    var alarm: Option<RtcAlarm>
    /** `Alarm_Window_Start` and `Alarm_Window_Stop`; all-zero means no window. */
    var windowStart: DateTime
    var windowStop: DateTime
    /** `In_Alarm_Window`. */
    var inWindow: bool
    /** `Threshold` (`uint16_t`). */
    var threshold: int
    /** `Scale_Sensitivity` (`uint8_t`). */
    var sensitivity: int

    /** Every field, as one value. */
    function Snapshot(): (r: SchedulerState)
      reads this
      ensures r.inWindow == inWindow && r.alarm == alarm
    {
      SchedulerState(now, alarm, windowStart, windowStop, inWindow, threshold, sensitivity)
    }

    /** The calibration globals hold values of their C types. */
    predicate Calibrated()
      reads this
    {
      0 <= threshold < 65536 && 0 <= sensitivity < 256
    }

    /** The alarm slot follows the window: inside it the stop edge is pending; before
        it the start edge is, or nothing is and both times are zero; a pending window
        is well formed. */
    predicate Valid()
      reads this
    {
      Calibrated() &&
      (inWindow ==> alarm == Some(RtcAlarm(windowStop, ExitWindow))) &&
      (!inWindow && alarm.Some? ==> alarm.value == RtcAlarm(windowStart, EnterWindow)) &&
      (alarm.Some? ==> WellFormedWindow(windowStart, windowStop)) &&
      (alarm.None? ==> windowStart == Unset && windowStop == Unset)
    }

    /** The start-up values of the globals; the clock starts wherever `rtc_init` leaves it. */
    constructor(clock: DateTime)
      ensures Valid()
      ensures now == clock && alarm == None && !inWindow
      ensures windowStart == Unset && windowStop == Unset
      ensures sensitivity == 50 && threshold == InitialThreshold
    {
      now := clock;
      alarm := None;
      windowStart := Unset;
      windowStop := Unset;
      inWindow := false;
      threshold := InitialThreshold;
      sensitivity := 50;
    }

    /** `Set_Clock_Callback`: refused inside the window; otherwise reads one line of at
        most 24 bytes and sets the clock to the date and time in its first 22 bytes.
        `junk` is what the stack buffer held before the read. */
    method SetClockCallback(uart: Uart, junk: seq<byte>) returns (resp: Response)
      requires Valid() && |junk| >= 24
      modifies this, uart
      ensures Valid() && uart.tx == old(uart.tx)
      ensures alarm == old(alarm) && windowStart == old(windowStart) && windowStop == old(windowStop)
      ensures inWindow == old(inWindow) && threshold == old(threshold) && sensitivity == old(sensitivity)
      ensures old(inWindow) ==> resp == Refused(ClockLocked) && now == old(now) && uart.rx == old(uart.rx)
      ensures !old(inWindow) ==>
        now == ClockRead(old(uart.rx), junk) && resp == ClockIs(now) &&
        uart.rx == old(uart.rx)[LineRead(old(uart.rx), 24)..]
    {
      if inWindow {
        return Refused(ClockLocked);
      }
      var t := ReadClock(uart, junk);
      now := t;
      resp := ClockIs(now);
    }

    /** SetClock's read: one line of at most 24 bytes into a buffer that held `junk`,
        parsed from its first byte. */
    static method ReadClock(uart: Uart, junk: seq<byte>) returns (t: DateTime)
      requires |junk| >= 24
      modifies uart
      ensures t == ClockRead(old(uart.rx), junk)
      ensures uart.rx == old(uart.rx)[LineRead(old(uart.rx), 24)..] && uart.tx == old(uart.tx)
    {
      var buf := new byte[24](i requires 0 <= i < 24 => junk[i]);
      var last, consumed := uart.ReadUntil(buf, LF, 1, 24);
      assert buf[..] == Filled(old(uart.rx), junk[..24], consumed) by {
        assert buf[..] == buf[..consumed] + buf[consumed..];
      }
      t := ReadDateTime(buf[..], 0);
      assert buf[..][0..] == buf[..];
    }

    /** `Get_Clock_Callback`: reports the clock. */
    method GetClockCallback() returns (resp: Response)
      ensures resp == ClockIs(now)
    {
      resp := ClockIs(now);
    }

    /** `Get_Weight_Callback`: reports one ADC sample. */
    method GetWeightCallback(reading: Sample) returns (resp: Response)
      ensures resp == WeightIs(reading)
    {
      resp := WeightIs(reading);
    }

    /** `Set_Scale_Threshold`: refused inside the window; otherwise the current sample
        becomes the threshold. */
    method SetScaleThreshold(reading: Sample) returns (resp: Response)
      requires Valid()
      modifies this
      ensures Valid()
      ensures now == old(now) && alarm == old(alarm) && windowStart == old(windowStart)
      ensures windowStop == old(windowStop) && inWindow == old(inWindow) && sensitivity == old(sensitivity)
      ensures old(inWindow) ==> resp == Refused(ThresholdLocked) && threshold == old(threshold)
      ensures !old(inWindow) ==> resp == ThresholdSet && threshold == reading
    {
      if inWindow {
        return Refused(ThresholdLocked);
      }
      threshold := reading;
      resp := ThresholdSet;
    }

    /** `Set_Scale_Sensitivity`: refused inside the window; otherwise reads one line of
        at most 4 bytes, skips the separator and stores `100 - p` as a `uint8_t`, where
        `p` is the value of the `last - 2` bytes after it. */
    method SetScaleSensitivity(uart: Uart, junk: seq<byte>) returns (resp: Response)
      requires Valid() && |junk| >= 4
      modifies this, uart
      ensures Valid() && uart.tx == old(uart.tx)
      ensures now == old(now) && alarm == old(alarm) && windowStart == old(windowStart)
      ensures windowStop == old(windowStop) && inWindow == old(inWindow) && threshold == old(threshold)
      ensures old(inWindow) ==>
        resp == Refused(ToleranceLocked) && sensitivity == old(sensitivity) && uart.rx == old(uart.rx)
      ensures !old(inWindow) ==>
        sensitivity == ToleranceRead(old(uart.rx), junk) && resp == ToleranceSet &&
        uart.rx == old(uart.rx)[LineRead(old(uart.rx), 4)..]
    {
      if inWindow {
        return Refused(ToleranceLocked);
      }
      var tolerance := ReadTolerance(uart, junk);
      sensitivity := tolerance;
      resp := ToleranceSet;
    }

    /** SetTolTo's read: one line of at most 4 bytes into a buffer that held `junk`; the
        `last - 2` bytes after the separator are a percentage `p`, and the result is
        `100 - p` as a `uint8_t`. */
    static method ReadTolerance(uart: Uart, junk: seq<byte>) returns (tolerance: int)
      requires |junk| >= 4
      modifies uart
      ensures tolerance == ToleranceRead(old(uart.rx), junk)
      ensures uart.rx == old(uart.rx)[LineRead(old(uart.rx), 4)..] && uart.tx == old(uart.tx)
    {
      var buf := new byte[4](i requires 0 <= i < 4 => junk[i]);
      var last, consumed := uart.ReadUntil(buf, LF, 1, 4);
      assert buf[..] == Filled(old(uart.rx), junk[..4], consumed) by {
        assert buf[..] == buf[..consumed] + buf[consumed..];
      }
      var p := Str2Int(buf[1..], last as int - 2);
      assert buf[1..][..Max(last as int - 2, 0)] == buf[..][1..1 + Max(last as int - 2, 0)];
      tolerance := Uint8(100 - p);
    }

    /** `Set_Alarm_Callback`: refused inside the window; otherwise reads one line of at
        most 48 bytes holding a start and a stop block, stores both, and keeps them with
        the start edge pending if they pass `WindowVerdict`, or puts the old window back
        and leaves the pending alarm alone if not. */
    method SetAlarmCallback(uart: Uart, junk: seq<byte>) returns (resp: Response)
      requires Valid() && |junk| >= 48
      modifies this, uart
      ensures Valid() && uart.tx == old(uart.tx)
      ensures now == old(now) && inWindow == old(inWindow)
      ensures threshold == old(threshold) && sensitivity == old(sensitivity)
      ensures old(inWindow) ==>
        resp == Refused(AlarmLocked) && alarm == old(alarm) &&
        windowStart == old(windowStart) && windowStop == old(windowStop) && uart.rx == old(uart.rx)
      ensures !old(inWindow) ==>
        var (start, stop) := WindowRead(old(uart.rx), junk);
        var verdict := WindowVerdict(old(now), start, stop);
        uart.rx == old(uart.rx)[LineRead(old(uart.rx), 48)..] &&
        (verdict == None ==>
          windowStart == start && windowStop == stop &&
          alarm == Some(RtcAlarm(start, EnterWindow)) && resp == AlarmSet) &&
        (verdict.Some? ==>
          windowStart == old(windowStart) && windowStop == old(windowStop) &&
          alarm == old(alarm) && resp == AlarmNotSet(verdict.value))
    {
      if inWindow {
        return Refused(AlarmLocked);
      }
      var start, stop := ReadWindow(uart, junk);
      resp := ScheduleWindow(start, stop);
    }

    /** The rest of SetAlarm once the window is read: the window globals take the new
        times, and go back to their saved values when a check fails; otherwise the start
        edge is scheduled. */
    method ScheduleWindow(start: DateTime, stop: DateTime) returns (resp: Response)
      requires Valid() && !inWindow
      modifies this
      ensures Valid()
      ensures now == old(now) && inWindow == old(inWindow)
      ensures threshold == old(threshold) && sensitivity == old(sensitivity)
      ensures var verdict := WindowVerdict(now, start, stop);
        (verdict == None ==>
          windowStart == start && windowStop == stop &&
          alarm == Some(RtcAlarm(start, EnterWindow)) && resp == AlarmSet) &&
        (verdict.Some? ==>
          windowStart == old(windowStart) && windowStop == old(windowStop) &&
          alarm == old(alarm) && resp == AlarmNotSet(verdict.value))
    {
      var startOld, stopOld := windowStart, windowStop;
      windowStart, windowStop := start, stop;
      if !TimeCompare(now, start) {
        windowStart, windowStop := startOld, stopOld;
        return AlarmNotSet(StartNotAfterNow);
      }
      if !TimeCompare(start, stop) {
        windowStart, windowStop := startOld, stopOld;
        return AlarmNotSet(StopNotAfterStart);
      }
      if TimeDifferenceSec(start, stop) > MaxAlarmWindow {
        windowStart, windowStop := startOld, stopOld;
        return AlarmNotSet(WindowTooLong);
      }
      alarm := Some(RtcAlarm(start, EnterWindow));
      resp := AlarmSet;
    }

    /** SetAlarm's read: one line of at most 48 bytes, parsed as a start block and a
        stop block. */
    static method ReadWindow(uart: Uart, junk: seq<byte>) returns (start: DateTime, stop: DateTime)
      requires |junk| >= 48
      modifies uart
      ensures (start, stop) == WindowRead(old(uart.rx), junk)
      ensures uart.rx == old(uart.rx)[LineRead(old(uart.rx), 48)..] && uart.tx == old(uart.tx)
    {
      var buf := new byte[48](i requires 0 <= i < 48 => junk[i]);
      var last, consumed := uart.ReadUntil(buf, LF, 1, 48);
      assert buf[..] == Filled(old(uart.rx), junk[..48], consumed) by {
        assert buf[..] == buf[..consumed] + buf[consumed..];
      }
      start := ReadDateTime(buf[..], 0);
      stop := ReadDateTime(buf[..], DateTimeLength);
      assert buf[..][0..] == buf[..];
    }

    /** `Get_Alarm_Callback`: no window when the start is all-zero; otherwise the time
        left until the start, or inside the window until the stop. */
    method GetAlarmCallback() returns (resp: Response)
      ensures windowStart == Unset ==> resp == NoAlarmSet
      ensures windowStart != Unset && !inWindow ==>
        resp.AlarmStartsIn? && resp.start == windowStart && IsSplitOf(resp.wait, TimeDifferenceSec(now, windowStart))
      ensures windowStart != Unset && inWindow ==>
        resp.WindowEndsIn? && resp.stop == windowStop && IsSplitOf(resp.wait, TimeDifferenceSec(now, windowStop))
    {
      if windowStart == Unset {
        return NoAlarmSet;
      }
      if !inWindow {
        var wait := TimeDifference(now, windowStart);
        resp := AlarmStartsIn(windowStart, wait);
      } else {
        var wait := TimeDifference(now, windowStop);
        resp := WindowEndsIn(windowStop, wait);
      }
    }

    /** `Clear_Alarm_Callback`: refused inside the window; otherwise disables the RTC
        alarm and zeroes both window times. */
    method ClearAlarmCallback() returns (resp: Response)
      requires Calibrated()
      modifies this
      ensures now == old(now) && inWindow == old(inWindow)
      ensures threshold == old(threshold) && sensitivity == old(sensitivity)
      ensures old(inWindow) ==>
        resp == Refused(AlarmLocked) && alarm == old(alarm) &&
        windowStart == old(windowStart) && windowStop == old(windowStop)
      ensures !old(inWindow) ==>
        Valid() && resp == AlarmCleared && alarm == None && windowStart == Unset && windowStop == Unset
    {
      if inWindow {
        return Refused(AlarmLocked);
      }
      alarm := None;
      windowStart := Unset;
      windowStop := Unset;
      resp := AlarmCleared;
    }

    /** `Enter_Alarm_Window`: the window opens and the stop edge is scheduled. */
    method EnterAlarmWindow()
      modifies this
      ensures inWindow && alarm == Some(RtcAlarm(windowStop, ExitWindow))
      ensures now == old(now) && windowStart == old(windowStart) && windowStop == old(windowStop)
      ensures threshold == old(threshold) && sensitivity == old(sensitivity)
    {
      inWindow := true;
      alarm := Some(RtcAlarm(windowStop, ExitWindow));
    }

    /** `Exit_Alarm_Window`: the window closes first, so that the alarm clearing that
        follows passes its guard. */
    method ExitAlarmWindow() returns (resp: Response)
      requires Calibrated()
      modifies this
      ensures Valid() && !inWindow && alarm == None && windowStart == Unset && windowStop == Unset
      ensures resp == AlarmCleared && now == old(now)
      ensures threshold == old(threshold) && sensitivity == old(sensitivity)
    {
      inWindow := false;
      resp := ClearAlarmCallback();
    }

    /** The pending RTC alarm fires: the clock reads the alarm time, the one-shot alarm
        is disabled, and its callback runs. */
    method AlarmFires() returns (resp: Response)
      requires Valid() && alarm.Some?
      modifies this
      ensures Valid() && now == old(alarm).value.at
      ensures threshold == old(threshold) && sensitivity == old(sensitivity)
      ensures old(alarm).value.edge == EnterWindow ==>
        !old(inWindow) && inWindow && resp == Silent && alarm == Some(RtcAlarm(windowStop, ExitWindow)) &&
        windowStart == old(windowStart) && windowStop == old(windowStop)
      ensures old(alarm).value.edge == ExitWindow ==>
        old(inWindow) && !inWindow && resp == AlarmCleared && alarm == None &&
        windowStart == Unset && windowStop == Unset
    {
      var pending := alarm.value;
      now := pending.at;
      alarm := None;
      match pending.edge
      case EnterWindow =>
        EnterAlarmWindow();
        resp := Silent;
      case ExitWindow =>
        resp := ExitAlarmWindow();
    }

    /** `Help_Callback`: the usage text of the command named after the separator, or
        the list of every name. `junk` is what the stack buffer held before the read. */
    method HelpCallback(uart: Uart, junk: seq<byte>) returns (resp: Response)
      requires |junk| >= 1 + CommandLength
      modifies uart
      ensures uart.tx == old(uart.tx)
      ensures uart.rx == old(uart.rx)[Min(1 + CommandLength, |old(uart.rx)|)..]
      ensures var found := Lookup(HelpToken(old(uart.rx), junk));
        (found.Some? ==> resp == Usage(UsageOf(Table[found.value].command))) &&
        (found.None? ==> resp == CommandNames(Names()))
    {
      var buf := new byte[1 + CommandLength](i requires 0 <= i < 1 + CommandLength => junk[i]);
      var n := Min(1 + CommandLength, |uart.rx|);
      uart.ReadBlocking(buf, 1 + CommandLength);
      assert buf[..] == Filled(old(uart.rx), junk[..1 + CommandLength], n) by {
        assert buf[..] == buf[..n] + buf[n..];
      }
      var token := buf[1..];
      assert token == HelpToken(old(uart.rx), junk);
      var found := FindCommand(token);
      if found.Some? {
        resp := Usage(UsageOf(Table[found.value].command));
      } else {
        resp := CommandNames(Names());
      }
    }
  }
}
