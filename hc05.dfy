/** The HC-05 Bluetooth side: the receive interrupt that reads a command name and runs
    its handler, and the AT-command exchanges with the module. */
module Hc05 {
  import opened CTypes
  import opened Uart
  import opened PressureSensor
  import opened Clock
  import opened Commands
  import opened CommandLaws

  /** The reply the module gives to an accepted AT command: "OK\r\n". */
  const OkReply: seq<byte> := [79, 75, CR, LF]

  /** The token the receive interrupt reads: the first `COMMAND_LENGTH` queued bytes,
      or every queued byte when fewer arrive before the timeout. */
  function TokenOf(q: seq<byte>): (r: seq<byte>)
    ensures r <= q && |r| == Min(CommandLength, |q|)
  {
    q[..Min(CommandLength, |q|)]
  }

  /** What the handler of `c` leaves behind: the globals after it and the bytes still
      queued, given the globals `s` before it, the bytes `q` queued after the token, the
      ADC sample it would take and what its stack buffer held. Inside the alarm window
      the guarded handlers change nothing. */
  function HandlerEffect(c: Command, s: SchedulerState, q: seq<byte>, reading: Sample, junk: seq<byte>)
    : (r: (SchedulerState, seq<byte>))
    requires |junk| >= 48
    ensures s.inWindow ==> r.0 == s
    ensures r.0.inWindow == s.inWindow
    ensures |r.1| <= |q| && r.1 == q[|q| - |r.1|..]
  {
    match c
    case HelpInfo => (s, q[Min(1 + CommandLength, |q|)..])
    case GetClock => (s, q)
    case WeighNow => (s, q)
    case GetAlarm => (s, q)
    case SetClock =>
      if s.inWindow then (s, q) else (s.(now := ClockRead(q, junk)), q[LineRead(q, 24)..])
    case SetUpper =>
      if s.inWindow then (s, q) else (s.(threshold := reading as int), q)
    case SetTolTo =>
      if s.inWindow then (s, q)
      else (s.(sensitivity := ToleranceRead(q, junk)), q[LineRead(q, 4)..])
    case SetAlarm =>
      if s.inWindow then (s, q) else (Scheduled(s, WindowRead(q, junk)), q[LineRead(q, 48)..])
    case ClrAlarm =>
      if s.inWindow then (s, q) else (s.(alarm := None, windowStart := Unset, windowStop := Unset), q)
  }

  /** The globals after SetAlarm has read `w` outside the window: the window and its
      start edge when the window passes the checks, the old globals when it does not. */
  function Scheduled(s: SchedulerState, w: (DateTime, DateTime)): SchedulerState
  {
    if WindowVerdict(s.now, w.0, w.1) == None
    then s.(windowStart := w.0, windowStop := w.1, alarm := Some(RtcAlarm(w.0, EnterWindow)))
    else s
  }

  /** The response the handler of `c` gives, in the same terms as `HandlerEffect`. */
  predicate Responds(c: Command, s: SchedulerState, q: seq<byte>, reading: Sample, junk: seq<byte>, resp: Response)
    requires |junk| >= 48
  {
    match c
    case HelpInfo =>
      var found := Lookup(HelpToken(q, junk));
      resp == if found.Some? then Usage(UsageOf(Table[found.value].command)) else CommandNames(Names())
    case SetClock => resp == if s.inWindow then Refused(ClockLocked) else ClockIs(ClockRead(q, junk))
    case GetClock => resp == ClockIs(s.now)
    case SetUpper => resp == if s.inWindow then Refused(ThresholdLocked) else ThresholdSet
    case SetTolTo => resp == if s.inWindow then Refused(ToleranceLocked) else ToleranceSet
    case WeighNow => resp == WeightIs(reading)
    case SetAlarm =>
      if s.inWindow then resp == Refused(AlarmLocked)
      else
        var (start, stop) := WindowRead(q, junk);
        var verdict := WindowVerdict(s.now, start, stop);
        resp == if verdict == None then AlarmSet else AlarmNotSet(verdict.value)
    case GetAlarm =>
      if s.windowStart == Unset then resp == NoAlarmSet
      else if !s.inWindow then
        resp.AlarmStartsIn? && resp.start == s.windowStart && IsSplitOf(resp.wait, TimeDifferenceSec(s.now, s.windowStart))
      else
        resp.WindowEndsIn? && resp.stop == s.windowStop && IsSplitOf(resp.wait, TimeDifferenceSec(s.now, s.windowStop))
    case ClrAlarm => resp == if s.inWindow then Refused(AlarmLocked) else AlarmCleared
  }

  /** Runs the handler of `c` on the bytes that follow the token. */
  method RunHandler(c: Command, uart: Uart, sched: Scheduler, reading: Sample, junk: seq<byte>)
    returns (resp: Response)
    requires sched.Valid() && |junk| >= 48
    modifies uart, sched
    ensures sched.Valid() && uart.tx == old(uart.tx)
    ensures (sched.Snapshot(), uart.rx) == HandlerEffect(c, old(sched.Snapshot()), old(uart.rx), reading, junk)
    ensures Responds(c, old(sched.Snapshot()), old(uart.rx), reading, junk, resp)
  {
    match c
    case HelpInfo => resp := sched.HelpCallback(uart, junk);
    case SetClock => resp := sched.SetClockCallback(uart, junk);
    case GetClock => resp := sched.GetClockCallback();
    case SetUpper => resp := sched.SetScaleThreshold(reading);
    case SetTolTo => resp := sched.SetScaleSensitivity(uart, junk);
    case WeighNow => resp := sched.GetWeightCallback(reading);
    case SetAlarm => resp := sched.SetAlarmCallback(uart, junk);
    case GetAlarm => resp := sched.GetAlarmCallback();
    case ClrAlarm => resp := sched.ClearAlarmCallback();
  }

  /** `BT_Data_Received`: with nothing queued, nothing happens. Otherwise it reads the
      token, runs the handler of the first row whose name matches it (none when no row
      does) on the bytes after the token, and always ends by emptying the receive FIFO.
      `reading` is the ADC sample a handler would take; `junk` is what the handlers'
      stack buffers held. */
  method BtDataReceived(uart: Uart, sched: Scheduler, reading: Sample, junk: seq<byte>)
    returns (resp: Option<Response>)
    requires sched.Valid() && |junk| >= 48
    modifies uart, sched
    ensures sched.Valid() && uart.tx == old(uart.tx) && uart.rx == []
    ensures resp.Some? <==> old(uart.rx) != [] && Lookup(TokenOf(old(uart.rx))).Some?
    ensures resp.None? ==> sched.Snapshot() == old(sched.Snapshot())
    ensures resp.Some? ==>
      var c := Table[Lookup(TokenOf(old(uart.rx))).value].command;
      var args := old(uart.rx)[Min(CommandLength, |old(uart.rx)|)..];
      sched.Snapshot() == HandlerEffect(c, old(sched.Snapshot()), args, reading, junk).0 &&
      Responds(c, old(sched.Snapshot()), args, reading, junk, resp.value)
  {
    if uart.rx == [] {
      return None;
    }
    var buf := new byte[CommandLength];
    var n := Min(CommandLength, |uart.rx|);
    uart.ReadBlocking(buf, CommandLength);
    var found := FindCommand(buf[..n]);
    if found.Some? {
      var r := RunHandler(Table[found.value].command, uart, sched, reading, junk);
      resp := Some(r);
    } else {
      resp := None;
    }
    uart.ClearRxFifo();
  }

  /** "SetClock" followed by a typed date-time, received outside the alarm window, is
      dispatched to SetClock, which sets the clock to that date-time and changes no
      other global. */
  lemma TypedSetClockSetsClock(s: SchedulerState, t: DateTime, rest: seq<byte>, reading: Sample, junk: seq<byte>)
    requires !s.inWindow && Formattable(t) && |junk| >= 48
    ensures var args := FormatDateTime(t) + rest;
      var q := Name(1) + args;
      Lookup(TokenOf(q)) == Some(1) && q[CommandLength..] == args &&
      HandlerEffect(Table[1].command, s, args, reading, junk).0 == s.(now := t)
  {
    assert Table[1].command == SetClock;
    SetClockOfTypedTime(s, t, rest, reading, junk);
    DispatchOfName(1, FormatDateTime(t) + rest);
  }

  /** SetClock on a typed date-time, outside the window, sets the clock to it. */
  lemma SetClockOfTypedTime(s: SchedulerState, t: DateTime, rest: seq<byte>, reading: Sample, junk: seq<byte>)
    requires !s.inWindow && Formattable(t) && |junk| >= 48
    ensures HandlerEffect(SetClock, s, FormatDateTime(t) + rest, reading, junk).0 == s.(now := t)
  {
    SetClockReadsTypedTime(t, rest, junk);
    SetClockEffect(s, FormatDateTime(t) + rest, t, reading, junk);
  }

  /** SetClock, outside the window, sets the clock to the date-time it reads and
      changes no other global. */
  lemma SetClockEffect(s: SchedulerState, args: seq<byte>, t: DateTime, reading: Sample, junk: seq<byte>)
    requires !s.inWindow && |junk| >= 48 && ClockRead(args, junk) == t
    ensures HandlerEffect(SetClock, s, args, reading, junk).0 == s.(now := t)
  {
  }

  /** "SetAlarm" followed by two typed date-times, received outside the alarm window, is
      dispatched to SetAlarm, which leaves the globals as `Scheduled` says for exactly
      that start and stop. */
  lemma TypedSetAlarmSchedules(s: SchedulerState, start: DateTime, stop: DateTime, rest: seq<byte>, reading: Sample, junk: seq<byte>)
    requires !s.inWindow && Formattable(start) && Formattable(stop) && |junk| >= 48
    ensures var args := FormatDateTime(start) + FormatDateTime(stop) + rest;
      var q := Name(6) + args;
      Lookup(TokenOf(q)) == Some(6) && q[CommandLength..] == args &&
      HandlerEffect(Table[6].command, s, args, reading, junk).0 == Scheduled(s, (start, stop))
  {
    assert Table[6].command == SetAlarm;
    SetAlarmOfTypedWindow(s, start, stop, rest, reading, junk);
    DispatchOfName(6, FormatDateTime(start) + FormatDateTime(stop) + rest);
  }

  /** SetAlarm on two typed date-times, outside the window, leaves the globals as
      `Scheduled` says for exactly that start and stop. */
  lemma SetAlarmOfTypedWindow(s: SchedulerState, start: DateTime, stop: DateTime, rest: seq<byte>, reading: Sample, junk: seq<byte>)
    requires !s.inWindow && Formattable(start) && Formattable(stop) && |junk| >= 48
    ensures HandlerEffect(SetAlarm, s, FormatDateTime(start) + FormatDateTime(stop) + rest, reading, junk).0
      == Scheduled(s, (start, stop))
  {
    SetAlarmReadsTypedWindow(start, stop, rest, junk);
    SetAlarmEffect(s, FormatDateTime(start) + FormatDateTime(stop) + rest, start, stop, reading, junk);
  }

  /** SetAlarm, outside the window, leaves the globals as `Scheduled` says for the
      window it reads. */
  lemma SetAlarmEffect(s: SchedulerState, args: seq<byte>, start: DateTime, stop: DateTime, reading: Sample, junk: seq<byte>)
    requires !s.inWindow && |junk| >= 48 && WindowRead(args, junk) == (start, stop)
    ensures HandlerEffect(SetAlarm, s, args, reading, junk).0 == Scheduled(s, (start, stop))
  {
  }

  /** A row's name followed by its arguments selects that row, and the handler sees the
      arguments. */
  lemma DispatchOfName(i: nat, args: seq<byte>)
    requires i < |Table|
    ensures Lookup(TokenOf(Name(i) + args)) == Some(i)
    ensures (Name(i) + args)[CommandLength..] == args
  {
    assert |Name(i)| == |Table[i].name| == CommandLength;
    assert TokenOf(Name(i) + args) == Name(i);
    LookupOfName(i);
  }

  // ------------------------------------------------------- AT commands

  /** The reply check of `TestBluetooth` and the AT commands: the four bytes read
      against "OK\r\n", stopping at the first difference. */
  method ReplyIsOk(reply: array<byte>) returns (ok: bool)
    requires reply.Length >= 4
    ensures ok <==> reply[..4] == OkReply
  {
    ok := true;
    var i := 0;
    while i < 4
      invariant 0 <= i <= 4
      invariant reply[..i] == OkReply[..i]
    {
      if OkReply[i] != reply[i] {
        ok := false;
        assert reply[..4][i] != OkReply[i];
        return;
      }
      i := i + 1;
    }
  }

  /** Sends the C string `cmd` after emptying the receive FIFO and reads up to
      `responseLength` reply bytes into `dst`. The module's reply is `reply`. */
  method SendATCommand(uart: Uart, cmd: seq<byte>, dst: array<byte>, responseLength: nat, reply: seq<byte>)
    requires responseLength <= dst.Length
    modifies uart, dst
    ensures var n := Min(responseLength, |reply|);
      dst[..n] == reply[..n] && dst[n..] == old(dst[n..]) && uart.rx == reply[n..]
    ensures uart.tx == old(uart.tx) + CString(cmd)
  {
    uart.ClearRxFifo();
    uart.Puts(cmd);
    uart.Receive(reply);
    uart.ReadBlocking(dst, responseLength);
  }

  /** `TestBluetooth`: sends "AT\r\n" and answers whether the four bytes read back are
      "OK\r\n"; bytes that did not arrive are whatever the buffer held (`junk`). */
  method TestBluetooth(uart: Uart, reply: seq<byte>, junk: seq<byte>) returns (ok: bool)
    requires |junk| >= 4
    modifies uart
    ensures uart.tx == old(uart.tx) + [65, 84, CR, LF]
    ensures uart.rx == reply[Min(4, |reply|)..]
    ensures ok <==> Filled(reply, junk[..4], Min(4, |reply|)) == OkReply
    ensures |reply| >= 4 ==> (ok <==> reply[..4] == OkReply)
  {
    var buf := new byte[4](i requires 0 <= i < 4 => junk[i]);
    assert CString([65, 84, CR, LF, NUL]) == [65, 84, CR, LF] by {
      assert [65, 84, CR, LF, NUL] == [65, 84, CR, LF] + [NUL];
      CStringOfNulFree([65, 84, CR, LF], [NUL]);
    }
    assert buf[..] == junk[..4];
    SendATCommand(uart, [65, 84, CR, LF, NUL], buf, 4, reply);
    var n := Min(4, |reply|);
    assert buf[..] == Filled(reply, junk[..4], n) by {
      assert buf[..] == buf[..n] + buf[n..];
    }
    ok := ReplyIsOk(buf);
  }

  /** The command string the name and password setters build: the 8-byte prefix, the
      first `len` bytes of the parameter, then CR, LF and the terminator. The buffer is
      `cmd_len + 1` bytes, `cmd_len` being the `uint8_t` value `len + 10`. */
  method BuildAtCommand(prefix: seq<byte>, param: seq<byte>, len: nat) returns (cmd: array<byte>)
    requires |prefix| == 8 && len <= |param| && len + 10 < 256
    ensures fresh(cmd)
    ensures cmd[..] == prefix + param[..len] + [CR, LF, NUL]
  {
    cmd := new byte[len + 11];
    var i := 0;
    while i < 8
      invariant 0 <= i <= 8
      invariant cmd[..i] == prefix[..i]
    {
      cmd[i] := prefix[i];
      i := i + 1;
    }
    i := 0;
    while i < len
      invariant 0 <= i <= len
      invariant cmd[..8] == prefix && cmd[8..8 + i] == param[..i]
    {
      cmd[i + 8] := param[i];
      i := i + 1;
    }
    var suffix: seq<byte> := [CR, LF, NUL];
    i := 0;
    while i < 3
      invariant 0 <= i <= 3
      invariant cmd[..8] == prefix && cmd[8..8 + len] == param[..len]
      invariant cmd[8 + len..8 + len + i] == suffix[..i]
    {
      cmd[i + 8 + len] := suffix[i];
      i := i + 1;
    }
    assert cmd[..] == cmd[..8] + cmd[8..8 + len] + cmd[8 + len..8 + len + 3];
  }

  /** The shared body of `ChangeBluetoothName` and `ChangeBluetoothPswd`: builds and
      sends the command, checks the reply, and reports failure whatever the reply. */
  method ChangeSetting(uart: Uart, prefix: seq<byte>, param: seq<byte>, len: nat, reply: seq<byte>, junk: seq<byte>)
    returns (changed: bool)
    requires |prefix| == 8 && NUL !in prefix && len <= |param| && len + 10 < 256 && |junk| >= 4
    modifies uart
    ensures !changed
    ensures uart.tx == old(uart.tx) + CString(prefix + param[..len] + [CR, LF, NUL])
    ensures NUL !in param[..len] ==> uart.tx == old(uart.tx) + prefix + param[..len] + [CR, LF]
    ensures uart.rx == reply[Min(4, |reply|)..]
  {
    var cmd := BuildAtCommand(prefix, param, len);
    var buf := new byte[4](i requires 0 <= i < 4 => junk[i]);
    SendATCommand(uart, cmd[..], buf, 4, reply);
    var ok := ReplyIsOk(buf);
    if NUL !in param[..len] {
      assert NUL !in prefix + param[..len] + [CR, LF];
      assert prefix + param[..len] + [CR, LF, NUL] == (prefix + param[..len] + [CR, LF]) + [NUL];
      CStringOfNulFree(prefix + param[..len] + [CR, LF], [NUL]);
    }
    return false;
  }

  /** `ChangeBluetoothName`: sends "AT+NAME=" with the name. */
  method ChangeBluetoothName(uart: Uart, name: seq<byte>, len: nat, reply: seq<byte>, junk: seq<byte>)
    returns (changed: bool)
    requires len <= |name| && len + 10 < 256 && |junk| >= 4
    modifies uart
    ensures !changed
    ensures NUL !in name[..len] ==> uart.tx == old(uart.tx) + Ascii("AT+NAME=") + name[..len] + [CR, LF]
    ensures uart.rx == reply[Min(4, |reply|)..]
  {
    changed := ChangeSetting(uart, Ascii("AT+NAME="), name, len, reply, junk);
  }

  /** `ChangeBluetoothPswd`: sends "AT+PSWD=" with the password. */
  method ChangeBluetoothPswd(uart: Uart, pswd: seq<byte>, len: nat, reply: seq<byte>, junk: seq<byte>)
    returns (changed: bool)
    requires len <= |pswd| && len + 10 < 256 && |junk| >= 4
    modifies uart
    ensures !changed
    ensures NUL !in pswd[..len] ==> uart.tx == old(uart.tx) + Ascii("AT+PSWD=") + pswd[..len] + [CR, LF]
    ensures uart.rx == reply[Min(4, |reply|)..]
  {
    changed := ChangeSetting(uart, Ascii("AT+PSWD="), pswd, len, reply, junk);
  }

  // ------------------------------------------------ the table as declared

  /** `NUMBER_OF_COMMANDS`: the table is declared with ten slots. */
  const NumberOfCommands := 10

  /** Where the scan over all declared slots ends. */
  datatype ScanEnd = Matched(slot: nat) | NullName(slot: nat) | NoMatch

  /** The dispatch scan as written, from slot `from`: it compares the token with every
      declared slot, and the slot after the nine initialised rows holds a NULL name. */
  function ScanAsWritten(token: seq<byte>, from: nat): (r: ScanEnd)
    requires from <= NumberOfCommands
    decreases NumberOfCommands - from
  {
    if from == NumberOfCommands then NoMatch
    else if from >= |Table| then NullName(from)
    else if Name(from) == token then Matched(from)
    else ScanAsWritten(token, from + 1)
  }

  /** A token that names a command is found by both scans; any other token, such as
      "BadToken", makes the scan as written compare against the NULL name in slot 9. */
  lemma {:induction false} ScanAsWrittenReachesNull(token: seq<byte>, from: nat)
    requires from <= |Table|
    ensures LookupFrom(token, from).Some? ==> ScanAsWritten(token, from) == Matched(LookupFrom(token, from).value)
    ensures LookupFrom(token, from).None? ==> ScanAsWritten(token, from) == NullName(|Table|)
    decreases |Table| - from
  {
    if from < |Table| && Name(from) != token {
      ScanAsWrittenReachesNull(token, from + 1);
    }
  }

  /** The concrete input: "BadToken" names no command. */
  lemma BadTokenReachesNull()
    ensures ScanAsWritten(Ascii("BadToken"), 0) == NullName(9)
  {
    var t := Ascii("BadToken");
    forall j | 0 <= j < |Table|
      ensures Name(j) != t
    {
      assert Name(j)[0] != t[0];
    }
    ScanAsWrittenReachesNull(t, 0);
  }

  /** The names `Help_Callback`'s listing loop sends as written: it runs over all
      `NUMBER_OF_COMMANDS` slots, and the slot after the nine rows has a NULL name. */
  function ListingAsWritten(): (r: seq<Option<string>>)
    ensures |r| == NumberOfCommands
    ensures forall i :: 0 <= i < |Table| ==> r[i] == Some(Names()[i])
    ensures r[|Table|] == None
  {
    seq(NumberOfCommands, i requires 0 <= i < NumberOfCommands => if i < |Table| then Some(Table[i].name) else None)
  }

  /** `Help_Callback` as written, on a token that names no command: its lookup loop
      compares the token against the NULL name in slot 9, and its listing loop then
      sends that NULL name. The line " BadToken" is such an input. */
  lemma HelpReachesNull(q: seq<byte>, junk: seq<byte>)
    requires |junk| >= 1 + CommandLength && Lookup(HelpToken(q, junk)).None?
    ensures ScanAsWritten(HelpToken(q, junk), 0) == NullName(|Table|)
    ensures ListingAsWritten()[|Table|] == None
  {
    ScanAsWrittenReachesNull(HelpToken(q, junk), 0);
  }

  /** The concrete input: "HelpInfo BadToken" leaves " BadToken" for `Help_Callback`,
      whatever its buffer held. */
  lemma HelpBadTokenReachesNull(junk: seq<byte>)
    requires |junk| >= 1 + CommandLength
    ensures Lookup(HelpToken(Ascii(" BadToken"), junk)).None?
    ensures ScanAsWritten(HelpToken(Ascii(" BadToken"), junk), 0) == NullName(9)
  {
    var q := Ascii(" BadToken");
    assert HelpToken(q, junk) == Ascii("BadToken");
    BadTokenReachesNull();
    ScanAsWrittenReachesNull(Ascii("BadToken"), 0);
  }
}
