# SnoozeProof alarm firmware in Dafny

SnoozeProof is a Raspberry Pi Pico bed alarm. An operator talks to it over an HC-05
Bluetooth serial link. They type eight-character commands such as `SetClock`,
`SetAlarm`, `SetUpper` and `SetTolTo`, each followed by a line of arguments. The
firmware keeps an alarm window, a start time and a stop time, in the real-time clock.
Inside that window the main loop compares a load-cell sample with a percentage of a
calibrated threshold. The PIO buzzer beeps while the bed is occupied.

This project models that core and proves properties of it:

- `ctypes.dfy` (module `CTypes`) writes out the C semantics the firmware relies on:
  bytes, C's truncating `/`, and the `int8_t`, `int16_t`, `uint8_t` and 32-bit
  `long` conversions.
- `clock.dfy` (`Clock`) covers `str2int` and the 22-byte `SetClockType` layout. It
  also has the Julian day formula, `TimeCompare`, `TimeDifferenceSec` (exact, plus
  the 32-bit value) and `TimeDifference`.
- `clock_laws.dfy` (`ClockLaws`) proves the laws of the clock arithmetic:
  - the parse/format round trips and the `SetClock` usage example;
  - consecutive days get consecutive day numbers;
  - `TimeCompare` is the strict lexicographic order;
  - elapsed seconds are antisymmetric and additive.
- `uart.dfy` (`Uart`) models the UART receive queue and transmit stream, with
  `uart_read_blocking_within_us`, `uart_read_until_within_us`, `uart_clear_rx_fifo`
  and `uart_puts`. A read timeout is the receive queue running empty.
- `commands.dfy` (`Commands`) holds the `CommandLookup` table, the first-match
  lookup, and class `Scheduler`.
  - The class holds the shared globals: the clock, the RTC's one alarm slot, the
    window, `In_Alarm_Window`, `Threshold` and `Scale_Sensitivity`.
  - Every callback of the command table is a method of it, as are
    `Enter_Alarm_Window`/`Exit_Alarm_Window` and the RTC alarm firing.
  - Handlers return a response tag, not the exact text.
- `command_laws.dfy` (`CommandLaws`) proves what the handlers do with typed input,
  and how the window-length check behaves as written.
- `hc05.dfy` (`Hc05`) models `BT_Data_Received` (read a token, dispatch, flush),
  `TestBluetooth`, `SendATCommand` and the AT-command builders. It also models the
  dispatch scan and `Help_Callback`'s loops over all ten declared table slots.
- `sensor.dfy` (`PressureSensor`) covers the `IN_BED_Q` occupancy test and
  `INITIAL_THRESHOLD`.
- `buzzer.dfy` (`Buzzer`) covers the PIO buzzer flags, the toggle timer and the
  `BuzzerCallback` counter.
- `main_loop.dfy` (`MainLoop`) models one pass of `main`'s `while (1)` loop.

Some inputs are parameters rather than hardware reads:

- a stack buffer's contents before a read are `junk`;
- the ADC sample is `reading`;
- the bytes the Bluetooth module sends back are `reply`.

Time advances only through `SetClock` and through the RTC alarm firing
(`Commands.Scheduler.AlarmFires`).

Two behaviours of the code are worth noting:

- A token that names no command gets no reply at all: the dispatch loop in
  `BT_Data_Received` (HC05.c:148-154) sends nothing when no row matches.
- `Set_Alarm_Callback` (CommandList.h:326-401) writes the new window into the globals
  first. It puts the old values back when a check fails.

## Model

| member | source | states |
|---|---|---|
| CTypes.CDiv | CommandList.h:66-67 | C's `/` for a positive divisor: the remainder is smaller than the divisor in magnitude and has the sign of the dividend. |
| CTypes.Int8 | CommandList.h:206-211 | Storing into an `int8_t` field wraps modulo 256 into [-128, 128) and keeps values already in range. |
| CTypes.Int16 | CommandList.h:205 | Storing the year into an `int16_t` wraps modulo 65536 and keeps values already in range. |
| CTypes.Uint8 | CommandList.h:298 | Storing into the `uint8_t` `Scale_Sensitivity` reduces modulo 256 and keeps values already in range. |
| CTypes.Int32 | CommandList.h:93-107 | A 32-bit `long` result wraps modulo 2^32 into the signed range and keeps values already in range. |
| Clock.Str2Int | CommandList.h:53-61 | `str2int(str, len)` returns the decimal value of the first `len` bytes, and 0 for a non-positive `len`. |
| Clock.DigitsValueBounds | CommandList.h:53-61 | A run of n ASCII digits reads as a value in [0, 10^n). |
| Clock.DigitsValueOfPad | CommandList.h:53-61 | Reading back a zero-padded field gives the number written into it. |
| Clock.PadOfDigitsValue | CommandList.h:53-61 | Writing back the value of a run of digits reproduces the run. |
| Clock.DigitRun | CommandList.h:53-61 | Any run of digits inside a buffer is bounded by its width and written back as itself. |
| Clock.FormatDateTime | CommandList.h:31-46 | The block an operator types is exactly the 22 bytes `SetClockType` overlays. |
| Clock.ReadDateTime | CommandList.h:204-212 | The seven `str2int` calls over a block give that block's parse: the fields at offsets 1-4, 6-7, 9-10, 12, 14-15, 17-18 and 20-21, stored at their C widths. |
| Clock.TimeDifferenceSec32 | CommandList.h:93-107 | The 32-bit result equals the exact elapsed seconds whenever those fit a `long`. |
| Clock.TimeDifference | CommandList.h:108-120 | The four outputs add back up to the elapsed seconds. Hours, minutes and seconds stay below 24, 60 and 60 in magnitude, and all parts share the total's sign. |
| Clock.SplitIsUnique | CommandList.h:108-120 | Those conditions determine the days, hours, minutes and seconds uniquely. |
| ClockLaws.ParseFormatRoundTrip | CommandList.h:204-212 | Parsing the typed block of a date-time gives that date-time back, whatever follows the block. |
| ClockLaws.ParsedFieldsFit | CommandList.h:204-212 | A block with digits in its digit fields parses to fields that fit their widths, so no store wraps. |
| ClockLaws.ParsedFieldsRewrite | CommandList.h:204-212 | Each parsed field, zero padded to its width, is the bytes it was read from. |
| ClockLaws.FormatFields | CommandList.h:31-46 | In the typed block, each field sits at its `SetClockType` offset and every separator is a space. |
| ClockLaws.FormatParseRoundTrip | CommandList.h:204-212 | Formatting a parsed block reproduces its digits, and reproduces the whole block when the separators are spaces. |
| ClockLaws.SetClockUsageParse | CommandList.h:149 | The bytes of the usage example parse to 2023-01-14, day of week 6, 15:45:00. |
| ClockLaws.SetClockUsageExample | CommandList.h:149 | The usage example " 2023 01 14 6 15 45 00" sets 3:45:00 pm on Saturday 14 January 2023, as the usage text says. |
| ClockLaws.JulianDayShape | CommandList.h:63-70 | From year -7999 on, the shifted year is not negative, so the formula's truncating divisions are ordinary floor divisions. |
| ClockLaws.MonthTerm | CommandList.h:67 | The month term `(m*153+3)/5` grows by the length of each month from March round to January. |
| ClockLaws.LeapStep | CommandList.h:66 | The year terms `y/4 - y/100 + y/400` grow by one exactly when the new year is a Gregorian leap year. |
| ClockLaws.LeapShift | CommandList.h:64 | Adding the formula's 8000-year offset does not change whether a year is a leap year. |
| ClockLaws.JulianDayEndOfFebruary | CommandList.h:63-70 | March 1st comes one day number after the last day of February, in leap and common years alike. |
| ClockLaws.JulianDayEndOfMonth | CommandList.h:63-70 | The first of the next month, or January 1st of the next year, comes one day number after the last day of a month. |
| ClockLaws.JulianDayNextDay | CommandList.h:63-70 | For every valid date from year -7999 on, the calendar's next day has the next day number. |
| ClockLaws.TimeCompareIsLexLess | CommandList.h:72-91 | `TimeCompare` is exactly strict lexicographic order on (year, month, day, hour, min, sec). |
| ClockLaws.TimeCompareIsStrictOrder | CommandList.h:72-91 | `TimeCompare` is false on equal times and never true both ways. It is transitive, holds one way or the other for times that differ in a compared field, and ignores `dotw`. |
| ClockLaws.TimeDifferenceSecLaws | CommandList.h:93-107 | The exact elapsed seconds are 0 from a time to itself, change sign when the times swap, and add up along a chain of three times. |
| ClockLaws.TimeDifferenceSecOfNextSecond | CommandList.h:93-107 | For every valid reading from year -7999 on, the reading one second later is one elapsed second away. This holds across minute, hour, day, month and year boundaries. |
| ClockLaws.LongWindowWraps | CommandList.h:93-107 | A window from 2023-01-14 to 2159-02-20 06:28:46 spans 2^32 + 30 seconds, which a 32-bit `long` holds as 30. |
| Uart.FirstReach | HC05.c:54-69 | The index found is the first at which the count of end bytes read reaches `count_to`; when none is found, no index below the limit reaches it. |
| Uart.ReadUntilOutcome | HC05.c:49-73 | The return value and the number of bytes popped never exceed `buffer_size`, and the bytes popped never exceed the bytes queued. |
| Uart.Filled | HC05.c:66 | After the read, the buffer holds the bytes read, followed by its old contents. |
| Uart.CString | HC05.c:239 | `uart_puts` sends a prefix of the string that contains no NUL and stops at the first NUL. |
| Uart.FirstReachIsEndByte | HC05.c:66-69 | When the read stops on its count, the byte at the returned index is the end byte. |
| Uart.FirstReachOfOne | HC05.c:66-69 | Waiting for one end byte stops at its first occurrence, or finds none in range. |
| Uart.FirstEndByte | HC05.c:66-69 | If the first end byte sits at index k inside the buffer, the read returns k: an index, not a length. |
| Uart.NoEndByteRead | HC05.c:54-72 | Without an end byte in range, the read returns the smaller of `buffer_size` and the number of queued bytes. |
| Uart.ReadsPastEndFree | HC05.c:54-72 | A read pops at least every byte before the first end byte that fits in the buffer. |
| Uart.CStringOfNulFree | HC05.c:239 | A string without a NUL, followed by a terminator, is sent whole. |
| Uart.Uart.Puts | HC05.c:239 | `uart_puts` appends the C string to the transmit stream and leaves the receive queue alone. |
| Uart.Uart.ClearRxFifo | HC05.c:14-21 | `uart_clear_rx_fifo` leaves the receive queue empty and sends nothing. |
| Uart.Uart.ReadBlocking | HC05.c:27-44 | `uart_read_blocking_within_us` stores and pops exactly the first min(len, queued) bytes, in order, and leaves the rest of `dst` as it was. |
| Uart.Uart.ReadUntil | HC05.c:49-73 | `uart_read_until_within_us` returns what `ReadUntilOutcome` says. The popped bytes are stored in order, the rest of `dst` is untouched, and the queue loses exactly those bytes. |
| Uart.ReadUntilStops | HC05.c:58-61 | When the queue runs out or the buffer fills before the count is reached, the read returns the number of bytes stored. |
| Uart.ReadUntilHits | HC05.c:66-69 | When byte i completes the count, the read returns i after storing i + 1 bytes. |
| PressureSensor.InBedFitsInt | PressureSensor.h:14 | For a 12-bit reading, a `uint8_t` sensitivity and a `uint16_t` threshold, neither side of `IN_BED_Q` overflows an `int`. |
| PressureSensor.InBedMonotone | PressureSensor.h:14 | A heavier reading than an occupied one is occupied too. |
| PressureSensor.InBedAntitone | PressureSensor.h:14 | Lowering the threshold or the sensitivity keeps an occupied bed occupied. |
| PressureSensor.InBedWhenZero | PressureSensor.h:14 | With a zero threshold or a zero sensitivity, every reading counts as in bed. |
| PressureSensor.InBedExample | PressureSensor.h:11-14 | At 50 % and a threshold of 1000, 500 is in bed and 400 is not. At the start-up values, half of `INITIAL_THRESHOLD` (2048) is in bed. |
| Buzzer.CallbackStep | Buzzer.c:69-85 | One callback toggles the pin below `BUZZER_BEEP_HALF_PERIOD` and holds it low up to `2*2359`. The call after that restarts the count at 0, and the count stays in [0, 4719]. |
| Buzzer.Callbacks | Buzzer.c:69-85 | Any number of callbacks keep the count in [0, 4719]. |
| Buzzer.CallbacksCount | Buzzer.c:83 | Until the restart, each callback adds one to the count. |
| Buzzer.CallbacksSilent | Buzzer.c:78-81 | In the second half of the period the pin stays low. |
| Buzzer.CallbackPeriod | Buzzer.c:69-85 | From 0 the counter returns to 0 after 4720 callbacks, with the pin low at the end of the silent half. |
| Buzzer.Buzzer.constructor | Buzzer.c:9-11 | The globals start not beeping, with state 0 and count 0. |
| Buzzer.Buzzer.TurnOnPio | Buzzer.c:28-31 | `PIOBuzzerState` becomes 1 and nothing else changes. |
| Buzzer.Buzzer.TurnOffPio | Buzzer.c:34-37 | `PIOBuzzerState` becomes 0 and nothing else changes. |
| Buzzer.Buzzer.TogglePio | Buzzer.c:41-47 | Swaps state 0 and 1, leaves any other value alone, and keeps the timer repeating. |
| Buzzer.Buzzer.StartBeeping | Buzzer.c:93-99 | Afterwards the buzzer is beeping with its toggle timer running. A second call changes nothing. |
| Buzzer.Buzzer.StopBeeping | Buzzer.c:101-109 | Afterwards the buzzer is not beeping and its timer is stopped. The state is 0 if it was beeping, and unchanged if it was not. |
| Buzzer.Buzzer.Callback | Buzzer.c:69-85 | The count and pin move as `CallbackStep` says, within the period bounds; the PIO flags are untouched. |
| Commands.Names | CommandList.h:178-182 | The listed names are the table's names, in table order. |
| Commands.LookupFrom | HC05.c:148-154 | The row found is the first at or after `from` whose name equals the token; none means that no such row exists. |
| Commands.FindCommand | HC05.c:148-154 | The dispatch loop returns the first row whose name equals the token, and returns none exactly when no row matches. |
| Commands.NamesAreCommandLength | HC05.c:140-150 | Every name is `COMMAND_LENGTH` bytes, so a token cut short by a timeout selects nothing. |
| Commands.LookupOfName | CommandList.h:146-158 | Each command's own name selects that command's row. |
| Commands.NamesDiffer | CommandList.h:146-158 | The nine names are pairwise distinct. |
| Commands.WindowVerdictMeaning | CommandList.h:367-392 | A window passes exactly when it starts after now, stops after its start and lasts at most `MAX_ALARM_WINDOW` seconds. Each rejection names a check that really failed, in the source's order. |
| Commands.LineRead | CommandList.h:198 | A handler's line read pops no more than its buffer holds or the queue has. |
| Commands.ToleranceRead | CommandList.h:292-298 | The stored tolerance is a `uint8_t`. |
| Commands.HelpToken | CommandList.h:162-167 | HelpInfo looks up bytes 1 to 8 of its nine-byte stack buffer. After a full read these are the eight bytes after the separator. After a short read, the bytes past the end of the input are whatever the buffer held before. |
| Commands.Scheduler.constructor | main.c:13-32 | The globals start with sensitivity 50, not in the window, both window times all-zero and the threshold at 2048; no alarm is pending. |
| Commands.Scheduler.SetClockCallback | CommandList.h:187-223 | Inside the window it refuses and changes nothing. Otherwise the clock becomes the date-time parsed from the line read, and the reply reports it. |
| Commands.Scheduler.ReadClock | CommandList.h:194-212 | Reads one line of at most 24 bytes and parses the block at its start. |
| Commands.Scheduler.GetClockCallback | CommandList.h:225-246 | Reports the current clock. |
| Commands.Scheduler.GetWeightCallback | CommandList.h:253-267 | Reports the ADC sample. |
| Commands.Scheduler.SetScaleThreshold | CommandList.h:269-283 | Inside the window it refuses and changes nothing. Otherwise the sample becomes the threshold. |
| Commands.Scheduler.SetScaleSensitivity | CommandList.h:285-303 | Inside the window it refuses and changes nothing. Otherwise the sensitivity becomes `100 - p` (as a `uint8_t`) for the percentage read. |
| Commands.Scheduler.ReadTolerance | CommandList.h:292-298 | Reads one line of at most 4 bytes and computes `100 - str2int(digits, last - 2)` as a `uint8_t`. |
| Commands.Scheduler.SetAlarmCallback | CommandList.h:319-402 | Inside the window it refuses and changes nothing. Otherwise it reads the window. A window that fails a check leaves the old window and the pending alarm in place and reports the first failed check. A window that passes is stored, with its start edge scheduled. |
| Commands.Scheduler.ScheduleWindow | CommandList.h:326-401 | Stores the window. When a check fails it restores the saved start and stop and leaves the RTC alarm as it was; otherwise the alarm becomes (start, Enter). The shared invariant is kept. |
| Commands.Scheduler.ReadWindow | CommandList.h:330-354 | Reads one line of at most 48 bytes and parses the start block and the stop block from it. |
| Commands.Scheduler.GetAlarmCallback | CommandList.h:404-484 | An all-zero start reports no alarm. Otherwise it reports the time left until the start (outside the window) or until the stop (inside it), split into days, hours, minutes and seconds. |
| Commands.Scheduler.ClearAlarmCallback | CommandList.h:486-515 | Inside the window it refuses and changes nothing. Otherwise no alarm is pending and both window times are all-zero. |
| Commands.Scheduler.EnterAlarmWindow | CommandList.h:305-311 | The window opens and (stop, Exit) is scheduled. |
| Commands.Scheduler.ExitAlarmWindow | CommandList.h:312-317 | The window flag drops first, so the clearing passes its guard: no alarm pending, both times zero, the invariant restored. |
| Commands.Scheduler.AlarmFires | CommandList.h:305-317 | When the pending alarm fires, the clock reads its time. A start edge opens the window with the stop edge pending. A stop edge closes the window and clears the alarm. |
| Commands.Scheduler.HelpCallback | CommandList.h:161-185 | A token naming a command gets that command's usage text. Any other token gets the list of every name. |
| CommandLaws.SetClockReadsTypedTime | CommandList.h:194-212 | A typed date-time after `SetClock` sets the clock to exactly that date-time, whatever ends the line. |
| CommandLaws.SetAlarmReadsTypedWindow | CommandList.h:330-354 | Two typed date-times after `SetAlarm` are read as exactly that start and stop. |
| CommandLaws.WindowOfTypedBlocks | CommandList.h:337-354 | The `WindowType` overlay of two typed blocks parses to those two date-times. |
| CommandLaws.ToleranceOfTwoDigits | CommandList.h:292-298 | `SetTolTo` with a two-digit percentage p and CR LF stores `100 - p`. |
| CommandLaws.ToleranceOfOneDigit | CommandList.h:292-298 | `SetTolTo` with a one-digit percentage p and CR LF stores `100 - p`. |
| CommandLaws.ToleranceWithBareLineFeed | CommandList.h:295-298 | A two-digit percentage ended by a bare LF loses its second digit, because the read returns the index of the LF. |
| CommandLaws.WindowVerdictAsWritten | CommandList.h:367-392 | The checks as written accept exactly when the start is after now, the stop is after the start and the 32-bit difference is at most the maximum window. They refuse with "start not after now" exactly when the start is not after now. They refuse with "stop not after start" exactly when the start is after now but the stop is not after the start. A "too long" refusal means the 32-bit difference exceeds the maximum window. |
| CommandLaws.VerdictsAgreeWithin32Bits | CommandList.h:385 | While the span fits a 32-bit `long`, the checks as written agree with the exact ones. |
| CommandLaws.LongWindowPassesAsWritten | CommandList.h:385 | A typed window of 136 years and 30 seconds is read whole. It passes the check as written but fails the exact one. |
| Hc05.TokenOf | HC05.c:140-143 | The token is the first `COMMAND_LENGTH` queued bytes, or all of them when fewer arrive. |
| Hc05.HandlerEffect | CommandList.h:187-515 | Inside the alarm window, no handler changes the globals, and none changes the window flag. A handler only ever consumes a prefix of the queued bytes. |
| Hc05.RunHandler | HC05.c:151 | The selected callback leaves exactly the globals and queue that `HandlerEffect` gives for the old globals and queue. Its response is the one `Responds` gives, and the shared invariant is kept. |
| Hc05.BtDataReceived | HC05.c:132-161 | With nothing queued, nothing happens. Otherwise the handler of the first matching row runs on the bytes after the token, and the globals become what `HandlerEffect` gives. No handler runs when no row matches. The receive queue is always empty afterwards. |
| Hc05.DispatchOfName | HC05.c:140-151 | A row's name followed by its arguments selects that row, and the handler reads exactly those arguments. |
| Hc05.SetClockEffect | CommandList.h:187-223 | Outside the window, SetClock sets the clock to the date-time it reads, and changes no other global. |
| Hc05.SetAlarmEffect | CommandList.h:319-402 | Outside the window, SetAlarm leaves the globals as `Scheduled` gives them for the window it reads: stored with the start edge pending if it passes the checks, unchanged if not. |
| Hc05.SetClockOfTypedTime | CommandList.h:194-212 | SetClock on a typed date-time sets the clock to exactly that date-time. |
| Hc05.SetAlarmOfTypedWindow | CommandList.h:330-392 | SetAlarm on two typed date-times schedules exactly that start and stop, or leaves the globals alone. |
| Hc05.TypedSetClockSetsClock | HC05.c:132-161 | The bytes "SetClock" followed by a typed date-time, received outside the window, select SetClock, and the clock becomes that date-time with no other global changed. |
| Hc05.TypedSetAlarmSchedules | HC05.c:132-161 | The bytes "SetAlarm" followed by two typed date-times, received outside the window, select SetAlarm. That exact window is scheduled when it passes the checks. |
| Hc05.ReplyIsOk | HC05.c:224-232 | The check succeeds exactly when the four bytes are "OK\r\n". |
| Hc05.SendATCommand | HC05.c:235-242 | Flushes the receive queue, sends the command up to its NUL, and reads up to `response_length` reply bytes into the buffer. |
| Hc05.TestBluetooth | HC05.c:214-233 | Sends "AT\r\n" and returns true exactly when the four bytes read back are "OK\r\n". |
| Hc05.BuildAtCommand | HC05.c:250-269 | The command buffer holds the 8-byte prefix, then the first `len` parameter bytes, then CR, LF and NUL. |
| Hc05.ChangeSetting | HC05.c:247-285 | Sends prefix, parameter and CR LF, and returns false whatever the reply. |
| Hc05.ChangeBluetoothName | HC05.c:247-285 | Sends "AT+NAME=" with the name and CR LF, and returns false whatever the reply. |
| Hc05.ChangeBluetoothPswd | HC05.c:290-328 | Sends "AT+PSWD=" with the password and CR LF, and returns false whatever the reply. |
| Hc05.ScanAsWrittenReachesNull | HC05.c:148-154 | The scan over ten slots finds the same row as the nine-row lookup, and reaches the NULL name in slot 9 for any other token. |
| Hc05.BadTokenReachesNull | HC05.c:149-150 | The token "BadToken" makes the scan as written compare against the NULL name in slot 9. |
| Hc05.ListingAsWritten | CommandList.h:176-181 | The listing loop as written sends the nine names in table order. In slot 9 it sends the NULL name. |
| Hc05.HelpReachesNull | CommandList.h:170-182 | For a HelpInfo argument that names no command, including bytes the buffer held before, the lookup loop as written compares against the NULL name in slot 9. The listing loop then sends that NULL name. |
| Hc05.HelpBadTokenReachesNull | CommandList.h:170-182 | The argument " BadToken" names no command and takes `Help_Callback` as written to the NULL name. |
| MainLoop.LoopIteration | main.c:48-63 | After one pass, the buzzer beeps exactly when the window is open and the bed is occupied. Outside the window, or with an empty bed, beeping stops. |

## Left out

- Interrupt concurrency: the UART interrupt, the RTC alarm callbacks and the main loop
  are separate atomic events on the shared state (`BtDataReceived`, `AlarmFires`,
  `LoopIteration`); interleavings inside one of them are not modelled.
- Real time: `time_us_32`, busy waits, sleeps and `__wfi`. A read timeout is the
  receive queue running empty. The clock moves only through `SetClock` and the alarm
  firing.
- The RTC SDK: `rtc_set_datetime` and `rtc_set_alarm` validate their arguments and
  match `dotw` inside the SDK, which is not part of this model. `rtc_get_datetime` is
  the field `now`, and an alarm fires once at its time.
- Text formatting: `datetime_to_str`, `sprintf`, `printf` and the fixed reply strings
  are replaced by response tags (`Commands.Response`); the exact bytes sent back are
  not modelled, so handlers' `tx` is unchanged in the model.
- `BT_Connect_Callback`, `InitializeBluetooth`, `SetBluetoothDataMode`,
  `SetBluetoothCmdMode`, `InitializeBuzzer`, `pio_pwm_set_period`, `InitializeADC`,
  `TurnOnBuzzer`, `TurnOffBuzzer` and `BuzzerTest` are hardware bring-up and timer
  registration with no decision logic; they are not modelled.
- `Zero_Scale_Callback` and the `LoadZero` table row are commented out of the table
  and do nothing, so they are not modelled.
- Clock.Str2Int: `int` arithmetic is unbounded here; the 32-bit overflow of a very long
  digit run cannot occur for the widths the handlers pass (at most 4 digits).
- Clock.TimeDifference: computed from the exact elapsed seconds, not from the 32-bit
  `long` that wraps for dates more than about 68 years apart (see Findings).
- Commands.Scheduler.HelpCallback: the source reads 9 bytes into an 8-byte stack buffer
  and starts its loops with an uninitialised `uint8_t i`; the model reads into a
  9-byte buffer and starts at row 0, as evidently intended. Both of its loops run over
  ten slots, one past the nine rows; the model of the handler uses the nine rows, and
  the ten-slot loops are modelled separately (see Findings).
- Commands.Scheduler.ReadTolerance: `&readbuffer + 1` as written points past the whole
  4-byte array (undefined behaviour); the model reads from the byte after the
  separator, as evidently intended.
- Buzzer.Buzzer.TogglePio: the source falls off the end of a `bool` function; the model
  returns true, which keeps the repeating timer running as evidently intended.
- Hc05.BtDataReceived: a short read leaves the tail of the token buffer uninitialised;
  the model treats a short token as matching no command.
- Hc05.BuildAtCommand: requires `len + 10 < 256`; beyond that the `uint8_t` `cmd_len`
  wraps and the `malloc`ed buffer is too small, which is not modelled. The `malloc`ed
  buffer is never freed; the leak is not modelled either.
- Commands.ToleranceRead and Commands.LineRead: their own contracts only bound the
  result; what they compute is stated by the `CommandLaws` lemmas on typed input.
- The `SetClockType` digit fields are not validated by the firmware; the round-trip
  lemmas assume digits at digit positions (`DigitFields`, `Formattable`).

## Findings

| source | as written | input that shows it | evidently intended | confidence | as-written member | corrected member |
|---|---|---|---|---|---|---|
| CommandList.h:93-107 | `TimeDifferenceSec` computes `day_difference*86400 + ...` in a 32-bit `long`, which wraps, and `Set_Alarm_Callback` (line 385) compares that wrapped value with `MAX_ALARM_WINDOW` | a window from 2023-01-14 00:00:00 to 2159-02-20 06:28:46: its span of 2^32 + 30 seconds wraps to 30 and the window is accepted | reject every window longer than 86400 seconds | not executed | CommandLaws.LongWindowPassesAsWritten | Commands.WindowVerdictMeaning |
| HC05.c:149-150 | the dispatch loop runs to `NUMBER_OF_COMMANDS` (10, CommandList.h:21) but the table initialises nine rows, so slot 9 has a NULL name passed to `strncmp` | the token "BadToken" | compare only against the nine real rows | not executed | Hc05.BadTokenReachesNull | Commands.FindCommand |
| CommandList.h:170-182 | both loops of `Help_Callback` run to `NUMBER_OF_COMMANDS` (10) over nine initialised rows: an unmatched argument is compared with slot 9's NULL `CmdName`, and the listing then sends that NULL name | the line "HelpInfo BadToken" | compare with and list only the nine real rows | not executed | Hc05.HelpReachesNull | Commands.Scheduler.HelpCallback |
