/** The buzzer driver's state: the PIO square-wave generator switched on and off by a
    repeating toggle timer, and the software buzzer's call counter. */
module Buzzer {

  /** `BUZZER_BEEP_HALF_PERIOD`: callbacks per half beep of the software buzzer. */
  const BeepHalfPeriod := 2359

  /** The largest `BuzzerCallCount` reaches: the count restarts on the call after it. */
  const LastCount := 2 * BeepHalfPeriod + 1

  /** One `BuzzerCallback` on the call count and the pin level. */
  function CallbackStep(count: int, pinHigh: bool): (r: (int, bool))
    requires 0 <= count <= LastCount
    ensures 0 <= r.0 <= LastCount
    ensures r.0 == 0 <==> count == LastCount
    ensures count < LastCount ==> r.0 == count + 1
    ensures count < BeepHalfPeriod ==> r.1 == !pinHigh
    ensures BeepHalfPeriod <= count < LastCount ==> !r.1
    ensures count == LastCount ==> r.1 == pinHigh
  {
    if count < BeepHalfPeriod then (count + 1, !pinHigh)
    else if count > BeepHalfPeriod * 2 then (0, pinHigh)
    else (count + 1, false)
  }

  /** `n` callbacks in a row. */
  function Callbacks(n: nat, count: int, pinHigh: bool): (r: (int, bool))
    requires 0 <= count <= LastCount
    ensures 0 <= r.0 <= LastCount
  {
    if n == 0 then (count, pinHigh)
    else var s := CallbackStep(count, pinHigh); Callbacks(n - 1, s.0, s.1)
  }

  /** Until the restart, each callback counts one up. */
  lemma {:induction false} CallbacksCount(n: nat, count: int, pinHigh: bool)
    requires 0 <= count && count + n <= LastCount
    ensures Callbacks(n, count, pinHigh).0 == count + n
  {
    if n > 0 {
      var s := CallbackStep(count, pinHigh);
      CallbacksCount(n - 1, s.0, s.1);
    }
  }

  /** In the second half of the period the pin stays low. */
  lemma {:induction false} CallbacksSilent(n: nat, count: int, pinHigh: bool)
    requires BeepHalfPeriod <= count && count + n <= LastCount && n > 0
    ensures !Callbacks(n, count, pinHigh).1
  {
    var s := CallbackStep(count, pinHigh);
    if n > 1 {
      CallbacksSilent(n - 1, s.0, s.1);
    }
  }

  /** The software buzzer repeats every `2 * BUZZER_BEEP_HALF_PERIOD + 2` callbacks: the
      count is back at 0 and the pin was toggled in the first half, low in the second. */
  lemma CallbackPeriod(pinHigh: bool)
    ensures Callbacks(LastCount + 1, 0, pinHigh).0 == 0
    ensures !Callbacks(LastCount, 0, pinHigh).1
  {
    CallbacksSplit(BeepHalfPeriod, LastCount - BeepHalfPeriod, 0, pinHigh);
    var h := Callbacks(BeepHalfPeriod, 0, pinHigh);
    CallbacksCount(BeepHalfPeriod, 0, pinHigh);
    CallbacksSilent(LastCount - BeepHalfPeriod, h.0, h.1);
    CallbacksSplit(LastCount, 1, 0, pinHigh);
    CallbacksCount(LastCount, 0, pinHigh);
  }

  /** Running `m + n` callbacks is running `m` and then `n`. */
  lemma {:induction false} CallbacksSplit(m: nat, n: nat, count: int, pinHigh: bool)
    requires 0 <= count <= LastCount
    ensures var h := Callbacks(m, count, pinHigh); Callbacks(m + n, count, pinHigh) == Callbacks(n, h.0, h.1)
  {
    if m > 0 {
      var s := CallbackStep(count, pinHigh);
      CallbacksSplit(m - 1, n, s.0, s.1);
    }
  }

  class Buzzer {
    /** `PIO_Buzzing`: the PIO buzzer is beeping. */
    var buzzing: bool
    /** `PIOBuzzerState`: the last word written to the PIO state machine (`uint8_t`). */
    var pioState: int
    /** The repeating timer that calls `TogglePIOBuzzer` is registered. */
    var toggleTimer: bool
    /** `BuzzerCallCount` (`uint16_t`). */
    var callCount: int
    /** The level of `BUZZER_PIN`. */
    var pinHigh: bool

    /** The toggle timer runs exactly while beeping; the call count stays within one beep
        period; `PIOBuzzerState` is a byte. */
    predicate Valid()
      reads this
    {
      toggleTimer == buzzing && 0 <= callCount <= LastCount && 0 <= pioState < 256
    }

    /** The globals' start-up values. */
    constructor()
      ensures Valid() && !buzzing && pioState == 0 && !toggleTimer && callCount == 0 && !pinHigh
    {
      buzzing := false;
      pioState := 0;
      toggleTimer := false;
      callCount := 0;
      pinHigh := false;
    }

    /** `TurnOnPIOBuzzer`: writes 1 to the state machine. */
    method TurnOnPio()
      modifies this
      ensures pioState == 1
      ensures buzzing == old(buzzing) && toggleTimer == old(toggleTimer)
      ensures callCount == old(callCount) && pinHigh == old(pinHigh)
    {
      pioState := 1;
    }

    /** `TurnOffPIOBuzzer`: writes 0 to the state machine. */
    method TurnOffPio()
      modifies this
      ensures pioState == 0
      ensures buzzing == old(buzzing) && toggleTimer == old(toggleTimer)
      ensures callCount == old(callCount) && pinHigh == old(pinHigh)
    {
      pioState := 0;
    }

    /** `TogglePIOBuzzer`, the toggle timer's callback: swaps 0 and 1 and leaves any other
        value alone. It returns true, so that the timer keeps repeating. */
    method TogglePio() returns (keepRepeating: bool)
      requires Valid()
      modifies this
      ensures Valid() && keepRepeating
      ensures pioState == (if old(pioState) == 0 then 1 else if old(pioState) == 1 then 0 else old(pioState))
      ensures buzzing == old(buzzing) && toggleTimer == old(toggleTimer)
      ensures callCount == old(callCount) && pinHigh == old(pinHigh)
    {
      if pioState == 0 {
        TurnOnPio();
      } else if pioState == 1 {
        TurnOffPio();
      }
      keepRepeating := true;
    }

    /** `StartBeepingPIOBuzzer`: starts the toggle timer unless already beeping. */
    method StartBeeping()
      requires Valid()
      modifies this
      ensures Valid() && buzzing && toggleTimer
      ensures pioState == old(pioState) && callCount == old(callCount) && pinHigh == old(pinHigh)
    {
      if !buzzing {
        buzzing := true;
        toggleTimer := true;
      }
    }

    /** `StopBeepingPIOBuzzer`: cancels the toggle timer and leaves the generator off;
        does nothing when not beeping. */
    method StopBeeping()
      requires Valid()
      modifies this
      ensures Valid() && !buzzing && !toggleTimer
      ensures pioState == (if old(buzzing) then 0 else old(pioState))
      ensures callCount == old(callCount) && pinHigh == old(pinHigh)
    {
      if buzzing {
        toggleTimer := false;
        TurnOffPio();
        buzzing := false;
      }
    }

    /** `BuzzerCallback`: toggles the pin for the first half of the period, holds it low
        for the second, and starts over once the count passes twice the half period. */
    method Callback() returns (keepRepeating: bool)
      requires Valid()
      modifies this
      ensures Valid() && keepRepeating
      ensures (callCount, pinHigh) == CallbackStep(old(callCount), old(pinHigh))
      ensures buzzing == old(buzzing) && pioState == old(pioState) && toggleTimer == old(toggleTimer)
    {
      if callCount < BeepHalfPeriod {
        pinHigh := !pinHigh;
      } else if callCount > BeepHalfPeriod * 2 {
        callCount := 0;
        return true;
      } else {
        pinHigh := false;
      }
      callCount := callCount + 1;
      keepRepeating := true;
    }
  }
}
