/** The firmware's main loop: the alarm window and the bed-occupancy test decide
    whether the buzzer beeps. */
module MainLoop {
  import opened PressureSensor
  import opened Commands
  import opened Buzzer

  /** One pass of the `while (1)` loop of `main`. Outside the alarm window the buzzer is
      stopped and the core waits for an interrupt; inside it the buzzer beeps exactly
      while the bed is occupied. `reading` is the ADC sample `IN_BED_Q` takes. */
  method LoopIteration(s: Scheduler, b: Buzzer, reading: Sample)
    requires b.Valid()
    modifies b
    ensures b.Valid()
    ensures b.buzzing <==> s.inWindow && InBed(reading, s.sensitivity, s.threshold)
    ensures !b.buzzing ==> b.pioState == (if old(b.buzzing) then 0 else old(b.pioState))
    ensures b.buzzing ==> b.pioState == old(b.pioState)
    ensures b.callCount == old(b.callCount) && b.pinHigh == old(b.pinHigh)
  {
    if !s.inWindow {
      b.StopBeeping();
    } else {
      if InBed(reading, s.sensitivity, s.threshold) {
        b.StartBeeping();
      } else {
        b.StopBeeping();
      }
    }
  }
}
