/** The bed-occupancy test: the load-cell sample against a percentage of the
    threshold weight. */
module PressureSensor {

  /** A 12-bit ADC sample, as `adc_read` returns it. */
  type Sample = x: int | 0 <= x < 4096

  /** `INITIAL_THRESHOLD`: `1 << 11`. */
  const InitialThreshold := 2048

  /** `IN_BED_Q`: the bed counts as occupied when the reading is at least `sensitivity`
      percent of the threshold, compared without a division. */
  predicate InBed(reading: int, sensitivity: int, threshold: int)
  {
    100 * reading >= sensitivity * threshold
  }

  /** Both sides of the comparison fit a C `int` for a 12-bit reading, a `uint8_t`
      sensitivity and a `uint16_t` threshold, so the test computes what it says. */
  lemma InBedFitsInt(reading: Sample, sensitivity: int, threshold: int)
    requires 0 <= sensitivity < 256 && 0 <= threshold < 65536
    ensures 0 <= 100 * reading < 0x8000_0000
    ensures 0 <= sensitivity * threshold < 0x8000_0000
  {
    assert sensitivity * threshold <= 255 * threshold <= 255 * 65535;
  }

  /** A heavier reading stays in bed. */
  lemma InBedMonotone(r1: int, r2: int, sensitivity: int, threshold: int)
    requires r1 <= r2 && InBed(r1, sensitivity, threshold)
    ensures InBed(r2, sensitivity, threshold)
  {
  }

  /** Lowering the threshold or the sensitivity keeps an occupied bed occupied. */
  lemma InBedAntitone(reading: int, s1: int, s2: int, t1: int, t2: int)
    requires 0 <= s2 <= s1 && 0 <= t2 <= t1 && InBed(reading, s1, t1)
    ensures InBed(reading, s2, t2)
  {
    assert s2 * t2 <= s1 * t2 <= s1 * t1;
  }

  /** With a zero threshold or a zero sensitivity every reading counts as in bed. */
  lemma InBedWhenZero(reading: Sample, sensitivity: int, threshold: int)
    requires sensitivity == 0 || threshold == 0
    ensures InBed(reading, sensitivity, threshold)
  {
  }

  /** With the start-up sensitivity of 50 % and a threshold of 1000, a reading of 500
      is in bed and one of 400 is not. */
  lemma InBedExample()
    ensures InBed(500, 50, 1000) && !InBed(400, 50, 1000)
    ensures InBed(InitialThreshold / 2, 50, InitialThreshold)
  {
  }
}
