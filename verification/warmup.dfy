/**
 The Adafruit variant's start-up warm-up gate: for at most 30 seconds,
 poll the gas sensor once a second and stop early at the first reading above
 the sensor's floor.
 */
module Warmup {

  import opened Timing
  import opened AirQuality

  /** A reading past warm-up: eCO2 above the 400 ppm floor and some TVOC. */
  predicate Ready(g: Gas) {
    g.eco2 > 400 && g.tvoc > 0
  }

  /**
   Seconds spent in the gate, given the reading the sensor returns `k`
   seconds after the gate opened at `start`. The loop runs while the clock is
   before the deadline and each pass takes one second.
   */
  method Gate(start: int, reading: nat -> Gas) returns (waited: nat)
    ensures waited <= 30
    ensures forall k :: 0 <= k < waited ==> !Ready(reading(k))
    ensures waited < 30 ==> Ready(reading(waited))
  {
    var deadline := start + WarmupSeconds;
    var now := start;
    while now < deadline
      invariant start <= now <= deadline
      invariant forall k :: 0 <= k < now - start ==> !Ready(reading(k))
      decreases deadline - now
    {
      if Ready(reading(now - start)) {
        break;
      }
      now := now + 1;
    }
    waited := now - start;
  }
}
