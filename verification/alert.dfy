/**
 The alert state machine that decides each tick whether the screen is on.
 Its state is the `screen_timeout` counter; a proximity hit re-arms it to 5
 and every on-tick then decrements it.
 */
module Alert {

  import opened AirQuality

  /** Proximity at or above this value counts as someone in front of the screen. */
  const TriggerProximity: nat := 5
  /** Value `screen_timeout` is re-armed to on a proximity hit. */
  const HoldTicks: int := 5

  /** Output of one tick: whether the screen is on, and the next timeout. */
  datatype Step = Step(on: bool, timeout: int)

  /** The Adafruit variant: only proximity or a positive timeout turns the screen on. */
  function AdafruitStep(timeout: int, prox: nat): (r: Step)
    ensures r.on <==> prox >= 5 || timeout > 0
    ensures r.on && prox >= 5 ==> r.timeout == 4
    ensures r.on && prox < 5 ==> r.timeout == timeout - 1
    ensures !r.on ==> r.timeout == timeout
  {
    if prox >= TriggerProximity || timeout > 0 then
      var armed := if prox >= TriggerProximity then HoldTicks else timeout;
      Step(true, armed - 1)
    else Step(false, timeout)
  }

  /** The Calcifer variant: bad air also keeps the screen on, and the timeout has no floor. */
  function CalciferStep(timeout: int, prox: nat, level: Level): (r: Step)
    ensures r.on <==> prox >= 5 || level == Bad || timeout > 0
    ensures r.on && prox >= 5 ==> r.timeout == 4
    ensures r.on && prox < 5 ==> r.timeout == timeout - 1
    ensures !r.on ==> r.timeout == timeout
  {
    if prox >= TriggerProximity || level == Bad || timeout > 0 then
      var armed := if prox >= TriggerProximity then HoldTicks else timeout;
      Step(true, armed - 1)
    else Step(false, timeout)
  }

  /** Away from bad air the two machines coincide. */
  lemma StepsAgreeUnlessBad(timeout: int, prox: nat, level: Level)
    requires level != Bad
    ensures CalciferStep(timeout, prox, level) == AdafruitStep(timeout, prox)
  {
  }

  function Repeat<T>(x: T, n: nat): (r: seq<T>)
    ensures |r| == n
    ensures forall i :: 0 <= i < n ==> r[i] == x
  {
    if n == 0 then [] else [x] + Repeat(x, n - 1)
  }

  function Min(a: nat, b: nat): nat {
    if a <= b then a else b
  }

  /** Screen states over a sequence of proximity readings (Adafruit variant). */
  function AdafruitScreen(timeout: int, proxs: seq<nat>): (on: seq<bool>)
    ensures |on| == |proxs|
    decreases |proxs|
  {
    if proxs == [] then []
    else
      var s := AdafruitStep(timeout, proxs[0]);
      [s.on] + AdafruitScreen(s.timeout, proxs[1..])
  }

  function AdafruitTimeout(timeout: int, proxs: seq<nat>): int
    decreases |proxs|
  {
    if proxs == [] then timeout else AdafruitTimeout(AdafruitStep(timeout, proxs[0]).timeout, proxs[1..])
  }

  /** From a timeout in [0, 4] (0 at start-up) the timeout stays in [0, 4] whatever the readings. */
  lemma {:induction false} AdafruitTimeoutBounded(timeout: int, proxs: seq<nat>)
    requires 0 <= timeout <= 4
    ensures 0 <= AdafruitTimeout(timeout, proxs) <= 4
    decreases |proxs|
  {
    if proxs != [] {
      AdafruitTimeoutBounded(AdafruitStep(timeout, proxs[0]).timeout, proxs[1..]);
    }
  }

  /** Every reading is below the trigger: nobody in front of the screen. */
  predicate Quiet(proxs: seq<nat>) {
    forall i :: 0 <= i < |proxs| ==> proxs[i] < TriggerProximity
  }

  /** With nobody near, a timeout of k keeps the screen on for exactly k more ticks. */
  lemma {:induction false} AdafruitDecay(k: nat, quiet: seq<nat>)
    requires Quiet(quiet)
    ensures var n := |quiet|;
            AdafruitScreen(k, quiet) == Repeat(true, Min(k, n)) + Repeat(false, n - Min(k, n))
    decreases |quiet|
  {
    var n := |quiet|;
    if n > 0 {
      assert Quiet(quiet[1..]) by {
        forall i | 0 <= i < n - 1 ensures quiet[1..][i] < TriggerProximity {
          assert quiet[1..][i] == quiet[i + 1];
        }
      }
      if k > 0 {
        AdafruitDecay(k - 1, quiet[1..]);
        assert Repeat(true, Min(k, n)) == [true] + Repeat(true, Min(k - 1, n - 1));
      } else {
        AdafruitDecay(0, quiet[1..]);
        assert Repeat(false, n) == [false] + Repeat(false, n - 1);
      }
    }
  }

  /**
   One proximity hit followed by n readings below the trigger gives exactly
   min(5, n + 1) on-ticks and then off-ticks, from any timeout.
   */
  lemma SingleTriggerAdafruit(timeout: int, p: nat, quiet: seq<nat>)
    requires p >= 5 && Quiet(quiet)
    ensures var n := |quiet|;
            AdafruitScreen(timeout, [p] + quiet) == Repeat(true, 1 + Min(4, n)) + Repeat(false, n - Min(4, n))
  {
    var proxs := [p] + quiet;
    assert proxs[1..] == quiet;
    AdafruitDecay(4, quiet);
  }

  /** One tick of input to the Calcifer variant's machine. */
  datatype Sense = Sense(prox: nat, level: Level)

  function CalciferScreen(timeout: int, senses: seq<Sense>): (on: seq<bool>)
    ensures |on| == |senses|
    decreases |senses|
  {
    if senses == [] then []
    else
      var s := CalciferStep(timeout, senses[0].prox, senses[0].level);
      [s.on] + CalciferScreen(s.timeout, senses[1..])
  }

  function CalciferTimeout(timeout: int, senses: seq<Sense>): int
    decreases |senses|
  {
    if senses == [] then timeout
    else CalciferTimeout(CalciferStep(timeout, senses[0].prox, senses[0].level).timeout, senses[1..])
  }

  function Proximities(senses: seq<Sense>): (proxs: seq<nat>)
    ensures |proxs| == |senses|
    ensures forall i :: 0 <= i < |senses| ==> proxs[i] == senses[i].prox
  {
    if senses == [] then [] else [senses[0].prox] + Proximities(senses[1..])
  }

  /** Without bad air the Calcifer machine behaves as the Adafruit one. */
  lemma {:induction false} CalciferWithoutBadAir(timeout: int, senses: seq<Sense>)
    requires forall i :: 0 <= i < |senses| ==> senses[i].level != Bad
    ensures CalciferScreen(timeout, senses) == AdafruitScreen(timeout, Proximities(senses))
    decreases |senses|
  {
    if senses != [] {
      var proxs := Proximities(senses);
      assert proxs[1..] == Proximities(senses[1..]);
      CalciferWithoutBadAir(CalciferStep(timeout, senses[0].prox, senses[0].level).timeout, senses[1..]);
    }
  }

  /** Every tick of the stretch has bad air and proximity below the trigger. */
  predicate BadAndQuiet(senses: seq<Sense>) {
    forall i :: 0 <= i < |senses| ==> senses[i].prox < TriggerProximity && senses[i].level == Bad
  }

  /**
   Bad air with nobody near keeps the screen on every tick, while the timeout
   falls by one per tick without any floor.
   */
  lemma {:induction false} BadAirStretch(timeout: int, stretch: seq<Sense>)
    requires BadAndQuiet(stretch)
    ensures CalciferScreen(timeout, stretch) == Repeat(true, |stretch|)
    ensures CalciferTimeout(timeout, stretch) == timeout - |stretch|
    decreases |stretch|
  {
    var n := |stretch|;
    if n > 0 {
      assert BadAndQuiet(stretch[1..]) by {
        forall i | 0 <= i < n - 1 ensures stretch[1..][i] == stretch[i + 1] {}
      }
      BadAirStretch(timeout - 1, stretch[1..]);
      assert Repeat(true, n) == [true] + Repeat(true, n - 1);
    }
  }

  /**
   After a bad-air stretch at least as long as the timeout it started with,
   the first tick that is neither bad nor proximate turns the screen off.
   */
  lemma OffAfterBadAirStretch(timeout: int, stretch: seq<Sense>, next: Sense)
    requires BadAndQuiet(stretch)
    requires next.prox < 5 && next.level != Bad
    ensures !CalciferStep(CalciferTimeout(timeout, stretch), next.prox, next.level).on <==> timeout <= |stretch|
  {
    BadAirStretch(timeout, stretch);
  }

  /**
   One proximity hit, then at least four ticks with nobody near, all without
   bad air: exactly 5 on-ticks, then off.
   */
  lemma SingleTriggerCalcifer(timeout: int, hit: Sense, rest: seq<Sense>)
    requires hit.prox >= 5 && hit.level != Bad && |rest| >= 4
    requires forall i :: 0 <= i < |rest| ==> rest[i].prox < 5 && rest[i].level != Bad
    ensures CalciferScreen(timeout, [hit] + rest) == Repeat(true, 5) + Repeat(false, |rest| - 4)
  {
    var senses := [hit] + rest;
    CalciferWithoutBadAir(timeout, senses);
    var proxs := Proximities(senses);
    assert proxs == [hit.prox] + proxs[1..];
    SingleTriggerAdafruit(timeout, hit.prox, proxs[1..]);
  }

  /**
   A hit followed by six ticks below the trigger: five on-ticks, not six,
   whether nobody is near at all or the readings stay just under 5.
   */
  lemma ProximityExample()
    ensures AdafruitScreen(0, [5, 0, 0, 0, 0, 0, 0]) == [true, true, true, true, true, false, false]
    ensures AdafruitScreen(0, [9, 3, 4, 1, 2, 3, 0]) == [true, true, true, true, true, false, false]
  {
    assert [5, 0, 0, 0, 0, 0, 0] == [5] + [0, 0, 0, 0, 0, 0];
    SingleTriggerAdafruit(0, 5, [0, 0, 0, 0, 0, 0]);
    assert [9, 3, 4, 1, 2, 3, 0] == [9] + [3, 4, 1, 2, 3, 0];
    SingleTriggerAdafruit(0, 9, [3, 4, 1, 2, 3, 0]);
  }
}
