/**
 One pass of each script's main loop, composed from the components: read
 the sensors, classify, do the baseline bookkeeping, step the alert machine,
 then either draw a frame or switch the backlight off.
 */
module Monitor {

  import opened Wrappers
  import opened AirQuality
  import opened BaselineLog
  import opened BaselineStore
  import opened MinuteBaseline
  import opened Alert
  import opened Render
  import Outdoor

  /** What the sensors report at one tick, with the tick time. */
  datatype Reading = Reading(now: int, gas: Gas, prox: nat, sensorBaseline: SensorBaseline)

  /** The display call a tick makes: draw a frame (backlight on), or backlight off. */
  datatype Display = Show(frame: Frame) | BacklightOff

  /**
   Adafruit variant state: baseline bookkeeping, the screen timeout, the last
   classification (None before the first tick) and the outdoor AQI of the
   first poll at start-up (None if that poll did not succeed). Later polls run
   in the timer thread and are not applied here; `Outdoor.Poll` models them.
   */
  datatype AdafruitState = AdafruitState(baseline: BaselineState, timeout: int, level: Option<Level>, aqi: Option<nat>)

  /**
   What one pass of either loop emits: the reading line (only the Adafruit
   variant writes one), the baseline line, and the display call.
   */
  datatype Output = Output(result: Option<ResultLine>, line: Option<BaselineLine>, display: Display)

  /** Whether each pass drew a frame. */
  function Shown(outs: seq<Output>): (on: seq<bool>)
    ensures |on| == |outs|
    ensures forall i :: 0 <= i < |outs| ==> on[i] == outs[i].display.Show?
  {
    if outs == [] then [] else [outs[0].display.Show?] + Shown(outs[1..])
  }

  /** How many passes drew a frame; all of them exactly when the count is the length. */
  function ShownCount(outs: seq<Output>): (n: nat)
    ensures n <= |outs|
    ensures n == |outs| <==> forall i :: 0 <= i < |outs| ==> outs[i].display.Show?
  {
    if outs == [] then 0 else (if outs[0].display.Show? then 1 else 0) + ShownCount(outs[1..])
  }

  /** The baseline log lines of a run, in order. */
  function Log(outs: seq<Output>): seq<BaselineLine> {
    if outs == [] then [] else Written(outs[0].line) + Log(outs[1..])
  }

  /**
   What the alert machines see at each pass: the proximity, and the
   classification the Calcifer variant makes of the readings.
   */
  function Senses(rs: seq<Reading>): (ss: seq<Sense>)
    ensures |ss| == |rs|
    ensures forall i :: 0 <= i < |rs| ==> ss[i] == Sense(rs[i].prox, ClassifyCalcifer(rs[i].gas))
  {
    if rs == [] then [] else [Sense(rs[0].prox, ClassifyCalcifer(rs[0].gas))] + Senses(rs[1..])
  }

  /**
   State entering the main loop. Start-up restores the baseline, then makes
   the first outdoor AQI poll on the main thread: if that poll raises (also
   after assigning the AQI, for a successful response without `ts`), the
   script stops before the loop. A response whose status is not "success"
   leaves the AQI unknown.
   */
  function AdafruitBoot(stored: StoredBaseline, now: int, first: Outdoor.Fetch): (r: Option<AdafruitState>)
    ensures r.Some? <==> BaselineStore.Start(stored, now).Started? && !Outdoor.Raises(first)
    ensures r.Some? ==> && r.value.timeout == 0 && r.value.level.None?
                        && r.value.baseline == BaselineStore.Start(stored, now).state
                        && (r.value.aqi.Some? <==> Outdoor.Succeeded(first))
                        && (r.value.aqi.Some? ==> r.value.aqi.value == first.aqius)
  {
    match BaselineStore.Start(stored, now)
    case StartupFailed => None
    case Started(b, _) =>
      if Outdoor.Raises(first) then None
      else Some(AdafruitState(b, 0, None, Outdoor.Update(None, first)))
  }

  function AdafruitTick(s: AdafruitState, r: Reading): (out: (AdafruitState, Output))
    ensures out.0.level == Some(ClassifyAdafruit(r.gas))
    ensures out.1.display.Show? <==> r.prox >= 5 || s.timeout > 0
    ensures out.1.display.Show? ==> out.1.display.frame == Draw(ClassifyAdafruit(r.gas), r.gas)
    ensures out.0.timeout == AdafruitStep(s.timeout, r.prox).timeout
    ensures 0 <= s.timeout <= 4 ==> 0 <= out.0.timeout <= 4
    ensures out.0.aqi == s.aqi
    ensures var b := Bookkeep(s.baseline, r.now, r.gas, r.sensorBaseline);
            out.0.baseline == b.state && out.1.result == b.result && out.1.line == b.line
  {
    var level := ClassifyAdafruit(r.gas);
    var b := Bookkeep(s.baseline, r.now, r.gas, r.sensorBaseline);
    var step := AdafruitStep(s.timeout, r.prox);
    var display := if step.on then Show(Draw(level, r.gas)) else BacklightOff;
    (AdafruitState(b.state, step.timeout, Some(level), s.aqi), Output(b.result, b.line, display))
  }

  function AdafruitRun(s: AdafruitState, rs: seq<Reading>): (outs: seq<Output>)
    ensures |outs| == |rs|
    ensures forall i :: 0 <= i < |rs| && outs[i].display.Show? ==>
              outs[i].display.frame == Draw(ClassifyAdafruit(rs[i].gas), rs[i].gas)
    decreases |rs|
  {
    if rs == [] then []
    else
      var t := AdafruitTick(s, rs[0]);
      [t.1] + AdafruitRun(t.0, rs[1..])
  }

  function BookkeepingTicks(rs: seq<Reading>): (ts: seq<BaselineStore.Tick>)
    ensures |ts| == |rs|
  {
    if rs == [] then []
    else [BaselineStore.Tick(rs[0].now, rs[0].gas, rs[0].sensorBaseline)] + BookkeepingTicks(rs[1..])
  }

  /**
   The composed loop behaves as its parts: the screen goes on and off as the
   alert machine alone says for the same proximities, and the baseline log is
   the one the bookkeeping alone writes for the same ticks.
   */
  lemma {:induction false} AdafruitRunComposes(s: AdafruitState, rs: seq<Reading>)
    ensures Shown(AdafruitRun(s, rs)) == AdafruitScreen(s.timeout, Proximities(Senses(rs)))
    ensures Log(AdafruitRun(s, rs)) == BaselineStore.Run(s.baseline, BookkeepingTicks(rs)).log
    decreases |rs|
  {
    if rs != [] {
      var t := AdafruitTick(s, rs[0]);
      AdafruitRunComposes(t.0, rs[1..]);
      assert Senses(rs)[1..] == Senses(rs[1..]);
      assert BookkeepingTicks(rs)[1..] == BookkeepingTicks(rs[1..]);
    }
  }

  /**
   In the composed Adafruit loop one proximity hit followed by n passes with
   proximity below 5 lights the screen for 1 + min(4, n) passes, then
   switches it off.
   */
  lemma AdafruitLoopSingleTrigger(s: AdafruitState, rs: seq<Reading>, n: nat)
    requires |rs| == n + 1 && rs[0].prox >= 5
    requires forall i :: 1 <= i < |rs| ==> rs[i].prox < 5
    ensures Shown(AdafruitRun(s, rs)) == Repeat(true, 1 + Min(4, n)) + Repeat(false, n - Min(4, n))
  {
    AdafruitRunComposes(s, rs);
    var proxs := Proximities(Senses(rs));
    assert proxs == [rs[0].prox] + proxs[1..];
    SingleTriggerAdafruit(s.timeout, rs[0].prox, proxs[1..]);
  }

  /**
   In the Adafruit variant bad air alone never lights the screen: with the
   timeout run down and nobody near, every tick switches the backlight off,
   whatever the readings.
   */
  lemma {:induction false} AdafruitDarkWithoutProximity(s: AdafruitState, rs: seq<Reading>)
    requires s.timeout <= 0
    requires forall i :: 0 <= i < |rs| ==> rs[i].prox < 5
    ensures forall i :: 0 <= i < |rs| ==> AdafruitRun(s, rs)[i].display == BacklightOff
    decreases |rs|
  {
    if rs != [] {
      var t := AdafruitTick(s, rs[0]);
      AdafruitDarkWithoutProximity(t.0, rs[1..]);
      assert forall i :: 1 <= i < |rs| ==> AdafruitRun(s, rs)[i] == AdafruitRun(t.0, rs[1..])[i - 1];
    }
  }

  /** The Calcifer variant's loop state: its log counters and the screen timeout. */
  datatype CalciferState = CalciferState(counters: Counters, timeout: int)

  function CalciferBoot(start: int): (s: CalciferState)
    ensures s.timeout == 0 && s.counters.counter == start + 60 && s.counters.valid == start + 43200
  {
    CalciferState(MinuteBaseline.Init(start), 0)
  }

  function CalciferTick(s: CalciferState, r: Reading): (out: (CalciferState, Output))
    ensures out.1.display.Show? <==> r.prox >= 5 || ClassifyCalcifer(r.gas) == Bad || s.timeout > 0
    ensures out.1.display.Show? ==> out.1.display.frame == Draw(ClassifyCalcifer(r.gas), r.gas)
    ensures out.0.timeout == CalciferStep(s.timeout, r.prox, ClassifyCalcifer(r.gas)).timeout
    ensures var step := LogStep(s.counters, r.now, r.sensorBaseline);
            out.0.counters == step.0 && out.1.line == step.1
    ensures out.1.result.None?
  {
    var step := LogStep(s.counters, r.now, r.sensorBaseline);
    var level := ClassifyCalcifer(r.gas);
    var alert := CalciferStep(s.timeout, r.prox, level);
    var display := if alert.on then Show(Draw(level, r.gas)) else BacklightOff;
    (CalciferState(step.0, alert.timeout), Output(None, step.1, display))
  }

  /** The loop with the 1-second sleep working: every reading gets a tick. */
  function CalciferLoop(s: CalciferState, rs: seq<Reading>): (outs: seq<Output>)
    ensures |outs| == |rs|
    ensures rs != [] ==> outs[0] == CalciferTick(s, rs[0]).1
    ensures forall i :: 0 <= i < |rs| && outs[i].display.Show? ==>
              outs[i].display.frame == Draw(ClassifyCalcifer(rs[i].gas), rs[i].gas)
    decreases |rs|
  {
    if rs == [] then []
    else
      var t := CalciferTick(s, rs[0]);
      [t.1] + CalciferLoop(t.0, rs[1..])
  }

  function LogTicks(rs: seq<Reading>): (ts: seq<(int, SensorBaseline)>)
    ensures |ts| == |rs|
  {
    if rs == [] then [] else [(rs[0].now, rs[0].sensorBaseline)] + LogTicks(rs[1..])
  }

  /**
   The Calcifer loop behaves as its parts: the screen follows the alert
   machine on the same proximities and classifications, and the baseline log
   is the one the minute counter alone writes for the same ticks.
   */
  lemma {:induction false} CalciferLoopComposes(s: CalciferState, rs: seq<Reading>)
    ensures Shown(CalciferLoop(s, rs)) == CalciferScreen(s.timeout, Senses(rs))
    ensures Log(CalciferLoop(s, rs)) == MinuteBaseline.Run(s.counters, LogTicks(rs)).1
    decreases |rs|
  {
    if rs != [] {
      var t := CalciferTick(s, rs[0]);
      CalciferLoopComposes(t.0, rs[1..]);
      assert Senses(rs)[1..] == Senses(rs[1..]);
      assert LogTicks(rs)[1..] == LogTicks(rs[1..]);
    }
  }

  /** In the Calcifer variant bad air keeps the screen on at every tick, whatever the timeout. */
  lemma {:induction false} CalciferBadAirAlwaysShown(s: CalciferState, rs: seq<Reading>)
    requires forall i :: 0 <= i < |rs| ==> ClassifyCalcifer(rs[i].gas) == Bad
    ensures ShownCount(CalciferLoop(s, rs)) == |rs|
    decreases |rs|
  {
    if rs != [] {
      var t := CalciferTick(s, rs[0]);
      CalciferBadAirAlwaysShown(t.0, rs[1..]);
    }
  }

  /**
   What the global name `time` is bound to at the end of a pass. The script
   imports the `time` module, but as written each pass assigns the formatted
   clock string to that same name; the evident intent is a separate name.
   */
  datatype TimeName = TimeModule | ClockString

  /** `time.sleep(1.0)` succeeds only while `time` still names the module. */
  predicate SleepSucceeds(time: TimeName) {
    time == TimeModule
  }

  datatype LoopOutcome = Crashed(outputs: seq<Output>) | Ran(outputs: seq<Output>)

  /**
   The loop, given what `time` is bound to after the clock string has been
   formatted in each pass: a pass ends with the sleep, which raises unless
   `time` is still the module.
   */
  function LoopWith(s: CalciferState, afterPass: TimeName, rs: seq<Reading>): (r: LoopOutcome)
    ensures |r.outputs| <= |rs|
    decreases |rs|
  {
    if rs == [] then Ran([])
    else
      var t := CalciferTick(s, rs[0]);
      if SleepSucceeds(afterPass) then
        match LoopWith(t.0, afterPass, rs[1..])
        case Crashed(outs) => Crashed([t.1] + outs)
        case Ran(outs) => Ran([t.1] + outs)
      else Crashed([t.1])
  }

  /** The Calcifer loop as written: `time` is rebound to the clock string every pass. */
  function CalciferLoopAsWritten(s: CalciferState, rs: seq<Reading>): LoopOutcome {
    LoopWith(s, ClockString, rs)
  }

  /**
   As written, the loop stops with an exception after its first pass, having
   produced only that pass's output.
   */
  lemma LoopStopsAfterFirstTick(s: CalciferState, rs: seq<Reading>)
    requires |rs| >= 1
    ensures CalciferLoopAsWritten(s, rs) == Crashed(CalciferLoop(s, rs)[..1])
  {
  }

  /** With the clock string under its own name, the loop runs a pass for every reading. */
  lemma {:induction false} IntendedLoopRuns(s: CalciferState, rs: seq<Reading>)
    ensures LoopWith(s, TimeModule, rs) == Ran(CalciferLoop(s, rs))
    decreases |rs|
  {
    if rs != [] {
      var t := CalciferTick(s, rs[0]);
      IntendedLoopRuns(t.0, rs[1..]);
    }
  }
}
