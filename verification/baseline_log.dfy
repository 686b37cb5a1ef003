/**
 Lines the scripts append to their log files while tracking the gas sensor's
 baseline, and views of a log used to state properties over many ticks.
 */
module BaselineLog {

  import opened Wrappers
  import opened AirQuality

  /**
   One line of the baseline log: the sensor's current baseline pair and the
   tick time. `Valid` lines carry the "Valid: " prefix; `Candidate` lines do not.
   */
  datatype BaselineLine =
    | Valid(eco2: nat, tvoc: nat, time: int)
    | Candidate(eco2: nat, tvoc: nat, time: int)

  /** The baseline pair the gas sensor reports for its own calibration. */
  datatype SensorBaseline = SensorBaseline(eco2: nat, tvoc: nat)

  /** One line of the Adafruit variant's result log: the readings and the tick time. */
  datatype ResultLine = ResultLine(eco2: nat, tvoc: nat, time: int)

  function ValidLine(b: SensorBaseline, now: int): BaselineLine {
    Valid(b.eco2, b.tvoc, now)
  }

  function CandidateLine(b: SensorBaseline, now: int): BaselineLine {
    Candidate(b.eco2, b.tvoc, now)
  }

  /** The lines one tick writes: none or one. */
  function Written<T>(o: Option<T>): (lines: seq<T>)
    ensures |lines| <= 1
  {
    if o.Some? then [o.value] else []
  }

  /** Times of the `Valid` lines (when `valid`) or of the `Candidate` lines, in log order. */
  function TimesOf(log: seq<BaselineLine>, valid: bool): (ts: seq<int>)
    ensures |ts| <= |log|
  {
    if log == [] then []
    else (if log[0].Valid? == valid then [log[0].time] else []) + TimesOf(log[1..], valid)
  }

  /** Each time is more than `gap` seconds after the previous one. */
  predicate Spaced(ts: seq<int>, gap: int) {
    forall i :: 0 <= i < |ts| - 1 ==> ts[i] + gap < ts[i + 1]
  }

  /** The last `Valid` line of a log, if any. */
  function LastValid(log: seq<BaselineLine>): (r: Option<BaselineLine>)
    ensures r.Some? ==> r.value.Valid? && r.value in log
    ensures r.None? <==> TimesOf(log, true) == []
  {
    if log == [] then None
    else
      var rest := LastValid(log[1..]);
      if rest.Some? then rest
      else if log[0].Valid? then Some(log[0])
      else None
  }
}
