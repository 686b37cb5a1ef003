/**
 The Adafruit variant's baseline lifecycle: restoring the baseline stored in
 `config.yaml` at start-up, and the per-tick bookkeeping that logs candidate
 baselines every ten minutes and commits a "valid" baseline every hour once
 the maturation delay has passed.
 */
module BaselineStore {

  import opened Wrappers
  import opened Timing
  import opened AirQuality
  import opened BaselineLog

  /** The `sgp30_baseline` section of the configuration; each field may be null. */
  datatype StoredBaseline = StoredBaseline(eco2: Option<nat>, tvoc: Option<nat>, timestamp: Option<int>)

  /** How the start-up code treats the stored baseline. */
  datatype Restore =
    | NoTimestamp
    | TooOld
    | Recent(eco2: nat, tvoc: nat)
      /** Recent, but a value is null: formatting it with `{:x}` raises and the script stops. */
    | MissingValue

  /**
   Baseline bookkeeping state: the candidate deadline (`baseline_log_counter`),
   the valid deadline (`baseline_log_counter_valid`) and the in-memory copy
   of the stored baseline.
   */
  datatype BaselineState = BaselineState(candidate: int, valid: int, stored: StoredBaseline)

  datatype Startup =
    | Started(state: BaselineState, applied: Option<SensorBaseline>)
    | StartupFailed

  /** The stored baseline is trusted only strictly inside a week after it was captured. */
  function RestoreDecision(stored: StoredBaseline, now: int): (r: Restore)
    ensures r == NoTimestamp <==> stored.timestamp.None?
    ensures r == TooOld <==> stored.timestamp.Some? && now >= stored.timestamp.value + 604800
    ensures r.Recent? <==> stored.timestamp.Some? && now < stored.timestamp.value + 604800
                           && stored.eco2.Some? && stored.tvoc.Some?
    ensures r.Recent? ==> r.eco2 == stored.eco2.value && r.tvoc == stored.tvoc.value
  {
    match stored.timestamp
    case None => NoTimestamp
    case Some(t) =>
      if now < t + Week then
        if stored.eco2.Some? && stored.tvoc.Some? then Recent(stored.eco2.value, stored.tvoc.value)
        else MissingValue
      else TooOld
  }

  /** Delay before the first valid commit: short when the sensor was seeded with a restored baseline. */
  function MaturationDelay(restored: bool): int {
    if restored then Hour else HalfDay
  }

  /**
   Start-up: apply a recent stored baseline to the sensor, then set the
   candidate deadline ten minutes ahead and the valid deadline one or twelve
   hours ahead.
   */
  function Start(stored: StoredBaseline, now: int): (r: Startup)
    ensures r.StartupFailed? <==> stored.timestamp.Some? && now < stored.timestamp.value + 604800
                                  && (stored.eco2.None? || stored.tvoc.None?)
    ensures r.Started? ==> r.state.stored == stored && r.state.candidate == now + 600
    ensures r.Started? ==> (r.applied.Some? <==> stored.timestamp.Some? && now < stored.timestamp.value + 604800)
    ensures r.Started? && r.applied.Some? ==>
              stored.eco2 == Some(r.applied.value.eco2) && stored.tvoc == Some(r.applied.value.tvoc)
    ensures r.Started? ==> r.state.valid == now + (if r.applied.Some? then 3600 else 43200)
  {
    match RestoreDecision(stored, now)
    case MissingValue => StartupFailed
    case Recent(e, t) =>
      Started(BaselineState(now + TenMinutes, now + MaturationDelay(true), stored), Some(SensorBaseline(e, t)))
    case _ =>
      Started(BaselineState(now + TenMinutes, now + MaturationDelay(false), stored), None)
  }

  /** The stored record a valid commit writes. */
  function Committed(line: BaselineLine): StoredBaseline {
    StoredBaseline(Some(line.eco2), Some(line.tvoc), Some(line.time))
  }

  /** What one tick of bookkeeping does: new state and the lines it appends. */
  datatype Bookkeeping = Bookkeeping(state: BaselineState, result: Option<ResultLine>, line: Option<BaselineLine>)

  /**
   One tick of baseline bookkeeping. A result line is written whenever the
   candidate deadline has passed; then the valid branch takes precedence over
   the candidate branch, so at most one baseline line is written.
   */
  function Bookkeep(s: BaselineState, now: int, g: Gas, b: SensorBaseline): (r: Bookkeeping)
    ensures r.result.Some? <==> now > s.candidate
    ensures r.result.Some? ==> r.result.value == ResultLine(g.eco2, g.tvoc, now)
    ensures r.line.Some? <==> now > s.valid || now > s.candidate
    ensures now > s.valid ==>
              && r.line == Some(Valid(b.eco2, b.tvoc, now))
              && r.state.valid == now + 3600
              && r.state.candidate == s.candidate
              && r.state.stored == StoredBaseline(Some(b.eco2), Some(b.tvoc), Some(now))
    ensures now <= s.valid && now > s.candidate ==>
              && r.line == Some(Candidate(b.eco2, b.tvoc, now))
              && r.state == s.(candidate := now + 600)
    ensures now <= s.valid && now <= s.candidate ==> r.state == s
  {
    var result := if now > s.candidate then Some(ResultLine(g.eco2, g.tvoc, now)) else None;
    if now > s.valid then
      var line := ValidLine(b, now);
      Bookkeeping(s.(valid := now + Hour, stored := Committed(line)), result, Some(line))
    else if now > s.candidate then
      Bookkeeping(s.(candidate := now + TenMinutes), result, Some(CandidateLine(b, now)))
    else
      Bookkeeping(s, result, None)
  }

  /** One bookkeeping input: tick time, readings and the sensor's baseline pair. */
  datatype Tick = Tick(now: int, gas: Gas, baseline: SensorBaseline)

  /** Final state and the baseline and result logs written over a run of ticks. */
  datatype Trace = Trace(final: BaselineState, log: seq<BaselineLine>, results: seq<ResultLine>)

  function Run(s: BaselineState, ticks: seq<Tick>): (t: Trace)
    ensures |t.log| <= |ticks| && |t.results| <= |ticks|
    decreases |ticks|
  {
    if ticks == [] then Trace(s, [], [])
    else
      var b := Bookkeep(s, ticks[0].now, ticks[0].gas, ticks[0].baseline);
      var rest := Run(b.state, ticks[1..]);
      Trace(rest.final, Written(b.line) + rest.log, Written(b.result) + rest.results)
  }

  /**
   Over any run, valid commits come after the initial valid deadline and each
   more than an hour after the previous one.
   */
  lemma {:induction false} ValidCommitsSpaced(s: BaselineState, ticks: seq<Tick>)
    ensures var vs := TimesOf(Run(s, ticks).log, true);
            Spaced(vs, 3600) && (vs != [] ==> vs[0] > s.valid)
    decreases |ticks|
  {
    if ticks != [] {
      var b := Bookkeep(s, ticks[0].now, ticks[0].gas, ticks[0].baseline);
      var rest := Run(b.state, ticks[1..]);
      ValidCommitsSpaced(b.state, ticks[1..]);
      var log := Written(b.line) + rest.log;
      if b.line.Some? {
        assert log[0] == b.line.value && log[1..] == rest.log;
      } else {
        assert log == rest.log;
      }
    }
  }

  /**
   Over any run, candidate lines come after the initial candidate deadline and
   each more than ten minutes after the previous one.
   */
  lemma {:induction false} CandidatesSpaced(s: BaselineState, ticks: seq<Tick>)
    ensures var cs := TimesOf(Run(s, ticks).log, false);
            Spaced(cs, 600) && (cs != [] ==> cs[0] > s.candidate)
    decreases |ticks|
  {
    if ticks != [] {
      var b := Bookkeep(s, ticks[0].now, ticks[0].gas, ticks[0].baseline);
      var rest := Run(b.state, ticks[1..]);
      CandidatesSpaced(b.state, ticks[1..]);
      var log := Written(b.line) + rest.log;
      if b.line.Some? {
        assert log[0] == b.line.value && log[1..] == rest.log;
      } else {
        assert log == rest.log;
      }
    }
  }

  /**
   After any run the stored baseline is the one of the last valid line, and
   the valid deadline is an hour after it; with no valid line both are as
   they were.
   */
  lemma {:induction false} StoredIsLastValid(s: BaselineState, ticks: seq<Tick>)
    ensures var t := Run(s, ticks);
            match LastValid(t.log)
            case None => t.final.stored == s.stored && t.final.valid == s.valid
            case Some(v) => t.final.stored == Committed(v) && t.final.valid == v.time + 3600
    decreases |ticks|
  {
    if ticks != [] {
      var b := Bookkeep(s, ticks[0].now, ticks[0].gas, ticks[0].baseline);
      var rest := Run(b.state, ticks[1..]);
      StoredIsLastValid(b.state, ticks[1..]);
      var log := Written(b.line) + rest.log;
      if b.line.Some? {
        assert log[0] == b.line.value && log[1..] == rest.log;
      } else {
        assert log == rest.log;
      }
    }
  }

  /**
   A restart less than a week after the last valid commit re-applies exactly
   that baseline and uses the one-hour maturation delay; a later restart
   discards it and waits twelve hours.
   */
  lemma RestartRestoresLastCommit(s: BaselineState, ticks: seq<Tick>, boot: int)
    requires LastValid(Run(s, ticks).log).Some?
    ensures var v := LastValid(Run(s, ticks).log).value;
            var r := Start(Run(s, ticks).final.stored, boot);
            && r.Started?
            && (boot < v.time + 604800 ==>
                  r.applied == Some(SensorBaseline(v.eco2, v.tvoc)) && r.state.valid == boot + 3600)
            && (boot >= v.time + 604800 ==> r.applied.None? && r.state.valid == boot + 43200)
  {
    StoredIsLastValid(s, ticks);
  }
}
