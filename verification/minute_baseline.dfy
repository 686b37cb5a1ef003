/**
 The Calcifer variant's baseline log: a one-minute counter gates every
 baseline line, and inside it a valid deadline decides whether the line is
 marked "Valid". There is no stored baseline and no restore path.
 */
module MinuteBaseline {

  import opened Wrappers
  import opened Timing
  import opened BaselineLog

  /** `baseline_log_counter` and `baseline_log_counter_valid`. */
  datatype Counters = Counters(counter: int, valid: int)

  /** Counters at start-up: the first line after a minute, the first valid line after twelve hours. */
  function Init(start: int): Counters {
    Counters(start + Minute, start + HalfDay)
  }

  /**
   One tick: a line is written only once the counter has passed, and then
   exactly one, marked valid iff the valid deadline has passed as well.
   */
  function LogStep(c: Counters, now: int, b: SensorBaseline): (r: (Counters, Option<BaselineLine>))
    ensures r.1.Some? <==> now > c.counter
    ensures r.1.None? ==> r.0 == c
    ensures r.1.Some? ==> r.0.counter == now + 60
    ensures r.1.Some? && now > c.valid ==> r.1.value == Valid(b.eco2, b.tvoc, now) && r.0.valid == now + 3600
    ensures r.1.Some? && now <= c.valid ==> r.1.value == Candidate(b.eco2, b.tvoc, now) && r.0.valid == c.valid
  {
    if now > c.counter then
      if now > c.valid then (Counters(now + Minute, now + Hour), Some(ValidLine(b, now)))
      else (c.(counter := now + Minute), Some(CandidateLine(b, now)))
    else (c, None)
  }

  /** The baseline log and final counters after a run of ticks. */
  function Run(c: Counters, ticks: seq<(int, SensorBaseline)>): (r: (Counters, seq<BaselineLine>))
    ensures |r.1| <= |ticks|
    decreases |ticks|
  {
    if ticks == [] then (c, [])
    else
      var step := LogStep(c, ticks[0].0, ticks[0].1);
      var rest := Run(step.0, ticks[1..]);
      (rest.0, Written(step.1) + rest.1)
  }

  /** All line times, valid or not, in log order. */
  function AllTimes(log: seq<BaselineLine>): (ts: seq<int>)
    ensures |ts| == |log|
    ensures forall i :: 0 <= i < |log| ==> ts[i] == log[i].time
  {
    if log == [] then [] else [log[0].time] + AllTimes(log[1..])
  }

  /**
   Over any run, lines are more than a minute apart and come after the initial
   counter; valid lines are more than an hour apart and come after the initial
   valid deadline.
   */
  lemma {:induction false} LinesSpaced(c: Counters, ticks: seq<(int, SensorBaseline)>)
    ensures var log := Run(c, ticks).1;
            && Spaced(AllTimes(log), 60) && (log != [] ==> log[0].time > c.counter)
            && var vs := TimesOf(log, true);
               Spaced(vs, 3600) && (vs != [] ==> vs[0] > c.valid)
    decreases |ticks|
  {
    if ticks != [] {
      var step := LogStep(c, ticks[0].0, ticks[0].1);
      var rest := Run(step.0, ticks[1..]);
      LinesSpaced(step.0, ticks[1..]);
      var log := Written(step.1) + rest.1;
      if step.1.Some? {
        assert log[0] == step.1.value && log[1..] == rest.1;
        assert AllTimes(log) == [log[0].time] + AllTimes(rest.1);
      } else {
        assert log == rest.1;
      }
    }
  }
}
