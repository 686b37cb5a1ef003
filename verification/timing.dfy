/**
 Durations used by both monitor scripts, in whole seconds. The scripts compute
 deadlines with `datetime.now() + timedelta(...)`; the model uses integer
 seconds throughout.
 */
module Timing {

  const Minute: int := 60
  const TenMinutes: int := 10 * Minute
  const Hour: int := 60 * Minute
  const HalfDay: int := 12 * Hour
  const Week: int := 7 * 24 * Hour

  /** Longest wait of the start-up warm-up gate. */
  const WarmupSeconds: nat := 30

}
