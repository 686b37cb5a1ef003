# Calcifer monitor core in Dafny

Calcifer is an indoor air-quality monitor for a Raspberry Pi. It is built from
an SGP30 gas sensor (eCO2 and TVOC), an LTR559 light/proximity sensor and a
small ST7789 screen. The repository has two top-level scripts:
`calcifer_adafruit.py` (the "Adafruit" variant) and the older `calcifer.py`
(the "Calcifer" variant). Under the hardware, HTTP, YAML and image calls, both
scripts share a small core of integer decision logic. This project models that
core with immutable records and pure per-tick step functions. Time is integer
seconds and every tick has an explicit `now`. It also proves properties of
single ticks and of finite tick sequences.

Modules:

- `AirQuality` (`air_quality.dfy`): the Hong Kong IAQ band classifier in both
  variants. The Adafruit one has four outcomes, and a reading of 0 counts as
  missing (Python falsiness). The Calcifer one has three outcomes and defaults
  to good.
- `BaselineStore` (`baseline_store.dfy`): the Adafruit baseline lifecycle. It
  covers the strict 7-day restore window at start-up, the 1 h or 12 h
  maturation delay, and the per-tick bookkeeping. In that bookkeeping a valid
  commit takes precedence over a candidate line, and a valid commit overwrites
  the stored baseline record.
- `MinuteBaseline` (`minute_baseline.dfy`): the Calcifer baseline log. A
  one-minute counter gates every line, and a nested valid deadline decides
  whether the line is marked valid.
- `BaselineLog` (`baseline_log.dfy`): the log-line records both variants
  write, plus views of a log used in lemmas over many ticks.
- `Alert` (`alert.dfy`): the `screen_timeout` machine in both variants, with
  lemmas over tick sequences.
- `Render` (`render.dfy`): the abstract frame. It covers the text colour, the
  background fill or image, the header band colour, the eCO2 label with its
  `<400` clamp, and the TVOC label. The same function serves both variants:
  `calcifer.py:127-160` draws exactly what `calcifer_adafruit.py:317-350` draws.
- `Telegram` (`telegram.dfy`): the `/start` reply chosen from the indoor
  level, the outdoor AQI and the readings, behind the `restricted`
  authorization check.
- `Outdoor` (`outdoor.dfy`): the rule that a poll updates the outdoor AQI only
  when the response status is `success`.
- `Warmup` (`warmup.dfy`): the start-up warm-up gate, at most 30 one-second
  passes.
- `Monitor` (`monitor.dfy`): one pass of each main loop composed from the
  components, and runs of passes.
- `Decimal`, `Timing`, `Wrappers`: `str(n)` rendering and its parser, the
  durations (7 days = 604800 s, 12 h = 43200 s, 1 h = 3600 s, 10 min = 600 s,
  1 min = 60 s), and `Option`.

Behaviour taken from the code, where a reader might expect otherwise:

- A single proximity hit followed by ticks with proximity below 5 keeps the
  screen on for exactly 5 ticks, not 6. The hit sets the timeout to 5 and the
  same tick decrements it.
- The Adafruit variant does not keep the screen on for bad air alone. The
  Calcifer variant does, and its timeout then falls below zero without a floor.
- Every off tick calls the backlight-off function again. No redundant call is
  suppressed.
- The valid commit rewrites `config.yaml` with a plain overwrite. Nothing here
  claims the write is atomic.
- A stored baseline whose timestamp is recent but whose eCO2 or TVOC value is
  null stops the Adafruit script at start-up: formatting `None` with `{:x}` at
  `calcifer_adafruit.py:192-193` raises. So the 1-hour maturation delay applies
  exactly when a baseline was restored.
- `sgp30.air_quality` is an attribute the script adds on the first call of
  `air_quality()`. Before that, reading it in the `/start` handler raises and no
  message is sent (`Telegram.Reply.Raised`). The "still starting" sentence is
  sent when the level is set and the outdoor AQI is still `None`.
- The Telegram reading line shows `<400` only when eCO2 is exactly 400. The
  screen shows it for every eCO2 up to 400.

## Model

| member | source | states |
|---|---|---|
| AirQuality.ClassifyAdafruit | calcifer_adafruit.py:162-173 | The result is unknown iff eCO2 or TVOC is 0. Otherwise it is bad iff eCO2 > 1000 or TVOC > 261, medium iff not bad and (eCO2 > 800 or TVOC > 87), and good iff eCO2 <= 800 and TVOC <= 87. |
| AirQuality.ClassifyCalcifer | calcifer.py:113-117 | The result is never unknown: bad iff eCO2 > 1000 or TVOC > 261, medium iff not bad and (eCO2 > 800 or TVOC > 87), good otherwise. |
| AirQuality.ClassifiersAgree | calcifer_adafruit.py:165-173 | The two scripts classify alike when both readings are nonzero. The Adafruit variant says unknown otherwise. |
| AirQuality.AdafruitMonotone | calcifer_adafruit.py:166-171 | With readings present, raising eCO2 or TVOC never lowers severity (good < medium < bad). |
| AirQuality.CalciferMonotone | calcifer.py:113-117 | Raising eCO2 or TVOC never lowers severity. |
| BaselineStore.RestoreDecision | calcifer_adafruit.py:183-199 | The stored baseline is used iff its timestamp is present and now < timestamp + 604800 (strict), and then with the stored values. With no timestamp, or one 7 days old or more, it is ignored. |
| BaselineStore.Start | calcifer_adafruit.py:183-210 | Start-up fails iff a recent record lacks a value. Otherwise the candidate deadline is start + 600, the baseline is applied to the sensor iff the record is recent, the valid deadline is start + 3600 if applied and start + 43200 if not, and the stored record is kept. |
| BaselineStore.Bookkeep | calcifer_adafruit.py:283-307 | A result line is written iff now > candidate deadline, tested before either reset. At most one baseline line is written, and the valid branch wins when both deadlines have passed. A valid commit sets the valid deadline to now + 3600 and the stored record to (sensor baseline, now), and leaves the candidate deadline alone. A candidate line sets only the candidate deadline, to now + 600. With neither deadline passed, nothing changes. |
| BaselineStore.ValidCommitsSpaced | calcifer_adafruit.py:287-288 | Over any run of ticks, valid lines come after the initial valid deadline, and each is more than an hour after the previous one. |
| BaselineStore.CandidatesSpaced | calcifer_adafruit.py:302-303 | Over any run of ticks, candidate lines come after the initial candidate deadline, and each is more than ten minutes after the previous one. |
| BaselineStore.StoredIsLastValid | calcifer_adafruit.py:287-299 | After any run, the stored record holds the last valid line's values and time, and the valid deadline is that time + 3600. With no valid line, both are unchanged. |
| BaselineStore.RestartRestoresLastCommit | calcifer_adafruit.py:184-210 | After a run with a valid commit, a restart less than a week later re-applies exactly that baseline with a 1 h delay. A later restart ignores it and waits 12 h. |
| MinuteBaseline.LogStep | calcifer.py:94-108 | A line is written iff now > counter, and then exactly one, and the counter becomes now + 60. The line is valid iff now > valid deadline, which then becomes now + 3600. Otherwise the line is a candidate and the valid deadline is unchanged. Without a firing nothing changes. |
| MinuteBaseline.LinesSpaced | calcifer.py:94-103 | Over any run, lines are more than a minute apart and come after the initial counter. Valid lines are more than an hour apart and come after the initial valid deadline. |
| Alert.AdafruitStep | calcifer_adafruit.py:310-315 | The screen is on iff prox >= 5 or the incoming timeout > 0. A hit leaves the timeout at 4, a quiet on-tick decrements it, and an off-tick keeps it. |
| Alert.CalciferStep | calcifer.py:120-123 | The screen is on iff prox >= 5, or the air is bad, or the timeout > 0. The timeout is updated as in the Adafruit variant, with no floor. |
| Alert.StepsAgreeUnlessBad | calcifer.py:120-123 | Without bad air the two machines take the same step. |
| Alert.AdafruitTimeoutBounded | calcifer_adafruit.py:310-313 | From a timeout in [0, 4] (0 at start-up), every run keeps it in [0, 4]. |
| Alert.AdafruitDecay | calcifer_adafruit.py:310-315 | Over n ticks whose proximity is each below 5, a timeout of k gives exactly min(k, n) on-ticks, then off-ticks. |
| Alert.SingleTriggerAdafruit | calcifer_adafruit.py:310-315 | One proximity hit followed by n ticks with proximity below 5 gives 1 + min(4, n) on-ticks (exactly 5 once n >= 4), then off, from any timeout. |
| Alert.CalciferWithoutBadAir | calcifer.py:120-123 | On a run without bad air, the Calcifer screen sequence equals the Adafruit one for the same proximities. |
| Alert.BadAirStretch | calcifer.py:120-123 | Over any n ticks with bad air and proximity below 5, the screen is on every tick and the timeout falls by exactly n, below zero if need be. |
| Alert.OffAfterBadAirStretch | calcifer.py:120-123 | After a stretch of bad air with proximity below 5, the first tick that is neither bad nor proximate is off iff the stretch was at least as long as the starting timeout. |
| Alert.SingleTriggerCalcifer | calcifer.py:120-123 | One hit, then at least four ticks with proximity below 5, all without bad air: exactly 5 on-ticks, then off. |
| Render.Co2Label | calcifer_adafruit.py:340-344 | The label is "<400" iff eCO2 <= 400. Otherwise it is exactly `str(eCO2)`: digits without a leading zero that read back as eCO2. |
| Render.Draw | calcifer_adafruit.py:317-350 | Bad air gives white text on a solid red fill, and medium air black text on a solid yellow fill. Otherwise the frame has white text on the background image under a black header band. A solid fill's band has the fill colour. The eCO2 label is clamped as above, and above 400 it is exactly `str(eCO2)`. The TVOC label is exactly `str(TVOC)`. |
| Render.Co2LabelOnlyMergesFloor | calcifer.py:150-154 | Two eCO2 labels are equal iff the readings are equal or both are at most 400. |
| Telegram.AdviceAsWritten | calcifer_adafruit.py:90-112 | Bad and medium air give one advice sentence each. Good air with AQI > 100 gives both the ">100" and the ">50" sentences. Unknown air gives none. |
| Telegram.AdviceIntended | calcifer_adafruit.py:106-112 | For a known level, exactly one sentence is chosen, and it matches that level and the outdoor band (> 100, > 50, else). |
| Telegram.GoodAirDoubleAdvice | calcifer_adafruit.py:106-112 | The code as written differs from the intended choice exactly for good air with AQI > 100. There it appends the ">50" sentence as well. |
| Telegram.ReadingsLine | calcifer_adafruit.py:114-119 | The CO2 field is "<400" iff eCO2 == 400, and otherwise exactly `str(eCO2)`. The VOC and AQI fields are exactly `str` of their values. |
| Telegram.Start | calcifer_adafruit.py:87-121 | No message is sent iff the level is unset. The reply is the "still starting" line iff the AQI is None. Otherwise the reply is the advice lines followed by the readings line. |
| Telegram.MessageText | calcifer_adafruit.py:88-121 | The message is empty iff there are no lines. Otherwise it starts with a newline, since every line is appended with a leading newline. |
| Telegram.MessageTextSingle | calcifer_adafruit.py:92-119 | Each line adds a newline followed by that line's own text, as every `tg_message += "\n…"` append does. |
| Telegram.MessageTextAppend | calcifer_adafruit.py:88-121 | The text of two groups of lines is the text of the first followed by the text of the second. |
| Telegram.ReadingsTextClamp | calcifer_adafruit.py:114-119 | The readings line's text begins "CO2: <400" iff eCO2 == 400. |
| Telegram.StartText | calcifer_adafruit.py:88-121 | Once a level is known, the sent text is the newline and the still-starting sentence while the AQI is None. Otherwise it is exactly the advice text followed by a newline and the readings line. |
| Telegram.AdviceText | calcifer_adafruit.py:90-112 | The advice text is empty for an unknown level. For good air with AQI > 100 it is the ">100" sentence and then the ">50" sentence, each after a newline. Otherwise it is a newline and the one intended sentence for the level and the outdoor band. |
| Telegram.HandleStart | calcifer_adafruit.py:74-83 | The handler runs iff the user id is in the authorized list, and its reply is then the `/start` reply. |
| Outdoor.Update | calcifer_adafruit.py:225-230 | A poll sets the AQI to the response's value iff the status is "success". This includes a successful response without `ts`, which raises only after the assignment. A request that raises before the assignment, or a status other than "success", leaves the AQI unchanged. |
| Outdoor.PollKeepsLastSuccess | calcifer_adafruit.py:218-231 | After any series of polls, the AQI is the value of the most recent successful poll, or the initial value if none succeeded. |
| Outdoor.NeverForgotten | calcifer_adafruit.py:227-228 | Once known, the outdoor AQI never becomes None again. |
| Warmup.Gate | calcifer_adafruit.py:258-262 | The gate waits at most 30 passes. Every reading before it stops is not ready (not eCO2 > 400 and TVOC > 0), and if it stops early the reading there is ready. |
| Monitor.AdafruitBoot | calcifer_adafruit.py:176-234 | The loop is entered iff the baseline start-up succeeds and the first outdoor AQI poll, made on the main thread, does not raise. A successful response without `ts` also raises there, after the assignment. It starts with timeout 0, no classification yet and the start-up baseline state. The outdoor AQI is that poll's value iff its status is "success", and unknown otherwise. |
| Monitor.AdafruitTick | calcifer_adafruit.py:264-354 | A pass records the Adafruit classification and does the bookkeeping step. It shows a frame iff prox >= 5 or timeout > 0, and that frame is the one drawn for this level and reading. The next timeout is the alert machine's (4 after a hit, one less on a quiet on-pass, unchanged when off), so it stays in [0, 4]. The outdoor AQI is untouched. |
| Monitor.AdafruitRun | calcifer_adafruit.py:264-356 | A run gives one output per reading, and every frame drawn at pass i is the one for reading i's classification and values. |
| Monitor.AdafruitRunComposes | calcifer_adafruit.py:264-354 | Over any run, the on/off sequence of the composed loop equals the alert machine's for the same proximities. Its baseline log equals the one the bookkeeping alone writes for the same ticks. |
| Monitor.AdafruitLoopSingleTrigger | calcifer_adafruit.py:310-315 | In the composed loop, one proximity hit followed by n passes with proximity below 5 lights the screen for 1 + min(4, n) passes, then switches it off. |
| Monitor.AdafruitDarkWithoutProximity | calcifer_adafruit.py:310-354 | With the timeout run down and nobody near, every pass switches the backlight off, even with bad air. |
| Monitor.CalciferBoot | calcifer.py:77-80 | The loop starts with timeout 0, the counter at start + 60 and the valid deadline at start + 43200. |
| Monitor.CalciferTick | calcifer.py:82-164 | A pass does the one-minute log step. It shows a frame iff prox >= 5, or the air is bad, or timeout > 0, and the frame is the one drawn for this level and reading. The next timeout is the alert machine's: 4 after a hit, one less on another on-pass, unchanged when off. No reading line is written. |
| Monitor.CalciferLoop | calcifer.py:82-166 | The intended loop gives one output per reading, the first being the first pass's output. Every frame drawn at pass i is the one for reading i's classification and values. |
| Monitor.CalciferLoopComposes | calcifer.py:82-164 | Over any run, the on/off sequence of the loop equals the alert machine's for the same proximities and classifications. Its baseline log equals the one the minute counter alone writes for the same ticks. |
| Monitor.CalciferBadAirAlwaysShown | calcifer.py:120-125 | If every reading is bad, every pass shows a frame (the count of frame-drawing passes equals the number of passes). |
| Monitor.LoopStopsAfterFirstTick | calcifer.py:90-166 | As written, the loop raises at the sleep that ends its first pass. That pass's output is its only output. |
| Monitor.IntendedLoopRuns | calcifer.py:82-166 | With the clock string under its own name, the loop completes a pass for every reading. |
| Decimal.FromNat | calcifer_adafruit.py:343-348 | `str(n)` is non-empty, all digits, without a leading zero, and parses back to n. |
| Decimal.DecimalOfUnique | calcifer_adafruit.py:343-348 | Those four properties pin the text: the only string that has them for n is `str(n)`. |

## Left out

- Hardware drivers: the SGP30, LTR559 and ST7789 setup, `begin`, `iaq_init` and
  the backlight calls. They are opaque I/O. Readings are inputs, and the
  backlight and draw calls are the `Monitor.Display` output.
- PIL rendering: fonts, coordinates, image loading and `calcifer_expressions`
  (GIF animation, never called). Only the abstract frame is modelled. The fixed
  captions "CO2", "ppm", "VOC" and "ppb" are not part of `Render.Frame`.
- YAML loading and dumping, and log-file appends. These are file I/O. The
  stored baseline is a record in the state, and the log lines are values. A
  crash in the middle of the plain overwrite of `config.yaml` is not modelled.
- The IQAir HTTP request, JSON decoding, the Adafruit IO client
  (`send_to_adafruit_io`) and Telegram polling and sending. These are network
  clients. Only the "update the AQI on success" rule and the reply choice are
  kept.
- `threading.Timer` rescheduling is concurrency and is left out. The IQAir poll
  re-arms before it fetches (`calcifer_adafruit.py:224`). The Adafruit IO upload
  re-arms only after both sends succeed (`calcifer_adafruit.py:247`).
- Races between the Telegram thread and the main loop over the level and the
  AQI are left out. The handler is modelled as reading one consistent snapshot.
- The `time.sleep(1.0)` cadence and the several `datetime.now()` calls of one
  pass are collapsed into one explicit integer `now` per pass. Wall-clock jumps
  are not modelled.
- Warmup.Gate: models each pass of the gate as taking exactly one second, so
  there are exactly 30 checks. In the script, time spent reading the sensor
  could make the count 29.
- In the driver, each read of `sgp30.eCO2`, `sgp30.TVOC`, `sgp30.baseline_eCO2`
  or `sgp30.baseline_TVOC` is a fresh sensor query. The model takes one
  reading and one baseline pair per pass.
- BaselineStore.StoredIsLastValid: holds only under the one-read model. In the
  script, the baseline pair logged as valid (`calcifer_adafruit.py:280-281`)
  and the pair stored in the configuration (`calcifer_adafruit.py:294-295`)
  are two separate sensor reads and may differ.
- The `lux` reading is read but never used.
- Outdoor AQI values are non-negative integers. A poll that raises before
  the AQI is assigned (the request, the decoding, a missing `status`, or a
  "success" without `aqius`) is one `Outdoor.Failed` value. A "success" with
  `aqius` but without `ts` assigns the AQI and then raises; it is a
  `Response` whose `stamped` flag is false. The first poll runs on the main
  thread (`calcifer_adafruit.py:234`), so a raise there stops the script
  before the main loop (`Monitor.AdafruitBoot`). Later polls run in the timer
  thread: a raise there ends only that poll, and the AQI keeps whatever
  `Outdoor.Update` gives.
- Monitor.AdafruitBoot: a first IQAir request that never returns is not
  modelled. `requests.get` at `calcifer_adafruit.py:225` has no timeout, and
  the first poll runs on the main thread (`calcifer_adafruit.py:234`), so a
  stalled connection blocks start-up before the main loop. `Outdoor.Fetch`
  has only outcomes that return or raise.
- Stored baseline values, when present, are non-negative integers. YAML
  contents of other types are not modelled.
- Print statements and the `logging` setup.

## Findings

| source | as written | input that shows it | evidently intended | confidence | as-written member | corrected member |
|---|---|---|---|---|---|---|
| calcifer_adafruit.py:106-112 | The good-air branch tests `aqi > 100` with `if`, then `aqi > 50` with a separate `if`/`else`. | Good indoor air with outdoor AQI 150: the reply carries both the "very bad outside" and the "bad outside" sentences. | `elif`, as in the bad and medium branches, so exactly one sentence is chosen. | medium, not executed | Telegram.GoodAirDoubleAdvice | Telegram.AdviceIntended |
| calcifer.py:90 | `time = datetime.now().strftime(...)` rebinds the name of the imported `time` module to a string. | Any first pass of the loop: `time.sleep(1.0)` at line 166 raises AttributeError on a string. | A separate name for the clock string, so the loop sleeps and runs every second. | high, not executed | Monitor.LoopStopsAfterFirstTick | Monitor.IntendedLoopRuns |
