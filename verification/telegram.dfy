/**
 The reply of the Telegram `/start` command: a choice of sentences from the
 indoor air-quality level, the outdoor AQI and the readings, behind a check
 that the sender is an authorized user.
 */
module Telegram {

  import opened Wrappers
  import opened AirQuality
  import Decimal

  /** The advice sentences, named by indoor level and outdoor situation. */
  datatype Advice =
    | BadInsideBadOutside | BadInsideModerateOutside | BadInsideCleanOutside
    | MediumInsideBadOutside | MediumInsideModerateOutside | MediumInsideCleanOutside
    | GoodInsideBadOutside | GoodInsideModerateOutside | GoodInsideCleanOutside

  /** One line of the reply. */
  datatype Line =
    | Say(advice: Advice)
    | Readings(co2: string, voc: string, aqi: string)
    | StillStarting

  /**
   The handler's outcome. `Raised`: the level attribute has not been set yet
   (the main loop has not classified once), so reading it raises and no message is sent.
   */
  datatype Reply = Raised | Sent(lines: seq<Line>)

  datatype Access = Denied | Handled(reply: Reply)

  /** Outdoor AQI bands of the IQAir index: above 100 is bad, above 50 moderate. */
  const BadAqi: nat := 100
  const ModerateAqi: nat := 50

  /**
   The advice as written: the bad and medium branches choose one sentence
   with `if`/`elif`/`else`, but the good branch uses `if` followed by an
   `if`/`else`, so an AQI above 100 yields two sentences.
   */
  function AdviceAsWritten(level: Level, aqi: nat): (r: seq<Advice>)
    ensures r == [] <==> level == Unknown
    ensures level == Good && aqi > 100 ==> r == [GoodInsideBadOutside, GoodInsideModerateOutside]
    ensures !(level == Good && aqi > 100) ==> |r| <= 1
  {
    match level
    case Bad =>
      if aqi > BadAqi then [BadInsideBadOutside]
      else if aqi > ModerateAqi then [BadInsideModerateOutside]
      else [BadInsideCleanOutside]
    case Medium =>
      if aqi > BadAqi then [MediumInsideBadOutside]
      else if aqi > ModerateAqi then [MediumInsideModerateOutside]
      else [MediumInsideCleanOutside]
    case Good =>
      (if aqi > BadAqi then [GoodInsideBadOutside] else [])
      + (if aqi > ModerateAqi then [GoodInsideModerateOutside] else [GoodInsideCleanOutside])
    case Unknown => []
  }

  /** The outdoor band an advice sentence is for: 2 bad, 1 moderate, 0 clean. */
  function OutdoorBand(a: Advice): nat {
    match a
    case BadInsideBadOutside | MediumInsideBadOutside | GoodInsideBadOutside => 2
    case BadInsideModerateOutside | MediumInsideModerateOutside | GoodInsideModerateOutside => 1
    case _ => 0
  }

  function Band(aqi: nat): nat {
    if aqi > BadAqi then 2 else if aqi > ModerateAqi then 1 else 0
  }

  /** The indoor level an advice sentence is for. */
  function IndoorLevel(a: Advice): Level {
    match a
    case BadInsideBadOutside | BadInsideModerateOutside | BadInsideCleanOutside => Bad
    case MediumInsideBadOutside | MediumInsideModerateOutside | MediumInsideCleanOutside => Medium
    case _ => Good
  }

  /** The evidently intended advice: one `if`/`elif`/`else` chain for every level. */
  function AdviceIntended(level: Level, aqi: nat): (r: seq<Advice>)
    ensures level == Unknown ==> r == []
    ensures level != Unknown ==> |r| == 1 && IndoorLevel(r[0]) == level && OutdoorBand(r[0]) == Band(aqi)
  {
    match level
    case Bad =>
      if aqi > BadAqi then [BadInsideBadOutside]
      else if aqi > ModerateAqi then [BadInsideModerateOutside]
      else [BadInsideCleanOutside]
    case Medium =>
      if aqi > BadAqi then [MediumInsideBadOutside]
      else if aqi > ModerateAqi then [MediumInsideModerateOutside]
      else [MediumInsideCleanOutside]
    case Good =>
      if aqi > BadAqi then [GoodInsideBadOutside]
      else if aqi > ModerateAqi then [GoodInsideModerateOutside]
      else [GoodInsideCleanOutside]
    case Unknown => []
  }

  /**
   The two differ exactly for good indoor air under a bad outdoor AQI, where
   the code as written adds the moderate-outdoor sentence after the right one.
   */
  lemma GoodAirDoubleAdvice(level: Level, aqi: nat)
    ensures AdviceAsWritten(level, aqi) != AdviceIntended(level, aqi) <==> level == Good && aqi > 100
    ensures level == Good && aqi > 100 ==>
              AdviceAsWritten(level, aqi) == AdviceIntended(level, aqi) + [GoodInsideModerateOutside]
  {
  }

  /** The readings line; only an eCO2 of exactly 400 is shown as "<400". */
  function ReadingsLine(g: Gas, aqi: nat): (l: Line)
    ensures l.Readings?
    ensures l.co2 == "<400" <==> g.eco2 == 400
    ensures g.eco2 != 400 ==> Decimal.IsDecimalOf(l.co2, g.eco2)
    ensures Decimal.IsDecimalOf(l.voc, g.tvoc)
    ensures Decimal.IsDecimalOf(l.aqi, aqi)
  {
    Readings(if g.eco2 == 400 then "<400" else Decimal.FromNat(g.eco2), Decimal.FromNat(g.tvoc), Decimal.FromNat(aqi))
  }

  function SayAll(advice: seq<Advice>): (lines: seq<Line>)
    ensures |lines| == |advice|
    ensures forall i :: 0 <= i < |advice| ==> lines[i] == Say(advice[i])
  {
    if advice == [] then [] else [Say(advice[0])] + SayAll(advice[1..])
  }

  /**
   The `/start` reply. `level` is the last classification (None before the
   first one) and `aqi` the outdoor AQI (None until a fetch succeeded).
   */
  function Start(level: Option<Level>, aqi: Option<nat>, g: Gas): (r: Reply)
    ensures r == Raised <==> level.None?
    ensures r.Sent? ==> (r.lines == [StillStarting] <==> aqi.None?)
    ensures level.Some? && aqi.Some? ==>
              && r.Sent? && 0 < |r.lines|
              && r.lines[..|r.lines| - 1] == SayAll(AdviceAsWritten(level.value, aqi.value))
              && r.lines[|r.lines| - 1] == ReadingsLine(g, aqi.value)
  {
    match level
    case None => Raised
    case Some(l) =>
      match aqi
      case None => Sent([StillStarting])
      case Some(q) =>
        var lines := SayAll(AdviceAsWritten(l, q)) + [ReadingsLine(g, q)];
        assert lines[..|lines| - 1] == SayAll(AdviceAsWritten(l, q));
        Sent(lines)
  }

  /** The `restricted` wrapper: the handler runs only for an authorized user id. */
  function HandleStart(user: int, authorized: seq<int>, level: Option<Level>, aqi: Option<nat>, g: Gas): (r: Access)
    ensures r.Handled? <==> user in authorized
    ensures r.Handled? ==> r.reply == Start(level, aqi, g)
  {
    if user !in authorized then Denied else Handled(Start(level, aqi, g))
  }

  /** The text of one advice sentence. */
  function Sentence(a: Advice): string {
    match a
    case BadInsideBadOutside =>
      "La calidad del aire tanto dentro como fuera de casa es muy mala. Habrá que aguantarse. 😷"
    case BadInsideModerateOutside =>
      "Huele a tigre. Aunque la calidad del aire exterior no es muy buena, quizá sea oportuno ventilar un poco. 🔥"
    case BadInsideCleanOutside =>
      "Huele a tigre. Haz el favor de ventilar. 🔥"
    case MediumInsideBadOutside =>
      "Aunque vendría bien ventilar un poco, la calidad del aire fuera de casa es muy mala. 💔"
    case MediumInsideModerateOutside =>
      "La calidad del aire tanto dentro como fuera de casa es bastante mala. Habrá que aguantarse. 😷"
    case MediumInsideCleanOutside =>
      "El ambiente está un poco cargado. No nos vendría mal ventilar 🏡"
    case GoodInsideBadOutside =>
      "La calidad del aire es muy mala afuera, pero muy buena adentro. Hoy es mejor quedarse en casa y no ventilar. 🛋"
    case GoodInsideModerateOutside =>
      "La calidad del aire es mala afuera, pero muy buena adentro. Hoy es mejor no ventilar. 🛋"
    case GoodInsideCleanOutside =>
      "Qué aire más limpio 💖"
  }

  /** Sent while the outdoor AQI is still unknown. */
  const StartingSentence: string := "Todavía estoy poniéndome en marcha, así que no tengo datos aún"

  function LineText(l: Line): string {
    match l
    case Say(a) => Sentence(a)
    case Readings(co2, voc, aqi) => "CO2: " + co2 + " ppm, VOC: " + voc + " ppb, AQI: " + aqi
    case StillStarting => StartingSentence
  }

  /** The message text: every line preceded by a newline. */
  function MessageText(lines: seq<Line>): (t: string)
    ensures t == "" <==> lines == []
    ensures lines != [] ==> t[0] == '\n'
  {
    if lines == [] then "" else "\n" + LineText(lines[0]) + MessageText(lines[1..])
  }

  /** The text of a message is the texts of its parts, one after the other. */
  lemma {:induction false} MessageTextAppend(a: seq<Line>, b: seq<Line>)
    ensures MessageText(a + b) == MessageText(a) + MessageText(b)
    decreases |a|
  {
    if a == [] {
      assert a + b == b;
    } else {
      assert (a + b)[0] == a[0] && (a + b)[1..] == a[1..] + b;
      MessageTextAppend(a[1..], b);
    }
  }

  /** A message of one line is a newline followed by that line's text. */
  lemma MessageTextSingle(l: Line)
    ensures MessageText([l]) == "\n" + LineText(l)
  {
    assert [l][1..] == [];
  }

  /**
   The advice part of the text: nothing for an unknown level, the one chosen
   sentence after a newline, or, for good air under an AQI above 100, the
   ">100" sentence and then the ">50" sentence, each after a newline.
   */
  lemma AdviceText(level: Level, aqi: nat)
    ensures level == Unknown ==> MessageText(SayAll(AdviceAsWritten(level, aqi))) == ""
    ensures level != Unknown && !(level == Good && aqi > 100) ==>
              MessageText(SayAll(AdviceAsWritten(level, aqi)))
              == "\n" + Sentence(AdviceIntended(level, aqi)[0])
    ensures level == Good && aqi > 100 ==>
              MessageText(SayAll(AdviceAsWritten(level, aqi)))
              == "\n" + Sentence(GoodInsideBadOutside) + "\n" + Sentence(GoodInsideModerateOutside)
  {
    var advice := AdviceAsWritten(level, aqi);
    var lines := SayAll(advice);
    if level == Good && aqi > 100 {
      assert lines == [Say(GoodInsideBadOutside)] + [Say(GoodInsideModerateOutside)];
      MessageTextAppend([Say(GoodInsideBadOutside)], [Say(GoodInsideModerateOutside)]);
      MessageTextSingle(Say(GoodInsideBadOutside));
      MessageTextSingle(Say(GoodInsideModerateOutside));
    } else if level != Unknown {
      assert advice == AdviceIntended(level, aqi);
      assert lines == [Say(advice[0])];
      MessageTextSingle(Say(advice[0]));
    }
  }

  /** The text of the readings line starts "CO2: <400" exactly when eCO2 is 400. */
  lemma ReadingsTextClamp(g: Gas, aqi: nat)
    ensures var t := LineText(ReadingsLine(g, aqi));
            |t| >= 9 && (t[..9] == "CO2: <400" <==> g.eco2 == 400)
  {
    var l := ReadingsLine(g, aqi);
    var t := LineText(l);
    assert t == "CO2: " + l.co2 + " ppm, VOC: " + l.voc + " ppb, AQI: " + l.aqi;
    if g.eco2 != 400 {
      assert t[5] == l.co2[0];
      assert Decimal.IsDigit(t[5]);
      assert t[..9][5] != "CO2: <400"[5];
    }
  }

  /**
   The text sent once a level is known: the still-starting sentence while the
   AQI is unknown; otherwise the advice text (see `AdviceText`) followed by a
   newline and the readings line.
   */
  lemma StartText(level: Level, aqi: Option<nat>, g: Gas)
    ensures aqi.None? ==>
              MessageText(Start(Some(level), aqi, g).lines)
              == "\n" + StartingSentence
    ensures aqi.Some? ==>
              MessageText(Start(Some(level), aqi, g).lines)
              == MessageText(SayAll(AdviceAsWritten(level, aqi.value))) + "\n" + LineText(ReadingsLine(g, aqi.value))
  {
    if aqi.Some? {
      var advice := SayAll(AdviceAsWritten(level, aqi.value));
      var readings := ReadingsLine(g, aqi.value);
      assert Start(Some(level), aqi, g).lines == advice + [readings];
      MessageTextAppend(advice, [readings]);
      MessageTextSingle(readings);
    } else {
      assert Start(Some(level), aqi, g).lines == [StillStarting];
      assert MessageText([StillStarting]) == "\n" + LineText(StillStarting) + MessageText([]);
    }
  }
}
