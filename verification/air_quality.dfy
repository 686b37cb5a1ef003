/**
 Air-quality classification of the gas sensor's readings, after the
 Hong Kong Indoor Air Quality guide bands. Both scripts use the same bands;
 the Adafruit variant also has an `unknown` outcome for missing readings.
 */
module AirQuality {

  /** One reading of the gas sensor: equivalent CO2 in ppm, TVOC in ppb. */
  datatype Gas = Gas(eco2: nat, tvoc: nat)

  datatype Level = Good | Medium | Bad | Unknown

  /** Upper bounds of the bands; a reading strictly above one moves up a level. */
  const MediumEco2: nat := 800
  const BadEco2: nat := 1000
  const MediumTvoc: nat := 87
  const BadTvoc: nat := 261

  /** Severity order on the classified levels: Good < Medium < Bad. */
  function Severity(l: Level): nat
    requires l != Unknown
  {
    match l
    case Good => 0
    case Medium => 1
    case Bad => 2
  }

  /**
   The `air_quality()` function of the Adafruit variant. A reading of 0 is
   falsy in Python and counts as missing, whatever the other value is.
   */
  function ClassifyAdafruit(g: Gas): (l: Level)
    ensures l == Unknown <==> g.eco2 == 0 || g.tvoc == 0
    ensures l == Bad <==> g.eco2 != 0 && g.tvoc != 0 && (g.eco2 > 1000 || g.tvoc > 261)
    ensures l == Medium <==> g.eco2 != 0 && g.tvoc != 0 && g.eco2 <= 1000 && g.tvoc <= 261
                             && (g.eco2 > 800 || g.tvoc > 87)
    ensures l == Good <==> 0 < g.eco2 <= 800 && 0 < g.tvoc <= 87
  {
    if g.eco2 != 0 && g.tvoc != 0 then
      if g.eco2 > BadEco2 || g.tvoc > BadTvoc then Bad
      else if g.eco2 > MediumEco2 || g.tvoc > MediumTvoc then Medium
      else Good
    else Unknown
  }

  /**
   The inline classifier of the Calcifer variant (`calcifer.py`): it starts
   from "good" and has no missing-reading case.
   */
  function ClassifyCalcifer(g: Gas): (l: Level)
    ensures l != Unknown
    ensures l == Bad <==> g.eco2 > 1000 || g.tvoc > 261
    ensures l == Medium <==> g.eco2 <= 1000 && g.tvoc <= 261 && (g.eco2 > 800 || g.tvoc > 87)
    ensures l == Good <==> g.eco2 <= 800 && g.tvoc <= 87
  {
    if g.eco2 > BadEco2 || g.tvoc > BadTvoc then Bad
    else if g.eco2 > MediumEco2 || g.tvoc > MediumTvoc then Medium
    else Good
  }

  /** Where both readings are present the two scripts agree. */
  lemma ClassifiersAgree(g: Gas)
    ensures ClassifyAdafruit(g) == (if g.eco2 == 0 || g.tvoc == 0 then Unknown else ClassifyCalcifer(g))
  {
  }

  /** Raising either reading never lowers the severity (readings present). */
  lemma AdafruitMonotone(g: Gas, h: Gas)
    requires 0 < g.eco2 <= h.eco2 && 0 < g.tvoc <= h.tvoc
    ensures ClassifyAdafruit(g) != Unknown && ClassifyAdafruit(h) != Unknown
    ensures Severity(ClassifyAdafruit(g)) <= Severity(ClassifyAdafruit(h))
  {
  }

  /** Raising either reading never lowers the severity. */
  lemma CalciferMonotone(g: Gas, h: Gas)
    requires g.eco2 <= h.eco2 && g.tvoc <= h.tvoc
    ensures Severity(ClassifyCalcifer(g)) <= Severity(ClassifyCalcifer(h))
  {
  }
}
