/**
 The frame drawn while the screen is on, described abstractly: the text
 colour, what fills the background, the colour of the 80-pixel header band
 and the two value labels. Fonts and coordinates are not modelled.
 */
module Render {

  import opened AirQuality
  import Decimal

  datatype Rgb = Rgb(r: nat, g: nat, b: nat)

  const White := Rgb(255, 255, 255)
  const Black := Rgb(0, 0, 0)
  const Red := Rgb(255, 0, 0)
  const Yellow := Rgb(255, 255, 0)

  /** A solid colour fill, or the `assets/background.png` image. */
  datatype Backdrop = Solid(colour: Rgb) | BackgroundImage

  datatype Frame = Frame(text: Rgb, backdrop: Backdrop, band: Rgb, co2: string, voc: string)

  /** The eCO2 label: the sensor's floor value and below show as "<400". */
  function Co2Label(eco2: nat): (s: string)
    ensures s == "<400" <==> eco2 <= 400
    ensures eco2 > 400 ==> Decimal.IsDecimalOf(s, eco2)
  {
    if eco2 <= 400 then "<400" else Decimal.FromNat(eco2)
  }

  /**
   The frame for a level and readings. Bad air gives white text on red,
   medium air black text on yellow, anything else (good, unknown) white text
   on the background image under a black header band.
   */
  function Draw(level: Level, g: Gas): (f: Frame)
    ensures level == Bad ==> f.text == Rgb(255, 255, 255) && f.backdrop == Solid(Rgb(255, 0, 0))
    ensures level == Medium ==> f.text == Rgb(0, 0, 0) && f.backdrop == Solid(Rgb(255, 255, 0))
    ensures level != Bad && level != Medium ==>
              f.text == Rgb(255, 255, 255) && f.backdrop == BackgroundImage && f.band == Rgb(0, 0, 0)
    ensures f.backdrop.Solid? ==> f.band == f.backdrop.colour
    ensures f.co2 == "<400" <==> g.eco2 <= 400
    ensures g.eco2 > 400 ==> Decimal.IsDecimalOf(f.co2, g.eco2)
    ensures Decimal.IsDecimalOf(f.voc, g.tvoc)
  {
    var (text, background) :=
      if level == Bad then (White, Red)
      else if level == Medium then (Black, Yellow)
      else (White, Black);
    var backdrop := if background != Black then Solid(background) else BackgroundImage;
    Frame(text, backdrop, background, Co2Label(g.eco2), Decimal.FromNat(g.tvoc))
  }

  /** The clamp merges the floor values and nothing else: labels differ exactly when readings above 400 differ. */
  lemma Co2LabelOnlyMergesFloor(a: nat, b: nat)
    ensures Co2Label(a) == Co2Label(b) <==> a == b || (a <= 400 && b <= 400)
  {
    if Co2Label(a) == Co2Label(b) && a > 400 && b > 400 {
      assert Decimal.Parse(Co2Label(a)) == Decimal.Parse(Co2Label(b));
    }
  }
}
