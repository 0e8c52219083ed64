/**
  The glyph and colour choice `UpdateIcon` makes before drawing. A zero battery
  shows a single dash; otherwise the two battery digits are drawn, each in one
  of three brushes chosen from the sidetone and charging flags.
 */
module Icon {

  /** White text, light-green sidetone, and amber (255, 199, 96) charging brushes. */
  datatype Colour = TextColour | SidetoneColour | ChargingColour

  datatype Glyph =
    | Dash
    | Digits(left: Colour, right: Colour)

  function SelectGlyph(battery: real, sidetoneFull: bool, charging: bool): (g: Glyph)
    ensures g.Dash? <==> battery == 0.0
    ensures g.Digits? ==> (g.left == ChargingColour <==> charging)
    ensures g.Digits? ==> (g.left == SidetoneColour <==> sidetoneFull && !charging)
    ensures g.Digits? ==> (g.right == SidetoneColour <==> sidetoneFull)
    ensures g.Digits? ==> (g.right == ChargingColour <==> charging && !sidetoneFull)
  {
    if battery == 0.0 then Dash
    else if sidetoneFull && charging then Digits(ChargingColour, SidetoneColour)
    else if sidetoneFull then Digits(SidetoneColour, SidetoneColour)
    else if charging then Digits(ChargingColour, ChargingColour)
    else Digits(TextColour, TextColour)
  }

  /** A digit keeps the plain text colour exactly when neither flag is set. */
  lemma PlainDigitsIff(battery: real, sidetoneFull: bool, charging: bool)
    requires battery != 0.0
    ensures SelectGlyph(battery, sidetoneFull, charging).left == TextColour <==> !sidetoneFull && !charging
    ensures SelectGlyph(battery, sidetoneFull, charging).right == TextColour <==> !sidetoneFull && !charging
  {
  }

  /** The two digits share a colour unless both flags are set. */
  lemma DigitsDifferIff(battery: real, sidetoneFull: bool, charging: bool)
    requires battery != 0.0
    ensures var g := SelectGlyph(battery, sidetoneFull, charging);
            g.left != g.right <==> sidetoneFull && charging
  {
  }
}
