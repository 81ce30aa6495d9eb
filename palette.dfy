/** The colours the strip can show: RGB triples and the fixed named palette. */
module Palette {

  /** One colour channel of a pixel, 0 to 255. */
  type Channel = x: int | 0 <= x < 256

  /** A pixel value, in the (red, green, blue) order the program writes it. */
  datatype Rgb = Rgb(red: Channel, green: Channel, blue: Channel)

  /** The value a pixel holds when it is off. */
  const Black: Rgb := Rgb(0, 0, 0)

  /** The immutable name-to-colour table; any other name is rejected. */
  const ColorMap: map<string, Rgb> := map[
    "Orange" := Rgb(255, 165, 0),
    "White" := Rgb(255, 255, 255),
    "Blue" := Rgb(0, 0, 255),
    "Green" := Rgb(0, 255, 0),
    "Red" := Rgb(255, 0, 0),
    "Purple" := Rgb(128, 0, 128)
  ]
}
