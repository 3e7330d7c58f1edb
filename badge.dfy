/** The coloured status badge the tables draw in their cells. */
module Badges {
  /** The badge colour: green, blue, red or grey. */
  datatype Tone = Positive | Pending | Negative | Neutral

  datatype Badge = Badge(tone: Tone, text: string)
}
