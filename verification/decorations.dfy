/**
 * The decoration layer of the interactive clock: the dispatch on the
 * decoration tag and the index tables of the learning face (colour
 * segments, minute labels, hour and 24-hour numerals).
 *
 * Only the index arithmetic is modelled. The x/y coordinates the source
 * computes with sin/cos, the SVG arc paths, and the fixed ornaments of the
 * other three faces are left out; an ornament set is represented by its tag.
 */
module Decorations {
  import opened Basics
  import opened ClockMath
  import opened Themes

  /** A two-tone colour: the light outer tint and the dark inner shade. */
  datatype Swatch = Swatch(light: string, dark: string)

  /** `LEARNING_CLOCK_COLORS`, one swatch per hour segment, starting at 12 o'clock. */
  const LearningClockColors: seq<Swatch> := [
    Swatch("#ef5350", "#c62828"),
    Swatch("#ff7043", "#e64a19"),
    Swatch("#ffb74d", "#f57c00"),
    Swatch("#fff176", "#fbc02d"),
    Swatch("#dce775", "#afb42b"),
    Swatch("#aed581", "#689f38"),
    Swatch("#81c784", "#388e3c"),
    Swatch("#4db6ac", "#00897b"),
    Swatch("#4fc3f7", "#0288d1"),
    Swatch("#9575cd", "#512da8"),
    Swatch("#ba68c8", "#7b1fa2"),
    Swatch("#f06292", "#c2185b")]

  const MinuteRingOuter: real := 98.0
  const MinuteRingInner: real := 85.0
  const HourSegmentOuter: real := 85.0
  const HourSegmentInner: real := 38.0
  /** Where each hour segment changes from light to dark. */
  const MidRadius: real := (HourSegmentOuter + HourSegmentInner) / 2.0 + 5.0

  /** A ring sector between two radii and two angles (degrees from 12 o'clock). */
  datatype Arc = Arc(innerRadius: real, outerRadius: real, startAngle: real, endAngle: real, fill: string)

  /** A number drawn on the face with its colour. */
  datatype Label = Label(value: int, fill: string)

  /** An hour segment, split into its outer light and inner dark part. */
  datatype HourSegment = HourSegment(outerPart: Arc, innerPart: Arc)

  function SegmentStart(i: int): real
  {
    (i * 30) as real
  }

  function SegmentEnd(i: int): real
  {
    ((i + 1) * 30) as real
  }

  /** Coloured background of the minute ring behind the 5 minutes of segment i. */
  function MinuteRingSegment(i: int): Arc
    requires 0 <= i < 12
  {
    Arc(MinuteRingInner, MinuteRingOuter, SegmentStart(i), SegmentEnd(i), LearningClockColors[i].light)
  }

  /** Minute label i, coloured with the dark shade of the segment it falls in. */
  function MinuteNumber(i: int): Label
    requires 0 <= i < 60
  {
    Label(i, LearningClockColors[i / 5].dark)
  }

  function HourSegmentAt(i: int): HourSegment
    requires 0 <= i < 12
  {
    HourSegment(
      Arc(MidRadius, HourSegmentOuter, SegmentStart(i), SegmentEnd(i), LearningClockColors[i].light),
      Arc(HourSegmentInner, MidRadius, SegmentStart(i), SegmentEnd(i), LearningClockColors[i].dark))
  }

  /** The 24-hour numerals of the inner ring, starting at 12 o'clock. */
  const Hour24Numerals: seq<int> := [0, 13, 14, 15, 16, 17, 18, 19, 20, 21, 22, 23]

  function Hour24Label(i: int): Label
    requires 0 <= i < 12
  {
    Label(Hour24Numerals[i], LearningClockColors[i].dark)
  }

  /** The computed parts of the learning face (`LearningClockDecorations`). */
  datatype LearningFace = LearningFace(
    minuteRing: seq<Arc>,
    minuteBoxRotations: seq<real>,
    minuteNumbers: seq<Label>,
    hourSegments: seq<HourSegment>,
    hourNumbers: seq<int>,
    hour24Numbers: seq<Label>)

  function LearningClock(): (f: LearningFace)
    ensures |f.minuteRing| == 12 && |f.hourSegments| == 12
    ensures |f.hourNumbers| == 12 && |f.hour24Numbers| == 12
    ensures |f.minuteBoxRotations| == 60 && |f.minuteNumbers| == 60
  {
    LearningFace(
      seq(12, i requires 0 <= i < 12 => MinuteRingSegment(i)),
      seq(60, i => (i * 6) as real),
      seq(60, i requires 0 <= i < 60 => MinuteNumber(i)),
      seq(12, i requires 0 <= i < 12 => HourSegmentAt(i)),
      DialNumerals,
      seq(12, i requires 0 <= i < 12 => Hour24Label(i)))
  }

  /** Twelve swatches, each with two different, non-empty tones. */
  lemma LearningColorsShape()
    ensures |LearningClockColors| == 12
    ensures forall i :: 0 <= i < 12 ==>
      LearningClockColors[i].light != "" && LearningClockColors[i].dark != "" &&
      LearningClockColors[i].light != LearningClockColors[i].dark
  {
  }

  /**
   * Minute label i has value i and the dark colour of segment `floor(i / 5)`,
   * a valid index, and that segment is the one under the label's position.
   */
  lemma MinuteLabelColour(i: int)
    requires 0 <= i < 60
    ensures 0 <= i / 5 < 12
    ensures LearningClock().minuteNumbers[i] == Label(i, LearningClockColors[i / 5].dark)
    ensures SegmentStart(i / 5) <= MinuteDegrees(i) < SegmentEnd(i / 5)
    ensures LearningClock().minuteBoxRotations[i] == MinuteDegrees(i)
  {
  }

  /** The segment boundaries tile the circle: they start at 0, end at 360, and meet edge to edge. */
  lemma SegmentsTile()
    ensures LearningClock().hourSegments[0].outerPart.startAngle == 0.0
    ensures LearningClock().hourSegments[11].outerPart.endAngle == 360.0
    ensures forall i :: 0 <= i < 11 ==>
      LearningClock().hourSegments[i].outerPart.endAngle == LearningClock().hourSegments[i + 1].outerPart.startAngle
    ensures forall i :: 0 <= i < 12 ==>
      LearningClock().hourSegments[i].outerPart.endAngle - LearningClock().hourSegments[i].outerPart.startAngle == 30.0
  {
  }

  /** Every angle of a full turn lies in exactly one segment, the one `floor(angle / 30)` names. */
  lemma SegmentCover(angle: real, j: int)
    requires 0.0 <= angle < 360.0
    requires 0 <= j < 12
    ensures 0 <= (angle / 30.0).Floor < 12
    ensures SegmentStart(j) <= angle < SegmentEnd(j) <==> j == (angle / 30.0).Floor
  {
  }

  /**
   * Each hour segment is split at `MidRadius` = 66.5, strictly between the
   * inner radius 38 and the outer radius 85; the outer part is light, the
   * inner part dark, both over the segment's angles, and the minute-ring
   * segment above it shares its angles and its light tone.
   */
  lemma HourSegmentSplit(i: int)
    requires 0 <= i < 12
    ensures MidRadius == 66.5 && HourSegmentInner < MidRadius < HourSegmentOuter
    ensures var s := LearningClock().hourSegments[i];
      && s.outerPart == Arc(MidRadius, 85.0, SegmentStart(i), SegmentEnd(i), LearningClockColors[i].light)
      && s.innerPart == Arc(38.0, MidRadius, SegmentStart(i), SegmentEnd(i), LearningClockColors[i].dark)
      && s.outerPart.innerRadius == s.innerPart.outerRadius
    ensures var m := LearningClock().minuteRing[i];
      && m.startAngle == SegmentStart(i) && m.endAngle == SegmentEnd(i)
      && m.innerRadius == HourSegmentOuter && m.fill == LearningClockColors[i].light
  {
  }

  /**
   * Hour numeral i is 12 for i = 0 and i otherwise; 24-hour numeral i is 0
   * for i = 0 and i + 12 otherwise, names the same dial position, and has the
   * dark colour of segment i, the same colour as the minute label 5i there.
   */
  lemma NumeralTables(i: int)
    requires 0 <= i < 12
    ensures LearningClock().hourNumbers[i] == if i == 0 then 12 else i
    ensures LearningClock().hour24Numbers[i].value == if i == 0 then 0 else i + 12
    ensures LearningClock().hour24Numbers[i].value % 12 == LearningClock().hourNumbers[i] % 12
    ensures LearningClock().hour24Numbers[i].fill == LearningClockColors[i].dark
    ensures LearningClock().hour24Numbers[i].fill == LearningClock().minuteNumbers[5 * i].fill
  {
    DialNumeralPositions(i);
  }

  /** What the decoration layer draws. */
  datatype Decoration =
    | TowerOrnaments
    | CuckooOrnaments
    | WatchOrnaments(dayOfMonth: int)   // the date window shows today's day of the month
    | LearningOrnaments(face: LearningFace)

  /** `ClockDecorations({ type })`: the four tags select their set, anything else draws nothing. */
  function ClockDecorations(tag: string, dayOfMonth: int): (d: Option<Decoration>)
    ensures d.Some? <==> tag in {"tower", "cuckoo", "watch", "learning"}
    ensures tag == "learning" ==> d == Some(LearningOrnaments(LearningClock()))
    ensures tag == "watch" ==> d == Some(WatchOrnaments(dayOfMonth))
  {
    if tag == "tower" then Some(TowerOrnaments)
    else if tag == "cuckoo" then Some(CuckooOrnaments)
    else if tag == "watch" then Some(WatchOrnaments(dayOfMonth))
    else if tag == "learning" then Some(LearningOrnaments(LearningClock()))
    else None
  }

  /** Every registered theme selects a decoration set, and only the learning theme the learning face. */
  lemma ThemesHaveDecorations(id: ThemeId, dayOfMonth: int)
    ensures ClockDecorations(ThemeFor(id).decorations, dayOfMonth).Some?
    ensures ClockDecorations(ThemeFor(id).decorations, dayOfMonth).value.LearningOrnaments? <==> id == Learning
  {
  }
}
