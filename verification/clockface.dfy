/**
 * The data-driven parts of the two clock faces: which layers the interactive
 * clock draws for a theme, its tick marks, numeral text and drag handles,
 * and the analog clock's hour markers and hands. Coordinates are left out.
 */
module ClockFace {
  import opened Basics
  import opened Decimal
  import opened ClockMath
  import opened Themes
  import Drag

  /** The layers of the interactive clock, in drawing order. */
  datatype Layer =
    | OuterRing | FaceDisc | DecorationLayer | MinuteMarkers | HourNumerals
    | MinuteHandLayer | HourHandLayer | CenterCap

  /** The stock ring, face, tick marks and numerals are replaced by the learning face. */
  function Layers(theme: ThemeId): (ls: seq<Layer>)
    ensures DecorationLayer in ls && MinuteHandLayer in ls && HourHandLayer in ls && CenterCap in ls
  {
    var stock := theme != Learning;
    (if stock then [OuterRing, FaceDisc] else [])
    + [DecorationLayer]
    + (if stock then [MinuteMarkers, HourNumerals] else [])
    + [MinuteHandLayer, HourHandLayer, CenterCap]
  }

  /** A stock layer is drawn exactly when the theme's decoration set is not the learning face. */
  lemma StockLayersFollowDecoration(theme: ThemeId, layer: Layer)
    requires layer in {OuterRing, FaceDisc, MinuteMarkers, HourNumerals}
    ensures layer in Layers(theme) <==> ThemeFor(theme).decorations != "learning"
  {
  }

  /** A tick mark from `innerRadius` to `outerRadius`. */
  datatype Tick = Tick(hourMark: bool, innerRadius: int, outerRadius: int)

  /** Tick mark i of the 60 on the interactive clock: every fifth one is a longer hour mark. */
  function MinuteTick(i: int): (t: Tick)
    ensures t.outerRadius == 88
    ensures t.hourMark <==> i % 5 == 0
    ensures t.innerRadius == if t.hourMark then 78 else 83
  {
    if i % 5 == 0 then Tick(true, 78, 88) else Tick(false, 83, 88)
  }

  /**
   * The long ticks sit under the numerals: tick i is an hour mark exactly
   * when its angle is where the hour hand points at one of the dial's hours.
   */
  lemma HourMarksUnderNumerals(i: int)
    requires 0 <= i < 60
    ensures MinuteTick(i).hourMark <==> exists j :: 0 <= j < 12 && MinuteDegrees(i) == HourDegrees(DialNumerals[j], 0)
  {
    if i % 5 == 0 {
      DialNumeralPositions(i / 5);
    } else {
      forall j | 0 <= j < 12
        ensures MinuteDegrees(i) != HourDegrees(DialNumerals[j], 0)
      {
        DialNumeralPositions(j);
      }
    }
  }

  /** The text of numeral i: Roman for themes that use Roman numerals, decimal otherwise. */
  function NumeralText(theme: ThemeId, i: int): string
    requires 0 <= i < 12
  {
    var num := DialNumerals[i];
    if ThemeFor(theme).useRomanNumerals then RomanNumerals[num] else IntToString(num)
  }

  /** Only the tower face shows Roman numerals, and they are the standard ones. */
  lemma NumeralTextByTheme(theme: ThemeId, i: int)
    requires 0 <= i < 12
    ensures theme == Tower ==> NumeralText(theme, i) == ToRoman(if i == 0 then 12 else i)
    ensures theme != Tower ==> NumeralText(theme, i) == NatToString(if i == 0 then 12 else i)
  {
    RomanTableIsStandard();
    DialNumeralPositions(i);
    IntToStringOfNat(DialNumerals[i]);
  }

  /**
   * The drag handle of a hand: shown only when dragging is possible, in the
   * handle colour while that hand is dragged and in the hand colour otherwise.
   */
  function HandleFill(theme: ThemeId, props: Drag.Props, drag: Drag.DragState, hand: Drag.Hand): (fill: Option<string>)
    ensures fill.Some? <==> Drag.CanDrag(props)
    ensures fill.Some? && drag == Drag.Dragging(hand) && hand == Drag.HourHand ==> fill.value == ThemeFor(theme).colors.handleHour
    ensures fill.Some? && drag == Drag.Dragging(hand) && hand == Drag.MinuteHand ==> fill.value == ThemeFor(theme).colors.handleMinute
    ensures fill.Some? && drag != Drag.Dragging(hand) && hand == Drag.HourHand ==> fill.value == ThemeFor(theme).colors.hourHand
    ensures fill.Some? && drag != Drag.Dragging(hand) && hand == Drag.MinuteHand ==> fill.value == ThemeFor(theme).colors.minuteHand
  {
    var colors := ThemeFor(theme).colors;
    if !Drag.CanDrag(props) then None
    else if hand == Drag.HourHand then Some(if drag == Drag.Dragging(Drag.HourHand) then colors.handleHour else colors.hourHand)
    else Some(if drag == Drag.Dragging(Drag.MinuteHand) then colors.handleMinute else colors.minuteHand)
  }

  /** The colour of a hand that is not being dragged. */
  function HandColour(theme: ThemeId, hand: Drag.Hand): string
  {
    if hand == Drag.HourHand then ThemeFor(theme).colors.hourHand else ThemeFor(theme).colors.minuteHand
  }

  /** The highlight colour of a hand's handle while that hand is dragged. */
  function HighlightColour(theme: ThemeId, hand: Drag.Hand): string
  {
    if hand == Drag.HourHand then ThemeFor(theme).colors.handleHour else ThemeFor(theme).colors.handleMinute
  }

  /** A permitted pointer-down on a hand highlights its handle at once. */
  lemma PressHighlights(theme: ThemeId, w: Drag.Widget, h: Drag.Hand)
    requires Drag.CanDrag(w.props)
    ensures var v := Drag.Next(w, Drag.PointerDown(h)).widget;
      HandleFill(theme, v.props, v.drag, h) == Some(HighlightColour(theme, h))
  {
  }

  /**
   * A hand that is not dragged and is never pressed keeps its plain colour
   * through any run of events: moves, releases, re-renders and drags of the
   * other hand never highlight its handle.
   */
  lemma {:induction false} OnlyPressedHandHighlighted(theme: ThemeId, w: Drag.Widget, events: seq<Drag.Event>, h: Drag.Hand)
    requires w.drag != Drag.Dragging(h)
    requires forall i :: 0 <= i < |events| ==> events[i] != Drag.PointerDown(h)
    ensures Drag.Run(w, events).widget.drag != Drag.Dragging(h)
    ensures var v := Drag.Run(w, events).widget;
      HandleFill(theme, v.props, v.drag, h).Some? ==> HandleFill(theme, v.props, v.drag, h).value == HandColour(theme, h)
    decreases |events|
  {
    if |events| > 0 {
      OnlyPressedHandHighlighted(theme, Drag.Next(w, events[0]).widget, events[1..], h);
    }
  }

  /** An hour marker of the analog clock, ending on the radius-85 circle. */
  datatype Marker = Marker(major: bool, length: int, innerRadius: int, outerRadius: int)

  function AnalogMarker(i: int): (m: Marker)
    ensures m.major <==> i % 3 == 0
    ensures m.length == if m.major then 15 else 8
    ensures m.outerRadius == 85 && m.innerRadius == m.outerRadius - m.length
  {
    var length := if i % 3 == 0 then 15 else 8;
    Marker(i % 3 == 0, length, 85 - length, 85)
  }

  /** Exactly the markers at 12, 3, 6 and 9 o'clock are major. */
  lemma MajorMarkers(i: int)
    requires 0 <= i < 12
    ensures AnalogMarker(i).major <==> DialNumerals[i] in {12, 3, 6, 9}
  {
    DialNumeralPositions(i);
  }

  /** Hand rotations of a clock face, hour hand first. */
  datatype Hands = Hands(hourDegrees: real, minuteDegrees: real)

  /**
   * The analog clock's hands; an omitted minute counts as 0. The hour hand
   * turns 30° per hour of the 12-hour dial plus half a degree per minute,
   * the minute hand 6° per minute.
   */
  function AnalogHands(hour: int, minute: Option<int>): (h: Hands)
    ensures 0 <= hour ==> h.hourDegrees == (hour % 12) as real * 30.0 + minute.GetOr(0) as real / 2.0
    ensures h.minuteDegrees == 6.0 * minute.GetOr(0) as real
    ensures 0 <= hour && 0 <= minute.GetOr(0) < 60 ==> 0.0 <= h.hourDegrees < 360.0
  {
    var m := minute.GetOr(0);
    if 0 <= hour then
      HourDegreesSplit(hour, m);
      Hands(HourDegrees(hour, m), MinuteDegrees(m))
    else
      Hands(HourDegrees(hour, m), MinuteDegrees(m))
  }

  /** With the minute omitted, the hour hand points straight at its numeral. */
  lemma AnalogFullHour(hour: int)
    requires 1 <= hour <= 12
    ensures AnalogHands(hour, None) == Hands((hour % 12) as real * 30.0, 0.0)
    ensures DialNumerals[hour % 12] == hour
  {
    HourDegreesSplit(hour, 0);
  }
}
