/**
 * Drag-editing of the interactive clock's hands as an explicit state machine.
 *
 * The widget is a controlled component: it never changes the time itself, it
 * only calls `onHourChange` / `onMinuteChange`. The output of every step is
 * the list of those callback calls. Pointer positions are abstracted: a move
 * event carries the angle already measured from the widget's centre.
 */
module Drag {
  import opened ClockMath

  datatype Hand = HourHand | MinuteHand

  /** The props and surroundings a step depends on. */
  datatype Props = Props(
    allowTimeEdit: bool,
    hasHourCallback: bool,     // onHourChange supplied
    hasMinuteCallback: bool,   // onMinuteChange supplied
    mounted: bool)             // the SVG element can be measured

  /** Which hand, if any, is being dragged. */
  datatype DragState = Idle | Dragging(hand: Hand)

  datatype Widget = Widget(props: Props, drag: DragState)

  datatype Event =
    | PointerDown(hand: Hand)     // mouse-down / touch-start on a hand
    | PointerMove(angle: real)    // window mouse-move / touch-move
    | PointerUp                   // window mouse-up / touch-end
    | Rerender(newProps: Props)   // the host re-renders with new props

  /** A callback invocation. */
  datatype Call = HourChange(hour: int) | MinuteChange(minute: int)

  datatype Step = Step(widget: Widget, calls: seq<Call>)

  /** `canDrag = allowTimeEdit && onHourChange && onMinuteChange` */
  predicate CanDrag(p: Props)
  {
    p.allowTimeEdit && p.hasHourCallback && p.hasMinuteCallback
  }

  /** `handlePointerDown`: starts a drag of that hand, only when dragging is allowed. */
  function PointerDownStep(w: Widget, hand: Hand): (s: Step)
    ensures s.calls == []
    ensures s.widget.props == w.props
    ensures CanDrag(w.props) ==> s.widget.drag == Dragging(hand)
    ensures !CanDrag(w.props) ==> s.widget == w
  {
    if CanDrag(w.props) then Step(w.(drag := Dragging(hand)), []) else Step(w, [])
  }

  /**
   * `handlePointerMove`: while a hand is dragged and the widget is mounted and
   * both callbacks exist, report the hand's new value. The move listeners are
   * only attached during a drag, so an idle widget ignores moves.
   */
  function PointerMoveStep(w: Widget, angle: real): (s: Step)
    ensures s.widget == w
    ensures w.drag.Idle? ==> s.calls == []
    ensures w.drag == Dragging(HourHand) ==> forall c :: c in s.calls ==> c.HourChange?
    ensures w.drag == Dragging(MinuteHand) ==> forall c :: c in s.calls ==> c.MinuteChange?
    ensures |s.calls| <= 1
    ensures |s.calls| == 1 <==>
      w.drag.Dragging? && w.props.mounted && w.props.hasHourCallback && w.props.hasMinuteCallback
  {
    match w.drag
    case Idle => Step(w, [])
    case Dragging(hand) =>
      if !w.props.mounted || !w.props.hasHourCallback || !w.props.hasMinuteCallback then Step(w, [])
      else if hand == HourHand then Step(w, [HourChange(AngleToHour(angle))])
      else Step(w, [MinuteChange(AngleToMinute(angle))])
  }

  /** One event. `handlePointerUp` ends any drag; a re-render keeps the drag but changes the props. */
  function Next(w: Widget, e: Event): Step
  {
    match e
    case PointerDown(hand) => PointerDownStep(w, hand)
    case PointerMove(angle) => PointerMoveStep(w, angle)
    case PointerUp => Step(w.(drag := Idle), [])
    case Rerender(p) => Step(w.(props := p), [])
  }

  /** A sequence of events, with all calls in order. */
  function Run(w: Widget, events: seq<Event>): Step
    decreases |events|
  {
    if |events| == 0 then Step(w, [])
    else
      var first := Next(w, events[0]);
      var rest := Run(first.widget, events[1..]);
      Step(rest.widget, first.calls + rest.calls)
  }

  /** After a pointer-up, moves call nothing. */
  lemma UpSilencesMoves(w: Widget, angle: real)
    ensures Next(Next(w, PointerUp).widget, PointerMove(angle)).calls == []
  {
  }

  /** A move during a drag reports the value the quantiser picks for that hand. */
  lemma MoveReportsQuantisedValue(w: Widget, angle: real)
    requires w.props.mounted && w.props.hasHourCallback && w.props.hasMinuteCallback
    ensures w.drag == Dragging(HourHand) ==> Next(w, PointerMove(angle)).calls == [HourChange(AngleToHour(angle))]
    ensures w.drag == Dragging(MinuteHand) ==> Next(w, PointerMove(angle)).calls == [MinuteChange(AngleToMinute(angle))]
  {
  }

  predicate IsPointerDown(e: Event)
  {
    e.PointerDown?
  }

  /** Starting idle, no run without a pointer-down calls anything. */
  lemma {:induction false} NoDragNoCalls(w: Widget, events: seq<Event>)
    requires w.drag.Idle?
    requires forall i :: 0 <= i < |events| ==> !IsPointerDown(events[i])
    ensures Run(w, events).calls == []
    ensures Run(w, events).widget.drag.Idle?
    decreases |events|
  {
    if |events| > 0 {
      NoDragNoCalls(Next(w, events[0]).widget, events[1..]);
    }
  }

  /** Starting idle, a run whose pointer-downs are all refused calls nothing. */
  lemma {:induction false} RefusedDownsNoCalls(w: Widget, events: seq<Event>)
    requires w.drag.Idle? && !CanDrag(w.props)
    requires forall i :: 0 <= i < |events| ==> !events[i].Rerender?
    ensures Run(w, events).calls == []
    decreases |events|
  {
    if |events| > 0 {
      RefusedDownsNoCalls(Next(w, events[0]).widget, events[1..]);
    }
  }

  /**
   * While one hand is dragged and no pointer event intervenes but moves and
   * re-renders, every call is for that hand: dragging the minute hand never
   * calls `onHourChange`, and the other way round.
   */
  lemma {:induction false} DraggedHandOnly(w: Widget, events: seq<Event>, hand: Hand)
    requires w.drag == Dragging(hand)
    requires forall i :: 0 <= i < |events| ==> events[i].PointerMove? || events[i].Rerender?
    ensures forall c :: c in Run(w, events).calls ==> (if hand == HourHand then c.HourChange? else c.MinuteChange?)
    ensures Run(w, events).widget.drag == Dragging(hand)
    decreases |events|
  {
    if |events| > 0 {
      DraggedHandOnly(Next(w, events[0]).widget, events[1..], hand);
    }
  }

  /** A move whose angle is on the dial. */
  predicate OnDial(e: Event)
  {
    e.PointerMove? ==> 0.0 <= e.angle < 360.0
  }

  predicate CallInRange(c: Call)
  {
    match c
    case HourChange(h) => 0 <= h < 12
    case MinuteChange(m) => 0 <= m < 60
  }

  /** Every reported hour is in 0..11 and every reported minute in 0..59. */
  lemma {:induction false} CallsInRange(w: Widget, events: seq<Event>)
    requires forall i :: 0 <= i < |events| ==> OnDial(events[i])
    ensures forall c :: c in Run(w, events).calls ==> CallInRange(c)
    decreases |events|
  {
    if |events| > 0 {
      assert OnDial(events[0]);
      CallsInRange(Next(w, events[0]).widget, events[1..]);
    }
  }
}
