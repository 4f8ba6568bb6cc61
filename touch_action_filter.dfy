/** The touch-action gesture filter (touch_action_filter.cc).

    A touch action is a set of permitted manipulations. The source stores it
    as a bit mask whose bit values live in touch_action.h, which is not part
    of this model; here it is the set of flags whose bits are present, so the
    mask operations `&` and `|` are set intersection and union. A gesture is
    a record; the filter reads it and hands back the (possibly rewritten)
    gesture, which is what the source does to the event in place. */
module TouchFilter {

  datatype TouchFlag = PanLeft | PanRight | PanUp | PanDown | PinchZoom | DoubleTapZoom

  type TouchAction = set<TouchFlag>

  const ActionNone: TouchAction := {}
  const PanX: TouchAction := {PanLeft, PanRight}
  const PanY: TouchAction := {PanUp, PanDown}
  const ActionAuto: TouchAction := {PanLeft, PanRight, PanUp, PanDown, PinchZoom, DoubleTapZoom}

  datatype GestureType =
    | ScrollBegin | ScrollUpdate | FlingStart | ScrollEnd
    | PinchBegin | PinchUpdate | PinchEnd
    | DoubleTap | TapUnconfirmed | Tap | TapCancel | TapDown
    | OtherGesture

  /** The fields of a WebGestureEvent the filter reads or rewrites. The
      scroll-update deltas and velocities and the fling velocities share the
      velocity fields. */
  datatype Gesture = Gesture(
    kind: GestureType,
    fromTouchscreen: bool,
    pointerCount: int,
    deltaXHint: real,
    deltaYHint: real,
    deltaX: real,
    deltaY: real,
    velocityX: real,
    velocityY: real)

  /** Vertical movement is disallowed when some horizontal pan is allowed and
      no vertical one is. */
  predicate IsYAxisActionDisallowed(a: TouchAction)
  {
    a * PanX != {} && a * PanY == {}
  }

  predicate IsXAxisActionDisallowed(a: TouchAction)
  {
    a * PanY != {} && a * PanX == {}
  }

  /** The two axis restrictions never hold together, so at most one axis of a
      scroll or fling is ever zeroed. */
  lemma AxisRestrictionsExclusive(a: TouchAction)
    ensures !(IsYAxisActionDisallowed(a) && IsXAxisActionDisallowed(a))
  {
  }

  function AbsReal(x: real): real
  {
    if x < 0.0 then -x else x
  }

  /** The least touch action a one-finger scroll with the given hints needs:
      the direction flags of its dominant axis (both axes on a diagonal). A
      positive horizontal hint needs pan-left, a negative one pan-right; a
      positive vertical hint needs pan-up, a negative one pan-down. */
  function MinimalConformingAction(dx: real, dy: real): (m: TouchAction)
    ensures m <= PanX + PanY
    ensures (dx != 0.0 || dy != 0.0) ==> m != {}
  {
    var horizontal: TouchAction :=
      if AbsReal(dx) >= AbsReal(dy) then (if dx > 0.0 then {PanLeft} else if dx < 0.0 then {PanRight} else {})
      else {};
    var vertical: TouchAction :=
      if AbsReal(dy) >= AbsReal(dx) then (if dy > 0.0 then {PanUp} else if dy < 0.0 then {PanDown} else {})
      else {};
    horizontal + vertical
  }

  /** Whether a scroll begin starts the suppressed-manipulation mode. */
  function ShouldSuppressManipulation(allowed: TouchAction, g: Gesture): (suppress: bool)
    ensures g.pointerCount >= 2 ==> (suppress <==> PinchZoom !in allowed)
    ensures g.pointerCount < 2 && g.deltaXHint == 0.0 && g.deltaYHint == 0.0 ==> !suppress
  {
    if g.pointerCount >= 2 then PinchZoom !in allowed
    else if g.deltaXHint == 0.0 && g.deltaYHint == 0.0 then false
    else allowed * MinimalConformingAction(g.deltaXHint, g.deltaYHint) == {}
  }

  /** A one-finger scroll with a non-zero hint is suppressed exactly when no
      allowed flag is a direction of travel along a dominant axis: for a
      horizontal-dominant scroll the pan flag matching the sign of the
      horizontal hint, and likewise vertically. */
  lemma {:induction false} SuppressionByDominantAxis(allowed: TouchAction, g: Gesture)
    requires g.pointerCount < 2 && (g.deltaXHint != 0.0 || g.deltaYHint != 0.0)
    ensures ShouldSuppressManipulation(allowed, g) <==>
      && !(AbsReal(g.deltaXHint) >= AbsReal(g.deltaYHint) && g.deltaXHint > 0.0 && PanLeft in allowed)
      && !(AbsReal(g.deltaXHint) >= AbsReal(g.deltaYHint) && g.deltaXHint < 0.0 && PanRight in allowed)
      && !(AbsReal(g.deltaYHint) >= AbsReal(g.deltaXHint) && g.deltaYHint > 0.0 && PanUp in allowed)
      && !(AbsReal(g.deltaYHint) >= AbsReal(g.deltaXHint) && g.deltaYHint < 0.0 && PanDown in allowed)
  {
    var m := MinimalConformingAction(g.deltaXHint, g.deltaYHint);
    assert PanLeft in m <==> AbsReal(g.deltaXHint) >= AbsReal(g.deltaYHint) && g.deltaXHint > 0.0;
    assert PanRight in m <==> AbsReal(g.deltaXHint) >= AbsReal(g.deltaYHint) && g.deltaXHint < 0.0;
    assert PanUp in m <==> AbsReal(g.deltaYHint) >= AbsReal(g.deltaXHint) && g.deltaYHint > 0.0;
    assert PanDown in m <==> AbsReal(g.deltaYHint) >= AbsReal(g.deltaXHint) && g.deltaYHint < 0.0;
    assert m <= {PanLeft, PanRight, PanUp, PanDown};
    if allowed * m != {} {
      var f :| f in allowed * m;
      assert f in {PanLeft, PanRight, PanUp, PanDown};
    }
  }

  /** With every action allowed, nothing is ever suppressed. */
  lemma AutoNeverSuppresses(g: Gesture)
    ensures !ShouldSuppressManipulation(ActionAuto, g)
  {
    if g.pointerCount < 2 && (g.deltaXHint != 0.0 || g.deltaYHint != 0.0) {
      var m := MinimalConformingAction(g.deltaXHint, g.deltaYHint);
      var f :| f in m;
      assert f in ActionAuto * m;
    }
  }

  /** The gesture with the velocity (and, for a scroll update, delta) of the
      axis the allowed action forbids set to zero. */
  function RestrictScrollAxis(allowed: TouchAction, g: Gesture): (r: Gesture)
    ensures IsYAxisActionDisallowed(allowed) ==> r == g.(deltaY := 0.0, velocityY := 0.0)
    ensures IsXAxisActionDisallowed(allowed) ==> r == g.(deltaX := 0.0, velocityX := 0.0)
    ensures !IsYAxisActionDisallowed(allowed) && !IsXAxisActionDisallowed(allowed) ==> r == g
  {
    if IsYAxisActionDisallowed(allowed) then g.(deltaY := 0.0, velocityY := 0.0)
    else if IsXAxisActionDisallowed(allowed) then g.(deltaX := 0.0, velocityX := 0.0)
    else g
  }

  /** The fling with the velocity of the axis the allowed action forbids set
      to zero. */
  function RestrictFlingAxis(allowed: TouchAction, g: Gesture): (r: Gesture)
    ensures IsYAxisActionDisallowed(allowed) ==> r == g.(velocityY := 0.0)
    ensures IsXAxisActionDisallowed(allowed) ==> r == g.(velocityX := 0.0)
    ensures !IsYAxisActionDisallowed(allowed) && !IsXAxisActionDisallowed(allowed) ==> r == g
  {
    if IsYAxisActionDisallowed(allowed) then g.(velocityY := 0.0)
    else if IsXAxisActionDisallowed(allowed) then g.(velocityX := 0.0)
    else g
  }

  class TouchActionFilter {
    var suppressManipulationEvents: bool
    var dropCurrentTapEndingEvent: bool
    var allowCurrentDoubleTapEvent: bool
    var allowedTouchAction: TouchAction

    constructor ()
      ensures !suppressManipulationEvents && !dropCurrentTapEndingEvent && allowCurrentDoubleTapEvent
      ensures allowedTouchAction == ActionAuto
    {
      suppressManipulationEvents := false;
      dropCurrentTapEndingEvent := false;
      allowCurrentDoubleTapEvent := true;
      allowedTouchAction := ActionAuto;
    }

    /** Returns the suppression flag and clears it. */
    method FilterManipulationEventAndResetState() returns (filtered: bool)
      modifies this`suppressManipulationEvents
      ensures filtered == old(suppressManipulationEvents)
      ensures !suppressManipulationEvents
    {
      if suppressManipulationEvents {
        suppressManipulationEvents := false;
        return true;
      }
      return false;
    }

    /** FilterGestureEvent: returns whether the gesture is dropped, and the
        gesture as it is forwarded. */
    method FilterGestureEvent(g: Gesture) returns (filtered: bool, out: Gesture)
      modifies this`suppressManipulationEvents, this`dropCurrentTapEndingEvent, this`allowCurrentDoubleTapEvent
      ensures allowedTouchAction == old(allowedTouchAction)
      // Gestures from other devices pass untouched.
      ensures !g.fromTouchscreen ==>
        !filtered && out == g
        && suppressManipulationEvents == old(suppressManipulationEvents)
        && dropCurrentTapEndingEvent == old(dropCurrentTapEndingEvent)
        && allowCurrentDoubleTapEvent == old(allowCurrentDoubleTapEvent)
      ensures g.fromTouchscreen && g.kind == ScrollBegin ==>
        filtered == suppressManipulationEvents == ShouldSuppressManipulation(allowedTouchAction, g)
        && out == g
      ensures g.fromTouchscreen && g.kind == ScrollUpdate ==>
        filtered == old(suppressManipulationEvents)
        && suppressManipulationEvents == old(suppressManipulationEvents)
        && out == (if filtered then g else RestrictScrollAxis(allowedTouchAction, g))
      ensures g.fromTouchscreen && g.kind == FlingStart ==>
        filtered == old(suppressManipulationEvents) && !suppressManipulationEvents
        && (filtered ==> out == g)
        && (!filtered ==>
              var r := RestrictFlingAxis(allowedTouchAction, g);
              out == if r.velocityX == 0.0 && r.velocityY == 0.0 then r.(kind := ScrollEnd) else r)
      ensures g.fromTouchscreen && g.kind == ScrollEnd ==>
        filtered == old(suppressManipulationEvents) && !suppressManipulationEvents && out == g
      ensures g.fromTouchscreen && g.kind in {PinchBegin, PinchUpdate, PinchEnd} ==>
        filtered == suppressManipulationEvents == old(suppressManipulationEvents) && out == g
      ensures g.fromTouchscreen && g.kind == DoubleTap ==>
        !filtered && allowCurrentDoubleTapEvent
        && out == (if old(allowCurrentDoubleTapEvent) then g else g.(kind := Tap))
      ensures g.fromTouchscreen && g.kind == TapUnconfirmed ==>
        !filtered
        && (allowCurrentDoubleTapEvent <==> DoubleTapZoom in allowedTouchAction)
        && (allowCurrentDoubleTapEvent ==> out == g && dropCurrentTapEndingEvent == old(dropCurrentTapEndingEvent))
        && (!allowCurrentDoubleTapEvent ==> out == g.(kind := Tap) && dropCurrentTapEndingEvent)
      ensures g.fromTouchscreen && (g.kind == Tap || g.kind == TapCancel) ==>
        filtered == old(dropCurrentTapEndingEvent) && !dropCurrentTapEndingEvent && out == g
        && allowCurrentDoubleTapEvent == (if g.kind == Tap then DoubleTapZoom in allowedTouchAction
                                          else old(allowCurrentDoubleTapEvent))
      // Only the flags the case names change.
      ensures g.fromTouchscreen && g.kind in {ScrollBegin, ScrollUpdate, FlingStart, ScrollEnd, PinchBegin, PinchUpdate, PinchEnd} ==>
        dropCurrentTapEndingEvent == old(dropCurrentTapEndingEvent)
        && allowCurrentDoubleTapEvent == old(allowCurrentDoubleTapEvent)
      ensures g.fromTouchscreen && g.kind in {DoubleTap, TapUnconfirmed, Tap, TapCancel, TapDown, OtherGesture} ==>
        suppressManipulationEvents == old(suppressManipulationEvents)
      ensures g.fromTouchscreen && g.kind in {TapDown, OtherGesture} ==>
        !filtered && out == g
        && dropCurrentTapEndingEvent == old(dropCurrentTapEndingEvent)
        && allowCurrentDoubleTapEvent == old(allowCurrentDoubleTapEvent)
    {
      out := g;
      if !g.fromTouchscreen {
        return false, out;
      }
      match g.kind {
      case ScrollBegin =>
        suppressManipulationEvents := ShouldSuppressManipulation(allowedTouchAction, g);
        return suppressManipulationEvents, out;
      case ScrollUpdate =>
        if suppressManipulationEvents {
          return true, out;
        }
        if IsYAxisActionDisallowed(allowedTouchAction) {
          out := out.(deltaY := 0.0, velocityY := 0.0);
        } else if IsXAxisActionDisallowed(allowedTouchAction) {
          out := out.(deltaX := 0.0, velocityX := 0.0);
        }
      case FlingStart =>
        if !suppressManipulationEvents {
          if IsYAxisActionDisallowed(allowedTouchAction) {
            out := out.(velocityY := 0.0);
          } else if IsXAxisActionDisallowed(allowedTouchAction) {
            out := out.(velocityX := 0.0);
          }
          if out.velocityX == 0.0 && out.velocityY == 0.0 {
            out := out.(kind := ScrollEnd);
          }
        }
        filtered := FilterManipulationEventAndResetState();
        return filtered, out;
      case ScrollEnd =>
        filtered := FilterManipulationEventAndResetState();
        return filtered, out;
      case PinchBegin =>
        return suppressManipulationEvents, out;
      case PinchUpdate =>
        return suppressManipulationEvents, out;
      case PinchEnd =>
        return suppressManipulationEvents, out;
      case DoubleTap =>
        if !allowCurrentDoubleTapEvent {
          out := out.(kind := Tap);
        }
        allowCurrentDoubleTapEvent := true;
      case TapUnconfirmed =>
        allowCurrentDoubleTapEvent := DoubleTapZoom in allowedTouchAction;
        if !allowCurrentDoubleTapEvent {
          out := out.(kind := Tap);
          dropCurrentTapEndingEvent := true;
        }
      case Tap =>
        allowCurrentDoubleTapEvent := DoubleTapZoom in allowedTouchAction;
        if dropCurrentTapEndingEvent {
          dropCurrentTapEndingEvent := false;
          return true, out;
        }
      case TapCancel =>
        if dropCurrentTapEndingEvent {
          dropCurrentTapEndingEvent := false;
          return true, out;
        }
      case TapDown =>
      case OtherGesture =>
      }
      return false, out;
    }

    /** OnSetTouchAction: the allowed action only ever shrinks, to the
        intersection with each finger's action. */
    method OnSetTouchAction(touchAction: TouchAction)
      modifies this`allowedTouchAction
      ensures allowedTouchAction == old(allowedTouchAction) * touchAction
      ensures allowedTouchAction <= old(allowedTouchAction) && allowedTouchAction <= touchAction
    {
      allowedTouchAction := allowedTouchAction * touchAction;
    }

    method ResetTouchAction()
      modifies this`allowedTouchAction
      ensures allowedTouchAction == ActionAuto
    {
      allowedTouchAction := ActionAuto;
    }
  }

  /** Two fingers' actions give the same allowed action whichever finger's
      action arrives first. */
  method SetTouchActionOrderIndependent(f: TouchActionFilter, a: TouchAction, b: TouchAction)
    modifies f`allowedTouchAction
    ensures f.allowedTouchAction == old(f.allowedTouchAction) * a * b == old(f.allowedTouchAction) * b * a
  {
    f.OnSetTouchAction(a);
    f.OnSetTouchAction(b);
  }

  /** A tap-unconfirmed under an action without double-tap zoom becomes a tap
      and arms the drop flag; the next tap is then dropped exactly once, and
      the one after it passes. */
  method TapEndingDroppedOnce(f: TouchActionFilter, g: Gesture) returns (rewritten: Gesture, first: bool, second: bool)
    requires g.fromTouchscreen && g.kind == TapUnconfirmed
    requires DoubleTapZoom !in f.allowedTouchAction
    modifies f`suppressManipulationEvents, f`dropCurrentTapEndingEvent, f`allowCurrentDoubleTapEvent
    ensures rewritten.kind == Tap
    ensures first && !second
    ensures !f.dropCurrentTapEndingEvent
  {
    var filtered, forwarded;
    filtered, rewritten := f.FilterGestureEvent(g);
    first, forwarded := f.FilterGestureEvent(g.(kind := Tap));
    second, forwarded := f.FilterGestureEvent(g.(kind := Tap));
  }
}
