/** SVG path data and the path normaliser of SVGPathParser.cpp, which turns
    every segment into absolute MoveTo, LineTo, cubic CurveTo or ClosePath
    (SVG 1.1 section 8.3, "Path data"). Coordinates are reals; the float
    rounding of the source is not modelled. */
module SvgPath {

  datatype Point = Point(x: real, y: real)

  function Add(p: Point, q: Point): Point
  {
    Point(p.x + q.x, p.y + q.y)
  }

  /** SVGPathSegType, in the order of its values 0..19. */
  datatype SegType =
    | Unknown | ClosePath | MoveToAbs | MoveToRel | LineToAbs | LineToRel
    | CurveToCubicAbs | CurveToCubicRel | CurveToQuadraticAbs | CurveToQuadraticRel
    | ArcAbs | ArcRel | LineToHorizontalAbs | LineToHorizontalRel
    | LineToVerticalAbs | LineToVerticalRel
    | CurveToCubicSmoothAbs | CurveToCubicSmoothRel
    | CurveToQuadraticSmoothAbs | CurveToQuadraticSmoothRel

  /** PathSegmentData. For an arc, point1 holds the radii and point2.x the
      rotation angle (the arcRadii() and arcAngle() accessors of
      SVGPathData.h, which is not part of this model). */
  datatype Segment = Segment(command: SegType, targetPoint: Point, point1: Point, point2: Point, arcSweep: bool, arcLarge: bool)

  const Origin := Point(0.0, 0.0)

  /** A default-constructed PathSegmentData with the given command. */
  function EmptySegment(command: SegType): Segment
  {
    Segment(command, Origin, Origin, Origin, false, false)
  }

  function ArcRadii(s: Segment): Point
  {
    s.point1
  }

  function ArcAngle(s: Segment): real
  {
    s.point2.x
  }

  /** reflectedPoint: the reflection of `pointToReflect` about `reflectIn`. */
  function ReflectedPoint(reflectIn: Point, pointToReflect: Point): (r: Point)
    ensures Add(r, pointToReflect) == Point(2.0 * reflectIn.x, 2.0 * reflectIn.y)
  {
    Point(2.0 * reflectIn.x - pointToReflect.x, 2.0 * reflectIn.y - pointToReflect.y)
  }

  /** blendPoints: the point one third of the way from p2 to p1. */
  function BlendPoints(p1: Point, p2: Point): (r: Point)
    ensures r.x - p2.x == (p1.x - p2.x) / 3.0 && r.y - p2.y == (p1.y - p2.y) / 3.0
  {
    Point((p1.x + 2.0 * p2.x) * (1.0 / 3.0), (p1.y + 2.0 * p2.y) * (1.0 / 3.0))
  }

  predicate IsCubicCommand(c: SegType)
  {
    c == CurveToCubicAbs || c == CurveToCubicRel || c == CurveToCubicSmoothAbs || c == CurveToCubicSmoothRel
  }

  predicate IsQuadraticCommand(c: SegType)
  {
    c == CurveToQuadraticAbs || c == CurveToQuadraticRel || c == CurveToQuadraticSmoothAbs || c == CurveToQuadraticSmoothRel
  }

  predicate IsSmoothCubic(c: SegType)
  {
    c == CurveToCubicSmoothRel || c == CurveToCubicSmoothAbs
  }

  predicate IsSmoothQuadratic(c: SegType)
  {
    c == CurveToQuadraticSmoothRel || c == CurveToQuadraticSmoothAbs
  }

  /** The commands a normalised path is made of. */
  predicate IsNormalizedCommand(c: SegType)
  {
    c == MoveToAbs || c == LineToAbs || c == CurveToCubicAbs || c == ClosePath
  }

  /** The relative commands and their absolute counterparts. */
  predicate IsRelative(c: SegType)
  {
    c == MoveToRel || c == LineToRel || c == CurveToCubicRel || c == CurveToQuadraticRel || c == ArcRel
    || c == LineToHorizontalRel || c == LineToVerticalRel || c == CurveToCubicSmoothRel || c == CurveToQuadraticSmoothRel
  }

  function AbsoluteOf(c: SegType): SegType
  {
    match c
    case MoveToRel => MoveToAbs
    case LineToRel => LineToAbs
    case CurveToCubicRel => CurveToCubicAbs
    case CurveToQuadraticRel => CurveToQuadraticAbs
    case ArcRel => ArcAbs
    case LineToHorizontalRel => LineToHorizontalAbs
    case LineToVerticalRel => LineToVerticalAbs
    case CurveToCubicSmoothRel => CurveToCubicSmoothAbs
    case CurveToQuadraticSmoothRel => CurveToQuadraticSmoothAbs
    case _ => c
  }

  /** The normaliser's state between segments. */
  datatype NormalizerState = NormalizerState(currentPoint: Point, subPathPoint: Point, controlPoint: Point, lastCommand: SegType)

  /** The first switch of emitSegment: relative points are offset by the
      current point, absolute horizontal and vertical lines take the missing
      coordinate from the current point, and ClosePath targets the start of
      the subpath. */
  function AbsolutePoints(seg: Segment, st: NormalizerState): Segment
  {
    var cur := st.currentPoint;
    match seg.command
    case CurveToQuadraticRel => seg.(point1 := Add(seg.point1, cur), targetPoint := Add(seg.targetPoint, cur))
    case CurveToCubicRel => seg.(point1 := Add(seg.point1, cur), point2 := Add(seg.point2, cur), targetPoint := Add(seg.targetPoint, cur))
    case CurveToCubicSmoothRel => seg.(point2 := Add(seg.point2, cur), targetPoint := Add(seg.targetPoint, cur))
    case MoveToRel => seg.(targetPoint := Add(seg.targetPoint, cur))
    case LineToRel => seg.(targetPoint := Add(seg.targetPoint, cur))
    case LineToHorizontalRel => seg.(targetPoint := Add(seg.targetPoint, cur))
    case LineToVerticalRel => seg.(targetPoint := Add(seg.targetPoint, cur))
    case CurveToQuadraticSmoothRel => seg.(targetPoint := Add(seg.targetPoint, cur))
    case ArcRel => seg.(targetPoint := Add(seg.targetPoint, cur))
    case LineToHorizontalAbs => seg.(targetPoint := Point(seg.targetPoint.x, cur.y))
    case LineToVerticalAbs => seg.(targetPoint := Point(cur.x, seg.targetPoint.y))
    case ClosePath => seg.(targetPoint := st.subPathPoint)
    case _ => seg
  }

  /** The early exits of decomposeArcToCubic: a zero radius, or a target equal
      to the current point, makes the arc a straight line (SVG 1.1 Appendix
      F.6.2). */
  predicate ArcIsLine(current: Point, arc: Segment)
  {
    ArcRadii(arc).x == 0.0 || ArcRadii(arc).y == 0.0 || arc.targetPoint == current
  }

  /** What the trigonometric part of decomposeArcToCubic produced, which is
      not modelled: the cubics it emitted and whether it finished (it stops
      at a non-finite tangent, after the cubics already emitted). */
  datatype ArcOutcome = ArcOutcome(cubics: seq<Segment>, finished: bool)

  predicate AllCubicAbs(segs: seq<Segment>)
  {
    forall k :: 0 <= k < |segs| ==> segs[k].command == CurveToCubicAbs
  }

  /** The segments one call of emitSegment passes to the consumer, and the
      state it leaves. */
  datatype StepResult = StepResult(emitted: seq<Segment>, state: NormalizerState)

  /** The groups the second switch of emitSegment sorts commands into. */
  datatype CommandGroup = MoveGroup | LineGroup | CloseGroup | CubicGroup | QuadraticGroup | ArcGroup

  function GroupOf(c: SegType): CommandGroup
    requires c != Unknown
  {
    match c
    case MoveToRel | MoveToAbs => MoveGroup
    case LineToRel | LineToAbs | LineToHorizontalRel | LineToHorizontalAbs | LineToVerticalRel | LineToVerticalAbs => LineGroup
    case ClosePath => CloseGroup
    case CurveToCubicAbs | CurveToCubicRel | CurveToCubicSmoothAbs | CurveToCubicSmoothRel => CubicGroup
    case CurveToQuadraticAbs | CurveToQuadraticRel | CurveToQuadraticSmoothAbs | CurveToQuadraticSmoothRel => QuadraticGroup
    case ArcAbs | ArcRel => ArcGroup
  }

  /** The first control point of a smooth curve: the previous control point
      mirrored through the current point when the previous command was of the
      same kind, else the current point. */
  function SmoothControl(st: NormalizerState, sameKind: bool): Point
  {
    if sameKind then ReflectedPoint(st.currentPoint, st.controlPoint) else st.currentPoint
  }

  /** One step of the normaliser, given the segment with absolute points. */
  function NormalizeAbsolute(st: NormalizerState, c: SegType, norm: Segment, arc: ArcOutcome): (r: StepResult)
    requires c != Unknown
  {
    var target := norm.targetPoint;
    match GroupOf(c)
    case MoveGroup => StepResult([norm.(command := MoveToAbs)], NormalizerState(target, target, target, c))
    case LineGroup => StepResult([norm.(command := LineToAbs)], NormalizerState(target, st.subPathPoint, target, c))
    case CloseGroup => StepResult([norm.(command := ClosePath)], NormalizerState(target, st.subPathPoint, target, c))
    case CubicGroup =>
      var p1 := if IsSmoothCubic(c) then SmoothControl(st, IsCubicCommand(st.lastCommand)) else norm.point1;
      StepResult([norm.(command := CurveToCubicAbs, point1 := p1)], NormalizerState(target, st.subPathPoint, norm.point2, c))
    case QuadraticGroup =>
      var q := if IsSmoothQuadratic(c) then SmoothControl(st, IsQuadraticCommand(st.lastCommand)) else norm.point1;
      StepResult([norm.(command := CurveToCubicAbs, point1 := BlendPoints(st.currentPoint, q), point2 := BlendPoints(target, q))],
                 NormalizerState(target, st.subPathPoint, q, c))
    case ArcGroup =>
      var line := [norm.(command := LineToAbs)];
      var emitted := if ArcIsLine(st.currentPoint, norm) then line else if arc.finished then arc.cubics else arc.cubics + line;
      StepResult(emitted, NormalizerState(target, st.subPathPoint, target, c))
  }

  function NormalizeStep(st: NormalizerState, segment: Segment, arc: ArcOutcome): (r: StepResult)
    requires segment.command != Unknown
  {
    NormalizeAbsolute(st, segment.command, AbsolutePoints(segment, st), arc)
  }

  /** SVGPathNormalizer: the consumer it feeds is the log `emitted`. */
  class SVGPathNormalizer {
    var currentPoint: Point
    var subPathPoint: Point
    var controlPoint: Point
    var lastCommand: SegType
    var emitted: seq<Segment>

    function State(): NormalizerState
      reads this
    {
      NormalizerState(currentPoint, subPathPoint, controlPoint, lastCommand)
    }

    /** Everything the consumer has received is normalised. */
    predicate Valid()
      reads this
    {
      forall k :: 0 <= k < |emitted| ==> IsNormalizedCommand(emitted[k].command)
    }

    constructor()
      ensures Valid() && emitted == []
      ensures State() == NormalizerState(Origin, Origin, Origin, Unknown)
    {
      currentPoint := Origin;
      subPathPoint := Origin;
      controlPoint := Origin;
      lastCommand := Unknown;
      emitted := [];
    }

    /** decomposeArcToCubic, its early exits modelled and the rest taken from
        `arc`. */
    method DecomposeArcToCubic(current: Point, arcSegment: Segment, arc: ArcOutcome) returns (ok: bool)
      requires AllCubicAbs(arc.cubics)
      modifies this`emitted
      ensures ok <==> !ArcIsLine(current, arcSegment) && arc.finished
      ensures emitted == old(emitted) + (if ArcIsLine(current, arcSegment) then [] else arc.cubics)
    {
      var rx := if ArcRadii(arcSegment).x < 0.0 then -ArcRadii(arcSegment).x else ArcRadii(arcSegment).x;
      var ry := if ArcRadii(arcSegment).y < 0.0 then -ArcRadii(arcSegment).y else ArcRadii(arcSegment).y;
      if rx == 0.0 || ry == 0.0 {
        return false;
      }
      if arcSegment.targetPoint == current {
        return false;
      }
      emitted := emitted + arc.cubics;
      return arc.finished;
    }

    /** The cubic cases of the second switch: a smooth cubic takes its first
        control point from SmoothControl; the second control point is saved. */
    method NormalizeCubic(c: SegType, norm: Segment) returns (normSeg: Segment)
      requires IsCubicCommand(c)
      modifies this`controlPoint
      ensures var p1 := if c == CurveToCubicSmoothRel || c == CurveToCubicSmoothAbs
                        then SmoothControl(old(State()), IsCubicCommand(lastCommand)) else norm.point1;
              normSeg == norm.(command := CurveToCubicAbs, point1 := p1)
      ensures controlPoint == norm.point2
    {
      normSeg := norm;
      if c == CurveToCubicSmoothRel || c == CurveToCubicSmoothAbs {
        if !IsCubicCommand(lastCommand) {
          normSeg := normSeg.(point1 := currentPoint);
        } else {
          normSeg := normSeg.(point1 := ReflectedPoint(currentPoint, controlPoint));
        }
      }
      controlPoint := normSeg.point2;
      normSeg := normSeg.(command := CurveToCubicAbs);
    }

    /** The quadratic cases of the second switch: the (possibly reflected)
        quadratic control point is saved and the segment becomes a cubic. */
    method NormalizeQuadratic(c: SegType, norm: Segment) returns (normSeg: Segment)
      requires IsQuadraticCommand(c)
      modifies this`controlPoint
      ensures var q := if c == CurveToQuadraticSmoothRel || c == CurveToQuadraticSmoothAbs
                       then SmoothControl(old(State()), IsQuadraticCommand(lastCommand)) else norm.point1;
              && normSeg == norm.(command := CurveToCubicAbs, point1 := BlendPoints(currentPoint, q), point2 := BlendPoints(norm.targetPoint, q))
              && controlPoint == q
    {
      normSeg := norm;
      if c == CurveToQuadraticSmoothRel || c == CurveToQuadraticSmoothAbs {
        if !IsQuadraticCommand(lastCommand) {
          normSeg := normSeg.(point1 := currentPoint);
        } else {
          normSeg := normSeg.(point1 := ReflectedPoint(currentPoint, controlPoint));
        }
      }
      controlPoint := normSeg.point1;
      normSeg := normSeg.(point1 := BlendPoints(currentPoint, controlPoint), point2 := BlendPoints(normSeg.targetPoint, controlPoint),
                          command := CurveToCubicAbs);
    }

    /** emitSegment: normalises one segment, passes the result to the
        consumer (an arc through decomposeArcToCubic), and moves the current
        point to the segment's absolute target. */
    method EmitSegment(segment: Segment, arc: ArcOutcome)
      requires Valid() && segment.command != Unknown && AllCubicAbs(arc.cubics)
      modifies this
      ensures Valid()
      ensures emitted == old(emitted) + NormalizeStep(old(State()), segment, arc).emitted
      ensures State() == NormalizeStep(old(State()), segment, arc).state
    {
      StepEmitsNormalized(State(), segment, arc);
      var normSeg := AbsolutePoints(segment, State());
      EmitNormalized(segment.command, normSeg, arc);
    }

    /** The second half of emitSegment, on the segment whose points the first
        switch has made absolute: sets the command verb, handles smooth and
        quadratic curves, emits, and updates the state. */
    method EmitNormalized(c: SegType, norm: Segment, arc: ArcOutcome)
      requires c != Unknown && AllCubicAbs(arc.cubics)
      modifies this
      ensures emitted == old(emitted) + NormalizeAbsolute(old(State()), c, norm, arc).emitted
      ensures State() == NormalizeAbsolute(old(State()), c, norm, arc).state
    {
      match GroupOf(c) {
        case MoveGroup => EmitMove(c, norm, arc);
        case LineGroup => EmitLine(c, norm, arc);
        case CloseGroup => EmitClose(c, norm, arc);
        case CubicGroup => EmitCubic(c, norm, arc);
        case QuadraticGroup => EmitQuadratic(c, norm, arc);
        case ArcGroup => EmitArc(c, norm, arc);
      }
    }

    /** MoveTo: the target starts a new subpath. */
    method EmitMove(c: SegType, norm: Segment, arc: ArcOutcome)
      requires c != Unknown
      requires GroupOf(c) == MoveGroup
      modifies this
      ensures emitted == old(emitted) + NormalizeAbsolute(old(State()), c, norm, arc).emitted
      ensures State() == NormalizeAbsolute(old(State()), c, norm, arc).state
    {
      subPathPoint := norm.targetPoint;
      Finish(c, norm.(command := MoveToAbs));
    }

    /** LineTo, horizontal and vertical: all become absolute LineTo. */
    method EmitLine(c: SegType, norm: Segment, arc: ArcOutcome)
      requires c != Unknown
      requires GroupOf(c) == LineGroup
      modifies this
      ensures emitted == old(emitted) + NormalizeAbsolute(old(State()), c, norm, arc).emitted
      ensures State() == NormalizeAbsolute(old(State()), c, norm, arc).state
    {
      Finish(c, norm.(command := LineToAbs));
    }

    method EmitClose(c: SegType, norm: Segment, arc: ArcOutcome)
      requires c != Unknown
      requires GroupOf(c) == CloseGroup
      modifies this
      ensures emitted == old(emitted) + NormalizeAbsolute(old(State()), c, norm, arc).emitted
      ensures State() == NormalizeAbsolute(old(State()), c, norm, arc).state
    {
      Finish(c, norm.(command := ClosePath));
    }

    method EmitCubic(c: SegType, norm: Segment, arc: ArcOutcome)
      requires c != Unknown
      requires GroupOf(c) == CubicGroup
      modifies this
      ensures emitted == old(emitted) + NormalizeAbsolute(old(State()), c, norm, arc).emitted
      ensures State() == NormalizeAbsolute(old(State()), c, norm, arc).state
    {
      var normSeg := NormalizeCubic(c, norm);
      Finish(c, normSeg);
    }

    method EmitQuadratic(c: SegType, norm: Segment, arc: ArcOutcome)
      requires c != Unknown
      requires GroupOf(c) == QuadraticGroup
      modifies this
      ensures emitted == old(emitted) + NormalizeAbsolute(old(State()), c, norm, arc).emitted
      ensures State() == NormalizeAbsolute(old(State()), c, norm, arc).state
    {
      var normSeg := NormalizeQuadratic(c, norm);
      Finish(c, normSeg);
    }

    /** An arc: decomposed into cubics, or a line to the target when the
        decomposition gives up. */
    method EmitArc(c: SegType, norm: Segment, arc: ArcOutcome)
      requires c != Unknown && AllCubicAbs(arc.cubics)
      requires GroupOf(c) == ArcGroup
      modifies this`emitted, this`currentPoint, this`controlPoint, this`lastCommand
      ensures emitted == old(emitted) + NormalizeAbsolute(old(State()), c, norm, arc).emitted
      ensures State() == NormalizeAbsolute(old(State()), c, norm, arc).state
    {
      ghost var step := NormalizeAbsolute(State(), c, norm, arc);
      assert step.state == NormalizerState(norm.targetPoint, subPathPoint, norm.targetPoint, c);
      var normSeg := norm;
      var ok := DecomposeArcToCubic(currentPoint, normSeg, arc);
      if !ok {
        normSeg := normSeg.(command := LineToAbs);
      } else {
        normSeg := normSeg.(command := ArcAbs);
      }
      Finish(c, normSeg);
    }

    /** The end of emitSegment: emits the segment unless the arc decomposition
        already did, moves the current point to its target, resets the control
        point after a command that is not a curve, and records the command. */
    method Finish(c: SegType, normSeg: Segment)
      modifies this`emitted, this`currentPoint, this`controlPoint, this`lastCommand
      ensures emitted == old(emitted) + (if normSeg.command != ArcAbs then [normSeg] else [])
      ensures currentPoint == normSeg.targetPoint && lastCommand == c
      ensures controlPoint == if !IsCubicCommand(c) && !IsQuadraticCommand(c) then normSeg.targetPoint else old(controlPoint)
    {
      if normSeg.command != ArcAbs {
        emitted := emitted + [normSeg];
      }
      currentPoint := normSeg.targetPoint;
      if !IsCubicCommand(c) && !IsQuadraticCommand(c) {
        controlPoint := currentPoint;
      }
      lastCommand := c;
    }
  }

  /** Every segment a step emits is absolute MoveTo, LineTo, cubic CurveTo or
      ClosePath. */
  lemma StepEmitsNormalized(st: NormalizerState, segment: Segment, arc: ArcOutcome)
    requires segment.command != Unknown && AllCubicAbs(arc.cubics)
    ensures forall k :: 0 <= k < |NormalizeStep(st, segment, arc).emitted| ==>
      IsNormalizedCommand(NormalizeStep(st, segment, arc).emitted[k].command)
  {
  }

  /** A relative segment as a parser produces it: the coordinate a
      horizontal or vertical line does not carry is 0. */
  predicate CarriesOnlyItsCoordinates(segment: Segment)
  {
    && (segment.command == LineToHorizontalRel ==> segment.targetPoint.y == 0.0)
    && (segment.command == LineToVerticalRel ==> segment.targetPoint.x == 0.0)
  }

  /** Making the points of a relative segment absolute, then treating it as
      the absolute command, changes nothing further. */
  lemma AbsolutePointsOfAbsolute(st: NormalizerState, segment: Segment)
    requires IsRelative(segment.command) && CarriesOnlyItsCoordinates(segment)
    ensures var norm := AbsolutePoints(segment, st);
            AbsolutePoints(norm.(command := AbsoluteOf(segment.command)), st) == norm.(command := AbsoluteOf(segment.command))
  {
  }

  /** A relative command and its absolute form are normalised alike, apart
      from the command recorded as the last one. */
  lemma SameGroupAsAbsolute(st: NormalizerState, c: SegType, norm: Segment, arc: ArcOutcome)
    requires IsRelative(c)
    ensures var r := NormalizeAbsolute(st, c, norm, arc);
            var a := NormalizeAbsolute(st, AbsoluteOf(c), norm.(command := AbsoluteOf(c)), arc);
            r.emitted == a.emitted && r.state == a.state.(lastCommand := c)
  {
    AbsoluteKeepsGroup(c);
    SameGroupSameStep(st, c, AbsoluteOf(c), norm, arc);
  }

  /** A relative command's absolute form is in the same group, and smooth
      exactly when it is. */
  lemma AbsoluteKeepsGroup(c: SegType)
    requires IsRelative(c)
    ensures AbsoluteOf(c) != Unknown && GroupOf(AbsoluteOf(c)) == GroupOf(c)
    ensures IsSmoothCubic(AbsoluteOf(c)) == IsSmoothCubic(c)
    ensures IsSmoothQuadratic(AbsoluteOf(c)) == IsSmoothQuadratic(c)
  {
  }

  /** Two commands of the same group and smoothness are normalised alike,
      apart from the command recorded as the last one. */
  lemma SameGroupSameStep(st: NormalizerState, c: SegType, d: SegType, norm: Segment, arc: ArcOutcome)
    requires c != Unknown && d != Unknown && GroupOf(c) == GroupOf(d)
    requires IsSmoothCubic(c) == IsSmoothCubic(d) && IsSmoothQuadratic(c) == IsSmoothQuadratic(d)
    ensures var r := NormalizeAbsolute(st, c, norm, arc);
            var a := NormalizeAbsolute(st, d, norm.(command := d), arc);
            r.emitted == a.emitted && r.state == a.state.(lastCommand := c)
  {
  }

  /** A relative segment is normalised exactly like the absolute segment whose
      points are offset by the current point. */
  lemma {:induction false} RelativeMatchesAbsolute(st: NormalizerState, segment: Segment, arc: ArcOutcome)
    requires IsRelative(segment.command) && CarriesOnlyItsCoordinates(segment)
    ensures var absolute := AbsolutePoints(segment, st).(command := AbsoluteOf(segment.command));
            var r := NormalizeStep(st, segment, arc);
            var a := NormalizeStep(st, absolute, arc);
            r.emitted == a.emitted && r.state == a.state.(lastCommand := segment.command)
  {
    AbsolutePointsOfAbsolute(st, segment);
    var norm := AbsolutePoints(segment, st);
    SameGroupAsAbsolute(st, segment.command, norm, arc);
    assert norm.(command := segment.command) == norm;
  }

  /** After any step the current point is the segment's absolute target, and
      ClosePath returns to the point of the last MoveTo. */
  lemma StepMovesToTarget(st: NormalizerState, segment: Segment, arc: ArcOutcome)
    requires segment.command != Unknown
    ensures NormalizeStep(st, segment, arc).state.currentPoint == AbsolutePoints(segment, st).targetPoint
    ensures segment.command == ClosePath ==> NormalizeStep(st, segment, arc).state.currentPoint == st.subPathPoint
    ensures segment.command == MoveToAbs ==> NormalizeStep(st, segment, arc).state.subPathPoint == segment.targetPoint
  {
  }

  /** A smooth cubic after a cubic mirrors the previous control point through
      the current point; after anything else it starts at the current point. */
  lemma SmoothCubicReflects(st: NormalizerState, segment: Segment, arc: ArcOutcome)
    requires segment.command == CurveToCubicSmoothAbs
    ensures var p1 := NormalizeStep(st, segment, arc).emitted[0].point1;
            if IsCubicCommand(st.lastCommand)
            then p1.x - st.currentPoint.x == st.currentPoint.x - st.controlPoint.x
                 && p1.y - st.currentPoint.y == st.currentPoint.y - st.controlPoint.y
            else p1 == st.currentPoint
  {
  }

  /** A quadratic becomes the cubic whose control points lie two thirds of the
      way from each end point to the quadratic control point, which is kept
      for a following smooth quadratic. */
  lemma QuadraticBecomesCubic(st: NormalizerState, segment: Segment, arc: ArcOutcome)
    requires segment.command == CurveToQuadraticAbs
    ensures var out := NormalizeStep(st, segment, arc);
            var q := segment.point1;
            var p0 := st.currentPoint;
            var p3 := segment.targetPoint;
            && out.emitted == [out.emitted[0]]
            && out.emitted[0].command == CurveToCubicAbs
            && out.emitted[0].point1.x - p0.x == 2.0 * (q.x - p0.x) / 3.0
            && out.emitted[0].point1.y - p0.y == 2.0 * (q.y - p0.y) / 3.0
            && out.emitted[0].point2.x - p3.x == 2.0 * (q.x - p3.x) / 3.0
            && out.emitted[0].point2.y - p3.y == 2.0 * (q.y - p3.y) / 3.0
            && out.state.controlPoint == q
  {
  }

  /** An arc with a zero radius, or ending where it starts, is emitted as one
      absolute line to its target. */
  lemma DegenerateArcIsLine(st: NormalizerState, segment: Segment, arc: ArcOutcome)
    requires segment.command == ArcAbs
    requires ArcRadii(segment).x == 0.0 || ArcRadii(segment).y == 0.0 || segment.targetPoint == st.currentPoint
    ensures NormalizeStep(st, segment, arc).emitted == [segment.(command := LineToAbs)]
  {
  }

  /** After a command that is not a curve the control point is the new current
      point. */
  lemma ControlPointResetAfterNonCurve(st: NormalizerState, segment: Segment, arc: ArcOutcome)
    requires segment.command != Unknown && !IsCubicCommand(segment.command) && !IsQuadraticCommand(segment.command)
    ensures NormalizeStep(st, segment, arc).state.controlPoint == NormalizeStep(st, segment, arc).state.currentPoint
  {
  }
}
