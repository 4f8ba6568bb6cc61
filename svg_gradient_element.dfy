/** The shared part of SVG <linearGradient> and <radialGradient>
    (SVGGradientElement.cpp): the spread-method keyword table, the colour
    stops built from the <stop> children, and the collection of attributes
    that a gradient has not already inherited through its href chain. */
module SvgGradient {
  import opened Common

  /** SVGSpreadMethodType. */
  datatype SpreadMethod = SpreadMethodUnknown | Pad | Reflect | Repeat

  /** SVGUnitTypes::SVGUnitType. */
  datatype UnitType = UnitTypeUnknown | UserSpaceOnUse | ObjectBoundingBox

  /** The enumeration's string entries, in the order they are registered. */
  const SpreadMethodEntries: seq<(SpreadMethod, string)> := [(Pad, "pad"), (Reflect, "reflect"), (Repeat, "repeat")]

  /** The keyword an enumeration value serializes to, if it has one. */
  function SpreadMethodKeyword(m: SpreadMethod): (r: Option<string>)
    ensures r.Some? <==> m != SpreadMethodUnknown
    ensures r.Some? ==> (m, r.value) in SpreadMethodEntries
  {
    match m
    case SpreadMethodUnknown => None
    case Pad => Some("pad")
    case Reflect => Some("reflect")
    case Repeat => Some("repeat")
  }

  /** The enumeration value a keyword parses to, if any. */
  function ParseSpreadMethod(s: string): (r: Option<SpreadMethod>)
    ensures r.Some? <==> exists e :: e in SpreadMethodEntries && e.1 == s
    ensures r.Some? ==> (r.value, s) in SpreadMethodEntries
  {
    if s == "pad" then Some(Pad)
    else if s == "reflect" then Some(Reflect)
    else if s == "repeat" then Some(Repeat)
    else None
  }

  /** The keywords are exactly pad, reflect and repeat, and parsing and
      serializing are inverse on them. */
  lemma SpreadMethodRoundTrip(m: SpreadMethod, s: string)
    ensures ParseSpreadMethod(s).Some? <==> s in {"pad", "reflect", "repeat"}
    ensures SpreadMethodKeyword(m).Some? ==> ParseSpreadMethod(SpreadMethodKeyword(m).value) == Some(m)
    ensures ParseSpreadMethod(s).Some? ==> SpreadMethodKeyword(ParseSpreadMethod(s).value) == Some(s)
  {
  }

  /** An RGBA colour, the stop colour with its opacity applied. */
  datatype Color = Color(rgba: nat)

  /** An SVGStopElement child: its offset attribute and its colour. */
  datatype StopElement = StopElement(offset: real, color: Color)

  /** Gradient::ColorStop. */
  datatype ColorStop = ColorStop(offset: real, color: Color)

  /** std::min(std::max(previousOffset, offset), 1.0f). */
  function MonotonicOffset(previousOffset: real, offset: real): (r: real)
    ensures r <= 1.0
    ensures previousOffset <= 1.0 ==> previousOffset <= r
    ensures previousOffset <= offset <= 1.0 ==> r == offset
  {
    var atLeast := if previousOffset < offset then offset else previousOffset;
    if 1.0 < atLeast then 1.0 else atLeast
  }

  predicate NonDecreasing(stops: seq<ColorStop>)
  {
    forall i, j :: 0 <= i < j < |stops| ==> stops[i].offset <= stops[j].offset
  }

  /** The children's offsets already rise within [0, 1]. */
  predicate WellOrdered(children: seq<StopElement>)
  {
    (forall i :: 0 <= i < |children| ==> 0.0 <= children[i].offset <= 1.0)
    && forall i, j :: 0 <= i < j < |children| ==> children[i].offset <= children[j].offset
  }

  /** The offset the stop at i is pushed up to: the previous stop's, or 0
      for the first. */
  function OffsetBefore(stops: seq<ColorStop>, i: nat): real
    requires i <= |stops|
  {
    if i == 0 then 0.0 else stops[i - 1].offset
  }

  /** buildStops: one stop per <stop> child, in document order, each offset
      pushed up to the previous one and capped at 1. */
  method BuildStops(children: seq<StopElement>) returns (stops: seq<ColorStop>)
    ensures |stops| == |children|
    ensures forall i :: 0 <= i < |stops| ==> stops[i].color == children[i].color
    ensures forall i :: 0 <= i < |stops| ==>
              stops[i].offset == MonotonicOffset(OffsetBefore(stops, i), children[i].offset)
    ensures forall i :: 0 <= i < |stops| ==> 0.0 <= stops[i].offset <= 1.0
    ensures NonDecreasing(stops)
    ensures WellOrdered(children) ==> forall i :: 0 <= i < |stops| ==> stops[i].offset == children[i].offset
  {
    stops := [];
    var previousOffset := 0.0;
    for k := 0 to |children|
      invariant |stops| == k
      invariant Recurrence(stops, children)
      invariant previousOffset == OffsetBefore(stops, k)
    {
      var offset := MonotonicOffset(previousOffset, children[k].offset);
      previousOffset := offset;
      AppendKeepsRecurrence(stops, children);
      stops := stops + [ColorStop(offset, children[k].color)];
    }
    RecurrenceFacts(stops, children);
  }

  /** Each stop so far has its child's colour and its offset pushed up to
      the one before. */
  ghost predicate Recurrence(stops: seq<ColorStop>, children: seq<StopElement>)
  {
    |stops| <= |children|
    && forall i :: 0 <= i < |stops| ==>
         stops[i].color == children[i].color
         && stops[i].offset == MonotonicOffset(OffsetBefore(stops, i), children[i].offset)
  }

  lemma AppendKeepsRecurrence(stops: seq<ColorStop>, children: seq<StopElement>)
    requires Recurrence(stops, children) && |stops| < |children|
    ensures Recurrence(stops + [ColorStop(MonotonicOffset(OffsetBefore(stops, |stops|), children[|stops|].offset),
                                          children[|stops|].color)], children)
  {
    var next := stops + [ColorStop(MonotonicOffset(OffsetBefore(stops, |stops|), children[|stops|].offset),
                                   children[|stops|].color)];
    forall i | 0 <= i <= |stops|
      ensures OffsetBefore(next, i) == OffsetBefore(stops, i)
    {
      if i > 0 {
        assert next[i - 1] == stops[i - 1];
      }
    }
    assert forall i :: 0 <= i < |stops| ==> next[i] == stops[i];
  }

  /** What the recurrence gives: offsets within [0, 1], never decreasing,
      and equal to the children's when those already rise within [0, 1]. */
  lemma {:induction false} RecurrenceFacts(stops: seq<ColorStop>, children: seq<StopElement>)
    requires Recurrence(stops, children)
    ensures forall i :: 0 <= i < |stops| ==> 0.0 <= stops[i].offset <= 1.0
    ensures NonDecreasing(stops)
    ensures WellOrdered(children) ==> forall i :: 0 <= i < |stops| ==> stops[i].offset == children[i].offset
  {
    if stops != [] {
      var k := |stops| - 1;
      var front := stops[..k];
      RecurrenceOfPrefix(stops, children);
      RecurrenceFacts(front, children);
      assert stops[k].offset == MonotonicOffset(OffsetBefore(stops, k), children[k].offset);
      LastStop(stops, children);
    }
  }

  lemma RecurrenceOfPrefix(stops: seq<ColorStop>, children: seq<StopElement>)
    requires Recurrence(stops, children) && stops != []
    ensures Recurrence(stops[..|stops| - 1], children)
  {
    var front := stops[..|stops| - 1];
    forall i | 0 <= i < |front|
      ensures OffsetBefore(front, i) == OffsetBefore(stops, i)
    {
      if i > 0 {
        assert front[i - 1] == stops[i - 1];
      }
    }
    assert forall i :: 0 <= i < |front| ==> front[i] == stops[i];
  }

  /** The last stop extends what the earlier ones satisfy. */
  lemma LastStop(stops: seq<ColorStop>, children: seq<StopElement>)
    requires stops != [] && |stops| <= |children|
    requires stops[|stops| - 1].offset
             == MonotonicOffset(OffsetBefore(stops, |stops| - 1), children[|stops| - 1].offset)
    requires var front := stops[..|stops| - 1];
             (forall i :: 0 <= i < |front| ==> 0.0 <= front[i].offset <= 1.0)
             && NonDecreasing(front)
             && (WellOrdered(children) ==> forall i :: 0 <= i < |front| ==> front[i].offset == children[i].offset)
    ensures forall i :: 0 <= i < |stops| ==> 0.0 <= stops[i].offset <= 1.0
    ensures NonDecreasing(stops)
    ensures WellOrdered(children) ==> forall i :: 0 <= i < |stops| ==> stops[i].offset == children[i].offset
  {
    var k := |stops| - 1;
    assert forall i :: 0 <= i < k ==> stops[..k][i] == stops[i];
    var previous := OffsetBefore(stops, k);
    assert 0.0 <= previous <= 1.0;
    assert previous <= stops[k].offset <= 1.0;
    assert forall i :: 0 <= i < k ==> stops[i].offset <= previous;
    if WellOrdered(children) && k > 0 {
      assert previous == children[k - 1].offset;
    }
  }

  /** An affine transform's six coefficients. */
  datatype AffineTransform = AffineTransform(a: real, b: real, c: real, d: real, e: real, f: real)

  /** What collectCommonAttributes reads from one gradient element: each
      animated attribute's value when it is specified, the element's own
      transform when it has one (motion excluded), and its <stop> children. */
  datatype GradientElement = GradientElement(
    spreadMethod: Option<SpreadMethod>,
    gradientUnits: Option<UnitType>,
    transform: Option<AffineTransform>,
    children: seq<StopElement>)

  /** GradientAttributes: the attributes gathered so far along an href chain;
      an absent value is one no element has set yet. */
  class GradientAttributes {
    var spreadMethod: Option<SpreadMethod>
    var gradientUnits: Option<UnitType>
    var gradientTransform: Option<AffineTransform>
    var stops: Option<seq<ColorStop>>

    constructor()
      ensures spreadMethod.None? && gradientUnits.None? && gradientTransform.None? && stops.None?
    {
      spreadMethod, gradientUnits, gradientTransform, stops := None, None, None, None;
    }

    /** collectCommonAttributes: fills in every attribute still unset for
        which this element has a value; stops are taken only when the element
        has at least one <stop> child. Nothing already set is overwritten. */
    method CollectCommonAttributes(element: GradientElement)
      modifies this
      ensures spreadMethod == if old(spreadMethod).Some? then old(spreadMethod) else element.spreadMethod
      ensures gradientUnits == if old(gradientUnits).Some? then old(gradientUnits) else element.gradientUnits
      ensures gradientTransform == if old(gradientTransform).Some? then old(gradientTransform) else element.transform
      ensures old(stops).Some? || element.children == [] ==> stops == old(stops)
      ensures old(stops).None? && element.children != [] ==>
                stops.Some? && |stops.value| == |element.children| && NonDecreasing(stops.value)
                && (forall i :: 0 <= i < |stops.value| ==> stops.value[i].color == element.children[i].color)
                && (forall i :: 0 <= i < |stops.value| ==> 0.0 <= stops.value[i].offset <= 1.0)
                && (forall i :: 0 <= i < |stops.value| ==>
                      stops.value[i].offset == MonotonicOffset(OffsetBefore(stops.value, i), element.children[i].offset))
                && (WellOrdered(element.children) ==>
                      forall i :: 0 <= i < |stops.value| ==> stops.value[i].offset == element.children[i].offset)
    {
      if spreadMethod.None? && element.spreadMethod.Some? {
        spreadMethod := element.spreadMethod;
      }
      if gradientUnits.None? && element.gradientUnits.Some? {
        gradientUnits := element.gradientUnits;
      }
      if gradientTransform.None? && element.transform.Some? {
        gradientTransform := element.transform;
      }
      if stops.None? {
        var built := BuildStops(element.children);
        if built != [] {
          stops := Some(built);
        }
      }
    }
  }
}
