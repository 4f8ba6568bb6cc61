/** The reader of SVG path byte streams (SVGPathByteStreamSource.cpp): each
    segment is stored as its command followed by exactly the fields that
    command carries. The byte-level encoding of floats and flags is not
    modelled: the stream is a sequence of typed items. */
module SvgPathByteStream {
  import opened SvgPath

  datatype Item = CommandItem(command: SegType) | FloatItem(value: real) | FlagItem(flag: bool)

  /** The kinds of the items that follow each command in the stream. */
  datatype Kind = FloatKind | FlagKind

  /** `n` float items. */
  function Floats(n: nat): (r: seq<Kind>)
    ensures |r| == n && forall k :: 0 <= k < n ==> r[k] == FloatKind
  {
    seq(n, _ => FloatKind)
  }

  function Layout(c: SegType): (r: seq<Kind>)
    ensures |r| <= 7
  {
    match c
    case CurveToCubicRel | CurveToCubicAbs => Floats(6)
    case CurveToCubicSmoothRel | CurveToCubicSmoothAbs | CurveToQuadraticRel | CurveToQuadraticAbs => Floats(4)
    case MoveToRel | MoveToAbs | LineToRel | LineToAbs | CurveToQuadraticSmoothRel | CurveToQuadraticSmoothAbs => Floats(2)
    case LineToHorizontalRel | LineToHorizontalAbs | LineToVerticalRel | LineToVerticalAbs => Floats(1)
    case ArcRel | ArcAbs => [FloatKind, FloatKind, FloatKind, FlagKind, FlagKind, FloatKind, FloatKind]
    case ClosePath | Unknown => []
  }

  predicate HasKind(item: Item, k: Kind)
  {
    match k
    case FloatKind => item.FloatItem?
    case FlagKind => item.FlagItem?
  }

  /** The items from `pos` on have the kinds `layout` lists. */
  predicate KindsAt(data: seq<Item>, pos: nat, layout: seq<Kind>)
  {
    pos + |layout| <= |data| && forall k :: 0 <= k < |layout| ==> HasKind(data[pos + k], layout[k])
  }

  /** A segment is stored at `pos`: a command item followed by the items its
      layout asks for. */
  predicate SegmentAt(data: seq<Item>, pos: nat)
  {
    pos < |data| && data[pos].CommandItem? && KindsAt(data, pos + 1, Layout(data[pos].command))
  }

  function F(items: seq<Item>, k: nat): real
    requires k < |items|
  {
    if items[k].FloatItem? then items[k].value else 0.0
  }

  function B(items: seq<Item>, k: nat): bool
    requires k < |items|
  {
    items[k].FlagItem? && items[k].flag
  }

  /** The segment that the fields after a command item describe, read in the
      order the stream stores them. */
  function DecodeFields(c: SegType, f: seq<Item>): (s: Segment)
    requires |f| == |Layout(c)|
    ensures s.command == c
  {
    var e := EmptySegment(c);
    match c
    case CurveToCubicRel | CurveToCubicAbs =>
      e.(point1 := Point(F(f, 0), F(f, 1)), point2 := Point(F(f, 2), F(f, 3)), targetPoint := Point(F(f, 4), F(f, 5)))
    case CurveToCubicSmoothRel | CurveToCubicSmoothAbs =>
      e.(point2 := Point(F(f, 0), F(f, 1)), targetPoint := Point(F(f, 2), F(f, 3)))
    case MoveToRel | MoveToAbs | LineToRel | LineToAbs | CurveToQuadraticSmoothRel | CurveToQuadraticSmoothAbs =>
      e.(targetPoint := Point(F(f, 0), F(f, 1)))
    case LineToHorizontalRel | LineToHorizontalAbs => e.(targetPoint := Point(F(f, 0), 0.0))
    case LineToVerticalRel | LineToVerticalAbs => e.(targetPoint := Point(0.0, F(f, 0)))
    case CurveToQuadraticRel | CurveToQuadraticAbs =>
      e.(point1 := Point(F(f, 0), F(f, 1)), targetPoint := Point(F(f, 2), F(f, 3)))
    case ArcRel | ArcAbs =>
      e.(point1 := Point(F(f, 0), F(f, 1)), point2 := Point(F(f, 2), 0.0), arcLarge := B(f, 3), arcSweep := B(f, 4),
         targetPoint := Point(F(f, 5), F(f, 6)))
    case ClosePath | Unknown => e
  }

  /** Where the layout is all floats, every item it covers is a float. */
  lemma FloatsFollow(data: seq<Item>, pos: nat, layout: seq<Kind>)
    requires KindsAt(data, pos, layout) && layout == Floats(|layout|)
    ensures forall k :: pos <= k < pos + |layout| ==> data[k].FloatItem?
  {
    forall k | pos <= k < pos + |layout|
      ensures data[k].FloatItem?
    {
      assert HasKind(data[pos + (k - pos)], layout[k - pos]);
    }
  }

  /** SVGPathByteStreamSource: the stream and its read cursor. */
  class SVGPathByteStreamSource {
    var data: seq<Item>
    var cursor: nat

    constructor(stream: seq<Item>)
      ensures data == stream && cursor == 0
    {
      data := stream;
      cursor := 0;
    }

    predicate HasMoreData()
      reads this
    {
      cursor < |data|
    }

    method ReadFloat() returns (f: real)
      requires cursor < |data| && data[cursor].FloatItem?
      modifies this`cursor
      ensures f == old(data[cursor]).value && cursor == old(cursor) + 1
    {
      f := data[cursor].value;
      cursor := cursor + 1;
    }

    method ReadFlag() returns (b: bool)
      requires cursor < |data| && data[cursor].FlagItem?
      modifies this`cursor
      ensures b == old(data[cursor]).flag && cursor == old(cursor) + 1
    {
      b := data[cursor].flag;
      cursor := cursor + 1;
    }

    /** readFloatPoint: x, then y. */
    method ReadFloatPoint() returns (p: Point)
      requires cursor + 1 < |data| && data[cursor].FloatItem? && data[cursor + 1].FloatItem?
      modifies this`cursor
      ensures p == Point(old(data[cursor]).value, old(data[cursor + 1]).value) && cursor == old(cursor) + 2
    {
      var x := ReadFloat();
      var y := ReadFloat();
      p := Point(x, y);
    }

    method ReadSegmentType() returns (c: SegType)
      requires cursor < |data| && data[cursor].CommandItem?
      modifies this`cursor
      ensures c == old(data[cursor]).command && cursor == old(cursor) + 1
    {
      c := data[cursor].command;
      cursor := cursor + 1;
    }

    /** The cases of parseSegment that fall through to reading the target
        point: cubic curves read point1 and point2, smooth cubics point2,
        moves, lines and smooth quadratics only the target. */
    method ParseFallThrough(c: SegType) returns (segment: Segment)
      requires c == CurveToCubicRel || c == CurveToCubicAbs || c == CurveToCubicSmoothRel || c == CurveToCubicSmoothAbs
         || c == MoveToRel || c == MoveToAbs || c == LineToRel || c == LineToAbs
         || c == CurveToQuadraticSmoothRel || c == CurveToQuadraticSmoothAbs
      requires KindsAt(data, cursor, Layout(c))
      modifies this`cursor
      ensures cursor == old(cursor) + |Layout(c)|
      ensures segment == DecodeFields(c, data[old(cursor)..cursor])
    {
      FloatsFollow(data, cursor, Layout(c));
      ghost var start := cursor;
      ghost var f := data[start..start + |Layout(c)|];
      segment := EmptySegment(c);
      if c == CurveToCubicRel || c == CurveToCubicAbs {
        var p1 := ReadFloatPoint();
        segment := segment.(point1 := p1);
      }
      if c == CurveToCubicRel || c == CurveToCubicAbs || c == CurveToCubicSmoothRel || c == CurveToCubicSmoothAbs {
        var p2 := ReadFloatPoint();
        segment := segment.(point2 := p2);
      }
      var t := ReadFloatPoint();
      segment := segment.(targetPoint := t);
      assert t == Point(F(f, |f| - 2), F(f, |f| - 1));
    }

    /** Horizontal and vertical lines read one coordinate of the target. */
    method ParseOneCoordinate(c: SegType) returns (segment: Segment)
      requires c == LineToHorizontalRel || c == LineToHorizontalAbs || c == LineToVerticalRel || c == LineToVerticalAbs
      requires KindsAt(data, cursor, Layout(c))
      modifies this`cursor
      ensures cursor == old(cursor) + |Layout(c)|
      ensures segment == DecodeFields(c, data[old(cursor)..cursor])
    {
      FloatsFollow(data, cursor, Layout(c));
      segment := EmptySegment(c);
      if c == LineToHorizontalRel || c == LineToHorizontalAbs {
        var x := ReadFloat();
        segment := segment.(targetPoint := Point(x, segment.targetPoint.y));
      } else {
        var y := ReadFloat();
        segment := segment.(targetPoint := Point(segment.targetPoint.x, y));
      }
    }

    /** Quadratic curves read point1, then the target. */
    method ParseQuadratic(c: SegType) returns (segment: Segment)
      requires c == CurveToQuadraticRel || c == CurveToQuadraticAbs
      requires KindsAt(data, cursor, Layout(c))
      modifies this`cursor
      ensures cursor == old(cursor) + |Layout(c)|
      ensures segment == DecodeFields(c, data[old(cursor)..cursor])
    {
      FloatsFollow(data, cursor, Layout(c));
      segment := EmptySegment(c);
      var p1 := ReadFloatPoint();
      var t := ReadFloatPoint();
      segment := segment.(point1 := p1, targetPoint := t);
    }

    /** Arcs read the radii into point1, the angle into point2.x, the
        large-arc flag, the sweep flag, then the target. */
    method ParseArc(c: SegType) returns (segment: Segment)
      requires c == ArcRel || c == ArcAbs
      requires KindsAt(data, cursor, Layout(c))
      modifies this`cursor
      ensures cursor == old(cursor) + |Layout(c)|
      ensures segment == DecodeFields(c, data[old(cursor)..cursor])
    {
      var layout := Layout(c);
      assert HasKind(data[cursor], layout[0]) && HasKind(data[cursor + 1], layout[1]) && HasKind(data[cursor + 2], layout[2]);
      assert HasKind(data[cursor + 3], layout[3]) && HasKind(data[cursor + 4], layout[4]);
      assert HasKind(data[cursor + 5], layout[5]) && HasKind(data[cursor + 6], layout[6]);
      segment := EmptySegment(c);
      var radii := ReadFloatPoint();
      var angle := ReadFloat();
      var large := ReadFlag();
      var sweep := ReadFlag();
      var t := ReadFloatPoint();
      segment := segment.(point1 := radii, point2 := Point(angle, segment.point2.y), arcLarge := large, arcSweep := sweep, targetPoint := t);
    }

    /** parseSegment: reads the command, then the fields it carries through
        the switch of the source; the other fields keep their defaults. A
        close-path reads nothing more, and neither does an unknown command
        (the source's NOTREACHED branch). */
    method ParseSegment() returns (segment: Segment)
      requires SegmentAt(data, cursor)
      modifies this`cursor
      ensures var c := old(data[cursor]).command;
              && cursor == old(cursor) + 1 + |Layout(c)|
              && segment == DecodeFields(c, data[old(cursor) + 1..cursor])
    {
      // The entry's command is still unread.
      assert HasMoreData();
      var c := ReadSegmentType();
      if c == CurveToCubicRel || c == CurveToCubicAbs || c == CurveToCubicSmoothRel || c == CurveToCubicSmoothAbs
         || c == MoveToRel || c == MoveToAbs || c == LineToRel || c == LineToAbs
         || c == CurveToQuadraticSmoothRel || c == CurveToQuadraticSmoothAbs {
        segment := ParseFallThrough(c);
      } else if c == LineToHorizontalRel || c == LineToHorizontalAbs || c == LineToVerticalRel || c == LineToVerticalAbs {
        segment := ParseOneCoordinate(c);
      } else if c == CurveToQuadraticRel || c == CurveToQuadraticAbs {
        segment := ParseQuadratic(c);
      } else if c == ArcRel || c == ArcAbs {
        segment := ParseArc(c);
      } else {
        segment := EmptySegment(c);
      }
    }
  }

  /** The items SVGPathByteStreamBuilder writes for a segment: its command and
      the fields its layout names, in the order parseSegment reads them. */
  function EncodeSegment(s: Segment): (items: seq<Item>)
    ensures |items| == 1 + |Layout(s.command)|
  {
    var c := s.command;
    var t := s.targetPoint;
    var p1 := s.point1;
    var p2 := s.point2;
    [CommandItem(c)] +
    (match c
     case CurveToCubicRel => [FloatItem(p1.x), FloatItem(p1.y), FloatItem(p2.x), FloatItem(p2.y), FloatItem(t.x), FloatItem(t.y)]
     case CurveToCubicAbs => [FloatItem(p1.x), FloatItem(p1.y), FloatItem(p2.x), FloatItem(p2.y), FloatItem(t.x), FloatItem(t.y)]
     case CurveToCubicSmoothRel => [FloatItem(p2.x), FloatItem(p2.y), FloatItem(t.x), FloatItem(t.y)]
     case CurveToCubicSmoothAbs => [FloatItem(p2.x), FloatItem(p2.y), FloatItem(t.x), FloatItem(t.y)]
     case CurveToQuadraticRel => [FloatItem(p1.x), FloatItem(p1.y), FloatItem(t.x), FloatItem(t.y)]
     case CurveToQuadraticAbs => [FloatItem(p1.x), FloatItem(p1.y), FloatItem(t.x), FloatItem(t.y)]
     case LineToHorizontalRel => [FloatItem(t.x)]
     case LineToHorizontalAbs => [FloatItem(t.x)]
     case LineToVerticalRel => [FloatItem(t.y)]
     case LineToVerticalAbs => [FloatItem(t.y)]
     case ArcRel => [FloatItem(p1.x), FloatItem(p1.y), FloatItem(p2.x), FlagItem(s.arcLarge), FlagItem(s.arcSweep), FloatItem(t.x), FloatItem(t.y)]
     case ArcAbs => [FloatItem(p1.x), FloatItem(p1.y), FloatItem(p2.x), FlagItem(s.arcLarge), FlagItem(s.arcSweep), FloatItem(t.x), FloatItem(t.y)]
     case ClosePath => []
     case Unknown => []
     case _ => [FloatItem(t.x), FloatItem(t.y)])
  }

  /** The fields a command does not carry are at their defaults. */
  predicate Canonical(s: Segment)
  {
    var c := s.command;
    var carriesP1 := c in {CurveToCubicRel, CurveToCubicAbs, CurveToQuadraticRel, CurveToQuadraticAbs, ArcRel, ArcAbs};
    var carriesP2 := c in {CurveToCubicRel, CurveToCubicAbs, CurveToCubicSmoothRel, CurveToCubicSmoothAbs};
    var isArc := c == ArcRel || c == ArcAbs;
    && (!carriesP1 ==> s.point1 == Origin)
    && (!carriesP2 && !isArc ==> s.point2 == Origin)
    && (isArc ==> s.point2.y == 0.0)
    && (!isArc ==> !s.arcLarge && !s.arcSweep)
    && (c == ClosePath || c == Unknown ==> s.targetPoint == Origin)
    && (c == LineToHorizontalRel || c == LineToHorizontalAbs ==> s.targetPoint.y == 0.0)
    && (c == LineToVerticalRel || c == LineToVerticalAbs ==> s.targetPoint.x == 0.0)
  }

  /** Every encoded segment is a well-formed stream entry, and reading it
      back gives the segment: parseSegment inverts the builder on every
      segment whose unused fields are at their defaults. */
  lemma {:induction false} DecodeEncode(s: Segment)
    requires Canonical(s)
    ensures SegmentAt(EncodeSegment(s), 0)
    ensures DecodeFields(s.command, EncodeSegment(s)[1..]) == s
  {
    var items := EncodeSegment(s);
    assert items[0] == CommandItem(s.command);
    // One case per layout.
    match s.command
    case CurveToCubicRel | CurveToCubicAbs =>
    case ArcRel | ArcAbs =>
    case CurveToCubicSmoothRel | CurveToCubicSmoothAbs | CurveToQuadraticRel | CurveToQuadraticAbs =>
    case MoveToRel | MoveToAbs | LineToRel | LineToAbs | CurveToQuadraticSmoothRel | CurveToQuadraticSmoothAbs =>
    case LineToHorizontalRel | LineToHorizontalAbs | LineToVerticalRel | LineToVerticalAbs =>
    case ClosePath | Unknown =>
  }

  /** The other direction: the fields of a well-formed entry decode to a
      canonical segment that the builder writes back item for item. */
  lemma {:induction false} EncodeDecode(c: SegType, f: seq<Item>)
    requires KindsAt(f, 0, Layout(c)) && |f| == |Layout(c)|
    ensures Canonical(DecodeFields(c, f))
    ensures EncodeSegment(DecodeFields(c, f)) == [CommandItem(c)] + f
  {
    var layout := Layout(c);
    forall k | 0 <= k < |f|
      ensures HasKind(f[k], layout[k])
    {
      assert HasKind(f[0 + k], layout[k]);
    }
    if c == ArcRel || c == ArcAbs {
      assert f == [FloatItem(F(f, 0)), FloatItem(F(f, 1)), FloatItem(F(f, 2)), FlagItem(B(f, 3)), FlagItem(B(f, 4)),
                   FloatItem(F(f, 5)), FloatItem(F(f, 6))];
    } else {
      EncodeDecodeFloats(c, f);
    }
  }

  /** EncodeDecode for the commands whose fields are all floats. */
  lemma EncodeDecodeFloats(c: SegType, f: seq<Item>)
    requires c != ArcRel && c != ArcAbs && |f| == |Layout(c)|
    requires forall k :: 0 <= k < |f| ==> f[k].FloatItem?
    ensures Canonical(DecodeFields(c, f))
    ensures EncodeSegment(DecodeFields(c, f)) == [CommandItem(c)] + f
  {
    match c
    case CurveToCubicRel | CurveToCubicAbs =>
      assert f == [FloatItem(F(f, 0)), FloatItem(F(f, 1)), FloatItem(F(f, 2)), FloatItem(F(f, 3)), FloatItem(F(f, 4)), FloatItem(F(f, 5))];
    case CurveToCubicSmoothRel | CurveToCubicSmoothAbs | CurveToQuadraticRel | CurveToQuadraticAbs =>
      assert f == [FloatItem(F(f, 0)), FloatItem(F(f, 1)), FloatItem(F(f, 2)), FloatItem(F(f, 3))];
    case MoveToRel | MoveToAbs | LineToRel | LineToAbs | CurveToQuadraticSmoothRel | CurveToQuadraticSmoothAbs =>
      assert f == [FloatItem(F(f, 0)), FloatItem(F(f, 1))];
    case LineToHorizontalRel | LineToHorizontalAbs | LineToVerticalRel | LineToVerticalAbs =>
      assert f == [FloatItem(F(f, 0))];
    case ClosePath | Unknown =>
      assert f == [];
  }

  /** Items appended after a well-formed entry leave it well formed and
      unchanged. */
  lemma {:induction false} SegmentAtExtends(e: seq<Item>, rest: seq<Item>)
    requires SegmentAt(e, 0)
    ensures SegmentAt(e + rest, 0)
    ensures (e + rest)[1..|e|] == e[1..]
  {
    var d := e + rest;
    var layout := Layout(e[0].command);
    assert d[0] == e[0];
    forall k | 0 <= k < |layout|
      ensures HasKind(d[1 + k], layout[k])
    {
      assert d[1 + k] == e[1 + k];
    }
  }

  /** The cursor moves over whole segments: parsing the segment written at
      the cursor gives it back and leaves the cursor at the next entry. */
  method ParseEncoded(src: SVGPathByteStreamSource, s: Segment, rest: seq<Item>) returns (parsed: Segment)
    requires Canonical(s)
    requires src.data == EncodeSegment(s) + rest && src.cursor == 0
    modifies src`cursor
    ensures parsed == s
    ensures src.cursor == |EncodeSegment(s)|
  {
    DecodeEncode(s);
    var e := EncodeSegment(s);
    SegmentAtExtends(e, rest);
    parsed := src.ParseSegment();
  }
}
