/** The pure parts of TextPainter.h: the quarter-turn transforms used to paint
    vertical text, and the field-wise equality of text painting styles. */
module TextPainterModel {

  /** A LayoutRect: origin and size. */
  datatype LayoutRect = LayoutRect(x: real, y: real, width: real, height: real)
  {
    function MaxY(): real { y + height }
  }

  datatype Point = Point(x: real, y: real)

  /** AffineTransform(a, b, c, d, e, f): (px, py) goes to
      (a·px + c·py + e, b·px + d·py + f). */
  datatype AffineTransform = AffineTransform(a: real, b: real, c: real, d: real, e: real, f: real)

  function Apply(t: AffineTransform, p: Point): Point
  {
    Point(t.a * p.x + t.c * p.y + t.e, t.b * p.x + t.d * p.y + t.f)
  }

  /** The transform that applies `second` after `first`. */
  function Then(first: AffineTransform, second: AffineTransform): (r: AffineTransform)
    ensures forall p :: Apply(r, p) == Apply(second, Apply(first, p))
  {
    AffineTransform(
      second.a * first.a + second.c * first.b,
      second.b * first.a + second.d * first.b,
      second.a * first.c + second.c * first.d,
      second.b * first.c + second.d * first.d,
      second.a * first.e + second.c * first.f + second.e,
      second.b * first.e + second.d * first.f + second.f)
  }

  const Identity := AffineTransform(1.0, 0.0, 0.0, 1.0, 0.0, 0.0)

  datatype RotationDirection = Counterclockwise | Clockwise

  /** TextPainter::rotation. */
  function Rotation(box: LayoutRect, direction: RotationDirection): (t: AffineTransform)
    ensures direction == Clockwise ==> Apply(t, Point(box.x, box.MaxY())) == Point(box.x, box.y)
    ensures direction == Counterclockwise ==> Apply(t, Point(box.x, box.y)) == Point(box.x, box.MaxY())
    ensures t.a == 0.0 && t.d == 0.0 && t.b * t.c == -1.0
  {
    if direction == Clockwise
    then AffineTransform(0.0, 1.0, -1.0, 0.0, box.x + box.MaxY(), box.y - box.x)
    else AffineTransform(0.0, -1.0, 1.0, 0.0, box.x - box.y, box.x + box.MaxY())
  }

  /** The clockwise turn is a quarter turn: every vector between two points
      is rotated by 90 degrees, lengths and angles kept. */
  lemma ClockwiseIsQuarterTurn(box: LayoutRect, p: Point, q: Point)
    ensures Apply(Rotation(box, Clockwise), q).x - Apply(Rotation(box, Clockwise), p).x == -(q.y - p.y)
    ensures Apply(Rotation(box, Clockwise), q).y - Apply(Rotation(box, Clockwise), p).y == q.x - p.x
  {
  }

  /** The two rotations undo each other, in either order, as transforms and
      point by point. */
  lemma RotationsAreInverse(box: LayoutRect, p: Point)
    ensures Then(Rotation(box, Counterclockwise), Rotation(box, Clockwise)) == Identity
    ensures Then(Rotation(box, Clockwise), Rotation(box, Counterclockwise)) == Identity
    ensures Apply(Rotation(box, Clockwise), Apply(Rotation(box, Counterclockwise), p)) == p
    ensures Apply(Rotation(box, Counterclockwise), Apply(Rotation(box, Clockwise), p)) == p
  {
    var cw, ccw := Rotation(box, Clockwise), Rotation(box, Counterclockwise);
    assert Then(ccw, cw) == Identity;
    var back := Then(cw, ccw);
    assert back.e == (box.y - box.x) + (box.x - box.y);
    assert back.f == -(box.x + box.MaxY()) + (box.x + box.MaxY());
    assert Apply(Identity, p) == p;
  }

  /** An RGBA colour. */
  datatype Color = Color(rgba: nat)

  /** TextPainter::Style; the shadow list is compared by address. */
  datatype Style = Style(
    currentColor: Color,
    fillColor: Color,
    strokeColor: Color,
    emphasisMarkColor: Color,
    strokeWidth: real,
    shadow: nat)

  /** Style::operator==: all six fields agree. */
  predicate StyleEquals(s: Style, o: Style)
  {
    s.currentColor == o.currentColor && s.fillColor == o.fillColor && s.strokeColor == o.strokeColor
    && s.emphasisMarkColor == o.emphasisMarkColor && s.strokeWidth == o.strokeWidth && s.shadow == o.shadow
  }

  /** Style::operator!=. */
  predicate StyleNotEquals(s: Style, o: Style)
  {
    !StyleEquals(s, o)
  }

  /** Comparing the six fields is the same as comparing whole styles, so a
      style differing in any single field is unequal; `!=` is the negation. */
  lemma StyleEqualityIsFieldwise(s: Style, o: Style)
    ensures StyleEquals(s, o) <==> s == o
    ensures StyleNotEquals(s, o) <==> s != o
    ensures StyleEquals(s, o) ==> StyleEquals(o, s)
  {
  }
}
