/** Grid spans and grid areas of CSS Grid Layout (GridArea.h): a span is a
    pair of grid-line indexes in one direction, clamped to the recommended
    maximum grid size when it is built. */
module Grid {
  /** kGridMaxTracks */
  const GridMaxTracks: int := 1000

  datatype GridSpanType = UntranslatedDefinite | TranslatedDefinite | Indefinite

  datatype GridSpan = GridSpan(startLine: int, endLine: int, kind: GridSpanType)

  /** clampTo<int>(v, lo, hi) */
  function ClampTo(v: int, lo: int, hi: int): (r: int)
    requires lo <= hi
    ensures lo <= r <= hi
    ensures lo <= v <= hi ==> r == v
    ensures v < lo ==> r == lo
    ensures v > hi ==> r == hi
  {
    if v < lo then lo else if v > hi then hi else v
  }

  /** The private constructor: the start line is clamped into
      [-1000, 999] and the end line into [-999, 1000]. */
  function MakeSpan(startLine: int, endLine: int, kind: GridSpanType): (s: GridSpan)
    ensures -GridMaxTracks <= s.startLine <= GridMaxTracks - 1
    ensures -GridMaxTracks + 1 <= s.endLine <= GridMaxTracks
    ensures s.kind == kind
  {
    GridSpan(ClampTo(startLine, -GridMaxTracks, GridMaxTracks - 1),
             ClampTo(endLine, -GridMaxTracks + 1, GridMaxTracks), kind)
  }

  function UntranslatedDefiniteGridSpan(startLine: int, endLine: int): (s: GridSpan)
    ensures s.kind == UntranslatedDefinite
    ensures -GridMaxTracks <= startLine < GridMaxTracks ==> s.startLine == startLine
    ensures -GridMaxTracks < endLine <= GridMaxTracks ==> s.endLine == endLine
  {
    MakeSpan(startLine, endLine, UntranslatedDefinite)
  }

  function TranslatedDefiniteGridSpan(startLine: nat, endLine: nat): (s: GridSpan)
    ensures s.kind == TranslatedDefinite
    ensures -GridMaxTracks <= startLine < GridMaxTracks ==> s.startLine == startLine
    ensures -GridMaxTracks < endLine <= GridMaxTracks ==> s.endLine == endLine
  {
    MakeSpan(startLine, endLine, TranslatedDefinite)
  }

  function IndefiniteGridSpan(): (s: GridSpan)
    ensures s == GridSpan(0, 1, Indefinite)
  {
    MakeSpan(0, 1, Indefinite)
  }

  /** Clamping never reorders the lines: a span built from start < end keeps
      start < end, and lines already inside the limits are kept as given. */
  lemma {:induction false} ClampingKeepsOrder(startLine: int, endLine: int, kind: GridSpanType)
    requires startLine < endLine
    ensures MakeSpan(startLine, endLine, kind).startLine < MakeSpan(startLine, endLine, kind).endLine
    ensures -GridMaxTracks <= startLine && endLine <= GridMaxTracks ==>
      MakeSpan(startLine, endLine, kind) == GridSpan(startLine, endLine, kind)
  {
    var s := MakeSpan(startLine, endLine, kind);
    if startLine >= GridMaxTracks - 1 {
      assert s.startLine == GridMaxTracks - 1 && s.endLine == GridMaxTracks;
    } else if startLine < -GridMaxTracks {
      assert s.endLine >= -GridMaxTracks + 1;
    }
  }

  /** integerSpan: the number of tracks a translated span covers. */
  function IntegerSpan(s: GridSpan): (n: nat)
    requires s.kind == TranslatedDefinite && s.endLine > s.startLine
    ensures n > 0
    ensures s.startLine + n == s.endLine
  {
    s.endLine - s.startLine
  }

  /** A translated span built from lines start < end covers at least one
      track. */
  lemma TranslatedSpanIsPositive(startLine: nat, endLine: nat)
    requires startLine < endLine
    ensures var s := TranslatedDefiniteGridSpan(startLine, endLine);
            s.endLine > s.startLine && IntegerSpan(s) > 0
  {
    ClampingKeepsOrder(startLine, endLine, TranslatedDefinite);
  }

  /** translate: an untranslated span becomes translated, both lines move by
      the offset and the length is kept. The lines are not clamped again. */
  function Translate(s: GridSpan, offset: nat): (t: GridSpan)
    requires s.kind == UntranslatedDefinite
    ensures t.kind == TranslatedDefinite
    ensures t.startLine - s.startLine == offset && t.endLine - s.endLine == offset
    ensures t.endLine - t.startLine == s.endLine - s.startLine
  {
    GridSpan(s.startLine + offset, s.endLine + offset, TranslatedDefinite)
  }

  /** The lines from `a` up to but excluding `b`. */
  function LineRange(a: int, b: int): (r: seq<int>)
    requires a <= b
    ensures |r| == b - a
    ensures forall k :: 0 <= k < |r| ==> r[k] == a + k
    decreases b - a
  {
    if a == b then [] else [a] + LineRange(a + 1, b)
  }

  /** Iterating a translated span from begin() to end(): the iterator starts
      at the start line and is incremented until it equals the end line. */
  method VisitLines(s: GridSpan) returns (visited: seq<int>)
    requires s.kind == TranslatedDefinite && s.startLine >= 0 && s.endLine > s.startLine
    ensures visited == LineRange(s.startLine, s.endLine)
    ensures |visited| == IntegerSpan(s)
    ensures forall i, j :: 0 <= i < j < |visited| ==> visited[i] < visited[j]
  {
    visited := [];
    var it := s.startLine;
    while it != s.endLine
      invariant s.startLine <= it <= s.endLine
      invariant visited == LineRange(s.startLine, it)
      decreases s.endLine - it
    {
      visited := visited + [it];
      it := it + 1;
    }
  }

  /** operator== of GridSpan. */
  predicate SpanEquals(a: GridSpan, b: GridSpan)
  {
    a.kind == b.kind && a.startLine == b.startLine && a.endLine == b.endLine
  }

  datatype GridArea = GridArea(columns: GridSpan, rows: GridSpan)

  /** The default constructor: indefinite in both directions. */
  function DefaultGridArea(): (a: GridArea)
    ensures a.columns.kind == Indefinite && a.rows.kind == Indefinite
    ensures a.columns == a.rows
  {
    GridArea(IndefiniteGridSpan(), IndefiniteGridSpan())
  }

  /** operator== of GridArea. */
  predicate AreaEquals(a: GridArea, b: GridArea)
  {
    SpanEquals(a.columns, b.columns) && SpanEquals(a.rows, b.rows)
  }

  /** operator!= of GridArea. */
  predicate AreaDiffers(a: GridArea, b: GridArea)
  {
    !AreaEquals(a, b)
  }

  /** Span and area equality are exactly equality of the values, and != is
      its negation. */
  lemma EqualityIsValueEquality(a: GridArea, b: GridArea, s: GridSpan, t: GridSpan)
    ensures SpanEquals(s, t) <==> s == t
    ensures AreaEquals(a, b) <==> a == b
    ensures AreaDiffers(a, b) <==> a != b
  {
  }
}
