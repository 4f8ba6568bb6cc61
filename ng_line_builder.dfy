/** The offset and break-opportunity bookkeeping of the LayoutNG line
    builder (ng_line_builder.cc). The builder walks the inline items of a
    paragraph, extends the current line item by item, remembers the last
    place it may break, and cuts the line there into chunks, one per item.
    ng_inline_node.h, ng_line_builder.h and the ICU bidi calls are not part
    of this model: the inline size of a range of text is the sum of
    per-character advances, and the visual order of the chunks is an input. */
module NgLineBuilder {
  import opened Common

  /** An inline item covers the text offsets [startOffset, endOffset). */
  datatype InlineItem = InlineItem(startOffset: nat, endOffset: nat, bidiLevel: nat)

  /** One item's share of a line. */
  datatype LineItemChunk = LineItemChunk(index: nat, startOffset: nat, endOffset: nat, inlineSize: int)

  /** What the layout-opportunity iterator yields: nothing, or an area whose
      inline size may be indefinite (None). */
  datatype LayoutOpportunity = EmptyOpportunity | Opportunity(inlineSize: Option<int>)

  /** Items are non-empty, lie within the text, follow each other without
      gaps, and none ends after the last one. */
  ghost predicate ItemsWellFormed(items: seq<InlineItem>, textLength: nat)
  {
    |items| > 0 &&
    (forall i :: 0 <= i < |items| ==> items[i].startOffset < items[i].endOffset <= textLength) &&
    (forall i, j :: 0 <= i < j < |items| && j == i + 1 ==> items[i].endOffset == items[j].startOffset) &&
    (forall i :: 0 <= i < |items| ==> items[i].endOffset <= items[|items| - 1].endOffset)
  }

  /** AssertOffset: the offset lies within (or at an end of) item i. */
  predicate InItem(items: seq<InlineItem>, i: nat, offset: nat)
  {
    i < |items| && items[i].startOffset <= offset <= items[i].endOffset
  }

  function Sum(s: seq<int>): int
  {
    if |s| == 0 then 0 else Sum(s[..|s| - 1]) + s[|s| - 1]
  }

  lemma {:induction false} SumConcat(a: seq<int>, b: seq<int>)
    ensures Sum(a + b) == Sum(a) + Sum(b)
    decreases |b|
  {
    if |b| > 0 {
      assert (a + b)[..|a + b| - 1] == a + b[..|b| - 1];
      assert (a + b)[|a + b| - 1] == b[|b| - 1];
      assert Sum(a + b) == Sum(a + b[..|b| - 1]) + b[|b| - 1];
      assert Sum(b) == Sum(b[..|b| - 1]) + b[|b| - 1];
      SumConcat(a, b[..|b| - 1]);
    } else {
      assert a + b == a;
    }
  }

  /** The inline size of the text between two offsets. */
  function Width(advances: seq<int>, from: nat, to: nat): int
    requires from <= to <= |advances|
  {
    Sum(advances[from..to])
  }

  /** Widths add up over adjacent ranges. */
  lemma WidthSplit(advances: seq<int>, i: nat, j: nat, k: nat)
    requires i <= j <= k <= |advances|
    ensures Width(advances, i, k) == Width(advances, i, j) + Width(advances, j, k)
  {
    assert advances[i..k] == advances[i..j] + advances[j..k];
    SumConcat(advances[i..j], advances[j..k]);
  }

  /** Where the chunk of item i ends: at the item's end or at the break,
      whichever comes first. */
  function ChunkEnd(items: seq<InlineItem>, i: nat, breakOffset: nat): nat
    requires i < |items|
  {
    Min(items[i].endOffset, breakOffset)
  }

  /** The first `count` chunks of the line that starts at (startIndex,
      startOffset) and ends at breakOffset: chunk k belongs to item
      startIndex + k, starts where the previous one ended (the first at the
      line start), ends at the item's end or at the break, whichever comes
      first, and measures the text it covers. */
  predicate ChunksShape(chunks: seq<LineItemChunk>, items: seq<InlineItem>, advances: seq<int>,
                        startIndex: nat, startOffset: nat, breakOffset: nat)
  {
    startIndex + |chunks| <= |items| &&
    forall k :: 0 <= k < |chunks| ==>
      chunks[k].index == startIndex + k &&
      chunks[k].startOffset == (if k == 0 then startOffset else ChunkEnd(items, startIndex + k - 1, breakOffset)) &&
      chunks[k].endOffset == ChunkEnd(items, startIndex + k, breakOffset) &&
      chunks[k].startOffset <= chunks[k].endOffset <= |advances| &&
      chunks[k].inlineSize == Width(advances, chunks[k].startOffset, chunks[k].endOffset)
  }

  lemma ChunksShapePrefix(chunks: seq<LineItemChunk>, items: seq<InlineItem>, advances: seq<int>,
                          startIndex: nat, startOffset: nat, breakOffset: nat, m: nat)
    requires ChunksShape(chunks, items, advances, startIndex, startOffset, breakOffset)
    requires m <= |chunks|
    ensures ChunksShape(chunks[..m], items, advances, startIndex, startOffset, breakOffset)
  {
    var p := chunks[..m];
    forall k | 0 <= k < |p|
      ensures p[k].index == startIndex + k
      ensures p[k].startOffset == (if k == 0 then startOffset else ChunkEnd(items, startIndex + k - 1, breakOffset))
      ensures p[k].endOffset == ChunkEnd(items, startIndex + k, breakOffset)
      ensures p[k].startOffset <= p[k].endOffset <= |advances|
      ensures p[k].inlineSize == Width(advances, p[k].startOffset, p[k].endOffset)
    {
      assert p[k] == chunks[k];
    }
  }

  function TotalInlineSize(chunks: seq<LineItemChunk>): int
  {
    if |chunks| == 0 then 0 else TotalInlineSize(chunks[..|chunks| - 1]) + chunks[|chunks| - 1].inlineSize
  }

  /** Chunks are contiguous: together they measure exactly the text from
      the line start to the end of the last chunk. */
  lemma {:induction false} ChunksCoverText(chunks: seq<LineItemChunk>, items: seq<InlineItem>, advances: seq<int>,
                                           startIndex: nat, startOffset: nat, breakOffset: nat)
    requires ChunksShape(chunks, items, advances, startIndex, startOffset, breakOffset)
    requires |chunks| > 0
    ensures startOffset <= chunks[|chunks| - 1].endOffset <= |advances|
    ensures TotalInlineSize(chunks) == Width(advances, startOffset, chunks[|chunks| - 1].endOffset)
    decreases |chunks|
  {
    var n := |chunks|;
    if n > 1 {
      var prefix := chunks[..n - 1];
      ChunksShapePrefix(chunks, items, advances, startIndex, startOffset, breakOffset, n - 1);
      ChunksCoverText(prefix, items, advances, startIndex, startOffset, breakOffset);
      assert chunks[n - 1].startOffset == chunks[n - 2].endOffset;
      WidthSplit(advances, startOffset, chunks[n - 2].endOffset, chunks[n - 1].endOffset);
    }
  }

  /** Applies a visual order: position v holds the chunk at logical index
      order[v]. */
  function Permute<T>(s: seq<T>, order: seq<nat>): (r: seq<T>)
    requires forall v :: 0 <= v < |order| ==> order[v] < |s|
    ensures |r| == |order|
  {
    if |order| == 0 then [] else Permute(s, order[..|order| - 1]) + [s[order[|order| - 1]]]
  }

  lemma {:induction false} PermuteAt<T>(s: seq<T>, order: seq<nat>)
    requires forall v :: 0 <= v < |order| ==> order[v] < |s|
    ensures forall v :: 0 <= v < |order| ==> Permute(s, order)[v] == s[order[v]]
    decreases |order|
  {
    if |order| > 0 {
      PermuteAt(s, order[..|order| - 1]);
    }
  }

  /** order lists each of 0 .. n-1 once. */
  predicate IsPermutation(order: seq<nat>, n: nat)
  {
    |order| == n &&
    (forall v :: 0 <= v < |order| ==> order[v] < n) &&
    (forall v, w :: 0 <= v < w < |order| ==> order[v] != order[w])
  }

  predicate Avoids(order: seq<nat>, x: nat)
  {
    forall v :: 0 <= v < |order| ==> order[v] != x
  }

  /** Index x taken out of the range: larger indices move down by one. */
  function Drop(order: seq<nat>, x: nat): (r: seq<nat>)
    requires Avoids(order, x)
    ensures |r| == |order|
    ensures forall v :: 0 <= v < |order| ==> r[v] == if order[v] < x then order[v] else order[v] - 1
  {
    if |order| == 0 then [] else Drop(order[..|order| - 1], x) + [var y := order[|order| - 1]; if y < x then y else y - 1]
  }

  /** Taking the last index x out of a permutation of 0 .. n-1 leaves, once
      the larger indices move down, a permutation of 0 .. n-2. */
  lemma DropIsPermutation(order: seq<nat>, n: nat)
    requires IsPermutation(order, n) && n > 0
    ensures Avoids(order[..n - 1], order[n - 1])
    ensures Avoids(order[..n - 1], order[n - 1]) && IsPermutation(Drop(order[..n - 1], order[n - 1]), n - 1)
  {
    var x := order[n - 1];
    var front := order[..n - 1];
    assert forall v :: 0 <= v < n - 1 ==> front[v] == order[v];
    var d := Drop(front, x);
    forall v, w | 0 <= v < w < |d|
      ensures d[v] != d[w]
    {
      assert front[v] != front[w];
    }
  }

  /** The list with the element at x taken out. */
  function Without<T>(s: seq<T>, x: nat): (r: seq<T>)
    requires x < |s|
    ensures |r| == |s| - 1
    ensures forall i :: 0 <= i < |r| ==> r[i] == if i < x then s[i] else s[i + 1]
  {
    s[..x] + s[x + 1..]
  }

  /** Permuting the list without element x by the dropped order picks the
      same elements as permuting the whole list by the original order. */
  lemma PermuteDropped<T>(s: seq<T>, front: seq<nat>, x: nat)
    requires x < |s|
    requires Avoids(front, x) && forall v :: 0 <= v < |front| ==> front[v] < |s|
    ensures (forall v :: 0 <= v < |front| ==> Drop(front, x)[v] < |s| - 1) &&
      Permute(Without(s, x), Drop(front, x)) == Permute(s, front)
  {
    var s' := Without(s, x);
    var d := Drop(front, x);
    forall v | 0 <= v < |front|
      ensures d[v] < |s'| && s'[d[v]] == s[front[v]]
    {
    }
    PermuteAt(s', d);
    PermuteAt(s, front);
  }

  lemma RemoveOneElement<T>(s: seq<T>, x: nat)
    requires x < |s|
    ensures multiset(s) == multiset(Without(s, x)) + multiset{s[x]}
  {
    assert s == s[..x] + [s[x]] + s[x + 1..];
  }

  /** Permute adds the element at the last position of the order. */
  lemma PermuteLast<T>(s: seq<T>, order: seq<nat>)
    requires 0 < |order| && forall v :: 0 <= v < |order| ==> order[v] < |s|
    ensures multiset(Permute(s, order)) == multiset(Permute(s, order[..|order| - 1])) + multiset{s[order[|order| - 1]]}
  {
    var p := Permute(s, order[..|order| - 1]);
    assert Permute(s, order) == p + [s[order[|order| - 1]]];
  }

  /** Taking out the element that the last position of a permutation
      picks leaves a shorter list, a shorter permutation of it, and the same
      elements on both sides but for that one. */
  lemma ShrinkPermutation<T>(s: seq<T>, order: seq<nat>) returns (s': seq<T>, d: seq<nat>, e: T)
    requires IsPermutation(order, |s|) && |order| > 0
    ensures IsPermutation(d, |s'|) && |d| < |order|
    ensures multiset(Permute(s, order)) == multiset(Permute(s', d)) + multiset{e}
    ensures multiset(s) == multiset(s') + multiset{e}
  {
    var n := |order|;
    var x := order[n - 1];
    var front := order[..n - 1];
    DropIsPermutation(order, n);
    d := Drop(front, x);
    s' := Without(s, x);
    e := s[x];
    PermuteDropped(s, front, x);
    PermuteLast(s, order);
    RemoveOneElement(s, x);
  }

  /** Reordering by a permutation keeps exactly the same elements. */
  lemma {:induction false} PermuteKeepsElements<T>(s: seq<T>, order: seq<nat>)
    requires IsPermutation(order, |s|)
    ensures multiset(Permute(s, order)) == multiset(s)
    decreases |order|
  {
    if |order| > 0 {
      var s', d, e := ShrinkPermutation(s, order);
      PermuteKeepsElements(s', d);
    }
  }

  /** The metrics of one font (or the block's strut) in a line. */
  datatype InlineItemMetrics = InlineItemMetrics(ascent: real, descent: real,
                                                 ascentAndLeading: real, descentAndLeading: real)

  /** InlineItemMetrics::Initialize: half the leading goes above the ascent,
      snapped down to a whole pixel; the rest of the line height goes below. */
  function MetricsFor(ascent: real, descent: real, lineHeight: real): (m: InlineItemMetrics)
    ensures m.ascent == ascent && m.descent == descent
    ensures m.ascentAndLeading + m.descentAndLeading == lineHeight
    ensures var halfLeading := (lineHeight - (ascent + descent)) / 2.0;
      m.ascentAndLeading <= ascent + halfLeading < m.ascentAndLeading + 1.0
    ensures (m.ascentAndLeading - ascent).Floor as real == m.ascentAndLeading - ascent
  {
    var halfLeading := (lineHeight - (ascent + descent)) / 2.0;
    var ascentAndLeading := ascent + halfLeading.Floor as real;
    InlineItemMetrics(ascent, descent, ascentAndLeading, lineHeight - ascentAndLeading)
  }

  function RealMax(a: real, b: real): (r: real)
    ensures r >= a && r >= b && (r == a || r == b)
  {
    if a < b then b else a
  }

  /** The running maxima of one line box. */
  class LineBoxData {
    var maxAscent: real
    var maxDescent: real
    var maxAscentAndLeading: real
    var maxDescentAndLeading: real

    constructor()
      ensures maxAscent == 0.0 && maxDescent == 0.0
      ensures maxAscentAndLeading == 0.0 && maxDescentAndLeading == 0.0
    {
      maxAscent := 0.0;
      maxDescent := 0.0;
      maxAscentAndLeading := 0.0;
      maxDescentAndLeading := 0.0;
    }

    /** Each maximum becomes the larger of itself and the item's metric: it
        never decreases and afterwards bounds the item. */
    method UpdateMaxAscentAndDescent(m: InlineItemMetrics)
      modifies this
      ensures maxAscent == RealMax(old(maxAscent), m.ascent)
      ensures maxDescent == RealMax(old(maxDescent), m.descent)
      ensures maxAscentAndLeading == RealMax(old(maxAscentAndLeading), m.ascentAndLeading)
      ensures maxDescentAndLeading == RealMax(old(maxDescentAndLeading), m.descentAndLeading)
      ensures old(maxAscent) <= maxAscent && old(maxDescent) <= maxDescent
      ensures old(maxAscentAndLeading) <= maxAscentAndLeading && old(maxDescentAndLeading) <= maxDescentAndLeading
      ensures m.ascent <= maxAscent && m.descent <= maxDescent
      ensures m.ascentAndLeading <= maxAscentAndLeading && m.descentAndLeading <= maxDescentAndLeading
    {
      maxAscent := RealMax(maxAscent, m.ascent);
      maxDescent := RealMax(maxDescent, m.descent);
      maxAscentAndLeading := RealMax(maxAscentAndLeading, m.ascentAndLeading);
      maxDescentAndLeading := RealMax(maxDescentAndLeading, m.descentAndLeading);
    }
  }

  class NGLineBuilder {
    const items: seq<InlineItem>
    /** The advance of each character of the paragraph's text. */
    const advances: seq<int>
    const bidiEnabled: bool

    var startIndex: nat
    var startOffset: nat
    var lastIndex: nat
    var endOffset: nat
    var endPosition: int
    var lastBreakOpportunityIndex: nat
    var lastBreakOpportunityOffset: nat
    var lastBreakOpportunityPosition: int
    /** The inline size of the current layout opportunity; None when
        indefinite. */
    var availableSize: Option<int>
    /** The chunk list of every line created so far, as handed to PlaceItems. */
    var lines: seq<seq<LineItemChunk>>

    /** Start, last break opportunity and end are ordered positions inside
        their items; at the break opportunity the end position is the one
        recorded with it. */
    ghost predicate Valid()
      reads this
    {
      ItemsWellFormed(items, |advances|) &&
      startIndex <= lastBreakOpportunityIndex <= lastIndex < |items| &&
      startOffset <= lastBreakOpportunityOffset <= endOffset &&
      InItem(items, startIndex, startOffset) &&
      InItem(items, lastBreakOpportunityIndex, lastBreakOpportunityOffset) &&
      InItem(items, lastIndex, endOffset) &&
      (lastBreakOpportunityOffset == endOffset ==>
        lastBreakOpportunityIndex == lastIndex && lastBreakOpportunityPosition == endPosition)
    }

    constructor(items: seq<InlineItem>, advances: seq<int>, bidiEnabled: bool, availableSize: Option<int>)
      requires ItemsWellFormed(items, |advances|)
      ensures this.items == items && this.advances == advances && this.bidiEnabled == bidiEnabled
      ensures this.availableSize == availableSize && lines == []
      ensures Valid() && startIndex == 0 && startOffset == items[0].startOffset && !HasItems()
    {
      this.items := items;
      this.advances := advances;
      this.bidiEnabled := bidiEnabled;
      this.availableSize := availableSize;
      lines := [];
      startIndex, lastIndex, lastBreakOpportunityIndex := 0, 0, 0;
      startOffset, endOffset, lastBreakOpportunityOffset := items[0].startOffset, items[0].startOffset, items[0].startOffset;
      endPosition, lastBreakOpportunityPosition := 0, 0;
    }

    /** CanFitOnLine: always with an indefinite available size, otherwise
        when the end position is within it. */
    predicate CanFitOnLine()
      reads this
    {
      availableSize.None? || endPosition <= availableSize.value
    }

    predicate HasItems()
      reads this
    {
      startOffset != endOffset
    }

    predicate HasBreakOpportunity()
      reads this
    {
      startOffset != lastBreakOpportunityOffset
    }

    predicate HasItemsAfterLastBreakOpportunity()
      reads this
    {
      lastBreakOpportunityOffset != endOffset
    }

    /** The line has items exactly when some lie before the last break
        opportunity or some follow it. */
    lemma ItemsAroundBreakOpportunity()
      requires Valid()
      ensures HasItems() <==> HasBreakOpportunity() || HasItemsAfterLastBreakOpportunity()
    {
    }

    /** FindNextLayoutOpportunity, with the iterator's answer as input: an
        empty opportunity keeps the current one. */
    method FindNextLayoutOpportunity(next: LayoutOpportunity)
      modifies this`availableSize
      ensures availableSize == if next.Opportunity? then next.inlineSize else old(availableSize)
    {
      if next.Opportunity? {
        availableSize := next.inlineSize;
      }
    }

    /** SetStart: start, end and break opportunity all move to the same
        index and offset with both positions 0, so the line is empty. */
    method SetStart(index: nat, offset: nat, next: LayoutOpportunity)
      requires Valid() && InItem(items, index, offset)
      modifies this
      ensures Valid()
      ensures startIndex == lastIndex == lastBreakOpportunityIndex == index
      ensures startOffset == endOffset == lastBreakOpportunityOffset == offset
      ensures endPosition == 0 && lastBreakOpportunityPosition == 0
      ensures !HasItems() && !HasBreakOpportunity() && !HasItemsAfterLastBreakOpportunity()
      ensures availableSize == if next.Opportunity? then next.inlineSize else old(availableSize)
      ensures CanFitOnLine() <==> availableSize.None? || 0 <= availableSize.value
      ensures lines == old(lines)
    {
      startIndex, lastIndex, lastBreakOpportunityIndex := index, index, index;
      startOffset, endOffset, lastBreakOpportunityOffset := offset, offset, offset;
      endPosition, lastBreakOpportunityPosition := 0, 0;
      FindNextLayoutOpportunity(next);
    }

    /** The new end must lie in the current item, or in the next one when
        the end is at the current item's end. */
    predicate EndWithinNextItem(newEndOffset: nat)
      reads this
      requires Valid()
    {
      if endOffset == items[lastIndex].endOffset then
        lastIndex + 1 < |items| && newEndOffset <= items[lastIndex + 1].endOffset
      else newEndOffset <= items[lastIndex].endOffset
    }

    /** The state that extending the end leaves alone: the start, the last
        break opportunity, the layout opportunity and the lines made so far. */
    function Kept(): (int, int, int, int, int, Option<int>, seq<seq<LineItemChunk>>)
      reads this
    {
      (startIndex, startOffset, lastBreakOpportunityIndex, lastBreakOpportunityOffset,
       lastBreakOpportunityPosition, availableSize, lines)
    }

    /** SetEnd with a measured inline size: the end offset advances to the
        new offset (stepping into the next item when the end was at the
        current item's end) and the size is added to the end position. */
    method SetEndWithInlineSize(newEndOffset: nat, inlineSizeSinceCurrentEnd: int)
      requires Valid()
      requires newEndOffset > endOffset && newEndOffset <= items[|items| - 1].endOffset
      requires EndWithinNextItem(newEndOffset)
      modifies this
      ensures Valid()
      ensures endOffset == newEndOffset
      ensures endPosition == old(endPosition) + inlineSizeSinceCurrentEnd
      ensures lastIndex == if old(endOffset) == items[old(lastIndex)].endOffset then old(lastIndex) + 1 else old(lastIndex)
      ensures Kept() == old(Kept())
    {
      if endOffset == items[lastIndex].endOffset {
        lastIndex := lastIndex + 1;
      }
      endPosition := endPosition + inlineSizeSinceCurrentEnd;
      endOffset := newEndOffset;
    }

    /** One step of SetEnd: the end moves to the end of item i, which is
        the current item or, when the end is at the current item's end, the
        next one. The end position keeps measuring the text from `origin`. */
    method SetEndToItemEnd(i: nat, ghost origin: nat, ghost originPosition: int)
      requires Valid() && i < |items|
      requires (i == lastIndex && endOffset < items[i].endOffset) ||
               (i == lastIndex + 1 && endOffset == items[lastIndex].endOffset)
      requires origin <= endOffset <= |advances|
      requires endPosition == originPosition + Width(advances, origin, endOffset)
      modifies this
      ensures Valid() && lastIndex == i && endOffset == items[i].endOffset
      ensures old(endOffset) <= endOffset <= |advances|
      ensures endPosition == originPosition + Width(advances, origin, endOffset)
      ensures Kept() == old(Kept())
    {
      ghost var before := endOffset;
      SetEndWithInlineSize(items[i].endOffset, Width(advances, endOffset, items[i].endOffset));
      WidthSplit(advances, origin, before, endOffset);
    }

    /** The loop of SetEnd: while the new end lies beyond the next item,
        the end moves to that item's end. Afterwards the new end lies in the
        next item. */
    method SetEndThroughItems(newEndOffset: nat, ghost origin: nat, ghost originPosition: int)
      requires Valid() && endOffset == items[lastIndex].endOffset < newEndOffset <= items[|items| - 1].endOffset
      requires origin <= endOffset <= |advances|
      requires endPosition == originPosition + Width(advances, origin, endOffset)
      modifies this
      ensures Valid() && lastIndex + 1 < |items|
      ensures endOffset == items[lastIndex].endOffset < newEndOffset <= items[lastIndex + 1].endOffset
      ensures origin <= endOffset <= |advances|
      ensures endPosition == originPosition + Width(advances, origin, endOffset)
      ensures Kept() == old(Kept())
    {
      while newEndOffset > items[lastIndex + 1].endOffset
        invariant Valid() && lastIndex + 1 < |items|
        invariant endOffset == items[lastIndex].endOffset < newEndOffset
        invariant origin <= endOffset <= |advances|
        invariant endPosition == originPosition + Width(advances, origin, endOffset)
        invariant Kept() == old(Kept())
        decreases |items| - lastIndex
      {
        SetEndToItemEnd(lastIndex + 1, origin, originPosition);
      }
    }

    /** SetEnd: extends the line to a later offset, item by item, adding the
        width of the text in between; the end then lies in the item that
        contains the new offset. */
    method SetEnd(newEndOffset: nat)
      requires Valid()
      requires newEndOffset > endOffset && newEndOffset <= items[|items| - 1].endOffset
      modifies this
      ensures Valid()
      ensures endOffset == newEndOffset
      ensures old(endOffset) <= newEndOffset <= |advances|
      ensures endPosition == old(endPosition) + Width(advances, old(endOffset), newEndOffset)
      ensures items[lastIndex].startOffset < newEndOffset <= items[lastIndex].endOffset
      ensures Kept() == old(Kept())
    {
      assert Width(advances, endOffset, endOffset) == 0;
      if newEndOffset > items[lastIndex].endOffset {
        if endOffset < items[lastIndex].endOffset {
          SetEndToItemEnd(lastIndex, old(endOffset), old(endPosition));
        }
        SetEndThroughItems(newEndOffset, old(endOffset), old(endPosition));
      }
      ghost var before := endOffset;
      SetEndWithInlineSize(newEndOffset, Width(advances, endOffset, newEndOffset));
      WidthSplit(advances, old(endOffset), before, newEndOffset);
    }

    /** SetBreakOpportunity: the break opportunity becomes the current end. */
    method SetBreakOpportunity()
      requires Valid()
      modifies this
      ensures Valid()
      ensures lastBreakOpportunityIndex == lastIndex && lastBreakOpportunityOffset == endOffset
      ensures lastBreakOpportunityPosition == endPosition
      ensures !HasItemsAfterLastBreakOpportunity()
      ensures startIndex == old(startIndex) && startOffset == old(startOffset)
      ensures lastIndex == old(lastIndex) && endOffset == old(endOffset) && endPosition == old(endPosition)
      ensures availableSize == old(availableSize) && lines == old(lines)
    {
      lastBreakOpportunityIndex := lastIndex;
      lastBreakOpportunityOffset := endOffset;
      lastBreakOpportunityPosition := endPosition;
    }

    /** The chunks of the line from the start to the last break opportunity. */
    method LineItemChunks() returns (chunks: seq<LineItemChunk>)
      requires Valid()
      ensures |chunks| == lastBreakOpportunityIndex - startIndex + 1
      ensures ChunksShape(chunks, items, advances, startIndex, startOffset, lastBreakOpportunityOffset)
      ensures chunks[|chunks| - 1].endOffset == lastBreakOpportunityOffset
    {
      chunks := [];
      var chunkStart := startOffset;
      var i := startIndex;
      while i <= lastBreakOpportunityIndex
        invariant startIndex <= i <= lastBreakOpportunityIndex + 1
        invariant |chunks| == i - startIndex
        invariant ChunksShape(chunks, items, advances, startIndex, startOffset, lastBreakOpportunityOffset)
        invariant chunkStart == if i == startIndex then startOffset else chunks[|chunks| - 1].endOffset
        invariant i <= lastBreakOpportunityIndex ==> chunkStart <= items[i].endOffset
        invariant chunkStart <= lastBreakOpportunityOffset
      {
        var chunkEnd := ChunkEnd(items, i, lastBreakOpportunityOffset);
        chunks := chunks + [LineItemChunk(i, chunkStart, chunkEnd, Width(advances, chunkStart, chunkEnd))];
        chunkStart := chunkEnd;
        i := i + 1;
      }
    }

    /** CreateLineUpToLastBreakOpportunity: the chunks up to the break (in
        visual order when bidi is on) make a line, the start moves to the
        break opportunity and the positions are shifted back by the break's
        position. */
    method CreateLineUpToLastBreakOpportunity(visualOrder: seq<nat>, next: LayoutOpportunity)
      requires Valid()
      requires endPosition >= lastBreakOpportunityPosition
      requires bidiEnabled ==> IsPermutation(visualOrder, lastBreakOpportunityIndex - startIndex + 1)
      modifies this`lines, this`startIndex, this`startOffset, this`endPosition, this`lastBreakOpportunityPosition,
               this`availableSize
      ensures Valid()
      ensures |lines| == |old(lines)| + 1 && lines[..|old(lines)|] == old(lines)
      ensures var line := lines[|lines| - 1];
        exists chunks ::
          |chunks| == old(lastBreakOpportunityIndex) - old(startIndex) + 1 &&
          ChunksShape(chunks, items, advances, old(startIndex), old(startOffset), old(lastBreakOpportunityOffset)) &&
          line == (if bidiEnabled then Permute(chunks, visualOrder) else chunks)
      ensures startIndex == old(lastBreakOpportunityIndex) && startOffset == old(lastBreakOpportunityOffset)
      ensures endPosition == old(endPosition) - old(lastBreakOpportunityPosition) && endPosition >= 0
      ensures lastBreakOpportunityPosition == 0
      ensures lastIndex == old(lastIndex) && endOffset == old(endOffset)
      ensures lastBreakOpportunityIndex == old(lastBreakOpportunityIndex)
      ensures lastBreakOpportunityOffset == old(lastBreakOpportunityOffset)
      ensures !HasBreakOpportunity()
      ensures availableSize == if next.Opportunity? then next.inlineSize else old(availableSize)
    {
      var chunks := LineItemChunks();
      var line := chunks;
      if bidiEnabled {
        line := BidiReorder(chunks, visualOrder);
      }
      lines := lines + [line];
      assert ChunksShape(chunks, items, advances, old(startIndex), old(startOffset), old(lastBreakOpportunityOffset));
      startIndex := lastBreakOpportunityIndex;
      startOffset := lastBreakOpportunityOffset;
      endPosition := endPosition - lastBreakOpportunityPosition;
      lastBreakOpportunityPosition := 0;
      FindNextLayoutOpportunity(next);
    }

    /** CreateLine: breaks after everything added so far (setting a break
        opportunity at the end if the last one is earlier), so afterwards the
        start, the break opportunity and the end coincide: no items remain. */
    method CreateLine(visualOrder: seq<nat>, next: LayoutOpportunity)
      requires Valid()
      requires bidiEnabled ==> IsPermutation(visualOrder, lastIndex - startIndex + 1)
      modifies this
      ensures Valid()
      ensures |lines| == |old(lines)| + 1 && lines[..|old(lines)|] == old(lines)
      ensures var line := lines[|lines| - 1];
        exists chunks ::
          |chunks| == old(lastIndex) - old(startIndex) + 1 &&
          ChunksShape(chunks, items, advances, old(startIndex), old(startOffset), old(endOffset)) &&
          line == (if bidiEnabled then Permute(chunks, visualOrder) else chunks)
      ensures startIndex == lastIndex == old(lastIndex) && startOffset == endOffset == old(endOffset)
      ensures lastBreakOpportunityOffset == endOffset && endPosition == 0 && lastBreakOpportunityPosition == 0
      ensures !HasItems() && !HasBreakOpportunity() && !HasItemsAfterLastBreakOpportunity()
      ensures availableSize == if next.Opportunity? then next.inlineSize else old(availableSize)
    {
      if HasItemsAfterLastBreakOpportunity() {
        SetBreakOpportunity();
      }
      CreateLineUpToLastBreakOpportunity(visualOrder, next);
    }
  }

  /** BidiReorder: the chunk at visual position v is the chunk at logical
      index visualOrder[v], so the line keeps the same chunks. */
  method BidiReorder(chunks: seq<LineItemChunk>, visualOrder: seq<nat>) returns (reordered: seq<LineItemChunk>)
    requires IsPermutation(visualOrder, |chunks|)
    ensures reordered == Permute(chunks, visualOrder)
    ensures |reordered| == |chunks| && multiset(reordered) == multiset(chunks)
  {
    reordered := [];
    var v := 0;
    while v < |visualOrder|
      invariant 0 <= v <= |visualOrder|
      invariant reordered == Permute(chunks, visualOrder[..v])
    {
      assert visualOrder[..v + 1][..v] == visualOrder[..v];
      reordered := reordered + [chunks[visualOrder[v]]];
      v := v + 1;
    }
    assert visualOrder[..v] == visualOrder;
    PermuteKeepsElements(chunks, visualOrder);
  }
}
