/** Document markers (DocumentMarker.h): the kinds of marked text ranges —
    misspellings, grammar errors, find-in-page matches and IME composition —
    each one bit of a 32-bit MarkerTypes mask, and the marker itself, a typed
    range of offsets within a node. */
module DocumentMarkers {
  import opened Common

  datatype MarkerType = Spelling | Grammar | TextMatch | Composition

  /** MarkerTypeIndexesCount. */
  const MarkerTypeIndexesCount: nat := 4

  /** MarkerTypeIndex: the bit position of each type. */
  function Index(t: MarkerType): (r: nat)
    ensures r < MarkerTypeIndexesCount
  {
    match t
    case Spelling => 0
    case Grammar => 1
    case TextMatch => 2
    case Composition => 3
  }

  /** MarkerType's value: `1 << index`, a single bit. */
  function Bit(t: MarkerType): (b: bv32)
    ensures b != 0 && b & (b - 1) == 0
  {
    1 << Index(t)
  }

  /** Distinct types own distinct bits. */
  lemma BitsDisjoint(a: MarkerType, b: MarkerType)
    ensures a != b <==> Bit(a) & Bit(b) == 0
  {
  }

  const AllTypes: set<MarkerType> := {Spelling, Grammar, TextMatch, Composition}

  /** The marker types whose bits a mask has set. */
  function Types(mask: bv32): (r: set<MarkerType>)
    ensures forall t :: t in r <==> mask & Bit(t) != 0
  {
    set t | t in AllTypes && mask & Bit(t) != 0
  }

  /** The predefined sets. */
  const AllMarkersMask: bv32 := Bit(Spelling) | Bit(Grammar) | Bit(TextMatch) | Bit(Composition)
  const MisspellingMarkersMask: bv32 := Bit(Spelling) | Bit(Grammar)
  const SpellCheckClientMarkersMask: bv32 := Bit(Spelling) | Bit(Grammar)

  /** AllMarkers holds every type; MisspellingMarkers and
      SpellCheckClientMarkers hold exactly spelling and grammar. */
  lemma PredefinedSets()
    ensures Types(AllMarkersMask) == AllTypes
    ensures Types(MisspellingMarkersMask) == {Spelling, Grammar}
    ensures Types(SpellCheckClientMarkersMask) == {Spelling, Grammar}
  {
    assert Types(MisspellingMarkersMask) == {Spelling, Grammar} by {
      assert Bit(TextMatch) == 4 && Bit(Composition) == 8;
    }
  }

  /** `add` (bit-wise or) is the union of the type sets. */
  lemma AddIsUnion(mask: bv32, other: bv32)
    ensures Types(mask | other) == Types(mask) + Types(other)
  {
    forall t ensures (mask | other) & Bit(t) != 0 <==> mask & Bit(t) != 0 || other & Bit(t) != 0 {
      assert (mask | other) & Bit(t) == (mask & Bit(t)) | (other & Bit(t));
    }
  }

  /** `remove` (and-not) is the difference of the type sets. */
  lemma RemoveIsDifference(mask: bv32, other: bv32)
    ensures Types(mask & !other) == Types(mask) - Types(other)
  {
    forall t ensures (mask & !other) & Bit(t) != 0 <==> mask & Bit(t) != 0 && other & Bit(t) == 0 {
      var b := Bit(t);
      assert b & (b - 1) == 0;
    }
  }

  /** Removing what was just added clears exactly those bits. */
  lemma RemoveUndoesAdd(mask: bv32, other: bv32)
    ensures (mask | other) & !other == mask & !other
    ensures mask & other == 0 ==> (mask | other) & !other == mask
  {
  }

  /** For masks made of marker bits only, `intersects` says the sets share a type. */
  lemma IntersectsIffSharedType(mask: bv32, other: bv32)
    requires mask & !AllMarkersMask == 0 && other & !AllMarkersMask == 0
    ensures mask & other != 0 <==> Types(mask) * Types(other) != {}
  {
    if mask & other != 0 {
      var both := mask & other;
      assert both & AllMarkersMask != 0;
      if both & Bit(Spelling) != 0 {
        assert Spelling in Types(mask) * Types(other);
      } else if both & Bit(Grammar) != 0 {
        assert Grammar in Types(mask) * Types(other);
      } else if both & Bit(TextMatch) != 0 {
        assert TextMatch in Types(mask) * Types(other);
      } else {
        assert Composition in Types(mask) * Types(other);
      }
    } else {
      forall t ensures t !in Types(mask) * Types(other) {
        var b := Bit(t);
        assert (mask & other) & b == (mask & b) & (other & b);
        assert b & (b - 1) == 0;
      }
    }
  }

  /** DocumentMarker::MarkerTypes: a mask of marker types, updated in place. */
  class MarkerTypes {
    var mask: bv32

    constructor(mask: bv32)
      ensures this.mask == mask
    {
      this.mask := mask;
    }

    /** contains: the type's bit is set. */
    predicate Contains(t: MarkerType)
      reads this
    {
      mask & Bit(t) != 0
    }

    /** intersects: the two masks share a bit. */
    predicate Intersects(types: MarkerTypes)
      reads this, types
    {
      mask & types.mask != 0
    }

    /** add: every type of `types` joins this set. */
    method Add(types: MarkerTypes)
      modifies this
      ensures mask == old(mask) | old(types.mask)
      ensures Types(mask) == Types(old(mask)) + Types(old(types.mask))
    {
      ghost var before, added := mask, types.mask;
      mask := mask | types.mask;
      AddIsUnion(before, added);
    }

    /** remove: every type of `types` leaves this set. */
    method Remove(types: MarkerTypes)
      modifies this
      ensures mask == old(mask) & !old(types.mask)
      ensures Types(mask) == Types(old(mask)) - Types(old(types.mask))
    {
      ghost var before, removed := mask, types.mask;
      mask := mask & !types.mask;
      RemoveIsDifference(before, removed);
    }
  }

  /** A marker: its type, its offsets and the identity of its optional details. */
  class DocumentMarker {
    var markerType: MarkerType
    var startOffset: nat
    var endOffset: nat
    var details: Option<nat>

    constructor(markerType: MarkerType, startOffset: nat, endOffset: nat, details: Option<nat>)
      ensures this.markerType == markerType && this.startOffset == startOffset
      ensures this.endOffset == endOffset && this.details == details
    {
      this.markerType := markerType;
      this.startOffset := startOffset;
      this.endOffset := endOffset;
      this.details := details;
    }

    method SetStartOffset(offset: nat)
      modifies this`startOffset
      ensures startOffset == offset
    {
      startOffset := offset;
    }

    method SetEndOffset(offset: nat)
      modifies this`endOffset
      ensures endOffset == offset
    {
      endOffset := offset;
    }

    /** clearDetails. */
    method ClearDetails()
      modifies this`details
      ensures details == None
    {
      details := None;
    }

    /** operator==: type and offsets; the details do not take part. */
    predicate Equals(o: DocumentMarker)
      reads this, o
    {
      markerType == o.markerType && startOffset == o.startOffset && endOffset == o.endOffset
    }

    /** operator!=. */
    predicate NotEquals(o: DocumentMarker)
      reads this, o
    {
      !Equals(o)
    }
  }

  /** Marker equality is an equivalence over type and offsets, and `!=` is
      its negation. */
  lemma MarkerEqualityLaws(a: DocumentMarker, b: DocumentMarker, c: DocumentMarker)
    ensures a.Equals(a)
    ensures a.Equals(b) ==> b.Equals(a)
    ensures a.Equals(b) && b.Equals(c) ==> a.Equals(c)
    ensures a.NotEquals(b) <==> !a.Equals(b)
    ensures a.Equals(b) <==> (a.markerType, a.startOffset, a.endOffset) == (b.markerType, b.startOffset, b.endOffset)
  {
  }

  /** Dropping a marker's details never changes an equality verdict. */
  method ClearDetailsKeepsEquality(a: DocumentMarker, b: DocumentMarker)
    modifies a
    ensures a.Equals(b) <==> old(a.Equals(b))
  {
    a.ClearDetails();
  }
}
