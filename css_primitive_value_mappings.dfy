/** The mappings between CSS identifier keywords and the style enums they
    stand for (CSSPrimitiveValueMappings.h): for each enum, the keyword a
    value serialises to (the CSSIdentifierValue constructor) and the value a
    keyword converts to (convertTo), with the fallback each conversion
    returns for a keyword it does not know. A selection of the tables is
    modelled; the numeric conversions and LineClampValue are at the end. */
module CssMappings {
  import opened Common

  /** The CSS keywords that the modelled tables use. */
  datatype CSSValueID =
      CSSValueAbove
    | CSSValueBelow
    | CSSValueLeft
    | CSSValueRight
    | CSSValueAuto
    | CSSValueBalance
    | CSSValueBorderBox
    | CSSValuePaddingBox
    | CSSValueContentBox
    | CSSValueText
    | CSSValueBorder
    | CSSValuePadding
    | CSSValueContent
    | CSSValueRepeat
    | CSSValueNoRepeat
    | CSSValueRound
    | CSSValueSpace
    | CSSValueHorizontal
    | CSSValueVertical
    | CSSValueInlineAxis
    | CSSValueBlockAxis
    | CSSValueCrosshair
    | CSSValueDefault
    | CSSValuePointer
    | CSSValueMove
    | CSSValueCell
    | CSSValueVerticalText
    | CSSValueContextMenu
    | CSSValueAlias
    | CSSValueCopy
    | CSSValueNone
    | CSSValueProgress
    | CSSValueNoDrop
    | CSSValueNotAllowed
    | CSSValueZoomIn
    | CSSValueZoomOut
    | CSSValueEResize
    | CSSValueNeResize
    | CSSValueNwResize
    | CSSValueNResize
    | CSSValueSeResize
    | CSSValueSwResize
    | CSSValueSResize
    | CSSValueWResize
    | CSSValueEwResize
    | CSSValueNsResize
    | CSSValueNeswResize
    | CSSValueNwseResize
    | CSSValueColResize
    | CSSValueRowResize
    | CSSValueWait
    | CSSValueHelp
    | CSSValueAllScroll
    | CSSValueWebkitGrab
    | CSSValueWebkitGrabbing
    | CSSValueWebkitZoomIn
    | CSSValueWebkitZoomOut
    | CSSValueInline
    | CSSValueBlock
    | CSSValueListItem
    | CSSValueInlineBlock
    | CSSValueTable
    | CSSValueInlineTable
    | CSSValueTableRowGroup
    | CSSValueTableHeaderGroup
    | CSSValueTableFooterGroup
    | CSSValueTableRow
    | CSSValueTableColumnGroup
    | CSSValueTableColumn
    | CSSValueTableCell
    | CSSValueTableCaption
    | CSSValueWebkitBox
    | CSSValueWebkitInlineBox
    | CSSValueFlex
    | CSSValueInlineFlex
    | CSSValueGrid
    | CSSValueInlineGrid
    | CSSValueContents
    | CSSValueFlowRoot
    | CSSValueWebkitFlex
    | CSSValueWebkitInlineFlex
    | CSSValueStatic
    | CSSValueRelative
    | CSSValueAbsolute
    | CSSValueFixed
    | CSSValueSticky
    | CSSValueBoth
    | CSSValueAll
    | CSSValueNormal
    | CSSValueMultiply
    | CSSValueScreen
    | CSSValueOverlay
    | CSSValueDarken
    | CSSValueLighten
    | CSSValueColorDodge
    | CSSValueColorBurn
    | CSSValueHardLight
    | CSSValueSoftLight
    | CSSValueDifference
    | CSSValueExclusion
    | CSSValueHue
    | CSSValueSaturation
    | CSSValueColor
    | CSSValueLuminosity
    | CSSValueButt
    | CSSValueSquare
    | CSSValueMiter
    | CSSValueBevel
    | CSSValueNonzero
    | CSSValueEvenodd
    | CSSValueStretch
    | CSSValueBaseline
    | CSSValueLastBaseline
    | CSSValueCenter
    | CSSValueStart
    | CSSValueEnd
    | CSSValueSelfStart
    | CSSValueSelfEnd
    | CSSValueFlexStart
    | CSSValueFlexEnd
    | CSSValueFirstBaseline
    | CSSValueSpaceBetween
    | CSSValueSpaceAround
    | CSSValueSpaceEvenly
    | CSSValueUnsafe
    | CSSValueSafe

  /** CSSReflectionDirection: -webkit-box-reflect directions. */
  datatype CSSReflectionDirection =
    | ReflectionAbove
    | ReflectionBelow
    | ReflectionLeft
    | ReflectionRight

  /** CSSIdentifierValue(CSSReflectionDirection): the keyword a value serialises to. */
  function CSSReflectionDirectionKeyword(e: CSSReflectionDirection): CSSValueID
  {
    match e
    case ReflectionAbove => CSSValueAbove
    case ReflectionBelow => CSSValueBelow
    case ReflectionLeft => CSSValueLeft
    case ReflectionRight => CSSValueRight
  }

  /** convertTo<CSSReflectionDirection>: the value a keyword stands for, ReflectionBelow for any
      other keyword. */
  function CSSReflectionDirectionFromKeyword(id: CSSValueID): CSSReflectionDirection
  {
    match id
    case CSSValueAbove => ReflectionAbove
    case CSSValueBelow => ReflectionBelow
    case CSSValueLeft => ReflectionLeft
    case CSSValueRight => ReflectionRight
    case _ => ReflectionBelow
  }

  /** Serialising then converting gives the value back. */
  lemma CSSReflectionDirectionRoundTrip(e: CSSReflectionDirection)
    ensures CSSReflectionDirectionFromKeyword(CSSReflectionDirectionKeyword(e)) == e
  {
  }

  /** The keywords convertTo<CSSReflectionDirection> recognises. */
  const CSSReflectionDirectionParsedKeywords: set<CSSValueID> :=
    {CSSValueAbove, CSSValueBelow, CSSValueLeft, CSSValueRight}

  lemma CSSReflectionDirectionFallback(id: CSSValueID)
    requires id !in CSSReflectionDirectionParsedKeywords
    ensures CSSReflectionDirectionFromKeyword(id) == ReflectionBelow
  {
  }

  /** Converting a keyword the table writes gives a value that serialises to it. */
  lemma CSSReflectionDirectionKeywordRoundTrip(id: CSSValueID)
    requires exists x :: CSSReflectionDirectionKeyword(x) == id
    ensures CSSReflectionDirectionKeyword(CSSReflectionDirectionFromKeyword(id)) == id
  {
    var x :| CSSReflectionDirectionKeyword(x) == id;
    CSSReflectionDirectionRoundTrip(x);
  }

  /** Serialising then converting gives the value back; a keyword the table writes converts to a
      value that serialises to that keyword; every other keyword converts to ReflectionBelow. */
  lemma {:induction false} CSSReflectionDirectionMapping(e: CSSReflectionDirection, id: CSSValueID)
    ensures CSSReflectionDirectionFromKeyword(CSSReflectionDirectionKeyword(e)) == e
    ensures (exists x :: CSSReflectionDirectionKeyword(x) == id) ==> CSSReflectionDirectionKeyword(CSSReflectionDirectionFromKeyword(id)) == id
    ensures id !in CSSReflectionDirectionParsedKeywords ==> CSSReflectionDirectionFromKeyword(id) == ReflectionBelow
  {
    if id !in CSSReflectionDirectionParsedKeywords {
      CSSReflectionDirectionFallback(id);
    }
    CSSReflectionDirectionRoundTrip(e);
    if exists x :: CSSReflectionDirectionKeyword(x) == id {
      CSSReflectionDirectionKeywordRoundTrip(id);
    }
  }

  /** ColumnFill: column-fill. */
  datatype ColumnFill = ColumnFillAuto | ColumnFillBalance

  /** CSSIdentifierValue(ColumnFill): the keyword a value serialises to. */
  function ColumnFillKeyword(e: ColumnFill): CSSValueID
  {
    match e
    case ColumnFillAuto => CSSValueAuto
    case ColumnFillBalance => CSSValueBalance
  }

  /** convertTo<ColumnFill>: the value a keyword stands for, ColumnFillBalance for any other
      keyword. */
  function ColumnFillFromKeyword(id: CSSValueID): ColumnFill
  {
    match id
    case CSSValueBalance => ColumnFillBalance
    case CSSValueAuto => ColumnFillAuto
    case _ => ColumnFillBalance
  }

  /** Serialising then converting gives the value back. */
  lemma ColumnFillRoundTrip(e: ColumnFill)
    ensures ColumnFillFromKeyword(ColumnFillKeyword(e)) == e
  {
  }

  /** The keywords convertTo<ColumnFill> recognises. */
  const ColumnFillParsedKeywords: set<CSSValueID> :=
    {CSSValueBalance, CSSValueAuto}

  lemma ColumnFillFallback(id: CSSValueID)
    requires id !in ColumnFillParsedKeywords
    ensures ColumnFillFromKeyword(id) == ColumnFillBalance
  {
  }

  /** Converting a keyword the table writes gives a value that serialises to it. */
  lemma ColumnFillKeywordRoundTrip(id: CSSValueID)
    requires exists x :: ColumnFillKeyword(x) == id
    ensures ColumnFillKeyword(ColumnFillFromKeyword(id)) == id
  {
    var x :| ColumnFillKeyword(x) == id;
    ColumnFillRoundTrip(x);
  }

  /** Serialising then converting gives the value back; a keyword the table writes converts to a
      value that serialises to that keyword; every other keyword converts to ColumnFillBalance. */
  lemma {:induction false} ColumnFillMapping(e: ColumnFill, id: CSSValueID)
    ensures ColumnFillFromKeyword(ColumnFillKeyword(e)) == e
    ensures (exists x :: ColumnFillKeyword(x) == id) ==> ColumnFillKeyword(ColumnFillFromKeyword(id)) == id
    ensures id !in ColumnFillParsedKeywords ==> ColumnFillFromKeyword(id) == ColumnFillBalance
  {
    if id !in ColumnFillParsedKeywords {
      ColumnFillFallback(id);
    }
    ColumnFillRoundTrip(e);
    if exists x :: ColumnFillKeyword(x) == id {
      ColumnFillKeywordRoundTrip(id);
    }
  }

  /** EFillBox: background-clip / background-origin boxes; the bare box names are accepted as
      aliases of the -box keywords. */
  datatype EFillBox = BorderFillBox | PaddingFillBox | ContentFillBox | TextFillBox

  /** CSSIdentifierValue(EFillBox): the keyword a value serialises to. */
  function EFillBoxKeyword(e: EFillBox): CSSValueID
  {
    match e
    case BorderFillBox => CSSValueBorderBox
    case PaddingFillBox => CSSValuePaddingBox
    case ContentFillBox => CSSValueContentBox
    case TextFillBox => CSSValueText
  }

  /** convertTo<EFillBox>: the value a keyword stands for, BorderFillBox for any other keyword. */
  function EFillBoxFromKeyword(id: CSSValueID): EFillBox
  {
    match id
    case CSSValueBorder => BorderFillBox
    case CSSValueBorderBox => BorderFillBox
    case CSSValuePadding => PaddingFillBox
    case CSSValuePaddingBox => PaddingFillBox
    case CSSValueContent => ContentFillBox
    case CSSValueContentBox => ContentFillBox
    case CSSValueText => TextFillBox
    case _ => BorderFillBox
  }

  /** Serialising then converting gives the value back. */
  lemma EFillBoxRoundTrip(e: EFillBox)
    ensures EFillBoxFromKeyword(EFillBoxKeyword(e)) == e
  {
  }

  /** The keywords convertTo<EFillBox> recognises. */
  const EFillBoxParsedKeywords: set<CSSValueID> :=
    {CSSValueBorder, CSSValueBorderBox, CSSValuePadding, CSSValuePaddingBox, CSSValueContent,
     CSSValueContentBox, CSSValueText}

  lemma EFillBoxFallback(id: CSSValueID)
    requires id !in EFillBoxParsedKeywords
    ensures EFillBoxFromKeyword(id) == BorderFillBox
  {
  }

  /** Converting a keyword the table writes gives a value that serialises to it. */
  lemma EFillBoxKeywordRoundTrip(id: CSSValueID)
    requires exists x :: EFillBoxKeyword(x) == id
    ensures EFillBoxKeyword(EFillBoxFromKeyword(id)) == id
  {
    var x :| EFillBoxKeyword(x) == id;
    EFillBoxRoundTrip(x);
  }

  /** The alias keywords convert to the value whose canonical keyword is given. */
  lemma EFillBoxAliases()
    ensures EFillBoxFromKeyword(CSSValueBorder) == BorderFillBox && EFillBoxKeyword(BorderFillBox) == CSSValueBorderBox
    ensures EFillBoxFromKeyword(CSSValuePadding) == PaddingFillBox && EFillBoxKeyword(PaddingFillBox) == CSSValuePaddingBox
    ensures EFillBoxFromKeyword(CSSValueContent) == ContentFillBox && EFillBoxKeyword(ContentFillBox) == CSSValueContentBox
  {
  }

  /** Serialising then converting gives the value back; a keyword the table writes converts to a
      value that serialises to that keyword; each alias keyword converts to a value whose canonical
      keyword is given; every other keyword converts to BorderFillBox. */
  lemma {:induction false} EFillBoxMapping(e: EFillBox, id: CSSValueID)
    ensures EFillBoxFromKeyword(EFillBoxKeyword(e)) == e
    ensures (exists x :: EFillBoxKeyword(x) == id) ==> EFillBoxKeyword(EFillBoxFromKeyword(id)) == id
    ensures EFillBoxFromKeyword(CSSValueBorder) == BorderFillBox && EFillBoxKeyword(BorderFillBox) == CSSValueBorderBox
    ensures EFillBoxFromKeyword(CSSValuePadding) == PaddingFillBox && EFillBoxKeyword(PaddingFillBox) == CSSValuePaddingBox
    ensures EFillBoxFromKeyword(CSSValueContent) == ContentFillBox && EFillBoxKeyword(ContentFillBox) == CSSValueContentBox
    ensures id !in EFillBoxParsedKeywords ==> EFillBoxFromKeyword(id) == BorderFillBox
  {
    EFillBoxAliases();
    if id !in EFillBoxParsedKeywords {
      EFillBoxFallback(id);
    }
    EFillBoxRoundTrip(e);
    if exists x :: EFillBoxKeyword(x) == id {
      EFillBoxKeywordRoundTrip(id);
    }
  }

  /** EFillRepeat: background-repeat. */
  datatype EFillRepeat = RepeatFill | NoRepeatFill | RoundFill | SpaceFill

  /** CSSIdentifierValue(EFillRepeat): the keyword a value serialises to. */
  function EFillRepeatKeyword(e: EFillRepeat): CSSValueID
  {
    match e
    case RepeatFill => CSSValueRepeat
    case NoRepeatFill => CSSValueNoRepeat
    case RoundFill => CSSValueRound
    case SpaceFill => CSSValueSpace
  }

  /** convertTo<EFillRepeat>: the value a keyword stands for, RepeatFill for any other keyword. */
  function EFillRepeatFromKeyword(id: CSSValueID): EFillRepeat
  {
    match id
    case CSSValueRepeat => RepeatFill
    case CSSValueNoRepeat => NoRepeatFill
    case CSSValueRound => RoundFill
    case CSSValueSpace => SpaceFill
    case _ => RepeatFill
  }

  /** Serialising then converting gives the value back. */
  lemma EFillRepeatRoundTrip(e: EFillRepeat)
    ensures EFillRepeatFromKeyword(EFillRepeatKeyword(e)) == e
  {
  }

  /** The keywords convertTo<EFillRepeat> recognises. */
  const EFillRepeatParsedKeywords: set<CSSValueID> :=
    {CSSValueRepeat, CSSValueNoRepeat, CSSValueRound, CSSValueSpace}

  lemma EFillRepeatFallback(id: CSSValueID)
    requires id !in EFillRepeatParsedKeywords
    ensures EFillRepeatFromKeyword(id) == RepeatFill
  {
  }

  /** Converting a keyword the table writes gives a value that serialises to it. */
  lemma EFillRepeatKeywordRoundTrip(id: CSSValueID)
    requires exists x :: EFillRepeatKeyword(x) == id
    ensures EFillRepeatKeyword(EFillRepeatFromKeyword(id)) == id
  {
    var x :| EFillRepeatKeyword(x) == id;
    EFillRepeatRoundTrip(x);
  }

  /** Serialising then converting gives the value back; a keyword the table writes converts to a
      value that serialises to that keyword; every other keyword converts to RepeatFill. */
  lemma {:induction false} EFillRepeatMapping(e: EFillRepeat, id: CSSValueID)
    ensures EFillRepeatFromKeyword(EFillRepeatKeyword(e)) == e
    ensures (exists x :: EFillRepeatKeyword(x) == id) ==> EFillRepeatKeyword(EFillRepeatFromKeyword(id)) == id
    ensures id !in EFillRepeatParsedKeywords ==> EFillRepeatFromKeyword(id) == RepeatFill
  {
    if id !in EFillRepeatParsedKeywords {
      EFillRepeatFallback(id);
    }
    EFillRepeatRoundTrip(e);
    if exists x :: EFillRepeatKeyword(x) == id {
      EFillRepeatKeywordRoundTrip(id);
    }
  }

  /** EBoxOrient: -webkit-box-orient; inline-axis and block-axis are aliases. */
  datatype EBoxOrient = Horizontal | Vertical

  /** CSSIdentifierValue(EBoxOrient): the keyword a value serialises to. */
  function EBoxOrientKeyword(e: EBoxOrient): CSSValueID
  {
    match e
    case Horizontal => CSSValueHorizontal
    case Vertical => CSSValueVertical
  }

  /** convertTo<EBoxOrient>: the value a keyword stands for, Horizontal for any other keyword. */
  function EBoxOrientFromKeyword(id: CSSValueID): EBoxOrient
  {
    match id
    case CSSValueHorizontal => Horizontal
    case CSSValueInlineAxis => Horizontal
    case CSSValueVertical => Vertical
    case CSSValueBlockAxis => Vertical
    case _ => Horizontal
  }

  /** Serialising then converting gives the value back. */
  lemma EBoxOrientRoundTrip(e: EBoxOrient)
    ensures EBoxOrientFromKeyword(EBoxOrientKeyword(e)) == e
  {
  }

  /** The keywords convertTo<EBoxOrient> recognises. */
  const EBoxOrientParsedKeywords: set<CSSValueID> :=
    {CSSValueHorizontal, CSSValueInlineAxis, CSSValueVertical, CSSValueBlockAxis}

  lemma EBoxOrientFallback(id: CSSValueID)
    requires id !in EBoxOrientParsedKeywords
    ensures EBoxOrientFromKeyword(id) == Horizontal
  {
  }

  /** Converting a keyword the table writes gives a value that serialises to it. */
  lemma EBoxOrientKeywordRoundTrip(id: CSSValueID)
    requires exists x :: EBoxOrientKeyword(x) == id
    ensures EBoxOrientKeyword(EBoxOrientFromKeyword(id)) == id
  {
    var x :| EBoxOrientKeyword(x) == id;
    EBoxOrientRoundTrip(x);
  }

  /** The alias keywords convert to the value whose canonical keyword is given. */
  lemma EBoxOrientAliases()
    ensures EBoxOrientFromKeyword(CSSValueInlineAxis) == Horizontal && EBoxOrientKeyword(Horizontal) == CSSValueHorizontal
    ensures EBoxOrientFromKeyword(CSSValueBlockAxis) == Vertical && EBoxOrientKeyword(Vertical) == CSSValueVertical
  {
  }

  /** Serialising then converting gives the value back; a keyword the table writes converts to a
      value that serialises to that keyword; each alias keyword converts to a value whose canonical
      keyword is given; every other keyword converts to Horizontal. */
  lemma {:induction false} EBoxOrientMapping(e: EBoxOrient, id: CSSValueID)
    ensures EBoxOrientFromKeyword(EBoxOrientKeyword(e)) == e
    ensures (exists x :: EBoxOrientKeyword(x) == id) ==> EBoxOrientKeyword(EBoxOrientFromKeyword(id)) == id
    ensures EBoxOrientFromKeyword(CSSValueInlineAxis) == Horizontal && EBoxOrientKeyword(Horizontal) == CSSValueHorizontal
    ensures EBoxOrientFromKeyword(CSSValueBlockAxis) == Vertical && EBoxOrientKeyword(Vertical) == CSSValueVertical
    ensures id !in EBoxOrientParsedKeywords ==> EBoxOrientFromKeyword(id) == Horizontal
  {
    EBoxOrientAliases();
    if id !in EBoxOrientParsedKeywords {
      EBoxOrientFallback(id);
    }
    EBoxOrientRoundTrip(e);
    if exists x :: EBoxOrientKeyword(x) == id {
      EBoxOrientKeywordRoundTrip(id);
    }
  }

  /** ECursor: cursor; the -webkit-zoom-in and -webkit-zoom-out keywords are aliases. */
  datatype ECursor =
    | CursorAuto
    | CursorCrosshair
    | CursorDefault
    | CursorPointer
    | CursorMove
    | CursorCell
    | CursorVerticalText
    | CursorContextMenu
    | CursorAlias
    | CursorCopy
    | CursorNone
    | CursorProgress
    | CursorNoDrop
    | CursorNotAllowed
    | CursorZoomIn
    | CursorZoomOut
    | CursorEResize
    | CursorNeResize
    | CursorNwResize
    | CursorNResize
    | CursorSeResize
    | CursorSwResize
    | CursorSResize
    | CursorWResize
    | CursorEwResize
    | CursorNsResize
    | CursorNeswResize
    | CursorNwseResize
    | CursorColResize
    | CursorRowResize
    | CursorText
    | CursorWait
    | CursorHelp
    | CursorAllScroll
    | CursorWebkitGrab
    | CursorWebkitGrabbing

  /** CSSIdentifierValue(ECursor): the keyword a value serialises to. */
  function ECursorKeyword(e: ECursor): CSSValueID
  {
    match e
    case CursorAuto => CSSValueAuto
    case CursorCrosshair => CSSValueCrosshair
    case CursorDefault => CSSValueDefault
    case CursorPointer => CSSValuePointer
    case CursorMove => CSSValueMove
    case CursorCell => CSSValueCell
    case CursorVerticalText => CSSValueVerticalText
    case CursorContextMenu => CSSValueContextMenu
    case CursorAlias => CSSValueAlias
    case CursorCopy => CSSValueCopy
    case CursorNone => CSSValueNone
    case CursorProgress => CSSValueProgress
    case CursorNoDrop => CSSValueNoDrop
    case CursorNotAllowed => CSSValueNotAllowed
    case CursorZoomIn => CSSValueZoomIn
    case CursorZoomOut => CSSValueZoomOut
    case CursorEResize => CSSValueEResize
    case CursorNeResize => CSSValueNeResize
    case CursorNwResize => CSSValueNwResize
    case CursorNResize => CSSValueNResize
    case CursorSeResize => CSSValueSeResize
    case CursorSwResize => CSSValueSwResize
    case CursorSResize => CSSValueSResize
    case CursorWResize => CSSValueWResize
    case CursorEwResize => CSSValueEwResize
    case CursorNsResize => CSSValueNsResize
    case CursorNeswResize => CSSValueNeswResize
    case CursorNwseResize => CSSValueNwseResize
    case CursorColResize => CSSValueColResize
    case CursorRowResize => CSSValueRowResize
    case CursorText => CSSValueText
    case CursorWait => CSSValueWait
    case CursorHelp => CSSValueHelp
    case CursorAllScroll => CSSValueAllScroll
    case CursorWebkitGrab => CSSValueWebkitGrab
    case CursorWebkitGrabbing => CSSValueWebkitGrabbing
  }

  /** convertTo<ECursor>: the value a keyword stands for, CursorAuto for any other keyword. */
  function ECursorFromKeyword(id: CSSValueID): ECursor
  {
    match id
    case CSSValueAuto => CursorAuto
    case CSSValueCrosshair => CursorCrosshair
    case CSSValueDefault => CursorDefault
    case CSSValuePointer => CursorPointer
    case CSSValueMove => CursorMove
    case CSSValueCell => CursorCell
    case CSSValueVerticalText => CursorVerticalText
    case CSSValueContextMenu => CursorContextMenu
    case CSSValueAlias => CursorAlias
    case CSSValueCopy => CursorCopy
    case CSSValueNone => CursorNone
    case CSSValueProgress => CursorProgress
    case CSSValueNoDrop => CursorNoDrop
    case CSSValueNotAllowed => CursorNotAllowed
    case CSSValueZoomIn => CursorZoomIn
    case CSSValueWebkitZoomIn => CursorZoomIn
    case CSSValueZoomOut => CursorZoomOut
    case CSSValueWebkitZoomOut => CursorZoomOut
    case CSSValueEResize => CursorEResize
    case CSSValueNeResize => CursorNeResize
    case CSSValueNwResize => CursorNwResize
    case CSSValueNResize => CursorNResize
    case CSSValueSeResize => CursorSeResize
    case CSSValueSwResize => CursorSwResize
    case CSSValueSResize => CursorSResize
    case CSSValueWResize => CursorWResize
    case CSSValueEwResize => CursorEwResize
    case CSSValueNsResize => CursorNsResize
    case CSSValueNeswResize => CursorNeswResize
    case CSSValueNwseResize => CursorNwseResize
    case CSSValueColResize => CursorColResize
    case CSSValueRowResize => CursorRowResize
    case CSSValueText => CursorText
    case CSSValueWait => CursorWait
    case CSSValueHelp => CursorHelp
    case CSSValueAllScroll => CursorAllScroll
    case CSSValueWebkitGrab => CursorWebkitGrab
    case CSSValueWebkitGrabbing => CursorWebkitGrabbing
    case _ => CursorAuto
  }

  /** Serialising then converting gives the value back. */
  lemma ECursorRoundTrip(e: ECursor)
    ensures ECursorFromKeyword(ECursorKeyword(e)) == e
  {
    match e
    case CursorAuto | CursorCrosshair | CursorDefault | CursorPointer | CursorMove | CursorCell => ECursorRoundTrip0(e);
    case CursorVerticalText | CursorContextMenu | CursorAlias | CursorCopy | CursorNone | CursorProgress => ECursorRoundTrip1(e);
    case CursorNoDrop | CursorNotAllowed | CursorZoomIn | CursorZoomOut | CursorEResize | CursorNeResize => ECursorRoundTrip2(e);
    case CursorNwResize | CursorNResize | CursorSeResize | CursorSwResize | CursorSResize | CursorWResize => ECursorRoundTrip3(e);
    case CursorEwResize | CursorNsResize | CursorNeswResize | CursorNwseResize | CursorColResize | CursorRowResize => ECursorRoundTrip4(e);
    case CursorText | CursorWait | CursorHelp | CursorAllScroll | CursorWebkitGrab | CursorWebkitGrabbing => ECursorRoundTrip5(e);
  }

  lemma ECursorRoundTrip0(e: ECursor)
    requires e.CursorAuto? || e.CursorCrosshair? || e.CursorDefault? || e.CursorPointer? || e.CursorMove? || e.CursorCell?
    ensures ECursorFromKeyword(ECursorKeyword(e)) == e
  {
  }

  lemma ECursorRoundTrip1(e: ECursor)
    requires e.CursorVerticalText? || e.CursorContextMenu? || e.CursorAlias? || e.CursorCopy? || e.CursorNone? || e.CursorProgress?
    ensures ECursorFromKeyword(ECursorKeyword(e)) == e
  {
  }

  lemma ECursorRoundTrip2(e: ECursor)
    requires e.CursorNoDrop? || e.CursorNotAllowed? || e.CursorZoomIn? || e.CursorZoomOut? || e.CursorEResize? || e.CursorNeResize?
    ensures ECursorFromKeyword(ECursorKeyword(e)) == e
  {
  }

  lemma ECursorRoundTrip3(e: ECursor)
    requires e.CursorNwResize? || e.CursorNResize? || e.CursorSeResize? || e.CursorSwResize? || e.CursorSResize? || e.CursorWResize?
    ensures ECursorFromKeyword(ECursorKeyword(e)) == e
  {
  }

  lemma ECursorRoundTrip4(e: ECursor)
    requires e.CursorEwResize? || e.CursorNsResize? || e.CursorNeswResize? || e.CursorNwseResize? || e.CursorColResize? || e.CursorRowResize?
    ensures ECursorFromKeyword(ECursorKeyword(e)) == e
  {
  }

  lemma ECursorRoundTrip5(e: ECursor)
    requires e.CursorText? || e.CursorWait? || e.CursorHelp? || e.CursorAllScroll? || e.CursorWebkitGrab? || e.CursorWebkitGrabbing?
    ensures ECursorFromKeyword(ECursorKeyword(e)) == e
  {
  }

  /** The keywords convertTo<ECursor> recognises. */
  const ECursorParsedKeywords: set<CSSValueID> :=
    {CSSValueAuto, CSSValueCrosshair, CSSValueDefault, CSSValuePointer, CSSValueMove, CSSValueCell,
     CSSValueVerticalText, CSSValueContextMenu, CSSValueAlias, CSSValueCopy, CSSValueNone,
     CSSValueProgress, CSSValueNoDrop, CSSValueNotAllowed, CSSValueZoomIn, CSSValueWebkitZoomIn,
     CSSValueZoomOut, CSSValueWebkitZoomOut, CSSValueEResize, CSSValueNeResize, CSSValueNwResize,
     CSSValueNResize, CSSValueSeResize, CSSValueSwResize, CSSValueSResize, CSSValueWResize,
     CSSValueEwResize, CSSValueNsResize, CSSValueNeswResize, CSSValueNwseResize, CSSValueColResize,
     CSSValueRowResize, CSSValueText, CSSValueWait, CSSValueHelp, CSSValueAllScroll,
     CSSValueWebkitGrab, CSSValueWebkitGrabbing}

  lemma ECursorFallback(id: CSSValueID)
    requires id !in ECursorParsedKeywords
    ensures ECursorFromKeyword(id) == CursorAuto
  {
  }

  /** Converting a keyword the table writes gives a value that serialises to it. */
  lemma ECursorKeywordRoundTrip(id: CSSValueID)
    requires exists x :: ECursorKeyword(x) == id
    ensures ECursorKeyword(ECursorFromKeyword(id)) == id
  {
    var x :| ECursorKeyword(x) == id;
    ECursorRoundTrip(x);
  }

  /** The alias keywords convert to the value whose canonical keyword is given. */
  lemma ECursorAliases()
    ensures ECursorFromKeyword(CSSValueWebkitZoomIn) == CursorZoomIn
          && ECursorKeyword(CursorZoomIn) == CSSValueZoomIn
    ensures ECursorFromKeyword(CSSValueWebkitZoomOut) == CursorZoomOut
          && ECursorKeyword(CursorZoomOut) == CSSValueZoomOut
  {
  }

  /** Serialising then converting gives the value back; a keyword the table writes converts to a
      value that serialises to that keyword; each alias keyword converts to a value whose canonical
      keyword is given; every other keyword converts to CursorAuto. */
  lemma {:induction false} ECursorMapping(e: ECursor, id: CSSValueID)
    ensures ECursorFromKeyword(ECursorKeyword(e)) == e
    ensures (exists x :: ECursorKeyword(x) == id) ==> ECursorKeyword(ECursorFromKeyword(id)) == id
    ensures ECursorFromKeyword(CSSValueWebkitZoomIn) == CursorZoomIn
          && ECursorKeyword(CursorZoomIn) == CSSValueZoomIn
    ensures ECursorFromKeyword(CSSValueWebkitZoomOut) == CursorZoomOut
          && ECursorKeyword(CursorZoomOut) == CSSValueZoomOut
    ensures id !in ECursorParsedKeywords ==> ECursorFromKeyword(id) == CursorAuto
  {
    ECursorAliases();
    if id !in ECursorParsedKeywords {
      ECursorFallback(id);
    }
    ECursorRoundTrip(e);
    if exists x :: ECursorKeyword(x) == id {
      ECursorKeywordRoundTrip(id);
    }
  }

  /** EDisplay: display; -webkit-flex and -webkit-inline-flex are aliases. */
  datatype EDisplay =
    | DisplayInline
    | DisplayBlock
    | DisplayListItem
    | DisplayInlineBlock
    | DisplayTable
    | DisplayInlineTable
    | DisplayTableRowGroup
    | DisplayTableHeaderGroup
    | DisplayTableFooterGroup
    | DisplayTableRow
    | DisplayTableColumnGroup
    | DisplayTableColumn
    | DisplayTableCell
    | DisplayTableCaption
    | DisplayWebkitBox
    | DisplayWebkitInlineBox
    | DisplayFlex
    | DisplayInlineFlex
    | DisplayGrid
    | DisplayInlineGrid
    | DisplayContents
    | DisplayFlowRoot
    | DisplayNone

  /** CSSIdentifierValue(EDisplay): the keyword a value serialises to. */
  function EDisplayKeyword(e: EDisplay): CSSValueID
  {
    match e
    case DisplayInline => CSSValueInline
    case DisplayBlock => CSSValueBlock
    case DisplayListItem => CSSValueListItem
    case DisplayInlineBlock => CSSValueInlineBlock
    case DisplayTable => CSSValueTable
    case DisplayInlineTable => CSSValueInlineTable
    case DisplayTableRowGroup => CSSValueTableRowGroup
    case DisplayTableHeaderGroup => CSSValueTableHeaderGroup
    case DisplayTableFooterGroup => CSSValueTableFooterGroup
    case DisplayTableRow => CSSValueTableRow
    case DisplayTableColumnGroup => CSSValueTableColumnGroup
    case DisplayTableColumn => CSSValueTableColumn
    case DisplayTableCell => CSSValueTableCell
    case DisplayTableCaption => CSSValueTableCaption
    case DisplayWebkitBox => CSSValueWebkitBox
    case DisplayWebkitInlineBox => CSSValueWebkitInlineBox
    case DisplayFlex => CSSValueFlex
    case DisplayInlineFlex => CSSValueInlineFlex
    case DisplayGrid => CSSValueGrid
    case DisplayInlineGrid => CSSValueInlineGrid
    case DisplayContents => CSSValueContents
    case DisplayFlowRoot => CSSValueFlowRoot
    case DisplayNone => CSSValueNone
  }

  /** convertTo<EDisplay>: the value a keyword stands for, DisplayNone for any other keyword. */
  function EDisplayFromKeyword(id: CSSValueID): EDisplay
  {
    match id
    case CSSValueInline => DisplayInline
    case CSSValueBlock => DisplayBlock
    case CSSValueListItem => DisplayListItem
    case CSSValueInlineBlock => DisplayInlineBlock
    case CSSValueTable => DisplayTable
    case CSSValueInlineTable => DisplayInlineTable
    case CSSValueTableRowGroup => DisplayTableRowGroup
    case CSSValueTableHeaderGroup => DisplayTableHeaderGroup
    case CSSValueTableFooterGroup => DisplayTableFooterGroup
    case CSSValueTableRow => DisplayTableRow
    case CSSValueTableColumnGroup => DisplayTableColumnGroup
    case CSSValueTableColumn => DisplayTableColumn
    case CSSValueTableCell => DisplayTableCell
    case CSSValueTableCaption => DisplayTableCaption
    case CSSValueWebkitBox => DisplayWebkitBox
    case CSSValueWebkitInlineBox => DisplayWebkitInlineBox
    case CSSValueFlex => DisplayFlex
    case CSSValueWebkitFlex => DisplayFlex
    case CSSValueInlineFlex => DisplayInlineFlex
    case CSSValueWebkitInlineFlex => DisplayInlineFlex
    case CSSValueGrid => DisplayGrid
    case CSSValueInlineGrid => DisplayInlineGrid
    case CSSValueContents => DisplayContents
    case CSSValueFlowRoot => DisplayFlowRoot
    case CSSValueNone => DisplayNone
    case _ => DisplayNone
  }

  /** Serialising then converting gives the value back. */
  lemma EDisplayRoundTrip(e: EDisplay)
    ensures EDisplayFromKeyword(EDisplayKeyword(e)) == e
  {
    match e
    case DisplayInline | DisplayBlock | DisplayListItem | DisplayInlineBlock | DisplayTable | DisplayInlineTable => EDisplayRoundTrip0(e);
    case DisplayTableRowGroup | DisplayTableHeaderGroup | DisplayTableFooterGroup | DisplayTableRow | DisplayTableColumnGroup | DisplayTableColumn => EDisplayRoundTrip1(e);
    case DisplayTableCell | DisplayTableCaption | DisplayWebkitBox | DisplayWebkitInlineBox | DisplayFlex | DisplayInlineFlex => EDisplayRoundTrip2(e);
    case DisplayGrid | DisplayInlineGrid | DisplayContents | DisplayFlowRoot | DisplayNone => EDisplayRoundTrip3(e);
  }

  lemma EDisplayRoundTrip0(e: EDisplay)
    requires e.DisplayInline? || e.DisplayBlock? || e.DisplayListItem? || e.DisplayInlineBlock? || e.DisplayTable? || e.DisplayInlineTable?
    ensures EDisplayFromKeyword(EDisplayKeyword(e)) == e
  {
  }

  lemma EDisplayRoundTrip1(e: EDisplay)
    requires e.DisplayTableRowGroup? || e.DisplayTableHeaderGroup? || e.DisplayTableFooterGroup? || e.DisplayTableRow? || e.DisplayTableColumnGroup? || e.DisplayTableColumn?
    ensures EDisplayFromKeyword(EDisplayKeyword(e)) == e
  {
  }

  lemma EDisplayRoundTrip2(e: EDisplay)
    requires e.DisplayTableCell? || e.DisplayTableCaption? || e.DisplayWebkitBox? || e.DisplayWebkitInlineBox? || e.DisplayFlex? || e.DisplayInlineFlex?
    ensures EDisplayFromKeyword(EDisplayKeyword(e)) == e
  {
  }

  lemma EDisplayRoundTrip3(e: EDisplay)
    requires e.DisplayGrid? || e.DisplayInlineGrid? || e.DisplayContents? || e.DisplayFlowRoot? || e.DisplayNone?
    ensures EDisplayFromKeyword(EDisplayKeyword(e)) == e
  {
  }

  /** The keywords convertTo<EDisplay> recognises. */
  const EDisplayParsedKeywords: set<CSSValueID> :=
    {CSSValueInline, CSSValueBlock, CSSValueListItem, CSSValueInlineBlock, CSSValueTable,
     CSSValueInlineTable, CSSValueTableRowGroup, CSSValueTableHeaderGroup,
     CSSValueTableFooterGroup, CSSValueTableRow, CSSValueTableColumnGroup, CSSValueTableColumn,
     CSSValueTableCell, CSSValueTableCaption, CSSValueWebkitBox, CSSValueWebkitInlineBox,
     CSSValueFlex, CSSValueWebkitFlex, CSSValueInlineFlex, CSSValueWebkitInlineFlex, CSSValueGrid,
     CSSValueInlineGrid, CSSValueContents, CSSValueFlowRoot, CSSValueNone}

  lemma EDisplayFallback(id: CSSValueID)
    requires id !in EDisplayParsedKeywords
    ensures EDisplayFromKeyword(id) == DisplayNone
  {
  }

  /** Converting a keyword the table writes gives a value that serialises to it. */
  lemma EDisplayKeywordRoundTrip(id: CSSValueID)
    requires exists x :: EDisplayKeyword(x) == id
    ensures EDisplayKeyword(EDisplayFromKeyword(id)) == id
  {
    var x :| EDisplayKeyword(x) == id;
    EDisplayRoundTrip(x);
  }

  /** The alias keywords convert to the value whose canonical keyword is given. */
  lemma EDisplayAliases()
    ensures EDisplayFromKeyword(CSSValueWebkitFlex) == DisplayFlex && EDisplayKeyword(DisplayFlex) == CSSValueFlex
    ensures EDisplayFromKeyword(CSSValueWebkitInlineFlex) == DisplayInlineFlex && EDisplayKeyword(DisplayInlineFlex) == CSSValueInlineFlex
  {
  }

  /** Serialising then converting gives the value back; a keyword the table writes converts to a
      value that serialises to that keyword; each alias keyword converts to a value whose canonical
      keyword is given; every other keyword converts to DisplayNone. */
  lemma {:induction false} EDisplayMapping(e: EDisplay, id: CSSValueID)
    ensures EDisplayFromKeyword(EDisplayKeyword(e)) == e
    ensures (exists x :: EDisplayKeyword(x) == id) ==> EDisplayKeyword(EDisplayFromKeyword(id)) == id
    ensures EDisplayFromKeyword(CSSValueWebkitFlex) == DisplayFlex && EDisplayKeyword(DisplayFlex) == CSSValueFlex
    ensures EDisplayFromKeyword(CSSValueWebkitInlineFlex) == DisplayInlineFlex && EDisplayKeyword(DisplayInlineFlex) == CSSValueInlineFlex
    ensures id !in EDisplayParsedKeywords ==> EDisplayFromKeyword(id) == DisplayNone
  {
    EDisplayAliases();
    if id !in EDisplayParsedKeywords {
      EDisplayFallback(id);
    }
    EDisplayRoundTrip(e);
    if exists x :: EDisplayKeyword(x) == id {
      EDisplayKeywordRoundTrip(id);
    }
  }

  /** EFloat: float. */
  datatype EFloat = FloatNone | FloatLeft | FloatRight

  /** CSSIdentifierValue(EFloat): the keyword a value serialises to. */
  function EFloatKeyword(e: EFloat): CSSValueID
  {
    match e
    case FloatNone => CSSValueNone
    case FloatLeft => CSSValueLeft
    case FloatRight => CSSValueRight
  }

  /** convertTo<EFloat>: the value a keyword stands for, FloatNone for any other keyword. */
  function EFloatFromKeyword(id: CSSValueID): EFloat
  {
    match id
    case CSSValueLeft => FloatLeft
    case CSSValueRight => FloatRight
    case CSSValueNone => FloatNone
    case _ => FloatNone
  }

  /** Serialising then converting gives the value back. */
  lemma EFloatRoundTrip(e: EFloat)
    ensures EFloatFromKeyword(EFloatKeyword(e)) == e
  {
  }

  /** The keywords convertTo<EFloat> recognises. */
  const EFloatParsedKeywords: set<CSSValueID> :=
    {CSSValueLeft, CSSValueRight, CSSValueNone}

  lemma EFloatFallback(id: CSSValueID)
    requires id !in EFloatParsedKeywords
    ensures EFloatFromKeyword(id) == FloatNone
  {
  }

  /** Converting a keyword the table writes gives a value that serialises to it. */
  lemma EFloatKeywordRoundTrip(id: CSSValueID)
    requires exists x :: EFloatKeyword(x) == id
    ensures EFloatKeyword(EFloatFromKeyword(id)) == id
  {
    var x :| EFloatKeyword(x) == id;
    EFloatRoundTrip(x);
  }

  /** Serialising then converting gives the value back; a keyword the table writes converts to a
      value that serialises to that keyword; every other keyword converts to FloatNone. */
  lemma {:induction false} EFloatMapping(e: EFloat, id: CSSValueID)
    ensures EFloatFromKeyword(EFloatKeyword(e)) == e
    ensures (exists x :: EFloatKeyword(x) == id) ==> EFloatKeyword(EFloatFromKeyword(id)) == id
    ensures id !in EFloatParsedKeywords ==> EFloatFromKeyword(id) == FloatNone
  {
    if id !in EFloatParsedKeywords {
      EFloatFallback(id);
    }
    EFloatRoundTrip(e);
    if exists x :: EFloatKeyword(x) == id {
      EFloatKeywordRoundTrip(id);
    }
  }

  /** EPosition: position. */
  datatype EPosition =
    | PositionStatic
    | PositionRelative
    | PositionAbsolute
    | PositionFixed
    | PositionSticky

  /** CSSIdentifierValue(EPosition): the keyword a value serialises to. */
  function EPositionKeyword(e: EPosition): CSSValueID
  {
    match e
    case PositionStatic => CSSValueStatic
    case PositionRelative => CSSValueRelative
    case PositionAbsolute => CSSValueAbsolute
    case PositionFixed => CSSValueFixed
    case PositionSticky => CSSValueSticky
  }

  /** convertTo<EPosition>: the value a keyword stands for, PositionStatic for any other keyword. */
  function EPositionFromKeyword(id: CSSValueID): EPosition
  {
    match id
    case CSSValueStatic => PositionStatic
    case CSSValueRelative => PositionRelative
    case CSSValueAbsolute => PositionAbsolute
    case CSSValueFixed => PositionFixed
    case CSSValueSticky => PositionSticky
    case _ => PositionStatic
  }

  /** Serialising then converting gives the value back. */
  lemma EPositionRoundTrip(e: EPosition)
    ensures EPositionFromKeyword(EPositionKeyword(e)) == e
  {
  }

  /** The keywords convertTo<EPosition> recognises. */
  const EPositionParsedKeywords: set<CSSValueID> :=
    {CSSValueStatic, CSSValueRelative, CSSValueAbsolute, CSSValueFixed, CSSValueSticky}

  lemma EPositionFallback(id: CSSValueID)
    requires id !in EPositionParsedKeywords
    ensures EPositionFromKeyword(id) == PositionStatic
  {
  }

  /** Converting a keyword the table writes gives a value that serialises to it. */
  lemma EPositionKeywordRoundTrip(id: CSSValueID)
    requires exists x :: EPositionKeyword(x) == id
    ensures EPositionKeyword(EPositionFromKeyword(id)) == id
  {
    var x :| EPositionKeyword(x) == id;
    EPositionRoundTrip(x);
  }

  /** Serialising then converting gives the value back; a keyword the table writes converts to a
      value that serialises to that keyword; every other keyword converts to PositionStatic. */
  lemma {:induction false} EPositionMapping(e: EPosition, id: CSSValueID)
    ensures EPositionFromKeyword(EPositionKeyword(e)) == e
    ensures (exists x :: EPositionKeyword(x) == id) ==> EPositionKeyword(EPositionFromKeyword(id)) == id
    ensures id !in EPositionParsedKeywords ==> EPositionFromKeyword(id) == PositionStatic
  {
    if id !in EPositionParsedKeywords {
      EPositionFallback(id);
    }
    EPositionRoundTrip(e);
    if exists x :: EPositionKeyword(x) == id {
      EPositionKeywordRoundTrip(id);
    }
  }

  /** EResize: resize; auto depends on settings and is left to the caller, so reaching it here gives
      RESIZE_NONE. */
  datatype EResize = ResizeBoth | ResizeHorizontal | ResizeVertical | ResizeNone

  /** CSSIdentifierValue(EResize): the keyword a value serialises to. */
  function EResizeKeyword(e: EResize): CSSValueID
  {
    match e
    case ResizeBoth => CSSValueBoth
    case ResizeHorizontal => CSSValueHorizontal
    case ResizeVertical => CSSValueVertical
    case ResizeNone => CSSValueNone
  }

  /** convertTo<EResize>: the value a keyword stands for, ResizeNone for any other keyword. */
  function EResizeFromKeyword(id: CSSValueID): EResize
  {
    match id
    case CSSValueBoth => ResizeBoth
    case CSSValueHorizontal => ResizeHorizontal
    case CSSValueVertical => ResizeVertical
    case CSSValueAuto => ResizeNone
    case CSSValueNone => ResizeNone
    case _ => ResizeNone
  }

  /** Serialising then converting gives the value back. */
  lemma EResizeRoundTrip(e: EResize)
    ensures EResizeFromKeyword(EResizeKeyword(e)) == e
  {
  }

  /** The keywords convertTo<EResize> recognises. */
  const EResizeParsedKeywords: set<CSSValueID> :=
    {CSSValueBoth, CSSValueHorizontal, CSSValueVertical, CSSValueAuto, CSSValueNone}

  lemma EResizeFallback(id: CSSValueID)
    requires id !in EResizeParsedKeywords
    ensures EResizeFromKeyword(id) == ResizeNone
  {
  }

  /** Converting a keyword the table writes gives a value that serialises to it. */
  lemma EResizeKeywordRoundTrip(id: CSSValueID)
    requires exists x :: EResizeKeyword(x) == id
    ensures EResizeKeyword(EResizeFromKeyword(id)) == id
  {
    var x :| EResizeKeyword(x) == id;
    EResizeRoundTrip(x);
  }

  /** The alias keywords convert to the value whose canonical keyword is given. */
  lemma EResizeAliases()
    ensures EResizeFromKeyword(CSSValueAuto) == ResizeNone
          && EResizeKeyword(ResizeNone) == CSSValueNone
  {
  }

  /** Serialising then converting gives the value back; a keyword the table writes converts to a
      value that serialises to that keyword; each alias keyword converts to a value whose canonical
      keyword is given; every other keyword converts to ResizeNone. */
  lemma {:induction false} EResizeMapping(e: EResize, id: CSSValueID)
    ensures EResizeFromKeyword(EResizeKeyword(e)) == e
    ensures (exists x :: EResizeKeyword(x) == id) ==> EResizeKeyword(EResizeFromKeyword(id)) == id
    ensures EResizeFromKeyword(CSSValueAuto) == ResizeNone
          && EResizeKeyword(ResizeNone) == CSSValueNone
    ensures id !in EResizeParsedKeywords ==> EResizeFromKeyword(id) == ResizeNone
  {
    EResizeAliases();
    if id !in EResizeParsedKeywords {
      EResizeFallback(id);
    }
    EResizeRoundTrip(e);
    if exists x :: EResizeKeyword(x) == id {
      EResizeKeywordRoundTrip(id);
    }
  }

  /** EUserSelect: user-select; auto and text both give SELECT_TEXT. */
  datatype EUserSelect = SelectNone | SelectText | SelectAll

  /** CSSIdentifierValue(EUserSelect): the keyword a value serialises to. */
  function EUserSelectKeyword(e: EUserSelect): CSSValueID
  {
    match e
    case SelectNone => CSSValueNone
    case SelectText => CSSValueText
    case SelectAll => CSSValueAll
  }

  /** convertTo<EUserSelect>: the value a keyword stands for, SelectText for any other keyword. */
  function EUserSelectFromKeyword(id: CSSValueID): EUserSelect
  {
    match id
    case CSSValueAuto => SelectText
    case CSSValueNone => SelectNone
    case CSSValueText => SelectText
    case CSSValueAll => SelectAll
    case _ => SelectText
  }

  /** Serialising then converting gives the value back. */
  lemma EUserSelectRoundTrip(e: EUserSelect)
    ensures EUserSelectFromKeyword(EUserSelectKeyword(e)) == e
  {
  }

  /** The keywords convertTo<EUserSelect> recognises. */
  const EUserSelectParsedKeywords: set<CSSValueID> :=
    {CSSValueAuto, CSSValueNone, CSSValueText, CSSValueAll}

  lemma EUserSelectFallback(id: CSSValueID)
    requires id !in EUserSelectParsedKeywords
    ensures EUserSelectFromKeyword(id) == SelectText
  {
  }

  /** Converting a keyword the table writes gives a value that serialises to it. */
  lemma EUserSelectKeywordRoundTrip(id: CSSValueID)
    requires exists x :: EUserSelectKeyword(x) == id
    ensures EUserSelectKeyword(EUserSelectFromKeyword(id)) == id
  {
    var x :| EUserSelectKeyword(x) == id;
    EUserSelectRoundTrip(x);
  }

  /** The alias keywords convert to the value whose canonical keyword is given. */
  lemma EUserSelectAliases()
    ensures EUserSelectFromKeyword(CSSValueAuto) == SelectText && EUserSelectKeyword(SelectText) == CSSValueText
  {
  }

  /** Serialising then converting gives the value back; a keyword the table writes converts to a
      value that serialises to that keyword; each alias keyword converts to a value whose canonical
      keyword is given; every other keyword converts to SelectText. */
  lemma {:induction false} EUserSelectMapping(e: EUserSelect, id: CSSValueID)
    ensures EUserSelectFromKeyword(EUserSelectKeyword(e)) == e
    ensures (exists x :: EUserSelectKeyword(x) == id) ==> EUserSelectKeyword(EUserSelectFromKeyword(id)) == id
    ensures EUserSelectFromKeyword(CSSValueAuto) == SelectText && EUserSelectKeyword(SelectText) == CSSValueText
    ensures id !in EUserSelectParsedKeywords ==> EUserSelectFromKeyword(id) == SelectText
  {
    EUserSelectAliases();
    if id !in EUserSelectParsedKeywords {
      EUserSelectFallback(id);
    }
    EUserSelectRoundTrip(e);
    if exists x :: EUserSelectKeyword(x) == id {
      EUserSelectKeywordRoundTrip(id);
    }
  }

  /** WebBlendMode: mix-blend-mode. */
  datatype WebBlendMode =
    | WebBlendModeNormal
    | WebBlendModeMultiply
    | WebBlendModeScreen
    | WebBlendModeOverlay
    | WebBlendModeDarken
    | WebBlendModeLighten
    | WebBlendModeColorDodge
    | WebBlendModeColorBurn
    | WebBlendModeHardLight
    | WebBlendModeSoftLight
    | WebBlendModeDifference
    | WebBlendModeExclusion
    | WebBlendModeHue
    | WebBlendModeSaturation
    | WebBlendModeColor
    | WebBlendModeLuminosity

  /** CSSIdentifierValue(WebBlendMode): the keyword a value serialises to. */
  function WebBlendModeKeyword(e: WebBlendMode): CSSValueID
  {
    match e
    case WebBlendModeNormal => CSSValueNormal
    case WebBlendModeMultiply => CSSValueMultiply
    case WebBlendModeScreen => CSSValueScreen
    case WebBlendModeOverlay => CSSValueOverlay
    case WebBlendModeDarken => CSSValueDarken
    case WebBlendModeLighten => CSSValueLighten
    case WebBlendModeColorDodge => CSSValueColorDodge
    case WebBlendModeColorBurn => CSSValueColorBurn
    case WebBlendModeHardLight => CSSValueHardLight
    case WebBlendModeSoftLight => CSSValueSoftLight
    case WebBlendModeDifference => CSSValueDifference
    case WebBlendModeExclusion => CSSValueExclusion
    case WebBlendModeHue => CSSValueHue
    case WebBlendModeSaturation => CSSValueSaturation
    case WebBlendModeColor => CSSValueColor
    case WebBlendModeLuminosity => CSSValueLuminosity
  }

  /** convertTo<WebBlendMode>: the value a keyword stands for, WebBlendModeNormal for any other
      keyword. */
  function WebBlendModeFromKeyword(id: CSSValueID): WebBlendMode
  {
    match id
    case CSSValueNormal => WebBlendModeNormal
    case CSSValueMultiply => WebBlendModeMultiply
    case CSSValueScreen => WebBlendModeScreen
    case CSSValueOverlay => WebBlendModeOverlay
    case CSSValueDarken => WebBlendModeDarken
    case CSSValueLighten => WebBlendModeLighten
    case CSSValueColorDodge => WebBlendModeColorDodge
    case CSSValueColorBurn => WebBlendModeColorBurn
    case CSSValueHardLight => WebBlendModeHardLight
    case CSSValueSoftLight => WebBlendModeSoftLight
    case CSSValueDifference => WebBlendModeDifference
    case CSSValueExclusion => WebBlendModeExclusion
    case CSSValueHue => WebBlendModeHue
    case CSSValueSaturation => WebBlendModeSaturation
    case CSSValueColor => WebBlendModeColor
    case CSSValueLuminosity => WebBlendModeLuminosity
    case _ => WebBlendModeNormal
  }

  /** Serialising then converting gives the value back. */
  lemma WebBlendModeRoundTrip(e: WebBlendMode)
    ensures WebBlendModeFromKeyword(WebBlendModeKeyword(e)) == e
  {
    match e
    case WebBlendModeNormal | WebBlendModeMultiply | WebBlendModeScreen | WebBlendModeOverlay | WebBlendModeDarken | WebBlendModeLighten => WebBlendModeRoundTrip0(e);
    case WebBlendModeColorDodge | WebBlendModeColorBurn | WebBlendModeHardLight | WebBlendModeSoftLight | WebBlendModeDifference | WebBlendModeExclusion => WebBlendModeRoundTrip1(e);
    case WebBlendModeHue | WebBlendModeSaturation | WebBlendModeColor | WebBlendModeLuminosity => WebBlendModeRoundTrip2(e);
  }

  lemma WebBlendModeRoundTrip0(e: WebBlendMode)
    requires e.WebBlendModeNormal? || e.WebBlendModeMultiply? || e.WebBlendModeScreen? || e.WebBlendModeOverlay? || e.WebBlendModeDarken? || e.WebBlendModeLighten?
    ensures WebBlendModeFromKeyword(WebBlendModeKeyword(e)) == e
  {
  }

  lemma WebBlendModeRoundTrip1(e: WebBlendMode)
    requires e.WebBlendModeColorDodge? || e.WebBlendModeColorBurn? || e.WebBlendModeHardLight? || e.WebBlendModeSoftLight? || e.WebBlendModeDifference? || e.WebBlendModeExclusion?
    ensures WebBlendModeFromKeyword(WebBlendModeKeyword(e)) == e
  {
  }

  lemma WebBlendModeRoundTrip2(e: WebBlendMode)
    requires e.WebBlendModeHue? || e.WebBlendModeSaturation? || e.WebBlendModeColor? || e.WebBlendModeLuminosity?
    ensures WebBlendModeFromKeyword(WebBlendModeKeyword(e)) == e
  {
  }

  /** The keywords convertTo<WebBlendMode> recognises. */
  const WebBlendModeParsedKeywords: set<CSSValueID> :=
    {CSSValueNormal, CSSValueMultiply, CSSValueScreen, CSSValueOverlay, CSSValueDarken,
     CSSValueLighten, CSSValueColorDodge, CSSValueColorBurn, CSSValueHardLight, CSSValueSoftLight,
     CSSValueDifference, CSSValueExclusion, CSSValueHue, CSSValueSaturation, CSSValueColor,
     CSSValueLuminosity}

  lemma WebBlendModeFallback(id: CSSValueID)
    requires id !in WebBlendModeParsedKeywords
    ensures WebBlendModeFromKeyword(id) == WebBlendModeNormal
  {
  }

  /** Converting a keyword the table writes gives a value that serialises to it. */
  lemma WebBlendModeKeywordRoundTrip(id: CSSValueID)
    requires exists x :: WebBlendModeKeyword(x) == id
    ensures WebBlendModeKeyword(WebBlendModeFromKeyword(id)) == id
  {
    var x :| WebBlendModeKeyword(x) == id;
    WebBlendModeRoundTrip(x);
  }

  /** Serialising then converting gives the value back; a keyword the table writes converts to a
      value that serialises to that keyword; every other keyword converts to WebBlendModeNormal. */
  lemma {:induction false} WebBlendModeMapping(e: WebBlendMode, id: CSSValueID)
    ensures WebBlendModeFromKeyword(WebBlendModeKeyword(e)) == e
    ensures (exists x :: WebBlendModeKeyword(x) == id) ==> WebBlendModeKeyword(WebBlendModeFromKeyword(id)) == id
    ensures id !in WebBlendModeParsedKeywords ==> WebBlendModeFromKeyword(id) == WebBlendModeNormal
  {
    if id !in WebBlendModeParsedKeywords {
      WebBlendModeFallback(id);
    }
    WebBlendModeRoundTrip(e);
    if exists x :: WebBlendModeKeyword(x) == id {
      WebBlendModeKeywordRoundTrip(id);
    }
  }

  /** LineCap: stroke-linecap. */
  datatype LineCap = ButtCap | RoundCap | SquareCap

  /** CSSIdentifierValue(LineCap): the keyword a value serialises to. */
  function LineCapKeyword(e: LineCap): CSSValueID
  {
    match e
    case ButtCap => CSSValueButt
    case RoundCap => CSSValueRound
    case SquareCap => CSSValueSquare
  }

  /** convertTo<LineCap>: the value a keyword stands for, ButtCap for any other keyword. */
  function LineCapFromKeyword(id: CSSValueID): LineCap
  {
    match id
    case CSSValueButt => ButtCap
    case CSSValueRound => RoundCap
    case CSSValueSquare => SquareCap
    case _ => ButtCap
  }

  /** Serialising then converting gives the value back. */
  lemma LineCapRoundTrip(e: LineCap)
    ensures LineCapFromKeyword(LineCapKeyword(e)) == e
  {
  }

  /** The keywords convertTo<LineCap> recognises. */
  const LineCapParsedKeywords: set<CSSValueID> :=
    {CSSValueButt, CSSValueRound, CSSValueSquare}

  lemma LineCapFallback(id: CSSValueID)
    requires id !in LineCapParsedKeywords
    ensures LineCapFromKeyword(id) == ButtCap
  {
  }

  /** Converting a keyword the table writes gives a value that serialises to it. */
  lemma LineCapKeywordRoundTrip(id: CSSValueID)
    requires exists x :: LineCapKeyword(x) == id
    ensures LineCapKeyword(LineCapFromKeyword(id)) == id
  {
    var x :| LineCapKeyword(x) == id;
    LineCapRoundTrip(x);
  }

  /** Serialising then converting gives the value back; a keyword the table writes converts to a
      value that serialises to that keyword; every other keyword converts to ButtCap. */
  lemma {:induction false} LineCapMapping(e: LineCap, id: CSSValueID)
    ensures LineCapFromKeyword(LineCapKeyword(e)) == e
    ensures (exists x :: LineCapKeyword(x) == id) ==> LineCapKeyword(LineCapFromKeyword(id)) == id
    ensures id !in LineCapParsedKeywords ==> LineCapFromKeyword(id) == ButtCap
  {
    if id !in LineCapParsedKeywords {
      LineCapFallback(id);
    }
    LineCapRoundTrip(e);
    if exists x :: LineCapKeyword(x) == id {
      LineCapKeywordRoundTrip(id);
    }
  }

  /** LineJoin: stroke-linejoin. */
  datatype LineJoin = MiterJoin | RoundJoin | BevelJoin

  /** CSSIdentifierValue(LineJoin): the keyword a value serialises to. */
  function LineJoinKeyword(e: LineJoin): CSSValueID
  {
    match e
    case MiterJoin => CSSValueMiter
    case RoundJoin => CSSValueRound
    case BevelJoin => CSSValueBevel
  }

  /** convertTo<LineJoin>: the value a keyword stands for, MiterJoin for any other keyword. */
  function LineJoinFromKeyword(id: CSSValueID): LineJoin
  {
    match id
    case CSSValueMiter => MiterJoin
    case CSSValueRound => RoundJoin
    case CSSValueBevel => BevelJoin
    case _ => MiterJoin
  }

  /** Serialising then converting gives the value back. */
  lemma LineJoinRoundTrip(e: LineJoin)
    ensures LineJoinFromKeyword(LineJoinKeyword(e)) == e
  {
  }

  /** The keywords convertTo<LineJoin> recognises. */
  const LineJoinParsedKeywords: set<CSSValueID> :=
    {CSSValueMiter, CSSValueRound, CSSValueBevel}

  lemma LineJoinFallback(id: CSSValueID)
    requires id !in LineJoinParsedKeywords
    ensures LineJoinFromKeyword(id) == MiterJoin
  {
  }

  /** Converting a keyword the table writes gives a value that serialises to it. */
  lemma LineJoinKeywordRoundTrip(id: CSSValueID)
    requires exists x :: LineJoinKeyword(x) == id
    ensures LineJoinKeyword(LineJoinFromKeyword(id)) == id
  {
    var x :| LineJoinKeyword(x) == id;
    LineJoinRoundTrip(x);
  }

  /** Serialising then converting gives the value back; a keyword the table writes converts to a
      value that serialises to that keyword; every other keyword converts to MiterJoin. */
  lemma {:induction false} LineJoinMapping(e: LineJoin, id: CSSValueID)
    ensures LineJoinFromKeyword(LineJoinKeyword(e)) == e
    ensures (exists x :: LineJoinKeyword(x) == id) ==> LineJoinKeyword(LineJoinFromKeyword(id)) == id
    ensures id !in LineJoinParsedKeywords ==> LineJoinFromKeyword(id) == MiterJoin
  {
    if id !in LineJoinParsedKeywords {
      LineJoinFallback(id);
    }
    LineJoinRoundTrip(e);
    if exists x :: LineJoinKeyword(x) == id {
      LineJoinKeywordRoundTrip(id);
    }
  }

  /** WindRule: fill-rule and clip-rule. */
  datatype WindRule = RuleNonzero | RuleEvenodd

  /** CSSIdentifierValue(WindRule): the keyword a value serialises to. */
  function WindRuleKeyword(e: WindRule): CSSValueID
  {
    match e
    case RuleNonzero => CSSValueNonzero
    case RuleEvenodd => CSSValueEvenodd
  }

  /** convertTo<WindRule>: the value a keyword stands for, RuleNonzero for any other keyword. */
  function WindRuleFromKeyword(id: CSSValueID): WindRule
  {
    match id
    case CSSValueNonzero => RuleNonzero
    case CSSValueEvenodd => RuleEvenodd
    case _ => RuleNonzero
  }

  /** Serialising then converting gives the value back. */
  lemma WindRuleRoundTrip(e: WindRule)
    ensures WindRuleFromKeyword(WindRuleKeyword(e)) == e
  {
  }

  /** The keywords convertTo<WindRule> recognises. */
  const WindRuleParsedKeywords: set<CSSValueID> :=
    {CSSValueNonzero, CSSValueEvenodd}

  lemma WindRuleFallback(id: CSSValueID)
    requires id !in WindRuleParsedKeywords
    ensures WindRuleFromKeyword(id) == RuleNonzero
  {
  }

  /** Converting a keyword the table writes gives a value that serialises to it. */
  lemma WindRuleKeywordRoundTrip(id: CSSValueID)
    requires exists x :: WindRuleKeyword(x) == id
    ensures WindRuleKeyword(WindRuleFromKeyword(id)) == id
  {
    var x :| WindRuleKeyword(x) == id;
    WindRuleRoundTrip(x);
  }

  /** Serialising then converting gives the value back; a keyword the table writes converts to a
      value that serialises to that keyword; every other keyword converts to RuleNonzero. */
  lemma {:induction false} WindRuleMapping(e: WindRule, id: CSSValueID)
    ensures WindRuleFromKeyword(WindRuleKeyword(e)) == e
    ensures (exists x :: WindRuleKeyword(x) == id) ==> WindRuleKeyword(WindRuleFromKeyword(id)) == id
    ensures id !in WindRuleParsedKeywords ==> WindRuleFromKeyword(id) == RuleNonzero
  {
    if id !in WindRuleParsedKeywords {
      WindRuleFallback(id);
    }
    WindRuleRoundTrip(e);
    if exists x :: WindRuleKeyword(x) == id {
      WindRuleKeywordRoundTrip(id);
    }
  }

  /** ItemPosition: align-items / justify-items positions; the auto position serialises as normal,
      and first-baseline is an alias of baseline. */
  datatype ItemPosition =
    | ItemPositionAuto
    | ItemPositionNormal
    | ItemPositionStretch
    | ItemPositionBaseline
    | ItemPositionLastBaseline
    | ItemPositionCenter
    | ItemPositionStart
    | ItemPositionEnd
    | ItemPositionSelfStart
    | ItemPositionSelfEnd
    | ItemPositionFlexStart
    | ItemPositionFlexEnd
    | ItemPositionLeft
    | ItemPositionRight

  /** CSSIdentifierValue(ItemPosition): the keyword a value serialises to. */
  function ItemPositionKeyword(e: ItemPosition): CSSValueID
  {
    match e
    case ItemPositionAuto => CSSValueNormal
    case ItemPositionNormal => CSSValueNormal
    case ItemPositionStretch => CSSValueStretch
    case ItemPositionBaseline => CSSValueBaseline
    case ItemPositionLastBaseline => CSSValueLastBaseline
    case ItemPositionCenter => CSSValueCenter
    case ItemPositionStart => CSSValueStart
    case ItemPositionEnd => CSSValueEnd
    case ItemPositionSelfStart => CSSValueSelfStart
    case ItemPositionSelfEnd => CSSValueSelfEnd
    case ItemPositionFlexStart => CSSValueFlexStart
    case ItemPositionFlexEnd => CSSValueFlexEnd
    case ItemPositionLeft => CSSValueLeft
    case ItemPositionRight => CSSValueRight
  }

  /** convertTo<ItemPosition>: the value a keyword stands for, ItemPositionAuto for any other
      keyword. */
  function ItemPositionFromKeyword(id: CSSValueID): ItemPosition
  {
    match id
    case CSSValueAuto => ItemPositionAuto
    case CSSValueNormal => ItemPositionNormal
    case CSSValueStretch => ItemPositionStretch
    case CSSValueBaseline => ItemPositionBaseline
    case CSSValueFirstBaseline => ItemPositionBaseline
    case CSSValueLastBaseline => ItemPositionLastBaseline
    case CSSValueCenter => ItemPositionCenter
    case CSSValueStart => ItemPositionStart
    case CSSValueEnd => ItemPositionEnd
    case CSSValueSelfStart => ItemPositionSelfStart
    case CSSValueSelfEnd => ItemPositionSelfEnd
    case CSSValueFlexStart => ItemPositionFlexStart
    case CSSValueFlexEnd => ItemPositionFlexEnd
    case CSSValueLeft => ItemPositionLeft
    case CSSValueRight => ItemPositionRight
    case _ => ItemPositionAuto
  }

  /** Serialising then converting gives the value back (except for ItemPositionAuto). */
  lemma ItemPositionRoundTrip(e: ItemPosition)
    requires e != ItemPositionAuto
    ensures ItemPositionFromKeyword(ItemPositionKeyword(e)) == e
  {
    match e
    case ItemPositionNormal | ItemPositionStretch | ItemPositionBaseline | ItemPositionLastBaseline | ItemPositionCenter | ItemPositionStart => ItemPositionRoundTrip0(e);
    case ItemPositionEnd | ItemPositionSelfStart | ItemPositionSelfEnd | ItemPositionFlexStart | ItemPositionFlexEnd | ItemPositionLeft => ItemPositionRoundTrip1(e);
    case ItemPositionRight => ItemPositionRoundTrip2(e);
  }

  lemma ItemPositionRoundTrip0(e: ItemPosition)
    requires e.ItemPositionNormal? || e.ItemPositionStretch? || e.ItemPositionBaseline? || e.ItemPositionLastBaseline? || e.ItemPositionCenter? || e.ItemPositionStart?
    ensures ItemPositionFromKeyword(ItemPositionKeyword(e)) == e
  {
  }

  lemma ItemPositionRoundTrip1(e: ItemPosition)
    requires e.ItemPositionEnd? || e.ItemPositionSelfStart? || e.ItemPositionSelfEnd? || e.ItemPositionFlexStart? || e.ItemPositionFlexEnd? || e.ItemPositionLeft?
    ensures ItemPositionFromKeyword(ItemPositionKeyword(e)) == e
  {
  }

  lemma ItemPositionRoundTrip2(e: ItemPosition)
    requires e.ItemPositionRight?
    ensures ItemPositionFromKeyword(ItemPositionKeyword(e)) == e
  {
  }

  /** The keywords convertTo<ItemPosition> recognises. */
  const ItemPositionParsedKeywords: set<CSSValueID> :=
    {CSSValueAuto, CSSValueNormal, CSSValueStretch, CSSValueBaseline, CSSValueFirstBaseline,
     CSSValueLastBaseline, CSSValueCenter, CSSValueStart, CSSValueEnd, CSSValueSelfStart,
     CSSValueSelfEnd, CSSValueFlexStart, CSSValueFlexEnd, CSSValueLeft, CSSValueRight}

  lemma ItemPositionFallback(id: CSSValueID)
    requires id !in ItemPositionParsedKeywords
    ensures ItemPositionFromKeyword(id) == ItemPositionAuto
  {
  }

  /** Converting a keyword the table writes gives a value that serialises to it. */
  lemma ItemPositionKeywordRoundTrip(id: CSSValueID)
    requires exists x :: x != ItemPositionAuto && ItemPositionKeyword(x) == id
    ensures ItemPositionKeyword(ItemPositionFromKeyword(id)) == id
  {
    var x :| x != ItemPositionAuto && ItemPositionKeyword(x) == id;
    ItemPositionRoundTrip(x);
  }

  /** The alias keywords convert to the value whose canonical keyword is given. */
  lemma ItemPositionAliases()
    ensures ItemPositionFromKeyword(ItemPositionKeyword(ItemPositionAuto)) == ItemPositionNormal
    ensures ItemPositionFromKeyword(CSSValueAuto) == ItemPositionAuto
          && ItemPositionKeyword(ItemPositionAuto) == CSSValueNormal
    ensures ItemPositionFromKeyword(CSSValueFirstBaseline) == ItemPositionBaseline
          && ItemPositionKeyword(ItemPositionBaseline) == CSSValueBaseline
  {
  }

  /** Serialising then converting gives the value back except for ItemPositionAuto; a keyword the
      table writes converts to a value that serialises to that keyword; each alias keyword converts
      to a value whose canonical keyword is given; every other keyword converts to ItemPositionAuto. */
  lemma {:induction false} ItemPositionMapping(e: ItemPosition, id: CSSValueID)
    ensures e != ItemPositionAuto ==> ItemPositionFromKeyword(ItemPositionKeyword(e)) == e
    ensures ItemPositionFromKeyword(ItemPositionKeyword(ItemPositionAuto)) == ItemPositionNormal
    ensures (exists x :: x != ItemPositionAuto && ItemPositionKeyword(x) == id) ==> ItemPositionKeyword(ItemPositionFromKeyword(id)) == id
    ensures ItemPositionFromKeyword(CSSValueAuto) == ItemPositionAuto
          && ItemPositionKeyword(ItemPositionAuto) == CSSValueNormal
    ensures ItemPositionFromKeyword(CSSValueFirstBaseline) == ItemPositionBaseline
          && ItemPositionKeyword(ItemPositionBaseline) == CSSValueBaseline
    ensures id !in ItemPositionParsedKeywords ==> ItemPositionFromKeyword(id) == ItemPositionAuto
  {
    ItemPositionAliases();
    if id !in ItemPositionParsedKeywords {
      ItemPositionFallback(id);
    }
    if e != ItemPositionAuto {
      ItemPositionRoundTrip(e);
    }
    if exists x :: x != ItemPositionAuto && ItemPositionKeyword(x) == id {
      ItemPositionKeywordRoundTrip(id);
    }
  }

  /** ContentPosition: align-content / justify-content positions; first-baseline is an alias of
      baseline. */
  datatype ContentPosition =
    | ContentPositionNormal
    | ContentPositionBaseline
    | ContentPositionLastBaseline
    | ContentPositionCenter
    | ContentPositionStart
    | ContentPositionEnd
    | ContentPositionFlexStart
    | ContentPositionFlexEnd
    | ContentPositionLeft
    | ContentPositionRight

  /** CSSIdentifierValue(ContentPosition): the keyword a value serialises to. */
  function ContentPositionKeyword(e: ContentPosition): CSSValueID
  {
    match e
    case ContentPositionNormal => CSSValueNormal
    case ContentPositionBaseline => CSSValueBaseline
    case ContentPositionLastBaseline => CSSValueLastBaseline
    case ContentPositionCenter => CSSValueCenter
    case ContentPositionStart => CSSValueStart
    case ContentPositionEnd => CSSValueEnd
    case ContentPositionFlexStart => CSSValueFlexStart
    case ContentPositionFlexEnd => CSSValueFlexEnd
    case ContentPositionLeft => CSSValueLeft
    case ContentPositionRight => CSSValueRight
  }

  /** convertTo<ContentPosition>: the value a keyword stands for, ContentPositionNormal for any
      other keyword. */
  function ContentPositionFromKeyword(id: CSSValueID): ContentPosition
  {
    match id
    case CSSValueNormal => ContentPositionNormal
    case CSSValueBaseline => ContentPositionBaseline
    case CSSValueFirstBaseline => ContentPositionBaseline
    case CSSValueLastBaseline => ContentPositionLastBaseline
    case CSSValueCenter => ContentPositionCenter
    case CSSValueStart => ContentPositionStart
    case CSSValueEnd => ContentPositionEnd
    case CSSValueFlexStart => ContentPositionFlexStart
    case CSSValueFlexEnd => ContentPositionFlexEnd
    case CSSValueLeft => ContentPositionLeft
    case CSSValueRight => ContentPositionRight
    case _ => ContentPositionNormal
  }

  /** Serialising then converting gives the value back. */
  lemma ContentPositionRoundTrip(e: ContentPosition)
    ensures ContentPositionFromKeyword(ContentPositionKeyword(e)) == e
  {
  }

  /** The keywords convertTo<ContentPosition> recognises. */
  const ContentPositionParsedKeywords: set<CSSValueID> :=
    {CSSValueNormal, CSSValueBaseline, CSSValueFirstBaseline, CSSValueLastBaseline, CSSValueCenter,
     CSSValueStart, CSSValueEnd, CSSValueFlexStart, CSSValueFlexEnd, CSSValueLeft, CSSValueRight}

  lemma ContentPositionFallback(id: CSSValueID)
    requires id !in ContentPositionParsedKeywords
    ensures ContentPositionFromKeyword(id) == ContentPositionNormal
  {
  }

  /** Converting a keyword the table writes gives a value that serialises to it. */
  lemma ContentPositionKeywordRoundTrip(id: CSSValueID)
    requires exists x :: ContentPositionKeyword(x) == id
    ensures ContentPositionKeyword(ContentPositionFromKeyword(id)) == id
  {
    var x :| ContentPositionKeyword(x) == id;
    ContentPositionRoundTrip(x);
  }

  /** The alias keywords convert to the value whose canonical keyword is given. */
  lemma ContentPositionAliases()
    ensures ContentPositionFromKeyword(CSSValueFirstBaseline) == ContentPositionBaseline
          && ContentPositionKeyword(ContentPositionBaseline) == CSSValueBaseline
  {
  }

  /** Serialising then converting gives the value back; a keyword the table writes converts to a
      value that serialises to that keyword; each alias keyword converts to a value whose canonical
      keyword is given; every other keyword converts to ContentPositionNormal. */
  lemma {:induction false} ContentPositionMapping(e: ContentPosition, id: CSSValueID)
    ensures ContentPositionFromKeyword(ContentPositionKeyword(e)) == e
    ensures (exists x :: ContentPositionKeyword(x) == id) ==> ContentPositionKeyword(ContentPositionFromKeyword(id)) == id
    ensures ContentPositionFromKeyword(CSSValueFirstBaseline) == ContentPositionBaseline
          && ContentPositionKeyword(ContentPositionBaseline) == CSSValueBaseline
    ensures id !in ContentPositionParsedKeywords ==> ContentPositionFromKeyword(id) == ContentPositionNormal
  {
    ContentPositionAliases();
    if id !in ContentPositionParsedKeywords {
      ContentPositionFallback(id);
    }
    ContentPositionRoundTrip(e);
    if exists x :: ContentPositionKeyword(x) == id {
      ContentPositionKeywordRoundTrip(id);
    }
  }

  /** ContentDistributionType: content distribution; the default value serialises to default, which
      is not parsed back. */
  datatype ContentDistributionType =
    | ContentDistributionDefault
    | ContentDistributionSpaceBetween
    | ContentDistributionSpaceAround
    | ContentDistributionSpaceEvenly
    | ContentDistributionStretch

  /** CSSIdentifierValue(ContentDistributionType): the keyword a value serialises to. */
  function ContentDistributionTypeKeyword(e: ContentDistributionType): CSSValueID
  {
    match e
    case ContentDistributionDefault => CSSValueDefault
    case ContentDistributionSpaceBetween => CSSValueSpaceBetween
    case ContentDistributionSpaceAround => CSSValueSpaceAround
    case ContentDistributionSpaceEvenly => CSSValueSpaceEvenly
    case ContentDistributionStretch => CSSValueStretch
  }

  /** convertTo<ContentDistributionType>: the value a keyword stands for, ContentDistributionStretch
      for any other keyword. */
  function ContentDistributionTypeFromKeyword(id: CSSValueID): ContentDistributionType
  {
    match id
    case CSSValueSpaceBetween => ContentDistributionSpaceBetween
    case CSSValueSpaceAround => ContentDistributionSpaceAround
    case CSSValueSpaceEvenly => ContentDistributionSpaceEvenly
    case CSSValueStretch => ContentDistributionStretch
    case _ => ContentDistributionStretch
  }

  /** Serialising then converting gives the value back (except for ContentDistributionDefault). */
  lemma ContentDistributionTypeRoundTrip(e: ContentDistributionType)
    requires e != ContentDistributionDefault
    ensures ContentDistributionTypeFromKeyword(ContentDistributionTypeKeyword(e)) == e
  {
  }

  /** The keywords convertTo<ContentDistributionType> recognises. */
  const ContentDistributionTypeParsedKeywords: set<CSSValueID> :=
    {CSSValueSpaceBetween, CSSValueSpaceAround, CSSValueSpaceEvenly, CSSValueStretch}

  lemma ContentDistributionTypeFallback(id: CSSValueID)
    requires id !in ContentDistributionTypeParsedKeywords
    ensures ContentDistributionTypeFromKeyword(id) == ContentDistributionStretch
  {
  }

  /** Converting a keyword the table writes gives a value that serialises to it. */
  lemma ContentDistributionTypeKeywordRoundTrip(id: CSSValueID)
    requires exists x :: x != ContentDistributionDefault && ContentDistributionTypeKeyword(x) == id
    ensures ContentDistributionTypeKeyword(ContentDistributionTypeFromKeyword(id)) == id
  {
    var x :| x != ContentDistributionDefault && ContentDistributionTypeKeyword(x) == id;
    ContentDistributionTypeRoundTrip(x);
  }

  /** Serialising then converting gives the value back except for ContentDistributionDefault; a
      keyword the table writes converts to a value that serialises to that keyword; every other
      keyword converts to ContentDistributionStretch. */
  lemma {:induction false} ContentDistributionTypeMapping(e: ContentDistributionType, id: CSSValueID)
    ensures e != ContentDistributionDefault ==> ContentDistributionTypeFromKeyword(ContentDistributionTypeKeyword(e)) == e
    ensures ContentDistributionTypeFromKeyword(ContentDistributionTypeKeyword(ContentDistributionDefault)) == ContentDistributionStretch
    ensures (exists x :: x != ContentDistributionDefault && ContentDistributionTypeKeyword(x) == id) ==> ContentDistributionTypeKeyword(ContentDistributionTypeFromKeyword(id)) == id
    ensures id !in ContentDistributionTypeParsedKeywords ==> ContentDistributionTypeFromKeyword(id) == ContentDistributionStretch
  {
    if id !in ContentDistributionTypeParsedKeywords {
      ContentDistributionTypeFallback(id);
    }
    if e != ContentDistributionDefault {
      ContentDistributionTypeRoundTrip(e);
    }
    if exists x :: x != ContentDistributionDefault && ContentDistributionTypeKeyword(x) == id {
      ContentDistributionTypeKeywordRoundTrip(id);
    }
  }

  /** OverflowAlignment: overflow alignment; the default value serialises to default, which is not
      parsed back. */
  datatype OverflowAlignment =
    | OverflowAlignmentDefault
    | OverflowAlignmentUnsafe
    | OverflowAlignmentSafe

  /** CSSIdentifierValue(OverflowAlignment): the keyword a value serialises to. */
  function OverflowAlignmentKeyword(e: OverflowAlignment): CSSValueID
  {
    match e
    case OverflowAlignmentDefault => CSSValueDefault
    case OverflowAlignmentUnsafe => CSSValueUnsafe
    case OverflowAlignmentSafe => CSSValueSafe
  }

  /** convertTo<OverflowAlignment>: the value a keyword stands for, OverflowAlignmentUnsafe for any
      other keyword. */
  function OverflowAlignmentFromKeyword(id: CSSValueID): OverflowAlignment
  {
    match id
    case CSSValueUnsafe => OverflowAlignmentUnsafe
    case CSSValueSafe => OverflowAlignmentSafe
    case _ => OverflowAlignmentUnsafe
  }

  /** Serialising then converting gives the value back (except for OverflowAlignmentDefault). */
  lemma OverflowAlignmentRoundTrip(e: OverflowAlignment)
    requires e != OverflowAlignmentDefault
    ensures OverflowAlignmentFromKeyword(OverflowAlignmentKeyword(e)) == e
  {
  }

  /** The keywords convertTo<OverflowAlignment> recognises. */
  const OverflowAlignmentParsedKeywords: set<CSSValueID> :=
    {CSSValueUnsafe, CSSValueSafe}

  lemma OverflowAlignmentFallback(id: CSSValueID)
    requires id !in OverflowAlignmentParsedKeywords
    ensures OverflowAlignmentFromKeyword(id) == OverflowAlignmentUnsafe
  {
  }

  /** Converting a keyword the table writes gives a value that serialises to it. */
  lemma OverflowAlignmentKeywordRoundTrip(id: CSSValueID)
    requires exists x :: x != OverflowAlignmentDefault && OverflowAlignmentKeyword(x) == id
    ensures OverflowAlignmentKeyword(OverflowAlignmentFromKeyword(id)) == id
  {
    var x :| x != OverflowAlignmentDefault && OverflowAlignmentKeyword(x) == id;
    OverflowAlignmentRoundTrip(x);
  }

  /** Serialising then converting gives the value back except for OverflowAlignmentDefault; a
      keyword the table writes converts to a value that serialises to that keyword; every other
      keyword converts to OverflowAlignmentUnsafe. */
  lemma {:induction false} OverflowAlignmentMapping(e: OverflowAlignment, id: CSSValueID)
    ensures e != OverflowAlignmentDefault ==> OverflowAlignmentFromKeyword(OverflowAlignmentKeyword(e)) == e
    ensures OverflowAlignmentFromKeyword(OverflowAlignmentKeyword(OverflowAlignmentDefault)) == OverflowAlignmentUnsafe
    ensures (exists x :: x != OverflowAlignmentDefault && OverflowAlignmentKeyword(x) == id) ==> OverflowAlignmentKeyword(OverflowAlignmentFromKeyword(id)) == id
    ensures id !in OverflowAlignmentParsedKeywords ==> OverflowAlignmentFromKeyword(id) == OverflowAlignmentUnsafe
  {
    if id !in OverflowAlignmentParsedKeywords {
      OverflowAlignmentFallback(id);
    }
    if e != OverflowAlignmentDefault {
      OverflowAlignmentRoundTrip(e);
    }
    if exists x :: x != OverflowAlignmentDefault && OverflowAlignmentKeyword(x) == id {
      OverflowAlignmentKeywordRoundTrip(id);
    }
  }

  /** Truncation of a double to an integer type (static_cast), toward zero. */
  function TruncateTowardZero(x: real): (r: int)
    ensures 0.0 <= x ==> r as real <= x < r as real + 1.0
    ensures x < 0.0 ==> r as real - 1.0 < x <= r as real
  {
    if x >= 0.0 then x.Floor else -((-x).Floor)
  }

  /** clampTo<T>(double) with T's range [lo, hi] (MathExtras.h is not part of
      this model): a value at or beyond a bound gives that bound, a value
      strictly inside is truncated toward zero. */
  function ClampToRange(x: real, lo: int, hi: int): (r: int)
    requires lo <= hi
    ensures lo <= r <= hi
    ensures x >= hi as real ==> r == hi
    ensures x <= lo as real ==> r == lo
    ensures lo as real < x < hi as real ==> r == TruncateTowardZero(x)
  {
    if x >= hi as real then hi
    else if x <= lo as real then lo
    else TruncateTowardZero(x)
  }

  const ShortMin: int := -0x8000
  const ShortMax: int := 0x7fff
  const UnsignedShortMax: int := 0xffff
  const IntMin: int := -0x8000_0000
  const UnsignedMax: int := 0xffff_ffff

  /** convertTo<short>, convertTo<unsigned short>, convertTo<int> and
      convertTo<unsigned> of a number. */
  function ConvertToShort(x: real): (r: int)
    ensures ShortMin <= r <= ShortMax
  {
    ClampToRange(x, ShortMin, ShortMax)
  }

  function ConvertToUnsignedShort(x: real): (r: int)
    ensures 0 <= r <= UnsignedShortMax
  {
    ClampToRange(x, 0, UnsignedShortMax)
  }

  function ConvertToInt(x: real): (r: int)
    ensures IntMin <= r <= IntMax
  {
    ClampToRange(x, IntMin, IntMax)
  }

  function ConvertToUnsigned(x: real): (r: int)
    ensures 0 <= r <= UnsignedMax
  {
    ClampToRange(x, 0, UnsignedMax)
  }

  /** An integer inside the target range converts to itself, and the
      conversion never reverses the order of two numbers. */
  lemma {:induction false} ClampToRangeProperties(x: real, y: real, n: int, lo: int, hi: int)
    requires lo <= hi
    ensures lo <= n <= hi ==> ClampToRange(n as real, lo, hi) == n
    ensures x <= y ==> ClampToRange(x, lo, hi) <= ClampToRange(y, lo, hi)
  {
    if x <= y {
      TruncateMonotone(x, y);
    }
  }

  lemma {:induction false} TruncateMonotone(x: real, y: real)
    requires x <= y
    ensures TruncateTowardZero(x) <= TruncateTowardZero(y)
  {
    if 0.0 <= x {
      assert x.Floor <= y.Floor;
    } else if y < 0.0 {
      assert (-y).Floor <= (-x).Floor;
    }
  }

  /** The unit of a numeric CSS value, as far as LineClampValue uses it. */
  datatype UnitType = UnitInteger | UnitPercentage | UnitOther

  datatype NumericValue = NumericValue(unit: UnitType, num: real)

  datatype LineClampType = LineClampLineCount | LineClampPercentage

  datatype LineClampValue = LineClampValue(value: int, kind: LineClampType)

  /** CSSPrimitiveValue(LineClampValue): a percentage clamp becomes a
      percentage, a line count an integer, with the same number. */
  function NumericFromLineClamp(v: LineClampValue): (p: NumericValue)
    ensures p.unit == (if v.kind == LineClampPercentage then UnitPercentage else UnitInteger)
    ensures p.num == v.value as real
  {
    NumericValue(if v.kind == LineClampPercentage then UnitPercentage else UnitInteger, v.value as real)
  }

  /** convertTo<LineClampValue>: integers give line counts and percentages
      give percentages, the number clamped into int; any other unit is the
      unreachable branch, modelled as None (LineClampValue.h, which defines
      its default value, is not part of this model). */
  function LineClampFromNumeric(p: NumericValue): (r: Option<LineClampValue>)
    ensures r.Some? <==> p.unit != UnitOther
    ensures r.Some? ==> IntMin <= r.value.value <= IntMax
    ensures r.Some? ==> (r.value.kind == LineClampPercentage <==> p.unit == UnitPercentage)
  {
    match p.unit
    case UnitInteger => Some(LineClampValue(ConvertToInt(p.num), LineClampLineCount))
    case UnitPercentage => Some(LineClampValue(ConvertToInt(p.num), LineClampPercentage))
    case UnitOther => None
  }

  /** A line clamp whose value fits in int survives the trip through a
      numeric value. */
  lemma {:induction false} LineClampRoundTrip(v: LineClampValue)
    requires IntMin <= v.value <= IntMax
    ensures LineClampFromNumeric(NumericFromLineClamp(v)) == Some(v)
  {
    ClampToRangeProperties(0.0, 0.0, v.value, IntMin, IntMax);
  }
}
