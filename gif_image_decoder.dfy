/** The GIF decoder's bookkeeping and row writer (GIFImageDecoder.cpp): how a
    decoded row of colour-table indexes is written into the frame's pixel
    buffer, the loop-count rule, and the per-frame queries. The LZW decoding
    itself (GIFImageReader) is not part of this model: its results are the
    `Reader` value. */
module Gif {
  import opened Common

  /** Animation constants of ImageAnimation.h. */
  const AnimationLoopOnce: int := 0
  const AnimationNone: int := -2

  /** A colour map: whether the image defined one and its RGBA entries. */
  datatype ColorMap = ColorMap(defined: bool, table: seq<int>)

  datatype DisposalMethod = DisposeNotSpecified | DisposeKeep | DisposeOverwriteBgcolor | DisposeOverwritePrevious

  /** What the reader knows about one frame. */
  datatype FrameContext = FrameContext(
    xOffset: nat, yOffset: nat,
    localColorMap: ColorMap,
    transparentPixel: nat,
    headerDefined: bool,
    complete: bool,
    delayTime: int,
    disposal: DisposalMethod)

  /** The reader's state: its frames (imagesCount is their number), the loop
      count when one has been seen, and whether parsing reached the trailer. */
  datatype Reader = Reader(
    frames: seq<FrameContext>,
    loopCount: Option<int>,
    parseCompleted: bool,
    globalColorMap: ColorMap)

  datatype ImageFrame = ImageFrame(disposal: DisposalMethod)

  /** The cached repetition count after one call to repetitionCount(). */
  function RepetitionRule(cached: int, allDataReceived: bool, failed: bool, reader: Option<Reader>): int
  {
    if allDataReceived && reader.Some? && reader.value.parseCompleted && |reader.value.frames| == 1 then AnimationNone
    else if failed || (reader.Some? && |reader.value.frames| == 0) then AnimationLoopOnce
    else if reader.Some? && reader.value.loopCount.Some? then reader.value.loopCount.value
    else cached
  }

  /** Complete data holding a single image never animates, whatever loop
      count was seen. */
  lemma SingleImageNeverAnimates(cached: int, failed: bool, r: Reader)
    requires r.parseCompleted && |r.frames| == 1
    ensures RepetitionRule(cached, true, failed, Some(r)) == AnimationNone
  {
  }

  /** A failure, or a reader with no images, loops once even after a loop
      count was seen, unless the single-image rule applies. */
  lemma FailureLoopsOnce(cached: int, allDataReceived: bool, reader: Option<Reader>)
    requires !(allDataReceived && reader.Some? && reader.value.parseCompleted && |reader.value.frames| == 1)
    ensures RepetitionRule(cached, allDataReceived, true, reader) == AnimationLoopOnce
  {
  }

  /** With no reader, or a reader that has not seen a loop count, the cached
      value is kept. */
  lemma CachedValueKept(cached: int, allDataReceived: bool, reader: Option<Reader>)
    requires reader.None? || (reader.value.loopCount.None? && |reader.value.frames| > 1)
    ensures RepetitionRule(cached, allDataReceived, false, reader) == cached
  {
  }

  /** Asking twice gives the same answer as asking once. */
  lemma RepetitionRuleIdempotent(cached: int, allDataReceived: bool, failed: bool, reader: Option<Reader>)
    ensures var once := RepetitionRule(cached, allDataReceived, failed, reader);
            RepetitionRule(once, allDataReceived, failed, reader) == once
  {
  }

  /** The colour of one pixel: the table entry for an opaque index, otherwise
      0 when transparent pixels are written and the old pixel when not. */
  function NewPixel(previous: int, index: nat, table: seq<int>, transparentPixel: nat, writeTransparentPixels: bool): int
  {
    if IsOpaqueIndex(index, table, transparentPixel) then table[index]
    else if writeTransparentPixels then 0
    else previous
  }

  /** An index that is not the transparent one and is inside the table. */
  predicate IsOpaqueIndex(index: nat, table: seq<int>, transparentPixel: nat)
  {
    index != transparentPixel && index < |table|
  }

  /** The part of the image a row call covers: columns [xBegin, xEnd) of rows
      [yBegin, yEnd), cut to the image size. */
  datatype Window = Window(xBegin: int, xEnd: int, yBegin: int, yEnd: int)

  function RowWindow(frame: FrameContext, imageWidth: nat, imageHeight: nat, width: nat, rowNumber: nat, repeatCount: nat): (w: Window)
    ensures w.xEnd <= imageWidth && w.yEnd <= imageHeight
    ensures w.xEnd - w.xBegin <= width
  {
    Window(frame.xOffset, Min(frame.xOffset + width, imageWidth),
           frame.yOffset + rowNumber, Min(frame.yOffset + rowNumber + repeatCount, imageHeight))
  }

  /** The early return of haveDecodedRow for an empty width or window. */
  predicate EmptyWindow(w: Window, width: nat)
  {
    width == 0 || w.xBegin < 0 || w.yBegin < 0 || w.xEnd <= w.xBegin || w.yEnd <= w.yBegin
  }

  /** The local colour table when the frame defines one, else the global one
      (GIF89a sections 19 and 21). */
  function ColorTable(frame: FrameContext, reader: Reader): seq<int>
  {
    if frame.localColorMap.defined then frame.localColorMap.table else reader.globalColorMap.table
  }

  /** One repeat count more than one copies the row down to the window's
      last row; a count of one leaves a window of exactly one row. */
  lemma {:induction false} SingleRowWithoutRepeat(frame: FrameContext, imageWidth: nat, imageHeight: nat, width: nat, rowNumber: nat)
    requires !EmptyWindow(RowWindow(frame, imageWidth, imageHeight, width, rowNumber, 1), width)
    ensures var w := RowWindow(frame, imageWidth, imageHeight, width, rowNumber, 1);
            w.yEnd == w.yBegin + 1
  {
  }

  /** Some of the first n indexes of the row is not opaque. */
  predicate SawNonOpaque(row: seq<nat>, n: int, table: seq<int>, transparentPixel: nat)
  {
    exists k :: 0 <= k < n && k < |row| && !IsOpaqueIndex(row[k], table, transparentPixel)
  }

  /** One more index scanned. */
  lemma SawNonOpaqueStep(row: seq<nat>, n: nat, table: seq<int>, transparentPixel: nat)
    requires n < |row|
    ensures SawNonOpaque(row, n + 1, table, transparentPixel) <==>
            SawNonOpaque(row, n, table, transparentPixel) || !IsOpaqueIndex(row[n], table, transparentPixel)
  {
  }

  class GIFImageDecoder {
    var reader: Option<Reader>
    var failed: bool
    var allDataReceived: bool
    var repetitionCount: int
    var frameBufferCache: seq<ImageFrame>
    var currentBufferSawAlpha: bool
    var pixelsChanged: bool

    constructor()
      ensures reader.None? && !failed && !allDataReceived
      ensures repetitionCount == AnimationLoopOnce && frameBufferCache == []
    {
      reader := None;
      failed := false;
      allDataReceived := false;
      repetitionCount := AnimationLoopOnce;
      frameBufferCache := [];
      currentBufferSawAlpha := false;
      pixelsChanged := false;
    }

    /** repetitionCount: updates the cached count by the priority rule and
        returns it. */
    method RepetitionCount() returns (r: int)
      modifies this`repetitionCount
      ensures r == repetitionCount
      ensures repetitionCount == RepetitionRule(old(repetitionCount), allDataReceived, failed, reader)
    {
      if allDataReceived && reader.Some? && reader.value.parseCompleted && |reader.value.frames| == 1 {
        repetitionCount := AnimationNone;
      } else if failed || (reader.Some? && |reader.value.frames| == 0) {
        repetitionCount := AnimationLoopOnce;
      } else if reader.Some? && reader.value.loopCount.Some? {
        repetitionCount := reader.value.loopCount.value;
      }
      return repetitionCount;
    }

    /** frameIsCompleteAtIndex: only a frame the reader has already parsed
        can be complete. */
    predicate FrameIsCompleteAtIndex(index: nat)
      reads this
      ensures FrameIsCompleteAtIndex(index) ==> reader.Some? && index < |reader.value.frames|
    {
      reader.Some? && index < |reader.value.frames| && reader.value.frames[index].complete
    }

    /** frameDurationAtIndex: the frame's delay once its header is known, 0
        before. */
    function FrameDurationAtIndex(index: nat): (d: int)
      reads this
      ensures d != 0 ==> reader.Some? && index < |reader.value.frames| && reader.value.frames[index].headerDefined
      ensures reader.Some? && index < |reader.value.frames| && reader.value.frames[index].headerDefined ==>
        d == reader.value.frames[index].delayTime
    {
      if reader.Some? && index < |reader.value.frames| && reader.value.frames[index].headerDefined
      then reader.value.frames[index].delayTime
      else 0
    }

    /** decodeFrameCount: parses for the frame count; `parsed` is the reader
        after that parse and `parseOk` its verdict. A failure destroys the
        reader, and the count then falls back to the frames already in the
        cache instead of 0. */
    method DecodeFrameCount(parsed: Reader, parseOk: bool) returns (count: nat)
      modifies this`reader, this`failed
      ensures old(failed) ==> reader == old(reader) && failed
      ensures !old(failed) && parseOk ==> reader == Some(parsed) && !failed
      ensures !old(failed) && !parseOk ==> reader.None? && failed
      ensures failed ==> count == |frameBufferCache|
      ensures !failed ==> reader.Some? && count == |reader.value.frames|
    {
      if !failed {
        reader := Some(parsed);
        if !parseOk {
          reader := None;
          failed := true;
        }
      }
      if failed {
        count := |frameBufferCache|;
      } else {
        count := |reader.value.frames|;
      }
    }

    /** onInitFrameBuffer: a frame just set up has shown no alpha yet. */
    method OnInitFrameBuffer()
      modifies this`currentBufferSawAlpha
      ensures !currentBufferSawAlpha
    {
      currentBufferSawAlpha := false;
    }

    /** canReusePreviousFrameBuffer: false exactly for a frame disposed by
        restoring the previous one. */
    predicate CanReusePreviousFrameBuffer(frameIndex: nat)
      requires frameIndex < |frameBufferCache|
      reads this
    {
      frameBufferCache[frameIndex].disposal != DisposeOverwritePrevious
    }

    /** The loop of haveDecodedRow that writes transparent pixels as 0. */
    method WriteRowWithTransparency(buffer: array2<int>, y: nat, xBegin: nat, xEnd: nat, row: seq<nat>, table: seq<int>, transparentPixel: nat)
      requires y < buffer.Length0 && xBegin <= xEnd <= buffer.Length1 && |row| >= xEnd - xBegin
      modifies buffer, this`currentBufferSawAlpha
      ensures forall i, j :: 0 <= i < buffer.Length0 && 0 <= j < buffer.Length1 ==>
        buffer[i, j] == if i == y && xBegin <= j < xEnd
                        then NewPixel(old(buffer[i, j]), row[j - xBegin], table, transparentPixel, true)
                        else old(buffer[i, j])
      ensures currentBufferSawAlpha <==>
        old(currentBufferSawAlpha) || SawNonOpaque(row, xEnd - xBegin, table, transparentPixel)
    {
      var x := xBegin;
      while x < xEnd
        invariant xBegin <= x <= xEnd
        invariant forall i, j :: 0 <= i < buffer.Length0 && 0 <= j < buffer.Length1 ==>
          buffer[i, j] == if i == y && xBegin <= j < x
                          then NewPixel(old(buffer[i, j]), row[j - xBegin], table, transparentPixel, true)
                          else old(buffer[i, j])
        invariant currentBufferSawAlpha <==>
          old(currentBufferSawAlpha) || SawNonOpaque(row, x - xBegin, table, transparentPixel)
      {
        var sourceValue := row[x - xBegin];
        if sourceValue != transparentPixel && sourceValue < |table| {
          buffer[y, x] := table[sourceValue];
        } else {
          buffer[y, x] := 0;
          currentBufferSawAlpha := true;
        }
        SawNonOpaqueStep(row, x - xBegin, table, transparentPixel);
        x := x + 1;
      }
    }

    /** The loop of haveDecodedRow that leaves transparent pixels untouched. */
    method WriteRowKeepingTransparent(buffer: array2<int>, y: nat, xBegin: nat, xEnd: nat, row: seq<nat>, table: seq<int>, transparentPixel: nat)
      requires y < buffer.Length0 && xBegin <= xEnd <= buffer.Length1 && |row| >= xEnd - xBegin
      modifies buffer, this`currentBufferSawAlpha
      ensures forall i, j :: 0 <= i < buffer.Length0 && 0 <= j < buffer.Length1 ==>
        buffer[i, j] == if i == y && xBegin <= j < xEnd
                        then NewPixel(old(buffer[i, j]), row[j - xBegin], table, transparentPixel, false)
                        else old(buffer[i, j])
      ensures currentBufferSawAlpha <==>
        old(currentBufferSawAlpha) || SawNonOpaque(row, xEnd - xBegin, table, transparentPixel)
    {
      var x := xBegin;
      while x < xEnd
        invariant xBegin <= x <= xEnd
        invariant forall i, j :: 0 <= i < buffer.Length0 && 0 <= j < buffer.Length1 ==>
          buffer[i, j] == if i == y && xBegin <= j < x
                          then NewPixel(old(buffer[i, j]), row[j - xBegin], table, transparentPixel, false)
                          else old(buffer[i, j])
        invariant currentBufferSawAlpha <==>
          old(currentBufferSawAlpha) || SawNonOpaque(row, x - xBegin, table, transparentPixel)
      {
        var sourceValue := row[x - xBegin];
        if sourceValue != transparentPixel && sourceValue < |table| {
          buffer[y, x] := table[sourceValue];
        } else {
          currentBufferSawAlpha := true;
        }
        SawNonOpaqueStep(row, x - xBegin, table, transparentPixel);
        x := x + 1;
      }
    }
  }

  /** ImageFrame::copyRowNTimes: copies columns [xBegin, xEnd) of row yBegin
      into every row below it up to yEnd. */
  method CopyRowNTimes(buffer: array2<int>, xBegin: nat, xEnd: nat, yBegin: nat, yEnd: nat)
    requires xBegin <= xEnd <= buffer.Length1 && yBegin < yEnd <= buffer.Length0
    modifies buffer
    ensures forall i, j :: 0 <= i < buffer.Length0 && 0 <= j < buffer.Length1 ==>
      buffer[i, j] == if yBegin < i < yEnd && xBegin <= j < xEnd then old(buffer[yBegin, j]) else old(buffer[i, j])
  {
    var y := yBegin + 1;
    while y < yEnd
      invariant yBegin < y <= yEnd || y == yEnd
      invariant forall i, j :: 0 <= i < buffer.Length0 && 0 <= j < buffer.Length1 ==>
        buffer[i, j] == if yBegin < i < y && xBegin <= j < xEnd then old(buffer[yBegin, j]) else old(buffer[i, j])
    {
      var x := xBegin;
      while x < xEnd
        invariant xBegin <= x <= xEnd
        invariant forall i, j :: 0 <= i < buffer.Length0 && 0 <= j < buffer.Length1 ==>
          buffer[i, j] == if (yBegin < i < y && xBegin <= j < xEnd) || (i == y && xBegin <= j < x)
                          then old(buffer[yBegin, j]) else old(buffer[i, j])
      {
        buffer[y, x] := buffer[yBegin, x];
        x := x + 1;
      }
      y := y + 1;
    }
  }

  /** haveDecodedRow: writes one decoded row of frame `frameIndex` into
      `buffer` (the frame's pixels, image-sized), repeated down `repeatCount`
      rows. `initOk` is the verdict of initFrameBuffer and `freshFrame` says
      whether it set the frame up now (the frame was still empty), in which
      case onInitFrameBuffer clears the saw-alpha flag before the row is
      written. Returns false only when that initialisation fails. */
  method HaveDecodedRow(dec: GIFImageDecoder, buffer: array2<int>, frameIndex: nat, row: seq<nat>, width: nat,
                        rowNumber: nat, repeatCount: nat, writeTransparentPixels: bool, initOk: bool, freshFrame: bool)
    returns (ok: bool)
    requires dec.reader.Some? && frameIndex < |dec.reader.value.frames|
    requires |row| >= width
    modifies buffer, dec`currentBufferSawAlpha, dec`pixelsChanged
    ensures var frame := dec.reader.value.frames[frameIndex];
            var w := RowWindow(frame, buffer.Length1, buffer.Length0, width, rowNumber, repeatCount);
            var table := ColorTable(frame, dec.reader.value);
            var writes := !EmptyWindow(w, width) && |table| > 0 && initOk;
            && (ok <==> EmptyWindow(w, width) || |table| == 0 || initOk)
            && (forall i, j :: 0 <= i < buffer.Length0 && 0 <= j < buffer.Length1 ==>
                  buffer[i, j] == if writes && w.yBegin <= i < w.yEnd && w.xBegin <= j < w.xEnd
                                  then NewPixel(old(buffer[w.yBegin, j]), row[j - w.xBegin], table, frame.transparentPixel, writeTransparentPixels)
                                  else old(buffer[i, j]))
            && (dec.pixelsChanged <==> old(dec.pixelsChanged) || writes)
            && (dec.currentBufferSawAlpha <==>
                  (old(dec.currentBufferSawAlpha) && !(writes && freshFrame))
                  || (writes && SawNonOpaque(row, w.xEnd - w.xBegin, table, frame.transparentPixel)))
  {
    var frame := dec.reader.value.frames[frameIndex];
    var xBegin := frame.xOffset;
    var yBegin := frame.yOffset + rowNumber;
    var xEnd := Min(frame.xOffset + width, buffer.Length1);
    var yEnd := Min(frame.yOffset + rowNumber + repeatCount, buffer.Length0);
    if width == 0 || xBegin < 0 || yBegin < 0 || xEnd <= xBegin || yEnd <= yBegin {
      return true;
    }
    var table := if frame.localColorMap.defined then frame.localColorMap.table else dec.reader.value.globalColorMap.table;
    if |table| == 0 {
      return true;
    }
    if !initOk {
      return false;
    }
    if freshFrame {
      dec.OnInitFrameBuffer();
    }
    if writeTransparentPixels {
      dec.WriteRowWithTransparency(buffer, yBegin, xBegin, xEnd, row, table, frame.transparentPixel);
    } else {
      dec.WriteRowKeepingTransparent(buffer, yBegin, xBegin, xEnd, row, table, frame.transparentPixel);
    }
    if repeatCount > 1 {
      CopyRowNTimes(buffer, xBegin, xEnd, yBegin, yEnd);
    }
    dec.pixelsChanged := true;
    return true;
  }
}
