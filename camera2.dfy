/** The Camera2 video/photo capture engine (VideoCaptureCamera2.java).

    The engine is a class whose fields are the lifecycle state, the negotiated
    capture format and the photo settings. The hardware's asynchronous
    callbacks (device opened / disconnected / error, preview and photo session
    configured / failed, image available) are ordinary methods that may be
    called in any order. Everything the engine reports to the native layer
    (frames, errors, "started", photo payloads) is appended to an event log.
    Platform calls that may throw are given as parameters saying whether they
    succeeded. */
module Camera2 {
  import opened Common

  datatype CameraState = Opening | Configuring | Started | Stopped

  /** AndroidMeteringMode: the portable focus / exposure / white-balance modes. */
  datatype MeteringMode = NotSet | NoneMode | Continuous | SingleShot | Fixed

  /** AndroidFillLightMode. */
  datatype FillLightMode = FillNotSet | FillNone | FillOff | FillAuto | FillFlash | FillTorch

  datatype PixelFormat = Yuv420888 | Jpeg | OtherFormat(code: int)

  datatype Size = Size(width: int, height: int)

  datatype FpsRange = FpsRange(lower: int, upper: int)

  datatype CaptureFormat = CaptureFormat(width: int, height: int, frameRate: int, pixelFormat: PixelFormat)

  /** android.graphics.Rect; `new Rect()` is all zeroes. */
  datatype Rect = Rect(left: int, top: int, right: int, bottom: int)
  {
    predicate IsEmpty() { left >= right || top >= bottom }
    function Width(): int { right - left }
    function Height(): int { bottom - top }
  }

  const EmptyRect := Rect(0, 0, 0, 0)

  /** MeteringRectangle.METERING_WEIGHT_MAX */
  const MeteringWeightMax := 1000

  datatype MeteringRect = MeteringRect(x: int, y: int, width: int, height: int, weight: int)
  {
    /** getRect().isEmpty() */
    predicate IsEmpty() { width <= 0 || height <= 0 }
  }

  // Values of the capture-request keys the engine writes (CameraMetadata constants).
  datatype AfMode = AfOff | AfAuto | AfMacro | AfContinuousVideo | AfContinuousPicture | AfEdof
  datatype AeMode = AeOff | AeOn | AeOnAutoFlash | AeOnAlwaysFlash | AeOnAutoFlashRedeye
  datatype FlashMode = FlashOff | FlashSingle | FlashTorch
  datatype AwbMode =
    | AwbOff | AwbAuto | AwbIncandescent | AwbFluorescent | AwbWarmFluorescent
    | AwbDaylight | AwbCloudyDaylight | AwbTwilight | AwbShade

  /** The keys configureCommonCaptureSettings may set on a request builder;
      `None` means the key is left at the template's default. */
  datatype CaptureRequest = CaptureRequest(
    afMode: Option<AfMode>,
    afTriggerStart: bool,
    aeMode: Option<AeMode>,
    aeTargetFpsRange: Option<FpsRange>,
    flashMode: Option<FlashMode>,
    aeExposureCompensation: Option<int>,
    awbLock: Option<bool>,
    awbMode: Option<AwbMode>,
    afRegions: Option<MeteringRect>,
    aeRegions: Option<MeteringRect>,
    awbRegions: Option<MeteringRect>,
    cropRegion: Option<Rect>,
    sensitivity: Option<int>)

  const UnsetRequest := CaptureRequest(None, false, None, None, None, None, None, None, None, None, None, None, None)

  /** The engine's settings fields that configureCommonCaptureSettings reads. */
  datatype Settings = Settings(
    focusMode: MeteringMode,
    exposureMode: MeteringMode,
    whiteBalanceMode: MeteringMode,
    fillLightMode: FillLightMode,
    redEyeReduction: bool,
    aeFpsRange: FpsRange,
    exposureCompensation: int,
    colorTemperature: int,
    areaOfInterest: Option<MeteringRect>,
    cropRect: Rect,
    iso: int)

  /** What the engine reports to the native layer. */
  datatype Event =
    | FrameAvailable(width: int, height: int, timestamp: int)
    | Error
    | CaptureStarted
    | PhotoTaken(callbackId: int, byteCount: nat)

  /** An image handed to an ImageReader listener. */
  datatype Image = Image(format: PixelFormat, planes: nat, width: int, height: int, timestamp: int, byteCount: nat)

  datatype PhotoStage = AwaitingSession | AwaitingImage | Done

  /** One accepted takePhoto call: the state its listeners close over. */
  datatype PhotoJob = PhotoJob(callbackId: int, size: Size, request: CaptureRequest, stage: PhotoStage)

  /** The outcome of the platform calls inside createPreviewObjects. */
  datatype PreviewSetup = SetupOk | RequestFails | SessionFails

  /** The characteristics of the device that setPhotoOptions reads. */
  datatype Characteristics = Characteristics(activeArray: Rect, maxRegionsAf: int, maxRegionsAe: int, maxRegionsAwb: int)

  /** The portable photo settings passed to setPhotoOptions. The float array of
      points of interest is given as at most one point; the exposure
      compensation is given already divided by the device's step and rounded. */
  datatype PhotoOptions = PhotoOptions(
    zoom: real,
    focusMode: MeteringMode,
    exposureMode: MeteringMode,
    width: real,
    height: real,
    pointOfInterest: Option<(real, real)>,
    hasExposureCompensation: bool,
    exposureCompensationSteps: int,
    whiteBalanceMode: MeteringMode,
    iso: real,
    hasRedEyeReduction: bool,
    redEyeReduction: bool,
    fillLightMode: FillLightMode,
    colorTemperature: real)

  // ---------------------------------------------------------------------------
  // Closest-size matching (findClosestSizeInArray)

  /** The distance the source minimises: the sum of per-axis differences, an
      axis whose target is not positive counting as 0, each subtraction, absolute
      value and the sum computed in Java's wrapping 32-bit int. */
  function SizeDiff(s: Size, width: int, height: int): int
  {
    Wrap32((if width > 0 then JavaAbs(Wrap32(s.width - width)) else 0)
         + (if height > 0 then JavaAbs(Wrap32(s.height - height)) else 0))
  }

  /** Java's Math.abs on an int: the negation wraps, so Integer.MIN_VALUE is
      its own absolute value. */
  function JavaAbs(x: int): (r: int)
    requires -0x8000_0000 <= x <= IntMax
    ensures -0x8000_0000 < x ==> r == Abs(x)
    ensures x == -0x8000_0000 ==> r == x
  {
    if x < 0 then Wrap32(-x) else x
  }

  function SizeCosts(sizes: seq<Size>, width: int, height: int): (c: seq<int>)
    ensures |c| == |sizes|
    ensures forall i :: 0 <= i < |sizes| ==> c[i] == SizeDiff(sizes[i], width, height)
  {
    seq(|sizes|, i requires 0 <= i < |sizes| => SizeDiff(sizes[i], width, height))
  }

  /** The size findClosestSizeInArray picks, as a function. */
  function ClosestSize(sizes: Option<seq<Size>>, width: int, height: int): Option<Size>
  {
    if sizes.None? then None
    else
      match FirstMinBelow(SizeCosts(sizes.value, width, height), IntMax)
      case None => None
      case Some(k) => Some(sizes.value[k])
  }

  /** The closest size is missing exactly for a null array or one whose every
      distance reaches Integer.MAX_VALUE. */
  lemma ClosestSizeMissingIffAllFar(sizes: Option<seq<Size>>, width: int, height: int)
    ensures sizes.None? ==> ClosestSize(sizes, width, height).None?
    ensures sizes.Some? ==>
      (ClosestSize(sizes, width, height).None? <==> forall s :: s in sizes.value ==> SizeDiff(s, width, height) >= IntMax)
  {
    if sizes.Some? {
      var costs := SizeCosts(sizes.value, width, height);
      if FirstMinBelow(costs, IntMax).None? {
        forall s | s in sizes.value ensures SizeDiff(s, width, height) >= IntMax {
          var i :| 0 <= i < |sizes.value| && sizes.value[i] == s;
          assert costs[i] >= IntMax;
        }
      }
    }
  }

  /** A closest size, when there is one, is the first entry of least distance. */
  lemma ClosestSizeIsFirstNearest(sizes: Option<seq<Size>>, width: int, height: int)
    ensures var closest := ClosestSize(sizes, width, height);
      closest.Some? ==> sizes.Some? && exists k :: (
        && 0 <= k < |sizes.value| && sizes.value[k] == closest.value
        && (forall j :: 0 <= j < |sizes.value| ==> SizeDiff(closest.value, width, height) <= SizeDiff(sizes.value[j], width, height))
        && (forall j :: 0 <= j < k ==> SizeDiff(closest.value, width, height) < SizeDiff(sizes.value[j], width, height)))
  {
    if sizes.Some? {
      var costs := SizeCosts(sizes.value, width, height);
      var k := FirstMinBelow(costs, IntMax);
      if k.Some? {
        var i := k.value;
        assert IsFirstMin(costs, i);
        assert sizes.value[i] == ClosestSize(sizes, width, height).value;
        assert forall j :: 0 <= j < |sizes.value| ==> SizeDiff(sizes.value[i], width, height) <= SizeDiff(sizes.value[j], width, height);
      }
    }
  }

  /** findClosestSizeInArray: a scan with a running minimum that starts at
      Integer.MAX_VALUE and is replaced only on a strictly smaller distance. */
  method FindClosestSizeInArray(sizes: Option<seq<Size>>, width: int, height: int) returns (closest: Option<Size>)
    ensures sizes.None? ==> closest.None?
    ensures sizes.Some? ==>
      (closest.None? <==> forall s :: s in sizes.value ==> SizeDiff(s, width, height) >= IntMax)
    ensures closest.Some? ==> sizes.Some? && exists k :: (
      && 0 <= k < |sizes.value| && sizes.value[k] == closest.value
      && (forall j :: 0 <= j < |sizes.value| ==> SizeDiff(closest.value, width, height) <= SizeDiff(sizes.value[j], width, height))
      && (forall j :: 0 <= j < k ==> SizeDiff(closest.value, width, height) < SizeDiff(sizes.value[j], width, height)))
    ensures closest == ClosestSize(sizes, width, height)
  {
    ClosestSizeMissingIffAllFar(sizes, width, height);
    ClosestSizeIsFirstNearest(sizes, width, height);
    if sizes.None? {
      return None;
    }
    var a := sizes.value;
    ghost var costs := SizeCosts(a, width, height);
    var minDiff := IntMax;
    var best: Option<nat> := None;
    var i := 0;
    while i < |a|
      invariant 0 <= i <= |a|
      invariant best == FirstMinBelow(costs[..i], IntMax)
      invariant minDiff == if best.Some? then costs[best.value] else IntMax
    {
      FirstMinBelowStep(costs, i, IntMax);
      var diff := SizeDiff(a[i], width, height);
      if diff < minDiff {
        minDiff := diff;
        best := Some(i);
      }
      i := i + 1;
    }
    assert costs[..|a|] == costs;
    closest := if best.Some? then Some(a[best.value]) else None;
  }

  /** With sizes and targets of realistic magnitude, there is no match only when
      the array is null or empty. */
  lemma ClosestSizeMissingOnlyWhenEmpty(sizes: Option<seq<Size>>, width: int, height: int)
    requires 0 <= width < 0x4000_0000 && 0 <= height < 0x4000_0000
    requires sizes.Some? ==> forall s :: s in sizes.value ==> 0 <= s.width < 0x4000_0000 && 0 <= s.height < 0x4000_0000
    ensures ClosestSize(sizes, width, height).None? <==> sizes.None? || |sizes.value| == 0
  {
    if sizes.Some? && |sizes.value| > 0 {
      var c := SizeCosts(sizes.value, width, height);
      assert c[0] < IntMax;
    }
  }

  /** A wildcard (zero) width matches on height alone: among 640x480 and
      1280x720, a target of 0x720 picks 1280x720. */
  lemma ClosestSizeWildcardExample()
    ensures ClosestSize(Some([Size(640, 480), Size(1280, 720)]), 0, 720) == Some(Size(1280, 720))
  {
    var c := SizeCosts([Size(640, 480), Size(1280, 720)], 0, 720);
    assert c == [240, 0];
    assert FirstMinBelow(c[..1], IntMax) == Some(0);
  }

  // ---------------------------------------------------------------------------
  // Nearest colour-temperature preset (getClosestWhiteBalance)

  /** COLOR_TEMPERATURES_MAP: increasing Kelvin keys and their presets. */
  const ColorTemperatures: seq<(int, AwbMode)> := [
    (2850, AwbIncandescent), (2940, AwbWarmFluorescent), (3000, AwbTwilight),
    (4230, AwbFluorescent), (6000, AwbCloudyDaylight), (6504, AwbDaylight), (7000, AwbShade)]

  function TemperatureCosts(table: seq<(int, AwbMode)>, temperature: int): (c: seq<int>)
    ensures |c| == |table|
    ensures forall i :: 0 <= i < |table| ==> c[i] == Abs(temperature - table[i].0)
  {
    seq(|table|, i requires 0 <= i < |table| => Abs(temperature - table[i].0))
  }

  /** The preset getClosestWhiteBalance returns; None stands for its -1. */
  function ClosestWhiteBalance(table: seq<(int, AwbMode)>, temperature: int): Option<AwbMode>
  {
    match FirstMinBelow(TemperatureCosts(table, temperature), IntMax)
    case None => None
    case Some(k) => Some(table[k].1)
  }

  method GetClosestWhiteBalance(table: seq<(int, AwbMode)>, temperature: int) returns (matched: Option<AwbMode>)
    ensures matched.None? <==> forall i :: 0 <= i < |table| ==> Abs(temperature - table[i].0) >= IntMax
    ensures matched.Some? ==> exists k :: IsFirstMin(TemperatureCosts(table, temperature), k) && matched.value == table[k].1
    ensures matched == ClosestWhiteBalance(table, temperature)
  {
    ghost var costs := TemperatureCosts(table, temperature);
    var minDiff := IntMax;
    var best: Option<nat> := None;
    matched := None;
    for i := 0 to |table|
      invariant best.None? ==> (matched.None? && minDiff == IntMax
        && forall j :: 0 <= j < i ==> costs[j] >= IntMax)
      invariant best.Some? ==> (best.value < i && minDiff == costs[best.value] < IntMax
        && (forall j :: 0 <= j < i ==> minDiff <= costs[j])
        && (forall j :: 0 <= j < best.value ==> minDiff < costs[j])
        && matched == Some(table[best.value].1))
    {
      var diff := Abs(temperature - table[i].0);
      if diff >= minDiff {
        continue;
      }
      minDiff := diff;
      best := Some(i);
      matched := Some(table[i].1);
    }
    var spec := FirstMinBelow(costs, IntMax);
    if best.Some? {
      FirstMinUnique(costs, best.value, spec.value);
    }
  }

  /** Every temperature the engine can hold (a positive 32-bit value) has a preset. */
  lemma WhiteBalanceAlwaysFound(temperature: int)
    requires 0 < temperature <= IntMax
    ensures ClosestWhiteBalance(ColorTemperatures, temperature).Some?
  {
    assert TemperatureCosts(ColorTemperatures, temperature)[0] < IntMax;
  }

  /** 3100 K is 100 from 3000 (TWILIGHT) and 1130 from 4230. */
  lemma WhiteBalanceExample()
    ensures ClosestWhiteBalance(ColorTemperatures, 3100) == Some(AwbTwilight)
  {
    var c := TemperatureCosts(ColorTemperatures, 3100);
    assert c == [250, 160, 100, 1130, 2900, 3404, 3900];
    assert IsFirstMin(c, 2);
    FirstMinUnique(c, 2, FirstMinBelow(c, IntMax).value);
  }

  /** On a tie the lower key wins: 2895 is 45 from both 2850 and 2940. */
  lemma WhiteBalanceTieGoesToLowerKey()
    ensures ClosestWhiteBalance(ColorTemperatures, 2895) == Some(AwbIncandescent)
  {
    var c := TemperatureCosts(ColorTemperatures, 2895);
    assert c == [45, 45, 105, 1335, 3105, 3609, 4105];
    assert IsFirstMin(c, 0);
    FirstMinUnique(c, 0, FirstMinBelow(c, IntMax).value);
  }

  /** setPhotoOptions stores `(int) Math.round(..)`: a colour temperature of
      4294972296 (2^32 + 5000) is kept as 5000, so a FIXED white balance picks
      FLUORESCENT (4230 K) rather than the highest preset; 3e9 becomes a
      negative int; and a value beyond the long range saturates to
      Long.MAX_VALUE, whose low 32 bits are -1. */
  lemma NarrowedPhotoOptions()
    ensures RoundToInt(4294972296.0) == 5000
    ensures ClosestWhiteBalance(ColorTemperatures, RoundToInt(4294972296.0)) == Some(AwbFluorescent)
    ensures RoundToInt(3000000000.0) == -1294967296
    ensures RoundToInt(1e19) == -1
  {
    var c := TemperatureCosts(ColorTemperatures, 5000);
    assert c == [2150, 2060, 2000, 770, 1000, 1504, 2000];
    assert IsFirstMin(c, 3);
    FirstMinUnique(c, 3, FirstMinBelow(c, IntMax).value);
    assert Round(1e19) > LongMax;
    Wrap32Unique(LongMax, -1);
  }

  // ---------------------------------------------------------------------------
  // Translation of settings into capture-request keys (configureCommonCaptureSettings)

  // configureCommonCaptureSettings, one group of builder calls at a time. Each
  // group states which keys it may touch; the others keep their values.

  function SetFocusKeys(b: CaptureRequest, focus: MeteringMode): (r: CaptureRequest)
    ensures r.(afMode := b.afMode, afTriggerStart := b.afTriggerStart) == b
  {
    if focus == Continuous then b.(afMode := Some(AfContinuousPicture))
    else if focus == SingleShot then b.(afMode := Some(AfContinuousPicture), afTriggerStart := true)
    else if focus == Fixed then b.(afMode := Some(AfOff))
    else b
  }

  function SetExposureKeys(b: CaptureRequest, exposure: MeteringMode, fps: FpsRange): (r: CaptureRequest)
    ensures r.(aeMode := b.aeMode, aeTargetFpsRange := b.aeTargetFpsRange) == b
  {
    if exposure == NoneMode || exposure == Fixed then b.(aeMode := Some(AeOff))
    else b.(aeMode := Some(AeOn), aeTargetFpsRange := Some(fps))
  }

  function SetFillLightKeys(b: CaptureRequest, fill: FillLightMode, redEye: bool): (r: CaptureRequest)
    ensures r.(aeMode := b.aeMode, flashMode := b.flashMode) == b
  {
    match fill
    case FillOff => b.(flashMode := Some(FlashOff))
    case FillAuto => b.(aeMode := Some(if redEye then AeOnAutoFlashRedeye else AeOnAutoFlash))
    case FillFlash => b.(aeMode := Some(AeOnAlwaysFlash))
    case FillTorch => b.(aeMode := Some(AeOn), flashMode := Some(FlashTorch))
    case _ => b
  }

  function SetWhiteBalanceKeys(b: CaptureRequest, wb: MeteringMode, temperature: int): (r: CaptureRequest)
    ensures r.(awbLock := b.awbLock, awbMode := b.awbMode) == b
  {
    if wb == Continuous then b.(awbLock := Some(false), awbMode := Some(AwbAuto))
    else if wb == NoneMode then b.(awbLock := Some(false), awbMode := Some(AwbOff))
    else if wb == Fixed then
      var locked := b.(awbLock := Some(true));
      var preset := if temperature > 0 then ClosestWhiteBalance(ColorTemperatures, temperature) else None;
      if preset.Some? then locked.(awbMode := preset) else locked
    else b
  }

  function SetRegionKeys(b: CaptureRequest, area: Option<MeteringRect>, crop: Rect, iso: int): (r: CaptureRequest)
    ensures r.(afRegions := b.afRegions, aeRegions := b.aeRegions, awbRegions := b.awbRegions,
               cropRegion := b.cropRegion, sensitivity := b.sensitivity) == b
  {
    var b := if area.Some? then b.(afRegions := area, aeRegions := area, awbRegions := area) else b;
    var b := if !crop.IsEmpty() then b.(cropRegion := Some(crop)) else b;
    if iso > 0 then b.(sensitivity := Some(iso)) else b
  }

  /** configureCommonCaptureSettings: the builder calls in source order, a
      later call overwriting a key an earlier one set. */
  function ConfigureCommonCaptureSettings(s: Settings): CaptureRequest
  {
    var b := SetFocusKeys(UnsetRequest, s.focusMode);
    var b := SetExposureKeys(b, s.exposureMode, s.aeFpsRange);
    var b := SetFillLightKeys(b, s.fillLightMode, s.redEyeReduction);
    var b := b.(aeExposureCompensation := Some(s.exposureCompensation));
    var b := SetWhiteBalanceKeys(b, s.whiteBalanceMode, s.colorTemperature);
    SetRegionKeys(b, s.areaOfInterest, s.cropRect, s.iso)
  }

  /** Auto-exposure and flash: NONE or FIXED exposure turns auto-exposure off,
      any other exposure mode turns it on with the frame-rate range; fill light
      AUTO, FLASH and TORCH then override the auto-exposure mode, and NONE (or
      an unset mode) sets nothing. */
  lemma ExposureAndFlashKeys(s: Settings)
    ensures var r := ConfigureCommonCaptureSettings(s);
      && r.aeMode == Some(
           match s.fillLightMode
           case FillAuto => if s.redEyeReduction then AeOnAutoFlashRedeye else AeOnAutoFlash
           case FillFlash => AeOnAlwaysFlash
           case FillTorch => AeOn
           case _ => if s.exposureMode == NoneMode || s.exposureMode == Fixed then AeOff else AeOn)
      && r.aeTargetFpsRange == (if s.exposureMode == NoneMode || s.exposureMode == Fixed then None else Some(s.aeFpsRange))
      && r.flashMode == (if s.fillLightMode == FillOff then Some(FlashOff)
                         else if s.fillLightMode == FillTorch then Some(FlashTorch) else None)
      && r.aeExposureCompensation == Some(s.exposureCompensation)
  {
  }

  /** Focus: CONTINUOUS and SINGLE_SHOT use continuous-picture autofocus, the
      latter with a trigger; FIXED turns autofocus off. */
  lemma FocusKeys(s: Settings)
    ensures var r := ConfigureCommonCaptureSettings(s);
      && r.afMode == (if s.focusMode == Continuous || s.focusMode == SingleShot then Some(AfContinuousPicture)
                      else if s.focusMode == Fixed then Some(AfOff) else None)
      && (r.afTriggerStart <==> s.focusMode == SingleShot)
  {
  }

  /** White balance: CONTINUOUS is unlocked and auto, NONE unlocked and off,
      FIXED locked, with the nearest preset when a temperature is set. */
  lemma WhiteBalanceKeys(s: Settings)
    ensures var r := ConfigureCommonCaptureSettings(s);
      && r.awbLock == (if s.whiteBalanceMode == Continuous || s.whiteBalanceMode == NoneMode then Some(false)
                       else if s.whiteBalanceMode == Fixed then Some(true) else None)
      && r.awbMode == (if s.whiteBalanceMode == Continuous then Some(AwbAuto)
                       else if s.whiteBalanceMode == NoneMode then Some(AwbOff)
                       else if s.whiteBalanceMode == Fixed && s.colorTemperature > 0
                       then ClosestWhiteBalance(ColorTemperatures, s.colorTemperature)
                       else None)
  {
  }

  /** The area of interest goes to the AF, AE and AWB regions together; the
      crop is sent only when non-empty, and the ISO only when positive. */
  lemma RegionCropAndIsoKeys(s: Settings)
    ensures var r := ConfigureCommonCaptureSettings(s);
      && r.afRegions == s.areaOfInterest && r.aeRegions == s.areaOfInterest && r.awbRegions == s.areaOfInterest
      && r.cropRegion == (if s.cropRect.IsEmpty() then None else Some(s.cropRect))
      && r.sensitivity == (if s.iso > 0 then Some(s.iso) else None)
  {
  }

  // How getPhotoCapabilities reads the modes back out of the preview request.

  function ReportedFocusMode(af: AfMode): MeteringMode
  {
    if af == AfContinuousVideo || af == AfContinuousPicture then Continuous
    else if af == AfAuto || af == AfMacro then SingleShot
    else if af == AfOff then Fixed
    else NoneMode
  }

  function ReportedWhiteBalanceMode(awb: AwbMode): MeteringMode
  {
    if awb == AwbOff then NoneMode else if awb == AwbAuto then Continuous else Fixed
  }

  /** The fill-light mode reported for a device with a flash unit. */
  function ReportedFillLightMode(ae: AeMode, flash: Option<FlashMode>): FillLightMode
  {
    match ae
    case AeOnAutoFlashRedeye => FillAuto
    case AeOnAutoFlash => FillAuto
    case AeOnAlwaysFlash => FillFlash
    case _ =>
      if flash == Some(FlashOff) then FillOff
      else if flash == Some(FlashSingle) then FillFlash
      else if flash == Some(FlashTorch) then FillTorch
      else FillNotSet
  }

  /** The current colour temperature reported for a white-balance preset: the
      key of its entry in the table (indexOfValue), if any. */
  function ReportedColorTemperature(awb: AwbMode): Option<int>
  {
    if exists i :: 0 <= i < |ColorTemperatures| && ColorTemperatures[i].1 == awb
    then Some(var i :| 0 <= i < |ColorTemperatures| && ColorTemperatures[i].1 == awb; ColorTemperatures[i].0)
    else None
  }

  /** Reading the request back recovers every fill-light mode that reaches the
      device, and every focus and white-balance mode except SINGLE_SHOT focus
      (reported as CONTINUOUS, since both use continuous-picture autofocus). */
  lemma {:induction false} ModesReadBack(s: Settings)
    ensures s.fillLightMode in {FillOff, FillAuto, FillFlash, FillTorch} ==>
      ReportedFillLightMode(ConfigureCommonCaptureSettings(s).aeMode.value, ConfigureCommonCaptureSettings(s).flashMode) == s.fillLightMode
    ensures s.focusMode in {Continuous, Fixed} ==>
      ReportedFocusMode(ConfigureCommonCaptureSettings(s).afMode.value) == s.focusMode
    ensures s.focusMode == SingleShot ==>
      ReportedFocusMode(ConfigureCommonCaptureSettings(s).afMode.value) == Continuous
    ensures s.whiteBalanceMode in {Continuous, NoneMode} ==>
      ReportedWhiteBalanceMode(ConfigureCommonCaptureSettings(s).awbMode.value) == s.whiteBalanceMode
    ensures s.whiteBalanceMode == Fixed && ConfigureCommonCaptureSettings(s).awbMode.Some? ==>
      ReportedWhiteBalanceMode(ConfigureCommonCaptureSettings(s).awbMode.value) == Fixed
  {
    var r := ConfigureCommonCaptureSettings(s);
    if s.whiteBalanceMode == Fixed && r.awbMode.Some? {
      var k := FirstMinBelow(TemperatureCosts(ColorTemperatures, s.colorTemperature), IntMax).value;
      assert r.awbMode.value == ColorTemperatures[k].1;
    }
  }

  /** A fixed white balance with a temperature reads back as the table key
      nearest to it: 3100 K is reported as 3000 K. */
  lemma ColorTemperatureReadBackExample()
    ensures ReportedColorTemperature(ClosestWhiteBalance(ColorTemperatures, 3100).value) == Some(3000)
  {
    WhiteBalanceExample();
    assert ColorTemperatures[2].1 == AwbTwilight;
  }

  // ---------------------------------------------------------------------------
  // Zoom crop and area of interest (setPhotoOptions)

  /** The crop rectangle for a non-zero zoom: the zoom is clamped to
      [1, maxZoom] and the sensor rectangle is inset by (z - 1) / (2 z) of its
      size on every side, each coordinate rounded with Math.round. */
  /** The fraction of the sensor's size cut from each side: the zoom is
      clamped to [1, maxZoom] and the inset is (z - 1) / (2 z). */
  function ZoomInset(zoom: real, maxZoom: real): (f: real)
    ensures 0.0 <= f < 0.5
  {
    var z := if zoom < maxZoom then zoom else maxZoom;
    var nz := if z < 1.0 then 1.0 else z;
    ZoomFactorBound(nz);
    (nz - 1.0) / (2.0 * nz)
  }

  /** The crop rectangle for a non-zero zoom: the sensor rectangle inset by
      ZoomInset of its size on every side, each coordinate rounded with
      Math.round, in coordinates whose origin is the sensor's corner. */
  function ZoomCropRect(zoom: real, maxZoom: real, canvas: Rect): Rect
  {
    var f := ZoomInset(zoom, maxZoom);
    Rect(Scaled(canvas.Width(), f), Scaled(canvas.Height(), f),
         Scaled(canvas.Width(), 1.0 - f), Scaled(canvas.Height(), 1.0 - f))
  }

  /** Math.round(length * fraction). */
  function Scaled(length: int, fraction: real): int
  {
    Round(length as real * fraction)
  }

  /** For a sensor of non-negative size the crop lies inside the sensor and
      its far edges never come before its near edges. */
  lemma ZoomCropInsideSensor(zoom: real, maxZoom: real, canvas: Rect)
    requires canvas.Width() >= 0 && canvas.Height() >= 0
    ensures var r := ZoomCropRect(zoom, maxZoom, canvas);
            && 0 <= r.left <= r.right <= canvas.Width()
            && 0 <= r.top <= r.bottom <= canvas.Height()
  {
    var f := ZoomInset(zoom, maxZoom);
    ScaledPairInside(canvas.Width(), f);
    ScaledPairInside(canvas.Height(), f);
  }

  lemma ScaledPairInside(w: int, f: real)
    requires w >= 0 && 0.0 <= f < 0.5
    ensures 0 <= Scaled(w, f) <= Scaled(w, 1.0 - f) <= w
  {
    assert 0.0 <= w as real * f by { MulNonNegative(w as real, f); }
    assert w as real * f <= w as real * (1.0 - f) by { MulNonNegative(w as real, 1.0 - 2.0 * f); }
    assert w as real * (1.0 - f) <= w as real by { MulNonNegative(w as real, f); }
    RoundMonotone(0.0, w as real * f);
    RoundMonotone(w as real * f, w as real * (1.0 - f));
    RoundMonotone(w as real * (1.0 - f), w as real);
  }

  /** The inset fraction (z - 1) / (2 z) of a zoom z >= 1 is below one half. */
  lemma ZoomFactorBound(nz: real)
    requires nz >= 1.0
    ensures 0.0 <= (nz - 1.0) / (2.0 * nz) < 0.5
  {
    var f := (nz - 1.0) / (2.0 * nz);
    assert f * (2.0 * nz) == nz - 1.0;
    MulNonNegative(f, 2.0 * nz);
  }

  lemma MulNonNegative(a: real, b: real)
    requires a >= 0.0 && b >= 0.0
    ensures a * b >= 0.0
  {
  }

  /** A zoom at or below 1 (after clamping) crops nothing: the crop is the whole
      sensor, placed at the origin. */
  lemma ZoomOneIsWholeSensor(zoom: real, maxZoom: real, canvas: Rect)
    requires zoom <= 1.0 || maxZoom <= 1.0
    ensures ZoomCropRect(zoom, maxZoom, canvas) == Rect(0, 0, canvas.Width(), canvas.Height())
  {
  }

  /** The rectangle a point of interest is relative to: the crop if it is
      non-empty, else the whole sensor. */
  function VisibleRect(canvas: Rect, cropRect: Rect): Rect
  {
    if cropRect.IsEmpty() then canvas else cropRect
  }

  /** The point of interest in sensor pixels: scaled to the visible rectangle
      and, when that is the crop, shifted by half the sensor-minus-crop margin. */
  function InterestCentre(point: (real, real), canvas: Rect, cropRect: Rect): (int, int)
  {
    var visible := VisibleRect(canvas, cropRect);
    var cx := Round(point.0 * visible.Width() as real);
    var cy := Round(point.1 * visible.Height() as real);
    if visible == cropRect
    then (cx + TruncDiv(canvas.Width() - visible.Width(), 2), cy + TruncDiv(canvas.Height() - visible.Height(), 2))
    else (cx, cy)
  }

  /** The metering rectangle for a point of interest: 1/8 of the visible
      rectangle, centred on the point, its origin clamped to be non-negative. */
  function AreaOfInterestFor(point: (real, real), canvas: Rect, cropRect: Rect): (r: MeteringRect)
    ensures r.width == TruncDiv(VisibleRect(canvas, cropRect).Width(), 8)
    ensures r.height == TruncDiv(VisibleRect(canvas, cropRect).Height(), 8)
    ensures r.x >= 0 && r.y >= 0 && r.weight == MeteringWeightMax
  {
    var visible := VisibleRect(canvas, cropRect);
    var centre := InterestCentre(point, canvas, cropRect);
    var regionWidth := TruncDiv(visible.Width(), 8);
    var regionHeight := TruncDiv(visible.Height(), 8);
    MeteringRect(Max(0, centre.0 - TruncDiv(regionWidth, 2)), Max(0, centre.1 - TruncDiv(regionHeight, 2)),
                 regionWidth, regionHeight, MeteringWeightMax)
  }

  /** Away from the sensor's top and left edges the rectangle is centred on
      the point (up to the halving of its size); at an edge it is clamped to 0. */
  lemma AreaOfInterestCentred(point: (real, real), canvas: Rect, cropRect: Rect)
    ensures var r := AreaOfInterestFor(point, canvas, cropRect);
            var c := InterestCentre(point, canvas, cropRect);
            && (r.x == 0 || r.x + TruncDiv(r.width, 2) == c.0)
            && (r.y == 0 || r.y + TruncDiv(r.height, 2) == c.1)
            && (c.0 >= TruncDiv(r.width, 2) ==> r.x + TruncDiv(r.width, 2) == c.0)
            && (c.1 >= TruncDiv(r.height, 2) ==> r.y + TruncDiv(r.height, 2) == c.1)
  {
  }

  // ---------------------------------------------------------------------------
  // Photo bookkeeping: every accepted takePhoto ends with exactly one
  // photo-taken event for its callback id.

  /** 1 if the event is a photo-taken event answering callback `id`. */
  function EventAnswers(e: Event, id: int): nat
  {
    if e.PhotoTaken? && e.callbackId == id then 1 else 0
  }

  /** 1 if the request is finished and was made for callback `id`. */
  function JobAnswered(job: PhotoJob, id: int): nat
  {
    if job.stage == Done && job.callbackId == id then 1 else 0
  }

  /** How many photo-taken events answer callback `id`. */
  function PhotoEventCount(events: seq<Event>, id: int): nat
  {
    if events == [] then 0
    else PhotoEventCount(events[..|events| - 1], id) + EventAnswers(events[|events| - 1], id)
  }

  /** How many finished photo requests were made for callback `id`. */
  function DoneCount(jobs: seq<PhotoJob>, id: int): nat
  {
    if jobs == [] then 0
    else DoneCount(jobs[..|jobs| - 1], id) + JobAnswered(jobs[|jobs| - 1], id)
  }

  lemma PhotoEventCountAppend(events: seq<Event>, e: Event, id: int)
    ensures PhotoEventCount(events + [e], id) == PhotoEventCount(events, id) + EventAnswers(e, id)
  {
    assert (events + [e])[..|events|] == events;
  }

  lemma DoneCountAppendPending(jobs: seq<PhotoJob>, job: PhotoJob, id: int)
    requires job.stage != Done
    ensures DoneCount(jobs + [job], id) == DoneCount(jobs, id)
  {
    assert (jobs + [job])[..|jobs|] == jobs;
  }

  /** Replacing one request changes the count for `id` only through that
      request entering or leaving Done. */
  lemma {:induction false} DoneCountUpdate(jobs: seq<PhotoJob>, j: nat, job: PhotoJob, id: int)
    requires j < |jobs|
    ensures DoneCount(jobs[j := job], id) + JobAnswered(jobs[j], id) == DoneCount(jobs, id) + JobAnswered(job, id)
  {
    var jobs' := jobs[j := job];
    var n := |jobs| - 1;
    if j == n {
      assert jobs'[..n] == jobs[..n];
    } else {
      assert jobs'[..n] == jobs[..n][j := job];
      DoneCountUpdate(jobs[..n], j, job, id);
    }
  }

  // ---------------------------------------------------------------------------
  // The engine

  class VideoCaptureCamera2 {
    // Lifecycle (mCameraState) and device presence (mCameraDevice != null).
    var state: CameraState
    var hasDevice: bool
    // Negotiated format (mCaptureFormat, mAeFpsRange).
    var captureFormat: CaptureFormat
    var aeFpsRange: FpsRange
    // Photo settings.
    var cropRect: Rect
    var photoWidth: int
    var photoHeight: int
    var focusMode: MeteringMode
    var exposureMode: MeteringMode
    var whiteBalanceMode: MeteringMode
    var areaOfInterest: Option<MeteringRect>
    var exposureCompensation: int
    var colorTemperature: int
    var iso: int
    var redEyeReduction: bool
    var fillLightMode: FillLightMode
    const maxZoom: real
    // Platform objects the engine holds.
    var previewRequest: Option<CaptureRequest>
    // The size of every preview ImageReader created so far, oldest first:
    // createPreviewObjects never closes the previous reader, so each of them
    // may still deliver frames.
    var previewReaders: seq<Size>
    // mPreviewSession != null: set by the first configured preview session and
    // never cleared.
    var hasPreviewSession: bool
    var restartPending: bool
    var photoJobs: seq<PhotoJob>
    // What has been reported to the native layer.
    var events: seq<Event>

    /** Photo-taken events and finished photo requests match one for one:
        every callback id has as many of the one as of the other. */
    ghost predicate Valid()
      reads this`events, this`photoJobs
    {
      forall id :: PhotoEventCount(events, id) == DoneCount(photoJobs, id)
    }

    function CurrentSettings(): (s: Settings)
      reads this
      ensures s.focusMode == focusMode && s.exposureMode == exposureMode && s.whiteBalanceMode == whiteBalanceMode
      ensures s.fillLightMode == fillLightMode && s.areaOfInterest == areaOfInterest && s.cropRect == cropRect
    {
      Settings(focusMode, exposureMode, whiteBalanceMode, fillLightMode, redEyeReduction, aeFpsRange,
               exposureCompensation, colorTemperature, areaOfInterest, cropRect, iso)
    }

    constructor (maxZoom: real)
      ensures Valid()
      ensures state == Stopped && !hasDevice && events == [] && photoJobs == [] && !restartPending
      ensures previewReaders == [] && !hasPreviewSession
      ensures focusMode == Continuous && exposureMode == Continuous && whiteBalanceMode == Continuous
      ensures fillLightMode == FillOff && colorTemperature == -1 && areaOfInterest.None? && cropRect == EmptyRect
      ensures this.maxZoom == maxZoom
    {
      state := Stopped;
      hasDevice := false;
      captureFormat := CaptureFormat(0, 0, 0, Yuv420888);
      aeFpsRange := FpsRange(0, 0);
      cropRect := EmptyRect;
      photoWidth, photoHeight := 0, 0;
      focusMode, exposureMode, whiteBalanceMode := Continuous, Continuous, Continuous;
      areaOfInterest := None;
      exposureCompensation := 0;
      colorTemperature := -1;
      iso := 0;
      redEyeReduction := false;
      fillLightMode := FillOff;
      this.maxZoom := maxZoom;
      previewRequest := None;
      previewReaders := [];
      hasPreviewSession := false;
      restartPending := false;
      photoJobs := [];
      events := [];
    }

    method Report(e: Event)
      requires Valid()
      requires !e.PhotoTaken?
      modifies this`events
      ensures Valid()
      ensures events == old(events) + [e]
    {
      forall id ensures PhotoEventCount(events + [e], id) == DoneCount(photoJobs, id) {
        PhotoEventCountAppend(events, e, id);
      }
      events := events + [e];
    }

    /** createPreviewObjects: fails without a device; otherwise creates one more
        preview reader of the capture format's size, builds the preview request
        from the current settings (unless creating the request throws) and asks
        for a session (which may throw). */
    method CreatePreviewObjects(setup: PreviewSetup) returns (ok: bool)
      modifies this`previewRequest, this`previewReaders
      ensures ok <==> hasDevice && setup == SetupOk
      ensures previewRequest == (if hasDevice && setup != RequestFails
                                 then Some(ConfigureCommonCaptureSettings(CurrentSettings()))
                                 else old(previewRequest))
      ensures previewReaders == old(previewReaders) + (if hasDevice then [Size(captureFormat.width, captureFormat.height)] else [])
    {
      if !hasDevice {
        return false;
      }
      previewReaders := previewReaders + [Size(captureFormat.width, captureFormat.height)];
      if setup == RequestFails {
        return false;
      }
      previewRequest := Some(ConfigureCommonCaptureSettings(CurrentSettings()));
      ok := setup == SetupOk;
    }

    // ----- CameraDevice.StateCallback

    /** onOpened: CONFIGURING, then STOPPED with an error if the preview
        objects cannot be created. */
    method OnOpened(setup: PreviewSetup)
      requires Valid()
      modifies this`hasDevice, this`state, this`events, this`previewRequest, this`previewReaders
      ensures Valid()
      ensures hasDevice
      ensures state == (if setup == SetupOk then Configuring else Stopped)
      ensures events == old(events) + (if setup == SetupOk then [] else [Error])
      ensures previewRequest == (if setup != RequestFails then Some(ConfigureCommonCaptureSettings(CurrentSettings())) else old(previewRequest))
      ensures previewReaders == old(previewReaders) + [Size(captureFormat.width, captureFormat.height)]
    {
      hasDevice := true;
      state := Configuring;
      var ok := CreatePreviewObjects(setup);
      ghost var settings := CurrentSettings();
      if !ok {
        state := Stopped;
        Report(Error);
      }
      assert CurrentSettings() == settings;
    }

    method OnDisconnected()
      requires Valid()
      modifies this`hasDevice, this`state
      ensures Valid()
      ensures !hasDevice && state == Stopped
    {
      hasDevice := false;
      state := Stopped;
    }

    method OnError()
      requires Valid()
      modifies this`hasDevice, this`state, this`events
      ensures Valid()
      ensures !hasDevice && state == Stopped
      ensures events == old(events) + [Error]
    {
      hasDevice := false;
      state := Stopped;
      Report(Error);
    }

    // ----- preview CameraCaptureSession.StateCallback

    /** onConfigured: the session is kept in any case; STARTED (and "started"
        reported) only once the repeating request is accepted, a refused
        request leaving the state and the event log unchanged. */
    method OnPreviewConfigured(repeatingRequestOk: bool)
      requires Valid()
      modifies this`state, this`events, this`hasPreviewSession
      ensures Valid()
      ensures hasPreviewSession
      ensures state == (if repeatingRequestOk then Started else old(state))
      ensures events == old(events) + (if repeatingRequestOk then [CaptureStarted] else [])
    {
      hasPreviewSession := true;
      if !repeatingRequestOk {
        return;
      }
      Report(CaptureStarted);
      state := Started;
    }

    method OnPreviewConfigureFailed()
      requires Valid()
      modifies this`state, this`events
      ensures Valid()
      ensures state == Stopped
      ensures events == old(events) + [Error]
    {
      state := Stopped;
      Report(Error);
    }

    // ----- preview ImageReader listener

    /** A preview frame from reader number `reader` is delivered only if it is
        planar YUV with three planes and matches the size of that reader, which
        need not be the latest one; otherwise only an error is reported. The
        engine's state is never affected. */
    method OnPreviewImageAvailable(reader: nat, image: Option<Image>)
      requires Valid()
      requires reader < |previewReaders|
      modifies this`events
      ensures Valid()
      ensures image.None? ==> events == old(events)
      ensures image.Some? ==>
        var im := image.value;
        events == old(events) + [
          if im.format != Yuv420888 || im.planes != 3 then Error
          else if previewReaders[reader].width != im.width || previewReaders[reader].height != im.height then Error
          else FrameAvailable(im.width, im.height, im.timestamp)]
    {
      if image.None? {
        return;
      }
      var im := image.value;
      if im.format != Yuv420888 || im.planes != 3 {
        Report(Error);
        return;
      }
      if previewReaders[reader].width != im.width || previewReaders[reader].height != im.height {
        Report(Error);
        return;
      }
      Report(FrameAvailable(im.width, im.height, im.timestamp));
    }

    // ----- public operations

    /** allocate: refused while opening or configuring; otherwise picks the
        closest YUV size, normalises the frame-rate ranges to fps x 1000 (factor
        1 when the first range's upper bound already exceeds 1000, else 1000),
        lets the base class pick the closest range, and stores it divided back
        by the factor. */
    method Allocate(width: int, height: int, frameRate: int, yuvSizes: Option<seq<Size>>, fpsRanges: seq<FpsRange>,
                    closestFramerateRange: (seq<FpsRange>, int) -> FpsRange) returns (ok: bool)
      requires Valid()
      modifies this`captureFormat, this`aeFpsRange
      ensures Valid()
      ensures old(state) == Opening || old(state) == Configuring ==>
        !ok && captureFormat == old(captureFormat) && aeFpsRange == old(aeFpsRange)
      ensures ok <==> old(state) != Opening && old(state) != Configuring
                      && ClosestSize(yuvSizes, width, height).Some? && |fpsRanges| > 0
      ensures ok ==>
        var size := ClosestSize(yuvSizes, width, height).value;
        var factor := FpsUnitFactor(fpsRanges);
        var chosen := closestFramerateRange(NormalizedRanges(fpsRanges, factor), Wrap32(frameRate * 1000));
        && captureFormat == CaptureFormat(size.width, size.height, frameRate, Yuv420888)
        && aeFpsRange == FpsRange(TruncDiv(chosen.lower, factor), TruncDiv(chosen.upper, factor))
      ensures !ok ==> captureFormat == old(captureFormat) && aeFpsRange == old(aeFpsRange)
    {
      if state == Opening || state == Configuring {
        return false;
      }
      var closest := FindClosestSizeInArray(yuvSizes, width, height);
      if closest.None? {
        return false;
      }
      if |fpsRanges| == 0 {
        return false;
      }
      var factor := if fpsRanges[0].upper > 1000 then 1 else 1000;
      var normalized := NormalizeRanges(fpsRanges, factor);
      var chosen := closestFramerateRange(normalized, Wrap32(frameRate * 1000));
      aeFpsRange := FpsRange(TruncDiv(chosen.lower, factor), TruncDiv(chosen.upper, factor));
      captureFormat := CaptureFormat(closest.value.width, closest.value.height, frameRate, Yuv420888);
      ok := true;
    }

    /** startCapture: OPENING at once, whether or not openCamera then throws. */
    method StartCapture(openThrows: bool) returns (ok: bool)
      requires Valid()
      modifies this`state
      ensures Valid()
      ensures state == Opening
      ensures ok == !openThrows
    {
      state := Opening;
      ok := !openThrows;
    }

    /** stopCapture, once its wait is over (the state is STARTED or STOPPED):
        STOPPED returns true at once; otherwise, with a device, the device is
        closed, the state becomes STOPPED and the crop rectangle is cleared. */
    method StopCapture() returns (ok: bool)
      requires Valid()
      requires state == Started || state == Stopped
      modifies this`state, this`cropRect
      ensures Valid()
      ensures old(state) == Stopped ==> ok && state == Stopped && cropRect == old(cropRect)
      ensures old(state) == Started && !hasDevice ==> !ok && state == Started && cropRect == old(cropRect)
      ensures old(state) == Started && hasDevice ==> ok && state == Stopped && cropRect == EmptyRect
    {
      if state == Stopped {
        return true;
      }
      if !hasDevice {
        return false;
      }
      state := Stopped;
      cropRect := EmptyRect;
      ok := true;
    }

    /** setPhotoOptions: updates the settings fields and schedules one preview
        restart, replacing any restart not yet run. It touches neither the
        photo requests nor the event log, so Valid() is kept by its frame. */
    method SetPhotoOptions(o: PhotoOptions, device: Characteristics)
      modifies this`cropRect, this`focusMode, this`exposureMode, this`whiteBalanceMode, this`fillLightMode,
               this`photoWidth, this`photoHeight, this`areaOfInterest, this`exposureCompensation, this`iso,
               this`colorTemperature, this`restartPending
      ensures cropRect == (if o.zoom != 0.0 then ZoomCropRect(o.zoom, maxZoom, device.activeArray) else old(cropRect))
      ensures focusMode == (if o.focusMode != NotSet then o.focusMode else old(focusMode))
      ensures exposureMode == (if o.exposureMode != NotSet then o.exposureMode else old(exposureMode))
      ensures whiteBalanceMode == (if o.whiteBalanceMode != NotSet then o.whiteBalanceMode else old(whiteBalanceMode))
      ensures photoWidth == (if o.width > 0.0 then RoundToInt(o.width) else old(photoWidth))
      ensures photoHeight == (if o.height > 0.0 then RoundToInt(o.height) else old(photoHeight))
      ensures areaOfInterest ==
        if (device.maxRegionsAf > 0 || device.maxRegionsAe > 0 || device.maxRegionsAwb > 0) && o.pointOfInterest.Some?
        then Some(AreaOfInterestFor(o.pointOfInterest.value, device.activeArray, cropRect))
        else if focusMode == NoneMode || exposureMode == NoneMode then None
        else if old(areaOfInterest).Some? && !old(areaOfInterest).value.IsEmpty() && o.zoom > 0.0 then None
        else old(areaOfInterest)
      ensures exposureCompensation == (if o.hasExposureCompensation then o.exposureCompensationSteps else old(exposureCompensation))
      ensures iso == (if o.iso > 0.0 then RoundToInt(o.iso) else old(iso))
      ensures colorTemperature == (if whiteBalanceMode == Fixed && o.colorTemperature > 0.0 then RoundToInt(o.colorTemperature) else old(colorTemperature))
      ensures fillLightMode == (if o.fillLightMode != FillNotSet then o.fillLightMode else old(fillLightMode))
      ensures restartPending
    {
      ApplyZoomAndModes(o, device.activeArray);
      ApplyAreaOfInterest(o, device);
      ApplyExposureAndColor(o);
      // removeCallbacks(mRestartCapture) then post(mRestartCapture).
      restartPending := false;
      restartPending := true;
    }

    /** The first part of setPhotoOptions: zoom, the three metering modes and
        the photo size. */
    method ApplyZoomAndModes(o: PhotoOptions, canvas: Rect)
      modifies this`cropRect, this`focusMode, this`exposureMode, this`whiteBalanceMode, this`photoWidth, this`photoHeight
      ensures cropRect == (if o.zoom != 0.0 then ZoomCropRect(o.zoom, maxZoom, canvas) else old(cropRect))
      ensures focusMode == (if o.focusMode != NotSet then o.focusMode else old(focusMode))
      ensures exposureMode == (if o.exposureMode != NotSet then o.exposureMode else old(exposureMode))
      ensures whiteBalanceMode == (if o.whiteBalanceMode != NotSet then o.whiteBalanceMode else old(whiteBalanceMode))
      ensures photoWidth == (if o.width > 0.0 then RoundToInt(o.width) else old(photoWidth))
      ensures photoHeight == (if o.height > 0.0 then RoundToInt(o.height) else old(photoHeight))
    {
      if o.zoom != 0.0 {
        cropRect := ZoomCropRect(o.zoom, maxZoom, canvas);
      }
      if o.focusMode != NotSet { focusMode := o.focusMode; }
      if o.exposureMode != NotSet { exposureMode := o.exposureMode; }
      if o.whiteBalanceMode != NotSet { whiteBalanceMode := o.whiteBalanceMode; }
      if o.width > 0.0 { photoWidth := RoundToInt(o.width); }
      if o.height > 0.0 { photoHeight := RoundToInt(o.height); }
    }

    /** The area of interest: cleared by a zoom if set, cleared when focus or
        exposure is NONE, and replaced by the rectangle around a new point when
        the device supports any metering regions. */
    method ApplyAreaOfInterest(o: PhotoOptions, device: Characteristics)
      modifies this`areaOfInterest
      ensures areaOfInterest ==
        if (device.maxRegionsAf > 0 || device.maxRegionsAe > 0 || device.maxRegionsAwb > 0) && o.pointOfInterest.Some?
        then Some(AreaOfInterestFor(o.pointOfInterest.value, device.activeArray, cropRect))
        else if focusMode == NoneMode || exposureMode == NoneMode then None
        else if old(areaOfInterest).Some? && !old(areaOfInterest).value.IsEmpty() && o.zoom > 0.0 then None
        else old(areaOfInterest)
    {
      if areaOfInterest.Some? && !areaOfInterest.value.IsEmpty() && o.zoom > 0.0 {
        areaOfInterest := None;
      }
      if focusMode == NoneMode || exposureMode == NoneMode {
        areaOfInterest := None;
      }
      var supported := device.maxRegionsAf > 0 || device.maxRegionsAe > 0 || device.maxRegionsAwb > 0;
      if supported && o.pointOfInterest.Some? {
        areaOfInterest := Some(AreaOfInterestFor(o.pointOfInterest.value, device.activeArray, cropRect));
      }
    }

    /** The rest of setPhotoOptions: exposure compensation, ISO, the colour
        temperature (kept only under a FIXED white balance) and the fill light.
        The red-eye option is read but never stored. */
    method ApplyExposureAndColor(o: PhotoOptions)
      modifies this`exposureCompensation, this`iso, this`colorTemperature, this`fillLightMode
      ensures exposureCompensation == (if o.hasExposureCompensation then o.exposureCompensationSteps else old(exposureCompensation))
      ensures iso == (if o.iso > 0.0 then RoundToInt(o.iso) else old(iso))
      ensures colorTemperature == (if whiteBalanceMode == Fixed && o.colorTemperature > 0.0 then RoundToInt(o.colorTemperature) else old(colorTemperature))
      ensures fillLightMode == (if o.fillLightMode != FillNotSet then o.fillLightMode else old(fillLightMode))
    {
      if o.hasExposureCompensation {
        exposureCompensation := o.exposureCompensationSteps;
      }
      if o.iso > 0.0 { iso := RoundToInt(o.iso); }
      if whiteBalanceMode == Fixed && o.colorTemperature > 0.0 {
        colorTemperature := RoundToInt(o.colorTemperature);
      }
      if o.fillLightMode != FillNotSet { fillLightMode := o.fillLightMode; }
    }

    /** The posted restart runs: the preview session is closed and the preview
        objects are rebuilt from the settings as they are now. Before any
        preview session was configured there is no session to close, and the
        restart throws a NullPointerException (`threw`) before rebuilding
        anything. */
    method RunPendingRestart(setup: PreviewSetup) returns (threw: bool)
      requires Valid()
      modifies this`restartPending, this`previewRequest, this`previewReaders
      ensures Valid()
      ensures !restartPending
      ensures threw <==> old(restartPending) && !hasPreviewSession
      ensures var rebuilt := old(restartPending) && hasPreviewSession;
        && previewRequest == (if rebuilt && hasDevice && setup != RequestFails
                              then Some(ConfigureCommonCaptureSettings(CurrentSettings()))
                              else old(previewRequest))
        && previewReaders == old(previewReaders) + (if rebuilt && hasDevice
                                                    then [Size(captureFormat.width, captureFormat.height)] else [])
    {
      if !restartPending {
        return false;
      }
      restartPending := false;
      if !hasPreviewSession {
        return true;
      }
      var _ := CreatePreviewObjects(setup);
      threw := false;
    }

    /** takePhoto: refused, with nothing reported, without a device or unless
        STARTED; otherwise the photo size is the JPEG size closest to the
        requested one, or the capture format's size when none matches. An
        accepted call records a photo request awaiting its session. */
    method TakePhoto(callbackId: int, jpegSizes: Option<seq<Size>>, requestOk: bool, sessionOk: bool) returns (ok: bool)
      requires Valid()
      modifies this`photoJobs
      ensures Valid()
      ensures ok <==> hasDevice && state == Started && requestOk && sessionOk
      ensures ok ==>
        var size := match ClosestSize(jpegSizes, photoWidth, photoHeight)
                    case Some(s) => s
                    case None => Size(captureFormat.width, captureFormat.height);
        photoJobs == old(photoJobs) + [PhotoJob(callbackId, size, ConfigureCommonCaptureSettings(CurrentSettings()), AwaitingSession)]
      ensures !ok ==> photoJobs == old(photoJobs)
    {
      if !hasDevice || state != Started {
        return false;
      }
      var closest := FindClosestSizeInArray(jpegSizes, photoWidth, photoHeight);
      var size := if closest.Some? then closest.value else Size(captureFormat.width, captureFormat.height);
      if !requestOk {
        return false;
      }
      var request := ConfigureCommonCaptureSettings(CurrentSettings());
      if !sessionOk {
        return false;
      }
      var job := PhotoJob(callbackId, size, request, AwaitingSession);
      forall id ensures PhotoEventCount(events, id) == DoneCount(photoJobs + [job], id) {
        DoneCountAppendPending(photoJobs, job, id);
      }
      photoJobs := photoJobs + [job];
      ok := true;
    }

    /** Finishes photo request j with a payload of `byteCount` bytes. */
    method DeliverPhoto(j: nat, byteCount: nat)
      requires Valid()
      requires j < |photoJobs| && photoJobs[j].stage != Done
      modifies this`photoJobs, this`events
      ensures Valid()
      ensures photoJobs == old(photoJobs)[j := old(photoJobs)[j].(stage := Done)]
      ensures events == old(events) + [PhotoTaken(old(photoJobs)[j].callbackId, byteCount)]
    {
      var job := photoJobs[j].(stage := Done);
      var e := PhotoTaken(job.callbackId, byteCount);
      forall id ensures PhotoEventCount(events + [e], id) == DoneCount(photoJobs[j := job], id) {
        PhotoEventCountAppend(events, e, id);
        DoneCountUpdate(photoJobs, j, job, id);
      }
      photoJobs := photoJobs[j := job];
      events := events + [e];
    }

    // ----- photo CameraCaptureSession.StateCallback

    /** onConfigured: the single capture is submitted; if that throws
        CameraAccessException, a zero-length payload is delivered. */
    method OnPhotoSessionConfigured(j: nat, captureThrows: bool)
      requires Valid()
      requires j < |photoJobs| && photoJobs[j].stage == AwaitingSession
      modifies this`photoJobs, this`events
      ensures Valid()
      ensures photoJobs == old(photoJobs)[j := old(photoJobs)[j].(stage := if captureThrows then Done else AwaitingImage)]
      ensures events == old(events) + (if captureThrows then [PhotoTaken(old(photoJobs)[j].callbackId, 0)] else [])
    {
      if captureThrows {
        DeliverPhoto(j, 0);
        return;
      }
      var job := photoJobs[j].(stage := AwaitingImage);
      forall id ensures PhotoEventCount(events, id) == DoneCount(photoJobs[j := job], id) {
        DoneCountUpdate(photoJobs, j, job, id);
      }
      photoJobs := photoJobs[j := job];
    }

    method OnPhotoSessionConfigureFailed(j: nat)
      requires Valid()
      requires j < |photoJobs| && photoJobs[j].stage == AwaitingSession
      modifies this`photoJobs, this`events
      ensures Valid()
      ensures photoJobs == old(photoJobs)[j := old(photoJobs)[j].(stage := Done)]
      ensures events == old(events) + [PhotoTaken(old(photoJobs)[j].callbackId, 0)]
    {
      DeliverPhoto(j, 0);
    }

    // ----- photo ImageReader listener

    /** The encoded photo arrives: a missing or non-JPEG image delivers a
        zero-length payload; a JPEG delivers its bytes and then restarts the
        preview, reporting an error if that fails. */
    method OnPhotoImageAvailable(j: nat, image: Option<Image>, setup: PreviewSetup)
      requires Valid()
      requires j < |photoJobs| && photoJobs[j].stage == AwaitingImage
      modifies this`photoJobs, this`events, this`previewRequest, this`previewReaders
      ensures Valid()
      ensures photoJobs == old(photoJobs)[j := old(photoJobs)[j].(stage := Done)]
      ensures image.None? || image.value.format != Jpeg ==>
        events == old(events) + [PhotoTaken(old(photoJobs)[j].callbackId, 0)]
      ensures image.Some? && image.value.format == Jpeg ==>
        events == old(events) + [PhotoTaken(old(photoJobs)[j].callbackId, image.value.byteCount)]
                              + (if hasDevice && setup == SetupOk then [] else [Error])
      ensures previewRequest == (if image.Some? && image.value.format == Jpeg && hasDevice && setup != RequestFails
                                 then Some(ConfigureCommonCaptureSettings(CurrentSettings()))
                                 else old(previewRequest))
      ensures previewReaders == old(previewReaders) + (if image.Some? && image.value.format == Jpeg && hasDevice
                                                       then [Size(captureFormat.width, captureFormat.height)] else [])
    {
      if image.None? || image.value.format != Jpeg {
        DeliverPhoto(j, 0);
        return;
      }
      DeliverPhoto(j, image.value.byteCount);
      var ok := CreatePreviewObjects(setup);
      ghost var request := previewRequest;
      if !ok {
        Report(Error);
      }
      assert previewRequest == request;
    }
  }

  /** The frame-rate unit factor allocate picks from the first range. */
  function FpsUnitFactor(ranges: seq<FpsRange>): (f: int)
    requires |ranges| > 0
    ensures f == 1 || f == 1000
    ensures f == 1 <==> ranges[0].upper > 1000
  {
    if ranges[0].upper > 1000 then 1 else 1000
  }

  function NormalizedRanges(ranges: seq<FpsRange>, factor: int): (r: seq<FpsRange>)
    ensures |r| == |ranges|
    ensures forall i :: 0 <= i < |ranges| ==> r[i] == FpsRange(Wrap32(ranges[i].lower * factor), Wrap32(ranges[i].upper * factor))
  {
    if ranges == [] then []
    else NormalizedRanges(ranges[..|ranges| - 1], factor) + [FpsRange(Wrap32(ranges[|ranges| - 1].lower * factor), Wrap32(ranges[|ranges| - 1].upper * factor))]
  }

  /** The loop in allocate that builds the list of ranges scaled by the unit
      factor. */
  method NormalizeRanges(ranges: seq<FpsRange>, factor: int) returns (normalized: seq<FpsRange>)
    ensures normalized == NormalizedRanges(ranges, factor)
  {
    normalized := [];
    for i := 0 to |ranges|
      invariant normalized == NormalizedRanges(ranges[..i], factor)
    {
      assert ranges[..i + 1] == ranges[..i] + [ranges[i]];
      normalized := normalized + [FpsRange(Wrap32(ranges[i].lower * factor), Wrap32(ranges[i].upper * factor))];
    }
    assert ranges[..|ranges|] == ranges;
  }

  /** Ranges reported in fps and the same ranges reported in fps x 1000
      normalise to the same list: [15, 30] and [15000, 30000] agree. */
  lemma NormalizationAgreesAcrossUnits(ranges: seq<FpsRange>)
    requires |ranges| > 0 && ranges[0].upper <= 1000
    requires forall i :: 0 <= i < |ranges| ==> ranges[i].upper * 1000 > 1000
    ensures NormalizedRanges(ranges, FpsUnitFactor(ranges)) ==
      NormalizedRanges(seq(|ranges|, i requires 0 <= i < |ranges| => FpsRange(ranges[i].lower * 1000, ranges[i].upper * 1000)),
                       FpsUnitFactor(seq(|ranges|, i requires 0 <= i < |ranges| => FpsRange(ranges[i].lower * 1000, ranges[i].upper * 1000))))
  {
  }

  /** Storing a chosen normalised range divided back by the factor returns the
      range in the device's own unit, for Java int bounds whose multiplication by
      1000 does not overflow (at most 2147483 fps). */
  lemma {:induction false} DividingBackRestoresDeviceUnit(ranges: seq<FpsRange>, i: nat)
    requires i < |ranges|
    requires -0x8000_0000 <= ranges[i].lower <= IntMax && -0x8000_0000 <= ranges[i].upper <= IntMax
    requires FpsUnitFactor(ranges) == 1000 ==>
      -2147483 <= ranges[i].lower <= 2147483 && -2147483 <= ranges[i].upper <= 2147483
    ensures var f := FpsUnitFactor(ranges);
            var n := NormalizedRanges(ranges, f)[i];
            FpsRange(TruncDiv(n.lower, f), TruncDiv(n.upper, f)) == ranges[i]
  {
    var f := FpsUnitFactor(ranges);
    var n := NormalizedRanges(ranges, f)[i];
    if f == 1000 {
      assert (n.lower) == ranges[i].lower * 1000;
      assert TruncDiv(ranges[i].lower * 1000, 1000) == ranges[i].lower;
      assert TruncDiv(ranges[i].upper * 1000, 1000) == ranges[i].upper;
    }
  }

  /** A photo request is finished within two callbacks: whichever session
      callback comes first either finishes it or leaves it awaiting its image,
      and the image callback then finishes it. Either way exactly one
      photo-taken event answers its callback id, and no other id is answered. */
  method PhotoRequestCompletes(cam: VideoCaptureCamera2, j: nat, configured: bool, captureThrows: bool, image: Option<Image>, setup: PreviewSetup)
    requires cam.Valid()
    requires j < |cam.photoJobs| && cam.photoJobs[j].stage == AwaitingSession
    modifies cam`photoJobs, cam`events, cam`previewRequest, cam`previewReaders
    ensures cam.Valid()
    ensures |cam.photoJobs| == old(|cam.photoJobs|)
    ensures cam.photoJobs[j].stage == Done
    ensures forall id :: (PhotoEventCount(cam.events, id) ==
      PhotoEventCount(old(cam.events), id) + (if id == old(cam.photoJobs)[j].callbackId then 1 else 0))
  {
    var id := cam.photoJobs[j].callbackId;
    ghost var before := cam.events;
    var byteCount := 0;
    if !configured {
      cam.OnPhotoSessionConfigureFailed(j);
    } else {
      cam.OnPhotoSessionConfigured(j, captureThrows);
      if !captureThrows {
        assert cam.events == before;
        cam.OnPhotoImageAvailable(j, image, setup);
        if image.Some? && image.value.format == Jpeg {
          byteCount := image.value.byteCount;
        }
      }
    }
    var e := PhotoTaken(id, byteCount);
    assert cam.events == before + [e] || cam.events == before + [e] + [Error];
    forall i ensures PhotoEventCount(cam.events, i) == PhotoEventCount(before, i) + (if i == id then 1 else 0) {
      PhotoEventCountAppend(before, e, i);
      PhotoEventCountAppend(before + [e], Error, i);
    }
  }
}
