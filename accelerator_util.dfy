/** Accelerators from web keyboard events (accelerator_util.cc): the
    renderer's keyboard event modifiers translated into ui event flags, and
    the accelerator a keyboard event stands for. */
module AcceleratorUtil {
  import opened Common

  type Bits = bv32

  /** blink::WebInputEvent modifier bits. */
  const ShiftKey: Bits := 1
  const ControlKey: Bits := 2
  const AltKey: Bits := 4
  const MetaKey: Bits := 8
  const IsAutoRepeat: Bits := 32

  /** ui::EventFlags and ui::KeyEventFlags, as ui/events/event_constants.h
      defines them (that header is not part of this model): EF_IS_REPEAT is
      1 << 16, the bit above EF_IME_FABRICATED_KEY (1 << 15). */
  const EfNone: Bits := 0
  const EfShiftDown: Bits := 2
  const EfControlDown: Bits := 4
  const EfAltDown: Bits := 8
  const EfCommandDown: Bits := 16
  const EfIsRepeat: Bits := 0x1_0000

  /** The build configuration: OS_MACOSX or OS_CHROMEOS, and USE_AURA. */
  datatype BuildConfig = BuildConfig(macOrChromeOs: bool, useAura: bool)

  datatype WebInputEventType = RawKeyDown | KeyDown | KeyUp | Char

  /** A content::NativeWebKeyboardEvent: its type, modifiers and Windows key
      code, and, when it came from Aura, whether the OS event is a
      repeat. */
  datatype NativeWebKeyboardEvent = NativeWebKeyboardEvent(
    eventType: WebInputEventType,
    modifiers: Bits,
    windowsKeyCode: int,
    osEventIsRepeat: Option<bool>)

  datatype KeyState = Pressed | Released

  datatype Accelerator = Accelerator(keyCode: int, modifiers: Bits, keyState: KeyState)

  /** The flags a set of web modifiers can produce on this build. */
  function ProducibleFlags(config: BuildConfig): Bits
  {
    EfShiftDown | EfControlDown | EfAltDown
    | (if config.macOrChromeOs then EfCommandDown else EfNone)
    | (if config.useAura then EfIsRepeat else EfNone)
  }

  /** GetModifiersFromNativeWebKeyboardEvent: each of Shift, Control and
      Alt sets its own flag; Meta sets the command flag only on Mac and
      ChromeOS; a repeated Aura key event sets the repeat flag; no other
      flag is ever set. */
  function GetModifiers(event: NativeWebKeyboardEvent, config: BuildConfig): (r: Bits)
    ensures (r & EfShiftDown != 0) <==> (event.modifiers & ShiftKey != 0)
    ensures (r & EfControlDown != 0) <==> (event.modifiers & ControlKey != 0)
    ensures (r & EfAltDown != 0) <==> (event.modifiers & AltKey != 0)
    ensures (r & EfCommandDown != 0) <==> config.macOrChromeOs && event.modifiers & MetaKey != 0
    ensures (r & EfIsRepeat != 0) <==> config.useAura && event.osEventIsRepeat == Some(true)
    ensures r & !ProducibleFlags(config) == 0
  {
    var modifiers := EfNone;
    var modifiers := if event.modifiers & ShiftKey != 0 then modifiers | EfShiftDown else modifiers;
    var modifiers := if event.modifiers & ControlKey != 0 then modifiers | EfControlDown else modifiers;
    var modifiers := if event.modifiers & AltKey != 0 then modifiers | EfAltDown else modifiers;
    var modifiers := if config.macOrChromeOs && event.modifiers & MetaKey != 0 then modifiers | EfCommandDown else modifiers;
    if config.useAura && event.osEventIsRepeat == Some(true) then modifiers | EfIsRepeat else modifiers
  }

  /** The web modifiers a set of ui flags stands for. */
  function WebModifiers(flags: Bits): Bits
  {
    (if flags & EfShiftDown != 0 then ShiftKey else 0)
    | (if flags & EfControlDown != 0 then ControlKey else 0)
    | (if flags & EfAltDown != 0 then AltKey else 0)
    | (if flags & EfCommandDown != 0 then MetaKey else 0)
  }

  /** The translation keeps exactly the modifiers the build maps: Shift,
      Control, Alt, and Meta only on Mac and ChromeOS; every other web bit
      (auto-repeat among them) is dropped. */
  lemma ModifiersRoundTrip(event: NativeWebKeyboardEvent, config: BuildConfig)
    ensures WebModifiers(GetModifiers(event, config))
            == event.modifiers & (ShiftKey | ControlKey | AltKey | (if config.macOrChromeOs then MetaKey else 0))
  {
    var m := event.modifiers;
    var r := GetModifiers(event, config);
    assert WebModifiers(r) == (m & ShiftKey) | (m & ControlKey) | (m & AltKey)
                              | (if config.macOrChromeOs then m & MetaKey else 0);
  }

  /** GetAcceleratorFromNativeWebKeyboardEvent: the key code unchanged, the
      translated modifiers, and the released state for key-up events
      only. */
  function GetAccelerator(event: NativeWebKeyboardEvent, config: BuildConfig): (r: Accelerator)
    ensures r.keyCode == event.windowsKeyCode
    ensures r.modifiers == GetModifiers(event, config)
    ensures r.keyState == Released <==> event.eventType == KeyUp
  {
    var accelerator := Accelerator(event.windowsKeyCode, GetModifiers(event, config), Pressed);
    if event.eventType == KeyUp then accelerator.(keyState := Released) else accelerator
  }

  /** Two events that differ only in their type give the same accelerator
      unless exactly one of them is a key-up. */
  lemma AcceleratorIgnoresTypeButKeyUp(event: NativeWebKeyboardEvent, t: WebInputEventType, config: BuildConfig)
    ensures (event.eventType == KeyUp <==> t == KeyUp) <==>
            GetAccelerator(event.(eventType := t), config) == GetAccelerator(event, config)
  {
  }
}
