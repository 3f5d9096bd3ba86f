/** Hook message decoding and the two-handle hook lifecycle (HookManager.cs).
    The low-level keyboard and mouse hook callbacks are pure mappings from a
    Win32 message code and the hook's structure to an optional captured
    event; `SetWindowsHookEx` results are parameters of `Start` and every
    `UnhookWindowsHookEx` call is appended to a trace. */
module Hooks {
  import opened Wrappers
  import opened MacroModel

  const WM_KEYDOWN := 0x0100
  const WM_KEYUP := 0x0101
  const WM_SYSKEYDOWN := 0x0104
  const WM_SYSKEYUP := 0x0105

  const WM_MOUSEMOVE := 0x0200
  const WM_LBUTTONDOWN := 0x0201
  const WM_LBUTTONUP := 0x0202
  const WM_RBUTTONDOWN := 0x0204
  const WM_RBUTTONUP := 0x0205
  const WM_MBUTTONDOWN := 0x0207
  const WM_MBUTTONUP := 0x0208
  const WM_MOUSEWHEEL := 0x020A

  /** The C# `int` fields whose bits are inspected. */
  type Int32 = x: int | -0x8000_0000 <= x < 0x8000_0000

  /** KBDLLHOOKSTRUCT. */
  datatype KbdLlHookStruct = KbdLlHookStruct(vkCode: int, scanCode: int, flags: Int32, time: int)

  /** MSLLHOOKSTRUCT; `ptX`, `ptY` are its `pt` point. */
  datatype MsLlHookStruct = MsLlHookStruct(ptX: int, ptY: int, mouseData: Int32, flags: int, time: int)

  /** The payload of `InputCaptured`: a recorded event without its delay.
      Fields a notification does not set keep their defaults (0, false,
      no button). */
  datatype HookEventArgs = HookEventArgs(
    eventType: EventKind,
    keyCode: int,
    scanCode: int,
    isExtendedKey: bool,
    mouseButton: MouseButton,
    mouseX: int,
    mouseY: int,
    mouseDelta: int)

  /** Key-down and system-key-down are presses, key-up and system-key-up are
      releases; every other message is not a keyboard event. */
  function DetermineKeyboardEventType(message: int): (r: Option<EventKind>)
    ensures r == Some(KeyDown) <==> message == WM_KEYDOWN || message == WM_SYSKEYDOWN
    ensures r == Some(KeyUp) <==> message == WM_KEYUP || message == WM_SYSKEYUP
    ensures r.Some? ==> r.value == KeyDown || r.value == KeyUp
  {
    if message == WM_KEYDOWN || message == WM_SYSKEYDOWN then Some(KeyDown)
    else if message == WM_KEYUP || message == WM_SYSKEYUP then Some(KeyUp)
    else None
  }

  /** `(flags & LLKHF_EXTENDED) != 0`, the low bit of the two's-complement
      flags word. */
  function HasExtendedFlag(flags: Int32): (r: bool)
    ensures r <==> flags % 2 == 1
  {
    flags % 2 != 0
  }

  /** The event built by the keyboard callback: none for a negative hook
      code, a null structure pointer or a non-keyboard message; otherwise the
      kind, the virtual key, the hardware scan code and the extended flag,
      with the mouse fields at their defaults. */
  function KeyboardCallback(nCode: int, wParam: int, info: Option<KbdLlHookStruct>): (r: Option<HookEventArgs>)
    ensures r.Some? <==> nCode >= 0 && info.Some? && DetermineKeyboardEventType(wParam).Some?
    ensures r.Some? ==>
      && r.value.eventType == DetermineKeyboardEventType(wParam).value
      && r.value.keyCode == info.value.vkCode
      && r.value.scanCode == info.value.scanCode
      && r.value.isExtendedKey == HasExtendedFlag(info.value.flags)
      && r.value.mouseButton == NoButton
      && r.value.mouseX == 0 && r.value.mouseY == 0 && r.value.mouseDelta == 0
  {
    if nCode >= 0 && info.Some? then
      match DetermineKeyboardEventType(wParam)
      case Some(kind) =>
        var k := info.value;
        Some(HookEventArgs(kind, k.vkCode, k.scanCode, HasExtendedFlag(k.flags), NoButton, 0, 0, 0))
      case None => None
    else None
  }

  /** The wheel delta: the high 16 bits of `mouseData` read as a signed
      short, which is the floor of `mouseData / 65536`. */
  function WheelDelta(mouseData: Int32): (d: int)
    ensures -0x8000 <= d < 0x8000
    ensures d == mouseData / 0x1_0000
  {
    var shifted := mouseData / 0x1_0000;   // >> 16, arithmetic
    var masked := shifted % 0x1_0000;      // & 0xFFFF
    if masked >= 0x8000 then masked - 0x1_0000 else masked   // (short)
  }

  /** A wheel payload round-trips: the delta placed in the high word comes
      back whatever the low word holds. */
  lemma WheelDeltaRoundTrip(delta: int, low: int)
    requires -0x8000 <= delta < 0x8000 && 0 <= low < 0x1_0000
    ensures -0x8000_0000 <= delta * 0x1_0000 + low < 0x8000_0000
    ensures WheelDelta(delta * 0x1_0000 + low) == delta
  {
    var md := delta * 0x1_0000 + low;
    assert md / 0x1_0000 == delta;
  }

  function CreateMouseButtonEvent(kind: EventKind, button: MouseButton, info: MsLlHookStruct): (r: HookEventArgs)
    ensures r.eventType == kind && r.mouseButton == button
    ensures r.mouseX == info.ptX && r.mouseY == info.ptY
    ensures r.keyCode == 0 && r.scanCode == 0 && !r.isExtendedKey && r.mouseDelta == 0
  {
    HookEventArgs(kind, 0, 0, false, button, info.ptX, info.ptY, 0)
  }

  /** The event built from a mouse message, if it is one the recorder knows. */
  function CreateMouseEvent(wParam: int, info: MsLlHookStruct): (r: Option<HookEventArgs>)
    ensures wParam == WM_MOUSEMOVE ==> r == Some(CreateMouseButtonEvent(MouseMove, NoButton, info))
    ensures wParam == WM_LBUTTONDOWN ==> r == Some(CreateMouseButtonEvent(MouseDown, Left, info))
    ensures wParam == WM_LBUTTONUP ==> r == Some(CreateMouseButtonEvent(MouseUp, Left, info))
    ensures wParam == WM_RBUTTONDOWN ==> r == Some(CreateMouseButtonEvent(MouseDown, Right, info))
    ensures wParam == WM_RBUTTONUP ==> r == Some(CreateMouseButtonEvent(MouseUp, Right, info))
    ensures wParam == WM_MBUTTONDOWN ==> r == Some(CreateMouseButtonEvent(MouseDown, Middle, info))
    ensures wParam == WM_MBUTTONUP ==> r == Some(CreateMouseButtonEvent(MouseUp, Middle, info))
    ensures wParam == WM_MOUSEWHEEL ==>
      r == Some(HookEventArgs(MouseWheel, 0, 0, false, NoButton, info.ptX, info.ptY, WheelDelta(info.mouseData)))
    ensures r.None? <==> wParam !in MouseMessages
    ensures r.Some? ==> r.value.mouseX == info.ptX && r.value.mouseY == info.ptY
  {
    if wParam == WM_MOUSEMOVE then
      Some(HookEventArgs(MouseMove, 0, 0, false, NoButton, info.ptX, info.ptY, 0))
    else if wParam == WM_LBUTTONDOWN then Some(CreateMouseButtonEvent(MouseDown, Left, info))
    else if wParam == WM_LBUTTONUP then Some(CreateMouseButtonEvent(MouseUp, Left, info))
    else if wParam == WM_RBUTTONDOWN then Some(CreateMouseButtonEvent(MouseDown, Right, info))
    else if wParam == WM_RBUTTONUP then Some(CreateMouseButtonEvent(MouseUp, Right, info))
    else if wParam == WM_MBUTTONDOWN then Some(CreateMouseButtonEvent(MouseDown, Middle, info))
    else if wParam == WM_MBUTTONUP then Some(CreateMouseButtonEvent(MouseUp, Middle, info))
    else if wParam == WM_MOUSEWHEEL then
      Some(HookEventArgs(MouseWheel, 0, 0, false, NoButton, info.ptX, info.ptY, WheelDelta(info.mouseData)))
    else None
  }

  /** The mouse messages that produce an event. */
  const MouseMessages: set<int> := {
    WM_MOUSEMOVE, WM_LBUTTONDOWN, WM_LBUTTONUP, WM_RBUTTONDOWN,
    WM_RBUTTONUP, WM_MBUTTONDOWN, WM_MBUTTONUP, WM_MOUSEWHEEL
  }

  /** The message a mouse event kind and button come from. */
  function MouseMessageOf(kind: EventKind, button: MouseButton): Option<int> {
    match (kind, button)
    case (MouseMove, NoButton) => Some(WM_MOUSEMOVE)
    case (MouseWheel, NoButton) => Some(WM_MOUSEWHEEL)
    case (MouseDown, Left) => Some(WM_LBUTTONDOWN)
    case (MouseUp, Left) => Some(WM_LBUTTONUP)
    case (MouseDown, Right) => Some(WM_RBUTTONDOWN)
    case (MouseUp, Right) => Some(WM_RBUTTONUP)
    case (MouseDown, Middle) => Some(WM_MBUTTONDOWN)
    case (MouseUp, Middle) => Some(WM_MBUTTONUP)
    case _ => None
  }

  /** Mouse decoding loses nothing about the message: the kind and button
      of a decoded event name the message it came from, and every kind and
      button pair that has a message decodes back to itself. */
  lemma MouseDecodingIsInvertible(wParam: int, info: MsLlHookStruct, kind: EventKind, button: MouseButton)
    ensures var r := CreateMouseEvent(wParam, info);
      r.Some? ==> MouseMessageOf(r.value.eventType, r.value.mouseButton) == Some(wParam)
    ensures MouseMessageOf(kind, button).Some? ==>
      var r := CreateMouseEvent(MouseMessageOf(kind, button).value, info);
      r.Some? && r.value.eventType == kind && r.value.mouseButton == button
  {
  }

  /** The event the mouse callback raises. */
  function MouseCallback(nCode: int, wParam: int, info: Option<MsLlHookStruct>): (r: Option<HookEventArgs>)
    ensures nCode < 0 || info.None? ==> r.None?
    ensures nCode >= 0 && info.Some? ==> r == CreateMouseEvent(wParam, info.value)
  {
    if nCode >= 0 && info.Some? then CreateMouseEvent(wParam, info.value) else None
  }

  /** The two global hooks.  A handle of 0 means "not installed". */
  class HookManager {
    var keyboardHookId: int
    var mouseHookId: int
    /** Every handle passed to `UnhookWindowsHookEx`, oldest first. */
    var unhooked: seq<int>

    predicate IsRunning()
      reads this
    {
      keyboardHookId != 0 && mouseHookId != 0
    }

    constructor ()
      ensures keyboardHookId == 0 && mouseHookId == 0 && unhooked == []
    {
      keyboardHookId, mouseHookId := 0, 0;
      unhooked := [];
    }

    /** Installs both hooks; `keyboardHandle` and `mouseHandle` are what the
        two `SetWindowsHookEx` calls return.  `registered` is false exactly
        when the source throws its `Win32Exception`; the handle that did
        succeed is kept, not released. */
    method Start(keyboardHandle: int, mouseHandle: int) returns (registered: bool)
      modifies this
      ensures unhooked == old(unhooked)
      ensures old(IsRunning()) ==>
        registered && keyboardHookId == old(keyboardHookId) && mouseHookId == old(mouseHookId)
      ensures !old(IsRunning()) ==>
        keyboardHookId == keyboardHandle && mouseHookId == mouseHandle &&
        (registered <==> keyboardHandle != 0 && mouseHandle != 0)
      ensures registered <==> IsRunning()
    {
      if IsRunning() {
        return true;
      }
      keyboardHookId := keyboardHandle;
      mouseHookId := mouseHandle;
      if keyboardHookId == 0 || mouseHookId == 0 {
        return false;
      }
      return true;
    }

    /** Releases whichever hooks are installed. */
    method Stop()
      modifies this
      ensures keyboardHookId == 0 && mouseHookId == 0 && !IsRunning()
      ensures unhooked == old(unhooked)
        + (if old(keyboardHookId) != 0 then [old(keyboardHookId)] else [])
        + (if old(mouseHookId) != 0 then [old(mouseHookId)] else [])
    {
      if keyboardHookId != 0 {
        unhooked := unhooked + [keyboardHookId];
        keyboardHookId := 0;
      }
      if mouseHookId != 0 {
        unhooked := unhooked + [mouseHookId];
        mouseHookId := 0;
      }
    }
  }
}
