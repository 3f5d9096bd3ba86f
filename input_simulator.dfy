/** The injection engine (InputSimulator.cs): turns one recorded event into at
    most one synthetic OS input, tracking the held mouse buttons and the last
    recorded pointer position so that a move is sent as an absolute warp or
    as a relative delta.

    The OS is abstracted: every `SendInput` call appends its input to the
    simulator's `sent` trace, and `GetSystemMetrics` / `MapVirtualKey` are
    read from a `Platform` value passed to each call. */
module InputSimulation {
  import opened MacroModel

  const KEYEVENTF_EXTENDEDKEY: bv32 := 0x0001
  const KEYEVENTF_KEYUP: bv32 := 0x0002
  const KEYEVENTF_SCANCODE: bv32 := 0x0008

  const MOUSEEVENTF_MOVE: bv32 := 0x0001
  const MOUSEEVENTF_LEFTDOWN: bv32 := 0x0002
  const MOUSEEVENTF_LEFTUP: bv32 := 0x0004
  const MOUSEEVENTF_RIGHTDOWN: bv32 := 0x0008
  const MOUSEEVENTF_RIGHTUP: bv32 := 0x0010
  const MOUSEEVENTF_MIDDLEDOWN: bv32 := 0x0020
  const MOUSEEVENTF_MIDDLEUP: bv32 := 0x0040
  const MOUSEEVENTF_WHEEL: bv32 := 0x0800
  const MOUSEEVENTF_ABSOLUTE: bv32 := 0x8000

  /** The largest coordinate of the OS's normalized absolute space. */
  const AbsoluteMax := 65535

  /** One `INPUT` structure handed to `SendInput`: the keyboard or the mouse
      arm of the union.  `wScan` holds the `(ushort)` truncation of the scan
      code and `mouseData` the `(uint)` reinterpretation of the wheel delta. */
  datatype NativeInput =
    | KeyboardInput(wVk: int, wScan: int, dwFlags: bv32)
    | MouseInput(dx: int, dy: int, mouseData: int, dwFlags: bv32)

  /** What the injection engine asks of the OS: the primary screen's size
      (`GetSystemMetrics(0)` and `(1)`, re-read on every call) and the
      virtual-key to scan-code mapping (`MapVirtualKey(vk, MAPVK_VK_TO_VSC)`). */
  datatype Platform = Platform(screenWidth: int, screenHeight: int, mapVirtualKey: int -> int)

  /** The engine's tracked state. */
  datatype SimState = SimState(pressed: set<MouseButton>, lastX: int, lastY: int, hasPosition: bool)

  /** The state after `ResetState` (and at start-up). */
  const ResetSimState := SimState({}, 0, 0, false)

  /** The new state and the inputs emitted by one or more events. */
  datatype Step = Step(state: SimState, emitted: seq<NativeInput>)

  function Max(a: int, b: int): int { if a < b then b else a }

  function Min(a: int, b: int): int { if a < b then a else b }

  // ---------------------------------------------------------------------
  // Coordinate normalization

  /** The pixel coordinate clamped to the screen, `[0, size - 1]`. */
  function Clip(value: int, size: int): (c: int)
    ensures 0 <= c <= Max(0, size - 1)
    ensures 0 <= value <= size - 1 ==> c == value
    ensures value <= 0 ==> c == 0
    ensures size >= 1 && value >= size - 1 ==> c == size - 1
  {
    Max(0, Min(size - 1, value))
  }

  /** Arithmetic helpers for the rescaling proofs. */
  lemma MulNonNegative(a: int, b: int)
    requires a >= 0 && b >= 0
    ensures a * b >= 0
  {}

  lemma DivModUnique(n: int, d: int, q: int, r: int)
    requires d > 0 && 0 <= r < d && n == q * d + r
    ensures n / d == q && n % d == r
  {
    var q0, r0 := n / d, n % d;
    assert n == q0 * d + r0;
    var k := q - q0;
    assert k * d == r0 - r by {
      assert q * d - q0 * d == (q - q0) * d;
    }
    if k > 0 {
      MulNonNegative(k - 1, d);
      assert false;
    }
    if k < 0 {
      MulNonNegative(-k - 1, d);
      assert false;
    }
  }

  /** `Math.Round` of the quotient `n / d` with its default mode: to the
      nearest integer, ties to the even one. */
  function RoundHalfEven(n: nat, d: nat): (r: nat)
    requires d > 0
    ensures n / d <= r <= n / d + 1
    ensures n % d == 0 ==> r == n / d
    ensures 2 * (n % d) < d ==> r == n / d
    ensures 2 * (n % d) > d ==> r == n / d + 1
    ensures 2 * (n % d) == d ==> r % 2 == 0
  {
    var q, rem := n / d, n % d;
    if 2 * rem < d then q
    else if 2 * rem > d then q + 1
    else if q % 2 == 0 then q
    else q + 1
  }

  /** Scaling a clipped coordinate `c <= d` by 65535 / d never leaves the
      absolute space, and the full-screen coordinate maps onto its end. */
  lemma ScaledWithinRange(c: nat, d: nat)
    requires 1 <= d && c <= d
    ensures RoundHalfEven(c * AbsoluteMax, d) <= AbsoluteMax
    ensures c == d ==> RoundHalfEven(c * AbsoluteMax, d) == AbsoluteMax
  {
    var n := c * AbsoluteMax;
    if c == d {
      DivModUnique(n, d, AbsoluteMax, 0);
    } else {
      var q, r := n / d, n % d;
      assert n == q * d + r;
      MulNonNegative(d - c - 1, AbsoluteMax);
      assert n + AbsoluteMax <= d * AbsoluteMax by {
        assert (d - c - 1) * AbsoluteMax == d * AbsoluteMax - c * AbsoluteMax - AbsoluteMax;
      }
      if q >= AbsoluteMax {
        MulNonNegative(q - AbsoluteMax, d);
        assert false;
      }
    }
  }

  /** One axis of `NormalizeAbsolute`: clamp to the screen, then rescale
      linearly onto `[0, 65535]`. */
  function NormalizeAxis(value: int, size: int): (r: int)
    ensures 0 <= r <= AbsoluteMax
    ensures size > 1 && value <= 0 ==> r == 0
    ensures size > 1 && value >= size - 1 ==> r == AbsoluteMax
    ensures size <= 1 ==> r == 0
  {
    var d := Max(1, size - 1);
    var c := Clip(value, size);
    ScaledWithinRange(c, d);
    RoundHalfEven(c * AbsoluteMax, d)
  }

  /** Both axes, against the screen size the platform reports now. */
  function NormalizeAbsolute(x: int, y: int, p: Platform): (r: (int, int))
    ensures 0 <= r.0 <= AbsoluteMax && 0 <= r.1 <= AbsoluteMax
  {
    (NormalizeAxis(x, p.screenWidth), NormalizeAxis(y, p.screenHeight))
  }

  /** A pixel further right (or down) never maps further left (or up). */
  lemma {:induction false} NormalizeAxisMonotonic(v1: int, v2: int, size: int)
    requires v1 <= v2
    ensures NormalizeAxis(v1, size) <= NormalizeAxis(v2, size)
  {
    var d := Max(1, size - 1);
    var c1, c2 := Clip(v1, size), Clip(v2, size);
    assert c1 <= c2;
    var n1, n2 := c1 * AbsoluteMax, c2 * AbsoluteMax;
    assert n1 <= n2;
    if n1 == n2 {
    } else {
      var q1, q2 := n1 / d, n2 / d;
      DivMonotonic(n1, n2, d);
      if q1 == q2 {
        assert n1 % d < n2 % d;
      }
    }
  }

  lemma DivMonotonic(a: nat, b: nat, d: nat)
    requires a <= b && d > 0
    ensures a / d <= b / d
    ensures a / d == b / d ==> a % d <= b % d
  {
    var qa, ra, qb, rb := a / d, a % d, b / d, b % d;
    assert a == qa * d + ra && b == qb * d + rb;
    if qa > qb {
      MulNonNegative(qa - qb - 1, d);
      assert false;
    }
  }

  // ---------------------------------------------------------------------
  // Keyboard

  /** The key codes (WinForms `Keys` values) that are always injected with
      the extended-key flag. */
  const ExtendedKeyCodes: set<int> := {
    0x27, 0x25, 0x26, 0x28,           // Right, Left, Up, Down
    0x2D, 0x2E, 0x24, 0x23,           // Insert, Delete, Home, End
    0x21, 0x22,                       // PageUp, PageDown
    0x90, 0x6F, 0xA3, 0xA5,           // NumLock, Divide, RControlKey, RMenu
    0xA6, 0xA7, 0xA8, 0xA9, 0xAA, 0xAB, 0xAC,   // Browser keys
    0xAD, 0xAE, 0xAF,                 // VolumeMute, VolumeDown, VolumeUp
    0xB0, 0xB1, 0xB2, 0xB3,           // media transport keys
    0xB4, 0xB5, 0xB6, 0xB7,           // launch keys
    0x2C, 0x5D                        // PrintScreen, Apps
  }

  /** Whether the event is injected with KEYEVENTF_EXTENDEDKEY: the captured
      flag wins, a zero key code never qualifies, otherwise the allowlist. */
  function ShouldUseExtendedKey(e: MacroEvent): (r: bool)
    ensures e.isExtendedKey ==> r
    ensures !e.isExtendedKey && e.keyCode == 0 ==> !r
    ensures !e.isExtendedKey && e.keyCode != 0 ==> (r <==> e.keyCode in ExtendedKeyCodes)
  {
    if e.isExtendedKey then true
    else if e.keyCode == 0 then false
    else e.keyCode in ExtendedKeyCodes
  }

  /** The allowlist by the key families it is made of: the navigation
      cluster, print screen, the context-menu key, numeric-pad divide,
      num lock, the right-hand Ctrl and Alt, and the browser, media and
      launch keys. */
  predicate IsExtendedKeyFamily(k: int) {
    || 0x21 <= k <= 0x28              // PageUp .. Down (arrows and navigation)
    || k == 0x2C || k == 0x2D || k == 0x2E   // PrintScreen, Insert, Delete
    || k == 0x5D                      // Apps
    || k == 0x6F                      // Divide
    || k == 0x90                      // NumLock
    || k == 0xA3 || k == 0xA5         // RControlKey, RMenu
    || 0xA6 <= k <= 0xB7              // BrowserBack .. LaunchApplication2
  }

  /** The allowlist is exactly the union of those key families. */
  lemma ExtendedKeyCodesAreFamilies(k: int)
    ensures k in ExtendedKeyCodes <==> IsExtendedKeyFamily(k)
  {
    if 0xA6 <= k <= 0xB7 {
      assert k in {0xA6, 0xA7, 0xA8, 0xA9, 0xAA, 0xAB, 0xAC, 0xAD, 0xAE, 0xAF,
                   0xB0, 0xB1, 0xB2, 0xB3, 0xB4, 0xB5, 0xB6, 0xB7};
    }
    if 0x21 <= k <= 0x28 {
      assert k in {0x21, 0x22, 0x23, 0x24, 0x25, 0x26, 0x27, 0x28};
    }
  }

  /** The scan code to inject: the captured one, else the OS mapping of the
      virtual key, else 0 (nothing to inject). */
  function ResolveScanCode(e: MacroEvent, p: Platform): (sc: int)
    ensures e.scanCode != 0 ==> sc == e.scanCode
    ensures e.scanCode == 0 && e.keyCode != 0 ==> sc == p.mapVirtualKey(e.keyCode)
    ensures e.scanCode == 0 && e.keyCode == 0 ==> sc == 0
  {
    if e.scanCode == 0 && e.keyCode != 0 then p.mapVirtualKey(e.keyCode) else e.scanCode
  }

  /** KEYEVENTF_SCANCODE, plus EXTENDEDKEY and KEYUP where they apply. */
  function KeyboardFlags(e: MacroEvent, isKeyUp: bool): (f: bv32)
    ensures f & KEYEVENTF_SCANCODE != 0
    ensures f & KEYEVENTF_EXTENDEDKEY != 0 <==> ShouldUseExtendedKey(e)
    ensures f & KEYEVENTF_KEYUP != 0 <==> isKeyUp
    ensures f & !(KEYEVENTF_SCANCODE | KEYEVENTF_EXTENDEDKEY | KEYEVENTF_KEYUP) == 0
  {
    var f := KEYEVENTF_SCANCODE;
    var f := if ShouldUseExtendedKey(e) then f | KEYEVENTF_EXTENDEDKEY else f;
    if isKeyUp then f | KEYEVENTF_KEYUP else f
  }

  /** A keyboard event: one scan-code input when a scan code resolves,
      nothing otherwise; the mouse state is never touched. */
  function KeyboardStep(s: SimState, e: MacroEvent, isKeyUp: bool, p: Platform): (r: Step)
    ensures r.state == s
    ensures r.emitted == [] <==> ResolveScanCode(e, p) == 0
    ensures r.emitted != [] ==>
      r.emitted == [KeyboardInput(0, ResolveScanCode(e, p) % 0x1_0000, KeyboardFlags(e, isKeyUp))]
  {
    var sc := ResolveScanCode(e, p);
    if sc == 0 then Step(s, [])
    else Step(s, [KeyboardInput(0, sc % 0x1_0000, KeyboardFlags(e, isKeyUp))])
  }

  // ---------------------------------------------------------------------
  // Mouse

  /** An absolute warp to the normalized pixel position. */
  function AbsoluteMoveInput(x: int, y: int, p: Platform): NativeInput {
    var (ax, ay) := NormalizeAbsolute(x, y, p);
    MouseInput(ax, ay, 0, MOUSEEVENTF_MOVE | MOUSEEVENTF_ABSOLUTE)
  }

  /** A relative move by a pixel delta. */
  function RelativeMoveInput(dx: int, dy: int): NativeInput {
    MouseInput(dx, dy, 0, MOUSEEVENTF_MOVE)
  }

  /** The state after recording a position. */
  function WithPosition(s: SimState, x: int, y: int): (r: SimState)
    ensures r.pressed == s.pressed && r.lastX == x && r.lastY == y && r.hasPosition
  {
    s.(lastX := x, lastY := y, hasPosition := true)
  }

  /** A pointer move.  The first move since a reset warps absolutely; later
      moves warp absolutely while no button is held and otherwise move by the
      delta from the last recorded position, emitting nothing for a zero
      delta.  The event's position becomes the recorded one. */
  function MoveStep(s: SimState, e: MacroEvent, p: Platform): (r: Step)
    ensures r.state == WithPosition(s, e.mouseX, e.mouseY)
    ensures !s.hasPosition ==> r.emitted == [AbsoluteMoveInput(e.mouseX, e.mouseY, p)]
    ensures s.hasPosition && s.pressed == {} ==> r.emitted == [AbsoluteMoveInput(e.mouseX, e.mouseY, p)]
    ensures s.hasPosition && s.pressed != {} ==>
      var dx, dy := e.mouseX - s.lastX, e.mouseY - s.lastY;
      r.emitted == if dx == 0 && dy == 0 then [] else [RelativeMoveInput(dx, dy)]
  {
    var next := WithPosition(s, e.mouseX, e.mouseY);
    if !s.hasPosition || s.pressed == {} then
      Step(next, [AbsoluteMoveInput(e.mouseX, e.mouseY, p)])
    else
      var dx, dy := e.mouseX - s.lastX, e.mouseY - s.lastY;
      Step(next, if dx == 0 && dy == 0 then [] else [RelativeMoveInput(dx, dy)])
  }

  /** The buttons the engine can inject. */
  predicate IsSupportedButton(b: MouseButton) {
    b == Left || b == Right || b == Middle
  }

  /** The down or up flag of a button, 0 for an unsupported one. */
  function ButtonFlag(b: MouseButton, isRelease: bool): (f: bv32)
    ensures f == 0 <==> !IsSupportedButton(b)
    ensures b == Left ==> f == if isRelease then MOUSEEVENTF_LEFTUP else MOUSEEVENTF_LEFTDOWN
    ensures b == Right ==> f == if isRelease then MOUSEEVENTF_RIGHTUP else MOUSEEVENTF_RIGHTDOWN
    ensures b == Middle ==> f == if isRelease then MOUSEEVENTF_MIDDLEUP else MOUSEEVENTF_MIDDLEDOWN
  {
    match b
    case Left => if isRelease then MOUSEEVENTF_LEFTUP else MOUSEEVENTF_LEFTDOWN
    case Right => if isRelease then MOUSEEVENTF_RIGHTUP else MOUSEEVENTF_RIGHTDOWN
    case Middle => if isRelease then MOUSEEVENTF_MIDDLEUP else MOUSEEVENTF_MIDDLEDOWN
    case _ => 0
  }

  /** A button press or release.  An unsupported button is a no-op.
      Otherwise the position is resynchronized to the event's, the button is
      added to (press) or removed from (release) the held set, and one
      absolute button input is emitted at the event's position. */
  function ButtonStep(s: SimState, e: MacroEvent, isRelease: bool, p: Platform): (r: Step)
    ensures !IsSupportedButton(e.mouseButton) ==> r == Step(s, [])
    ensures IsSupportedButton(e.mouseButton) ==>
      && r.state.lastX == e.mouseX && r.state.lastY == e.mouseY && r.state.hasPosition
      && r.state.pressed == (if isRelease then s.pressed - {e.mouseButton} else s.pressed + {e.mouseButton})
      && |r.emitted| == 1
      && var (ax, ay) := NormalizeAbsolute(e.mouseX, e.mouseY, p);
         r.emitted[0] == MouseInput(ax, ay, 0,
           ButtonFlag(e.mouseButton, isRelease) | MOUSEEVENTF_ABSOLUTE | MOUSEEVENTF_MOVE)
  {
    var b := e.mouseButton;
    var flag := ButtonFlag(b, isRelease);
    if flag == 0 then Step(s, [])
    else
      var s1 := WithPosition(s, e.mouseX, e.mouseY);
      var s2 := s1.(pressed := if isRelease then s1.pressed - {b} else s1.pressed + {b});
      var (ax, ay) := NormalizeAbsolute(e.mouseX, e.mouseY, p);
      Step(s2, [MouseInput(ax, ay, 0, flag | MOUSEEVENTF_ABSOLUTE | MOUSEEVENTF_MOVE)])
  }

  /** A wheel input carrying the delta, reinterpreted as an unsigned 32-bit
      value. */
  function WheelInput(delta: int): (i: NativeInput)
    ensures i.MouseInput? && i.dwFlags == MOUSEEVENTF_WHEEL && i.dx == 0 && i.dy == 0
    ensures 0 <= i.mouseData < 0x1_0000_0000
    ensures -0x8000_0000 <= delta < 0 ==> i.mouseData == delta + 0x1_0000_0000
    ensures 0 <= delta < 0x1_0000_0000 ==> i.mouseData == delta
  {
    MouseInput(0, 0, delta % 0x1_0000_0000, MOUSEEVENTF_WHEEL)
  }

  /** `Play`: dispatch on the event kind. */
  function PlayStep(s: SimState, e: MacroEvent, p: Platform): (r: Step)
    ensures |r.emitted| <= 1
    ensures e.IsKeyboardEvent() || e.eventType == MouseWheel ==> r.state == s
    ensures e.eventType == MouseWheel ==> r.emitted == [WheelInput(e.mouseDelta)]
  {
    match e.eventType
    case KeyDown => KeyboardStep(s, e, false, p)
    case KeyUp => KeyboardStep(s, e, true, p)
    case MouseDown => ButtonStep(s, e, false, p)
    case MouseUp => ButtonStep(s, e, true, p)
    case MouseMove => MoveStep(s, e, p)
    case MouseWheel => Step(s, [WheelInput(e.mouseDelta)])
  }

  /** Playing a whole sequence of events, in order. */
  function PlayAll(s: SimState, es: seq<MacroEvent>, p: Platform): (r: Step)
    ensures |r.emitted| <= |es|
    decreases |es|
  {
    if es == [] then Step(s, [])
    else
      var prev := PlayAll(s, es[..|es| - 1], p);
      var last := PlayStep(prev.state, es[|es| - 1], p);
      Step(last.state, prev.emitted + last.emitted)
  }

  // ---------------------------------------------------------------------
  // Properties over whole event sequences

  /** Whether button `b` is held after events `es`, reading only the
      supported press and release events of `b` and starting from `held`. */
  function HeldAfter(held: bool, es: seq<MacroEvent>, b: MouseButton): bool
    decreases |es|
  {
    if es == [] then held
    else
      var e := es[|es| - 1];
      var before := HeldAfter(held, es[..|es| - 1], b);
      if IsSupportedButton(b) && e.mouseButton == b && e.eventType == MouseDown then true
      else if IsSupportedButton(b) && e.mouseButton == b && e.eventType == MouseUp then false
      else before
  }

  /** Button bookkeeping over arbitrary interleavings: a button is held after
      a sequence exactly when its last press-or-release was a press (or, with
      none, when it was held before). */
  lemma {:induction false} HeldIffLastWasPress(s: SimState, es: seq<MacroEvent>, p: Platform, b: MouseButton)
    ensures b in PlayAll(s, es, p).state.pressed <==> HeldAfter(b in s.pressed, es, b)
    decreases |es|
  {
    if es != [] {
      HeldIffLastWasPress(s, es[..|es| - 1], p, b);
    }
  }

  /** Only the three supported buttons are ever tracked as held. */
  lemma {:induction false} OnlySupportedButtonsHeld(s: SimState, es: seq<MacroEvent>, p: Platform)
    requires forall b :: b in s.pressed ==> IsSupportedButton(b)
    ensures forall b :: b in PlayAll(s, es, p).state.pressed ==> IsSupportedButton(b)
    decreases |es|
  {
    if es != [] {
      OnlySupportedButtonsHeld(s, es[..|es| - 1], p);
    }
  }

  /** The horizontal and vertical sums of a sequence of mouse deltas. */
  function SumDx(ins: seq<NativeInput>): int
    decreases |ins|
  {
    if ins == [] then 0
    else SumDx(ins[..|ins| - 1]) + (if ins[|ins| - 1].MouseInput? then ins[|ins| - 1].dx else 0)
  }

  function SumDy(ins: seq<NativeInput>): int
    decreases |ins|
  {
    if ins == [] then 0
    else SumDy(ins[..|ins| - 1]) + (if ins[|ins| - 1].MouseInput? then ins[|ins| - 1].dy else 0)
  }

  lemma {:induction false} SumsOfConcat(a: seq<NativeInput>, b: seq<NativeInput>)
    ensures SumDx(a + b) == SumDx(a) + SumDx(b) && SumDy(a + b) == SumDy(a) + SumDy(b)
    decreases |b|
  {
    if b == [] {
      assert a + b == a;
    } else {
      assert (a + b)[..|a + b| - 1] == a + b[..|b| - 1];
      SumsOfConcat(a, b[..|b| - 1]);
    }
  }

  /** Drag fidelity: while a button stays held, replaying a run of moves
      emits only relative moves, and their deltas add up to exactly the
      pointer's recorded displacement, so relative replay does not drift. */
  lemma {:induction false} DragDeltasTelescope(s: SimState, es: seq<MacroEvent>, p: Platform)
    requires s.hasPosition && s.pressed != {}
    requires forall i :: 0 <= i < |es| ==> es[i].eventType == MouseMove
    ensures var r := PlayAll(s, es, p);
      && r.state.pressed == s.pressed && r.state.hasPosition
      && (forall i :: 0 <= i < |r.emitted| ==> r.emitted[i].MouseInput? && r.emitted[i].dwFlags == MOUSEEVENTF_MOVE)
      && SumDx(r.emitted) == r.state.lastX - s.lastX
      && SumDy(r.emitted) == r.state.lastY - s.lastY
    decreases |es|
  {
    if es != [] {
      var prefix := es[..|es| - 1];
      DragDeltasTelescope(s, prefix, p);
      var prev := PlayAll(s, prefix, p);
      var last := PlayStep(prev.state, es[|es| - 1], p);
      SumsOfConcat(prev.emitted, last.emitted);
      if last.emitted != [] {
        assert last.emitted[..0] == [];
      }
    }
  }

  /** Playing one more event continues from the state the prefix left. */
  lemma PlayAllSnoc(s: SimState, es: seq<MacroEvent>, e: MacroEvent, p: Platform)
    ensures PlayAll(s, es + [e], p).state == PlayStep(PlayAll(s, es, p).state, e, p).state
    ensures PlayAll(s, es + [e], p).emitted ==
      PlayAll(s, es, p).emitted + PlayStep(PlayAll(s, es, p).state, e, p).emitted
  {
    assert (es + [e])[..|es|] == es;
  }

  /** Loop reset: after a reset, a move is always an absolute warp to its
      own position, whatever was held or recorded before. */
  lemma FirstMoveAfterResetIsAbsolute(e: MacroEvent, p: Platform)
    requires e.eventType == MouseMove
    ensures PlayStep(ResetSimState, e, p) ==
      Step(SimState({}, e.mouseX, e.mouseY, true), [AbsoluteMoveInput(e.mouseX, e.mouseY, p)])
  {
  }

  // ---------------------------------------------------------------------
  // The engine itself: static mutable state, updated in place

  class Simulator {
    var pressedButtons: set<MouseButton>
    var lastRecordedMouseX: int
    var lastRecordedMouseY: int
    var hasRecordedMousePosition: bool
    /** Every input passed to `SendInput`, oldest first. */
    var sent: seq<NativeInput>

    function State(): SimState
      reads this
    {
      SimState(pressedButtons, lastRecordedMouseX, lastRecordedMouseY, hasRecordedMousePosition)
    }

    /** The static fields' initial values. */
    constructor ()
      ensures State() == ResetSimState && sent == []
    {
      pressedButtons := {};
      lastRecordedMouseX, lastRecordedMouseY := 0, 0;
      hasRecordedMousePosition := false;
      sent := [];
    }

    method ResetState()
      modifies this
      ensures State() == ResetSimState
      ensures sent == old(sent)
    {
      pressedButtons := {};
      lastRecordedMouseX := 0;
      lastRecordedMouseY := 0;
      hasRecordedMousePosition := false;
    }

    method Play(e: MacroEvent, p: Platform)
      modifies this
      ensures State() == PlayStep(old(State()), e, p).state
      ensures sent == old(sent) + PlayStep(old(State()), e, p).emitted
    {
      match e.eventType
      case KeyDown => SendKeyboard(e, false, p);
      case KeyUp => SendKeyboard(e, true, p);
      case MouseDown => SendMouseButton(e, false, p);
      case MouseUp => SendMouseButton(e, true, p);
      case MouseMove => MoveMouse(e, p);
      case MouseWheel => ScrollWheel(e.mouseDelta);
    }

    /** `SendInput(1, [input], ...)`. */
    method SendInput(input: NativeInput)
      modifies this`sent
      ensures sent == old(sent) + [input]
    {
      sent := sent + [input];
    }

    method SendKeyboard(e: MacroEvent, isKeyUp: bool, p: Platform)
      modifies this`sent
      ensures sent == old(sent) + KeyboardStep(State(), e, isKeyUp, p).emitted
    {
      var scanCode := e.scanCode;
      if scanCode == 0 && e.keyCode != 0 {
        scanCode := p.mapVirtualKey(e.keyCode);
      }
      if scanCode == 0 {
        return;
      }
      var flags := KEYEVENTF_SCANCODE;
      if ShouldUseExtendedKey(e) {
        flags := flags | KEYEVENTF_EXTENDEDKEY;
      }
      if isKeyUp {
        flags := flags | KEYEVENTF_KEYUP;
      }
      SendInput(KeyboardInput(0, scanCode % 0x1_0000, flags));
    }

    method MoveMouse(e: MacroEvent, p: Platform)
      modifies this
      ensures State() == MoveStep(old(State()), e, p).state
      ensures sent == old(sent) + MoveStep(old(State()), e, p).emitted
    {
      if !hasRecordedMousePosition {
        UpdateRecordedMousePosition(e.mouseX, e.mouseY);
        MoveMouseAbsolute(e.mouseX, e.mouseY, p);
        return;
      }
      var previousX := lastRecordedMouseX;
      var previousY := lastRecordedMouseY;
      if pressedButtons == {} {
        MoveMouseAbsolute(e.mouseX, e.mouseY, p);
      } else {
        var deltaX := e.mouseX - previousX;
        var deltaY := e.mouseY - previousY;
        if deltaX != 0 || deltaY != 0 {
          MoveMouseRelative(deltaX, deltaY);
        }
      }
      UpdateRecordedMousePosition(e.mouseX, e.mouseY);
    }

    method MoveMouseAbsolute(x: int, y: int, p: Platform)
      modifies this`sent
      ensures sent == old(sent) + [AbsoluteMoveInput(x, y, p)]
    {
      var (absX, absY) := NormalizeAbsolute(x, y, p);
      SendInput(MouseInput(absX, absY, 0, MOUSEEVENTF_MOVE | MOUSEEVENTF_ABSOLUTE));
    }

    method MoveMouseRelative(deltaX: int, deltaY: int)
      modifies this`sent
      ensures sent == old(sent) + if deltaX == 0 && deltaY == 0 then [] else [RelativeMoveInput(deltaX, deltaY)]
    {
      if deltaX == 0 && deltaY == 0 {
        return;
      }
      SendInput(MouseInput(deltaX, deltaY, 0, MOUSEEVENTF_MOVE));
    }

    method SendMouseButton(e: MacroEvent, isRelease: bool, p: Platform)
      modifies this
      ensures State() == ButtonStep(old(State()), e, isRelease, p).state
      ensures sent == old(sent) + ButtonStep(old(State()), e, isRelease, p).emitted
    {
      var button := e.mouseButton;
      var flag := ButtonFlag(button, isRelease);
      if flag == 0 {
        return;
      }
      UpdateRecordedMousePosition(e.mouseX, e.mouseY);
      if isRelease {
        pressedButtons := pressedButtons - {button};
      } else {
        pressedButtons := pressedButtons + {button};
      }
      var (absX, absY) := NormalizeAbsolute(e.mouseX, e.mouseY, p);
      SendInput(MouseInput(absX, absY, 0, flag | MOUSEEVENTF_ABSOLUTE | MOUSEEVENTF_MOVE));
    }

    method ScrollWheel(delta: int)
      modifies this`sent
      ensures sent == old(sent) + [WheelInput(delta)]
    {
      SendInput(MouseInput(0, 0, delta % 0x1_0000_0000, MOUSEEVENTF_WHEEL));
    }

    method UpdateRecordedMousePosition(x: int, y: int)
      modifies this
      ensures State() == WithPosition(old(State()), x, y)
      ensures sent == old(sent)
    {
      lastRecordedMouseX := x;
      lastRecordedMouseY := y;
      hasRecordedMousePosition := true;
    }
  }
}
