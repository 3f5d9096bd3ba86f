/** The capture buffer (RecordingService.cs): while recording, every hook
    notification is stamped with the stopwatch, turned into an event whose
    delay is the non-negative time since the previous one, and appended to
    the buffer.  The stopwatch reading is a parameter of `OnHookInput`. */
module Recording {
  import opened Wrappers
  import opened MacroModel
  import opened Hooks

  /** A negative delay (clock jitter) is recorded as 0. */
  function ClampDelay(delay: int): (d: int)
    ensures d >= 0
    ensures delay >= 0 ==> d == delay
    ensures delay < 0 ==> d == 0
  {
    if delay < 0 then 0 else delay
  }

  /** The hook payload of an event: everything but its delay. */
  function ArgsOf(e: MacroEvent): HookEventArgs {
    HookEventArgs(e.eventType, e.keyCode, e.scanCode, e.isExtendedKey,
                  e.mouseButton, e.mouseX, e.mouseY, e.mouseDelta)
  }

  /** The event buffered for a notification: the hook payload copied field
      by field, with the clamped delay. */
  function CaptureEvent(args: HookEventArgs, delay: int): (e: MacroEvent)
    ensures ArgsOf(e) == args
    ensures e.delay == ClampDelay(delay)
  {
    MacroEvent(args.eventType, ClampDelay(delay), args.keyCode, args.scanCode,
               args.isExtendedKey, args.mouseButton, args.mouseX, args.mouseY, args.mouseDelta)
  }

  /** A copy of an event, field by field. */
  function CloneEvent(source: MacroEvent): (c: MacroEvent)
    ensures c == source
  {
    MacroEvent(source.eventType, source.delay, source.keyCode, source.scanCode,
               source.isExtendedKey, source.mouseButton, source.mouseX, source.mouseY,
               source.mouseDelta)
  }

  /** `_buffer.Select(CloneEvent).ToList()`. */
  function CloneAll(es: seq<MacroEvent>): (r: seq<MacroEvent>)
    ensures r == es
  {
    seq(|es|, i requires 0 <= i < |es| => CloneEvent(es[i]))
  }

  /** The last timestamp of a sequence, or `initial` for none. */
  function LastOr(initial: int, stamps: seq<int>): int {
    if stamps == [] then initial else stamps[|stamps| - 1]
  }

  /** The delays the buffer receives for accepted notifications stamped
      `stamps`, when the previous timestamp was `last`. */
  function DelaysFrom(last: int, stamps: seq<int>): (ds: seq<int>)
    ensures |ds| == |stamps|
    ensures forall i :: 0 <= i < |ds| ==> ds[i] >= 0
    decreases |stamps|
  {
    if stamps == [] then []
    else
      var prefix := stamps[..|stamps| - 1];
      DelaysFrom(last, prefix) + [ClampDelay(stamps[|stamps| - 1] - LastOr(last, prefix))]
  }

  predicate NonDecreasing(stamps: seq<int>) {
    forall i, j :: 0 <= i <= j < |stamps| ==> stamps[i] <= stamps[j]
  }

  /** For a stopwatch that never runs backwards, no delay is clamped and the
      delays add up to the time from `last` to the final timestamp. */
  lemma {:induction false} DelaysTelescope(last: int, stamps: seq<int>)
    requires NonDecreasing(stamps)
    requires stamps != [] ==> last <= stamps[0]
    ensures Sum(DelaysFrom(last, stamps)) == LastOr(last, stamps) - last
    decreases |stamps|
  {
    if stamps != [] {
      var prefix := stamps[..|stamps| - 1];
      assert NonDecreasing(prefix);
      DelaysTelescope(last, prefix);
      var ds := DelaysFrom(last, stamps);
      assert ds[..|ds| - 1] == DelaysFrom(last, prefix);
    }
  }

  class RecordingService {
    const hookManager: HookManager
    var buffer: seq<MacroEvent>
    var lastTimestamp: int
    var isRecording: bool
    /** The stopwatch readings of the buffered events. */
    ghost var stamps: seq<int>

    /** The buffer's delays are the clamped differences of successive
        readings, `lastTimestamp` is the latest reading, and recording is on
        exactly while both hooks are installed. */
    ghost predicate Valid()
      reads this, hookManager
    {
      && |stamps| == |buffer|
      && lastTimestamp == LastOr(0, stamps)
      && Delays(buffer) == DelaysFrom(0, stamps)
      && (isRecording <==> hookManager.IsRunning())
    }

    constructor ()
      ensures Valid() && fresh(hookManager)
      ensures buffer == [] && !isRecording && hookManager.unhooked == []
    {
      hookManager := new HookManager();
      buffer := [];
      lastTimestamp := 0;
      isRecording := false;
      stamps := [];
    }

    /** Starts a session: clears the buffer and the last timestamp, then
        installs the hooks.  `started` is false when installing them throws
        (the buffer stays cleared and recording stays off).  A second start
        while recording changes nothing. */
    method Start(keyboardHandle: int, mouseHandle: int) returns (started: bool)
      requires Valid()
      modifies this, hookManager
      ensures Valid()
      ensures old(isRecording) ==>
        started && buffer == old(buffer) && lastTimestamp == old(lastTimestamp) && isRecording
        && unchanged(hookManager)
      ensures !old(isRecording) ==>
        buffer == [] && lastTimestamp == 0 &&
        (started <==> keyboardHandle != 0 && mouseHandle != 0) &&
        hookManager.keyboardHookId == keyboardHandle && hookManager.mouseHookId == mouseHandle
      ensures isRecording == started
      ensures hookManager.unhooked == old(hookManager.unhooked)
    {
      if isRecording {
        return true;
      }
      buffer := [];
      stamps := [];
      lastTimestamp := 0;
      var registered := hookManager.Start(keyboardHandle, mouseHandle);
      if !registered {
        return false;
      }
      isRecording := true;
      return true;
    }

    /** Ends the session and returns a copy of the buffer; outside a session
        returns nothing and changes nothing. */
    method Stop() returns (events: seq<MacroEvent>)
      requires Valid()
      modifies this, hookManager
      ensures Valid()
      ensures !isRecording && !hookManager.IsRunning()
      ensures buffer == old(buffer) && lastTimestamp == old(lastTimestamp)
      ensures !old(isRecording) ==> events == [] && unchanged(hookManager)
      ensures old(isRecording) ==> events == old(buffer)
      ensures old(isRecording) ==>
        hookManager.unhooked == old(hookManager.unhooked) + [old(hookManager.keyboardHookId), old(hookManager.mouseHookId)]
    {
      if !isRecording {
        return [];
      }
      hookManager.Stop();
      isRecording := false;
      events := CloneAll(buffer);
    }

    /** One hook notification stamped `timestamp`: ignored outside a
        session, otherwise exactly one event appended. */
    method OnHookInput(e: HookEventArgs, timestamp: int)
      requires Valid()
      modifies this
      ensures Valid()
      ensures isRecording == old(isRecording)
      ensures !old(isRecording) ==> buffer == old(buffer) && lastTimestamp == old(lastTimestamp)
      ensures old(isRecording) ==>
        buffer == old(buffer) + [CaptureEvent(e, timestamp - old(lastTimestamp))] &&
        lastTimestamp == timestamp
    {
      if !isRecording {
        return;
      }
      var delay := timestamp - lastTimestamp;
      lastTimestamp := timestamp;
      var macroEvent := CaptureEvent(e, delay);
      assert DelaysFrom(0, stamps + [timestamp]) == DelaysFrom(0, stamps) + [ClampDelay(delay)] by {
        assert (stamps + [timestamp])[..|stamps|] == stamps;
      }
      buffer := buffer + [macroEvent];
      stamps := stamps + [timestamp];
    }

    /** The keyboard hook raising `InputCaptured` into `OnHookInput`. */
    method OnKeyboardHook(nCode: int, wParam: int, info: Option<KbdLlHookStruct>, timestamp: int)
      requires Valid()
      modifies this
      ensures Valid()
      ensures var args := KeyboardCallback(nCode, wParam, info);
        buffer == old(buffer) + if old(isRecording) && args.Some? then [CaptureEvent(args.value, timestamp - old(lastTimestamp))] else []
    {
      var args := KeyboardCallback(nCode, wParam, info);
      if args.Some? {
        OnHookInput(args.value, timestamp);
      }
    }

    /** The mouse hook raising `InputCaptured` into `OnHookInput`. */
    method OnMouseHook(nCode: int, wParam: int, info: Option<MsLlHookStruct>, timestamp: int)
      requires Valid()
      modifies this
      ensures Valid()
      ensures var args := MouseCallback(nCode, wParam, info);
        buffer == old(buffer) + if old(isRecording) && args.Some? then [CaptureEvent(args.value, timestamp - old(lastTimestamp))] else []
    {
      var args := MouseCallback(nCode, wParam, info);
      if args.Some? {
        OnHookInput(args.value, timestamp);
      }
    }

    /** Every buffered delay is non-negative. */
    lemma BufferedDelaysNonNegative()
      requires Valid()
      ensures forall i :: 0 <= i < |buffer| ==> buffer[i].delay >= 0
    {
      forall i | 0 <= i < |buffer| ensures buffer[i].delay >= 0 {
        assert Delays(buffer)[i] == buffer[i].delay;
      }
    }

    /** With a stopwatch that starts at 0 and never runs backwards, the
        buffered delays add up to the last timestamp. */
    lemma DelaysSumToLastTimestamp()
      requires Valid()
      requires NonDecreasing(stamps) && (stamps != [] ==> stamps[0] >= 0)
      ensures Sum(Delays(buffer)) == lastTimestamp
    {
      DelaysTelescope(0, stamps);
    }
  }
}
