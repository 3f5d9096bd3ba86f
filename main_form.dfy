/** The mode controller (MainForm.cs): the decisions the main window takes
    for the global hotkey, the record button, the hotkey chooser and the
    saved-macro list, over a recording service, a playback service and an
    optional hotkey manager.  Dialog answers, key presses and the system's
    answers to hook and hotkey registration are parameters; the window's
    list boxes are modelled by their items and selection. */
module Controller {
  import opened Wrappers
  import opened MacroModel
  import opened InputSimulation
  import opened Recording
  import opened Playback
  import opened Hotkeys

  /** The log list keeps at most this many entries. */
  const MaxLogEntries := 200

  /** `Keys.Modifiers`: the bits above the key code. */
  const ModifiersMask: Keys := 0xFFFF_0000

  /** The messages the window appends to its log list. */
  datatype LogLine =
    | MacrosLoaded(count: nat)
    | NoMacrosFound
    | GlobalHotkey(key: Keys)
    | CannotRecordWhilePlaying
    | RecordingStarted
    | RecordingStartFailed
    | RecordingStopped
    | EmptyMacroNotSaved
    | SaveCancelled
    | MacroSaved(name: string, count: nat)
    | WaitingForHotkey
    | HotkeyChoiceCancelled
    | InvalidHotkey
    | ModifierOnlyHotkey
    | NewHotkey(key: Keys)
    | HotkeyUpdateFailed
    | HotkeyPressed
    | HotkeyStopsRecording
    | HotkeyStopsPlayback
    | HotkeyStartsRecording
    | StopRecordingFirst
    | PlaybackStarting(name: string)

  /** An answer of the save dialog: closed without saving, or "save"
      with the name typed in. */
  datatype DialogReply = Cancel | Save(name: string)

  // ---------------------------------------------------------------------
  // The log list

  /** The log after one more message: the message is added at the end and,
      beyond the cap, the oldest entry is removed. */
  function LogAppend(log: seq<LogLine>, m: LogLine): (r: seq<LogLine>)
    ensures |log| < MaxLogEntries ==> r == log + [m]
    ensures |log| >= MaxLogEntries ==> r == log[1..] + [m]
    ensures |log| <= MaxLogEntries ==> |r| <= MaxLogEntries
  {
    var l := log + [m];
    if |l| > MaxLogEntries then l[1..] else l
  }

  /** The log after a series of messages. */
  function LogAll(log: seq<LogLine>, ms: seq<LogLine>): seq<LogLine>
    decreases |ms|
  {
    if ms == [] then log else LogAppend(LogAll(log, ms[..|ms| - 1]), ms[|ms| - 1])
  }

  /** Logging into an empty list keeps exactly the newest `MaxLogEntries`
      messages, in order: the oldest are the ones removed. */
  lemma {:induction false} LogKeepsNewest(ms: seq<LogLine>)
    ensures |LogAll([], ms)| == Min(|ms|, MaxLogEntries)
    ensures LogAll([], ms) == ms[|ms| - Min(|ms|, MaxLogEntries)..]
    decreases |ms|
  {
    if ms != [] {
      var n := |ms|;
      var init := ms[..n - 1];
      var last := ms[n - 1];
      LogKeepsNewest(init);
      var l := LogAll([], init);
      assert LogAll([], ms) == LogAppend(l, last);
      if |init| < MaxLogEntries {
        assert l == ms[..n - 1];
        assert LogAppend(l, last) == l + [last];
        assert ms[..n - 1] + [last] == ms;
      } else {
        assert l == ms[n - 1 - MaxLogEntries..n - 1];
        assert LogAppend(l, last) == l[1..] + [last];
        assert l[1..] == ms[n - MaxLogEntries..n - 1];
        assert ms[n - MaxLogEntries..n - 1] + [last] == ms[n - MaxLogEntries..];
      }
    }
  }

  // ---------------------------------------------------------------------
  // Pure decisions

  /** What a press of the global hotkey does. */
  datatype HotkeyResponse = Ignored | StopsRecording | StopsPlayback | StartsRecording | StartsPlayback

  /** The toggle table: nothing while a new hotkey is being chosen;
      otherwise stop recording, else stop playback, else start recording
      when no macro is selected, else play the selected macro. */
  function HotkeyResponseFor(awaiting: bool, recording: bool, playing: bool, hasSelection: bool): (r: HotkeyResponse)
    ensures r == Ignored <==> awaiting
    ensures r == StopsRecording <==> !awaiting && recording
    ensures r == StopsPlayback <==> !awaiting && !recording && playing
    ensures r == StartsRecording <==> !awaiting && !recording && !playing && !hasSelection
    ensures r == StartsPlayback <==> !awaiting && !recording && !playing && hasSelection
  {
    if awaiting then Ignored
    else if recording then StopsRecording
    else if playing then StopsPlayback
    else if hasSelection then StartsPlayback
    else StartsRecording
  }

  /** The keys that are only a modifier: ControlKey, ShiftKey, Menu (Alt),
      LWin and RWin. */
  predicate IsModifierKey(key: Keys) {
    key in {0x11, 0x10, 0x12, KeysLWin, KeysRWin}
  }

  /** A key chosen as the new hotkey is tried only when it is not `None`
      and not a bare modifier key. */
  predicate AcceptableHotkey(key: Keys) {
    key != KeysNone && !(IsModifierKey(key & KeyCodeMask) && key & ModifiersMask == 0)
  }

  /** A bare modifier is refused and the same modifier key with a modifier
      held is tried. */
  lemma ModifierOnlyIsRefused(code: Keys)
    requires IsModifierKey(code)
    ensures !AcceptableHotkey(code)
    ensures AcceptableHotkey(code | KeysControl)
  {
    assert code & KeyCodeMask == code;
    assert (code | KeysControl) & ModifiersMask == KeysControl;
  }

  /** `char.IsWhiteSpace`: the space separators, the line and paragraph
      separators, and the control characters tab to carriage return, next
      line and no-break space. */
  predicate IsWhiteSpace(c: char) {
    c in {' ', '\t', '\n', '\U{000B}', '\U{000C}', '\r', '\U{0085}', '\U{00A0}', '\U{1680}',
          '\U{2000}', '\U{2001}', '\U{2002}', '\U{2003}', '\U{2004}', '\U{2005}', '\U{2006}',
          '\U{2007}', '\U{2008}', '\U{2009}', '\U{200A}', '\U{2028}', '\U{2029}', '\U{202F}',
          '\U{205F}', '\U{3000}'}
  }

  /** `string.IsNullOrWhiteSpace`. */
  predicate IsBlank(s: string) {
    forall i :: 0 <= i < |s| ==> IsWhiteSpace(s[i])
  }

  /** The name the save dialog finally yields: blank names are asked for
      again, a cancel (or running out of answers) gives none. */
  function SavedName(replies: seq<DialogReply>): (r: Option<string>)
    ensures r.Some? ==> !IsBlank(r.value) && Save(r.value) in replies
    ensures replies != [] && replies[0].Cancel? ==> r == None
    decreases |replies|
  {
    if replies == [] then None
    else match replies[0]
      case Cancel => None
      case Save(name) => if IsBlank(name) then SavedName(replies[1..]) else Some(name)
  }

  /** Answer `k` settles the save dialog: it is a cancel or a non-blank
      name, and every answer before it is a blank name. */
  predicate Decisive(replies: seq<DialogReply>, k: nat) {
    k < |replies| && (replies[k].Cancel? || !IsBlank(replies[k].name))
    && forall j :: 0 <= j < k ==> replies[j].Save? && IsBlank(replies[j].name)
  }

  /** The dialog yields the name of the answer that settles it, and no
      name when that answer is a cancel. */
  lemma {:induction false} SavedNameIsDecisiveAnswer(replies: seq<DialogReply>, k: nat)
    requires Decisive(replies, k)
    ensures SavedName(replies) == if replies[k].Cancel? then None else Some(replies[k].name)
    decreases k
  {
    if k > 0 {
      var rest := replies[1..];
      assert forall j :: 0 <= j < k - 1 ==> rest[j] == replies[j + 1];
      assert replies[0].Save? && IsBlank(replies[0].name);
      SavedNameIsDecisiveAnswer(rest, k - 1);
    }
  }

  /** Answers that are all blank names (the dialog runs out of answers)
      yield no name. */
  lemma {:induction false} SavedNameOfBlankAnswers(replies: seq<DialogReply>)
    requires forall j :: 0 <= j < |replies| ==> replies[j].Save? && IsBlank(replies[j].name)
    ensures SavedName(replies) == None
    decreases |replies|
  {
    if replies != [] {
      var rest := replies[1..];
      assert forall j :: 0 <= j < |rest| ==> rest[j] == replies[j + 1];
      SavedNameOfBlankAnswers(rest);
    }
  }

  /** The copy the window saves: every field but the scan code and the
      extended-key flag, which fall back to their defaults. */
  function StripCaptureFields(e: MacroEvent): (r: MacroEvent)
    ensures r.scanCode == 0 && !r.isExtendedKey
    ensures r.eventType == e.eventType && r.delay == e.delay && r.keyCode == e.keyCode
    ensures r.mouseButton == e.mouseButton && r.mouseX == e.mouseX && r.mouseY == e.mouseY
    ensures r.mouseDelta == e.mouseDelta
  {
    MacroEvent(e.eventType, e.delay, e.keyCode, 0, false, e.mouseButton, e.mouseX, e.mouseY, e.mouseDelta)
  }

  function StripAll(es: seq<MacroEvent>): (r: seq<MacroEvent>)
    ensures |r| == |es| && forall i :: 0 <= i < |es| ==> r[i] == StripCaptureFields(es[i])
  {
    seq(|es|, i requires 0 <= i < |es| => StripCaptureFields(es[i]))
  }

  /** Copying twice, as the save does, is copying once. */
  lemma StripTwiceIsStripOnce(es: seq<MacroEvent>)
    ensures StripAll(StripAll(es)) == StripAll(es)
  {
  }

  /** A saved key event replays with the scan code the platform maps its
      key code to and is extended only for the listed key codes, whatever
      was captured. */
  lemma SavedKeyReplaysFromKeyCode(e: MacroEvent, p: Platform)
    ensures ResolveScanCode(StripCaptureFields(e), p) == (if e.keyCode != 0 then p.mapVirtualKey(e.keyCode) else 0)
    ensures ShouldUseExtendedKey(StripCaptureFields(e)) <==> e.keyCode != 0 && e.keyCode in ExtendedKeyCodes
  {
  }

  /** The numpad Enter key is captured as Return (0x0D) with the extended
      flag; once saved it replays as the main Enter key. */
  lemma SavedNumpadEnterLosesExtendedFlag()
    ensures var captured := MacroEvent(KeyDown, 0, 0x0D, 0x1C, true, NoButton, 0, 0, 0);
      ShouldUseExtendedKey(captured) && !ShouldUseExtendedKey(StripCaptureFields(captured))
  {
  }

  /** The names shown in the macro list. */
  function Names(ms: seq<Macro>): (r: seq<string>)
    ensures |r| == |ms| && forall i :: 0 <= i < |ms| ==> r[i] == ms[i].name
  {
    seq(|ms|, i requires 0 <= i < |ms| => ms[i].name)
  }

  /** `Items.IndexOf`: the first position of `x`, or -1. */
  function IndexOf(xs: seq<string>, x: string): (r: int)
    ensures -1 <= r < |xs|
    ensures r == -1 <==> x !in xs
    ensures r >= 0 ==> xs[r] == x && x !in xs[..r]
    decreases |xs|
  {
    if xs == [] then -1
    else if xs[0] == x then 0
    else
      var r := IndexOf(xs[1..], x);
      assert xs[1..][..if r < 0 then 0 else r] == xs[1..1 + (if r < 0 then 0 else r)];
      if r < 0 then -1 else r + 1
  }

  /** `SelectedItem as string` for a list and a selected index. */
  function SelectedItem(items: seq<string>, index: int): Option<string> {
    if 0 <= index < |items| then Some(items[index]) else None
  }

  /** The selection after the list is rebuilt as `items`: the previously
      selected name if it is still listed, else the first item, else none. */
  function ReselectedIndex(items: seq<string>, previous: Option<string>): (r: int)
    ensures -1 <= r < |items|
    ensures previous.Some? && previous.value != "" && previous.value in items ==>
      0 <= r && items[r] == previous.value && previous.value !in items[..r]
    ensures !(previous.Some? && previous.value != "" && previous.value in items) ==>
      r == (if items == [] then -1 else 0)
  {
    var found := if previous.Some? && previous.value != "" then IndexOf(items, previous.value) else -1;
    if found >= 0 then found
    else if |items| > 0 then 0
    else -1
  }

  class MainForm {
    const recorder: RecordingService
    const player: PlaybackService
    var hotkeys: HotkeyManager?
    var macros: seq<Macro>
    /** The macro list box: its items and its selected index (-1 for none). */
    var listItems: seq<string>
    var selectedIndex: int
    var loopChecked: bool
    var isAwaitingHotkey: bool
    /** The log list box. */
    var log: seq<LogLine>

    /** The list shows the macros' names with an in-range selection, the
        log is capped, and recording and playback are never both active. */
    ghost predicate Valid()
      reads this, recorder, recorder.hookManager, player
    {
      && recorder.Valid()
      && |log| <= MaxLogEntries
      && listItems == Names(macros)
      && -1 <= selectedIndex < |listItems|
      && !(recorder.isRecording && player.IsPlaying())
    }

    /** The window with the macros loaded from storage. */
    constructor (stored: seq<Macro>)
      ensures Valid() && fresh(recorder) && fresh(player)
      ensures macros == stored && hotkeys == null && !isAwaitingHotkey
      ensures selectedIndex == (if stored == [] then -1 else 0)
      ensures !recorder.isRecording && !player.IsPlaying()
    {
      recorder := new RecordingService();
      player := new PlaybackService();
      hotkeys := null;
      macros := stored;
      listItems := Names(stored);
      selectedIndex := if stored == [] then -1 else 0;
      loopChecked := false;
      isAwaitingHotkey := false;
      log := [if stored == [] then NoMacrosFound else MacrosLoaded(|stored|)];
    }

    /** `Log`. */
    method Log(m: LogLine)
      modifies this`log
      ensures log == LogAppend(old(log), m)
    {
      log := log + [m];
      if |log| > MaxLogEntries {
        log := log[1..];
      }
    }

    /** The selected macro, present exactly when the index is in range. */
    function GetSelectedMacro(): (r: Option<Macro>)
      reads this
      ensures r.Some? <==> 0 <= selectedIndex < |macros|
      ensures r.Some? ==> r.value == macros[selectedIndex]
    {
      if selectedIndex < 0 || selectedIndex >= |macros| then None else Some(macros[selectedIndex])
    }

    /** Rebuilds the list from the macros and restores the selection. */
    method RefreshMacroList()
      modifies this`listItems, this`selectedIndex
      ensures listItems == Names(macros)
      ensures selectedIndex == ReselectedIndex(listItems, SelectedItem(old(listItems), old(selectedIndex)))
    {
      var previous := SelectedItem(listItems, selectedIndex);
      listItems, selectedIndex := [], -1;
      var i := 0;
      while i < |macros|
        invariant 0 <= i <= |macros|
        invariant listItems == Names(macros[..i]) && selectedIndex == -1
      {
        assert Names(macros[..i + 1]) == Names(macros[..i]) + [macros[i].name];
        listItems := listItems + [macros[i].name];
        i := i + 1;
      }
      assert macros[..i] == macros;
      if previous.Some? && previous.value != "" {
        var index := IndexOf(listItems, previous.value);
        if index >= 0 {
          selectedIndex := index;
          return;
        }
      }
      if |listItems| > 0 {
        selectedIndex := 0;
      }
    }

    /** Creates the hotkey manager once the window exists.  A refused F8
        registration makes the manager's constructor throw: `thrown` is that
        exception leaving the handler, with the window still without a
        manager and nothing logged. */
    method OnHandleCreated(registerOk: bool) returns (thrown: bool)
      requires Valid()
      modifies this`hotkeys, this`log
      ensures Valid()
      ensures thrown <==> old(hotkeys) == null && !registerOk
      ensures old(hotkeys) != null || thrown ==> hotkeys == old(hotkeys) && log == old(log)
      ensures old(hotkeys) == null ==> (hotkeys != null <==> registerOk)
      ensures old(hotkeys) == null && hotkeys != null ==>
        fresh(hotkeys) && hotkeys.currentHotkey == KeysF8 && log == LogAppend(old(log), GlobalHotkey(KeysF8))
    {
      thrown := false;
      if hotkeys == null {
        var h := HotkeyManager.Create(registerOk);
        if h == null {
          return true;
        }
        hotkeys := h;
        Log(GlobalHotkey(h.currentHotkey));
      }
    }

    /** Starts recording unless playback is active.  The recording starts
        when both hooks are installed. */
    method StartRecording(keyboardHandle: int, mouseHandle: int)
      requires Valid()
      modifies this`log, recorder, recorder.hookManager
      ensures Valid()
      ensures old(player.IsPlaying()) ==>
        unchanged(recorder, recorder.hookManager) && log == LogAppend(old(log), CannotRecordWhilePlaying)
      ensures !old(player.IsPlaying()) ==>
        (recorder.isRecording <==> old(recorder.isRecording) || (keyboardHandle != 0 && mouseHandle != 0))
      ensures !old(player.IsPlaying()) && !old(recorder.isRecording) ==> recorder.buffer == []
    {
      if player.IsPlaying() {
        Log(CannotRecordWhilePlaying);
        return;
      }
      var started := recorder.Start(keyboardHandle, mouseHandle);
      if started {
        Log(RecordingStarted);
      } else {
        Log(RecordingStartFailed);
      }
    }

    /** Stops recording and offers to save the capture: an empty capture is
        not saved; otherwise the dialog is shown until it is cancelled or
        yields a non-blank name, and then exactly one macro with that name
        and the copied events is appended. */
    method StopRecording(replies: seq<DialogReply>)
      requires Valid()
      modifies this, recorder, recorder.hookManager
      ensures Valid()
      ensures !recorder.isRecording
      ensures hotkeys == old(hotkeys) && isAwaitingHotkey == old(isAwaitingHotkey)
      ensures loopChecked == old(loopChecked)
      ensures !old(recorder.isRecording) ==>
        macros == old(macros) && selectedIndex == old(selectedIndex) && log == old(log)
      ensures old(recorder.isRecording) ==>
        var copy := StripAll(old(recorder.buffer));
        var name := SavedName(replies);
        macros == old(macros) + (if copy != [] && name.Some? then [Macro(name.value, copy)] else [])
      ensures old(recorder.isRecording) && macros != old(macros) ==>
        selectedIndex == ReselectedIndex(listItems, SelectedItem(old(listItems), old(selectedIndex)))
    {
      if !recorder.isRecording {
        return;
      }
      var events := recorder.Stop();
      Log(RecordingStopped);
      var recordedEvents := StripAll(events);
      if |recordedEvents| == 0 {
        Log(EmptyMacroNotSaved);
        return;
      }
      SaveDialog(events, recordedEvents, replies);
    }

    /** The save dialog loop: shown again after a blank name, until it is
        cancelled or a macro named by the answer is appended. */
    method SaveDialog(events: seq<MacroEvent>, recordedEvents: seq<MacroEvent>, replies: seq<DialogReply>)
      requires recordedEvents == StripAll(events)
      requires listItems == Names(macros) && -1 <= selectedIndex < |listItems| && |log| <= MaxLogEntries
      modifies this`macros, this`listItems, this`selectedIndex, this`log
      ensures listItems == Names(macros) && -1 <= selectedIndex < |listItems| && |log| <= MaxLogEntries
      ensures macros == old(macros) + (if SavedName(replies).Some? then [Macro(SavedName(replies).value, recordedEvents)] else [])
      ensures SavedName(replies).Some? ==>
        selectedIndex == ReselectedIndex(listItems, SelectedItem(old(listItems), old(selectedIndex)))
      ensures SavedName(replies) == None ==> selectedIndex == old(selectedIndex)
    {
      var saved := false;
      var i := 0;
      while !saved
        invariant 0 <= i <= |replies|
        invariant !saved ==> SavedName(replies) == SavedName(replies[i..])
        invariant !saved ==> macros == old(macros) && selectedIndex == old(selectedIndex) && listItems == old(listItems)
        invariant saved ==> SavedName(replies).Some?
        invariant saved ==> macros == old(macros) + [Macro(SavedName(replies).value, recordedEvents)]
        invariant saved ==>
          selectedIndex == ReselectedIndex(listItems, SelectedItem(old(listItems), old(selectedIndex)))
        invariant listItems == Names(macros) && -1 <= selectedIndex < |listItems|
        invariant |log| <= MaxLogEntries
        decreases |replies| - i, !saved
      {
        if i == |replies| || replies[i].Cancel? {
          Log(SaveCancelled);
          break;
        }
        var lastName := replies[i].name;
        assert replies[i..][1..] == replies[i + 1..];
        i := i + 1;
        if IsBlank(lastName) {
          continue;
        }
        var macro := Macro(lastName, StripAll(recordedEvents));
        StripTwiceIsStripOnce(events);
        macros := macros + [macro];
        RefreshMacroList();
        Log(MacroSaved(macro.name, |macro.events|));
        saved := true;
      }
    }

    /** The record button. */
    method ToggleRecording(keyboardHandle: int, mouseHandle: int, replies: seq<DialogReply>)
      requires Valid()
      modifies this, recorder, recorder.hookManager
      ensures Valid()
      ensures old(recorder.isRecording) ==> !recorder.isRecording
      ensures !old(recorder.isRecording) && !player.IsPlaying() ==>
        (recorder.isRecording <==> keyboardHandle != 0 && mouseHandle != 0)
      ensures !old(recorder.isRecording) && player.IsPlaying() ==> !recorder.isRecording
    {
      if recorder.isRecording {
        StopRecording(replies);
      } else {
        StartRecording(keyboardHandle, mouseHandle);
      }
    }

    /** Plays `macro` unless recording is active. */
    method StartPlayback(macro: Macro)
      requires Valid()
      modifies this`log, player
      ensures Valid()
      ensures old(recorder.isRecording) ==> unchanged(player) && log == LogAppend(old(log), StopRecordingFirst)
      ensures !old(recorder.isRecording) ==>
        (player.IsPlaying() <==> old(player.IsPlaying()) || |macro.events| > 0) &&
        player.finishedCount == old(player.finishedCount)
      ensures !old(recorder.isRecording) && !old(player.IsPlaying()) && |macro.events| > 0 ==>
        fresh(player.cts) && player.runMacro == macro && player.runLoop == loopChecked
    {
      if recorder.isRecording {
        Log(StopRecordingFirst);
        return;
      }
      Log(PlaybackStarting(macro.name));
      var _ := player.Start(macro, loopChecked);
    }

    /** The global hotkey, following `HotkeyResponseFor`. */
    method HandleHotkeyPress(keyboardHandle: int, mouseHandle: int, replies: seq<DialogReply>)
      requires Valid()
      modifies this, recorder, recorder.hookManager, player, player.cts
      ensures Valid()
      ensures var response := HotkeyResponseFor(old(isAwaitingHotkey), old(recorder.isRecording),
                                                old(player.IsPlaying()), old(GetSelectedMacro()).Some?);
        && (response == Ignored ==> unchanged(this, recorder, recorder.hookManager, player))
        && (response == StopsRecording ==>
              !recorder.isRecording && unchanged(player) &&
              var copy := StripAll(old(recorder.buffer));
              var name := SavedName(replies);
              macros == old(macros) + (if copy != [] && name.Some? then [Macro(name.value, copy)] else []))
        && (response == StopsPlayback ==>
              unchanged(recorder, recorder.hookManager) && player.cts == old(player.cts) && player.cts.requested)
        && (response == StartsRecording ==>
              unchanged(player) && (recorder.isRecording <==> keyboardHandle != 0 && mouseHandle != 0))
        && (response == StartsPlayback ==>
              unchanged(recorder, recorder.hookManager) &&
              (player.IsPlaying() <==> |old(GetSelectedMacro()).value.events| > 0) &&
              (player.IsPlaying() ==>
                 fresh(player.cts) && player.runMacro == old(GetSelectedMacro()).value &&
                 player.runLoop == old(loopChecked)))
    {
      if isAwaitingHotkey {
        return;
      }
      Log(HotkeyPressed);
      if recorder.isRecording {
        Log(HotkeyStopsRecording);
        StopRecording(replies);
        return;
      }
      if player.IsPlaying() {
        Log(HotkeyStopsPlayback);
        player.Stop();
        return;
      }
      var selectedMacro := GetSelectedMacro();
      if selectedMacro == None {
        Log(HotkeyStartsRecording);
        StartRecording(keyboardHandle, mouseHandle);
      } else {
        StartPlayback(selectedMacro.value);
      }
    }

    /** The hotkey chooser button: waits for the next key press. */
    method BeginHotkeySelection()
      modifies this`isAwaitingHotkey, this`log
      ensures isAwaitingHotkey && log == LogAppend(old(log), WaitingForHotkey)
    {
      isAwaitingHotkey := true;
      Log(WaitingForHotkey);
    }

    /** Ends the wait for a new hotkey; also the chooser's timeout. */
    method StopWaitingForHotkey(timedOut: bool)
      modifies this`isAwaitingHotkey, this`log
      ensures !isAwaitingHotkey
      ensures log == if old(isAwaitingHotkey) && timedOut then LogAppend(old(log), HotkeyChoiceCancelled) else old(log)
    {
      if !isAwaitingHotkey {
        return;
      }
      isAwaitingHotkey := false;
      if timedOut {
        Log(HotkeyChoiceCancelled);
      }
    }

    /** A key press in the window while a new hotkey is awaited: the wait
        ends, and an acceptable key is registered as the new hotkey; the
        system's answers are `registerOk` and `reRegisterOk`. */
    method OnKeyDown(keyData: Keys, registerOk: bool, reRegisterOk: bool)
      requires Valid()
      modifies this`isAwaitingHotkey, this`log, hotkeys
      ensures Valid()
      ensures !old(isAwaitingHotkey) ==> log == old(log)
      ensures !isAwaitingHotkey
      ensures !(old(isAwaitingHotkey) && AcceptableHotkey(keyData)) && hotkeys != null ==> unchanged(hotkeys)
      ensures old(isAwaitingHotkey) && AcceptableHotkey(keyData) && hotkeys != null ==>
        hotkeys.currentHotkey == (if registerOk then keyData else old(hotkeys.currentHotkey))
      ensures old(isAwaitingHotkey) ==> log == LogAppend(old(log),
        if keyData == KeysNone then InvalidHotkey
        else if !AcceptableHotkey(keyData) then ModifierOnlyHotkey
        else if hotkeys != null && registerOk then NewHotkey(keyData)
        else HotkeyUpdateFailed)
    {
      if !isAwaitingHotkey {
        return;
      }
      StopWaitingForHotkey(false);
      if keyData == KeysNone {
        Log(InvalidHotkey);
        return;
      }
      if !AcceptableHotkey(keyData) {
        Log(ModifierOnlyHotkey);
        return;
      }
      var ok := false;
      if hotkeys != null {
        ok := hotkeys.ApplyHotkey(keyData, registerOk, reRegisterOk);
      }
      if ok {
        Log(NewHotkey(keyData));
      } else {
        Log(HotkeyUpdateFailed);
      }
    }
  }
}
