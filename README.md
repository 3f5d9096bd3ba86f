# Macro recorder core, modelled in Dafny

This project models the core of a Windows keyboard-and-mouse macro
recorder. It covers:

- **capture**: low-level hooks decode OS notifications into events, and a
  recording service stamps each one with the time since the previous one;
- **storage of a timeline**: a macro is a name and a sequence of events;
- **replay**: a playback service schedules the events against a monotonic
  clock with a warm-up delay, optional looping and cooperative
  cancellation, and an injection engine turns each event into at most one
  synthetic OS input while it tracks held buttons and the last pointer
  position;
- **the global hotkey**: a `Keys` value is split into RegisterHotKey
  modifier bits and a key code, and the previous hotkey is restored when a
  registration fails;
- **the main window's controller**: the toggle table of the hotkey, mutual
  exclusion of recording and playback, the save dialog loop, the macro
  list's selection and the 200-entry log.

The project has one module per source file:

- `MacroModel` (`macro_event.dfy`): event kinds, buttons, events, macros.
- `InputSimulation` (`input_simulator.dfy`): the injection engine. It is a
  `Simulator` class with the engine's mutable fields and a `sent` trace of
  every `SendInput`. Each method is proved against the pure `PlayStep` and
  `PlayAll` over `SimState`.
- `Hooks` (`hook_manager.dfy`): the hook callbacks as pure decoders, and
  the hook handle lifecycle as a class.
- `Recording` (`recording_service.dfy`): the capture buffer, as a class
  whose invariant ties the buffered delays to the stopwatch readings.
- `Playback` (`playback_service.dfy`): the scheduler, as methods with
  loops over a cancellation source and a clock. Both are oracle classes
  whose values may change between calls. The emitted input trace is proved
  equal to a function of the macro and of how far each pass got.
- `Hotkeys` (`hotkey_manager.dfy`): the bit logic, and the manager whose
  registrations with the system are recorded.
- `Controller` (`main_form.dfy`): the window's decisions over the three
  services.
- `Wrappers` (`wrappers.dfy`): `Option`.

The outside world enters only as parameters:

- the screen size and `MapVirtualKey` are a `Platform` value;
- the handles returned by `SetWindowsHookEx` are arguments;
- the success of each RegisterHotKey call is an argument;
- stopwatch readings are arguments;
- the user's answers to the save dialog are a list of `DialogReply`;
- a concurrent `Stop` and the passing of time are what the
  `CancellationSource` and `Clock` oracles may report at each call.

## Model

| member | source | states |
|---|---|---|
| MacroModel.DerivedPredicatesPartition | MacroRecorderApp/Models/MacroEvent.cs:22-26 | `IsKeyboardEvent` is exactly KeyDown or KeyUp. `IsMouseMove` is exactly MouseMove. No event is both, and button and wheel events are neither. |
| InputSimulation.Clip | MacroRecorderApp/Infrastructure/InputSimulator.cs:252 | The clipped coordinate lies in `[0, max(0, size-1)]`. An in-range value is kept, and values past either end go to that end. |
| InputSimulation.RoundHalfEven | MacroRecorderApp/Infrastructure/InputSimulator.cs:253 | `Math.Round` of `n/d`: the floor or the floor plus one. It is exact for whole quotients, rounds to the nearer integer otherwise, and sends a tie (remainder exactly half of `d`) to the even neighbour. |
| InputSimulation.ScaledWithinRange | MacroRecorderApp/Infrastructure/InputSimulator.cs:252-253 | A clipped value scaled by 65535/d never exceeds 65535, and the last pixel maps to exactly 65535. |
| InputSimulation.NormalizeAxis | MacroRecorderApp/Infrastructure/InputSimulator.cs:250-254 | The normalized coordinate lies in `[0, 65535]`. Off-screen values pin to 0 or 65535. A screen of size 0 or 1 always gives 0. |
| InputSimulation.NormalizeAbsolute | MacroRecorderApp/Infrastructure/InputSimulator.cs:245-257 | Both axes are normalized against the platform's width and height and lie in `[0, 65535]`. |
| InputSimulation.NormalizeAxisMonotonic | MacroRecorderApp/Infrastructure/InputSimulator.cs:250-254 | Normalization preserves order: a pixel further right or down never maps to a smaller absolute coordinate. |
| InputSimulation.ShouldUseExtendedKey | MacroRecorderApp/Infrastructure/InputSimulator.cs:266-313 | A captured extended flag always wins. Key code 0 is never extended. Otherwise the key is extended exactly when its code is one of the listed navigation, right-hand modifier, browser, media and launch keys. |
| InputSimulation.ExtendedKeyCodesAreFamilies | MacroRecorderApp/Infrastructure/InputSimulator.cs:279-312 | The listed key codes are exactly the extended-key families: arrows and navigation block, NumLock, Divide, RControl, RMenu, browser/volume/media/launch range, PrintScreen, Apps. |
| InputSimulation.ResolveScanCode | MacroRecorderApp/Infrastructure/InputSimulator.cs:69-73 | A recorded scan code is used as is. Without one, the key code is mapped by `MapVirtualKey`. With neither, the scan code is 0. |
| InputSimulation.KeyboardFlags | MacroRecorderApp/Infrastructure/InputSimulator.cs:80-89 | The flags always contain SCANCODE. They contain EXTENDEDKEY exactly when the key is extended, KEYUP exactly for a release, and no other bit. |
| InputSimulation.KeyboardStep | MacroRecorderApp/Infrastructure/InputSimulator.cs:67-106 | A key event changes no tracked state. It emits nothing exactly when the resolved scan code is 0, and otherwise one scan-code input whose `wScan` is the 16-bit truncation of that code. |
| InputSimulation.WithPosition | MacroRecorderApp/Infrastructure/InputSimulator.cs:259-264 | Recording a position stores it and marks a position as known. The held buttons are untouched. |
| InputSimulation.MoveStep | MacroRecorderApp/Infrastructure/InputSimulator.cs:108-135 | Every move records its position. The first move, and any move with no button held, is an absolute warp. With a button held it is the relative delta from the last recorded position, or nothing if the delta is zero. |
| InputSimulation.ButtonFlag | MacroRecorderApp/Infrastructure/InputSimulator.cs:184-190 | Left, Right and Middle get their DOWN or UP flag. Every other button gets 0. |
| InputSimulation.ButtonStep | MacroRecorderApp/Infrastructure/InputSimulator.cs:181-225 | An unsupported button changes nothing and emits nothing. A supported one records its position, adds or removes the button from the held set, and emits one absolute input with the button flag. |
| InputSimulation.WheelInput | MacroRecorderApp/Infrastructure/InputSimulator.cs:227-243 | One WHEEL input with no movement (`dx` and `dy` are 0), whose `mouseData` is the unsigned 32-bit reinterpretation of the delta: negative deltas wrap by 2^32. |
| InputSimulation.PlayStep | MacroRecorderApp/Infrastructure/InputSimulator.cs:42-65 | One event emits at most one input. Key and wheel events leave the tracked state alone. |
| InputSimulation.PlayAll | MacroRecorderApp/Infrastructure/InputSimulator.cs:42-65 | Replaying a sequence emits at most one input per event. |
| InputSimulation.HeldIffLastWasPress | MacroRecorderApp/Infrastructure/InputSimulator.cs:199-206 | After any interleaving of events, a button is held exactly when its last supported press or release was a press. With neither, it is held exactly when it was held before. |
| InputSimulation.OnlySupportedButtonsHeld | MacroRecorderApp/Infrastructure/InputSimulator.cs:192-206 | Only Left, Right and Middle are ever tracked as held. |
| InputSimulation.DragDeltasTelescope | MacroRecorderApp/Infrastructure/InputSimulator.cs:117-134 | While a button stays held, a run of moves emits only relative moves. Their deltas add up to exactly the recorded displacement, so the drag does not drift. |
| InputSimulation.PlayAllSnoc | MacroRecorderApp/Infrastructure/InputSimulator.cs:42-65 | Replaying one more event continues from the state the prefix left and appends that event's output. |
| InputSimulation.FirstMoveAfterResetIsAbsolute | MacroRecorderApp/Infrastructure/InputSimulator.cs:34-40 | After a reset, a move is an absolute warp to its own position, whatever was held before the reset. |
| InputSimulation.Simulator.constructor | MacroRecorderApp/Infrastructure/InputSimulator.cs:29-32 | The engine starts with nothing held, no known position and nothing sent. |
| InputSimulation.Simulator.ResetState | MacroRecorderApp/Infrastructure/InputSimulator.cs:34-40 | Clears the held buttons and the recorded position and sends nothing. |
| InputSimulation.Simulator.Play | MacroRecorderApp/Infrastructure/InputSimulator.cs:42-65 | The new state and the inputs sent are exactly `PlayStep` of the old state and the event. |
| InputSimulation.Simulator.SendKeyboard | MacroRecorderApp/Infrastructure/InputSimulator.cs:67-106 | Sends exactly `KeyboardStep`'s output and changes nothing else. |
| InputSimulation.Simulator.MoveMouse | MacroRecorderApp/Infrastructure/InputSimulator.cs:108-135 | The new state and the inputs sent are exactly `MoveStep`'s. |
| InputSimulation.Simulator.MoveMouseAbsolute | MacroRecorderApp/Infrastructure/InputSimulator.cs:137-155 | Sends one absolute move to the normalized position. |
| InputSimulation.Simulator.MoveMouseRelative | MacroRecorderApp/Infrastructure/InputSimulator.cs:157-179 | Sends one relative move, or nothing for a zero delta. |
| InputSimulation.Simulator.SendMouseButton | MacroRecorderApp/Infrastructure/InputSimulator.cs:181-225 | The new state and the inputs sent are exactly `ButtonStep`'s. |
| InputSimulation.Simulator.ScrollWheel | MacroRecorderApp/Infrastructure/InputSimulator.cs:227-243 | Sends exactly the one wheel input for the delta. |
| InputSimulation.Simulator.UpdateRecordedMousePosition | MacroRecorderApp/Infrastructure/InputSimulator.cs:259-264 | Records the position and sends nothing. |
| Hooks.DetermineKeyboardEventType | MacroRecorderApp/Services/HookManager.cs:82-91 | KeyDown exactly for WM_KEYDOWN/WM_SYSKEYDOWN, KeyUp exactly for WM_KEYUP/WM_SYSKEYUP, and nothing for any other message. |
| Hooks.HasExtendedFlag | MacroRecorderApp/Services/HookManager.cs:70 | The extended flag is set exactly when the flags word is odd, which is its low two's-complement bit. |
| Hooks.KeyboardCallback | MacroRecorderApp/Services/HookManager.cs:57-80 | A notification is raised exactly for `nCode >= 0`, a present structure and a key message. It carries the virtual key, the scan code, the extended bit and zeroed mouse fields. |
| Hooks.WheelDelta | MacroRecorderApp/Services/HookManager.cs:133 | The wheel delta is the signed high word of `mouseData`, within `[-32768, 32767]`. |
| Hooks.WheelDeltaRoundTrip | MacroRecorderApp/Services/HookManager.cs:133 | Any 16-bit delta packed into the high word, whatever the low word holds, decodes back to itself. |
| Hooks.CreateMouseButtonEvent | MacroRecorderApp/Services/HookManager.cs:147-156 | The kind, the button and the pointer position are kept, and every other field keeps its default. |
| Hooks.CreateMouseEvent | MacroRecorderApp/Services/HookManager.cs:108-145 | Each of the eight mouse messages yields its kind and button at the pointer position. The wheel carries its decoded delta. Every other message yields nothing. |
| Hooks.MouseDecodingIsInvertible | MacroRecorderApp/Services/HookManager.cs:108-145 | The decoding loses nothing. A decoded event's kind and button name the message it came from, and that message decodes back to the same kind and button. |
| Hooks.MouseCallback | MacroRecorderApp/Services/HookManager.cs:93-106 | Nothing for a negative code or a missing structure. Otherwise it is the decoded mouse event. |
| Hooks.HookManager.constructor | MacroRecorderApp/Services/HookManager.cs:12-13 | The manager starts with no hook installed and nothing released. |
| Hooks.HookManager.Start | MacroRecorderApp/Services/HookManager.cs:19-40 | Running managers are untouched. Otherwise both returned handles are stored, and it reports success exactly when both are non-zero. A handle that did succeed is kept after a failure. |
| Hooks.HookManager.Stop | MacroRecorderApp/Services/HookManager.cs:42-55 | Both handles become 0. Each non-zero handle is released exactly once, keyboard first. |
| Recording.ClampDelay | MacroRecorderApp/Services/RecordingService.cs:63 | The delay is `max(0, delay)`: a non-negative delay is kept and a negative one becomes exactly 0. |
| Recording.CaptureEvent | MacroRecorderApp/Services/RecordingService.cs:60-71 | The buffered event carries the hook payload unchanged and the clamped delay. |
| Recording.CloneEvent | MacroRecorderApp/Services/RecordingService.cs:76-90 | The copy equals its source in every field, the scan code and the extended flag included. |
| Recording.CloneAll | MacroRecorderApp/Services/RecordingService.cs:46 | The copied buffer equals the buffer. |
| Recording.DelaysTelescope | MacroRecorderApp/Services/RecordingService.cs:56-58 | For a stopwatch that never runs backwards, the delays add up to the time from the first reference point to the last reading. |
| Recording.RecordingService.constructor | MacroRecorderApp/Services/RecordingService.cs:14-18 | A new service is not recording and has an empty buffer and a fresh hook manager. |
| Recording.RecordingService.Start | MacroRecorderApp/Services/RecordingService.cs:22-34 | A second start changes nothing. Otherwise the buffer and timestamp are cleared, and recording is on exactly when both hooks were installed. |
| Recording.RecordingService.Stop | MacroRecorderApp/Services/RecordingService.cs:36-47 | Recording and both hooks are off, and when it was recording the keyboard and then the mouse hook handles are the ones released. It returns the buffer, or nothing when not recording. |
| Recording.RecordingService.OnHookInput | MacroRecorderApp/Services/RecordingService.cs:49-74 | Outside a session it changes nothing. Inside one it appends exactly one event, with the clamped time since the last one, and advances the timestamp. |
| Recording.RecordingService.OnKeyboardHook | MacroRecorderApp/Services/HookManager.cs:57-80 | A keyboard notification adds one event when recording and decodable, and none otherwise. |
| Recording.RecordingService.OnMouseHook | MacroRecorderApp/Services/HookManager.cs:93-106 | A mouse notification adds one event when recording and decodable, and none otherwise. |
| Recording.RecordingService.BufferedDelaysNonNegative | MacroRecorderApp/Services/RecordingService.cs:63 | Every buffered delay is non-negative. |
| Recording.RecordingService.DelaysSumToLastTimestamp | MacroRecorderApp/Services/RecordingService.cs:56-58 | With a monotonic stopwatch started at 0, the buffered delays add up to the last timestamp. |
| Playback.WaitForTargetTime | MacroRecorderApp/Services/PlaybackService.cs:98-121 | The clock is never moved backwards. Cancellation is only reported when it was requested. Without cancellation, the target time has been reached or a stop was requested. What it does with the clock, returned as the ghost `trace` and appended to the clock's history, is a wait trace (`IsWaitTrace`): each reading that leaves more than 5 ms is followed by a sleep of `max(1, remaining - 5)`; a reading that leaves 1 to 5 ms is followed by a spin to the target and nothing else; a reading at or past the target ends the wait. What it does with the token, appended to the token's history, is polls only, and a poll that saw a request implies a stop was requested. |
| Playback.WaitRound | MacroRecorderApp/Services/PlaybackService.cs:104-118 | One pass of the wait loop's body. A reading at or past the target returns. A reading with more than 5 ms left sleeps `max(1, remaining - 5)` and returns only if that sleep is cancelled. Otherwise it spins to the target and returns. The calls it makes are exactly one such round, and a round that does not return moves the clock strictly forward while the target is still ahead. |
| Playback.WaitTraceShape | MacroRecorderApp/Services/PlaybackService.cs:110-118 | In every wait trace, each sleep follows a reading, lasts at least 1 ms and ends exactly 5 ms before the target as that reading saw it, so a sleep never overshoots the target. A spin happens at most once, as the last call, and spins to the target. |
| Playback.TargetTime | MacroRecorderApp/Services/PlaybackService.cs:51-61 | Event `i` is due at the sum of the delays of events `0..i`. |
| Playback.TargetsNonDecreasing | MacroRecorderApp/Services/PlaybackService.cs:51-61 | With non-negative delays, due times are non-decreasing along the timeline. |
| Playback.CompletePassesRepeat | MacroRecorderApp/Services/PlaybackService.cs:47-70 | A run of uninterrupted passes sends the full replay of the macro, repeated once per pass. |
| Playback.AwaitEvent | MacroRecorderApp/Services/PlaybackService.cs:55-66 | The event may be injected (`go`) only if no stop was requested and the clock has reached its due time. Not injecting implies a stop was requested. What it appends to the token's history is polls only; when `go`, the first poll (the check before the wait) and the last poll (the check after it) both saw no request. |
| Playback.PlayNext | MacroRecorderApp/Services/PlaybackService.cs:68 | Injecting the next event extends the replay of the played prefix by exactly that event, and appends to the token's history one `Injected` mark carrying the stopwatch reading at that moment. |
| Playback.PlayPass | MacroRecorderApp/Services/PlaybackService.cs:49-69 | One pass sends the replay of the prefix it got through, and stops early only when a stop was requested. Its part of the token's history, which only the token's poll and the injection step extend, has one injection per played event. Every injection directly follows a poll that saw no request, and none comes after a poll that saw one (`SafeHistory`, see `SafeHistoryMeans`). The injection times are in order and none is before its event's due time (`OnSchedule`, see `OnScheduleMeans`). |
| Playback.PassStep | MacroRecorderApp/Services/PlaybackService.cs:53-68 | The event is injected only when it is due and no stop has been requested, and it extends the prefix replay by exactly that event. The step's part of the token's history then ends with a poll that saw no request followed by the injection, at the due time or later. Otherwise a stop was requested, the simulator is untouched and the step only polled. |
| Playback.NextPass | MacroRecorderApp/Services/PlaybackService.cs:47-70 | One more pass extends the run's trace by that pass's replay. Its part of the token's history has the guarantees of `PlayPass`. |
| Playback.LoopPass | MacroRecorderApp/Services/PlaybackService.cs:47-70 | One round of the `do ... while (loop && !token.IsCancellationRequested)` loop: a pass, then the loop's check only when looping and the pass was not cut short by a cancelled sleep. It goes round again only when looping, no stop was requested and the pass was complete. The round's history extends the run's history and keeps it safe, with this pass on its own schedule. |
| Playback.PlayPasses | MacroRecorderApp/Services/PlaybackService.cs:47-70 | The trace is the passes' replays in order, and every pass but the last is complete. A second pass implies looping. The loop ends only when looping is off or a stop was requested. What the run appended to the token's history is a safe history (see `SafeHistoryMeans`): no event is injected after any poll saw a stop, and each event directly follows a poll that saw none. Each pass's injections are on that pass's schedule (`RunOnSchedule`). |
| Playback.SafeHistoryMeans | MacroRecorderApp/Services/PlaybackService.cs:55-68 | The mark-by-mark `SafeHistory` holds exactly when every injection directly follows a poll that saw no request and no injection follows a poll that saw one. |
| Playback.OnScheduleMeans | MacroRecorderApp/Services/PlaybackService.cs:51-61 | The reading-by-reading `OnSchedule` holds exactly when there is one reading per played event, none before that event's due time, in non-decreasing order. |
| Playback.RunOnScheduleCount | MacroRecorderApp/Services/PlaybackService.cs:47-70 | A run on schedule has exactly as many injections as its passes played events. |
| Playback.PlaybackService.constructor | MacroRecorderApp/Services/PlaybackService.cs:15-20 | A new service is not playing. |
| Playback.PlaybackService.Start | MacroRecorderApp/Services/PlaybackService.cs:24-38 | Playback starts exactly when none is active and the macro has events, with a fresh, uncancelled token. Otherwise nothing changes. |
| Playback.PlaybackService.Stop | MacroRecorderApp/Services/PlaybackService.cs:88-96 | If playback is active, a stop is requested on its token. |
| Playback.PlaybackService.StopInternal | MacroRecorderApp/Services/PlaybackService.cs:123-129 | Playback becomes inactive and the finish is signalled once. |
| Playback.PlaybackService.Run | MacroRecorderApp/Services/PlaybackService.cs:40-85 | The body never runs if the token was cancelled before it started. Otherwise it sends the replay of each pass, resets the engine, clears the playing state and signals the finish once. It finishes only when looping is off or a stop was requested, and an incomplete pass implies a stop. In what the run appended to its token's history, every injection directly follows a poll that saw no request, no injection follows a poll that saw one, and each pass's injections are on that pass's schedule. |
| Hotkeys.GetModifiers | MacroRecorderApp/Services/HotkeyManager.cs:80-105 | MOD_ALT, MOD_CONTROL and MOD_SHIFT are set exactly when the key has Alt, Control and Shift. MOD_WIN is set exactly when the key contains all bits of LWin or of RWin. No other bit is set. |
| Hotkeys.GetKeyCode | MacroRecorderApp/Services/HotkeyManager.cs:107-116 | The registered code is the key's low 16 bits, or F8 when those are 0, and is never 0. |
| Hotkeys.WinFlagIsBitwise | MacroRecorderApp/Services/HotkeyManager.cs:99-102 | F12 (0x7B) registers as Win+F12 (exactly MOD_WIN). F13 (0x7C) and the `[` key (0xDB) also register with MOD_WIN, like LWin. F8 registers with no modifier. |
| Hotkeys.RegistrationDescribesKey | MacroRecorderApp/Services/HotkeyManager.cs:80-116 | For a key code plus any of Shift/Control/Alt, the registration puts back exactly the key, unless the code is missing or looks like a Windows key. |
| Hotkeys.ProcessMessage | MacroRecorderApp/Services/HotkeyManager.cs:30-36 | The hotkey event is raised exactly for WM_HOTKEY with this manager's id. |
| Hotkeys.HotkeyManager.Init | MacroRecorderApp/Services/HotkeyManager.cs:10 | The current hotkey starts as F8, with nothing registered. |
| Hotkeys.HotkeyManager.Create | MacroRecorderApp/Services/HotkeyManager.cs:12-19 | Construction succeeds exactly when F8 can be registered, and then F8 is the one registration. |
| Hotkeys.HotkeyManager.Unregister | MacroRecorderApp/Services/HotkeyManager.cs:59-62 | Nothing is registered afterwards. |
| Hotkeys.HotkeyManager.ApplyHotkey | MacroRecorderApp/Services/HotkeyManager.cs:25-57 | On success the key becomes current and is the registration. On failure the current key is kept, and the previous key is re-registered exactly when it exists and differs from the new one; the registration then depends on that second answer. |
| Controller.LogAppend | MacroRecorderApp/Forms/MainForm.cs:437-452 | A message is appended. Beyond 200 entries the oldest is removed, so a log of at most 200 stays within 200. |
| Controller.LogKeepsNewest | MacroRecorderApp/Forms/MainForm.cs:445-449 | Logging any series of messages into an empty list keeps exactly the newest `min(n, 200)` of them, in order. |
| Controller.HotkeyResponseFor | MacroRecorderApp/Forms/MainForm.cs:313-346 | The toggle table, each action as an if-and-only-if. The press is ignored while a hotkey is being chosen. Otherwise it stops recording, else stops playback, else plays the selected macro, else starts recording. |
| Controller.ModifierOnlyIsRefused | MacroRecorderApp/Forms/MainForm.cs:293-299 | A bare modifier key is refused as a hotkey, and the same key with Control held is accepted. |
| Controller.SavedName | MacroRecorderApp/Forms/MainForm.cs:210-251 | The dialog's name is non-blank and was one of the answers. A cancel as first answer gives none. |
| Controller.SavedNameIsDecisiveAnswer | MacroRecorderApp/Forms/MainForm.cs:210-251 | When every answer before answer `k` is a blank name, and answer `k` is a cancel or a non-blank name, the dialog yields exactly that answer's name, or none for the cancel. So for `[Save("a"), Save("b")]` it yields "a". |
| Controller.SavedNameOfBlankAnswers | MacroRecorderApp/Forms/MainForm.cs:210-251 | Answers that are all blank names yield no name: running out of answers counts as closing the dialog. |
| Controller.StripCaptureFields | MacroRecorderApp/Forms/MainForm.cs:191-202 | The saved copy keeps kind, delay, key code, button, position and wheel delta. The scan code and extended flag revert to their defaults. |
| Controller.StripAll | MacroRecorderApp/Forms/MainForm.cs:191-202 | Each event of the capture is copied in order. |
| Controller.StripTwiceIsStripOnce | MacroRecorderApp/Forms/MainForm.cs:228-240 | The second copy made when the macro is built equals the first. |
| Controller.SavedKeyReplaysFromKeyCode | MacroRecorderApp/Forms/MainForm.cs:191-202 | A saved key event replays with the scan code mapped from its key code, and is extended only for the listed key codes, whatever was captured. |
| Controller.SavedNumpadEnterLosesExtendedFlag | MacroRecorderApp/Forms/MainForm.cs:191-202 | Numpad Enter is captured with the extended flag but replays as the main Enter key once saved. |
| Controller.Names | MacroRecorderApp/Forms/MainForm.cs:388-392 | The list shows each macro's name at its position. |
| Controller.IndexOf | MacroRecorderApp/Forms/MainForm.cs:396 | The first position of the name, or -1 exactly when it is not listed. |
| Controller.ReselectedIndex | MacroRecorderApp/Forms/MainForm.cs:394-407 | A still-listed, non-empty previous selection is selected again at its first occurrence. Otherwise the first item is selected, or none for an empty list. |
| Controller.MainForm.constructor | MacroRecorderApp/Forms/MainForm.cs:30-45 | The window starts with the stored macros, the first one selected if there is one, neither recording nor playing, and no hotkey manager yet. |
| Controller.MainForm.Log | MacroRecorderApp/Forms/MainForm.cs:437-452 | The log becomes `LogAppend` of the message. |
| Controller.MainForm.GetSelectedMacro | MacroRecorderApp/Forms/MainForm.cs:360-369 | A macro is returned exactly when the index is in range, and it is the macro at that index. |
| Controller.MainForm.RefreshMacroList | MacroRecorderApp/Forms/MainForm.cs:385-408 | The list shows the macros' names, and the selection follows `ReselectedIndex` of the previously selected item. |
| Controller.MainForm.OnHandleCreated | MacroRecorderApp/Forms/MainForm.cs:47-57 | A hotkey manager is created once, exactly when F8 can be registered, and the F8 binding is logged. If registration is refused, the manager's constructor throws: `thrown` holds exactly then, and nothing changes. |
| Controller.MainForm.StartRecording | MacroRecorderApp/Forms/MainForm.cs:159-178 | Refused while playing. Otherwise recording is on exactly when both hooks were installed. The window invariant, which includes mutual exclusion, is kept. |
| Controller.MainForm.StopRecording | MacroRecorderApp/Forms/MainForm.cs:180-252 | Recording stops. The macro list grows by exactly one macro, named by the dialog and holding the copied capture, if the capture is non-empty and the dialog yields a name, and by none otherwise. The hotkey manager, the hotkey-selection mode and the loop box's setting are untouched. |
| Controller.MainForm.SaveDialog | MacroRecorderApp/Forms/MainForm.cs:210-251 | Blank names re-ask. A cancel appends nothing. A non-blank name appends one macro and refreshes the selection. |
| Controller.MainForm.ToggleRecording | MacroRecorderApp/Forms/MainForm.cs:147-157 | The record button stops an active recording, and otherwise tries to start one. |
| Controller.MainForm.StartPlayback | MacroRecorderApp/Forms/MainForm.cs:348-358 | Refused while recording. Otherwise the macro is played exactly when nothing plays and it has events, with the loop box's setting. |
| Controller.MainForm.HandleHotkeyPress | MacroRecorderApp/Forms/MainForm.cs:313-346 | Each row of `HotkeyResponseFor` happens. An ignored press changes nothing, and each action leaves the other service untouched. Stopping a recording saves a macro exactly as `StopRecording` does. Starting playback starts a fresh run of the selected macro, with the loop box's setting, exactly when the macro has events. The window invariant, which includes mutual exclusion, is kept. |
| Controller.MainForm.BeginHotkeySelection | MacroRecorderApp/Forms/MainForm.cs:254-260 | The window waits for a hotkey and logs it. |
| Controller.MainForm.StopWaitingForHotkey | MacroRecorderApp/Forms/MainForm.cs:262-275 | The wait ends. The cancellation is logged only on a timeout while waiting. |
| Controller.MainForm.OnKeyDown | MacroRecorderApp/Forms/MainForm.cs:277-311 | Ignored unless waiting. The wait ends. Only a non-empty, not-only-modifier key is tried, and it becomes current exactly when the system accepts it. The logged line is the one for that case: no key, a modifier-only key, the new hotkey, or a failed update. |

## Left out

- Machine integers: event fields, coordinates and delays are unbounded. `int` overflow in the capture and replay arithmetic is not modelled. Only the explicit 16-bit and 32-bit reinterpretations (`wScan`, wheel `mouseData`, the hook's wheel word) are modelled.
- `Math.Round` on doubles is modelled as exact round-half-even of the rational `clipped * 65535 / max(1, size - 1)`; floating-point error is not modelled.
- Threads and real time: `Task.Run`, `Task.Delay`, `SpinWait.SpinUntil` and the stopwatch are the `CancellationSource` and `Clock` oracles, whose observations may change between calls. The `Clock` keeps a ghost history of its readings, sleeps and spins, which states how the wait loop uses it, but not how long the timers actually take. The token keeps a ghost history of its polls, to which the injection step adds each injection with the stopwatch reading. Races between the UI thread and the playback task are not modelled.
- Playback.PlayPass: the clock's history of each wait is stated by `WaitForTargetTime` but is not carried up into the pass; the pass states its timing by the stopwatch reading at each injection.
- Playback.PlaybackService.Run: a looping macro that is never stopped runs forever. The model bounds the number of passes by `extraPasses` and reports the run as still looping when the bound is reached.
- Playback.PlaybackService.Run: `Task.Run` with a token already cancelled never starts its body, so `StopInternal` never runs and `IsPlaying` stays true. The model states this outcome (`NeverStarted`) as the source behaves.
- Exceptions thrown by `SendInput` or `MapVirtualKey` during playback (the generic `catch`) are not modelled. The engine's calls are assumed to return.
- Logging: the `Logger` messages of the playback service (warm-up notice, "no events", errors) and the window's `PlaybackFinished` handler are not part of this model. The window's own log is modelled as a `LogLine` datatype instead of the UI's strings.
- `MacroStorage` (the JSON file), `SaveMacros` and `LoadMacros` are not part of this model. The window's constructor receives the stored macros instead.
- `SaveMacroForm` is not part of this model. Its answers are `DialogReply` values, with the name as the dialog returns it, already trimmed. The blank-name `MessageBox` is not modelled.
- Controller.MainForm.StopRecording: the answers are a finite list. Running out of answers is treated as closing the dialog without saving.
- `BuildUi`, `UpdateHotkeyLabel`, the record button's text, `TopIndex`, the 4-second hotkey `Timer` and `Cleanup`/`Dispose` are presentation or teardown and are not modelled. `WndProc` reaches `Hotkeys.ProcessMessage`, which is modelled.
- `CallNextHookEx` (passing notifications on) and the ignoring of synthetic input are not modelled. The source does not filter injected events while recording, and the model does not either.
- Hooks.HookManager.Start: when one hook installs and the other fails, the code does not release the handle that succeeded. It keeps that handle, and `IsRunning` stays false. The model does the same.
- MacroModel.MacroEvent: the declaration of `MacroEvent` lacks `ScanCode` and `IsExtendedKey`, although the capture and injection code read and write them. The model includes both fields.
