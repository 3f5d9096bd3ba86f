/** The global hotkey (HotkeyManager.cs): a WinForms `Keys` value is split
    into RegisterHotKey modifier bits and a virtual-key code, registered
    under one fixed id, and restored to the previous hotkey when a new
    registration fails.  The outcomes of RegisterHotKey are parameters. */
module Hotkeys {
  import opened Wrappers

  /** A WinForms `Keys` value: a key code in the low 16 bits, the Shift,
      Control and Alt modifiers at bits 16, 17 and 18. */
  type Keys = bv32

  const KeysNone: Keys := 0
  const KeysShift: Keys := 0x1_0000
  const KeysControl: Keys := 0x2_0000
  const KeysAlt: Keys := 0x4_0000
  const KeyCodeMask: Keys := 0xFFFF
  const KeysF8: Keys := 0x77
  const KeysLWin: Keys := 0x5B
  const KeysRWin: Keys := 0x5C

  /** RegisterHotKey's `fsModifiers` bits. */
  const ModAlt: bv32 := 0x1
  const ModControl: bv32 := 0x2
  const ModShift: bv32 := 0x4
  const ModWin: bv32 := 0x8

  const WM_HOTKEY := 0x0312
  const HotkeyId := 0x0001

  /** `Enum.HasFlag`: every bit of `flag` is set in `key`. */
  predicate HasFlag(key: Keys, flag: Keys) {
    key & flag == flag
  }

  /** The modifier bits for a key, accumulated one test at a time. */
  function GetModifiers(key: Keys): (m: bv32)
    ensures m & ModAlt != 0 <==> key & KeysAlt != 0
    ensures m & ModControl != 0 <==> key & KeysControl != 0
    ensures m & ModShift != 0 <==> key & KeysShift != 0
    ensures m & ModWin != 0 <==> HasFlag(key, KeysLWin) || HasFlag(key, KeysRWin)
    ensures m & !0xF == 0
  {
    var m: bv32 := 0;
    var m := if HasFlag(key, KeysAlt) then m | ModAlt else m;
    var m := if HasFlag(key, KeysControl) then m | ModControl else m;
    var m := if HasFlag(key, KeysShift) then m | ModShift else m;
    if HasFlag(key, KeysLWin) || HasFlag(key, KeysRWin) then m | ModWin else m
  }

  /** The virtual-key code of a key; a key without one registers as F8. */
  function GetKeyCode(key: Keys): (c: bv32)
    ensures c != 0 && c & !KeyCodeMask == 0
    ensures key & KeyCodeMask != 0 ==> c == key & KeyCodeMask
    ensures key & KeyCodeMask == 0 ==> c == KeysF8
  {
    var c := key & KeyCodeMask;
    if c == 0 then KeysF8 else c
  }

  /** The Win test is bitwise: a key code containing all the bits of LWin
      (0x5B) or RWin (0x5C) registers with MOD_WIN although no Windows key
      is involved.  F12 (0x7B), which registers as Win+F12 alone, F13 (0x7C)
      and the `[` key (0xDB) are such codes; F8 (0x77) is not. */
  lemma WinFlagIsBitwise()
    ensures GetModifiers(0x7C) & ModWin != 0
    ensures GetModifiers(0xDB) & ModWin != 0
    ensures GetModifiers(KeysLWin) & ModWin != 0
    ensures GetModifiers(KeysF8) == 0
    ensures GetModifiers(0x7B) == ModWin
  {
  }

  /** A key code that the Win test mistakes for a Windows key. */
  predicate LooksLikeWin(code: bv32) {
    HasFlag(code, KeysLWin) || HasFlag(code, KeysRWin)
  }

  /** The `Keys` value a registration stands for: the key code with the
      Shift, Control and Alt bits put back. */
  function KeysOf(modifiers: bv32, keyCode: bv32): Keys {
    var k := keyCode;
    var k := if modifiers & ModAlt != 0 then k | KeysAlt else k;
    var k := if modifiers & ModControl != 0 then k | KeysControl else k;
    if modifiers & ModShift != 0 then k | KeysShift else k
  }

  /** A key is its key code together with its three modifier bits. */
  lemma KeySplits(key: Keys)
    requires key & !(KeyCodeMask | KeysShift | KeysControl | KeysAlt) == 0
    ensures key == (key & KeyCodeMask) | (key & KeysAlt) | (key & KeysControl) | (key & KeysShift)
  {
  }

  /** Putting back the modifiers of `key` on its key code restores exactly
      its Shift, Control and Alt bits. */
  lemma KeysOfModifiers(key: Keys, code: bv32)
    ensures KeysOf(GetModifiers(key), code) ==
      code | (key & KeysAlt) | (key & KeysControl) | (key & KeysShift)
  {
    var m := GetModifiers(key);
    var alt: bv32 := if m & ModAlt != 0 then KeysAlt else 0;
    var control: bv32 := if m & ModControl != 0 then KeysControl else 0;
    var shift: bv32 := if m & ModShift != 0 then KeysShift else 0;
    assert alt == key & KeysAlt;
    assert control == key & KeysControl;
    assert shift == key & KeysShift;
  }

  /** For a key made of a key code plus any of Shift, Control and Alt, the
      registered modifiers and key code describe the key exactly, unless
      the key code is missing (F8 is substituted) or contains LWin's or
      RWin's bits (MOD_WIN is added). */
  lemma RegistrationDescribesKey(key: Keys)
    requires key & !(KeyCodeMask | KeysShift | KeysControl | KeysAlt) == 0
    requires key & KeyCodeMask != 0
    requires !LooksLikeWin(key & KeyCodeMask)
    ensures KeysOf(GetModifiers(key), GetKeyCode(key)) == key
    ensures GetModifiers(key) & ModWin == 0
  {
    var code := key & KeyCodeMask;
    assert HasFlag(key, KeysLWin) <==> HasFlag(code, KeysLWin);
    assert HasFlag(key, KeysRWin) <==> HasFlag(code, KeysRWin);
    KeysOfModifiers(key, code);
    KeySplits(key);
  }

  /** `ProcessMessage`: `HotkeyPressed` is raised for a WM_HOTKEY message
      carrying this manager's id and for nothing else. */
  function ProcessMessage(msg: int, wParam: int): (raised: bool)
    ensures raised ==> msg == 0x0312 && wParam == 1
    ensures msg == 0x0312 && wParam == 1 ==> raised
  {
    msg == WM_HOTKEY && wParam == HotkeyId
  }

  /** What RegisterHotKey was asked to register. */
  datatype Registration = Registration(modifiers: bv32, keyCode: bv32)

  function RegistrationOf(key: Keys): Registration {
    Registration(GetModifiers(key), GetKeyCode(key))
  }

  class HotkeyManager {
    var currentHotkey: Keys
    /** What is registered with the system under `HotkeyId`, if anything. */
    var registered: Option<Registration>
    /** Every RegisterHotKey call made, in order. */
    var attempts: seq<Registration>

    /** The state before the constructor's first registration. */
    constructor Init()
      ensures currentHotkey == KeysF8 && registered == None && attempts == []
    {
      currentHotkey := KeysF8;
      registered := None;
      attempts := [];
    }

    /** The public constructor: registers F8 and fails (throws) when the
        system refuses it. */
    static method Create(registerOk: bool) returns (m: HotkeyManager?)
      ensures m != null <==> registerOk
      ensures m != null ==>
        fresh(m) && m.currentHotkey == KeysF8 &&
        m.registered == Some(RegistrationOf(KeysF8)) && m.attempts == [RegistrationOf(KeysF8)]
    {
      var h := new HotkeyManager.Init();
      var ok := h.ApplyHotkey(KeysF8, registerOk, false);
      if !ok {
        return null;
      }
      return h;
    }

    /** `UnregisterHotKey`. */
    method Unregister()
      modifies this
      ensures registered == None
      ensures currentHotkey == old(currentHotkey) && attempts == old(attempts)
    {
      registered := None;
    }

    /** Replaces the registration by one for `key` (also `UpdateHotkey`).
        `registerOk` is the system's answer for `key`; on a refusal the
        previous hotkey is registered again, when there is one and it
        differs from `key`, and `reRegisterOk` is the answer for that. */
    method ApplyHotkey(key: Keys, registerOk: bool, reRegisterOk: bool) returns (ok: bool)
      modifies this
      ensures ok == registerOk
      ensures ok ==> currentHotkey == key && registered == Some(RegistrationOf(key))
      ensures ok ==> attempts == old(attempts) + [RegistrationOf(key)]
      ensures !ok ==> currentHotkey == old(currentHotkey)
      ensures !ok ==>
        var restore := old(currentHotkey) != KeysNone && old(currentHotkey) != key;
        attempts == old(attempts) + [RegistrationOf(key)] +
          (if restore then [RegistrationOf(old(currentHotkey))] else []) &&
        registered == (if restore && reRegisterOk then Some(RegistrationOf(old(currentHotkey))) else None)
    {
      var previous := currentHotkey;
      Unregister();
      var modifiers := GetModifiers(key);
      var keyCode := GetKeyCode(key);
      attempts := attempts + [Registration(modifiers, keyCode)];
      if !registerOk {
        if previous != KeysNone && previous != key {
          attempts := attempts + [RegistrationOf(previous)];
          if reRegisterOk {
            registered := Some(RegistrationOf(previous));
          }
        }
        return false;
      }
      registered := Some(Registration(modifiers, keyCode));
      currentHotkey := key;
      return true;
    }
  }
}
