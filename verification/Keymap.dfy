/** internal/input/keymap.go: browser key codes and mouse buttons to Linux event codes. */
module Keymap {
  import opened Basics

  const BTN_LEFT: uint16 := 0x110
  const BTN_RIGHT: uint16 := 0x111
  const BTN_MIDDLE: uint16 := 0x112

  const LETTERS: map<string, uint16> := map[
    "KeyA" := 30, "KeyB" := 48, "KeyC" := 46, "KeyD" := 32, "KeyE" := 18,
    "KeyF" := 33, "KeyG" := 34, "KeyH" := 35, "KeyI" := 23, "KeyJ" := 36,
    "KeyK" := 37, "KeyL" := 38, "KeyM" := 50, "KeyN" := 49, "KeyO" := 24,
    "KeyP" := 25, "KeyQ" := 16, "KeyR" := 19, "KeyS" := 31, "KeyT" := 20,
    "KeyU" := 22, "KeyV" := 47, "KeyW" := 17, "KeyX" := 45, "KeyY" := 21,
    "KeyZ" := 44]

  const DIGITS: map<string, uint16> := map[
    "Digit0" := 11, "Digit1" := 2, "Digit2" := 3, "Digit3" := 4, "Digit4" := 5,
    "Digit5" := 6, "Digit6" := 7, "Digit7" := 8, "Digit8" := 9, "Digit9" := 10]

  const FUNCTIONS: map<string, uint16> := map[
    "F1" := 59, "F2" := 60, "F3" := 61, "F4" := 62, "F5" := 63, "F6" := 64,
    "F7" := 65, "F8" := 66, "F9" := 67, "F10" := 68, "F11" := 87, "F12" := 88]

  const MODIFIERS: map<string, uint16> := map[
    "ShiftLeft" := 42, "ShiftRight" := 54,
    "ControlLeft" := 29, "ControlRight" := 97,
    "AltLeft" := 56, "AltRight" := 100,
    "MetaLeft" := 125, "MetaRight" := 126]

  const NAVIGATION: map<string, uint16> := map[
    "ArrowUp" := 103, "ArrowDown" := 108, "ArrowLeft" := 105, "ArrowRight" := 106,
    "Home" := 102, "End" := 107, "PageUp" := 104, "PageDown" := 109]

  const EDITING: map<string, uint16> := map[
    "Backspace" := 14, "Tab" := 15, "Enter" := 28, "Escape" := 1,
    "Delete" := 111, "Insert" := 110, "Space" := 57]

  const PUNCTUATION: map<string, uint16> := map[
    "Semicolon" := 39, "Equal" := 13, "Comma" := 51, "Minus" := 12,
    "Period" := 52, "Slash" := 53, "Backquote" := 41,
    "BracketLeft" := 26, "BracketRight" := 27, "Backslash" := 43, "Quote" := 40]

  const LOCKS: map<string, uint16> := map[
    "CapsLock" := 58, "NumLock" := 69, "ScrollLock" := 70,
    "PrintScreen" := 99, "Pause" := 119,
    "ContextMenu" := 127]

  const TYPING: map<string, uint16> := LETTERS + DIGITS + PUNCTUATION + EDITING
  const CONTROL: map<string, uint16> := FUNCTIONS + MODIFIERS + NAVIGATION + LOCKS
  const BROWSER_TO_LINUX: map<string, uint16> := TYPING + CONTROL

  function BrowserCodeToLinux(code: string): Option<uint16> {
    if code in BROWSER_TO_LINUX then Some(BROWSER_TO_LINUX[code]) else None
  }

  function MouseButtonToLinux(button: int): (r: uint16)
    ensures BTN_LEFT <= r <= BTN_MIDDLE
  {
    match button
    case 0 => BTN_LEFT
    case 1 => BTN_MIDDLE
    case 2 => BTN_RIGHT
    case _ => BTN_LEFT
  }

  /** The browser code a Linux key code stands for. */
  function LinuxToBrowser(v: int): string {
    if v == 1 then "Escape"
    else if v == 2 then "Digit1" else if v == 3 then "Digit2" else if v == 4 then "Digit3"
    else if v == 5 then "Digit4" else if v == 6 then "Digit5" else if v == 7 then "Digit6"
    else if v == 8 then "Digit7" else if v == 9 then "Digit8" else if v == 10 then "Digit9"
    else if v == 11 then "Digit0" else if v == 12 then "Minus" else if v == 13 then "Equal"
    else if v == 14 then "Backspace" else if v == 15 then "Tab" else if v == 16 then "KeyQ"
    else if v == 17 then "KeyW" else if v == 18 then "KeyE" else if v == 19 then "KeyR"
    else if v == 20 then "KeyT" else if v == 21 then "KeyY" else if v == 22 then "KeyU"
    else if v == 23 then "KeyI" else if v == 24 then "KeyO" else if v == 25 then "KeyP"
    else if v == 26 then "BracketLeft" else if v == 27 then "BracketRight" else if v == 28 then "Enter"
    else if v == 29 then "ControlLeft" else if v == 30 then "KeyA" else if v == 31 then "KeyS"
    else if v == 32 then "KeyD" else if v == 33 then "KeyF" else if v == 34 then "KeyG"
    else if v == 35 then "KeyH" else if v == 36 then "KeyJ" else if v == 37 then "KeyK"
    else if v == 38 then "KeyL" else if v == 39 then "Semicolon" else if v == 40 then "Quote"
    else if v == 41 then "Backquote" else if v == 42 then "ShiftLeft" else if v == 43 then "Backslash"
    else if v == 44 then "KeyZ" else if v == 45 then "KeyX" else if v == 46 then "KeyC"
    else if v == 47 then "KeyV" else if v == 48 then "KeyB" else if v == 49 then "KeyN"
    else if v == 50 then "KeyM" else if v == 51 then "Comma" else if v == 52 then "Period"
    else if v == 53 then "Slash" else if v == 54 then "ShiftRight" else if v == 56 then "AltLeft"
    else if v == 57 then "Space" else if v == 58 then "CapsLock" else if v == 59 then "F1"
    else if v == 60 then "F2" else if v == 61 then "F3" else if v == 62 then "F4"
    else if v == 63 then "F5" else if v == 64 then "F6" else if v == 65 then "F7"
    else if v == 66 then "F8" else if v == 67 then "F9" else if v == 68 then "F10"
    else if v == 69 then "NumLock" else if v == 70 then "ScrollLock" else if v == 87 then "F11"
    else if v == 88 then "F12" else if v == 97 then "ControlRight" else if v == 99 then "PrintScreen"
    else if v == 100 then "AltRight" else if v == 102 then "Home" else if v == 103 then "ArrowUp"
    else if v == 104 then "PageUp" else if v == 105 then "ArrowLeft" else if v == 106 then "ArrowRight"
    else if v == 107 then "End" else if v == 108 then "ArrowDown" else if v == 109 then "PageDown"
    else if v == 110 then "Insert" else if v == 111 then "Delete" else if v == 119 then "Pause"
    else if v == 125 then "MetaLeft" else if v == 126 then "MetaRight" else if v == 127 then "ContextMenu"
    else ""
  }

  /** `code` can be recovered from its Linux code, which is among those the virtual device
      registers. */
  ghost predicate ReadsBack(code: string, v: int) {
    LinuxToBrowser(v) == code && 1 <= v < 0x100
  }

  lemma LettersReadBack(code: string)
    ensures code in LETTERS ==> ReadsBack(code, LETTERS[code])
  {}

  lemma DigitsReadBack(code: string)
    ensures code in DIGITS ==> ReadsBack(code, DIGITS[code])
  {}

  lemma FunctionsReadBack(code: string)
    ensures code in FUNCTIONS ==> ReadsBack(code, FUNCTIONS[code])
  {}

  lemma ModifiersReadBack(code: string)
    ensures code in MODIFIERS ==> ReadsBack(code, MODIFIERS[code])
  {}

  lemma NavigationReadBack(code: string)
    ensures code in NAVIGATION ==> ReadsBack(code, NAVIGATION[code])
  {}

  lemma EditingReadBack(code: string)
    ensures code in EDITING ==> ReadsBack(code, EDITING[code])
  {}

  lemma PunctuationReadBack(code: string)
    ensures code in PUNCTUATION ==> ReadsBack(code, PUNCTUATION[code])
  {}

  lemma LocksReadBack(code: string)
    ensures code in LOCKS ==> ReadsBack(code, LOCKS[code])
  {}

  lemma TypingReadsBack(code: string)
    ensures code in TYPING ==> ReadsBack(code, TYPING[code])
  {
    LettersReadBack(code);
    DigitsReadBack(code);
    PunctuationReadBack(code);
    EditingReadBack(code);
  }

  lemma ControlReadsBack(code: string)
    ensures code in CONTROL ==> ReadsBack(code, CONTROL[code])
  {
    FunctionsReadBack(code);
    ModifiersReadBack(code);
    NavigationReadBack(code);
    LocksReadBack(code);
  }

  lemma KeyCodeReadsBack(code: string)
    requires code in BROWSER_TO_LINUX
    ensures ReadsBack(code, BROWSER_TO_LINUX[code])
  {
    TypingReadsBack(code);
    ControlReadsBack(code);
  }

  /** No two browser codes share a Linux code, and none is a mouse button. */
  lemma KeymapInjective(a: string, b: string)
    requires a in BROWSER_TO_LINUX && b in BROWSER_TO_LINUX
    ensures BROWSER_TO_LINUX[a] == BROWSER_TO_LINUX[b] <==> a == b
    ensures forall button :: BROWSER_TO_LINUX[a] != MouseButtonToLinux(button)
  {
    KeyCodeReadsBack(a);
    KeyCodeReadsBack(b);
  }

  lemma MouseButtons(button: int)
    ensures MouseButtonToLinux(0) == 0x110 && MouseButtonToLinux(1) == 0x112 && MouseButtonToLinux(2) == 0x111
    ensures button != 1 && button != 2 ==> MouseButtonToLinux(button) == 0x110
  {}

  /** The browser code has an entry. */
  ghost predicate Listed(code: string) {
    code in LETTERS || code in DIGITS || code in FUNCTIONS || code in MODIFIERS
    || code in NAVIGATION || code in EDITING || code in PUNCTUATION || code in LOCKS
  }

  lemma ListedIsMapped(code: string)
    requires Listed(code)
    ensures code in BROWSER_TO_LINUX
  {}

  lemma CodesTo15(v: int)
    requires 1 <= v <= 15
    ensures Listed(LinuxToBrowser(v))
  {}

  lemma CodesTo28(v: int)
    requires 16 <= v <= 28
    ensures Listed(LinuxToBrowser(v))
  {}

  lemma CodesTo38(v: int)
    requires 30 <= v <= 38
    ensures LinuxToBrowser(v) in LETTERS
  {}

  lemma CodesTo41(v: int)
    requires 39 <= v <= 41
    ensures LinuxToBrowser(v) in PUNCTUATION
  {}

  lemma Code29()
    ensures LinuxToBrowser(29) in MODIFIERS
  {}

  lemma CodesTo54(v: int)
    requires 42 <= v <= 54
    ensures Listed(LinuxToBrowser(v))
  {}

  lemma CodesTo70(v: int)
    requires 56 <= v <= 70
    ensures Listed(LinuxToBrowser(v))
  {}

  lemma CodesTo127(v: int)
    requires v > 70 && LinuxToBrowser(v) != ""
    ensures Listed(LinuxToBrowser(v))
  {}

  lemma AllListed(v: int)
    requires LinuxToBrowser(v) != ""
    ensures Listed(LinuxToBrowser(v))
  {
    if v <= 15 {
      CodesTo15(v);
    } else if v <= 28 {
      CodesTo28(v);
    } else if v == 29 {
      Code29();
    } else if v <= 38 {
      CodesTo38(v);
    } else if v <= 41 {
      CodesTo41(v);
    } else if v <= 54 {
      CodesTo54(v);
    } else if v <= 70 {
      CodesTo70(v);
    } else {
      CodesTo127(v);
    }
  }

  /** No key is missing: what a Linux code stands for is in the map, with such a code. */
  lemma KeymapComplete(v: int)
    requires LinuxToBrowser(v) != ""
    ensures var code := LinuxToBrowser(v);
            code in BROWSER_TO_LINUX && LinuxToBrowser(BROWSER_TO_LINUX[code]) == code
  {
    AllListed(v);
    ListedIsMapped(LinuxToBrowser(v));
    KeyCodeReadsBack(LinuxToBrowser(v));
  }
}
