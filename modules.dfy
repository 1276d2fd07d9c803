/** Module metadata (client/src/module/mod.rs): categories and their
    display names, the per-module data record, and the keyboard keys a
    module can be bound to, numbered as GLFW key tokens. */
module Modules {

  import opened Results

  datatype ModuleCategory = Combat | Movement | Render | Player | World | Misc

  function DisplayName(c: ModuleCategory): string
  {
    match c
    case Combat => "Combat"
    case Movement => "Movement"
    case Render => "Render"
    case Player => "Player"
    case World => "World"
    case Misc => "Misc"
  }

  /** The category a display name belongs to. */
  function CategoryNamed(s: string): Option<ModuleCategory>
  {
    if s == "Combat" then Some(Combat)
    else if s == "Movement" then Some(Movement)
    else if s == "Render" then Some(Render)
    else if s == "Player" then Some(Player)
    else if s == "World" then Some(World)
    else if s == "Misc" then Some(Misc)
    else None
  }

  /** Display names tell categories apart: reading a display name back
      gives its category, and only display names are read back. */
  lemma DisplayNameRoundTrip(c: ModuleCategory, s: string)
    ensures CategoryNamed(DisplayName(c)) == Some(c)
    ensures CategoryNamed(s) == Some(c) ==> s == DisplayName(c)
  {
  }

  /** The state every module carries. The player handle it also holds
      is a game object and is not part of this model. */
  class ModuleData {
    var name: string
    var description: string
    var category: ModuleCategory
    var keyBind: KeyboardKey
    var enabled: bool

    constructor (name: string, description: string, category: ModuleCategory,
                 keyBind: KeyboardKey, enabled: bool)
      ensures this.name == name && this.description == description
      ensures this.category == category && this.keyBind == keyBind
      ensures this.enabled == enabled
    {
      this.name := name;
      this.description := description;
      this.category := category;
      this.keyBind := keyBind;
      this.enabled := enabled;
    }

    /** Sets the enabled flag and nothing else. */
    method SetEnabled(enabled: bool)
      modifies this
      ensures this.enabled == enabled
      ensures name == old(name) && description == old(description)
      ensures category == old(category) && keyBind == old(keyBind)
    {
      this.enabled := enabled;
    }
  }

  /** The keys a module can be bound to. */
  datatype KeyboardKey =
    | KeyNone
    | KeyEscape
    | Key1
    | Key2
    | Key3
    | Key4
    | Key5
    | Key6
    | Key7
    | Key8
    | Key9
    | Key0
    | KeyMinus
    | KeyEquals
    | KeyBack
    | KeyTab
    | KeyQ
    | KeyW
    | KeyE
    | KeyR
    | KeyT
    | KeyY
    | KeyU
    | KeyI
    | KeyO
    | KeyP
    | KeyLBracket
    | KeyRBracket
    | KeyReturn
    | KeyLControl
    | KeyA
    | KeyS
    | KeyD
    | KeyF
    | KeyG
    | KeyH
    | KeyJ
    | KeyK
    | KeyL
    | KeySemicolon
    | KeyApostrophe
    | KeyGrave
    | KeyLShift
    | KeyBackSlash
    | KeyZ
    | KeyX
    | KeyC
    | KeyV
    | KeyB
    | KeyN
    | KeyM
    | KeyComma
    | KeyPeriod
    | KeySlash
    | KeyRShift
    | KeyMultiply
    | KeyLAlt
    | KeySpace
    | KeyCapital
    | KeyF1
    | KeyF2
    | KeyF3
    | KeyF4
    | KeyF5
    | KeyF6
    | KeyF7
    | KeyF8
    | KeyF9
    | KeyF10
    | KeyNumLock
    | KeyScroll
    | KeyNumpad7
    | KeyNumpad8
    | KeyNumpad9
    | KeySubtract
    | KeyNumpad4
    | KeyNumpad5
    | KeyNumpad6
    | KeyAdd
    | KeyNumpad1
    | KeyNumpad2
    | KeyNumpad3
    | KeyNumpad0
    | KeyF11
    | KeyF12
    | KeyF13
    | KeyF14
    | KeyF15
    | KeyF16
    | KeyF17
    | KeyF18
    | KeyF19
    | KeyNumpadEquals
    | KeyNumpadEnter
    | KeyRControl
    | KeyNumpadComma
    | KeyDivide
    | KeyPause
    | KeyHome
    | KeyUp
    | KeyLeft
    | KeyRight
    | KeyEnd
    | KeyDown
    | KeyNext
    | KeyInsert
    | KeyDelete

  /** The key's discriminant: its GLFW key token, -1 for no key. The
      table is looked up row by row, in the order the keys are declared;
      reading the token back gives the key, so no two keys share one. */
  function Code(k: KeyboardKey): (c: int)
    ensures FromCode(c) == Some(k)
  {
    if InNumberRow(k) then NumberRowCode(k)
    else if InTopRow(k) then TopRowCode(k)
    else if InHomeRow(k) then HomeRowCode(k)
    else if InBottomRow(k) then BottomRowCode(k)
    else if InFunctionRow(k) then FunctionRowCode(k)
    else if InNumpadKeys(k) then NumpadKeysCode(k)
    else if InUpperFunctionKeys(k) then UpperFunctionKeysCode(k)
    else NavigationKeysCode(k)
  }

  /** The escape key, the number row and backspace. */
  predicate InNumberRow(k: KeyboardKey)
  {
    k.KeyNone?
    || k.KeyEscape?
    || k.Key1?
    || k.Key2?
    || k.Key3?
    || k.Key4?
    || k.Key5?
    || k.Key6?
    || k.Key7?
    || k.Key8?
    || k.Key9?
    || k.Key0?
    || k.KeyMinus?
    || k.KeyEquals?
    || k.KeyBack?
  }

  function NumberRowCode(k: KeyboardKey): (c: int)
    requires InNumberRow(k)
    ensures FromCode(c) == Some(k)
  {
    match k
    case KeyNone => -1
    case KeyEscape => 256
    case Key1 => 49
    case Key2 => 50
    case Key3 => 51
    case Key4 => 52
    case Key5 => 53
    case Key6 => 54
    case Key7 => 55
    case Key8 => 56
    case Key9 => 57
    case Key0 => 48
    case KeyMinus => 45
    case KeyEquals => 61
    case KeyBack => 259
  }

  /** Tab, the Q row and return. */
  predicate InTopRow(k: KeyboardKey)
  {
    k.KeyTab?
    || k.KeyQ?
    || k.KeyW?
    || k.KeyE?
    || k.KeyR?
    || k.KeyT?
    || k.KeyY?
    || k.KeyU?
    || k.KeyI?
    || k.KeyO?
    || k.KeyP?
    || k.KeyLBracket?
    || k.KeyRBracket?
    || k.KeyReturn?
  }

  function TopRowCode(k: KeyboardKey): (c: int)
    requires InTopRow(k)
    ensures FromCode(c) == Some(k)
  {
    match k
    case KeyTab => 258
    case KeyQ => 81
    case KeyW => 87
    case KeyE => 69
    case KeyR => 82
    case KeyT => 84
    case KeyY => 89
    case KeyU => 85
    case KeyI => 73
    case KeyO => 79
    case KeyP => 80
    case KeyLBracket => 91
    case KeyRBracket => 93
    case KeyReturn => 257
  }

  /** Left control, the A row and grave. */
  predicate InHomeRow(k: KeyboardKey)
  {
    k.KeyLControl?
    || k.KeyA?
    || k.KeyS?
    || k.KeyD?
    || k.KeyF?
    || k.KeyG?
    || k.KeyH?
    || k.KeyJ?
    || k.KeyK?
    || k.KeyL?
    || k.KeySemicolon?
    || k.KeyApostrophe?
    || k.KeyGrave?
  }

  function HomeRowCode(k: KeyboardKey): (c: int)
    requires InHomeRow(k)
    ensures FromCode(c) == Some(k)
  {
    match k
    case KeyLControl => 341
    case KeyA => 65
    case KeyS => 83
    case KeyD => 68
    case KeyF => 70
    case KeyG => 71
    case KeyH => 72
    case KeyJ => 74
    case KeyK => 75
    case KeyL => 76
    case KeySemicolon => 59
    case KeyApostrophe => 39
    case KeyGrave => 96
  }

  /** The shift keys and the Z row. */
  predicate InBottomRow(k: KeyboardKey)
  {
    k.KeyLShift?
    || k.KeyBackSlash?
    || k.KeyZ?
    || k.KeyX?
    || k.KeyC?
    || k.KeyV?
    || k.KeyB?
    || k.KeyN?
    || k.KeyM?
    || k.KeyComma?
    || k.KeyPeriod?
    || k.KeySlash?
    || k.KeyRShift?
  }

  function BottomRowCode(k: KeyboardKey): (c: int)
    requires InBottomRow(k)
    ensures FromCode(c) == Some(k)
  {
    match k
    case KeyLShift => 340
    case KeyBackSlash => 92
    case KeyZ => 90
    case KeyX => 88
    case KeyC => 67
    case KeyV => 86
    case KeyB => 66
    case KeyN => 78
    case KeyM => 77
    case KeyComma => 44
    case KeyPeriod => 46
    case KeySlash => 47
    case KeyRShift => 344
  }

  /** Multiply, left alt, space, caps lock and F1 to F10. */
  predicate InFunctionRow(k: KeyboardKey)
  {
    k.KeyMultiply?
    || k.KeyLAlt?
    || k.KeySpace?
    || k.KeyCapital?
    || k.KeyF1?
    || k.KeyF2?
    || k.KeyF3?
    || k.KeyF4?
    || k.KeyF5?
    || k.KeyF6?
    || k.KeyF7?
    || k.KeyF8?
    || k.KeyF9?
    || k.KeyF10?
  }

  function FunctionRowCode(k: KeyboardKey): (c: int)
    requires InFunctionRow(k)
    ensures FromCode(c) == Some(k)
  {
    match k
    case KeyMultiply => 332
    case KeyLAlt => 342
    case KeySpace => 32
    case KeyCapital => 280
    case KeyF1 => 290
    case KeyF2 => 291
    case KeyF3 => 292
    case KeyF4 => 293
    case KeyF5 => 294
    case KeyF6 => 295
    case KeyF7 => 296
    case KeyF8 => 297
    case KeyF9 => 298
    case KeyF10 => 299
  }

  /** Num lock, scroll lock and the numeric keypad. */
  predicate InNumpadKeys(k: KeyboardKey)
  {
    k.KeyNumLock?
    || k.KeyScroll?
    || k.KeyNumpad7?
    || k.KeyNumpad8?
    || k.KeyNumpad9?
    || k.KeySubtract?
    || k.KeyNumpad4?
    || k.KeyNumpad5?
    || k.KeyNumpad6?
    || k.KeyAdd?
    || k.KeyNumpad1?
    || k.KeyNumpad2?
    || k.KeyNumpad3?
    || k.KeyNumpad0?
  }

  function NumpadKeysCode(k: KeyboardKey): (c: int)
    requires InNumpadKeys(k)
    ensures FromCode(c) == Some(k)
  {
    match k
    case KeyNumLock => 282
    case KeyScroll => 281
    case KeyNumpad7 => 327
    case KeyNumpad8 => 328
    case KeyNumpad9 => 329
    case KeySubtract => 333
    case KeyNumpad4 => 324
    case KeyNumpad5 => 325
    case KeyNumpad6 => 326
    case KeyAdd => 334
    case KeyNumpad1 => 321
    case KeyNumpad2 => 322
    case KeyNumpad3 => 323
    case KeyNumpad0 => 320
  }

  /** F11 to F19 and the remaining keypad and control keys. */
  predicate InUpperFunctionKeys(k: KeyboardKey)
  {
    k.KeyF11?
    || k.KeyF12?
    || k.KeyF13?
    || k.KeyF14?
    || k.KeyF15?
    || k.KeyF16?
    || k.KeyF17?
    || k.KeyF18?
    || k.KeyF19?
    || k.KeyNumpadEquals?
    || k.KeyNumpadEnter?
    || k.KeyRControl?
    || k.KeyNumpadComma?
    || k.KeyDivide?
  }

  function UpperFunctionKeysCode(k: KeyboardKey): (c: int)
    requires InUpperFunctionKeys(k)
    ensures FromCode(c) == Some(k)
  {
    match k
    case KeyF11 => 300
    case KeyF12 => 301
    case KeyF13 => 302
    case KeyF14 => 303
    case KeyF15 => 304
    case KeyF16 => 305
    case KeyF17 => 306
    case KeyF18 => 307
    case KeyF19 => 308
    case KeyNumpadEquals => 336
    case KeyNumpadEnter => 335
    case KeyRControl => 345
    case KeyNumpadComma => 330
    case KeyDivide => 331
  }

  /** Pause and the navigation block. */
  predicate InNavigationKeys(k: KeyboardKey)
  {
    k.KeyPause?
    || k.KeyHome?
    || k.KeyUp?
    || k.KeyLeft?
    || k.KeyRight?
    || k.KeyEnd?
    || k.KeyDown?
    || k.KeyNext?
    || k.KeyInsert?
    || k.KeyDelete?
  }

  function NavigationKeysCode(k: KeyboardKey): (c: int)
    requires InNavigationKeys(k)
    ensures FromCode(c) == Some(k)
  {
    match k
    case KeyPause => 284
    case KeyHome => 268
    case KeyUp => 265
    case KeyLeft => 263
    case KeyRight => 262
    case KeyEnd => 269
    case KeyDown => 264
    case KeyNext => 267
    case KeyInsert => 260
    case KeyDelete => 261
  }

  /** The key with a given token, if any. */
  function FromCode(c: int): Option<KeyboardKey>
  {
    match c
    case -1 => Some(KeyNone)
    case 256 => Some(KeyEscape)
    case 49 => Some(Key1)
    case 50 => Some(Key2)
    case 51 => Some(Key3)
    case 52 => Some(Key4)
    case 53 => Some(Key5)
    case 54 => Some(Key6)
    case 55 => Some(Key7)
    case 56 => Some(Key8)
    case 57 => Some(Key9)
    case 48 => Some(Key0)
    case 45 => Some(KeyMinus)
    case 61 => Some(KeyEquals)
    case 259 => Some(KeyBack)
    case 258 => Some(KeyTab)
    case 81 => Some(KeyQ)
    case 87 => Some(KeyW)
    case 69 => Some(KeyE)
    case 82 => Some(KeyR)
    case 84 => Some(KeyT)
    case 89 => Some(KeyY)
    case 85 => Some(KeyU)
    case 73 => Some(KeyI)
    case 79 => Some(KeyO)
    case 80 => Some(KeyP)
    case 91 => Some(KeyLBracket)
    case 93 => Some(KeyRBracket)
    case 257 => Some(KeyReturn)
    case 341 => Some(KeyLControl)
    case 65 => Some(KeyA)
    case 83 => Some(KeyS)
    case 68 => Some(KeyD)
    case 70 => Some(KeyF)
    case 71 => Some(KeyG)
    case 72 => Some(KeyH)
    case 74 => Some(KeyJ)
    case 75 => Some(KeyK)
    case 76 => Some(KeyL)
    case 59 => Some(KeySemicolon)
    case 39 => Some(KeyApostrophe)
    case 96 => Some(KeyGrave)
    case 340 => Some(KeyLShift)
    case 92 => Some(KeyBackSlash)
    case 90 => Some(KeyZ)
    case 88 => Some(KeyX)
    case 67 => Some(KeyC)
    case 86 => Some(KeyV)
    case 66 => Some(KeyB)
    case 78 => Some(KeyN)
    case 77 => Some(KeyM)
    case 44 => Some(KeyComma)
    case 46 => Some(KeyPeriod)
    case 47 => Some(KeySlash)
    case 344 => Some(KeyRShift)
    case 332 => Some(KeyMultiply)
    case 342 => Some(KeyLAlt)
    case 32 => Some(KeySpace)
    case 280 => Some(KeyCapital)
    case 290 => Some(KeyF1)
    case 291 => Some(KeyF2)
    case 292 => Some(KeyF3)
    case 293 => Some(KeyF4)
    case 294 => Some(KeyF5)
    case 295 => Some(KeyF6)
    case 296 => Some(KeyF7)
    case 297 => Some(KeyF8)
    case 298 => Some(KeyF9)
    case 299 => Some(KeyF10)
    case 282 => Some(KeyNumLock)
    case 281 => Some(KeyScroll)
    case 327 => Some(KeyNumpad7)
    case 328 => Some(KeyNumpad8)
    case 329 => Some(KeyNumpad9)
    case 333 => Some(KeySubtract)
    case 324 => Some(KeyNumpad4)
    case 325 => Some(KeyNumpad5)
    case 326 => Some(KeyNumpad6)
    case 334 => Some(KeyAdd)
    case 321 => Some(KeyNumpad1)
    case 322 => Some(KeyNumpad2)
    case 323 => Some(KeyNumpad3)
    case 320 => Some(KeyNumpad0)
    case 300 => Some(KeyF11)
    case 301 => Some(KeyF12)
    case 302 => Some(KeyF13)
    case 303 => Some(KeyF14)
    case 304 => Some(KeyF15)
    case 305 => Some(KeyF16)
    case 306 => Some(KeyF17)
    case 307 => Some(KeyF18)
    case 308 => Some(KeyF19)
    case 336 => Some(KeyNumpadEquals)
    case 335 => Some(KeyNumpadEnter)
    case 345 => Some(KeyRControl)
    case 330 => Some(KeyNumpadComma)
    case 331 => Some(KeyDivide)
    case 284 => Some(KeyPause)
    case 268 => Some(KeyHome)
    case 265 => Some(KeyUp)
    case 263 => Some(KeyLeft)
    case 262 => Some(KeyRight)
    case 269 => Some(KeyEnd)
    case 264 => Some(KeyDown)
    case 267 => Some(KeyNext)
    case 260 => Some(KeyInsert)
    case 261 => Some(KeyDelete)
    case _ => None
  }

  /** The letter keys, by letter. */
  function LetterKey(ch: char): (k: KeyboardKey)
    requires 'A' <= ch <= 'Z'
  {
    match ch
    case 'A' => KeyA
    case 'B' => KeyB
    case 'C' => KeyC
    case 'D' => KeyD
    case 'E' => KeyE
    case 'F' => KeyF
    case 'G' => KeyG
    case 'H' => KeyH
    case 'I' => KeyI
    case 'J' => KeyJ
    case 'K' => KeyK
    case 'L' => KeyL
    case 'M' => KeyM
    case 'N' => KeyN
    case 'O' => KeyO
    case 'P' => KeyP
    case 'Q' => KeyQ
    case 'R' => KeyR
    case 'S' => KeyS
    case 'T' => KeyT
    case 'U' => KeyU
    case 'V' => KeyV
    case 'W' => KeyW
    case 'X' => KeyX
    case 'Y' => KeyY
    case 'Z' => KeyZ
  }

  /** The number-row keys, by digit. */
  function DigitKey(d: nat): (k: KeyboardKey)
    requires d < 10
  {
    match d
    case 0 => Key0
    case 1 => Key1
    case 2 => Key2
    case 3 => Key3
    case 4 => Key4
    case 5 => Key5
    case 6 => Key6
    case 7 => Key7
    case 8 => Key8
    case 9 => Key9
  }

  /** The function keys F1 to F19. */
  function FunctionKey(i: nat): (k: KeyboardKey)
    requires 1 <= i <= 19
  {
    match i
    case 1 => KeyF1
    case 2 => KeyF2
    case 3 => KeyF3
    case 4 => KeyF4
    case 5 => KeyF5
    case 6 => KeyF6
    case 7 => KeyF7
    case 8 => KeyF8
    case 9 => KeyF9
    case 10 => KeyF10
    case 11 => KeyF11
    case 12 => KeyF12
    case 13 => KeyF13
    case 14 => KeyF14
    case 15 => KeyF15
    case 16 => KeyF16
    case 17 => KeyF17
    case 18 => KeyF18
    case 19 => KeyF19
  }

  /** No two keys share a token, and only `KeyNone` has token -1. */
  lemma CodesDistinct(a: KeyboardKey, b: KeyboardKey)
    ensures Code(a) == Code(b) <==> a == b
    ensures Code(a) == -1 <==> a == KeyNone
  {
  }

  /** A letter key's token is the letter's upper-case ASCII code. */
  lemma LetterCodes(ch: char)
    requires 'A' <= ch <= 'Z'
    ensures Code(LetterKey(ch)) == ch as int
  {
    var k := LetterKey(ch);
    assert !InNumberRow(k);
    if !InTopRow(k) && !InHomeRow(k) {
      assert InBottomRow(k);
    }
  }

  /** The number-row keys are the ASCII digits, tokens 48 to 57. */
  lemma DigitCodes(d: nat)
    requires d < 10
    ensures Code(DigitKey(d)) == 48 + d
  {
  }

  /** F1 to F19 are the consecutive tokens 290 to 308. */
  lemma FunctionKeyCodes(i: nat)
    requires 1 <= i <= 19
    ensures Code(FunctionKey(i)) == 289 + i
  {
    var k := FunctionKey(i);
    assert !InNumberRow(k) && !InTopRow(k) && !InHomeRow(k) && !InBottomRow(k);
    if i <= 10 {
      assert InFunctionRow(k);
    } else {
      assert !InFunctionRow(k) && !InNumpadKeys(k) && InUpperFunctionKeys(k);
    }
  }
}
