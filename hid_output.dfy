/**
 * The key output of the ESP32 firmware, firmware/esp32/esp32_micropython/
 * HidOutput.cpp: the translation of a key symbol into a HID keyboard usage
 * and modifier, and the reports sent for it, to a BLE host as input reports
 * of the HID service or to a USB host through the Arduino keyboard and
 * consumer-control classes.
 *
 * A symbol is an Arduino `String`; its characters are modelled as Dafny
 * characters. Every symbol the tables hold, and every character the
 * single-character branch accepts, is ASCII, so comparing characters here
 * decides exactly what comparing the UTF-8 bytes decides on the device.
 */
module EspHid {
  import opened Common

  /** A keyboard usage (Usage Page 0x07) and the modifier byte sent with it. */
  datatype Keycode = Keycode(code: byte, modifier: byte)

  const HID_KB_A: byte := 0x04
  const HID_KB_1: byte := 0x1E
  const HID_KB_0: byte := 0x27
  const HID_KB_SPACE: byte := 0x2C
  const HID_MOD_SHIFT: byte := 0x02
  /** The Arduino keyboard's offset for a raw usage, and its left-shift key. */
  const HID_USB_RAW_OFFSET: nat := 0x88
  const USB_LEFT_SHIFT: byte := 0x81

  const CONSUMER_VOL_UP: u16 := 0xE9
  const CONSUMER_VOL_DOWN: u16 := 0xEA
  const CONSUMER_MUTE: u16 := 0xE2
  const CONSUMER_NEXT: u16 := 0xB5
  const CONSUMER_PREV: u16 := 0xB6
  const CONSUMER_PLAY_PAUSE: u16 := 0xCD

  /** The arrow usages of the HID Usage Tables (section 10, Keyboard/Keypad page). */
  const HID_KB_RIGHT: byte := 0x4F
  const HID_KB_LEFT: byte := 0x50
  const HID_KB_DOWN: byte := 0x51
  const HID_KB_UP: byte := 0x52

  /** The keys sent without a modifier, as the firmware lists them: Up as 0x53 and Right as 0x52. */
  const NAMED_KEYS_AS_WRITTEN: seq<(string, byte)> :=
    [("ENTER", 0x28), ("TAB", 0x2B), ("BACKSPACE", 0x2A), ("ESC", 0x29), ("ESCAPE", 0x29), ("SPACE", 0x2C),
     ("DELETE", 0x4C), ("UP", 0x53), ("DOWN", 0x51), ("LEFT", 0x50), ("RIGHT", 0x52),
     ("1", 0x1E), ("2", 0x1F), ("3", 0x20), ("4", 0x21), ("5", 0x22),
     ("6", 0x23), ("7", 0x24), ("8", 0x25), ("9", 0x26), ("0", 0x27),
     (".", 0x37), (",", 0x36), ("=", 0x2E), ("-", 0x2D),
     ("+", 0x57), ("/", 0x54), ("*", 0x55),
     ("[", 0x2F), ("]", 0x30), ("\\", 0x31), (";", 0x33), ("'", 0x34), ("`", 0x35)]

  /** The same table with the Up and Right usages of the HID Usage Tables. */
  const NAMED_KEYS: seq<(string, byte)> := NAMED_KEYS_AS_WRITTEN[7 := ("UP", HID_KB_UP)][10 := ("RIGHT", HID_KB_RIGHT)]

  /** The symbols typed as a shifted key: the shifted digits and punctuation of a US layout. */
  const NAMED_KEYS_SHIFT: seq<(string, Keycode)> :=
    [("!", Keycode(0x1E, 2)), ("@", Keycode(0x1F, 2)), ("#", Keycode(0x20, 2)),
     ("$", Keycode(0x21, 2)), ("%", Keycode(0x22, 2)), ("^", Keycode(0x23, 2)),
     ("&", Keycode(0x24, 2)), ("(", Keycode(0x26, 2)), (")", Keycode(0x27, 2)),
     ("_", Keycode(0x2D, 2)),
     ("{", Keycode(0x2F, 2)), ("}", Keycode(0x30, 2)),
     ("|", Keycode(0x31, 2)), (":", Keycode(0x33, 2)),
     ("\"", Keycode(0x34, 2)), ("~", Keycode(0x35, 2)),
     ("<", Keycode(0x36, 2)), (">", Keycode(0x37, 2)), ("?", Keycode(0x38, 2))]

  /** The first entry of `table` whose symbol is `symbol`. */
  function FindSymbol<T>(table: seq<(string, T)>, symbol: string): (r: Option<nat>)
    ensures r.Some? ==> r.value < |table|
  {
    FindFrom(table, symbol, 0)
  }

  /** The first entry at or after `k` whose symbol is `symbol`. */
  function FindFrom<T>(table: seq<(string, T)>, symbol: string, k: nat): (r: Option<nat>)
    ensures r.Some? ==> k <= r.value < |table|
    decreases |table| - k
  {
    if k >= |table| then None
    else if table[k].0 == symbol then Some(k)
    else FindFrom(table, symbol, k + 1)
  }

  /** The usage of a digit on the main keyboard: 0x1E for '1' on to 0x26 for '9', then 0x27 for '0'. */
  function DigitCode(c: char): byte
    requires '0' <= c <= '9'
  {
    if c == '0' then HID_KB_0 else HID_KB_1 + (c as int - '1' as int) as byte
  }

  /** The single-character branch: letters, lower-case plain and upper-case shifted, digits and the space. */
  function SingleChar(c: char): Option<Keycode>
  {
    if 'a' <= c <= 'z' then Some(Keycode(HID_KB_A + (c as int - 'a' as int) as byte, 0))
    else if 'A' <= c <= 'Z' then Some(Keycode(HID_KB_A + (c as int - 'A' as int) as byte, HID_MOD_SHIFT))
    else if '0' <= c <= '9' then Some(Keycode(DigitCode(c), 0))
    else if c == ' ' then Some(Keycode(HID_KB_SPACE, 0))
    else None
  }

  /** `getKeycodeAndModifier` over a shift table and a table of unmodified keys, then one character. */
  function LookupIn(shift: seq<(string, Keycode)>, named: seq<(string, byte)>, symbol: string): Option<Keycode>
  {
    if |symbol| == 0 then None
    else match FindSymbol(shift, symbol)
      case Some(i) => Some(shift[i].1)
      case None =>
        match FindSymbol(named, symbol)
        case Some(i) => Some(Keycode(named[i].1, 0))
        case None => if |symbol| == 1 then SingleChar(symbol[0]) else None
  }

  /** `getKeycodeAndModifier` as the firmware does it: the lookup with its own arrow usages. */
  function KeycodeAndModifierAsWritten(symbol: string): (r: Option<Keycode>)
    ensures |symbol| == 0 ==> r.None?
  {
    LookupIn(NAMED_KEYS_SHIFT, NAMED_KEYS_AS_WRITTEN, symbol)
  }

  /** The intended lookup, with the arrow usages of the HID Usage Tables; it differs only at Up and Right. */
  function KeycodeAndModifier(symbol: string): (r: Option<Keycode>)
    ensures |symbol| == 0 ==> r.None?
  {
    LookupIn(NAMED_KEYS_SHIFT, NAMED_KEYS, symbol)
  }

  /** `getKeycode`: the usage, or 0 when the symbol is not known. */
  function GetKeycode(symbol: string): (code: byte)
    ensures code == 0 <==> KeycodeAndModifierAsWritten(symbol).None?
  {
    LookupRange(symbol);
    match KeycodeAndModifierAsWritten(symbol)
    case Some(k) => k.code
    case None => 0
  }

  /** `keyShouldRepeat`. */
  predicate KeyShouldRepeat(symbol: string)
  {
    symbol != "PROFILE" && symbol != "VOL_UP" && symbol != "VOL_DOWN" && symbol != "MUTE"
    && symbol != "Prev" && symbol != "Next" && symbol != "Select"
  }

  // ------------------------------------------------------------ lookups

  /** From `k` on, `FindFrom` gives the first entry holding the symbol, and nothing exactly when none holds it. */
  lemma {:induction false} FindFromSpec<T>(table: seq<(string, T)>, symbol: string, k: nat)
    ensures FindFrom(table, symbol, k).Some? ==>
      table[FindFrom(table, symbol, k).value].0 == symbol
      && forall j :: k <= j < FindFrom(table, symbol, k).value ==> table[j].0 != symbol
    ensures FindFrom(table, symbol, k).None? <==> forall j :: k <= j < |table| ==> table[j].0 != symbol
    decreases |table| - k
  {
    if k < |table| && table[k].0 != symbol {
      FindFromSpec(table, symbol, k + 1);
    }
  }

  /** `FindSymbol` gives the first entry holding the symbol, and nothing exactly when no entry holds it. */
  lemma FindSymbolSpec<T>(table: seq<(string, T)>, symbol: string)
    ensures FindSymbol(table, symbol).Some? ==>
      table[FindSymbol(table, symbol).value].0 == symbol
      && forall j :: 0 <= j < FindSymbol(table, symbol).value ==> table[j].0 != symbol
    ensures FindSymbol(table, symbol).None? <==> forall j :: 0 <= j < |table| ==> table[j].0 != symbol
  {
    FindFromSpec(table, symbol, 0);
  }

  /** The entry found is the first one that holds the symbol. */
  lemma FindSymbolAt<T>(table: seq<(string, T)>, symbol: string, i: nat)
    requires i < |table| && table[i].0 == symbol
    requires forall j :: 0 <= j < i ==> table[j].0 != symbol
    ensures FindSymbol(table, symbol) == Some(i)
  {
    FindSymbolSpec(table, symbol);
  }

  /** Tables with the same symbols find a symbol at the same place. */
  lemma {:induction false} FindFromSameSymbols<T>(a: seq<(string, T)>, b: seq<(string, T)>, symbol: string, k: nat)
    requires |a| == |b| && forall i :: 0 <= i < |a| ==> a[i].0 == b[i].0
    ensures FindFrom(a, symbol, k) == FindFrom(b, symbol, k)
    decreases |a| - k
  {
    if k < |a| && a[k].0 != symbol {
      FindFromSameSymbols(a, b, symbol, k + 1);
    }
  }

  predicate IsLetter(c: char)
  {
    'a' <= c <= 'z' || 'A' <= c <= 'Z'
  }

  /** A one-character symbol of neither letter, digit nor space. */
  predicate IsPunctuation(symbol: string)
  {
    |symbol| == 1 && !IsLetter(symbol[0]) && !('0' <= symbol[0] <= '9') && symbol[0] != ' '
  }

  /** Each shifted symbol is one punctuation character, typed as a key from 0x1E to 0x38 with Shift. */
  predicate ShiftEntriesFit(shift: seq<(string, Keycode)>)
  {
    forall i :: 0 <= i < |shift| ==>
      IsPunctuation(shift[i].0) && shift[i].1.modifier == HID_MOD_SHIFT && 0x1E <= shift[i].1.code <= 0x38
  }

  /**
   * Each entry of a named table is a usage from 0x04 to 0x57; a
   * one-character name is no letter and no space, and a digit's usage is
   * its main-keyboard one.
   */
  predicate NamedEntriesFit(named: seq<(string, byte)>)
  {
    forall i :: 0 <= i < |named| ==> EntryFits(named[i])
  }

  /** One entry of a named table, as `NamedEntriesFit` requires it. */
  predicate EntryFits(entry: (string, byte))
  {
    |entry.0| > 0 && 0x04 <= entry.1 <= 0x57
    && (|entry.0| == 1 ==>
          !IsLetter(entry.0[0]) && entry.0[0] != ' '
          && ('0' <= entry.0[0] <= '9' ==> entry.1 == DigitCode(entry.0[0])))
  }

  /** Where a digit stands in the named tables. */
  function DigitIndex(c: char): nat
    requires '0' <= c <= '9'
  {
    if c == '0' then 20 else 11 + (c as int - '1' as int)
  }

  /** The digit that stands at entry `i`, from 11 to 20, of the named tables. */
  function DigitAt(i: nat): char
    requires 11 <= i < 21
  {
    if i == 20 then '0' else (i - 11 + '1' as int) as char
  }

  /** Every digit has a named entry: entries 11 to 20 are "1" to "9" and "0". */
  predicate DigitsNamed(named: seq<(string, byte)>)
  {
    |named| >= 21 && forall i :: 11 <= i < 21 ==> named[i].0 == [DigitAt(i)]
  }

  lemma ShiftEntries()
    ensures ShiftEntriesFit(NAMED_KEYS_SHIFT)
  {
  }

  lemma NamedEntriesAsWritten()
    ensures NamedEntriesFit(NAMED_KEYS_AS_WRITTEN)
  {
  }

  lemma DigitsNamedAsWritten()
    ensures DigitsNamed(NAMED_KEYS_AS_WRITTEN)
  {
  }

  /** Replacing the usage of a name of more than one character keeps a named table fitting. */
  lemma RenumberedFits(named: seq<(string, byte)>, i: nat, code: byte)
    requires NamedEntriesFit(named) && DigitsNamed(named)
    requires i < |named| && |named[i].0| > 1 && 0x04 <= code <= 0x57
    ensures NamedEntriesFit(named[i := (named[i].0, code)]) && DigitsNamed(named[i := (named[i].0, code)])
  {
  }

  lemma NamedEntries()
    ensures NamedEntriesFit(NAMED_KEYS) && DigitsNamed(NAMED_KEYS)
  {
    NamedEntriesAsWritten();
    DigitsNamedAsWritten();
    var t := NAMED_KEYS_AS_WRITTEN;
    assert t[7].0 == "UP" && t[10].0 == "RIGHT";
    RenumberedFits(t, 7, HID_KB_UP);
    RenumberedFits(t[7 := ("UP", HID_KB_UP)], 10, HID_KB_RIGHT);
  }

  /** The symbols of both named tables are the same; only the usages of Up and Right differ. */
  lemma NamedTablesAlike()
    ensures |NAMED_KEYS| == |NAMED_KEYS_AS_WRITTEN| == 34
    ensures forall i :: 0 <= i < 34 ==> NAMED_KEYS[i].0 == NAMED_KEYS_AS_WRITTEN[i].0
    ensures forall i :: 0 <= i < 34 && i != 7 && i != 10 ==> NAMED_KEYS[i].1 == NAMED_KEYS_AS_WRITTEN[i].1
    ensures NAMED_KEYS[7].0 == "UP" && NAMED_KEYS[10].0 == "RIGHT"
  {
  }

  // Each step of the lookup, for any pair of tables.

  lemma ShiftHit(shift: seq<(string, Keycode)>, named: seq<(string, byte)>, symbol: string, i: nat)
    requires |symbol| > 0 && FindSymbol(shift, symbol) == Some(i)
    ensures LookupIn(shift, named, symbol) == Some(shift[i].1)
  {
  }

  lemma NamedHit(shift: seq<(string, Keycode)>, named: seq<(string, byte)>, symbol: string, i: nat)
    requires |symbol| > 0 && FindSymbol(shift, symbol).None? && FindSymbol(named, symbol) == Some(i)
    ensures LookupIn(shift, named, symbol) == Some(Keycode(named[i].1, 0))
  {
  }

  lemma TablesMiss(shift: seq<(string, Keycode)>, named: seq<(string, byte)>, symbol: string)
    requires FindSymbol(shift, symbol).None? && FindSymbol(named, symbol).None?
    ensures LookupIn(shift, named, symbol) == if |symbol| == 1 then SingleChar(symbol[0]) else None
  {
  }

  /** Only a punctuation character can be in a shift table. */
  lemma ShiftMissesIn(shift: seq<(string, Keycode)>, symbol: string)
    requires ShiftEntriesFit(shift) && !IsPunctuation(symbol)
    ensures FindSymbol(shift, symbol).None?
  {
    FindSymbolSpec(shift, symbol);
  }

  /** A single letter or space is in no named table. */
  lemma NamedMissesIn(named: seq<(string, byte)>, symbol: string)
    requires NamedEntriesFit(named) && |symbol| == 1 && (IsLetter(symbol[0]) || symbol[0] == ' ')
    ensures FindSymbol(named, symbol).None?
  {
    FindSymbolSpec(named, symbol);
  }

  lemma ShiftedExactlyIn(shift: seq<(string, Keycode)>, named: seq<(string, byte)>, symbol: string)
    requires ShiftEntriesFit(shift) && NamedEntriesFit(named)
    ensures (LookupIn(shift, named, symbol).Some? && LookupIn(shift, named, symbol).value.modifier == HID_MOD_SHIFT) <==>
      (exists i :: 0 <= i < |shift| && shift[i].0 == symbol) || (|symbol| == 1 && 'A' <= symbol[0] <= 'Z')
  {
    FindSymbolSpec(shift, symbol);
    if |symbol| == 0 {
    } else if FindSymbol(shift, symbol).Some? {
      ShiftHit(shift, named, symbol, FindSymbol(shift, symbol).value);
    } else if FindSymbol(named, symbol).Some? {
      NamedHit(shift, named, symbol, FindSymbol(named, symbol).value);
      if |symbol| == 1 && 'A' <= symbol[0] <= 'Z' {
        NamedMissesIn(named, symbol);
      }
    } else {
      TablesMiss(shift, named, symbol);
    }
  }

  lemma LetterLookupIn(shift: seq<(string, Keycode)>, named: seq<(string, byte)>, c: char)
    requires ShiftEntriesFit(shift) && NamedEntriesFit(named) && (IsLetter(c) || c == ' ')
    ensures 'a' <= c <= 'z' ==> LookupIn(shift, named, [c]) == Some(Keycode((0x04 + c as int - 'a' as int) as byte, 0))
    ensures 'A' <= c <= 'Z' ==> LookupIn(shift, named, [c]) == Some(Keycode((0x04 + c as int - 'A' as int) as byte, 0x02))
    ensures c == ' ' ==> LookupIn(shift, named, [c]) == Some(Keycode(HID_KB_SPACE, 0))
  {
    ShiftMissesIn(shift, [c]);
    NamedMissesIn(named, [c]);
    TablesMiss(shift, named, [c]);
  }

  lemma DigitLookupIn(shift: seq<(string, Keycode)>, named: seq<(string, byte)>, c: char)
    requires ShiftEntriesFit(shift) && NamedEntriesFit(named) && DigitsNamed(named) && '0' <= c <= '9'
    ensures FindSymbol(named, [c]).Some?
    ensures LookupIn(shift, named, [c]) == Some(Keycode(DigitCode(c), 0))
  {
    ShiftMissesIn(shift, [c]);
    FindSymbolSpec(named, [c]);
    assert DigitAt(DigitIndex(c)) == c;
    assert named[DigitIndex(c)].0 == [c];
    var i := FindSymbol(named, [c]).value;
    assert named[i].0 == [c];
    NamedHit(shift, named, [c], i);
  }

  lemma LookupFailsExactlyIn(shift: seq<(string, Keycode)>, named: seq<(string, byte)>, symbol: string)
    requires ShiftEntriesFit(shift) && NamedEntriesFit(named) && DigitsNamed(named)
    ensures LookupIn(shift, named, symbol).None? <==>
      (forall i :: 0 <= i < |shift| ==> shift[i].0 != symbol)
      && (forall i :: 0 <= i < |named| ==> named[i].0 != symbol)
      && !(|symbol| == 1 && (IsLetter(symbol[0]) || symbol[0] == ' '))
  {
    FindSymbolSpec(shift, symbol);
    FindSymbolSpec(named, symbol);
    if |symbol| == 1 && '0' <= symbol[0] <= '9' {
      assert [symbol[0]] == symbol;
      DigitLookupIn(shift, named, symbol[0]);
    }
    if |symbol| == 0 {
    } else if FindSymbol(shift, symbol).Some? {
      ShiftHit(shift, named, symbol, FindSymbol(shift, symbol).value);
    } else if FindSymbol(named, symbol).Some? {
      NamedHit(shift, named, symbol, FindSymbol(named, symbol).value);
    } else {
      TablesMiss(shift, named, symbol);
    }
  }

  lemma LookupRangeIn(shift: seq<(string, Keycode)>, named: seq<(string, byte)>, symbol: string)
    requires ShiftEntriesFit(shift) && NamedEntriesFit(named)
    ensures LookupIn(shift, named, symbol).Some? ==>
      0x04 <= LookupIn(shift, named, symbol).value.code <= 0x57
      && LookupIn(shift, named, symbol).value.modifier in {0, HID_MOD_SHIFT}
  {
    if |symbol| == 0 {
    } else if FindSymbol(shift, symbol).Some? {
      ShiftHit(shift, named, symbol, FindSymbol(shift, symbol).value);
    } else if FindSymbol(named, symbol).Some? {
      NamedHit(shift, named, symbol, FindSymbol(named, symbol).value);
    } else {
      TablesMiss(shift, named, symbol);
    }
  }

  /** No name of more than one character is in the shift table. */
  lemma ShiftMissesNames(symbol: string)
    requires |symbol| != 1
    ensures FindSymbol(NAMED_KEYS_SHIFT, symbol).None?
  {
    ShiftEntries();
    ShiftMissesIn(NAMED_KEYS_SHIFT, symbol);
  }

  /** A name that is entry `i` of a named table, and no earlier entry, is typed with that entry's usage. */
  lemma NamedEntry(named: seq<(string, byte)>, symbol: string, i: nat, code: byte)
    requires |symbol| > 1 && i < |named| && named[i] == (symbol, code)
    requires forall j :: 0 <= j < i ==> named[j].0 != symbol
    ensures LookupIn(NAMED_KEYS_SHIFT, named, symbol) == Some(Keycode(code, 0))
  {
    ShiftMissesNames(symbol);
    FindSymbolAt(named, symbol, i);
    NamedHit(NAMED_KEYS_SHIFT, named, symbol, i);
  }

  /** A punctuation character that no shift entry holds, found at entry `i` of a named table. */
  lemma PunctuationEntry(shift: seq<(string, Keycode)>, named: seq<(string, byte)>, symbol: string, i: nat, code: byte)
    requires |symbol| > 0 && forall j :: 0 <= j < |shift| ==> shift[j].0 != symbol
    requires i < |named| && named[i] == (symbol, code) && forall j :: 0 <= j < i ==> named[j].0 != symbol
    ensures LookupIn(shift, named, symbol) == Some(Keycode(code, 0))
  {
    FindSymbolSpec(shift, symbol);
    FindSymbolAt(named, symbol, i);
    NamedHit(shift, named, symbol, i);
  }

  /** A symbol that is entry `i` of a shift table, and no earlier entry, is typed with that entry's key. */
  lemma ShiftEntry(shift: seq<(string, Keycode)>, named: seq<(string, byte)>, symbol: string, i: nat, k: Keycode)
    requires |symbol| > 0 && i < |shift| && shift[i] == (symbol, k)
    requires forall j :: 0 <= j < i ==> shift[j].0 != symbol
    ensures LookupIn(shift, named, symbol) == Some(k)
  {
    FindSymbolAt(shift, symbol, i);
    ShiftHit(shift, named, symbol, i);
  }

  // Where some names stand in the tables.

  lemma NamedKeyEntries(enter: string, delete: string, esc: string, escape: string)
    requires enter == "ENTER" && delete == "DELETE" && esc == "ESC" && escape == "ESCAPE"
    ensures NAMED_KEYS_AS_WRITTEN[0] == (enter, 0x28) && NAMED_KEYS_AS_WRITTEN[6] == (delete, 0x4C)
    ensures NAMED_KEYS_AS_WRITTEN[3] == (esc, 0x29) && NAMED_KEYS_AS_WRITTEN[4] == (escape, 0x29)
    ensures forall j :: 0 <= j < 6 ==> NAMED_KEYS_AS_WRITTEN[j].0 != delete
    ensures forall j :: 0 <= j < 3 ==> NAMED_KEYS_AS_WRITTEN[j].0 != esc
    ensures forall j :: 0 <= j < 4 ==> NAMED_KEYS_AS_WRITTEN[j].0 != escape
  {
  }

  lemma PlusEntries(plus: string)
    requires plus == "+"
    ensures forall j :: 0 <= j < |NAMED_KEYS_SHIFT| ==> NAMED_KEYS_SHIFT[j].0 != plus
    ensures NAMED_KEYS_AS_WRITTEN[25] == (plus, 0x57) && forall j :: 0 <= j < 25 ==> NAMED_KEYS_AS_WRITTEN[j].0 != plus
  {
  }

  lemma ShiftedEntries(bang: string, question: string)
    requires bang == "!" && question == "?"
    ensures NAMED_KEYS_SHIFT[0] == (bang, Keycode(0x1E, HID_MOD_SHIFT))
    ensures NAMED_KEYS_SHIFT[18] == (question, Keycode(0x38, HID_MOD_SHIFT))
    ensures forall j :: 0 <= j < 18 ==> NAMED_KEYS_SHIFT[j].0 != question
  {
  }

  lemma ArrowEntriesAsWritten(up: string, right: string)
    requires up == "UP" && right == "RIGHT"
    ensures NAMED_KEYS_AS_WRITTEN[7] == (up, 0x53) && NAMED_KEYS_AS_WRITTEN[10] == (right, 0x52)
    ensures forall j :: 0 <= j < 7 ==> NAMED_KEYS_AS_WRITTEN[j].0 != up
    ensures forall j :: 0 <= j < 10 ==> NAMED_KEYS_AS_WRITTEN[j].0 != right
  {
  }

  lemma ArrowEntries(up: string, down: string, left: string, right: string)
    requires up == "UP" && down == "DOWN" && left == "LEFT" && right == "RIGHT"
    ensures NAMED_KEYS[7] == (up, 0x52) && NAMED_KEYS[8] == (down, 0x51)
    ensures NAMED_KEYS[9] == (left, 0x50) && NAMED_KEYS[10] == (right, 0x4F)
    ensures forall j :: 0 <= j < 7 ==> NAMED_KEYS[j].0 != up
    ensures forall j :: 0 <= j < 8 ==> NAMED_KEYS[j].0 != down
    ensures forall j :: 0 <= j < 9 ==> NAMED_KEYS[j].0 != left
    ensures forall j :: 0 <= j < 10 ==> NAMED_KEYS[j].0 != right
  {
  }

  // The properties of the firmware's lookup.

  /** The empty symbol has no key. */
  lemma EmptySymbolFails()
    ensures KeycodeAndModifierAsWritten("").None? && GetKeycode("") == 0
  {
  }

  /** A symbol is typed with Shift exactly when it is in the shift table or is one upper-case letter. */
  lemma ShiftedExactly(symbol: string)
    ensures (KeycodeAndModifierAsWritten(symbol).Some? && KeycodeAndModifierAsWritten(symbol).value.modifier == HID_MOD_SHIFT) <==>
      (exists i :: 0 <= i < |NAMED_KEYS_SHIFT| && NAMED_KEYS_SHIFT[i].0 == symbol)
      || (|symbol| == 1 && 'A' <= symbol[0] <= 'Z')
  {
    ShiftEntries();
    NamedEntriesAsWritten();
    ShiftedExactlyIn(NAMED_KEYS_SHIFT, NAMED_KEYS_AS_WRITTEN, symbol);
  }

  /** Named keys: Enter, Delete and the two names of Escape. */
  lemma NamedKeyExamples(enter: string, delete: string, esc: string, escape: string)
    requires enter == "ENTER" && delete == "DELETE" && esc == "ESC" && escape == "ESCAPE"
    ensures KeycodeAndModifierAsWritten(enter) == Some(Keycode(0x28, 0))
    ensures KeycodeAndModifierAsWritten(delete) == Some(Keycode(0x4C, 0))
    ensures KeycodeAndModifierAsWritten(esc) == KeycodeAndModifierAsWritten(escape) == Some(Keycode(0x29, 0))
  {
    NamedKeyEntries(enter, delete, esc, escape);
    NamedEntry(NAMED_KEYS_AS_WRITTEN, enter, 0, 0x28);
    NamedEntry(NAMED_KEYS_AS_WRITTEN, delete, 6, 0x4C);
    NamedEntry(NAMED_KEYS_AS_WRITTEN, esc, 3, 0x29);
    NamedEntry(NAMED_KEYS_AS_WRITTEN, escape, 4, 0x29);
  }

  /** '+' is not in the shift table: it is typed as the keypad plus, unshifted. */
  lemma PlusIsKeypadPlus(plus: string)
    requires plus == "+"
    ensures KeycodeAndModifierAsWritten(plus) == Some(Keycode(0x57, 0))
  {
    PlusEntries(plus);
    PunctuationEntry(NAMED_KEYS_SHIFT, NAMED_KEYS_AS_WRITTEN, plus, 25, 0x57);
  }

  /** Shifted symbols: '!' is Shift with the key of 1, '?' Shift with the key of '/'. */
  lemma ShiftedExamples(bang: string, question: string)
    requires bang == "!" && question == "?"
    ensures KeycodeAndModifierAsWritten(bang) == Some(Keycode(0x1E, HID_MOD_SHIFT))
    ensures KeycodeAndModifierAsWritten(question) == Some(Keycode(0x38, HID_MOD_SHIFT))
  {
    ShiftedEntries(bang, question);
    ShiftEntry(NAMED_KEYS_SHIFT, NAMED_KEYS_AS_WRITTEN, bang, 0, Keycode(0x1E, HID_MOD_SHIFT));
    ShiftEntry(NAMED_KEYS_SHIFT, NAMED_KEYS_AS_WRITTEN, question, 18, Keycode(0x38, HID_MOD_SHIFT));
  }

  /** A letter is its usage from 0x04 on, with Shift when upper-case; a space is the space bar. */
  lemma LetterLookup(c: char)
    requires IsLetter(c) || c == ' '
    ensures 'a' <= c <= 'z' ==> KeycodeAndModifierAsWritten([c]) == Some(Keycode((0x04 + c as int - 'a' as int) as byte, 0))
    ensures 'A' <= c <= 'Z' ==> KeycodeAndModifierAsWritten([c]) == Some(Keycode((0x04 + c as int - 'A' as int) as byte, 0x02))
    ensures c == ' ' ==> KeycodeAndModifierAsWritten([c]) == Some(Keycode(HID_KB_SPACE, 0))
  {
    ShiftEntries();
    NamedEntriesAsWritten();
    LetterLookupIn(NAMED_KEYS_SHIFT, NAMED_KEYS_AS_WRITTEN, c);
  }

  /** Digits are found in the named table, with the usage the digit branch would give: that branch never runs. */
  lemma DigitBranchDead(c: char)
    requires '0' <= c <= '9'
    ensures FindSymbol(NAMED_KEYS_AS_WRITTEN, [c]).Some?
    ensures KeycodeAndModifierAsWritten([c]) == SingleChar(c) == Some(Keycode(DigitCode(c), 0))
  {
    ShiftEntries();
    NamedEntriesAsWritten();
    DigitsNamedAsWritten();
    DigitLookupIn(NAMED_KEYS_SHIFT, NAMED_KEYS_AS_WRITTEN, c);
  }

  /** A symbol has no key exactly when it is in neither table and is not one letter or a space. */
  lemma LookupFailsExactly(symbol: string)
    ensures KeycodeAndModifierAsWritten(symbol).None? <==>
      (forall i :: 0 <= i < |NAMED_KEYS_SHIFT| ==> NAMED_KEYS_SHIFT[i].0 != symbol)
      && (forall i :: 0 <= i < |NAMED_KEYS_AS_WRITTEN| ==> NAMED_KEYS_AS_WRITTEN[i].0 != symbol)
      && !(|symbol| == 1 && (IsLetter(symbol[0]) || symbol[0] == ' '))
  {
    ShiftEntries();
    NamedEntriesAsWritten();
    DigitsNamedAsWritten();
    LookupFailsExactlyIn(NAMED_KEYS_SHIFT, NAMED_KEYS_AS_WRITTEN, symbol);
  }

  /** Every key found is a usage from 0x04 to 0x57, with no modifier or with Shift. */
  lemma LookupRange(symbol: string)
    ensures KeycodeAndModifierAsWritten(symbol).Some? ==>
      0x04 <= KeycodeAndModifierAsWritten(symbol).value.code <= 0x57
      && KeycodeAndModifierAsWritten(symbol).value.modifier in {0, HID_MOD_SHIFT}
  {
    ShiftEntries();
    NamedEntriesAsWritten();
    LookupRangeIn(NAMED_KEYS_SHIFT, NAMED_KEYS_AS_WRITTEN, symbol);
  }

  /** The firmware's Right sends the usage of Up Arrow, and its Up the usage of Keypad Num Lock. */
  lemma ArrowCodesAsWritten(up: string, right: string)
    requires up == "UP" && right == "RIGHT"
    ensures KeycodeAndModifierAsWritten(right) == Some(Keycode(HID_KB_UP, 0))
    ensures KeycodeAndModifierAsWritten(up) == Some(Keycode(0x53, 0))
    ensures KeycodeAndModifierAsWritten(up).value.code !in {HID_KB_RIGHT, HID_KB_LEFT, HID_KB_DOWN, HID_KB_UP}
  {
    ArrowEntriesAsWritten(up, right);
    NamedEntry(NAMED_KEYS_AS_WRITTEN, right, 10, 0x52);
    NamedEntry(NAMED_KEYS_AS_WRITTEN, up, 7, 0x53);
  }

  /** The four arrows send the four arrow usages, each its own. */
  lemma ArrowCodes(up: string, down: string, left: string, right: string)
    requires up == "UP" && down == "DOWN" && left == "LEFT" && right == "RIGHT"
    ensures KeycodeAndModifier(right) == Some(Keycode(0x4F, 0))
    ensures KeycodeAndModifier(left) == Some(Keycode(0x50, 0))
    ensures KeycodeAndModifier(down) == Some(Keycode(0x51, 0))
    ensures KeycodeAndModifier(up) == Some(Keycode(0x52, 0))
  {
    ArrowEntries(up, down, left, right);
    NamedEntry(NAMED_KEYS, up, 7, 0x52);
    NamedEntry(NAMED_KEYS, down, 8, 0x51);
    NamedEntry(NAMED_KEYS, left, 9, 0x50);
    NamedEntry(NAMED_KEYS, right, 10, 0x4F);
  }

  lemma AgreesIn(shift: seq<(string, Keycode)>, a: seq<(string, byte)>, b: seq<(string, byte)>, symbol: string)
    requires |a| == |b| && forall i :: 0 <= i < |a| ==> a[i].0 == b[i].0
    requires forall i :: 0 <= i < |a| && a[i].0 == symbol ==> a[i].1 == b[i].1
    ensures LookupIn(shift, a, symbol) == LookupIn(shift, b, symbol)
  {
    FindFromSameSymbols(a, b, symbol, 0);
    FindSymbolSpec(a, symbol);
    if |symbol| == 0 {
    } else if FindSymbol(shift, symbol).Some? {
      ShiftHit(shift, a, symbol, FindSymbol(shift, symbol).value);
      ShiftHit(shift, b, symbol, FindSymbol(shift, symbol).value);
    } else if FindSymbol(a, symbol).Some? {
      NamedHit(shift, a, symbol, FindSymbol(a, symbol).value);
      NamedHit(shift, b, symbol, FindSymbol(a, symbol).value);
    } else {
      TablesMiss(shift, a, symbol);
      TablesMiss(shift, b, symbol);
    }
  }

  /** Apart from Up and Right the firmware's lookup is the corrected one. */
  lemma AsWrittenAgrees(symbol: string)
    requires symbol != "UP" && symbol != "RIGHT"
    ensures KeycodeAndModifierAsWritten(symbol) == KeycodeAndModifier(symbol)
  {
    NamedTablesAlike();
    AgreesIn(NAMED_KEYS_SHIFT, NAMED_KEYS_AS_WRITTEN, NAMED_KEYS, symbol);
  }

  /** One table loop of `getKeycodeAndModifier`: the first entry holding the symbol. */
  method FindEntry<T>(table: seq<(string, T)>, symbol: string) returns (found: Option<nat>)
    ensures found == FindSymbol(table, symbol)
  {
    for i := 0 to |table|
      invariant forall j :: 0 <= j < i ==> table[j].0 != symbol
    {
      if symbol == table[i].0 {
        FindSymbolAt(table, symbol, i);
        return Some(i);
      }
    }
    FindSymbolSpec(table, symbol);
    return None;
  }

  /**
   * `getKeycodeAndModifier(symbol, &out)`: the two table loops, then the
   * single-character tests. `found` is its result; `k` what `out` holds.
   */
  method GetKeycodeAndModifier(symbol: string) returns (found: bool, k: Keycode)
    ensures found <==> KeycodeAndModifierAsWritten(symbol).Some?
    ensures found ==> k == KeycodeAndModifierAsWritten(symbol).value
  {
    if |symbol| == 0 {
      return false, Keycode(0, 0);
    }
    k := Keycode(0, 0);
    var shifted := FindEntry(NAMED_KEYS_SHIFT, symbol);
    if shifted.Some? {
      ShiftHit(NAMED_KEYS_SHIFT, NAMED_KEYS_AS_WRITTEN, symbol, shifted.value);
      return true, NAMED_KEYS_SHIFT[shifted.value].1;
    }
    var named := FindEntry(NAMED_KEYS_AS_WRITTEN, symbol);
    if named.Some? {
      NamedHit(NAMED_KEYS_SHIFT, NAMED_KEYS_AS_WRITTEN, symbol, named.value);
      return true, Keycode(NAMED_KEYS_AS_WRITTEN[named.value].1, 0);
    }
    TablesMiss(NAMED_KEYS_SHIFT, NAMED_KEYS_AS_WRITTEN, symbol);
    if |symbol| == 1 {
      var c := symbol[0];
      if 'a' <= c <= 'z' {
        return true, Keycode(HID_KB_A + (c as int - 'a' as int) as byte, 0);
      }
      if 'A' <= c <= 'Z' {
        return true, Keycode(HID_KB_A + (c as int - 'A' as int) as byte, HID_MOD_SHIFT);
      }
      if '0' <= c <= '9' {
        return true, Keycode(DigitCode(c), 0);
      }
      if c == ' ' {
        return true, Keycode(HID_KB_SPACE, 0);
      }
    }
    found := false;
  }

  // ------------------------------------------------------------ reports

  /** What reaches a host: a BLE input report (set, then notified), or a USB key or consumer event. */
  datatype HidEvent =
    | BleReport(report: seq<byte>)
    | KeyPress(key: byte)
    | KeyRelease(key: byte)
    | ConsumerPress(usage: u16)
    | ConsumerRelease

  /** Where reports go: BLE when connected with an input characteristic, else the USB devices present. */
  datatype Link = Link(ble: bool, keyboard: bool, consumer: bool)

  /** The empty keyboard report of report id 1. */
  const KEY_RELEASE: seq<byte> := [0x01, 0x00, 0x00, 0x00, 0x00, 0x00, 0x00, 0x00, 0x00]
  /** The empty consumer report of report id 2. */
  const CONSUMER_RELEASE: seq<byte> := [0x02, 0x00, 0x00]

  function KeyReport(kc: byte, modifier: byte): seq<byte>
  {
    [0x01, modifier, 0x00, kc, 0x00, 0x00, 0x00, 0x00, 0x00]
  }

  predicate ShiftBit(modifier: byte)
  {
    (modifier as int / 2) % 2 == 1
  }

  /** The Arduino key code of a raw usage: `kc + 0x88` in a `uint8_t`. */
  function UsbCode(kc: byte): byte
  {
    ((kc as int + HID_USB_RAW_OFFSET) % 0x100) as byte
  }

  /** `_sendKeypadReport(kc, modifier)`. */
  function KeypadReport(link: Link, kc: byte, modifier: byte): (r: seq<HidEvent>)
    ensures |r| <= 5 && (r == [] <==> !link.ble && !link.keyboard)
  {
    if link.ble then
      [BleReport(KEY_RELEASE), BleReport(KeyReport(kc, modifier)),
       BleReport(KEY_RELEASE), BleReport(KEY_RELEASE), BleReport(KEY_RELEASE)]
    else if link.keyboard then
      var shift := if ShiftBit(modifier) then [KeyPress(USB_LEFT_SHIFT)] else [];
      var unshift := if ShiftBit(modifier) then [KeyRelease(USB_LEFT_SHIFT)] else [];
      shift + [KeyPress(UsbCode(kc)), KeyRelease(UsbCode(kc))] + unshift
    else []
  }

  /** The USB keys held down after `events`, starting from `held`. */
  function Held(held: set<byte>, events: seq<HidEvent>): set<byte>
    decreases |events|
  {
    if |events| == 0 then held
    else
      var e := events[0];
      var next := if e.KeyPress? then held + {e.key} else if e.KeyRelease? then held - {e.key} else held;
      Held(next, events[1..])
  }

  /** The first BLE report except the one of id 1 that carries the key; the last is the empty one. */
  lemma KeypadReportBle(kc: byte, modifier: byte, link: Link)
    requires link.ble
    ensures var r := KeypadReport(link, kc, modifier);
      |r| == 5
      && (forall i :: 0 <= i < |r| ==> r[i].BleReport? && (i != 1 ==> r[i].report == KEY_RELEASE))
      && r[1].report[3] == kc && r[1].report[1] == modifier
  {
  }

  /**
   * Over USB a key press leaves nothing held, and a shifted key is down
   * while the left shift is.
   */
  lemma KeypadReportBalanced(kc: byte, modifier: byte, link: Link)
    requires !link.ble && link.keyboard
    ensures Held({}, KeypadReport(link, kc, modifier)) == {}
    ensures ShiftBit(modifier) ==> Held({}, KeypadReport(link, kc, modifier)[..2]) == {USB_LEFT_SHIFT, UsbCode(kc)}
    ensures !ShiftBit(modifier) ==> KeypadReport(link, kc, modifier)[0] == KeyPress(UsbCode(kc))
  {
    var u := UsbCode(kc);
    var r := KeypadReport(link, kc, modifier);
    var press, release := KeyPress(u), KeyRelease(u);
    if ShiftBit(modifier) {
      var shift, unshift := KeyPress(USB_LEFT_SHIFT), KeyRelease(USB_LEFT_SHIFT);
      assert r == [shift, press, release, unshift];
      assert r[..2] == [shift, press];
      if u == USB_LEFT_SHIFT {
        assert {USB_LEFT_SHIFT, u} - {u} == {};
      } else {
        assert {USB_LEFT_SHIFT, u} - {u} == {USB_LEFT_SHIFT};
      }
      assert {USB_LEFT_SHIFT} - {USB_LEFT_SHIFT} == {} - {USB_LEFT_SHIFT} == {};
      assert {} + {USB_LEFT_SHIFT} == {USB_LEFT_SHIFT};
      assert {USB_LEFT_SHIFT} + {u} == {USB_LEFT_SHIFT, u};
      assert Held({USB_LEFT_SHIFT, u}, [release, unshift]) == Held({USB_LEFT_SHIFT}, [unshift]) == {} by {
        assert [release, unshift][1..] == [unshift];
        assert [unshift][1..] == [];
      }
      assert Held({}, r) == Held({USB_LEFT_SHIFT}, [press, release, unshift]) by {
        assert r[1..] == [press, release, unshift];
      }
      assert Held({USB_LEFT_SHIFT}, [press, release, unshift]) == Held({USB_LEFT_SHIFT, u}, [release, unshift]) by {
        assert [press, release, unshift][1..] == [release, unshift];
      }
      assert Held({}, [shift, press]) == Held({USB_LEFT_SHIFT}, [press]) == Held({USB_LEFT_SHIFT, u}, []) by {
        assert [shift, press][1..] == [press];
        assert [press][1..] == [];
      }
    } else {
      assert r == [press, release];
      assert {} + {u} == {u} && {u} - {u} == {};
      assert Held({}, r) == Held({u}, [release]) == Held({}, []) by {
        assert r[1..] == [release];
        assert [release][1..] == [];
      }
    }
  }

  /** Every key the lookup gives reaches the Arduino keyboard as the raw usage, without wrapping. */
  lemma UsbCodeRaw(symbol: string)
    requires KeycodeAndModifierAsWritten(symbol).Some?
    ensures UsbCode(KeycodeAndModifierAsWritten(symbol).value.code) as int == KeycodeAndModifierAsWritten(symbol).value.code as int + 0x88
  {
    LookupRange(symbol);
    UsbCodeNoWrap(KeycodeAndModifierAsWritten(symbol).value.code);
  }

  /** A usage up to 0x57 plus the raw offset stays below 256. */
  lemma UsbCodeNoWrap(kc: byte)
    requires kc <= 0x57
    ensures UsbCode(kc) as int == kc as int + 0x88
  {
  }

  /** The BLE key standing for a consumer volume usage; 0 for any other usage. */
  function VolumeKey(code: u16, volUp: byte, volDown: byte, mute: byte): byte
  {
    if code == CONSUMER_VOL_UP then volUp
    else if code == CONSUMER_VOL_DOWN then volDown
    else if code == CONSUMER_MUTE then mute
    else 0
  }

  /** What a consumer report sends, and the new time of the last BLE volume step. */
  datatype Sent = Sent(events: seq<HidEvent>, lastVolume: u32)

  /**
   * `_sendConsumerReport(code)`: over BLE a volume usage becomes a keyboard
   * key, sent at most once per `stepDelay` ms; any other usage is a consumer
   * report (low byte, high byte) and its release. Over USB it is a press and
   * a release of the consumer-control device.
   */
  function ConsumerReport(link: Link, volUp: byte, volDown: byte, mute: byte, stepDelay: u32,
                          last: u32, code: u16, now: u32): (s: Sent)
    ensures |s.events| <= 5
    ensures s.lastVolume != last ==> s.lastVolume == now && link.ble && s.events != []
  {
    if link.ble then
      var kc := VolumeKey(code, volUp, volDown, mute);
      if kc != 0 then
        if ElapsedU32(now, last) < stepDelay then Sent([], last)
        else Sent(KeypadReport(link, kc, 0), now)
      else
        Sent([BleReport([0x02, (code % 0x100) as byte, (code / 0x100) as byte]), BleReport(CONSUMER_RELEASE)], last)
    else if link.consumer then Sent([ConsumerPress(code), ConsumerRelease], last)
    else Sent([], last)
  }

  /** A consumer report over BLE carries the usage, low byte first, and is followed by the empty report. */
  lemma ConsumerReportEncodes(link: Link, volUp: byte, volDown: byte, mute: byte, stepDelay: u32, last: u32, code: u16, now: u32)
    requires link.ble && VolumeKey(code, volUp, volDown, mute) == 0
    ensures var r := ConsumerReport(link, volUp, volDown, mute, stepDelay, last, code, now).events;
      |r| == 2 && r[0].BleReport? && |r[0].report| == 3 && r[0].report[0] == 0x02
      && r[0].report[1] as int + 0x100 * r[0].report[2] as int == code
      && r[1] == BleReport(CONSUMER_RELEASE)
  {
  }

  /**
   * Two BLE volume steps closer than `stepDelay` ms: the second sends
   * nothing and leaves the time of the last step as it was.
   */
  lemma VolumeStepsSpaced(link: Link, volUp: byte, volDown: byte, mute: byte, stepDelay: u32,
                          last: u32, code1: u16, t1: u32, code2: u16, t2: u32)
    requires link.ble && VolumeKey(code1, volUp, volDown, mute) != 0 && VolumeKey(code2, volUp, volDown, mute) != 0
    requires ConsumerReport(link, volUp, volDown, mute, stepDelay, last, code1, t1).events != []
    requires ElapsedU32(t2, t1) < stepDelay
    ensures var s1 := ConsumerReport(link, volUp, volDown, mute, stepDelay, last, code1, t1);
      s1.lastVolume == t1
      && ConsumerReport(link, volUp, volDown, mute, stepDelay, s1.lastVolume, code2, t2) == Sent([], t1)
  {
  }

  /** Where `sendKey` sends a symbol. */
  datatype Route = Ignored | Consumer(usage: u16) | Keypad(key: Keycode) | Unmapped

  function SendKeyRoute(symbol: string): (rt: Route)
    ensures rt.Keypad? ==> KeycodeAndModifierAsWritten(symbol) == Some(rt.key) && rt.key.code > 0
    ensures rt.Consumer? ==> rt.usage in {CONSUMER_VOL_UP, CONSUMER_VOL_DOWN, CONSUMER_MUTE, CONSUMER_PREV, CONSUMER_NEXT, CONSUMER_PLAY_PAUSE}
  {
    if symbol == "PROFILE" then Ignored
    else if symbol == "VOL_UP" then Consumer(CONSUMER_VOL_UP)
    else if symbol == "VOL_DOWN" then Consumer(CONSUMER_VOL_DOWN)
    else if symbol == "MUTE" then Consumer(CONSUMER_MUTE)
    else if symbol == "Prev" then Consumer(CONSUMER_PREV)
    else if symbol == "Next" then Consumer(CONSUMER_NEXT)
    else if symbol == "Select" then Consumer(CONSUMER_PLAY_PAUSE)
    else match KeycodeAndModifierAsWritten(symbol)
      case Some(k) => if k.code > 0 then Keypad(k) else Unmapped
      case None => Unmapped
  }

  /** The keys that do not repeat are exactly the profile key and the media keys. */
  lemma RepeatExactlyKeys(symbol: string)
    ensures !KeyShouldRepeat(symbol) <==> SendKeyRoute(symbol).Ignored? || SendKeyRoute(symbol).Consumer?
  {
  }

  /** A repeating symbol is sent as the key the lookup gives, and exactly when there is one. */
  lemma RepeatingKeysTyped(symbol: string)
    requires KeyShouldRepeat(symbol)
    ensures SendKeyRoute(symbol).Keypad? <==> KeycodeAndModifierAsWritten(symbol).Some?
    ensures SendKeyRoute(symbol).Keypad? ==> SendKeyRoute(symbol).key == KeycodeAndModifierAsWritten(symbol).value
  {
    LookupRange(symbol);
  }

  /**
   * The HID output of the keypad. `lastBleVolSent` is the function-local
   * static of `_sendConsumerReport`; the keyboard keys standing for BLE
   * volume steps and the step delay are build-time values the model takes
   * as parameters. `sent` is what has reached the hosts.
   */
  class HidOutput {
    var keyboardPresent: bool
    var consumerPresent: bool
    var bleConnected: bool
    var inputPresent: bool
    var lastBleVolSent: u32
    var sent: seq<HidEvent>
    const volUpKey: byte
    const volDownKey: byte
    const muteKey: byte
    const stepDelay: u32

    function Route(): Link
      reads this
    {
      Link(bleConnected && inputPresent, keyboardPresent, consumerPresent)
    }

    constructor(volUpKey: byte, volDownKey: byte, muteKey: byte, stepDelay: u32)
      ensures !keyboardPresent && !consumerPresent && !bleConnected && !inputPresent
      ensures lastBleVolSent == 0 && sent == []
      ensures this.volUpKey == volUpKey && this.volDownKey == volDownKey && this.muteKey == muteKey
      ensures this.stepDelay == stepDelay
    {
      this.volUpKey := volUpKey;
      this.volDownKey := volDownKey;
      this.muteKey := muteKey;
      this.stepDelay := stepDelay;
      keyboardPresent := false;
      consumerPresent := false;
      bleConnected := false;
      inputPresent := false;
      lastBleVolSent := 0;
      sent := [];
    }

    /** `begin(keyboard, consumer)`: the USB devices, present or null. */
    method Begin(keyboard: bool, consumer: bool)
      modifies this
      ensures keyboardPresent == keyboard && consumerPresent == consumer
      ensures bleConnected == old(bleConnected) && inputPresent == old(inputPresent)
      ensures lastBleVolSent == old(lastBleVolSent) && sent == old(sent)
    {
      keyboardPresent := keyboard;
      consumerPresent := consumer;
    }

    /** `setBleState(connected, pInput)`. */
    method SetBleState(connected: bool, input: bool)
      modifies this
      ensures bleConnected == connected && inputPresent == input
      ensures keyboardPresent == old(keyboardPresent) && consumerPresent == old(consumerPresent)
      ensures lastBleVolSent == old(lastBleVolSent) && sent == old(sent)
    {
      bleConnected := connected;
      inputPresent := input;
    }

    /** `_sendKeypadReport(kc, modifier)`. */
    method SendKeypadReport(kc: byte, modifier: byte)
      modifies this
      ensures sent == old(sent) + KeypadReport(Route(), kc, modifier)
      ensures Route() == old(Route()) && lastBleVolSent == old(lastBleVolSent)
    {
      if bleConnected && inputPresent {
        sent := sent + [BleReport(KEY_RELEASE)];
        sent := sent + [BleReport(KeyReport(kc, modifier))];
        var releases := [];
        for i := 0 to 3
          invariant releases == seq(i, _ => BleReport(KEY_RELEASE))
        {
          releases := releases + [BleReport(KEY_RELEASE)];
        }
        assert releases == [BleReport(KEY_RELEASE), BleReport(KEY_RELEASE), BleReport(KEY_RELEASE)];
        sent := sent + releases;
      } else if keyboardPresent {
        var shift := ShiftBit(modifier);
        if shift {
          sent := sent + [KeyPress(USB_LEFT_SHIFT)];
        }
        var usbCode := UsbCode(kc);
        sent := sent + [KeyPress(usbCode)];
        sent := sent + [KeyRelease(usbCode)];
        if shift {
          sent := sent + [KeyRelease(USB_LEFT_SHIFT)];
        }
      }
    }

    /** `_sendConsumerReport(code)` at time `now` (the `millis()` of the call). */
    method SendConsumerReport(code: u16, now: u32)
      modifies this
      ensures var s := ConsumerReport(old(Route()), volUpKey, volDownKey, muteKey, stepDelay, old(lastBleVolSent), code, now);
        sent == old(sent) + s.events && lastBleVolSent == s.lastVolume
      ensures Route() == old(Route())
    {
      if bleConnected && inputPresent {
        var kc: byte := 0;
        if code == CONSUMER_VOL_UP {
          kc := volUpKey;
        } else if code == CONSUMER_VOL_DOWN {
          kc := volDownKey;
        } else if code == CONSUMER_MUTE {
          kc := muteKey;
        }
        if kc != 0 {
          if ElapsedU32(now, lastBleVolSent) < stepDelay {
            return;
          }
          lastBleVolSent := now;
          SendKeypadReport(kc, 0);
          return;
        }
        sent := sent + [BleReport([0x02, (code % 0x100) as byte, (code / 0x100) as byte])];
        sent := sent + [BleReport(CONSUMER_RELEASE)];
      } else if consumerPresent {
        sent := sent + [ConsumerPress(code)];
        sent := sent + [ConsumerRelease];
      }
    }

    /** `sendKey(symbol, row, col)` at time `now`; the row and column are not used. */
    method SendKey(symbol: string, now: u32)
      modifies this
      ensures SendKeyRoute(symbol).Ignored? || SendKeyRoute(symbol).Unmapped? ==>
        sent == old(sent) && lastBleVolSent == old(lastBleVolSent)
      ensures SendKeyRoute(symbol).Keypad? ==>
        sent == old(sent) + KeypadReport(old(Route()), SendKeyRoute(symbol).key.code, SendKeyRoute(symbol).key.modifier)
        && lastBleVolSent == old(lastBleVolSent)
      ensures SendKeyRoute(symbol).Consumer? ==>
        var s := ConsumerReport(old(Route()), volUpKey, volDownKey, muteKey, stepDelay, old(lastBleVolSent),
                                SendKeyRoute(symbol).usage, now);
        sent == old(sent) + s.events && lastBleVolSent == s.lastVolume
      ensures Route() == old(Route())
    {
      if symbol == "PROFILE" {
        return;
      }
      if symbol == "VOL_UP" {
        SendConsumerReport(CONSUMER_VOL_UP, now);
        return;
      }
      if symbol == "VOL_DOWN" {
        SendConsumerReport(CONSUMER_VOL_DOWN, now);
        return;
      }
      if symbol == "MUTE" {
        SendConsumerReport(CONSUMER_MUTE, now);
        return;
      }
      if symbol == "Prev" {
        SendConsumerReport(CONSUMER_PREV, now);
        return;
      }
      if symbol == "Next" {
        SendConsumerReport(CONSUMER_NEXT, now);
        return;
      }
      if symbol == "Select" {
        SendConsumerReport(CONSUMER_PLAY_PAUSE, now);
        return;
      }
      var found, k := GetKeycodeAndModifier(symbol);
      if found && k.code > 0 {
        SendKeypadReport(k.code, k.modifier);
      }
    }
  }
}
