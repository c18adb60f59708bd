/**
 * The key-pad side of firmware/esp32_micropython/main.py: the keymap the
 * web page configures (`handle_config_message`, `send_config_to_web`), the
 * LED back-light (`set_led_brightness`, `handle_backlight_message`), the
 * routing of web messages (`process_web_message`), the debounced matrix
 * scan (`scan_matrix`) and the rotary encoder (`handle_encoder`).
 * The firmware's globals are the fields of one `Keypad` object.
 */
module PyKeypad {
  import opened Common
  import opened PySerial

  const MATRIX_ROWS: nat := 5
  const MATRIX_COLS: nat := 4
  /** The number of keys, MATRIX_ROWS * MATRIX_COLS. */
  const CELLS: nat := 20
  const DEBOUNCE_MS: int := 30

  // ------------------------------------------------------ MicroPython ticks

  /** `time.ticks_ms()` counts modulo 2^30. */
  const TICKS_PERIOD: int := 0x4000_0000
  const TICKS_HALF: int := 0x2000_0000
  type Ticks = x: int | 0 <= x < 0x4000_0000

  /** `time.ticks_diff(a, b)`: the signed distance from b to a, wrapped into [-2^29, 2^29). */
  function TicksDiff(a: Ticks, b: Ticks): (d: int)
    ensures -TICKS_HALF <= d < TICKS_HALF
    ensures (d - (a - b)) % TICKS_PERIOD == 0
  {
    (a - b + TICKS_HALF) % TICKS_PERIOD - TICKS_HALF
  }

  /** Across less than half a period the wrapped distance is the real one, also when the counter wrapped. */
  lemma TicksDiffElapsed(a: Ticks, b: Ticks, elapsed: int)
    requires -TICKS_HALF <= elapsed < TICKS_HALF
    requires (a - b - elapsed) % TICKS_PERIOD == 0
    ensures TicksDiff(a, b) == elapsed
  {
    var d := TicksDiff(a, b);
    assert (d - elapsed) % TICKS_PERIOD == 0;
    assert -TICKS_PERIOD < d - elapsed < TICKS_PERIOD;
  }

  // ------------------------------------------------------ Python values

  /** Python truthiness of a decoded JSON value. */
  predicate Truthy(j: Json)
  {
    match j
    case JNull => false
    case JBool(b) => b
    case JNum(n) => n != 0
    case JStr(s) => s != ""
    case JArr(items) => items != []
    case JObj(members) => members != []
  }

  /** A character of the digit run MicroPython's integer parser reads in base 10. */
  predicate IsDigitOrUnderscore(c: char)
  {
    IsDigit(c) || c == '_'
  }

  predicate DigitRun(s: string)
  {
    forall i :: 0 <= i < |s| ==> IsDigitOrUnderscore(s[i])
  }

  /** The digits of a digit run, its underscores dropped. */
  function Unscored(s: string): (d: string)
    requires DigitRun(s)
    ensures AllDigits(d) && |d| <= |s|
    ensures '_' !in s ==> d == s
    decreases |s|
  {
    if |s| == 0 then ""
    else if s[0] == '_' then Unscored(s[1..])
    else [s[0]] + Unscored(s[1..])
  }

  /**
   * `int(s)` on a string, as MicroPython's `mp_parse_num_integer` reads it
   * in base 10: surrounding white space ignored, an optional sign, then a
   * non-empty run of ASCII digits in which every `_` is skipped, and
   * nothing else; anything else raises ValueError (None here).
   */
  function PyInt(s: string): (r: Option<int>)
    ensures r.Some? ==> exists c :: c in s && IsDigitOrUnderscore(c)
    ensures r.Some? && '_' !in s ==> exists c :: c in s && IsDigit(c)
  {
    var t := Strip(s);
    var neg := |t| > 0 && t[0] == '-';
    var body := if |t| > 0 && (t[0] == '-' || t[0] == '+') then t[1..] else t;
    if |body| == 0 || !DigitRun(body) then None
    else
      assert body[0] in s by { StripSlice(s); }
      var v := DecimalValue(Unscored(body));
      Some(if neg then -(v as int) else v)
  }

  /** A run of digits and underscores reads as the number its digits spell. */
  lemma PyIntDigitRun(d: string)
    requires |d| > 0 && DigitRun(d)
    ensures PyInt(d) == Some(DecimalValue(Unscored(d)))
  {
    assert !IsPySpace(d[0]);
    assert StripStart(d) == d;
    assert !IsPySpace(d[|d| - 1]);
    assert StripEnd(d) == d;
    assert IsDigitOrUnderscore(d[0]);
  }

  /** A string of digits reads as the number it spells. */
  lemma PyIntDigits(d: string)
    requires |d| > 0 && AllDigits(d)
    ensures PyInt(d) == Some(DecimalValue(d))
  {
    assert DigitRun(d);
    assert '_' !in d by {
      forall i | 0 <= i < |d| ensures d[i] != '_' { assert IsDigit(d[i]); }
    }
    PyIntDigitRun(d);
  }

  /** "0_1" reads as 1: the underscore is skipped. */
  lemma PyIntUnderscored()
    ensures PyInt("0_1") == Some(1)
  {
    PyIntDigitRun("0_1");
    assert Unscored("0_1") == "01" by {
      assert "0_1"[1..] == "_1" && "_1"[1..] == "1" && "1"[1..] == "";
    }
    assert DecimalValue("01") == 1 by { assert "01"[..1] == "0"; assert "0"[..0] == ""; }
  }

  /**
   * A key id made of two digit runs names the cell their digits spell:
   * `int()` skips an underscore among the digits, so "0_1-2" names cell
   * (1, 2) like "1-2".
   */
  lemma KeyCellDigitRuns(a: string, b: string)
    requires |a| > 0 && |b| > 0 && DigitRun(a) && DigitRun(b)
    requires DecimalValue(Unscored(a)) < MATRIX_ROWS && DecimalValue(Unscored(b)) < MATRIX_COLS
    ensures KeyCell(a + "-" + b) == Some((DecimalValue(Unscored(a)), DecimalValue(Unscored(b))))
  {
    assert '-' !in a && '-' !in b by {
      assert !IsDigitOrUnderscore('-');
    }
    NoSeparator(a, '-');
    PiecesSnocOne(a, b, '-');
    assert a + "-" + b == a + ['-'] + b;
    PyIntDigitRun(a);
    PyIntDigitRun(b);
  }

  /** A number written in decimal reads back as itself. */
  lemma PyIntDecimal(n: nat)
    ensures PyInt(DecimalDigits(n)) == Some(n)
  {
    PyIntDigits(DecimalDigits(n));
    DecimalRoundTrip(n);
  }

  // ------------------------------------------------------ the keymap

  /** `KEYMAP`: five rows of four cells; a cell is a key value or `None`. */
  type Keymap = seq<seq<Option<Json>>>

  predicate WellShaped<T>(grid: seq<seq<T>>)
  {
    |grid| == MATRIX_ROWS && forall r :: 0 <= r < |grid| ==> |grid[r]| == MATRIX_COLS
  }

  /** The configuration handler only ever stores truthy values. */
  predicate CellsTruthy(km: Keymap)
  {
    forall r, c :: 0 <= r < |km| && 0 <= c < |km[r]| && km[r][c].Some? ==> Truthy(km[r][c].value)
  }

  function Sym(s: string): Option<Json>
  {
    Some(JStr(s))
  }

  /** The keymap the firmware starts with. */
  function InitialKeymap(): (km: Keymap)
    ensures WellShaped(km) && CellsTruthy(km)
  {
    [[Sym("PROFILE"), Sym("/"), Sym("*"), Sym("-")],
     [Sym("7"), Sym("8"), Sym("9"), Sym("+")],
     [Sym("4"), Sym("5"), Sym("6"), None],
     [Sym("1"), Sym("2"), Sym("3"), Sym("=")],
     [Sym("0"), Sym("."), None, None]]
  }

  /**
   * The cell a key id names: `row, col = map(int, key_id.split("-"))`
   * followed by the range check; None when the split does not give two
   * integers or the cell is outside the matrix.
   */
  function KeyCell(id: string): (r: Option<(nat, nat)>)
    ensures r.Some? ==> r.value.0 < MATRIX_ROWS && r.value.1 < MATRIX_COLS
  {
    var parts := Pieces(id, '-');
    if |parts| != 2 then None
    else
      var row, col := PyInt(parts[0]), PyInt(parts[1]);
      if row.None? || col.None? then None
      else if 0 <= row.value < MATRIX_ROWS as int && 0 <= col.value < MATRIX_COLS as int then
        Some((row.value as nat, col.value as nat))
      else None
  }

  /** What a key entry stores: its truthy `value`, else `None`. */
  function CellValue(cfg: Json): Option<Json>
    requires cfg.JObj?
  {
    var value := Lookup(cfg.members, "value");
    if value.Some? && Truthy(value.value) then value else None
  }

  /** An entry that is applied: its id names a cell and its configuration is an object. */
  predicate Targets(entry: (string, Json), r: nat, c: nat)
  {
    KeyCell(entry.0) == Some((r, c)) && entry.1.JObj?
  }

  /** One pass of the `for key_id, key_config in keys.items()` loop; a failing entry changes nothing. */
  function ApplyEntry(km: Keymap, entry: (string, Json)): Keymap
    requires WellShaped(km)
  {
    var cell := KeyCell(entry.0);
    if cell.None? || !entry.1.JObj? then km
    else
      var (r, c) := cell.value;
      km[r := km[r][c := CellValue(entry.1)]]
  }

  /** The whole loop over the entries, in order. */
  function ApplyKeys(km: Keymap, entries: seq<(string, Json)>): (r: Keymap)
    requires WellShaped(km)
    ensures WellShaped(r)
    decreases |entries|
  {
    if |entries| == 0 then km
    else ApplyEntry(ApplyKeys(km, entries[..|entries| - 1]), entries[|entries| - 1])
  }

  /** One entry changes at most the cell it targets, and sets it to the entry's value. */
  lemma ApplyEntryCell(km: Keymap, entry: (string, Json), r: nat, c: nat)
    requires WellShaped(km) && r < MATRIX_ROWS && c < MATRIX_COLS
    ensures |ApplyEntry(km, entry)| == MATRIX_ROWS && |ApplyEntry(km, entry)[r]| == MATRIX_COLS
    ensures ApplyEntry(km, entry)[r][c] == if Targets(entry, r, c) then CellValue(entry.1) else km[r][c]
  {
    var cell := KeyCell(entry.0);
    if cell.Some? && entry.1.JObj? {
      var (r', c') := cell.value;
      var row := km[r'][c' := CellValue(entry.1)];
      assert ApplyEntry(km, entry) == km[r' := row];
      if (r', c') == (r, c) {
        assert Targets(entry, r, c);
      } else {
        assert !Targets(entry, r, c);
      }
    } else {
      assert ApplyEntry(km, entry) == km;
      assert !Targets(entry, r, c);
    }
  }

  /** Which entries target cell (r, c). */
  function TargetFlags(entries: seq<(string, Json)>, r: nat, c: nat): (f: seq<bool>)
    ensures |f| == |entries|
  {
    seq(|entries|, i requires 0 <= i < |entries| => Targets(entries[i], r, c))
  }

  /** The index of the last set flag. */
  function LastSet(flags: seq<bool>): (k: Option<nat>)
    ensures k.None? <==> forall i :: 0 <= i < |flags| ==> !flags[i]
    ensures k.Some? ==> k.value < |flags| && flags[k.value] && forall j :: k.value < j < |flags| ==> !flags[j]
    decreases |flags|
  {
    if |flags| == 0 then None
    else if flags[|flags| - 1] then Some(|flags| - 1)
    else LastSet(flags[..|flags| - 1])
  }

  /**
   * After the loop a cell holds the value of the last entry that targets
   * it, and is unchanged when no entry does.
   */
  lemma {:induction false} ApplyKeysCell(km: Keymap, entries: seq<(string, Json)>, r: nat, c: nat)
    requires WellShaped(km) && r < MATRIX_ROWS && c < MATRIX_COLS
    ensures var k := LastSet(TargetFlags(entries, r, c));
      ApplyKeys(km, entries)[r][c] == if k.None? then km[r][c] else CellValue(entries[k.value].1)
    decreases |entries|
  {
    if |entries| > 0 {
      var n := |entries| - 1;
      var prefix := entries[..n];
      var flags := TargetFlags(entries, r, c);
      assert TargetFlags(prefix, r, c) == flags[..n];
      ApplyKeysCell(km, prefix, r, c);
      ApplyEntryCell(ApplyKeys(km, prefix), entries[n], r, c);
      if !flags[n] {
        var k := LastSet(flags[..n]);
        if k.Some? {
          assert prefix[k.value] == entries[k.value];
        }
      }
    }
  }

  /** No two different entries target cell (r, c). */
  predicate OneTarget(entries: seq<(string, Json)>, r: nat, c: nat)
  {
    forall i, j :: 0 <= i < |entries| && 0 <= j < |entries| && Targets(entries[i], r, c) && Targets(entries[j], r, c) ==>
      entries[i] == entries[j]
  }

  /**
   * When every entry that targets a cell is the same entry, the cell ends
   * with that entry's value, wherever in the loop the entry comes.
   */
  lemma UniqueTargetCell(km: Keymap, entries: seq<(string, Json)>, r: nat, c: nat, i: nat)
    requires WellShaped(km) && r < MATRIX_ROWS && c < MATRIX_COLS
    requires i < |entries| && Targets(entries[i], r, c) && OneTarget(entries, r, c)
    ensures ApplyKeys(km, entries)[r][c] == CellValue(entries[i].1)
  {
    ApplyKeysCell(km, entries, r, c);
    var flags := TargetFlags(entries, r, c);
    assert flags[i];
    var k := LastSet(flags).value;
    assert Targets(entries[k], r, c);
  }

  /**
   * The loop does not depend on the order of the entries when no two
   * different entries target one cell: any two listings of the same
   * entries give the same keymap. (`keys.items()` walks a dictionary,
   * whose order is not the order of the message text.)
   */
  lemma ApplyKeysOrderFree(km: Keymap, a: seq<(string, Json)>, b: seq<(string, Json)>)
    requires WellShaped(km)
    requires forall e :: e in a <==> e in b
    requires forall r: nat, c: nat :: r < MATRIX_ROWS && c < MATRIX_COLS ==> OneTarget(a, r, c)
    ensures ApplyKeys(km, a) == ApplyKeys(km, b)
  {
    var A, B := ApplyKeys(km, a), ApplyKeys(km, b);
    forall r: nat, c: nat | r < MATRIX_ROWS && c < MATRIX_COLS
      ensures A[r][c] == B[r][c]
    {
      if i :| 0 <= i < |a| && Targets(a[i], r, c) {
        UniqueTargetCell(km, a, r, c, i);
        assert a[i] in b;
        var j :| 0 <= j < |b| && b[j] == a[i];
        forall p, q | 0 <= p < |b| && 0 <= q < |b| && Targets(b[p], r, c) && Targets(b[q], r, c)
          ensures b[p] == b[q]
        {
          assert b[p] in a && b[q] in a;
          var p' :| 0 <= p' < |a| && a[p'] == b[p];
          var q' :| 0 <= q' < |a| && a[q'] == b[q];
          assert OneTarget(a, r, c);
        }
        UniqueTargetCell(km, b, r, c, j);
      } else {
        ApplyKeysCell(km, a, r, c);
        ApplyKeysCell(km, b, r, c);
        var fa, fb := TargetFlags(a, r, c), TargetFlags(b, r, c);
        assert forall p :: 0 <= p < |fa| ==> !fa[p];
        forall p | 0 <= p < |fb|
          ensures !fb[p]
        {
          assert b[p] in a;
          var p' :| 0 <= p' < |a| && a[p'] == b[p];
        }
      }
    }
    forall r | 0 <= r < MATRIX_ROWS
      ensures A[r] == B[r]
    {
      assert forall c :: 0 <= c < MATRIX_COLS ==> A[r][c] == B[r][c];
    }
  }

  /** Only truthy values enter the keymap. */
  lemma {:induction false} ApplyKeysTruthy(km: Keymap, entries: seq<(string, Json)>)
    requires WellShaped(km) && CellsTruthy(km)
    ensures CellsTruthy(ApplyKeys(km, entries))
    decreases |entries|
  {
    if |entries| > 0 {
      ApplyKeysTruthy(km, entries[..|entries| - 1]);
    }
  }

  /** `handle_config_message`'s effect on the keymap; None when `keys` is present but not an object, so `.items()` raises. */
  function ConfigUpdate(km: Keymap, data: Json): Option<Keymap>
    requires WellShaped(km)
  {
    var keys := Field(data, "keys");
    if keys.None? then Some(km)
    else if !keys.value.JObj? then None
    else Some(ApplyKeys(km, keys.value.members))
  }

  // ------------------------------------------------------ the configuration sent back

  /** `f"{r}-{c}"`. */
  function IdText(r: nat, c: nat): string
  {
    DecimalDigits(r) + "-" + DecimalDigits(c)
  }

  /** The entry `send_config_to_web` writes for a set cell. */
  function KeyEntry(r: nat, c: nat, v: Json): (string, Json)
  {
    (IdText(r, c), JObj([("type", JStr("key")), ("value", v)]))
  }

  /** The entry of cell (r, c), when the cell holds a truthy value. */
  function CellKeys(km: Keymap, r: nat, c: nat): seq<(string, Json)>
    requires WellShaped(km) && r < MATRIX_ROWS && c < MATRIX_COLS
  {
    var cell := km[r][c];
    if cell.Some? && Truthy(cell.value) then [KeyEntry(r, c, cell.value)] else []
  }

  /** The entries of the first c cells of row r. */
  function RowKeys(km: Keymap, r: nat, c: nat): seq<(string, Json)>
    requires WellShaped(km) && r < MATRIX_ROWS && c <= MATRIX_COLS
  {
    if c == 0 then [] else RowKeys(km, r, c - 1) + CellKeys(km, r, c - 1)
  }

  /** The entries of the first `rows` rows, row by row. */
  function ConfigKeys(km: Keymap, rows: nat): seq<(string, Json)>
    requires WellShaped(km) && rows <= MATRIX_ROWS
  {
    if rows == 0 then [] else ConfigKeys(km, rows - 1) + RowKeys(km, rows - 1, MATRIX_COLS)
  }

  /** The configuration message around the entries. */
  function ConfigMessage(keys: seq<(string, Json)>): Json
  {
    JObj([("type", JStr("config")), ("rows", JNum(MATRIX_ROWS)), ("cols", JNum(MATRIX_COLS)),
          ("keys", JObj(keys)), ("activeProfile", JStr("Profil 1")),
          ("profiles", JObj([("Profil 1", JObj([("keys", JObj(keys))]))])),
          ("outputMode", JStr("bluetooth"))])
  }

  lemma ConfigMessageKeys(keys: seq<(string, Json)>)
    ensures Field(ConfigMessage(keys), "keys") == Some(JObj(keys))
  {
    var m := ConfigMessage(keys).members;
    assert m[..4][3] == ("keys", JObj(keys));
    assert Lookup(m[..4], "keys") == Some(JObj(keys));
    assert m[..5][..4] == m[..4] && m[..6][..5] == m[..5] && m[..7] == m && m[..6] == m[..6][..6];
    assert Lookup(m[..5], "keys") == Lookup(m[..4], "keys");
    assert Lookup(m[..6], "keys") == Lookup(m[..5], "keys");
    assert Lookup(m, "keys") == Lookup(m[..6], "keys");
  }

  /** `send_status_message(message)`. */
  function StatusMessage(message: string): Json
  {
    JObj([("type", JStr("status")), ("message", JStr(message))])
  }

  /** An id written by `send_config_to_web` names its own cell. */
  lemma IdTextCell(r: nat, c: nat)
    requires r < MATRIX_ROWS && c < MATRIX_COLS
    ensures KeyCell(IdText(r, c)) == Some((r, c))
  {
    var a, b := DecimalDigits(r), DecimalDigits(c);
    assert '-' !in a && '-' !in b by {
      assert a == [DigitChar(r)] && b == [DigitChar(c)];
    }
    assert IdText(r, c) == a + ['-'] + b;
    NoSeparator(a, '-');
    PiecesSnocOne(a, b, '-');
    PyIntDecimal(r);
    PyIntDecimal(c);
  }

  lemma PiecesSnocOne(a: string, b: string, sep: char)
    requires sep !in a && sep !in b && Pieces(a, sep) == [a]
    ensures Pieces(a + [sep] + b, sep) == [a, b]
  {
    assert Join([a, b], sep) == a + [sep] + b by {
      JoinSnoc([a], b, sep);
    }
    PiecesUnique(a + [sep] + b, sep, [a, b]);
  }

  /** Re-applying one sent entry leaves the keymap as it was. */
  lemma ApplySentEntry(km: Keymap, r: nat, c: nat)
    requires WellShaped(km) && r < MATRIX_ROWS && c < MATRIX_COLS
    requires km[r][c].Some? && Truthy(km[r][c].value)
    ensures ApplyEntry(km, KeyEntry(r, c, km[r][c].value)) == km
  {
    IdTextCell(r, c);
    var e := KeyEntry(r, c, km[r][c].value);
    assert Lookup(e.1.members, "value") == km[r][c];
    assert km[r][c := km[r][c]] == km[r];
    assert km[r := km[r]] == km;
  }

  /**
   * The round trip with the page: feeding back the configuration the
   * firmware sends leaves its keymap unchanged.
   */
  lemma ConfigRoundTrip(km: Keymap)
    requires WellShaped(km) && CellsTruthy(km)
    ensures ConfigUpdate(km, ConfigMessage(ConfigKeys(km, MATRIX_ROWS))) == Some(km)
  {
    var keys := ConfigKeys(km, MATRIX_ROWS);
    ReapplySent(km, MATRIX_ROWS);
    ConfigMessageKeys(keys);
  }

  /** The loop over the entries with one more entry at the end applies it last. */
  lemma ApplyKeysSnoc(km: Keymap, prev: seq<(string, Json)>, e: (string, Json))
    requires WellShaped(km)
    ensures ApplyKeys(km, prev + [e]) == ApplyEntry(ApplyKeys(km, prev), e)
  {
    assert (prev + [e])[..|prev|] == prev;
  }

  /** Re-applying a set cell's own entry after entries that left the keymap as it was changes nothing. */
  lemma ReapplyCell(km: Keymap, r: nat, c: nat, prev: seq<(string, Json)>)
    requires WellShaped(km) && r < MATRIX_ROWS && c < MATRIX_COLS && km[r][c].Some? && Truthy(km[r][c].value)
    requires ApplyKeys(km, prev) == km
    ensures ApplyKeys(km, prev + [KeyEntry(r, c, km[r][c].value)]) == km
  {
    var e := KeyEntry(r, c, km[r][c].value);
    ApplyKeysSnoc(km, prev, e);
    ApplySentEntry(km, r, c);
  }

  lemma {:induction false} ReapplySent(km: Keymap, rows: nat)
    requires WellShaped(km) && rows <= MATRIX_ROWS
    ensures ApplyKeys(km, ConfigKeys(km, rows)) == km
    decreases rows
  {
    if rows > 0 {
      ReapplySent(km, rows - 1);
      ReapplyRow(km, rows - 1, MATRIX_COLS, ConfigKeys(km, rows - 1));
    }
  }

  /** Re-applying the entries of a row after entries that left the keymap as it was changes nothing. */
  lemma {:induction false} ReapplyRow(km: Keymap, r: nat, c: nat, prev: seq<(string, Json)>)
    requires WellShaped(km) && r < MATRIX_ROWS && c <= MATRIX_COLS
    requires ApplyKeys(km, prev) == km
    ensures ApplyKeys(km, prev + RowKeys(km, r, c)) == km
    decreases c
  {
    if c == 0 {
      assert prev + RowKeys(km, r, c) == prev;
    } else {
      ReapplyRow(km, r, c - 1, prev);
      AppendAssoc(prev, RowKeys(km, r, c - 1), CellKeys(km, r, c - 1));
      ReapplyNextCell(km, r, c - 1, prev + RowKeys(km, r, c - 1), prev + RowKeys(km, r, c));
    }
  }

  /** Re-applying the entries of one cell after entries that left the keymap as it was changes nothing. */
  lemma ReapplyNextCell(km: Keymap, r: nat, c: nat, before: seq<(string, Json)>, after: seq<(string, Json)>)
    requires WellShaped(km) && r < MATRIX_ROWS && c < MATRIX_COLS
    requires ApplyKeys(km, before) == km && after == before + CellKeys(km, r, c)
    ensures ApplyKeys(km, after) == km
  {
    if km[r][c].Some? && Truthy(km[r][c].value) {
      ReapplyCell(km, r, c, before);
    } else {
      assert after == before;
    }
  }

  // ------------------------------------------------------ LED back-light

  const LED_MAX: int := 255
  const DUTY_MAX: int := 1023

  /** `max(0, min(255, brightness))`. */
  function Clamp(b: int): (r: int)
    ensures 0 <= r <= LED_MAX
    ensures 0 <= b <= LED_MAX ==> r == b
    ensures b < 0 ==> r == 0
    ensures b > LED_MAX ==> r == LED_MAX
  {
    if b < 0 then 0 else if b > LED_MAX then LED_MAX else b
  }

  /**
   * `int(level * 1023 / 255)`: the quotient is never within a float's
   * rounding error of the next integer, so truncating it is the integer
   * quotient.
   */
  function DutyFor(level: int): int
    requires 0 <= level <= LED_MAX
  {
    level * DUTY_MAX / LED_MAX
  }

  /** The duty spans the PWM range exactly: 0 for off, 1023 for full, never outside, and never lower for a brighter level. */
  lemma DutyRange(a: int, b: int)
    requires 0 <= a <= b <= LED_MAX
    ensures 0 <= DutyFor(a) <= DutyFor(b) <= DUTY_MAX
    ensures DutyFor(0) == 0 && DutyFor(LED_MAX) == DUTY_MAX
  {
    assert a * DUTY_MAX <= b * DUTY_MAX;
  }

  /**
   * The number `set_led_brightness` compares: a JSON number, or a boolean
   * (True is 1 in Python); any other value makes `min` raise TypeError.
   */
  function BrightnessArg(j: Json): Option<int>
  {
    match j
    case JNum(n) => Some(n)
    case JBool(b) => Some(if b then 1 else 0)
    case _ => None
  }

  /** The back-light globals: `led_brightness`, `backlight_enabled` and the duty last written to the PWM. */
  datatype Backlight = Backlight(brightness: int, enabled: Json, duty: Option<int>)

  predicate BacklightOk(l: Backlight)
  {
    0 <= l.brightness <= LED_MAX && (l.duty.Some? ==> 0 <= l.duty.value <= DUTY_MAX)
  }

  /** `set_led_brightness(b)`; the PWM is written only when it was set up. */
  function SetBrightness(l: Backlight, pwm: bool, b: int): Backlight
  {
    var level := Clamp(b);
    l.(brightness := level, duty := if pwm then Some(DutyFor(level)) else l.duty)
  }

  /** The `"enabled"` part of the handler: store the flag, then switch the PWM off or back to the level. */
  function BacklightEnable(l: Backlight, pwm: bool, data: Json): Backlight
  {
    var enabled := Field(data, "enabled");
    if enabled.None? then l
    else
      var e := l.(enabled := enabled.value);
      if pwm && !Truthy(enabled.value) then e.(duty := Some(0))
      else if pwm then SetBrightness(e, pwm, l.brightness)
      else e
  }

  /**
   * `handle_backlight_message(data)`: the new globals, and whether the
   * handler ran to its end (a brightness `min` rejects raises, after an
   * `enabled` member has already been applied).
   */
  function BacklightUpdate(l: Backlight, pwm: bool, data: Json): (r: (Backlight, bool))
    ensures !r.1 ==> Field(data, "brightness").Some?
    ensures Field(data, "enabled").None? && Field(data, "brightness").None? ==> r == (l, true)
  {
    var l1 := BacklightEnable(l, pwm, data);
    var brightness := Field(data, "brightness");
    if brightness.None? then (l1, true)
    else
      var arg := BrightnessArg(brightness.value);
      if arg.None? then (l1, false) else (SetBrightness(l1, pwm, arg.value), true)
  }

  /** The handler keeps the brightness in 0..255 and the duty in 0..1023. */
  lemma BacklightKeepsRange(l: Backlight, pwm: bool, data: Json)
    requires BacklightOk(l)
    ensures BacklightOk(BacklightUpdate(l, pwm, data).0)
  {
    DutyRange(0, l.brightness);
    var b := Field(data, "brightness");
    if b.Some? && BrightnessArg(b.value).Some? {
      DutyRange(0, Clamp(BrightnessArg(b.value).value));
    }
  }

  /**
   * Switching the light off writes duty 0 and keeps the level; switching
   * it on restores the duty of the kept level; a brightness in the same
   * message wins over both, even when the light is being switched off.
   */
  lemma BacklightSwitch(l: Backlight, data: Json)
    requires BacklightOk(l) && data.JObj? && Field(data, "enabled").Some?
    ensures var (l2, ok) := BacklightUpdate(l, true, data);
      Field(data, "brightness").None? ==>
        ok && l2.brightness == l.brightness && l2.enabled == Field(data, "enabled").value &&
        l2.duty == Some(if Truthy(Field(data, "enabled").value) then DutyFor(l.brightness) else 0)
    ensures var (l2, ok) := BacklightUpdate(l, true, data);
      var b := Field(data, "brightness");
      b.Some? && b.value.JNum? ==> ok && l2.duty == Some(DutyFor(Clamp(b.value.n)))
  {
  }

  /** A brightness `min` cannot compare leaves the handler before its status message. */
  lemma BacklightRejects(l: Backlight, pwm: bool, data: Json)
    requires Field(data, "brightness").Some? && BrightnessArg(Field(data, "brightness").value).None?
    ensures !BacklightUpdate(l, pwm, data).1
    ensures BacklightUpdate(l, pwm, data).0.brightness == (if Field(data, "enabled").Some? && pwm && Truthy(Field(data, "enabled").value) then Clamp(l.brightness) else l.brightness)
  {
  }

  // ------------------------------------------------------ the matrix scan

  /** A pin reading. */
  type Level = x: int | 0 <= x <= 1

  /** `pressed = 1 if raw == 0 else 0`: the rows are pulled up, a closed key reads LOW. */
  function Pressed(raw: Level): Level
  {
    if raw == 0 then 1 else 0
  }

  /** Row readings per driven column: `raw[c][r]` is row r while column c is LOW. */
  predicate Readings(raw: seq<seq<Level>>)
  {
    |raw| == MATRIX_COLS && forall c :: 0 <= c < |raw| ==> |raw[c]| == MATRIX_ROWS
  }

  /** Cell (r, c) changes: its reading differs from the debounced state and more than 30 ms passed since its last change. */
  predicate Fires(st: seq<seq<Level>>, ch: seq<seq<Ticks>>, raw: seq<seq<Level>>, now: Ticks, r: nat, c: nat)
    requires WellShaped(st) && WellShaped(ch) && Readings(raw) && r < MATRIX_ROWS && c < MATRIX_COLS
  {
    Pressed(raw[c][r]) != st[r][c] && TicksDiff(now, ch[r][c]) > DEBOUNCE_MS
  }

  /** The position of cell (r, c) in the scan: column by column, row by row within a column. */
  function ScanIndex(r: nat, c: nat): nat
  {
    c * 5 + r
  }

  /** The debounced states once the first k cells of the scan were visited. */
  function ScanStates(st: seq<seq<Level>>, ch: seq<seq<Ticks>>, raw: seq<seq<Level>>, now: Ticks, k: nat): (r: seq<seq<Level>>)
    requires WellShaped(st) && WellShaped(ch) && Readings(raw)
    ensures WellShaped(r)
  {
    seq(MATRIX_ROWS, i requires 0 <= i < MATRIX_ROWS =>
      seq(MATRIX_COLS, j requires 0 <= j < MATRIX_COLS =>
        if ScanIndex(i, j) < k && Fires(st, ch, raw, now, i, j) then Pressed(raw[j][i]) else st[i][j]))
  }

  /** The change times once the first k cells were visited. */
  function ScanChanges(st: seq<seq<Level>>, ch: seq<seq<Ticks>>, raw: seq<seq<Level>>, now: Ticks, k: nat): (r: seq<seq<Ticks>>)
    requires WellShaped(st) && WellShaped(ch) && Readings(raw)
    ensures WellShaped(r)
  {
    seq(MATRIX_ROWS, i requires 0 <= i < MATRIX_ROWS =>
      seq(MATRIX_COLS, j requires 0 <= j < MATRIX_COLS =>
        if ScanIndex(i, j) < k && Fires(st, ch, raw, now, i, j) then now else ch[i][j]))
  }

  /** A `send_key(symbol, pressed, r, c)` call. */
  datatype KeyEvent = KeyEvent(symbol: Option<Json>, pressed: Level, row: nat, col: nat)

  /** The `send_key` calls for the first r rows of column c. */
  function ColumnEvents(km: Keymap, st: seq<seq<Level>>, ch: seq<seq<Ticks>>, raw: seq<seq<Level>>, now: Ticks, c: nat, r: nat): seq<KeyEvent>
    requires WellShaped(km) && WellShaped(st) && WellShaped(ch) && Readings(raw) && c < MATRIX_COLS && r <= MATRIX_ROWS
  {
    if r == 0 then []
    else
      ColumnEvents(km, st, ch, raw, now, c, r - 1) +
        (if Fires(st, ch, raw, now, r - 1, c) then [KeyEvent(km[r - 1][c], Pressed(raw[c][r - 1]), r - 1, c)] else [])
  }

  /** The `send_key` calls of the first `cols` columns, in scan order. */
  function ScanEvents(km: Keymap, st: seq<seq<Level>>, ch: seq<seq<Ticks>>, raw: seq<seq<Level>>, now: Ticks, cols: nat): seq<KeyEvent>
    requires WellShaped(km) && WellShaped(st) && WellShaped(ch) && Readings(raw) && cols <= MATRIX_COLS
  {
    if cols == 0 then [] else ScanEvents(km, st, ch, raw, now, cols - 1) + ColumnEvents(km, st, ch, raw, now, cols - 1, MATRIX_ROWS)
  }

  lemma ScanIndexBelow(r: nat, c: nat)
    requires r < MATRIX_ROWS && c < MATRIX_COLS
    ensures ScanIndex(r, c) < CELLS
  {
  }

  /**
   * Scanning again at the same instant with the same readings reports
   * nothing and changes nothing: every cell that changed now matches its
   * reading, every other one is as it was.
   */
  lemma ScanIdempotent(km: Keymap, st: seq<seq<Level>>, ch: seq<seq<Ticks>>, raw: seq<seq<Level>>, now: Ticks)
    requires WellShaped(km) && WellShaped(st) && WellShaped(ch) && Readings(raw)
    ensures var st2, ch2 := ScanStates(st, ch, raw, now, 20), ScanChanges(st, ch, raw, now, 20);
      ScanEvents(km, st2, ch2, raw, now, MATRIX_COLS) == [] &&
      ScanStates(st2, ch2, raw, now, 20) == st2 && ScanChanges(st2, ch2, raw, now, 20) == ch2
  {
    var st2, ch2 := ScanStates(st, ch, raw, now, 20), ScanChanges(st, ch, raw, now, 20);
    forall r: nat, c: nat | r < MATRIX_ROWS && c < MATRIX_COLS
      ensures !Fires(st2, ch2, raw, now, r, c)
    {
      ScanIndexBelow(r, c);
    }
    NoEvents(km, st2, ch2, raw, now, MATRIX_COLS);
    NothingFires(st2, ch2, raw, now, 20);
  }

  /** When no cell fires, visiting cells changes nothing. */
  lemma NothingFires(st: seq<seq<Level>>, ch: seq<seq<Ticks>>, raw: seq<seq<Level>>, now: Ticks, k: nat)
    requires WellShaped(st) && WellShaped(ch) && Readings(raw)
    requires forall r: nat, c: nat :: r < MATRIX_ROWS && c < MATRIX_COLS ==> !Fires(st, ch, raw, now, r, c)
    ensures ScanStates(st, ch, raw, now, k) == st && ScanChanges(st, ch, raw, now, k) == ch
  {
    var s2, c2 := ScanStates(st, ch, raw, now, k), ScanChanges(st, ch, raw, now, k);
    forall i | 0 <= i < MATRIX_ROWS ensures s2[i] == st[i] && c2[i] == ch[i] {
      assert forall j :: 0 <= j < MATRIX_COLS ==> s2[i][j] == st[i][j] && c2[i][j] == ch[i][j];
    }
  }

  lemma {:induction false} NoEvents(km: Keymap, st: seq<seq<Level>>, ch: seq<seq<Ticks>>, raw: seq<seq<Level>>, now: Ticks, cols: nat)
    requires WellShaped(km) && WellShaped(st) && WellShaped(ch) && Readings(raw) && cols <= MATRIX_COLS
    requires forall r: nat, c: nat :: r < MATRIX_ROWS && c < MATRIX_COLS ==> !Fires(st, ch, raw, now, r, c)
    ensures ScanEvents(km, st, ch, raw, now, cols) == []
    decreases cols
  {
    if cols > 0 {
      NoEvents(km, st, ch, raw, now, cols - 1);
      NoColumnEvents(km, st, ch, raw, now, cols - 1, MATRIX_ROWS);
    }
  }

  lemma {:induction false} NoColumnEvents(km: Keymap, st: seq<seq<Level>>, ch: seq<seq<Ticks>>, raw: seq<seq<Level>>, now: Ticks, c: nat, r: nat)
    requires WellShaped(km) && WellShaped(st) && WellShaped(ch) && Readings(raw) && c < MATRIX_COLS && r <= MATRIX_ROWS
    requires forall r: nat, c: nat :: r < MATRIX_ROWS && c < MATRIX_COLS ==> !Fires(st, ch, raw, now, r, c)
    ensures ColumnEvents(km, st, ch, raw, now, c, r) == []
    decreases r
  {
    if r > 0 {
      NoColumnEvents(km, st, ch, raw, now, c, r - 1);
    }
  }

  /**
   * A key that just changed holds its new state for the next 30 ms
   * whatever it reads: bounces within the debounce window report nothing.
   */
  lemma DebounceHolds(st: seq<seq<Level>>, ch: seq<seq<Ticks>>, raw: seq<seq<Level>>, now: Ticks,
                      raw2: seq<seq<Level>>, later: Ticks, r: nat, c: nat)
    requires WellShaped(st) && WellShaped(ch) && Readings(raw) && Readings(raw2)
    requires r < MATRIX_ROWS && c < MATRIX_COLS && Fires(st, ch, raw, now, r, c)
    requires 0 <= later - now <= DEBOUNCE_MS
    ensures var st2, ch2 := ScanStates(st, ch, raw, now, 20), ScanChanges(st, ch, raw, now, 20);
      st2[r][c] == Pressed(raw[c][r]) && ch2[r][c] == now && !Fires(st2, ch2, raw2, later, r, c)
  {
    ScanIndexBelow(r, c);
    TicksDiffElapsed(later, now, later - now);
  }

  // ------------------------------------------------------ the rotary encoder

  const ENCODER_READ_GAP_MS: int := 2
  const BUTTON_GAP_MS: int := 200

  /** The encoder globals: `encoder_last_state`, `encoder_button_pressed`, `last_encoder_read`, `last_button_press`, `encoder_position`. */
  datatype EncoderState = EncoderState(lastClk: Level, buttonPressed: bool, lastRead: Ticks, lastPress: Ticks, position: int)

  /** What one call triggers: `adjust_volume(volume)` when volume is not 0, and `toggle_mute()`. */
  datatype EncoderAction = EncoderAction(volume: int, mute: bool)

  /** The first part of `handle_encoder()`: the CLK reading, taken at most every 2 ms. */
  function EncoderRead(s: EncoderState, now: Ticks, clk: Level, dt: Level): EncoderState
  {
    if TicksDiff(now, s.lastRead) <= ENCODER_READ_GAP_MS then s
    else if clk != s.lastClk then
      s.(position := s.position + (if dt != clk then 1 else -1), lastRead := now, lastClk := clk)
    else s.(lastClk := clk)
  }

  /** The second part: a count of +2 or -2 becomes one volume step and resets the count. */
  function EncoderVolume(s: EncoderState): (EncoderState, int)
  {
    var volume := if s.position >= 2 then 1 else if s.position <= -2 then -1 else 0;
    (if volume != 0 then s.(position := 0) else s, volume)
  }

  /** The last part: a LOW switch mutes once per press, 200 ms apart; HIGH releases it. */
  function EncoderPress(s: EncoderState, now: Ticks, sw: Level): (EncoderState, bool)
  {
    if sw == 0 && !s.buttonPressed && TicksDiff(now, s.lastPress) > BUTTON_GAP_MS then
      (s.(buttonPressed := true, lastPress := now), true)
    else if sw == 1 then (s.(buttonPressed := false), false)
    else (s, false)
  }

  /** One `handle_encoder()` call at time `now` with the CLK, DT and switch readings. */
  function EncoderStep(s: EncoderState, now: Ticks, clk: Level, dt: Level, sw: Level): (r: (EncoderState, EncoderAction))
    ensures r.1.volume in {-1, 0, 1} && (r.1.volume != 0 ==> r.0.position == 0)
    ensures r.1.mute ==> r.0.buttonPressed && r.0.lastPress == now
  {
    var (s2, volume) := EncoderVolume(EncoderRead(s, now, clk, dt));
    var (s3, mute) := EncoderPress(s2, now, sw);
    (s3, EncoderAction(volume, mute))
  }

  /** A CLK edge read after the 2 ms gap. */
  predicate ClkEdge(s: EncoderState, now: Ticks, clk: Level)
  {
    TicksDiff(now, s.lastRead) > ENCODER_READ_GAP_MS && clk != s.lastClk
  }

  /**
   * The accumulator stays within -1..1 between calls. A CLK edge moves it
   * by +1 when DT differs from CLK and by -1 otherwise; reaching +2 or -2
   * triggers exactly one volume step in that direction and resets it to 0.
   * Without an edge nothing moves and no volume step is triggered.
   */
  lemma EncoderAccumulates(s: EncoderState, now: Ticks, clk: Level, dt: Level, sw: Level)
    requires -1 <= s.position <= 1
    ensures var (s2, a) := EncoderStep(s, now, clk, dt, sw);
      var moved := s.position + (if dt != clk then 1 else -1);
      -1 <= s2.position <= 1 && -1 <= a.volume <= 1 &&
      (ClkEdge(s, now, clk) ==>
        s2.lastRead == now && s2.position == (if -2 < moved < 2 then moved else 0) &&
        a.volume == (if moved == 2 then 1 else if moved == -2 then -1 else 0)) &&
      (!ClkEdge(s, now, clk) ==> s2.position == s.position && s2.lastRead == s.lastRead && a.volume == 0)
  {
  }

  /** Two CLK edges in the same direction from rest make one volume step, on the second edge. */
  lemma EncoderDetent(s: EncoderState, t1: Ticks, t2: Ticks, c1: Level, d1: Level, sw1: Level, c2: Level, d2: Level, sw2: Level)
    requires s.position == 0
    requires ClkEdge(s, t1, c1)
    requires var (s1, _) := EncoderStep(s, t1, c1, d1, sw1); ClkEdge(s1, t2, c2)
    requires (d1 != c1) == (d2 != c2)
    ensures var (s1, a1) := EncoderStep(s, t1, c1, d1, sw1);
      var (s2, a2) := EncoderStep(s1, t2, c2, d2, sw2);
      a1.volume == 0 && a2.volume == (if d1 != c1 then 1 else -1) && s2.position == 0
  {
  }

  /**
   * The button mutes once per press: only on a LOW reading while not
   * pressed and more than 200 ms after the last mute; holding it mutes
   * nothing more, and a HIGH reading releases it.
   */
  lemma EncoderButton(s: EncoderState, now: Ticks, clk: Level, dt: Level, sw: Level)
    ensures var (s2, a) := EncoderStep(s, now, clk, dt, sw);
      (a.mute <==> sw == 0 && !s.buttonPressed && TicksDiff(now, s.lastPress) > BUTTON_GAP_MS) &&
      (a.mute ==> s2.buttonPressed && s2.lastPress == now) &&
      (!a.mute ==> s2.lastPress == s.lastPress) &&
      (sw == 1 ==> !s2.buttonPressed) &&
      (sw == 0 && !a.mute ==> s2.buttonPressed == s.buttonPressed)
  {
  }

  // ------------------------------------------------------ web messages

  /** Which handler `process_web_message` runs. */
  datatype Route =
    | Ignored       // shorter than two characters
    | NotJson       // json.loads raised ValueError
    | NotObject     // `data.get` raised: the text is JSON but not an object
    | ConfigRoute | BacklightRoute | DisplayRoute | GetConfigRoute | GetLightRoute | StatusRoute
    | OtaStartRoute | OtaChunkRoute | OtaEndRoute
    | UnknownType

  /** The `type` string that selects each handler. */
  function HandlerType(route: Route): Option<string>
  {
    match route
    case ConfigRoute => Some("config")
    case BacklightRoute => Some("backlight")
    case DisplayRoute => Some("display")
    case GetConfigRoute => Some("get_config")
    case GetLightRoute => Some("get_light")
    case StatusRoute => Some("status")
    case OtaStartRoute => Some("ota_start")
    case OtaChunkRoute => Some("ota_chunk")
    case OtaEndRoute => Some("ota_end")
    case _ => None
  }

  /** `process_web_message(message)`, given what `json.loads(message)` gives (None when it raises). */
  function RouteOf(message: string, parsed: Option<Json>): (route: Route)
    ensures route == Ignored <==> |message| < 2
    ensures HandlerType(route).Some? ==>
      parsed.Some? && parsed.value.JObj? && Field(parsed.value, "type") == Some(JStr(HandlerType(route).value))
  {
    if |message| < 2 then Ignored
    else if parsed.None? then NotJson
    else if !parsed.value.JObj? then NotObject
    else
      var t := Field(parsed.value, "type");
      if t == Some(JStr("config")) then ConfigRoute
      else if t == Some(JStr("backlight")) then BacklightRoute
      else if t == Some(JStr("display")) then DisplayRoute
      else if t == Some(JStr("get_config")) then GetConfigRoute
      else if t == Some(JStr("get_light")) then GetLightRoute
      else if t == Some(JStr("status")) then StatusRoute
      else if t == Some(JStr("ota_start")) then OtaStartRoute
      else if t == Some(JStr("ota_chunk")) then OtaChunkRoute
      else if t == Some(JStr("ota_end")) then OtaEndRoute
      else UnknownType
  }

  /**
   * A handler runs exactly when the message has at least two characters,
   * parses as a JSON object, and its `type` member is that handler's
   * string; distinct handlers have distinct strings.
   */
  lemma RouteSelects(message: string, parsed: Option<Json>, route: Route)
    requires HandlerType(route).Some?
    ensures RouteOf(message, parsed) == route <==>
      |message| >= 2 && parsed.Some? && parsed.value.JObj? &&
      Field(parsed.value, "type") == Some(JStr(HandlerType(route).value))
  {
  }

  /** `send_light_level()`: a fixed level of 500. */
  function LightMessage(): Json
  {
    JObj([("type", JStr("light")), ("level", JNum(500))])
  }

  // ------------------------------------------------------ OTA receiver

  /**
   * The OTA globals of main.py: whether an update runs, the chunks counted,
   * and the `chunks` and `size` members of the last `ota_start`. `ota_file`
   * is open exactly while an update runs, so it is not a field of its own.
   */
  datatype OtaState = OtaState(inProgress: bool, chunkCount: nat, totalChunks: Json, fileSize: Json)

  const OTA_IDLE: OtaState := OtaState(false, 0, JNum(0), JNum(0))

  /**
   * What the file system gives the OTA handlers: whether `open` of the
   * temporary file succeeds, the size `os.stat` reports (None when it
   * raises), whether the final `os.rename` succeeds; then `str(e)` of the
   * exception caught, and `str()` of a JSON array or object.
   */
  datatype OtaIo = OtaIo(openOk: bool, statSize: Option<nat>, renameOk: bool, errorText: string, containerText: string)

  /** `data.get(key, default)`. */
  function Get(data: Json, key: string, default: Json): (v: Json)
    ensures Field(data, key).Some? ==> v == Field(data, key).value
    ensures Field(data, key).None? ==> v == default
  {
    match Field(data, key)
    case Some(x) => x
    case None => default
  }

  /** An `ota_status` message with a text. */
  function OtaStatus(status: string, message: string): Json
  {
    JObj([("type", JStr("ota_status")), ("status", JStr(status)), ("message", JStr(message))])
  }

  /** `str(v)` of a value `json.loads` gave. */
  function PyStr(v: Json, containerText: string): string
  {
    match v
    case JNull => "None"
    case JBool(b) => if b then "True" else "False"
    case JNum(n) => IntText(n)
    case JStr(t) => t
    case _ => containerText
  }

  /** The integer a value compares as with `<` and `!=`: a bool is 0 or 1; None where `<` raises TypeError. */
  function PyNumber(v: Json): Option<int>
  {
    match v
    case JBool(b) => Some(if b then 1 else 0)
    case JNum(n) => Some(n)
    case _ => None
  }

  /** `handle_ota_start(data)`: the new globals and the messages sent. */
  function OtaStart(s: OtaState, data: Json, io: OtaIo): (r: (OtaState, seq<Json>))
    ensures 1 <= |r.1| <= 2
    ensures s.inProgress ==> r.0.inProgress && r.0.chunkCount == s.chunkCount
  {
    var filename := Get(data, "filename", JStr("main.py"));
    var announced := s.(totalChunks := Get(data, "chunks", JNum(0)), fileSize := Get(data, "size", JNum(0)));
    if s.inProgress then (announced, [StatusMessage("OTA already in progress")])
    else if filename.JStr? && io.openOk then
      (announced.(inProgress := true, chunkCount := 0),
       [StatusMessage("OTA: Starting update..."), OtaStatus("started", "OTA update started")])
    else (announced, [StatusMessage("OTA error: " + io.errorText)])
  }

  /** What `handle_ota_end(data)` leaves: the globals, the messages sent, and whether it ended in `machine.reset()`. */
  datatype OtaEnding = OtaEnding(state: OtaState, sent: seq<Json>, reset: bool)

  /** `handle_ota_end(data)`. */
  function OtaEnd(s: OtaState, io: OtaIo): (e: OtaEnding)
    ensures 1 <= |e.sent| <= 2
    ensures e.reset ==> e.state == s && s.inProgress
    ensures !e.reset ==> !e.state.inProgress
  {
    if !s.inProgress then OtaEnding(s, [StatusMessage("OTA: No update in progress")], false)
    else
      var stopped := s.(inProgress := false);
      var failed := OtaEnding(stopped, [StatusMessage("OTA error: " + io.errorText)], false);
      var total := PyNumber(s.totalChunks);
      if total.None? then failed
      else if s.chunkCount < total.value then
        OtaEnding(stopped, [StatusMessage(IncompleteText(s, io))], false)
      else if io.statSize.None? then failed
      else if PyNumber(s.fileSize) != Some(io.statSize.value) then
        OtaEnding(stopped, [StatusMessage(MismatchText(s, io))], false)
      else if !io.renameOk then failed
      else OtaEnding(s, [StatusMessage("OTA: Update completed! Restarting..."),
                         OtaStatus("completed", "Update completed, restarting...")], true)
  }

  function IncompleteText(s: OtaState, io: OtaIo): string
  {
    "OTA: Incomplete update (" + IntText(s.chunkCount) + " < " + PyStr(s.totalChunks, io.containerText) + ")"
  }

  function MismatchText(s: OtaState, io: OtaIo): string
    requires io.statSize.Some?
  {
    "OTA: Size mismatch (" + IntText(io.statSize.value) + " != " + PyStr(s.fileSize, io.containerText) + ")"
  }

  /** A status message: the reply form of `send_status_message`. */
  predicate IsStatus(m: Json)
  {
    m.JObj? && |m.members| == 2 && m.members[0] == ("type", JStr("status")) && m.members[1].0 == "message"
  }

  /**
   * `ota_start` always answers, first with a status message. It takes the
   * announced chunks and size in every case; during an update it changes
   * nothing else; otherwise an update runs afterwards exactly when the
   * file name is a string and the file opens, and it starts with no chunk
   * counted.
   */
  lemma OtaStartReplies(s: OtaState, data: Json, io: OtaIo)
    ensures var (s2, sent) := OtaStart(s, data, io);
      |sent| >= 1 && IsStatus(sent[0])
      && s2.totalChunks == Get(data, "chunks", JNum(0)) && s2.fileSize == Get(data, "size", JNum(0))
      && (s.inProgress ==> s2.inProgress && s2.chunkCount == s.chunkCount && sent == [StatusMessage("OTA already in progress")])
      && (!s.inProgress ==>
            (s2.inProgress <==> Get(data, "filename", JStr("main.py")).JStr? && io.openOk)
            && (s2.inProgress ==> s2.chunkCount == 0 && sent[|sent| - 1] == OtaStatus("started", "OTA update started")))
  {
  }

  /**
   * `ota_end` always answers, first with a status message. Without an
   * update it says so and changes nothing. It resets the device exactly
   * when an update runs, every announced chunk was counted, the file has
   * the announced size and the rename succeeds; otherwise no update runs
   * afterwards. The counts and the announced values are kept.
   */
  lemma OtaEndReplies(s: OtaState, io: OtaIo)
    ensures var e := OtaEnd(s, io);
      |e.sent| >= 1 && IsStatus(e.sent[0])
      && (!s.inProgress ==> e == OtaEnding(s, [StatusMessage("OTA: No update in progress")], false))
      && (e.reset <==>
            s.inProgress && PyNumber(s.totalChunks).Some? && s.chunkCount >= PyNumber(s.totalChunks).value
            && io.statSize.Some? && PyNumber(s.fileSize) == Some(io.statSize.value as int) && io.renameOk)
      && (!e.reset ==> !e.state.inProgress)
      && e.state.chunkCount == s.chunkCount && e.state.totalChunks == s.totalChunks && e.state.fileSize == s.fileSize
  {
  }

  /**
   * The chunk handler changes nothing (see `WebEffect`), so an update
   * that announces at least one chunk is never completed: its `ota_end`
   * reports it incomplete, with no chunk counted, and does not reset.
   */
  lemma ChunkedUpdateIncomplete(s: OtaState, data: Json, io1: OtaIo, io2: OtaIo, n: int)
    requires !s.inProgress && Get(data, "chunks", JNum(0)) == JNum(n) && n >= 1
    requires OtaStart(s, data, io1).0.inProgress
    ensures var e := OtaEnd(OtaStart(s, data, io1).0, io2);
      !e.reset && !e.state.inProgress
      && e.sent == [StatusMessage("OTA: Incomplete update (0 < " + IntText(n) + ")")]
  {
    var s1 := OtaStart(s, data, io1).0;
    assert s1.chunkCount == 0 && s1.totalChunks == JNum(n);
    assert IncompleteText(s1, io2) == "OTA: Incomplete update (0 < " + IntText(n) + ")";
  }

  // ------------------------------------------------------ message handlers

  /** What one handler of `process_web_message` leaves behind. */
  datatype Effect = Effect(keymap: Keymap, light: Backlight, ota: OtaState, sent: seq<Json>, reset: bool)

  /**
   * The handler `process_web_message` calls for `route`, on the keymap, the
   * back-light and the OTA globals it finds: what they become, what it sends
   * and whether it ends in `machine.reset()`. The `ota_chunk` handler
   * assigns `ota_in_progress` in its `except` branch without declaring it
   * global, so its first test raises before it sends or changes anything,
   * and `process_web_message` catches that.
   */
  function WebEffect(route: Route, parsed: Option<Json>, pwm: bool, km: Keymap, l: Backlight, ota: OtaState, io: OtaIo): (e: Effect)
    requires WellShaped(km) && (route in {ConfigRoute, BacklightRoute, OtaStartRoute} ==> parsed.Some?)
    ensures e.keymap != km ==> route == ConfigRoute
    ensures e.light != l ==> route == BacklightRoute
    ensures e.ota != ota ==> route in {OtaStartRoute, OtaEndRoute}
    ensures e.reset ==> route == OtaEndRoute && e.ota == ota && e.ota.inProgress
    ensures route in {Ignored, NotJson, NotObject, OtaChunkRoute, UnknownType} ==> e == Effect(km, l, ota, [], false)
  {
    match route
    case ConfigRoute =>
      var up := ConfigUpdate(km, parsed.value);
      if up.Some? then Effect(up.value, l, ota, [StatusMessage("Configuration updated")], false)
      else Effect(km, l, ota, [], false)
    case BacklightRoute =>
      var (l2, ok) := BacklightUpdate(l, pwm, parsed.value);
      Effect(km, l2, ota, if ok then [StatusMessage("Backlight config updated")] else [], false)
    case DisplayRoute => Effect(km, l, ota, [StatusMessage("Display config updated")], false)
    case GetConfigRoute => Effect(km, l, ota, [ConfigMessage(ConfigKeys(km, MATRIX_ROWS))], false)
    case GetLightRoute => Effect(km, l, ota, [LightMessage()], false)
    case StatusRoute => Effect(km, l, ota, [StatusMessage("Macropad ready")], false)
    case OtaStartRoute =>
      var (o, sent) := OtaStart(ota, parsed.value, io);
      Effect(km, l, o, sent, false)
    case OtaEndRoute =>
      var end := OtaEnd(ota, io);
      Effect(km, l, end.state, end.sent, end.reset)
    case _ => Effect(km, l, ota, [], false)
  }

  /**
   * The settings handlers send at most one message; only a configuration
   * or back-light message the handler gives up on goes unanswered.
   */
  lemma SettingReplies(route: Route, parsed: Option<Json>, pwm: bool, km: Keymap, l: Backlight, ota: OtaState, io: OtaIo)
    requires WellShaped(km) && route !in {OtaStartRoute, OtaEndRoute} && (route in {ConfigRoute, BacklightRoute} ==> parsed.Some?)
    ensures var e := WebEffect(route, parsed, pwm, km, l, ota, io);
      |e.sent| <= 1 && (route in {DisplayRoute, GetConfigRoute, GetLightRoute, StatusRoute} ==> |e.sent| == 1)
  {
  }

  /** Both OTA handlers answer, with a status message first, and send at most two messages. */
  lemma OtaReplies(route: Route, parsed: Option<Json>, pwm: bool, km: Keymap, l: Backlight, ota: OtaState, io: OtaIo)
    requires WellShaped(km) && route in {OtaStartRoute, OtaEndRoute} && (route == OtaStartRoute ==> parsed.Some?)
    ensures var e := WebEffect(route, parsed, pwm, km, l, ota, io);
      1 <= |e.sent| <= 2 && IsStatus(e.sent[0])
  {
    if route == OtaStartRoute {
      OtaStartReplies(ota, parsed.value, io);
    } else {
      OtaEndReplies(ota, io);
    }
  }

  // ------------------------------------------------------ scan bookkeeping

  lemma ApplyKeysStep(km: Keymap, entries: seq<(string, Json)>, i: nat)
    requires WellShaped(km) && i < |entries|
    ensures ApplyKeys(km, entries[..i + 1]) == ApplyEntry(ApplyKeys(km, entries[..i]), entries[i])
  {
    assert entries[..i + 1][..i] == entries[..i];
  }

  /** `ls` and `lc` are the states and change times after visiting the first k cells, cell by cell. */
  predicate Scanned(ls: seq<seq<Level>>, lc: seq<seq<Ticks>>, st: seq<seq<Level>>, ch: seq<seq<Ticks>>, raw: seq<seq<Level>>, now: Ticks, k: nat)
    requires WellShaped(st) && WellShaped(ch) && Readings(raw)
  {
    WellShaped(ls) && WellShaped(lc) &&
    forall i, j :: 0 <= i < MATRIX_ROWS && 0 <= j < MATRIX_COLS ==>
      ls[i][j] == (if ScanIndex(i, j) < k && Fires(st, ch, raw, now, i, j) then Pressed(raw[j][i]) else st[i][j]) &&
      lc[i][j] == (if ScanIndex(i, j) < k && Fires(st, ch, raw, now, i, j) then now else ch[i][j])
  }

  lemma ScannedStart(st: seq<seq<Level>>, ch: seq<seq<Ticks>>, raw: seq<seq<Level>>, now: Ticks)
    requires WellShaped(st) && WellShaped(ch) && Readings(raw)
    ensures Scanned(st, ch, st, ch, raw, now, 0)
  {
  }

  /** Visiting cell (r, c) finds it as before the scan and updates it alone. */
  lemma ScannedStep(ls: seq<seq<Level>>, lc: seq<seq<Ticks>>, st: seq<seq<Level>>, ch: seq<seq<Ticks>>, raw: seq<seq<Level>>, now: Ticks, r: nat, c: nat)
    requires WellShaped(st) && WellShaped(ch) && Readings(raw) && r < MATRIX_ROWS && c < MATRIX_COLS
    requires Scanned(ls, lc, st, ch, raw, now, ScanIndex(r, c))
    ensures ls[r][c] == st[r][c] && lc[r][c] == ch[r][c]
    ensures Fires(st, ch, raw, now, r, c) ==>
      Scanned(SetCell(ls, r, c, Pressed(raw[c][r])), SetCell(lc, r, c, now), st, ch, raw, now, ScanIndex(r, c) + 1)
    ensures !Fires(st, ch, raw, now, r, c) ==> Scanned(ls, lc, st, ch, raw, now, ScanIndex(r, c) + 1)
  {
    assert forall i: nat, j: nat :: i < MATRIX_ROWS && j < MATRIX_COLS ==> (ScanIndex(i, j) == ScanIndex(r, c) <==> i == r && j == c);
  }

  /** After all cells, the cell-by-cell description is the scan's result. */
  lemma ScannedAll(ls: seq<seq<Level>>, lc: seq<seq<Ticks>>, st: seq<seq<Level>>, ch: seq<seq<Ticks>>, raw: seq<seq<Level>>, now: Ticks, k: nat)
    requires WellShaped(st) && WellShaped(ch) && Readings(raw) && Scanned(ls, lc, st, ch, raw, now, k)
    ensures ls == ScanStates(st, ch, raw, now, k) && lc == ScanChanges(st, ch, raw, now, k)
  {
    var s2, c2 := ScanStates(st, ch, raw, now, k), ScanChanges(st, ch, raw, now, k);
    forall i | 0 <= i < MATRIX_ROWS ensures ls[i] == s2[i] && lc[i] == c2[i] {
      assert forall j :: 0 <= j < MATRIX_COLS ==> ls[i][j] == s2[i][j] && lc[i][j] == c2[i][j];
    }
  }

  /** `grid[r][c] = v`. */
  function SetCell<T>(grid: seq<seq<T>>, r: nat, c: nat, v: T): (g: seq<seq<T>>)
    requires r < |grid| && c < |grid[r]|
    ensures |g| == |grid| && forall i :: 0 <= i < |g| ==> |g[i]| == |grid[i]|
  {
    grid[r := grid[r][c := v]]
  }

  /** The nested loops of `send_config_to_web` that fill the `keys` dict. */
  method CollectKeys(km: Keymap) returns (keys: seq<(string, Json)>)
    requires WellShaped(km)
    ensures keys == ConfigKeys(km, MATRIX_ROWS)
  {
    keys := [];
    var r := 0;
    while r < MATRIX_ROWS
      invariant 0 <= r <= MATRIX_ROWS && keys == ConfigKeys(km, r)
    {
      var c := 0;
      while c < MATRIX_COLS
        invariant 0 <= c <= MATRIX_COLS && keys == ConfigKeys(km, r) + RowKeys(km, r, c)
      {
        ghost var before := keys;
        var cell := km[r][c];
        if cell.Some? && Truthy(cell.value) {
          keys := keys + [KeyEntry(r, c, cell.value)];
        }
        assert keys == before + CellKeys(km, r, c);
        c := c + 1;
      }
      r := r + 1;
    }
  }

  // ------------------------------------------------------ the firmware state

  /** The globals of main.py that these handlers read and write. */
  class Keypad {
    var keymap: Keymap
    var lastState: seq<seq<Level>>
    var lastChange: seq<seq<Ticks>>
    /** The levels last written to the column pins. */
    var cols: seq<Level>
    var encoderLastState: Level
    var encoderButtonPressed: bool
    var lastEncoderRead: Ticks
    var lastButtonPress: Ticks
    var encoderPosition: int
    var ledBrightness: int
    var backlightEnabled: Json
    /** The duty last written to the LED PWM; None without a PWM. */
    var duty: Option<int>
    /** Whether `PWM(Pin(LED_PIN))` succeeded at start-up. */
    const pwmReady: bool
    /** The messages handed to `send_to_web`, oldest first. */
    var outbox: seq<Json>
    var otaInProgress: bool
    var otaChunkCount: nat
    var otaTotalChunks: Json
    var otaFileSize: Json

    function Ota(): OtaState
      reads this`otaInProgress, this`otaChunkCount, this`otaTotalChunks, this`otaFileSize
    {
      OtaState(otaInProgress, otaChunkCount, otaTotalChunks, otaFileSize)
    }

    function Light(): Backlight
      reads this`ledBrightness, this`backlightEnabled, this`duty
    {
      Backlight(ledBrightness, backlightEnabled, duty)
    }

    function Encoder(): EncoderState
      reads this`encoderLastState, this`encoderButtonPressed, this`lastEncoderRead, this`lastButtonPress, this`encoderPosition
    {
      EncoderState(encoderLastState, encoderButtonPressed, lastEncoderRead, lastButtonPress, encoderPosition)
    }

    predicate Valid()
      reads this`keymap, this`lastState, this`lastChange, this`cols, this`encoderPosition
      reads this`ledBrightness, this`backlightEnabled, this`duty
    {
      TablesOk() && -1 <= encoderPosition <= 1 && LightOk()
    }

    /** The keymap, the debounce tables and the column levels have the matrix's shape. */
    predicate TablesOk()
      reads this`keymap, this`lastState, this`lastChange, this`cols
    {
      WellShaped(keymap) && CellsTruthy(keymap) && WellShaped(lastState) && WellShaped(lastChange) &&
      |cols| == MATRIX_COLS
    }

    predicate LightOk()
      reads this`ledBrightness, this`backlightEnabled, this`duty
    {
      BacklightOk(Light())
    }

    /** The module-level initialisation; `clk` is the first CLK reading. */
    constructor (pwmReady: bool, clk: Level)
      ensures Valid() && this.pwmReady == pwmReady
      ensures keymap == InitialKeymap() && outbox == [] && Ota() == OTA_IDLE
      ensures forall r, c :: 0 <= r < MATRIX_ROWS && 0 <= c < MATRIX_COLS ==> lastState[r][c] == 0 && lastChange[r][c] == 0
      ensures Encoder() == EncoderState(clk, false, 0, 0, 0)
      ensures Light() == Backlight(128, JBool(true), if pwmReady then Some(128) else None)
    {
      this.pwmReady := pwmReady;
      keymap := InitialKeymap();
      lastState := seq(MATRIX_ROWS, _ => seq(MATRIX_COLS, _ => 0));
      lastChange := seq(MATRIX_ROWS, _ => seq(MATRIX_COLS, _ => 0));
      cols := seq(MATRIX_COLS, _ => 1);
      encoderLastState := clk;
      encoderButtonPressed := false;
      lastEncoderRead := 0;
      lastButtonPress := 0;
      encoderPosition := 0;
      ledBrightness := 128;
      backlightEnabled := JBool(true);
      duty := if pwmReady then Some(128) else None;
      outbox := [];
      otaInProgress := false;
      otaChunkCount := 0;
      otaTotalChunks := JNum(0);
      otaFileSize := JNum(0);
    }

    /** `set_led_brightness(b)`. */
    method SetLedBrightness(b: int)
      requires Valid()
      modifies this`ledBrightness, this`duty
      ensures Valid()
      ensures Light() == SetBrightness(old(Light()), pwmReady, b)
    {
      ledBrightness := Clamp(b);
      if pwmReady {
        DutyRange(0, ledBrightness);
        duty := Some(DutyFor(ledBrightness));
      }
    }

    /** The `"enabled"` part of `handle_backlight_message(data)`. */
    method ApplyEnabled(data: Json)
      requires Valid()
      modifies this`ledBrightness, this`duty, this`backlightEnabled
      ensures Valid()
      ensures Light() == BacklightEnable(old(Light()), pwmReady, data)
    {
      var enabled := Field(data, "enabled");
      if enabled.Some? {
        backlightEnabled := enabled.value;
        if !Truthy(backlightEnabled) && pwmReady {
          duty := Some(0);
        } else if Truthy(backlightEnabled) && pwmReady {
          SetLedBrightness(ledBrightness);
        }
      }
    }

    /** `handle_backlight_message(data)`; `ok` is false when it raised. */
    method HandleBacklightMessage(data: Json) returns (ok: bool)
      requires Valid()
      modifies this`ledBrightness, this`duty, this`backlightEnabled, this`outbox
      ensures Valid()
      ensures (Light(), ok) == BacklightUpdate(old(Light()), pwmReady, data)
      ensures outbox == old(outbox) + (if ok then [StatusMessage("Backlight config updated")] else [])
    {
      ApplyEnabled(data);
      var brightness := Field(data, "brightness");
      if brightness.Some? {
        var arg := BrightnessArg(brightness.value);
        if arg.None? {
          return false;
        }
        SetLedBrightness(arg.value);
      }
      outbox := outbox + [StatusMessage("Backlight config updated")];
      ok := true;
    }

    /** `handle_config_message(data)`; `ok` is false when `keys.items()` raised. */
    method HandleConfigMessage(data: Json) returns (ok: bool)
      requires Valid()
      modifies this`keymap, this`outbox
      ensures Valid()
      ensures ok == ConfigUpdate(old(keymap), data).Some?
      ensures keymap == if ok then ConfigUpdate(old(keymap), data).value else old(keymap)
      ensures outbox == old(outbox) + (if ok then [StatusMessage("Configuration updated")] else [])
    {
      var keys := Field(data, "keys");
      if keys.Some? {
        if !keys.value.JObj? {
          return false;
        }
        ghost var km0 := keymap;
        ApplyConfigKeys(keys.value.members);
        ApplyKeysTruthy(km0, keys.value.members);
      }
      outbox := outbox + [StatusMessage("Configuration updated")];
      ok := true;
    }

    /** The `for key_id, key_config in keys.items()` loop of `handle_config_message`. */
    method ApplyConfigKeys(items: seq<(string, Json)>)
      requires WellShaped(keymap)
      modifies this`keymap
      ensures keymap == ApplyKeys(old(keymap), items)
    {
      var i := 0;
      while i < |items|
        invariant 0 <= i <= |items|
        invariant WellShaped(keymap) && keymap == ApplyKeys(old(keymap), items[..i])
      {
        ApplyKeysStep(old(keymap), items, i);
        var (keyId, keyConfig) := items[i];
        var cell := KeyCell(keyId);
        if cell.Some? && keyConfig.JObj? {
          var (row, col) := cell.value;
          keymap := keymap[row := keymap[row][col := CellValue(keyConfig)]];
        }
        i := i + 1;
      }
      assert items[..|items|] == items;
    }

    /** `send_config_to_web()`: one configuration message holding every truthy cell. */
    method SendConfigToWeb()
      requires Valid()
      modifies this`outbox
      ensures outbox == old(outbox) + [ConfigMessage(ConfigKeys(keymap, MATRIX_ROWS))]
    {
      var keys := CollectKeys(keymap);
      outbox := outbox + [ConfigMessage(keys)];
    }

    /**
     * `scan_matrix()` at time `now`: each column driven LOW in turn, each
     * row read, a debounced change recorded and reported; all columns HIGH
     * at the end.
     */
    method ScanMatrix(now: Ticks, raw: seq<seq<Level>>) returns (events: seq<KeyEvent>)
      requires Valid() && Readings(raw)
      modifies this`lastState, this`lastChange, this`cols
      ensures Valid()
      ensures lastState == ScanStates(old(lastState), old(lastChange), raw, now, CELLS)
      ensures lastChange == ScanChanges(old(lastState), old(lastChange), raw, now, CELLS)
      ensures events == ScanEvents(keymap, old(lastState), old(lastChange), raw, now, MATRIX_COLS)
      ensures cols == [1, 1, 1, 1]
    {
      ghost var st0, ch0 := lastState, lastChange;
      ScannedStart(st0, ch0, raw, now);
      events := [];
      var c := 0;
      while c < MATRIX_COLS
        invariant 0 <= c <= MATRIX_COLS && |cols| == MATRIX_COLS
        invariant Scanned(lastState, lastChange, st0, ch0, raw, now, ScanIndex(0, c))
        invariant events == ScanEvents(keymap, st0, ch0, raw, now, c)
      {
        for i := 0 to MATRIX_COLS
          invariant |cols| == MATRIX_COLS
          modifies this`cols
        {
          cols := cols[i := if i == c then 0 else 1];
        }
        var found := ScanColumn(now, raw, c, st0, ch0);
        assert ScanIndex(MATRIX_ROWS, c) == ScanIndex(0, c + 1);
        events := events + found;
        c := c + 1;
      }
      ScannedAll(lastState, lastChange, st0, ch0, raw, now, ScanIndex(0, MATRIX_COLS));
      for i := 0 to MATRIX_COLS
        invariant |cols| == MATRIX_COLS && forall j :: 0 <= j < i ==> cols[j] == 1
        modifies this`cols
      {
        cols := cols[i := 1];
      }
    }

    /** The row loop of `scan_matrix()` while column c is driven LOW. */
    method ScanColumn(now: Ticks, raw: seq<seq<Level>>, c: nat, ghost st0: seq<seq<Level>>, ghost ch0: seq<seq<Ticks>>)
      returns (found: seq<KeyEvent>)
      requires WellShaped(keymap) && WellShaped(st0) && WellShaped(ch0) && Readings(raw) && c < MATRIX_COLS
      requires Scanned(lastState, lastChange, st0, ch0, raw, now, ScanIndex(0, c))
      modifies this`lastState, this`lastChange
      ensures Scanned(lastState, lastChange, st0, ch0, raw, now, ScanIndex(0, c + 1))
      ensures found == ColumnEvents(keymap, st0, ch0, raw, now, c, MATRIX_ROWS)
    {
      found := [];
      var r := 0;
      while r < MATRIX_ROWS
        invariant 0 <= r <= MATRIX_ROWS
        invariant Scanned(lastState, lastChange, st0, ch0, raw, now, ScanIndex(r, c))
        invariant found == ColumnEvents(keymap, st0, ch0, raw, now, c, r)
      {
        ScannedStep(lastState, lastChange, st0, ch0, raw, now, r, c);
        assert ScanIndex(r + 1, c) == ScanIndex(r, c) + 1;
        var pressed := if raw[c][r] == 0 then 1 else 0;
        if pressed != lastState[r][c] {
          if TicksDiff(now, lastChange[r][c]) > DEBOUNCE_MS {
            lastChange := SetCell(lastChange, r, c, now);
            lastState := SetCell(lastState, r, c, pressed);
            var symbol := if c < |keymap[r]| then keymap[r][c] else None;
            found := found + [KeyEvent(symbol, pressed, r, c)];
          }
        }
        r := r + 1;
      }
      assert ScanIndex(MATRIX_ROWS, c) == ScanIndex(0, c + 1);
    }

    /** `handle_encoder()` at time `now`; `volume` is the `adjust_volume` direction (0 for none), `mute` whether `toggle_mute` ran. */
    method HandleEncoder(now: Ticks, clk: Level, dt: Level, sw: Level) returns (volume: int, mute: bool)
      requires Valid()
      modifies this`encoderLastState, this`encoderButtonPressed, this`lastEncoderRead, this`lastButtonPress, this`encoderPosition
      ensures Valid()
      ensures (Encoder(), EncoderAction(volume, mute)) == EncoderStep(old(Encoder()), now, clk, dt, sw)
    {
      EncoderAccumulates(Encoder(), now, clk, dt, sw);
      volume := TurnEncoder(now, clk, dt);
      mute := PressEncoder(now, sw);
    }

    /** The rotation half of `handle_encoder()`: `volume` is the `adjust_volume` direction, 0 for none. */
    method TurnEncoder(now: Ticks, clk: Level, dt: Level) returns (volume: int)
      modifies this`encoderLastState, this`lastEncoderRead, this`encoderPosition
      ensures (Encoder(), volume) == EncoderVolume(EncoderRead(old(Encoder()), now, clk, dt))
    {
      if TicksDiff(now, lastEncoderRead) > ENCODER_READ_GAP_MS {
        if clk != encoderLastState {
          if dt != clk {
            encoderPosition := encoderPosition + 1;
          } else {
            encoderPosition := encoderPosition - 1;
          }
          lastEncoderRead := now;
        }
        encoderLastState := clk;
      }
      volume := 0;
      if encoderPosition >= 2 {
        volume := 1;
        encoderPosition := 0;
      } else if encoderPosition <= -2 {
        volume := -1;
        encoderPosition := 0;
      }
    }

    /** The button half of `handle_encoder()`: whether `toggle_mute` ran. */
    method PressEncoder(now: Ticks, sw: Level) returns (mute: bool)
      modifies this`encoderButtonPressed, this`lastButtonPress
      ensures (Encoder(), mute) == EncoderPress(old(Encoder()), now, sw)
    {
      mute := false;
      if sw == 0 && !encoderButtonPressed && TicksDiff(now, lastButtonPress) > BUTTON_GAP_MS {
        encoderButtonPressed := true;
        lastButtonPress := now;
        mute := true;
      } else if sw == 1 {
        encoderButtonPressed := false;
      }
    }

    /** `handle_ota_start(data)`; `open` and the text of the exception come from `io`. */
    method HandleOtaStart(data: Json, io: OtaIo)
      modifies this`otaInProgress, this`otaChunkCount, this`otaTotalChunks, this`otaFileSize, this`outbox
      ensures var (o, sent) := OtaStart(old(Ota()), data, io);
        Ota() == o && outbox == old(outbox) + sent
    {
      otaFileSize := Get(data, "size", JNum(0));
      otaTotalChunks := Get(data, "chunks", JNum(0));
      var filename := Get(data, "filename", JStr("main.py"));
      if otaInProgress {
        outbox := outbox + [StatusMessage("OTA already in progress")];
        return;
      }
      // `filename + ".tmp"` raises TypeError for a name that is no string.
      if !filename.JStr? || !io.openOk {
        otaInProgress := false;
        outbox := outbox + [StatusMessage("OTA error: " + io.errorText)];
        return;
      }
      otaInProgress := true;
      otaChunkCount := 0;
      outbox := outbox + [StatusMessage("OTA: Starting update...")];
      outbox := outbox + [OtaStatus("started", "OTA update started")];
    }

    /** `handle_ota_end(data)`; `reset` is whether it reached `machine.reset()`, after which nothing runs. */
    method HandleOtaEnd(io: OtaIo) returns (reset: bool)
      modifies this`otaInProgress, this`outbox
      ensures var e := OtaEnd(old(Ota()), io);
        Ota() == e.state && outbox == old(outbox) + e.sent && reset == e.reset
    {
      reset := false;
      if !otaInProgress {
        outbox := outbox + [StatusMessage("OTA: No update in progress")];
        return;
      }
      var s := Ota();
      var total := PyNumber(otaTotalChunks);
      if total.None? {
        // `ota_chunk_count < ota_total_chunks` raises TypeError.
        outbox := outbox + [StatusMessage("OTA error: " + io.errorText)];
        otaInProgress := false;
        return;
      }
      if otaChunkCount < total.value {
        outbox := outbox + [StatusMessage(IncompleteText(s, io))];
        otaInProgress := false;
        return;
      }
      if io.statSize.None? || PyNumber(otaFileSize) != Some(io.statSize.value) {
        if io.statSize.None? {
          outbox := outbox + [StatusMessage("OTA error: " + io.errorText)];
        } else {
          outbox := outbox + [StatusMessage(MismatchText(s, io))];
        }
        otaInProgress := false;
        return;
      }
      if !io.renameOk {
        outbox := outbox + [StatusMessage("OTA error: " + io.errorText)];
        otaInProgress := false;
        return;
      }
      outbox := outbox + [StatusMessage("OTA: Update completed! Restarting...")];
      outbox := outbox + [OtaStatus("completed", "Update completed, restarting...")];
      reset := true;
    }

    /**
     * `process_web_message(message)`, given what `json.loads` gives; a
     * handler that raises is caught here and leaves what it changed so far.
     */
    method ProcessWebMessage(message: string, parsed: Option<Json>, io: OtaIo) returns (route: Route, reset: bool)
      requires Valid()
      modifies this`keymap, this`ledBrightness, this`duty, this`backlightEnabled, this`outbox
      modifies this`otaInProgress, this`otaChunkCount, this`otaTotalChunks, this`otaFileSize
      ensures Valid() && route == RouteOf(message, parsed)
      ensures var e := WebEffect(route, parsed, pwmReady, old(keymap), old(Light()), old(Ota()), io);
        keymap == e.keymap && Light() == e.light && Ota() == e.ota && outbox == old(outbox) + e.sent && reset == e.reset
    {
      route := RouteOf(message, parsed);
      reset := Dispatch(route, parsed, io);
    }

    /** The handler call of `process_web_message` for the route its message takes. */
    method Dispatch(route: Route, parsed: Option<Json>, io: OtaIo) returns (reset: bool)
      requires Valid() && (route in {ConfigRoute, BacklightRoute, OtaStartRoute} ==> parsed.Some?)
      modifies this`keymap, this`ledBrightness, this`duty, this`backlightEnabled, this`outbox
      modifies this`otaInProgress, this`otaChunkCount, this`otaTotalChunks, this`otaFileSize
      ensures Valid()
      ensures var e := WebEffect(route, parsed, pwmReady, old(keymap), old(Light()), old(Ota()), io);
        keymap == e.keymap && Light() == e.light && Ota() == e.ota && outbox == old(outbox) + e.sent && reset == e.reset
    {
      if route in {OtaStartRoute, OtaEndRoute} {
        reset := HandleOta(route, parsed, io);
      } else {
        reset := false;
        ApplySetting(route, parsed, io);
      }
    }

    /** The two handlers of `process_web_message` that read or change the OTA globals. */
    method HandleOta(route: Route, parsed: Option<Json>, io: OtaIo) returns (reset: bool)
      requires Valid() && route in {OtaStartRoute, OtaEndRoute} && (route == OtaStartRoute ==> parsed.Some?)
      modifies this`otaInProgress, this`otaChunkCount, this`otaTotalChunks, this`otaFileSize, this`outbox
      ensures var e := WebEffect(route, parsed, pwmReady, keymap, Light(), old(Ota()), io);
        Ota() == e.ota && outbox == old(outbox) + e.sent && reset == e.reset
    {
      if route == OtaStartRoute {
        HandleOtaStart(parsed.value, io);
        reset := false;
      } else {
        reset := HandleOtaEnd(io);
      }
    }

    /** The other handlers of `process_web_message`; they leave the OTA globals alone. */
    method ApplySetting(route: Route, parsed: Option<Json>, io: OtaIo)
      requires Valid() && route !in {OtaStartRoute, OtaEndRoute} && (route in {ConfigRoute, BacklightRoute} ==> parsed.Some?)
      modifies this`keymap, this`ledBrightness, this`duty, this`backlightEnabled, this`outbox
      ensures Valid()
      ensures var e := WebEffect(route, parsed, pwmReady, old(keymap), old(Light()), Ota(), io);
        keymap == e.keymap && Light() == e.light && outbox == old(outbox) + e.sent
    {
      match route {
        case ConfigRoute =>
          var _ := HandleConfigMessage(parsed.value);
        case BacklightRoute =>
          var _ := HandleBacklightMessage(parsed.value);
        case DisplayRoute =>
          outbox := outbox + [StatusMessage("Display config updated")];
        case GetConfigRoute =>
          SendConfigToWeb();
        case GetLightRoute =>
          outbox := outbox + [LightMessage()];
        case StatusRoute =>
          outbox := outbox + [StatusMessage("Macropad ready")];
        case _ =>
      }
    }
  }
}
