/**
 * The key matrix scan of the ESP32 firmware,
 * firmware/esp32/esp32_micropython/KeyMatrix.cpp: five rows read through
 * pull-ups while one of four columns is driven LOW, a debounce per key, a
 * callback on each debounced press, and autorepeat while a key is held.
 *
 * `millis()` is an `unsigned long`, 32 bits wide on the ESP32, so the time
 * differences wrap modulo 2^32 (`ElapsedU32`). The row readings are a
 * parameter of the scan: `reading[c][r]` is true when row `r` reads LOW while
 * column `c` is driven. The callback is recorded as the sequence of its
 * calls.
 */
module EspKeyMatrix {
  import opened Common

  const NUM_ROWS: nat := 5
  const NUM_COLS: nat := 4
  const DEBOUNCE_MS: u16 := 25
  const REPEAT_DELAY_MS: u32 := 500
  const REPEAT_INTERVAL_MS: u32 := 50

  /** One call of the key callback: `(row, col, pressed, isRepeat)`. */
  datatype KeyEvent = KeyEvent(row: nat, col: nat, pressed: bool, isRepeat: bool)

  /** The three per-key cells: `_lastState`, `_lastChange` and `_lastRepeat`. */
  datatype Key = Key(state: byte, lastChange: u32, lastRepeat: u32)

  /** What one key does in one scan: its new cells and the callback calls made for it. */
  datatype KeyScan = KeyScan(key: Key, events: seq<KeyEvent>)

  /** The value `pressed` takes in the scan loop: 1 for a row reading LOW. */
  function Bit(pressed: bool): byte
  {
    if pressed then 1 else 0
  }

  /** The body of the row loop of `scan()` for the key at row `r`, column `c`. */
  function KeyStep(k: Key, pressed: bool, now: u32, debounceMs: u16, callback: bool, r: nat, c: nat): (ks: KeyScan)
    ensures |ks.events| <= 1 && (ks.events != [] ==> callback && pressed && ks.events[0].row == r && ks.events[0].col == c)
    ensures ks.key.state == k.state || (ks.key.state == Bit(pressed) && ElapsedU32(now, k.lastChange) > debounceMs)
    ensures ks.events != [] && !ks.events[0].isRepeat ==> ks.key.state == 1 != k.state
  {
    if Bit(pressed) != k.state then
      if ElapsedU32(now, k.lastChange) > debounceMs then
        KeyScan(Key(Bit(pressed), now, if pressed then now else 0),
                if callback && pressed then [KeyEvent(r, c, true, false)] else [])
      else KeyScan(k, [])
    else if pressed && k.state != 0 && callback then
      if ElapsedU32(now, k.lastChange) >= REPEAT_DELAY_MS && ElapsedU32(now, k.lastRepeat) >= REPEAT_INTERVAL_MS then
        KeyScan(Key(k.state, k.lastChange, now), [KeyEvent(r, c, true, true)])
      else KeyScan(k, [])
    else KeyScan(k, [])
  }

  /** A table of keys, five rows of four columns. */
  predicate KeysShape(keys: seq<seq<Key>>)
  {
    |keys| == NUM_ROWS && forall r :: 0 <= r < NUM_ROWS ==> |keys[r]| == NUM_COLS
  }

  /** The readings of one scan, four columns of five rows. */
  predicate ReadingShape(reading: seq<seq<bool>>)
  {
    |reading| == NUM_COLS && forall c :: 0 <= c < NUM_COLS ==> |reading[c]| == NUM_ROWS
  }

  /**
   * The callback calls of the keys `scan()` visits before row `r` of column
   * `c`: all rows of the columns before `c`, then rows 0 to `r` - 1 of `c`.
   * The whole scan is `ScanEvents(.., NUM_COLS, 0)`.
   */
  function ScanEvents(keys: seq<seq<Key>>, reading: seq<seq<bool>>, now: u32, debounceMs: u16, callback: bool,
                      c: nat, r: nat): seq<KeyEvent>
    requires KeysShape(keys) && ReadingShape(reading) && r <= NUM_ROWS && (c < NUM_COLS || (c == NUM_COLS && r == 0))
    decreases c, r
  {
    if r == 0 then
      if c == 0 then [] else ScanEvents(keys, reading, now, debounceMs, callback, c - 1, NUM_ROWS)
    else
      ScanEvents(keys, reading, now, debounceMs, callback, c, r - 1)
        + KeyStep(keys[r - 1][c], reading[c][r - 1], now, debounceMs, callback, r - 1, c).events
  }

  /** The column levels while column `c` is read: every column HIGH except `c`. */
  function DriveOnly(c: nat): seq<bool>
  {
    seq(NUM_COLS, i => i != c)
  }

  /** Every key stepped once against the reading of its row. */
  function StepAll(keys: seq<seq<Key>>, reading: seq<seq<bool>>, now: u32, debounceMs: u16, callback: bool): (r: seq<seq<Key>>)
    requires KeysShape(keys) && ReadingShape(reading)
    ensures KeysShape(r)
  {
    seq(NUM_ROWS, i requires 0 <= i < NUM_ROWS =>
      seq(NUM_COLS, j requires 0 <= j < NUM_COLS => KeyStep(keys[i][j], reading[j][i], now, debounceMs, callback, i, j).key))
  }

  const ALL_HIGH: seq<bool> := [true, true, true, true]

  // ------------------------------------------------------------ properties

  /**
   * The debounced state changes exactly when the reading differs from it and
   * more than `debounceMs` have passed since its last change; the change is
   * then stamped with `now`, and `_lastRepeat` is `now` for a press and 0 for
   * a release.
   */
  lemma DebounceFlips(k: Key, pressed: bool, now: u32, debounceMs: u16, callback: bool, r: nat, c: nat)
    ensures var s := KeyStep(k, pressed, now, debounceMs, callback, r, c);
      s.key.state != k.state <==> Bit(pressed) != k.state && ElapsedU32(now, k.lastChange) > debounceMs
    ensures var s := KeyStep(k, pressed, now, debounceMs, callback, r, c);
      s.key.state != k.state ==> s.key == Key(Bit(pressed), now, if pressed then now else 0)
    ensures var s := KeyStep(k, pressed, now, debounceMs, callback, r, c);
      s.key.state == k.state ==> s.key.lastChange == k.lastChange
  {
  }

  /** A debounced press calls the callback once, as a first press; a debounced release calls nothing. */
  lemma PressReportedOnce(k: Key, pressed: bool, now: u32, debounceMs: u16, callback: bool, r: nat, c: nat)
    requires KeyStep(k, pressed, now, debounceMs, callback, r, c).key.state != k.state
    ensures var s := KeyStep(k, pressed, now, debounceMs, callback, r, c);
      s.events == if pressed && callback then [KeyEvent(r, c, true, false)] else []
  {
  }

  /**
   * A repeat is reported exactly for a key held down with a callback set,
   * at least 500 ms after its press and 50 ms after its last repeat; it
   * stamps `_lastRepeat` and nothing else.
   */
  lemma RepeatWhileHeld(k: Key, pressed: bool, now: u32, debounceMs: u16, callback: bool, r: nat, c: nat)
    ensures var s := KeyStep(k, pressed, now, debounceMs, callback, r, c);
      (s.events == [KeyEvent(r, c, true, true)]) <==>
        pressed && k.state == 1 && callback
        && ElapsedU32(now, k.lastChange) >= REPEAT_DELAY_MS && ElapsedU32(now, k.lastRepeat) >= REPEAT_INTERVAL_MS
    ensures var s := KeyStep(k, pressed, now, debounceMs, callback, r, c);
      s.events == [KeyEvent(r, c, true, true)] ==> s.key == Key(k.state, k.lastChange, now)
  {
  }

  /** A key makes at most one call per scan, always with `pressed` true, always naming itself. */
  lemma OneEventPerKey(k: Key, pressed: bool, now: u32, debounceMs: u16, callback: bool, r: nat, c: nat)
    ensures var s := KeyStep(k, pressed, now, debounceMs, callback, r, c);
      |s.events| <= 1 && forall e :: e in s.events ==> e.pressed && e.row == r && e.col == c
    ensures !callback ==> KeyStep(k, pressed, now, debounceMs, callback, r, c).events == []
  {
  }

  /** A bounce is ignored: after a change at `t1` the state changes again only more than `debounceMs` later. */
  lemma BounceIgnored(k: Key, p1: bool, t1: u32, p2: bool, t2: u32, debounceMs: u16, callback: bool, r: nat, c: nat)
    requires KeyStep(k, p1, t1, debounceMs, callback, r, c).key.state != k.state
    ensures var k1 := KeyStep(k, p1, t1, debounceMs, callback, r, c).key;
      KeyStep(k1, p2, t2, debounceMs, callback, r, c).key.state != k1.state ==> ElapsedU32(t2, t1) > debounceMs
  {
  }

  /** Two repeats of a key at `t1` and then `t2` are at least 50 ms apart, and both come 500 ms after the press. */
  lemma RepeatsSpaced(k: Key, t1: u32, t2: u32, debounceMs: u16, r: nat, c: nat)
    requires KeyStep(k, true, t1, debounceMs, true, r, c).events == [KeyEvent(r, c, true, true)]
    ensures var k1 := KeyStep(k, true, t1, debounceMs, true, r, c).key;
      KeyStep(k1, true, t2, debounceMs, true, r, c).events == [KeyEvent(r, c, true, true)] ==>
        ElapsedU32(t2, t1) >= REPEAT_INTERVAL_MS && ElapsedU32(t2, k.lastChange) >= REPEAT_DELAY_MS
  {
    RepeatWhileHeld(k, true, t1, debounceMs, true, r, c);
    var k1 := KeyStep(k, true, t1, debounceMs, true, r, c).key;
    RepeatWhileHeld(k1, true, t2, debounceMs, true, r, c);
  }

  /** The scan keeps every state a 0 or a 1. */
  lemma StateStaysBit(k: Key, pressed: bool, now: u32, debounceMs: u16, callback: bool, r: nat, c: nat)
    requires k.state <= 1
    ensures KeyStep(k, pressed, now, debounceMs, callback, r, c).key.state <= 1
  {
  }

  /** Every call of a scan is a press naming a key of the matrix, one the scan has already visited. */
  lemma {:induction false} ScanEventsInMatrix(keys: seq<seq<Key>>, reading: seq<seq<bool>>, now: u32, debounceMs: u16,
                                              callback: bool, c: nat, r: nat)
    requires KeysShape(keys) && ReadingShape(reading) && r <= NUM_ROWS && (c < NUM_COLS || (c == NUM_COLS && r == 0))
    ensures forall e :: e in ScanEvents(keys, reading, now, debounceMs, callback, c, r) ==>
      e.pressed && e.row < NUM_ROWS && e.col < NUM_COLS && (e.col < c || (e.col == c && e.row < r))
    decreases c, r
  {
    if r == 0 {
      if c > 0 {
        ScanEventsInMatrix(keys, reading, now, debounceMs, callback, c - 1, NUM_ROWS);
      }
    } else {
      ScanEventsInMatrix(keys, reading, now, debounceMs, callback, c, r - 1);
      OneEventPerKey(keys[r - 1][c], reading[c][r - 1], now, debounceMs, callback, r - 1, c);
    }
  }

  // ------------------------------------------------------------ the matrix

  /** The four column output pins: the level last written to each, HIGH as true. */
  class ColumnPins {
    var levels: seq<bool>

    /** No level written yet. */
    constructor()
      ensures levels == []
    {
      levels := [];
    }
  }


  /**
   * `KeyMatrix`: the three 5x4 arrays of per-key cells, whether a callback
   * is set, the debounce time, the column levels last written, and the
   * callback calls made so far.
   */
  class KeyMatrix {
    const lastState: array2<byte>
    const lastChange: array2<u32>
    const lastRepeat: array2<u32>
    var hasCallback: bool
    var debounceMs: u16
    const pins: ColumnPins
    var events: seq<KeyEvent>

    predicate Valid()
    {
      lastState.Length0 == NUM_ROWS && lastState.Length1 == NUM_COLS
      && lastChange.Length0 == NUM_ROWS && lastChange.Length1 == NUM_COLS
      && lastRepeat.Length0 == NUM_ROWS && lastRepeat.Length1 == NUM_COLS
      && lastChange != lastRepeat
    }

    function KeyAt(r: nat, c: nat): Key
      reads lastState, lastChange, lastRepeat
      requires Valid() && r < NUM_ROWS && c < NUM_COLS
    {
      Key(lastState[r, c], lastChange[r, c], lastRepeat[r, c])
    }

    /** The cells of row `r`, column by column. */
    function RowKeys(r: nat): (row: seq<Key>)
      reads lastState, lastChange, lastRepeat
      requires Valid() && r < NUM_ROWS
      ensures |row| == NUM_COLS && forall c :: 0 <= c < NUM_COLS ==> row[c] == KeyAt(r, c)
    {
      [KeyAt(r, 0), KeyAt(r, 1), KeyAt(r, 2), KeyAt(r, 3)]
    }

    /** The cells of all keys, row by row. */
    function Keys(): (keys: seq<seq<Key>>)
      reads lastState, lastChange, lastRepeat
      requires Valid()
      ensures KeysShape(keys)
      ensures forall r, c :: 0 <= r < NUM_ROWS && 0 <= c < NUM_COLS ==> keys[r][c] == KeyAt(r, c)
    {
      [RowKeys(0), RowKeys(1), RowKeys(2), RowKeys(3), RowKeys(4)]
    }

    /** The object as constructed: every cell 0, no callback, `DEBOUNCE_MS`, no column written yet. */
    constructor()
      ensures Valid() && fresh(lastState) && fresh(lastChange) && fresh(lastRepeat)
      ensures forall r, c :: 0 <= r < NUM_ROWS && 0 <= c < NUM_COLS ==> KeyAt(r, c) == Key(0, 0, 0)
      ensures !hasCallback && debounceMs == DEBOUNCE_MS && events == []
      ensures fresh(pins) && pins.levels == []
    {
      lastState := new byte[NUM_ROWS, NUM_COLS]((_, _) => 0);
      lastChange := new u32[NUM_ROWS, NUM_COLS]((_, _) => 0);
      lastRepeat := new u32[NUM_ROWS, NUM_COLS]((_, _) => 0);
      hasCallback := false;
      debounceMs := DEBOUNCE_MS;
      pins := new ColumnPins();
      events := [];
    }

    /** `begin()`: every column an output driven HIGH (the row pins become pulled-up inputs). */
    method Begin()
      modifies pins`levels
      ensures pins.levels == ALL_HIGH
    {
      var levels := [];
      for i := 0 to NUM_COLS
        invariant levels == seq(i, _ => true)
      {
        levels := levels + [true];
      }
      pins.levels := levels;
    }

    /** `setCallback(cb)`: whether `cb` is a callback or null. */
    method SetCallback(present: bool)
      modifies this`hasCallback
      ensures hasCallback == present
    {
      hasCallback := present;
    }

    /** `setDebounceMs(ms)`. */
    method SetDebounceMs(ms: u16)
      modifies this`debounceMs
      ensures debounceMs == ms
    {
      debounceMs := ms;
    }

    /** `isKeyPressed(row, col)`: false off the matrix, else whether the debounced state is nonzero. */
    function IsKeyPressed(row: u8, col: u8): (down: bool)
      reads lastState, lastChange, lastRepeat
      requires Valid()
      ensures down ==> row < NUM_ROWS && col < NUM_COLS
      ensures row < NUM_ROWS && col < NUM_COLS ==> (down <==> Keys()[row][col].state != 0)
    {
      if row >= NUM_ROWS || col >= NUM_COLS then false else lastState[row, col] != 0
    }

    /** The row loop body for the key at row `r`, column `c`, whose row reads `pressed`. */
    method ScanKey(r: nat, c: nat, pressed: bool, now: u32)
      requires Valid() && r < NUM_ROWS && c < NUM_COLS
      modifies lastState, lastChange, lastRepeat, this`events
      ensures var s := KeyStep(old(KeyAt(r, c)), pressed, now, debounceMs, hasCallback, r, c);
        KeyAt(r, c) == s.key && events == old(events) + s.events
      ensures forall rr, cc :: 0 <= rr < NUM_ROWS && 0 <= cc < NUM_COLS && (rr, cc) != (r, c) ==>
        KeyAt(rr, cc) == old(KeyAt(rr, cc))
    {
      var p: byte := if pressed then 1 else 0;
      if p != lastState[r, c] {
        if ElapsedU32(now, lastChange[r, c]) > debounceMs {
          lastChange[r, c] := now;
          lastState[r, c] := p;
          lastRepeat[r, c] := if p != 0 then now else 0;
          if hasCallback && p != 0 {
            events := events + [KeyEvent(r, c, true, false)];
          }
        }
      } else if p != 0 && lastState[r, c] != 0 && hasCallback {
        var hold := ElapsedU32(now, lastChange[r, c]);
        var since := ElapsedU32(now, lastRepeat[r, c]);
        if hold >= REPEAT_DELAY_MS && since >= REPEAT_INTERVAL_MS {
          lastRepeat[r, c] := now;
          events := events + [KeyEvent(r, c, true, true)];
        }
      }
    }

    /** The column loop of `scan()` before the rows of column `c` are read: `c` LOW, the others HIGH. */
    method DriveColumn(c: nat)
      modifies pins`levels
      ensures pins.levels == DriveOnly(c)
    {
      var levels := [];
      for i := 0 to NUM_COLS
        invariant levels == seq(i, j => j != c)
      {
        levels := levels + [i != c];
      }
      pins.levels := levels;
    }

    /** The key cells after the first `n` keys, in scan order (column by column), were stepped. */
    predicate SteppedUpTo(start: seq<seq<Key>>, stepped: seq<seq<Key>>, n: nat)
      reads lastState, lastChange, lastRepeat
      requires Valid() && KeysShape(start) && KeysShape(stepped)
    {
      forall rr, cc :: 0 <= rr < NUM_ROWS && 0 <= cc < NUM_COLS ==>
        KeyAt(rr, cc) == if 5 * cc + rr < n then stepped[rr][cc] else start[rr][cc]
    }

    /**
     * One pass of the row loop of `scan()`: the key at row `r` of column `c`
     * is stepped, after the keys visited before it and before those after it.
     */
    method ScanNext(r: nat, c: nat, now: u32, reading: seq<seq<bool>>, ghost start: seq<seq<Key>>,
                    ghost stepped: seq<seq<Key>>, ghost base: seq<KeyEvent>)
      requires Valid() && ReadingShape(reading) && KeysShape(start) && r < NUM_ROWS && c < NUM_COLS
      requires stepped == StepAll(start, reading, now, debounceMs, hasCallback)
      requires SteppedUpTo(start, stepped, 5 * c + r)
      requires events == base + ScanEvents(start, reading, now, debounceMs, hasCallback, c, r)
      modifies lastState, lastChange, lastRepeat, this`events
      ensures SteppedUpTo(start, stepped, 5 * c + r + 1)
      ensures events == base + ScanEvents(start, reading, now, debounceMs, hasCallback, c, r + 1)
    {
      label before:
      assert KeyAt(r, c) == start[r][c];
      ghost var visited := ScanEvents(start, reading, now, debounceMs, hasCallback, c, r);
      ghost var mine := KeyStep(start[r][c], reading[c][r], now, debounceMs, hasCallback, r, c).events;
      ScanKey(r, c, reading[c][r], now);
      assert KeyAt(r, c) == stepped[r][c];
      assert events == base + visited + mine;
      assert base + visited + mine == base + (visited + mine);
      assert ScanEvents(start, reading, now, debounceMs, hasCallback, c, r + 1) == visited + mine;
      forall rr, cc | 0 <= rr < NUM_ROWS && 0 <= cc < NUM_COLS
        ensures KeyAt(rr, cc) == if 5 * cc + rr < 5 * c + r + 1 then stepped[rr][cc] else start[rr][cc]
      {
        if rr != r || cc != c {
          assert KeyAt(rr, cc) == old@before(KeyAt(rr, cc));
        }
      }
    }

    /** The row loop of `scan()` for column `c`, which is driven LOW alone: rows 0 to 4 in turn. */
    method ScanColumn(c: nat, now: u32, reading: seq<seq<bool>>, ghost start: seq<seq<Key>>, ghost stepped: seq<seq<Key>>,
                      ghost base: seq<KeyEvent>)
      requires Valid() && ReadingShape(reading) && KeysShape(start) && c < NUM_COLS
      requires pins.levels == DriveOnly(c)
      requires stepped == StepAll(start, reading, now, debounceMs, hasCallback)
      requires SteppedUpTo(start, stepped, 5 * c)
      requires events == base + ScanEvents(start, reading, now, debounceMs, hasCallback, c, 0)
      modifies lastState, lastChange, lastRepeat, this`events
      ensures SteppedUpTo(start, stepped, 5 * (c + 1))
      ensures events == base + ScanEvents(start, reading, now, debounceMs, hasCallback, c + 1, 0)
    {
      for r := 0 to NUM_ROWS
        invariant events == base + ScanEvents(start, reading, now, debounceMs, hasCallback, c, r)
        invariant SteppedUpTo(start, stepped, 5 * c + r)
      {
        ScanNext(r, c, now, reading, start, stepped, base);
      }
      assert 5 * c + 5 == 5 * (c + 1);
    }

    /** The column loop of `scan()`: columns 0 to 3 in turn, each driven LOW alone while its rows are read. */
    method ScanColumns(now: u32, reading: seq<seq<bool>>, ghost start: seq<seq<Key>>, ghost stepped: seq<seq<Key>>)
      requires Valid() && ReadingShape(reading) && KeysShape(start)
      requires stepped == StepAll(start, reading, now, debounceMs, hasCallback)
      requires SteppedUpTo(start, stepped, 0)
      modifies lastState, lastChange, lastRepeat, this`events, pins`levels
      ensures Keys() == stepped
      ensures events == old(events) + ScanEvents(start, reading, now, debounceMs, hasCallback, NUM_COLS, 0)
    {
      for c := 0 to NUM_COLS
        invariant events == old(events) + ScanEvents(start, reading, now, debounceMs, hasCallback, c, 0)
        invariant SteppedUpTo(start, stepped, 5 * c)
      {
        DriveColumn(c);
        ScanColumn(c, now, reading, start, stepped, old(events));
      }
      AllStepped(start, stepped);
    }

    /**
     * `scan()` at time `now`: each column in turn driven LOW alone while its
     * five rows are read, every key stepped once, then all columns HIGH.
     */
    method Scan(now: u32, reading: seq<seq<bool>>)
      requires Valid() && ReadingShape(reading)
      modifies lastState, lastChange, lastRepeat, this`events, pins`levels
      ensures Keys() == StepAll(old(Keys()), reading, now, debounceMs, hasCallback)
      ensures events == old(events) + ScanEvents(old(Keys()), reading, now, debounceMs, hasCallback, NUM_COLS, 0)
      ensures pins.levels == ALL_HIGH
    {
      ghost var start := Keys();
      ghost var stepped := StepAll(start, reading, now, debounceMs, hasCallback);
      ScanColumns(now, reading, start, stepped);
      Begin();
    }

    /** Once all 20 keys were visited, the cells are the stepped table. */
    lemma AllStepped(start: seq<seq<Key>>, stepped: seq<seq<Key>>)
      requires Valid() && KeysShape(start) && KeysShape(stepped)
      requires SteppedUpTo(start, stepped, 20)
      ensures Keys() == stepped
    {
      forall r | 0 <= r < NUM_ROWS
        ensures Keys()[r] == stepped[r]
      {
        forall c | 0 <= c < NUM_COLS
          ensures Keys()[r][c] == stepped[r][c]
        {
          assert 5 * c + r < 20;
        }
      }
    }
  }
}
