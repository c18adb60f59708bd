/**
 * `handleESP32Message` of public/scripts/main.js: what the configuration
 * page does with one parsed JSON message from the ESP32. A key press
 * flashes a key of the on-screen grid (three physical keys belong to a
 * double-size key drawn elsewhere), a light reading updates the ambient
 * light panel when it differs from the last one, and a `uart_log` line goes
 * to the serial monitor, where a `[LIGHT] Level: NNN` debug line also
 * counts as a light reading.
 */
module WebMessages {
  import opened Common
  import opened WebFraming
  import opened WebHelpers

  // ------------------------------------------------- JavaScript values

  /** JavaScript truthiness of a parsed value. */
  predicate Truthy(v: Json)
  {
    match v
    case JNull => false
    case JBool(b) => b
    case JNum(n) => n != 0
    case JStr(s) => s != ""
    case _ => true
  }

  /** `String(v)`, as a template literal or `+` applies it; nothing stands for `undefined`. */
  function JsString(v: Option<Json>): string
  {
    if v.None? then "undefined" else ValueText(v.value)
  }

  function ValueText(v: Json): string
    decreases v, 1
  {
    match v
    case JNull => "null"
    case JBool(b) => if b then "true" else "false"
    case JNum(n) => IntText(n)
    case JStr(s) => s
    case JArr(items) => ElementsText(v, 0)
    case JObj(_) => "[object Object]"
  }

  /** `Array.prototype.join(',')` on the elements from k on; a `null` element shows as nothing. */
  function ElementsText(arr: Json, k: nat): string
    requires arr.JArr? && k <= |arr.items|
    decreases arr, 0, |arr.items| - k
  {
    if k == |arr.items| then ""
    else
      (if k > 0 then "," else "") + (if arr.items[k].JNull? then "" else ValueText(arr.items[k])) +
      ElementsText(arr, k + 1)
  }

  /** `a === b` between two values parsed from different lines: arrays and objects are never the same object. */
  predicate StrictEquals(a: Json, b: Json)
  {
    (a.JNull? || a.JBool? || a.JNum? || a.JStr?) && a == b
  }

  // ------------------------------------------------- key press

  /** `({ '2-3': '1-3', '4-2': '4-1', '4-3': '3-3' })[keyId] || keyId`. */
  function DisplayKeyId(keyId: string): string
  {
    if keyId == "2-3" then "1-3" else if keyId == "4-2" then "4-1" else if keyId == "4-3" then "3-3" else keyId
  }

  /** Exactly three keys flash another key of the grid, and a shown key is never itself remapped. */
  lemma DisplayKeyIdShape(keyId: string)
    ensures DisplayKeyId(keyId) != keyId <==> keyId in {"2-3", "4-2", "4-3"}
    ensures DisplayKeyId(DisplayKeyId(keyId)) == DisplayKeyId(keyId)
    ensures DisplayKeyId(keyId) !in {"2-3", "4-2", "4-3"}
  {
  }

  // ------------------------------------------------- the LIGHT debug line

  /** The first position at or after i that is not white space (`\s*`, greedy). */
  function SkipSpaces(s: string, i: nat): (j: nat)
    requires i <= |s|
    ensures i <= j <= |s| && (j == |s| || !IsJsSpace(s[j]))
    ensures forall k :: i <= k < j ==> IsJsSpace(s[k])
    decreases |s| - i
  {
    if i < |s| && IsJsSpace(s[i]) then SkipSpaces(s, i + 1) else i
  }

  predicate HasAt(s: string, i: nat, word: string)
  {
    i + |word| <= |s| && s[i..i + |word|] == word
  }

  /**
   * The digits group of `/\[LIGHT\]\s*Level:\s*(\d+)/` when the match
   * starts at i. Neither `L` nor a digit is white space, so the greedy
   * `\s*` never has to give characters back.
   */
  function LightMatchAt(s: string, i: nat): (r: Option<string>)
    requires i <= |s|
    ensures r.Some? ==> |r.value| > 0 && AllDigits(r.value)
  {
    if !HasAt(s, i, "[LIGHT]") then None
    else
      var j := SkipSpaces(s, i + 7);
      if !HasAt(s, j, "Level:") then None
      else
        var k := SkipSpaces(s, j + 6);
        var d := LeadingDigits(s[k..]);
        if |d| == 0 then None else Some(d)
  }

  /** The leftmost match at or after i: `msg.match(...)[1]`, or nothing. */
  function FindLevel(s: string, i: nat): (r: Option<string>)
    requires i <= |s|
    ensures r.Some? ==> |r.value| > 0 && AllDigits(r.value)
    decreases |s| - i
  {
    if LightMatchAt(s, i).Some? then LightMatchAt(s, i)
    else if i == |s| then None
    else FindLevel(s, i + 1)
  }

  // ------------------------------------------------- routing

  datatype Effect =
    | FlashKey(keyId: string)   // `key-<id>` gets the pressed look for 150 ms
    | StatusLogged              // the status text goes to the console
    | OtaStatus(data: Json)     // passed on to handleOTAMessage
    | LightShown(level: Json)   // updateLightLevel(level)
    | MonitorLine(text: string) // appended to the serial monitor
    | UnknownType               // logged as an unknown message

  /** What one message did, the new `config.lastLightLevel` (nothing: undefined), and whether the handler threw. */
  datatype Outcome = Outcome(effects: seq<Effect>, lastLightLevel: Option<Json>, threw: bool)

  /** The `light` case: shown and remembered unless it is the very value shown last. */
  function LightCase(data: Json, last: Option<Json>): Outcome
  {
    var level := Field(data, "level");
    if level.Some? && (last.None? || !StrictEquals(last.value, level.value)) then
      Outcome([LightShown(level.value)], level, false)
    else Outcome([], last, false)
  }

  /** `data.msg || ''`. */
  function LogMessage(data: Json): Json
  {
    var m := Field(data, "msg");
    if m.Some? && Truthy(m.value) then m.value else JStr("")
  }

  /** The `uart_log` case: the monitor line, then the LIGHT level (0 to 1023) it may carry; `match` throws on a non-string. */
  function UartLogCase(data: Json, last: Option<Json>): Outcome
  {
    var msg := LogMessage(data);
    var prefix := if Field(data, "dir") == Some(JStr("tx")) then "[TX] " else "[RX] ";
    var line := MonitorLine(prefix + ValueText(msg));
    if !msg.JStr? then Outcome([line], last, true)
    else
      var m := FindLevel(msg.s, 0);
      if m.Some? && DecimalValue(m.value) <= 1023 then
        Outcome([line, LightShown(JNum(DecimalValue(m.value)))], Some(JNum(DecimalValue(m.value))), false)
      else Outcome([line], last, false)
  }

  /** `handleESP32Message(data)`; `data.type` of `null` throws, and any value that is not an object has no type. */
  function Handle(data: Json, last: Option<Json>): (o: Outcome)
    ensures |o.effects| <= 2
    ensures data.JNull? <==> o.threw && o.effects == []
  {
    if data.JNull? then Outcome([], last, true)
    else
      var t := Field(data, "type");
      if t == Some(JStr("keypress")) then
        var keyId := JsString(Field(data, "row")) + "-" + JsString(Field(data, "col"));
        Outcome([FlashKey(DisplayKeyId(keyId))], last, false)
      else if t == Some(JStr("status")) then Outcome([StatusLogged], last, false)
      else if t == Some(JStr("ota_status")) then Outcome([OtaStatus(data)], last, false)
      else if t == Some(JStr("light")) then LightCase(data, last)
      else if t == Some(JStr("uart_log")) then UartLogCase(data, last)
      else Outcome([UnknownType], last, false)
  }

  // ------------------------------------------------- properties

  /** Only the two light paths change the remembered level, and only the handler's own throws leave it alone. */
  lemma HandleKeepsLevel(data: Json, last: Option<Json>)
    ensures var t := Field(data, "type");
      t != Some(JStr("light")) && t != Some(JStr("uart_log")) ==> Handle(data, last).lastLightLevel == last
    ensures Handle(data, last).threw ==> Handle(data, last).lastLightLevel == last
  {
  }

  /**
   * A `light` message with a level is always remembered; it is shown
   * exactly when it is not strictly equal to the remembered one.
   */
  lemma LightRemembered(data: Json, last: Option<Json>)
    requires Field(data, "type") == Some(JStr("light")) && Field(data, "level").Some?
    ensures var o := Handle(data, last);
      var level := Field(data, "level").value;
      o.lastLightLevel == Some(level) && !o.threw &&
      (o.effects == [LightShown(level)] <==> (last.None? || !StrictEquals(last.value, level))) &&
      (o.effects == [] <==> (last.Some? && StrictEquals(last.value, level)))
  {
    assert !data.JNull?;
  }

  /** The same number, text, flag or null sent twice is shown once; an array or object is shown every time. */
  lemma LightDeduplicated(data: Json, last: Option<Json>)
    requires Field(data, "type") == Some(JStr("light")) && Field(data, "level").Some?
    ensures var once := Handle(data, last);
      var twice := Handle(data, once.lastLightLevel);
      var level := Field(data, "level").value;
      (level.JArr? || level.JObj?) == (twice.effects == [LightShown(level)]) &&
      twice.lastLightLevel == once.lastLightLevel
  {
    LightRemembered(data, last);
    var once := Handle(data, last);
    LightRemembered(data, once.lastLightLevel);
  }

  /** A level taken from a `uart_log` line lies in 0..1023 and is remembered without comparison with the last one. */
  lemma UartLevelBounded(data: Json, last: Option<Json>)
    requires Field(data, "type") == Some(JStr("uart_log"))
    ensures var o := Handle(data, last);
      |o.effects| >= 1 && o.effects[0].MonitorLine? &&
      (o.lastLightLevel != last ==> exists n :: 0 <= n <= 1023 && o.lastLightLevel == Some(JNum(n)) && o.effects == [o.effects[0], LightShown(JNum(n))])
  {
    HandleUartLog(data, last);
    var o := UartLogCase(data, last);
    if o.lastLightLevel != last {
      var m := FindLevel(LogMessage(data).s, 0);
      var n := DecimalValue(m.value);
      assert o.lastLightLevel == Some(JNum(n)) && o.effects == [o.effects[0], LightShown(JNum(n))];
    }
  }

  /** A `uart_log` message goes to the `uart_log` case. */
  lemma HandleUartLog(data: Json, last: Option<Json>)
    requires Field(data, "type") == Some(JStr("uart_log"))
    ensures Handle(data, last) == UartLogCase(data, last)
  {
    assert !data.JNull?;
  }

  /** A truthy `msg` that is not a string reaches the monitor and then makes `msg.match` throw. */
  lemma UartNonStringThrows(data: Json, last: Option<Json>)
    requires Field(data, "type") == Some(JStr("uart_log"))
    requires Field(data, "msg").Some? && Truthy(Field(data, "msg").value) && !Field(data, "msg").value.JStr?
    ensures var o := Handle(data, last);
      o.threw && |o.effects| == 1 && o.effects[0].MonitorLine? && o.lastLightLevel == last
  {
    assert !data.JNull?;
  }

  lemma {:induction false} LeadingDigitsPrefix(d: string, t: string)
    requires AllDigits(d)
    requires |t| == 0 || !IsDigit(t[0])
    ensures LeadingDigits(d + t) == d
    decreases |d|
  {
    if |d| == 0 {
      assert d + t == t;
    } else {
      assert (d + t)[1..] == d[1..] + t;
      LeadingDigitsPrefix(d[1..], t);
      assert [d[0]] + d[1..] == d;
    }
  }

  lemma HeaderMatches(s: string)
    requires |s| > 15 && s[..15] == "[LIGHT] Level: " && !IsJsSpace(s[15])
    ensures HasAt(s, 0, "[LIGHT]") && SkipSpaces(s, 7) == 8 && HasAt(s, 8, "Level:") && SkipSpaces(s, 14) == 15
  {
    assert s[..7] == s[..15][..7];
    assert s[8..14] == s[..15][8..14];
    assert s[7] == s[..15][7] && s[8] == s[..15][8] && s[14] == s[..15][14];
  }

  /** The firmware's debug line `[LIGHT] Level: NNN` read back: its digits are the level. */
  lemma LightLineMatches(n: nat, rest: string)
    requires |rest| == 0 || !IsDigit(rest[0])
    ensures FindLevel("[LIGHT] Level: " + DecimalDigits(n) + rest, 0) == Some(DecimalDigits(n))
  {
    var d := DecimalDigits(n);
    var s := "[LIGHT] Level: " + d + rest;
    LightLineShape(s, d, rest);
    MatchAfterHeader(s, d, rest);
    FindAtStart(s);
  }

  lemma LightLineShape(s: string, d: string, rest: string)
    requires |d| > 0 && s == "[LIGHT] Level: " + d + rest
    ensures |s| > 15 && s[..15] == "[LIGHT] Level: " && s[15..] == d + rest
  {
    HeaderSplit("[LIGHT] Level: ", d + rest);
    assert "[LIGHT] Level: " + d + rest == "[LIGHT] Level: " + (d + rest);
  }

  lemma FindAtStart(s: string)
    requires LightMatchAt(s, 0).Some?
    ensures FindLevel(s, 0) == LightMatchAt(s, 0)
  {
  }

  lemma HeaderSplit(h: string, t: string)
    ensures (h + t)[..|h|] == h && (h + t)[|h|..] == t
  {
  }

  lemma MatchAfterHeader(s: string, d: string, rest: string)
    requires |d| > 0 && AllDigits(d) && (|rest| == 0 || !IsDigit(rest[0]))
    requires |s| > 15 && s[..15] == "[LIGHT] Level: " && s[15..] == d + rest
    ensures LightMatchAt(s, 0) == Some(d)
  {
    assert s[15] == (d + rest)[0] == d[0];
    HeaderMatches(s);
    LeadingDigitsPrefix(d, rest);
  }

  /** A `uart_log` message carrying that line (n at most 1023) sets the remembered level to n. */
  lemma UartLightLine(n: nat, dir: Json, last: Option<Json>)
    requires n <= 1023
    ensures var msg := "[LIGHT] Level: " + DecimalDigits(n);
      var data := JObj([("type", JStr("uart_log")), ("dir", dir), ("msg", JStr(msg))]);
      var o := Handle(data, last);
      o.lastLightLevel == Some(JNum(n)) && |o.effects| == 2 && o.effects[1] == LightShown(JNum(n))
  {
    var msg := "[LIGHT] Level: " + DecimalDigits(n);
    assert msg + "" == msg;
    LightLineMatches(n, "");
    var data := JObj([("type", JStr("uart_log")), ("dir", dir), ("msg", JStr(msg))]);
    UartObjectFields(dir, msg);
    UartLevelFromText(data, msg, n, last);
  }

  lemma UartObjectFields(dir: Json, msg: string)
    ensures var data := JObj([("type", JStr("uart_log")), ("dir", dir), ("msg", JStr(msg))]);
      Field(data, "type") == Some(JStr("uart_log")) && Field(data, "msg") == Some(JStr(msg))
  {
    var ms := [("type", JStr("uart_log")), ("dir", dir), ("msg", JStr(msg))];
    var m2, m1 := ms[..2], ms[..1];
    assert m2 == [("type", JStr("uart_log")), ("dir", dir)] && m2[..1] == m1;
    assert m1 == [("type", JStr("uart_log"))] && m1[..0] == [];
    assert Lookup(m1, "type") == Some(JStr("uart_log"));
    assert Lookup(m2, "type") == Lookup(m1, "type");
    assert Lookup(ms, "type") == Lookup(m2, "type");
  }

  lemma UartLevelFromText(data: Json, msg: string, n: nat, last: Option<Json>)
    requires n <= 1023
    requires Field(data, "type") == Some(JStr("uart_log")) && Field(data, "msg") == Some(JStr(msg))
    requires FindLevel(msg, 0) == Some(DecimalDigits(n))
    ensures var o := Handle(data, last);
      o.lastLightLevel == Some(JNum(n)) && |o.effects| == 2 && o.effects[1] == LightShown(JNum(n))
  {
    assert !data.JNull?;
    DecimalRoundTrip(n);
    assert LogMessage(data) == JStr(msg);
  }

  /** Key ids of a key press name the row and the column; the three hidden halves of big keys flash their partner. */
  lemma KeypressFlashes(row: nat, col: nat, last: Option<Json>)
    ensures var data := JObj([("type", JStr("keypress")), ("row", JNum(row)), ("col", JNum(col))]);
      Handle(data, last) == Outcome([FlashKey(DisplayKeyId(IntText(row) + "-" + IntText(col)))], last, false)
  {
    var data := JObj([("type", JStr("keypress")), ("row", JNum(row)), ("col", JNum(col))]);
    var ms := data.members;
    var m2, m1 := ms[..2], ms[..1];
    assert m2 == [("type", JStr("keypress")), ("row", JNum(row))] && m2[..1] == m1;
    assert m1 == [("type", JStr("keypress"))] && m1[..0] == [];
    assert Lookup(m1, "type") == Some(JStr("keypress"));
    assert Lookup(m2, "type") == Lookup(m1, "type");
    assert Lookup(ms, "type") == Lookup(m2, "type");
    assert Lookup(m2, "row") == Some(JNum(row));
    assert Lookup(ms, "row") == Lookup(m2, "row");
    assert Field(data, "col") == Some(JNum(col));
  }

  /** `null` throws on `data.type`; any other value without a known type is logged as unknown. */
  lemma NonObjectMessages(data: Json, last: Option<Json>)
    requires !data.JObj?
    ensures Handle(data, last) == if data.JNull? then Outcome([], last, true) else Outcome([UnknownType], last, false)
  {
  }
}
