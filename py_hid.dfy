/**
 * What `BleKeyboard` in firmware/esp32_micropython/main.py puts on the air:
 * the legacy advertising data built by `_advertising_payload`, and the HID
 * input reports of `press`, `release` and the consumer-control keys.
 */
module PyHid {
  import opened Common

  // ------------------------------------------------------ advertising data

  /** Flags: LE General Discoverable Mode, BR/EDR not supported. */
  const FLAGS: seq<byte> := [0x02, 0x01, 0x06]
  /** Complete List of 16-bit Service UUIDs holding the HID service 0x1812, little-endian. */
  const HID_UUID: seq<byte> := [0x03, 0x03, 0x12, 0x18]
  /** The legacy advertising data limit, in octets. */
  const ADV_MAX: nat := 31
  const AD_COMPLETE_NAME: byte := 0x09
  const AD_SHORT_NAME: byte := 0x08

  /**
   * `_advertising_payload(name)`: flags, the name as a Complete Local Name
   * and the HID service UUID; a payload over 31 octets has its name cut to
   * 22 octets. Nothing when `bytes([len(name) + 1, 0x09])` raises because
   * the encoded name is longer than 254 octets.
   */
  function AdvertisingPayload(name: string): (r: Option<seq<byte>>)
    ensures r.Some? <==> |Utf8(name)| <= 254
    ensures r.Some? ==> |FLAGS| <= |r.value| <= ADV_MAX && r.value[..|FLAGS|] == FLAGS
  {
    var nameBytes := Utf8(name);
    if |nameBytes| + 1 > 255 then None
    else
      var payload := FLAGS + [(|nameBytes| + 1) as byte, AD_COMPLETE_NAME] + nameBytes + HID_UUID;
      if |payload| > ADV_MAX then
        var maxNameLen := ADV_MAX - |FLAGS| - |HID_UUID| - 1;
        var cut := nameBytes[..maxNameLen - 1];
        Some(FLAGS + [(|cut| + 1) as byte, AD_COMPLETE_NAME] + cut + HID_UUID)
      else Some(payload)
  }

  /** The same payload with a cut name marked as a Shortened Local Name. */
  function AdvertisingPayloadShortened(name: string): Option<seq<byte>>
  {
    var nameBytes := Utf8(name);
    if |nameBytes| + 1 > 255 then None
    else
      var payload := FLAGS + [(|nameBytes| + 1) as byte, AD_COMPLETE_NAME] + nameBytes + HID_UUID;
      if |payload| > ADV_MAX then
        var maxNameLen := ADV_MAX - |FLAGS| - |HID_UUID| - 1;
        var cut := nameBytes[..maxNameLen - 1];
        Some(FLAGS + [(|cut| + 1) as byte, AD_SHORT_NAME] + cut + HID_UUID)
      else Some(payload)
  }

  /** One AD structure: its AD type and its data. */
  datatype AdStructure = Ad(adType: byte, data: seq<byte>)

  /**
   * Reads advertising data as AD structures: a length octet, then that many
   * octets holding the AD type and the data. A zero length ends the data;
   * a structure running past the end makes the data malformed.
   */
  function AdStructures(s: seq<byte>): Option<seq<AdStructure>>
    decreases |s|
  {
    if |s| == 0 || s[0] == 0 then Some([])
    else
      var len := s[0] as int;
      if |s| < 1 + len then None
      else
        var rest := AdStructures(s[1 + len..]);
        if rest.None? then None else Some([Ad(s[1], s[2..1 + len])] + rest.value)
  }

  /** The name bytes the payload carries: the whole encoded name when it fits, else its first 22 octets. */
  function ShownName(name: string): seq<byte>
  {
    var nameBytes := Utf8(name);
    nameBytes[..Min(|nameBytes|, 22)]
  }

  /** An AD structure as octets: its length, its AD type, its data. */
  function AdOctets(t: byte, d: seq<byte>): seq<byte>
    requires |d| <= 253
  {
    [(|d| + 1) as byte, t] + d
  }

  /** One AD structure in front of well-formed advertising data. */
  lemma AdCons(t: byte, d: seq<byte>, rest: seq<byte>, more: seq<AdStructure>)
    requires |d| <= 253 && AdStructures(rest) == Some(more)
    ensures AdStructures(AdOctets(t, d) + rest) == Some([Ad(t, d)] + more)
  {
    var s := AdOctets(t, d) + rest;
    assert s[0] as int == |d| + 1 && s[1] == t;
    assert s[2..2 + |d|] == d;
    assert s[2 + |d|..] == rest;
  }

  /** A single AD structure on its own. */
  lemma AdOne(t: byte, d: seq<byte>)
    requires |d| <= 253
    ensures AdStructures(AdOctets(t, d)) == Some([Ad(t, d)])
  {
    var empty: seq<byte> := [];
    assert AdOctets(t, d) + empty == AdOctets(t, d);
    AdCons(t, d, empty, []);
    assert [Ad(t, d)] + [] == [Ad(t, d)];
  }

  lemma AdThree(t1: byte, d1: seq<byte>, t2: byte, d2: seq<byte>, t3: byte, d3: seq<byte>)
    requires |d1| <= 253 && |d2| <= 253 && |d3| <= 253
    ensures AdStructures(AdOctets(t1, d1) + AdOctets(t2, d2) + AdOctets(t3, d3)) ==
      Some([Ad(t1, d1), Ad(t2, d2), Ad(t3, d3)])
  {
    var s3 := AdOctets(t3, d3);
    AdOne(t3, d3);
    AdCons(t2, d2, s3, [Ad(t3, d3)]);
    var more := [Ad(t2, d2)] + [Ad(t3, d3)];
    AdCons(t1, d1, AdOctets(t2, d2) + s3, more);
    assert [Ad(t1, d1)] + more == [Ad(t1, d1), Ad(t2, d2), Ad(t3, d3)];
    AppendAssoc(AdOctets(t1, d1), AdOctets(t2, d2), s3);
  }

  /** The payload's octets are three AD structures back to back. */
  lemma PayloadOctets(t: byte, n: seq<byte>)
    requires |n| <= 253
    ensures FLAGS + [(|n| + 1) as byte, t] + n + HID_UUID ==
      AdOctets(0x01, [0x06]) + AdOctets(t, n) + AdOctets(0x03, [0x12, 0x18])
  {
    var h: seq<byte> := [(|n| + 1) as byte, t];
    assert AdOctets(t, n) == h + n;
    assert FLAGS + h + n == AdOctets(0x01, [0x06]) + AdOctets(t, n);
  }

  lemma ThreeStructures(t: byte, n: seq<byte>)
    requires |n| <= 253
    ensures AdStructures(FLAGS + [(|n| + 1) as byte, t] + n + HID_UUID) ==
      Some([Ad(0x01, [0x06]), Ad(t, n), Ad(0x03, [0x12, 0x18])])
  {
    PayloadOctets(t, n);
    AdThree(0x01, [0x06], t, n, 0x03, [0x12, 0x18]);
  }

  /**
   * The payload is well-formed advertising data of at most 31 octets: the
   * flags, the name (whole when it fits, else its first 22 octets, a prefix
   * of the encoded name) and the HID service UUID. It exists exactly when
   * the encoded name has at most 254 octets.
   */
  lemma AdvertisingPayloadShape(name: string)
    ensures AdvertisingPayload(name).Some? <==> |Utf8(name)| <= 254
    ensures AdvertisingPayload(name).Some? ==>
      var r := AdvertisingPayload(name).value;
      |r| <= ADV_MAX &&
      AdStructures(r) == Some([Ad(0x01, [0x06]), Ad(AD_COMPLETE_NAME, ShownName(name)), Ad(0x03, [0x12, 0x18])])
    ensures |ShownName(name)| <= 22 && ShownName(name) <= Utf8(name)
    ensures |Utf8(name)| <= 22 ==> ShownName(name) == Utf8(name)
  {
    var nameBytes := Utf8(name);
    if |nameBytes| <= 254 {
      if |nameBytes| > 22 {
        ThreeStructures(AD_COMPLETE_NAME, nameBytes[..22]);
      } else {
        assert nameBytes[..|nameBytes|] == nameBytes;
        ThreeStructures(AD_COMPLETE_NAME, nameBytes);
      }
    }
  }

  /**
   * The discrepancy: a name of more than 22 octets is cut but still marked
   * complete; the corrected payload marks exactly the cut names as
   * shortened and is otherwise the same.
   */
  lemma CutNameMarkedComplete(name: string)
    requires 22 < |Utf8(name)| <= 254
    ensures AdvertisingPayload(name).Some? && AdStructures(AdvertisingPayload(name).value) ==
      Some([Ad(0x01, [0x06]), Ad(AD_COMPLETE_NAME, ShownName(name)), Ad(0x03, [0x12, 0x18])])
    ensures ShownName(name) != Utf8(name)
    ensures AdvertisingPayloadShortened(name).Some? && AdStructures(AdvertisingPayloadShortened(name).value) ==
      Some([Ad(0x01, [0x06]), Ad(AD_SHORT_NAME, ShownName(name)), Ad(0x03, [0x12, 0x18])])
  {
    AdvertisingPayloadShape(name);
    ThreeStructures(AD_SHORT_NAME, Utf8(name)[..22]);
  }

  /**
   * The corrected payload is well-formed, at most 31 octets, and marks the
   * name complete exactly when it is whole; with a whole name it is the
   * firmware's payload.
   */
  lemma ShortenedNameMarked(name: string)
    requires |Utf8(name)| <= 254
    ensures AdvertisingPayloadShortened(name).Some? && |AdvertisingPayloadShortened(name).value| <= ADV_MAX
    ensures var nameType := if ShownName(name) == Utf8(name) then AD_COMPLETE_NAME else AD_SHORT_NAME;
      AdStructures(AdvertisingPayloadShortened(name).value) ==
        Some([Ad(0x01, [0x06]), Ad(nameType, ShownName(name)), Ad(0x03, [0x12, 0x18])])
    ensures ShownName(name) == Utf8(name) ==> AdvertisingPayloadShortened(name) == AdvertisingPayload(name)
  {
    var nameBytes := Utf8(name);
    if |nameBytes| > 22 {
      ThreeStructures(AD_SHORT_NAME, nameBytes[..22]);
      assert |ShownName(name)| < |nameBytes|;
    } else {
      assert nameBytes[..|nameBytes|] == nameBytes;
      ThreeStructures(AD_COMPLETE_NAME, nameBytes);
    }
  }

  // ------------------------------------------------------ keyboard reports

  /** `KEYCODES`: the digits, operators and period of the main keyboard block. */
  function KeyCode(symbol: string): Option<byte>
  {
    if symbol == "1" then Some(0x1E) else if symbol == "2" then Some(0x1F) else if symbol == "3" then Some(0x20)
    else if symbol == "4" then Some(0x21) else if symbol == "5" then Some(0x22) else if symbol == "6" then Some(0x23)
    else if symbol == "7" then Some(0x24) else if symbol == "8" then Some(0x25) else if symbol == "9" then Some(0x26)
    else if symbol == "0" then Some(0x27) else if symbol == "/" then Some(0x38) else if symbol == "*" then Some(0x25)
    else if symbol == "-" then Some(0x2D) else if symbol == "+" then Some(0x2E) else if symbol == "." then Some(0x37)
    else if symbol == "=" then Some(0x2E)
    else None
  }

  const LEFT_SHIFT: byte := 0x02

  /** `send_report(keycode, modifier)`'s report: report id 1, the modifier byte, a reserved byte and six key slots. */
  function KeyboardReport(keycode: byte, modifier: byte): (r: seq<byte>)
    ensures |r| == 9
  {
    [0x01, modifier, 0x00, keycode, 0x00, 0x00, 0x00, 0x00, 0x00]
  }

  /** The report `press(symbol)` sends; nothing for a symbol without a key code. `+` and `*` are Shift with `=` and `8`. */
  function PressReport(symbol: string): Option<seq<byte>>
  {
    var kc := KeyCode(symbol);
    if kc.None? then None
    else if symbol == "+" then Some(KeyboardReport(KeyCode("=").value, LEFT_SHIFT))
    else if symbol == "*" then Some(KeyboardReport(KeyCode("8").value, LEFT_SHIFT))
    else Some(KeyboardReport(kc.value, 0))
  }

  /** `send_report`: one notification of the report per HID connection; none without connections. */
  function Notifications(conns: set<int>, report: seq<byte>): (r: set<(int, seq<byte>)>)
    ensures forall c :: c in conns <==> (c, report) in r
  {
    set c | c in conns :: (c, report)
  }

  /**
   * A symbol without a key code sends nothing; `+` and `*` hold Shift over
   * the `=` and `8` keys; every other known symbol goes out unmodified with
   * its own code, and the key slot is the only one used.
   */
  lemma PressReports(symbol: string)
    ensures PressReport(symbol).None? <==> KeyCode(symbol).None?
    ensures symbol == "+" ==> PressReport(symbol) == Some([0x01, 0x02, 0x00, 0x2E, 0x00, 0x00, 0x00, 0x00, 0x00])
    ensures symbol == "*" ==> PressReport(symbol) == Some([0x01, 0x02, 0x00, 0x25, 0x00, 0x00, 0x00, 0x00, 0x00])
    ensures symbol != "+" && symbol != "*" && KeyCode(symbol).Some? ==>
      PressReport(symbol) == Some([0x01, 0x00, 0x00, KeyCode(symbol).value, 0x00, 0x00, 0x00, 0x00, 0x00])
    ensures PressReport(symbol).Some? ==> PressReport(symbol).value[3] != 0 && PressReport(symbol).value[4..] == [0, 0, 0, 0, 0]
  {
  }

  /** Exactly the sixteen keymap symbols have key codes, each a key of the Keyboard/Keypad page from 0x1E to 0x38. */
  lemma KeyCodeDomain(symbol: string)
    ensures KeyCode(symbol).Some? <==> symbol in ["0", "1", "2", "3", "4", "5", "6", "7", "8", "9", "/", "*", "-", "+", ".", "="]
    ensures KeyCode(symbol).Some? ==> 0x1E <= KeyCode(symbol).value <= 0x38
  {
  }

  /** `release()`: the all-keys-up report. */
  function ReleaseReport(): seq<byte>
  {
    KeyboardReport(0, 0)
  }

  // ------------------------------------------------------ consumer control

  const VOL_UP: u16 := 0xE9
  const VOL_DOWN: u16 := 0xEA
  const MUTE: u16 := 0xE2

  /** `bytes([0x02]) + struct.pack("<H", code)`: report id 2 and the usage, little-endian. */
  function ConsumerReport(code: u16): (r: seq<byte>)
    ensures |r| == 3 && r[0] == 0x02
  {
    [0x02, (code % 0x100) as byte, (code / 0x100) as byte]
  }

  /** `send_consumer_control(code)`: the usage is sent and then released with the empty report. */
  function ConsumerSequence(code: u16): seq<seq<byte>>
  {
    [ConsumerReport(code), [0x02, 0x00, 0x00]]
  }

  /** The usage reads back from its report, so the release is the report of usage 0. */
  lemma ConsumerReportRoundTrip(code: u16)
    ensures var r := ConsumerReport(code); r[1] as int + 0x100 * r[2] as int == code
    ensures ConsumerSequence(code)[1] == ConsumerReport(0)
  {
  }
}
