/**
 * The UART command protocol of the ATmega328P light and display
 * controller (firmware/atmega/atmega_light/main.cpp): the receive
 * interrupt collects bytes into a 256-byte line buffer, and a line ending
 * in "\n" or "\r" is executed by `processUartCommand`. A command line is
 * `[CMD] [DATA...]`.
 *
 * The first half of the module is the behaviour as a function on a value
 * `Mcu` (the controller's globals); the second half is the class holding
 * the globals, whose methods are proved to take the state along that
 * function.
 */
module AtmegaUart {
  import opened Common
  import opened AtmegaFormat

  const CMD_READ_LIGHT: byte := 0x01
  const CMD_SET_LED: byte := 0x02
  const CMD_GET_LED: byte := 0x03
  const CMD_UPDATE_DISPLAY: byte := 0x04
  const CMD_SET_DISPLAY_DATA: byte := 0x05
  const CMD_SET_DISPLAY_IMAGE: byte := 0x08
  const CMD_SET_DISPLAY_IMAGE_CHUNK: byte := 0x09
  const CMD_SET_ATMEGA_DEBUG: byte := 0x0A
  const CMD_SET_ATMEGA_LOG_LEVEL: byte := 0x0B

  const BUFFER_SIZE: nat := 256
  /** The longest line the buffer keeps: `UART_BUFFER_SIZE - 1`. */
  const LINE_MAX: nat := 255
  const IMAGE_CHUNK_SIZE: nat := 64
  const SCREEN_WIDTH: nat := 320
  const MODE_CAP: nat := 16
  const PROFILE_CAP: nat := 32
  const OUTPUT_CAP: nat := 16
  const LAST_KEY_CAP: nat := 16
  const LOG_ERROR: nat := 1
  const LOG_INFO: nat := 2
  const LOG_DEBUG: nat := 3

  const CR: byte := 0x0D

  /** The bytes of an ASCII text. */
  function Text(s: string): (r: seq<byte>)
    ensures |r| == |s|
  {
    seq(|s|, i requires 0 <= i < |s| => (s[i] as int % 256) as byte)
  }

  /** A C string: the bytes before the first NUL. */
  function CString(a: seq<byte>): seq<byte>
  {
    if 0 in a then a[..FirstIndex(a, 0)] else a
  }

  /** The messages of the log, and the start-up texts of the display arrays. */
  const MSG_COMMAND: seq<byte> := Text("[UART] Command received: 0x")
  const MSG_SET_LED: seq<byte> := Text("[UART] Setting LED brightness: ")
  const MSG_DEBUG: seq<byte> := Text("[UART] Debug ")
  const MSG_ENABLED: seq<byte> := Text("enabled\r\n")
  const MSG_DISABLED: seq<byte> := Text("disabled\r\n")
  const MSG_LOG_LEVEL: seq<byte> := Text("[UART] Log level set to: ")
  const MSG_IMAGE_START: seq<byte> := Text("[UART] Starting image reception, size: ")
  const MSG_IMAGE_DONE: seq<byte> := Text("[UART] Image reception complete, ")
  const MSG_BYTES: seq<byte> := Text(" bytes\r\n")
  const INIT_MODE: seq<byte> := Text("data")
  const INIT_OUTPUT: seq<byte> := Text("bluetooth")
  const DEFAULT_PROFILE: seq<byte> := Text("Profile 1")

  // ------------------------------------------------------------ the state

  /** The display globals `display_*`; the four texts are the whole char arrays. */
  datatype Display = Display(
    brightness: byte,
    mode: seq<byte>,
    profile: seq<byte>,
    outputMode: seq<byte>,
    keysCount: byte,
    lastKey: seq<byte>,
    backlightEnabled: byte,
    backlightBrightness: byte)

  /** The `image_*` reception counters. */
  datatype Image = Image(expected: u16, received: u16, chunkIndex: u16, receiving: bool)

  /** What the controller does to the ST7789 panel, in order. */
  datatype ScreenOp =
    | UpdateDisplay                                        // st7789_update_display()
    | SimpleInfo                                           // display_simple_info()
    | ImageRow(x0: u16, y: u16, x1: u16, pixels: seq<byte>) // one image chunk written at row y

  /**
   * The controller's globals: the buffered line `uart_buffer[..uart_buffer_index]`,
   * the LED, the last light reading, the image counters, the display data,
   * the debug switches, every byte sent on the UART and every panel update.
   */
  datatype Mcu = Mcu(
    line: seq<byte>,
    led: byte,
    light: u16,
    image: Image,
    display: Display,
    debugEnabled: byte,
    logLevel: byte,
    tx: seq<byte>,
    screen: seq<ScreenOp>)

  predicate HasNul(a: seq<byte>)
  {
    0 in a
  }

  /** What every reachable state satisfies. */
  predicate WellFormed(m: Mcu)
  {
    |m.line| <= LINE_MAX && m.logLevel as nat <= LOG_DEBUG &&
    |m.display.mode| == MODE_CAP && |m.display.profile| == PROFILE_CAP &&
    |m.display.outputMode| == OUTPUT_CAP && |m.display.lastKey| == LAST_KEY_CAP &&
    HasNul(m.display.mode) && HasNul(m.display.profile) &&
    HasNul(m.display.outputMode) && HasNul(m.display.lastKey)
  }

  // -------------------------------------------------------------- logging

  /** `LOG_ERROR`/`LOG_INFO`/`LOG_DEBUG(msg)`: sent only with debugging on at that level. */
  function Logged(debugEnabled: byte, logLevel: byte, level: nat, msg: seq<byte>): seq<byte>
  {
    if debugEnabled != 0 && logLevel as nat >= level then msg else []
  }

  const CRLF: seq<byte> := [CR, NEWLINE]

  /** The bytes every command sends first; only the label depends on the log level. */
  function CommandLog(m: Mcu, cmd: byte): seq<byte>
  {
    Logged(m.debugEnabled, m.logLevel, LOG_DEBUG, MSG_COMMAND) + DebugHex(cmd) + CRLF
  }

  // ----------------------------------------------------- the display data

  /** A one-byte field: read it when the cursor is still inside the line. */
  function ByteField(line: seq<byte>, pos: nat, old_: byte): (byte, nat)
  {
    if pos < |line| then (line[pos], pos + 1) else (old_, pos)
  }

  /** `memcpy(field, src, len); field[len] = '\0'`. */
  function Store(field: seq<byte>, src: seq<byte>): (r: seq<byte>)
    requires |src| < |field|
    ensures |r| == |field| && r[..|src|] == src && r[|src|] == 0
  {
    src + [0] + field[|src| + 1..]
  }

  /**
   * A length-prefixed text field: a length byte, then that many bytes. It
   * is copied only when the length is below the capacity and the field is
   * followed by at least one more byte (`pos + len < uart_buffer_index`).
   */
  function TextField(line: seq<byte>, pos: nat, cap: nat, field: seq<byte>): (r: (seq<byte>, nat))
    requires |field| == cap
    ensures |r.0| == cap
  {
    if pos < |line| then
      var len := line[pos] as nat;
      var start := pos + 1;
      if len < cap && start + len < |line| then (Store(field, line[start..start + len]), start + len)
      else (field, start)
    else (field, pos)
  }

  /** The four text arrays have their declared sizes. */
  predicate Sized(d: Display)
  {
    |d.mode| == MODE_CAP && |d.profile| == PROFILE_CAP && |d.outputMode| == OUTPUT_CAP && |d.lastKey| == LAST_KEY_CAP
  }

  /** The first four fields of `CMD_SET_DISPLAY_DATA` from offset 1, and the cursor after them. */
  function HeadFields(line: seq<byte>, d: Display): (r: (Display, nat))
    requires Sized(d)
    ensures Sized(r.0)
  {
    var t1 := ByteField(line, 1, d.brightness);
    var t2 := TextField(line, t1.1, MODE_CAP, d.mode);
    var t3 := TextField(line, t2.1, PROFILE_CAP, d.profile);
    var t4 := TextField(line, t3.1, OUTPUT_CAP, d.outputMode);
    (d.(brightness := t1.0, mode := t2.0, profile := t3.0, outputMode := t4.0), t4.1)
  }

  /** The last four fields, from the cursor `pos`. */
  function TailFields(line: seq<byte>, d: Display, pos: nat): (r: Display)
    requires Sized(d)
    ensures Sized(r)
  {
    var t5 := ByteField(line, pos, d.keysCount);
    var t6 := TextField(line, t5.1, LAST_KEY_CAP, d.lastKey);
    var t7 := ByteField(line, t6.1, d.backlightEnabled);
    var t8 := ByteField(line, t7.1, d.backlightBrightness);
    d.(keysCount := t5.0, lastKey := t6.0, backlightEnabled := t7.0, backlightBrightness := t8.0)
  }

  /** The fields of `CMD_SET_DISPLAY_DATA`, read in order from offset 1. */
  function ParseDisplay(line: seq<byte>, d: Display): (r: Display)
    requires Sized(d)
    ensures Sized(r)
    ensures |line| <= 1 ==> r == d
    ensures |line| > 1 ==> r.brightness == line[1]
  {
    var h := HeadFields(line, d);
    TailFields(line, h.0, h.1)
  }

  /** The panel is redrawn only once real configuration has arrived. */
  predicate Configured(d: Display)
  {
    CString(d.profile) != DEFAULT_PROFILE || d.keysCount > 0
  }

  // ------------------------------------------------------------- commands

  function ReadLight(m: Mcu): Mcu
  {
    m.(tx := m.tx + [CMD_READ_LIGHT] + LittleEndian(m.light) + [NEWLINE])
  }

  function GetLed(m: Mcu): Mcu
  {
    m.(tx := m.tx + [CMD_GET_LED, m.led, NEWLINE])
  }

  function SetLed(m: Mcu): Mcu
    requires |m.line| >= 1
  {
    if |m.line| < 2 then m
    else
      var b := m.line[1];
      m.(tx := m.tx + Logged(m.debugEnabled, m.logLevel, LOG_INFO, MSG_SET_LED) + DecimalBytes(b as nat) + CRLF,
         led := b,
         screen := m.screen + [UpdateDisplay])
  }

  function SetDisplayData(m: Mcu): Mcu
    requires WellFormed(m)
  {
    if |m.line| <= 1 then m
    else
      var d := ParseDisplay(m.line, m.display);
      m.(display := d, screen := m.screen + (if Configured(d) then [SimpleInfo] else []))
  }

  function SetDebug(m: Mcu): Mcu
    requires |m.line| >= 1
  {
    if |m.line| < 2 then m
    else
      var on := m.line[1];
      m.(debugEnabled := on,
         tx := m.tx + Logged(on, m.logLevel, LOG_INFO, MSG_DEBUG) +
           (if on != 0 then Logged(on, m.logLevel, LOG_INFO, MSG_ENABLED)
            else Logged(on, m.logLevel, LOG_INFO, MSG_DISABLED)))
  }

  /** The requested log level, capped at debug (3). */
  function ClampLevel(b: byte): (r: byte)
    ensures r as nat <= LOG_DEBUG && (b as nat <= LOG_DEBUG ==> r == b) && (b as nat > LOG_DEBUG ==> r as nat == LOG_DEBUG)
  {
    if b as nat > LOG_DEBUG then LOG_DEBUG as byte else b
  }

  function SetLogLevel(m: Mcu): Mcu
    requires |m.line| >= 1
  {
    if |m.line| < 2 then m
    else
      var level := ClampLevel(m.line[1]);
      m.(logLevel := level,
         tx := m.tx + Logged(m.debugEnabled, level, LOG_INFO, MSG_LOG_LEVEL) + DecimalBytes(level as nat) + CRLF)
  }

  /** Two little-endian bytes from offset i. */
  function Word(line: seq<byte>, i: nat): u16
    requires i + 2 <= |line|
  {
    line[i] as int + 256 * line[i + 1] as int
  }

  function StartImage(m: Mcu): Mcu
    requires |m.line| >= 1
  {
    if |m.line| < 3 then m
    else
      var size := Word(m.line, 1);
      m.(image := Image(size, 0, 0, true),
         tx := m.tx + Logged(m.debugEnabled, m.logLevel, LOG_INFO, MSG_IMAGE_START) + DecimalBytes(size) + CRLF)
  }

  /** Arithmetic on 16-bit unsigned values. */
  function Wrap16(n: int): u16
  {
    n % 0x1_0000
  }

  /** A chunk is taken only while receiving, with a size of 1 to 64 and all its bytes present. */
  predicate ChunkAccepted(m: Mcu)
  {
    m.image.receiving && |m.line| >= 4 && 0 < m.line[3] as nat <= IMAGE_CHUNK_SIZE && |m.line| - 4 >= m.line[3] as nat
  }

  /** Where a chunk lands: chunk index times 64 bytes, two bytes a pixel, 320 pixels a row. */
  function ChunkRow(line: seq<byte>): ScreenOp
    requires |line| >= 4 && 4 + line[3] as nat <= |line|
  {
    var byteOffset := Wrap16(Word(line, 1) * 64);
    var pixelOffset := byteOffset / 2;
    var x := pixelOffset % 320;
    var y := pixelOffset / 320;
    var endX := Min(x + line[3] as nat / 2, 320);
    ImageRow(x, y, Wrap16(endX - 1), line[4..4 + line[3] as nat])
  }

  /** A taken chunk is counted; reception ends once the count reaches the expected size. */
  function CountChunk(m: Mcu, size: nat): Mcu
  {
    var received := Wrap16(m.image.received + size);
    var done := received >= m.image.expected;
    m.(image := Image(m.image.expected, received, Wrap16(m.image.chunkIndex + 1), m.image.receiving && !done),
       tx := m.tx + (if done then Logged(m.debugEnabled, m.logLevel, LOG_INFO, MSG_IMAGE_DONE) + DecimalBytes(received) + MSG_BYTES else []))
  }

  function ImageChunk(m: Mcu): (r: Mcu)
    ensures r.line == m.line && r.display == m.display && r.led == m.led
    ensures r.image.receiving ==> m.image.receiving
    ensures m.tx <= r.tx && m.screen <= r.screen && |r.screen| <= |m.screen| + 1
  {
    if !ChunkAccepted(m) then m
    else CountChunk(m.(screen := m.screen + [ChunkRow(m.line)]), m.line[3] as nat)
  }

  /** The `switch (uart_command)` of `processUartCommand`; unknown commands do nothing. */
  function Dispatch(m: Mcu, cmd: byte): (r: Mcu)
    requires WellFormed(m) && |m.line| >= 1
    ensures r.line == m.line && m.tx <= r.tx && m.screen <= r.screen
  {
    if cmd == CMD_READ_LIGHT then ReadLight(m)
    else if cmd == CMD_GET_LED then GetLed(m)
    else if cmd == CMD_SET_LED then SetLed(m)
    else if cmd == CMD_UPDATE_DISPLAY then m.(screen := m.screen + [UpdateDisplay])
    else if cmd == CMD_SET_DISPLAY_DATA then SetDisplayData(m)
    else if cmd == CMD_SET_ATMEGA_DEBUG then SetDebug(m)
    else if cmd == CMD_SET_ATMEGA_LOG_LEVEL then SetLogLevel(m)
    else if cmd == CMD_SET_DISPLAY_IMAGE then StartImage(m)
    else if cmd == CMD_SET_DISPLAY_IMAGE_CHUNK then ImageChunk(m)
    else m
  }

  /**
   * `processUartCommand()`: nothing on an empty buffer; otherwise the
   * command log, the command, and an emptied buffer.
   */
  function Command(m: Mcu): (r: Mcu)
    requires WellFormed(m)
    ensures r.line == [] && m.tx <= r.tx && m.screen <= r.screen
  {
    if |m.line| < 1 then m
    else
      var cmd := m.line[0];
      Dispatch(m.(tx := m.tx + CommandLog(m, cmd)), cmd).(line := [])
  }

  predicate IsTerminator(b: byte)
  {
    b == NEWLINE || b == CR
  }

  /** `ISR(USART_RX_vect)` for one received byte. */
  function Receive(m: Mcu, b: byte): (r: Mcu)
    requires WellFormed(m)
    ensures m.tx <= r.tx && m.screen <= r.screen
    ensures IsTerminator(b) ==> r.line == []
  {
    if IsTerminator(b) then (if |m.line| > 0 then Command(m) else m).(line := [])
    else if |m.line| < LINE_MAX then m.(line := m.line + [b])
    else m.(line := [])
  }

  // ----------------------------------------------- properties of the model

  /** Reading the display data keeps every text array NUL-terminated. */
  lemma ParseDisplayShape(line: seq<byte>, d: Display)
    requires Sized(d) && HasNul(d.mode) && HasNul(d.profile) && HasNul(d.outputMode) && HasNul(d.lastKey)
    ensures var r := ParseDisplay(line, d);
      Sized(r) && HasNul(r.mode) && HasNul(r.profile) && HasNul(r.outputMode) && HasNul(r.lastKey)
  {
    var t1 := ByteField(line, 1, d.brightness);
    TextFieldKeeps(line, t1.1, MODE_CAP, d.mode);
    var t2 := TextField(line, t1.1, MODE_CAP, d.mode);
    TextFieldKeeps(line, t2.1, PROFILE_CAP, d.profile);
    var t3 := TextField(line, t2.1, PROFILE_CAP, d.profile);
    TextFieldKeeps(line, t3.1, OUTPUT_CAP, d.outputMode);
    var h := HeadFields(line, d);
    var t5 := ByteField(line, h.1, d.keysCount);
    TextFieldKeeps(line, t5.1, LAST_KEY_CAP, d.lastKey);
  }

  /**
   * A text field is either copied from inside the line — its length below
   * the capacity, at least one byte after it, NUL-terminated in place — or
   * left exactly as it was; the cursor never passes the end of the line.
   */
  lemma TextFieldKeeps(line: seq<byte>, pos: nat, cap: nat, field: seq<byte>)
    requires |field| == cap && HasNul(field)
    ensures var r := TextField(line, pos, cap, field);
      HasNul(r.0) && pos <= r.1 && (pos <= |line| ==> r.1 <= |line|)
    ensures var r := TextField(line, pos, cap, field);
      if pos < |line| && line[pos] as nat < cap && pos + 1 + line[pos] as nat < |line| then
        r.1 == pos + 1 + line[pos] as nat && r.0[..line[pos]] == line[pos + 1..r.1] && r.0[line[pos]] == 0 &&
        (0 !in line[pos + 1..r.1] ==> CString(r.0) == line[pos + 1..r.1])
      else r.0 == field
  {
    if pos < |line| && line[pos] as nat < cap && pos + 1 + line[pos] as nat < |line| {
      var len := line[pos] as nat;
      var r := Store(field, line[pos + 1..pos + 1 + len]);
      assert r[len] == 0;
      if 0 !in line[pos + 1..pos + 1 + len] {
        CStringAt(r, len);
      }
    }
  }

  /** A NUL at `k` with none before it ends the C string there. */
  lemma CStringAt(a: seq<byte>, k: nat)
    requires k < |a| && a[k] == 0 && 0 !in a[..k]
    ensures CString(a) == a[..k]
  {
    var i := FirstIndex(a, 0);
    assert a[..k][..i] == a[..i];
  }

  /** Every command keeps the state well formed; in particular the log level stays at most 3. */
  lemma CommandWellFormed(m: Mcu)
    requires WellFormed(m)
    ensures WellFormed(Command(m))
    ensures Command(m).line == []
  {
    if |m.line| >= 1 {
      DispatchWellFormed(m.(tx := m.tx + CommandLog(m, m.line[0])), m.line[0]);
    }
  }

  lemma DispatchWellFormed(m: Mcu, cmd: byte)
    requires WellFormed(m) && |m.line| >= 1
    ensures WellFormed(Dispatch(m, cmd))
  {
    if cmd == CMD_SET_DISPLAY_DATA {
      if |m.line| > 1 {
        ParseDisplayShape(m.line, m.display);
      }
    } else if cmd == CMD_SET_DISPLAY_IMAGE_CHUNK {
      assert WellFormed(ImageChunk(m));
    }
  }

  lemma ReceiveWellFormed(m: Mcu, b: byte)
    requires WellFormed(m)
    ensures WellFormed(Receive(m, b))
  {
    if IsTerminator(b) && |m.line| > 0 {
      CommandWellFormed(m);
    }
  }

  /** `processUartCommand` on an empty buffer changes nothing. */
  lemma CommandOnEmpty(m: Mcu)
    requires WellFormed(m) && m.line == []
    ensures Command(m) == m
  {
  }

  /** `CMD_READ_LIGHT` answers with the light level, low byte first, and touches nothing else. */
  lemma ReadLightReply(m: Mcu)
    requires WellFormed(m) && |m.line| >= 1 && m.line[0] == CMD_READ_LIGHT
    ensures Command(m) == m.(line := [], tx := m.tx + CommandLog(m, CMD_READ_LIGHT) + [CMD_READ_LIGHT, (m.light % 256) as byte, (m.light / 256) as byte, NEWLINE])
    ensures var reply := Command(m).tx[|m.tx| + |CommandLog(m, CMD_READ_LIGHT)|..];
      |reply| == 4 && reply[1] as int + 256 * reply[2] as int == m.light
  {
  }

  /** The three one-argument commands act only when their argument byte is there. */
  lemma ShortCommandsOnlyLog(m: Mcu)
    requires WellFormed(m) && |m.line| == 1
    requires m.line[0] in {CMD_SET_LED, CMD_SET_ATMEGA_DEBUG, CMD_SET_ATMEGA_LOG_LEVEL, CMD_SET_DISPLAY_DATA}
    ensures Command(m) == m.(line := [], tx := m.tx + CommandLog(m, m.line[0]))
  {
  }

  /** `CMD_SET_ATMEGA_LOG_LEVEL` stores the requested level, capped at 3. */
  lemma LogLevelClamped(m: Mcu)
    requires WellFormed(m) && |m.line| >= 2 && m.line[0] == CMD_SET_ATMEGA_LOG_LEVEL
    ensures Command(m).logLevel == ClampLevel(m.line[1])
    ensures Command(m).logLevel as nat == Min(m.line[1] as nat, LOG_DEBUG)
  {
  }

  /**
   * An image chunk is taken exactly when it is acceptable; it then adds its
   * size to the received count (in 16 bits), and reception stops once the
   * count reaches the expected size. A refused chunk changes nothing.
   */
  lemma ImageChunkCounts(m: Mcu)
    requires WellFormed(m) && |m.line| >= 1 && m.line[0] == CMD_SET_DISPLAY_IMAGE_CHUNK
    ensures var r := Command(m);
      if ChunkAccepted(m) then
        r.image.received == (m.image.received + m.line[3] as nat) % 0x1_0000 &&
        r.image.expected == m.image.expected &&
        r.image.receiving == (r.image.received < m.image.expected) &&
        r.screen == m.screen + [ChunkRow(m.line)] &&
        r.screen[|m.screen|].pixels == m.line[4..4 + m.line[3] as nat]
      else r == m.(line := [], tx := m.tx + CommandLog(m, m.line[0]))
  {
  }

  /** A chunk's pixels start inside the panel, on row `(index * 64 mod 65536) / 640`. */
  lemma ChunkRowInside(line: seq<byte>)
    requires |line| >= 4 && 4 + line[3] as nat <= |line|
    ensures ChunkRow(line).x0 < SCREEN_WIDTH
    ensures ChunkRow(line).y == (Word(line, 1) * 64) % 0x1_0000 / 640
    ensures line[3] as nat >= 2 ==> ChunkRow(line).x0 <= ChunkRow(line).x1 < SCREEN_WIDTH
  {
    var byteOffset := Wrap16(Word(line, 1) * 64);
    assert byteOffset / 2 / 320 == byteOffset / 640;
  }

  /** `CMD_SET_DISPLAY_IMAGE` restarts reception with the little-endian size and zero counts. */
  lemma StartImageResets(m: Mcu)
    requires WellFormed(m) && |m.line| >= 3 && m.line[0] == CMD_SET_DISPLAY_IMAGE
    ensures Command(m).image == Image(m.line[1] as int + 256 * m.line[2] as int, 0, 0, true)
  {
  }

  /** The receive interrupt never lets the buffered line grow past 255 bytes, and a full buffer drops the line. */
  lemma ReceiveBounded(m: Mcu, b: byte)
    requires WellFormed(m)
    ensures |Receive(m, b).line| <= LINE_MAX
    ensures !IsTerminator(b) && |m.line| < LINE_MAX ==> Receive(m, b).line == m.line + [b]
    ensures !IsTerminator(b) && |m.line| == LINE_MAX ==> Receive(m, b) == m.(line := [])
    ensures IsTerminator(b) ==> Receive(m, b).line == []
  {
    ReceiveWellFormed(m, b);
  }

  /** The interrupt run over a stream of bytes. */
  function ReceiveAll(m: Mcu, bs: seq<byte>): (r: Mcu)
    requires WellFormed(m)
    ensures WellFormed(r)
    decreases |bs|
  {
    if |bs| == 0 then m
    else
      ReceiveWellFormed(m, bs[0]);
      ReceiveAll(Receive(m, bs[0]), bs[1..])
  }

  predicate NoTerminator(bs: seq<byte>)
  {
    forall i :: 0 <= i < |bs| ==> !IsTerminator(bs[i])
  }

  /** Bytes without a line end, while they fit, only extend the buffered line. */
  lemma {:induction false} ReceiveCollects(m: Mcu, bs: seq<byte>)
    requires WellFormed(m) && NoTerminator(bs) && |m.line| + |bs| <= LINE_MAX
    ensures ReceiveAll(m, bs) == m.(line := m.line + bs)
    decreases |bs|
  {
    if |bs| > 0 {
      var m1 := Receive(m, bs[0]);
      assert m1 == m.(line := m.line + [bs[0]]);
      ReceiveCollects(m1, bs[1..]);
      assert m.line + [bs[0]] + bs[1..] == m.line + bs;
    }
  }

  /** A command of at most 255 bytes followed by a line end is executed exactly once, as sent. */
  lemma LineRunsCommand(m: Mcu, cmd: seq<byte>, end: byte)
    requires WellFormed(m) && m.line == [] && 0 < |cmd| <= LINE_MAX && NoTerminator(cmd) && IsTerminator(end)
    ensures WellFormed(m.(line := cmd))
    ensures ReceiveAll(m, cmd + [end]) == Command(m.(line := cmd))
  {
    ReceiveCollects(m, cmd);
    ReceiveSplit(m, cmd, [end]);
    var full := m.(line := cmd);
    assert m.(line := m.line + cmd) == full;
    ReceiveEnd(full, end);
  }

  /** A line end after a non-empty line runs it. */
  lemma ReceiveEnd(m: Mcu, end: byte)
    requires WellFormed(m) && |m.line| > 0 && IsTerminator(end)
    ensures ReceiveAll(m, [end]) == Command(m)
  {
    CommandWellFormed(m);
    assert [end][1..] == [];
    assert Receive(m, end) == Command(m);
  }

  lemma {:induction false} ReceiveSplit(m: Mcu, a: seq<byte>, b: seq<byte>)
    requires WellFormed(m)
    ensures ReceiveAll(m, a + b) == ReceiveAll(ReceiveAll(m, a), b)
    decreases |a|
  {
    if |a| == 0 {
      assert a + b == b;
    } else {
      assert (a + b)[0] == a[0];
      assert (a + b)[1..] == a[1..] + b;
      ReceiveWellFormed(m, a[0]);
      ReceiveSplit(Receive(m, a[0]), a[1..], b);
    }
  }

  /** A 256th byte without a line end discards the whole line: nothing is executed. */
  lemma OverlongLineDropped(m: Mcu, bs: seq<byte>)
    requires WellFormed(m) && m.line == [] && |bs| == LINE_MAX + 1 && NoTerminator(bs)
    ensures ReceiveAll(m, bs) == m
  {
    ReceiveSplit(m, bs[..LINE_MAX], bs[LINE_MAX..]);
    assert bs[..LINE_MAX] + bs[LINE_MAX..] == bs;
    ReceiveCollects(m, bs[..LINE_MAX]);
    assert m.(line := m.line + bs[..LINE_MAX]).line == bs[..LINE_MAX];
  }

  // -------------------------------------------------------------- the class

  /** `memcpy(dst, &src[from], len); dst[len] = '\0'`. */
  method CopyText(dst: array<byte>, src: array<byte>, from: nat, len: nat)
    requires dst != src && len < dst.Length && from + len <= src.Length
    modifies dst
    ensures dst[..] == Store(old(dst[..]), src[from..from + len])
  {
    var i := 0;
    while i < len
      invariant 0 <= i <= len
      invariant dst[..i] == src[from..from + i]
      invariant dst[i..] == old(dst[..])[i..]
    {
      dst[i] := src[from + i];
      assert dst[..i + 1] == dst[..i] + [dst[i]];
      assert src[from..from + i + 1] == src[from..from + i] + [src[from + i]];
      i := i + 1;
    }
    dst[len] := 0;
    assert dst[..] == dst[..len] + [dst[len]] + dst[len + 1..];
  }

  /** A zero-filled char array of `cap` bytes starting with `text`. */
  method NewText(cap: nat, text: seq<byte>) returns (a: array<byte>)
    requires |text| < cap
    ensures fresh(a) && a.Length == cap && a[..] == text + seq(cap - |text|, _ => 0) && HasNul(a[..])
  {
    a := new byte[cap](i => if 0 <= i < |text| then text[i] else 0);
    assert a[..] == text + seq(cap - |text|, _ => 0);
    assert a[cap - 1] == 0;
  }

  /** The globals of main.cpp that the UART path reads and writes. */
  class Controller {
    const buffer: array<byte>
    var index: nat
    var command: byte
    var led: byte
    var light: u16
    var imageExpected: u16
    var imageReceived: u16
    var imageChunkIndex: u16
    var imageReceiving: bool
    var displayBrightness: byte
    const mode: array<byte>
    const profile: array<byte>
    const outputMode: array<byte>
    var keysCount: byte
    const lastKey: array<byte>
    var backlightEnabled: byte
    var backlightBrightness: byte
    var debugEnabled: byte
    var logLevel: byte
    var tx: seq<byte>
    var screen: seq<ScreenOp>

    predicate Arrays()
      reads this
    {
      buffer.Length == BUFFER_SIZE && mode.Length == MODE_CAP && profile.Length == PROFILE_CAP &&
      outputMode.Length == OUTPUT_CAP && lastKey.Length == LAST_KEY_CAP &&
      buffer != mode && buffer != profile && buffer != outputMode && buffer != lastKey &&
      mode != profile && mode != outputMode && mode != lastKey &&
      profile != outputMode && profile != lastKey && outputMode != lastKey
    }

    /** The globals as an `Mcu` value. */
    function State(): Mcu
      reads this, buffer, mode, profile, outputMode, lastKey
      requires index <= buffer.Length
    {
      Mcu(buffer[..index], led, light,
        Image(imageExpected, imageReceived, imageChunkIndex, imageReceiving),
        Display(displayBrightness, mode[..], profile[..], outputMode[..], keysCount, lastKey[..], backlightEnabled, backlightBrightness),
        debugEnabled, logLevel, tx, screen)
    }

    predicate Valid()
      reads this, buffer, mode, profile, outputMode, lastKey
    {
      Arrays() && index <= LINE_MAX && command == 0 && WellFormed(State())
    }

    /**
     * The globals when `main()` enables interrupts: the LED forced to 255,
     * the display texts "data", "Profile 1" and "bluetooth", the backlight
     * shown on at 255; nothing sent or drawn yet in this model.
     */
    constructor ()
      ensures Valid() && fresh(buffer) && fresh(mode) && fresh(profile) && fresh(outputMode) && fresh(lastKey)
      ensures State() == Mcu([], 255, 0, Image(0, 0, 0, false),
        Display(128, INIT_MODE + seq(12, _ => 0), DEFAULT_PROFILE + seq(23, _ => 0), INIT_OUTPUT + seq(7, _ => 0),
          0, seq(16, _ => 0), 1, 255), 0, 2, [], [])
    {
      var m := NewText(MODE_CAP, INIT_MODE);
      var p := NewText(PROFILE_CAP, DEFAULT_PROFILE);
      var o := NewText(OUTPUT_CAP, INIT_OUTPUT);
      buffer := new byte[BUFFER_SIZE](_ => 0);
      mode := m;
      profile := p;
      outputMode := o;
      lastKey := new byte[LAST_KEY_CAP](_ => 0);
      index := 0;
      command := 0;
      led := 255;
      light := 0;
      imageExpected := 0;
      imageReceived := 0;
      imageChunkIndex := 0;
      imageReceiving := false;
      displayBrightness := 128;
      keysCount := 0;
      backlightEnabled := 1;
      backlightBrightness := 255;
      debugEnabled := 0;
      logLevel := 2;
      tx := [];
      screen := [];
      new;
      assert lastKey[0] == 0;
    }

    /** `light_level = adc_read()` in the main loop. */
    method SampleLight(level: u16)
      requires Valid()
      modifies this`light
      ensures Valid() && State() == old(State()).(light := level)
    {
      light := level;
    }

    /** `LOG_INFO(msg)` and friends. */
    method Log(level: nat, msg: seq<byte>)
      modifies this`tx
      ensures tx == old(tx) + Logged(debugEnabled, logLevel, level, msg)
    {
      if debugEnabled != 0 && logLevel as nat >= level {
        tx := tx + msg;
      }
    }

    /** `ISR(USART_RX_vect)`. */
    method ReceiveByte(b: byte)
      requires Valid()
      modifies this, buffer, mode, profile, outputMode, lastKey
      ensures Valid() && State() == Receive(old(State()), b)
    {
      ghost var m := State();
      ReceiveWellFormed(m, b);
      if b == NEWLINE || b == CR {
        if index > 0 {
          ProcessUartCommand();
        }
        index := 0;
      } else if index < LINE_MAX {
        buffer[index] := b;
        index := index + 1;
        assert buffer[..index] == m.line + [b];
      } else {
        index := 0;
      }
    }

    /** `processUartCommand()`. */
    method ProcessUartCommand()
      requires Valid()
      modifies this, mode, profile, outputMode, lastKey
      ensures Valid() && State() == Command(old(State()))
    {
      ghost var m := State();
      CommandWellFormed(m);
      if index < 1 {
        return;
      }
      command := buffer[0];
      LogCommand();
      ghost var m1 := State();
      assert m1 == m.(tx := m.tx + CommandLog(m, command));
      RunCommand();
      index := 0;
      command := 0;
    }

    /** The `switch (uart_command)`. */
    method RunCommand()
      requires Arrays() && 1 <= index <= LINE_MAX && WellFormed(State()) && command == buffer[0]
      modifies this, mode, profile, outputMode, lastKey
      ensures Arrays() && index == old(index) && command == old(command)
      ensures State() == Dispatch(old(State()), command)
    {
      ghost var m := State();
      if command == CMD_READ_LIGHT {
        SendLightLevel();
      } else if command == CMD_GET_LED {
        SendLedLevel();
      } else if command == CMD_SET_LED {
        ReceiveLed();
      } else if command == CMD_UPDATE_DISPLAY {
        screen := screen + [UpdateDisplay];
      } else if command == CMD_SET_DISPLAY_DATA {
        ReceiveDisplayData();
      } else if command == CMD_SET_ATMEGA_DEBUG {
        ReceiveDebug();
      } else if command == CMD_SET_ATMEGA_LOG_LEVEL {
        ReceiveLogLevel();
      } else if command == CMD_SET_DISPLAY_IMAGE {
        ReceiveImageStart();
      } else if command == CMD_SET_DISPLAY_IMAGE_CHUNK {
        ReceiveImageChunk();
      }
    }

    /** The label (at debug level) and the command byte in hexadecimal, sent for every command. */
    method LogCommand()
      requires Arrays() && 1 <= index <= LINE_MAX
      modifies this`tx
      ensures tx == old(tx) + CommandLog(old(State()), buffer[0])
      ensures State() == old(State()).(tx := tx)
    {
      Log(LOG_DEBUG, MSG_COMMAND);
      tx := tx + DebugHex(buffer[0]) + CRLF;
    }

    /** The `CMD_READ_LIGHT` case. */
    method SendLightLevel()
      requires Arrays() && index <= LINE_MAX
      modifies this`tx
      ensures tx == ReadLight(old(State())).tx
      ensures State() == ReadLight(old(State()))
    {
      var reply := SendResponse(CMD_READ_LIGHT, LittleEndian(light), 2);
      tx := tx + reply;
      assert LittleEndian(light)[..2] == LittleEndian(light);
    }

    /** The `CMD_GET_LED` case. */
    method SendLedLevel()
      requires Arrays() && index <= LINE_MAX
      modifies this`tx
      ensures tx == GetLed(old(State())).tx
      ensures State() == GetLed(old(State()))
    {
      var reply := SendResponse(CMD_GET_LED, [led], 1);
      tx := tx + reply;
      assert [led][..1] == [led];
    }

    /** The `CMD_SET_LED` case: `set_led_brightness` and a panel update. */
    method ReceiveLed()
      requires Arrays() && 1 <= index <= LINE_MAX
      modifies this`tx, this`led, this`screen
      ensures tx == SetLed(old(State())).tx && led == SetLed(old(State())).led && screen == SetLed(old(State())).screen
      ensures State() == SetLed(old(State()))
    {
      if index >= 2 {
        var brightness := buffer[1];
        Log(LOG_INFO, MSG_SET_LED);
        var digits := DebugDec(brightness as nat);
        tx := tx + digits + CRLF;
        led := brightness;
        screen := screen + [UpdateDisplay];
      }
    }

    /** The `CMD_SET_ATMEGA_DEBUG` case; the messages already follow the new setting. */
    method ReceiveDebug()
      requires Arrays() && 1 <= index <= LINE_MAX
      modifies this`tx, this`debugEnabled
      ensures tx == SetDebug(old(State())).tx && debugEnabled == SetDebug(old(State())).debugEnabled
      ensures State() == SetDebug(old(State()))
    {
      if index >= 2 {
        debugEnabled := buffer[1];
        Log(LOG_INFO, MSG_DEBUG);
        if debugEnabled != 0 {
          Log(LOG_INFO, MSG_ENABLED);
        } else {
          Log(LOG_INFO, MSG_DISABLED);
        }
      }
    }

    /** The `CMD_SET_ATMEGA_LOG_LEVEL` case. */
    method ReceiveLogLevel()
      requires Arrays() && 1 <= index <= LINE_MAX
      modifies this`tx, this`logLevel
      ensures tx == SetLogLevel(old(State())).tx && logLevel == SetLogLevel(old(State())).logLevel
      ensures State() == SetLogLevel(old(State()))
    {
      if index >= 2 {
        logLevel := buffer[1];
        if logLevel > 3 {
          logLevel := 3;
        }
        Log(LOG_INFO, MSG_LOG_LEVEL);
        var digits := DebugDec(logLevel as nat);
        tx := tx + digits + CRLF;
      }
    }

    /** The `CMD_SET_DISPLAY_IMAGE` case. */
    method ReceiveImageStart()
      requires Arrays() && 1 <= index <= LINE_MAX
      modifies this`tx, this`imageExpected, this`imageReceived, this`imageChunkIndex, this`imageReceiving
      ensures tx == StartImage(old(State())).tx && State().image == StartImage(old(State())).image
      ensures State() == StartImage(old(State()))
    {
      ghost var m := State();
      if index >= 3 {
        assert m.line[1] == buffer[1] && m.line[2] == buffer[2];
        imageExpected := buffer[1] as int + 256 * buffer[2] as int;
        imageReceived := 0;
        imageChunkIndex := 0;
        imageReceiving := true;
        Log(LOG_INFO, MSG_IMAGE_START);
        var digits := DebugDec(imageExpected);
        tx := tx + digits + CRLF;
        ghost var size := Word(m.line, 1);
        assert imageExpected == size;
        assert State() == m.(image := Image(size, 0, 0, true), tx := tx);
      }
    }

    /** The `CMD_SET_DISPLAY_DATA` case: the fields in order, then the redraw test. */
    method ReceiveDisplayData()
      requires Arrays() && 1 <= index <= LINE_MAX && WellFormed(State())
      modifies this`displayBrightness, this`keysCount, this`backlightEnabled, this`backlightBrightness, this`screen
      modifies mode, profile, outputMode, lastKey
      ensures State().display == SetDisplayData(old(State())).display
      ensures screen == SetDisplayData(old(State())).screen
      ensures State() == SetDisplayData(old(State()))
    {
      if index > 1 {
        ReadDisplayFields();
        var shown := profile[..];
        if CString(shown) != DEFAULT_PROFILE || keysCount > 0 {
          screen := screen + [SimpleInfo];
        }
      }
    }

    /** The field-by-field reading of `CMD_SET_DISPLAY_DATA`, from offset 1. */
    method ReadDisplayFields()
      requires Arrays() && 1 < index <= LINE_MAX && WellFormed(State())
      modifies this`displayBrightness, this`keysCount, this`backlightEnabled, this`backlightBrightness
      modifies mode, profile, outputMode, lastKey
      ensures State().display == ParseDisplay(old(State()).line, old(State()).display)
      ensures State() == old(State()).(display := State().display)
    {
      var pos := ReadHeadFields();
      ReadTailFields(pos);
    }

    /** Brightness, mode, profile and output mode. */
    method ReadHeadFields() returns (pos: nat)
      requires Arrays() && index <= LINE_MAX && Sized(State().display)
      modifies this`displayBrightness, mode, profile, outputMode
      ensures State().display == HeadFields(old(State()).line, old(State()).display).0
      ensures pos == HeadFields(old(State()).line, old(State()).display).1
      ensures State() == old(State()).(display := State().display)
    {
      ghost var m := State();
      ghost var t1 := ByteField(m.line, 1, m.display.brightness);
      ghost var t2 := TextField(m.line, t1.1, MODE_CAP, m.display.mode);
      ghost var t3 := TextField(m.line, t2.1, PROFILE_CAP, m.display.profile);
      ghost var t4 := TextField(m.line, t3.1, OUTPUT_CAP, m.display.outputMode);
      pos := 1;
      if pos < index {
        displayBrightness := buffer[pos];
        pos := pos + 1;
      }
      assert displayBrightness == t1.0 && pos == t1.1;
      pos := ReadTextField(mode, pos);
      pos := ReadTextField(profile, pos);
      pos := ReadTextField(outputMode, pos);
      assert mode[..] == t2.0 && profile[..] == t3.0 && outputMode[..] == t4.0 && pos == t4.1;
    }

    /** Keys count, last key and the two backlight bytes, from the cursor `pos`. */
    method ReadTailFields(pos: nat)
      requires Arrays() && index <= LINE_MAX && Sized(State().display)
      modifies this`keysCount, this`backlightEnabled, this`backlightBrightness, lastKey
      ensures State().display == TailFields(old(State()).line, old(State()).display, pos)
      ensures State() == old(State()).(display := State().display)
    {
      ghost var m := State();
      ghost var t5 := ByteField(m.line, pos, m.display.keysCount);
      ghost var t6 := TextField(m.line, t5.1, LAST_KEY_CAP, m.display.lastKey);
      ghost var t7 := ByteField(m.line, t6.1, m.display.backlightEnabled);
      ghost var t8 := ByteField(m.line, t7.1, m.display.backlightBrightness);
      var p := pos;
      if p < index {
        keysCount := buffer[p];
        p := p + 1;
      }
      assert keysCount == t5.0 && p == t5.1;
      p := ReadTextField(lastKey, p);
      assert lastKey[..] == t6.0 && p == t6.1;
      if p < index {
        backlightEnabled := buffer[p];
        p := p + 1;
      }
      assert backlightEnabled == t7.0 && p == t7.1;
      if p < index {
        backlightBrightness := buffer[p];
      }
    }

    /** One length-prefixed text field read into `dst` from the cursor `pos`. */
    method ReadTextField(dst: array<byte>, pos: nat) returns (next: nat)
      requires Arrays() && index <= LINE_MAX
      requires dst == mode || dst == profile || dst == outputMode || dst == lastKey
      modifies dst
      ensures (dst[..], next) == TextField(buffer[..index], pos, dst.Length, old(dst[..]))
    {
      next := pos;
      if next < index {
        var len := buffer[next] as nat;
        next := next + 1;
        if len < dst.Length && next + len < index {
          assert buffer[..index][next..next + len] == buffer[next..next + len];
          CopyText(dst, buffer, next, len);
          next := next + len;
        }
      }
    }

    /** Where chunk `chunkIdx` of `chunkSize` bytes is drawn, and its bytes. */
    method PlaceChunk(chunkIdx: u16, chunkSize: nat) returns (row: ScreenOp)
      requires Arrays() && 4 <= index <= LINE_MAX && 4 + chunkSize <= index
      requires chunkIdx == buffer[1] as int + 256 * buffer[2] as int && chunkSize == buffer[3] as nat
      ensures row == ChunkRow(buffer[..index])
    {
      var byteOffset := (chunkIdx * 64) % 0x1_0000;
      var pixelOffset := byteOffset / 2;
      var x := pixelOffset % 320;
      var y := pixelOffset / 320;
      var pixelsInChunk := chunkSize / 2;
      var endX := x + pixelsInChunk;
      if endX > 320 {
        endX := 320;
        pixelsInChunk := 320 - x;
      }
      assert buffer[..index][4..4 + chunkSize] == buffer[4..4 + chunkSize];
      row := ImageRow(x, y, (endX - 1) % 0x1_0000, buffer[4..4 + chunkSize]);
    }

    /** The `CMD_SET_DISPLAY_IMAGE_CHUNK` case. */
    method ReceiveImageChunk()
      requires Arrays() && 1 <= index <= LINE_MAX
      modifies this`imageReceived, this`imageChunkIndex, this`imageReceiving, this`screen, this`tx
      ensures State().image == ImageChunk(old(State())).image
      ensures State().screen == ImageChunk(old(State())).screen
      ensures State().tx == ImageChunk(old(State())).tx
      ensures State() == ImageChunk(old(State()))
    {
      ghost var m := State();
      if imageReceiving && index >= 4 {
        var chunkSize := buffer[3] as nat;
        if chunkSize > 0 && chunkSize <= IMAGE_CHUNK_SIZE && index - 4 >= chunkSize {
          var row := PlaceChunk(buffer[1] as int + 256 * buffer[2] as int, chunkSize);
          assert ChunkRow(m.line) == row;
          screen := screen + [row];
          assert State() == m.(screen := m.screen + [ChunkRow(m.line)]);
          CountImageChunk(chunkSize);
        }
      }
    }

    /** The counting of a taken chunk. */
    method CountImageChunk(size: nat)
      requires Arrays() && index <= LINE_MAX
      modifies this`imageReceived, this`imageChunkIndex, this`imageReceiving, this`tx
      ensures State().image == CountChunk(old(State()), size).image
      ensures State().tx == CountChunk(old(State()), size).tx
      ensures State() == CountChunk(old(State()), size)
    {
      ghost var m := State();
      ghost var target := CountChunk(m, size).image;
      imageReceived := (imageReceived + size) % 0x1_0000;
      imageChunkIndex := (imageChunkIndex + 1) % 0x1_0000;
      assert imageReceived == target.received && imageChunkIndex == target.chunkIndex;
      if imageReceived >= imageExpected {
        imageReceiving := false;
        Log(LOG_INFO, MSG_IMAGE_DONE);
        ghost var logged := Logged(debugEnabled, logLevel, LOG_INFO, MSG_IMAGE_DONE);
        var digits := DebugDec(imageReceived);
        tx := tx + digits + MSG_BYTES;
        AppendAssoc(m.tx, logged + digits, MSG_BYTES);
        AppendAssoc(m.tx, logged, digits);
      }
    }
  }
}
