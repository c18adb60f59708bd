/**
 * The receive side of the MicroPython firmware (firmware/esp32_micropython/main.py)
 * and what it advertises and reports over BLE. Text from the configuration
 * page arrives either on the USB serial port, where `read_serial` keeps one
 * buffer for the whole port, or as writes to the BLE serial characteristic,
 * where `BleKeyboard._irq` keeps one byte buffer per connection handle.
 * Both cut the stream at line feeds and pass every complete, non-blank line,
 * stripped, to `process_web_message`.
 */
module PySerial {
  import opened Common
  import WebLink

  // ------------------------------------------------------ str.strip()

  /**
   * The characters MicroPython's `str.strip()` removes by default: the
   * space, and tab, line feed, vertical tab, form feed and carriage return
   * (code points 9 to 13).
   */
  predicate IsPySpace(c: char)
  {
    c == ' ' || '\t' <= c <= '\r'
  }

  function StripStart(s: string): (r: string)
    ensures |r| <= |s|
  {
    if |s| > 0 && IsPySpace(s[0]) then StripStart(s[1..]) else s
  }

  /** `lstrip` cuts off a prefix made only of white space and keeps the first other character. */
  lemma {:induction false} StripStartCut(s: string)
    ensures var r := StripStart(s);
      r == s[|s| - |r|..] && (|r| > 0 ==> !IsPySpace(r[0])) &&
      forall i :: 0 <= i < |s| - |r| ==> IsPySpace(s[i])
    decreases |s|
  {
    if |s| > 0 && IsPySpace(s[0]) {
      var r := StripStart(s);
      assert r == StripStart(s[1..]);
      StripStartCut(s[1..]);
      assert s[1..][|s| - 1 - |r|..] == s[|s| - |r|..];
      forall i | 1 <= i < |s| - |r| ensures IsPySpace(s[i]) {
        assert s[i] == s[1..][i - 1];
      }
    }
  }

  function StripEnd(s: string): (r: string)
    ensures |r| <= |s|
  {
    if |s| > 0 && IsPySpace(s[|s| - 1]) then StripEnd(s[..|s| - 1]) else s
  }

  /** `rstrip` cuts off a suffix made only of white space and keeps the last other character. */
  lemma {:induction false} StripEndCut(s: string)
    ensures var r := StripEnd(s);
      r == s[..|r|] && (|r| > 0 ==> !IsPySpace(r[|r| - 1])) &&
      forall i :: |r| <= i < |s| ==> IsPySpace(s[i])
    decreases |s|
  {
    if |s| > 0 && IsPySpace(s[|s| - 1]) {
      var r := StripEnd(s);
      assert r == StripEnd(s[..|s| - 1]);
      StripEndCut(s[..|s| - 1]);
      assert s[..|s| - 1][..|r|] == s[..|r|];
      forall i | |r| <= i < |s| - 1 ensures IsPySpace(s[i]) {
        assert s[i] == s[..|s| - 1][i];
      }
    }
  }

  /** `s.strip()` */
  function Strip(s: string): string
  {
    StripEnd(StripStart(s))
  }

  /**
   * `r` is `s` with the white space before index `k` and after index
   * `k + |r|` cut off, and nothing else.
   */
  predicate TrimmedAt(s: string, k: nat, r: string)
  {
    k + |r| <= |s| && r == s[k..k + |r|] &&
    (forall i :: 0 <= i < k ==> IsPySpace(s[i])) &&
    (forall i :: k + |r| <= i < |s| ==> IsPySpace(s[i])) &&
    (|r| > 0 ==> !IsPySpace(r[0]) && !IsPySpace(r[|r| - 1]))
  }

  /** A stripped line is the line with only leading and trailing white space cut off. */
  lemma StripSlice(s: string)
    ensures TrimmedAt(s, |s| - |StripStart(s)|, Strip(s))
  {
    var t := StripStart(s);
    var r := StripEnd(t);
    assert Strip(s) == r;
    StripStartCut(s);
    StripEndCut(t);
    StripCuts(s, t, |s| - |t|, r);
  }

  /** The cuts of `Strip`, on plain sequences: `t` is `s` after the cut before `k`, and `r` is `t` cut at its end. */
  lemma StripCuts(s: string, t: string, k: nat, r: string)
    requires k <= |s| && t == s[k..] && |r| <= |t| && r == t[..|r|]
    requires forall i :: 0 <= i < k ==> IsPySpace(s[i])
    requires forall i :: |r| <= i < |t| ==> IsPySpace(t[i])
    requires |t| > 0 ==> !IsPySpace(t[0])
    requires |r| > 0 ==> !IsPySpace(r[|r| - 1])
    ensures TrimmedAt(s, k, r)
  {
    forall i | k + |r| <= i < |s| ensures IsPySpace(s[i]) {
      assert s[i] == t[i - k];
    }
    if |r| > 0 {
      assert r[0] == t[0];
    }
  }

  /** A line strips to nothing exactly when it is all white space. */
  lemma StripBlank(s: string)
    ensures Strip(s) == "" <==> forall i :: 0 <= i < |s| ==> IsPySpace(s[i])
  {
    var k := |s| - |StripStart(s)|;
    StripSlice(s);
    if Strip(s) != "" {
      assert s[k] == Strip(s)[0];
    }
  }

  /** Stripping twice is stripping once. */
  lemma StripIdempotent(s: string)
    ensures Strip(Strip(s)) == Strip(s)
  {
    var r := Strip(s);
    StripSlice(s);
    if r != "" {
      assert StripStart(r) == r;
      assert StripEnd(r) == r;
    }
  }

  // ------------------------------------------------------ splitting helpers

  /** The lines closed by the separator in `s`, and the tail after the last one, when `s` holds one. */
  lemma ClosedStep<T>(s: seq<T>, sep: T)
    requires sep in s
    ensures var i := FirstIndex(s, sep);
      Closed(s, sep) == [s[..i]] + Closed(s[i + 1..], sep) && Rest(s, sep) == Rest(s[i + 1..], sep)
  {
    var i := FirstIndex(s, sep);
    var p, q := Pieces(s, sep), Pieces(s[i + 1..], sep);
    assert p == [s[..i]] + q;
    assert p[..|p| - 1] == [s[..i]] + q[..|q| - 1];
  }

  lemma RestFree<T>(s: seq<T>, sep: T)
    ensures sep !in Rest(s, sep)
  {
    var p := Pieces(s, sep);
    assert sep !in p[|p| - 1];
  }

  /** Reading `x` and then `y` closes the lines of `x`, then those of its tail followed by `y`. */
  lemma ClosedAppend<T>(x: seq<T>, y: seq<T>, sep: T)
    ensures Closed(x + y, sep) == Closed(x, sep) + Closed(Rest(x, sep) + y, sep)
    ensures Rest(x + y, sep) == Rest(Rest(x, sep) + y, sep)
  {
    PiecesAppend(x, y, sep);
    var c := Closed(x, sep);
    var py := Pieces(Rest(x, sep) + y, sep);
    var pxy := Pieces(x + y, sep);
    assert pxy == c + py;
    assert pxy[..|pxy| - 1] == c + py[..|py| - 1];
    assert pxy[|pxy| - 1] == py[|py| - 1];
  }

  // ------------------------------------------------------ read_serial

  /** What is processed of the closed lines, in order: each non-blank one, stripped. */
  function SerialMessages(lines: seq<string>): (r: seq<string>)
    ensures |r| <= |lines|
  {
    if |lines| == 0 then []
    else
      var last := lines[|lines| - 1];
      SerialMessages(lines[..|lines| - 1]) + (if Strip(last) == "" then [] else [Strip(last)])
  }

  lemma {:induction false} SerialMessagesAppend(a: seq<string>, b: seq<string>)
    ensures SerialMessages(a + b) == SerialMessages(a) + SerialMessages(b)
    decreases |b|
  {
    if |b| == 0 {
      assert a + b == a;
    } else {
      assert (a + b)[..|a + b| - 1] == a + b[..|b| - 1];
      SerialMessagesAppend(a, b[..|b| - 1]);
    }
  }

  /** The USB serial port: `serial_buffer` and whether `uselect.poll()` could be set up. */
  class UsbSerial {
    var serialBuffer: string
    const pollReady: bool

    /** The buffer only ever holds the unterminated tail of the input. */
    predicate Valid()
      reads this
    {
      '\n' !in serialBuffer
    }

    constructor (pollReady: bool)
      ensures Valid() && serialBuffer == "" && this.pollReady == pollReady
    {
      serialBuffer := "";
      this.pollReady := pollReady;
    }

    /**
     * `read_serial()` once the poll has reported input and `data` has been
     * read (the firmware reads one character at a time; any chunk is
     * allowed here). Without a poll object nothing happens.
     */
    method ReadSerial(data: string) returns (messages: seq<string>)
      requires Valid()
      modifies this`serialBuffer
      ensures Valid()
      ensures !pollReady ==> serialBuffer == old(serialBuffer) && messages == []
      ensures pollReady ==> serialBuffer == Rest(old(serialBuffer) + data, '\n')
      ensures pollReady ==> messages == SerialMessages(Closed(old(serialBuffer) + data, '\n'))
    {
      messages := [];
      if !pollReady {
        return;
      }
      if data == "" {
        assert old(serialBuffer) + data == old(serialBuffer);
        return;
      }
      var buffer := serialBuffer + data;
      serialBuffer := buffer;
      if '\n' in buffer {
        var lines := Pieces(buffer, '\n');
        serialBuffer := lines[|lines| - 1];
        messages := ProcessLines(lines[..|lines| - 1]);
      } else {
        NoSeparator(buffer, '\n');
      }
    }
  }

  /** The loop of `read_serial()` over the closed lines: each non-blank one, stripped, in order. */
  method ProcessLines(closed: seq<string>) returns (messages: seq<string>)
    ensures messages == SerialMessages(closed)
  {
    messages := [];
    var j := 0;
    while j < |closed|
      invariant j <= |closed|
      invariant messages == SerialMessages(closed[..j])
    {
      assert closed[..j + 1][..j] == closed[..j];
      var stripped := Strip(closed[j]);
      if stripped != "" {
        messages := messages + [stripped];
      }
      j := j + 1;
    }
    assert closed[..j] == closed;
  }

  /** Two reads deliver what one read of both chunks would, and leave the same tail. */
  lemma SerialReadsCompose(buffer: string, x: string, y: string)
    ensures SerialMessages(Closed(buffer + x, '\n')) + SerialMessages(Closed(Rest(buffer + x, '\n') + y, '\n')) ==
            SerialMessages(Closed(buffer + x + y, '\n'))
    ensures Rest(Rest(buffer + x, '\n') + y, '\n') == Rest(buffer + x + y, '\n')
  {
    ClosedAppend(buffer + x, y, '\n');
    SerialMessagesAppend(Closed(buffer + x, '\n'), Closed(Rest(buffer + x, '\n') + y, '\n'));
  }

  /** The buffer never keeps a line feed, and a chunk without one delivers nothing and is kept whole. */
  lemma SerialTail(buffer: string, data: string)
    ensures '\n' !in Rest(buffer + data, '\n')
    ensures '\n' !in buffer + data ==> Closed(buffer + data, '\n') == [] && Rest(buffer + data, '\n') == buffer + data
  {
  }

  // ------------------------------------------------------ BLE serial writes

  const LF: byte := 10

  /**
   * The check MicroPython makes when bytes are decoded as UTF-8: every lead
   * byte 0xC0..0xF7 is followed by one, two or three continuation bytes
   * 0x80..0xBF, and no other byte of 0x80 or above appears. `need` counts
   * the continuation bytes still due.
   */
  function Utf8Ok(b: seq<byte>, need: nat): bool
    decreases |b|
  {
    if |b| == 0 then need == 0
    else if need > 0 then 0x80 <= b[0] < 0xC0 && Utf8Ok(b[1..], need - 1)
    else if b[0] < 0x80 then Utf8Ok(b[1..], 0)
    else if b[0] < 0xC0 || b[0] >= 0xF8 then false
    else Utf8Ok(b[1..], if b[0] < 0xE0 then 1 else if b[0] < 0xF0 then 2 else 3)
  }

  predicate DecodesAsUtf8(b: seq<byte>)
  {
    Utf8Ok(b, 0)
  }

  /** The encoding of one character passes the check and leaves it where it was. */
  lemma Utf8OkChar(c: char, rest: seq<byte>)
    ensures Utf8Ok(Utf8Char(c) + rest, 0) == Utf8Ok(rest, 0)
  {
    var e := Utf8Char(c);
    var n := c as int;
    if n >= 0x80 {
      if n < 0x800 {
        assert n / 0x40 < 0x20;
      } else if n < 0x1_0000 {
        assert n / 0x1000 < 0x10;
      } else {
        assert n / 0x4_0000 < 8;
      }
      var s1 := (e + rest)[1..];
      assert s1 == e[1..] + rest;
      assert 0x80 <= s1[0] < 0xC0;
      if |e| == 2 {
        assert Utf8Ok(e + rest, 0) == Utf8Ok(s1, 1);
        assert s1[1..] == rest;
      } else if |e| == 3 {
        assert Utf8Ok(e + rest, 0) == Utf8Ok(s1, 2);
        var s2 := s1[1..];
        assert 0x80 <= s2[0] < 0xC0 && s2[1..] == rest;
        assert Utf8Ok(s1, 2) == Utf8Ok(s2, 1);
      } else {
        assert Utf8Ok(e + rest, 0) == Utf8Ok(s1, 3);
        var s2 := s1[1..];
        var s3 := s2[1..];
        assert 0x80 <= s2[0] < 0xC0 && 0x80 <= s3[0] < 0xC0 && s3[1..] == rest;
        assert Utf8Ok(s1, 3) == Utf8Ok(s2, 2);
        assert Utf8Ok(s2, 2) == Utf8Ok(s3, 1);
      }
    } else {
      assert (e + rest)[1..] == rest;
    }
  }

  /** Whatever a page encodes passes the check. */
  lemma {:induction false} Utf8Encoded(s: string)
    ensures DecodesAsUtf8(Utf8(s))
    decreases |s|
  {
    if |s| > 0 {
      Utf8Encoded(s[1..]);
      Utf8OkChar(s[0], Utf8(s[1..]));
    }
  }

  /** A text without a line feed encodes without the byte 10: the bytes of a multi-byte character are all 0x80 or above. */
  lemma {:induction false} Utf8NoLineFeed(s: string)
    requires '\n' !in s
    ensures LF !in Utf8(s)
    decreases |s|
  {
    if |s| > 0 {
      assert s[0] != '\n' && '\n' !in s[1..];
      Utf8NoLineFeed(s[1..]);
      var e := Utf8Char(s[0]);
      assert LF !in e;
    }
  }

  /** The white space `strip()` removes, as bytes; none of it occurs inside a multi-byte character. */
  predicate IsSpaceByte(b: byte)
  {
    b == 32 || (9 <= b <= 13)
  }

  function StripStartBytes(s: seq<byte>): (r: seq<byte>)
    ensures |r| <= |s|
  {
    if |s| > 0 && IsSpaceByte(s[0]) then StripStartBytes(s[1..]) else s
  }

  /** The leading white space of a decoded line is cut off and the first other byte is kept. */
  lemma {:induction false} StripStartBytesCut(s: seq<byte>)
    ensures var r := StripStartBytes(s);
      r == s[|s| - |r|..] && (|r| > 0 ==> !IsSpaceByte(r[0])) &&
      forall i :: 0 <= i < |s| - |r| ==> IsSpaceByte(s[i])
    decreases |s|
  {
    if |s| > 0 && IsSpaceByte(s[0]) {
      var r := StripStartBytes(s);
      assert r == StripStartBytes(s[1..]);
      StripStartBytesCut(s[1..]);
      assert s[1..][|s| - 1 - |r|..] == s[|s| - |r|..];
      forall i | 1 <= i < |s| - |r| ensures IsSpaceByte(s[i]) {
        assert s[i] == s[1..][i - 1];
      }
    }
  }

  function StripEndBytes(s: seq<byte>): (r: seq<byte>)
    ensures |r| <= |s|
  {
    if |s| > 0 && IsSpaceByte(s[|s| - 1]) then StripEndBytes(s[..|s| - 1]) else s
  }

  /** The trailing white space of a decoded line is cut off and the last other byte is kept. */
  lemma {:induction false} StripEndBytesCut(s: seq<byte>)
    ensures var r := StripEndBytes(s);
      r == s[..|r|] && (|r| > 0 ==> !IsSpaceByte(r[|r| - 1])) &&
      forall i :: |r| <= i < |s| ==> IsSpaceByte(s[i])
    decreases |s|
  {
    if |s| > 0 && IsSpaceByte(s[|s| - 1]) {
      var r := StripEndBytes(s);
      assert r == StripEndBytes(s[..|s| - 1]);
      StripEndBytesCut(s[..|s| - 1]);
      assert s[..|s| - 1][..|r|] == s[..|r|];
      forall i | |r| <= i < |s| - 1 ensures IsSpaceByte(s[i]) {
        assert s[i] == s[..|s| - 1][i];
      }
    }
  }

  /** `line.decode('utf-8').strip()`, kept as the UTF-8 bytes of the stripped text. */
  function StripBytes(s: seq<byte>): seq<byte>
  {
    StripEndBytes(StripStartBytes(s))
  }

  /** What one closed line contributes once it decodes: its stripped text, or nothing when it is empty or blank. */
  function LineMessage(line: seq<byte>): (r: seq<seq<byte>>)
    ensures |r| <= 1
  {
    if line == [] || StripBytes(line) == [] then [] else [StripBytes(line)]
  }

  /**
   * What is processed of the closed byte lines when each that decodes is
   * processed and each that does not is skipped (`except
   * UnicodeDecodeError: pass`).
   */
  function BleMessages(lines: seq<seq<byte>>): (r: seq<seq<byte>>)
    ensures |r| <= |lines|
  {
    if |lines| == 0 then []
    else
      var last := lines[|lines| - 1];
      BleMessages(lines[..|lines| - 1]) + Kept(last)
  }

  /** The message of a line that decodes; nothing for one that does not. */
  function Kept(line: seq<byte>): (r: seq<seq<byte>>)
    ensures line != [] && !DecodesAsUtf8(line) ==> r == []
    ensures line == [] || DecodesAsUtf8(line) ==> r == LineMessage(line)
  {
    if line != [] && !DecodesAsUtf8(line) then [] else LineMessage(line)
  }

  lemma BleMessagesSnoc(lines: seq<seq<byte>>, line: seq<byte>)
    ensures BleMessages(lines + [line]) == BleMessages(lines) + Kept(line)
  {
    assert (lines + [line])[..|lines|] == lines;
  }

  lemma {:induction false} BleMessagesAppend(a: seq<seq<byte>>, b: seq<seq<byte>>)
    ensures BleMessages(a + b) == BleMessages(a) + BleMessages(b)
    decreases |b|
  {
    if |b| == 0 {
      assert a + b == a;
    } else {
      assert (a + b)[..|a + b| - 1] == a + b[..|b| - 1];
      BleMessagesAppend(a, b[..|b| - 1]);
    }
  }

  /** The index of the first non-empty line that fails to decode, or the number of lines. */
  function FirstUndecodable(lines: seq<seq<byte>>): (k: nat)
    ensures k <= |lines|
    ensures forall i :: 0 <= i < k ==> lines[i] == [] || DecodesAsUtf8(lines[i])
    ensures k < |lines| ==> lines[k] != [] && !DecodesAsUtf8(lines[k])
  {
    if |lines| == 0 then 0
    else if lines[0] != [] && !DecodesAsUtf8(lines[0]) then 0
    else 1 + FirstUndecodable(lines[1..])
  }

  /**
   * One write on a connection as written, given the buffered bytes with the
   * written ones appended: the messages processed and the buffer left. An undecodable line stops the processing and leaves the
   * whole of the buffered bytes in place.
   */
  function WriteAsWritten(all: seq<byte>): (r: (seq<seq<byte>>, seq<byte>))
    ensures r.1 == Rest(all, LF) ||
      (r.1 == all && exists i :: 0 <= i < |Closed(all, LF)| && Closed(all, LF)[i] != [] && !DecodesAsUtf8(Closed(all, LF)[i]))
  {
    var lines := Closed(all, LF);
    var k := FirstUndecodable(lines);
    (BleMessages(lines[..k]), if k < |lines| then all else Rest(all, LF))
  }

  /** One write as evidently intended: undecodable lines are skipped and the tail is kept. */
  function WriteSkipping(all: seq<byte>): (r: (seq<seq<byte>>, seq<byte>))
    ensures r.1 == Rest(all, LF) && LF !in r.1
  {
    (BleMessages(Closed(all, LF)), Rest(all, LF))
  }

  /** `self._serial_buffer.get(h, b'')`: a connection that has not written yet has an empty buffer. */
  function Buffered(buffers: map<int, seq<byte>>, h: int): seq<byte>
  {
    if h in buffers then buffers[h] else []
  }

  /**
   * The connection state of `BleKeyboard`: the HID and serial connection
   * handles and one reassembly buffer per handle. The GATT handle of the
   * serial characteristic is fixed when the services are registered.
   */
  class BleKeyboard {
    var conns: set<int>
    var serialConns: set<int>
    var serialBuffer: map<int, seq<byte>>
    const serialCharHandle: int

    constructor (serialCharHandle: int)
      ensures conns == {} && serialConns == {} && serialBuffer == map[]
      ensures this.serialCharHandle == serialCharHandle
    {
      conns, serialConns, serialBuffer := {}, {}, map[];
      this.serialCharHandle := serialCharHandle;
    }

    /** `_IRQ_CENTRAL_CONNECT`: the handle joins both connection sets. */
    method CentralConnect(h: int)
      modifies this`conns, this`serialConns
      ensures conns == old(conns) + {h} && serialConns == old(serialConns) + {h}
    {
      conns := conns + {h};
      serialConns := serialConns + {h};
    }

    /** `_IRQ_CENTRAL_DISCONNECT`: the handle leaves both sets and its partial line is dropped. */
    method CentralDisconnect(h: int)
      modifies this
      ensures conns == old(conns) - {h} && serialConns == old(serialConns) - {h}
      ensures serialBuffer == old(serialBuffer) - {h}
    {
      conns := conns - {h};
      serialConns := serialConns - {h};
      if h in serialBuffer {
        serialBuffer := serialBuffer - {h};
      }
    }

    /**
     * `_IRQ_GATTS_WRITE` carrying `value`, as written: on the serial
     * characteristic the bytes are added to the writer's buffer and the
     * closed lines are processed in order. MicroPython reports a failed
     * UTF-8 decode as `UnicodeError`; looking up the name
     * `UnicodeDecodeError` in the handler then raises `NameError`, which the
     * outer handler swallows, so the loop stops at the first undecodable
     * line and the tail is never stored: the buffer keeps everything,
     * including the lines already processed. Writes to other characteristics
     * are ignored.
     */
    method GattsWrite(h: int, valueHandle: int, value: seq<byte>) returns (messages: seq<seq<byte>>)
      modifies this`serialBuffer
      ensures valueHandle != serialCharHandle ==> serialBuffer == old(serialBuffer) && messages == []
      ensures valueHandle == serialCharHandle ==>
        var step := WriteAsWritten(Buffered(old(serialBuffer), h) + value);
        messages == step.0 && serialBuffer == old(serialBuffer)[h := step.1]
    {
      messages := [];
      if valueHandle != serialCharHandle {
        return;
      }
      var all := Buffered(serialBuffer, h) + value;
      serialBuffer := serialBuffer[h := all];
      var rest, failed;
      messages, rest, failed := SplitLines(all);
      ghost var step := WriteAsWritten(all);
      if !failed {
        serialBuffer := serialBuffer[h := rest];
        assert rest == step.1;
      } else {
        assert all == step.1;
      }
    }

    /** `_IRQ_GATTS_WRITE` as evidently intended: an undecodable line is skipped and the tail is always stored. */
    method GattsWriteSkipping(h: int, valueHandle: int, value: seq<byte>) returns (messages: seq<seq<byte>>)
      modifies this`serialBuffer
      ensures valueHandle != serialCharHandle ==> serialBuffer == old(serialBuffer) && messages == []
      ensures valueHandle == serialCharHandle ==>
        var step := WriteSkipping(Buffered(old(serialBuffer), h) + value);
        messages == step.0 && serialBuffer == old(serialBuffer)[h := step.1]
    {
      messages := [];
      if valueHandle != serialCharHandle {
        return;
      }
      var all := Buffered(serialBuffer, h) + value;
      var rest;
      messages, rest := SplitLinesSkipping(all);
      assert (messages, rest) == WriteSkipping(all);
      serialBuffer := serialBuffer[h := rest];
    }
  }

  /**
   * The `while b'\n' in buffer` loop as written: closed lines are taken off
   * the front one at a time; an undecodable one ends the loop by an
   * exception (`failed`).
   */
  method SplitLines(all: seq<byte>) returns (messages: seq<seq<byte>>, buffer: seq<byte>, failed: bool)
    ensures var lines := Closed(all, LF);
      var k := FirstUndecodable(lines);
      messages == BleMessages(lines[..k]) && (failed <==> k < |lines|) && (!failed ==> buffer == Rest(all, LF))
  {
    messages, buffer, failed := [], all, false;
    ghost var consumed: seq<seq<byte>> := [];
    assert Closed(all, LF) == consumed + Closed(buffer, LF);
    while LF in buffer
      invariant Closed(all, LF) == consumed + Closed(buffer, LF)
      invariant Rest(all, LF) == Rest(buffer, LF)
      invariant FirstUndecodable(consumed) == |consumed|
      invariant messages == BleMessages(consumed)
      decreases |buffer|
    {
      var i := FirstIndex(buffer, LF);
      var line := buffer[..i];
      ClosedStep(buffer, LF);
      if line != [] && !DecodesAsUtf8(line) {
        failed := true;
        StopsAt(consumed, Closed(buffer, LF));
        assert Closed(all, LF)[..|consumed|] == consumed;
        return;
      }
      buffer := buffer[i + 1..];
      assert consumed + [line] + Closed(buffer, LF) == consumed + ([line] + Closed(buffer, LF));
      BleMessagesSnoc(consumed, line);
      GoesPast(consumed, line);
      consumed := consumed + [line];
      messages := messages + LineMessage(line);
    }
    NoSeparator(buffer, LF);
    assert consumed + [] == consumed;
  }

  /** The same loop with undecodable lines skipped. */
  method SplitLinesSkipping(all: seq<byte>) returns (messages: seq<seq<byte>>, buffer: seq<byte>)
    ensures messages == BleMessages(Closed(all, LF)) && buffer == Rest(all, LF)
  {
    messages, buffer := [], all;
    ghost var consumed: seq<seq<byte>> := [];
    assert Closed(all, LF) == consumed + Closed(buffer, LF);
    while LF in buffer
      invariant Closed(all, LF) == consumed + Closed(buffer, LF)
      invariant Rest(all, LF) == Rest(buffer, LF)
      invariant messages == BleMessages(consumed)
      decreases |buffer|
    {
      var i := FirstIndex(buffer, LF);
      var line := buffer[..i];
      ClosedStep(buffer, LF);
      buffer := buffer[i + 1..];
      assert consumed + [line] + Closed(buffer, LF) == consumed + ([line] + Closed(buffer, LF));
      BleMessagesSnoc(consumed, line);
      consumed := consumed + [line];
      if line == [] || DecodesAsUtf8(line) {
        messages := messages + LineMessage(line);
      }
    }
    NoSeparator(buffer, LF);
    assert consumed + [] == consumed;
  }

  /** Lines that all decode, then an undecodable one: the loop stops there. */
  lemma {:induction false} StopsAt(consumed: seq<seq<byte>>, rest: seq<seq<byte>>)
    requires FirstUndecodable(consumed) == |consumed|
    requires |rest| > 0 && rest[0] != [] && !DecodesAsUtf8(rest[0])
    ensures FirstUndecodable(consumed + rest) == |consumed| && (consumed + rest)[..|consumed|] == consumed
    decreases |consumed|
  {
    if |consumed| > 0 {
      assert (consumed + rest)[1..] == consumed[1..] + rest;
      StopsAt(consumed[1..], rest);
    } else {
      assert consumed + rest == rest;
    }
  }

  lemma {:induction false} GoesPast(consumed: seq<seq<byte>>, line: seq<byte>)
    requires FirstUndecodable(consumed) == |consumed|
    requires line == [] || DecodesAsUtf8(line)
    ensures FirstUndecodable(consumed + [line]) == |consumed| + 1
    decreases |consumed|
  {
    if |consumed| > 0 {
      assert (consumed + [line])[1..] == consumed[1..] + [line];
      GoesPast(consumed[1..], line);
    } else {
      assert (consumed + [line])[1..] == [];
    }
  }

  lemma NoSeparator<T>(s: seq<T>, sep: T)
    requires sep !in s
    ensures Closed(s, sep) == [] && Rest(s, sep) == s
  {
  }

  // ------------------------------------------------------ properties of reassembly

  /** Two writes on one connection deliver what one write of both fragments would, and leave the same tail. */
  lemma FragmentsCompose(buffer: seq<byte>, x: seq<byte>, y: seq<byte>)
    ensures var first := WriteSkipping(buffer + x);
      var second := WriteSkipping(first.1 + y);
      first.0 + second.0 == WriteSkipping(buffer + x + y).0 && second.1 == WriteSkipping(buffer + x + y).1
  {
    ClosedAppend(buffer + x, y, LF);
    BleMessagesAppend(Closed(buffer + x, LF), Closed(Rest(buffer + x, LF) + y, LF));
  }

  /** What a run of writes on one connection delivers, and the tail it leaves. */
  function Reassembled(buffer: seq<byte>, fragments: seq<seq<byte>>): (seq<seq<byte>>, seq<byte>)
    decreases |fragments|
  {
    if |fragments| == 0 then ([], buffer)
    else
      var first := WriteSkipping(buffer + fragments[0]);
      var more := Reassembled(first.1, fragments[1..]);
      (first.0 + more.0, more.1)
  }

  /** However a text is cut into writes, the connection delivers the lines of the whole text and keeps its tail. */
  lemma {:induction false} ReassembledWhole(buffer: seq<byte>, fragments: seq<seq<byte>>)
    requires LF !in buffer
    ensures Reassembled(buffer, fragments) == WriteSkipping(buffer + Flatten(fragments))
    decreases |fragments|
  {
    if |fragments| == 0 {
      assert buffer + Flatten(fragments) == buffer;
      NoSeparator(buffer, LF);
    } else {
      var x, rest := fragments[0], fragments[1..];
      var first := WriteSkipping(buffer + x);
      RestFree(buffer + x, LF);
      ReassembledWhole(first.1, rest);
      var more := Reassembled(first.1, rest);
      assert Reassembled(buffer, fragments) == (first.0 + more.0, more.1);
      FragmentsCompose(buffer, x, Flatten(rest));
      assert Flatten(fragments) == x + Flatten(rest);
      AppendAssoc(buffer, x, Flatten(rest));
    }
  }

  /** A line feed right after a run without one closes exactly that run. */
  lemma LineThen(e: seq<byte>, more: seq<byte>)
    requires LF !in e
    ensures Closed(e + [LF] + more, LF) == [e] + Closed(more, LF) && Rest(e + [LF] + more, LF) == Rest(more, LF)
  {
    var s := e + [LF] + more;
    assert s[|e|] == LF && s[..|e|] == e;
    assert FirstIndex(s, LF) == |e|;
    ClosedStep(s, LF);
    assert s[|e| + 1..] == more;
  }

  /** The page's encoding of a text without a line feed, followed by one. */
  lemma EncodedLine(text: string)
    requires '\n' !in text
    ensures Utf8(text + "\n") == Utf8(text) + [LF] + [] && LF !in Utf8(text)
  {
    Utf8Append(text, "\n");
    assert Utf8("\n") == [LF];
    Utf8NoLineFeed(text);
  }

  /**
   * A message the page sends over BLE (`sendDataToESP32`: the text and a
   * line feed, UTF-8 encoded and cut into 20-byte writes) reaches the
   * firmware whole, once, stripped, and leaves the connection's buffer
   * empty.
   */
  lemma PageMessageOverBle(text: string)
    requires '\n' !in text
    ensures Reassembled([], WebLink.BleSlices(Utf8(text + "\n"))) == (LineMessage(Utf8(text)), [])
  {
    var encoded := Utf8(text + "\n");
    WebLink.BleSlicesShape(encoded, 0);
    ReassembledFromEmpty(encoded, WebLink.BleSlices(encoded));
    OneLineWrite(text);
  }

  /** Fragments reassembled from an empty buffer are one write of all their bytes. */
  lemma ReassembledFromEmpty(encoded: seq<byte>, fragments: seq<seq<byte>>)
    requires Flatten(fragments) == encoded
    ensures Reassembled([], fragments) == WriteSkipping(encoded)
  {
    ReassembledWhole([], fragments);
    assert [] + encoded == encoded;
  }

  /** One write of a page message and its line feed processes that line and leaves nothing buffered. */
  lemma OneLineWrite(text: string)
    requires '\n' !in text
    ensures WriteSkipping(Utf8(text + "\n")) == (LineMessage(Utf8(text)), [])
  {
    EncodedLine(text);
    LineThen(Utf8(text), []);
    Utf8Encoded(text);
    assert [Utf8(text)][..0] == [];
    assert BleMessages([Utf8(text)]) == Kept(Utf8(text));
  }

  /** When the buffered bytes and the page's text decode, the handler as written never fails and agrees with the intended one. */
  lemma PageMessageDecodes(text: string, buffer: seq<byte>)
    requires '\n' !in text && LF !in buffer
    requires DecodesAsUtf8(buffer + Utf8(text))
    ensures WriteAsWritten(buffer + Utf8(text + "\n")) == WriteSkipping(buffer + Utf8(text + "\n"))
  {
    EncodedLine(text);
    var e := buffer + Utf8(text);
    assert buffer + Utf8(text + "\n") == e + [LF] + [];
    LineThen(e, []);
    assert Closed(e + [LF] + [], LF) == [e];
    assert FirstUndecodable([e]) == 1;
    assert [e][..1] == [e];
  }

  /**
   * The discrepancy: after a write whose second line does not decode, the
   * buffer as written keeps the first line, so every later write on that
   * connection processes it again and the buffer only grows.
   */
  lemma UndecodableLineReplays(v: seq<byte>)
    ensures var w := [0x61 as byte, LF, 0xFF as byte, LF];
      WriteAsWritten(w) == ([[0x61 as byte]], w) &&
      WriteAsWritten(w + v) == ([[0x61 as byte]], w + v) &&
      WriteSkipping(w) == ([[0x61 as byte]], [])
  {
    var w := [0x61 as byte, LF, 0xFF as byte, LF];
    var a: seq<byte> := [0x61 as byte];
    var b: seq<byte> := [0xFF as byte];
    assert w == a + [LF] + (b + [LF]);
    assert !DecodesAsUtf8(b);
    assert DecodesAsUtf8(a);
    assert LineMessage(a) == [a];
    ReplayLines(a, b, v);
    ReplayLines(a, b, []);
    assert w + [] == w;
    SkippedLine(a, b);
  }

  lemma ReplayLines(a: seq<byte>, b: seq<byte>, v: seq<byte>)
    requires LF !in a && LF !in b && a != [] && b != []
    requires DecodesAsUtf8(a) && !DecodesAsUtf8(b)
    ensures var s := a + [LF] + (b + [LF]) + v;
      WriteAsWritten(s) == (LineMessage(a), s)
  {
    var s := a + [LF] + (b + [LF]) + v;
    assert s == a + [LF] + (b + [LF] + v);
    LineThen(a, b + [LF] + v);
    LineThen(b, v);
    StopsSecond(s, a, [b] + Closed(v, LF));
  }

  lemma StopsSecond(s: seq<byte>, a: seq<byte>, more: seq<seq<byte>>)
    requires Closed(s, LF) == [a] + more && a != [] && DecodesAsUtf8(a)
    requires |more| > 0 && more[0] != [] && !DecodesAsUtf8(more[0])
    ensures WriteAsWritten(s) == (LineMessage(a), s)
  {
    var lines := [a] + more;
    assert lines[1..] == more;
    assert FirstUndecodable(more) == 0;
    assert FirstUndecodable(lines) == 1;
    assert lines[..1] == [a];
    assert BleMessages([a]) == [] + Kept(a);
    assert Kept(a) == LineMessage(a);
    assert BleMessages(lines[..1]) == LineMessage(a);
    assert WriteAsWritten(s).1 == s;
    assert WriteAsWritten(s).0 == LineMessage(a);
  }

  lemma SkippedLine(a: seq<byte>, b: seq<byte>)
    requires LF !in a && LF !in b && a != [] && b != []
    requires DecodesAsUtf8(a) && !DecodesAsUtf8(b)
    ensures WriteSkipping(a + [LF] + (b + [LF])) == (LineMessage(a), [])
  {
    var s := a + [LF] + (b + [LF]);
    assert s == a + [LF] + (b + [LF] + []);
    LineThen(a, b + [LF] + []);
    LineThen(b, []);
    NoSeparator([], LF);
    SkipsSecond(s, a, b);
  }

  lemma SkipsSecond(s: seq<byte>, a: seq<byte>, b: seq<byte>)
    requires Closed(s, LF) == [a] + ([b] + Closed([], LF)) && Rest(s, LF) == Rest([], LF)
    requires Closed([], LF) == [] && Rest([], LF) == []
    requires a != [] && DecodesAsUtf8(a) && b != [] && !DecodesAsUtf8(b)
    ensures WriteSkipping(s) == (LineMessage(a), [])
  {
    var lines := [a, b];
    assert Closed(s, LF) == lines;
    assert lines[..1] == [a];
    assert BleMessages(lines) == BleMessages([a]) + Kept(b);
    assert BleMessages([a]) == [] + Kept(a);
    assert Kept(b) == [] && Kept(a) == LineMessage(a);
    assert BleMessages(lines) == LineMessage(a);
    assert WriteSkipping(s).1 == [];
    assert WriteSkipping(s).0 == LineMessage(a);
  }
}
