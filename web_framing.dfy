/**
 * How the configuration page turns the text arriving on the USB serial
 * port into JSON lines (`startSerialReader` in public/scripts/main.js).
 * A read delivers a chunk of decoded text; the page keeps the unterminated
 * tail in a buffer, and hands every complete, non-blank line (a "frame")
 * to the message handler.
 */
module WebFraming {
  import opened Common

  /** The characters String.prototype.trim removes: ECMAScript WhiteSpace and LineTerminator. */
  predicate IsJsSpace(c: char)
  {
    ('\t' <= c <= '\r') || c == ' ' ||
    c == '\U{00A0}' || c == '\U{1680}' || ('\U{2000}' <= c <= '\U{200A}') || c == '\U{2028}' ||
    c == '\U{2029}' || c == '\U{202F}' || c == '\U{205F}' || c == '\U{3000}' || c == '\U{FEFF}'
  }

  function TrimStart(s: string): (r: string)
    ensures |r| <= |s| && r == s[|s| - |r|..]
    ensures |r| > 0 ==> !IsJsSpace(r[0])
    ensures forall i :: 0 <= i < |s| - |r| ==> IsJsSpace(s[i])
  {
    if |s| > 0 && IsJsSpace(s[0]) then TrimStart(s[1..]) else s
  }

  function TrimEnd(s: string): (r: string)
    ensures |r| <= |s| && r == s[..|r|]
    ensures |r| > 0 ==> !IsJsSpace(r[|r| - 1])
    ensures forall i :: |r| <= i < |s| ==> IsJsSpace(s[i])
  {
    if |s| > 0 && IsJsSpace(s[|s| - 1]) then TrimEnd(s[..|s| - 1]) else s
  }

  /** `s.trim()` */
  function Trim(s: string): string
  {
    TrimEnd(TrimStart(s))
  }

  /** A line is blank, `line.trim().length === 0`, exactly when every character is trimmable. */
  lemma TrimEmptyIffBlank(s: string)
    ensures |Trim(s)| == 0 <==> forall i :: 0 <= i < |s| ==> IsJsSpace(s[i])
  {
    var t := TrimStart(s);
    if |Trim(s)| != 0 {
      var r := Trim(s);
      assert t[0] == r[0];
      assert s[|s| - |t|] == t[0];
    }
  }

  predicate IsBlank(s: string)
  {
    |Trim(s)| == 0
  }

  /** The `\r` of a `\r\n` belongs to the separator of `split(/\r?\n/)`. */
  function DropCR(p: string): (r: string)
    ensures p == r || p == r + "\r"
  {
    if |p| > 0 && p[|p| - 1] == '\r' then p[..|p| - 1] else p
  }

  function DropCRs(c: seq<string>): (r: seq<string>)
    ensures |r| == |c| && forall i :: 0 <= i < |r| ==> r[i] == DropCR(c[i])
  {
    seq(|c|, i requires 0 <= i < |c| => DropCR(c[i]))
  }

  lemma DropCRsAppend(a: seq<string>, b: seq<string>)
    ensures DropCRs(a + b) == DropCRs(a) + DropCRs(b)
  {
    forall i | 0 <= i < |a + b|
      ensures DropCRs(a + b)[i] == (DropCRs(a) + DropCRs(b))[i]
    {
      if i < |a| {
        assert (a + b)[i] == a[i];
      } else {
        assert (a + b)[i] == b[i - |a|];
      }
    }
  }

  /** The lines of `s` that a line feed has closed, with an optional carriage return removed. */
  function CompleteLines(s: string): seq<string>
  {
    DropCRs(Closed(s, '\n'))
  }

  /** `s.split(/\r?\n/)`: the closed lines, then the unterminated remainder. */
  function JsSplitLines(s: string): (r: seq<string>)
    ensures |r| >= 1 && r[..|r| - 1] == CompleteLines(s) && r[|r| - 1] == Rest(s, '\n')
  {
    CompleteLines(s) + [Rest(s, '\n')]
  }

  /** The lines handed on, in order: those whose trim is not empty. */
  function NonBlank(lines: seq<string>): (r: seq<string>)
    ensures |r| <= |lines|
    ensures forall i :: 0 <= i < |r| ==> !IsBlank(r[i])
  {
    if |lines| == 0 then []
    else NonBlank(lines[..|lines| - 1]) + (if IsBlank(lines[|lines| - 1]) then [] else [lines[|lines| - 1]])
  }

  lemma {:induction false} NonBlankAppend(a: seq<string>, b: seq<string>)
    ensures NonBlank(a + b) == NonBlank(a) + NonBlank(b)
    decreases |b|
  {
    if |b| > 0 {
      assert (a + b)[..|a + b| - 1] == a + b[..|b| - 1];
      NonBlankAppend(a, b[..|b| - 1]);
    } else {
      assert a + b == a;
    }
  }

  /** Every frame the text `s` carries once all of it has been read. */
  function Frames(s: string): seq<string>
  {
    NonBlank(CompleteLines(s))
  }

  /**
   * Reading `x` and then `y` delivers the frames of `x`, then those of the
   * carried tail followed by `y`; the tail left over is the tail of the whole.
   */
  lemma FramesAppend(x: string, y: string)
    ensures Frames(x + y) == Frames(x) + Frames(Rest(x, '\n') + y)
    ensures Rest(x + y, '\n') == Rest(Rest(x, '\n') + y, '\n')
  {
    var r := Rest(x, '\n');
    var px := Pieces(x, '\n');
    var py := Pieces(r + y, '\n');
    PiecesAppend(x, y, '\n');
    assert Pieces(x + y, '\n') == px[..|px| - 1] + py;
    assert Closed(x + y, '\n') == px[..|px| - 1] + py[..|py| - 1];
    DropCRsAppend(px[..|px| - 1], py[..|py| - 1]);
    NonBlankAppend(CompleteLines(x), CompleteLines(r + y));
  }

  /** One result of `reader.read()`: decoded text, the end of the stream, or a rejection with its error name. */
  datatype ReadResult = Data(text: string) | Done | Failed(name: string)

  /** The text of the leading data reads. */
  function Received(results: seq<ReadResult>): string
  {
    if |results| == 0 || !results[0].Data? then "" else results[0].text + Received(results[1..])
  }

  /** How many reads the loop consumes as data before it stops. */
  function DataCount(results: seq<ReadResult>): (n: nat)
    ensures n <= |results|
    ensures forall i :: 0 <= i < n ==> results[i].Data?
    ensures n < |results| ==> !results[n].Data?
  {
    if |results| == 0 || !results[0].Data? then 0 else 1 + DataCount(results[1..])
  }

  lemma {:induction false} ReceivedSnoc(results: seq<ReadResult>, i: nat)
    requires i < |results| && forall k :: 0 <= k <= i ==> results[k].Data?
    ensures Received(results[..i + 1]) == Received(results[..i]) + results[i].text
    decreases i
  {
    if i > 0 {
      assert results[..i + 1][1..] == results[1..][..i];
      assert results[..i][1..] == results[1..][..i - 1];
      ReceivedSnoc(results[1..], i - 1);
    }
  }

  lemma {:induction false} ReceivedPrefix(results: seq<ReadResult>)
    ensures Received(results) == Received(results[..DataCount(results)])
    decreases |results|
  {
    if |results| > 0 && results[0].Data? {
      assert results[..DataCount(results)][1..] == results[1..][..DataCount(results[1..])];
      ReceivedPrefix(results[1..]);
    }
  }

  /** The failures after which the reader asks for the link to be torn down. */
  predicate IsLostPort(r: ReadResult)
  {
    r.Failed? && (r.name == "NetworkError" || r.name == "InvalidStateError")
  }

  /**
   * What one data read does: split the buffered text and the new text at
   * line ends, keep the last piece as the new buffer and pass on the
   * non-blank complete lines.
   */
  method TakeLines(buffer: string, text: string) returns (frames: seq<string>, rest: string)
    ensures frames == Frames(buffer + text)
    ensures rest == Rest(buffer + text, '\n')
  {
    var lines := JsSplitLines(buffer + text);
    rest := lines[|lines| - 1];
    lines := lines[..|lines| - 1];
    frames := [];
    var j := 0;
    while j < |lines|
      invariant j <= |lines|
      invariant frames == NonBlank(lines[..j])
    {
      assert lines[..j + 1][..j] == lines[..j];
      assert NonBlank(lines[..j + 1]) == NonBlank(lines[..j]) + (if IsBlank(lines[j]) then [] else [lines[j]]);
      if |Trim(lines[j])| > 0 {
        frames := frames + [lines[j]];
      }
      j := j + 1;
    }
    assert lines[..j] == lines;
  }

  /**
   * The read loop. Reads are consumed until the stream ends, a read fails
   * or the reads run out (the page then keeps waiting). The frames are
   * exactly those of the text received, the buffer holds its unterminated
   * tail, and a lost port is reported for disconnection.
   */
  method SerialReader(results: seq<ReadResult>) returns (frames: seq<string>, buffer: string, lostPort: bool)
    ensures frames == Frames(Received(results))
    ensures buffer == Rest(Received(results), '\n')
    ensures lostPort <==> DataCount(results) < |results| && IsLostPort(results[DataCount(results)])
  {
    frames, buffer, lostPort := [], "", false;
    var i := 0;
    while i < |results| && results[i].Data?
      invariant i <= DataCount(results)
      invariant frames == Frames(Received(results[..i]))
      invariant buffer == Rest(Received(results[..i]), '\n')
      decreases |results| - i
    {
      ghost var seen := Received(results[..i]);
      var more, rest := TakeLines(buffer, results[i].text);
      frames := frames + more;
      buffer := rest;
      ReceivedSnoc(results, i);
      FramesAppend(seen, results[i].text);
      i := i + 1;
    }
    assert i == DataCount(results);
    if i < |results| && results[i].Failed? {
      var name := results[i].name;
      if name == "NetworkError" || name == "InvalidStateError" {
        lostPort := true;
      }
    }
    ReceivedPrefix(results);
  }

  /** Text without a line feed closes no line and is carried whole. */
  lemma NoLineFeed(s: string)
    requires '\n' !in s
    ensures Frames(s) == [] && Rest(s, '\n') == s
  {
    assert Pieces(s, '\n') == [s];
    assert Closed(s, '\n') == [];
  }

  /** A text ending in its only line feed closes exactly one line. */
  lemma OneClosedLine(body: string)
    requires '\n' !in body
    ensures Closed(body + "\n", '\n') == [body] && Rest(body + "\n", '\n') == ""
  {
    var whole := body + "\n";
    PiecesUnique(whole, '\n', [body, ""]);
  }

  /** The line ending the page accepts: LF, or CR LF. */
  function LineEnding(crlf: bool): string
  {
    if crlf then "\r\n" else "\n"
  }

  /** A text ending in its only line feed carries at most the one frame of that line. */
  lemma FramesOfOne(body: string)
    requires '\n' !in body
    ensures Frames(body + "\n") == NonBlank([DropCR(body)])
  {
    OneClosedLine(body);
    assert DropCRs([body]) == [DropCR(body)];
  }

  /** The frame a complete line yields, CR LF or LF ended. */
  lemma OneFrame(line: string, crlf: bool)
    requires '\n' !in line && !IsBlank(DropCR(line)) && (crlf ==> !IsBlank(line))
    ensures Frames(line + LineEnding(crlf)) == [if crlf then line else DropCR(line)]
  {
    if crlf {
      CrLfFrame(line);
    } else {
      FramesOfOne(line);
      NonBlankOne(DropCR(line));
    }
  }

  lemma CrLfFrame(line: string)
    requires '\n' !in line && !IsBlank(line)
    ensures Frames(line + "\r\n") == [line]
  {
    var body := line + ['\r'];
    assert body[|body| - 1] == '\r' && body[..|body| - 1] == line;
    assert '\n' !in body;
    assert line + "\r\n" == body + ['\n'];
    FramesOfOne(body);
    NonBlankOne(line);
  }

  lemma NonBlankOne(frame: string)
    requires !IsBlank(frame)
    ensures NonBlank([frame]) == [frame]
  {
    assert [frame][..0] == [];
  }

  lemma Regroup(a: string, b: string, c: string)
    ensures a + (b + c) == (a + b) + c
  {
  }

  /**
   * A line that arrives in two reads, `first` then `second` with its
   * ending, is delivered once, after its line feed, and without the
   * carriage return of a CR LF ending.
   */
  lemma SplitLineDeliveredOnce(first: string, second: string, crlf: bool)
    requires '\n' !in first + second && !IsBlank(DropCR(first + second))
    requires crlf ==> !IsBlank(first + second)
    ensures Frames(first) == [] && Rest(first, '\n') == first
    ensures Frames(first + (second + LineEnding(crlf))) == [if crlf then first + second else DropCR(first + second)]
  {
    assert '\n' !in first by {
      assert forall i :: 0 <= i < |first| ==> first[i] == (first + second)[i];
    }
    NoLineFeed(first);
    var line := first + second;
    Regroup(first, second, LineEnding(crlf));
    OneFrame(line, crlf);
  }
}
