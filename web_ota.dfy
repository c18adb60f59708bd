/**
 * The firmware update sender of the configuration page (`performOTAUpdate`
 * in public/scripts/main.js): the file is cut into 256-byte chunks, each
 * sent base64-encoded in its own `ota_chunk` message, between an
 * `ota_start` and an `ota_end` message. A chunk message longer than 512
 * bytes ends the transfer before it is sent.
 */
module WebOta {
  import opened Common
  import opened JsonText
  import opened WebLink

  const RAW_CHUNK_SIZE: nat := 256
  const MAX_MESSAGE_BYTES: nat := 512
  const START_PAUSE_MS: nat := 500
  const CHUNK_PAUSE_MS: nat := 80

  // ------------------------------------------------ base64, RFC 4648 section 4

  /** The character of a base64 digit. */
  function B64Char(v: int): (c: char)
    requires 0 <= v < 64
    ensures IsPlain(c) && c as int < 0x80 && c != '='
  {
    if v < 26 then ('A' as int + v) as char
    else if v < 52 then ('a' as int + v - 26) as char
    else if v < 62 then ('0' as int + v - 52) as char
    else if v == 62 then '+'
    else '/'
  }

  /** The digit a base64 character stands for, or -1. */
  function B64Value(c: char): int
  {
    if 'A' <= c <= 'Z' then c as int - 'A' as int
    else if 'a' <= c <= 'z' then c as int - 'a' as int + 26
    else if '0' <= c <= '9' then c as int - '0' as int + 52
    else if c == '+' then 62
    else if c == '/' then 63
    else -1
  }

  lemma B64CharValue(v: int)
    requires 0 <= v < 64
    ensures B64Value(B64Char(v)) == v
  {
  }

  /** Base64 text: alphabet characters and padding, all of them plain ASCII inside a JSON string. */
  predicate IsB64Text(s: string)
  {
    IsAscii(s) && forall i :: 0 <= i < |s| ==> IsPlain(s[i])
  }

  /** Four characters encoding one to three bytes, `=`-padded. */
  function B64Group(b0: byte, b1: byte, b2: byte, n: nat): (g: string)
    requires 1 <= n <= 3
    ensures |g| == 4 && IsB64Text(g)
  {
    var x, y, z := b0 as int, b1 as int, b2 as int;
    var c0 := B64Char(x / 4);
    var c1 := B64Char((x % 4) * 16 + (if n > 1 then y / 16 else 0));
    var c2 := if n > 1 then B64Char((y % 16) * 4 + (if n > 2 then z / 64 else 0)) else '=';
    var c3 := if n > 2 then B64Char(z % 64) else '=';
    [c0, c1, c2, c3]
  }

  /** `btoa` of the bytes of a chunk: base64 with padding. */
  function Base64(b: seq<byte>): (s: string)
    ensures |s| == 4 * ((|b| + 2) / 3)
    ensures IsB64Text(s)
    decreases |b|
  {
    if |b| == 0 then ""
    else if |b| == 1 then B64Group(b[0], 0, 0, 1)
    else if |b| == 2 then B64Group(b[0], b[1], 0, 2)
    else
      var g := B64Group(b[0], b[1], b[2], 3);
      var rest := Base64(b[3..]);
      B64TextConcat(g, rest);
      GroupsLength(|b|);
      g + rest
  }

  lemma B64TextConcat(a: string, b: string)
    requires IsB64Text(a) && IsB64Text(b)
    ensures IsB64Text(a + b)
  {
    AsciiConcat(a, b);
    assert forall i :: 0 <= i < |a + b| ==> (a + b)[i] == if i < |a| then a[i] else b[i - |a|];
  }

  /** One more group of three bytes adds four characters. */
  lemma GroupsLength(n: int)
    requires n >= 3
    ensures 4 + 4 * ((n - 3 + 2) / 3) == 4 * ((n + 2) / 3)
  {
    assert (n + 2) / 3 == (n - 3 + 2) / 3 + 1;
  }

  /** Base64 decoding of padded text, or None when it is not valid base64. */
  function Base64Decode(s: string): Option<seq<byte>>
    decreases |s|
  {
    if |s| == 0 then Some([])
    else if |s| < 4 then None
    else
      var v0, v1, v2, v3 := B64Value(s[0]), B64Value(s[1]), B64Value(s[2]), B64Value(s[3]);
      if v0 < 0 || v1 < 0 then None
      else if s[2] == '=' then
        if s[3] == '=' && |s| == 4 && v1 % 16 == 0 then Some([(v0 * 4 + v1 / 16) as byte]) else None
      else if v2 < 0 then None
      else if s[3] == '=' then
        if |s| == 4 && v2 % 4 == 0 then Some([(v0 * 4 + v1 / 16) as byte, ((v1 % 16) * 16 + v2 / 4) as byte]) else None
      else if v3 < 0 then None
      else
        var rest := Base64Decode(s[4..]);
        if rest.None? then None
        else Some([(v0 * 4 + v1 / 16) as byte, ((v1 % 16) * 16 + v2 / 4) as byte, ((v2 % 4) * 64 + v3) as byte] + rest.value)
  }

  /** The sextets of three bytes give the bytes back. */
  lemma SextetArith(x: int, y: int, z: int)
    requires 0 <= x < 256 && 0 <= y < 256 && 0 <= z < 256
    ensures var v1 := (x % 4) * 16 + y / 16;
      var v2 := (y % 16) * 4 + z / 64;
      (x / 4) * 4 + v1 / 16 == x && (v1 % 16) * 16 + v2 / 4 == y && (v2 % 4) * 64 + z % 64 == z
  {
  }

  lemma DecodeGroup1(b0: byte)
    ensures Base64Decode(B64Group(b0, 0, 0, 1)) == Some([b0])
  {
    var x := b0 as int;
    B64CharValue(x / 4);
    B64CharValue((x % 4) * 16);
    SextetArith(x, 0, 0);
  }

  lemma DecodeGroup2(b0: byte, b1: byte)
    ensures Base64Decode(B64Group(b0, b1, 0, 2)) == Some([b0, b1])
  {
    var x, y := b0 as int, b1 as int;
    B64CharValue(x / 4);
    B64CharValue((x % 4) * 16 + y / 16);
    B64CharValue((y % 16) * 4);
    SextetArith(x, y, 0);
  }

  /** A group of four digits decodes to three bytes in front of what the rest decodes to. */
  lemma DecodeDigits(s: string, v0: int, v1: int, v2: int, v3: int)
    requires |s| >= 4 && 0 <= v0 < 64 && 0 <= v1 < 64 && 0 <= v2 < 64 && 0 <= v3 < 64
    requires B64Value(s[0]) == v0 && B64Value(s[1]) == v1 && B64Value(s[2]) == v2 && B64Value(s[3]) == v3
    requires s[2] != '=' && s[3] != '='
    ensures Base64Decode(s[4..]).None? ==> Base64Decode(s).None?
    ensures Base64Decode(s[4..]).Some? ==>
              Base64Decode(s) == Some([(v0 * 4 + v1 / 16) as byte, ((v1 % 16) * 16 + v2 / 4) as byte, ((v2 % 4) * 64 + v3) as byte] +
                                      Base64Decode(s[4..]).value)
  {
  }

  lemma DecodeGroup3(b0: byte, b1: byte, b2: byte, rest: string)
    ensures var r := Base64Decode(rest);
      Base64Decode(B64Group(b0, b1, b2, 3) + rest) == if r.Some? then Some([b0, b1, b2] + r.value) else None
  {
    var x, y, z := b0 as int, b1 as int, b2 as int;
    var v0, v1, v2, v3 := x / 4, (x % 4) * 16 + y / 16, (y % 16) * 4 + z / 64, z % 64;
    B64CharValue(v0);
    B64CharValue(v1);
    B64CharValue(v2);
    B64CharValue(v3);
    var s := B64Group(b0, b1, b2, 3) + rest;
    assert s[4..] == rest;
    assert s[0] == B64Char(v0) && s[1] == B64Char(v1) && s[2] == B64Char(v2) && s[3] == B64Char(v3);
    DecodeDigits(s, v0, v1, v2, v3);
    SextetArith(x, y, z);
    assert [(v0 * 4 + v1 / 16) as byte, ((v1 % 16) * 16 + v2 / 4) as byte, ((v2 % 4) * 64 + v3) as byte] == [b0, b1, b2];
  }

  /** Decoding the base64 text of a chunk gives the chunk back. */
  lemma {:induction false} Base64RoundTrip(b: seq<byte>)
    ensures Base64Decode(Base64(b)) == Some(b)
    decreases |b|
  {
    if |b| == 1 {
      DecodeGroup1(b[0]);
      assert [b[0]] == b;
    } else if |b| == 2 {
      DecodeGroup2(b[0], b[1]);
      assert [b[0], b[1]] == b;
    } else if |b| > 2 {
      Base64RoundTrip(b[3..]);
      DecodeGroup3(b[0], b[1], b[2], Base64(b[3..]));
      FirstThree(b);
    }
  }

  lemma FirstThree(b: seq<byte>)
    requires |b| >= 3
    ensures b == [b[0], b[1], b[2]] + b[3..]
  {
    assert b[..3] == [b[0], b[1], b[2]];
    assert b == b[..3] + b[3..];
  }

  // ------------------------------------------------------------ the messages

  /** `{type: 'ota_start', filename, size, chunks}`. */
  function StartText(filename: string, size: nat, chunks: nat): string
  {
    Stringify(JObj([("type", JStr("ota_start")), ("filename", JStr(filename)), ("size", JNum(size)), ("chunks", JNum(chunks))]))
  }

  function ChunkObject(index: nat, data: string): Json
  {
    JObj([("type", JStr("ota_chunk")), ("index", JNum(index)), ("data", JStr(data)), ("encoded", JBool(true))])
  }

  /** `{type: 'ota_chunk', index, data, encoded: true}`. */
  function ChunkText(index: nat, data: string): string
  {
    Stringify(ChunkObject(index, data))
  }

  const END_TEXT: string := Stringify(JObj([("type", JStr("ota_end"))]))

  predicate Fits(message: string)
  {
    |Utf8(message)| <= MAX_MESSAGE_BYTES
  }

  lemma PlainLength(s: string)
    requires IsB64Text(s)
    ensures |Quote(s)| == |s| + 2 && |Stringify(JStr(s))| == |s| + 2
    ensures IsAscii(Quote(s)) && IsAscii(Stringify(JStr(s)))
  {
    QuotePlain(s);
  }

  lemma MemberStep(ms: seq<(string, Json)>, k: nat)
    requires k < |ms|
    ensures MembersSize(ms, k) == (if k > 0 then 1 else 0) + |Quote(ms[k].0)| + 1 + |Stringify(ms[k].1)| + MembersSize(ms, k + 1)
  {
  }

  lemma ChunkSize3(index: nat, data: string)
    ensures MembersSize(ChunkObject(index, data).members, 3) == 15
  {
    ChunkWordsPlain();
    PlainLength("encoded");
    MemberStep(ChunkObject(index, data).members, 3);
  }

  lemma ChunkSize2(index: nat, data: string)
    requires IsB64Text(data)
    ensures MembersSize(ChunkObject(index, data).members, 2) == 25 + |data|
  {
    ChunkWordsPlain();
    PlainLength("data");
    PlainLength(data);
    ChunkSize3(index, data);
    MemberStep(ChunkObject(index, data).members, 2);
  }

  lemma ChunkSize1(index: nat, data: string)
    requires IsB64Text(data)
    ensures MembersSize(ChunkObject(index, data).members, 1) == 34 + |DecimalDigits(index)| + |data|
  {
    ChunkWordsPlain();
    PlainLength("index");
    ChunkSize2(index, data);
    assert Stringify(JNum(index)) == DecimalDigits(index);
    MemberStep(ChunkObject(index, data).members, 1);
  }

  lemma ChunkSize0(index: nat, data: string)
    requires IsB64Text(data)
    ensures MembersSize(ChunkObject(index, data).members, 0) == 52 + |DecimalDigits(index)| + |data|
  {
    ChunkTypeSize();
    ChunkSize1(index, data);
    MemberStep(ChunkObject(index, data).members, 0);
  }

  lemma ChunkTypeSize()
    ensures |Quote("type")| == 6 && |Stringify(JStr("ota_chunk"))| == 11
  {
    ChunkWordsPlain();
    PlainLength("type");
    PlainLength("ota_chunk");
  }

  /** The keys and the type of a chunk message need no escaping. */
  lemma ChunkWordsPlain()
    ensures IsB64Text("type") && IsB64Text("ota_chunk") && IsB64Text("index") && IsB64Text("data") && IsB64Text("encoded")
  {
    LowerPlain("type");
    LowerPlain("ota_chunk");
    LowerPlain("index");
    LowerPlain("data");
    LowerPlain("encoded");
  }

  lemma LowerPlain(s: string)
    requires forall i :: 0 <= i < |s| ==> 'a' <= s[i] <= 'z' || s[i] == '_'
    ensures IsB64Text(s)
  {
  }

  lemma ChunkMemberAscii0()
    ensures IsAscii(Quote("type")) && IsAscii(Stringify(JStr("ota_chunk")))
  {
    ChunkWordsPlain();
    PlainLength("type");
    PlainLength("ota_chunk");
  }

  lemma ChunkMemberAscii1(index: nat)
    ensures IsAscii(Quote("index")) && IsAscii(Stringify(JNum(index)))
  {
    ChunkWordsPlain();
    PlainLength("index");
    IntTextAscii(index);
  }

  lemma ChunkMemberAscii2(data: string)
    requires IsB64Text(data)
    ensures IsAscii(Quote("data")) && IsAscii(Stringify(JStr(data)))
  {
    ChunkWordsPlain();
    PlainLength("data");
    PlainLength(data);
  }

  lemma ChunkMemberAscii3()
    ensures IsAscii(Quote("encoded")) && IsAscii(Stringify(JBool(true)))
  {
    ChunkWordsPlain();
    PlainLength("encoded");
    BoolTextAscii(true);
  }

  lemma ChunkTailAscii(index: nat, data: string)
    requires IsB64Text(data)
    ensures IsAscii(MembersText(ChunkObject(index, data), 2))
  {
    var o := ChunkObject(index, data);
    assert MembersText(o, 4) == "";
    ChunkMemberAscii3();
    MembersAsciiStep(o, 3);
    ChunkMemberAscii2(data);
    MembersAsciiStep(o, 2);
  }

  lemma ChunkMidAscii(index: nat, data: string)
    requires IsB64Text(data)
    ensures IsAscii(MembersText(ChunkObject(index, data), 1))
  {
    ChunkTailAscii(index, data);
    ChunkMemberAscii1(index);
    MembersAsciiStep(ChunkObject(index, data), 1);
  }

  /** The first member of an object, when its key and value print as ASCII, keeps the member list ASCII. */
  lemma HeadAscii(o: Json, key: string, value: Json)
    requires o.JObj? && |o.members| > 1 && o.members[0] == (key, value)
    requires IsAscii(Quote(key)) && IsAscii(Stringify(value)) && IsAscii(MembersText(o, 1))
    ensures IsAscii(MembersText(o, 0))
  {
    MembersAsciiStep(o, 0);
  }

  lemma ChunkMembersAscii(index: nat, data: string)
    requires IsB64Text(data)
    ensures IsAscii(MembersText(ChunkObject(index, data), 0))
  {
    ChunkMidAscii(index, data);
    ChunkMemberAscii0();
    HeadAscii(ChunkObject(index, data), "type", JStr("ota_chunk"));
  }

  lemma ChunkTextAscii(index: nat, data: string)
    requires IsB64Text(data)
    ensures IsAscii(ChunkText(index, data))
  {
    var o := ChunkObject(index, data);
    ChunkMembersAscii(index, data);
    AsciiConcat("{", MembersText(o, 0));
    AsciiConcat("{" + MembersText(o, 0), "}");
  }

  lemma ChunkMembersLength(index: nat, data: string)
    requires IsB64Text(data)
    ensures |ChunkText(index, data)| == 54 + |DecimalDigits(index)| + |data|
  {
    MembersLength(ChunkObject(index, data), 0);
    ChunkSize0(index, data);
  }

  /** A chunk message is ASCII: 54 bytes of framing, the index digits and the base64 text. */
  lemma ChunkTextSize(index: nat, data: string)
    requires IsB64Text(data)
    ensures |Utf8(ChunkText(index, data))| == 54 + |DecimalDigits(index)| + |data|
  {
    ChunkTextAscii(index, data);
    ChunkMembersLength(index, data);
    Utf8Ascii(ChunkText(index, data));
  }

  /** Every chunk message fits unless its index has more than 114 digits, that is, always in practice. */
  lemma ChunkFits(chunk: seq<byte>, index: nat)
    requires |chunk| <= RAW_CHUNK_SIZE && index < Pow10(114)
    ensures Fits(ChunkText(index, Base64(chunk)))
  {
    ChunkTextSize(index, Base64(chunk));
    DecimalLength(index, 114);
  }

  // ------------------------------------------------------------ the plan

  /** `Math.ceil(fileSize / 256)`. */
  function TotalChunks(size: nat): nat
  {
    (size + RAW_CHUNK_SIZE - 1) / RAW_CHUNK_SIZE
  }

  function ChunkMessageAt(file: seq<byte>, i: nat): string
    requires i < |Chunks(file, RAW_CHUNK_SIZE)|
  {
    ChunkText(i, Base64(Chunks(file, RAW_CHUNK_SIZE)[i]))
  }

  /** How many chunk messages go out: up to the first one that does not fit. */
  function FitCount(file: seq<byte>, i: nat): (n: nat)
    requires i <= |Chunks(file, RAW_CHUNK_SIZE)|
    ensures i <= n <= |Chunks(file, RAW_CHUNK_SIZE)|
    decreases |Chunks(file, RAW_CHUNK_SIZE)| - i
  {
    if i == |Chunks(file, RAW_CHUNK_SIZE)| || !Fits(ChunkMessageAt(file, i)) then i else FitCount(file, i + 1)
  }

  function ChunkMessages(file: seq<byte>, n: nat): (r: seq<string>)
    requires n <= |Chunks(file, RAW_CHUNK_SIZE)|
    ensures |r| == n
  {
    if n == 0 then [] else ChunkMessages(file, n - 1) + [ChunkMessageAt(file, n - 1)]
  }

  /** `Math.round((i + 1) / total * 100)`, in exact arithmetic: halves round up. */
  function Progress(i: nat, total: nat): (p: nat)
    requires i < total
    ensures 2 * total * p <= 200 * (i + 1) + total < 2 * total * (p + 1)
  {
    (200 * (i + 1) + total) / (2 * total)
  }

  function ProgressValues(n: nat, total: nat): (r: seq<nat>)
    requires n <= total
    ensures |r| == n && forall k :: 0 <= k < n ==> r[k] == Progress(k, total)
  {
    if n == 0 then [] else ProgressValues(n - 1, total) + [Progress(n - 1, total)]
  }

  datatype OtaRun = OtaRun(messages: seq<string>, progress: seq<nat>, completed: bool)

  /** What the transfer sends and shows for `file`. */
  function OtaPlan(filename: string, file: seq<byte>): OtaRun
  {
    var total := |Chunks(file, RAW_CHUNK_SIZE)|;
    var n := FitCount(file, 0);
    OtaRun([StartText(filename, |file|, TotalChunks(|file|))] + ChunkMessages(file, n) + (if n == total then [END_TEXT] else []),
           ProgressValues(n, total), n == total)
  }

  /** Chunk i of the file, sliced as `bytes.subarray(start, end)`, in its message. */
  method ChunkMessageOf(file: seq<byte>, i: nat) returns (messageStr: string)
    requires i < |Chunks(file, RAW_CHUNK_SIZE)|
    ensures messageStr == ChunkMessageAt(file, i)
  {
    var start := i * RAW_CHUNK_SIZE;
    ChunkAt(file, RAW_CHUNK_SIZE, i);
    var end := Min(start + RAW_CHUNK_SIZE, |file|);
    var chunk := file[start..end];
    messageStr := ChunkText(i, Base64(chunk));
  }

  /** `await sendDataToESP32(message)` followed by a pause. */
  method SendThenPause(link: DeviceLink, message: string, pause: nat)
    requires link.Valid()
    modifies link
    ensures link.Valid() && link.requests == old(link.requests) + [message]
  {
    link.Send(message);
    link.Sleep(pause);
  }

  /** The link's log holds `before` and then `sent`. */
  ghost predicate Logged(link: DeviceLink, before: seq<string>, sent: seq<string>)
    reads link
  {
    link.requests == before + sent
  }

  /**
   * One pass of the chunk loop: chunk `i`'s message, and, when it fits, its
   * sending and the progress shown after it; the link's log keeps every
   * message sent so far.
   */
  method ChunkStep(link: DeviceLink, file: seq<byte>, i: nat, totalChunks: nat, ghost before: seq<string>,
                   chunkMessages: seq<string>, progress: seq<nat>)
    returns (fits: bool, chunkMessages': seq<string>, progress': seq<nat>)
    requires link.Valid() && i < totalChunks == |Chunks(file, RAW_CHUNK_SIZE)|
    requires chunkMessages == ChunkMessages(file, i) && progress == ProgressValues(i, totalChunks)
    requires FitCount(file, 0) == FitCount(file, i) && Logged(link, before, chunkMessages)
    modifies link
    ensures link.Valid()
    ensures !fits ==> FitCount(file, 0) == i && Logged(link, before, chunkMessages)
    ensures fits ==> FitCount(file, 0) == FitCount(file, i + 1) && Logged(link, before, chunkMessages')
    ensures fits ==> chunkMessages' == ChunkMessages(file, i + 1) && progress' == ProgressValues(i + 1, totalChunks)
  {
    var messageStr := ChunkMessageOf(file, i);
    fits := Fits(messageStr);
    if !fits {
      chunkMessages', progress' := chunkMessages, progress;
      return;
    }
    SendThenPause(link, messageStr, CHUNK_PAUSE_MS);
    AppendAssoc(before, chunkMessages, [messageStr]);
    chunkMessages' := chunkMessages + [messageStr];
    progress' := progress + [Progress(i, totalChunks)];
  }

  /**
   * `performOTAUpdate(file)`: the start message, a 500 ms pause, then per
   * chunk its message and an 80 ms pause, then the end message. The loop
   * stops at the first chunk message over 512 bytes, which is not sent.
   */
  method PerformOtaUpdate(link: DeviceLink, filename: string, file: seq<byte>)
    returns (sent: seq<string>, progress: seq<nat>, completed: bool)
    requires link.Valid()
    modifies link
    ensures link.Valid()
    ensures OtaRun(sent, progress, completed) == OtaPlan(filename, file)
    ensures link.requests == old(link.requests) + sent
  {
    var fileSize := |file|;
    var totalChunks := (fileSize + RAW_CHUNK_SIZE - 1) / RAW_CHUNK_SIZE;
    ChunksCount(file, RAW_CHUNK_SIZE);
    var startMessage := StartText(filename, fileSize, totalChunks);
    ghost var before := link.requests;
    SendThenPause(link, startMessage, START_PAUSE_MS);
    var chunkMessages;
    chunkMessages, progress, completed := SendChunks(link, file, totalChunks);
    AppendAssoc(before, [startMessage], chunkMessages);
    if !completed {
      sent := [startMessage] + chunkMessages;
      return;
    }
    link.Send(END_TEXT);
    sent := [startMessage] + chunkMessages + [END_TEXT];
    AppendAssoc(before, [startMessage] + chunkMessages, [END_TEXT]);
  }

  /**
   * The chunk loop of `performOTAUpdate(file)`: per chunk its message and
   * an 80 ms pause; it returns at the first chunk message over 512 bytes,
   * which is not sent.
   */
  method SendChunks(link: DeviceLink, file: seq<byte>, totalChunks: nat)
    returns (chunkMessages: seq<string>, progress: seq<nat>, completed: bool)
    requires link.Valid() && totalChunks == |Chunks(file, RAW_CHUNK_SIZE)|
    modifies link
    ensures link.Valid()
    ensures completed <==> FitCount(file, 0) == totalChunks
    ensures chunkMessages == ChunkMessages(file, FitCount(file, 0))
    ensures progress == ProgressValues(FitCount(file, 0), totalChunks)
    ensures link.requests == old(link.requests) + chunkMessages
  {
    chunkMessages, progress := [], [];
    ghost var before := link.requests;
    var i := 0;
    while i < totalChunks
      invariant link.Valid()
      invariant i <= totalChunks
      invariant FitCount(file, 0) == FitCount(file, i)
      invariant chunkMessages == ChunkMessages(file, i)
      invariant progress == ProgressValues(i, totalChunks)
      invariant Logged(link, before, chunkMessages)
    {
      var fits, chunkMessages', progress' := ChunkStep(link, file, i, totalChunks, before, chunkMessages, progress);
      if !fits {
        completed := false;
        return;
      }
      chunkMessages, progress := chunkMessages', progress';
      i := i + 1;
    }
    completed := true;
  }

  // ------------------------------------------------------------ properties

  /** The chunks are the file in 256-byte slices, ceil(size / 256) of them, the last one holding the remainder. */
  lemma OtaChunks(file: seq<byte>)
    ensures Flatten(Chunks(file, RAW_CHUNK_SIZE)) == file
    ensures |Chunks(file, RAW_CHUNK_SIZE)| == TotalChunks(|file|)
    ensures forall k :: 0 <= k < TotalChunks(|file|) ==>
      RAW_CHUNK_SIZE * k < |file| &&
      Chunks(file, RAW_CHUNK_SIZE)[k] == file[RAW_CHUNK_SIZE * k .. Min(RAW_CHUNK_SIZE * k + RAW_CHUNK_SIZE, |file|)]
    ensures |file| > 0 ==> |Chunks(file, RAW_CHUNK_SIZE)[TotalChunks(|file|) - 1]| == |file| - RAW_CHUNK_SIZE * (TotalChunks(|file|) - 1)
  {
    ChunksFlatten(file, RAW_CHUNK_SIZE);
    ChunksCount(file, RAW_CHUNK_SIZE);
    ChunkSlices(file);
    if |file| > 0 {
      LastChunkSize(file);
    }
  }

  /** Chunk `k` is the slice of the file from byte 256 k, at most 256 bytes long. */
  lemma ChunkSlices(file: seq<byte>)
    ensures forall k :: 0 <= k < |Chunks(file, RAW_CHUNK_SIZE)| ==>
      RAW_CHUNK_SIZE * k < |file| &&
      Chunks(file, RAW_CHUNK_SIZE)[k] == file[RAW_CHUNK_SIZE * k .. Min(RAW_CHUNK_SIZE * k + RAW_CHUNK_SIZE, |file|)]
  {
    forall k | 0 <= k < |Chunks(file, RAW_CHUNK_SIZE)|
      ensures RAW_CHUNK_SIZE * k < |file| &&
        Chunks(file, RAW_CHUNK_SIZE)[k] == file[RAW_CHUNK_SIZE * k .. Min(RAW_CHUNK_SIZE * k + RAW_CHUNK_SIZE, |file|)]
    {
      ChunkAt(file, RAW_CHUNK_SIZE, k);
    }
  }

  /** The last chunk holds what the full chunks before it leave over. */
  lemma LastChunkSize(file: seq<byte>)
    requires |file| > 0
    ensures var t := TotalChunks(|file|);
      1 <= t == |Chunks(file, RAW_CHUNK_SIZE)| &&
      |Chunks(file, RAW_CHUNK_SIZE)[t - 1]| == |file| - RAW_CHUNK_SIZE * (t - 1)
  {
    var t := TotalChunks(|file|);
    ChunksCount(file, RAW_CHUNK_SIZE);
    ChunksCover(|file|);
    ChunkAt(file, RAW_CHUNK_SIZE, t - 1);
    assert Min(RAW_CHUNK_SIZE * (t - 1) + RAW_CHUNK_SIZE, |file|) == |file|;
  }

  /** The chunks cover the file: at least one, and together at least as long as it. */
  lemma ChunksCover(size: nat)
    requires size > 0
    ensures 1 <= TotalChunks(size) && size <= RAW_CHUNK_SIZE * (TotalChunks(size) - 1) + RAW_CHUNK_SIZE
  {
    var t := TotalChunks(size);
    assert size + RAW_CHUNK_SIZE - 1 == RAW_CHUNK_SIZE * t + (size + RAW_CHUNK_SIZE - 1) % RAW_CHUNK_SIZE;
  }

  /**
   * The order of the messages: `ota_start` with the size and chunk count,
   * then the chunk messages by increasing index, then `ota_end` once every
   * chunk has gone out; each chunk's base64 data decodes to its slice.
   */
  lemma {:induction false} OtaOrder(filename: string, file: seq<byte>)
    ensures var run := OtaPlan(filename, file);
      var n := |run.progress|;
      run.messages[0] == StartText(filename, |file|, TotalChunks(|file|)) &&
      (forall k :: 0 <= k < n ==> run.messages[k + 1] == ChunkText(k, Base64(Chunks(file, RAW_CHUNK_SIZE)[k]))) &&
      (run.completed <==> |run.messages| == n + 2) &&
      (run.completed ==> n == TotalChunks(|file|) && run.messages[n + 1] == END_TEXT)
  {
    var n := FitCount(file, 0);
    ChunksCount(file, RAW_CHUNK_SIZE);
    ChunkMessagesAt(file, n);
  }

  lemma {:induction false} ChunkMessagesAt(file: seq<byte>, n: nat)
    requires n <= |Chunks(file, RAW_CHUNK_SIZE)|
    ensures forall k :: 0 <= k < n ==> ChunkMessages(file, n)[k] == ChunkMessageAt(file, k)
    decreases n
  {
    if n > 0 {
      ChunkMessagesAt(file, n - 1);
    }
  }

  /** Every chunk the plan sends fits in 512 bytes; the one that would not is where it stops. */
  lemma {:induction false} OtaNoOversize(file: seq<byte>, i: nat)
    requires i <= |Chunks(file, RAW_CHUNK_SIZE)|
    ensures forall k :: i <= k < FitCount(file, i) ==> Fits(ChunkMessageAt(file, k))
    ensures FitCount(file, i) < |Chunks(file, RAW_CHUNK_SIZE)| ==> !Fits(ChunkMessageAt(file, FitCount(file, i)))
    decreases |Chunks(file, RAW_CHUNK_SIZE)| - i
  {
    if i < |Chunks(file, RAW_CHUNK_SIZE)| && Fits(ChunkMessageAt(file, i)) {
      OtaNoOversize(file, i + 1);
    }
  }

  /** Any file under 256 * 10^114 bytes is sent whole. */
  lemma {:induction false} OtaCompletes(file: seq<byte>, i: nat)
    requires i <= |Chunks(file, RAW_CHUNK_SIZE)| <= Pow10(114)
    ensures FitCount(file, i) == |Chunks(file, RAW_CHUNK_SIZE)|
    decreases |Chunks(file, RAW_CHUNK_SIZE)| - i
  {
    if i < |Chunks(file, RAW_CHUNK_SIZE)| {
      ChunkFits(Chunks(file, RAW_CHUNK_SIZE)[i], i);
      OtaCompletes(file, i + 1);
    }
  }

  lemma MulLe(t: nat, a: nat, b: nat)
    requires a <= b
    ensures t * a <= t * b
  {
  }

  /** The progress shown never exceeds 100. */
  lemma ProgressAtMost100(i: nat, total: nat)
    requires i < total
    ensures Progress(i, total) <= 100
  {
    var p := Progress(i, total);
    if p > 100 {
      MulLe(2 * total, 101, p);
    }
  }

  /** The progress shown never goes down. */
  lemma ProgressMonotone(i: nat, j: nat, total: nat)
    requires i <= j < total
    ensures Progress(i, total) <= Progress(j, total)
  {
    var p, q := Progress(i, total), Progress(j, total);
    if p > q {
      MulLe(2 * total, q + 1, p);
    }
  }

  /** After the last chunk the progress shown is 100. */
  lemma ProgressLast(total: nat)
    requires total > 0
    ensures Progress(total - 1, total) == 100
  {
    var l := Progress(total - 1, total);
    ProgressAtMost100(total - 1, total);
    if l < 100 {
      MulLe(2 * total, l + 1, 100);
    }
  }
}
