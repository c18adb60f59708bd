/**
 * Values shared by every part of the keypad model: bytes and fixed-width
 * integers, an optional value, the JSON values exchanged between the web
 * page and the ESP32, UTF-8 encoding, decimal digits and splitting a stream
 * at a separator.
 */
module Common {

  newtype byte = x: int | 0 <= x < 256

  /** Fixed-width unsigned integers of the C/C++ sources; arithmetic on them is written out. */
  type u8 = x: int | 0 <= x < 0x100
  type u16 = x: int | 0 <= x < 0x1_0000
  type u32 = x: int | 0 <= x < 0x1_0000_0000

  /** `a - b` on two `unsigned long` millisecond stamps (wraps modulo 2^32). */
  function ElapsedU32(now: u32, since: u32): u32
  {
    if since <= now then now - since else now - since + 0x1_0000_0000
  }

  /** The elapsed time is the difference modulo 2^32, and it is undone by adding it back with wrap-around. */
  lemma ElapsedU32Wraps(now: u32, since: u32)
    ensures ElapsedU32(now, since) == (now - since) % 0x1_0000_0000
    ensures (since + ElapsedU32(now, since)) % 0x1_0000_0000 == now
  {
  }

  datatype Option<T> = None | Some(value: T)

  /**
   * A parsed JSON value. Numbers are the integers the devices exchange;
   * object members keep the order the text gave them.
   */
  datatype Json =
    | JNull
    | JBool(b: bool)
    | JNum(n: int)
    | JStr(s: string)
    | JArr(items: seq<Json>)
    | JObj(members: seq<(string, Json)>)

  /** The value of `key` in an object's members; the last duplicate wins, as in JSON.parse and json.loads. */
  function Lookup(members: seq<(string, Json)>, key: string): (r: Option<Json>)
    ensures r.None? <==> forall i :: 0 <= i < |members| ==> members[i].0 != key
    ensures r.Some? ==> exists i :: 0 <= i < |members| && members[i] == (key, r.value) &&
                                    forall j :: i < j < |members| ==> members[j].0 != key
  {
    if |members| == 0 then None
    else if members[|members| - 1].0 == key then Some(members[|members| - 1].1)
    else Lookup(members[..|members| - 1], key)
  }

  /** `data.key` / `data.get(key)`: a member of an object, nothing for any other value. */
  function Field(j: Json, key: string): (r: Option<Json>)
    ensures !j.JObj? ==> r.None?
  {
    if j.JObj? then Lookup(j.members, key) else None
  }

  // ---------------------------------------------------------------- UTF-8

  /** The UTF-8 encoding of one Unicode scalar value (RFC 3629, section 3). */
  function Utf8Char(c: char): (r: seq<byte>)
    ensures 1 <= |r| <= 4
    ensures |r| == 1 <==> c as int < 0x80
    ensures c as int < 0x80 ==> r[0] as int == c as int
  {
    var n := c as int;
    if n < 0x80 then [n as byte]
    else if n < 0x800 then [(0xC0 + n / 0x40) as byte, (0x80 + n % 0x40) as byte]
    else if n < 0x1_0000 then
      [(0xE0 + n / 0x1000) as byte, (0x80 + (n / 0x40) % 0x40) as byte, (0x80 + n % 0x40) as byte]
    else
      [(0xF0 + n / 0x4_0000) as byte, (0x80 + (n / 0x1000) % 0x40) as byte,
       (0x80 + (n / 0x40) % 0x40) as byte, (0x80 + n % 0x40) as byte]
  }

  /** Every byte of an encoded character after the first is a continuation byte, 10xxxxxx. */
  lemma Utf8CharTail(c: char)
    ensures forall k :: 1 <= k < |Utf8Char(c)| ==> 0x80 <= Utf8Char(c)[k] < 0xC0
  {
  }

  /** Reads back the scalar value of one encoded character. */
  function Utf8CharValue(bs: seq<byte>): int
    requires 1 <= |bs| <= 4
  {
    if |bs| == 1 then bs[0] as int
    else if |bs| == 2 then (bs[0] as int - 0xC0) * 0x40 + (bs[1] as int - 0x80)
    else if |bs| == 3 then
      ((bs[0] as int - 0xE0) * 0x40 + (bs[1] as int - 0x80)) * 0x40 + (bs[2] as int - 0x80)
    else
      (((bs[0] as int - 0xF0) * 0x40 + (bs[1] as int - 0x80)) * 0x40 + (bs[2] as int - 0x80)) * 0x40
      + (bs[3] as int - 0x80)
  }

  /** Encoding a character and reading it back gives the character. */
  lemma Utf8CharRoundTrip(c: char)
    ensures Utf8CharValue(Utf8Char(c)) == c as int
  {
    var n := c as int;
    if n >= 0x1_0000 {
      Utf8FourRoundTrip(c);
    } else if n >= 0x800 {
      Utf8ThreeRoundTrip(c);
    }
  }

  lemma Utf8ThreeRoundTrip(c: char)
    requires 0x800 <= c as int < 0x1_0000
    ensures Utf8CharValue(Utf8Char(c)) == c as int
  {
    var n := c as int;
    var bs := Utf8Char(c);
    var hi, mid, lo := n / 0x1000, (n / 0x40) % 0x40, n % 0x40;
    assert bs == [(0xE0 + hi) as byte, (0x80 + mid) as byte, (0x80 + lo) as byte];
    assert n / 0x40 == hi * 0x40 + mid;
    assert Utf8CharValue(bs) == (hi * 0x40 + mid) * 0x40 + lo;
  }

  lemma Utf8FourRoundTrip(c: char)
    requires 0x1_0000 <= c as int
    ensures Utf8CharValue(Utf8Char(c)) == c as int
  {
    var n := c as int;
    var bs := Utf8Char(c);
    var top, hi, mid, lo := n / 0x4_0000, (n / 0x1000) % 0x40, (n / 0x40) % 0x40, n % 0x40;
    assert bs == [(0xF0 + top) as byte, (0x80 + hi) as byte, (0x80 + mid) as byte, (0x80 + lo) as byte];
    assert n / 0x1000 == top * 0x40 + hi;
    assert n / 0x40 == (n / 0x1000) * 0x40 + mid;
    assert Utf8CharValue(bs) == ((top * 0x40 + hi) * 0x40 + mid) * 0x40 + lo;
  }

  /** TextEncoder.encode: UTF-8 of a whole string. */
  function Utf8(s: string): (r: seq<byte>)
    ensures |r| >= |s|
  {
    if |s| == 0 then [] else Utf8Char(s[0]) + Utf8(s[1..])
  }

  predicate IsAscii(s: string)
  {
    forall i :: 0 <= i < |s| ==> s[i] as int < 0x80
  }

  lemma {:induction false} Utf8Append(a: string, b: string)
    ensures Utf8(a + b) == Utf8(a) + Utf8(b)
    decreases |a|
  {
    if |a| == 0 {
      assert a + b == b;
    } else {
      assert (a + b)[1..] == a[1..] + b;
      Utf8Append(a[1..], b);
    }
  }

  /** ASCII text is one byte per character, each byte the character's code. */
  lemma {:induction false} Utf8Ascii(s: string)
    requires IsAscii(s)
    ensures |Utf8(s)| == |s|
    ensures forall i :: 0 <= i < |s| ==> Utf8(s)[i] as int == s[i] as int
    decreases |s|
  {
    if |s| > 0 {
      Utf8Ascii(s[1..]);
    }
  }

  /** The bytes of an ASCII string. */
  function AsciiBytes(s: string): (r: seq<byte>)
    requires IsAscii(s)
    ensures r == Utf8(s)
  {
    Utf8Ascii(s);
    seq(|s|, i requires 0 <= i < |s| => s[i] as int as byte)
  }

  // ------------------------------------------------------ decimal numbers

  function DigitChar(d: int): char
    requires 0 <= d < 10
  {
    ('0' as int + d) as char
  }

  predicate IsDigit(c: char)
  {
    '0' <= c <= '9'
  }

  predicate AllDigits(s: string)
  {
    forall i :: 0 <= i < |s| ==> IsDigit(s[i])
  }

  /** The shortest decimal spelling of `n`: "0" for zero, otherwise no leading zero. */
  function DecimalDigits(n: nat): (s: string)
    ensures |s| >= 1 && AllDigits(s)
    ensures |s| > 1 ==> s[0] != '0'
    decreases n
  {
    if n < 10 then [DigitChar(n)] else DecimalDigits(n / 10) + [DigitChar(n % 10)]
  }

  /** The number a string of decimal digits spells. */
  function DecimalValue(s: string): nat
    requires AllDigits(s)
  {
    if |s| == 0 then 0
    else DecimalValue(s[..|s| - 1]) * 10 + (s[|s| - 1] as int - '0' as int)
  }

  lemma {:induction false} DecimalRoundTrip(n: nat)
    ensures DecimalValue(DecimalDigits(n)) == n
    decreases n
  {
    if n >= 10 {
      var s := DecimalDigits(n);
      assert s[..|s| - 1] == DecimalDigits(n / 10);
      DecimalRoundTrip(n / 10);
    }
  }

  function Pow10(k: nat): (p: nat)
    ensures p >= 1
  {
    if k == 0 then 1 else 10 * Pow10(k - 1)
  }

  /** A number below 10^k takes at most k digits (k >= 1). */
  lemma {:induction false} DecimalLength(n: nat, k: nat)
    requires k >= 1 && n < Pow10(k)
    ensures |DecimalDigits(n)| <= k
    decreases k
  {
    if n >= 10 {
      assert k >= 2;
      assert n / 10 < Pow10(k - 1);
      DecimalLength(n / 10, k - 1);
    }
  }

  /** JavaScript's String(n) / `${n}` for an integer. */
  function IntText(n: int): (s: string)
    ensures n >= 0 ==> s == DecimalDigits(n)
    ensures n < 0 ==> s == "-" + DecimalDigits(-n)
  {
    if n >= 0 then DecimalDigits(n) else "-" + DecimalDigits(-n)
  }

  // ------------------------------------------- splitting at a separator

  /** The position of the first `sep` in `s`. */
  function FirstIndex<T(==)>(s: seq<T>, sep: T): (i: nat)
    requires sep in s
    ensures i < |s| && s[i] == sep && sep !in s[..i]
  {
    if s[0] == sep then 0 else 1 + FirstIndex(s[1..], sep)
  }

  /** Pieces joined back together with the separator between each pair. */
  function Join<T>(pieces: seq<seq<T>>, sep: T): seq<T>
    requires |pieces| >= 1
  {
    if |pieces| == 1 then pieces[0] else pieces[0] + [sep] + Join(pieces[1..], sep)
  }

  lemma {:induction false} JoinSnoc<T>(p: seq<seq<T>>, y: seq<T>, sep: T)
    requires |p| >= 1
    ensures Join(p + [y], sep) == Join(p, sep) + [sep] + y
    decreases |p|
  {
    if |p| > 1 {
      assert (p + [y])[1..] == p[1..] + [y];
      JoinSnoc(p[1..], y, sep);
    }
  }

  /**
   * `s.split(sep)` in JavaScript and Python: the maximal separator-free
   * runs, in order, always at least one (possibly empty).
   */
  function Pieces<T(==)>(s: seq<T>, sep: T): (r: seq<seq<T>>)
    ensures |r| >= 1
    ensures forall i :: 0 <= i < |r| ==> sep !in r[i]
    decreases |s|
  {
    if sep !in s then [s]
    else
      var i := FirstIndex(s, sep);
      [s[..i]] + Pieces(s[i + 1..], sep)
  }

  /** Joining the pieces with the separator gives back the input. */
  lemma {:induction false} PiecesJoin<T>(s: seq<T>, sep: T)
    ensures Join(Pieces(s, sep), sep) == s
    decreases |s|
  {
    if sep in s {
      var i := FirstIndex(s, sep);
      assert s == s[..i] + [sep] + s[i + 1..];
      PiecesJoin(s[i + 1..], sep);
    }
  }

  /** The pieces that a separator has closed (all but the last). */
  function Closed<T(==)>(s: seq<T>, sep: T): seq<seq<T>>
  {
    var p := Pieces(s, sep); p[..|p| - 1]
  }

  /** The unterminated remainder after the last separator. */
  function Rest<T(==)>(s: seq<T>, sep: T): seq<T>
  {
    var p := Pieces(s, sep); p[|p| - 1]
  }

  /** Splitting is the only way to cut `s` into separator-free pieces that join back to `s`. */
  lemma {:induction false} PiecesUnique<T>(s: seq<T>, sep: T, r: seq<seq<T>>)
    requires |r| >= 1 && Join(r, sep) == s
    requires forall i :: 0 <= i < |r| ==> sep !in r[i]
    ensures r == Pieces(s, sep)
    decreases |r|
  {
    if |r| == 1 {
      assert s == r[0];
    } else {
      var tail := Join(r[1..], sep);
      assert s == r[0] + [sep] + tail;
      assert s[|r[0]|] == sep;
      assert sep in s;
      var i := FirstIndex(s, sep);
      assert s[..|r[0]|] == r[0];
      assert i == |r[0]|;
      assert s[i + 1..] == tail;
      PiecesUnique(tail, sep, r[1..]);
    }
  }

  /**
   * Splitting the concatenation of two chunks: the first chunk's closed
   * pieces come out unchanged, and the rest of the first chunk is carried in
   * front of the second. This is what lets a reader keep only `Rest` between reads.
   */
  lemma PiecesAppend<T>(x: seq<T>, y: seq<T>, sep: T)
    ensures Pieces(x + y, sep) == Closed(x, sep) + Pieces(Rest(x, sep) + y, sep)
  {
    var px := Pieces(x, sep);
    var py := Pieces(Rest(x, sep) + y, sep);
    var r := Closed(x, sep) + py;
    assert r[..|px| - 1] == Closed(x, sep);
    PiecesJoin(x, sep);
    PiecesJoin(Rest(x, sep) + y, sep);
    JoinConcat(px, py, y, sep);
    PiecesUnique(x + y, sep, r);
  }

  lemma {:induction false} JoinConcat<T>(px: seq<seq<T>>, py: seq<seq<T>>, y: seq<T>, sep: T)
    requires |px| >= 1 && |py| >= 1
    requires Join(py, sep) == px[|px| - 1] + y
    ensures Join(px[..|px| - 1] + py, sep) == Join(px, sep) + y
    decreases |px|
  {
    if |px| > 1 {
      assert (px[..|px| - 1] + py)[1..] == px[1..][..|px| - 2] + py;
      JoinConcat(px[1..], py, y, sep);
    } else {
      assert px[..|px| - 1] + py == py;
    }
  }

  // ------------------------------------------------ fixed-size chunks

  function Flatten<T>(ss: seq<seq<T>>): seq<T>
  {
    if |ss| == 0 then [] else ss[0] + Flatten(ss[1..])
  }

  lemma {:induction false} FlattenAppend<T>(a: seq<seq<T>>, b: seq<seq<T>>)
    ensures Flatten(a + b) == Flatten(a) + Flatten(b)
    decreases |a|
  {
    if |a| == 0 {
      assert a + b == b;
    } else {
      assert (a + b)[1..] == a[1..] + b;
      FlattenAppend(a[1..], b);
    }
  }

  /** Concatenation regroups freely. */
  lemma AppendAssoc<T>(a: seq<T>, b: seq<T>, c: seq<T>)
    ensures a + (b + c) == (a + b) + c
  {
  }

  function Min(a: int, b: int): int
  {
    if a <= b then a else b
  }

  /** `s` cut into consecutive pieces of `n` elements, the last one possibly shorter; none for empty `s`. */
  function Chunks<T>(s: seq<T>, n: nat): (r: seq<seq<T>>)
    requires n > 0
    ensures forall k :: 0 <= k < |r| ==> 1 <= |r[k]| <= n
    ensures forall k :: 0 <= k < |r| - 1 ==> |r[k]| == n
    decreases |s|
  {
    if |s| == 0 then [] else if |s| <= n then [s] else [s[..n]] + Chunks(s[n..], n)
  }

  /** The chunks put back together are the input. */
  lemma {:induction false} ChunksFlatten<T>(s: seq<T>, n: nat)
    requires n > 0
    ensures Flatten(Chunks(s, n)) == s
    decreases |s|
  {
    if |s| > n {
      ChunksFlatten(s[n..], n);
      assert s == s[..n] + s[n..];
    } else if |s| > 0 {
      assert Flatten(Chunks(s, n)) == s + Flatten([]);
    }
  }

  /** A multiple n * m with m >= 1 is at least n. */
  lemma {:induction false} MulAtLeast(n: nat, m: nat)
    requires m >= 1
    ensures n * m >= n
    decreases m
  {
    if m > 1 {
      MulAtLeast(n, m - 1);
      assert n * m == n * (m - 1) + n;
    }
  }

  lemma DivShift(a: nat, n: nat)
    requires n > 0
    ensures (a + n) / n == a / n + 1
  {
    var q, r := a / n, a % n;
    var q', r' := (a + n) / n, (a + n) % n;
    assert n * q' + r' == n * q + r + n;
    assert n * (q' - q - 1) == r - r';
    if q' - q - 1 >= 1 {
      MulAtLeast(n, q' - q - 1);
    }
  }

  /** There are ceil(|s| / n) chunks. */
  lemma {:induction false} ChunksCount<T>(s: seq<T>, n: nat)
    requires n > 0
    ensures |Chunks(s, n)| == (|s| + n - 1) / n
    decreases |s|
  {
    if |s| > n {
      ChunksCount(s[n..], n);
      DivShift(|s| - n + n - 1, n);
    } else if |s| > 0 {
      assert n <= |s| + n - 1 < 2 * n;
    }
  }

  /** Chunk k holds the elements from n * k on. */
  lemma {:induction false} ChunkAt<T>(s: seq<T>, n: nat, k: nat)
    requires n > 0 && k < |Chunks(s, n)|
    ensures n * k < |s| && Chunks(s, n)[k] == s[n * k .. Min(n * k + n, |s|)]
    decreases |s|
  {
    if k > 0 {
      assert |s| > n;
      ChunkAt(s[n..], n, k - 1);
      var j := n * (k - 1);
      assert n * k == n + j;
      assert Min(j + n, |s| - n) + n == Min(n * k + n, |s|);
      SliceOfSlice(s, n, j, Min(j + n, |s| - n));
    }
  }

  lemma SliceOfSlice<T>(s: seq<T>, a: nat, i: nat, j: nat)
    requires a <= |s| && i <= j <= |s| - a
    ensures s[a..][i..j] == s[a + i..a + j]
  {
  }
}
