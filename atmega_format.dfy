/**
 * The number formatting of firmware/atmega/atmega_light/main.cpp: the two
 * hexadecimal digits of `debug_print_hex`, the decimal digit loops of
 * `debug_print_dec` and `uart_send_light_ascii`, and the reply frame of
 * `uart_send_response`. Output on the UART is a sequence of bytes.
 */
module AtmegaFormat {
  import opened Common

  const NEWLINE: byte := 0x0A
  const HEX_DIGITS: seq<byte> := [0x30, 0x31, 0x32, 0x33, 0x34, 0x35, 0x36, 0x37, 0x38, 0x39, 0x41, 0x42, 0x43, 0x44, 0x45, 0x46]
  /** "LIGHT=" */
  const LIGHT_PREFIX: seq<byte> := [0x4C, 0x49, 0x47, 0x48, 0x54, 0x3D]

  // ---------------------------------------------------------- hexadecimal

  predicate IsUpperHex(b: byte)
  {
    0x30 <= b <= 0x39 || 0x41 <= b <= 0x46
  }

  /** The value of one digit of `HEX_DIGITS`. */
  function HexValue(b: byte): (v: nat)
    requires IsUpperHex(b)
    ensures v < 16
  {
    if b <= 0x39 then b as int - 0x30 else b as int - 0x41 + 10
  }

  /** `debug_print_hex(val)`: two digits of "0123456789ABCDEF", high nibble first. */
  function DebugHex(val: byte): (r: seq<byte>)
    ensures |r| == 2 && IsUpperHex(r[0]) && IsUpperHex(r[1])
  {
    [HEX_DIGITS[val as int / 16], HEX_DIGITS[val as int % 16]]
  }

  /** Reading the two digits back gives the byte. */
  lemma DebugHexRoundTrip(val: byte)
    ensures HexValue(DebugHex(val)[0]) * 16 + HexValue(DebugHex(val)[1]) == val as int
  {
    var hi := val as int / 16;
    var lo := val as int % 16;
    assert HexValue(HEX_DIGITS[hi]) == hi;
    assert HexValue(HEX_DIGITS[lo]) == lo;
  }

  /** Different bytes are printed differently. */
  lemma DebugHexInjective(a: byte, b: byte)
    requires DebugHex(a) == DebugHex(b)
    ensures a == b
  {
    DebugHexRoundTrip(a);
    DebugHexRoundTrip(b);
  }

  // -------------------------------------------------------------- decimal

  function DigitByte(d: int): byte
    requires 0 <= d < 10
  {
    (0x30 + d) as byte
  }

  /** The ASCII bytes of the shortest decimal spelling of `n`. */
  function DecimalBytes(n: nat): (r: seq<byte>)
    ensures |r| >= 1
    decreases n
  {
    if n < 10 then [DigitByte(n)] else DecimalBytes(n / 10) + [DigitByte(n % 10)]
  }

  /** The characters of ASCII bytes. */
  function AsciiText(bs: seq<byte>): (s: string)
    ensures |s| == |bs|
  {
    seq(|bs|, i requires 0 <= i < |bs| => bs[i] as int as char)
  }

  /** `DecimalBytes` is the byte form of the decimal text of `Common`. */
  lemma {:induction false} DecimalBytesText(n: nat)
    ensures AsciiText(DecimalBytes(n)) == DecimalDigits(n)
    decreases n
  {
    if n >= 10 {
      DecimalBytesText(n / 10);
      var hi := DecimalBytes(n / 10);
      var d := DigitByte(n % 10);
      assert AsciiText(hi + [d]) == AsciiText(hi) + [d as int as char];
    }
  }

  /** A uint16 takes at most five digits, so the five-digit buffer never cuts a number. */
  lemma DecimalBytesFit(n: nat)
    requires n < 0x1_0000
    ensures |DecimalBytes(n)| <= 5
  {
    DecimalBytesText(n);
    assert Pow10(5) == 100000;
    DecimalLength(n, 5);
  }

  /** The digits hold no leading zero and spell `n` back. */
  lemma DecimalBytesRoundTrip(n: nat)
    ensures AllDigits(AsciiText(DecimalBytes(n)))
    ensures DecimalValue(AsciiText(DecimalBytes(n))) == n
    ensures |DecimalBytes(n)| > 1 ==> DecimalBytes(n)[0] != 0x30
  {
    DecimalBytesText(n);
    DecimalRoundTrip(n);
    var s := DecimalDigits(n);
    if |s| > 1 {
      assert AsciiText(DecimalBytes(n))[0] == s[0];
    }
  }

  function Reverse<T>(s: seq<T>): (r: seq<T>)
    ensures |r| == |s|
  {
    if |s| == 0 then [] else Reverse(s[1..]) + [s[0]]
  }

  lemma {:induction false} ReverseSnoc<T>(s: seq<T>, x: T)
    ensures Reverse(s + [x]) == [x] + Reverse(s)
    decreases |s|
  {
    if |s| == 0 {
      assert Reverse([x]) == Reverse([x][1..]) + [x];
      assert [x][1..] == [];
    } else {
      assert (s + [x])[1..] == s[1..] + [x];
      ReverseSnoc(s[1..], x);
    }
  }

  /** The digits of `n` not yet collected by the digit loop: none once `n` is 0. */
  function Pending(n: nat): (r: seq<byte>)
    ensures n > 0 ==> r == DecimalBytes(n)
    ensures n == 0 <==> r == []
  {
    if n == 0 then [] else DecimalBytes(n)
  }

  /** One pass of the digit loop takes the last digit off the pending ones. */
  lemma PendingStep(n: nat)
    requires n > 0
    ensures Pending(n) == Pending(n / 10) + [DigitByte(n % 10)]
  {
    if n < 10 {
      assert n / 10 == 0;
    }
  }

  /** One pass of the collecting loop moves the last pending digit to the end of the collected ones. */
  lemma CollectStep(digits: seq<byte>, n: nat, collected: seq<byte>)
    requires n > 0 && digits == Pending(n) + Reverse(collected)
    ensures digits == Pending(n / 10) + Reverse(collected + [DigitByte(n % 10)])
    ensures |Pending(n / 10)| + 1 == |Pending(n)|
  {
    var d := DigitByte(n % 10);
    PendingStep(n);
    ReverseSnoc(collected, d);
    AppendAssoc(Pending(n / 10), [d], Reverse(collected));
  }

  /**
   * The digit loops of `debug_print_dec` and `uart_send_light_ascii`: the
   * digits are collected least significant first in `buf[6]` (at most five
   * of them) and then sent from the last one collected.
   */
  method DecimalOut(value: u16) returns (out: seq<byte>)
    ensures out == DecimalBytes(value)
  {
    if value == 0 {
      return [0x30];
    }
    var buf := new byte[6];
    var n := CollectDigits(value, buf);
    out := SendDigits(buf, n);
  }

  /** The collecting loop: `buf[0..n]` holds the digits of a non-zero `value`, least significant first. */
  method CollectDigits(value: u16, buf: array<byte>) returns (n: nat)
    requires value > 0 && buf.Length == 6
    modifies buf
    ensures n <= 5 && Reverse(buf[..n]) == DecimalBytes(value)
  {
    DecimalBytesFit(value);
    n := 0;
    var val: nat := value;
    assert DecimalBytes(value) == Pending(value) + Reverse(buf[..0]);
    while val > 0 && n < 5
      invariant 0 <= n <= 5
      invariant DecimalBytes(value) == Pending(val) + Reverse(buf[..n])
      invariant |Pending(val)| + n <= 5
      decreases val
    {
      ghost var collected := buf[..n];
      var d := DigitByte(val % 10);
      buf[n] := d;
      assert buf[..n + 1] == collected + [d];
      CollectStep(DecimalBytes(value), val, collected);
      val := val / 10;
      n := n + 1;
    }
    assert Pending(val) == [];
  }

  /** The sending loop: `buf[n - 1]` down to `buf[0]`. */
  method SendDigits(buf: array<byte>, n: nat) returns (out: seq<byte>)
    requires n <= buf.Length
    ensures out == Reverse(buf[..n])
  {
    out := [];
    var i := n;
    while i > 0
      invariant 0 <= i <= n
      invariant out + Reverse(buf[..i]) == Reverse(buf[..n])
    {
      assert buf[..i] == buf[..i - 1] + [buf[i - 1]];
      ReverseSnoc(buf[..i - 1], buf[i - 1]);
      AppendAssoc(out, [buf[i - 1]], Reverse(buf[..i - 1]));
      i := i - 1;
      out := out + [buf[i]];
    }
  }

  /** `debug_print_dec(val)`. */
  method DebugDec(value: u16) returns (out: seq<byte>)
    ensures out == DecimalBytes(value)
  {
    out := DecimalOut(value);
  }

  /** `uart_send_light_ascii()`: "LIGHT=", the decimal level, "\n". */
  method LightAscii(level: u16) returns (out: seq<byte>)
    ensures out == LIGHT_PREFIX + DecimalBytes(level) + [NEWLINE]
  {
    var digits := DecimalOut(level);
    out := LIGHT_PREFIX + digits + [NEWLINE];
  }

  /** A receiver's reading of a "LIGHT=<digits>\n" line. */
  function ParseLightLine(line: seq<byte>): Option<nat>
  {
    if |line| < |LIGHT_PREFIX| + 2 || line[..|LIGHT_PREFIX|] != LIGHT_PREFIX || line[|line| - 1] != NEWLINE then None
    else
      var text := AsciiText(line[|LIGHT_PREFIX|..|line| - 1]);
      if AllDigits(text) then Some(DecimalValue(text)) else None
  }

  /** Every light line reads back as the level it was sent for. */
  lemma LightLineRoundTrip(level: u16)
    ensures ParseLightLine(LIGHT_PREFIX + DecimalBytes(level) + [NEWLINE]) == Some(level as nat)
  {
    var line := LIGHT_PREFIX + DecimalBytes(level) + [NEWLINE];
    assert line[..|LIGHT_PREFIX|] == LIGHT_PREFIX;
    assert line[|LIGHT_PREFIX|..|line| - 1] == DecimalBytes(level);
    DecimalBytesRoundTrip(level);
  }

  // --------------------------------------------------------------- frames

  /** `uart_send_response(cmd, data, len)`: the command, `len` data bytes, "\n". */
  method SendResponse(cmd: byte, data: seq<byte>, len: nat) returns (out: seq<byte>)
    requires len <= |data| && len < 0x100
    ensures out == [cmd] + data[..len] + [NEWLINE]
  {
    out := [cmd];
    var i := 0;
    while i < len
      invariant 0 <= i <= len
      invariant out == [cmd] + data[..i]
    {
      assert data[..i + 1] == data[..i] + [data[i]];
      out := out + [data[i]];
      i := i + 1;
    }
    out := out + [NEWLINE];
  }

  /** The little-endian pair of a uint16, low byte first. */
  function LittleEndian(v: u16): (r: seq<byte>)
    ensures |r| == 2 && r[0] as int + 256 * r[1] as int == v
  {
    [(v % 256) as byte, (v / 256) as byte]
  }
}
