/**
 * The JSON text the configuration page sends: `JSON.stringify` of the
 * values it builds (ECMA-262, section 25.5.2), for integer numbers only,
 * with the string escaping of its QuoteJSONString operation and the
 * matching unescaping of a JSON string body.
 */
module JsonText {
  import opened Common

  function HexDigitLower(d: int): char
    requires 0 <= d < 16
  {
    if d < 10 then ('0' as int + d) as char else ('a' as int + d - 10) as char
  }

  /** The value of a hexadecimal digit of either case, or -1. */
  function HexValue(c: char): int
  {
    if '0' <= c <= '9' then c as int - '0' as int
    else if 'a' <= c <= 'f' then c as int - 'a' as int + 10
    else if 'A' <= c <= 'F' then c as int - 'A' as int + 10
    else -1
  }

  /** QuoteJSONString for one code point: the short escapes, `\u00xx` for other controls, else the character itself. */
  function EscapeChar(c: char): (r: string)
    ensures |r| >= 1
    ensures (c == '"' || c == '\\' || c < ' ') <==> r[0] == '\\'
    ensures r[0] != '\\' ==> r == [c]
  {
    if c == '\U{0008}' then "\\b"
    else if c == '\t' then "\\t"
    else if c == '\n' then "\\n"
    else if c == '\U{000C}' then "\\f"
    else if c == '\r' then "\\r"
    else if c == '"' then "\\\""
    else if c == '\\' then "\\\\"
    else if c < ' ' then ['\\', 'u', '0', '0', HexDigitLower(c as int / 16), HexDigitLower(c as int % 16)]
    else [c]
  }

  function EscapeBody(s: string): string
  {
    if |s| == 0 then "" else EscapeChar(s[0]) + EscapeBody(s[1..])
  }

  /** A JSON string literal for `s`. */
  function Quote(s: string): (r: string)
    ensures |r| >= 2 && r[0] == '"' && r[|r| - 1] == '"'
  {
    "\"" + EscapeBody(s) + "\""
  }

  /** Characters that stand for themselves inside a JSON string. */
  predicate IsPlain(c: char)
  {
    c != '"' && c != '\\' && c >= ' '
  }

  lemma {:induction false} EscapePlain(s: string)
    requires forall i :: 0 <= i < |s| ==> IsPlain(s[i])
    ensures EscapeBody(s) == s
    decreases |s|
  {
    if |s| > 0 {
      EscapePlain(s[1..]);
      assert s == [s[0]] + s[1..];
    }
  }

  function Prepend(c: char, r: Option<string>): Option<string>
  {
    if r.Some? then Some([c] + r.value) else None
  }

  function Hex4(a: char, b: char, c: char, d: char): int
  {
    if HexValue(a) < 0 || HexValue(b) < 0 || HexValue(c) < 0 || HexValue(d) < 0 then -1
    else HexValue(a) * 4096 + HexValue(b) * 256 + HexValue(c) * 16 + HexValue(d)
  }

  /** The text a JSON string body stands for, or None when it is not a valid body (surrogate escapes are refused). */
  function UnescapeBody(s: string): Option<string>
    decreases |s|
  {
    if |s| == 0 then Some("")
    else if s[0] == '"' || s[0] < ' ' then None
    else if s[0] != '\\' then Prepend(s[0], UnescapeBody(s[1..]))
    else if |s| < 2 then None
    else if s[1] == 'b' then Prepend('\U{0008}', UnescapeBody(s[2..]))
    else if s[1] == 't' then Prepend('\t', UnescapeBody(s[2..]))
    else if s[1] == 'n' then Prepend('\n', UnescapeBody(s[2..]))
    else if s[1] == 'f' then Prepend('\U{000C}', UnescapeBody(s[2..]))
    else if s[1] == 'r' then Prepend('\r', UnescapeBody(s[2..]))
    else if s[1] == '"' || s[1] == '\\' || s[1] == '/' then Prepend(s[1], UnescapeBody(s[2..]))
    else if s[1] == 'u' && |s| >= 6 then
      var v := Hex4(s[2], s[3], s[4], s[5]);
      if 0 <= v < 0xD800 || 0xE000 <= v < 0x1_0000 then Prepend(v as char, UnescapeBody(s[6..])) else None
    else None
  }

  lemma UnescapeAfterEscape(c: char, rest: string)
    ensures UnescapeBody(EscapeChar(c) + rest) == Prepend(c, UnescapeBody(rest))
  {
    var e := EscapeChar(c);
    var s := e + rest;
    if c < ' ' && c != '\U{0008}' && c != '\t' && c != '\n' && c != '\U{000C}' && c != '\r' {
      assert |e| == 6 && s[..6] == e && s[6..] == rest;
      assert Hex4(s[2], s[3], s[4], s[5]) == c as int;
    } else if |e| == 2 {
      assert s[..2] == e && s[2..] == rest;
    } else {
      assert s[1..] == rest;
    }
  }

  /** An escaped body reads back as the original text. */
  lemma {:induction false} QuoteRoundTrip(s: string)
    ensures UnescapeBody(EscapeBody(s)) == Some(s)
    decreases |s|
  {
    if |s| > 0 {
      QuoteRoundTrip(s[1..]);
      UnescapeAfterEscape(s[0], EscapeBody(s[1..]));
      assert [s[0]] + s[1..] == s;
    }
  }

  /** `JSON.stringify(j)`. Object members keep their insertion order. */
  function Stringify(j: Json): string
    decreases j, 1, 0
  {
    match j
    case JNull => "null"
    case JBool(b) => if b then "true" else "false"
    case JNum(n) => IntText(n)
    case JStr(s) => Quote(s)
    case JArr(items) => "[" + ItemsText(j, 0) + "]"
    case JObj(members) => "{" + MembersText(j, 0) + "}"
  }

  /** The comma-separated elements of an array from element k on. */
  function ItemsText(arr: Json, k: nat): string
    requires arr.JArr? && k <= |arr.items|
    decreases arr, 0, |arr.items| - k
  {
    if k == |arr.items| then ""
    else (if k > 0 then "," else "") + Stringify(arr.items[k]) + ItemsText(arr, k + 1)
  }

  /** The comma-separated `"key":value` members of an object from member k on. */
  function MembersText(obj: Json, k: nat): string
    requires obj.JObj? && k <= |obj.members|
    decreases obj, 0, |obj.members| - k
  {
    if k == |obj.members| then ""
    else
      var m := obj.members[k];
      (if k > 0 then "," else "") + Quote(m.0) + ":" + Stringify(m.1) + MembersText(obj, k + 1)
  }

  lemma AsciiConcat(a: string, b: string)
    requires IsAscii(a) && IsAscii(b)
    ensures IsAscii(a + b)
  {
    assert forall i :: 0 <= i < |a + b| ==> (a + b)[i] == if i < |a| then a[i] else b[i - |a|];
  }

  /** Text of plain ASCII characters is quoted without escapes. */
  lemma QuotePlain(s: string)
    requires IsAscii(s) && forall i :: 0 <= i < |s| ==> IsPlain(s[i])
    ensures Quote(s) == "\"" + s + "\"" && IsAscii(Quote(s))
  {
    EscapePlain(s);
    AsciiConcat("\"", s);
    AsciiConcat("\"" + s, "\"");
  }

  /** The text of an integer is ASCII. */
  lemma IntTextAscii(n: int)
    ensures IsAscii(IntText(n))
  {
    var d := DecimalDigits(if n >= 0 then n else -n);
    assert IsAscii(d);
    if n < 0 {
      AsciiConcat("-", d);
    }
  }

  /** `true` and `false` are ASCII. */
  lemma BoolTextAscii(b: bool)
    ensures IsAscii(Stringify(JBool(b)))
  {
    var t := Stringify(JBool(b));
    forall i | 0 <= i < |t| ensures t[i] as int < 0x80 {
      assert t[i] in "aeflrstu";
    }
  }

  /** A member list whose keys and values print as ASCII prints as ASCII. */
  lemma {:induction false} MembersAscii(obj: Json, k: nat)
    requires obj.JObj? && k <= |obj.members|
    requires forall j :: 0 <= j < |obj.members| ==> IsAscii(Quote(obj.members[j].0)) && IsAscii(Stringify(obj.members[j].1))
    ensures IsAscii(MembersText(obj, k))
    decreases |obj.members| - k
  {
    if k < |obj.members| {
      MembersAscii(obj, k + 1);
      MembersAsciiStep(obj, k);
    }
  }

  /** One member more keeps a member list ASCII. */
  lemma MembersAsciiStep(obj: Json, k: nat)
    requires obj.JObj? && k < |obj.members|
    requires IsAscii(Quote(obj.members[k].0)) && IsAscii(Stringify(obj.members[k].1)) && IsAscii(MembersText(obj, k + 1))
    ensures IsAscii(MembersText(obj, k))
  {
    var m := obj.members[k];
    var sep := if k > 0 then "," else "";
    AsciiConcat(sep, Quote(m.0));
    AsciiConcat(sep + Quote(m.0), ":");
    AsciiConcat(sep + Quote(m.0) + ":", Stringify(m.1));
    AsciiConcat(sep + Quote(m.0) + ":" + Stringify(m.1), MembersText(obj, k + 1));
  }

  /** The length of an object's text: braces, commas, colons, keys and values. */
  lemma {:induction false} MembersLength(obj: Json, k: nat)
    requires obj.JObj? && k <= |obj.members|
    ensures |MembersText(obj, k)| == MembersSize(obj.members, k)
    decreases |obj.members| - k
  {
    if k < |obj.members| {
      MembersLength(obj, k + 1);
    }
  }

  function MembersSize(members: seq<(string, Json)>, k: nat): nat
    requires k <= |members|
    decreases |members| - k
  {
    if k == |members| then 0
    else (if k > 0 then 1 else 0) + |Quote(members[k].0)| + 1 + |Stringify(members[k].1)| + MembersSize(members, k + 1)
  }
}
