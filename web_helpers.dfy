/**
 * Two small helpers of public/scripts/main.js: `compareVersions`, which
 * orders dotted release numbers (used to decide whether a published
 * firmware is newer), and `formatKeyLabel`, the text shown on a key of the
 * grid.
 */
module WebHelpers {
  import opened Common
  import opened WebFraming

  // ------------------------------------------------------ compareVersions

  /** The longest prefix of decimal digits. */
  function LeadingDigits(s: string): (d: string)
    ensures AllDigits(d) && |d| <= |s| && d == s[..|d|]
    ensures |d| < |s| ==> !IsDigit(s[|d|])
  {
    if |s| > 0 && IsDigit(s[0]) then [s[0]] + LeadingDigits(s[1..]) else ""
  }

  /**
   * `parseInt(n, 10) || 0`: leading white space skipped, an optional sign,
   * then the leading digits; no digits gives NaN, which `|| 0` turns to 0.
   */
  function ParsePart(n: string): int
  {
    var t := TrimStart(n);
    var neg := |t| > 0 && t[0] == '-';
    var body := if |t| > 0 && (t[0] == '-' || t[0] == '+') then t[1..] else t;
    var d := LeadingDigits(body);
    if |d| == 0 then 0 else if neg then -(DecimalValue(d) as int) else DecimalValue(d)
  }

  /** `(a || '0').split('.').map(n => parseInt(n, 10) || 0)`. */
  function VersionParts(a: string): (r: seq<int>)
    ensures |r| >= 1
  {
    Parts(Pieces(if a == "" then "0" else a, '.'))
  }

  /** Each piece read with `parseInt(n, 10) || 0`. */
  function Parts(pieces: seq<string>): (r: seq<int>)
    ensures |r| == |pieces|
  {
    seq(|pieces|, i requires 0 <= i < |pieces| => ParsePart(pieces[i]))
  }

  /** `pa[i] || 0`: a missing part counts as 0. */
  function PartAt(p: seq<int>, i: nat): int
  {
    if i < |p| then p[i] else 0
  }

  function Max(a: int, b: int): int
  {
    if a >= b then a else b
  }

  /** The comparison loop from part i on: the first differing part decides. */
  function CompareFrom(pa: seq<int>, pb: seq<int>, i: nat): (r: int)
    ensures r == -1 || r == 0 || r == 1
    decreases Max(|pa|, |pb|) - i
  {
    if i >= Max(|pa|, |pb|) then 0
    else if PartAt(pa, i) != PartAt(pb, i) then (if PartAt(pa, i) > PartAt(pb, i) then 1 else -1)
    else CompareFrom(pa, pb, i + 1)
  }

  function CompareSpec(a: string, b: string): int
  {
    CompareFrom(VersionParts(a), VersionParts(b), 0)
  }

  /** `compareVersions(a, b)`: 1 when a is newer, -1 when older, 0 when equal; an empty argument reads as "0". */
  method CompareVersions(a: string, b: string) returns (r: int)
    ensures r == CompareSpec(a, b)
  {
    var pa, pb := VersionParts(a), VersionParts(b);
    var i := 0;
    var n := Max(|pa|, |pb|);
    while i < n
      invariant 0 <= i <= n
      invariant CompareFrom(pa, pb, 0) == CompareFrom(pa, pb, i)
    {
      var va, vb := PartAt(pa, i), PartAt(pb, i);
      if va != vb {
        return if va > vb then 1 else -1;
      }
      i := i + 1;
    }
    return 0;
  }

  /** Swapping the arguments negates the result. */
  lemma {:induction false} CompareAntisymmetric(pa: seq<int>, pb: seq<int>, i: nat)
    ensures CompareFrom(pa, pb, i) == -CompareFrom(pb, pa, i)
    decreases Max(|pa|, |pb|) - i
  {
    if i < Max(|pa|, |pb|) && PartAt(pa, i) == PartAt(pb, i) {
      CompareAntisymmetric(pa, pb, i + 1);
    }
  }

  /** Two versions compare equal exactly when they agree part by part once padded with zeros. */
  lemma {:induction false} CompareZeroIff(pa: seq<int>, pb: seq<int>, i: nat)
    ensures CompareFrom(pa, pb, i) == 0 <==> forall k :: i <= k < Max(|pa|, |pb|) ==> PartAt(pa, k) == PartAt(pb, k)
    decreases Max(|pa|, |pb|) - i
  {
    if i < Max(|pa|, |pb|) && PartAt(pa, i) == PartAt(pb, i) {
      CompareZeroIff(pa, pb, i + 1);
    }
  }

  /** Newer than newer is newer. */
  lemma {:induction false} CompareTransitive(pa: seq<int>, pb: seq<int>, pc: seq<int>, i: nat)
    requires CompareFrom(pa, pb, i) == 1 && CompareFrom(pb, pc, i) == 1
    ensures CompareFrom(pa, pc, i) == 1
    decreases Max(|pa|, |pb|) - i
  {
    if PartAt(pa, i) == PartAt(pb, i) && PartAt(pb, i) == PartAt(pc, i) {
      CompareTransitive(pa, pb, pc, i + 1);
    }
  }

  /** A trailing ".0" changes nothing: "1.2" and "1.2.0" are the same version. */
  lemma TrailingZero(a: string)
    requires a != ""
    ensures VersionParts(a + ".0") == VersionParts(a) + [0]
    ensures CompareSpec(a, a + ".0") == 0
  {
    TrailingZeroParts(a);
    var pa := VersionParts(a);
    CompareZeroIff(pa, pa + [0], 0);
  }

  lemma TrailingZeroParts(a: string)
    requires a != ""
    ensures VersionParts(a + ".0") == VersionParts(a) + [0]
  {
    assert a + ".0" == a + ['.'] + "0";
    PiecesSnoc(a, "0", '.');
    var p := Pieces(a, '.');
    var q := Pieces(a + ".0", '.');
    assert q == p + ["0"];
    PartsSnoc(p, "0");
    PartValue(0);
  }

  /** The parts of the pieces with one more piece at the end end with that piece's part. */
  lemma PartsSnoc(p: seq<string>, y: string)
    ensures Parts(p + [y]) == Parts(p) + [ParsePart(y)]
  {
    var q := p + [y];
    forall k | 0 <= k < |p|
      ensures Parts(q)[k] == Parts(p)[k]
    {
      assert q[k] == p[k];
    }
  }

  /** Appending a separator and a separator-free piece adds one piece. */
  lemma PiecesSnoc(a: string, y: string, sep: char)
    requires sep !in y
    ensures Pieces(a + [sep] + y, sep) == Pieces(a, sep) + [y]
  {
    var p := Pieces(a, sep);
    PiecesJoin(a, sep);
    JoinSnoc(p, y, sep);
    PiecesUnique(a + [sep] + y, sep, p + [y]);
  }

  /** A part written in decimal reads as its value. */
  lemma PartValue(n: nat)
    ensures ParsePart(DecimalDigits(n)) == n
  {
    var d := DecimalDigits(n);
    assert !IsJsSpace(d[0]);
    assert TrimStart(d) == d;
    assert d[0] != '-' && d[0] != '+';
    LeadingDigitsAll(d);
    DecimalRoundTrip(n);
  }

  lemma {:induction false} LeadingDigitsAll(d: string)
    requires AllDigits(d)
    ensures LeadingDigits(d) == d
    decreases |d|
  {
    if |d| > 0 {
      LeadingDigitsAll(d[1..]);
      assert [d[0]] + d[1..] == d;
    }
  }

  // ------------------------------------------------------ formatKeyLabel

  /** A key assignment as the page stores it: the value, set modifiers, and a macro sequence for macro keys. */
  datatype KeyConfig = KeyConfig(value: string, modifiers: Option<seq<string>>, macro: Option<seq<string>>)

  /** `{ CTRL: 'Ctrl', SHIFT: 'Shift', ALT: 'Alt', GUI: 'Win' }[x] || x`. */
  function ModifierName(x: string): string
  {
    if x == "CTRL" then "Ctrl" else if x == "SHIFT" then "Shift" else if x == "ALT" then "Alt"
    else if x == "GUI" then "Win" else x
  }

  function DisplayNames(mods: seq<string>): (r: seq<string>)
    ensures |r| == |mods| && forall i :: 0 <= i < |r| ==> r[i] == ModifierName(mods[i])
  {
    seq(|mods|, i requires 0 <= i < |mods| => ModifierName(mods[i]))
  }

  /** `k.modifiers.map(x => names[x] || x).join('+')`. */
  function ModifierNames(mods: seq<string>): string
    requires |mods| > 0
  {
    Join(DisplayNames(mods), '+')
  }

  /** `toUpperCase` for the ASCII letters. */
  function UpperAscii(c: char): char
  {
    if 'a' <= c <= 'z' then (c as int - 32) as char else c
  }

  /** `value.length === 1 ? value.toUpperCase() : value`. */
  function ShownValue(v: string): (r: string)
    ensures |r| == |v|
  {
    if |v| == 1 then [UpperAscii(v[0])] else v
  }

  /** `formatKeyLabel(k)`: never an empty label. */
  function FormatKeyLabel(k: Option<KeyConfig>): (r: string)
    ensures |r| > 0
  {
    if k.None? then "Non configuré"
    else if k.value.macro.Some? then "Macro"
    else if k.value.modifiers.Some? && |k.value.modifiers.value| > 0 && k.value.value != "" then
      ModifierNames(k.value.modifiers.value) + "+" + ShownValue(k.value.value)
    else if k.value.value != "" then k.value.value
    else "—"
  }

  /**
   * A key with modifiers reads back at its `+` signs as the display name of
   * each modifier, in order, then the value (capitalised when it is one
   * letter), whenever no name or value itself holds a `+`.
   */
  lemma KeyLabelSplits(value: string, mods: seq<string>)
    requires |mods| > 0 && value != "" && '+' !in value
    requires forall i :: 0 <= i < |mods| ==> '+' !in ModifierName(mods[i])
    ensures Pieces(FormatKeyLabel(Some(KeyConfig(value, Some(mods), None))), '+') == DisplayNames(mods) + [ShownValue(value)]
  {
    var names := DisplayNames(mods);
    var v := ShownValue(value);
    assert '+' !in v by {
      if |value| == 1 {
        assert value[0] != '+';
      }
    }
    JoinSnoc(names, v, '+');
    var r := names + [v];
    assert forall i :: 0 <= i < |r| ==> '+' !in r[i] by {
      forall i | 0 <= i < |r| ensures '+' !in r[i] {
        if i < |names| {
          assert r[i] == ModifierName(mods[i]);
        }
      }
    }
    PiecesUnique(FormatKeyLabel(Some(KeyConfig(value, Some(mods), None))), '+', r);
  }

  /** Which label a key shows when it is unset, a macro, or a plain value. */
  lemma KeyLabelCases(k: KeyConfig)
    ensures FormatKeyLabel(None) == "Non configuré"
    ensures k.macro.Some? ==> FormatKeyLabel(Some(k)) == "Macro"
    ensures k.macro.None? && (k.modifiers.None? || |k.modifiers.value| == 0) ==>
      FormatKeyLabel(Some(k)) == if k.value == "" then "—" else k.value
  {
  }
}
