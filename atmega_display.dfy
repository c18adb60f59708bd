/**
 * The geometry of the ST7789 drawing routines of
 * firmware/atmega/atmega_light/main.cpp: the clipping of `st7789_fill_rect`,
 * the filled width of `st7789_draw_progress_bar`, and the character
 * normalisation of `st7789_draw_char`. On the AVR an `int` is 16 bits wide,
 * so `uint16_t` operands are promoted to a 16-bit `unsigned int` and their
 * sums and products wrap modulo 65536; that wrap is written out here.
 */
module AtmegaDisplay {
  import opened Common

  const WIDTH: nat := 320
  const HEIGHT: nat := 210
  const WORD: nat := 0x1_0000

  /** Arithmetic on the AVR's 16-bit `unsigned int`. */
  function U16(n: int): u16
  {
    n % 0x1_0000
  }

  /**
   * What one `st7789_fill_rect` call does: the address window it sets
   * (x0, y0)-(x1, y1) and the number of pixels it then writes.
   */
  datatype Fill = Fill(x0: u16, y0: u16, x1: u16, y1: u16, pixels: nat)

  /** The clipped extent of one side: `if (x + w > limit) w = limit - x`, in 16 bits. */
  function ClipAsWritten(x: u16, w: u16, limit: nat): (cw: u16)
    ensures x <= limit && x + w < WORD ==> cw <= w && x + cw <= limit
  {
    if U16(x + w) > limit then U16(limit - x) else w
  }

  /** `st7789_fill_rect(x, y, w, h, color)` as compiled for the AVR. */
  function FillRectAsWritten(x: u16, y: u16, w: u16, h: u16): (f: Fill)
    ensures f.pixels < WORD
  {
    var cw := ClipAsWritten(x, w, WIDTH);
    var ch := ClipAsWritten(y, h, HEIGHT);
    Fill(x, y, U16(x + cw - 1), U16(y + ch - 1), U16(cw * ch))
  }

  /** The number of pixels of a window, each side counted from its first to its last column or row. */
  function Area(f: Fill): nat
  {
    (if f.x1 >= f.x0 then f.x1 - f.x0 + 1 else 0) * (if f.y1 >= f.y0 then f.y1 - f.y0 + 1 else 0)
  }

  /** When the sums do not wrap, the clipped rectangle ends inside the panel. */
  lemma FillRectClips(x: u16, y: u16, w: u16, h: u16)
    requires x <= WIDTH && y <= HEIGHT && x + w < WORD && y + h < WORD
    ensures x + ClipAsWritten(x, w, WIDTH) <= WIDTH
    ensures y + ClipAsWritten(y, h, HEIGHT) <= HEIGHT
    ensures ClipAsWritten(x, w, WIDTH) <= w && ClipAsWritten(y, h, HEIGHT) <= h
  {
  }

  /** A rectangle of fewer than 65536 pixels inside the panel is filled completely. */
  lemma FillRectSmallExact(x: u16, y: u16, w: u16, h: u16)
    requires 0 < w && 0 < h && x + w <= WIDTH && y + h <= HEIGHT && w * h < WORD
    ensures FillRectAsWritten(x, y, w, h).pixels == Area(FillRectAsWritten(x, y, w, h)) == w * h
  {
    assert ClipAsWritten(x, w, WIDTH) == w;
    assert ClipAsWritten(y, h, HEIGHT) == h;
    var f := FillRectAsWritten(x, y, w, h);
    SmallU16(x + w - 1);
    SmallU16(y + h - 1);
    SmallU16(w * h);
    assert f == Fill(x, y, x + w - 1, y + h - 1, w * h);
    assert Area(f) == w * h;
  }

  /** A value that fits in 16 bits is kept by the 16-bit truncation. */
  lemma SmallU16(n: int)
    requires 0 <= n < WORD
    ensures U16(n) == n
  {
  }

  /**
   * The full-panel fill of the start-up sequence: the window covers all
   * 67200 pixels, but the loop bound `w * h` wraps to 1664.
   */
  lemma FullPanelFillShort()
    ensures Area(FillRectAsWritten(0, 0, 320, 210)) == 67200
    ensures FillRectAsWritten(0, 0, 320, 210).pixels == 1664
  {
    var f := FillRectAsWritten(0, 0, 320, 210);
    assert f == Fill(0, 0, 319, 209, 1664);
  }

  /** The clip with exact arithmetic: nothing at or past the edge, otherwise at most up to it. */
  function Clip(x: u16, w: u16, limit: nat): (cw: nat)
    ensures cw <= w && (cw == 0 || x + cw <= limit)
  {
    if x >= limit then 0 else Min(w, limit - x)
  }

  /** `st7789_fill_rect` with the clip and the pixel count in exact (32-bit) arithmetic. */
  function FillRect(x: u16, y: u16, w: u16, h: u16): (f: Fill)
    ensures f.x0 == x && f.y0 == y
    ensures f.pixels > 0 ==> f.x1 < WIDTH && f.y1 < HEIGHT && f.pixels == Area(f)
  {
    var cw := Clip(x, w, WIDTH);
    var ch := Clip(y, h, HEIGHT);
    if cw == 0 || ch == 0 then Fill(x, y, x, y, 0)
    else Fill(x, y, x + cw - 1, y + ch - 1, cw * ch)
  }

  /** The corrected fill writes exactly the pixels of its window, and the window lies on the panel. */
  lemma FillRectExact(x: u16, y: u16, w: u16, h: u16)
    ensures FillRect(x, y, w, h).pixels == 0 || FillRect(x, y, w, h).pixels == Area(FillRect(x, y, w, h))
    ensures FillRect(x, y, w, h).pixels > 0 ==> FillRect(x, y, w, h).x1 < WIDTH && FillRect(x, y, w, h).y1 < HEIGHT
    ensures FillRect(x, y, w, h).pixels <= w * h
    ensures x + w <= WIDTH && y + h <= HEIGHT ==> FillRect(x, y, w, h).pixels == w * h
  {
    var cw := Clip(x, w, WIDTH);
    var ch := Clip(y, h, HEIGHT);
    MulMono(cw, w, ch, h);
  }

  lemma MulMono(a: nat, b: nat, c: nat, d: nat)
    requires a <= b && c <= d
    ensures a * c <= b * d
  {
    assert a * c <= b * c;
  }

  /** Where both agree: a rectangle of fewer than 65536 pixels inside the panel. */
  lemma FillRectAgrees(x: u16, y: u16, w: u16, h: u16)
    requires 0 < w && 0 < h && x + w <= WIDTH && y + h <= HEIGHT && w * h < WORD
    ensures FillRect(x, y, w, h) == FillRectAsWritten(x, y, w, h)
  {
    assert ClipAsWritten(x, w, WIDTH) == w && Clip(x, w, WIDTH) == w;
    assert ClipAsWritten(y, h, HEIGHT) == h && Clip(y, h, HEIGHT) == h;
    SmallU16(x + w - 1);
    SmallU16(y + h - 1);
    SmallU16(w * h);
    var f := Fill(x, y, x + w - 1, y + h - 1, w * h);
    assert FillRect(x, y, w, h) == f;
    assert FillRectAsWritten(x, y, w, h) == f;
  }

  // --------------------------------------------------------- progress bar

  /**
   * The filled width of `st7789_draw_progress_bar`: `w * value / max_value`
   * in 32 bits, truncated to 16 bits and capped at `w`. Nothing when
   * `max_value` is 0 (a division by zero).
   */
  function FilledWidth(w: u16, value: u16, maxValue: u16): (r: Option<u16>)
    ensures r.Some? <==> maxValue > 0
    ensures r.Some? ==> r.value <= w
  {
    if maxValue == 0 then None
    else
      var filled := U16(w * value / maxValue);
      Some(if filled > w then w else filled)
  }

  /** Up to a full bar the filled width is the proportional one, rounded down. */
  lemma FilledWidthProportional(w: u16, value: u16, maxValue: u16)
    requires 0 < maxValue && value <= maxValue
    ensures FilledWidth(w, value, maxValue) == Some(w * value / maxValue)
  {
    var n := w * value;
    MulMono(w, w, value, maxValue);
    DivBelow(n, w, maxValue);
    assert U16(n / maxValue) == n / maxValue;
  }

  lemma DivBelow(n: nat, w: nat, m: nat)
    requires 0 < m && n <= w * m
    ensures n / m <= w
  {
    var q := n / m;
    if q > w {
      MulMono(w + 1, q, m, m);
      assert false;
    }
  }

  lemma MulDiv(w: nat, m: nat)
    requires 0 < m
    ensures w * m / m == w
  {
    var n := w * m;
    DivBelow(n, w, m);
    var q := n / m;
    if q < w {
      MulMono(q, w - 1, m, m);
      assert false;
    }
  }

  /** A full bar is `w` wide and an empty one draws no filled part. */
  lemma FilledWidthEnds(w: u16, maxValue: u16)
    requires 0 < maxValue
    ensures FilledWidth(w, maxValue, maxValue) == Some(w)
    ensures FilledWidth(w, 0, maxValue) == Some(0)
  {
    FilledWidthProportional(w, maxValue, maxValue);
    MulDiv(w, maxValue);
  }

  /** A rectangle request of the drawing routines. */
  datatype Rect = Rect(x: u16, y: u16, w: u16, h: u16, color: u16)

  /** `st7789_draw_progress_bar`: the background, then the filled part when it is not empty. */
  function ProgressBar(x: u16, y: u16, w: u16, h: u16, value: u16, maxValue: u16, bg: u16, fg: u16): (r: Option<seq<Rect>>)
    ensures r.Some? <==> maxValue > 0
    ensures r.Some? ==> 1 <= |r.value| <= 2 && r.value[0] == Rect(x, y, w, h, bg)
    ensures r.Some? && |r.value| == 2 ==> r.value[1].w <= w && r.value[1].x == x && r.value[1].h == h && r.value[1].color == fg
  {
    match FilledWidth(w, value, maxValue)
    case None => None
    case Some(filled) =>
      Some([Rect(x, y, w, h, bg)] + (if filled > 0 then [Rect(x, y, filled, h, fg)] else []))
  }

  // ----------------------------------------------------------- characters

  /** A `char` of avr-gcc: signed, -128 to 127. */
  type SChar = c: int | -128 <= c < 128

  /** What `st7789_draw_char` draws for a character. */
  datatype Glyph =
    | Blank        // a space: one 5x7 background rectangle
    | FontRow(index: nat)  // the row of `font_5x7`, 35 one-pixel rectangles
    | Nothing      // unsupported: nothing is drawn

  /** The accent replacement, comparing the (signed) character with 224 to 252. */
  function AccentRemap(c: int): int
  {
    if c == 233 || c == 232 || c == 234 || c == 235 then 'E' as int
    else if c == 224 || c == 225 || c == 226 || c == 227 then 'A' as int
    else if c == 249 || c == 250 || c == 251 || c == 252 then 'U' as int
    else if c == 239 || c == 238 || c == 237 || c == 236 then 'I' as int
    else if c == 242 || c == 243 || c == 244 || c == 245 then 'O' as int
    else c
  }

  /** `st7789_draw_char`: space, folding 'a'-'z' to 'A'-'Z', the accent table, then the 32-90 range. */
  function DrawChar(c: SChar): (g: Glyph)
    ensures g.FontRow? ==> g.index < 59
  {
    if c == ' ' as int then Blank
    else
      var upper := if 'a' as int <= c <= 'z' as int then c - 'a' as int + 'A' as int else c;
      var d := AccentRemap(upper);
      if d < 32 || d > 90 then Nothing else FontRow(d - 32)
  }

  /** A signed `char` never equals 224 or more, so the accent table never applies. */
  lemma AccentRemapNeverApplies(c: SChar)
    ensures AccentRemap(c) == c
  {
  }

  /** Letters are drawn the same in either case, from their upper-case row. */
  lemma DrawCharFoldsCase(c: SChar)
    requires 'a' as int <= c <= 'z' as int
    ensures DrawChar(c) == DrawChar(c - 32) == FontRow(c - 'a' as int + 33)
  {
  }

  /** A glyph is drawn exactly for the codes 33-90 and lower-case letters; its row is one of the 58 after the space. */
  lemma DrawCharRange(c: SChar)
    ensures DrawChar(c).FontRow? <==> 33 <= c <= 90 || 'a' as int <= c <= 'z' as int
    ensures DrawChar(c).FontRow? ==> 1 <= DrawChar(c).index <= 58
    ensures DrawChar(c).Blank? <==> c == 32
  {
  }
}
