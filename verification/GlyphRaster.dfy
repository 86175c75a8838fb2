/** Text drawn as black pixels on a white canvas, one scaled 5x7 glyph a character. */
module GlyphRaster {
  import opened Collections

  type Byte = n: nat | n < 256

  datatype Pixel = Pixel(x: int, y: int)

  /** Seven rows of five bits. */
  type Glyph = seq<string>

  predicate IsGlyph(glyph: Glyph) {
    |glyph| == 7 && forall r :: 0 <= r < 7 ==> |glyph[r]| == 5
  }

  /** The font table: it has a glyph for the space, which stands in for missing characters. */
  predicate IsFont(font: map<char, Glyph>) {
    ' ' in font && forall c :: c in font ==> IsGlyph(font[c])
  }

  function GlyphOf(font: map<char, Glyph>, c: char): (glyph: Glyph)
    requires IsFont(font)
    ensures IsGlyph(glyph)
  {
    if c in font then font[c] else font[' ']
  }

  function Longest(lines: seq<string>): nat {
    if lines == [] then 0
    else
      var n := Longest(lines[..|lines| - 1]);
      if |lines[|lines| - 1]| > n then |lines[|lines| - 1]| else n
  }

  lemma {:induction false} LongestBounds(lines: seq<string>, l: nat)
    requires l < |lines|
    ensures |lines[l]| <= Longest(lines)
  {
    if l < |lines| - 1 { LongestBounds(lines[..|lines| - 1], l); }
  }

  // ----- index arithmetic

  lemma QuotientIs(a: int, s: int, q: int)
    requires s > 0
    ensures a / s == q <==> q * s <= a < (q + 1) * s
  {
    if a / s < q {
      assert (a / s + 1) * s <= q * s;
    } else if a / s > q {
      assert (q + 1) * s <= a / s * s;
    }
  }

  lemma QuotientShift(a: int, s: int, m: int)
    requires s > 0
    ensures (a - m * s) / s == a / s - m
  {
    QuotientIs(a, s, a / s);
    QuotientIs(a - m * s, s, a / s - m);
  }

  /** Rows of `w` pixels of three bytes each. */
  function PixelOf(i: nat, w: nat): Pixel {
    if w == 0 then Pixel(0, 0) else Pixel(i / 3 % w, i / 3 / w)
  }

  lemma PixelOfIs(i: nat, w: nat, x: nat, y: nat)
    requires x < w
    ensures PixelOf(i, w) == Pixel(x, y) <==> i / 3 == y * w + x
  {
    QuotientIs(i / 3, w, y);
    assert i / 3 == i / 3 / w * w + i / 3 % w;
  }

  lemma IndexInside(w: nat, h: nat, x: nat, y: nat)
    requires x < w && y < h
    ensures (y * w + x) * 3 + 3 <= w * h * 3
  {
    assert (y + 1) * w <= h * w;
  }

  // ----- canvases

  /** The canvas is black at the pixels in `ink` and white at the others. */
  ghost predicate Shows(canvas: seq<Byte>, w: nat, h: nat, ink: iset<Pixel>) {
    |canvas| == w * h * 3 && forall i :: 0 <= i < |canvas| ==> canvas[i] == if PixelOf(i, w) in ink then 0 else 255
  }

  lemma ShowsSame(canvas: seq<Byte>, w: nat, h: nat, ink: iset<Pixel>, ink': iset<Pixel>)
    requires Shows(canvas, w, h, ink) && ink == ink'
    ensures Shows(canvas, w, h, ink')
  {
  }

  lemma ByteShown(canvas: seq<Byte>, w: nat, h: nat, ink: iset<Pixel>, i: nat, x: nat, y: nat)
    requires Shows(canvas, w, h, ink) && i < |canvas| && x < w && i / 3 == y * w + x
    ensures canvas[i] == if Pixel(x, y) in ink then 0 else 255
  {
    PixelOfIs(i, w, x, y);
  }

  /** The three bytes of the pixel in column `x` of row `y`. */
  lemma PixelShown(canvas: seq<Byte>, w: nat, h: nat, ink: iset<Pixel>, x: nat, y: nat)
    requires Shows(canvas, w, h, ink) && x < w && y < h
    ensures var i := (y * w + x) * 3;
      i + 3 <= |canvas| && canvas[i..i + 3] == if Pixel(x, y) in ink then [0, 0, 0] else [255, 255, 255]
  {
    IndexInside(w, h, x, y);
    var n := y * w + x;
    var i := n * 3;
    assert i / 3 == (i + 1) / 3 == (i + 2) / 3 == n;
    assert i + 3 <= |canvas|;
    hide Shows;
    ByteShown(canvas, w, h, ink, i, x, y);
    ByteShown(canvas, w, h, ink, i + 1, x, y);
    ByteShown(canvas, w, h, ink, i + 2, x, y);
  }

  method Blacken(pixels: array<Byte>, width: nat, x: nat, y: nat, ghost h: nat, ghost ink: iset<Pixel>)
    requires Shows(pixels[..], width, h, ink) && x < width && y < h
    modifies pixels
    ensures Shows(pixels[..], width, h, ink + iset{Pixel(x, y)})
  {
    IndexInside(width, h, x, y);
    var index := (y * width + x) * 3;
    pixels[index], pixels[index + 1], pixels[index + 2] := 0, 0, 0;
    forall i | 0 <= i < pixels.Length ensures PixelOf(i, width) == Pixel(x, y) <==> index <= i < index + 3 {
      PixelOfIs(i, width, x, y);
    }
  }

  ghost function Box(x: int, y: int, w: int, h: int): iset<Pixel> {
    iset p: Pixel | x <= p.x < x + w && y <= p.y < y + h
  }

  /** One bit of a glyph. */
  method FillSquare(pixels: array<Byte>, width: nat, x: nat, y: nat, scale: nat, ghost h: nat, ghost ink: iset<Pixel>)
    requires Shows(pixels[..], width, h, ink) && x + scale <= width && y + scale <= h
    modifies pixels
    ensures Shows(pixels[..], width, h, ink + Box(x, y, scale, scale))
  {
    hide Shows;
    ShowsSame(pixels[..], width, h, ink, ink + Box(x, y, scale, 0));
    for dy := 0 to scale
      invariant Shows(pixels[..], width, h, ink + Box(x, y, scale, dy))
    {
      ghost var above := ink + Box(x, y, scale, dy);
      ShowsSame(pixels[..], width, h, above, above + Box(x, y + dy, 0, 1));
      for dx := 0 to scale
        invariant Shows(pixels[..], width, h, above + Box(x, y + dy, dx, 1))
      {
        Blacken(pixels, width, x + dx, y + dy, h, above + Box(x, y + dy, dx, 1));
        ShowsSame(pixels[..], width, h, above + Box(x, y + dy, dx, 1) + iset{Pixel(x + dx, y + dy)},
                  above + Box(x, y + dy, dx + 1, 1));
      }
      ShowsSame(pixels[..], width, h, above + Box(x, y + dy, scale, 1), ink + Box(x, y, scale, dy + 1));
    }
  }

  // ----- glyphs

  /** The pixel lies in a 1-bit, the bit's row and column found by division. */
  ghost predicate InGlyph(p: Pixel, glyph: Glyph, x: int, y: int, scale: int)
    requires IsGlyph(glyph)
  {
    scale > 0 && 0 <= (p.x - x) / scale < 5 && 0 <= (p.y - y) / scale < 7 &&
    glyph[(p.y - y) / scale][(p.x - x) / scale] == '1'
  }

  ghost function GlyphInk(glyph: Glyph, x: int, y: int, scale: int): iset<Pixel>
    requires IsGlyph(glyph)
  {
    iset p: Pixel | InGlyph(p, glyph, x, y, scale)
  }

  /** The bits before column `col` of row `row`. */
  ghost function InkBefore(glyph: Glyph, x: int, y: int, scale: int, row: int, col: int): iset<Pixel>
    requires IsGlyph(glyph)
  {
    iset p: Pixel | InGlyph(p, glyph, x, y, scale) &&
      ((p.y - y) / scale < row || ((p.y - y) / scale == row && (p.x - x) / scale < col))
  }

  lemma BitInk(glyph: Glyph, x: int, y: int, scale: nat, row: nat, col: nat)
    requires IsGlyph(glyph) && row < 7 && col < 5
    ensures InkBefore(glyph, x, y, scale, row, col + 1) ==
      InkBefore(glyph, x, y, scale, row, col) +
      (if glyph[row][col] == '1' then Box(x + col * scale, y + row * scale, scale, scale) else iset{})
  {
    if scale > 0 {
      forall p: Pixel
        ensures p in Box(x + col * scale, y + row * scale, scale, scale) <==>
          (p.x - x) / scale == col && (p.y - y) / scale == row
      {
        QuotientIs(p.x - x, scale, col);
        QuotientIs(p.y - y, scale, row);
      }
    }
  }

  lemma RowInk(glyph: Glyph, x: int, y: int, scale: nat, row: nat)
    requires IsGlyph(glyph) && row < 7
    ensures InkBefore(glyph, x, y, scale, row, 5) == InkBefore(glyph, x, y, scale, row + 1, 0)
  {
  }

  lemma AllRowsInk(glyph: Glyph, x: int, y: int, scale: nat)
    requires IsGlyph(glyph)
    ensures InkBefore(glyph, x, y, scale, 0, 0) == iset{}
    ensures InkBefore(glyph, x, y, scale, 7, 0) == GlyphInk(glyph, x, y, scale)
  {
  }

  /** `n` bits at bit `at` end within `limit` bits. */
  lemma BitsInside(scale: nat, at: nat, n: nat, limit: nat)
    requires at + n <= limit
    ensures at * scale + n * scale <= limit * scale
  {
    assert at * scale + n * scale == (at + n) * scale;
    assert (limit - at - n) * scale >= 0;
  }

  /** `_draw_glyph`. */
  method DrawGlyph(pixels: array<Byte>, width: nat, x: nat, y: nat, glyph: Glyph, scale: nat,
                   ghost h: nat, ghost ink: iset<Pixel>)
    requires IsGlyph(glyph) && Shows(pixels[..], width, h, ink) && x + 5 * scale <= width && y + 7 * scale <= h
    modifies pixels
    ensures Shows(pixels[..], width, h, ink + GlyphInk(glyph, x, y, scale))
  {
    hide Shows, InkBefore, GlyphInk, Box;
    AllRowsInk(glyph, x, y, scale);
    ShowsSame(pixels[..], width, h, ink, ink + InkBefore(glyph, x, y, scale, 0, 0));
    for row := 0 to |glyph|
      invariant Shows(pixels[..], width, h, ink + InkBefore(glyph, x, y, scale, row, 0))
    {
      for col := 0 to |glyph[row]|
        invariant Shows(pixels[..], width, h, ink + InkBefore(glyph, x, y, scale, row, col))
      {
        BitInk(glyph, x, y, scale, row, col);
        ghost var before := ink + InkBefore(glyph, x, y, scale, row, col);
        if glyph[row][col] == '1' {
          BitsInside(scale, col, 1, 5);
          BitsInside(scale, row, 1, 7);
          FillSquare(pixels, width, x + col * scale, y + row * scale, scale, h, before);
          ShowsSame(pixels[..], width, h, before + Box(x + col * scale, y + row * scale, scale, scale),
                    ink + InkBefore(glyph, x, y, scale, row, col + 1));
        } else {
          ShowsSame(pixels[..], width, h, before, ink + InkBefore(glyph, x, y, scale, row, col + 1));
        }
      }
      RowInk(glyph, x, y, scale, row);
    }
  }

  // ----- text

  /** Each character has a cell of 6 by 9 bits, its glyph in the upper left. */
  function CellX(k: int, scale: int, padding: int): int { padding + k * 6 * scale }
  function CellY(l: int, scale: int, padding: int): int { padding + l * 9 * scale }

  /** The pixel lies in a 1-bit of the glyph of the character at its line and column. */
  ghost predicate InText(p: Pixel, font: map<char, Glyph>, lines: seq<string>, scale: nat, padding: nat)
    requires IsFont(font)
  {
    scale > 0 &&
    var u, v := (p.x - padding) / scale, (p.y - padding) / scale;
    var k, l := u / 6, v / 9;
    0 <= l < |lines| && 0 <= k < |lines[l]| && u % 6 < 5 && v % 9 < 7 &&
    GlyphOf(font, lines[l][k])[v % 9][u % 6] == '1'
  }

  ghost function TextInk(font: map<char, Glyph>, lines: seq<string>, scale: nat, padding: nat): iset<Pixel>
    requires IsFont(font)
  {
    iset p: Pixel | InText(p, font, lines, scale, padding)
  }

  /** The characters before character `k` of line `l`. */
  ghost function TextBefore(font: map<char, Glyph>, lines: seq<string>, scale: nat, padding: nat, l: int, k: int): iset<Pixel>
    requires IsFont(font)
  {
    iset p: Pixel | InText(p, font, lines, scale, padding) &&
      var line := (p.y - padding) / scale / 9;
      line < l || (line == l && (p.x - padding) / scale / 6 < k)
  }

  /** Bit coordinates inside the cell of character `k` of line `l`. */
  lemma CellBits(p: Pixel, scale: nat, padding: nat, l: int, k: int)
    requires scale > 0
    ensures (p.x - CellX(k, scale, padding)) / scale == (p.x - padding) / scale - 6 * k
    ensures (p.y - CellY(l, scale, padding)) / scale == (p.y - padding) / scale - 9 * l
  {
    QuotientShift(p.x - padding, scale, 6 * k);
    QuotientShift(p.y - padding, scale, 9 * l);
    assert k * 6 * scale == 6 * k * scale && l * 9 * scale == 9 * l * scale;
  }

  /** A pixel is in a character's glyph exactly when the division finds that character. */
  lemma GlyphInText(p: Pixel, font: map<char, Glyph>, lines: seq<string>, scale: nat, padding: nat, l: nat, k: nat)
    requires IsFont(font) && l < |lines| && k < |lines[l]|
    ensures InGlyph(p, GlyphOf(font, lines[l][k]), CellX(k, scale, padding), CellY(l, scale, padding), scale) <==>
      scale > 0 && InText(p, font, lines, scale, padding) && (p.x - padding) / scale / 6 == k && (p.y - padding) / scale / 9 == l
  {
    hide IsFont, CellX, CellY;
    if scale > 0 {
      CellBits(p, scale, padding, l, k);
    }
  }

  lemma CharInk(font: map<char, Glyph>, lines: seq<string>, scale: nat, padding: nat, l: nat, k: nat)
    requires IsFont(font) && l < |lines| && k < |lines[l]|
    ensures TextBefore(font, lines, scale, padding, l, k + 1) ==
      TextBefore(font, lines, scale, padding, l, k) +
      GlyphInk(GlyphOf(font, lines[l][k]), CellX(k, scale, padding), CellY(l, scale, padding), scale)
  {
    assert forall p: Pixel :: InText(p, font, lines, scale, padding) ==> scale > 0;
    hide IsFont, CellX, CellY, InText, InGlyph;
    forall p: Pixel
      ensures InGlyph(p, GlyphOf(font, lines[l][k]), CellX(k, scale, padding), CellY(l, scale, padding), scale) <==>
        scale > 0 && InText(p, font, lines, scale, padding) && (p.x - padding) / scale / 6 == k && (p.y - padding) / scale / 9 == l
    {
      GlyphInText(p, font, lines, scale, padding, l, k);
    }
  }

  lemma LineInk(font: map<char, Glyph>, lines: seq<string>, scale: nat, padding: nat, l: nat)
    requires IsFont(font) && l < |lines|
    ensures TextBefore(font, lines, scale, padding, l, |lines[l]|) == TextBefore(font, lines, scale, padding, l + 1, 0)
  {
  }

  lemma AllLinesInk(font: map<char, Glyph>, lines: seq<string>, scale: nat, padding: nat)
    requires IsFont(font)
    ensures TextBefore(font, lines, scale, padding, 0, 0) == iset{}
    ensures TextBefore(font, lines, scale, padding, |lines|, 0) == TextInk(font, lines, scale, padding)
  {
  }

  function Width(lines: seq<string>, scale: nat, padding: nat): nat { Longest(lines) * 6 * scale + padding * 2 }
  function Height(lines: seq<string>, scale: nat, padding: nat): nat { |lines| * 9 * scale + padding * 2 }

  lemma CellInside(lines: seq<string>, scale: nat, padding: nat, l: nat, k: nat)
    requires l < |lines| && k < |lines[l]|
    ensures CellX(k, scale, padding) + 5 * scale <= Width(lines, scale, padding)
    ensures CellY(l, scale, padding) + 7 * scale <= Height(lines, scale, padding)
  {
    LongestBounds(lines, l);
    hide Longest;
    BitsInside(scale, k * 6, 5, Longest(lines) * 6);
    BitsInside(scale, l * 9, 7, |lines| * 9);
  }

  /** `_bitmap_text`, the lines already in upper case. The maximum of no lines is an error. */
  method BitmapText(font: map<char, Glyph>, lines: seq<string>, scale: nat, padding: nat)
    returns (r: Option<(nat, nat, seq<Byte>)>)
    requires IsFont(font)
    ensures r.None? <==> lines == []
    ensures r.Some? ==> r.value.0 == Width(lines, scale, padding) && r.value.1 == Height(lines, scale, padding)
    ensures r.Some? ==> Shows(r.value.2, r.value.0, r.value.1, TextInk(font, lines, scale, padding))
  {
    if lines == [] { return None; }
    hide IsFont, Shows, TextBefore, TextInk, GlyphInk, CellX, CellY, Width, Height;
    var width, height := Width(lines, scale, padding), Height(lines, scale, padding);
    var pixels := new Byte[width * height * 3](_ => 255);
    BlankShows(pixels[..], width, height);
    AllLinesInk(font, lines, scale, padding);
    for l := 0 to |lines|
      invariant fresh(pixels)
      invariant Shows(pixels[..], width, height, TextBefore(font, lines, scale, padding, l, 0))
    {
      var y := CellYOf(l, scale, padding);
      var x := padding;
      CellXStart(scale, padding);
      for k := 0 to |lines[l]|
        invariant fresh(pixels)
        invariant x == CellX(k, scale, padding)
        invariant Shows(pixels[..], width, height, TextBefore(font, lines, scale, padding, l, k))
      {
        CellInside(lines, scale, padding, l, k);
        CharInk(font, lines, scale, padding, l, k);
        DrawGlyph(pixels, width, x, y, GlyphOf(font, lines[l][k]), scale, height, TextBefore(font, lines, scale, padding, l, k));
        CellXStep(k, scale, padding);
        x := x + 6 * scale;
      }
      LineInk(font, lines, scale, padding, l);
    }
    r := Some((width, height, pixels[..]));
  }

  function CellYOf(l: nat, scale: nat, padding: nat): (y: nat)
    ensures y == CellY(l, scale, padding)
  {
    padding + l * 9 * scale
  }

  lemma CellXStart(scale: nat, padding: nat)
    ensures CellX(0, scale, padding) == padding
  {
  }

  lemma CellXStep(k: nat, scale: nat, padding: nat)
    ensures CellX(k + 1, scale, padding) == CellX(k, scale, padding) + 6 * scale
  {
    assert (k + 1) * 6 * scale == k * 6 * scale + 6 * scale;
  }

  lemma BlankShows(canvas: seq<Byte>, w: nat, h: nat)
    requires |canvas| == w * h * 3 && forall i :: 0 <= i < |canvas| ==> canvas[i] == 255
    ensures Shows(canvas, w, h, iset{})
  {
  }

  // ----- what is drawn

  /** The square of bit (`row`, `col`) of character `k` of line `l`. */
  ghost function BitBox(l: int, k: int, row: int, col: int, scale: int, padding: int): iset<Pixel> {
    Box(CellX(k, scale, padding) + col * scale, CellY(l, scale, padding) + row * scale, scale, scale)
  }

  ghost predicate Lit(font: map<char, Glyph>, lines: seq<string>, l: int, k: int, row: int, col: int)
    requires IsFont(font)
  {
    0 <= l < |lines| && 0 <= k < |lines[l]| && 0 <= row < 7 && 0 <= col < 5 && GlyphOf(font, lines[l][k])[row][col] == '1'
  }

  lemma BitBoxIs(p: Pixel, l: int, k: int, row: int, col: int, scale: nat, padding: nat)
    requires 0 <= row < 9 && 0 <= col < 6
    ensures p in BitBox(l, k, row, col, scale, padding) <==>
      scale > 0 && (p.x - padding) / scale == 6 * k + col && (p.y - padding) / scale == 9 * l + row
  {
    if scale > 0 {
      CellBits(p, scale, padding, l, k);
      QuotientIs(p.x - CellX(k, scale, padding), scale, col);
      QuotientIs(p.y - CellY(l, scale, padding), scale, row);
    }
  }

  /** A pixel is black exactly when it lies in the scaled square of a 1-bit. */
  lemma BlackIffInLitBit(p: Pixel, font: map<char, Glyph>, lines: seq<string>, scale: nat, padding: nat)
    requires IsFont(font)
    ensures p in TextInk(font, lines, scale, padding) <==>
      exists l, k, row, col :: Lit(font, lines, l, k, row, col) && p in BitBox(l, k, row, col, scale, padding)
  {
    hide IsFont, GlyphOf, BitBox;
    if p in TextInk(font, lines, scale, padding) {
      var u, v := (p.x - padding) / scale, (p.y - padding) / scale;
      BitBoxIs(p, v / 9, u / 6, v % 9, u % 6, scale, padding);
      assert Lit(font, lines, v / 9, u / 6, v % 9, u % 6);
    }
    if l, k, row, col :| Lit(font, lines, l, k, row, col) && p in BitBox(l, k, row, col, scale, padding) {
      BitBoxIs(p, l, k, row, col, scale, padding);
      BitOfCell(9, (p.y - padding) / scale, l, row);
      BitOfCell(6, (p.x - padding) / scale, k, col);
    }
  }

  lemma BitOfCell(n: int, u: int, k: int, col: int)
    requires n > 0 && 0 <= col < n && u == n * k + col
    ensures u / n == k && u % n == col
  {
    QuotientIs(u, n, k);
  }

  lemma InCell(p: Pixel, scale: nat, padding: nat, l: int, k: int)
    requires p in Box(CellX(k, scale, padding), CellY(l, scale, padding), 6 * scale, 9 * scale)
    ensures scale > 0 && (p.x - padding) / (6 * scale) == k && (p.y - padding) / (9 * scale) == l
  {
    var width, height := 6 * scale, 9 * scale;
    assert k * 6 * scale == k * width && l * 9 * scale == l * height;
    QuotientIs(p.x - padding, width, k);
    QuotientIs(p.y - padding, height, l);
  }

  /** The cells of two characters share no pixel. */
  lemma CellsApart(p: Pixel, scale: nat, padding: nat, l: int, k: int, l': int, k': int)
    requires p in Box(CellX(k, scale, padding), CellY(l, scale, padding), 6 * scale, 9 * scale)
    requires p in Box(CellX(k', scale, padding), CellY(l', scale, padding), 6 * scale, 9 * scale)
    ensures l == l' && k == k'
  {
    hide *;
    InCell(p, scale, padding, l, k);
    InCell(p, scale, padding, l', k');
  }
}
