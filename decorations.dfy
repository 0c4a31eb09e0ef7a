/**
 * The colour allocator and the numeric side of the decorations: which colour
 * a glyph gets, where it is drawn, the geometry of the corner box and the
 * RGB arithmetic of colour interpolation. The SVG text, its base64 encoding
 * and the font are not modelled; a decoration is described by the numbers
 * that go into it.
 */
module Decorations {
  import opened Wrappers

  // ---------------------------------------------------------------- palettes

  /**
   * A palette entry as the source writes it, `#` and six lower-case hex
   * digits, from the 24-bit value those digits spell.
   */
  function PaletteColor(v: nat): (c: string)
    ensures IsCanonicalColor(c)
  {
    "#" + ToHex(v, 6)
  }

  /** The cyclic palette for ordinary text: `#fda0a5`, `#ee8f8d`, ..., `#459373`. */
  const GradientCodes: seq<nat> := [
    0xfda0a5, 0xee8f8d, 0xff7269, 0xff6368, 0xfd5f55, 0xec2d33, 0xa61a1f, 0xf6f0d5,
    0xfee9c6, 0xfde486, 0xfff4b4, 0xfde4b3, 0xfdcf51, 0xfde700, 0xda9a81, 0xca8466,
    0xfd7957, 0xeb6b43, 0xca6430, 0xba5131, 0xa24e34, 0xf5a600, 0xfd9e57, 0xfda200,
    0xdb9720, 0xf2994b, 0xfa8f0b, 0xf28a3c, 0xd66b1b, 0x864b1c, 0xffd081, 0xd9b672,
    0xb88828, 0xa48447, 0xf4f8f9, 0xdcdcdc, 0xbcbcbc, 0xa6a6a6, 0xbfc7d5, 0x009cfd,
    0xd7f9fc, 0xb5e8f2, 0xb1fffd, 0xbafee2, 0x83e9f8, 0x5aabdc, 0x3cb4ff, 0x0081d3,
    0x899ad1, 0x718dbf, 0x5d5e8e, 0xd58ac0, 0xe074a2, 0xbeb0e1, 0xaa8ed4, 0x9879cb,
    0xae65ff, 0x935adc, 0x7d51ae, 0x796e9e, 0x634d84, 0x4e3381, 0xa0b29d, 0xa0c5c3,
    0x86a367, 0x64825c, 0x5e7977, 0x4f7869, 0x4f6367, 0x334461, 0x74cca8, 0x56a786,
    0x459373
  ]

  /** The palette that whitespace, control and shifted keys draw from at random: `#ff9690`, ..., `#847f66`. */
  const SpecialCodes: seq<nat> := [
    0xff9690, 0xc14139, 0x008be3, 0xea9600, 0xc88000, 0xfdfdfd, 0xf7f1e4, 0xb7a88a,
    0x847f66
  ]

  /** The gradient palette as strings, in order. */
  function GradientColors(): (cs: seq<string>)
    ensures |cs| == |GradientCodes| && forall c | c in cs :: IsCanonicalColor(c)
  {
    seq(|GradientCodes|, i requires 0 <= i < |GradientCodes| => PaletteColor(GradientCodes[i]))
  }

  /** The special palette as strings, in order. */
  function SpecialColors(): (cs: seq<string>)
    ensures |cs| == |SpecialCodes| && forall c | c in cs :: IsCanonicalColor(c)
  {
    seq(|SpecialCodes|, i requires 0 <= i < |SpecialCodes| => PaletteColor(SpecialCodes[i]))
  }

  /** The colour the gradient cursor yields at a given value of `colorIndex`. */
  function GradientColorAt(index: nat): (c: string)
    ensures c in GradientColors() && IsCanonicalColor(c)
    ensures c == GradientColors()[index % 73]
  {
    GradientColors()[index % |GradientCodes|]
  }

  /** The colours that `n` consecutive gradient allocations return, starting from cursor value `start`. */
  function GradientRun(start: nat, n: nat): (run: seq<string>)
    ensures |run| == n
  {
    seq(n, k requires 0 <= k < n => GradientColorAt(start + k))
  }

  /** 73 gradient and 9 special colours, each a colour the interpolation accepts. */
  lemma PaletteSizes()
    ensures |GradientColors()| == 73 && |SpecialColors()| == 9
  {
  }

  /** After a full cycle of 73 allocations the run of colours repeats identically. */
  lemma {:induction false} GradientRunRepeats(start: nat, n: nat)
    ensures GradientRun(start, 73 + n) == GradientRun(start, 73) + GradientRun(start, n)
    ensures GradientRun(start + 73, n) == GradientRun(start, n)
  {
    var long, first, again := GradientRun(start, 73 + n), GradientRun(start, 73), GradientRun(start, n);
    forall k | 0 <= k < 73 + n
      ensures long[k] == (first + again)[k]
    {
      if k >= 73 {
        ColorAtCycle(start + (k - 73));
      }
    }
    GradientRunShift(start, n);
  }

  lemma GradientRunShift(start: nat, n: nat)
    ensures GradientRun(start + 73, n) == GradientRun(start, n)
  {
    forall k | 0 <= k < n
      ensures GradientRun(start + 73, n)[k] == GradientRun(start, n)[k]
    {
      ColorAtCycle(start + k);
    }
  }

  /** The gradient cursor is read modulo the palette's 73 entries. */
  lemma ColorAtCycle(i: nat)
    ensures GradientColorAt(i + 73) == GradientColorAt(i)
  {
    assert (i + 73) % 73 == i % 73;
  }

  // ---------------------------------------------------------------- allocation

  /** The three shapes of drift a floating glyph can take. */
  datatype Direction = Left | Right | Middle

  /** Text that takes a colour from the special palette. */
  predicate IsSpecial(text: string) {
    || text == "SPACE" || text == "ENTER" || text == "TAB" || text == "BACKSPACE" || text == "DELETE"
    || "SHIFT+" <= text
  }

  /** A base colour counts only when present and non-empty (the source tests `!baseColor`). */
  predicate Truthy(baseColor: Option<string>) {
    baseColor.Some? && baseColor.value != ""
  }

  /** `getRandomSpecialColor`: some element of the special palette; the index is chosen nondeterministically. */
  method RandomSpecialColor() returns (c: string)
    ensures c in SpecialColors()
  {
    var k :| 0 <= k < |SpecialCodes|;
    c := SpecialColors()[k];
  }

  /** The process-wide gradient cursor `colorIndex`. */
  class ColorAllocator {
    var colorIndex: nat

    constructor ()
      ensures colorIndex == 0
    {
      colorIndex := 0;
    }

    /** `getNextGradientColor`: the colour at the cursor, then the cursor advances by exactly one. */
    method NextGradientColor() returns (c: string)
      modifies this
      ensures c == GradientColorAt(old(colorIndex))
      ensures colorIndex == old(colorIndex) + 1
    {
      c := GradientColors()[colorIndex % |GradientCodes|];
      colorIndex := colorIndex + 1;
    }

    /**
     * `pixelTextDecoration`: a glyph for `text`. Without a base colour the
     * colour is allocated, from the special palette for special text and
     * from the gradient otherwise; with one, the glyph takes it and the
     * cursor does not move.
     */
    method PixelTextDecoration(text: string, size: nat, offset: real, baseColor: Option<string>,
                               direction: Option<Direction>) returns (g: TextGlyph)
      modifies this
      ensures g.text == text && g.size == size && g.offset == offset && g.direction == direction
      ensures Truthy(baseColor) ==> g.color == baseColor.value && colorIndex == old(colorIndex)
      ensures !Truthy(baseColor) && IsSpecial(text) ==>
                g.color in SpecialColors() && colorIndex == old(colorIndex)
      ensures !Truthy(baseColor) && !IsSpecial(text) ==>
                g.color == GradientColorAt(old(colorIndex)) && colorIndex == old(colorIndex) + 1
      ensures !Truthy(baseColor) ==> IsCanonicalColor(g.color)
    {
      var color: string;
      if Truthy(baseColor) {
        color := baseColor.value;
      } else if IsSpecial(text) {
        color := RandomSpecialColor();
      } else {
        color := NextGradientColor();
      }
      g := TextGlyph(text, color, size, offset, direction);
    }
  }

  // ---------------------------------------------------------------- glyph placement

  /** The numbers of a floating text glyph: its canvas and its placement above the character. */
  datatype TextGlyph = TextGlyph(text: string, color: string, size: nat, offset: real, direction: Option<Direction>) {
    /** How far above the character the glyph is lifted. */
    function VerticalOffset(): real {
      size as real + 14.0 + offset
    }

    /** How far the glyph is moved sideways; an absent direction drifts like `Left`. */
    function HorizontalOffset(): real {
      if direction == Some(Middle) then -4.0
      else if direction == Some(Right) then offset * 0.5 - 4.0
      else -offset * 0.5 - 4.0
    }

    /** `0.7 * size` per UTF-16 code unit of the text, plus a margin of 16. */
    function CanvasWidth(): (w: real)
      ensures w >= 16.0
      ensures size > 0 ==> (w == 16.0 <==> text == [])
    {
      Utf16Length(text) as real * (size as real * 0.7) + 16.0
    }

    function CanvasHeight(): (h: real)
      ensures h >= 20.0
    {
      size as real + 20.0
    }
  }

  /** How many UTF-16 code units a character takes: two above the Basic Multilingual Plane. */
  function Utf16Units(c: char): (n: nat)
    ensures n == 1 || n == 2
    ensures n == 2 <==> c as int >= 0x1_0000
  {
    if c as int >= 0x1_0000 then 2 else 1
  }

  /** The length of a string as the editor's strings count it, in UTF-16 code units. */
  function Utf16Length(s: string): (n: nat)
    ensures |s| <= n <= 2 * |s|
    ensures n == 0 <==> s == []
  {
    if s == [] then 0 else Utf16Length(s[..|s| - 1]) + Utf16Units(s[|s| - 1])
  }

  /**
   * Every direction lifts the glyph by the same amount; middle does not drift,
   * and right and left drift by half the offset, mirror images about -4.
   */
  lemma DriftShape(text: string, color: string, size: nat, offset: real)
    ensures var m, r, l, u := TextGlyph(text, color, size, offset, Some(Middle)), TextGlyph(text, color, size, offset, Some(Right)),
                              TextGlyph(text, color, size, offset, Some(Left)), TextGlyph(text, color, size, offset, None);
      && m.VerticalOffset() == r.VerticalOffset() == l.VerticalOffset() == u.VerticalOffset() == size as real + 14.0 + offset
      && m.HorizontalOffset() == -4.0
      && r.HorizontalOffset() - -4.0 == offset / 2.0
      && l.HorizontalOffset() - -4.0 == -(offset / 2.0)
      && r.HorizontalOffset() + l.HorizontalOffset() == -8.0
      && u.HorizontalOffset() == l.HorizontalOffset()
  {
  }

  /** As the offset grows the glyph rises, right drifts further right and left further left. */
  lemma DriftMonotone(g: TextGlyph, offset2: real)
    requires g.offset <= offset2
    ensures var h := g.(offset := offset2);
      && g.VerticalOffset() <= h.VerticalOffset()
      && (g.direction == Some(Right) ==> g.HorizontalOffset() <= h.HorizontalOffset())
      && (g.direction != Some(Right) && g.direction != Some(Middle) ==> h.HorizontalOffset() <= g.HorizontalOffset())
      && (g.direction == Some(Middle) ==> h.HorizontalOffset() == g.HorizontalOffset())
  {
  }

  /**
   * The canvas is `0.7 * size` wider per UTF-16 code unit, so twice that for
   * a character beyond the Basic Multilingual Plane, and `size + 20` high
   * whatever the text.
   */
  lemma CanvasGrowsPerCharacter(g: TextGlyph, c: char)
    ensures g.(text := g.text + [c]).CanvasWidth() == g.CanvasWidth() + Utf16Units(c) as real * (g.size as real * 0.7)
    ensures c as int < 0x1_0000 ==> g.(text := g.text + [c]).CanvasWidth() == g.CanvasWidth() + g.size as real * 0.7
    ensures g.(text := g.text + [c]).CanvasHeight() == g.CanvasHeight() == g.size as real + 20.0
    ensures g.(text := []).CanvasWidth() == 16.0
  {
    assert (g.text + [c])[..|g.text|] == g.text;
    assert Utf16Length(g.text + [c]) == Utf16Length(g.text) + Utf16Units(c);
  }

  // ---------------------------------------------------------------- corner box

  /** The stroke width of the box corners. */
  const CornerThickness := 3

  function Max(a: real, b: real): real {
    if a < b then b else a
  }

  /** The numbers of the corner-box decoration at a given expansion. */
  datatype CornerBox = CornerBox(color: string, expansion: real) {
    function Width(): real { 14.0 + expansion * 1.5 }
    function Height(): real { 16.0 + expansion * 1.5 }
    /** The bracket arms lengthen with the box, from 4 at rest. */
    function CornerSize(): (c: real)
      ensures expansion >= 0.0 ==> c >= 4.0
      ensures c - 4.0 == expansion / 2.0
    {
      4.0 + expansion * 0.5
    }

    /** The brackets fade out linearly and are gone from expansion 15 on. */
    function Opacity(): (o: real)
      ensures 0.0 <= o && (expansion >= 0.0 ==> o <= 1.0)
      ensures o == 0.0 <==> expansion >= 15.0
    {
      Max(0.0, 1.0 - expansion / 15.0)
    }
    /** The draw origin is pulled back by half the growth on both axes. */
    function OriginX(): real { 0.0 - expansion * 1.5 / 2.0 }
    function OriginY(): real { 0.0 - expansion * 1.5 / 2.0 }
  }

  /** The stroke opacity stays in [0, 1], never increases with the expansion and is 0 from expansion 15 on. */
  lemma CornerOpacity(b: CornerBox, e2: real)
    requires 0.0 <= b.expansion <= e2
    ensures 0.0 <= b.Opacity() <= 1.0
    ensures b.(expansion := e2).Opacity() <= b.Opacity()
    ensures b.expansion >= 15.0 ==> b.Opacity() == 0.0
    ensures b.expansion < 15.0 ==> b.Opacity() == 1.0 - b.expansion / 15.0
  {
  }

  /** The box, 14 by 16 at rest, grows by 1.5 per unit of expansion outwards around a fixed centre, and its four brackets never overlap. */
  lemma CornerBoxCentred(b: CornerBox)
    requires 0.0 <= b.expansion
    ensures b.OriginX() + b.Width() / 2.0 == 7.0
    ensures b.OriginY() + b.Height() / 2.0 == 8.0
    ensures b.Width() - CornerBox(b.color, 0.0).Width() == 2.0 * -b.OriginX()
    ensures 2.0 * b.CornerSize() <= b.Width() <= b.Height() - 2.0
    ensures CornerBox(b.color, 0.0).Width() == 14.0 && CornerBox(b.color, 0.0).Height() == 16.0
    ensures b.Width() - CornerBox(b.color, 0.0).Width() == 1.5 * b.expansion
    ensures b.Height() == b.Width() + 2.0 && 2.0 * b.CornerSize() <= b.Height()
  {
  }

  // ---------------------------------------------------------------- hex colours

  predicate IsHexDigit(c: char) {
    ('0' <= c <= '9') || ('a' <= c <= 'f') || ('A' <= c <= 'F')
  }

  predicate IsLowerHexDigit(c: char) {
    ('0' <= c <= '9') || ('a' <= c <= 'f')
  }

  predicate AllHex(ds: string) {
    forall i :: 0 <= i < |ds| ==> IsHexDigit(ds[i])
  }

  predicate AllLowerHex(ds: string) {
    forall i :: 0 <= i < |ds| ==> IsLowerHexDigit(ds[i])
  }

  function DigitValue(c: char): (v: nat)
    requires IsHexDigit(c)
    ensures v < 16
  {
    if '0' <= c <= '9' then (c - '0') as nat
    else if 'a' <= c <= 'f' then (c - 'a') as nat + 10
    else (c - 'A') as nat + 10
  }

  /** The lower-case digit `toString(16)` writes for a value below 16. */
  function HexChar(v: nat): (c: char)
    requires v < 16
    ensures IsLowerHexDigit(c) && DigitValue(c) == v
  {
    if v < 10 then ('0' as int + v) as char else ('a' as int + v - 10) as char
  }

  lemma HexCharOfDigit(c: char)
    requires IsLowerHexDigit(c)
    ensures HexChar(DigitValue(c)) == c
  {
  }

  function Pow16(w: nat): (p: nat)
    ensures p >= 1
  {
    if w == 0 then 1 else 16 * Pow16(w - 1)
  }

  /** `parseInt(ds, 16)` for a string of hex digits. */
  function HexValue(ds: string): (n: nat)
    requires AllHex(ds)
    ensures n < Pow16(|ds|)
  {
    if ds == [] then 0 else HexValue(ds[..|ds| - 1]) * 16 + DigitValue(ds[|ds| - 1])
  }

  /** `n.toString(16).padStart(width, '0')` for a value that fits in `width` digits. */
  function ToHex(n: nat, width: nat): (s: string)
    ensures |s| == width && AllLowerHex(s)
  {
    if width == 0 then "" else ToHex(n / 16, width - 1) + [HexChar(n % 16)]
  }

  /** Printing a value in hex and parsing it back gives the value. */
  lemma {:induction false} HexRoundTrip(n: nat, width: nat)
    requires n < Pow16(width)
    ensures HexValue(ToHex(n, width)) == n
  {
    if width > 0 {
      HexRoundTrip(n / 16, width - 1);
      var s := ToHex(n, width);
      assert s[..|s| - 1] == ToHex(n / 16, width - 1);
    }
  }

  /** Parsing lower-case hex digits and printing them back gives the same digits. */
  lemma {:induction false} HexCanonical(ds: string)
    requires AllLowerHex(ds)
    ensures AllHex(ds) && ToHex(HexValue(ds), |ds|) == ds
  {
    if ds != [] {
      var init := ds[..|ds| - 1];
      HexCanonical(init);
      var v := HexValue(ds);
      assert v / 16 == HexValue(init) && v % 16 == DigitValue(ds[|ds| - 1]);
      HexCharOfDigit(ds[|ds| - 1]);
      assert ds == init + [ds[|ds| - 1]];
    }
  }

  /** A colour the interpolation accepts: `#` and six hex digits. */
  predicate IsHexColor(c: string) {
    |c| == 7 && c[0] == '#' && AllHex(c[1..])
  }

  /** A colour written as the interpolation writes its result: `#` and six lower-case hex digits. */
  predicate IsCanonicalColor(c: string) {
    |c| == 7 && c[0] == '#' && AllLowerHex(c[1..])
  }

  /** `parseInt(color.slice(1), 16)`. */
  function ColorValue(c: string): (v: nat)
    requires IsHexColor(c)
    ensures v < 0x100_0000
  {
    assert Pow16(6) == 0x100_0000;
    HexValue(c[1..])
  }

  /** `(v >> 16) & 0xff`, `(v >> 8) & 0xff` and `v & 0xff` for a non-negative 24-bit value. */
  function Red(v: nat): nat { v / 0x1_0000 % 0x100 }
  function Green(v: nat): nat { v / 0x100 % 0x100 }
  function Blue(v: nat): nat { v % 0x100 }

  predicate IsByte(x: int) { 0 <= x < 0x100 }

  /** `(r << 16) | (g << 8) | b`; for bytes the three fields do not overlap, so the OR is a sum. */
  function Pack(r: int, g: int, b: int): (v: int)
    ensures IsByte(r) && IsByte(g) && IsByte(b) ==> 0 <= v < 0x100_0000
  {
    r * 0x1_0000 + g * 0x100 + b
  }

  /** Unpacking three channels and packing them again gives the colour value back, and the other way round. */
  lemma PackUnpack(v: nat, r: int, g: int, b: int)
    requires v < 0x100_0000 && IsByte(r) && IsByte(g) && IsByte(b)
    ensures Pack(Red(v), Green(v), Blue(v)) == v
    ensures 0 <= Pack(r, g, b) < 0x100_0000
    ensures Red(Pack(r, g, b)) == r && Green(Pack(r, g, b)) == g && Blue(Pack(r, g, b)) == b
  {
    ChannelsPack(v);
    PackChannels(r, g, b);
  }

  lemma ChannelsPack(v: nat)
    requires v < 0x100_0000
    ensures Pack(Red(v), Green(v), Blue(v)) == v
  {
    var q, rest := v / 0x1_0000, v % 0x1_0000;
    assert v == q * 0x1_0000 + rest;
    assert q < 0x100;
    assert Red(v) == q;
    var hi, lo := rest / 0x100, rest % 0x100;
    assert rest == hi * 0x100 + lo && hi < 0x100;
    assert v == (q * 0x100 + hi) * 0x100 + lo;
    assert v / 0x100 == q * 0x100 + hi;
    assert Green(v) == hi;
    assert Blue(v) == lo;
  }

  lemma PackChannels(r: int, g: int, b: int)
    requires IsByte(r) && IsByte(g) && IsByte(b)
    ensures 0 <= Pack(r, g, b) < 0x100_0000
    ensures Red(Pack(r, g, b)) == r && Green(Pack(r, g, b)) == g && Blue(Pack(r, g, b)) == b
  {
    var v := Pack(r, g, b);
    assert 0 <= g * 0x100 + b < 0x1_0000;
    assert v / 0x1_0000 == r;
    assert v == (r * 0x100 + g) * 0x100 + b;
    assert v / 0x100 == r * 0x100 + g;
    assert (r * 0x100 + g) % 0x100 == g;
  }

  /** `Math.round`: the nearest integer, halves rounded up. */
  function Round(x: real): (n: int)
    ensures x - 0.5 < n as real <= x + 0.5
  {
    (x + 0.5).Floor
  }

  /** One interpolated channel: the nearest integer to the point `factor` of the way from `a` to `b`. */
  function Lerp(a: int, b: int, factor: real): (c: int)
    ensures var exact := a as real + (b - a) as real * factor;
      exact - 0.5 < c as real <= exact + 0.5
  {
    Round(a as real + (b - a) as real * factor)
  }

  /** For a factor in [0, 1] the channel lies between the two input channels; 0 and 1 give the ends. */
  lemma LerpBetween(a: int, b: int, factor: real)
    requires 0.0 <= factor <= 1.0
    ensures a <= b ==> a <= Lerp(a, b, factor) <= b
    ensures b <= a ==> b <= Lerp(a, b, factor) <= a
    ensures Lerp(a, b, 0.0) == a && Lerp(a, b, 1.0) == b && Lerp(a, a, factor) == a
  {
    var d := (b - a) as real;
    if a <= b {
      ScaledBetween(d, factor);
      RoundBetween(a, b, a as real + d * factor);
    } else {
      ScaledBetween(-d, factor);
      assert -d * factor == -(d * factor);
      RoundBetween(b, a, a as real + d * factor);
    }
    assert (a as real + d * 1.0) == b as real;
    assert (a as real + (a - a) as real * factor) == a as real;
  }

  lemma ScaledBetween(d: real, factor: real)
    requires 0.0 <= d && 0.0 <= factor <= 1.0
    ensures 0.0 <= d * factor <= d
  {
    assert d - d * factor == d * (1.0 - factor);
  }

  lemma RoundBetween(lo: int, hi: int, x: real)
    requires lo as real <= x <= hi as real
    ensures lo <= Round(x) <= hi
  {
  }

  /** `interpolateColor` for factors in [0, 1]: per-channel interpolation, repacked and printed as six hex digits. */
  function InterpolateColor(color1: string, color2: string, factor: real): (c: string)
    requires IsHexColor(color1) && IsHexColor(color2)
    requires 0.0 <= factor <= 1.0
    ensures IsCanonicalColor(c)
  {
    var v1, v2 := ColorValue(color1), ColorValue(color2);
    var r, g, b := Lerp(Red(v1), Red(v2), factor), Lerp(Green(v1), Green(v2), factor), Lerp(Blue(v1), Blue(v2), factor);
    LerpBetween(Red(v1), Red(v2), factor);
    LerpBetween(Green(v1), Green(v2), factor);
    LerpBetween(Blue(v1), Blue(v2), factor);
    PackUnpack(v1, r, g, b);
    "#" + ToHex(Pack(r, g, b), 6)
  }

  /** The RGB channels of the value an interpolated colour parses to. */
  lemma {:induction false} InterpolatedChannels(color1: string, color2: string, factor: real)
    requires IsHexColor(color1) && IsHexColor(color2) && 0.0 <= factor <= 1.0
    ensures var c := InterpolateColor(color1, color2, factor);
      var v, v1, v2 := ColorValue(c), ColorValue(color1), ColorValue(color2);
      && Red(v) == Lerp(Red(v1), Red(v2), factor)
      && Green(v) == Lerp(Green(v1), Green(v2), factor)
      && Blue(v) == Lerp(Blue(v1), Blue(v2), factor)
  {
    var v1, v2 := ColorValue(color1), ColorValue(color2);
    var r, g, b := Lerp(Red(v1), Red(v2), factor), Lerp(Green(v1), Green(v2), factor), Lerp(Blue(v1), Blue(v2), factor);
    LerpBetween(Red(v1), Red(v2), factor);
    LerpBetween(Green(v1), Green(v2), factor);
    LerpBetween(Blue(v1), Blue(v2), factor);
    PackUnpack(v1, r, g, b);
    assert Pow16(6) == 0x100_0000;
    HexRoundTrip(Pack(r, g, b), 6);
    var c := InterpolateColor(color1, color2, factor);
    assert c[1..] == ToHex(Pack(r, g, b), 6);
  }

  /** For a factor in [0, 1] every channel of the result lies between the channels of the two inputs. */
  lemma {:induction false} InterpolateBetween(color1: string, color2: string, factor: real)
    requires IsHexColor(color1) && IsHexColor(color2) && 0.0 <= factor <= 1.0
    ensures var v, v1, v2 := ColorValue(InterpolateColor(color1, color2, factor)), ColorValue(color1), ColorValue(color2);
      && Between(Red(v), Red(v1), Red(v2))
      && Between(Green(v), Green(v1), Green(v2))
      && Between(Blue(v), Blue(v1), Blue(v2))
  {
    var v1, v2 := ColorValue(color1), ColorValue(color2);
    InterpolatedChannels(color1, color2, factor);
    LerpBetween(Red(v1), Red(v2), factor);
    LerpBetween(Green(v1), Green(v2), factor);
    LerpBetween(Blue(v1), Blue(v2), factor);
  }

  predicate Between(x: int, a: int, b: int) {
    (a <= x <= b) || (b <= x <= a)
  }

  /** A canonical colour is what printing its own value gives. */
  lemma CanonicalPrint(c: string)
    requires IsCanonicalColor(c)
    ensures IsHexColor(c) && "#" + ToHex(ColorValue(c), 6) == c
  {
    HexCanonical(c[1..]);
    assert c == "#" + c[1..];
  }

  /** Interpolating with channels that come out equal to those of a canonical colour prints that colour. */
  lemma {:induction false} InterpolateGives(color1: string, color2: string, factor: real, c: string)
    requires IsHexColor(color1) && IsHexColor(color2) && 0.0 <= factor <= 1.0 && IsCanonicalColor(c)
    requires var v, v1, v2 := ColorValue(c), ColorValue(color1), ColorValue(color2);
      && Lerp(Red(v1), Red(v2), factor) == Red(v)
      && Lerp(Green(v1), Green(v2), factor) == Green(v)
      && Lerp(Blue(v1), Blue(v2), factor) == Blue(v)
    ensures InterpolateColor(color1, color2, factor) == c
  {
    CanonicalPrint(c);
    PackUnpack(ColorValue(c), 0, 0, 0);
  }

  /** A colour printed the way the interpolation prints is reproduced by it: at factor 0 and at factor 1. */
  lemma {:induction false} InterpolateEnds(color1: string, color2: string)
    requires IsCanonicalColor(color1) && IsCanonicalColor(color2)
    ensures IsHexColor(color1) && IsHexColor(color2)
    ensures InterpolateColor(color1, color2, 0.0) == color1
    ensures InterpolateColor(color1, color2, 1.0) == color2
  {
    CanonicalPrint(color1);
    CanonicalPrint(color2);
    var v1, v2 := ColorValue(color1), ColorValue(color2);
    LerpBetween(Red(v1), Red(v2), 0.0);
    LerpBetween(Green(v1), Green(v2), 0.0);
    LerpBetween(Blue(v1), Blue(v2), 0.0);
    InterpolateGives(color1, color2, 0.0, color1);
    LerpBetween(Red(v1), Red(v2), 1.0);
    LerpBetween(Green(v1), Green(v2), 1.0);
    LerpBetween(Blue(v1), Blue(v2), 1.0);
    InterpolateGives(color1, color2, 1.0, color2);
  }

  /** Interpolating a canonical colour with itself gives it back, whatever the factor. */
  lemma {:induction false} InterpolateSame(c: string, factor: real)
    requires IsCanonicalColor(c) && 0.0 <= factor <= 1.0
    ensures IsHexColor(c) && InterpolateColor(c, c, factor) == c
  {
    CanonicalPrint(c);
    var v := ColorValue(c);
    LerpBetween(Red(v), Red(v), factor);
    LerpBetween(Green(v), Green(v), factor);
    LerpBetween(Blue(v), Blue(v), factor);
    InterpolateGives(c, c, factor, c);
  }
}
