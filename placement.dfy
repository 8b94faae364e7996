/**
 * Where `onDraw` puts each glyph: lines are stacked at a fixed pitch, a
 * line that is not the last of its paragraph is spread over the whole
 * width by an equal extra interval between glyphs, and the last line of a
 * paragraph keeps its natural spacing and is placed left, centred or right.
 */
module Placement {
  import opened Strings

  /** How the last line of a paragraph is placed. */
  datatype Align = AlignLeft | AlignCenter | AlignRight

  /** The `align` attribute's integer value: 1 is centre, 2 is right, any other value left. */
  function AlignFromStyle(style: int): (a: Align)
    ensures a == AlignCenter <==> style == 1
    ensures a == AlignRight <==> style == 2
    ensures a == AlignLeft <==> style != 1 && style != 2
  {
    if style == 1 then AlignCenter else if style == 2 then AlignRight else AlignLeft
  }

  /** A float coordinate: a finite value, or the infinity or NaN a float division by zero yields. */
  datatype Coord = Finite(value: real) | NonFinite

  /**
   * The extra space between two glyphs of a line: none on the last line
   * of a paragraph; otherwise the free space shared over the `length - 1`
   * gaps, which is not finite when the line has a single glyph.
   */
  function Interval(gap: real, length: int, tail: bool): (iv: Coord)
    ensures tail ==> iv == Finite(0.0)
    ensures !tail && length != 1 ==> iv.Finite? && iv.value * (length - 1) as real == gap
    ensures !tail && length == 1 ==> iv == NonFinite
  {
    if tail then Finite(0.0)
    else if length == 1 then NonFinite
    else Finite(gap / (length - 1) as real)
  }

  /** How far the last line of a paragraph is shifted right of the left padding. */
  function StartOffset(align: Align, gap: real, tail: bool): (o: real)
    ensures !tail || align == AlignLeft ==> o == 0.0
    ensures tail && align == AlignRight ==> gap - o == 0.0
    ensures tail && align == AlignCenter ==> o == gap - o
  {
    if !tail then 0.0
    else match align
      case AlignLeft => 0.0
      case AlignCenter => gap / 2.0
      case AlignRight => gap
  }

  /** The font metrics `onDraw` reads. */
  datatype FontMetrics = FontMetrics(top: real, ascent: real, descent: real, bottom: real)

  /** The glyph height `onDraw` starts from: the text size less the font's extra leading. */
  function FirstHeight(textSize: real, fm: FontMetrics): real
  {
    textSize - (fm.bottom - fm.descent + fm.ascent - fm.top)
  }

  /**
   * The baseline of the first line below the top padding: with bit 0x1000
   * of the gravity clear it is moved half way towards the line height,
   * otherwise it is the glyph height itself.
   */
  function Baseline(textSize: real, fm: FontMetrics, textHeight: real, gravity: bv32): (b: real)
    ensures gravity & 0x1000 == 0 ==> b - FirstHeight(textSize, fm) == textHeight - b
    ensures gravity & 0x1000 != 0 ==> b == FirstHeight(textSize, fm)
  {
    var first := FirstHeight(textSize, fm);
    if gravity & 0x1000 == 0 then first + (textHeight - first) / 2.0 else first
  }

  /**
   * What `onDraw` draws with: the width left between the paddings, the
   * left and top paddings, the first baseline, the line height, the extra
   * line spacing and the tail alignment.
   */
  datatype Geometry = Geometry(width: int, paddingLeft: int, paddingTop: int, baseline: real,
                               textHeight: real, lineSpaceExtra: real, align: Align)

  /** The baseline of line `i`: lines are stacked at a pitch of the line height plus the extra spacing. */
  function LineY(g: Geometry, i: nat): (y: real)
    ensures y - (g.baseline + g.paddingTop as real) == i as real * (g.textHeight + g.lineSpaceExtra)
  {
    i as real * g.textHeight + g.baseline + g.paddingTop as real + g.lineSpaceExtra * i as real
  }

  /** The x coordinate of glyph `j` of `line`: its natural offset, `j` intervals, and the line's start. */
  function GlyphX(measure: Measure, g: Geometry, line: string, j: nat, tail: bool): Coord
    requires j <= |line|
  {
    var gap := g.width as real - MeasureText(measure, line);
    match Interval(gap, |line|, tail)
    case NonFinite => NonFinite
    case Finite(iv) =>
      Finite(MeasureText(measure, line[..j]) + iv * j as real + g.paddingLeft as real + StartOffset(g.align, gap, tail))
  }

  /** One `drawText` call: one character at one position. */
  datatype DrawCall = DrawCall(glyph: char, x: Coord, y: real)

  /** The calls that draw line `i`, one per character, left to right: they draw exactly the line. */
  function LineDraws(measure: Measure, g: Geometry, line: string, i: nat, tail: bool): (r: seq<DrawCall>)
    ensures Glyphs(r) == line
  {
    seq(|line|, j requires 0 <= j < |line| => DrawCall(line[j], GlyphX(measure, g, line, j, tail), LineY(g, i)))
  }

  /** All calls `onDraw` makes for the first `n` lines, line by line. */
  function Render(measure: Measure, g: Geometry, lines: seq<string>, tails: seq<int>, n: nat): seq<DrawCall>
    requires n <= |lines|
  {
    if n == 0 then []
    else Render(measure, g, lines, tails, n - 1) + LineDraws(measure, g, lines[n - 1], n - 1, n - 1 in tails)
  }

  /** The characters drawn, in call order. */
  function Glyphs(calls: seq<DrawCall>): (r: string)
    ensures |r| == |calls|
  {
    seq(|calls|, k requires 0 <= k < |calls| => calls[k].glyph)
  }

  /** Drawing loses and adds nothing: the characters drawn, in order, are exactly the lines' characters. */
  lemma {:induction false} RenderGlyphs(measure: Measure, g: Geometry, lines: seq<string>, tails: seq<int>, n: nat)
    requires n <= |lines|
    ensures Glyphs(Render(measure, g, lines, tails, n)) == Concat(lines[..n])
  {
    if n > 0 {
      RenderGlyphs(measure, g, lines, tails, n - 1);
      var before := Render(measure, g, lines, tails, n - 1);
      var line := LineDraws(measure, g, lines[n - 1], n - 1, n - 1 in tails);
      assert Glyphs(before + line) == Glyphs(before) + Glyphs(line);
      assert lines[..n] == lines[..n - 1] + [lines[n - 1]];
      ConcatAppend(lines[..n - 1], [lines[n - 1]]);
      ConcatOne(lines[n - 1]);
    }
  }

  /**
   * Character `j` of line `i` is drawn by the call at its position in the
   * concatenated text, on the baseline of line `i`, at its line's x coordinate.
   */
  lemma {:induction false} RenderAt(measure: Measure, g: Geometry, lines: seq<string>, tails: seq<int>,
                                    n: nat, i: nat, j: nat)
    requires i < n <= |lines| && j < |lines[i]|
    ensures var k := |Concat(lines[..i])| + j;
      k < |Render(measure, g, lines, tails, n)| &&
      Render(measure, g, lines, tails, n)[k] ==
        DrawCall(lines[i][j], GlyphX(measure, g, lines[i], j, i in tails), LineY(g, i))
  {
    var before := Render(measure, g, lines, tails, n - 1);
    RenderGlyphs(measure, g, lines, tails, n - 1);
    if i < n - 1 {
      RenderAt(measure, g, lines, tails, n - 1, i, j);
    } else {
      assert |before| == |Concat(lines[..i])|;
    }
  }

  /**
   * A line that is not the last of its paragraph and has two or more
   * glyphs fills the width: its first glyph starts at the left padding and,
   * when the last glyph's width is what it adds to the line, that glyph
   * ends exactly at the right edge of the text area.
   */
  lemma JustifiedLineFlush(measure: Measure, g: Geometry, line: string)
    requires |line| >= 2
    ensures GlyphX(measure, g, line, 0, false) == Finite(g.paddingLeft as real + MeasureText(measure, ""))
    ensures MeasureText(measure, line[..|line| - 1]) + MeasureText(measure, line[|line| - 1..]) == MeasureText(measure, line) ==>
      GlyphX(measure, g, line, |line| - 1, false).Finite? &&
      GlyphX(measure, g, line, |line| - 1, false).value + MeasureText(measure, line[|line| - 1..]) ==
        g.paddingLeft as real + g.width as real
  {
    assert line[..0] == "";
  }

  /**
   * The glyphs of such a line are spread evenly: between each glyph and the
   * next there is the glyph's natural advance plus the same interval,
   * the free width shared over the gaps.
   */
  lemma JustifiedEvenSpacing(measure: Measure, g: Geometry, line: string, j: nat)
    requires |line| >= 2 && j + 1 < |line|
    ensures GlyphX(measure, g, line, j, false).Finite? && GlyphX(measure, g, line, j + 1, false).Finite?
    ensures (GlyphX(measure, g, line, j + 1, false).value - GlyphX(measure, g, line, j, false).value
             - (MeasureText(measure, line[..j + 1]) - MeasureText(measure, line[..j]))) * (|line| - 1) as real
            == g.width as real - MeasureText(measure, line)
  {
    var iv := (g.width as real - MeasureText(measure, line)) / (|line| - 1) as real;
    assert GlyphX(measure, g, line, j + 1, false).value - GlyphX(measure, g, line, j, false).value
           == MeasureText(measure, line[..j + 1]) - MeasureText(measure, line[..j]) + iv;
  }

  /**
   * The last line of a paragraph keeps its natural spacing and starts at a
   * margin `m` past the left padding: no margin when aligned left, centred
   * between the paddings, or ending at the right padding.
   */
  lemma TailLinePlacement(measure: Measure, g: Geometry, line: string, j: nat)
    requires j <= |line|
    ensures var m := GlyphX(measure, g, line, 0, true).value - g.paddingLeft as real - MeasureText(measure, "");
      GlyphX(measure, g, line, j, true) == Finite(g.paddingLeft as real + m + MeasureText(measure, line[..j])) &&
      (g.align == AlignLeft ==> m == 0.0) &&
      (g.align == AlignRight ==> m + MeasureText(measure, line) == g.width as real) &&
      (g.align == AlignCenter ==> m == g.width as real - MeasureText(measure, line) - m)
  {
    assert line[..0] == "";
  }

  /**
   * A line of one glyph that is not the last of its paragraph, such as the
   * newline line standing for an empty paragraph, is drawn at a coordinate
   * that is not finite: its interval divides by zero.
   */
  lemma SingleGlyphNotFinite(measure: Measure, g: Geometry, line: string)
    requires |line| == 1
    ensures GlyphX(measure, g, line, 0, false) == NonFinite
    ensures GlyphX(measure, g, line, 0, true).Finite?
  {
  }
}
