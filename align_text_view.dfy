/**
 * The view itself: a text view that breaks its text into lines once per
 * text, pads its bottom so that its height fits the line count it found,
 * and draws the lines justified, the last line of each paragraph aligned
 * left, centre or right.
 */
module View {
  import opened Strings
  import opened LineBreaker
  import opened HeightReconciler
  import opened Placement

  function Min(a: int, b: int): int
  {
    if a < b then a else b
  }

  class AlignTextView {
    /** The text, as `getText()` returns it. */
    var text: string
    /** The paddings the platform holds for the view. */
    var paddingLeft: int
    var paddingTop: int
    var paddingRight: int
    var paddingBottom: int

    var align: Align
    /** Whether the next layout pass must break the text again. */
    var firstCalc: bool
    /** The width the text is broken to (measured width), or drawn in (less the paddings). */
    var width: int
    var originalHeight: int
    var originalLineCount: int
    /** The bottom padding the view was given, before any adjustment of its own. */
    var originalPaddingBottom: int
    var textHeight: real
    var lineSpacingAdd: real
    var lineSpacingMultiplier: real
    var lines: seq<string>
    /** The index of the last line of each non-empty paragraph. */
    var tailLines: seq<int>
    var textLineSpaceExtra: real
    /** Whether the next `SetPadding` is the view's own adjustment. */
    var setPaddingFromMe: bool

    /**
     * Between calls the tail indices point into the lines in increasing
     * order, and no padding adjustment of the view's own is pending.
     */
    ghost predicate Valid()
      reads this
    {
      TailsWellFormed(lines, tailLines) && !setPaddingFromMe
    }

    /** The view created from code: the defaults for every field. */
    constructor (text0: string, left: int, top: int, right: int, bottom: int)
      ensures Valid()
      ensures text == text0 && paddingLeft == left && paddingTop == top
      ensures paddingRight == right && paddingBottom == bottom
      ensures align == AlignLeft && firstCalc && lines == [] && tailLines == []
      ensures originalPaddingBottom == 0 && lineSpacingAdd == 0.0 && lineSpacingMultiplier == 1.0
    {
      text, paddingLeft, paddingTop, paddingRight, paddingBottom := text0, left, top, right, bottom;
      align := AlignLeft;
      firstCalc := true;
      width, originalHeight, originalLineCount, originalPaddingBottom := 0, 0, 0, 0;
      textHeight, lineSpacingAdd, lineSpacingMultiplier := 0.0, 0.0, 1.0;
      lines, tailLines := [], [];
      textLineSpaceExtra := 0.0;
      setPaddingFromMe := false;
    }

    /**
     * The view inflated from a layout: the line spacing comes from the
     * attributes, the bottom padding given is remembered, and the `align`
     * attribute chooses the tail alignment.
     */
    constructor FromAttributes(text0: string, left: int, top: int, right: int, bottom: int,
                               spacingExtraPixels: int, spacingMultiplier: real, alignStyle: int)
      ensures Valid()
      ensures text == text0 && paddingLeft == left && paddingTop == top
      ensures paddingRight == right && paddingBottom == bottom
      ensures firstCalc && lines == [] && tailLines == []
      ensures lineSpacingAdd == spacingExtraPixels as real && lineSpacingMultiplier == spacingMultiplier
      ensures originalPaddingBottom == bottom
      ensures align == AlignFromStyle(alignStyle)
    {
      text, paddingLeft, paddingTop, paddingRight, paddingBottom := text0, left, top, right, bottom;
      firstCalc := true;
      width, originalHeight, originalLineCount := 0, 0, 0;
      textHeight := 0.0;
      lines, tailLines := [], [];
      textLineSpaceExtra := 0.0;
      setPaddingFromMe := false;
      lineSpacingAdd := spacingExtraPixels as real;
      lineSpacingMultiplier := spacingMultiplier;
      originalPaddingBottom := bottom;
      align := AlignFromStyle(alignStyle);
    }

    /**
     * Breaks one paragraph into lines (each an unmeasured run, then the
     * characters that still fit in `width`) and appends them, and, for a
     * non-empty paragraph, the index of its last line.
     */
    method Calc(measure: Measure, paragraph: string)
      requires width >= 0 && MeasureText(measure, ReferenceGlyph) > 0.0
      modifies this`lines, this`tailLines
      ensures lines == old(lines) + ParagraphLines(measure, width, IgnoreCalcLength(width, MeasureText(measure, ReferenceGlyph)), paragraph)
      ensures tailLines == old(tailLines) + (if paragraph == [] then [] else [|lines| - 1])
    {
      if |paragraph| == 0 {
        lines := lines + ["\n"];
        return;
      }
      BreakParagraph(measure, paragraph);
      tailLines := tailLines + [|lines| - 1];
    }

    /**
     * The loop of `calc` over a non-empty paragraph: the first
     * `ignoreCalcLength + 1` characters open a line unmeasured; each further
     * character either fits on the open line or closes it, and a closed
     * line is followed by a new one opened with `ignoreCalcLength`
     * characters unmeasured, or, when no more than that are left, by the
     * rest of the paragraph.
     */
    method BreakParagraph(measure: Measure, paragraph: string)
      requires width >= 0 && MeasureText(measure, ReferenceGlyph) > 0.0 && paragraph != []
      modifies this`lines
      ensures lines == old(lines) + ParagraphLines(measure, width, IgnoreCalcLength(width, MeasureText(measure, ReferenceGlyph)), paragraph)
    {
      var width := this.width;
      var startPosition := 0;
      var oneChineseWidth := MeasureText(measure, ReferenceGlyph);
      var ignoreCalcLength := IgnoreCalcLength(width, oneChineseWidth);
      var step := BreakSkip(ignoreCalcLength);
      ghost var target := lines + ParagraphLines(measure, width, ignoreCalcLength, paragraph);
      var sb := paragraph[..Min(ignoreCalcLength + 1, |paragraph|)];
      var i := ignoreCalcLength + 1;
      BreakingStart(measure, width, ignoreCalcLength, paragraph, lines);
      while i < |paragraph|
        invariant Breaking(measure, width, step, paragraph, startPosition, i, sb, lines, target)
        modifies this`lines
        decreases |paragraph| - i
      {
        if MeasureText(measure, paragraph[startPosition..i + 1]) > width as real {
          if |paragraph| - i > step {
            BreakingOverflow(measure, width, step, paragraph, startPosition, i, sb, lines, target);
          } else {
            BreakingLast(measure, width, step, paragraph, startPosition, i, sb, lines, target);
          }
          startPosition := i;
          lines := lines + [sb];
          sb := "";
          if |paragraph| - startPosition > step {
            sb := paragraph[startPosition..startPosition + step];
          } else {
            lines := lines + [paragraph[startPosition..]];
            break;
          }
          i := i + step - 1;
        } else {
          BreakingFit(measure, width, step, paragraph, startPosition, i, sb, lines, target);
          sb := sb + [paragraph[i]];
        }
        i := i + 1;
      }
      if |sb| > 0 {
        BreakingEnd(measure, width, step, paragraph, startPosition, i, sb, lines, target);
        lines := lines + [sb];
      }
      assert lines == target;
    }

    /**
     * The first layout pass after the text is set breaks every paragraph
     * into lines against the measured width, takes the line height from the
     * platform's own layout of the text (`refHeight` over `refLineCount`
     * lines, what `measureTextViewHeight` reports), and pads the bottom by
     * the height of the lines it has beyond that layout's. The padding is
     * worked out from the bottom padding the view was given, which this
     * adjustment does not overwrite. Later passes change nothing.
     */
    method OnLayout(measuredWidth: int, measure: Measure, refHeight: int, refLineCount: int)
      requires Valid()
      requires firstCalc ==> measuredWidth >= 0 && MeasureText(measure, ReferenceGlyph) > 0.0 && refLineCount > 0
      modifies this`width, this`lines, this`tailLines, this`firstCalc
      modifies this`originalHeight, this`originalLineCount, this`textHeight, this`textLineSpaceExtra
      modifies this`paddingLeft, this`paddingTop, this`paddingRight, this`paddingBottom
      modifies this`originalPaddingBottom, this`setPaddingFromMe
      ensures Valid() && !firstCalc
      ensures !old(firstCalc) ==> unchanged(this)
      ensures old(firstCalc) ==>
        var k := IgnoreCalcLength(measuredWidth, MeasureText(measure, ReferenceGlyph));
        width == measuredWidth &&
        lines == LayoutLines(measure, measuredWidth, k, Split(text)) &&
        tailLines == LayoutTails(measure, measuredWidth, k, Split(text)) &&
        originalHeight == refHeight && originalLineCount == refLineCount &&
        textHeight == LineHeight(refHeight, refLineCount) &&
        textLineSpaceExtra == LineSpaceExtra(textHeight, lineSpacingMultiplier, lineSpacingAdd) &&
        paddingBottom == AdjustedPaddingBottom(originalPaddingBottom, refHeight, refLineCount,
                                               lineSpacingMultiplier, lineSpacingAdd, |lines|)
      ensures old(firstCalc) ==>
        originalPaddingBottom == old(originalPaddingBottom) &&
        paddingLeft == old(paddingLeft) && paddingTop == old(paddingTop) && paddingRight == old(paddingRight)
    {
      if firstCalc {
        width := measuredWidth;
        LayOutLines(measure);
        LayoutTailsWellFormed(measure, width, IgnoreCalcLength(width, MeasureText(measure, ReferenceGlyph)), Split(text));
        ReconcileHeight(refHeight, refLineCount);
        firstCalc := false;
      }
    }

    /**
     * The height part of the first layout pass: the line height and extra
     * line spacing are derived from the reference layout, and the bottom
     * padding is set, through the view's own adjustment, to the padding it
     * was given plus the height gap of the current lines.
     */
    method ReconcileHeight(refHeight: int, refLineCount: int)
      requires refLineCount > 0 && !setPaddingFromMe
      modifies this`originalHeight, this`originalLineCount, this`textHeight, this`textLineSpaceExtra
      modifies this`paddingLeft, this`paddingTop, this`paddingRight, this`paddingBottom
      modifies this`originalPaddingBottom, this`setPaddingFromMe
      ensures originalHeight == refHeight && originalLineCount == refLineCount
      ensures textHeight == LineHeight(refHeight, refLineCount)
      ensures textLineSpaceExtra == LineSpaceExtra(textHeight, lineSpacingMultiplier, lineSpacingAdd)
      ensures paddingBottom == AdjustedPaddingBottom(originalPaddingBottom, refHeight, refLineCount,
                                                     lineSpacingMultiplier, lineSpacingAdd, |lines|)
      ensures paddingLeft == old(paddingLeft) && paddingTop == old(paddingTop) && paddingRight == old(paddingRight)
      ensures originalPaddingBottom == old(originalPaddingBottom) && !setPaddingFromMe
    {
      originalHeight, originalLineCount := refHeight, refLineCount;
      textHeight := LineHeight(originalHeight, originalLineCount);
      textLineSpaceExtra := LineSpaceExtra(textHeight, lineSpacingMultiplier, lineSpacingAdd);
      var heightGap := HeightGap(textLineSpaceExtra, textHeight, |lines|, originalLineCount);
      setPaddingFromMe := true;
      SetPadding(paddingLeft, paddingTop, paddingRight, originalPaddingBottom + heightGap);
    }

    /**
     * The breaking part of the first layout pass: the lines and tail indices
     * are cleared, then each paragraph of the text, in order, is broken by
     * `calc` against the current width.
     */
    method LayOutLines(measure: Measure)
      requires width >= 0 && MeasureText(measure, ReferenceGlyph) > 0.0
      modifies this`lines, this`tailLines
      ensures var k := IgnoreCalcLength(width, MeasureText(measure, ReferenceGlyph));
        lines == LayoutLines(measure, width, k, Split(text)) &&
        tailLines == LayoutTails(measure, width, k, Split(text))
    {
      var items := Split(text);
      ghost var k := IgnoreCalcLength(width, MeasureText(measure, ReferenceGlyph));
      lines := [];
      tailLines := [];
      for n := 0 to |items|
        invariant lines == LayoutLines(measure, width, k, items[..n])
        invariant tailLines == LayoutTails(measure, width, k, items[..n])
      {
        Calc(measure, items[n]);
        LayoutPrefixStep(measure, width, k, items, n);
      }
      assert items[..|items|] == items;
    }

    /**
     * Sets the paddings. A call from outside also records the bottom
     * padding as the one the view was given; the view's own adjustment
     * (flagged by `setPaddingFromMe`) does not, and clears the flag.
     */
    method SetPadding(left: int, top: int, right: int, bottom: int)
      modifies this`paddingLeft, this`paddingTop, this`paddingRight, this`paddingBottom
      modifies this`originalPaddingBottom, this`setPaddingFromMe
      ensures paddingLeft == left && paddingTop == top && paddingRight == right && paddingBottom == bottom
      ensures !setPaddingFromMe
      ensures originalPaddingBottom == if old(setPaddingFromMe) then old(originalPaddingBottom) else bottom
      ensures Valid() <==> TailsWellFormed(lines, tailLines)
    {
      if !setPaddingFromMe {
        originalPaddingBottom := bottom;
      }
      setPaddingFromMe := false;
      paddingLeft, paddingTop, paddingRight, paddingBottom := left, top, right, bottom;
    }

    /** Sets the text and asks the next layout pass to break it again. */
    method SetText(newText: string)
      modifies this`text, this`firstCalc
      ensures text == newText && firstCalc
      ensures Valid() <==> old(Valid())
    {
      firstCalc := true;
      text := newText;
    }

    /** Sets how the last line of each paragraph is placed. */
    method SetAlign(newAlign: Align)
      modifies this`align
      ensures align == newAlign
      ensures Valid() <==> old(Valid())
    {
      align := newAlign;
    }

    /**
     * Draws the lines: one call per character, in reading order, each line
     * on its own baseline, justified unless it ends a paragraph. The width
     * left between the paddings is kept in `width`.
     */
    method OnDraw(measure: Measure, measuredWidth: int, textSize: real, fm: FontMetrics, gravity: bv32)
      returns (calls: seq<DrawCall>)
      modifies this`width
      ensures width == measuredWidth - paddingLeft - paddingRight
      ensures calls == Render(measure, Geometry(width, paddingLeft, paddingTop, Baseline(textSize, fm, textHeight, gravity),
                                                textHeight, textLineSpaceExtra, align),
                              lines, tailLines, |lines|)
      ensures Glyphs(calls) == Concat(lines)
      ensures Valid() <==> old(Valid())
    {
      width := measuredWidth;
      var firstHeight := textSize - (fm.bottom - fm.descent + fm.ascent - fm.top);
      if gravity & 0x1000 == 0 {
        firstHeight := firstHeight + (textHeight - firstHeight) / 2.0;
      }
      width := width - paddingLeft - paddingRight;
      var g := Geometry(width, paddingLeft, paddingTop, firstHeight, textHeight, textLineSpaceExtra, align);
      calls := [];
      for i := 0 to |lines|
        invariant calls == Render(measure, g, lines, tailLines, i)
        modifies {}
      {
        var row := DrawLine(measure, g, lines[i], i, i in tailLines);
        calls := calls + row;
      }
      RenderGlyphs(measure, g, lines, tailLines, |lines|);
      assert lines[..|lines|] == lines;
    }
  }

  /**
   * The body of the line loop of `onDraw` for line `i`: its baseline, the
   * free width, the interval between glyphs (none on a tail line, which
   * instead starts left, centred or right), then one call per character.
   */
  method DrawLine(measure: Measure, g: Geometry, line: string, i: nat, tail: bool) returns (row: seq<DrawCall>)
    ensures row == LineDraws(measure, g, line, i, tail)
  {
    var drawY := i as real * g.textHeight + g.baseline;
    var drawSpacingX := g.paddingLeft as real;
    var gap := g.width as real - MeasureText(measure, line);
    var interval := if |line| == 1 then NonFinite else Finite(gap / (|line| - 1) as real);
    if tail {
      interval := Finite(0.0);
      if g.align == AlignCenter {
        drawSpacingX := drawSpacingX + gap / 2.0;
      } else if g.align == AlignRight {
        drawSpacingX := drawSpacingX + gap;
      }
    }
    assert interval == Interval(gap, |line|, tail);
    assert drawSpacingX == g.paddingLeft as real + StartOffset(g.align, gap, tail);
    assert drawY + g.paddingTop as real + g.lineSpaceExtra * i as real == LineY(g, i);
    ghost var spec := LineDraws(measure, g, line, i, tail);
    row := [];
    for j := 0 to |line|
      invariant row == spec[..j]
    {
      var x := if interval.NonFinite? then NonFinite
               else Finite(MeasureText(measure, line[..j]) + interval.value * j as real + drawSpacingX);
      assert x == GlyphX(measure, g, line, j, tail);
      row := row + [DrawCall(line[j], x, drawY + g.paddingTop as real + g.lineSpaceExtra * i as real)];
      assert spec[j] == DrawCall(line[j], x, LineY(g, i));
      assert spec[..j + 1] == spec[..j] + [spec[j]];
    }
    assert spec[..|line|] == spec;
  }
}
