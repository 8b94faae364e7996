/**
 * Height reconciliation of `onLayout`: the line height comes from the
 * platform's own layout of the same text, and the bottom padding grows or
 * shrinks by the height of the lines the custom layout has beyond (or short
 * of) the platform's line count.
 */
module HeightReconciler {

  /** Java's `(int)` cast of a float: truncation toward zero. */
  function Truncate(r: real): (n: int)
    ensures r >= 0.0 ==> 0 <= n && n as real <= r < n as real + 1.0
    ensures r < 0.0 ==> n <= 0 && n as real - 1.0 < r <= n as real
  {
    if r >= 0.0 then r.Floor else -((-r).Floor)
  }

  /** `textHeight`: the reference height shared out evenly over the reference lines. */
  function LineHeight(refHeight: int, refLineCount: int): (h: real)
    requires refLineCount > 0
    ensures h * refLineCount as real == refHeight as real
  {
    1.0 * refHeight as real / refLineCount as real
  }

  /**
   * `textLineSpaceExtra`: the space between lines beyond the line height,
   * so that one line plus its spacing is `textHeight * multiplier + add`.
   */
  function LineSpaceExtra(textHeight: real, multiplier: real, add: real): (e: real)
    ensures textHeight + e == textHeight * multiplier + add
  {
    textHeight * (multiplier - 1.0) + add
  }

  /**
   * `heightGap`: the height of the lines the custom layout has beyond the
   * reference count (negative when it has fewer), truncated to whole pixels.
   */
  function HeightGap(lineSpaceExtra: real, textHeight: real, lineCount: int, refLineCount: int): (gap: int)
    ensures lineCount == refLineCount ==> gap == 0
  {
    Truncate(LinesHeight(lineSpaceExtra + textHeight, lineCount - refLineCount))
  }

  /** The height of `count` lines at a pitch of `pitch` pixels. */
  function LinesHeight(pitch: real, count: int): real
  {
    pitch * count as real
  }

  /** The bottom padding `onLayout` sets: the padding the caller gave plus the height gap. */
  function AdjustedPaddingBottom(originalPaddingBottom: int, refHeight: int, refLineCount: int,
                                 multiplier: real, add: real, lineCount: int): (bottom: int)
    requires refLineCount > 0
    ensures lineCount == refLineCount ==> bottom == originalPaddingBottom
  {
    var textHeight := LineHeight(refHeight, refLineCount);
    originalPaddingBottom + HeightGap(LineSpaceExtra(textHeight, multiplier, add), textHeight, lineCount, refLineCount)
  }

  lemma TruncateMonotone(a: real, b: real)
    requires a <= b
    ensures Truncate(a) <= Truncate(b)
  {
    if a < 0.0 && b >= 0.0 {
    } else if a >= 0.0 {
      assert a.Floor <= b.Floor;
    } else {
      assert (-b).Floor <= (-a).Floor;
    }
  }

  lemma LinesHeightMonotone(p: real, c1: int, c2: int)
    requires p >= 0.0 && c1 <= c2
    ensures LinesHeight(p, c1) <= LinesHeight(p, c2)
  {
    assert LinesHeight(p, c2) - LinesHeight(p, c1) == p * (c2 - c1) as real;
  }

  /** Truncating a non-negative multiple keeps the order of the factors. */
  lemma TruncateScaledMonotone(p: real, d1: int, d2: int)
    requires p >= 0.0 && d1 <= d2
    ensures Truncate(LinesHeight(p, d1)) <= Truncate(LinesHeight(p, d2))
  {
    LinesHeightMonotone(p, d1, d2);
    TruncateMonotone(LinesHeight(p, d1), LinesHeight(p, d2));
  }

  /** ... and the sign of the count. */
  lemma TruncateScaledSign(p: real, d: int)
    requires p >= 0.0
    ensures d >= 0 ==> Truncate(LinesHeight(p, d)) >= 0
    ensures d <= 0 ==> Truncate(LinesHeight(p, d)) <= 0
  {
    assert LinesHeight(p, 0) == 0.0;
    if d >= 0 {
      LinesHeightMonotone(p, 0, d);
      TruncateMonotone(0.0, LinesHeight(p, d));
    } else {
      LinesHeightMonotone(p, d, 0);
      TruncateMonotone(LinesHeight(p, d), 0.0);
    }
  }

  /**
   * With a non-negative line pitch, more custom lines never give a smaller
   * padding: the gap grows with the line count, is at least 0 when the
   * custom layout has at least as many lines as the reference and at most 0
   * when it has at most as many.
   */
  lemma HeightGapMonotone(lineSpaceExtra: real, textHeight: real, c1: int, c2: int, refLineCount: int)
    requires lineSpaceExtra + textHeight >= 0.0 && c1 <= c2
    ensures HeightGap(lineSpaceExtra, textHeight, c1, refLineCount) <= HeightGap(lineSpaceExtra, textHeight, c2, refLineCount)
    ensures c1 >= refLineCount ==> HeightGap(lineSpaceExtra, textHeight, c1, refLineCount) >= 0
    ensures c2 <= refLineCount ==> HeightGap(lineSpaceExtra, textHeight, c2, refLineCount) <= 0
  {
    TruncateScaledMonotone(lineSpaceExtra + textHeight, c1 - refLineCount, c2 - refLineCount);
    TruncateScaledSign(lineSpaceExtra + textHeight, c1 - refLineCount);
    TruncateScaledSign(lineSpaceExtra + textHeight, c2 - refLineCount);
  }

  /**
   * The gap is the exact height of the extra lines with its fraction
   * dropped: never more than one pixel off, and never rounded away from 0.
   */
  lemma HeightGapTruncates(lineSpaceExtra: real, textHeight: real, lineCount: int, refLineCount: int)
    ensures var exact := (lineSpaceExtra + textHeight) * (lineCount - refLineCount) as real;
      var gap := HeightGap(lineSpaceExtra, textHeight, lineCount, refLineCount) as real;
      (exact >= 0.0 ==> 0.0 <= gap <= exact < gap + 1.0) &&
      (exact < 0.0 ==> gap - 1.0 < exact <= gap <= 0.0)
  {
  }
}
