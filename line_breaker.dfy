/**
 * The line breaker of AlignTextView: every paragraph is cut greedily into
 * lines against a pixel width, one character at a time, after a run of
 * characters that is taken without measuring.
 */
module LineBreaker {
  import opened Strings

  /** The glyph whose advance sets the length of the unmeasured run. */
  const ReferenceGlyph: string := "\U{4E2D}"

  /**
   * `ignoreCalcLength`: the number of reference glyphs that fit in `width`,
   * Java's `(int)` of the (non-negative) quotient.
   */
  function IgnoreCalcLength(width: int, refCharWidth: real): nat
    requires width >= 0 && refCharWidth > 0.0
  {
    var q := width as real / refCharWidth;
    assert q * refCharWidth == width as real;
    q.Floor
  }

  /** As many reference glyphs fit in `width` as `IgnoreCalcLength` says, and not one more. */
  lemma IgnoreCalcLengthBounds(width: int, refCharWidth: real)
    requires width >= 0 && refCharWidth > 0.0
    ensures IgnoreCalcLength(width, refCharWidth) as real * refCharWidth <= width as real
    ensures width as real < (IgnoreCalcLength(width, refCharWidth) + 1) as real * refCharWidth
  {
    var q := width as real / refCharWidth;
    assert q * refCharWidth == width as real;
    var k := q.Floor;
    assert k as real <= q < k as real + 1.0;
    assert (k + 1) as real == k as real + 1.0;
    MultiplyMonotone(k as real, q, refCharWidth);
    MultiplyStrict(q, (k + 1) as real, refCharWidth);
    assert width as real < (k + 1) as real * refCharWidth;
  }

  lemma MultiplyMonotone(a: real, b: real, c: real)
    requires a <= b && c > 0.0
    ensures a * c <= b * c
  {
  }

  lemma MultiplyStrict(a: real, b: real, c: real)
    requires a < b && c > 0.0
    ensures a * c < b * c
  {
  }

  /**
   * How many characters a line started after a break takes unmeasured. The
   * source takes `ignoreCalcLength` of them and cannot move on when that is
   * 0 (see `CalcLoopStalls`); here at least one is taken, which changes
   * nothing when `ignoreCalcLength >= 1`.
   */
  function BreakSkip(k: nat): (s: nat)
    ensures s >= 1 && (k >= 1 ==> s == k)
  {
    if k >= 1 then k else 1
  }

  /**
   * The lines that the loop of `calc` still appends from a state in which
   * the open line runs from `start` and the next index to look at is `i`
   * (the open line is `text[start..i]`, clipped to the paragraph).
   */
  function Scan(measure: Measure, width: int, step: nat, text: string, start: nat, i: nat): seq<string>
    requires 1 <= step && start < i && start < |text|
    decreases |text| - i
  {
    if i >= |text| then [text[start..]]
    else if MeasureText(measure, text[start..i + 1]) > width as real then
      if |text| - i > step then [text[start..i]] + Scan(measure, width, step, text, i, i + step)
      else [text[start..i], text[i..]]
    else Scan(measure, width, step, text, start, i + 1)
  }

  /** One step of the scan: a character that fits extends the open line. */
  lemma ScanFitStep(measure: Measure, width: int, step: nat, text: string, start: nat, i: nat)
    requires 1 <= step && start < i < |text|
    requires MeasureText(measure, text[start..i + 1]) <= width as real
    ensures Scan(measure, width, step, text, start, i) == Scan(measure, width, step, text, start, i + 1)
  {
  }

  /** A character that does not fit closes the open line; the next opens `step` characters on. */
  lemma ScanBreakStep(measure: Measure, width: int, step: nat, text: string, start: nat, i: nat)
    requires 1 <= step && start < i < |text|
    requires MeasureText(measure, text[start..i + 1]) > width as real && |text| - i > step
    ensures Scan(measure, width, step, text, start, i) ==
      [text[start..i]] + Scan(measure, width, step, text, i, i + step)
  {
  }

  /** ... or, when no more than `step` characters are left, the rest is the last line. */
  lemma ScanBreakLast(measure: Measure, width: int, step: nat, text: string, start: nat, i: nat)
    requires 1 <= step && start < i < |text|
    requires MeasureText(measure, text[start..i + 1]) > width as real && |text| - i <= step
    ensures Scan(measure, width, step, text, start, i) == [text[start..i], text[i..]]
  {
  }

  /** Past the end of the paragraph the open line is the last line. */
  lemma ScanEnd(measure: Measure, width: int, step: nat, text: string, start: nat, i: nat)
    requires 1 <= step && start < i && start < |text| <= i
    ensures Scan(measure, width, step, text, start, i) == [text[start..]]
  {
  }

  lemma SliceExtend(text: string, start: nat, i: nat)
    requires start <= i < |text|
    ensures text[start..i] + [text[i]] == text[start..i + 1]
  {
  }

  /**
   * The state of the loop of `calc` before its condition is evaluated: the
   * open line `sb` runs from `start` up to `i` (clipped to the paragraph),
   * and the lines appended so far followed by those the scan still appends
   * are the lines of the whole paragraph.
   */
  ghost predicate Breaking(measure: Measure, width: int, step: nat, text: string, start: nat, i: nat,
                           sb: string, done: seq<string>, target: seq<string>)
  {
    1 <= step && start < i && start < |text| &&
    sb == text[start..if i < |text| then i else |text|] &&
    done + Scan(measure, width, step, text, start, i) == target
  }

  /** Before the first test the open line holds the first `k + 1` characters, taken unmeasured. */
  lemma BreakingStart(measure: Measure, width: int, k: nat, text: string, done: seq<string>)
    requires text != []
    ensures Breaking(measure, width, BreakSkip(k), text, 0, k + 1, text[..if k + 1 < |text| then k + 1 else |text|],
                     done, done + ParagraphLines(measure, width, k, text))
  {
  }

  /** A character that fits joins the open line. */
  lemma BreakingFit(measure: Measure, width: int, step: nat, text: string, start: nat, i: nat,
                    sb: string, done: seq<string>, target: seq<string>)
    requires Breaking(measure, width, step, text, start, i, sb, done, target) && i < |text|
    requires MeasureText(measure, text[start..i + 1]) <= width as real
    ensures Breaking(measure, width, step, text, start, i + 1, sb + [text[i]], done, target)
  {
    ScanFitStep(measure, width, step, text, start, i);
    SliceExtend(text, start, i);
  }

  /** A character that does not fit closes the open line and opens the next with `step` characters. */
  lemma BreakingOverflow(measure: Measure, width: int, step: nat, text: string, start: nat, i: nat,
                         sb: string, done: seq<string>, target: seq<string>)
    requires Breaking(measure, width, step, text, start, i, sb, done, target) && i < |text|
    requires MeasureText(measure, text[start..i + 1]) > width as real && |text| - i > step
    ensures Breaking(measure, width, step, text, i, i + step, text[i..i + step], done + [sb], target)
  {
    ScanBreakStep(measure, width, step, text, start, i);
    assert done + ([text[start..i]] + Scan(measure, width, step, text, i, i + step)) ==
           (done + [sb]) + Scan(measure, width, step, text, i, i + step);
  }

  /** ... or, when no more than `step` characters are left, closes the paragraph with them. */
  lemma BreakingLast(measure: Measure, width: int, step: nat, text: string, start: nat, i: nat,
                     sb: string, done: seq<string>, target: seq<string>)
    requires Breaking(measure, width, step, text, start, i, sb, done, target) && i < |text|
    requires MeasureText(measure, text[start..i + 1]) > width as real && |text| - i <= step
    ensures done + [sb] + [text[i..]] == target
  {
    ScanBreakLast(measure, width, step, text, start, i);
    assert done + [text[start..i], text[i..]] == done + [sb] + [text[i..]];
  }

  /** Once every character is looked at, the open line is not empty and is the last one. */
  lemma BreakingEnd(measure: Measure, width: int, step: nat, text: string, start: nat, i: nat,
                    sb: string, done: seq<string>, target: seq<string>)
    requires Breaking(measure, width, step, text, start, i, sb, done, target) && i >= |text|
    ensures |sb| > 0 && done + [sb] == target
  {
    assert sb == text[start..];
    ScanEnd(measure, width, step, text, start, i);
  }

  /**
   * The lines `calc` appends for one paragraph: "\n" for an empty one;
   * otherwise the first `k + 1` characters open the first line unmeasured.
   */
  function ParagraphLines(measure: Measure, width: int, k: nat, text: string): seq<string>
  {
    if text == [] then ["\n"] else Scan(measure, width, BreakSkip(k), text, 0, k + 1)
  }

  /** The first line is a non-empty prefix of what is left, at least as long as the run taken unmeasured. */
  lemma {:induction false} ScanHead(measure: Measure, width: int, step: nat, text: string, start: nat, i: nat)
    requires 1 <= step && start < i && start < |text|
    ensures var r := Scan(measure, width, step, text, start, i);
      |r| >= 1 && 1 <= |r[0]| <= |text| - start && r[0] == text[start..start + |r[0]|] &&
      |r[0]| >= (if i <= |text| then i else |text|) - start
    decreases |text| - i
  {
    if i < |text| && MeasureText(measure, text[start..i + 1]) <= width as real {
      ScanHead(measure, width, step, text, start, i + 1);
    }
  }

  /** The lines of the scan, written one after another, are what is left of the paragraph. */
  lemma {:induction false} ScanConcat(measure: Measure, width: int, step: nat, text: string, start: nat, i: nat)
    requires 1 <= step && start < i && start < |text|
    ensures Concat(Scan(measure, width, step, text, start, i)) == text[start..]
    decreases |text| - i
  {
    if i >= |text| {
      ScanConcatEnd(measure, width, step, text, start, i);
    } else if MeasureText(measure, text[start..i + 1]) > width as real {
      if |text| - i > step {
        ScanConcat(measure, width, step, text, i, i + step);
        ScanConcatOverflow(measure, width, step, text, start, i);
      } else {
        ScanConcatLast(measure, width, step, text, start, i);
      }
    } else {
      ScanConcat(measure, width, step, text, start, i + 1);
      ScanConcatFit(measure, width, step, text, start, i);
    }
  }

  lemma ScanConcatEnd(measure: Measure, width: int, step: nat, text: string, start: nat, i: nat)
    requires 1 <= step && start < i && start < |text| <= i
    ensures Concat(Scan(measure, width, step, text, start, i)) == text[start..]
  {
    ScanEnd(measure, width, step, text, start, i);
    ConcatOne(text[start..]);
  }

  lemma ScanConcatFit(measure: Measure, width: int, step: nat, text: string, start: nat, i: nat)
    requires 1 <= step && start < i < |text|
    requires MeasureText(measure, text[start..i + 1]) <= width as real
    requires Concat(Scan(measure, width, step, text, start, i + 1)) == text[start..]
    ensures Concat(Scan(measure, width, step, text, start, i)) == text[start..]
  {
    ScanFitStep(measure, width, step, text, start, i);
  }

  lemma ScanConcatOverflow(measure: Measure, width: int, step: nat, text: string, start: nat, i: nat)
    requires 1 <= step && start < i < |text| && |text| - i > step
    requires MeasureText(measure, text[start..i + 1]) > width as real
    requires Concat(Scan(measure, width, step, text, i, i + step)) == text[i..]
    ensures Concat(Scan(measure, width, step, text, start, i)) == text[start..]
  {
    var rest := Scan(measure, width, step, text, i, i + step);
    var line := text[start..i];
    calc {
      Concat(Scan(measure, width, step, text, start, i));
      { ScanBreakStep(measure, width, step, text, start, i); }
      Concat([line] + rest);
      { ConcatAppend([line], rest); ConcatOne(line); }
      line + Concat(rest);
      line + text[i..];
      { assert text[start..] == line + text[i..]; }
      text[start..];
    }
  }

  lemma ScanConcatLast(measure: Measure, width: int, step: nat, text: string, start: nat, i: nat)
    requires 1 <= step && start < i < |text| && |text| - i <= step
    requires MeasureText(measure, text[start..i + 1]) > width as real
    ensures Concat(Scan(measure, width, step, text, start, i)) == text[start..]
  {
    ScanBreakLast(measure, width, step, text, start, i);
    assert [text[start..i], text[i..]] == [text[start..i]] + [text[i..]];
    ConcatAppend([text[start..i]], [text[i..]]);
    ConcatOne(text[start..i]);
    ConcatOne(text[i..]);
    assert text[start..] == text[start..i] + text[i..];
  }

  /** No line is empty, and every line between the first and the last is at least `step` long. */
  lemma {:induction false} ScanLengths(measure: Measure, width: int, step: nat, text: string, start: nat, i: nat)
    requires 1 <= step && start < i && start < |text|
    ensures var r := Scan(measure, width, step, text, start, i);
      AllNonEmpty(r) && forall q :: 0 < q < |r| - 1 ==> |r[q]| >= step
    decreases |text| - i
  {
    if i >= |text| {
      ScanEnd(measure, width, step, text, start, i);
    } else if MeasureText(measure, text[start..i + 1]) > width as real {
      if |text| - i > step {
        ScanLengths(measure, width, step, text, i, i + step);
        ScanLengthsOverflow(measure, width, step, text, start, i);
      } else {
        ScanBreakLast(measure, width, step, text, start, i);
      }
    } else {
      ScanLengths(measure, width, step, text, start, i + 1);
      ScanLengthsFit(measure, width, step, text, start, i);
    }
  }

  lemma ScanLengthsFit(measure: Measure, width: int, step: nat, text: string, start: nat, i: nat)
    requires 1 <= step && start < i < |text|
    requires MeasureText(measure, text[start..i + 1]) <= width as real
    requires var rest := Scan(measure, width, step, text, start, i + 1);
      AllNonEmpty(rest) && forall q :: 0 < q < |rest| - 1 ==> |rest[q]| >= step
    ensures var r := Scan(measure, width, step, text, start, i);
      AllNonEmpty(r) && forall q :: 0 < q < |r| - 1 ==> |r[q]| >= step
  {
    ScanFitStep(measure, width, step, text, start, i);
  }

  lemma ScanLengthsOverflow(measure: Measure, width: int, step: nat, text: string, start: nat, i: nat)
    requires 1 <= step && start < i < |text| && |text| - i > step
    requires MeasureText(measure, text[start..i + 1]) > width as real
    requires var rest := Scan(measure, width, step, text, i, i + step);
      AllNonEmpty(rest) && forall q :: 0 < q < |rest| - 1 ==> |rest[q]| >= step
    ensures var r := Scan(measure, width, step, text, start, i);
      AllNonEmpty(r) && forall q :: 0 < q < |r| - 1 ==> |r[q]| >= step
  {
    var rest := Scan(measure, width, step, text, i, i + step);
    ScanBreakStep(measure, width, step, text, start, i);
    ScanHead(measure, width, step, text, i, i + step);
    LengthsCons(text[start..i], rest, step);
  }

  lemma LengthsCons(line: string, rest: seq<string>, step: nat)
    requires |line| >= 1 && rest != [] && |rest[0]| >= step
    requires AllNonEmpty(rest) && forall q :: 0 < q < |rest| - 1 ==> |rest[q]| >= step
    ensures var r := [line] + rest;
      AllNonEmpty(r) && forall q :: 0 < q < |r| - 1 ==> |r[q]| >= step
  {
    var r := [line] + rest;
    assert forall q :: 0 < q < |r| ==> r[q] == rest[q - 1];
  }

  ghost predicate AllNonEmpty(lines: seq<string>)
  {
    forall q :: 0 <= q < |lines| ==> |lines[q]| >= 1
  }

  /** Every line after the first starts with the character that did not fit on the line before it. */
  ghost predicate ClosedOnOverflow(measure: Measure, width: int, lines: seq<string>)
  {
    forall q :: 0 < q < |lines| ==> OverflowsInto(measure, width, lines, q)
  }

  /** Line `q` is not empty, and line `q - 1` followed by its first character is wider than `width`. */
  ghost predicate OverflowsInto(measure: Measure, width: int, lines: seq<string>, q: nat)
    requires 0 < q < |lines|
  {
    |lines[q]| >= 1 && MeasureText(measure, lines[q - 1] + lines[q][..1]) > width as real
  }

  /**
   * A line longer than the run it took unmeasured (`first` characters for
   * the first line, `step` for the others) fits in `width`.
   */
  ghost predicate FitWhenMeasured(measure: Measure, width: int, lines: seq<string>, first: nat, step: nat)
  {
    forall q :: 0 <= q < |lines| && |lines[q]| > (if q == 0 then first else step) ==> MeasureText(measure, lines[q]) <= width as real
  }

  lemma ClosedOnOverflowCons(measure: Measure, width: int, line: string, rest: seq<string>)
    requires rest != [] && |rest[0]| >= 1 && ClosedOnOverflow(measure, width, rest)
    requires MeasureText(measure, line + rest[0][..1]) > width as real
    ensures ClosedOnOverflow(measure, width, [line] + rest)
  {
    var r := [line] + rest;
    forall q | 0 < q < |r|
      ensures OverflowsInto(measure, width, r, q)
    {
      if q > 1 {
        assert r[q - 1] == rest[q - 2] && r[q] == rest[q - 1];
        assert OverflowsInto(measure, width, rest, q - 1);
      }
    }
  }

  lemma {:induction false} ScanMaximal(measure: Measure, width: int, step: nat, text: string, start: nat, i: nat)
    requires 1 <= step && start < i && start < |text|
    ensures ClosedOnOverflow(measure, width, Scan(measure, width, step, text, start, i))
    decreases |text| - i
  {
    if i >= |text| {
      ScanEnd(measure, width, step, text, start, i);
    } else if MeasureText(measure, text[start..i + 1]) > width as real {
      if |text| - i > step {
        ScanMaximal(measure, width, step, text, i, i + step);
        ScanMaximalOverflow(measure, width, step, text, start, i);
      } else {
        ScanMaximalLast(measure, width, step, text, start, i);
      }
    } else {
      ScanMaximal(measure, width, step, text, start, i + 1);
      ScanMaximalFit(measure, width, step, text, start, i);
    }
  }

  lemma ScanMaximalFit(measure: Measure, width: int, step: nat, text: string, start: nat, i: nat)
    requires 1 <= step && start < i < |text|
    requires MeasureText(measure, text[start..i + 1]) <= width as real
    requires ClosedOnOverflow(measure, width, Scan(measure, width, step, text, start, i + 1))
    ensures ClosedOnOverflow(measure, width, Scan(measure, width, step, text, start, i))
  {
    ScanFitStep(measure, width, step, text, start, i);
  }

  lemma ScanMaximalOverflow(measure: Measure, width: int, step: nat, text: string, start: nat, i: nat)
    requires 1 <= step && start < i < |text| && |text| - i > step
    requires MeasureText(measure, text[start..i + 1]) > width as real
    requires ClosedOnOverflow(measure, width, Scan(measure, width, step, text, i, i + step))
    ensures ClosedOnOverflow(measure, width, Scan(measure, width, step, text, start, i))
  {
    var rest := Scan(measure, width, step, text, i, i + step);
    ScanBreakStep(measure, width, step, text, start, i);
    ScanHead(measure, width, step, text, i, i + step);
    ClosedAfterBreak(measure, width, text, start, i, rest);
  }

  /** The line closed at `i`, followed by lines the first of which starts at `i`, is closed on overflow. */
  lemma ClosedAfterBreak(measure: Measure, width: int, text: string, start: nat, i: nat, rest: seq<string>)
    requires start < i < |text| && rest != [] && 1 <= |rest[0]| <= |text| - i && rest[0] == text[i..i + |rest[0]|]
    requires MeasureText(measure, text[start..i + 1]) > width as real
    requires ClosedOnOverflow(measure, width, rest)
    ensures ClosedOnOverflow(measure, width, [text[start..i]] + rest)
  {
    assert rest[0][..1] == text[i..i + 1];
    assert text[start..i] + rest[0][..1] == text[start..i + 1];
    ClosedOnOverflowCons(measure, width, text[start..i], rest);
  }

  lemma ScanMaximalLast(measure: Measure, width: int, step: nat, text: string, start: nat, i: nat)
    requires 1 <= step && start < i < |text| && |text| - i <= step
    requires MeasureText(measure, text[start..i + 1]) > width as real
    ensures ClosedOnOverflow(measure, width, Scan(measure, width, step, text, start, i))
  {
    var r := [text[start..i], text[i..]];
    ScanBreakLast(measure, width, step, text, start, i);
    assert r[0] + r[1][..1] == text[start..i + 1];
  }

  lemma {:induction false} ScanFits(measure: Measure, width: int, step: nat, text: string, start: nat, i: nat)
    requires 1 <= step && start < i && start < |text|
    ensures FitWhenMeasured(measure, width, Scan(measure, width, step, text, start, i), i - start, step)
    decreases |text| - i
  {
    if i >= |text| {
      ScanEnd(measure, width, step, text, start, i);
    } else if MeasureText(measure, text[start..i + 1]) > width as real {
      if |text| - i > step {
        ScanFits(measure, width, step, text, i, i + step);
        ScanFitsOverflow(measure, width, step, text, start, i);
      } else {
        ScanFitsLast(measure, width, step, text, start, i);
      }
    } else {
      ScanFits(measure, width, step, text, start, i + 1);
      ScanFitsFit(measure, width, step, text, start, i);
    }
  }

  lemma ScanFitsOverflow(measure: Measure, width: int, step: nat, text: string, start: nat, i: nat)
    requires 1 <= step && start < i < |text| && |text| - i > step
    requires MeasureText(measure, text[start..i + 1]) > width as real
    requires FitWhenMeasured(measure, width, Scan(measure, width, step, text, i, i + step), step, step)
    ensures FitWhenMeasured(measure, width, Scan(measure, width, step, text, start, i), i - start, step)
  {
    var rest := Scan(measure, width, step, text, i, i + step);
    ScanBreakStep(measure, width, step, text, start, i);
    FitCons(measure, width, text[start..i], rest, step);
  }

  lemma ScanFitsLast(measure: Measure, width: int, step: nat, text: string, start: nat, i: nat)
    requires 1 <= step && start < i < |text| && |text| - i <= step
    requires MeasureText(measure, text[start..i + 1]) > width as real
    ensures FitWhenMeasured(measure, width, Scan(measure, width, step, text, start, i), i - start, step)
  {
    ScanBreakLast(measure, width, step, text, start, i);
    FitPair(measure, width, text[start..i], text[i..], step);
  }

  lemma ScanFitsFit(measure: Measure, width: int, step: nat, text: string, start: nat, i: nat)
    requires 1 <= step && start < i < |text|
    requires MeasureText(measure, text[start..i + 1]) <= width as real
    requires FitWhenMeasured(measure, width, Scan(measure, width, step, text, start, i + 1), i + 1 - start, step)
    ensures FitWhenMeasured(measure, width, Scan(measure, width, step, text, start, i), i - start, step)
  {
    var r := Scan(measure, width, step, text, start, i + 1);
    ScanFitStep(measure, width, step, text, start, i);
    ScanHead(measure, width, step, text, start, i + 1);
    assert |r[0]| == i + 1 - start ==> r[0] == text[start..i + 1];
    FitWiden(measure, width, r, i - start, step);
  }

  lemma FitWiden(measure: Measure, width: int, lines: seq<string>, first: nat, step: nat)
    requires FitWhenMeasured(measure, width, lines, first + 1, step)
    requires lines != [] && |lines[0]| == first + 1 ==> MeasureText(measure, lines[0]) <= width as real
    ensures FitWhenMeasured(measure, width, lines, first, step)
  {
  }

  lemma FitPair(measure: Measure, width: int, line: string, last: string, step: nat)
    requires |last| <= step
    ensures FitWhenMeasured(measure, width, [line, last], |line|, step)
  {
  }

  lemma FitCons(measure: Measure, width: int, line: string, rest: seq<string>, step: nat)
    requires FitWhenMeasured(measure, width, rest, step, step)
    ensures FitWhenMeasured(measure, width, [line] + rest, |line|, step)
  {
    var r := [line] + rest;
    assert forall q :: 0 < q < |r| ==> r[q] == rest[q - 1];
  }

  lemma {:induction false} ConcatLength(ls: seq<string>)
    requires AllNonEmpty(ls)
    ensures |Concat(ls)| >= |ls|
    ensures ls != [] ==> |Concat(ls)| >= |ls[0]| + |ls| - 1
  {
    if ls != [] {
      ConcatLength(ls[1..]);
    }
  }

  /**
   * The first line opens with `ignoreCalcLength + 1` characters taken
   * unmeasured, one more than the reference glyphs that fit: when those
   * characters measure at least as much as that many reference glyphs, the
   * first line starts with a run wider than `width`.
   */
  lemma FirstRunOverflows(measure: Measure, width: int, text: string)
    requires width >= 0 && MeasureText(measure, ReferenceGlyph) > 0.0
    requires var k := IgnoreCalcLength(width, MeasureText(measure, ReferenceGlyph));
      |text| >= k + 1 && MeasureText(measure, text[..k + 1]) >= (k + 1) as real * MeasureText(measure, ReferenceGlyph)
    ensures var k := IgnoreCalcLength(width, MeasureText(measure, ReferenceGlyph));
      var r := ParagraphLines(measure, width, k, text);
      r != [] && |r[0]| >= k + 1 && r[0][..k + 1] == text[..k + 1] && MeasureText(measure, r[0][..k + 1]) > width as real
  {
    var k := IgnoreCalcLength(width, MeasureText(measure, ReferenceGlyph));
    var r := ParagraphLines(measure, width, k, text);
    ScanHead(measure, width, BreakSkip(k), text, 0, k + 1);
    assert r[0][..k + 1] == text[..k + 1];
    IgnoreCalcLengthBounds(width, MeasureText(measure, ReferenceGlyph));
  }

  /**
   * A non-empty paragraph is cut into non-empty lines that, written one after
   * another, give back the paragraph; the first line holds at least the
   * `k + 1` characters taken unmeasured (or is the whole paragraph), every
   * other line but the last at least `BreakSkip(k)`.
   */
  lemma ParagraphLinesReconstruct(measure: Measure, width: int, k: nat, text: string)
    requires text != []
    ensures var r := ParagraphLines(measure, width, k, text);
      |r| >= 1 && Concat(r) == text && AllNonEmpty(r) &&
      (|r[0]| >= k + 1 || r == [text]) &&
      (forall q :: 0 < q < |r| - 1 ==> |r[q]| >= BreakSkip(k))
  {
    ScanHead(measure, width, BreakSkip(k), text, 0, k + 1);
    ScanConcat(measure, width, BreakSkip(k), text, 0, k + 1);
    ScanLengths(measure, width, BreakSkip(k), text, 0, k + 1);
    var r := ParagraphLines(measure, width, k, text);
    ConcatLength(r);
    if |r[0]| < k + 1 {
      assert |r| == 1;
      assert Concat(r) == r[0] + Concat([]);
    }
  }

  /**
   * Every line `calc` closes before the last one of a paragraph is maximal:
   * the line followed by the first character of the next line is wider than
   * `width`.
   */
  lemma ParagraphLinesMaximal(measure: Measure, width: int, k: nat, text: string)
    ensures ClosedOnOverflow(measure, width, ParagraphLines(measure, width, k, text))
  {
    if text != [] {
      ScanMaximal(measure, width, BreakSkip(k), text, 0, k + 1);
    }
  }

  /**
   * A line longer than the run its start took unmeasured (`k + 1` characters
   * for the first line, `BreakSkip(k)` for the others) was measured and fits
   * in `width`; only the unmeasured run itself can be wider.
   */
  lemma ParagraphLinesFit(measure: Measure, width: int, k: nat, text: string)
    ensures FitWhenMeasured(measure, width, ParagraphLines(measure, width, k, text), k + 1, BreakSkip(k))
  {
    if text != [] {
      ScanFits(measure, width, BreakSkip(k), text, 0, k + 1);
    }
  }

  lemma ParagraphLinesNonEmpty(measure: Measure, width: int, k: nat, text: string)
    ensures |ParagraphLines(measure, width, k, text)| >= 1
  {
    if text != [] {
      ScanHead(measure, width, BreakSkip(k), text, 0, k + 1);
    }
  }

  /** The lines `calc` appends for each paragraph. */
  function Breaks(measure: Measure, width: int, k: nat, paras: seq<string>): (r: seq<seq<string>>)
    ensures |r| == |paras|
  {
    seq(|paras|, q requires 0 <= q < |paras| => ParagraphLines(measure, width, k, paras[q]))
  }

  /** The lines of several paragraphs, one paragraph after another. */
  function Flatten(pls: seq<seq<string>>): seq<string>
  {
    if pls == [] then [] else Flatten(pls[..|pls| - 1]) + pls[|pls| - 1]
  }

  /** The index of the last line of each non-empty paragraph, given the lines of each paragraph. */
  function TailsOf(pls: seq<seq<string>>, paras: seq<string>): seq<int>
    requires |pls| == |paras|
  {
    if paras == [] then []
    else
      TailsOf(pls[..|pls| - 1], paras[..|paras| - 1]) +
      (if paras[|paras| - 1] == [] then [] else [|Flatten(pls)| - 1])
  }

  /** The lines of all paragraphs, in order, as the loop of `onLayout` appends them. */
  function LayoutLines(measure: Measure, width: int, k: nat, paras: seq<string>): seq<string>
  {
    Flatten(Breaks(measure, width, k, paras))
  }

  /** The tail index `calc` records after each non-empty paragraph: the index of its last line. */
  function LayoutTails(measure: Measure, width: int, k: nat, paras: seq<string>): seq<int>
  {
    TailsOf(Breaks(measure, width, k, paras), paras)
  }

  /** Laying out one more paragraph appends its lines and, unless it is empty, the index of its last line. */
  lemma LayoutAppend(measure: Measure, width: int, k: nat, paras: seq<string>, p: string)
    ensures LayoutLines(measure, width, k, paras + [p]) ==
            LayoutLines(measure, width, k, paras) + ParagraphLines(measure, width, k, p)
    ensures LayoutTails(measure, width, k, paras + [p]) ==
            LayoutTails(measure, width, k, paras) +
            (if p == [] then [] else [|LayoutLines(measure, width, k, paras + [p])| - 1])
  {
    var all := paras + [p];
    assert all[..|paras|] == paras;
    assert Breaks(measure, width, k, all)[..|paras|] == Breaks(measure, width, k, paras);
  }

  /** `LayoutAppend` for the paragraphs `paras[..n + 1]` of a list being laid out in order. */
  lemma LayoutPrefixStep(measure: Measure, width: int, k: nat, paras: seq<string>, n: nat)
    requires n < |paras|
    ensures LayoutLines(measure, width, k, paras[..n + 1]) ==
            LayoutLines(measure, width, k, paras[..n]) + ParagraphLines(measure, width, k, paras[n])
    ensures LayoutTails(measure, width, k, paras[..n + 1]) ==
            LayoutTails(measure, width, k, paras[..n]) +
            (if paras[n] == [] then [] else [|LayoutLines(measure, width, k, paras[..n + 1])| - 1])
  {
    assert paras[..n + 1] == paras[..n] + [paras[n]];
    LayoutAppend(measure, width, k, paras[..n], paras[n]);
  }

  function NonEmptyCount(paras: seq<string>): nat
  {
    if paras == [] then 0
    else NonEmptyCount(paras[..|paras| - 1]) + (if paras[|paras| - 1] == [] then 0 else 1)
  }

  ghost predicate StrictlyIncreasing(t: seq<int>)
  {
    forall a, b :: 0 <= a < b < |t| ==> t[a] < t[b]
  }

  /** Tail indices are strictly increasing indices of lines. */
  ghost predicate TailsWellFormed(lines: seq<string>, tails: seq<int>)
  {
    StrictlyIncreasing(tails) && forall a :: 0 <= a < |tails| ==> 0 <= tails[a] < |lines|
  }

  /** Well-formed tails stay well formed when lines are added. */
  lemma TailsWiden(lines0: seq<string>, tails: seq<int>, lines: seq<string>)
    requires TailsWellFormed(lines0, tails) && |lines| >= |lines0|
    ensures TailsWellFormed(lines, tails)
  {
  }

  /** ... and when the last of the added lines becomes a tail. */
  lemma TailsExtend(lines0: seq<string>, tails0: seq<int>, lines: seq<string>)
    requires TailsWellFormed(lines0, tails0) && |lines| > |lines0|
    ensures TailsWellFormed(lines, tails0 + [|lines| - 1])
  {
    var tails := tails0 + [|lines| - 1];
    forall a, b | 0 <= a < b < |tails|
      ensures tails[a] < tails[b]
    {
      assert tails[a] == tails0[a];
    }
  }

  /**
   * What the layout needs of the lines of each paragraph: at least one line;
   * the single "\n" line for an empty paragraph; lines that give back the
   * paragraph for any other.
   */
  ghost predicate WellBroken(pls: seq<seq<string>>, paras: seq<string>)
  {
    |pls| == |paras| &&
    forall q :: 0 <= q < |pls| ==>
      pls[q] != [] &&
      (paras[q] == [] ==> pls[q] == ["\n"]) &&
      (paras[q] != [] ==> Concat(pls[q]) == paras[q])
  }

  lemma BreaksWellBroken(measure: Measure, width: int, k: nat, paras: seq<string>)
    ensures WellBroken(Breaks(measure, width, k, paras), paras)
  {
    var pls := Breaks(measure, width, k, paras);
    forall q | 0 <= q < |paras|
      ensures pls[q] != [] && (paras[q] == [] ==> pls[q] == ["\n"]) && (paras[q] != [] ==> Concat(pls[q]) == paras[q])
    {
      ParagraphLinesNonEmpty(measure, width, k, paras[q]);
      if paras[q] != [] {
        ParagraphLinesReconstruct(measure, width, k, paras[q]);
      }
    }
  }

  /**
   * What the tail indices of the lines of `n` paragraphs, `count` of them
   * non-empty, satisfy; `lastTail` says the last paragraph is not empty.
   */
  ghost predicate TailsSummary(lines: seq<string>, tails: seq<int>, count: nat, n: nat, lastTail: bool)
  {
    TailsWellFormed(lines, tails) && |tails| == count && |lines| >= n &&
    (lastTail ==> |tails| >= 1 && tails[|tails| - 1] == |lines| - 1)
  }

  /** The summary survives one more paragraph of at least one line. */
  lemma TailsSummaryStep(lines0: seq<string>, tails0: seq<int>, count0: nat, n0: nat, last0: bool,
                         lines: seq<string>, tails: seq<int>, count: nat, n: nat, lastTail: bool)
    requires TailsSummary(lines0, tails0, count0, n0, last0) && |lines| > |lines0| && n == n0 + 1
    requires tails == tails0 + (if lastTail then [|lines| - 1] else [])
    requires count == count0 + (if lastTail then 1 else 0)
    ensures TailsSummary(lines, tails, count, n, lastTail)
  {
    if lastTail {
      TailsExtend(lines0, tails0, lines);
    } else {
      assert tails == tails0;
      TailsWiden(lines0, tails0, lines);
    }
  }

  lemma {:induction false} TailsOfWellFormed(pls: seq<seq<string>>, paras: seq<string>)
    requires |pls| == |paras| && forall q :: 0 <= q < |pls| ==> pls[q] != []
    ensures TailsSummary(Flatten(pls), TailsOf(pls, paras), NonEmptyCount(paras), |paras|,
                         paras != [] && paras[|paras| - 1] != [])
  {
    if paras != [] {
      var n := |paras|;
      var pinit, init := pls[..n - 1], paras[..n - 1];
      TailsOfWellFormed(pinit, init);
      TailsOfStep(pls, paras);
      TailsSummaryStep(Flatten(pinit), TailsOf(pinit, init), NonEmptyCount(init), |init|,
                       init != [] && init[|init| - 1] != [],
                       Flatten(pls), TailsOf(pls, paras), NonEmptyCount(paras), |paras|,
                       paras != [] && paras[|paras| - 1] != []);
    }
  }

  /** One more paragraph: its lines follow the others, and its tail index, if any, is the new last line. */
  lemma TailsOfStep(pls: seq<seq<string>>, paras: seq<string>)
    requires |pls| == |paras| && paras != [] && pls[|pls| - 1] != []
    ensures var n := |paras|;
      var lines0, lines := Flatten(pls[..n - 1]), Flatten(pls);
      lines == lines0 + pls[n - 1] && |lines| > |lines0| &&
      TailsOf(pls, paras) == TailsOf(pls[..n - 1], paras[..n - 1]) + (if paras[n - 1] == [] then [] else [|lines| - 1]) &&
      NonEmptyCount(paras) == NonEmptyCount(paras[..n - 1]) + (if paras[n - 1] == [] then 0 else 1)
  {
  }

  /**
   * Each non-empty paragraph records exactly one tail index and an empty one
   * none; the indices increase strictly and stay inside `lines`, and the
   * last line is a tail whenever the last paragraph is not empty.
   */
  lemma LayoutTailsWellFormed(measure: Measure, width: int, k: nat, paras: seq<string>)
    ensures var lines := LayoutLines(measure, width, k, paras);
      var tails := LayoutTails(measure, width, k, paras);
      TailsWellFormed(lines, tails) &&
      |tails| == NonEmptyCount(paras) && |lines| >= |paras| &&
      (paras != [] && paras[|paras| - 1] != [] ==> |tails| >= 1 && tails[|tails| - 1] == |lines| - 1)
  {
    BreaksWellBroken(measure, width, k, paras);
    TailsOfWellFormed(Breaks(measure, width, k, paras), paras);
  }

  /**
   * The text the first `n` lines of a layout stand for: the lines in order,
   * a newline after each tail line. The "\n" line of an empty paragraph
   * stands for itself.
   */
  function Rebuild(lines: seq<string>, tails: seq<int>, n: nat): string
    requires n <= |lines|
  {
    if n == 0 then [] else Rebuild(lines, tails, n - 1) + lines[n - 1] + (if n - 1 in tails then "\n" else "")
  }

  lemma {:induction false} RebuildFrame(lines: seq<string>, tails: seq<int>, lines0: seq<string>, tails0: seq<int>, n: nat)
    requires n <= |lines| && n <= |lines0| && lines[..n] == lines0[..n]
    requires forall j :: 0 <= j < n ==> (j in tails <==> j in tails0)
    ensures Rebuild(lines, tails, n) == Rebuild(lines0, tails0, n)
  {
    if n > 0 {
      assert lines[n - 1] == lines[..n][n - 1];
      assert lines[..n - 1] == lines[..n][..n - 1];
      assert lines0[..n - 1] == lines0[..n][..n - 1];
      RebuildFrame(lines, tails, lines0, tails0, n - 1);
    }
  }

  lemma {:induction false} RebuildSegment(lines: seq<string>, tails: seq<int>, base: nat, m: nat)
    requires base + m <= |lines|
    requires forall t :: t in tails ==> t < base || t >= base + m
    ensures Rebuild(lines, tails, base + m) == Rebuild(lines, tails, base) + Concat(lines[base..base + m])
  {
    if m > 0 {
      var j := base + m - 1;
      var r := Rebuild(lines, tails, base);
      calc {
        Rebuild(lines, tails, base + m);
        { assert j !in tails; RebuildNonTail(lines, tails, j); }
        Rebuild(lines, tails, j) + lines[j];
        { RebuildSegment(lines, tails, base, m - 1); }
        (r + Concat(lines[base..j])) + lines[j];
        { AppendAssoc(r, Concat(lines[base..j]), lines[j]); }
        r + (Concat(lines[base..j]) + lines[j]);
        { ConcatSliceStep(lines, base, j); }
        r + Concat(lines[base..base + m]);
      }
    }
  }

  /** The lines from `base` to `j` inclusive, written out: those before `j`, then line `j`. */
  lemma ConcatSliceStep(lines: seq<string>, base: nat, j: nat)
    requires base <= j < |lines|
    ensures Concat(lines[base..j + 1]) == Concat(lines[base..j]) + lines[j]
  {
    var seg := lines[base..j + 1];
    ConcatLast(seg);
    assert seg[..|seg| - 1] == lines[base..j];
  }

  /** A line that is not a tail adds just itself. */
  lemma RebuildNonTail(lines: seq<string>, tails: seq<int>, j: nat)
    requires j < |lines| && j !in tails
    ensures Rebuild(lines, tails, j + 1) == Rebuild(lines, tails, j) + lines[j]
  {
  }

  /** The lines of a layout followed by the non-tail lines `seg` stand for what the layout stands for followed by `seg`. */
  lemma RebuildAppendLines(lines0: seq<string>, tails0: seq<int>, seg: seq<string>, tails: seq<int>, last: int)
    requires forall t :: t in tails0 ==> 0 <= t < |lines0|
    requires tails == tails0 + [last] && last >= |lines0| + |seg|
    ensures |lines0 + seg| == |lines0| + |seg|
    ensures Rebuild(lines0 + seg, tails, |lines0| + |seg|) == Rebuild(lines0, tails0, |lines0|) + Concat(seg)
  {
    var lines := lines0 + seg;
    var n := |lines0|;
    calc {
      Rebuild(lines, tails, n + |seg|);
      { assert forall t :: t in tails ==> t < n || t >= n + |seg|;
        RebuildSegment(lines, tails, n, |seg|); }
      Rebuild(lines, tails, n) + Concat(lines[n..n + |seg|]);
      { assert lines[n..n + |seg|] == seg; }
      Rebuild(lines, tails, n) + Concat(seg);
      { assert lines[..n] == lines0[..n];
        assert forall j :: 0 <= j < n ==> (j in tails <==> j in tails0);
        RebuildFrame(lines, tails, lines0, tails0, n); }
      Rebuild(lines0, tails0, n) + Concat(seg);
    }
  }

  /** Appending the lines of a non-empty paragraph, the last one a tail, appends the paragraph and a newline. */
  lemma RebuildAppendParagraph(lines0: seq<string>, tails0: seq<int>, pl: seq<string>, lines: seq<string>, tails: seq<int>)
    requires pl != [] && lines == lines0 + pl && tails == tails0 + [|lines| - 1]
    requires forall t :: t in tails0 ==> 0 <= t < |lines0|
    ensures Rebuild(lines, tails, |lines|) == Rebuild(lines0, tails0, |lines0|) + (Concat(pl) + "\n")
  {
    var last := |lines| - 1;
    var front := pl[..|pl| - 1];
    var r0, f, y := Rebuild(lines0, tails0, |lines0|), Concat(front), pl[|pl| - 1];
    calc {
      Rebuild(lines, tails, |lines|);
      { assert last in tails && lines[last] == y; }
      Rebuild(lines, tails, last) + y + "\n";
      { assert lines0 + front == lines[..last];
        RebuildFrame(lines, tails, lines0 + front, tails, last); }
      Rebuild(lines0 + front, tails, last) + y + "\n";
      { RebuildAppendLines(lines0, tails0, front, tails, last); }
      (r0 + f) + y + "\n";
      { AppendAssoc(r0, f, y); AppendAssoc(r0, f + y, "\n"); }
      r0 + ((f + y) + "\n");
      { ConcatLast(pl); }
      r0 + (Concat(pl) + "\n");
    }
  }

  /** Appending the "\n" line of an empty paragraph appends a newline. */
  lemma RebuildAppendEmptyParagraph(lines0: seq<string>, tails0: seq<int>, lines: seq<string>)
    requires lines == lines0 + ["\n"]
    requires forall t :: t in tails0 ==> 0 <= t < |lines0|
    ensures Rebuild(lines, tails0, |lines|) == Rebuild(lines0, tails0, |lines0|) + "\n"
  {
    assert lines[..|lines0|] == lines0[..|lines0|];
    RebuildFrame(lines, tails0, lines0, tails0, |lines0|);
  }

  lemma TailsBelow(lines: seq<string>, tails: seq<int>)
    requires TailsWellFormed(lines, tails)
    ensures forall t :: t in tails ==> 0 <= t < |lines|
  {
  }

  lemma {:induction false} FlattenReconstructs(pls: seq<seq<string>>, paras: seq<string>)
    requires WellBroken(pls, paras)
    ensures Rebuild(Flatten(pls), TailsOf(pls, paras), |Flatten(pls)|) == Terminated(paras)
  {
    if paras != [] {
      var n := |paras|;
      var pinit, init := pls[..n - 1], paras[..n - 1];
      assert WellBroken(pinit, init);
      FlattenReconstructs(pinit, init);
      TailsOfWellFormed(pinit, init);
      FlattenStep(pls, paras);
      TerminatedLast(paras);
    }
  }

  /** What one more paragraph adds to what the lines stand for: the paragraph and a newline. */
  lemma FlattenStep(pls: seq<seq<string>>, paras: seq<string>)
    requires |pls| == |paras| && paras != []
    requires var p := paras[|paras| - 1];
      (p == [] ==> pls[|pls| - 1] == ["\n"]) && (p != [] ==> pls[|pls| - 1] != [] && Concat(pls[|pls| - 1]) == p)
    requires var n := |paras|;
      TailsWellFormed(Flatten(pls[..n - 1]), TailsOf(pls[..n - 1], paras[..n - 1]))
    ensures var n := |paras|;
      var lines0 := Flatten(pls[..n - 1]);
      Rebuild(Flatten(pls), TailsOf(pls, paras), |Flatten(pls)|) ==
      Rebuild(lines0, TailsOf(pls[..n - 1], paras[..n - 1]), |lines0|) + (paras[n - 1] + "\n")
  {
    var n := |paras|;
    var lines0, tails0 := Flatten(pls[..n - 1]), TailsOf(pls[..n - 1], paras[..n - 1]);
    var lines, tails := Flatten(pls), TailsOf(pls, paras);
    TailsBelow(lines0, tails0);
    TailsOfStep(pls, paras);
    if paras[n - 1] == [] {
      assert tails == tails0;
      RebuildAppendEmptyParagraph(lines0, tails0, lines);
      assert paras[n - 1] + "\n" == "\n";
    } else {
      RebuildAppendParagraph(lines0, tails0, pls[n - 1], lines, tails);
    }
  }

  /**
   * The layout loses nothing: the lines in order, with a newline after each
   * tail line and the "\n" line of each empty paragraph, give back the
   * paragraphs each followed by a newline.
   */
  lemma LayoutReconstructs(measure: Measure, width: int, k: nat, paras: seq<string>)
    ensures var lines := LayoutLines(measure, width, k, paras);
      Rebuild(lines, LayoutTails(measure, width, k, paras), |lines|) == Terminated(paras)
  {
    BreaksWellBroken(measure, width, k, paras);
    FlattenReconstructs(Breaks(measure, width, k, paras), paras);
  }

  /**
   * Breaking a whole text loses nothing: its layout, written back with the
   * newlines re-inserted, is the text (plus one newline), up to the trailing
   * newlines that Java's split drops.
   */
  lemma TextLayoutReconstructs(measure: Measure, width: int, k: nat, text: string)
    ensures var paras := Split(text);
      var lines := LayoutLines(measure, width, k, paras);
      Rebuild(lines, LayoutTails(measure, width, k, paras), |lines|) + Newlines(DroppedNewlines(text)) == text + "\n"
  {
    LayoutReconstructs(measure, width, k, Split(text));
    SplitReconstructs(text);
  }

  /**
   * The last line of a non-empty text ends a paragraph: its index is the
   * last tail index. (The empty text is one empty paragraph: the single
   * "\n" line and no tail index.)
   */
  lemma TextLastLineIsTail(measure: Measure, width: int, k: nat, text: string)
    requires text != []
    ensures var paras := Split(text);
      var lines := LayoutLines(measure, width, k, paras);
      var tails := LayoutTails(measure, width, k, paras);
      paras != [] ==> |tails| >= 1 && tails[|tails| - 1] == |lines| - 1
  {
    var paras := Split(text);
    assert paras != [] ==> paras[|paras| - 1] != [];
    LayoutTailsWellFormed(measure, width, k, paras);
  }

  // ---- the loop of `calc` exactly as written, for ignoreCalcLength == 0 ----

  /** The variables of the loop of `calc` when the loop's condition is about to be evaluated. */
  datatype CalcLoop = CalcLoop(start: int, i: int, sb: string, added: seq<string>, broke: bool)

  /**
   * One pass through the body of the loop of `calc`, as written, with the
   * `i++` of the for statement; `broke` records the `break`.
   */
  function CalcIterationAsWritten(measure: Measure, width: int, k: nat, text: string, s: CalcLoop): (t: CalcLoop)
    requires 0 <= s.start <= s.i < |text|
    ensures 0 <= t.start <= t.i
  {
    if MeasureText(measure, text[s.start..s.i + 1]) > width as real then
      var start := s.i;
      var added := s.added + [s.sb];
      if |text| - start > k then CalcLoop(start, s.i + k - 1 + 1, text[start..start + k], added, false)
      else CalcLoop(start, s.i, "", added + [text[start..]], true)
    else CalcLoop(s.start, s.i + 1, s.sb + [text[s.i]], s.added, false)
  }

  /** The loop state after at most `m` more passes (fewer if the loop ends first). */
  function CalcRunAsWritten(measure: Measure, width: int, k: nat, text: string, s: CalcLoop, m: nat): CalcLoop
    requires 0 <= s.start <= s.i
    decreases m
  {
    if m == 0 || s.broke || s.i >= |text| then s
    else CalcRunAsWritten(measure, width, k, text, CalcIterationAsWritten(measure, width, k, text, s), m - 1)
  }

  /** `m` empty lines: `m` more lines that add no character to the text. */
  function EmptyLines(m: nat): (r: seq<string>)
    ensures |r| == m && Concat(r) == ""
  {
    if m == 0 then []
    else
      assert ([""] + EmptyLines(m - 1))[1..] == EmptyLines(m - 1);
      [""] + EmptyLines(m - 1)
  }

  /** One more empty line after `a`, then `m - 1` more: `m` empty lines after `a`. */
  lemma EmptyLinesCons(a: seq<string>, m: nat)
    requires m > 0
    ensures (a + [""]) + EmptyLines(m - 1) == a + EmptyLines(m)
  {
    assert [""] + EmptyLines(m - 1) == EmptyLines(m);
  }

  /** With ignoreCalcLength == 0, a pass on a line opened at a too-wide character only appends an empty line. */
  lemma StalledIteration(measure: Measure, width: int, text: string, s: CalcLoop)
    requires 0 <= s.start == s.i < |text| && s.sb == "" && !s.broke
    requires MeasureText(measure, text[s.i..s.i + 1]) > width as real
    ensures CalcIterationAsWritten(measure, width, 0, text, s) == s.(added := s.added + [""])
  {
    assert text[s.i..s.i + 0] == "";
  }

  /**
   * With ignoreCalcLength == 0, once a line starts at a character that is
   * wider than `width` on its own, every pass appends an empty line and
   * leaves `start`, `i` and the open line as they were: the loop never ends.
   */
  lemma {:induction false} CalcLoopStalls(measure: Measure, width: int, text: string, s: CalcLoop, m: nat)
    requires 0 <= s.start == s.i < |text| && s.sb == "" && !s.broke
    requires MeasureText(measure, text[s.i..s.i + 1]) > width as real
    ensures CalcRunAsWritten(measure, width, 0, text, s, m) == s.(added := s.added + EmptyLines(m))
    decreases m
  {
    if m > 0 {
      StalledIteration(measure, width, text, s);
      CalcLoopStalls(measure, width, text, s.(added := s.added + [""]), m - 1);
      EmptyLinesCons(s.added, m);
    }
  }

  /** Character count as the advance width: every character is one pixel wide. */
  function UnitWidth(s: string): real
  {
    |s| as real
  }

  /**
   * The paragraph "ab" at width 0 (so ignoreCalcLength == 0): the loop of
   * `calc` as written runs for ever, appending empty lines.
   */
  lemma CalcLoopNeverEndsOnZeroWidth(m: nat)
    ensures var s := CalcRunAsWritten(UnitWidth, 0, 0, "ab", CalcLoop(0, 1, "a", [], false), m + 1);
      !s.broke && s.i == 1 && s.added == ["a"] + EmptyLines(m)
  {
    var init := CalcLoop(0, 1, "a", [], false);
    var s1 := CalcIterationAsWritten(UnitWidth, 0, 0, "ab", init);
    assert "ab"[0..2] == "ab";
    assert s1 == CalcLoop(1, 1, "", ["a"], false);
    assert "ab"[1..2] == "b";
    CalcLoopStalls(UnitWidth, 0, "ab", s1, m);
  }
}
