# AlignTextView in Dafny

`AlignTextView` is an Android `TextView` that lays out its own text. On the
first layout pass after a text change it does three things:

- It cuts each paragraph (the text split on `'\n'`) into lines. Each line
  opens with a run of characters taken unmeasured (`ignoreCalcLength + 1` of
  them for the first line, `ignoreCalcLength` for the others) and then grows
  one character at a time while it fits in the view's width. Only such an
  unmeasured run can be wider than the width. The first one takes one
  character more than the reference glyphs that fit, so it is wider whenever
  its characters measure at least as much as that many reference glyphs.
- It records the index of the last line ("tail line") of each non-empty
  paragraph.
- It pads its bottom by the height of the lines it has beyond (or short of)
  the platform's own layout of the same text.

When drawing, it places every character separately. A line that is not a
tail line is justified: the free width is shared out evenly between its
glyphs. A tail line keeps its natural spacing and is placed left, centred or
right.

The model has five modules:

- `Strings` (`strings.dfy`): texts as `seq<char>`; Java's
  `String.split("\\n")` with its trailing-empty-piece rule; gluing lines and
  paragraphs back together.
- `LineBreaker` (`line_breaker.dfy`): what `calc` appends for one paragraph,
  as the function `ParagraphLines`. The loop is defined by `Scan`: one step
  per index the loop visits. `LayoutLines` and `LayoutTails` give the lines
  and tail indices of a whole list of paragraphs. The module proves what the
  breaking guarantees: it loses no character, every line but the last is
  maximal, a measured line fits, and the tail indices are well formed. It
  also holds the loop of `calc` exactly as written for the finding below.
- `HeightReconciler` (`height.dfy`): the line height, the extra line spacing
  and the bottom padding of `onLayout`, with Java's `(int)` cast written out
  as truncation toward zero.
- `Placement` (`placement.dfy`): the coordinates `onDraw` computes, as
  functions. `Render` is the sequence of `drawText` calls. `Coord` separates
  finite coordinates from the infinity or NaN of a float division by zero.
- `View` (`align_text_view.dfy`): the class `AlignTextView` with the source's
  fields and its methods `Calc`, `OnLayout`, `SetPadding`, `SetText`,
  `SetAlign` and `OnDraw`. Each method is imperative like the source and is
  proved against the functions above.

The paint's `measureText` is a parameter of type `string -> real`. The
platform's reference layout (`measureTextViewHeight`) is represented by two
parameters of `OnLayout`: its height and its line count.

The model follows the code, including where its behaviour may surprise:

- An empty paragraph yields the single line `"\n"` but no tail index, so not
  every paragraph has a tail line.
- The empty text is one empty paragraph, so its one line is not a tail line.
- The height gap is truncated toward zero, not rounded.
- A one-character line that is not a tail line (such as that `"\n"` line)
  gets a non-finite interval, not 0.
- A text made only of newlines splits into no paragraphs at all.

## Model

| member | source | states |
|---|---|---|
| Placement.AlignFromStyle | align-text-view/src/main/java/me/codeboy/android/aligntextview/AlignTextView.java:90-102 | the `align` attribute value 1 means centre, 2 means right, and every other value means left (each direction an if-and-only-if) |
| View.AlignTextView.constructor | align-text-view/src/main/java/me/codeboy/android/aligntextview/AlignTextView.java:68-72 | a view created from code starts left-aligned, needing a layout pass, with no lines, no extra line spacing, a spacing multiplier of 1 and no recorded bottom padding |
| View.AlignTextView.FromAttributes | align-text-view/src/main/java/me/codeboy/android/aligntextview/AlignTextView.java:74-105 | an inflated view takes its extra spacing (whole pixels) and multiplier from the attributes, remembers its given bottom padding and gets its alignment from the `align` attribute |
| Strings.Split | align-text-view/src/main/java/me/codeboy/android/aligntextview/AlignTextView.java:127 | the paragraphs are a prefix of the pieces between newlines, hold no newline, and leave out only empty pieces; a text with a newline never ends with an empty paragraph, and a text without one is its own single paragraph |
| Strings.SplitReconstructs | align-text-view/src/main/java/me/codeboy/android/aligntextview/AlignTextView.java:127 | the paragraphs, each followed by a newline, give back the text up to the trailing newlines the split drops, and it drops some exactly when the text ends with a newline |
| LineBreaker.IgnoreCalcLengthBounds | align-text-view/src/main/java/me/codeboy/android/aligntextview/AlignTextView.java:238-240 | `ignoreCalcLength` is the number of reference glyphs that fit in the width: that many fit, and one more does not |
| LineBreaker.BreakSkip | align-text-view/src/main/java/me/codeboy/android/aligntextview/AlignTextView.java:255-262 | a line opened after a break takes at least one character unmeasured, and exactly `ignoreCalcLength` whenever that is at least 1 (the corrected step) |
| LineBreaker.FirstRunOverflows | align-text-view/src/main/java/me/codeboy/android/aligntextview/AlignTextView.java:238-247 | the first line holds the first `ignoreCalcLength + 1` characters, and when they measure at least `ignoreCalcLength + 1` reference glyphs they are wider than the width |
| LineBreaker.ParagraphLinesReconstruct | align-text-view/src/main/java/me/codeboy/android/aligntextview/AlignTextView.java:236-270 | a non-empty paragraph becomes non-empty lines that, concatenated, are exactly the paragraph; the first holds the unmeasured run (or is the whole paragraph), every middle line at least one run |
| LineBreaker.ParagraphLinesMaximal | align-text-view/src/main/java/me/codeboy/android/aligntextview/AlignTextView.java:245-262 | every line closed before the last of a paragraph is maximal: adding the next line's first character makes it wider than the width |
| LineBreaker.ParagraphLinesFit | align-text-view/src/main/java/me/codeboy/android/aligntextview/AlignTextView.java:242-265 | every line longer than its unmeasured run fits in the width; only the unmeasured run itself can overflow |
| LineBreaker.ParagraphLinesNonEmpty | align-text-view/src/main/java/me/codeboy/android/aligntextview/AlignTextView.java:228-270 | every paragraph, empty or not, adds at least one line |
| View.AlignTextView.Calc | align-text-view/src/main/java/me/codeboy/android/aligntextview/AlignTextView.java:228-273 | appends the paragraph's lines (`"\n"` for an empty paragraph) and, for a non-empty paragraph only, the index of its last line; nothing else changes |
| View.AlignTextView.BreakParagraph | align-text-view/src/main/java/me/codeboy/android/aligntextview/AlignTextView.java:235-270 | the breaking loop of `calc` appends exactly the lines `ParagraphLines` specifies, through a loop invariant tying the open line and the appended lines to `Scan` |
| LineBreaker.LayoutAppend | align-text-view/src/main/java/me/codeboy/android/aligntextview/AlignTextView.java:128-130 | breaking one more paragraph appends its lines and, unless it is empty, the index of the new last line |
| View.AlignTextView.LayOutLines | align-text-view/src/main/java/me/codeboy/android/aligntextview/AlignTextView.java:123-130 | after clearing, the lines and tail indices are those of the text's paragraphs broken in order |
| LineBreaker.LayoutTailsWellFormed | align-text-view/src/main/java/me/codeboy/android/aligntextview/AlignTextView.java:228-273 | one tail index per non-empty paragraph and none for an empty one; the indices strictly increase and lie inside the lines; the last line is a tail whenever the last paragraph is not empty |
| LineBreaker.TextLastLineIsTail | align-text-view/src/main/java/me/codeboy/android/aligntextview/AlignTextView.java:123-130 | for a non-empty text with any paragraph, the last line is the last tail line |
| LineBreaker.LayoutReconstructs | align-text-view/src/main/java/me/codeboy/android/aligntextview/AlignTextView.java:128-130 | the lines in order, with a newline after each tail line, give back the paragraphs, each followed by a newline |
| LineBreaker.TextLayoutReconstructs | align-text-view/src/main/java/me/codeboy/android/aligntextview/AlignTextView.java:123-130 | the layout written back, plus the newlines the split drops, is the whole text plus one newline: no character is lost or added |
| View.AlignTextView.OnLayout | align-text-view/src/main/java/me/codeboy/android/aligntextview/AlignTextView.java:108-156 | a pass with `firstCalc` set breaks the text at the measured width, derives the line height and spacing, sets the bottom padding to the given one plus the height gap, keeps the other paddings and clears `firstCalc`; any later pass changes nothing; the tail indices stay well formed |
| View.AlignTextView.ReconcileHeight | align-text-view/src/main/java/me/codeboy/android/aligntextview/AlignTextView.java:133-152 | the height fields take the reference layout's values, and the bottom padding is the remembered padding plus the gap, through the view's own `setPadding` that leaves the remembered padding alone |
| HeightReconciler.Truncate | align-text-view/src/main/java/me/codeboy/android/aligntextview/AlignTextView.java:145-146 | Java's `(int)` of a float: the integer part, toward zero, for either sign |
| HeightReconciler.LineHeight | align-text-view/src/main/java/me/codeboy/android/aligntextview/AlignTextView.java:137 | the line height times the reference line count is the reference height |
| HeightReconciler.LineSpaceExtra | align-text-view/src/main/java/me/codeboy/android/aligntextview/AlignTextView.java:141 | a line plus its extra spacing is the line height times the multiplier plus the added spacing |
| HeightReconciler.HeightGap | align-text-view/src/main/java/me/codeboy/android/aligntextview/AlignTextView.java:145-146 | the gap is 0 when the view has as many lines as the reference layout |
| HeightReconciler.AdjustedPaddingBottom | align-text-view/src/main/java/me/codeboy/android/aligntextview/AlignTextView.java:145-152 | the adjusted bottom padding is the given one when the line counts agree |
| HeightReconciler.HeightGapMonotone | align-text-view/src/main/java/me/codeboy/android/aligntextview/AlignTextView.java:145-146 | with a non-negative line pitch, more lines never give a smaller gap; the gap is at least 0 with at least the reference count of lines and at most 0 with at most that count |
| HeightReconciler.HeightGapTruncates | align-text-view/src/main/java/me/codeboy/android/aligntextview/AlignTextView.java:145-146 | the gap is the exact height of the extra lines with its fraction dropped toward zero, less than one pixel off |
| View.AlignTextView.SetPadding | align-text-view/src/main/java/me/codeboy/android/aligntextview/AlignTextView.java:283-289 | sets all four paddings; a call from outside records the bottom padding as the given one, the view's own adjustment does not; the flag is cleared either way, so the view is left in its valid state whenever its tail indices are well formed |
| View.AlignTextView.SetText | align-text-view/src/main/java/me/codeboy/android/aligntextview/AlignTextView.java:277-280 | stores the text and makes the next layout pass break it again; the view stays valid exactly when it was |
| View.AlignTextView.SetAlign | align-text-view/src/main/java/me/codeboy/android/aligntextview/AlignTextView.java:217-220 | stores the tail alignment; the view stays valid exactly when it was |
| View.AlignTextView.OnDraw | align-text-view/src/main/java/me/codeboy/android/aligntextview/AlignTextView.java:158-210 | keeps the width between the paddings in `width` and issues exactly the calls `Render` specifies; the characters drawn, in order, are exactly the lines' characters; the view stays valid exactly when it was |
| View.DrawLine | align-text-view/src/main/java/me/codeboy/android/aligntextview/AlignTextView.java:184-208 | the calls for one line are one per character, left to right, at the coordinates `LineDraws` specifies |
| Placement.Baseline | align-text-view/src/main/java/me/codeboy/android/aligntextview/AlignTextView.java:170-175 | with bit 0x1000 of the gravity clear the first baseline lies half way between the glyph height and the line height; with it set, it is the glyph height |
| Placement.Interval | align-text-view/src/main/java/me/codeboy/android/aligntextview/AlignTextView.java:190-196 | a tail line has no interval; any other line shares the free width over its `length - 1` gaps, which is not finite for a single character |
| Placement.StartOffset | align-text-view/src/main/java/me/codeboy/android/aligntextview/AlignTextView.java:188-202 | only a tail line is shifted: by nothing when aligned left, by half the free width when centred, by all of it when aligned right |
| Placement.LineY | align-text-view/src/main/java/me/codeboy/android/aligntextview/AlignTextView.java:184-207 | line `i` sits `i` line pitches (line height plus extra spacing) below the first baseline under the top padding |
| Placement.RenderGlyphs | align-text-view/src/main/java/me/codeboy/android/aligntextview/AlignTextView.java:182-208 | drawing loses and adds nothing: the characters drawn, in call order, are the lines concatenated |
| Placement.RenderAt | align-text-view/src/main/java/me/codeboy/android/aligntextview/AlignTextView.java:182-208 | character `j` of line `i` is drawn by the call at its position in the concatenated lines, on line `i`'s baseline |
| Placement.JustifiedLineFlush | align-text-view/src/main/java/me/codeboy/android/aligntextview/AlignTextView.java:188-206 | a justified line of two or more glyphs starts at the left padding plus the measure of the empty string (the left padding itself when that is 0); its last glyph ends at the right edge of the text area whenever the measure of the line is the measure of all but its last glyph plus the measure of that glyph (the source's arithmetic gives no more for a measure that does not add up over that split) |
| Placement.JustifiedEvenSpacing | align-text-view/src/main/java/me/codeboy/android/aligntextview/AlignTextView.java:190-205 | consecutive glyphs of a justified line are their natural advance plus the same interval apart, and the intervals add up to the free width |
| Placement.TailLinePlacement | align-text-view/src/main/java/me/codeboy/android/aligntextview/AlignTextView.java:194-205 | a tail line keeps its natural spacing and starts at the left padding, centred between the paddings, or so that it ends at the right padding |
| Placement.SingleGlyphNotFinite | align-text-view/src/main/java/me/codeboy/android/aligntextview/AlignTextView.java:190-205 | a one-character line that is not a tail line (such as the `"\n"` line of an empty paragraph) is drawn at a non-finite x; as a tail line it is finite |
| LineBreaker.CalcLoopStalls | align-text-view/src/main/java/me/codeboy/android/aligntextview/AlignTextView.java:245-262 | with `ignoreCalcLength == 0`, once a line starts at a character wider than the width, every pass of the loop as written appends an empty line and changes nothing else |
| LineBreaker.CalcLoopNeverEndsOnZeroWidth | align-text-view/src/main/java/me/codeboy/android/aligntextview/AlignTextView.java:240-265 | the paragraph "ab" at width 0 with one-pixel characters: after any number of passes the loop as written has not ended and has appended only empty lines after "a" |

## Left out

- Rendering and the platform: the canvas, the paint colour and drawable state (lines 163-164), `invalidate()` in `setAlign`, `setTextIsSelectable(false)`, the `super` calls of `onLayout` and `setText`, and `getText().toString()` (the text is a plain string; spans and the buffer type are not modelled).
- `measureTextViewHeight` (lines 299-308) lays out a throwaway platform `TextView`. It is not part of this model; its height and line count are the parameters `refHeight` and `refLineCount` of `OnLayout`.
- Paint and font queries (`measureText`, `getTextSize`, `getFontMetrics`, `getGravity`, `getMeasuredWidth`) are parameters. `measureText` is a fixed function of the string.
- Floating point: the model computes in exact reals. Float rounding is not modelled; the `(int)` casts are modelled as truncation toward zero. `NonFinite` stands for +infinity, -infinity and NaN alike.
- Integer width: widths, paddings and the padding sum `originalPaddingBottom + heightGap` are unbounded integers; 32-bit overflow is not modelled.
- View.AlignTextView.OnLayout: requires `refLineCount > 0`. The platform reports at least one line for a measured layout; with 0 the Java float division would give infinity or NaN, which the model does not carry into the height fields.
- View.AlignTextView.Calc: requires the reference glyph's width to be positive and the width non-negative. With a zero-width glyph and a positive width the quotient is +infinity, the cast gives `Integer.MAX_VALUE` and `ignoreCalcLength + 1` overflows; with width 0 as well the quotient is NaN, the cast gives 0 and the run takes the `ignoreCalcLength == 0` path described next.
- View.AlignTextView.Calc: for `ignoreCalcLength == 0` the model breaks with the corrected step of one character (see Findings); for every other value it is the source's loop. After a break at K == 0 the source measures the new line's first character alone, which the model takes unmeasured: when it fits, both go on from the same state; when it does not, the source's loop never ends. So wherever the source's loop ends, the model gives the same lines.
- View.AlignTextView.constructor: the platform constructor may itself call `setPadding` (for a background's padding), which the override would see. The model takes the paddings as given and records no bottom padding, as the field initialisers do.
- Characters: Java's `length()`, `substring` and `charAt` (lines 230-264, 204-206) count UTF-16 code units, while a Dafny `char` here is a whole Unicode scalar value. For text outside the Basic Multilingual Plane the source counts each such character twice in the `ignoreCalcLength` arithmetic, can split it between two lines (lines 247, 256, 258) and draws its two surrogate halves separately (line 206); the model does not capture this and treats every character as one unit.
- View.AlignTextView.OnDraw: the draw calls are returned as a sequence of `DrawCall` values instead of being issued on a canvas.

## Findings

| source | as written | input that shows it | evidently intended | confidence | as-written member | corrected member |
|---|---|---|---|---|---|---|
| align-text-view/src/main/java/me/codeboy/android/aligntextview/AlignTextView.java:262 | after a break the loop index moves by `ignoreCalcLength - 1`, then `i++`; with `ignoreCalcLength == 0` (width below one reference glyph) it stays on the same character, so a character wider than the width on its own is measured again for ever and an empty line is appended each time | the paragraph "ab" at width 0 with every character one pixel wide | a new line takes at least one character, so the loop always advances | not executed | LineBreaker.CalcLoopNeverEndsOnZeroWidth | LineBreaker.ParagraphLinesReconstruct |
