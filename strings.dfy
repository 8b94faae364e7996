/**
 * Strings as the view sees them: `seq<char>`, cut into paragraphs on the
 * newline character the way Java's `String.split("\\n")` does, and glued back.
 * A `char` is one whole character; Java's UTF-16 code units, which split a
 * character outside the Basic Multilingual Plane in two, are not modelled.
 */
module Strings {

  /** The paint's advance width of a string, in pixels. */
  type Measure = string -> real

  /** `paint.measureText(s)`: the same in every state of the view. */
  function MeasureText(measure: Measure, s: string): real
  {
    measure(s)
  }

  lemma AppendAssoc(a: string, b: string, c: string)
    ensures (a + b) + c == a + (b + c)
  {
  }

  /** The lines of a layout written one after another. */
  function Concat(ls: seq<string>): string
  {
    if ls == [] then [] else ls[0] + Concat(ls[1..])
  }

  lemma {:induction false} ConcatAppend(a: seq<string>, b: seq<string>)
    ensures Concat(a + b) == Concat(a) + Concat(b)
  {
    if a == [] {
      assert a + b == b;
    } else {
      assert (a + b)[1..] == a[1..] + b;
      ConcatAppend(a[1..], b);
    }
  }

  lemma ConcatOne(x: string)
    ensures Concat([x]) == x
  {
    assert [x][1..] == [];
  }

  /** The lines written out: all but the last, then the last. */
  lemma ConcatLast(ls: seq<string>)
    requires ls != []
    ensures Concat(ls) == Concat(ls[..|ls| - 1]) + ls[|ls| - 1]
  {
    assert ls == ls[..|ls| - 1] + [ls[|ls| - 1]];
    ConcatAppend(ls[..|ls| - 1], [ls[|ls| - 1]]);
    ConcatOne(ls[|ls| - 1]);
  }

  /** `m` newline characters: what `m` empty paragraphs, each terminated, give back. */
  function Newlines(m: nat): (r: string)
    ensures r == Terminated(seq(m, _ => ""))
  {
    if m == 0 then []
    else
      assert seq(m, _ => "")[1..] == seq(m - 1, _ => "");
      "\n" + Newlines(m - 1)
  }

  /** Each paragraph followed by a newline: the text the paragraphs came from, plus one newline. */
  function Terminated(ps: seq<string>): string
  {
    if ps == [] then [] else ps[0] + "\n" + Terminated(ps[1..])
  }

  lemma {:induction false} TerminatedAppend(a: seq<string>, b: seq<string>)
    ensures Terminated(a + b) == Terminated(a) + Terminated(b)
  {
    if a == [] {
      assert a + b == b;
    } else {
      assert (a + b)[1..] == a[1..] + b;
      TerminatedAppend(a[1..], b);
    }
  }

  lemma TerminatedOne(x: string)
    ensures Terminated([x]) == x + "\n"
  {
    assert [x][1..] == [];
  }

  lemma {:induction false} TerminatedEndsWithNewline(ps: seq<string>)
    requires ps != []
    ensures |Terminated(ps)| >= 1 && Terminated(ps)[|Terminated(ps)| - 1] == '\n'
  {
    if |ps| > 1 {
      TerminatedEndsWithNewline(ps[1..]);
    }
  }

  lemma TerminatedEmpties(e: seq<string>)
    requires forall k :: 0 <= k < |e| ==> e[k] == ""
    ensures Terminated(e) == Newlines(|e|)
  {
    assert e == seq(|e|, _ => "");
  }

  /** The paragraphs terminated: all but the last terminated, then the last and a newline. */
  lemma {:induction false} TerminatedLast(paras: seq<string>)
    requires paras != []
    ensures Terminated(paras) == Terminated(paras[..|paras| - 1]) + (paras[|paras| - 1] + "\n")
  {
    var n := |paras|;
    if n == 1 {
      assert paras[1..] == [] && paras[..0] == [];
    } else {
      var rest, init := paras[1..], paras[..n - 1];
      var last := paras[n - 1] + "\n";
      calc {
        Terminated(paras);
        paras[0] + "\n" + Terminated(rest);
        { TerminatedLast(rest);
          assert rest[..|rest| - 1] == init[1..] && rest[|rest| - 1] == paras[n - 1]; }
        paras[0] + "\n" + (Terminated(init[1..]) + last);
        { AppendAssoc(paras[0] + "\n", Terminated(init[1..]), last); }
        (paras[0] + "\n" + Terminated(init[1..])) + last;
        { assert init[0] == paras[0]; }
        Terminated(init) + last;
      }
    }
  }

  /**
   * Every piece of `s` between newline characters, empty ones included
   * (a text with m newlines has m + 1 pieces).
   */
  function Pieces(s: string): (r: seq<string>)
    ensures |r| >= 1
    ensures forall k :: 0 <= k < |r| ==> '\n' !in r[k]
  {
    if s == [] then [""]
    else if s[0] == '\n' then [""] + Pieces(s[1..])
    else
      var rest := Pieces(s[1..]);
      [[s[0]] + rest[0]] + rest[1..]
  }

  /** Cutting at every newline loses nothing: the pieces, each followed by a newline, give back `s` plus one. */
  lemma {:induction false} PiecesReconstruct(s: string)
    ensures Terminated(Pieces(s)) == s + "\n"
  {
    if s == [] {
    } else if s[0] == '\n' {
      var rest := Pieces(s[1..]);
      calc {
        Terminated(Pieces(s));
        { assert Pieces(s) == [""] + rest && ([""] + rest)[1..] == rest; }
        ("" + "\n") + Terminated(rest);
        { PiecesReconstruct(s[1..]); }
        ("" + "\n") + (s[1..] + "\n");
        { assert "" + "\n" == "\n"; AppendAssoc("\n", s[1..], "\n"); }
        ("\n" + s[1..]) + "\n";
        { assert s == "\n" + s[1..]; }
        s + "\n";
      }
    } else {
      var rest := Pieces(s[1..]);
      var head, tail := [s[0]] + rest[0], Terminated(rest[1..]);
      calc {
        Terminated(Pieces(s));
        { var r := [head] + rest[1..]; assert Pieces(s) == r && r[1..] == rest[1..]; }
        (head + "\n") + tail;
        { AppendAssoc(head, "\n", tail); AppendAssoc([s[0]], rest[0], "\n" + tail); }
        [s[0]] + (rest[0] + ("\n" + tail));
        { AppendAssoc(rest[0], "\n", tail); }
        [s[0]] + Terminated(rest);
        { PiecesReconstruct(s[1..]); }
        [s[0]] + (s[1..] + "\n");
        { AppendAssoc([s[0]], s[1..], "\n"); assert [s[0]] + s[1..] == s; }
        s + "\n";
      }
    }
  }

  lemma {:induction false} PiecesWithoutNewline(s: string)
    requires '\n' !in s
    ensures Pieces(s) == [s]
  {
    if s != [] {
      assert '\n' !in s[1..];
      PiecesWithoutNewline(s[1..]);
      assert s == [s[0]] + s[1..];
    }
  }

  /** A text that ends with a newline ends with an empty piece. */
  lemma PiecesEndEmpty(s: string)
    requires s != [] && s[|s| - 1] == '\n'
    ensures Pieces(s)[|Pieces(s)| - 1] == ""
  {
    var all := Pieces(s);
    var x := all[|all| - 1];
    var front := Terminated(all[..|all| - 1]);
    TerminatedLast(all);
    PiecesReconstruct(s);
    AppendAssoc(front, x, "\n");
    assert front + x == s by {
      assert (front + x) + "\n" == s + "\n";
      assert front + x == ((front + x) + "\n")[..|s|];
    }
  }

  /** The pieces left once the trailing empty ones are removed. */
  function DropTrailingEmpty(ps: seq<string>): (r: seq<string>)
    ensures |r| <= |ps| && r == ps[..|r|]
    ensures r == [] || r[|r| - 1] != ""
    ensures forall k :: |r| <= k < |ps| ==> ps[k] == ""
  {
    if ps == [] then []
    else if ps[|ps| - 1] == "" then DropTrailingEmpty(ps[..|ps| - 1])
    else ps
  }

  /**
   * Java's `text.split("\\n")`: a text without a newline is its own single
   * piece (so "" gives [""]); otherwise the pieces between newlines with the
   * trailing empty ones dropped (so "a\n\n" gives ["a"] and "\n" gives []).
   */
  function Split(s: string): (r: seq<string>)
    ensures forall k :: 0 <= k < |r| ==> '\n' !in r[k]
    ensures |r| <= |Pieces(s)| && r == Pieces(s)[..|r|]
    ensures forall k :: |r| <= k < |Pieces(s)| ==> Pieces(s)[k] == ""
    ensures '\n' !in s ==> r == [s]
    ensures '\n' in s ==> r == [] || r[|r| - 1] != ""
  {
    if '\n' !in s then
      PiecesWithoutNewline(s);
      [s]
    else DropTrailingEmpty(Pieces(s))
  }

  /** How many trailing newlines the split drops. */
  function DroppedNewlines(s: string): nat
  {
    |Pieces(s)| - |Split(s)|
  }

  /** The split drops pieces only when the text ends with a newline. */
  lemma DroppedFollowNewline(s: string)
    requires DroppedNewlines(s) > 0
    ensures s != [] && s[|s| - 1] == '\n'
  {
    var all := Pieces(s);
    var front := all[..|all| - 1];
    assert '\n' in s by {
      if '\n' !in s { PiecesWithoutNewline(s); }
    }
    assert |Split(s)| < |all|;
    assert all[|all| - 1] == "";
    calc {
      s + "\n";
      { PiecesReconstruct(s); }
      Terminated(all);
      { TerminatedLast(all); }
      Terminated(front) + (all[|all| - 1] + "\n");
      { assert all[|all| - 1] + "\n" == "\n"; }
      Terminated(front) + "\n";
    }
    assert s == (s + "\n")[..|s|];
    assert Terminated(front) == (Terminated(front) + "\n")[..|Terminated(front)|];
    TerminatedEndsWithNewline(front);
  }

  /**
   * The paragraphs of `Split(s)`, each followed by a newline, give back `s`
   * up to the trailing newlines the split drops.
   */
  lemma SplitReconstructs(s: string)
    ensures Terminated(Split(s)) + Newlines(DroppedNewlines(s)) == s + "\n"
    ensures s != [] && s[|s| - 1] != '\n' ==> DroppedNewlines(s) == 0
    ensures s != [] && s[|s| - 1] == '\n' ==> DroppedNewlines(s) > 0
  {
    var all, kept := Pieces(s), Split(s);
    var dropped := all[|kept|..];
    calc {
      Terminated(kept) + Newlines(DroppedNewlines(s));
      { assert |dropped| == DroppedNewlines(s); TerminatedEmpties(dropped); }
      Terminated(kept) + Terminated(dropped);
      { TerminatedAppend(kept, dropped); }
      Terminated(kept + dropped);
      { assert kept + dropped == all; }
      Terminated(all);
      { PiecesReconstruct(s); }
      s + "\n";
    }
    if |dropped| > 0 {
      DroppedFollowNewline(s);
    }
    if s != [] && s[|s| - 1] == '\n' {
      PiecesEndEmpty(s);
      assert s[|s| - 1] in s;
    }
  }
}
