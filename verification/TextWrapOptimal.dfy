/**
 Greedy wrapping uses as few lines as possible when every word fits, for any measure under which
 a run of words is at least as wide as the runs inside it.
 */
module TextWrapOptimal {
  import opened Sequences
  import opened TextWrap

  /** The words a..b on one line. */
  function Line(ws: seq<string>, a: nat, b: nat): string
    requires a <= b <= |ws|
  {
    if a == b then "" else Extend(Line(ws, a, b - 1), ws[b - 1])
  }

  predicate LineFits(ws: seq<string>, a: nat, b: nat, width: Measure, maxW: real)
    requires a <= b <= |ws|
  {
    Fits(width, maxW, Line(ws, a, b))
  }

  predicate Inked(ws: seq<string>) {
    forall i :: 0 <= i < |ws| ==> ws[i] != ""
  }

  /** Every word fits on a line of its own. */
  predicate EachFits(ws: seq<string>, width: Measure, maxW: real) {
    forall i :: 0 <= i < |ws| ==> Fits(width, maxW, ws[i])
  }

  /** A run of words that fits contains no run that does not. */
  ghost predicate Monotone(ws: seq<string>, width: Measure) {
    forall a: nat, b: nat, c: nat, d: nat :: a <= c < d <= b <= |ws| ==> width(Line(ws, c, d)) <= width(Line(ws, a, b))
  }

  lemma LineInked(ws: seq<string>, a: nat, b: nat)
    requires a <= b <= |ws| && Inked(ws)
    ensures Line(ws, a, b) == "" <==> a == b
  {
  }

  /** How many lines greedy filling makes of ws[p..] when ws[a..p] is the line being filled. */
  function Count(ws: seq<string>, a: nat, p: nat, width: Measure, maxW: real): nat
    requires a <= p <= |ws|
  {
    |WrapFrom(Line(ws, a, p), ws[p..], width, maxW)|
  }

  lemma CountStep(ws: seq<string>, a: nat, p: nat, width: Measure, maxW: real)
    requires a <= p < |ws| && Inked(ws) && EachFits(ws, width, maxW)
    ensures LineFits(ws, a, p + 1, width, maxW) ==> Count(ws, a, p, width, maxW) == Count(ws, a, p + 1, width, maxW)
    ensures !LineFits(ws, a, p + 1, width, maxW) ==>
              a < p && Count(ws, a, p, width, maxW) == 1 + Count(ws, p, p + 1, width, maxW)
  {
    LineInked(ws, a, p);
    assert ws[p..][0] == ws[p] && ws[p..][1..] == ws[p + 1..];
    assert Line(ws, p, p + 1) == ws[p];
  }

  lemma CountEnd(ws: seq<string>, a: nat, width: Measure, maxW: real)
    requires a <= |ws| && Inked(ws)
    ensures Count(ws, a, |ws|, width, maxW) == if a < |ws| then 1 else 0
  {
    LineInked(ws, a, |ws|);
  }

  /** A line that starts later is never worse, and never better by more than one line. */
  lemma {:induction false} StartLater(ws: seq<string>, a: nat, b: nat, p: nat, width: Measure, maxW: real)
    requires a <= b <= p <= |ws| && Inked(ws) && EachFits(ws, width, maxW) && Monotone(ws, width)
    ensures Count(ws, b, p, width, maxW) <= Count(ws, a, p, width, maxW) <= Count(ws, b, p, width, maxW) + 1
    decreases |ws| - p
  {
    hide Count, Line, EachFits, Inked;
    if p == |ws| {
      CountEnd(ws, a, width, maxW);
      CountEnd(ws, b, width, maxW);
    } else {
      CountStep(ws, a, p, width, maxW);
      CountStep(ws, b, p, width, maxW);
      assert width(Line(ws, b, p + 1)) <= width(Line(ws, a, p + 1));
      if LineFits(ws, a, p + 1, width, maxW) {
        StartLater(ws, a, b, p + 1, width, maxW);
      } else if LineFits(ws, b, p + 1, width, maxW) {
        StartLater(ws, b, p, p + 1, width, maxW);
      }
    }
  }

  /** While a run fits, greedy filling keeps it on one line. */
  lemma {:induction false} FillRun(ws: seq<string>, a: nat, p: nat, m: nat, width: Measure, maxW: real)
    requires a <= p <= m <= |ws| && a < m && Inked(ws) && EachFits(ws, width, maxW) && Monotone(ws, width)
    requires LineFits(ws, a, m, width, maxW)
    ensures Count(ws, a, p, width, maxW) == Count(ws, a, m, width, maxW)
    decreases m - p
  {
    hide Count, Line, EachFits, Inked;
    if p < m {
      CountStep(ws, a, p, width, maxW);
      assert width(Line(ws, a, p + 1)) <= width(Line(ws, a, m));
      FillRun(ws, a, p + 1, m, width, maxW);
    }
  }

  // ------------------------------------------------- splits of the words into lines

  function Text(group: seq<string>): string {
    Line(group, 0, |group|)
  }

  function Texts(groups: seq<seq<string>>): seq<string> {
    if groups == [] then [] else [Text(groups[0])] + Texts(groups[1..])
  }

  /** The words in order, cut into non-empty groups that each fit on a line. */
  predicate FittingSplit(groups: seq<seq<string>>, ws: seq<string>, width: Measure, maxW: real) {
    && Flatten(groups) == ws
    && forall i :: 0 <= i < |groups| ==> groups[i] != [] && Fits(width, maxW, Text(groups[i]))
  }

  lemma {:induction false} LineOfSlice(ws: seq<string>, a: nat, b: nat)
    requires a <= b <= |ws|
    ensures Text(ws[a..b]) == Line(ws, a, b)
  {
    LineInside(ws, a, b, b);
  }

  lemma {:induction false} LineInside(ws: seq<string>, a: nat, m: nat, b: nat)
    requires a <= m <= b <= |ws|
    ensures Line(ws[a..b], 0, m - a) == Line(ws, a, m)
  {
    if a < m {
      LineInside(ws, a, m - 1, b);
      assert ws[a..b][m - 1 - a] == ws[m - 1];
    }
  }

  /** No split of the words from position `from` beats greedy filling from there. */
  lemma {:induction false} GreedyBeats(ws: seq<string>, from: nat, groups: seq<seq<string>>, width: Measure, maxW: real)
    requires from <= |ws| && Inked(ws) && EachFits(ws, width, maxW) && Monotone(ws, width)
    requires FittingSplit(groups, ws[from..], width, maxW)
    ensures Count(ws, from, from, width, maxW) <= |groups|
    decreases |groups|
  {
    if groups == [] {
      assert from == |ws|;
      CountEnd(ws, from, width, maxW);
    } else {
      var g, rest := groups[0], groups[1..];
      var m := from + |g|;
      assert ws[from..m] == g by { assert g + Flatten(rest) == ws[from..]; }
      assert ws[m..] == Flatten(rest) by { assert g + Flatten(rest) == ws[from..]; }
      assert forall i :: 0 <= i < |rest| ==> rest[i] == groups[i + 1];
      LineOfSlice(ws, from, m);
      GreedyBeats(ws, m, rest, width, maxW);
      FillRun(ws, from, from, m, width, maxW);
      StartLater(ws, from, m, m, width, maxW);
    }
  }

  /** The groups greedy filling makes. */
  function Groups(ws: seq<string>, a: nat, p: nat, width: Measure, maxW: real): seq<seq<string>>
    requires a <= p <= |ws|
    decreases |ws| - p
  {
    if p == |ws| then (if a < p then [ws[a..p]] else [])
    else if LineFits(ws, a, p + 1, width, maxW) then Groups(ws, a, p + 1, width, maxW)
    else [ws[a..p]] + Groups(ws, p, p + 1, width, maxW)
  }

  lemma TextsCons(g: seq<string>, rest: seq<seq<string>>)
    ensures Flatten([g] + rest) == g + Flatten(rest) && Texts([g] + rest) == [Text(g)] + Texts(rest)
  {
    FlattenCons(g, rest);
    assert ([g] + rest)[1..] == rest;
  }

  /** Greedy filling, one word on: what WrapFrom does to a line of the words a..p. */
  lemma WrapLine(ws: seq<string>, a: nat, p: nat, width: Measure, maxW: real)
    requires a <= p < |ws| && Inked(ws) && EachFits(ws, width, maxW)
    ensures WrapFrom(Line(ws, a, p), ws[p..], width, maxW) ==
            if LineFits(ws, a, p + 1, width, maxW) then WrapFrom(Line(ws, a, p + 1), ws[p + 1..], width, maxW)
            else [Line(ws, a, p)] + WrapFrom(Line(ws, p, p + 1), ws[p + 1..], width, maxW)
  {
    LineInked(ws, a, p);
    assert ws[p..][0] == ws[p] && ws[p..][1..] == ws[p + 1..];
    assert Line(ws, p, p + 1) == ws[p];
    assert Break(ws[p], width, maxW) == Broken([], ws[p]);
    assert Line(ws, a, p + 1) == Extend(Line(ws, a, p), ws[p]);
    hide Break, Line;
  }

  /** The groups from here on spell the lines from here on. */
  ghost predicate Spells(groups: seq<seq<string>>, ws: seq<string>, a: nat, p: nat, width: Measure, maxW: real)
    requires a <= p <= |ws|
  {
    Texts(groups) == WrapFrom(Line(ws, a, p), ws[p..], width, maxW)
  }

  lemma SpellStep(rest: seq<seq<string>>, ws: seq<string>, a: nat, p: nat, width: Measure, maxW: real)
    requires a <= p < |ws| && Inked(ws) && EachFits(ws, width, maxW)
    requires !LineFits(ws, a, p + 1, width, maxW) && Spells(rest, ws, p, p + 1, width, maxW)
    ensures Spells([ws[a..p]] + rest, ws, a, p, width, maxW)
  {
    LineOfSlice(ws, a, p);
    WrapLine(ws, a, p, width, maxW);
    TextsCons(ws[a..p], rest);
  }

  lemma SpellEnd(ws: seq<string>, a: nat, width: Measure, maxW: real)
    requires a <= |ws| && Inked(ws)
    ensures Spells(if a < |ws| then [ws[a..|ws|]] else [], ws, a, |ws|, width, maxW)
  {
    LineOfSlice(ws, a, |ws|);
    LineInked(ws, a, |ws|);
    TextsCons(ws[a..|ws|], []);
  }

  lemma {:induction false} GroupsSpellLines(ws: seq<string>, a: nat, p: nat, width: Measure, maxW: real)
    requires a <= p <= |ws| && Inked(ws) && EachFits(ws, width, maxW)
    ensures Spells(Groups(ws, a, p, width, maxW), ws, a, p, width, maxW)
    decreases |ws| - p
  {
    if p == |ws| {
      SpellEnd(ws, a, width, maxW);
    } else if LineFits(ws, a, p + 1, width, maxW) {
      WrapLine(ws, a, p, width, maxW);
      GroupsSpellLines(ws, a, p + 1, width, maxW);
    } else {
      GroupsSpellLines(ws, p, p + 1, width, maxW);
      SpellStep(Groups(ws, p, p + 1, width, maxW), ws, a, p, width, maxW);
    }
  }

  lemma SplitCons(g: seq<string>, rest: seq<seq<string>>, tail: seq<string>, width: Measure, maxW: real)
    requires g != [] && Fits(width, maxW, Text(g)) && FittingSplit(rest, tail, width, maxW)
    ensures FittingSplit([g] + rest, g + tail, width, maxW)
  {
    FlattenCons(g, rest);
  }

  lemma LineOfOne(ws: seq<string>, p: nat)
    requires p < |ws|
    ensures Line(ws, p, p + 1) == ws[p]
  {
  }

  lemma {:induction false} GroupsFit(ws: seq<string>, a: nat, p: nat, width: Measure, maxW: real)
    requires a <= p <= |ws| && EachFits(ws, width, maxW)
    requires a < p ==> LineFits(ws, a, p, width, maxW)
    ensures FittingSplit(Groups(ws, a, p, width, maxW), ws[a..], width, maxW)
    decreases |ws| - p
  {
    hide Line, Text, FittingSplit, Fits, Flatten;
    LineOfSlice(ws, a, p);
    assert ws[a..p] + ws[p..] == ws[a..];
    if p == |ws| {
      EmptySplit(width, maxW);
      if a < p {
        SplitCons(ws[a..p], [], [], width, maxW);
        assert ws[a..p] + [] == ws[a..] && [ws[a..p]] + [] == [ws[a..p]];
      } else {
        assert ws[a..] == [];
      }
    } else {
      LineOfOne(ws, p);
      if LineFits(ws, a, p + 1, width, maxW) {
        GroupsFit(ws, a, p + 1, width, maxW);
      } else {
        GroupsFit(ws, p, p + 1, width, maxW);
        SplitCons(ws[a..p], Groups(ws, p, p + 1, width, maxW), ws[p..], width, maxW);
      }
    }
  }

  lemma EmptySplit(width: Measure, maxW: real)
    ensures FittingSplit([], [], width, maxW)
  {
  }

  // ------------------------------------------------------------ whole texts

  /** The words of a split text that are not empty; only the ends of the split can be. */
  function Core(words: seq<string>): seq<string> {
    if words == [] then [] else
    var lo := if words[0] == "" then 1 else 0;
    var hi := if |words| > 1 && words[|words| - 1] == "" then |words| - 1 else |words|;
    words[lo..hi]
  }

  lemma CoreInked(words: seq<string>)
    requires SplitShape(words)
    ensures Inked(Core(words))
  {
  }

  lemma LeadingBlank(ws: seq<string>, width: Measure, maxW: real)
    ensures WrapFrom("", [""] + ws, width, maxW) == WrapFrom("", ws, width, maxW)
  {
    assert ([""] + ws)[1..] == ws;
  }

  /**
   Optimality, for every text whose words fit: the wrapped text has no more lines than any way of
   cutting its words, in order, into groups that fit.
   */
  lemma {:induction false} WrapIsOptimal(text: string, groups: seq<seq<string>>, width: Measure, maxW: real)
    requires EachFits(Core(Split(text)), width, maxW) && Monotone(Core(Split(text)), width)
    requires FittingSplit(groups, Core(Split(text)), width, maxW)
    ensures |WrapFrom("", Split(text), width, maxW)| <= |groups|
  {
    var ws := Core(Split(text));
    SplitHasShape(text);
    CoreInked(Split(text));
    CoreLines(Split(text), width, maxW);
    assert ws[0..] == ws;
    GreedyBeats(ws, 0, groups, width, maxW);
  }

  /** The words keep their order: the lines are the texts of such a split, so the bound is attained. */
  lemma {:induction false} WordsMakeASplit(words: seq<string>, width: Measure, maxW: real)
    requires Inked(words) && EachFits(words, width, maxW)
    ensures exists groups ::
        FittingSplit(groups, words, width, maxW) && Texts(groups) == WrapFrom("", words, width, maxW)
  {
    GroupsSpellLines(words, 0, 0, width, maxW);
    GroupsFit(words, 0, 0, width, maxW);
    assert words[0..] == words;
    var groups := Groups(words, 0, 0, width, maxW);
    assert FittingSplit(groups, words, width, maxW);
  }

  /** The same lines, but for a blank that may end the last one. */
  predicate SameUpToBlank(lines: seq<string>, texts: seq<string>) {
    || lines == texts
    || (|lines| == |texts| > 0 && lines[..|lines| - 1] == texts[..|texts| - 1]
        && lines[|lines| - 1] == texts[|texts| - 1] + " ")
  }

  lemma SameAfter(front: seq<string>, lines: seq<string>, texts: seq<string>)
    requires SameUpToBlank(lines, texts)
    ensures SameUpToBlank(front + lines, front + texts)
  {
    if lines != texts {
      var n := |front| + |lines| - 1;
      assert (front + lines)[..n] == front + lines[..|lines| - 1];
      assert (front + texts)[..n] == front + texts[..|texts| - 1];
    }
  }

  /** An empty last word puts at most a blank at the end. */
  lemma {:induction false} TrailingBlankLines(cur: string, ws: seq<string>, width: Measure, maxW: real)
    ensures SameUpToBlank(WrapFrom(cur, ws + [""], width, maxW), WrapFrom(cur, ws, width, maxW))
    decreases |ws|
  {
    hide Fits;
    if ws == [] {
      assert ws + [""] == [""] && [""][1..] == [];
    } else {
      hide SameUpToBlank;
      var b := Break(ws[0], width, maxW);
      assert (ws + [""])[0] == ws[0] && (ws + [""])[1..] == ws[1..] + [""];
      var test := Extend(cur, b.rest);
      if Fits(width, maxW, test) {
        TrailingBlankLines(test, ws[1..], width, maxW);
        SameAfter(b.pieces, WrapFrom(test, ws[1..] + [""], width, maxW), WrapFrom(test, ws[1..], width, maxW));
      } else {
        TrailingBlankLines(b.rest, ws[1..], width, maxW);
        SameAfter(b.pieces + Pending(cur), WrapFrom(b.rest, ws[1..] + [""], width, maxW),
          WrapFrom(b.rest, ws[1..], width, maxW));
      }
    }
  }

  lemma CoreLines(words: seq<string>, width: Measure, maxW: real)
    requires SplitShape(words)
    ensures SameUpToBlank(WrapFrom("", words, width, maxW), WrapFrom("", Core(words), width, maxW))
  {
    hide SameUpToBlank, Fits;
    var hi := if |words| > 1 && words[|words| - 1] == "" then |words| - 1 else |words|;
    SameLines(WrapFrom("", words, width, maxW));
    if hi < |words| {
      assert words == words[..hi] + [""];
      TrailingBlankLines("", words[..hi], width, maxW);
    } else {
      assert words[..hi] == words;
    }
    if words[0] == "" {
      assert words[..hi] == [""] + words[1..hi];
      LeadingBlank(words[1..hi], width, maxW);
    } else {
      assert words[0..hi] == words[..hi];
    }
  }

  lemma SameLines(lines: seq<string>)
    ensures SameUpToBlank(lines, lines)
  {
  }

  /**
   For every text whose words fit: the lines are the words in order, cut into groups that fit, but
   for a blank at the end of the last line when the text ends in white space.
   */
  lemma {:induction false} WrapIsASplit(text: string, width: Measure, maxW: real)
    requires EachFits(Core(Split(text)), width, maxW)
    ensures exists groups ::
              && FittingSplit(groups, Core(Split(text)), width, maxW)
              && SameUpToBlank(WrapFrom("", Split(text), width, maxW), Texts(groups))
  {
    hide SameUpToBlank, FittingSplit, Texts;
    SplitHasShape(text);
    CoreInked(Split(text));
    CoreLines(Split(text), width, maxW);
    WordsMakeASplit(Core(Split(text)), width, maxW);
  }
}
