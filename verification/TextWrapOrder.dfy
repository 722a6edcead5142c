/**
 The order in which the wrapped lines read: a word that has to be cut sends its pieces ahead of the
 line being filled.
 */
module TextWrapOrder {
  import opened TextWrap

  /** No word after another has to be cut; empty words do not count. */
  predicate LaterWordsFit(words: seq<string>, width: Measure, maxW: real) {
    forall i, j :: 0 <= i < j < |words| && words[i] != "" ==> width(words[j]) <= maxW || |words[j]| <= 1
  }

  predicate AllFit(words: seq<string>, width: Measure, maxW: real) {
    forall i :: 0 <= i < |words| ==> !Overlong(words[i], width, maxW)
  }

  predicate AllWords(words: seq<string>) {
    forall i :: 0 <= i < |words| ==> NoSpace(words[i])
  }

  /** No character occurs twice. */
  predicate Distinct(s: string) {
    forall i, j :: 0 <= i < j < |s| ==> s[i] != s[j]
  }

  // ---------------------------------------------------------- when the order is kept

  lemma EndReads(cur: string, words: seq<string>, width: Measure, maxW: real)
    requires words == []
    ensures Reading(WrapFrom(cur, words, width, maxW)) == Visible(cur) == Visible(cur) + Reading(words)
  {
    hide Visible;
    PendingReads(cur);
  }

  lemma WordsRead(words: seq<string>)
    requires words != []
    ensures Reading(words) == Visible(words[0]) + Reading(words[1..])
  {
  }

  /** One word on, when it need not be cut. */
  lemma UncutReads(cur: string, words: seq<string>, width: Measure, maxW: real)
    requires words != [] && !Overlong(words[0], width, maxW)
    ensures Reading(WrapFrom(cur, words, width, maxW)) ==
            if Fits(width, maxW, Extend(cur, words[0])) then
              Reading(WrapFrom(Extend(cur, words[0]), words[1..], width, maxW))
            else Visible(cur) + Reading(WrapFrom(words[0], words[1..], width, maxW))
  {
    hide Visible, WrapFrom, Extend;
    WrapReads(cur, words, width, maxW);
  }

  lemma {:induction false} FittingWordsKeepOrder(cur: string, words: seq<string>, width: Measure, maxW: real)
    requires AllFit(words, width, maxW)
    ensures Reading(WrapFrom(cur, words, width, maxW)) == Visible(cur) + Reading(words)
    decreases |words|
  {
    hide Reading, Visible, WrapFrom, Extend, Overlong;
    if words == [] {
      EndReads(cur, words, width, maxW);
    } else {
      var w, rest := words[0], words[1..];
      assert AllFit(rest, width, maxW);
      UncutReads(cur, words, width, maxW);
      WordsRead(words);
      ExtendReads(cur, w);
      FittingWordsKeepOrder(Extend(cur, w), rest, width, maxW);
      FittingWordsKeepOrder(w, rest, width, maxW);
      Regroup(Visible(cur), Visible(w), Reading(rest));
    }
  }

  lemma FirstReads(words: seq<string>, width: Measure, maxW: real)
    requires words != []
    ensures var b := Break(words[0], width, maxW);
            Reading(WrapFrom("", words, width, maxW)) ==
              Reading(b.pieces) + Reading(WrapFrom(b.rest, words[1..], width, maxW))
  {
    hide Visible, WrapFrom, Reading, Break;
    NothingVisible();
    WrapReads("", words, width, maxW);
  }

  /** The first word may be cut: no line is being filled yet. */
  lemma FirstWordMayBeCut(words: seq<string>, width: Measure, maxW: real)
    requires words != [] && AllFit(words[1..], width, maxW)
    ensures Reading(WrapFrom("", words, width, maxW)) == Reading(words)
  {
    hide Reading, Visible, WrapFrom, Break, Overlong, AllFit;
    var w, rest := words[0], words[1..];
    var b := Break(w, width, maxW);
    FirstReads(words, width, maxW);
    BreakReads(w, width, maxW);
    WordsRead(words);
    FittingWordsKeepOrder(b.rest, rest, width, maxW);
    Regroup(Reading(b.pieces), Visible(b.rest), Reading(rest));
  }

  lemma {:induction false} LaterFitKeepsOrder(words: seq<string>, width: Measure, maxW: real)
    requires LaterWordsFit(words, width, maxW)
    ensures Reading(WrapFrom("", words, width, maxW)) == Reading(words)
    decreases |words|
  {
    hide Reading, Visible, WrapFrom;
    if words == [] {
      NothingVisible();
      EndReads("", words, width, maxW);
    } else if words[0] == "" {
      EmptyWordReads(words, width, maxW);
      LaterFitKeepsOrder(words[1..], width, maxW);
    } else {
      FirstWordMayBeCut(words, width, maxW);
    }
  }

  lemma EmptyWordReads(words: seq<string>, width: Measure, maxW: real)
    requires words != [] && words[0] == ""
    ensures Reading(words) == Reading(words[1..])
    ensures WrapFrom("", words, width, maxW) == WrapFrom("", words[1..], width, maxW)
  {
    hide Visible;
    NothingVisible();
  }

  // ------------------------------------------------------------- when it is not

  /** A word that is cut begins with its first piece. */
  lemma PiecesStart(w: string, width: Measure, maxW: real)
    requires Overlong(w, width, maxW) && NoSpace(w)
    ensures var pieces := Break(w, width, maxW).pieces;
            Reading(pieces) != "" && Reading(pieces)[0] == w[0]
  {
    hide Reading, Visible;
    assert w[..|w|] == w;
    var cut := Shrink(w, width, maxW, |w|);
    ReadingCons(w[..cut], Break(w[cut..], width, maxW).pieces);
    VisibleWord(w[..cut]);
  }

  lemma CutWordIsInked(w: string, width: Measure, maxW: real)
    requires Overlong(w, width, maxW)
    ensures w != ""
  {
  }

  /** What a word that has to be cut does to a line being filled: its first character comes first. */
  lemma CutWordJumpsAhead(cur: string, words: seq<string>, width: Measure, maxW: real)
    requires words != [] && AllWords(words) && Overlong(words[0], width, maxW)
    ensures var lines := Reading(WrapFrom(cur, words, width, maxW));
            lines != "" && lines[0] == words[0][0]
  {
    hide Reading, Visible, NoSpace;
    WrapReads(cur, words, width, maxW);
    PiecesStart(words[0], width, maxW);
  }

  lemma {:induction false} CutWordBreaksOrder(cur: string, words: seq<string>, k: nat, width: Measure, maxW: real)
    requires Visible(cur) != "" && AllWords(words) && k < |words| && Overlong(words[k], width, maxW)
    requires forall i :: 0 <= i < k ==> words[i] != ""
    requires Distinct(Visible(cur) + Reading(words))
    ensures Reading(WrapFrom(cur, words, width, maxW)) != Visible(cur) + Reading(words)
    decreases |words|
  {
    hide Reading, Visible, WrapFrom, Extend, NoSpace, Distinct, Overlong;
    var w, rest := words[0], words[1..];
    WordsRead(words);
    VisibleWord(w);
    if Overlong(w, width, maxW) {
      CutWordJumpsAhead(cur, words, width, maxW);
      CutWordIsInked(w, width, maxW);
      DifferentStarts(Visible(cur), w, Reading(rest));
    } else {
      assert k > 0 && rest[k - 1] == words[k];
      assert forall i :: 0 <= i < k - 1 ==> rest[i] == words[i + 1];
      assert AllWords(rest);
      UncutReads(cur, words, width, maxW);
      Regroup(Visible(cur), w, Reading(rest));
      if Fits(width, maxW, Extend(cur, w)) {
        ExtendReads(cur, w);
        CutWordBreaksOrder(Extend(cur, w), rest, k - 1, width, maxW);
      } else {
        DistinctTail(Visible(cur), Reading(words));
        CutWordBreaksOrder(w, rest, k - 1, width, maxW);
        Cancel(Visible(cur), Reading(WrapFrom(w, rest, width, maxW)), Reading(words));
      }
    }
  }

  lemma DifferentStarts(a: string, b: string, c: string)
    requires a != "" && b != "" && Distinct(a + (b + c))
    ensures (a + (b + c))[0] != b[0]
  {
    assert (a + (b + c))[|a|] == b[0];
  }

  lemma DistinctTail(a: string, b: string)
    requires Distinct(a + b)
    ensures Distinct(b)
  {
    forall i, j | 0 <= i < j < |b| ensures b[i] != b[j] {
      assert (a + b)[|a| + i] == b[i] && (a + b)[|a| + j] == b[j];
    }
  }

  lemma Cancel(a: string, b: string, c: string)
    ensures a + b == a + c ==> b == c
  {
    assert (a + b)[|a|..] == b && (a + c)[|a|..] == c;
  }

  lemma {:induction false} RestIsVisible(w: string, width: Measure, maxW: real)
    requires NoSpace(w) && w != ""
    ensures Visible(Break(w, width, maxW).rest) != ""
    decreases |w|
  {
    hide Visible;
    if Overlong(w, width, maxW) {
      assert w[..|w|] == w;
      RestIsVisible(w[Shrink(w, width, maxW, |w|)..], width, maxW);
    } else {
      VisibleWord(w);
    }
  }

  lemma FirstWordThenCut(words: seq<string>, j: nat, width: Measure, maxW: real)
    requires AllWords(words) && 0 < j < |words| && Overlong(words[j], width, maxW) && Distinct(Reading(words))
    requires forall i :: 0 <= i < j ==> words[i] != ""
    ensures Reading(WrapFrom("", words, width, maxW)) != Reading(words)
  {
    hide Visible, WrapFrom, NoSpace, Distinct, Reading, Break, Overlong;
    var w, rest := words[0], words[1..];
    var b := Break(w, width, maxW);
    var lines := Reading(WrapFrom(b.rest, rest, width, maxW));
    assert Reading(WrapFrom("", words, width, maxW)) == Reading(b.pieces) + lines by {
      FirstReads(words, width, maxW);
    }
    assert Reading(words) == Reading(b.pieces) + (Visible(b.rest) + Reading(rest)) by {
      WordsRead(words);
      BreakReads(w, width, maxW);
      Regroup(Reading(b.pieces), Visible(b.rest), Reading(rest));
    }
    assert lines != Visible(b.rest) + Reading(rest) by {
      assert AllWords(rest) && rest[j - 1] == words[j];
      assert forall l :: 0 <= l < j - 1 ==> rest[l] == words[l + 1];
      RestIsVisible(w, width, maxW);
      DistinctTail(Reading(b.pieces), Visible(b.rest) + Reading(rest));
      CutWordBreaksOrder(b.rest, rest, j - 1, width, maxW);
    }
    Cancel(Reading(b.pieces), lines, Visible(b.rest) + Reading(rest));
  }

  lemma LaterCutBreaksOrder(words: seq<string>, width: Measure, maxW: real)
    requires AllWords(words) && SplitShape(words) && !LaterWordsFit(words, width, maxW) && Distinct(Reading(words))
    ensures Reading(WrapFrom("", words, width, maxW)) != Reading(words)
  {
    hide Visible, WrapFrom, NoSpace, Distinct, Reading;
    var i, j :| 0 <= i < j < |words| && words[i] != "" && Overlong(words[j], width, maxW);
    CutWordIsInked(words[j], width, maxW);
    if words[0] == "" {
      EmptyWordReads(words, width, maxW);
      assert words[1..][j - 1] == words[j];
      FirstWordThenCut(words[1..], j - 1, width, maxW);
    } else {
      FirstWordThenCut(words, j, width, maxW);
    }
  }

  /**
   When the lines read as the text does: if no word after the first has to be cut; and only then, if
   no character of the text occurs twice.
   */
  lemma OrderIsKeptIff(text: string, width: Measure, maxW: real)
    ensures var words := Split(text);
            var lines := WrapFrom("", words, width, maxW);
            && (LaterWordsFit(words, width, maxW) ==> Reading(lines) == Visible(text))
            && (Distinct(Visible(text)) ==>
                  (Reading(lines) == Visible(text) <==> LaterWordsFit(words, width, maxW)))
  {
    hide WrapFrom, Visible, Reading, Distinct, LaterWordsFit;
    var words := Split(text);
    SplitReads(text);
    SplitHasShape(text);
    WordsHaveNoSpace(text);
    if LaterWordsFit(words, width, maxW) {
      LaterFitKeepsOrder(words, width, maxW);
    } else if Distinct(Visible(text)) {
      LaterCutBreaksOrder(words, width, maxW);
    }
  }
}
