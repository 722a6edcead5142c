/**
 Line wrapping for the printed guide: the text is split at white space, a word wider than the
 line is cut, and lines are filled greedily. The width of a text is a parameter.
 */
module TextWrap {

  // The width of a text in the chosen font and size.
  type Measure = string -> real

  predicate Fits(width: Measure, maxW: real, s: string) {
    width(s) <= maxW
  }

  // ---------------------------------------------------------------- white space

  /** The characters a regular expression's \s matches. */
  predicate IsSpace(c: char) {
    var n := c as int;
    9 <= n <= 13 || n == 32 || n == 0xA0 || n == 0x1680 || 0x2000 <= n <= 0x200A ||
    n == 0x2028 || n == 0x2029 || n == 0x202F || n == 0x205F || n == 0x3000 || n == 0xFEFF
  }

  /** The number of leading characters that are (or are not) white space. */
  function Leading(text: string, space: bool): (n: nat)
    ensures n <= |text|
    ensures forall i :: 0 <= i < n ==> IsSpace(text[i]) == space
    ensures n < |text| ==> IsSpace(text[n]) != space
  {
    if text == "" || IsSpace(text[0]) != space then 0 else 1 + Leading(text[1..], space)
  }

  /** Splitting at every run of white space. */
  function Split(text: string): seq<string>
    decreases |text|
  {
    var n := Leading(text, false);
    if n == |text| then [text]
    else [text[..n]] + Split(text[n + Leading(text[n..], true)..])
  }

  /** Only the first and the last word of a split can be empty. */
  predicate SplitShape(words: seq<string>) {
    words != [] && forall i :: 0 < i < |words| - 1 ==> words[i] != ""
  }

  lemma {:induction false} SplitHasShape(text: string)
    ensures SplitShape(Split(text))
    ensures text != "" && !IsSpace(text[0]) ==> Split(text)[0] != ""
    ensures text == "" ==> Split(text) == [""]
    decreases |text|
  {
    hide IsSpace, Leading;
    var n := Leading(text, false);
    if n < |text| {
      var rest := text[n + Leading(text[n..], true)..];
      SplitHasShape(rest);
    }
  }

  predicate AllSpace(s: string) {
    forall i :: 0 <= i < |s| ==> IsSpace(s[i])
  }

  predicate NoSpace(s: string) {
    forall i :: 0 <= i < |s| ==> !IsSpace(s[i])
  }

  /** The text is the words with the gaps between them: no white space in a word, nothing else in a gap. */
  predicate Interleaves(text: string, words: seq<string>, gaps: seq<string>)
    decreases |words|
  {
    && |words| == |gaps| + 1 && NoSpace(words[0])
    && if gaps == [] then text == words[0]
       else
         && gaps[0] != "" && AllSpace(gaps[0]) && words[0] + gaps[0] <= text
         && Interleaves(text[|words[0] + gaps[0]|..], words[1..], gaps[1..])
  }

  lemma InterleavesCons(word: string, gap: string, rest: string, words: seq<string>, gaps: seq<string>)
    requires NoSpace(word) && gap != "" && AllSpace(gap) && Interleaves(rest, words, gaps)
    ensures Interleaves(word + gap + rest, [word] + words, [gap] + gaps)
  {
    hide AllSpace, NoSpace;
    assert (word + gap + rest)[|word + gap|..] == rest;
    assert ([word] + words)[1..] == words && ([gap] + gaps)[1..] == gaps;
  }

  lemma InterleavesOne(text: string)
    requires NoSpace(text)
    ensures Interleaves(text, [text], [])
  {
  }

  lemma LeadingTaken(text: string)
    ensures var n := Leading(text, false);
            NoSpace(text[..n]) && AllSpace(text[n..][..Leading(text[n..], true)])
  {
    hide IsSpace;
  }

  /** Nothing is lost but the white space between words, and every run of it separates two words. */
  lemma {:induction false} SplitIsExact(text: string)
    ensures exists gaps :: Interleaves(text, Split(text), gaps)
    decreases |text|
  {
    hide IsSpace, Leading, Interleaves, NoSpace, AllSpace;
    var n := Leading(text, false);
    LeadingTaken(text);
    if n == |text| {
      InterleavesOne(text);
      assert Interleaves(text, Split(text), []);
    } else {
      var m := Leading(text[n..], true);
      var gap, rest := text[n..][..m], text[n + m..];
      SplitIsExact(rest);
      var gaps :| Interleaves(rest, Split(rest), gaps);
      InterleavesCons(text[..n], gap, rest, Split(rest), gaps);
      assert text[..n] + gap + rest == text;
      assert Split(text) == [text[..n]] + Split(rest);
      assert Interleaves(text, Split(text), [gap] + gaps);
    }
  }

  lemma {:induction false} WordsHaveNoSpace(text: string)
    ensures forall i :: 0 <= i < |Split(text)| ==> NoSpace(Split(text)[i])
    decreases |text|
  {
    hide IsSpace, Leading;
    var n := Leading(text, false);
    if n < |text| {
      WordsHaveNoSpace(text[n + Leading(text[n..], true)..]);
    }
  }

  // ------------------------------------------------------------ wrapping, as functions

  /** The inner loop: the longest cut not above `cut` that fits, or a single character. */
  function Shrink(w: string, width: Measure, maxW: real, cut: nat): (r: nat)
    requires 1 <= cut <= |w|
    ensures 1 <= r <= cut
    ensures r == 1 || Fits(width, maxW, w[..r])
    ensures forall k :: r < k <= cut ==> !Fits(width, maxW, w[..k])
  {
    if cut > 1 && !Fits(width, maxW, w[..cut]) then Shrink(w, width, maxW, cut - 1) else cut
  }

  predicate Overlong(w: string, width: Measure, maxW: real) {
    !Fits(width, maxW, w) && |w| > 1
  }

  datatype Broken = Broken(pieces: seq<string>, rest: string)

  function Break(w: string, width: Measure, maxW: real): (b: Broken)
    ensures !Overlong(b.rest, width, maxW)
    ensures forall p :: p in b.pieces ==> p != "" && (Fits(width, maxW, p) || |p| == 1)
    ensures !Overlong(w, width, maxW) ==> b == Broken([], w)
    ensures w != "" ==> b.rest != ""
    decreases |w|
  {
    if Overlong(w, width, maxW) then
      assert w[..|w|] == w;
      var cut := Shrink(w, width, maxW, |w|);
      var b := Break(w[cut..], width, maxW);
      Broken([w[..cut]] + b.pieces, b.rest)
    else Broken([], w)
  }

  /** What is left of a word when the pieces from the i-th on are still to be cut. */
  function Remaining(b: Broken, i: nat): string
    requires i <= |b.pieces|
    decreases |b.pieces| - i
  {
    if i == |b.pieces| then b.rest else b.pieces[i] + Remaining(b, i + 1)
  }

  /** The i-th piece is cut from a text too wide for a line: as much of it as fits, or one character. */
  ghost predicate CutsMost(b: Broken, i: nat, width: Measure, maxW: real)
    requires i < |b.pieces|
  {
    var whole, cut := Remaining(b, i), |b.pieces[i]|;
    && width(whole) > maxW && |whole| > 1 && 1 <= cut <= |whole|
    && (width(whole[..cut]) <= maxW || cut == 1)
    && forall k :: cut < k <= |whole| ==> width(whole[..k]) > maxW
  }

  lemma RemainingTail(p: string, b: Broken, i: nat)
    requires i <= |b.pieces|
    ensures Remaining(Broken([p] + b.pieces, b.rest), i + 1) == Remaining(b, i)
    decreases |b.pieces| - i
  {
    if i < |b.pieces| {
      RemainingTail(p, b, i + 1);
    }
  }

  lemma CutsMostTail(p: string, b: Broken, i: nat, width: Measure, maxW: real)
    requires i < |b.pieces| && CutsMost(b, i, width, maxW)
    ensures CutsMost(Broken([p] + b.pieces, b.rest), i + 1, width, maxW)
  {
    hide Remaining;
    RemainingTail(p, b, i);
  }

  lemma CutsMostHead(w: string, cut: nat, b: Broken, width: Measure, maxW: real)
    requires width(w) > maxW && |w| > 1 && cut == Shrink(w, width, maxW, |w|)
    requires Remaining(b, 0) == w[cut..]
    ensures Remaining(Broken([w[..cut]] + b.pieces, b.rest), 0) == w
    ensures CutsMost(Broken([w[..cut]] + b.pieces, b.rest), 0, width, maxW)
  {
    RemainingTail(w[..cut], b, 0);
    assert w[..cut] + w[cut..] == w;
    hide Shrink;
  }

  /** The word is its pieces and the rest, each piece is as long as a line allows, and the rest needs no cut. */
  ghost predicate CutsAll(b: Broken, w: string, width: Measure, maxW: real) {
    && Remaining(b, 0) == w
    && (width(b.rest) <= maxW || |b.rest| <= 1)
    && forall i :: 0 <= i < |b.pieces| ==> CutsMost(b, i, width, maxW)
  }

  lemma CutsAllCons(w: string, cut: nat, b: Broken, width: Measure, maxW: real)
    requires width(w) > maxW && |w| > 1 && cut == Shrink(w, width, maxW, |w|)
    requires CutsAll(b, w[cut..], width, maxW)
    ensures CutsAll(Broken([w[..cut]] + b.pieces, b.rest), w, width, maxW)
  {
    hide CutsMost, Shrink, Remaining;
    CutsMostHead(w, cut, b, width, maxW);
    var b' := Broken([w[..cut]] + b.pieces, b.rest);
    forall i | 0 <= i < |b'.pieces| ensures CutsMost(b', i, width, maxW) {
      if i > 0 {
        CutsMostTail(w[..cut], b, i - 1, width, maxW);
      }
    }
  }

  /** The cutting loops do that to every word. */
  lemma {:induction false} PiecesAreMaximal(w: string, width: Measure, maxW: real)
    ensures CutsAll(Break(w, width, maxW), w, width, maxW)
    decreases |w|
  {
    hide CutsAll;
    if Overlong(w, width, maxW) {
      assert w[..|w|] == w;
      var cut := Shrink(w, width, maxW, |w|);
      PiecesAreMaximal(w[cut..], width, maxW);
      CutsAllCons(w, cut, Break(w[cut..], width, maxW), width, maxW);
    } else {
      NothingToCut(w, width, maxW);
    }
  }

  lemma NothingToCut(w: string, width: Measure, maxW: real)
    requires width(w) <= maxW || |w| <= 1
    ensures CutsAll(Broken([], w), w, width, maxW)
  {
  }

  function Extend(cur: string, w: string): string {
    if cur != "" then cur + " " + w else w
  }

  function Pending(cur: string): seq<string> {
    if cur != "" then [cur] else []
  }

  /** The lines still to come when `cur` is the line being filled. */
  function WrapFrom(cur: string, words: seq<string>, width: Measure, maxW: real): seq<string>
    decreases |words|
  {
    if words == [] then Pending(cur)
    else
      var b := Break(words[0], width, maxW);
      var test := Extend(cur, b.rest);
      if Fits(width, maxW, test) then b.pieces + WrapFrom(test, words[1..], width, maxW)
      else b.pieces + Pending(cur) + WrapFrom(b.rest, words[1..], width, maxW)
  }

  /** The outer loop's bookkeeping: breaking a word pushes its pieces and leaves the rest. */
  method PushPieces(w0: string, width: Measure, maxW: real, lines0: seq<string>) returns (lines: seq<string>, w: string)
    ensures lines == lines0 + Break(w0, width, maxW).pieces && w == Break(w0, width, maxW).rest
  {
    lines, w := lines0, w0;
    while width(w) > maxW && |w| > 1
      invariant lines + Break(w, width, maxW).pieces == lines0 + Break(w0, width, maxW).pieces
      invariant Break(w, width, maxW).rest == Break(w0, width, maxW).rest
      decreases |w|
    {
      var cut := |w|;
      while cut > 1 && width(w[..cut]) > maxW
        invariant 1 <= cut <= |w|
        invariant Shrink(w, width, maxW, cut) == Shrink(w, width, maxW, |w|)
      {
        cut := cut - 1;
      }
      assert w[..|w|] == w;
      Regroup(lines, [w[..cut]], Break(w[cut..], width, maxW).pieces);
      lines := lines + [w[..cut]];
      w := w[cut..];
    }
  }

  /** One turn of the outer loop, after the word has been broken. */
  method Place(lines0: seq<string>, cur0: string, w: string, width: Measure, maxW: real)
      returns (lines: seq<string>, cur: string)
    ensures Fits(width, maxW, Extend(cur0, w)) ==> lines == lines0 && cur == Extend(cur0, w)
    ensures !Fits(width, maxW, Extend(cur0, w)) ==> lines == lines0 + Pending(cur0) && cur == w
  {
    lines, cur := lines0, cur0;
    var test := if cur != "" then cur + " " + w else w;
    if width(test) <= maxW {
      cur := test;
    } else {
      if cur != "" {
        lines := lines + [cur];
      }
      cur := w;
    }
  }

  /** The loop invariant: what is pushed and what is still to come make the whole. */
  ghost predicate Completes(lines: seq<string>, cur: string, words: seq<string>, width: Measure, maxW: real,
      whole: seq<string>)
  {
    lines + WrapFrom(cur, words, width, maxW) == whole
  }

  lemma Turn(lines: seq<string>, cur: string, words: seq<string>, i: nat, width: Measure, maxW: real,
      whole: seq<string>)
    requires i < |words| && Completes(lines, cur, words[i..], width, maxW, whole)
    ensures var b := Break(words[i], width, maxW);
            var test := Extend(cur, b.rest);
            if Fits(width, maxW, test) then Completes(lines + b.pieces, test, words[i + 1..], width, maxW, whole)
            else Completes(lines + b.pieces + Pending(cur), b.rest, words[i + 1..], width, maxW, whole)
  {
    WrapStep(lines, cur, words[i..], width, maxW);
    assert words[i..][0] == words[i] && words[i..][1..] == words[i + 1..];
  }

  lemma Finish(lines: seq<string>, cur: string, width: Measure, maxW: real, whole: seq<string>)
    requires Completes(lines, cur, [], width, maxW, whole)
    ensures lines + Pending(cur) == whole
  {
  }

  /** The greedy loop, towards the lines `whole` that the specification gives. */
  method FillLines(words: seq<string>, width: Measure, maxW: real, ghost whole: seq<string>)
      returns (lines: seq<string>)
    requires Completes([], "", words, width, maxW, whole)
    ensures lines == whole
  {
    lines := [];
    var cur := "";
    var i := 0;
    assert words[0..] == words;
    while i < |words|
      invariant 0 <= i <= |words|
      invariant Completes(lines, cur, words[i..], width, maxW, whole)
    {
      Turn(lines, cur, words, i, width, maxW, whole);
      var w;
      lines, w := PushPieces(words[i], width, maxW, lines);
      lines, cur := Place(lines, cur, w, width, maxW);
      i := i + 1;
    }
    assert words[i..] == [];
    Finish(lines, cur, width, maxW, whole);
    if cur != "" {
      lines := lines + [cur];
    }
  }

  method Wrap(text: string, width: Measure, maxW: real) returns (lines: seq<string>)
    ensures lines == WrapFrom("", Split(text), width, maxW)
  {
    var words := Split(text);
    assert [] + WrapFrom("", words, width, maxW) == WrapFrom("", words, width, maxW);
    lines := FillLines(words, width, maxW, WrapFrom("", words, width, maxW));
  }

  lemma WrapStep(lines: seq<string>, cur: string, words: seq<string>, width: Measure, maxW: real)
    requires words != []
    ensures var b := Break(words[0], width, maxW);
            var test := Extend(cur, b.rest);
            lines + WrapFrom(cur, words, width, maxW) ==
            if Fits(width, maxW, test) then lines + b.pieces + WrapFrom(test, words[1..], width, maxW)
            else lines + b.pieces + Pending(cur) + WrapFrom(b.rest, words[1..], width, maxW)
  {
    var b := Break(words[0], width, maxW);
    var test := Extend(cur, b.rest);
    if Fits(width, maxW, test) {
      Regroup(lines, b.pieces, WrapFrom(test, words[1..], width, maxW));
    } else {
      Regroup(lines, b.pieces + Pending(cur), WrapFrom(b.rest, words[1..], width, maxW));
      Regroup(lines, b.pieces, Pending(cur));
    }
  }

  lemma Regroup<T>(a: seq<T>, b: seq<T>, c: seq<T>)
    ensures a + (b + c) == a + b + c
  {
  }

  // ------------------------------------------------------------- any text at all

  /** Every line fits, unless it is a single character. */
  lemma {:induction false} LinesFit(cur: string, words: seq<string>, width: Measure, maxW: real)
    requires !Overlong(cur, width, maxW)
    ensures forall l :: l in WrapFrom(cur, words, width, maxW) ==> l != "" && (Fits(width, maxW, l) || |l| == 1)
    decreases |words|
  {
    if words != [] {
      var b := Break(words[0], width, maxW);
      var test := Extend(cur, b.rest);
      if Fits(width, maxW, test) {
        LinesFit(test, words[1..], width, maxW);
      } else {
        LinesFit(b.rest, words[1..], width, maxW);
      }
    }
  }

  /** The visible characters of a text, in order. */
  function Visible(s: string): string {
    if s == "" then "" else Visible(s[..|s| - 1]) + VisibleChar(s[|s| - 1])
  }

  function VisibleChar(c: char): string {
    if IsSpace(c) then "" else [c]
  }

  /** The visible characters of the lines, read from the first to the last. */
  function Reading(lines: seq<string>): string {
    if lines == [] then "" else Visible(lines[0]) + Reading(lines[1..])
  }

  lemma {:induction false} VisibleAppend(a: string, b: string)
    ensures Visible(a + b) == Visible(a) + Visible(b)
  {
    hide VisibleChar;
    if b == "" {
      assert a + b == a;
    } else {
      VisibleAppend(a, b[..|b| - 1]);
      assert (a + b)[..|a + b| - 1] == a + b[..|b| - 1];
      Regroup(Visible(a), Visible(b[..|b| - 1]), VisibleChar(b[|b| - 1]));
    }
  }

  lemma ReadingCons(s: string, rest: seq<string>)
    ensures Reading([s] + rest) == Visible(s) + Reading(rest)
  {
    assert ([s] + rest)[1..] == rest;
  }

  lemma {:induction false} ReadingAppend(a: seq<string>, b: seq<string>)
    ensures Reading(a + b) == Reading(a) + Reading(b)
  {
    if a == [] {
      assert a + b == b;
    } else {
      ReadingAppend(a[1..], b);
      assert a == [a[0]] + a[1..];
      Regroup([a[0]], a[1..], b);
      ReadingCons(a[0], a[1..] + b);
      Regroup(Visible(a[0]), Reading(a[1..]), Reading(b));
    }
  }

  lemma {:induction false} VisibleBlank(s: string)
    requires AllSpace(s)
    ensures Visible(s) == ""
  {
    if s != "" {
      VisibleBlank(s[..|s| - 1]);
    }
  }

  lemma {:induction false} VisibleWord(w: string)
    requires NoSpace(w)
    ensures Visible(w) == w
  {
    if w != "" {
      VisibleWord(w[..|w| - 1]);
      assert w == w[..|w| - 1] + [w[|w| - 1]];
    }
  }

  lemma VisibleOfThree(a: string, gap: string, rest: string)
    requires AllSpace(gap)
    ensures Visible(a + gap + rest) == Visible(a) + Visible(rest)
  {
    hide Visible, AllSpace;
    VisibleBlank(gap);
    VisibleAppend(a, gap);
    VisibleAppend(a + gap, rest);
  }

  /** The words of the split read as the text does. */
  lemma {:induction false} SplitReads(text: string)
    ensures Reading(Split(text)) == Visible(text)
    decreases |text|
  {
    hide IsSpace, Visible, Leading;
    var n := Leading(text, false);
    if n < |text| {
      var m := Leading(text[n..], true);
      var a, gap, rest := text[..n], text[n..][..m], text[n + m..];
      SplitReads(rest);
      VisibleOfThree(a, gap, rest);
      assert text == a + gap + rest;
      ReadingCons(a, Split(rest));
      assert Split(text) == [a] + Split(rest);
    } else {
      ReadingCons(text, []);
    }
  }

  /** The pieces and the rest read as the word does. */
  lemma {:induction false} BreakReads(w: string, width: Measure, maxW: real)
    ensures var b := Break(w, width, maxW);
            Reading(b.pieces) + Visible(b.rest) == Visible(w)
    decreases |w|
  {
    hide IsSpace, Visible, Fits;
    if Overlong(w, width, maxW) {
      assert w[..|w|] == w;
      var cut := Shrink(w, width, maxW, |w|);
      BreakReads(w[cut..], width, maxW);
      VisibleAppend(w[..cut], w[cut..]);
      assert w[..cut] + w[cut..] == w;
      var b := Break(w[cut..], width, maxW);
      ReadingCons(w[..cut], b.pieces);
      Regroup(Visible(w[..cut]), Reading(b.pieces), Visible(b.rest));
    }
  }

  lemma NothingVisible()
    ensures Visible("") == ""
  {
  }

  lemma ExtendReads(cur: string, w: string)
    ensures Visible(Extend(cur, w)) == Visible(cur) + Visible(w)
  {
    hide Visible;
    if cur != "" {
      VisibleOfThree(cur, " ", w);
    } else {
      NothingVisible();
    }
  }

  lemma PendingReads(cur: string)
    ensures Reading(Pending(cur)) == Visible(cur)
  {
    ReadingCons(cur, []);
  }

  /** One word on: the pieces come first, and the pending line after them. */
  lemma WrapReads(cur: string, words: seq<string>, width: Measure, maxW: real)
    requires words != []
    ensures var b := Break(words[0], width, maxW);
            var test := Extend(cur, b.rest);
            Reading(WrapFrom(cur, words, width, maxW)) ==
            if Fits(width, maxW, test) then Reading(b.pieces) + Reading(WrapFrom(test, words[1..], width, maxW))
            else Reading(b.pieces) + Visible(cur) + Reading(WrapFrom(b.rest, words[1..], width, maxW))
  {
    hide Reading, Visible;
    var b := Break(words[0], width, maxW);
    var test := Extend(cur, b.rest);
    if Fits(width, maxW, test) {
      ReadingAppend(b.pieces, WrapFrom(test, words[1..], width, maxW));
    } else {
      PendingReads(cur);
      ReadingAppend(b.pieces, Pending(cur));
      ReadingAppend(b.pieces + Pending(cur), WrapFrom(b.rest, words[1..], width, maxW));
    }
  }

  lemma {:induction false} WrapKeepsVisible(cur: string, words: seq<string>, width: Measure, maxW: real)
    ensures multiset(Reading(WrapFrom(cur, words, width, maxW))) == multiset(Visible(cur)) + multiset(Reading(words))
    decreases |words|
  {
    hide Visible, Fits, Extend, Break, Pending;
    if words == [] {
      PendingReads(cur);
    } else {
      var b := Break(words[0], width, maxW);
      var test := Extend(cur, b.rest);
      BreakReads(words[0], width, maxW);
      WrapReads(cur, words, width, maxW);
      ReadingCons(words[0], words[1..]);
      assert words == [words[0]] + words[1..];
      if Fits(width, maxW, test) {
        ExtendReads(cur, b.rest);
        WrapKeepsVisible(test, words[1..], width, maxW);
      } else {
        WrapKeepsVisible(b.rest, words[1..], width, maxW);
      }
      assert multiset(Visible(words[0])) == multiset(Reading(b.pieces)) + multiset(Visible(b.rest));
    }
  }

  /** Wrapping loses, invents and repeats no visible character of any text. */
  lemma {:induction false} WrapConserves(text: string, width: Measure, maxW: real)
    ensures multiset(Reading(WrapFrom("", Split(text), width, maxW))) == multiset(Visible(text))
  {
    SplitReads(text);
    WrapKeepsVisible("", Split(text), width, maxW);
  }
}
