/** Greedy word wrapping (`ThumbnailGenerator.wrap_text`).

    Text measurement is a parameter `measure`: it stands for the right edge of
    the text's bounding box at origin (0, 0) in the chosen font. A line "fits"
    when it measures at most `maxWidth`. */
module WordWrap {
  import opened PyText

  predicate Fits(measure: string -> int, maxWidth: int, ws: seq<string>) {
    measure(Join(ws)) <= maxWidth
  }

  /** The loop state: the word lists already closed as lines, and the open one. */
  datatype Progress = Progress(closed: seq<seq<string>>, current: seq<string>)

  /** One iteration: keep the word on the open line if the widened line fits,
      otherwise close the open line (even when it is still empty) and start a
      new one with the word. */
  function Step(st: Progress, word: string, measure: string -> int, maxWidth: int): Progress {
    if Fits(measure, maxWidth, st.current + [word]) then Progress(st.closed, st.current + [word])
    else Progress(st.closed + [st.current], [word])
  }

  /** The loop state after the given words. */
  function Scan(words: seq<string>, measure: string -> int, maxWidth: int): Progress
  {
    if words == [] then Progress([], [])
    else Step(Scan(words[..|words| - 1], measure, maxWidth), words[|words| - 1], measure, maxWidth)
  }

  /** The word lists of all lines, after the open line is closed if non-empty. */
  function Groups(words: seq<string>, measure: string -> int, maxWidth: int): seq<seq<string>>
  {
    var st := Scan(words, measure, maxWidth);
    if st.current != [] then st.closed + [st.current] else st.closed
  }

  /** Each word list joined by single spaces. */
  function JoinAll(groups: seq<seq<string>>): (lines: seq<string>)
    ensures |lines| == |groups|
    ensures forall k :: 0 <= k < |groups| ==> lines[k] == Join(groups[k])
  {
    if groups == [] then [] else JoinAll(groups[..|groups| - 1]) + [Join(groups[|groups| - 1])]
  }

  /** The lines `wrap_text` returns; a text without words comes back as `[text]`. */
  function Wrap(text: string, measure: string -> int, maxWidth: int): seq<string>
  {
    var lines := JoinAll(Groups(Split(text), measure, maxWidth));
    if lines == [] then [text] else lines
  }

  method WrapText(text: string, measure: string -> int, maxWidth: int) returns (lines: seq<string>)
    ensures lines == Wrap(text, measure, maxWidth)
  {
    var words := Split(text);
    lines := [];
    var current: seq<string> := [];
    ghost var closed: seq<seq<string>> := [];
    for i := 0 to |words|
      invariant Scan(words[..i], measure, maxWidth) == Progress(closed, current)
      invariant lines == JoinAll(closed)
    {
      ScanNext(words, i, measure, maxWidth);
      var testLine := Join(current + [words[i]]);
      if measure(testLine) <= maxWidth {
        current := current + [words[i]];
      } else {
        JoinAllSnoc(closed, current);
        lines := lines + [Join(current)];
        closed := closed + [current];
        current := [words[i]];
      }
    }
    assert words[..|words|] == words;
    if current != [] {
      JoinAllSnoc(closed, current);
      lines := lines + [Join(current)];
    }
    if lines == [] {
      lines := [text];
    }
  }

  lemma ScanNext(words: seq<string>, i: nat, measure: string -> int, maxWidth: int)
    requires i < |words|
    ensures Scan(words[..i + 1], measure, maxWidth) == Step(Scan(words[..i], measure, maxWidth), words[i], measure, maxWidth)
  {
    assert words[..i + 1][..i] == words[..i];
  }

  lemma JoinAllSnoc(groups: seq<seq<string>>, g: seq<string>)
    ensures JoinAll(groups + [g]) == JoinAll(groups) + [Join(g)]
  {
    assert (groups + [g])[..|groups|] == groups;
  }

  /** Every prefix of the word list `g` from `from` words on fits. */
  ghost predicate PrefixesFit(measure: string -> int, maxWidth: int, g: seq<string>, from: nat) {
    forall j :: from <= j <= |g| ==> Fits(measure, maxWidth, g[..j])
  }

  /** `next` is a non-empty line whose first word did not fit at the end of `prev`. */
  predicate Overflows(measure: string -> int, maxWidth: int, prev: seq<string>, next: seq<string>) {
    next != [] && !Fits(measure, maxWidth, prev + [next[0]])
  }

  /** What makes a grouping of `words` the greedy one: the groups spell the
      words in order; every word joined its line because the line with it
      fitted (the first word of the first line too, the first word of any
      later line unconditionally); and every later line starts with a word
      that did not fit on the line before it (so only the first line can be
      empty). */
  ghost predicate Greedy(words: seq<string>, g: seq<seq<string>>, measure: string -> int, maxWidth: int) {
    && Concat(g) == words
    && (words == [] ==> g == [])
    && (forall k :: 0 <= k < |g| ==> PrefixesFit(measure, maxWidth, g[k], if k == 0 then 1 else 2))
    && (forall k :: 0 < k < |g| ==> Overflows(measure, maxWidth, g[k - 1], g[k]))
  }

  lemma GroupsNonEmpty(words: seq<string>, measure: string -> int, maxWidth: int)
    requires words != []
    ensures Scan(words, measure, maxWidth).current != []
    ensures Groups(words, measure, maxWidth) ==
            Scan(words, measure, maxWidth).closed + [Scan(words, measure, maxWidth).current]
  {
  }

  /** Greedy grouping of a single word. */
  lemma GreedySingle(w: string, measure: string -> int, maxWidth: int)
    ensures Fits(measure, maxWidth, [w]) ==> Greedy([w], [[w]], measure, maxWidth)
    ensures !Fits(measure, maxWidth, [w]) ==> Greedy([w], [[], [w]], measure, maxWidth)
  {
    assert [w][..1] == [w];
    assert [[w]] == [] + [[w]];
    ConcatSnoc([], [w]);
    assert [[], [w]] == [[]] + [[w]];
    var none: seq<string> := [];
    assert [none] == [] + [none];
    ConcatSnoc([], none);
    ConcatSnoc([none], [w]);
  }

  /** A line whose prefixes fit still does when a word that fits is added. */
  lemma PrefixesFitSnoc(measure: string -> int, maxWidth: int, line: seq<string>, w: string, from: nat)
    requires PrefixesFit(measure, maxWidth, line, from) && Fits(measure, maxWidth, line + [w])
    ensures PrefixesFit(measure, maxWidth, line + [w], from)
  {
    var line' := line + [w];
    forall j | from <= j <= |line'| ensures Fits(measure, maxWidth, line'[..j]) {
      if j == |line'| {
        assert line'[..j] == line';
      } else {
        assert line'[..j] == line[..j];
      }
    }
  }

  /** ... and still does when its last word is removed. */
  lemma PrefixesFitDrop(measure: string -> int, maxWidth: int, line: seq<string>, from: nat)
    requires PrefixesFit(measure, maxWidth, line, from) && line != []
    ensures PrefixesFit(measure, maxWidth, line[..|line| - 1], from)
  {
    var line' := line[..|line| - 1];
    forall j | from <= j <= |line'| ensures Fits(measure, maxWidth, line'[..j]) {
      assert line'[..j] == line[..j];
    }
  }

  /** A word that fits at the end of the last line joins it. */
  lemma GreedyExtend(words: seq<string>, g: seq<seq<string>>, w: string, measure: string -> int, maxWidth: int)
    requires Greedy(words, g, measure, maxWidth) && g != []
    requires Fits(measure, maxWidth, g[|g| - 1] + [w])
    ensures Greedy(words + [w], g[..|g| - 1] + [g[|g| - 1] + [w]], measure, maxWidth)
  {
    var n := |g|;
    var last := g[n - 1] + [w];
    var g' := g[..n - 1] + [last];
    assert g == g[..n - 1] + [g[n - 1]];
    ConcatSnoc(g[..n - 1], g[n - 1]);
    ConcatSnoc(g[..n - 1], last);
    forall k | 0 <= k < |g'|
      ensures PrefixesFit(measure, maxWidth, g'[k], if k == 0 then 1 else 2)
    {
      if k == n - 1 {
        PrefixesFitSnoc(measure, maxWidth, g[k], w, if k == 0 then 1 else 2);
      } else {
        assert g'[k] == g[k];
      }
    }
    forall k | 0 < k < |g'|
      ensures Overflows(measure, maxWidth, g'[k - 1], g'[k])
    {
      assert g'[k - 1] == g[k - 1];
      assert Overflows(measure, maxWidth, g[k - 1], g[k]);
      assert g'[k][0] == g[k][0];
    }
  }

  /** A word that does not fit at the end of the last line starts a new one. */
  lemma GreedyBreak(words: seq<string>, g: seq<seq<string>>, w: string, measure: string -> int, maxWidth: int)
    requires Greedy(words, g, measure, maxWidth) && g != []
    requires !Fits(measure, maxWidth, g[|g| - 1] + [w])
    ensures Greedy(words + [w], g + [[w]], measure, maxWidth)
  {
    var g' := g + [[w]];
    ConcatSnoc(g, [w]);
    forall k | 0 <= k < |g'|
      ensures PrefixesFit(measure, maxWidth, g'[k], if k == 0 then 1 else 2)
    {
      if k < |g| {
        assert g'[k] == g[k];
      }
    }
    forall k | 0 < k < |g'|
      ensures Overflows(measure, maxWidth, g'[k - 1], g'[k])
    {
      if k < |g| {
        assert g'[k - 1] == g[k - 1] && g'[k] == g[k];
      }
    }
  }

  /** The loop computes the greedy grouping. */
  lemma {:induction false} GroupsAreGreedy(words: seq<string>, measure: string -> int, maxWidth: int)
    ensures Greedy(words, Groups(words, measure, maxWidth), measure, maxWidth)
    decreases |words|
  {
    if words == [] {
      return;
    }
    var front, w := words[..|words| - 1], words[|words| - 1];
    assert front + [w] == words;
    if front == [] {
      assert Scan(front, measure, maxWidth) == Progress([], []);
      assert words == [w];
      var none: seq<string> := [];
      assert none + [w] == [w];
      if Fits(measure, maxWidth, [w]) {
        assert Groups(words, measure, maxWidth) == [[w]];
      } else {
        assert Groups(words, measure, maxWidth) == [none, [w]];
      }
      GreedySingle(w, measure, maxWidth);
      return;
    }
    GroupsAreGreedy(front, measure, maxWidth);
    GroupsNonEmpty(front, measure, maxWidth);
    var st := Scan(front, measure, maxWidth);
    var g0 := Groups(front, measure, maxWidth);
    assert g0[..|g0| - 1] == st.closed && g0[|g0| - 1] == st.current;
    if Fits(measure, maxWidth, st.current + [w]) {
      GreedyExtend(front, g0, w, measure, maxWidth);
    } else {
      GreedyBreak(front, g0, w, measure, maxWidth);
    }
  }

  /** A grouping without its last word: the last line loses that word, or
      disappears when the word was all it held. */
  function Shrunk(g: seq<seq<string>>): seq<seq<string>>
    requires g != [] && g[|g| - 1] != []
  {
    var last := g[|g| - 1];
    if |last| >= 2 then g[..|g| - 1] + [last[..|last| - 1]] else g[..|g| - 1]
  }

  /** In a greedy grouping of at least two words the last line holds a word,
      and that word is the last word. */
  lemma GreedyLastLine(words: seq<string>, g: seq<seq<string>>, measure: string -> int, maxWidth: int)
    requires Greedy(words, g, measure, maxWidth) && |words| >= 2
    ensures g != [] && g[|g| - 1] != []
    ensures Concat(g[..|g| - 1]) + g[|g| - 1] == words
    ensures g[|g| - 1][|g[|g| - 1]| - 1] == words[|words| - 1]
  {
    var n := |g|;
    assert n > 0;
    var last := g[n - 1];
    assert g == g[..n - 1] + [last];
    ConcatSnoc(g[..n - 1], last);
    if n == 1 {
      assert last == words;
    } else {
      assert Overflows(measure, maxWidth, g[n - 2], g[n - 1]);
    }
  }

  /** Removing the last word of a greedy grouping of two or more words leaves a
      greedy grouping of the other words. */
  lemma GreedyShrink(words: seq<string>, g: seq<seq<string>>, measure: string -> int, maxWidth: int)
    requires Greedy(words, g, measure, maxWidth) && |words| >= 2
    ensures g != [] && g[|g| - 1] != []
    ensures Greedy(words[..|words| - 1], Shrunk(g), measure, maxWidth)
  {
    GreedyLastLine(words, g, measure, maxWidth);
    if |g[|g| - 1]| >= 2 {
      GreedyShrinkLong(words, g, measure, maxWidth);
    } else {
      GreedyShrinkShort(words, g, measure, maxWidth);
    }
  }

  lemma GreedyShrinkLong(words: seq<string>, g: seq<seq<string>>, measure: string -> int, maxWidth: int)
    requires Greedy(words, g, measure, maxWidth) && g != [] && |g[|g| - 1]| >= 2 && words != []
    requires Concat(g[..|g| - 1]) + g[|g| - 1] == words
    ensures Greedy(words[..|words| - 1], Shrunk(g), measure, maxWidth)
  {
    var n := |g|;
    var last := g[n - 1];
    var front := words[..|words| - 1];
    var last' := last[..|last| - 1];
    var g' := g[..n - 1] + [last'];
    ConcatSnoc(g[..n - 1], last');
    assert last' + [last[|last| - 1]] == last;
    assert Concat(g') == front;
    forall k | 0 <= k < |g'|
      ensures PrefixesFit(measure, maxWidth, g'[k], if k == 0 then 1 else 2)
    {
      if k == n - 1 {
        PrefixesFitDrop(measure, maxWidth, g[k], if k == 0 then 1 else 2);
      } else {
        assert g'[k] == g[k];
      }
    }
    forall k | 0 < k < |g'|
      ensures Overflows(measure, maxWidth, g'[k - 1], g'[k])
    {
      assert g'[k - 1] == g[k - 1];
      assert Overflows(measure, maxWidth, g[k - 1], g[k]);
      assert g'[k][0] == g[k][0];
    }
  }

  lemma GreedyShrinkShort(words: seq<string>, g: seq<seq<string>>, measure: string -> int, maxWidth: int)
    requires Greedy(words, g, measure, maxWidth) && g != [] && |g[|g| - 1]| == 1 && |words| >= 2
    requires Concat(g[..|g| - 1]) + g[|g| - 1] == words
    ensures Greedy(words[..|words| - 1], Shrunk(g), measure, maxWidth)
  {
    var n := |g|;
    var front := words[..|words| - 1];
    var g' := g[..n - 1];
    assert Concat(g') == front;
    assert front != [];
    forall k | 0 <= k < |g'|
      ensures PrefixesFit(measure, maxWidth, g'[k], if k == 0 then 1 else 2)
    {
      assert g'[k] == g[k];
    }
    forall k | 0 < k < |g'|
      ensures Overflows(measure, maxWidth, g'[k - 1], g'[k])
    {
      assert g'[k - 1] == g[k - 1] && g'[k] == g[k];
    }
  }

  /** A greedy grouping of one word is one of the two the loop can produce. */
  lemma GreedySingleUnique(w: string, g: seq<seq<string>>, measure: string -> int, maxWidth: int)
    requires Greedy([w], g, measure, maxWidth)
    ensures Fits(measure, maxWidth, [w]) ==> g == [[w]]
    ensures !Fits(measure, maxWidth, [w]) ==> g == [[], [w]]
  {
    var n := |g|;
    assert n > 0;
    assert g == g[..n - 1] + [g[n - 1]];
    ConcatSnoc(g[..n - 1], g[n - 1]);
    if n == 1 {
      assert g[0] == [w];
      assert PrefixesFit(measure, maxWidth, g[0], 1);
      assert g[0][..1] == [w];
    } else {
      assert Overflows(measure, maxWidth, g[n - 2], g[n - 1]);
      assert Concat(g[..n - 1]) == [];
      assert g[n - 1] == [w];
      if n > 2 {
        assert Overflows(measure, maxWidth, g[0], g[1]);
        ConcatAtLeast(g[..n - 1], 2);
      }
      assert n == 2;
      assert g[..1] == [] + [g[0]];
      ConcatSnoc([], g[0]);
      assert g[0] == [];
      assert g[0] + [g[1][0]] == [w];
    }
  }

  /** The greedy grouping is the only one: the loop's result is characterised
      by `Greedy` alone. */
  lemma {:induction false} GreedyIsUnique(words: seq<string>, g: seq<seq<string>>, measure: string -> int, maxWidth: int)
    requires Greedy(words, g, measure, maxWidth)
    ensures g == Groups(words, measure, maxWidth)
    decreases |words|
  {
    if words == [] {
      return;
    }
    if |words| == 1 {
      assert words == [words[0]] && words[..0] == [];
      assert Scan(words, measure, maxWidth) == Step(Progress([], []), words[0], measure, maxWidth);
      GreedySingleUnique(words[0], g, measure, maxWidth);
      return;
    }
    GreedyShrink(words, g, measure, maxWidth);
    GreedyIsUnique(words[..|words| - 1], Shrunk(g), measure, maxWidth);
    GreedyLastLine(words, g, measure, maxWidth);
    var n, last := |g|, g[|g| - 1];
    if |last| >= 2 {
      assert PrefixesFit(measure, maxWidth, g[n - 1], if n - 1 == 0 then 1 else 2);
      assert last[..|last|] == last;
      UniqueStepExtend(words, g, measure, maxWidth);
    } else {
      assert Overflows(measure, maxWidth, g[n - 2], g[n - 1]);
      UniqueStepBreak(words, g, measure, maxWidth);
    }
  }

  /** The last word stayed on the last line because the line fitted. */
  lemma UniqueStepExtend(words: seq<string>, g: seq<seq<string>>, measure: string -> int, maxWidth: int)
    requires |words| >= 2 && g != [] && |g[|g| - 1]| >= 2
    requires g[|g| - 1][|g[|g| - 1]| - 1] == words[|words| - 1]
    requires Groups(words[..|words| - 1], measure, maxWidth) == Shrunk(g)
    requires Fits(measure, maxWidth, g[|g| - 1])
    ensures g == Groups(words, measure, maxWidth)
  {
    var front, w := words[..|words| - 1], words[|words| - 1];
    assert front + [w] == words;
    GroupsNonEmpty(front, measure, maxWidth);
    var st := Scan(front, measure, maxWidth);
    var n, last := |g|, g[|g| - 1];
    var last' := last[..|last| - 1];
    var both := st.closed + [st.current];
    assert both == g[..n - 1] + [last'];
    assert |st.closed| == n - 1;
    assert st.closed == both[..n - 1] == g[..n - 1];
    assert st.current == both[n - 1] == last';
    assert last' + [w] == last;
    assert g == g[..n - 1] + [last];
  }

  /** The last word opened a new line because it did not fit on the one before. */
  lemma UniqueStepBreak(words: seq<string>, g: seq<seq<string>>, measure: string -> int, maxWidth: int)
    requires |words| >= 2 && |g| >= 2 && g[|g| - 1] == [words[|words| - 1]]
    requires Groups(words[..|words| - 1], measure, maxWidth) == Shrunk(g)
    requires Overflows(measure, maxWidth, g[|g| - 2], g[|g| - 1])
    ensures g == Groups(words, measure, maxWidth)
  {
    var front, w := words[..|words| - 1], words[|words| - 1];
    assert front + [w] == words;
    GroupsNonEmpty(front, measure, maxWidth);
    var st := Scan(front, measure, maxWidth);
    var n := |g|;
    assert st.closed + [st.current] == g[..n - 1];
    assert g[..n - 1][n - 2] == g[n - 2];
    assert g == g[..n - 1] + [[w]];
  }

  /** Flattening a grouping whose group at index `m - 1` is non-empty gives a
      non-empty sequence. */
  lemma {:induction false} ConcatAtLeast(g: seq<seq<string>>, m: nat)
    requires 1 <= m <= |g| && g[m - 1] != []
    ensures Concat(g) != []
    decreases |g|
  {
    var n := |g|;
    assert Concat(g) == Concat(g[..n - 1]) + g[n - 1];
    if m < n {
      ConcatAtLeast(g[..n - 1], m);
    }
  }

  /** The words of each line, line by line (`line.split()` for each line). */
  function SplitAll(lines: seq<string>): (r: seq<seq<string>>)
    ensures |r| == |lines|
    ensures forall k :: 0 <= k < |lines| ==> r[k] == Split(lines[k])
  {
    if lines == [] then [] else SplitAll(lines[..|lines| - 1]) + [Split(lines[|lines| - 1])]
  }

  /** Splitting lines joined by spaces gives the words of all lines in order. */
  lemma {:induction false} SplitOfJoin(lines: seq<string>)
    ensures Split(Join(lines)) == Concat(SplitAll(lines))
  {
    var n := |lines|;
    if n == 0 {
    } else if n == 1 {
      assert SplitAll(lines) == [] + [Split(lines[0])];
      ConcatSnoc([], Split(lines[0]));
    } else {
      var front := lines[..n - 1];
      SplitOfJoin(front);
      SplitAtSpace(Join(front), lines[n - 1]);
      assert SplitAll(lines) == SplitAll(front) + [Split(lines[n - 1])];
      ConcatSnoc(SplitAll(front), Split(lines[n - 1]));
    }
  }

  /** Every word of every group is one of the words being grouped. */
  lemma {:induction false} ConcatWords(g: seq<seq<string>>)
    requires forall i :: 0 <= i < |Concat(g)| ==> IsWord(Concat(g)[i])
    ensures forall k, i :: 0 <= k < |g| && 0 <= i < |g[k]| ==> IsWord(g[k][i])
  {
    if g != [] {
      var n := |g|;
      assert Concat(g) == Concat(g[..n - 1]) + g[n - 1];
      var c, c' := Concat(g), Concat(g[..n - 1]);
      forall i | 0 <= i < |c'| ensures IsWord(c'[i]) {
        assert c'[i] == c[i];
      }
      var last := g[n - 1];
      forall i | 0 <= i < |last| ensures IsWord(last[i]) {
        assert last[i] == c[|c'| + i];
      }
      ConcatWords(g[..n - 1]);
      forall k, i | 0 <= k < |g| && 0 <= i < |g[k]| ensures IsWord(g[k][i]) {
        if k < n - 1 {
          assert g[k] == g[..n - 1][k];
        }
      }
    }
  }

  /** The first word of the flattening is the first word of the first group. */
  lemma {:induction false} ConcatHead(g: seq<seq<string>>)
    requires g != [] && g[0] != []
    ensures Concat(g) != [] && Concat(g)[0] == g[0][0]
  {
    var n := |g|;
    assert Concat(g) == Concat(g[..n - 1]) + g[n - 1];
    if n > 1 {
      ConcatHead(g[..n - 1]);
    }
  }

  /** The lines of a text with words are its greedy grouping, joined; each
      line's words are its group. */
  lemma WrapLines(text: string, measure: string -> int, maxWidth: int)
    requires Split(text) != []
    ensures var g := Groups(Split(text), measure, maxWidth);
      && Wrap(text, measure, maxWidth) == JoinAll(g)
      && Greedy(Split(text), g, measure, maxWidth)
      && forall k :: 0 <= k < |g| ==> Split(Wrap(text, measure, maxWidth)[k]) == g[k]
  {
    var words := Split(text);
    var g := Groups(words, measure, maxWidth);
    GroupsAreGreedy(words, measure, maxWidth);
    assert g != [];
    ConcatWords(g);
    forall k | 0 <= k < |g| ensures Split(Join(g[k])) == g[k] {
      SplitJoin(g[k]);
    }
  }

  /** `wrap_text` never returns an empty list; a text without words comes back
      unchanged as its only line. */
  lemma WrapNonEmpty(text: string, measure: string -> int, maxWidth: int)
    ensures |Wrap(text, measure, maxWidth)| >= 1
    ensures Split(text) == [] ==> Wrap(text, measure, maxWidth) == [text]
  {
    if Split(text) != [] {
      WrapLines(text, measure, maxWidth);
    }
  }

  /** No word is dropped, reordered or broken: the words of the lines, in
      order, are the words of the text, and joining the lines with spaces
      gives a text with the same words. */
  lemma WrapKeepsWords(text: string, measure: string -> int, maxWidth: int)
    requires Split(text) != []
    ensures Concat(SplitAll(Wrap(text, measure, maxWidth))) == Split(text)
    ensures Split(Join(Wrap(text, measure, maxWidth))) == Split(text)
  {
    var lines := Wrap(text, measure, maxWidth);
    var g := Groups(Split(text), measure, maxWidth);
    WrapLines(text, measure, maxWidth);
    assert SplitAll(lines) == g;
    SplitOfJoin(lines);
  }

  /** A line of two or more words fits; only a line holding a single word can
      be wider than `maxWidth`. The first line fits whenever it has a word. */
  lemma WrapLinesFit(text: string, measure: string -> int, maxWidth: int)
    ensures var lines := Wrap(text, measure, maxWidth);
      forall k :: 0 <= k < |lines| && (|Split(lines[k])| >= 2 || (k == 0 && Split(lines[k]) != [])) ==>
        measure(lines[k]) <= maxWidth
  {
    var lines := Wrap(text, measure, maxWidth);
    if Split(text) != [] {
      WrapLines(text, measure, maxWidth);
      var g := Groups(Split(text), measure, maxWidth);
      forall k | 0 <= k < |lines| && (|Split(lines[k])| >= 2 || (k == 0 && Split(lines[k]) != []))
        ensures measure(lines[k]) <= maxWidth
      {
        assert Split(lines[k]) == g[k];
        assert PrefixesFit(measure, maxWidth, g[k], if k == 0 then 1 else 2);
        assert g[k][..|g[k]|] == g[k];
      }
    } else {
      assert lines == [text];
    }
  }

  /** Placement is greedy: every line after the first is non-empty, and the
      first word of a line did not fit after the previous line. */
  lemma WrapIsGreedy(text: string, measure: string -> int, maxWidth: int)
    requires Split(text) != []
    ensures var lines := Wrap(text, measure, maxWidth);
      forall k :: 0 < k < |lines| ==>
        && Split(lines[k]) != []
        && (lines[k - 1] != "" ==> measure(lines[k - 1] + " " + Split(lines[k])[0]) > maxWidth)
        && (lines[k - 1] == "" ==> k == 1 && measure(Split(lines[k])[0]) > maxWidth)
  {
    var lines := Wrap(text, measure, maxWidth);
    WrapLines(text, measure, maxWidth);
    var g := Groups(Split(text), measure, maxWidth);
    forall k | 0 < k < |lines|
      ensures && Split(lines[k]) != []
              && (lines[k - 1] != "" ==> measure(lines[k - 1] + " " + Split(lines[k])[0]) > maxWidth)
              && (lines[k - 1] == "" ==> k == 1 && measure(Split(lines[k])[0]) > maxWidth)
    {
      GreedyBreakAt(text, measure, maxWidth, k);
    }
  }

  lemma GreedyBreakAt(text: string, measure: string -> int, maxWidth: int, k: nat)
    requires Split(text) != []
    requires 0 < k < |Wrap(text, measure, maxWidth)|
    ensures var lines := Wrap(text, measure, maxWidth);
      && Split(lines[k]) != []
      && (lines[k - 1] != "" ==> measure(lines[k - 1] + " " + Split(lines[k])[0]) > maxWidth)
      && (lines[k - 1] == "" ==> k == 1 && measure(Split(lines[k])[0]) > maxWidth)
  {
    var lines := Wrap(text, measure, maxWidth);
    WrapLines(text, measure, maxWidth);
    var g := Groups(Split(text), measure, maxWidth);
    var prev, next := g[k - 1], g[k];
    assert Split(lines[k]) == next && Split(lines[k - 1]) == prev;
    assert lines[k - 1] == Join(prev);
    assert Overflows(measure, maxWidth, prev, next);
    if prev != [] {
      JoinSnoc(prev, next[0]);
      assert lines[k - 1] != "";
    } else {
      assert lines[k - 1] == "";
      assert k - 1 == 0 || Overflows(measure, maxWidth, g[k - 2], g[k - 1]);
      assert prev + [next[0]] == [next[0]];
    }
  }

  /** The quirk of a too-wide first word: the result starts with an empty line
      exactly when the first word alone is wider than `maxWidth`, and no other
      line is empty. */
  lemma WrapLeadingEmptyLine(text: string, measure: string -> int, maxWidth: int)
    requires Split(text) != []
    ensures var lines := Wrap(text, measure, maxWidth);
      && (lines[0] == "" <==> measure(Split(text)[0]) > maxWidth)
      && (lines[0] == "" ==> |lines| >= 2 && Split(lines[1]) != [] && Split(lines[1])[0] == Split(text)[0])
      && forall k :: 0 < k < |lines| ==> lines[k] != ""
  {
    WrapLines(text, measure, maxWidth);
    WrapFirstLine(text, measure, maxWidth);
    var lines := Wrap(text, measure, maxWidth);
    forall k | 0 < k < |lines| ensures lines[k] != "" {
      GreedyBreakAt(text, measure, maxWidth, k);
    }
  }

  lemma WrapFirstLine(text: string, measure: string -> int, maxWidth: int)
    requires Split(text) != []
    ensures var lines := Wrap(text, measure, maxWidth);
      && (lines[0] == "" <==> measure(Split(text)[0]) > maxWidth)
      && (lines[0] == "" ==> |lines| >= 2 && Split(lines[1]) != [] && Split(lines[1])[0] == Split(text)[0])
  {
    var words := Split(text);
    var lines := Wrap(text, measure, maxWidth);
    WrapLines(text, measure, maxWidth);
    var g := Groups(words, measure, maxWidth);
    if g[0] == [] {
      ConcatFirstEmpty(g);
      assert g[1..] != [];
      assert Overflows(measure, maxWidth, g[0], g[1]);
      ConcatHead(g[1..]);
      assert [] + [g[1][0]] == [words[0]];
      assert Split(lines[1]) == g[1];
    } else {
      assert PrefixesFit(measure, maxWidth, g[0], 1);
      ConcatHead(g);
      assert g[0][..1] == [words[0]];
      assert Split(lines[0]) == g[0];
      assert lines[0] != "";
    }
  }

  /** Dropping a leading empty group does not change the flattening. */
  lemma {:induction false} ConcatFirstEmpty(g: seq<seq<string>>)
    requires g != [] && g[0] == []
    ensures Concat(g) == Concat(g[1..])
  {
    var n := |g|;
    if n == 1 {
      assert g == [] + [g[0]];
      ConcatSnoc([], g[0]);
    } else {
      assert Concat(g) == Concat(g[..n - 1]) + g[n - 1];
      ConcatFirstEmpty(g[..n - 1]);
      assert g[..n - 1][1..] == g[1..][..n - 2];
      assert Concat(g[1..]) == Concat(g[1..][..n - 2]) + g[1..][n - 2];
    }
  }

  /** Wrapping is idempotent: re-wrapping the wrapped lines, joined with
      spaces, gives the same lines. */
  lemma WrapIdempotent(text: string, measure: string -> int, maxWidth: int)
    ensures var lines := Wrap(text, measure, maxWidth);
      Wrap(Join(lines), measure, maxWidth) == lines
  {
    if Split(text) != [] {
      WrapKeepsWords(text, measure, maxWidth);
    }
  }
}
