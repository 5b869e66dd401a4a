/** Python's built-in string operations that the thumbnail code relies on:
    `str.split()` with no separator, `' '.join(...)` and `str.upper()`. */
module PyText {

  /** The characters `str.split()` treats as separators (Python's `str.isspace`). */
  predicate IsSpace(c: char) {
    var n := c as int;
    n == 32 || 9 <= n <= 13 || 28 <= n <= 31 || n == 0x85 || n == 0xA0 || n == 0x1680 ||
    0x2000 <= n <= 0x200A || n == 0x2028 || n == 0x2029 || n == 0x202F || n == 0x205F || n == 0x3000
  }

  /** A word as `str.split()` yields it: non-empty and free of separators. */
  predicate IsWord(w: string) {
    w != [] && forall i :: 0 <= i < |w| ==> !IsSpace(w[i])
  }

  /** Every character of `s` is a separator (true of the empty string). */
  predicate AllSpace(s: string) {
    forall i :: 0 <= i < |s| ==> IsSpace(s[i])
  }

  /** Length of the longest separator-free prefix of `s`. */
  function WordEnd(s: string): (n: nat)
    ensures n <= |s|
    ensures forall i :: 0 <= i < n ==> !IsSpace(s[i])
    ensures n < |s| ==> IsSpace(s[n])
  {
    if s == [] || IsSpace(s[0]) then 0 else 1 + WordEnd(s[1..])
  }

  /** `s.split()`: the maximal runs of non-separators, left to right. Only a
      text of separators alone splits into no words. */
  function Split(s: string): (r: seq<string>)
    ensures forall k :: 0 <= k < |r| ==> IsWord(r[k])
    ensures r == [] <==> AllSpace(s)
    decreases |s|
  {
    if s == [] then []
    else if IsSpace(s[0]) then
      assert forall i :: 0 < i < |s| ==> s[i] == s[1..][i - 1];
      assert AllSpace(s) <==> AllSpace(s[1..]);
      Split(s[1..])
    else
      var n := WordEnd(s);
      [s[..n]] + Split(s[n..])
  }

  /** `' '.join(ws)`. */
  function Join(ws: seq<string>): string
  {
    if |ws| == 0 then ""
    else if |ws| == 1 then ws[0]
    else Join(ws[..|ws| - 1]) + " " + ws[|ws| - 1]
  }

  /** The flattening of a sequence of word lists, in order. */
  function Concat(groups: seq<seq<string>>): seq<string>
  {
    if groups == [] then [] else Concat(groups[..|groups| - 1]) + groups[|groups| - 1]
  }

  /** `str.upper()` on the ASCII letters. */
  function Upper(s: string): (r: string)
    ensures |r| == |s|
    ensures forall i :: 0 <= i < |s| ==> ('a' <= s[i] <= 'z' <==> r[i] != s[i])
    ensures forall i :: 0 <= i < |s| ==> (IsSpace(r[i]) <==> IsSpace(s[i]))
    ensures forall i :: 0 <= i < |s| ==> !('a' <= r[i] <= 'z')
    ensures forall i :: 0 <= i < |s| && 'a' <= s[i] <= 'z' ==> r[i] as int == s[i] as int - 32
  {
    if s == [] then []
    else
      var c := s[0];
      [if 'a' <= c <= 'z' then (c as int - 32) as char else c] + Upper(s[1..])
  }

  lemma WordEndPrefix(a: string, t: string)
    requires t != [] && IsSpace(t[0])
    ensures WordEnd(a + t) == WordEnd(a)
  {
    if a != [] && !IsSpace(a[0]) {
      assert (a + t)[1..] == a[1..] + t;
      WordEndPrefix(a[1..], t);
    }
  }

  /** Splitting a string at a space splits each side independently. */
  lemma {:induction false} SplitAtSpace(a: string, b: string)
    ensures Split(a + " " + b) == Split(a) + Split(b)
    decreases |a|
  {
    var s := a + " " + b;
    if a == [] {
      assert s[1..] == b;
    } else if IsSpace(a[0]) {
      assert s[1..] == a[1..] + " " + b;
      SplitAtSpace(a[1..], b);
    } else {
      WordEndPrefix(a, " " + b);
      assert s == a + (" " + b);
      var n := WordEnd(a);
      assert s[..n] == a[..n];
      assert s[n..] == a[n..] + " " + b;
      SplitAtSpace(a[n..], b);
    }
  }

  lemma SplitWord(w: string)
    requires IsWord(w)
    ensures Split(w) == [w]
  {
    assert w[|w|..] == [];
    assert w[..|w|] == w;
  }

  /** Joining words with spaces and splitting again gives the words back. */
  lemma {:induction false} SplitJoin(ws: seq<string>)
    requires forall k :: 0 <= k < |ws| ==> IsWord(ws[k])
    ensures Split(Join(ws)) == ws
  {
    if |ws| == 0 {
    } else if |ws| == 1 {
      SplitWord(ws[0]);
    } else {
      var front := ws[..|ws| - 1];
      SplitJoin(front);
      SplitAtSpace(Join(front), ws[|ws| - 1]);
      SplitWord(ws[|ws| - 1]);
      assert front + [ws[|ws| - 1]] == ws;
    }
  }

  /** An independent, character-at-a-time reading of `' '.join(s.split())`:
      separators are dropped, characters of words are copied, and a single
      space is written before a word that follows an earlier one.
      `started` says a word has been copied; `pending` says a separator has
      been seen since the last copied character. */
  function Sq(s: string, pending: bool, started: bool): string
    decreases |s|
  {
    if s == [] then ""
    else if IsSpace(s[0]) then Sq(s[1..], started, started)
    else (if pending then " " else "") + [s[0]] + Sq(s[1..], false, true)
  }

  function Squeeze(s: string): string {
    Sq(s, false, false)
  }

  /** `split` finds exactly the words that the character-level reading
      copies, in the same order: joining them gives its output. With
      `SplitJoin` and the words being separator-free, this determines
      `Split` completely. */
  lemma SplitIsSqueeze(s: string)
    ensures Join(Split(s)) == Squeeze(s)
  {
    SqFresh(s);
  }

  /** Before the first word no space is ever pending. */
  lemma {:induction false} SqFresh(s: string)
    ensures Sq(s, false, false) == Join(Split(s))
    decreases |s|
  {
    if s == [] {
    } else if IsSpace(s[0]) {
      SqFresh(s[1..]);
    } else {
      var n := WordEnd(s);
      var w, rest := s[..n], s[n..];
      assert s == w + rest;
      SqWord(w, rest, false, false);
      SqAfterWord(rest);
      JoinCons(w, Split(rest));
    }
  }

  /** Right after a word, at the end of the text or at a separator. */
  lemma {:induction false} SqAfterWord(t: string)
    requires t == [] || IsSpace(t[0])
    ensures Sq(t, false, true) == (if Split(t) == [] then "" else " " + Join(Split(t)))
  {
    if t != [] {
      SqStarted(t[1..]);
    }
  }

  /** After a word and a separator, the next word (if any) gets one space. */
  lemma {:induction false} SqStarted(u: string)
    ensures Sq(u, true, true) == (if Split(u) == [] then "" else " " + Join(Split(u)))
    decreases |u|
  {
    if u == [] {
    } else if IsSpace(u[0]) {
      SqStarted(u[1..]);
    } else {
      var n := WordEnd(u);
      var w, rest := u[..n], u[n..];
      assert u == w + rest;
      SqWord(w, rest, true, true);
      if rest != [] {
        SqStarted(rest[1..]);
      }
      JoinCons(w, Split(rest));
    }
  }

  /** A word is copied as it is, after a space if one is pending. */
  lemma {:induction false} SqWord(w: string, t: string, pending: bool, started: bool)
    requires IsWord(w)
    ensures Sq(w + t, pending, started) == (if pending then " " else "") + w + Sq(t, false, true)
    decreases |w|
  {
    assert (w + t)[0] == w[0];
    assert (w + t)[1..] == w[1..] + t;
    if |w| == 1 {
      assert w[1..] + t == t;
      assert w == [w[0]];
    } else {
      SqWord(w[1..], t, false, true);
      assert [w[0]] + w[1..] == w;
    }
  }

  lemma {:induction false} JoinCons(w: string, ws: seq<string>)
    ensures Join([w] + ws) == (if ws == [] then w else w + " " + Join(ws))
    decreases |ws|
  {
    if ws != [] {
      var front := ws[..|ws| - 1];
      assert ([w] + ws)[..|ws|] == [w] + front;
      JoinCons(w, front);
      if front != [] {
        assert front + [ws[|ws| - 1]] == ws;
      }
    }
  }

  lemma JoinSnoc(ws: seq<string>, w: string)
    requires ws != []
    ensures Join(ws + [w]) == Join(ws) + " " + w
  {
    assert (ws + [w])[..|ws|] == ws;
  }

  lemma ConcatSnoc(groups: seq<seq<string>>, g: seq<string>)
    ensures Concat(groups + [g]) == Concat(groups) + g
  {
    assert (groups + [g])[..|groups|] == groups;
  }
}
