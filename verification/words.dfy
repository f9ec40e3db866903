/**
 * Whitespace splitting and joining of strings, as Python's `str.split()`
 * (no separator argument) and `" ".join(...)` behave.
 */
module Words {

  /** The characters `str.isspace()` accepts, i.e. the separators of `str.split()`. */
  predicate IsSpace(c: char) {
    || c == ' ' || c == '\t' || c == '\n' || c == '\r'
    || c == '\U{B}' || c == '\U{C}'
    || ('\U{1C}' <= c <= '\U{1F}')
    || c == '\U{85}' || c == '\U{A0}' || c == '\U{1680}'
    || ('\U{2000}' <= c <= '\U{200A}')
    || c == '\U{2028}' || c == '\U{2029}' || c == '\U{202F}' || c == '\U{205F}' || c == '\U{3000}'
  }

  /** A word: a non-empty run of non-separator characters. */
  predicate IsWord(w: string) {
    |w| > 0 && forall i :: 0 <= i < |w| ==> !IsSpace(w[i])
  }

  predicate AllWords(ws: seq<string>) {
    forall i :: 0 <= i < |ws| ==> IsWord(ws[i])
  }

  /** Length of the longest separator-free prefix of `s`. */
  function WordLength(s: string): (n: nat)
    ensures n <= |s|
    ensures forall i :: 0 <= i < n ==> !IsSpace(s[i])
    ensures n < |s| ==> IsSpace(s[n])
  {
    if s == [] || IsSpace(s[0]) then 0 else 1 + WordLength(s[1..])
  }

  /** `s.split()`: the maximal separator-free runs of `s`, in order. */
  function Split(s: string): (ws: seq<string>)
    ensures AllWords(ws)
    decreases |s|
  {
    if s == [] then []
    else if IsSpace(s[0]) then Split(s[1..])
    else
      var n := WordLength(s);
      [s[..n]] + Split(s[n..])
  }

  /** `" ".join(ws)`. */
  function Join(ws: seq<string>): string {
    if |ws| == 0 then ""
    else if |ws| == 1 then ws[0]
    else ws[0] + " " + Join(ws[1..])
  }

  /** A single word splits to itself. */
  lemma SplitWord(w: string)
    requires IsWord(w)
    ensures Split(w) == [w]
  {
    var n := WordLength(w);
    assert n == |w|;
    assert w[..n] == w && w[n..] == [];
  }

  /** A separator in front of a string does not change its split. */
  lemma SplitLeadingSpace(s: string)
    ensures Split(" " + s) == Split(s)
  {
    assert (" " + s)[1..] == s;
  }

  /** Joining words with single spaces and splitting again gives the words back. */
  lemma {:induction false} SplitJoin(ws: seq<string>)
    requires AllWords(ws)
    ensures Split(Join(ws)) == ws
  {
    if |ws| == 0 {
    } else if |ws| == 1 {
      SplitWord(ws[0]);
    } else {
      var w, rest := ws[0], Join(ws[1..]);
      var s := w + " " + rest;
      assert IsWord(w);
      assert s[|w|] == ' ';
      assert forall i :: 0 <= i < |w| ==> s[i] == w[i];
      var n := WordLength(s);
      assert n == |w|;
      assert s[..n] == w;
      assert s[n..] == " " + rest;
      SplitLeadingSpace(rest);
      assert AllWords(ws[1..]);
      SplitJoin(ws[1..]);
      assert ws == [w] + ws[1..];
    }
  }

  /** Joining a longer list: the last word follows the join of the others after one space. */
  lemma {:induction false} JoinSnoc(ws: seq<string>, w: string)
    requires |ws| > 0
    ensures Join(ws + [w]) == Join(ws) + " " + w
  {
    if |ws| == 1 {
      assert (ws + [w])[1..] == [w];
    } else {
      assert (ws + [w])[1..] == ws[1..] + [w];
      JoinSnoc(ws[1..], w);
    }
  }

  /** A string splits into no word exactly when every character of it is a separator. */
  lemma {:induction false} SplitEmptyIff(s: string)
    ensures Split(s) == [] <==> forall i :: 0 <= i < |s| ==> IsSpace(s[i])
    decreases |s|
  {
    if s != [] && IsSpace(s[0]) {
      SplitEmptyIff(s[1..]);
      forall i | 0 < i < |s| ensures s[i] == s[1..][i - 1] { }
    }
  }

  /** The characters of `s` that are not separators, in order. */
  function Squeeze(s: string): string {
    if s == [] then [] else if IsSpace(s[0]) then Squeeze(s[1..]) else [s[0]] + Squeeze(s[1..])
  }

  /** The concatenation of a list of strings. */
  function Concat(ws: seq<string>): string {
    if ws == [] then [] else ws[0] + Concat(ws[1..])
  }

  /** A separator-free prefix of `s` survives squeezing as it stands. */
  lemma {:induction false} SqueezeWordPrefix(s: string, n: nat)
    requires n <= |s| && forall i :: 0 <= i < n ==> !IsSpace(s[i])
    ensures Squeeze(s) == s[..n] + Squeeze(s[n..])
  {
    if n == 0 {
      assert s[..0] == [] && s[0..] == s;
    } else {
      var t := s[1..];
      forall i | 0 <= i < n - 1 ensures !IsSpace(t[i]) { assert t[i] == s[i + 1]; }
      SqueezeWordPrefix(t, n - 1);
      assert t[..n - 1] == s[1..n] && t[n - 1..] == s[n..];
      assert [s[0]] + s[1..n] == s[..n];
    }
  }

  /**
   * The words cover the string: laid end to end they give back every
   * character of `s` that is not a separator, in order.
   */
  lemma {:induction false} SplitCovers(s: string)
    ensures Concat(Split(s)) == Squeeze(s)
    decreases |s|
  {
    if s == [] {
    } else if IsSpace(s[0]) {
      SplitCovers(s[1..]);
    } else {
      var n := WordLength(s);
      SqueezeWordPrefix(s, n);
      SplitCovers(s[n..]);
      var ws := Split(s);
      assert ws == [s[..n]] + Split(s[n..]);
      assert ws[1..] == Split(s[n..]);
    }
  }

  /** The word length of `s` is the `n` its ensures clauses describe: there is only one. */
  lemma WordLengthIs(s: string, n: nat)
    requires n <= |s| && forall i :: 0 <= i < n ==> !IsSpace(s[i])
    requires n < |s| ==> IsSpace(s[n])
    ensures WordLength(s) == n
  {
  }

  /** Cutting `s` at a separator leaves its first word as it was. */
  lemma WordLengthOfPrefix(s: string, i: nat)
    requires i < |s| && IsSpace(s[i])
    ensures WordLength(s) <= i
    ensures WordLength(s[..i]) == WordLength(s)
  {
    WordLengthIs(s[..i], WordLength(s));
  }

  /**
   * Every separator separates: the words of `s` are the words before a
   * separator at `i` followed by the words after it, so no word runs across it.
   */
  lemma {:induction false} SplitAtSeparator(s: string, i: nat)
    requires i < |s| && IsSpace(s[i])
    ensures Split(s) == Split(s[..i]) + Split(s[i + 1..])
    decreases |s|, 1
  {
    if i == 0 {
      assert s[..0] == [] && s[1..] == s[i + 1..];
    } else if IsSpace(s[0]) {
      SplitAtSeparatorAfterSpace(s, i);
    } else {
      SplitAtSeparatorAfterWord(s, i);
    }
  }

  /** `SplitAtSeparator` when `s` starts with a separator: drop it on both sides. */
  lemma {:induction false} SplitAtSeparatorAfterSpace(s: string, i: nat)
    requires 0 < i < |s| && IsSpace(s[i]) && IsSpace(s[0])
    ensures Split(s) == Split(s[..i]) + Split(s[i + 1..])
    decreases |s|, 0
  {
    var t := s[1..];
    SplitAtSeparator(t, i - 1);
    assert Split(s) == Split(t);
    var u := s[..i];
    assert u[1..] == t[..i - 1];
    assert Split(u) == Split(u[1..]);
    assert t[i..] == s[i + 1..];
  }

  /** Cut at a separator, `s` still starts with its first word. */
  lemma SplitPrefixFirstWord(s: string, i: nat)
    requires 0 < i < |s| && IsSpace(s[i]) && !IsSpace(s[0])
    ensures WordLength(s) <= i
    ensures Split(s[..i]) == [s[..WordLength(s)]] + Split(s[WordLength(s)..i])
  {
    var n := WordLength(s);
    WordLengthOfPrefix(s, i);
    var u := s[..i];
    assert u[..n] == s[..n] && u[n..] == s[n..i];
  }

  /** `SplitAtSeparator` when `s` starts with a word: that word comes first on both sides. */
  lemma {:induction false} SplitAtSeparatorAfterWord(s: string, i: nat)
    requires 0 < i < |s| && IsSpace(s[i]) && !IsSpace(s[0])
    ensures Split(s) == Split(s[..i]) + Split(s[i + 1..])
    decreases |s|, 0
  {
    var n := WordLength(s);
    SplitPrefixFirstWord(s, i);
    var v := s[n..];
    calc {
      Split(s);
    ==  // the first word, then the words of the rest
      [s[..n]] + Split(v);
    ==  { SplitAtSeparator(v, i - n); assert v[..i - n] == s[n..i] && v[i - n + 1..] == s[i + 1..]; }
      [s[..n]] + (Split(s[n..i]) + Split(s[i + 1..]));
    ==  // the prefix starts with the same word
      Split(s[..i]) + Split(s[i + 1..]);
    }
  }

  /** The only separator of `s` is a space at `p`, strictly inside `s`. */
  predicate OneSpaceAt(s: string, p: int) {
    && 0 < p < |s| - 1 && s[p] == ' '
    && forall i :: 0 <= i < |s| && i != p ==> !IsSpace(s[i])
  }

  /** The only separators of `s` are spaces at `p` and `q`, strictly inside `s` and not adjacent. */
  predicate TwoSpacesAt(s: string, p: int, q: int) {
    && 0 < p && p + 1 < q < |s| - 1 && s[p] == ' ' && s[q] == ' '
    && forall i :: 0 <= i < |s| && i != p && i != q ==> !IsSpace(s[i])
  }

  /** When `s` starts with a word ended by the separator at `p`, that word comes first. */
  lemma SplitAtFirstSpace(s: string, p: nat)
    requires p < |s| && IsSpace(s[p])
    requires forall i :: 0 <= i < p ==> !IsSpace(s[i])
    requires 0 < p
    ensures Split(s) == [s[..p]] + Split(s[p + 1..])
  {
    var n := WordLength(s);
    assert n == p;
    assert s[p..][1..] == s[p + 1..];
  }

  lemma SplitAtOneSpace(s: string, p: nat)
    requires OneSpaceAt(s, p)
    ensures Split(s) == [s[..p], s[p + 1..]]
  {
    SplitAtFirstSpace(s, p);
    var rest := s[p + 1..];
    assert IsWord(rest) by {
      forall i | 0 <= i < |rest| ensures !IsSpace(rest[i]) {
        assert rest[i] == s[p + 1 + i];
      }
    }
    SplitWord(rest);
  }

  lemma SplitAtTwoSpaces(s: string, p: nat, q: nat)
    requires TwoSpacesAt(s, p, q)
    ensures Split(s) == [s[..p], s[p + 1..q], s[q + 1..]]
  {
    SplitAtFirstSpace(s, p);
    var rest := s[p + 1..];
    assert OneSpaceAt(rest, q - p - 1) by {
      forall i | 0 <= i < |rest| && i != q - p - 1 ensures !IsSpace(rest[i]) {
        assert rest[i] == s[p + 1 + i];
      }
    }
    SplitAtOneSpace(rest, q - p - 1);
    assert rest[..q - p - 1] == s[p + 1..q];
    assert rest[q - p..] == s[q + 1..];
  }
}
