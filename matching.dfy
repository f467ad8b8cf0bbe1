/**
 * Case-insensitive prefix matching of vocabulary words, and how a matching
 * word is shown as a suggestion.
 */
module Matching {
  import opened Text

  /** Most suggestions the engine ever returns. */
  const MaxSuggestions: nat := 3

  /** Size of one suggestion slot, terminator included. */
  const MaxWordLength: nat := 32

  /** Letters, digits and the apostrophe may be part of a word. */
  function IsWordChar(c: char): (b: bool)
    ensures b <==> ('a' <= ToLower(c) <= 'z') || ('0' <= c <= '9') || c == '\''
  {
    IsAlnum(c) || c == '\''
  }

  /** `s` with every ASCII upper-case letter made lower-case. */
  function LowerAll(s: string): (r: string)
    ensures |r| == |s| && forall i :: 0 <= i < |s| ==> r[i] == ToLower(s[i])
  {
    if s == [] then [] else LowerAll(s[..|s| - 1]) + [ToLower(s[|s| - 1])]
  }

  /**
   * `word` starts with `prefix` when letter case is ignored: it is at least
   * as long, and agrees with `prefix` at each of its positions.
   */
  predicate PrefixCi(prefix: string, word: string) {
    |prefix| <= |word| &&
    forall i :: 0 <= i < |prefix| ==> ToLower(word[i]) == ToLower(prefix[i])
  }

  /** The prefix test is plain prefix order on lower-cased strings. */
  lemma PrefixCiIsLowerPrefix(prefix: string, word: string)
    ensures PrefixCi(prefix, word) <==> LowerAll(prefix) <= LowerAll(word)
  {
    var lp, lw := LowerAll(prefix), LowerAll(word);
    if PrefixCi(prefix, word) {
      assert lp == lw[..|lp|];
    }
    if lp <= lw {
      assert forall i :: 0 <= i < |prefix| ==> lp[i] == lw[i];
    }
  }

  /** The empty prefix matches every word. */
  lemma EmptyPrefixMatches(word: string)
    ensures PrefixCi([], word)
  {
  }

  /** Case-insensitive prefix test, comparing character by character. */
  method StartsWithCi(word: string, prefix: string) returns (b: bool)
    ensures b == PrefixCi(prefix, word)
  {
    var prefixLen := |prefix|;
    var wordLen := |word|;
    if wordLen < prefixLen {
      return false;
    }
    var i := 0;
    while i < prefixLen
      invariant 0 <= i <= prefixLen
      invariant forall k :: 0 <= k < i ==> ToLower(word[k]) == ToLower(prefix[k])
    {
      var w := ToLower(word[i]);
      var p := ToLower(prefix[i]);
      if w != p {
        return false;
      }
      i := i + 1;
    }
    return true;
  }

  /** The words of `ws` that start with `prefix`, in their order in `ws`. */
  function Matches(ws: seq<string>, prefix: string): (r: seq<string>)
    ensures |r| <= |ws|
  {
    if ws == [] then []
    else
      var rest := Matches(ws[1..], prefix);
      if PrefixCi(prefix, ws[0]) then [ws[0]] + rest else rest
  }

  /** A word is among the matches exactly when it is in `ws` and starts with `prefix`. */
  lemma {:induction false} MatchesMembers(ws: seq<string>, prefix: string, w: string)
    ensures w in Matches(ws, prefix) <==> w in ws && PrefixCi(prefix, w)
  {
    if ws != [] {
      assert w in ws <==> w == ws[0] || w in ws[1..];
      MatchesMembers(ws[1..], prefix, w);
    }
  }

  /** Matching distributes over concatenation: earlier words come first. */
  lemma {:induction false} MatchesAppend(a: seq<string>, b: seq<string>, prefix: string)
    ensures Matches(a + b, prefix) == Matches(a, prefix) + Matches(b, prefix)
  {
    if a == [] {
      assert a + b == b;
    } else {
      assert (a + b)[1..] == a[1..] + b;
      MatchesAppend(a[1..], b, prefix);
    }
  }

  /** A suggestion slot holds at most `MaxWordLength - 1` characters. */
  function Shown(w: string): (r: string)
    ensures r <= w && |r| <= MaxWordLength - 1
    ensures |w| <= MaxWordLength - 1 ==> r == w
  {
    Take(w, MaxWordLength - 1)
  }

  function ShownAll(ws: seq<string>): (r: seq<string>)
    ensures |r| == |ws| && forall i :: 0 <= i < |ws| ==> r[i] == Shown(ws[i])
  {
    seq(|ws|, i requires 0 <= i < |ws| => Shown(ws[i]))
  }

  lemma ShownAllAppend(a: seq<string>, b: seq<string>)
    ensures ShownAll(a + b) == ShownAll(a) + ShownAll(b)
  {
  }

  /** Cutting a word to its slot keeps any match with a prefix that fits the slot. */
  lemma ShownKeepsMatch(prefix: string, w: string)
    requires PrefixCi(prefix, w) && |prefix| <= MaxWordLength - 1
    ensures PrefixCi(prefix, Shown(w))
  {
    var r := Shown(w);
    assert forall i :: 0 <= i < |prefix| ==> r[i] == w[i];
  }
}
