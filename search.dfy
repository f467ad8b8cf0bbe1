/**
 * The ranked search: the suggestions for the text typed so far are the first
 * words, in search order, that start with its last word, each cut to fit
 * its slot.
 */
module Search {
  import opened Text
  import opened WordTiers
  import opened Matching
  import opened Tokens

  /**
   * The suggestions for the typed text `input` when `max` are asked for and
   * `candidates` are the vocabulary words in search order.
   */
  function Suggest(candidates: seq<string>, input: string, max: nat): (r: seq<string>)
    ensures |r| <= Min(max, MaxSuggestions)
  {
    var token := Token(input);
    if token == [] then [] else ShownAll(Take(Matches(candidates, token), Min(max, MaxSuggestions)))
  }

  /** Every suggestion is a candidate that starts with the query token, cut to its slot. */
  lemma SuggestionsMatch(candidates: seq<string>, input: string, max: nat, k: nat)
    requires k < |Suggest(candidates, input, max)|
    ensures var r := Suggest(candidates, input, max)[k];
      PrefixCi(Token(input), r) &&
      exists w :: w in candidates && PrefixCi(Token(input), w) && r == Shown(w)
  {
    var token := Token(input);
    var ms := Take(Matches(candidates, token), Min(max, MaxSuggestions));
    var w := ms[k];
    assert w in Matches(candidates, token);
    MatchesMembers(candidates, token, w);
    ShownKeepsMatch(token, w);
  }

  /** As many suggestions are returned as were asked for, up to three, or as there are matches. */
  lemma SuggestionsCount(candidates: seq<string>, input: string, max: nat)
    ensures var token := Token(input);
      |Suggest(candidates, input, max)| ==
        if token == [] then 0 else Min(Min(max, MaxSuggestions), |Matches(candidates, token)|)
  {
  }

  /** Nothing is suggested exactly when the text has no word, none is asked
      for, or no candidate starts with the token. */
  lemma SuggestionsEmptyIff(candidates: seq<string>, input: string, max: nat)
    ensures Suggest(candidates, input, max) == [] <==>
      AllSeparators(input) || max == 0 || Matches(candidates, Token(input)) == []
  {
    TokenEmptyIff(input);
  }

  /** The first `k` matches of `a + b`: those of `a`, then as many of `b` as still fit. */
  lemma TakeMatchesAppend(a: seq<string>, b: seq<string>, prefix: string, k: nat)
    ensures var ta := Take(Matches(a, prefix), k);
      Take(Matches(a + b, prefix), k) == ta + Take(Matches(b, prefix), k - |ta|)
  {
    MatchesAppend(a, b, prefix);
    var ma, mb := Matches(a, prefix), Matches(b, prefix);
    var ta := Take(ma, k);
    if |ma| >= k {
      assert ta == ma[..k];
      assert Take(mb, k - |ta|) == [];
      assert Take(ma + mb, k) == (ma + mb)[..k] == ta + [];
    } else {
      assert ta == ma;
      var n := Min(k - |ma|, |mb|);
      assert Take(mb, k - |ta|) == mb[..n];
      assert Take(ma + mb, k) == (ma + mb)[..|ma| + n] == ma + mb[..n];
    }
  }

  /** Searching one more tier extends the shown matches of the tiers searched so far. */
  lemma SearchStep(done: seq<string>, tier: seq<string>, prefix: string, k: nat)
    ensures var ta := Take(Matches(done, prefix), k);
      ShownAll(Take(Matches(done + tier, prefix), k)) ==
        ShownAll(ta) + ShownAll(Take(Matches(tier, prefix), k - |ta|))
  {
    TakeMatchesAppend(done, tier, prefix, k);
    var ta := Take(Matches(done, prefix), k);
    ShownAllAppend(ta, Take(Matches(tier, prefix), k - |ta|));
  }

  /** An earlier tier with enough matches decides the suggestions on its own. */
  lemma EarlierTierWins(a: seq<string>, b: seq<string>, input: string, max: nat)
    requires |Matches(a, Token(input))| >= Min(max, MaxSuggestions)
    ensures Suggest(a + b, input, max) == Suggest(a, input, max)
  {
    TakeMatchesAppend(a, b, Token(input), Min(max, MaxSuggestions));
    var ta := Take(Matches(a, Token(input)), Min(max, MaxSuggestions));
    assert ta + [] == ta;
  }

  /**
   * Copies the words of `tier` that start with `prefix`, in order, into
   * `suggestions` from slot `found` on, each cut to fit its slot, until
   * `max` slots are filled or the tier is exhausted; returns the new count.
   */
  method SearchTier(tier: WordTier, prefix: string, suggestions: array<string>, found: nat, max: nat)
    returns (newFound: nat)
    requires tier.Valid() && found <= max <= suggestions.Length
    requires suggestions != tier.words
    modifies suggestions
    ensures found <= newFound <= max
    ensures suggestions[..newFound] ==
      old(suggestions[..found]) + ShownAll(Take(Matches(tier.Contents(), prefix), max - found))
    ensures forall k :: newFound <= k < suggestions.Length ==> suggestions[k] == old(suggestions[k])
  {
    ghost var ws := tier.Contents();
    ghost var before := suggestions[..];
    newFound := found;
    var i := 0;
    while i < tier.count && newFound < max
      invariant 0 <= i <= tier.count && found <= newFound <= max
      invariant |Matches(ws[..i], prefix)| == newFound - found
      invariant suggestions[..newFound] == before[..found] + ShownAll(Matches(ws[..i], prefix))
      invariant forall k :: newFound <= k < suggestions.Length ==> suggestions[k] == before[k]
    {
      assert ws[..i + 1] == ws[..i] + [ws[i]];
      MatchesAppend(ws[..i], [ws[i]], prefix);
      var isMatch := StartsWithCi(tier.words[i], prefix);
      if isMatch {
        suggestions[newFound] := Shown(tier.words[i]);
        newFound := newFound + 1;
      }
      i := i + 1;
    }
    assert Take(Matches(ws, prefix), max - found) == Matches(ws[..i], prefix) by {
      assert ws == ws[..i] + ws[i..];
      MatchesAppend(ws[..i], ws[i..], prefix);
    }
  }
}
