/**
 * The query token: the last word of the text typed so far. Words are runs
 * of characters other than ' ', '\n' and '\r'; trailing separators are
 * skipped, so the token is the last word even when a separator follows it.
 */
module Tokens {
  import opened Text
  import Matching

  /** Longest token searched for: one slot minus its terminator. */
  const MaxTokenLen: nat := Matching.MaxWordLength - 1

  predicate NoSeparator(s: string) {
    forall k :: 0 <= k < |s| ==> !IsSeparator(s[k])
  }

  predicate AllSeparators(s: string) {
    forall k :: 0 <= k < |s| ==> IsSeparator(s[k])
  }

  /** `s` without its trailing separators. */
  function TrimSeparators(s: string): (r: string)
    ensures r <= s && forall k :: |r| <= k < |s| ==> IsSeparator(s[k])
    ensures r == [] || !IsSeparator(r[|r| - 1])
  {
    if s != [] && IsSeparator(s[|s| - 1]) then TrimSeparators(s[..|s| - 1]) else s
  }

  /** The longest suffix of `s` without separators. */
  function LastRun(s: string): (r: string)
    ensures |r| <= |s| && r == s[|s| - |r|..] && NoSeparator(r)
    ensures |r| < |s| ==> IsSeparator(s[|s| - |r| - 1])
  {
    if s == [] || IsSeparator(s[|s| - 1]) then []
    else
      var init := LastRun(s[..|s| - 1]);
      assert s[|s| - |init| - 1..] == init + [s[|s| - 1]];
      init + [s[|s| - 1]]
  }

  /** The token searched for: the last word of `s`, cut to `MaxTokenLen`. */
  function Token(s: string): (r: string)
    ensures |r| <= MaxTokenLen && NoSeparator(r)
  {
    Take(LastRun(TrimSeparators(s)), MaxTokenLen)
  }

  /** The trimmed text ends at `e` when only separators follow `e` and none precedes it. */
  lemma TrimSeparatorsAt(s: string, e: nat)
    requires e <= |s| && (forall k :: e <= k < |s| ==> IsSeparator(s[k]))
    requires e == 0 || !IsSeparator(s[e - 1])
    ensures TrimSeparators(s) == s[..e]
  {
  }

  /** The last run starts at `b` when no separator follows `b` and one precedes it. */
  lemma LastRunAt(s: string, b: nat)
    requires b <= |s| && NoSeparator(s[b..]) && (b == 0 || IsSeparator(s[b - 1]))
    ensures LastRun(s) == s[b..]
  {
  }

  /** There is a token exactly when the text holds a non-separator. */
  lemma TokenEmptyIff(s: string)
    ensures Token(s) == [] <==> AllSeparators(s)
  {
    var t := TrimSeparators(s);
    if t != [] {
      assert LastRun(t) != [];
      assert !IsSeparator(s[|t| - 1]);
    } else {
      assert s[|t|..] == s;
    }
  }

  /** The token is a word of the text: it starts right after a separator
      (or at the start) and only separators follow the word it comes from. */
  lemma TokenPosition(s: string)
    requires !AllSeparators(s)
    ensures exists start, end ::
      (0 <= start < end <= |s| &&
       (start == 0 || IsSeparator(s[start - 1])) && AllSeparators(s[end..]) &&
       NoSeparator(s[start..end]) && Token(s) == Take(s[start..end], MaxTokenLen))
  {
    var t := TrimSeparators(s);
    TokenEmptyIff(s);
    var end := |t|;
    var start := |t| - |LastRun(t)|;
    assert s[start..end] == LastRun(t);
    assert AllSeparators(s[end..]) by {
      assert forall k :: 0 <= k < |s| - end ==> s[end..][k] == s[end + k];
    }
  }

  lemma TokenAfterWord()
    ensures Token("hello wor") == "wor"
  {
    var s := "hello wor";
    TrimSeparatorsAt(s, 9);
    assert s[..9] == s;
    LastRunAt(s, 6);
    assert s[6..] == "wor";
  }

  /** A separator after the word does not end the query. */
  lemma TokenBeforeSpace()
    ensures Token("hello ") == "hello"
  {
    var s := "hello ";
    TrimSeparatorsAt(s, 5);
    assert s[..5] == "hello";
    LastRunAt("hello", 0);
  }

  lemma TokenOnlySeparators()
    ensures Token(" \n\r") == []
  {
    assert TrimSeparators(" \n\r") == [] by {
      assert " \n\r"[..2] == " \n";
      assert " \n"[..1] == " ";
      assert " "[..0] == [];
    }
  }

  /**
   * Scans `input` backwards past trailing separators and then to the start
   * of the last word, and copies that word into a buffer of
   * `MaxTokenLen + 1` characters, as far as it fits. The empty result means
   * the input held no word.
   */
  method ExtractToken(input: string) returns (token: string)
    requires IsCString(input)
    ensures token == Token(input)
  {
    if |input| == 0 {
      assert TrimSeparators(input) == [];
      return [];
    }
    var wordEnd := SkipTrailingSeparators(input);
    var wordStart := FindWordStart(input, wordEnd);
    if wordStart >= wordEnd {
      return [];
    }
    assert wordEnd == |input| || IsSeparator(input[wordEnd]) by {
      assert |TrimSeparators(input)| == wordEnd;
    }
    token := CopyWord(input, wordStart, wordEnd);
  }

  /** Scans back from the end of `input` past its trailing separators. */
  method SkipTrailingSeparators(input: string) returns (wordEnd: nat)
    ensures wordEnd <= |input| && input[..wordEnd] == TrimSeparators(input)
  {
    var p := |input| - 1;
    while p >= 0 && (input[p] == ' ' || input[p] == '\n' || input[p] == '\r')
      invariant -1 <= p < |input|
      invariant forall k :: p < k < |input| ==> IsSeparator(input[k])
    {
      p := p - 1;
    }
    wordEnd := p + 1;
    assert input[..wordEnd] == TrimSeparators(input) by {
      TrimSeparatorsAt(input, wordEnd);
    }
  }

  /** Scans back from `wordEnd` to the start of the word that ends there. */
  method FindWordStart(input: string, wordEnd: nat) returns (wordStart: nat)
    requires wordEnd <= |input|
    ensures wordStart <= wordEnd && input[wordStart..wordEnd] == LastRun(input[..wordEnd])
  {
    var p := wordEnd - 1;
    while p >= 0 && input[p] != ' ' && input[p] != '\n' && input[p] != '\r'
      invariant -1 <= p < wordEnd
      invariant forall k :: p < k < wordEnd ==> !IsSeparator(input[k])
    {
      p := p - 1;
    }
    wordStart := p + 1;
    assert input[wordStart..wordEnd] == LastRun(input[..wordEnd]) by {
      ghost var t := input[..wordEnd];
      assert t[wordStart..] == input[wordStart..wordEnd];
      assert forall k :: 0 <= k < wordEnd - wordStart ==> t[wordStart..][k] == input[wordStart + k];
      LastRunAt(t, wordStart);
    }
  }

  /** Copies the word `input[wordStart..wordEnd]` into a fixed buffer, as far as it fits. */
  method CopyWord(input: string, wordStart: nat, wordEnd: nat) returns (word: string)
    requires wordStart <= wordEnd <= |input|
    requires NoSeparator(input[wordStart..wordEnd])
    requires wordEnd == |input| || IsSeparator(input[wordEnd])
    ensures word == Take(input[wordStart..wordEnd], MaxTokenLen)
  {
    var lastWord := new char[MaxTokenLen + 1];
    var wordLen := 0;
    var q := wordStart;
    while q < |input| && input[q] != ' ' && input[q] != '\n' && input[q] != '\r' &&
          wordLen < MaxTokenLen
      invariant wordStart <= q <= wordEnd && wordLen == q - wordStart <= MaxTokenLen
      invariant lastWord[..wordLen] == input[wordStart..q]
    {
      assert input[q] == input[wordStart..wordEnd][q - wordStart];
      lastWord[wordLen] := input[q];
      wordLen := wordLen + 1;
      q := q + 1;
    }
    lastWord[wordLen] := '\0';
    word := lastWord[..wordLen];
  }
}
