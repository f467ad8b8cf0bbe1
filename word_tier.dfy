/**
 * One vocabulary tier: a bounded, append-only list of words, and the loader
 * that fills it from a word-list file.
 */
module WordTiers {
  import opened Wrappers
  import opened Text
  import opened WordList

  /** Capacity every tier is allocated with. */
  const MaxTierWords: nat := 1000

  /**
   * `c` after offering each word of `ws` in turn to a tier of capacity
   * `cap`: words are appended while there is room, the rest are dropped.
   */
  function AppendBounded(c: seq<string>, ws: seq<string>, cap: nat): (r: seq<string>)
    requires |c| <= cap
    ensures |r| <= cap && c <= r
  {
    (c + ws)[..Min(cap, |c| + |ws|)]
  }

  lemma AppendBoundedShape(c: seq<string>, ws: seq<string>, cap: nat)
    requires |c| <= cap
    ensures var r := AppendBounded(c, ws, cap);
      |r| <= cap && c <= r && r[|c|..] <= ws && (|r| < cap ==> r == c + ws)
  {
    var r := AppendBounded(c, ws, cap);
    assert r[|c|..] == ws[..|r| - |c|];
  }

  /** Offering two batches one after the other is offering their concatenation. */
  lemma AppendBoundedAppend(c: seq<string>, a: seq<string>, b: seq<string>, cap: nat)
    requires |c| <= cap
    ensures |AppendBounded(c, a, cap)| <= cap
    ensures AppendBounded(c, a + b, cap) == AppendBounded(AppendBounded(c, a, cap), b, cap)
  {
    var m := AppendBounded(c, a, cap);
    if |c| + |a| <= cap {
      assert m == c + a;
      assert c + (a + b) == m + b;
    } else {
      assert |m| == cap;
      assert (m + b)[..cap] == m;
      assert (c + (a + b))[..cap] == (c + a)[..cap];
    }
  }

  class WordTier {
    /** The word storage; `null` before allocation and after release. */
    var words: array?<string>
    var count: nat
    var capacity: nat

    ghost predicate Valid()
      reads this, words
    {
      (words == null ==> count == 0 && capacity == 0) &&
      (words != null ==>
        words.Length == capacity && count <= capacity &&
        forall k :: 0 <= k < count ==> IsCString(words[k]))
    }

    /** The words of the tier, in insertion order. */
    ghost function Contents(): seq<string>
      reads this, words
      requires Valid()
    {
      if words == null then [] else words[..count]
    }

    predicate Released()
      reads this
    {
      words == null && count == 0 && capacity == 0
    }

    /** A zero-initialized tier, as in the static state record. */
    constructor ()
      ensures Valid() && Released()
    {
      words, count, capacity := null, 0, 0;
    }

    /**
     * Allocates storage for `cap` words; `mallocOk` is the allocator's
     * outcome. On failure the storage pointer is null and the counters keep
     * their old values (so the tier must have been released before).
     */
    method Alloc(cap: nat, mallocOk: bool) returns (ok: bool)
      requires Valid() && Released()
      modifies this
      ensures Valid()
      ensures ok == mallocOk
      ensures ok ==> words != null && fresh(words) && capacity == cap && count == 0
      ensures !ok ==> Released()
    {
      if !mallocOk {
        words := null;
        return false;
      }
      words := new string[cap];
      capacity := cap;
      count := 0;
      return true;
    }

    /** Releases the storage; releasing twice is harmless. */
    method Free()
      modifies this
      ensures Valid() && Released()
      ensures old(Released()) ==> unchanged(this)
    {
      if words != null {
        words := null;
      }
      count := 0;
      capacity := 0;
    }

    /** Appends `word` when the tier is not full; a full tier is left unchanged. */
    method AddWord(word: string) returns (added: bool)
      requires Valid() && IsCString(word)
      modifies this, words
      ensures Valid() && words == old(words) && capacity == old(capacity)
      ensures added <==> old(count) < capacity
      ensures added ==> count == old(count) + 1 && Contents() == old(Contents()) + [word]
      ensures !added ==> count == old(count) && Contents() == old(Contents())
      ensures Contents() == AppendBounded(old(Contents()), [word], capacity)
    {
      if count >= capacity {
        return false;
      }
      words[count] := word;
      count := count + 1;
      return true;
    }
  }

  /**
   * Ends the line held in `buffer[..pos]`: trims its trailing whitespace and
   * adds it to `tier` unless it is then empty or starts with '#'.
   */
  method FinishLine(buffer: array<char>, pos: nat, tier: WordTier)
    requires tier.Valid()
    requires pos <= MaxWordLen && pos < buffer.Length
    modifies buffer, tier, tier.words
    ensures tier.Valid()
    ensures tier.words == old(tier.words) && tier.capacity == old(tier.capacity)
    ensures tier.Contents() ==
      AppendBounded(old(tier.Contents()), LineWord(old(buffer[..pos])), tier.capacity)
  {
    ghost var line := buffer[..pos];
    var n := TrimTrailing(buffer, pos);
    if n > 0 && buffer[0] != '#' {
      assert LineWord(line) == [UpToNul(buffer[..n])];
      var _ := tier.AddWord(UpToNul(buffer[..n]));
    } else {
      assert LineWord(line) == [];
    }
  }

  /** Terminates the line in `buffer[..pos]` and strips its trailing whitespace. */
  method TrimTrailing(buffer: array<char>, pos: nat) returns (n: nat)
    requires pos < buffer.Length
    modifies buffer
    ensures n <= pos && buffer[..n] == TrimRight(old(buffer[..pos])) && buffer[n] == '\0'
  {
    ghost var line := buffer[..pos];
    n := pos;
    buffer[n] := '\0';
    while n > 0 && IsSpace(buffer[n - 1])
      invariant 0 <= n <= |line| && buffer[..n] == line[..n] && buffer[n] == '\0'
      invariant TrimRight(line) == TrimRight(line[..n])
    {
      n := n - 1;
      buffer[n] := '\0';
    }
  }

  /**
   * Reads a word-list file character by character into `tier`. `file` is
   * the file's contents, or `None` when it cannot be opened. The words of
   * the file, in order, are offered to the tier, which keeps those that fit.
   */
  method LoadTierFromFile(file: Option<string>, tier: WordTier) returns (success: bool)
    requires tier.Valid()
    modifies tier, tier.words
    ensures tier.Valid()
    ensures tier.words == old(tier.words) && tier.capacity == old(tier.capacity)
    ensures success <==> file.Some?
    ensures file.None? ==> tier.Contents() == old(tier.Contents())
    ensures file.Some? ==>
      tier.Contents() == AppendBounded(old(tier.Contents()), ParseWords(file.value), tier.capacity)
  {
    if file.None? {
      return false;
    }
    var text := file.value;
    ghost var goal := AppendBounded(tier.Contents(), ParseWords(text), tier.capacity);
    var buffer := new char[MaxWordLen + 2];
    var pos := 0;
    var i := 0;                    // characters read so far
    ghost var line: string := [];  // the characters of the current line read so far
    ghost var dropped := false;    // an over-long last line was skipped to the end
    assert text[i..] == text;
    while true
      invariant tier.Valid() && tier.words == old(tier.words) && tier.capacity == old(tier.capacity)
      invariant 0 <= i <= |text| && 0 <= pos <= MaxWordLen && NoLineEnd(line)
      invariant goal == AppendBounded(tier.Contents(), Parse(text[i..], line), tier.capacity)
      invariant !dropped ==> buffer[..pos] == line
      invariant dropped ==> pos == 0 && i == |text| && |line| > MaxWordLen
      decreases |text| - i
    {
      if i == |text| {
        // end of file: a last line without a line end is treated the same way
        EndOfFile(line, buffer, pos, tier);
        break;
      }
      var c := text[i];
      buffer[pos] := c;
      i := i + 1;
      if buffer[pos] == '\n' || buffer[pos] == '\r' {
        EndOfLine(text[i - 1..], line, buffer, pos, tier);
        assert text[i - 1..][1..] == text[i..];
        pos := 0;
        line := [];
      } else if pos < MaxWordLen {
        assert text[i - 1..][1..] == text[i..];
        pos := pos + 1;
        line := Extend(line, c);
      } else {
        // word too long: skip to the next line end
        i, line, dropped := SkipOverlong(text, i, buffer, pos, line);
        pos := 0;
      }
    }
    return true;
  }

  /** Handles the end of the file: the unfinished line in `buffer[..pos]`, if any. */
  method EndOfFile(ghost line: string, buffer: array<char>, pos: nat, tier: WordTier)
    requires tier.Valid()
    requires pos <= MaxWordLen && pos < buffer.Length
    requires pos > 0 ==> buffer[..pos] == line
    requires pos == 0 ==> LineWord(line) == []
    modifies buffer, tier, tier.words
    ensures tier.Valid() && tier.words == old(tier.words) && tier.capacity == old(tier.capacity)
    ensures tier.Contents() == AppendBounded(old(tier.Contents()), Parse([], line), tier.capacity)
  {
    if pos > 0 {
      FinishLine(buffer, pos, tier);
    } else {
      assert tier.Contents() + [] == tier.Contents();
    }
  }

  /** Handles the line end `rest[0]`: the line in `buffer[..pos]` is finished. */
  method EndOfLine(ghost rest: string, ghost line: string,
                   buffer: array<char>, pos: nat, tier: WordTier)
    requires tier.Valid()
    requires rest != [] && IsLineEnd(rest[0])
    requires pos <= MaxWordLen && pos < buffer.Length && buffer[..pos] == line
    modifies buffer, tier, tier.words
    ensures tier.Valid() && tier.words == old(tier.words) && tier.capacity == old(tier.capacity)
    ensures AppendBounded(old(tier.Contents()), Parse(rest, line), tier.capacity) ==
      AppendBounded(tier.Contents(), Parse(rest[1..], []), tier.capacity)
  {
    ghost var c := tier.Contents();
    FinishLine(buffer, pos, tier);
    AppendBoundedAppend(c, LineWord(line), Parse(rest[1..], []), tier.capacity);
  }

  /**
   * Skips the rest of an over-long line, whose first `MaxWordLen` characters
   * are `line` and whose next character is `text[i - 1]`. Returns where
   * reading goes on and the line state to go on with: a fresh line, or, when
   * the file ended inside the line (`dropped`), the whole over-long line.
   */
  method SkipOverlong(text: string, i: nat, buffer: array<char>, pos: nat, ghost line: string)
    returns (j: nat, ghost line': string, ghost dropped: bool)
    requires 0 < i <= |text| && !IsLineEnd(text[i - 1])
    requires pos < buffer.Length && buffer[pos] == text[i - 1]
    requires |line| == MaxWordLen && NoLineEnd(line)
    modifies buffer
    ensures i <= j <= |text| && NoLineEnd(line')
    ensures Parse(text[i - 1..], line) == Parse(text[j..], line')
    ensures dropped ==> j == |text| && |line'| > MaxWordLen
    ensures !dropped ==> line' == []
  {
    ghost var rest;
    var more;
    j, more, rest := SkipLine(text, i, buffer, pos);
    if more {
      DroppedLine(text[i - 1..], line, rest, text[j..]);
      line' := [];
      dropped := false;
    } else {
      DroppedLastLine(line, rest);
      assert text[i - 1..] == rest + [] && text[j..] == [];
      line' := line + rest;
      dropped := true;
    }
  }

  /** A line skipped up to its line end for being too long adds nothing. */
  lemma DroppedLine(t: string, line: string, rest: string, after: string)
    requires |line| == MaxWordLen && NoLineEnd(rest) && rest != []
    requires |t| > |rest| && t[..|rest|] == rest && IsLineEnd(t[|rest|])
    requires after == t[|rest| + 1..]
    ensures Parse(t, line) == ParseWords(after)
  {
    assert t == rest + [t[|rest|]] + after;
    ParseSplit(rest, t[|rest|], after, line);
    ParseInLine(rest, [], line);
    assert rest + [] == rest;
  }

  /** An over-long last line, without a line end, adds nothing. */
  lemma DroppedLastLine(line: string, rest: string)
    requires |line| == MaxWordLen && NoLineEnd(rest) && rest != []
    ensures Parse(rest, line) == Parse([], line + rest) == []
  {
    ParseInLine(rest, [], line);
    assert rest + [] == rest;
  }

  /**
   * Reads on from `i` until a line end has been read (`more`) or the file
   * is exhausted; the characters read pass through `buffer[pos]`. `rest`
   * is what was skipped of the line, from its character at `i - 1` on.
   */
  method SkipLine(text: string, i: nat, buffer: array<char>, pos: nat)
    returns (j: nat, more: bool, ghost rest: string)
    requires 0 < i <= |text| && !IsLineEnd(text[i - 1])
    requires pos < buffer.Length && buffer[pos] == text[i - 1]
    modifies buffer
    ensures i <= j <= |text| && NoLineEnd(rest) && |rest| >= 1
    ensures more ==> i < j && IsLineEnd(text[j - 1]) && rest == text[i - 1..j - 1]
    ensures !more ==> j == |text| && rest == text[i - 1..]
  {
    j := i;
    more := true;
    while more && buffer[pos] != '\n' && buffer[pos] != '\r'
      modifies buffer
      invariant i <= j <= |text| && buffer[pos] == text[j - 1]
      invariant NoLineEnd(text[i - 1..j - 1])
      invariant !more ==> j == |text| && !IsLineEnd(text[j - 1])
      decreases |text| - j, more
    {
      if j == |text| {
        more := false;
      } else {
        assert text[i - 1..j] == Extend(text[i - 1..j - 1], text[j - 1]);
        buffer[pos] := text[j];
        j := j + 1;
      }
    }
    if more {
      rest := text[i - 1..j - 1];
      assert |rest| >= 1 by { assert j - 1 > i - 1; }
    } else {
      rest := Extend(text[i - 1..j - 1], text[j - 1]);
      assert rest == text[i - 1..];
    }
  }

  /** `s + [c]`, which keeps `NoLineEnd` when `c` is not a line end. */
  function Extend(s: string, c: char): (r: string)
    requires NoLineEnd(s) && !IsLineEnd(c)
    ensures r == s + [c] && NoLineEnd(r)
  {
    var r := s + [c];
    assert forall k :: 0 <= k < |s| ==> r[k] == s[k];
    r
  }
}
