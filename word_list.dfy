/**
 * What a word-list file means: which of its lines become vocabulary words.
 * A file is a sequence of characters; '\n' and '\r' both end a line, and a
 * last line without a line end counts as a line.
 */
module WordList {
  import opened Text

  /** Longest line (before its line end) that the loader accepts. */
  const MaxWordLen: nat := 32

  /**
   * The word a single line contributes: none when it is longer than
   * `MaxWordLen`, blank after trimming trailing whitespace, or a `#` comment;
   * otherwise the trimmed line, read as a C string (up to a NUL, if any).
   */
  function LineWord(line: string): (r: seq<string>)
    ensures |r| <= 1
  {
    if |line| > MaxWordLen then []
    else
      var t := TrimRight(line);
      if t != [] && t[0] != '#' then [UpToNul(t)] else []
  }

  /**
   * The words of the text `t` read after `cur`, the characters of a line
   * begun but not yet ended: each line contributes its `LineWord`, in order.
   */
  function Parse(t: string, cur: string): (r: seq<string>)
    ensures |r| <= |t| + 1
    decreases |t|
  {
    if t == [] then LineWord(cur)
    else if IsLineEnd(t[0]) then LineWord(cur) + Parse(t[1..], [])
    else Parse(t[1..], cur + [t[0]])
  }

  /** The words a file contributes, line by line, in file order. */
  function ParseWords(t: string): (r: seq<string>)
    ensures |r| <= |t| + 1
  {
    Parse(t, [])
  }

  lemma ParseWordsEmpty()
    ensures ParseWords([]) == []
  {
  }

  /** Characters that are not line ends just extend the current line. */
  lemma {:induction false} ParseInLine(x: string, y: string, cur: string)
    requires NoLineEnd(x)
    ensures Parse(x + y, cur) == Parse(y, cur + x)
    decreases |x|
  {
    if x == [] {
      assert x + y == y && cur + x == cur;
    } else {
      assert (x + y)[1..] == x[1..] + y;
      assert cur + [x[0]] + x[1..] == cur + x;
      ParseInLine(x[1..], y, cur + [x[0]]);
    }
  }

  /** A text without line ends is one line, final or not. */
  lemma ParseWordsOfLine(l: string)
    requires NoLineEnd(l)
    ensures ParseWords(l) == LineWord(l)
  {
    ParseInLine(l, [], []);
    assert l + [] == l && [] + l == l;
  }

  /** Lines are parsed independently: a line end splits the parse in two. */
  lemma {:induction false} ParseSplit(a: string, c: char, b: string, cur: string)
    requires IsLineEnd(c)
    ensures Parse(a + [c] + b, cur) == Parse(a, cur) + ParseWords(b)
    decreases |a|
  {
    var t := a + [c] + b;
    if a == [] {
      assert t[1..] == b;
    } else if IsLineEnd(a[0]) {
      assert t[1..] == a[1..] + [c] + b;
      ParseSplit(a[1..], c, b, []);
    } else {
      assert t[1..] == a[1..] + [c] + b;
      ParseSplit(a[1..], c, b, cur + [a[0]]);
    }
  }

  lemma ParseWordsSplit(a: string, c: char, b: string)
    requires IsLineEnd(c)
    ensures ParseWords(a + [c] + b) == ParseWords(a) + ParseWords(b)
  {
    ParseSplit(a, c, b, []);
  }

  /** A word of a line is a C string of at most `MaxWordLen` characters that
      comes from the line itself, and a non-empty one does not start with '#'. */
  lemma LineWordShape(line: string)
    requires NoLineEnd(line) && LineWord(line) != []
    ensures var w := LineWord(line)[0];
      IsCString(w) && |w| <= MaxWordLen && w <= line && NoLineEnd(w) &&
      (w != [] ==> w[0] != '#')
  {
    var w := LineWord(line)[0];
    assert forall j :: 0 <= j < |w| ==> w[j] == line[j];
  }

  /** Every parsed word has the shape `LineWordShape` states. */
  lemma {:induction false} ParsedWordShape(t: string, cur: string, k: nat)
    requires NoLineEnd(cur) && k < |Parse(t, cur)|
    ensures var w := Parse(t, cur)[k];
      IsCString(w) && |w| <= MaxWordLen && NoLineEnd(w) && (w != [] ==> w[0] != '#')
    decreases |t|
  {
    if t == [] {
      LineWordShape(cur);
    } else if IsLineEnd(t[0]) {
      if k < |LineWord(cur)| {
        LineWordShape(cur);
      } else {
        ParsedWordShape(t[1..], [], k - |LineWord(cur)|);
      }
    } else {
      var cur' := cur + [t[0]];
      assert forall j :: 0 <= j < |cur'| ==> cur'[j] == if j < |cur| then cur[j] else t[0];
      ParsedWordShape(t[1..], cur', k);
    }
  }

  /**
   * The length limit: a line of exactly `MaxWordLen` characters is kept,
   * one character more and the line is dropped whatever it holds.
   */
  lemma LineLengthLimit(line: string)
    ensures |line| == MaxWordLen && line[0] != '#' && !IsSpace(line[|line| - 1]) ==>
      LineWord(line) == [UpToNul(line)]
    ensures |line| > MaxWordLen ==> LineWord(line) == []
  {
  }

  lemma WordLineExample()
    ensures ParseWords("hi") == ["hi"]
  {
    ParseWordsOfLine("hi");
    assert TrimRight("hi") == "hi";
    assert UpToNul("hi") == "hi" by { assert "hi"[1..] == "i"; }
  }

  lemma CommentLineExample()
    ensures ParseWords("#x") == []
  {
    ParseWordsOfLine("#x");
    assert TrimRight("#x") == "#x";
  }

  /** Leading whitespace stays, trailing whitespace goes. */
  lemma SpacedLineExample()
    ensures ParseWords(" yo ") == [" yo"]
  {
    ParseWordsOfLine(" yo ");
    assert TrimRight(" yo ") == " yo" by { assert " yo "[..3] == " yo"; }
    assert UpToNul(" yo") == " yo" by {
      assert " yo"[1..] == "yo";
      assert "yo"[1..] == "o";
    }
  }

  /** A "\r\n" line end gives the same words as a single "\n": the empty
      line between its two characters contributes nothing. */
  lemma CrLfAsLf(a: string, b: string)
    ensures ParseWords(a + "\r\n" + b) == ParseWords(a + "\n" + b)
  {
    assert a + "\r\n" + b == a + ['\r'] + ([] + ['\n'] + b);
    assert a + "\n" + b == a + ['\n'] + b;
    ParseWordsSplit(a, '\r', [] + ['\n'] + b);
    ParseWordsSplit([], '\n', b);
    ParseWordsSplit(a, '\n', b);
  }
}
