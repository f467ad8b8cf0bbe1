/** An optional value; `None` stands for a C `NULL`. */
module Wrappers {
  datatype Option<+T> = None | Some(value: T)
}

/**
 * Character classes and C-string helpers used by the prediction engine,
 * with the ASCII ("C" locale) meaning of `isspace`, `isalnum` and `tolower`.
 */
module Text {

  /** `isspace` in the "C" locale: space, \t, \n, \v, \f, \r. */
  predicate IsSpace(c: char) {
    c == ' ' || c == '\t' || c == '\n' || c == '\U{0B}' || c == '\U{0C}' || c == '\r'
  }

  /** Characters that end a line of a word-list file. */
  predicate IsLineEnd(c: char) {
    c == '\n' || c == '\r'
  }

  /** Characters that separate the words of the text being typed. */
  predicate IsSeparator(c: char) {
    c == ' ' || c == '\n' || c == '\r'
  }

  predicate IsAlnum(c: char) {
    ('a' <= c <= 'z') || ('A' <= c <= 'Z') || ('0' <= c <= '9')
  }

  function ToLower(c: char): (r: char)
    ensures 'A' <= c <= 'Z' ==> 'a' <= r <= 'z'
    ensures !('A' <= c <= 'Z') ==> r == c
  {
    if 'A' <= c <= 'Z' then (c as int + 32) as char else c
  }

  /** A C string holds no NUL byte; its terminator is not part of the value. */
  predicate IsCString(s: string) {
    '\0' !in s
  }

  function Min(a: int, b: int): int {
    if a <= b then a else b
  }

  /** The first `n` elements of `s`, or all of `s` when it is shorter. */
  function Take<T>(s: seq<T>, n: int): (r: seq<T>)
    ensures |r| == if n <= 0 then 0 else Min(n, |s|)
    ensures r <= s
  {
    s[..if n <= 0 then 0 else Min(n, |s|)]
  }

  /** The C string read from a buffer: everything before its first NUL. */
  function UpToNul(s: string): (r: string)
    ensures IsCString(r) && r <= s
    ensures |r| < |s| ==> s[|r|] == '\0'
  {
    if s == [] || s[0] == '\0' then [] else [s[0]] + UpToNul(s[1..])
  }

  /** `s` without its trailing `isspace` characters. */
  function TrimRight(s: string): (r: string)
    ensures r <= s
    ensures r == [] || !IsSpace(r[|r| - 1])
    ensures forall k :: |r| <= k < |s| ==> IsSpace(s[k])
  {
    if s != [] && IsSpace(s[|s| - 1]) then TrimRight(s[..|s| - 1]) else s
  }

  predicate NoLineEnd(s: string) {
    forall k :: 0 <= k < |s| ==> !IsLineEnd(s[k])
  }
}
