/**
 * The character class `\w` of Go's RE2 engine and the greedy run of such
 * characters that `[\w_]+` consumes. RE2's `\w` is ASCII only: letters,
 * digits and the underscore.
 */
module Words {

  predicate IsWordChar(c: char) {
    ('a' <= c <= 'z') || ('A' <= c <= 'Z') || ('0' <= c <= '9') || c == '_'
  }

  /** Every character of `s` is a word character. */
  predicate IsWord(s: string) {
    forall i :: 0 <= i < |s| ==> IsWordChar(s[i])
  }

  /** The longest prefix of `s` made of word characters. */
  function WordPrefix(s: string): (w: string)
    ensures |w| <= |s| && w == s[..|w|]
    ensures IsWord(w)
    ensures |w| < |s| ==> !IsWordChar(s[|w|])
    decreases |s|
  {
    if s != [] && IsWordChar(s[0]) then [s[0]] + WordPrefix(s[1..]) else []
  }

  /** A run of word characters followed by a non-word character (or by nothing) is exactly what WordPrefix finds. */
  lemma {:induction false} WordPrefixOf(w: string, rest: string)
    requires IsWord(w)
    requires rest == [] || !IsWordChar(rest[0])
    ensures WordPrefix(w + rest) == w
    decreases |w|
  {
    if w == [] {
      assert w + rest == rest;
    } else {
      assert (w + rest)[1..] == w[1..] + rest;
      assert IsWordChar(w[0]);
      WordPrefixOf(w[1..], rest);
    }
  }
}
