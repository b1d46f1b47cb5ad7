/**
 * Character classes of the regular expressions the engine uses, and the
 * length of a maximal run of one class. Every group of those expressions is
 * a greedy run of one class, so a match is determined by run lengths.
 */
module Text {

  /** JavaScript's `\s`: white space and line terminators. */
  predicate IsSpace(c: char)
  {
    || c == ' ' || c == '\t' || c == '\n' || c == '\r' || c == '\U{000B}' || c == '\U{000C}'
    || c == '\U{00A0}' || c == '\U{1680}' || ('\U{2000}' <= c <= '\U{200A}')
    || c == '\U{2028}' || c == '\U{2029}' || c == '\U{202F}' || c == '\U{205F}'
    || c == '\U{3000}' || c == '\U{FEFF}'
  }

  predicate IsDigit(c: char)
  {
    '0' <= c <= '9'
  }

  /** `[a-zA-Z]` */
  predicate IsLetter(c: char)
  {
    ('a' <= c <= 'z') || ('A' <= c <= 'Z')
  }

  /** Length of the longest run of characters satisfying p that starts at index i. */
  function Run(s: string, i: nat, p: char -> bool): (n: nat)
    requires i <= |s|
    ensures i + n <= |s|
    ensures forall k :: i <= k < i + n ==> p(s[k])
    ensures i + n == |s| || !p(s[i + n])
    decreases |s| - i
  {
    if i < |s| && p(s[i]) then 1 + Run(s, i + 1, p) else 0
  }

  /** A block of n characters satisfying p, ended by the string's end or by a character that does not, is the run at i. */
  lemma RunOfBlock(s: string, i: nat, n: nat, p: char -> bool)
    requires i + n <= |s|
    requires forall k :: i <= k < i + n ==> p(s[k])
    requires i + n == |s| || !p(s[i + n])
    ensures Run(s, i, p) == n
  {
  }

  /** A run inside the second part of a concatenation is the run in that part. */
  lemma {:induction false} RunOfSuffix(x: string, y: string, k: nat, p: char -> bool)
    requires k <= |y|
    ensures Run(x + y, |x| + k, p) == Run(y, k, p)
    decreases |y| - k
  {
    if k < |y| {
      assert (x + y)[|x| + k] == y[k];
      RunOfSuffix(x, y, k + 1, p);
    }
  }
}
