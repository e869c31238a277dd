/**
 * Correlation tokens (RLNode.cpp:601-617): each character comes from one
 * draw of `random(0, 62)`.
 */
module Correlation {
  import opened CString

  /** Size of the CorrelationData buffer (RLNode.h:27, 124). */
  const MAX_GENERAL_STRING_LENGTH: nat := 20
  /** A token fills the buffer except for its NUL. */
  const TOKEN_LENGTH: nat := MAX_GENERAL_STRING_LENGTH - 1
  /** `random(0, 62)` draws from [0, 62). */
  const ALPHABET_SIZE: nat := 62

  predicate IsAlnum(c: char) {
    'a' <= c <= 'z' || 'A' <= c <= 'Z' || '0' <= c <= '9'
  }

  /** The character written for a draw r: first 'a' + r, replaced by a digit
      above 51 and by an upper-case letter above 25. */
  function CorrelationChar(r: nat): (c: char)
    requires r < ALPHABET_SIZE
    ensures IsAlnum(c)
    ensures r <= 25 ==> 'a' <= c <= 'z'
    ensures 26 <= r <= 51 ==> 'A' <= c <= 'Z'
    ensures 52 <= r ==> '0' <= c <= '9'
  {
    var first := ('a' as int + r) as char;
    if r > 51 then ('0' as int + (r - 52)) as char
    else if r > 25 then ('A' as int + (r - 26)) as char
    else first
  }

  /** The draw that yields an alphanumeric character. */
  function CorrelationIndex(c: char): (r: nat)
    requires IsAlnum(c)
    ensures r < ALPHABET_SIZE
  {
    if 'a' <= c <= 'z' then c as int - 'a' as int
    else if 'A' <= c <= 'Z' then c as int - 'A' as int + 26
    else c as int - '0' as int + 52
  }

  /** The map from draws to characters is a bijection between [0, 62) and
      [a-zA-Z0-9]: no two draws give the same character, and every
      alphanumeric character is reachable. */
  lemma CorrelationBijection(r: nat, c: char)
    requires r < ALPHABET_SIZE && IsAlnum(c)
    ensures CorrelationIndex(CorrelationChar(r)) == r
    ensures CorrelationChar(CorrelationIndex(c)) == c
  {
  }

  lemma CorrelationCharInjective(r: nat, s: nat)
    requires r < ALPHABET_SIZE && s < ALPHABET_SIZE
    requires CorrelationChar(r) == CorrelationChar(s)
    ensures r == s
  {
    CorrelationBijection(r, CorrelationChar(r));
    CorrelationBijection(s, CorrelationChar(s));
  }

  /** Draws as random(0, 62) returns them: in range, one per character. */
  predicate ValidDraws(draws: seq<nat>) {
    |draws| == TOKEN_LENGTH && forall i :: 0 <= i < |draws| ==> draws[i] < ALPHABET_SIZE
  }

  /** The token generateCorrelationData stores for a run of draws. */
  function Token(draws: seq<nat>): (t: string)
    requires ValidDraws(draws)
    ensures |t| == TOKEN_LENGTH && |t| < MAX_GENERAL_STRING_LENGTH
    ensures forall i :: 0 <= i < |t| ==> IsAlnum(t[i])
    ensures NoNul(t)
  {
    seq(TOKEN_LENGTH, i requires 0 <= i < TOKEN_LENGTH => CorrelationChar(draws[i]))
  }

  /** Different draws give different tokens. */
  lemma TokenInjective(d1: seq<nat>, d2: seq<nat>)
    requires ValidDraws(d1) && ValidDraws(d2)
    requires Token(d1) == Token(d2)
    ensures d1 == d2
  {
    forall i | 0 <= i < TOKEN_LENGTH ensures d1[i] == d2[i] {
      assert Token(d1)[i] == Token(d2)[i];
      CorrelationCharInjective(d1[i], d2[i]);
    }
  }
}
