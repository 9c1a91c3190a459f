/** Identifier vocabulary shared by the mobile command protocols. */
module Identifiers {

  /** The largest integer accepted by the safe-integer test of the mobile client. */
  const MAX_SAFE_INTEGER: int := 0x1F_FFFF_FFFF_FFFF

  predicate SafeNatural(n: int) {
    0 <= n <= MAX_SAFE_INTEGER
  }

  predicate SafePositive(n: int) {
    1 <= n <= MAX_SAFE_INTEGER
  }

  function LowerChar(c: char): char {
    if 'A' <= c <= 'Z' then (c as int + 32) as char else c
  }

  /** Case folding of identifiers; only the ASCII letters of a UUID are folded. */
  function Lower(s: string): (r: string)
    ensures |r| == |s|
  {
    seq(|s|, i requires 0 <= i < |s| => LowerChar(s[i]))
  }

  predicate IsHex(c: char) {
    '0' <= c <= '9' || 'a' <= c <= 'f' || 'A' <= c <= 'F'
  }

  /** The character class the UUID pattern demands at each of its 36 positions. */
  predicate UuidCharAt(i: nat, c: char) {
    if i == 8 || i == 13 || i == 18 || i == 23 then c == '-'
    else if i == 14 then '1' <= c <= '8'
    else if i == 19 then c == '8' || c == '9' || c == 'a' || c == 'b' || c == 'A' || c == 'B'
    else IsHex(c)
  }

  predicate IsUuid(s: string) {
    |s| == 36 && forall i :: 0 <= i < 36 ==> UuidCharAt(i, s[i])
  }

  /** Folding keeps a UUID a UUID, so an attempt built from valid identifiers is valid itself. */
  lemma LowerKeepsUuid(s: string)
    requires IsUuid(s)
    ensures IsUuid(Lower(s))
  {
    forall i | 0 <= i < 36 ensures UuidCharAt(i, Lower(s)[i]) {
      assert UuidCharAt(i, s[i]);
    }
  }

  /** Nothing but a UUID folds to one, so readers that agree with a valid attempt are well formed. */
  lemma LowerOfUuid(s: string)
    requires IsUuid(Lower(s))
    ensures IsUuid(s)
  {
    forall i | 0 <= i < 36 ensures UuidCharAt(i, s[i]) {
      assert UuidCharAt(i, Lower(s)[i]);
    }
  }

  /** Folding twice is folding once: republishing an attempt's own identifiers changes nothing. */
  lemma LowerIdempotent(s: string)
    ensures Lower(Lower(s)) == Lower(s)
  {
  }
}
