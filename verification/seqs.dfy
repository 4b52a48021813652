/** Facts about sequence concatenation shared by the text and byte modules. */
module Seqs {
  /** A sequence is its prefix up to i followed by the rest. */
  lemma Halves<T>(s: seq<T>, i: nat)
    requires i <= |s|
    ensures s == s[..i] + s[i..]
  {
  }

  lemma Assoc<T>(x: seq<T>, y: seq<T>, z: seq<T>)
    ensures x + (y + z) == x + y + z
  {
  }
}
