/** Small facts about sequences used by several modules. */
module Sequences {
  /** A sequence of two or more elements is its first two followed by the rest. */
  lemma FirstTwo<T>(s: seq<T>)
    requires |s| > 1
    ensures s == [s[0], s[1]] + s[2..]
  {
  }

  lemma AppendAssociative<T>(a: seq<T>, b: seq<T>, c: seq<T>)
    ensures (a + b) + c == a + (b + c)
  {
  }
}
