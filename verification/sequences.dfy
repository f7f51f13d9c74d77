/** Small facts about sequences that the table proofs use as rewriting steps. */
module Sequences {
  lemma ConcatAssoc<T>(a: seq<T>, b: seq<T>, c: seq<T>)
    ensures (a + b) + c == a + (b + c)
  {
  }

  lemma UpdateTwice<T>(t: seq<T>, i: nat, x: T, y: T)
    requires i < |t|
    ensures t[i := x][i := y] == t[i := y]
  {
  }

  lemma UpdateLast<T>(t: seq<T>, x: T, y: T)
    ensures (t + [x])[|t| := y] == t + [y]
  {
  }
}
