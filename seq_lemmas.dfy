/** Small facts about sequence concatenation, stated once for every element type. */
module SeqLemmas {

  lemma ConcatAssoc<T>(a: seq<T>, b: seq<T>, c: seq<T>)
    ensures a + (b + c) == (a + b) + c
  {
  }

  lemma SliceOfConcat<T>(p: seq<T>, q: seq<T>, i: nat, j: nat)
    requires i <= j <= |p| + |q|
    ensures j <= |p| ==> (p + q)[i..j] == p[i..j]
    ensures i == |p| && j == |p| + |q| ==> (p + q)[i..j] == q
  {
  }
}
