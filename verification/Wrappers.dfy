/** Results of operations that may fail or find nothing, and what every module needs of sequences. */
module Wrappers {
  datatype Option<+T> = None | Some(value: T)

  lemma ConcatAssociative<T>(a: seq<T>, b: seq<T>, c: seq<T>)
    ensures a + b + c == a + (b + c)
  {
  }

  lemma TakeOneMore<T>(before: seq<T>, xs: seq<T>, n: nat)
    requires n < |xs|
    ensures before + xs[..n + 1] == before + xs[..n] + [xs[n]]
  {
  }

  lemma TakeNoneOrAll<T>(before: seq<T>, xs: seq<T>)
    ensures before + xs[..0] == before && before + xs[..|xs|] == before + xs
  {
    assert xs[..|xs|] == xs;
  }
}
