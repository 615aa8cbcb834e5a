/** Option and Result, standing for Rust's types of the same purpose. */
module Wrappers {
  datatype Option<+T> = None | Some(value: T)

  datatype Result<+T, +E> = Ok(value: T) | Err(error: E)
}

/** Equalities of sequences that loops and concatenations come down to. */
module Seqs {
  lemma Associative<T>(a: seq<T>, b: seq<T>, c: seq<T>)
    ensures (a + b) + c == a + (b + c)
  {
  }

  lemma Nothing<T>(a: seq<T>)
    ensures a + [] == a && [] + a == a
  {
  }

  lemma Pushed<T>(a: seq<T>, x: T)
    ensures (a + [x])[..|a|] == a && (a + [x])[|a|] == x
  {
  }

  /** The rest of a sequence from one index on. */
  lemma Rest<T>(a: seq<T>, i: nat)
    requires i < |a|
    ensures a[i..] != [] && a[i..][0] == a[i] && a[i..][1..] == a[i + 1..]
  {
  }

  lemma TakeMore<T>(a: seq<T>, more: seq<T>, n: nat)
    requires n <= |a|
    ensures (a + more)[..n] == a[..n]
    ensures n < |a| ==> (a + more)[..n + 1] == a[..n] + [a[n]]
  {
  }
}
