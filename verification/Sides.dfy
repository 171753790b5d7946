/** The two sides of a binary tree, so that mirror-image cases can be one case. */
module Sides {
  datatype Side = Left | Right

  function Other(s: Side): Side { if s == Left then Right else Left }

  lemma Regroup<T>(a: seq<T>, b: seq<T>, c: seq<T>, d: seq<T>, e: seq<T>)
    ensures a + b + (c + d + e) == (a + b + c) + d + e
    ensures (a + b + c) + d + e == a + b + (c + d + e)
  {
  }
}
