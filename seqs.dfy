/** Element-wise mapping of sequences, the model of JavaScript's `Array.prototype.map`. */
module Seqs {

  /** Applies `f` to every element of `s`, keeping the order and the length. */
  function MapSeq<A, B>(f: A -> B, s: seq<A>): (r: seq<B>)
    ensures |r| == |s|
    ensures forall i :: 0 <= i < |s| ==> r[i] == f(s[i])
  {
    if s == [] then [] else [f(s[0])] + MapSeq(f, s[1..])
  }
}
