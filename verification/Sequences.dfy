/** Sequences of sequences that the models share. */
module Sequences {

  function Concat<T>(pieces: seq<seq<T>>): seq<T> {
    if pieces == [] then [] else Concat(pieces[..|pieces| - 1]) + pieces[|pieces| - 1]
  }

  lemma ConcatNext<T>(pieces: seq<seq<T>>, piece: seq<T>)
    ensures Concat(pieces + [piece]) == Concat(pieces) + piece
  {
    assert (pieces + [piece])[..|pieces|] == pieces;
  }

  lemma {:induction false} Reassociate<T>(a: seq<T>, b: seq<T>, c: seq<T>)
    ensures a + (b + c) == a + b + c
  {
  }
}
