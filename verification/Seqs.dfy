/** Facts about sequences that several conservation proofs share. */
module Seqs {
  lemma NothingDue<T>(a: seq<T>, b: seq<T>, x: seq<T>, y: seq<T>)
    requires a + b == x + y && a == [] && y == []
    ensures b == x
  {
    assert a + b == b && x + y == x;
  }

  /** Two equations of concatenations, one after the other. */
  lemma InTurn<T>(a: seq<T>, b: seq<T>, c: seq<T>, x: seq<T>, y: seq<T>, z: seq<T>, w: seq<T>)
    requires a + b == x + y && y + c == z + w
    ensures a + (b + c) == (x + z) + w
  {
    assert a + (b + c) == (a + b) + c;
    assert (x + y) + c == x + (y + c);
    assert x + (z + w) == (x + z) + w;
  }
}
