/** Facts about sequence concatenation and prefixes that several proofs share. */
module Seqs {

  lemma AppendAssoc<T>(a: seq<T>, b: seq<T>, c: seq<T>)
    ensures a + b + c == a + (b + c)
  {
  }

  /** Extending two sequences by the same front keeps one a prefix of the other. */
  lemma PrefixExtend<T>(x: seq<T>, a: seq<T>, b: seq<T>)
    requires a <= b
    ensures x + a <= x + b
  {
    assert (x + b)[..|x + a|] == x + a by {
      assert forall i :: 0 <= i < |x + a| ==> (x + b)[i] == (x + a)[i];
    }
  }

  lemma PrefixTrans<T>(a: seq<T>, b: seq<T>, c: seq<T>)
    requires a <= b <= c
    ensures a <= c
  {
    assert c[..|a|] == b[..|a|];
  }

  /** A sequence that starts with `front + mid` holds `mid` right after `front`. */
  lemma SliceAfterFront<T>(r: seq<T>, front: seq<T>, mid: seq<T>)
    requires front + mid <= r
    ensures r[|front| .. |front| + |mid|] == mid
  {
    forall i | 0 <= i < |mid| ensures r[|front| + i] == mid[i] {
      assert r[|front| + i] == (front + mid)[|front| + i];
    }
  }
}
