/** Facts about sequence concatenation, stated on plain sequences so that the
    proofs that use them need not rediscover them next to larger
    definitions. */
module Seqs {

  lemma AppendAssoc<T>(a: seq<T>, b: seq<T>, c: seq<T>)
    ensures a + b + c == a + (b + c)
  {
  }

  /** A prefix of the middle part, after the same front, is a prefix of the
      whole. */
  lemma PrefixInside<T>(h: seq<T>, p: seq<T>, l: seq<T>, f: seq<T>)
    requires p <= l
    ensures h + p <= h + l + f
  {
    assert (h + l + f)[..|h + p|] == h + p;
  }

  lemma PrefixOfAppend<T>(a: seq<T>, b: seq<T>)
    ensures a <= a + b
  {
  }
}
