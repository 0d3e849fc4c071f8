/**
 Small facts about sequences, stated once and used where element-by-element
 reasoning would otherwise drag unrelated definitions into a proof.
 */
module Seqs {

  lemma ConcatAssoc<T>(a: seq<T>, b: seq<T>, c: seq<T>)
    ensures a + b + c == a + (b + c)
  {
  }

  lemma ConcatEmpty<T>(a: seq<T>, b: seq<T>)
    requires |b| == 0
    ensures a + b == a && b + a == a
  {
  }

  lemma SplitAt<T>(d: seq<T>, k: nat)
    requires k <= |d|
    ensures d[..k] + d[k..] == d
    ensures d[..|d|] == d
  {
  }

  /** Extending a sequence leaves its prefixes alone and extends its suffixes. */
  lemma AppendSlices<T>(d: seq<T>, e: seq<T>, k: nat)
    requires k <= |d|
    ensures (d + e)[..k] == d[..k]
    ensures (d + e)[k..] == d[k..] + e
  {
  }

  /** Dropping the head commutes with taking a prefix or a suffix. */
  lemma DropHead<T>(q: seq<T>, k: nat)
    requires 1 <= k <= |q|
    ensures q[..k][1..] == q[1..][..k - 1]
    ensures q[k..] == q[1..][k - 1..]
  {
  }
}
