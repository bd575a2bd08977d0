/** Laws of sequences, stated for any element type so that proofs about
    concrete sequences need not rediscover them. */
module Seqs {

  /** Concatenation is associative. */
  lemma Assoc<T>(a: seq<T>, b: seq<T>, c: seq<T>)
    ensures a + b + c == a + (b + c)
  {
  }

  /** A property of matching items holds everywhere when it holds at the head
      and everywhere in the tails. */
  lemma ConsAll<A, B, C>(xs: seq<A>, ys: seq<B>, zs: seq<C>, P: (A, B, C) -> bool)
    requires 0 < |xs| == |ys| == |zs|
    requires P(xs[0], ys[0], zs[0])
    requires forall k :: 0 <= k < |xs| - 1 ==> P(xs[1..][k], ys[1..][k], zs[1..][k])
    ensures forall k :: 0 <= k < |xs| ==> P(xs[k], ys[k], zs[k])
  {
    forall k | 0 < k < |xs|
      ensures P(xs[k], ys[k], zs[k])
    {
      assert xs[k] == xs[1..][k - 1] && ys[k] == ys[1..][k - 1] && zs[k] == zs[1..][k - 1];
    }
  }

  /** What a prefix holds, the whole sequence holds. */
  lemma PrefixMembers<T>(a: seq<T>, b: seq<T>)
    requires a <= b
    ensures forall x :: x in a ==> x in b
  {
    forall x | x in a
      ensures x in b
    {
      var k :| 0 <= k < |a| && a[k] == x;
      assert b[k] == x;
    }
  }

  /** Slices that end inside `a` do not see what is appended to it. */
  lemma AppendSlices<T>(a: seq<T>, b: seq<T>, i: nat, j: nat)
    requires i <= j <= |a|
    ensures (a + b)[i..j] == a[i..j]
    ensures (a + b)[..j] == a[..j]
    ensures (a + b)[i..] == a[i..] + b
  {
  }

  /** A non-empty sequence is its head followed by its tail. */
  lemma HeadTail<T>(s: seq<T>)
    requires s != []
    ensures [s[0]] + s[1..] == s
  {
  }

  /** One item in front of two. */
  lemma Cons3<T>(a: T, b: T, c: T)
    ensures [a] + [b, c] == [a, b, c]
  {
  }
}
