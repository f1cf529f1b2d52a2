/**
 * Facts about sequences in general, stated once over any element type so
 * that proofs about texts can use them without unfolding anything.
 */
module Sequences {

  /** Concatenation regroups freely. */
  lemma AppendAssoc<T>(a: seq<T>, b: seq<T>, c: seq<T>)
    ensures (a + b) + c == a + (b + c)
  {
  }

  /** A range of a sequence is the range up to a midpoint followed by the range from it. */
  lemma SliceSplit<T>(s: seq<T>, lo: nat, mid: nat, hi: nat)
    requires lo <= mid <= hi <= |s|
    ensures s[lo..hi] == s[lo..mid] + s[mid..hi]
  {
  }

  /** The front of a concatenation is its first part, and dropping that part leaves the second. */
  lemma AppendParts<T>(p: seq<T>, q: seq<T>)
    ensures (p + q)[..|p|] == p
    ensures (p + q)[|p|..] == q
  {
  }

  /** Dropping past the first part of a concatenation drops into the second. */
  lemma DropPast<T>(p: seq<T>, q: seq<T>, k: nat)
    requires k <= |q|
    ensures (p + q)[|p| + k..] == q[k..]
  {
  }

  /** Pushing the next element of `whole` onto a prefix of it gives the next prefix. */
  lemma PushPrefix<T>(prefix: seq<T>, whole: seq<T>, x: T)
    requires |prefix| < |whole| && prefix == whole[..|prefix|] && x == whole[|prefix|]
    ensures prefix + [x] == whole[..|prefix| + 1]
  {
  }

  /** The prefix as long as the whole is the whole. */
  lemma PrefixWhole<T>(whole: seq<T>)
    ensures whole[..|whole|] == whole
  {
  }

  /** Two permutations that agree on their first element agree on the rest. */
  lemma MultisetTail<T>(r: seq<T>, s: seq<T>)
    requires r != [] && s != [] && r[0] == s[0] && multiset(r) == multiset(s)
    ensures multiset(r[1..]) == multiset(s[1..])
  {
    assert r == [r[0]] + r[1..];
    assert s == [s[0]] + s[1..];
    assert multiset(r) == multiset{r[0]} + multiset(r[1..]);
    assert multiset(s) == multiset{r[0]} + multiset(s[1..]);
    forall x
      ensures multiset(r[1..])[x] == multiset(s[1..])[x]
    {
      assert multiset(r)[x] == multiset(s)[x];
    }
  }
}
