/** Facts about taking prefixes of a sequence, stated once for any element
    type so that proofs about folds over records need not rediscover them
    next to heavier definitions. */
module Sequences {

  lemma SplitAt<T>(s: seq<T>, n: nat)
    requires n <= |s|
    ensures s[..n] + s[n..] == s
  {
  }

  lemma TakeTake<T>(s: seq<T>, n: nat, m: nat)
    requires m <= n <= |s|
    ensures s[..n][..m] == s[..m]
  {
  }

  lemma TakeAll<T>(s: seq<T>)
    ensures s[..|s|] == s
  {
  }

  lemma DropLast<T>(s: seq<T>)
    requires s != []
    ensures s == s[..|s| - 1] + [s[|s| - 1]]
  {
  }

  /** The elements of a sequence with one more at its end. */
  lemma ElementsOfSnoc<T>(front: seq<T>, last: T)
    ensures (set x | x in front + [last]) == (set x | x in front) + {last}
  {
  }
}
