/** The part of `java.util.TreeMap<String, V>` the session template relies
    on: entries kept in ascending key order under `String.compareTo`, one
    entry per key, `put` replacing the value of a key already present. */
module SortedMaps {

  /** `a.compareTo(b) < 0`: at the first position where they differ `a`
      has the smaller character, or `a` is a proper prefix of `b`. */
  predicate Below(a: string, b: string)
    decreases |a|
  {
    if b == [] then false
    else if a == [] then true
    else if a[0] != b[0] then a[0] < b[0]
    else Below(a[1..], b[1..])
  }

  lemma {:induction false} BelowIrreflexive(a: string)
    ensures !Below(a, a)
    decreases |a|
  {
    if a != [] {
      BelowIrreflexive(a[1..]);
    }
  }

  lemma {:induction false} BelowTransitive(a: string, b: string, c: string)
    requires Below(a, b) && Below(b, c)
    ensures Below(a, c)
    decreases |a|
  {
    if a != [] && a[0] == b[0] && b[0] == c[0] {
      BelowTransitive(a[1..], b[1..], c[1..]);
    }
  }

  /** Two different strings are always ordered one way or the other. */
  lemma {:induction false} BelowTotal(a: string, b: string)
    requires a != b
    ensures Below(a, b) || Below(b, a)
    decreases |a|
  {
    if a != [] && b != [] && a[0] == b[0] {
      assert a == [a[0]] + a[1..] && b == [b[0]] + b[1..];
      BelowTotal(a[1..], b[1..]);
    }
  }

  datatype Entry<V> = Entry(key: string, value: V)

  /** The entries in strictly ascending key order. */
  ghost predicate Ascending<V>(es: seq<Entry<V>>) {
    forall i, j :: 0 <= i < j < |es| ==> Below(es[i].key, es[j].key)
  }

  function KeysOf<V(==)>(es: seq<Entry<V>>): set<string> {
    set e | e in es :: e.key
  }

  /** Ascending order leaves no room for a key to appear twice. */
  lemma AscendingKeysDistinct<V>(es: seq<Entry<V>>, i: nat, j: nat)
    requires Ascending(es) && i < |es| && j < |es| && i != j
    ensures es[i].key != es[j].key
  {
    if i < j {
      BelowIrreflexive(es[i].key);
    } else {
      BelowIrreflexive(es[j].key);
    }
  }

  /** An entry in front of an ascending list keeps it ascending when its
      key is below every key of the list. */
  lemma AscendingCons<V>(e: Entry<V>, es: seq<Entry<V>>)
    requires Ascending(es)
    requires forall x :: x in es ==> Below(e.key, x.key)
    ensures Ascending([e] + es)
  {
    var r := [e] + es;
    forall i, j | 0 <= i < j < |r| ensures Below(r[i].key, r[j].key) {
      if i == 0 {
        assert r[j] in es;
      } else {
        assert r[i] == es[i - 1] && r[j] == es[j - 1];
      }
    }
  }

  /** `put`: the key ends up with the new value at its place in the order;
      every other entry is kept. */
  function Put<V(==)>(es: seq<Entry<V>>, k: string, v: V): (r: seq<Entry<V>>)
    requires Ascending(es)
    ensures Ascending(r)
    ensures KeysOf(r) == KeysOf(es) + {k}
    ensures Entry(k, v) in r
    ensures forall e :: e in r && e.key != k ==> e in es
    ensures forall e :: e in es && e.key != k ==> e in r
    ensures forall e :: e in r && e.key == k ==> e.value == v
    decreases |es|
  {
    if es == [] then [Entry(k, v)]
    else if es[0].key == k then
      PutReplacing(es, k, v);
      [Entry(k, v)] + es[1..]
    else if Below(k, es[0].key) then
      PutInFront(es, k, v);
      [Entry(k, v)] + es
    else
      var rest := Put(es[1..], k, v);
      PutBehind(es, k, rest);
      [es[0]] + rest
  }

  lemma PutReplacing<V>(es: seq<Entry<V>>, k: string, v: V)
    requires Ascending(es) && es != [] && es[0].key == k
    ensures Ascending([Entry(k, v)] + es[1..])
    ensures forall e :: e in es[1..] ==> e.key != k
  {
    forall x | x in es[1..] ensures Below(k, x.key) {
      var j :| 0 <= j < |es[1..]| && es[1..][j] == x;
      assert es[j + 1] == x;
    }
    forall x | x in es[1..] ensures x.key != k {
      BelowIrreflexive(k);
    }
    AscendingCons(Entry(k, v), es[1..]);
  }

  lemma PutInFront<V>(es: seq<Entry<V>>, k: string, v: V)
    requires Ascending(es) && es != [] && Below(k, es[0].key)
    ensures Ascending([Entry(k, v)] + es)
    ensures forall e :: e in es ==> e.key != k
  {
    forall x | x in es ensures Below(k, x.key) {
      var j :| 0 <= j < |es| && es[j] == x;
      if j > 0 {
        BelowTransitive(k, es[0].key, x.key);
      }
    }
    forall x | x in es ensures x.key != k {
      BelowIrreflexive(k);
    }
    AscendingCons(Entry(k, v), es);
  }

  lemma PutBehind<V>(es: seq<Entry<V>>, k: string, rest: seq<Entry<V>>)
    requires Ascending(es) && es != [] && es[0].key != k && !Below(k, es[0].key)
    requires Ascending(rest)
    requires forall e :: e in rest && e.key != k ==> e in es[1..]
    ensures Ascending([es[0]] + rest)
  {
    BelowTotal(k, es[0].key);
    forall x | x in rest ensures Below(es[0].key, x.key) {
      if x.key != k {
        var j :| 0 <= j < |es[1..]| && es[1..][j] == x;
        assert es[j + 1] == x;
      }
    }
    AscendingCons(es[0], rest);
  }
}
