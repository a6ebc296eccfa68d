/** Python's dictionaries, which keep the order of insertion, and its stable sort. */
module Dicts {
  import opened Words

  type Dict<K, V> = seq<(K, V)>

  function Find<K(==), V>(d: Dict<K, V>, key: K): Option<V> {
    if d == [] then None else if d[0].0 == key then Some(d[0].1) else Find(d[1..], key)
  }

  /** The value at `key`, or `missing`. */
  function FindOr<K(==), V>(d: Dict<K, V>, key: K, missing: V): V {
    match Find(d, key)
    case None => missing
    case Some(v) => v
  }

  /** Overwrites in place, or appends. */
  function Put<K(==), V>(d: Dict<K, V>, key: K, value: V): Dict<K, V> {
    if d == [] then [(key, value)]
    else if d[0].0 == key then [(key, value)] + d[1..]
    else [d[0]] + Put(d[1..], key, value)
  }

  lemma {:induction false} FindPut<K, V>(d: Dict<K, V>, key: K, value: V, other: K)
    ensures Find(Put(d, key, value), other) == if other == key then Some(value) else Find(d, other)
  {
    if d != [] && d[0].0 != key {
      FindPut(d[1..], key, value, other);
      assert Put(d, key, value)[1..] == Put(d[1..], key, value);
    } else if d != [] {
      assert Put(d, key, value)[1..] == d[1..];
    }
  }

  lemma {:induction false} PutPut<K, V>(d: Dict<K, V>, key: K, value: V, last: V)
    ensures Put(Put(d, key, value), key, last) == Put(d, key, last)
  {
    if d == [] {
      assert Put(d, key, value) == [(key, value)] && [(key, value)][1..] == d;
    } else if d[0].0 == key {
      assert Put(d, key, value)[1..] == d[1..];
    } else {
      PutPut(d[1..], key, value, last);
      assert Put(d, key, value)[1..] == Put(d[1..], key, value);
    }
  }

  function Sum<K, V>(d: Dict<K, V>, weight: V -> nat): nat {
    if d == [] then 0 else weight(d[0].1) + Sum(d[1..], weight)
  }

  lemma {:induction false} SumPut<K, V>(d: Dict<K, V>, key: K, value: V, missing: V, weight: V -> nat)
    requires weight(missing) == 0
    ensures Sum(Put(d, key, value), weight) + weight(FindOr(d, key, missing)) == Sum(d, weight) + weight(value)
  {
    if d == [] {
      assert Put(d, key, value)[1..] == [];
    } else if d[0].0 == key {
      assert Put(d, key, value)[1..] == d[1..];
    } else {
      SumPut(d[1..], key, value, missing, weight);
      assert Put(d, key, value)[1..] == Put(d[1..], key, value);
    }
  }

  lemma {:induction false} SumConcat<K, V>(d: Dict<K, V>, e: Dict<K, V>, weight: V -> nat)
    ensures Sum(d + e, weight) == Sum(d, weight) + Sum(e, weight)
  {
    if d == [] {
      assert d + e == e;
    } else {
      assert (d + e)[1..] == d[1..] + e;
      SumConcat(d[1..], e, weight);
    }
  }

  lemma SumAppend<K, V>(d: Dict<K, V>, e: (K, V), weight: V -> nat)
    ensures Sum(d + [e], weight) == Sum(d, weight) + weight(e.1)
  {
    SumConcat(d, [e], weight);
    var rest: Dict<K, V> := [e][1..];
    assert rest == [];
  }

  // ---------------------------------------------------------------- stable sorting

  /** The place of `x` before everything no heavier. */
  function Insert<T>(x: T, sorted: seq<T>, weight: T -> nat): seq<T> {
    if sorted == [] || weight(sorted[0]) <= weight(x) then [x] + sorted
    else [sorted[0]] + Insert(x, sorted[1..], weight)
  }

  /** The heaviest first, equals in their old order. */
  function Sorted<T>(items: seq<T>, weight: T -> nat): seq<T> {
    if items == [] then [] else Insert(items[0], Sorted(items[1..], weight), weight)
  }

  predicate NonIncreasing<T>(items: seq<T>, weight: T -> nat) {
    forall i, j | 0 <= i < j < |items| :: weight(items[j]) <= weight(items[i])
  }

  function WithWeight<T>(items: seq<T>, weight: T -> nat, w: nat): seq<T> {
    if items == [] then []
    else (if weight(items[0]) == w then [items[0]] else []) + WithWeight(items[1..], weight, w)
  }

  lemma {:induction false} InsertPermutes<T>(x: T, sorted: seq<T>, weight: T -> nat)
    ensures multiset(Insert(x, sorted, weight)) == multiset([x]) + multiset(sorted)
  {
    if sorted != [] && weight(x) < weight(sorted[0]) {
      InsertPermutes(x, sorted[1..], weight);
      assert sorted == [sorted[0]] + sorted[1..];
    }
  }

  lemma InInserted<T>(x: T, sorted: seq<T>, weight: T -> nat, y: T)
    requires y in Insert(x, sorted, weight)
    ensures y == x || y in sorted
  {
    InsertPermutes(x, sorted, weight);
    assert y in multiset(Insert(x, sorted, weight));
    assert y in multiset([x]) + multiset(sorted);
  }

  lemma {:induction false} InsertSorts<T>(x: T, sorted: seq<T>, weight: T -> nat)
    requires NonIncreasing(sorted, weight)
    ensures NonIncreasing(Insert(x, sorted, weight), weight)
  {
    if sorted != [] && weight(x) < weight(sorted[0]) {
      var rest := Insert(x, sorted[1..], weight);
      InsertSorts(x, sorted[1..], weight);
      forall j | 0 <= j < |rest|
        ensures weight(rest[j]) <= weight(sorted[0])
      {
        InInserted(x, sorted[1..], weight, rest[j]);
      }
    }
  }

  lemma InsertFirst<T>(x: T, rest: seq<T>, weight: T -> nat, w: nat)
    ensures WithWeight([x] + rest, weight, w) == (if weight(x) == w then [x] else []) + WithWeight(rest, weight, w)
  {
    assert ([x] + rest)[1..] == rest;
  }

  lemma {:induction false} InsertIsStable<T>(x: T, sorted: seq<T>, weight: T -> nat, w: nat)
    ensures WithWeight(Insert(x, sorted, weight), weight, w)
            == (if weight(x) == w then [x] else []) + WithWeight(sorted, weight, w)
  {
    if sorted == [] || weight(sorted[0]) <= weight(x) {
      InsertFirst(x, sorted, weight, w);
    } else {
      InsertIsStable(x, sorted[1..], weight, w);
      InsertFirst(sorted[0], Insert(x, sorted[1..], weight), weight, w);
    }
  }

  /** A permutation in non-increasing weight that keeps the order of equals. */
  lemma {:induction false} SortedRanks<T>(items: seq<T>, weight: T -> nat)
    ensures NonIncreasing(Sorted(items, weight), weight)
    ensures multiset(Sorted(items, weight)) == multiset(items)
    ensures forall w: nat :: WithWeight(Sorted(items, weight), weight, w) == WithWeight(items, weight, w)
  {
    if items != [] {
      SortedRanks(items[1..], weight);
      InsertSorts(items[0], Sorted(items[1..], weight), weight);
      InsertPermutes(items[0], Sorted(items[1..], weight), weight);
      assert items == [items[0]] + items[1..];
      forall w: nat
        ensures WithWeight(Sorted(items, weight), weight, w) == WithWeight(items, weight, w)
      {
        InsertIsStable(items[0], Sorted(items[1..], weight), weight, w);
      }
    }
  }
}
