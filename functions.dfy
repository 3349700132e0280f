/**
 * The merge functions for collecting a stream into a map, and the collection
 * itself: `Collectors.toMap(key, value, merger)` puts each pair in stream
 * order, and on a key collision stores `merger(stored, incoming)`.
 */
module Functions {

  /** `firstWinsMerger()`: on a collision the value stored first is kept. */
  function FirstWinsMerger<T>(): (T, T) -> T
  {
    (first, last) => first
  }

  /** `lastWinsMerger()`: on a collision the incoming value replaces the stored one. */
  function LastWinsMerger<T>(): (T, T) -> T
  {
    (first, last) => last
  }

  lemma MergersPickTheirArgument<T>(first: T, last: T)
    ensures FirstWinsMerger()(first, last) == first
    ensures LastWinsMerger()(first, last) == last
  {
  }

  /** `Collectors.toMap` over the pairs of a stream, in order, with `merge` for collisions. */
  function ToMapMerging<K, V>(pairs: seq<(K, V)>, merge: (V, V) -> V): map<K, V>
    decreases |pairs|
  {
    if pairs == [] then map[]
    else
      var m := ToMapMerging(pairs[..|pairs| - 1], merge);
      var (k, v) := pairs[|pairs| - 1];
      if k in m then m[k := merge(m[k], v)] else m[k := v]
  }

  /** The map holds exactly the keys of the stream, whatever the merger. */
  lemma {:induction false} ToMapMergingKeys<K, V>(pairs: seq<(K, V)>, merge: (V, V) -> V, k: K)
    ensures k in ToMapMerging(pairs, merge) <==> exists i :: 0 <= i < |pairs| && pairs[i].0 == k
    decreases |pairs|
  {
    if pairs != [] {
      var n := |pairs| - 1;
      ToMapMergingKeys(pairs[..n], merge, k);
      assert forall i :: 0 <= i < n ==> pairs[..n][i] == pairs[i];
    }
  }

  /** Position `i` holds the first pair with key `k`. */
  ghost predicate FirstWithKey<K, V>(pairs: seq<(K, V)>, k: K, i: int)
  {
    0 <= i < |pairs| && pairs[i].0 == k && forall j :: 0 <= j < i ==> pairs[j].0 != k
  }

  /** Position `i` holds the last pair with key `k`. */
  ghost predicate LastWithKey<K, V>(pairs: seq<(K, V)>, k: K, i: int)
  {
    0 <= i < |pairs| && pairs[i].0 == k && forall j :: i < j < |pairs| ==> pairs[j].0 != k
  }

  /** With `firstWinsMerger`, every key keeps the value of its earliest pair. */
  lemma {:induction false} FirstWinsKeepsEarliest<K, V>(pairs: seq<(K, V)>, k: K, i: int)
    requires FirstWithKey(pairs, k, i)
    ensures k in ToMapMerging(pairs, FirstWinsMerger())
    ensures ToMapMerging(pairs, FirstWinsMerger())[k] == pairs[i].1
    decreases |pairs|
  {
    var n := |pairs| - 1;
    var prefix := pairs[..n];
    if i < n {
      assert FirstWithKey(prefix, k, i);
      FirstWinsKeepsEarliest(prefix, k, i);
    } else {
      forall j | 0 <= j < |prefix| ensures prefix[j].0 != k {
        assert prefix[j] == pairs[j];
      }
      ToMapMergingKeys(prefix, FirstWinsMerger(), k);
    }
  }

  /** With `lastWinsMerger`, every key holds the value of its latest pair. */
  lemma {:induction false} LastWinsKeepsLatest<K, V>(pairs: seq<(K, V)>, k: K, i: int)
    requires LastWithKey(pairs, k, i)
    ensures k in ToMapMerging(pairs, LastWinsMerger())
    ensures ToMapMerging(pairs, LastWinsMerger())[k] == pairs[i].1
    decreases |pairs|
  {
    var n := |pairs| - 1;
    var prefix := pairs[..n];
    if i < n {
      assert LastWithKey(prefix, k, i);
      LastWinsKeepsLatest(prefix, k, i);
    }
  }
}
