/** Stock facts about collections. */
module Collections {
  lemma SomeElement<T>(s: set<T>) returns (x: T)
    requires s != {}
    ensures x in s
  {
    x :| x in s;
  }

  lemma SubsetSize<T>(small: set<T>, large: set<T>)
    requires small <= large
    ensures |small| <= |large|
    ensures |small| == |large| ==> small == large
  {
    assert |large| == |small| + |large - small|;
    if |small| == |large| {
      assert large - small == {};
      assert large == small + (large - small);
    }
  }

  lemma PutKey<K, V>(items: map<K, V>, key: K, value: V)
    ensures |items[key := value]| == |items| + if key in items then 0 else 1
  {
    assert items[key := value].Keys == items.Keys + {key};
  }

  lemma DropKey<K, V>(items: map<K, V>, key: K)
    requires key in items
    ensures |items - {key}| == |items| - 1
  {
    assert (items - {key}).Keys == items.Keys - {key};
  }

  lemma MapWithout<K, V>(before: map<K, V>, after: map<K, V>, gone: set<K>)
    requires gone <= before.Keys
    requires forall k :: k in after <==> k in before && k !in gone
    requires forall k | k in after :: after[k] == before[k]
    ensures after == before - gone && |gone| == |before| - |after|
  {
    assert after.Keys == before.Keys - gone;
    assert |after.Keys| == |after| && |before.Keys| == |before|;
  }
}
