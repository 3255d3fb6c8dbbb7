/**
 The bounded, process-wide file caches of `src/session_transcript.rs` and
 `src/session_context.rs`. Both evict in the same way before they insert.
 */
module StampedCache {

  const MAX_ENTRIES := 256

  /** What `metadata` tells a reader about a file, with what was parsed from it. */
  datatype Cached<T> = Cached(stamp: nat, content: T)

  /** Removing a key the map has makes it smaller by one. */
  lemma Remove<K, V>(m: map<K, V>, k: K)
    requires k in m
    ensures |m - {k}| == |m| - 1
  {
  }

  lemma OnlyKey<K, V>(m: map<K, V>, k: K)
    requires forall other | other in m :: other == k
    ensures |m| <= 1
  {
    assert m.Keys <= {k};
    if k in m {
      assert m.Keys == {k};
    }
  }

  /**
   Make room for one entry. The entry to be preserved stays, nothing is evicted before the
   bound is reached, and no more than needed is evicted after that.
   */
  method Prune<K(==), V>(cache: map<K, V>, preserve: K) returns (pruned: map<K, V>)
    ensures |pruned| < MAX_ENTRIES
    ensures forall k | k in pruned :: k in cache && pruned[k] == cache[k]
    ensures preserve in cache ==> preserve in pruned
    ensures if |cache| < MAX_ENTRIES then pruned == cache else |pruned| == MAX_ENTRIES - 1
  {
    pruned := cache;
    while |pruned| >= MAX_ENTRIES
      invariant forall k | k in pruned :: k in cache && pruned[k] == cache[k]
      invariant preserve in cache ==> preserve in pruned
      invariant if |cache| < MAX_ENTRIES then pruned == cache else |pruned| >= MAX_ENTRIES - 1
      decreases |pruned|
    {
      if forall k | k in pruned :: k == preserve {
        OnlyKey(pruned, preserve);
        break;
      }
      var k :| k in pruned && k != preserve;
      Remove(pruned, k);
      pruned := pruned - {k};
    }
  }
}
