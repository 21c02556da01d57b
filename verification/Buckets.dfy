/** A map sharded into buckets by user id, as the id generator and the access server keep theirs. */
module Buckets {
  import opened Types

  const BUCKETS := 16

  /** Bucket `b` holds exactly the users of `flat` that hash to it, with the same values. */
  ghost predicate Holds<V(!new)>(bucket: map<UserId, V>, flat: map<UserId, V>, b: int) {
    forall u: UserId ::
      && (u in bucket <==> u in flat && u % BUCKETS == b)
      && (u in bucket ==> bucket[u] == flat[u])
  }

  lemma HoldsAfterStore<V(!new)>(bucket: map<UserId, V>, flat: map<UserId, V>, b: int, u: UserId, value: V)
    requires Holds(bucket, flat, b)
    ensures Holds(if u % BUCKETS == b then bucket[u := value] else bucket, flat[u := value], b)
  {
  }

  lemma HoldsAfterErase<V(!new)>(bucket: map<UserId, V>, flat: map<UserId, V>, b: int, u: UserId)
    requires Holds(bucket, flat, b)
    ensures Holds(if u % BUCKETS == b then bucket - {u} else bucket, flat - {u}, b)
  {
  }

  lemma InBucket<V(!new)>(bucket: map<UserId, V>, flat: map<UserId, V>, b: int, u: UserId)
    requires Holds(bucket, flat, b)
    ensures u in bucket <==> u in flat && u % BUCKETS == b
    ensures u in bucket ==> bucket[u] == flat[u]
  {
  }
}
