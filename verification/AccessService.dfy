/** The access service as the code runs it: 16 bucketed maps, one timer thread, bodies under a bucket lock. */
module AccessService {
  import opened Types
  import opened Buckets
  import opened Access

  class TimerThread {
    var pending: map<TimerId, UserId>
    var firing: map<TimerId, UserId>
    var nextTimer: TimerId

    constructor ()
      ensures pending == map[] && firing == map[] && nextTimer == 1
    {
      pending, firing, nextTimer := map[], map[], 1;
    }

    /** Returns 0 when the timer is removed before it fired. */
    method Del(t: TimerId) returns (rc: int)
      modifies this`pending
      ensures pending == old(pending) - {t}
      ensures rc == 0 <==> t in old(pending)
    {
      rc := if t in pending then 0 else 1;
      pending := pending - {t};
    }

    method Add(u: UserId) returns (t: TimerId)
      modifies this`pending, this`nextTimer
      ensures t == old(nextTimer) && nextTimer == old(nextTimer) + 1
      ensures pending == old(pending)[t := u]
    {
      t := nextTimer;
      nextTimer := nextTimer + 1;
      pending := pending[t := u];
    }
  }

  class AccessServiceImpl {
    var idMap: array<map<UserId, Data>>
    const timers: TimerThread
    /** All the buckets seen as one map. */
    ghost var flat: map<UserId, Data>

    ghost predicate Valid()
      reads this, idMap
    {
      && idMap.Length == BUCKETS
      && (forall u | u in flat :: u >= 0)
      && (forall b | 0 <= b < BUCKETS :: Holds(idMap[b], flat, b))
    }

    ghost function Contents(): Core
      reads this, timers
    {
      Core(flat, timers.pending, timers.firing, timers.nextTimer)
    }

    constructor ()
      ensures Valid() && fresh(idMap) && fresh(timers)
      ensures Contents() == Core(map[], map[], map[], 1)
    {
      timers := new TimerThread();
      flat := map[];
      idMap := new map<UserId, Data>[BUCKETS](i => map[]);
    }

    function Entry(u: UserId): (d: Option<Data>)
      requires Valid() && u >= 0
      reads this, idMap
      ensures d == if u in flat then Some(flat[u]) else None
    {
      var bucket := idMap[u % BUCKETS];
      assert Holds(bucket, flat, u % BUCKETS);
      if u in bucket then Some(bucket[u]) else None
    }

    method Store(u: UserId, d: Data)
      requires Valid() && u >= 0
      modifies this`flat, idMap
      ensures Valid() && flat == old(flat)[u := d]
    {
      var bucket := u % BUCKETS;
      forall b | 0 <= b < BUCKETS ensures Holds(if b == bucket then idMap[b][u := d] else idMap[b], flat[u := d], b) {
        HoldsAfterStore(idMap[b], flat, b, u, d);
      }
      idMap[bucket] := idMap[bucket][u := d];
      flat := flat[u := d];
    }

    method Erase(u: UserId)
      requires Valid() && u >= 0
      modifies this`flat, idMap
      ensures Valid() && flat == old(flat) - {u}
    {
      var bucket := u % BUCKETS;
      forall b | 0 <= b < BUCKETS ensures Holds(if b == bucket then idMap[b] - {u} else idMap[b], flat - {u}, b) {
        HoldsAfterErase(idMap[b], flat, b, u);
      }
      idMap[bucket] := idMap[bucket] - {u};
      flat := flat - {u};
    }

    /** Parks the pull; `lazyRun` is the closure parked before, to run after unlocking. */
    method PushClosureAndReply(u: UserId, call: Closure) returns (lazyRun: Option<Closure>)
      requires Valid() && u >= 0
      modifies this, idMap, timers
      ensures Valid() && idMap == old(idMap)
      ensures var e := PushClosure(old(Contents()), u, call);
              Contents() == e.core && Runs(lazyRun, None) == e.runs
    {
      lazyRun := None;
      var data := Data(Some(call), Some(call), Some(call), 0);
      var entry := Entry(u);
      if entry.Some? {
        lazyRun := entry.value.done;
        data := data.(timer := entry.value.timer);
        if data.timer != 0 {
          var rc := timers.Del(data.timer);
          if rc == 0 {
            data := data.(timer := 0);
          }
        }
      }
      Store(u, data);
      var t := timers.Add(u);
      Store(u, data.(timer := t));
      assert flat == old(flat)[u := data.(timer := t)];
    }

    method ResetHeartBeatTimer(u: UserId)
      requires Valid() && u >= 0
      modifies this, idMap, timers
      ensures Valid() && idMap == old(idMap)
      ensures Contents() == ResetHeartBeat(old(Contents()), u).core
    {
      var entry := Entry(u);
      var data := NO_PULL;
      if entry.Some? {
        data := entry.value;
        if data.timer != 0 {
          var rc := timers.Del(data.timer);
        }
      }
      var t := timers.Add(u);
      Store(u, data.(timer := t));
    }

    /** Drops the user's entry; `toRun` is its closure, whose connection is closed first. */
    method ClearUserData(u: UserId) returns (found: bool, toRun: Option<Closure>)
      requires Valid() && u >= 0
      modifies this, idMap, timers
      ensures Valid() && idMap == old(idMap) && found == (u in old(flat))
      ensures var e := ClearUser(old(Contents()), u);
              Contents() == e.core && Runs(toRun, None) == e.runs
    {
      toRun := None;
      var entry := Entry(u);
      found := entry.Some?;
      if found {
        var data := entry.value;
        if data.timer != 0 {
          var rc := timers.Del(data.timer);
        }
        Erase(u);
        if data.msgs.Some? {
          toRun := data.done;
        }
      }
    }

    /** The timer's handler: past this point it is no longer firing. */
    method HeartBeatTimeout(t: TimerId) returns (toRun: Option<Closure>)
      requires Valid() && t in timers.firing && timers.firing[t] >= 0
      modifies this, idMap, timers
      ensures Valid() && idMap == old(idMap)
      ensures var before := old(Contents());
              var e := ClearUser(before.(firing := before.firing - {t}), before.firing[t]);
              Contents() == e.core && Runs(toRun, None) == e.runs
    {
      var u := timers.firing[t];
      timers.firing := timers.firing - {t};
      var found;
      found, toRun := ClearUserData(u);
    }

    /**
     Takes the parked pull, if there is an entry: for the caller when it wants it, and otherwise to
     run it after unlocking as `lazyRun`. The entry and its timer stay.
    */
    method PopClosureAndReply(u: UserId, wanted: bool)
      returns (found: bool, done: Option<Closure>, msgs: Option<Closure>, cntl: Option<Closure>,
               lazyRun: Option<Closure>)
      requires Valid() && u >= 0
      modifies this, idMap
      ensures Valid() && idMap == old(idMap) && found == (u in old(flat))
      ensures !found ==> flat == old(flat) && done.None? && msgs.None? && cntl.None? && lazyRun.None?
      ensures found && wanted ==>
                && flat == old(flat)[u := Data(None, None, None, old(flat)[u].timer)]
                && done == old(flat)[u].done && msgs == old(flat)[u].msgs && cntl == old(flat)[u].cntl && lazyRun.None?
      ensures found && !wanted ==>
                && flat == (if old(flat)[u].done.None? then old(flat)
                            else old(flat)[u := Data(None, None, None, old(flat)[u].timer)])
                && done.None? && msgs.None? && cntl.None? && lazyRun == old(flat)[u].done
    {
      done, msgs, cntl, lazyRun := None, None, None, None;
      var entry := Entry(u);
      found := entry.Some?;
      if found {
        var data := entry.value;
        if wanted {
          done, msgs, cntl := data.done, data.msgs, data.cntl;
          Store(u, Data(None, None, None, data.timer));
        } else if data.done.Some? {
          lazyRun := data.done;
          Store(u, Data(None, None, None, data.timer));
        }
      }
    }

    /** Answers the parked pull with the message, if there is one. */
    method SendtoAccess(m: Msg) returns (runs: seq<Run>)
      requires Valid() && m.userId >= 0
      modifies this, idMap
      ensures Valid() && idMap == old(idMap)
      ensures var e := Deliver(old(Contents()), m);
              Contents() == e.core && runs == e.runs
    {
      var found, done, msgs, cntl, lazyRun := PopClosureAndReply(m.userId, true);
      runs := [];
      if done.Some? {
        runs := [Run(done.value, Some(m))];
      }
    }

    /** The shutdown loop over one bucket after another; `orders[b]` is the iteration order of bucket b. */
    method ClearClosureAndReply(orders: seq<seq<UserId>>) returns (runs: seq<Run>)
      requires Valid() && |orders| == BUCKETS
      requires forall b | 0 <= b < BUCKETS :: Visits(orders[b], idMap[b])
      modifies timers`pending
      ensures Visits(Flatten(orders, BUCKETS), flat)
      ensures runs == ClosedRuns(flat, Flatten(orders, BUCKETS))
      ensures timers.pending == ClosedTimers(old(Contents()), Flatten(orders, BUCKETS))
    {
      runs := [];
      ghost var core := Contents();
      FlattenVisits(orders, idMap[..], flat, BUCKETS);
      for b := 0 to BUCKETS
        invariant AllIn(Flatten(orders, b), flat)
        invariant runs == ClosedRuns(flat, Flatten(orders, b))
        invariant timers.pending == ClosedTimers(core, Flatten(orders, b))
      {
        var bucketRuns := ClearBucket(b, orders[b], core, Flatten(orders, b), runs);
        runs := runs + bucketRuns;
      }
    }

    method ClearBucket(b: nat, order: seq<UserId>, ghost core: Core, ghost before: seq<UserId>, ghost soFar: seq<Run>)
      returns (runs: seq<Run>)
      requires Valid() && b < BUCKETS && Visits(order, idMap[b])
      requires core.table == flat && AllIn(before, flat)
      requires soFar == ClosedRuns(flat, before) && timers.pending == ClosedTimers(core, before)
      modifies timers`pending
      ensures AllIn(before + order, flat)
      ensures soFar + runs == ClosedRuns(flat, before + order)
      ensures timers.pending == ClosedTimers(core, before + order)
    {
      runs := [];
      assert before + order[..0] == before;
      for j := 0 to |order|
        invariant AllIn(before + order[..j], flat)
        invariant soFar + runs == ClosedRuns(flat, before + order[..j])
        invariant timers.pending == ClosedTimers(core, before + order[..j])
      {
        var u := order[j];
        InBucket(idMap[b], flat, b, u);
        var data := idMap[b][u];
        ghost var visited := before + order[..j];
        assert before + order[..j + 1] == visited + [u];
        assert (visited + [u])[..|visited|] == visited;
        AllInAppend(visited, u, flat);
        if data.msgs.Some? {
          assert soFar + (runs + Runs(data.done, None)) == (soFar + runs) + Runs(data.done, None);
          runs := runs + Runs(data.done, None);
        }
        if data.timer != 0 {
          var rc := timers.Del(data.timer);
        }
      }
      assert order[..|order|] == order;
    }
  }

  predicate AllIn(order: seq<UserId>, table: map<UserId, Data>) {
    forall k | 0 <= k < |order| :: order[k] in table
  }

  lemma AllInAppend(order: seq<UserId>, u: UserId, table: map<UserId, Data>)
    requires AllIn(order, table) && u in table
    ensures AllIn(order + [u], table)
  {
  }

  function Flatten(orders: seq<seq<UserId>>, n: nat): seq<UserId>
    requires n <= |orders|
  {
    if n == 0 then [] else Flatten(orders, n - 1) + orders[n - 1]
  }

  /** Visiting each bucket's entries once visits each entry of the sharded map once. */
  lemma FlattenVisits(orders: seq<seq<UserId>>, buckets: seq<map<UserId, Data>>, flat: map<UserId, Data>, n: nat)
    requires |orders| == |buckets| == BUCKETS && n <= BUCKETS
    requires forall b | 0 <= b < BUCKETS :: Visits(orders[b], buckets[b]) && Holds(buckets[b], flat, b)
    ensures AllIn(Flatten(orders, n), flat)
    ensures forall k | 0 <= k < |Flatten(orders, n)| :: Flatten(orders, n)[k] % BUCKETS < n
    ensures forall u | u in flat && u % BUCKETS < n :: u in Flatten(orders, n)
    ensures forall j, k | 0 <= j < k < |Flatten(orders, n)| :: Flatten(orders, n)[j] != Flatten(orders, n)[k]
    ensures n == BUCKETS ==> Visits(Flatten(orders, n), flat)
  {
    if n > 0 {
      FlattenVisits(orders, buckets, flat, n - 1);
      var before, last := Flatten(orders, n - 1), orders[n - 1];
      assert Visits(last, buckets[n - 1]) && Holds(buckets[n - 1], flat, n - 1);
      forall k | 0 <= k < |last| ensures last[k] in flat && last[k] % BUCKETS == n - 1 {
        assert last[k] in buckets[n - 1];
        InBucket(buckets[n - 1], flat, n - 1, last[k]);
      }
      forall u | u in flat && u % BUCKETS < n ensures u in before + last {
        if u % BUCKETS == n - 1 {
          InBucket(buckets[n - 1], flat, n - 1, u);
          assert u in last;
        }
      }
    }
  }
}
