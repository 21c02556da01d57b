/**
 The generator as a service: 16 bucketed caches behind locks, and the loop that serves one
 batch request and stops at the first failure.
*/
module IdGenService {
  import opened Types
  import opened IdGen
  import opened Buckets

  /** One entry of a batch request: how many ids a user needs. */
  datatype Need = Need(userId: UserId, num: int)

  class LevelDbIdGen {
    const cfg: Config
    var idCache: array<map<UserId, int>>
    var db: map<UserId, int>
    /** All the buckets seen as one map. */
    ghost var flat: map<UserId, int>

    ghost predicate Valid()
      reads this, idCache
    {
      && cfg.block >= 1
      && idCache.Length == BUCKETS
      && (forall u | u in flat :: u >= 0)
      && (forall b | 0 <= b < BUCKETS :: Holds(idCache[b], flat, b))
    }

    ghost function Contents(): State
      reads this
    {
      State(flat, db)
    }

    /** A (re)started generator: the durable map survives, the cache is empty. */
    constructor (cfg: Config, db: map<UserId, int>)
      requires cfg.block >= 1
      ensures Valid() && fresh(idCache)
      ensures this.cfg == cfg && Contents() == State(map[], db)
    {
      this.cfg := cfg;
      this.db := db;
      flat := map[];
      idCache := new map<UserId, int>[BUCKETS](i => map[]);
    }

    /** Writes one counter of one bucket. */
    method Store(userId: UserId, value: int)
      requires Valid() && userId >= 0
      modifies this`flat, idCache
      ensures Valid()
      ensures flat == old(flat)[userId := value]
    {
      var bucket := userId % BUCKETS;
      forall b | 0 <= b < BUCKETS
        ensures Holds(if b == bucket then idCache[b][userId := value] else idCache[b], flat[userId := value], b)
      {
        HoldsAfterStore(idCache[b], flat, b, userId, value);
      }
      idCache[bucket] := idCache[bucket][userId := value];
      flat := flat[userId := value];
    }

    function Cached(userId: UserId): (c: int)
      requires Valid() && userId >= 0
      reads this, idCache
      ensures c == Counter(Contents(), userId)
    {
      var bucket := idCache[userId % BUCKETS];
      assert Holds(bucket, flat, userId % BUCKETS);
      if userId in bucket then bucket[userId] else 0
    }

    /** Finds the user's counter, reading the durable map when the cached one is zero. */
    method Load(userId: UserId, disk: Disk) returns (ok: bool, updateDb: bool, originalId: int)
      requires Valid() && userId >= 0
      modifies this`flat, idCache
      ensures Valid()
      ensures updateDb == Loads(old(Contents()), userId)
      ensures ok == !(updateDb && !disk.getOk)
      ensures ok ==> originalId == Base(old(Contents()), userId)
      ensures flat == old(flat)[userId := if ok then originalId else 0]
    {
      originalId := Cached(userId);
      Store(userId, originalId);  // operator[] creates a missing entry as zero
      updateDb := false;
      if originalId == 0 {
        updateDb := true;
        if !disk.getOk {
          return false, updateDb, originalId;
        }
        originalId := if userId in db then db[userId] else 0;
        Store(userId, originalId);
      }
      return true, updateDb, originalId;
    }

    predicate GuardFires(originalId: int, need: int)
      requires cfg.block >= 1
    {
      || (cfg.guard.Repaired? && originalId % cfg.block == 0)
      || originalId % cfg.block + need > cfg.block
    }

    method IdGenerate(userId: UserId, need: int, disk: Disk) returns (ok: bool, startId: MsgId)
      requires Valid() && userId >= 0 && need >= 1
      modifies this, idCache
      ensures Valid() && idCache == old(idCache)
      ensures var r := Generate(cfg, old(Contents()), userId, need, disk);
              && Contents() == r.st
              && ok == r.out.Granted?
              && (ok ==> startId == r.out.first)
    {
      startId := 0;
      var updateDb, originalId;
      ok, updateDb, originalId := Load(userId, disk);
      if !ok {
        return;
      }
      var reserve := updateDb || GuardFires(originalId, need);
      if reserve && !disk.putOk {
        return false, startId;
      }
      startId := originalId + 1;
      Store(userId, originalId + need);
      assert flat == old(flat)[userId := originalId + need];
      if reserve {
        db := db[userId := RoundUp(originalId + need, cfg.block)];
      }
    }
  }

  // ----- The batch loop.

  datatype BatchResult = BatchResult(st: State, replies: seq<MsgIds>, failed: bool)

  predicate RequestOk(request: seq<Need>, disks: seq<Disk>) {
    |disks| == |request| && forall i | 0 <= i < |request| :: request[i].userId >= 0 && request[i].num >= 1
  }

  /** The first `k` iterations of the loop; nothing happens after a failure. */
  function Batch(cfg: Config, s: State, request: seq<Need>, disks: seq<Disk>, k: nat): BatchResult
    requires cfg.block >= 1 && RequestOk(request, disks) && k <= |request|
  {
    if k == 0 then BatchResult(s, [], false)
    else
      var b := Batch(cfg, s, request, disks, k - 1);
      if b.failed then b
      else
        var need := request[k - 1];
        var r := Generate(cfg, b.st, need.userId, need.num, disks[k - 1]);
        if r.out.Granted? then
          BatchResult(r.st, b.replies + [MsgIds(need.userId, r.out.first, need.num)], false)
        else
          BatchResult(r.st, b.replies, true)
  }

  class IdGenServiceImpl {
    const idGen: LevelDbIdGen

    constructor (idGen: LevelDbIdGen)
      ensures this.idGen == idGen
    {
      this.idGen := idGen;
    }

    method IdGenerate(request: seq<Need>, disks: seq<Disk>) returns (failed: bool, response: seq<MsgIds>)
      requires idGen.Valid() && RequestOk(request, disks)
      modifies idGen, idGen.idCache
      ensures idGen.Valid() && idGen.idCache == old(idGen.idCache)
      ensures var b := Batch(idGen.cfg, old(idGen.Contents()), request, disks, |request|);
              idGen.Contents() == b.st && response == b.replies && failed == b.failed
    {
      response := [];
      failed := false;
      for i := 0 to |request|
        invariant idGen.Valid() && idGen.idCache == old(idGen.idCache)
        invariant Batch(idGen.cfg, old(idGen.Contents()), request, disks, i)
               == BatchResult(idGen.Contents(), response, false)
      {
        var ok, start := idGen.IdGenerate(request[i].userId, request[i].num, disks[i]);
        if ok {
          response := response + [MsgIds(request[i].userId, start, request[i].num)];
        } else {
          StoppedBatch(idGen.cfg, old(idGen.Contents()), request, disks, i + 1, |request|);
          return true, response;
        }
      }
    }
  }

  lemma {:induction false} StoppedBatch(cfg: Config, s: State, request: seq<Need>, disks: seq<Disk>, k: nat, m: nat)
    requires cfg.block >= 1 && RequestOk(request, disks) && k <= m <= |request|
    requires Batch(cfg, s, request, disks, k).failed
    ensures Batch(cfg, s, request, disks, m) == Batch(cfg, s, request, disks, k)
  {
    if k < m {
      StoppedBatch(cfg, s, request, disks, k, m - 1);
    }
  }

  /** How many ids the first `i` entries of the request ask for on behalf of `u`. */
  function Asked(request: seq<Need>, i: nat, u: UserId): int
    requires i <= |request|
  {
    if i == 0 then 0
    else Asked(request, i - 1, u) + if request[i - 1].userId == u then request[i - 1].num else 0
  }

  /** A batch moves each user's counter by what its served entries asked for on the user's behalf. */
  lemma {:induction false} BatchCounters(cfg: Config, s: State, request: seq<Need>, disks: seq<Disk>, k: nat, u: UserId)
    requires cfg.block >= 1 && NonNegative(s) && RequestOk(request, disks) && k <= |request|
    ensures var b := Batch(cfg, s, request, disks, k);
            && NonNegative(b.st)
            && (if b.failed then |b.replies| < k else |b.replies| == k)
            && Base(b.st, u) == Base(s, u) + Asked(request, |b.replies|, u)
  {
    if k > 0 {
      BatchCounters(cfg, s, request, disks, k - 1, u);
      var b := Batch(cfg, s, request, disks, k - 1);
      if !b.failed {
        GrantIsFlat(cfg, b.st, request[k - 1].userId, request[k - 1].num, disks[k - 1], u);
      }
    }
  }

  /**
   Replies follow the request order, one per served entry, and each starts where the user's counter
   stood before the batch plus what earlier entries of the batch took for the same user.
  */
  lemma {:induction false} BatchReplies(cfg: Config, s: State, request: seq<Need>, disks: seq<Disk>, k: nat, i: nat)
    requires cfg.block >= 1 && NonNegative(s) && RequestOk(request, disks) && k <= |request|
    requires i < |Batch(cfg, s, request, disks, k).replies|
    ensures i < k
    ensures var u := request[i].userId;
            Batch(cfg, s, request, disks, k).replies[i]
              == MsgIds(u, Base(s, u) + Asked(request, i, u) + 1, request[i].num)
  {
    if k > 0 {
      var u, n := request[k - 1].userId, request[k - 1].num;
      BatchCounters(cfg, s, request, disks, k - 1, u);
      var b := Batch(cfg, s, request, disks, k - 1);
      if i < |b.replies| {
        BatchReplies(cfg, s, request, disks, k - 1, i);
      } else {
        GrantIsFlat(cfg, b.st, u, n, disks[k - 1], u);
      }
    }
  }

  function GrantsOf(request: seq<Need>, disks: seq<Disk>, k: nat): (ops: seq<Op>)
    requires RequestOk(request, disks) && k <= |request|
    ensures |ops| == k && OpsOk(ops) && CrashFree(ops)
  {
    seq(k, i requires 0 <= i < k => Grant(request[i].userId, request[i].num, disks[i]))
  }

  /**
   A batch is a crash-free run of the generator: the replies are what the run logs, also when it
   fails midway, so a failed batch burns ids and, by the restart theorems, never sees them reissued.
  */
  lemma {:induction false} BatchIsRun(cfg: Config, h: Hist, request: seq<Need>, disks: seq<Disk>, k: nat)
    returns (ops: seq<Op>)
    requires cfg.block >= 1 && RequestOk(request, disks) && k <= |request|
    ensures |ops| <= k && ops == GrantsOf(request, disks, |ops|)
    ensures var b := Batch(cfg, h.st, request, disks, k);
            && |ops| == |b.replies| + (if b.failed then 1 else 0)
            && (!b.failed ==> |ops| == k)
            && Run(cfg, h, ops) == Hist(b.st, h.log + b.replies)
  {
    if k == 0 {
      return [];
    }
    ops := BatchIsRun(cfg, h, request, disks, k - 1);
    var b := Batch(cfg, h.st, request, disks, k - 1);
    if !b.failed {
      var op := Grant(request[k - 1].userId, request[k - 1].num, disks[k - 1]);
      RunAppend(cfg, h, ops, op);
      assert GrantsOf(request, disks, k) == ops + [op];
      ops := ops + [op];
    }
  }

  /** With the repaired guard, nothing a batch granted is ever granted again, even if the batch failed midway. */
  lemma RepairedBatchNeverReissues(block: int, h: Hist, request: seq<Need>, disks: seq<Disk>, later: seq<Op>)
    requires Inv(Config(Repaired, block), h) && Increasing(h.log) && RequestOk(request, disks) && OpsOk(later)
    ensures var cfg := Config(Repaired, block);
            var b := Batch(cfg, h.st, request, disks, |request|);
            var log := Run(cfg, Hist(b.st, h.log + b.replies), later).log;
            h.log + b.replies <= log && Increasing(log)
  {
    var cfg := Config(Repaired, block);
    var ops := BatchIsRun(cfg, h, request, disks, |request|);
    RunKeepsInv(cfg, h, ops);
    IncreasingAlongRun(cfg, h, ops);
    var mid := Run(cfg, h, ops);
    IncreasingAlongRun(cfg, mid, later);
    LogGrows(cfg, mid, later);
  }

  lemma {:induction false} LogGrows(cfg: Config, h: Hist, ops: seq<Op>)
    requires cfg.block >= 1
    ensures h.log <= Run(cfg, h, ops).log
  {
    if ops != [] {
      LogGrows(cfg, h, ops[..|ops| - 1]);
    }
  }
}
