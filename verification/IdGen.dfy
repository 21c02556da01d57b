/**
 The block-reserving id generator: a cached counter per user runs ahead of a durable
 watermark that is written in blocks. A crash drops the cache, never the watermark.

 `AsWritten` is the reservation guard of the code. `Repaired` also reserves when the
 cached counter sits on a block end; it is not in the code and is here for comparison.
*/
module IdGen {
  import opened Types

  datatype Guard = AsWritten | Repaired

  /** `block` is each_gen_id_num. */
  datatype Config = Config(guard: Guard, block: int)

  datatype State = State(cache: map<UserId, int>, db: map<UserId, int>)

  /** Whether the durable store answers a Get and a Put without an error. */
  datatype Disk = Disk(getOk: bool, putOk: bool)

  datatype Outcome = Granted(first: MsgId) | StorageError

  datatype Result = Result(st: State, out: Outcome)

  function Counter(s: State, u: UserId): int {
    if u in s.cache then s.cache[u] else 0
  }

  function Watermark(s: State, u: UserId): int {
    if u in s.db then s.db[u] else 0
  }

  /** A zero counter means "not loaded", whether or not the entry exists. */
  predicate Loads(s: State, u: UserId) {
    Counter(s, u) == 0
  }

  function Base(s: State, u: UserId): int {
    if Loads(s, u) then Watermark(s, u) else Counter(s, u)
  }

  predicate Reserves(cfg: Config, s: State, u: UserId, n: int)
    requires cfg.block >= 1
  {
    || Loads(s, u)
    || (cfg.guard.Repaired? && Counter(s, u) % cfg.block == 0)
    || Counter(s, u) % cfg.block + n > cfg.block
  }

  function RoundUp(x: int, block: int): int
    requires block >= 1
  {
    ((x + block - 1) / block) * block
  }

  /** One locked call of LevelDbIdGen::IdGenerate. */
  function Generate(cfg: Config, s: State, u: UserId, n: int, disk: Disk): Result
    requires cfg.block >= 1
  {
    if Loads(s, u) && !disk.getOk then
      Result(s.(cache := s.cache[u := 0]), StorageError)
    else
      var base := Base(s, u);
      if !Reserves(cfg, s, u, n) then
        Result(s.(cache := s.cache[u := base + n]), Granted(base + 1))
      else if !disk.putOk then
        Result(s.(cache := s.cache[u := base]), StorageError)
      else
        Result(State(s.cache[u := base + n], s.db[u := RoundUp(base + n, cfg.block)]), Granted(base + 1))
  }

  function Crashed(s: State): State {
    s.(cache := map[])
  }

  // ----- Runs: grants and crashes in any order, with the log of everything granted.

  datatype Op = Grant(user: UserId, num: int, disk: Disk) | Crash

  datatype Hist = Hist(st: State, log: seq<MsgIds>)

  predicate OpOk(op: Op) {
    op.Grant? ==> op.num >= 1
  }

  function Exec(cfg: Config, h: Hist, op: Op): Hist
    requires cfg.block >= 1
  {
    match op
    case Crash => h.(st := Crashed(h.st))
    case Grant(u, n, disk) =>
      var r := Generate(cfg, h.st, u, n, disk);
      Hist(r.st, if r.out.Granted? then h.log + [MsgIds(u, r.out.first, n)] else h.log)
  }

  function Run(cfg: Config, h: Hist, ops: seq<Op>): Hist
    requires cfg.block >= 1
  {
    if ops == [] then h else Exec(cfg, Run(cfg, h, ops[..|ops| - 1]), ops[|ops| - 1])
  }

  predicate OpsOk(ops: seq<Op>) {
    forall k | 0 <= k < |ops| :: OpOk(ops[k])
  }

  /** The largest id granted to `u`, 0 if none. */
  function Top(log: seq<MsgIds>, u: UserId): int {
    if log == [] then 0
    else
      var r := log[|log| - 1];
      var t := Top(log[..|log| - 1], u);
      if r.userId == u && r.start + r.num - 1 > t then r.start + r.num - 1 else t
  }

  lemma TopAppend(log: seq<MsgIds>, r: MsgIds, u: UserId)
    ensures Top(log + [r], u)
         == if r.userId == u && r.start + r.num - 1 > Top(log, u) then r.start + r.num - 1 else Top(log, u)
  {
    assert (log + [r])[..|log|] == log;
  }

  lemma {:induction false} TopBounds(log: seq<MsgIds>, k: nat)
    requires k < |log|
    ensures log[k].start + log[k].num - 1 <= Top(log, log[k].userId)
  {
    if k < |log| - 1 {
      TopBounds(log[..|log| - 1], k);
    }
  }

  /** A grant that neither loads nor reserves although the counter sits on a block end. */
  predicate Overruns(cfg: Config, s: State, op: Op)
    requires cfg.block >= 1
  {
    op.Grant? && !Reserves(cfg, s, op.user, op.num) && Counter(s, op.user) % cfg.block == 0
  }

  /** No grant of the run overruns. */
  predicate StaysInside(cfg: Config, h: Hist, ops: seq<Op>)
    requires cfg.block >= 1
  {
    forall k | 0 <= k < |ops| :: !Overruns(cfg, Run(cfg, h, ops[..k]).st, ops[k])
  }

  // ----- The reservation invariant.

  predicate Aligned(cfg: Config, s: State)
    requires cfg.block >= 1
  {
    forall u | u in s.db :: s.db[u] >= 0 && s.db[u] % cfg.block == 0
  }

  /** For one user: counter within the reserved block, and every granted id below both. */
  predicate UserInv(cfg: Config, h: Hist, u: UserId) {
    var c, w := Counter(h.st, u), Watermark(h.st, u);
    && 0 <= c <= w
    && 0 <= Top(h.log, u) <= w
    && (c != 0 ==> Top(h.log, u) <= c && w - c < cfg.block)
    && (Top(h.log, u) > 0 ==> w - Top(h.log, u) < cfg.block)
  }

  ghost predicate Inv(cfg: Config, h: Hist) {
    && cfg.block >= 1
    && Aligned(cfg, h.st)
    && forall u :: UserInv(cfg, h, u)
  }

  lemma ProductSign(k: int, b: int)
    requires b >= 1
    ensures k >= 1 ==> k * b >= b
    ensures k <= 0 ==> k * b <= 0
    ensures k <= -1 ==> k * b <= -b
  {
  }

  lemma ProductGap(p: int, q: int, b: int)
    requires b >= 1 && p * b < q * b
    ensures p * b + b <= q * b
  {
    assert (q - p) * b == q * b - p * b;
    ProductSign(q - p, b);
  }

  lemma MultipleHasNoRemainder(q: int, b: int)
    requires b >= 1
    ensures (q * b) % b == 0
  {
    var d, r := (q * b) / b, (q * b) % b;
    assert q * b == d * b + r;
    assert (q - d) * b == r;
    ProductSign(q - d, b);
  }

  lemma RoundUpFacts(x: int, b: int)
    requires x >= 0 && b >= 1
    ensures x <= RoundUp(x, b) < x + b
    ensures RoundUp(x, b) % b == 0
  {
    var y := x + b - 1;
    var q := y / b;
    assert y == q * b + y % b;
    MultipleHasNoRemainder(q, b);
  }

  /** Two different multiples of b are at least b apart. */
  lemma MultiplesApart(x: int, y: int, b: int)
    requires b >= 1 && x % b == 0 && y % b == 0 && x < y
    ensures x + b <= y
  {
    var p, q := x / b, y / b;
    assert x == p * b && y == q * b;
    ProductGap(p, q, b);
  }

  /** Where the guard stays silent off a block end, the whole request fits in the reserved block. */
  lemma SilentGuardFits(c: int, w: int, n: int, b: int)
    requires b >= 1 && 0 <= c <= w && w % b == 0 && c % b != 0 && c % b + n <= b
    ensures c + n <= w
  {
    var q := c / b;
    assert c == q * b + c % b;
    MultipleHasNoRemainder(q, b);
    MultiplesApart(q * b, w, b);
  }

  /** A grant that does not overrun starts above every id ever granted to the user and keeps the invariant. */
  lemma GrantAdvances(cfg: Config, h: Hist, op: Op)
    requires Inv(cfg, h) && op.Grant? && OpOk(op) && !Overruns(cfg, h.st, op)
    ensures Inv(cfg, Exec(cfg, h, op))
    ensures var r := Generate(cfg, h.st, op.user, op.num, op.disk);
            r.out.Granted? ==> r.out.first > Top(h.log, op.user)
  {
    var u, n := op.user, op.num;
    var h' := Exec(cfg, h, op);
    var r := Generate(cfg, h.st, u, n, op.disk);
    var base := Base(h.st, u);
    assert UserInv(cfg, h, u);
    if r.out.Granted? {
      RoundUpFacts(base + n, cfg.block);
      if !Reserves(cfg, h.st, u, n) {
        SilentGuardFits(base, Watermark(h.st, u), n, cfg.block);
      }
    }
    forall v ensures UserInv(cfg, h', v) {
      assert UserInv(cfg, h, v);
      if r.out.Granted? {
        TopAppend(h.log, MsgIds(u, r.out.first, n), v);
      }
    }
  }

  lemma ExecKeepsInv(cfg: Config, h: Hist, op: Op)
    requires Inv(cfg, h) && OpOk(op) && !Overruns(cfg, h.st, op)
    ensures Inv(cfg, Exec(cfg, h, op))
  {
    if op.Grant? {
      GrantAdvances(cfg, h, op);
    } else {
      var h' := Exec(cfg, h, op);
      forall u ensures UserInv(cfg, h', u) {
        assert UserInv(cfg, h, u);
      }
    }
  }

  lemma StaysInsidePrefix(cfg: Config, h: Hist, ops: seq<Op>, k: nat)
    requires cfg.block >= 1 && StaysInside(cfg, h, ops) && k <= |ops|
    ensures StaysInside(cfg, h, ops[..k])
  {
    forall j | 0 <= j < k ensures !Overruns(cfg, Run(cfg, h, ops[..k][..j]).st, ops[..k][j]) {
      assert ops[..k][..j] == ops[..j];
    }
  }

  lemma {:induction false} RunKeepsInv(cfg: Config, h: Hist, ops: seq<Op>)
    requires Inv(cfg, h) && OpsOk(ops) && StaysInside(cfg, h, ops)
    ensures Inv(cfg, Run(cfg, h, ops))
  {
    if ops != [] {
      var k := |ops| - 1;
      StaysInsidePrefix(cfg, h, ops, k);
      RunKeepsInv(cfg, h, ops[..k]);
      ExecKeepsInv(cfg, Run(cfg, h, ops[..k]), ops[k]);
    }
  }

  // ----- Ids survive restarts.

  /** A user's granted ranges are disjoint and strictly increasing in grant order. */
  ghost predicate Increasing(log: seq<MsgIds>) {
    forall i, j | 0 <= i < j < |log| && log[i].userId == log[j].userId ::
      log[i].start + log[i].num <= log[j].start
  }

  lemma GrantKeepsIncreasing(cfg: Config, h: Hist, op: Op)
    requires Inv(cfg, h) && Increasing(h.log) && op.Grant? && OpOk(op) && !Overruns(cfg, h.st, op)
    ensures Increasing(Exec(cfg, h, op).log)
  {
    GrantAdvances(cfg, h, op);
    forall i | 0 <= i < |h.log| ensures h.log[i].start + h.log[i].num - 1 <= Top(h.log, h.log[i].userId) {
      TopBounds(h.log, i);
    }
  }

  lemma {:induction false} IncreasingAlongRun(cfg: Config, h: Hist, ops: seq<Op>)
    requires Inv(cfg, h) && Increasing(h.log) && OpsOk(ops) && StaysInside(cfg, h, ops)
    ensures Increasing(Run(cfg, h, ops).log)
  {
    if ops != [] {
      var k := |ops| - 1;
      StaysInsidePrefix(cfg, h, ops, k);
      IncreasingAlongRun(cfg, h, ops[..k]);
      RunKeepsInv(cfg, h, ops[..k]);
      var mid := Run(cfg, h, ops[..k]);
      if ops[k].Grant? {
        GrantKeepsIncreasing(cfg, mid, ops[k]);
      }
    }
  }

  /** With the repaired guard nothing overruns, so the restart guarantee holds for every run. */
  lemma RepairedIdsSurviveRestarts(block: int, h: Hist, ops: seq<Op>)
    requires Inv(Config(Repaired, block), h) && Increasing(h.log) && OpsOk(ops)
    ensures Increasing(Run(Config(Repaired, block), h, ops).log)
    ensures forall u :: Counter(Run(Config(Repaired, block), h, ops).st, u)
                     <= Watermark(Run(Config(Repaired, block), h, ops).st, u)
  {
    var cfg := Config(Repaired, block);
    IncreasingAlongRun(cfg, h, ops);
    RunKeepsInv(cfg, h, ops);
    forall u ensures Counter(Run(cfg, h, ops).st, u) <= Watermark(Run(cfg, h, ops).st, u) {
      assert UserInv(cfg, Run(cfg, h, ops), u);
    }
  }

  /** If the generator crashed now, the next id of `u` would be above every id already granted. */
  predicate RestartFresh(cfg: Config, h: Hist, u: UserId)
    requires cfg.block >= 1
  {
    var r := Generate(cfg, Crashed(h.st), u, 1, Disk(true, true));
    r.out.Granted? && r.out.first > Top(h.log, u)
  }

  /** Every point of the run is one where a crash would be harmless, for every user. */
  ghost predicate AlwaysRestartSafe(cfg: Config, h: Hist, ops: seq<Op>)
    requires cfg.block >= 1
  {
    forall k, u | 0 <= k <= |ops| :: RestartFresh(cfg, Run(cfg, h, ops[..k]), u)
  }

  /** The first overrun happens exactly at the watermark. */
  lemma OverrunsAtTheWatermark(cfg: Config, h: Hist, op: Op)
    requires Inv(cfg, h) && OpOk(op) && Overruns(cfg, h.st, op)
    ensures Counter(h.st, op.user) == Watermark(h.st, op.user) > 0
  {
    var c, w := Counter(h.st, op.user), Watermark(h.st, op.user);
    assert UserInv(cfg, h, op.user);
    if c < w {
      MultiplesApart(c, w, cfg.block);
    }
  }

  lemma OverrunBreaksRestart(cfg: Config, h: Hist, op: Op)
    requires Inv(cfg, h) && OpOk(op) && Overruns(cfg, h.st, op)
    ensures !RestartFresh(cfg, Exec(cfg, h, op), op.user)
  {
    OverrunsAtTheWatermark(cfg, h, op);
    TopAppend(h.log, MsgIds(op.user, Counter(h.st, op.user) + 1, op.num), op.user);
  }

  lemma {:induction false} RestartSafeStaysInside(cfg: Config, h: Hist, ops: seq<Op>)
    requires Inv(cfg, h) && OpsOk(ops) && AlwaysRestartSafe(cfg, h, ops)
    ensures StaysInside(cfg, h, ops)
  {
    if ops != [] {
      var k := |ops| - 1;
      forall j, u | 0 <= j <= k ensures RestartFresh(cfg, Run(cfg, h, ops[..k][..j]), u) {
        assert ops[..k][..j] == ops[..j];
      }
      RestartSafeStaysInside(cfg, h, ops[..k]);
      RunKeepsInv(cfg, h, ops[..k]);
      assert ops[..|ops|] == ops;
      assert RestartFresh(cfg, Run(cfg, h, ops[..|ops|]), if ops[k].Grant? then ops[k].user else 0);
      if Overruns(cfg, Run(cfg, h, ops[..k]).st, ops[k]) {
        OverrunBreaksRestart(cfg, Run(cfg, h, ops[..k]), ops[k]);
      }
      forall j | 0 <= j < |ops| ensures !Overruns(cfg, Run(cfg, h, ops[..j]).st, ops[j]) {
        assert j < k ==> ops[..k][..j] == ops[..j];
      }
    }
  }

  /** Exactly when the restart guarantee holds, for either guard: iff no grant overruns. */
  lemma RestartSafeExactly(cfg: Config, h: Hist, ops: seq<Op>)
    requires Inv(cfg, h) && OpsOk(ops)
    ensures AlwaysRestartSafe(cfg, h, ops) <==> StaysInside(cfg, h, ops)
  {
    if StaysInside(cfg, h, ops) {
      forall k, u | 0 <= k <= |ops| ensures RestartFresh(cfg, Run(cfg, h, ops[..k]), u) {
        StaysInsidePrefix(cfg, h, ops, k);
        RunKeepsInv(cfg, h, ops[..k]);
        assert UserInv(cfg, Run(cfg, h, ops[..k]), u);
      }
    }
    if AlwaysRestartSafe(cfg, h, ops) {
      RestartSafeStaysInside(cfg, h, ops);
    }
  }

  /** A restart skips fewer ids than one block. */
  lemma RestartSkipsLessThanABlock(cfg: Config, h: Hist, ops: seq<Op>, u: UserId)
    requires Inv(cfg, h) && OpsOk(ops) && StaysInside(cfg, h, ops)
    requires Top(Run(cfg, h, ops).log, u) > 0
    ensures var g := Run(cfg, h, ops);
            var next := Generate(cfg, Crashed(g.st), u, 1, Disk(true, true)).out.first;
            0 < next - Top(g.log, u) <= cfg.block
  {
    RunKeepsInv(cfg, h, ops);
    assert UserInv(cfg, Run(cfg, h, ops), u);
  }

  // ----- The gap between the guard as written and the restart guarantee.

  const DISK_OK := Disk(true, true)
  const FRESH := Hist(State(map[], map[]), [])

  /** `k` requests for a single id each, which is what SendMsg always asks for. */
  function SingleGrants(u: UserId, k: nat): (ops: seq<Op>)
    ensures |ops| == k && forall i | 0 <= i < k :: ops[i] == Grant(u, 1, DISK_OK)
  {
    seq(k, i => Grant(u, 1, DISK_OK))
  }

  lemma RunAppend(cfg: Config, h: Hist, ops: seq<Op>, op: Op)
    requires cfg.block >= 1
    ensures Run(cfg, h, ops + [op]) == Exec(cfg, Run(cfg, h, ops), op)
  {
    assert (ops + [op])[..|ops|] == ops;
  }

  /** The first single-id grant reserves exactly one block; later ones only count up. */
  lemma SingleGrantStep(block: int, h: Hist, u: UserId, k: nat)
    requires block >= 1
    requires Counter(h.st, u) == k && Top(h.log, u) == k && Watermark(h.st, u) == if k == 0 then 0 else block
    ensures var g := Exec(Config(AsWritten, block), h, Grant(u, 1, DISK_OK));
            Counter(g.st, u) == k + 1 && Watermark(g.st, u) == block && Top(g.log, u) == k + 1
  {
    TopAppend(h.log, MsgIds(u, k + 1, 1), u);
    if k == 0 {
      assert block / block == 1;
    }
  }

  lemma {:induction false} SingleGrantsRun(block: int, u: UserId, k: nat)
    requires block >= 1
    ensures var g := Run(Config(AsWritten, block), FRESH, SingleGrants(u, k));
            Counter(g.st, u) == k && Top(g.log, u) == k && Watermark(g.st, u) == if k == 0 then 0 else block
  {
    if k > 0 {
      SingleGrantsRun(block, u, k - 1);
      assert SingleGrants(u, k) == SingleGrants(u, k - 1) + [Grant(u, 1, DISK_OK)];
      RunAppend(Config(AsWritten, block), FRESH, SingleGrants(u, k - 1), Grant(u, 1, DISK_OK));
      SingleGrantStep(block, Run(Config(AsWritten, block), FRESH, SingleGrants(u, k - 1)), u, k - 1);
    }
  }

  /**
   With the guard as written, single-id grants never reserve again after the first load: a crash
   is harmless up to the `block`-th grant and repeats an id after every later one.
  */
  lemma SingleGrantsOutrunTheWatermark(block: int, u: UserId, k: nat)
    requires block >= 1 && k >= 1
    ensures RestartFresh(Config(AsWritten, block), Run(Config(AsWritten, block), FRESH, SingleGrants(u, k)), u)
       <==> k <= block
  {
    SingleGrantsRun(block, u, k);
  }

  /** A Put that fails just after a load leaves the counter on a block end; the next crash repeats an id. */
  lemma FailedPutRepeatsAnId(block: int, h: Hist, u: UserId)
    requires block >= 1 && h.st.cache == map[]
    requires Watermark(h.st, u) > 0 && Watermark(h.st, u) % block == 0
    ensures var ops := [Grant(u, 1, Disk(true, false))] + [Grant(u, 1, DISK_OK)] + [Crash] + [Grant(u, 1, DISK_OK)];
            var again := MsgIds(u, Watermark(h.st, u) + 1, 1);
            Run(Config(AsWritten, block), h, ops).log == h.log + [again] + [again]
  {
    var cfg := Config(AsWritten, block);
    var o1 := [Grant(u, 1, Disk(true, false))];
    var o2 := o1 + [Grant(u, 1, DISK_OK)];
    var o3 := o2 + [Crash];
    assert o1 == [] + o1;
    RunAppend(cfg, h, [], o1[0]);
    RunAppend(cfg, h, o1, Grant(u, 1, DISK_OK));
    RunAppend(cfg, h, o2, Crash);
    RunAppend(cfg, h, o3, Grant(u, 1, DISK_OK));
    FailedPutLoads(block, h, u);
    var h1 := Exec(cfg, h, o1[0]);
    GrantsFromWatermark(block, h1, u);
    GrantsFromWatermark(block, Exec(cfg, Exec(cfg, h1, Grant(u, 1, DISK_OK)), Crash), u);
  }

  /** The failing Put leaves the loaded counter on the block end. */
  lemma FailedPutLoads(block: int, h: Hist, u: UserId)
    requires block >= 1 && h.st.cache == map[]
    ensures Exec(Config(AsWritten, block), h, Grant(u, 1, Disk(true, false)))
         == h.(st := h.st.(cache := map[u := Watermark(h.st, u)]))
  {
  }

  /** From a counter at the watermark, or none, the next id is the watermark's successor. */
  lemma GrantsFromWatermark(block: int, h: Hist, u: UserId)
    requires block >= 1 && (Loads(h.st, u) || Counter(h.st, u) == Watermark(h.st, u))
    requires Watermark(h.st, u) > 0 && Watermark(h.st, u) % block == 0
    ensures Exec(Config(AsWritten, block), h, Grant(u, 1, DISK_OK)).log
         == h.log + [MsgIds(u, Watermark(h.st, u) + 1, 1)]
    ensures Counter(h.st, u) > 0 ==>
              Watermark(Exec(Config(AsWritten, block), h, Grant(u, 1, DISK_OK)).st, u) == Watermark(h.st, u)
  {
  }

  // ----- Between crashes the sharded, block-reserving generator is one flat counter per user.

  ghost predicate NonNegative(s: State) {
    forall u :: Counter(s, u) >= 0 && Watermark(s, u) >= 0
  }

  /** A granted request takes the next `n` ids of its own user; everything else is left as it was. */
  lemma GrantIsFlat(cfg: Config, s: State, u: UserId, n: int, disk: Disk, v: UserId)
    requires cfg.block >= 1 && n >= 1 && NonNegative(s)
    ensures var r := Generate(cfg, s, u, n, disk);
            && NonNegative(r.st)
            && (r.out.Granted? ==> r.out.first == Base(s, u) + 1)
            && Base(r.st, v) == Base(s, v) + if v == u && r.out.Granted? then n else 0
  {
    var r := Generate(cfg, s, u, n, disk);
    assert Counter(s, u) >= 0 && Watermark(s, u) >= 0;
    if r.out.Granted? && Reserves(cfg, s, u, n) {
      RoundUpFacts(Base(s, u) + n, cfg.block);
    }
    forall w ensures Counter(r.st, w) >= 0 && Watermark(r.st, w) >= 0 {
      assert Counter(s, w) >= 0 && Watermark(s, w) >= 0;
    }
  }

  lemma ExecKeepsNonNegative(cfg: Config, h: Hist, op: Op)
    requires cfg.block >= 1 && NonNegative(h.st) && OpOk(op)
    ensures NonNegative(Exec(cfg, h, op).st)
  {
    if op.Grant? {
      GrantIsFlat(cfg, h.st, op.user, op.num, op.disk, op.user);
    } else {
      forall u ensures Counter(Crashed(h.st), u) == 0 && Watermark(Crashed(h.st), u) >= 0 {
        assert Watermark(h.st, u) >= 0;
      }
    }
  }

  /** The ranges granted to `u` in `log` cover lo + 1 .. hi in order, each id exactly once. */
  predicate Tiles(log: seq<MsgIds>, u: UserId, lo: int, hi: int) {
    if log == [] then lo == hi
    else
      var r := log[|log| - 1];
      if r.userId == u then
        r.num >= 1 && r.start + r.num - 1 == hi && Tiles(log[..|log| - 1], u, lo, r.start - 1)
      else
        Tiles(log[..|log| - 1], u, lo, hi)
  }

  predicate CrashFree(ops: seq<Op>) {
    forall k | 0 <= k < |ops| :: ops[k].Grant?
  }

  /** Without a crash a user's granted ranges tile an interval: no id is skipped and none is repeated. */
  lemma {:induction false} CrashFreeRunsTile(cfg: Config, h: Hist, ops: seq<Op>, u: UserId)
    requires cfg.block >= 1 && NonNegative(h.st) && OpsOk(ops) && CrashFree(ops)
    ensures var g := Run(cfg, h, ops);
            && NonNegative(g.st)
            && h.log <= g.log
            && Tiles(g.log[|h.log|..], u, Base(h.st, u), Base(g.st, u))
  {
    if ops != [] {
      var k := |ops| - 1;
      CrashFreeRunsTile(cfg, h, ops[..k], u);
      var mid, g := Run(cfg, h, ops[..k]), Run(cfg, h, ops);
      GrantIsFlat(cfg, mid.st, ops[k].user, ops[k].num, ops[k].disk, u);
      var before, after := mid.log[|h.log|..], g.log[|h.log|..];
      if |g.log| > |mid.log| {
        assert after[..|after| - 1] == before;
      }
    }
  }

  // ----- Handing out new ids needs less than the reservation invariant.

  /** The next id of every user is above all of the user's granted ids. */
  ghost predicate Ahead(h: Hist) {
    NonNegative(h.st) && forall u :: Top(h.log, u) <= Base(h.st, u)
  }

  /** Every granted id is below its user's durable watermark. */
  ghost predicate Covered(h: Hist) {
    forall u :: Top(h.log, u) <= Watermark(h.st, u)
  }

  lemma TopNeverFalls(cfg: Config, h: Hist, op: Op, v: UserId)
    requires cfg.block >= 1
    ensures Top(h.log, v) <= Top(Exec(cfg, h, op).log, v)
  {
    if op.Grant? {
      var r := Generate(cfg, h.st, op.user, op.num, op.disk);
      if r.out.Granted? {
        TopAppend(h.log, MsgIds(op.user, r.out.first, op.num), v);
      }
    }
  }

  /** Overrun or not, without a crash every grant is of new ids. */
  lemma GrantStaysAhead(cfg: Config, h: Hist, op: Op)
    requires cfg.block >= 1 && Ahead(h) && op.Grant? && OpOk(op)
    ensures Ahead(Exec(cfg, h, op))
    ensures var r := Generate(cfg, h.st, op.user, op.num, op.disk);
            r.out.Granted? ==> Top(h.log, op.user) < r.out.first <= Top(Exec(cfg, h, op).log, op.user)
  {
    var h' := Exec(cfg, h, op);
    var r := Generate(cfg, h.st, op.user, op.num, op.disk);
    forall v ensures Top(h'.log, v) <= Base(h'.st, v) {
      GrantIsFlat(cfg, h.st, op.user, op.num, op.disk, v);
      if r.out.Granted? {
        TopAppend(h.log, MsgIds(op.user, r.out.first, op.num), v);
      }
    }
    GrantIsFlat(cfg, h.st, op.user, op.num, op.disk, op.user);
    if r.out.Granted? {
      TopAppend(h.log, MsgIds(op.user, r.out.first, op.num), op.user);
    }
  }

  /** A crash is harmless exactly when every granted id is below its watermark. */
  lemma CrashStaysAheadExactly(h: Hist)
    requires Ahead(h)
    ensures Ahead(h.(st := Crashed(h.st))) <==> Covered(h)
  {
    var c := h.(st := Crashed(h.st));
    forall u ensures Base(c.st, u) == Watermark(h.st, u) && Counter(c.st, u) == 0 {
      assert Watermark(h.st, u) >= 0;
    }
    if Ahead(c) {
      forall u ensures Top(h.log, u) <= Watermark(h.st, u) {
        assert Top(c.log, u) <= Base(c.st, u);
      }
    }
    if Covered(h) {
      forall u ensures Top(c.log, u) <= Base(c.st, u) && Counter(c.st, u) >= 0 && Watermark(c.st, u) >= 0 {
        assert Top(h.log, u) <= Watermark(h.st, u) && Watermark(h.st, u) >= 0;
      }
    }
  }

  /** The reservation invariant is more than either. */
  lemma InvIsAheadAndCovered(cfg: Config, h: Hist)
    requires Inv(cfg, h)
    ensures Ahead(h) && Covered(h)
  {
    forall u ensures Counter(h.st, u) >= 0 && Watermark(h.st, u) >= 0 && Top(h.log, u) <= Base(h.st, u)
                     && Top(h.log, u) <= Watermark(h.st, u) {
      assert UserInv(cfg, h, u);
    }
  }

  // ----- Cost: how many synchronous writes a user's grants need.

  /** The grants of the run that wrote the watermark of `u`. */
  function Writes(cfg: Config, h: Hist, ops: seq<Op>, u: UserId): nat
    requires cfg.block >= 1
  {
    if ops == [] then 0
    else
      var k := |ops| - 1;
      var wrote := ops[k].Grant? && ops[k].user == u && Reserves(cfg, Run(cfg, h, ops[..k]).st, u, ops[k].num);
      Writes(cfg, h, ops[..k], u) + if wrote then 1 else 0
  }

  lemma RoundUpLeast(x: int, m: int, b: int)
    requires x >= 0 && b >= 1 && m % b == 0 && x <= m
    ensures RoundUp(x, b) <= m
  {
    RoundUpFacts(x, b);
    if m < RoundUp(x, b) {
      MultiplesApart(m, RoundUp(x, b), b);
    }
  }

  /** A write moves the watermark up by at least one block, and never past the block in use. */
  lemma WriteRaisesByABlock(cfg: Config, s: State, u: UserId, n: int)
    requires cfg.block >= 1 && n >= 1 && Counter(s, u) >= 0 && Watermark(s, u) >= 0
    requires Watermark(s, u) % cfg.block == 0 && Watermark(s, u) <= RoundUp(Base(s, u), cfg.block)
    requires Reserves(cfg, s, u, n)
    ensures Watermark(s, u) + cfg.block <= RoundUp(Base(s, u) + n, cfg.block)
  {
    var b, c, w := cfg.block, Base(s, u), Watermark(s, u);
    RoundUpFacts(c + n, b);
    if c % b == 0 {
      RoundUpLeast(c, c, b);
    } else {
      var q := c / b;
      assert c == q * b + c % b;
      MultipleHasNoRemainder(q + 1, b);
      assert (q + 1) * b == q * b + b;
      RoundUpLeast(c, (q + 1) * b, b);
    }
    MultiplesApart(w, RoundUp(c + n, b), b);
  }

  ghost predicate AllDisksOk(ops: seq<Op>) {
    forall k | 0 <= k < |ops| :: ops[k].Grant? && ops[k].disk == DISK_OK
  }

  /** `writes` blocks have been paid for since the watermark stood at `w0`. */
  predicate Paid(cfg: Config, s: State, u: UserId, w0: int, writes: nat)
    requires cfg.block >= 1
  {
    && Watermark(s, u) % cfg.block == 0
    && 0 <= w0 <= Base(s, u)
    && Watermark(s, u) <= RoundUp(Base(s, u), cfg.block)
    && writes * cfg.block <= Watermark(s, u) - w0
  }

  lemma GrantStaysPaid(cfg: Config, s: State, u: UserId, n: int, w0: int, writes: nat)
    requires cfg.block >= 1 && n >= 1 && Counter(s, u) >= 0 && Watermark(s, u) >= 0
    requires Paid(cfg, s, u, w0, writes)
    ensures Paid(cfg, Generate(cfg, s, u, n, DISK_OK).st, u, w0, if Reserves(cfg, s, u, n) then writes + 1 else writes)
  {
    var c := Base(s, u);
    RoundUpFacts(c + n, cfg.block);
    if Reserves(cfg, s, u, n) {
      WriteRaisesByABlock(cfg, s, u, n);
      assert (writes + 1) * cfg.block == writes * cfg.block + cfg.block;
    } else {
      RoundUpLeast(c, RoundUp(c + n, cfg.block), cfg.block);
    }
  }

  lemma {:induction false} WritesPayForBlocks(cfg: Config, h: Hist, ops: seq<Op>, u: UserId)
    requires cfg.block >= 1 && NonNegative(h.st) && OpsOk(ops) && AllDisksOk(ops)
    requires Loads(h.st, u) && Watermark(h.st, u) % cfg.block == 0
    ensures NonNegative(Run(cfg, h, ops).st)
    ensures Paid(cfg, Run(cfg, h, ops).st, u, Watermark(h.st, u), Writes(cfg, h, ops, u))
  {
    if ops == [] {
      assert Watermark(h.st, u) >= 0;
      RoundUpFacts(Watermark(h.st, u), cfg.block);
    } else {
      var k := |ops| - 1;
      WritesPayForBlocks(cfg, h, ops[..k], u);
      var mid := Run(cfg, h, ops[..k]);
      assert Counter(mid.st, u) >= 0 && Watermark(mid.st, u) >= 0;
      GrantIsFlat(cfg, mid.st, ops[k].user, ops[k].num, DISK_OK, u);
      if ops[k].user == u {
        GrantStaysPaid(cfg, mid.st, u, ops[k].num, Watermark(h.st, u), Writes(cfg, h, ops[..k], u));
      }
    }
  }

  /**
   From a fresh load on a block end, granting a user k ids without storage failures costs at most
   ceil(k / block) synchronous writes, with either guard: writes * block < k + block.
  */
  lemma WritesAtMostOnePerBlock(cfg: Config, h: Hist, ops: seq<Op>, u: UserId)
    requires cfg.block >= 1 && NonNegative(h.st) && OpsOk(ops) && AllDisksOk(ops)
    requires Loads(h.st, u) && Watermark(h.st, u) % cfg.block == 0
    ensures var k := Base(Run(cfg, h, ops).st, u) - Base(h.st, u);
            k >= 0 && Writes(cfg, h, ops, u) * cfg.block < k + cfg.block
  {
    WritesPayForBlocks(cfg, h, ops, u);
    RoundUpFacts(Base(Run(cfg, h, ops).st, u), cfg.block);
  }
}
