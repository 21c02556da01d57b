/**
 The send pipeline as one step system: each client keeps one outstanding message and retries it,
 every retry is an independent server attempt, and attempts stall, overlap, fail at any call or
 lose their reply. The id generator is the real block-reserving one, with its restarts.

 An RPC that fails before acting is a `Drop`; one that acts and loses its reply is the acting
 step followed by a `Drop`.
*/
module SendProtocol {
  import opened Types
  import opened Dbproxy
  import opened Logic
  import IdGen

  /** Where a reply's ids come from: this attempt's own save, the cache, or the MAX query. */
  datatype Via = Fresh | Cache | Store

  datatype Ack = Ack(user: UserId, clientTime: int, msgId: MsgId, msgTime: int, via: Via)

  /** `last` is last_send_time; `out` is the message sent and not yet acknowledged. */
  datatype Client = Client(last: int, out: Option<NewMsg>)

  datatype Pc =
    | Lookup                                // about to read the cache
    | QueryStore                            // the cache had nothing; about to run the MAX query
    | Duplicate(hit: LastSend, via: Via)    // already processed; about to reply
    | Plan                                  // new; about to list whom to ask ids for
    | Allocate                              // asking an id for request[|ids|]
    | Save                                  // inserting row number `saved`
    | UpdateCache                           // all rows in; about to run the compare-and-set
    | Saved                                 // reply and fan-out may start
    | Pushing                               // sessions read; pushing number `pushed`
    | Dropped                               // failed, or cut off by a crash

  datatype Attempt = Attempt(msg: NewMsg, pc: Pc, request: seq<UserId>, ids: seq<MsgId>, msgTime: int,
                             saved: nat, sessions: seq<Option<string>>, pushed: nat)

  /** One push that left the logic server: number `pos` of the attempt's fan-out. */
  datatype Sent = Sent(attempt: nat, pos: nat, push: Push)

  /** `seed` is the initial table; `acks` and `pushes` are histories of everything sent out. */
  datatype State = State(
    cfg: IdGen.Config,
    seed: map<Key, Row>,
    clients: map<UserId, Client>,
    attempts: seq<Attempt>,
    table: map<Key, Row>,
    cache: map<UserId, LastSend>,
    addrs: map<UserId, string>,
    idgen: IdGen.Hist,
    acks: set<Ack>,
    pushes: seq<Sent>)

  /** What one attempt does next on the server. */
  datatype Move =
    | ReadCache(parsed: bool)
    | ReadStore(found: LastSend)
    | ListIds(members: seq<UserId>)
    | GrantId(disk: IdGen.Disk, now: int)
    | SavePrivate
    | SaveGroupRow
    | SetCache
    | ReplyDuplicate
    | ReplyFresh
    | ReadSessions
    | PushNext
    | Drop

  datatype Action =
    | Submit(m: NewMsg)
    | Launch(user: UserId)
    | Receive(ack: Ack)
    | Serve(i: nat, move: Move)
    | Expire(user: UserId)
    | SetAddr(user: UserId, addr: Option<string>)
    | RestartIdGen

  function NewAttempt(m: NewMsg): Attempt {
    Attempt(m, Lookup, [], [], 0, 0, [], 0)
  }

  function SenderKey(m: NewMsg): Key {
    Key(m.userId, m.userId, m.clientTime)
  }

  function RowKey(a: Attempt, k: nat): Key
    requires k < |a.request|
  {
    Key(a.request[k], a.msg.userId, a.msg.clientTime)
  }

  function AttemptRow(a: Attempt, k: nat): Row
    requires k < |a.request| && k < |a.ids|
  {
    RowFor(a.msg, a.request, a.ids, a.msgTime, k)
  }

  function PlanOf(a: Attempt): seq<Push> {
    if |a.ids| == |a.request| == |a.sessions| + 1 then
      Fanout(a.msg, a.request, a.ids, a.sessions, a.msgTime, |a.sessions|)
    else []
  }

  predicate Idle(s: State, u: UserId) {
    u in s.clients && s.clients[u].out.None?
  }

  predicate Sending(s: State, u: UserId) {
    u in s.clients && s.clients[u].out.Some?
  }

  /** The program counter and the data each move needs. */
  ghost predicate Ready(s: State, a: Attempt, move: Move) {
    match move
    case ReadCache(_) => a.pc.Lookup?
    case ReadStore(found) => a.pc.QueryStore? && IsNewest(s.table, a.msg.userId, found)
    case ListIds(_) => a.pc.Plan?
    case GrantId(_, _) => a.pc.Allocate? && |a.ids| < |a.request|
    case SavePrivate => a.pc.Save? && a.msg.msgType.PRIVATE? && |a.ids| == |a.request| == 2
    case SaveGroupRow => a.pc.Save? && a.msg.msgType.GROUP? && a.saved < |a.ids| == |a.request|
    case SetCache => a.pc.UpdateCache? && |a.ids| > 0
    case ReplyDuplicate => a.pc.Duplicate?
    case ReplyFresh => (a.pc.Saved? || a.pc.Pushing?) && |a.ids| > 0
    case ReadSessions => a.pc.Saved? && |a.request| > 0
    case PushNext => a.pc.Pushing? && a.pushed < |PlanOf(a)|
    case Drop => true
  }

  ghost predicate Enabled(s: State, act: Action) {
    match act
    case Submit(m) => Idle(s, m.userId) && m.clientTime > s.clients[m.userId].last
    case Launch(u) => Sending(s, u)
    case Receive(ack) =>
      ack in s.acks && Sending(s, ack.user) && s.clients[ack.user].out.value.clientTime == ack.clientTime
    case Serve(i, move) => i < |s.attempts| && Ready(s, s.attempts[i], move)
    case _ => true
  }

  /** What a move leaves behind: the attempt and the stores and histories it can reach. */
  datatype Effect = Effect(attempt: Attempt, table: map<Key, Row>, cache: map<UserId, LastSend>, idgen: IdGen.Hist,
                           acks: set<Ack>, pushes: seq<Sent>)

  function Only(s: State, a: Attempt): Effect {
    Effect(a, s.table, s.cache, s.idgen, s.acks, s.pushes)
  }

  /** The dedup decision on the answer of the lookup. */
  function Decide(a: Attempt, d: LastSend, via: Via): Attempt {
    a.(pc := if d.clientTime == a.msg.clientTime then Duplicate(d, via) else Plan)
  }

  function CacheAnswer(s: State, a: Attempt, parsed: bool): Attempt {
    var u := a.msg.userId;
    if u !in s.cache then a.(pc := QueryStore)
    else Decide(a, if parsed then s.cache[u] else NOTHING_SENT, Cache)
  }

  function IdGrant(a: Attempt, disk: IdGen.Disk): IdGen.Op
    requires |a.ids| < |a.request|
  {
    IdGen.Grant(a.request[|a.ids|], 1, disk)
  }

  function AfterGrant(a: Attempt, out: IdGen.Outcome, now: int): Attempt {
    match out
    case StorageError => a.(pc := Dropped)
    case Granted(first) =>
      var a' := a.(ids := a.ids + [first], msgTime := now);
      if |a'.ids| == |a'.request| then a'.(pc := Save) else a'
  }

  /** The next id of the batch, from the generator's locked call. */
  function GrantEffect(s: State, a: Attempt, disk: IdGen.Disk, now: int): Effect
    requires s.cfg.block >= 1 && |a.ids| < |a.request|
  {
    var op := IdGrant(a, disk);
    var r := IdGen.Generate(s.cfg, s.idgen.st, op.user, 1, disk);
    Only(s, AfterGrant(a, r.out, now)).(idgen := IdGen.Exec(s.cfg, s.idgen, op))
  }

  /** Both copies in one INSERT, or a refusal by the unique key. */
  function PrivateEffect(s: State, a: Attempt): Effect
    requires |a.ids| == |a.request| == 2
  {
    var r0, r1 := AttemptRow(a, 0), AttemptRow(a, 1);
    if RowKey(a, 0) in s.table || RowKey(a, 1) in s.table || RowKey(a, 0) == RowKey(a, 1) then
      Only(s, a.(pc := Dropped))
    else
      Only(s, a.(saved := 2, pc := UpdateCache)).(table := s.table[RowKey(a, 0) := r0][RowKey(a, 1) := r1])
  }

  /** One copy of a group message, or a refusal by the unique key. */
  function GroupRowEffect(s: State, a: Attempt): Effect
    requires a.saved < |a.ids| == |a.request|
  {
    if RowKey(a, a.saved) in s.table then
      Only(s, a.(pc := Dropped))
    else
      Only(s, a.(saved := a.saved + 1, pc := if a.saved + 1 == |a.request| then UpdateCache else Save))
      .(table := s.table[RowKey(a, a.saved) := AttemptRow(a, a.saved)])
  }

  ghost function Perform(s: State, i: nat, move: Move): Effect
    requires s.cfg.block >= 1 && i < |s.attempts| && Ready(s, s.attempts[i], move)
  {
    var a := s.attempts[i];
    match move
    case ReadCache(parsed) => Only(s, CacheAnswer(s, a, parsed))
    case ReadStore(found) => Only(s, Decide(a, found, Store))
    case ListIds(members) => Only(s, a.(request := IdRequest(a.msg, members), pc := Allocate))
    case GrantId(disk, now) => GrantEffect(s, a, disk, now)
    case SavePrivate => PrivateEffect(s, a)
    case SaveGroupRow => GroupRowEffect(s, a)
    case SetCache =>
      Only(s, a.(pc := Saved))
      .(cache := SetIfNewer(s.cache, a.msg.userId, LastSend(a.ids[0], a.msg.clientTime, a.msgTime)))
    case ReplyDuplicate =>
      Only(s, a)
      .(acks := s.acks + {Ack(a.msg.userId, a.pc.hit.clientTime, a.pc.hit.msgId, a.pc.hit.msgTime, a.pc.via)})
    case ReplyFresh =>
      Only(s, a).(acks := s.acks + {Ack(a.msg.userId, a.msg.clientTime, a.ids[0], a.msgTime, Fresh)})
    case ReadSessions => Only(s, a.(sessions := SessionsOf(s.addrs, a.request[1..]), pc := Pushing))
    case PushNext =>
      Only(s, a.(pushed := a.pushed + 1)).(pushes := s.pushes + [Sent(i, a.pushed, PlanOf(a)[a.pushed])])
    case Drop => Only(s, a.(pc := Dropped))
  }

  function Apply(s: State, i: nat, e: Effect): State
    requires i < |s.attempts|
  {
    s.(attempts := s.attempts[i := e.attempt], table := e.table, cache := e.cache, idgen := e.idgen,
       acks := e.acks, pushes := e.pushes)
  }

  ghost function Next(s: State, act: Action): State
    requires s.cfg.block >= 1 && Enabled(s, act)
  {
    match act
    case Submit(m) => s.(clients := s.clients[m.userId := Client(m.clientTime, Some(m))])
    case Launch(u) => s.(attempts := s.attempts + [NewAttempt(s.clients[u].out.value)])
    case Receive(ack) => s.(clients := s.clients[ack.user := s.clients[ack.user].(out := None)])
    case Serve(i, move) => Apply(s, i, Perform(s, i, move))
    case Expire(u) => s.(cache := s.cache - {u})
    case SetAddr(u, addr) => s.(addrs := if addr.Some? then s.addrs[u := addr.value] else s.addrs - {u})
    case RestartIdGen => s.(idgen := IdGen.Exec(s.cfg, s.idgen, IdGen.Crash))
  }

  /** Nothing in flight yet; the initial rows and cache entries are older than anything to come. */
  ghost predicate Init(s: State) {
    && s.cfg.block >= 1 && IdGen.NonNegative(s.idgen.st)
    && s.table == s.seed && s.attempts == [] && s.acks == {} && s.pushes == []
    && (forall u | u in s.clients :: s.clients[u].out.None? && s.clients[u].last >= 0)
    && (forall u | u in s.cache :: StoredAs(s.table, u, s.cache[u]))
    && (forall k | k in s.seed ::
          && KeyOf(s.seed[k]) == k
          && (k.sender in s.clients ==> k.clientTime <= s.clients[k.sender].last))
  }

  // ----- Runs: any enabled steps in any order.

  ghost predicate Steps(s: State, acts: seq<Action>, t: State)
    decreases |acts|
  {
    if acts == [] then t == s
    else s.cfg.block >= 1 && Enabled(s, acts[0]) && Steps(Next(s, acts[0]), acts[1..], t)
  }

  ghost predicate RunTo(s0: State, acts: seq<Action>, s: State) {
    Init(s0) && Steps(s0, acts, s)
  }

  ghost predicate Reachable(s: State) {
    exists s0: State, acts: seq<Action> :: RunTo(s0, acts, s)
  }

  lemma {:induction false} StepsConcat(s: State, acts1: seq<Action>, mid: State, acts2: seq<Action>, t: State)
    requires Steps(s, acts1, mid) && Steps(mid, acts2, t)
    ensures Steps(s, acts1 + acts2, t)
    decreases |acts1|
  {
    if acts1 == [] {
      assert [] + acts2 == acts2;
    } else {
      StepsConcat(Next(s, acts1[0]), acts1[1..], mid, acts2, t);
      assert (acts1 + acts2)[1..] == acts1[1..] + acts2;
    }
  }

  lemma OneStep(s: State, act: Action)
    requires s.cfg.block >= 1 && Enabled(s, act)
    ensures Steps(s, [act], Next(s, act))
  {
    assert [act][1..] == [];
    assert Steps(Next(s, act), [], Next(s, act));
  }

  lemma StaysReachable(s: State, acts: seq<Action>, t: State)
    requires Reachable(s) && Steps(s, acts, t)
    ensures Reachable(t)
  {
    var s0: State, acts0: seq<Action> :| RunTo(s0, acts0, s);
    StepsConcat(s0, acts0, s, acts, t);
    assert RunTo(s0, acts0 + acts, t);
  }

  lemma NextIsReachable(s: State, act: Action)
    requires Reachable(s) && s.cfg.block >= 1 && Enabled(s, act)
    ensures Reachable(Next(s, act))
  {
    OneStep(s, act);
    StaysReachable(s, [act], Next(s, act));
  }

  // ----- Paths: the moves of one attempt, nobody else moving.

  function Serves(i: nat, moves: seq<Move>): (acts: seq<Action>)
    ensures |acts| == |moves| && forall k | 0 <= k < |acts| :: acts[k] == Serve(i, moves[k])
  {
    seq(|moves|, k requires 0 <= k < |moves| => Serve(i, moves[k]))
  }

  ghost predicate Path(s: State, i: nat, moves: seq<Move>, t: State) {
    Steps(s, Serves(i, moves), t)
  }

  lemma NoMoves(s: State, i: nat)
    ensures Path(s, i, [], s)
  {
    assert Serves(i, []) == [];
  }

  lemma OneMove(s: State, i: nat, move: Move)
    requires s.cfg.block >= 1 && Enabled(s, Serve(i, move))
    ensures Path(s, i, [move], Next(s, Serve(i, move)))
  {
    OneStep(s, Serve(i, move));
    assert Serves(i, [move]) == [Serve(i, move)];
  }

  lemma PathConcat(s: State, i: nat, moves1: seq<Move>, mid: State, moves2: seq<Move>, t: State)
    requires Path(s, i, moves1, mid) && Path(mid, i, moves2, t)
    ensures Path(s, i, moves1 + moves2, t)
  {
    StepsConcat(s, Serves(i, moves1), mid, Serves(i, moves2), t);
    assert Serves(i, moves1 + moves2) == Serves(i, moves1) + Serves(i, moves2);
  }

  lemma PathThen(s: State, i: nat, moves: seq<Move>, t: State, move: Move)
    requires Path(s, i, moves, t) && t.cfg.block >= 1 && Enabled(t, Serve(i, move))
    ensures Path(s, i, moves + [move], Next(t, Serve(i, move)))
  {
    OneMove(t, i, move);
    PathConcat(s, i, moves, t, [move], Next(t, Serve(i, move)));
  }

  lemma {:induction false} PathSplit(s: State, i: nat, moves: seq<Move>, n: nat, t: State) returns (mid: State)
    requires Path(s, i, moves, t) && n <= |moves|
    ensures Path(s, i, moves[..n], mid) && Path(mid, i, moves[n..], t)
    decreases n
  {
    if n == 0 {
      mid := s;
      NoMoves(s, i);
      assert moves[..0] == [] && moves[0..] == moves;
    } else {
      PathFirst(s, i, moves, t);
      var next := Next(s, Serve(i, moves[0]));
      mid := PathSplit(next, i, moves[1..], n - 1, t);
      OneMove(s, i, moves[0]);
      PathConcat(s, i, [moves[0]], next, moves[1..][..n - 1], mid);
      assert [moves[0]] + moves[1..][..n - 1] == moves[..n];
      assert moves[1..][n - 1..] == moves[n..];
    }
  }

  /** The first move of a path, and the path that follows it. */
  lemma PathFirst(s: State, i: nat, moves: seq<Move>, t: State)
    requires Path(s, i, moves, t) && moves != []
    ensures s.cfg.block >= 1 && Enabled(s, Serve(i, moves[0]))
    ensures Path(Next(s, Serve(i, moves[0])), i, moves[1..], t)
  {
    assert Serves(i, moves)[1..] == Serves(i, moves[1..]);
  }
}
