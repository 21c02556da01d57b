/**
 The logic service as the code runs it: one SendMsg call over the database proxy and the id
 generator. Each phase is proved to be a path of moves of one attempt in the step system.
*/
module LogicService {
  import opened Types
  import opened Dbproxy
  import opened Logic
  import opened SendProtocol
  import IdGen
  import IdGenService

  /** How the calls of one SendMsg turn out. */
  datatype Calls = Calls(
    cacheOk: bool, parsed: bool, queryOk: bool,
    membersOk: bool, members: seq<UserId>,
    idCall: Call, disks: nat -> IdGen.Disk, now: int,
    sqlOk: bool, failAt: nat, redis: Call)

  datatype MsgReply = MsgReply(msgId: MsgId, msgTime: int)

  function With(s: State, i: nat, a: Attempt): State
    requires i < |s.attempts|
  {
    s.(attempts := s.attempts[i := a])
  }

  // ----- The id batch is a path of grants.

  function Needs(request: seq<UserId>): (needs: seq<IdGenService.Need>)
    ensures |needs| == |request|
    ensures forall j | 0 <= j < |request| :: needs[j] == IdGenService.Need(request[j], 1)
  {
    seq(|request|, j requires 0 <= j < |request| => IdGenService.Need(request[j], 1))
  }

  function Starts(replies: seq<MsgIds>): (ids: seq<MsgId>)
    ensures |ids| == |replies|
    ensures forall j | 0 <= j < |ids| :: ids[j] == replies[j].start
  {
    seq(|replies|, j requires 0 <= j < |replies| => replies[j].start)
  }

  /** The attempt after the first `k` entries of its batch. */
  function AfterBatch(a: Attempt, b: IdGenService.BatchResult, now: int): Attempt {
    a.(ids := Starts(b.replies),
       msgTime := if b.replies == [] then a.msgTime else now,
       pc := if b.failed then Dropped else if |b.replies| == |a.request| then Save else Allocate)
  }

  function AfterBatchState(s: State, i: nat, b: IdGenService.BatchResult, now: int): State
    requires i < |s.attempts|
  {
    With(s, i, AfterBatch(s.attempts[i], b, now)).(idgen := IdGen.Hist(b.st, s.idgen.log + b.replies))
  }

  /** The batch result after one more call of the generator. */
  function Extended(b: IdGenService.BatchResult, u: UserId, r: IdGen.Result): IdGenService.BatchResult {
    if r.out.Granted? then IdGenService.BatchResult(r.st, b.replies + [MsgIds(u, r.out.first, 1)], false)
    else IdGenService.BatchResult(r.st, b.replies, true)
  }

  lemma GrantExtendsAttempt(a: Attempt, b: IdGenService.BatchResult, r: IdGen.Result, now: int)
    requires |b.replies| < |a.request| && !b.failed
    ensures AfterGrant(AfterBatch(a, b, now), r.out, now) == AfterBatch(a, Extended(b, a.request[|b.replies|], r), now)
  {
    if r.out.Granted? {
      assert Starts(b.replies) + [r.out.first] == Starts(b.replies + [MsgIds(a.request[|b.replies|], r.out.first, 1)]);
    }
  }

  lemma GrantExtendsLog(cfg: IdGen.Config, log: seq<MsgIds>, b: IdGenService.BatchResult, u: UserId, disk: IdGen.Disk)
    requires cfg.block >= 1
    ensures var b' := Extended(b, u, IdGen.Generate(cfg, b.st, u, 1, disk));
            IdGen.Exec(cfg, IdGen.Hist(b.st, log + b.replies), IdGen.Grant(u, 1, disk))
              == IdGen.Hist(b'.st, log + b'.replies)
  {
    var r := IdGen.Generate(cfg, b.st, u, 1, disk);
    if r.out.Granted? {
      assert (log + b.replies) + [MsgIds(u, r.out.first, 1)] == log + (b.replies + [MsgIds(u, r.out.first, 1)]);
    }
  }

  lemma GrantExtendsBatch(s: State, i: nat, b: IdGenService.BatchResult, disk: IdGen.Disk, now: int)
    requires s.cfg.block >= 1 && i < |s.attempts| && |b.replies| < |s.attempts[i].request| && !b.failed
    ensures var t := AfterBatchState(s, i, b, now);
            var u := s.attempts[i].request[|b.replies|];
            var b' := Extended(b, u, IdGen.Generate(s.cfg, b.st, u, 1, disk));
            && Enabled(t, Serve(i, GrantId(disk, now)))
            && Next(t, Serve(i, GrantId(disk, now))) == AfterBatchState(s, i, b', now)
  {
    var a := s.attempts[i];
    var u := a.request[|b.replies|];
    GrantExtendsAttempt(a, b, IdGen.Generate(s.cfg, b.st, u, 1, disk), now);
    GrantExtendsLog(s.cfg, s.idgen.log, b, u, disk);
  }

  lemma NothingGrantedYet(s: State, i: nat, now: int)
    requires i < |s.attempts| && s.attempts[i].pc.Allocate? && s.attempts[i].ids == [] && s.attempts[i].request != []
    ensures AfterBatchState(s, i, IdGenService.BatchResult(s.idgen.st, [], false), now) == s
  {
    assert Starts([]) == [];
    assert s.idgen.log + [] == s.idgen.log;
    assert s.attempts[i := s.attempts[i]] == s.attempts;
  }

  lemma {:induction false} BatchLength(cfg: IdGen.Config, st: IdGen.State, needs: seq<IdGenService.Need>,
                                       disks: seq<IdGen.Disk>, k: nat)
    requires cfg.block >= 1 && IdGenService.RequestOk(needs, disks) && k <= |needs|
    ensures var b := IdGenService.Batch(cfg, st, needs, disks, k);
            && |b.replies| <= k && (!b.failed ==> |b.replies| == k)
            && forall j | 0 <= j < |b.replies| :: b.replies[j].userId == needs[j].userId
  {
    if k > 0 {
      BatchLength(cfg, st, needs, disks, k - 1);
    }
  }

  lemma {:induction false} BatchIsPath(s: State, i: nat, needs: seq<IdGenService.Need>, disks: seq<IdGen.Disk>,
                                       now: int, k: nat) returns (moves: seq<Move>)
    requires s.cfg.block >= 1 && i < |s.attempts|
    requires s.attempts[i].pc.Allocate? && s.attempts[i].ids == [] && s.attempts[i].request != []
    requires needs == Needs(s.attempts[i].request) && IdGenService.RequestOk(needs, disks) && k <= |needs|
    ensures Path(s, i, moves, AfterBatchState(s, i, IdGenService.Batch(s.cfg, s.idgen.st, needs, disks, k), now))
  {
    if k == 0 {
      moves := [];
      NoMoves(s, i);
      NothingGrantedYet(s, i, now);
    } else {
      moves := BatchIsPath(s, i, needs, disks, now, k - 1);
      BatchLength(s.cfg, s.idgen.st, needs, disks, k - 1);
      var b := IdGenService.Batch(s.cfg, s.idgen.st, needs, disks, k - 1);
      if !b.failed {
        GrantExtendsBatch(s, i, b, disks[k - 1], now);
        PathThen(s, i, moves, AfterBatchState(s, i, b, now), GrantId(disks[k - 1], now));
        moves := moves + [GrantId(disks[k - 1], now)];
      }
    }
  }

  /** Listing whom to ask and then asking is a path, whatever the generator answers. */
  lemma RequestIsPath(s: State, i: nat, members: seq<UserId>, disks: seq<IdGen.Disk>, now: int)
    returns (moves: seq<Move>, t: State)
    requires s.cfg.block >= 1 && i < |s.attempts| && s.attempts[i] == NewAttempt(s.attempts[i].msg).(pc := Plan)
    requires IdGenService.RequestOk(Needs(IdRequest(s.attempts[i].msg, members)), disks)
    ensures Path(s, i, moves, t)
    ensures var request := IdRequest(s.attempts[i].msg, members);
            var b := IdGenService.Batch(s.cfg, s.idgen.st, Needs(request), disks, |disks|);
            && i < |t.attempts| && t == With(s, i, t.attempts[i]).(idgen := t.idgen)
            && t.idgen.st == b.st
            && (b.failed ==> t.attempts[i].pc.Dropped?)
            && (!b.failed ==>
                  && |b.replies| == |request| && (forall j | 0 <= j < |request| :: b.replies[j].userId == request[j])
                  && t.attempts[i] == s.attempts[i].(request := request, ids := Starts(b.replies), msgTime := now,
                                                     pc := Save))
  {
    var a := s.attempts[i].(request := IdRequest(s.attempts[i].msg, members), pc := Allocate);
    var listed := With(s, i, a);
    OneMove(s, i, ListIds(members));
    assert Next(s, Serve(i, ListIds(members))) == listed;
    var grants := BatchIsPath(listed, i, Needs(a.request), disks, now, |disks|);
    t := AfterBatchState(listed, i, IdGenService.Batch(s.cfg, s.idgen.st, Needs(a.request), disks, |disks|), now);
    moves := [ListIds(members)] + grants;
    PathConcat(s, i, [ListIds(members)], listed, grants, t);
    BatchLength(s.cfg, s.idgen.st, Needs(a.request), disks, |disks|);
  }

  lemma DropIsPath(s: State, i: nat) returns (moves: seq<Move>, t: State)
    requires s.cfg.block >= 1 && i < |s.attempts|
    ensures Path(s, i, moves, t) && t == With(s, i, s.attempts[i].(pc := Dropped))
  {
    OneMove(s, i, Drop);
    moves, t := [Drop], Next(s, Serve(i, Drop));
  }

  /** After a path, the attempt is dropped. */
  lemma ThenDropped(s: State, i: nat, moves: seq<Move>, t: State) returns (moves': seq<Move>, t': State)
    requires Path(s, i, moves, t) && t.cfg.block >= 1 && i < |t.attempts|
    ensures Path(s, i, moves', t') && t' == With(t, i, t.attempts[i].(pc := Dropped))
  {
    PathThen(s, i, moves, t, Drop);
    moves', t' := moves + [Drop], Next(t, Serve(i, Drop));
  }

  function ReplyOf(a: Attempt, move: Move): Ack
    requires if move.ReplyDuplicate? then a.pc.Duplicate? else |a.ids| > 0
  {
    if move.ReplyDuplicate? then Ack(a.msg.userId, a.pc.hit.clientTime, a.pc.hit.msgId, a.pc.hit.msgTime, a.pc.via)
    else Ack(a.msg.userId, a.msg.clientTime, a.ids[0], a.msgTime, Fresh)
  }

  /** After a path, the attempt replies; nothing else changes. */
  lemma ThenReplied(s: State, i: nat, moves: seq<Move>, t: State, move: Move) returns (moves': seq<Move>, t': State)
    requires Path(s, i, moves, t) && t.cfg.block >= 1 && Enabled(t, Serve(i, move))
    requires move.ReplyDuplicate? || move.ReplyFresh?
    ensures Path(s, i, moves', t') && i < |t.attempts|
    ensures t' == t.(acks := t.acks + {ReplyOf(t.attempts[i], move)})
  {
    PathThen(s, i, moves, t, move);
    moves', t' := moves + [move], Next(t, Serve(i, move));
    assert t.attempts[i := t.attempts[i]] == t.attempts;
  }

  lemma DuplicateReplied(s: State, i: nat, moves: seq<Move>, t: State) returns (moves': seq<Move>, t': State)
    requires Path(s, i, moves, t) && t.cfg.block >= 1 && i < |s.attempts| && i < |t.attempts|
    requires t == With(s, i, t.attempts[i]) && t.attempts[i].pc.Duplicate?
    ensures Path(s, i, moves', t')
    ensures t' == With(s, i, t.attempts[i]).(acks := s.acks + {ReplyOf(t.attempts[i], ReplyDuplicate)})
  {
    moves', t' := ThenReplied(s, i, moves, t, ReplyDuplicate);
  }

  // ----- Saving is a path of row insertions.

  function GroupMsgOf(a: Attempt): NewGroupMsg
    requires |a.ids| == |a.request| >= 1
  {
    ToGroup(a.msg, a.request, a.ids, a.msgTime)
  }

  function AfterRows(s: State, i: nat, n: nat): State
    requires i < |s.attempts| && |s.attempts[i].ids| == |s.attempts[i].request| >= 1
    requires n <= |s.attempts[i].request|
  {
    var a := s.attempts[i];
    With(s, i, a.(saved := n, pc := if n == |a.request| then UpdateCache else Save))
    .(table := Inserted(s.table, GroupRows(GroupMsgOf(a)), n))
  }

  lemma RowExtends(s: State, i: nat, n: nat)
    requires s.cfg.block >= 1 && i < |s.attempts| && s.attempts[i].msg.msgType.GROUP?
    requires |s.attempts[i].ids| == |s.attempts[i].request| && n < |s.attempts[i].request|
    ensures var t := AfterRows(s, i, n);
            var row := GroupRows(GroupMsgOf(s.attempts[i]))[n];
            && Enabled(t, Serve(i, SaveGroupRow))
            && Next(t, Serve(i, SaveGroupRow))
               == if KeyOf(row) in t.table then With(t, i, t.attempts[i].(pc := Dropped)) else AfterRows(s, i, n + 1)
  {
    var a, t := s.attempts[i], AfterRows(s, i, n);
    SavedRowsAreAligned(a.msg, a.request, a.ids, a.msgTime, n);
    assert AttemptRow(t.attempts[i], n) == AttemptRow(a, n) && RowKey(t.attempts[i], n) == RowKey(a, n);
  }

  lemma NothingSavedYet(s: State, i: nat)
    requires i < |s.attempts| && s.attempts[i].pc.Save? && s.attempts[i].saved == 0
    requires |s.attempts[i].ids| == |s.attempts[i].request| >= 1
    ensures AfterRows(s, i, 0) == s
  {
    assert s.attempts[i := s.attempts[i]] == s.attempts;
  }

  lemma RowExtendsPath(s: State, i: nat, moves: seq<Move>, n: nat)
    requires s.cfg.block >= 1 && i < |s.attempts| && s.attempts[i].msg.msgType.GROUP?
    requires |s.attempts[i].ids| == |s.attempts[i].request| && n < |s.attempts[i].request|
    requires Path(s, i, moves, AfterRows(s, i, n))
    requires KeyOf(GroupRows(GroupMsgOf(s.attempts[i]))[n]) !in AfterRows(s, i, n).table
    ensures Path(s, i, moves + [SaveGroupRow], AfterRows(s, i, n + 1))
  {
    RowExtends(s, i, n);
    PathThen(s, i, moves, AfterRows(s, i, n), SaveGroupRow);
  }

  lemma {:induction false} RowsArePath(s: State, i: nat, n: nat) returns (moves: seq<Move>)
    requires s.cfg.block >= 1 && i < |s.attempts| && s.attempts[i].msg.msgType.GROUP?
    requires s.attempts[i].pc.Save? && s.attempts[i].saved == 0
    requires |s.attempts[i].ids| == |s.attempts[i].request| >= 1 && n <= |s.attempts[i].request|
    requires Accepts(s.table, GroupRows(GroupMsgOf(s.attempts[i])), n)
    ensures Path(s, i, moves, AfterRows(s, i, n))
  {
    if n == 0 {
      moves := [];
      NoMoves(s, i);
      NothingSavedYet(s, i);
    } else {
      moves := RowsArePath(s, i, n - 1);
      RowExtendsPath(s, i, moves, n - 1);
      moves := moves + [SaveGroupRow];
    }
  }

  /** The compare-and-set call, with its reply or without. */
  lemma CacheCallIsPath(s: State, i: nat, redis: Call) returns (moves: seq<Move>, t: State)
    requires s.cfg.block >= 1 && i < |s.attempts| && s.attempts[i].pc.UpdateCache? && s.attempts[i].ids != []
    ensures Path(s, i, moves, t)
    ensures var a := s.attempts[i];
            t == With(s, i, a.(pc := if redis.Answered? then Saved else Dropped))
                 .(cache := if redis.Answered? || redis.applied
                            then SetIfNewer(s.cache, a.msg.userId, LastSend(a.ids[0], a.msg.clientTime, a.msgTime))
                            else s.cache)
  {
    if redis.Lost? && !redis.applied {
      moves, t := DropIsPath(s, i);
    } else {
      moves, t := CacheIsSet(s, i);
      if redis.Lost? {
        moves, t := ThenDropped(s, i, moves, t);
      }
    }
  }

  lemma CacheIsSet(s: State, i: nat) returns (moves: seq<Move>, t: State)
    requires s.cfg.block >= 1 && i < |s.attempts| && s.attempts[i].pc.UpdateCache? && s.attempts[i].ids != []
    ensures Path(s, i, moves, t)
    ensures var a := s.attempts[i];
            t == With(s, i, a.(pc := Saved))
                 .(cache := SetIfNewer(s.cache, a.msg.userId, LastSend(a.ids[0], a.msg.clientTime, a.msgTime)))
  {
    OneMove(s, i, SetCache);
    moves, t := [SetCache], Next(s, Serve(i, SetCache));
  }

  /** What the group save inserted, then its refusal or its cache call, is a path. */
  lemma GroupSaveIsPath(s: State, i: nat, inserted: nat, redis: Call) returns (moves: seq<Move>, t: State)
    requires s.cfg.block >= 1 && i < |s.attempts| && s.attempts[i].msg.msgType.GROUP?
    requires s.attempts[i].pc.Save? && s.attempts[i].saved == 0
    requires |s.attempts[i].ids| == |s.attempts[i].request| >= 1 && inserted <= |s.attempts[i].request|
    requires Accepts(s.table, GroupRows(GroupMsgOf(s.attempts[i])), inserted)
    ensures Path(s, i, moves, t)
    ensures var a := s.attempts[i];
            var whole := inserted == |a.request|;
            t == With(s, i, a.(saved := inserted, pc := if whole && redis.Answered? then Saved else Dropped))
                 .(table := Inserted(s.table, GroupRows(GroupMsgOf(a)), inserted),
                   cache := if whole && (redis.Answered? || redis.applied)
                            then SetIfNewer(s.cache, a.msg.userId, LastSend(a.ids[0], a.msg.clientTime, a.msgTime))
                            else s.cache)
  {
    if inserted < |s.attempts[i].request| {
      moves, t := PartialSaveIsPath(s, i, inserted);
    } else {
      moves, t := WholeSaveIsPath(s, i, redis);
    }
  }

  lemma PartialSaveIsPath(s: State, i: nat, inserted: nat) returns (moves: seq<Move>, t: State)
    requires s.cfg.block >= 1 && i < |s.attempts| && s.attempts[i].msg.msgType.GROUP?
    requires s.attempts[i].pc.Save? && s.attempts[i].saved == 0
    requires inserted < |s.attempts[i].ids| == |s.attempts[i].request|
    requires Accepts(s.table, GroupRows(GroupMsgOf(s.attempts[i])), inserted)
    ensures Path(s, i, moves, t)
    ensures t == With(s, i, s.attempts[i].(saved := inserted, pc := Dropped))
                 .(table := Inserted(s.table, GroupRows(GroupMsgOf(s.attempts[i])), inserted))
  {
    moves := RowsArePath(s, i, inserted);
    moves, t := ThenDropped(s, i, moves, AfterRows(s, i, inserted));
  }

  lemma WholeSaveIsPath(s: State, i: nat, redis: Call) returns (moves: seq<Move>, t: State)
    requires s.cfg.block >= 1 && i < |s.attempts| && s.attempts[i].msg.msgType.GROUP?
    requires s.attempts[i].pc.Save? && s.attempts[i].saved == 0
    requires |s.attempts[i].ids| == |s.attempts[i].request| >= 1
    requires Accepts(s.table, GroupRows(GroupMsgOf(s.attempts[i])), |s.attempts[i].request|)
    ensures Path(s, i, moves, t)
    ensures var a := s.attempts[i];
            t == With(s, i, a.(saved := |a.request|, pc := if redis.Answered? then Saved else Dropped))
                 .(table := Inserted(s.table, GroupRows(GroupMsgOf(a)), |a.request|),
                   cache := if redis.Answered? || redis.applied
                            then SetIfNewer(s.cache, a.msg.userId, LastSend(a.ids[0], a.msg.clientTime, a.msgTime))
                            else s.cache)
  {
    moves := RowsArePath(s, i, |s.attempts[i].request|);
    var mid := AfterRows(s, i, |s.attempts[i].request|);
    var rest;
    rest, t := CacheCallIsPath(mid, i, redis);
    PathConcat(s, i, moves, mid, rest, t);
    moves := moves + rest;
  }

  lemma OthersNonNegative(members: seq<UserId>, u: UserId)
    requires forall j | 0 <= j < |members| :: members[j] >= 0
    ensures forall j | 0 <= j < |Others(members, u)| :: Others(members, u)[j] >= 0 && Others(members, u)[j] != u
  {
    if members != [] {
      OthersNonNegative(members[..|members| - 1], u);
    }
  }

  /** What the code takes for granted about user ids. */
  predicate UsersOk(m: NewMsg, calls: Calls) {
    && m.userId >= 0
    && (m.msgType.PRIVATE? ==> m.peerId >= 0)
    && (m.msgType.GROUP? ==> forall j | 0 <= j < |calls.members| :: calls.members[j] >= 0)
  }

  predicate Acts(call: Call) {
    call.Answered? || call.applied
  }

  /** One reply per requested user, in order. */
  predicate RepliesTo(request: seq<UserId>, replies: seq<MsgIds>) {
    |replies| == |request| && forall j | 0 <= j < |replies| :: replies[j].userId == request[j]
  }

  /** The id call gets as far as being made. */
  predicate Asks(m: NewMsg, calls: Calls) {
    m.msgType.PRIVATE? || calls.membersOk
  }

  function Disks(calls: Calls, n: nat): (disks: seq<IdGen.Disk>)
    ensures |disks| == n
  {
    seq(n, j requires 0 <= j < n => calls.disks(j))
  }

  /** What the id generator does with the whole batch. */
  function IdBatch(cfg: IdGen.Config, st: IdGen.State, m: NewMsg, calls: Calls): IdGenService.BatchResult {
    var request := IdRequest(m, calls.members);
    if cfg.block >= 1 && IdGenService.RequestOk(Needs(request), Disks(calls, |request|)) then
      IdGenService.Batch(cfg, st, Needs(request), Disks(calls, |request|), |request|)
    else IdGenService.BatchResult(st, [], true)
  }

  lemma BatchIsAllowed(s: State, m: NewMsg, calls: Calls)
    requires s.cfg.block >= 1 && UsersOk(m, calls)
    ensures var request := IdRequest(m, calls.members);
            && IdGenService.RequestOk(Needs(request), Disks(calls, |request|))
            && IdBatch(s.cfg, s.idgen.st, m, calls)
               == IdGenService.Batch(s.cfg, s.idgen.st, Needs(request), Disks(calls, |request|), |request|)
            && var b := IdBatch(s.cfg, s.idgen.st, m, calls);
               !b.failed ==> RepliesTo(request, b.replies)
  {
    var request := IdRequest(m, calls.members);
    OthersNonNegativeRequest(m, calls, request);
    BatchLength(s.cfg, s.idgen.st, Needs(request), Disks(calls, |request|), |request|);
  }

  /** The id call, answered or lost before or after it acts, is a path. */
  lemma IdCallIsPath(s: State, i: nat, m: NewMsg, calls: Calls) returns (moves: seq<Move>, t: State)
    requires s.cfg.block >= 1 && i < |s.attempts| && s.attempts[i] == NewAttempt(m).(pc := Plan) && UsersOk(m, calls)
    ensures Path(s, i, moves, t)
    ensures i < |t.attempts| && t == With(s, i, t.attempts[i]).(idgen := t.idgen)
    ensures var b := IdBatch(s.cfg, s.idgen.st, m, calls);
            var request := IdRequest(m, calls.members);
            && t.idgen.st == (if Acts(calls.idCall) then b.st else s.idgen.st)
            && (if calls.idCall.Answered? && !b.failed then
                  t.attempts[i] == NewAttempt(m).(request := request, ids := Starts(b.replies),
                                                  msgTime := calls.now, pc := Save)
                else t.attempts[i].pc.Dropped?)
  {
    if Acts(calls.idCall) {
      moves, t := AnsweredBatchIsPath(s, i, m, calls);
      if calls.idCall.Lost? {
        moves, t := ThenDropped(s, i, moves, t);
      }
    } else {
      moves, t := DropIsPath(s, i);
    }
  }

  lemma AnsweredBatchIsPath(s: State, i: nat, m: NewMsg, calls: Calls) returns (moves: seq<Move>, t: State)
    requires s.cfg.block >= 1 && i < |s.attempts| && s.attempts[i] == NewAttempt(m).(pc := Plan) && UsersOk(m, calls)
    ensures Path(s, i, moves, t)
    ensures i < |t.attempts| && t == With(s, i, t.attempts[i]).(idgen := t.idgen)
    ensures var b := IdBatch(s.cfg, s.idgen.st, m, calls);
            var request := IdRequest(m, calls.members);
            && t.idgen.st == b.st
            && (if b.failed then t.attempts[i].pc.Dropped?
                else t.attempts[i] == NewAttempt(m).(request := request, ids := Starts(b.replies),
                                                     msgTime := calls.now, pc := Save))
  {
    BatchIsAllowed(s, m, calls);
    moves, t := RequestIsPath(s, i, calls.members, Disks(calls, |IdRequest(m, calls.members)|), calls.now);
  }

  lemma {:induction false} AcceptsPrefix(table: map<Key, Row>, rows: seq<Row>, k: nat, n: nat)
    requires k <= n <= |rows| && Accepts(table, rows, n)
    ensures Accepts(table, rows, k)
  {
    if k < n {
      AcceptsPrefix(table, rows, k, n - 1);
    }
  }

  /** The group save gets to its end exactly when the unique key accepts every row and the storage holds up. */
  lemma StopsExactly(table: map<Key, Row>, rows: seq<Row>, inserted: nat, failAt: nat)
    requires inserted <= |rows| && inserted <= failAt && Accepts(table, rows, inserted)
    requires inserted < |rows| ==> inserted == failAt || KeyOf(rows[inserted]) in Inserted(table, rows, inserted)
    ensures inserted == |rows| <==> failAt >= |rows| && Accepts(table, rows, |rows|)
  {
    if inserted < |rows| && Accepts(table, rows, |rows|) {
      AcceptsPrefix(table, rows, inserted + 1, |rows|);
    }
  }

  /** The lookup with answer `d`, from the cache or the store, and the decision on it are a path. */
  lemma LookupIsPath(s: State, i: nat, parsed: bool, d: LastSend) returns (moves: seq<Move>, t: State)
    requires s.cfg.block >= 1 && i < |s.attempts| && s.attempts[i].pc.Lookup?
    requires var u := s.attempts[i].msg.userId;
             if u in s.cache then d == (if parsed then s.cache[u] else NOTHING_SENT) else IsNewest(s.table, u, d)
    ensures Path(s, i, moves, t)
    ensures t == With(s, i, Decide(s.attempts[i], d, if s.attempts[i].msg.userId in s.cache then Cache else Store))
  {
    OneMove(s, i, ReadCache(parsed));
    moves, t := [ReadCache(parsed)], Next(s, Serve(i, ReadCache(parsed)));
    if s.attempts[i].msg.userId !in s.cache {
      PathThen(s, i, moves, t, ReadStore(d));
      moves, t := moves + [ReadStore(d)], Next(t, Serve(i, ReadStore(d)));
      assert t.attempts == s.attempts[i := Decide(s.attempts[i], d, Store)];
    }
  }

  /** The private save, its refusal or its cache call, is a path. */
  lemma PrivateSaveIsPath(s: State, i: nat, sqlOk: bool, redis: Call) returns (moves: seq<Move>, t: State)
    requires s.cfg.block >= 1 && i < |s.attempts| && s.attempts[i].msg.msgType.PRIVATE? && s.attempts[i].pc.Save?
    requires s.attempts[i].request == [s.attempts[i].msg.userId, s.attempts[i].msg.peerId] && |s.attempts[i].ids| == 2
    ensures Path(s, i, moves, t)
    ensures var a := s.attempts[i];
            var rows := PrivateRows(ToPrivate(a.msg, a.ids, a.msgTime));
            t == if !sqlOk || !Accepts(s.table, rows, 2) then With(s, i, a.(pc := Dropped))
                 else With(s, i, a.(saved := 2, pc := if redis.Answered? then Saved else Dropped))
                      .(table := Inserted(s.table, rows, 2),
                        cache := if redis.Answered? || redis.applied
                                 then SetIfNewer(s.cache, a.msg.userId, LastSend(a.ids[0], a.msg.clientTime, a.msgTime))
                                 else s.cache)
  {
    var a := s.attempts[i];
    PrivateSaveAgrees(s, a);
    if !sqlOk || !Accepts(s.table, PrivateRows(ToPrivate(a.msg, a.ids, a.msgTime)), 2) {
      moves, t := DropIsPath(s, i);
    } else {
      OneMove(s, i, SavePrivate);
      t := Next(s, Serve(i, SavePrivate));
      assert t == With(s, i, a.(saved := 2, pc := UpdateCache))
                  .(table := Inserted(s.table, PrivateRows(ToPrivate(a.msg, a.ids, a.msgTime)), 2));
      var rest, end := CacheCallIsPath(t, i, redis);
      PathConcat(s, i, [SavePrivate], t, rest, end);
      moves, t := [SavePrivate] + rest, end;
    }
  }

  // ----- A call that nothing gets in the way of.

  /** No call fails on the way, and no disk. */
  ghost predicate Faultless(m: NewMsg, calls: Calls) {
    && calls.cacheOk && calls.queryOk && calls.membersOk
    && calls.idCall.Answered? && (forall n: nat :: calls.disks(n) == IdGen.DISK_OK)
    && calls.sqlOk && calls.failAt >= |IdRequest(m, calls.members)| && calls.redis.Answered?
  }

  /** The unique key has nothing against a row for each user on the list. */
  predicate KeysFree(table: map<Key, Row>, m: NewMsg, request: seq<UserId>) {
    && (forall j | 0 <= j < |request| :: Key(request[j], m.userId, m.clientTime) !in table)
    && (forall j, k | 0 <= j < k < |request| :: request[j] != request[k])
  }

  lemma {:induction false} BatchSucceeds(cfg: IdGen.Config, st: IdGen.State, needs: seq<IdGenService.Need>,
                                         disks: seq<IdGen.Disk>, k: nat)
    requires cfg.block >= 1 && IdGenService.RequestOk(needs, disks) && k <= |needs|
    requires forall j | 0 <= j < |disks| :: disks[j] == IdGen.DISK_OK
    ensures !IdGenService.Batch(cfg, st, needs, disks, k).failed
  {
    if k > 0 {
      BatchSucceeds(cfg, st, needs, disks, k - 1);
    }
  }

  lemma FaultlessBatchSucceeds(s: State, m: NewMsg, calls: Calls)
    requires s.cfg.block >= 1 && UsersOk(m, calls) && Faultless(m, calls)
    ensures !IdBatch(s.cfg, s.idgen.st, m, calls).failed
  {
    BatchIsAllowed(s, m, calls);
    var request := IdRequest(m, calls.members);
    BatchSucceeds(s.cfg, s.idgen.st, Needs(request), Disks(calls, |request|), |request|);
  }

  predicate FreshKeys(table: map<Key, Row>, rows: seq<Row>, n: nat)
    requires n <= |rows|
  {
    && (forall j | 0 <= j < n :: KeyOf(rows[j]) !in table)
    && (forall j, k | 0 <= j < k < n :: KeyOf(rows[j]) != KeyOf(rows[k]))
  }

  lemma {:induction false} InsertedKeys(table: map<Key, Row>, rows: seq<Row>, n: nat, k: Key)
    requires n <= |rows|
    ensures k in Inserted(table, rows, n) <==> k in table || exists j | 0 <= j < n :: KeyOf(rows[j]) == k
  {
    if n > 0 {
      InsertedKeys(table, rows, n - 1, k);
    }
  }

  lemma {:induction false} AcceptsExactly(table: map<Key, Row>, rows: seq<Row>, n: nat)
    requires n <= |rows|
    ensures Accepts(table, rows, n) <==> FreshKeys(table, rows, n)
  {
    if n > 0 {
      AcceptsExactly(table, rows, n - 1);
      InsertedKeys(table, rows, n - 1, KeyOf(rows[n - 1]));
    }
  }

  function RowsToStore(a: Attempt): (rows: seq<Row>)
    requires |a.ids| == |a.request| >= 1 && (a.msg.msgType.PRIVATE? ==> |a.ids| == 2)
    ensures |rows| == |a.request|
  {
    if a.msg.msgType.PRIVATE? then PrivateRows(ToPrivate(a.msg, a.ids, a.msgTime)) else GroupRows(GroupMsgOf(a))
  }

  /** The unique key accepts an attempt's rows exactly when it has nothing against any of them. */
  lemma RowsAcceptedExactly(table: map<Key, Row>, a: Attempt)
    requires |a.ids| == |a.request| >= 1
    requires a.msg.msgType.PRIVATE? ==> a.request == [a.msg.userId, a.msg.peerId]
    ensures Accepts(table, RowsToStore(a), |a.request|) <==> KeysFree(table, a.msg, a.request)
  {
    var rows := RowsToStore(a);
    AcceptsExactly(table, rows, |rows|);
    forall j | 0 <= j < |rows| ensures KeyOf(rows[j]) == Key(a.request[j], a.msg.userId, a.msg.clientTime) {
      SavedRowsAreAligned(a.msg, a.request, a.ids, a.msgTime, j);
    }
  }

  /** Every user on the list has the row meant for it. */
  predicate AllStored(table: map<Key, Row>, m: NewMsg, request: seq<UserId>, ids: seq<MsgId>, msgTime: int) {
    forall j | 0 <= j < |request| && j < |ids| ::
      && Key(request[j], m.userId, m.clientTime) in table
      && table[Key(request[j], m.userId, m.clientTime)] == RowFor(m, request, ids, msgTime, j)
  }

  lemma InsertedAreStored(table: map<Key, Row>, a: Attempt)
    requires |a.ids| == |a.request| >= 1
    requires a.msg.msgType.PRIVATE? ==> a.request == [a.msg.userId, a.msg.peerId]
    requires Accepts(table, RowsToStore(a), |a.request|)
    ensures AllStored(Inserted(table, RowsToStore(a), |a.request|), a.msg, a.request, a.ids, a.msgTime)
  {
    forall j | 0 <= j < |a.request|
      ensures var t := Inserted(table, RowsToStore(a), |a.request|);
              && Key(a.request[j], a.msg.userId, a.msg.clientTime) in t
              && t[Key(a.request[j], a.msg.userId, a.msg.clientTime)] == RowFor(a.msg, a.request, a.ids, a.msgTime, j)
    {
      SavedRowsAreAligned(a.msg, a.request, a.ids, a.msgTime, j);
      AcceptedRowIsStored(table, RowsToStore(a), |a.request|, j);
    }
  }

  /** The lookup's answer is about the message itself: it has been processed before. */
  ghost predicate Known(table: map<Key, Row>, cache: map<UserId, LastSend>, m: NewMsg, parsed: bool) {
    exists d :: Answers(table, cache, m.userId, parsed, d) && d.clientTime == m.clientTime
  }

  /** What the lookup answers: the cached entry, zeros when it does not parse, the newest stored row without one. */
  ghost predicate Answers(table: map<Key, Row>, cache: map<UserId, LastSend>, u: UserId, parsed: bool, d: LastSend) {
    if u in cache then d == (if parsed then cache[u] else NOTHING_SENT) else IsNewest(table, u, d)
  }

  lemma OneAnswer(table: map<Key, Row>, cache: map<UserId, LastSend>, u: UserId, parsed: bool, d: LastSend, e: LastSend)
    requires Answers(table, cache, u, parsed, d) && Answers(table, cache, u, parsed, e)
    ensures d == e
  {
    if u !in cache {
      NewestIsUnique(table, u, d, e);
    }
  }

  /** The lookup's own calls answer. */
  predicate Reached(calls: Calls, u: UserId, cache: map<UserId, LastSend>) {
    calls.cacheOk && (u in cache || calls.queryOk)
  }

  /** The storage takes the rows and the cache command answers. */
  predicate StorageHolds(m: NewMsg, calls: Calls) {
    && (if m.msgType.PRIVATE? then calls.sqlOk else calls.failAt >= |IdRequest(m, calls.members)|)
    && calls.redis.Answered?
  }

  /** Everything a message that is not known yet needs to be stored and answered. */
  ghost predicate GetsStored(cfg: IdGen.Config, st: IdGen.State, table: map<Key, Row>, m: NewMsg, calls: Calls) {
    && Asks(m, calls) && calls.idCall.Answered? && !IdBatch(cfg, st, m, calls).failed
    && KeysFree(table, m, IdRequest(m, calls.members)) && StorageHolds(m, calls)
  }

  /** A message that goes unanswered had a call or a disk fail on it, or a row refused by the unique key. */
  lemma UnansweredHasAReason(s: State, m: NewMsg, calls: Calls)
    requires s.cfg.block >= 1 && UsersOk(m, calls)
    requires !(Reached(calls, m.userId, s.cache) && GetsStored(s.cfg, s.idgen.st, s.table, m, calls))
    ensures !Faultless(m, calls) || !KeysFree(s.table, m, IdRequest(m, calls.members))
  {
    if Faultless(m, calls) {
      FaultlessBatchSucceeds(s, m, calls);
    }
  }

  lemma KnownExactly(s: State, m: NewMsg, parsed: bool, hit: Option<LastSend>)
    requires forall d | Answers(s.table, s.cache, m.userId, parsed, d) ::
               hit == if d.clientTime == m.clientTime then Some(d) else None
    ensures hit.Some? <==> Known(s.table, s.cache, m, parsed)
  {
    var d := NOTHING_SENT;
    if m.userId in s.cache {
      d := if parsed then s.cache[m.userId] else NOTHING_SENT;
    } else {
      d := NewestExists(s.table, m.userId);
    }
    assert Answers(s.table, s.cache, m.userId, parsed, d);
  }

  // ----- The fan-out is a path of pushes.

  function SentBy(i: nat, plan: seq<Push>, n: nat): (sent: seq<Sent>)
    requires n <= |plan|
    ensures |sent| == n && forall q | 0 <= q < n :: sent[q] == Sent(i, q, plan[q])
  {
    seq(n, q requires 0 <= q < n => Sent(i, q, plan[q]))
  }

  function AfterPushes(s: State, i: nat, n: nat): State
    requires i < |s.attempts| && n <= |PlanOf(s.attempts[i])|
  {
    With(s, i, s.attempts[i].(pushed := n)).(pushes := s.pushes + SentBy(i, PlanOf(s.attempts[i]), n))
  }

  lemma PushExtends(s: State, i: nat, n: nat)
    requires s.cfg.block >= 1 && i < |s.attempts| && s.attempts[i].pc.Pushing? && n < |PlanOf(s.attempts[i])|
    ensures Enabled(AfterPushes(s, i, n), Serve(i, PushNext))
    ensures Next(AfterPushes(s, i, n), Serve(i, PushNext)) == AfterPushes(s, i, n + 1)
  {
    var plan := PlanOf(s.attempts[i]);
    assert SentBy(i, plan, n) + [Sent(i, n, plan[n])] == SentBy(i, plan, n + 1);
    assert PlanOf(AfterPushes(s, i, n).attempts[i]) == plan;
  }

  lemma {:induction false} PushesArePath(s: State, i: nat, n: nat) returns (moves: seq<Move>)
    requires s.cfg.block >= 1 && i < |s.attempts| && s.attempts[i].pc.Pushing? && s.attempts[i].pushed == 0
    requires n <= |PlanOf(s.attempts[i])|
    ensures Path(s, i, moves, AfterPushes(s, i, n))
  {
    if n == 0 {
      moves := [];
      NoMoves(s, i);
      assert AfterPushes(s, i, 0) == s;
    } else {
      moves := PushesArePath(s, i, n - 1);
      PushExtends(s, i, n - 1);
      PathThen(s, i, moves, AfterPushes(s, i, n - 1), PushNext);
      moves := moves + [PushNext];
    }
  }

  /** Reading the sessions and then pushing to each present one is a path. */
  lemma FanoutIsPath(s: State, i: nat) returns (moves: seq<Move>, t: State)
    requires s.cfg.block >= 1 && i < |s.attempts| && s.attempts[i].pc.Saved? && s.attempts[i].pushed == 0
    requires |s.attempts[i].ids| == |s.attempts[i].request| >= 1
    ensures Path(s, i, moves, t)
    ensures var a := s.attempts[i];
            var sessions := SessionsOf(s.addrs, a.request[1..]);
            var plan := Fanout(a.msg, a.request, a.ids, sessions, a.msgTime, |sessions|);
            t == With(s, i, a.(sessions := sessions, pc := Pushing, pushed := |plan|))
                 .(pushes := s.pushes + SentBy(i, plan, |plan|))
  {
    var a := s.attempts[i];
    OneMove(s, i, ReadSessions);
    var read := Next(s, Serve(i, ReadSessions));
    var b := a.(sessions := SessionsOf(s.addrs, a.request[1..]), pc := Pushing);
    assert read == With(s, i, b);
    var plan := PlanOf(b);
    var rest := PushesArePath(read, i, |plan|);
    t := AfterPushes(read, i, |plan|);
    PathConcat(s, i, [ReadSessions], read, rest, t);
    moves := [ReadSessions] + rest;
  }

  // ----- The service.

  class LogicServiceImpl {
    const db: DbproxyServiceImpl
    const ids: IdGenService.IdGenServiceImpl
    /** Access servers that have a channel. */
    var accessMap: set<string>

    constructor (db: DbproxyServiceImpl, ids: IdGenService.IdGenServiceImpl)
      ensures this.db == db && this.ids == ids && accessMap == {}
    {
      this.db := db;
      this.ids := ids;
      accessMap := {};
    }

    /** The stores hold what the step system's state says they hold. */
    ghost predicate Mirrors(s: State)
      reads this, db, ids.idGen, ids.idGen.idCache
    {
      && ids.idGen.Valid() && s.cfg == ids.idGen.cfg
      && s.table == db.messages && s.cache == db.lastSend && s.addrs == db.addrs
      && s.idgen.st == ids.idGen.Contents()
    }

    /** Step 1: has this message been processed already? */
    method CheckDuplicate(m: NewMsg, calls: Calls, ghost s: State, ghost i: nat)
      returns (ok: bool, hit: Option<LastSend>, ghost moves: seq<Move>, ghost t: State)
      requires Mirrors(s) && i < |s.attempts| && s.attempts[i] == NewAttempt(m)
      ensures Path(s, i, moves, t) && Mirrors(t) && i < |t.attempts| && t == With(s, i, t.attempts[i])
      ensures ok == (calls.cacheOk && (m.userId in db.lastSend || calls.queryOk))
      ensures !ok ==> t.attempts[i].pc.Dropped?
      ensures ok && hit.None? ==> t.attempts[i] == NewAttempt(m).(pc := Plan)
      ensures ok && hit.Some? ==> t.attempts[i].pc.Duplicate? && t.attempts[i] == NewAttempt(m).(pc := t.attempts[i].pc)
                                  && hit.value == t.attempts[i].pc.hit
      ensures hit.Some? ==> ok && hit.value.clientTime == m.clientTime
      ensures ok && m.userId in db.lastSend ==>
                (hit.Some? <==> (if calls.parsed then db.lastSend[m.userId].clientTime else 0) == m.clientTime)
      ensures ok ==> forall d | Answers(db.messages, db.lastSend, m.userId, calls.parsed, d) ::
                       hit == if d.clientTime == m.clientTime then Some(d) else None
      ensures ok ==> (hit.Some? <==> Known(db.messages, db.lastSend, m, calls.parsed))
    {
      var d;
      ok, d := db.GetUserLastSendData(m.userId, calls.cacheOk, calls.parsed, calls.queryOk);
      hit := None;
      if !ok {
        moves, t := DropIsPath(s, i);
        return;
      }
      moves, t := LookupIsPath(s, i, calls.parsed, d);
      forall e | Answers(db.messages, db.lastSend, m.userId, calls.parsed, e) ensures e == d {
        OneAnswer(db.messages, db.lastSend, m.userId, calls.parsed, d, e);
      }
      if d.clientTime == m.clientTime {
        hit := Some(d);
      }
      KnownExactly(s, m, calls.parsed, hit);
    }

    /** Step 2: whom to ask ids for, and asking. */
    method RequestIds(m: NewMsg, calls: Calls, ghost s: State, ghost i: nat)
      returns (ok: bool, request: seq<UserId>, replies: seq<MsgIds>, ghost moves: seq<Move>, ghost t: State)
      requires Mirrors(s) && i < |s.attempts| && s.attempts[i] == NewAttempt(m).(pc := Plan) && UsersOk(m, calls)
      modifies ids.idGen, ids.idGen.idCache
      ensures Path(s, i, moves, t) && Mirrors(t) && ids.idGen.idCache == old(ids.idGen.idCache)
      ensures i < |t.attempts| && t == With(s, i, t.attempts[i]).(idgen := t.idgen)
      ensures var b := IdBatch(s.cfg, s.idgen.st, m, calls);
              && ok == (Asks(m, calls) && calls.idCall.Answered? && !b.failed)
              && t.idgen.st == (if Asks(m, calls) && Acts(calls.idCall) then b.st else s.idgen.st)
              && (ok ==> replies == b.replies)
      ensures !ok ==> t.attempts[i].pc.Dropped?
      ensures ok ==> && request == IdRequest(m, calls.members) && RepliesTo(request, replies)
                     && t.attempts[i] == NewAttempt(m).(request := request, ids := Starts(replies),
                                                        msgTime := calls.now, pc := Save)
    {
      request, replies := [], [];
      if m.msgType == GROUP && !calls.membersOk {
        moves, t := DropIsPath(s, i);
        return false, request, replies, moves, t;
      }
      request := BuildIdRequest(m, calls.members);
      ok, replies, moves, t := AskForIds(m, request, calls, s, i);
    }

    /** The id call: it may fail before it acts, fail midway, or lose its reply. */
    method AskForIds(m: NewMsg, request: seq<UserId>, calls: Calls, ghost s: State, ghost i: nat)
      returns (ok: bool, replies: seq<MsgIds>, ghost moves: seq<Move>, ghost t: State)
      requires Mirrors(s) && i < |s.attempts| && s.attempts[i] == NewAttempt(m).(pc := Plan) && UsersOk(m, calls)
      requires request == IdRequest(m, calls.members)
      modifies ids.idGen, ids.idGen.idCache
      ensures Path(s, i, moves, t) && Mirrors(t) && ids.idGen.idCache == old(ids.idGen.idCache)
      ensures i < |t.attempts| && t == With(s, i, t.attempts[i]).(idgen := t.idgen)
      ensures var b := IdBatch(s.cfg, s.idgen.st, m, calls);
              && ok == (calls.idCall.Answered? && !b.failed)
              && t.idgen.st == (if Acts(calls.idCall) then b.st else s.idgen.st)
              && (ok ==> replies == b.replies && RepliesTo(request, replies))
      ensures if ok then t.attempts[i] == NewAttempt(m).(request := request, ids := Starts(replies),
                                                         msgTime := calls.now, pc := Save)
              else t.attempts[i].pc.Dropped?
    {
      ok, replies := false, [];
      moves, t := IdCallIsPath(s, i, m, calls);
      if calls.idCall.Answered? || calls.idCall.applied {
        BatchIsAllowed(s, m, calls);
        var failed;
        failed, replies := ids.IdGenerate(Needs(request), Disks(calls, |request|));
        ok := !failed && calls.idCall.Answered?;
      }
    }

    /** Step 4 for a private message. */
    method SavePrivate(m: NewMsg, msgIds: seq<MsgId>, calls: Calls, ghost s: State, ghost i: nat)
      returns (ok: bool, ghost moves: seq<Move>, ghost t: State)
      requires Mirrors(s) && i < |s.attempts| && m.msgType.PRIVATE? && |msgIds| == 2
      requires s.attempts[i] == NewAttempt(m).(request := [m.userId, m.peerId], ids := msgIds,
                                               msgTime := calls.now, pc := Save)
      modifies db
      ensures Path(s, i, moves, t) && Mirrors(t)
      ensures i < |t.attempts| && t == With(s, i, t.attempts[i]).(table := db.messages, cache := db.lastSend)
      ensures t.attempts[i].pc == if ok then Saved else Dropped
      ensures ok ==> t.attempts[i] == s.attempts[i].(saved := 2, pc := Saved)
      ensures ok == (calls.sqlOk && calls.redis.Answered? && Accepts(s.table, RowsToStore(s.attempts[i]), 2))
      ensures ok ==> db.messages == Inserted(s.table, RowsToStore(s.attempts[i]), 2)
    {
      ok := db.SavePrivateMsg(ToPrivate(m, msgIds, calls.now), calls.sqlOk, calls.redis);
      moves, t := PrivateSaveIsPath(s, i, calls.sqlOk, calls.redis);
    }

    /** Step 4 for a group message. */
    method SaveGroup(m: NewMsg, replies: seq<MsgIds>, calls: Calls, ghost s: State, ghost i: nat)
      returns (ok: bool, ghost moves: seq<Move>, ghost t: State)
      requires Mirrors(s) && i < |s.attempts| && m.msgType.GROUP?
      requires |replies| >= 1 && replies[0].userId == m.userId
      requires forall j | 1 <= j < |replies| :: replies[j].userId != m.userId
      requires |s.attempts[i].request| == |replies|
      requires forall j | 0 <= j < |replies| :: replies[j].userId == s.attempts[i].request[j]
      requires s.attempts[i] == NewAttempt(m).(request := s.attempts[i].request, ids := Starts(replies),
                                               msgTime := calls.now, pc := Save)
      modifies db
      ensures Path(s, i, moves, t) && Mirrors(t)
      ensures i < |t.attempts| && t == With(s, i, t.attempts[i]).(table := db.messages, cache := db.lastSend)
      ensures t.attempts[i].pc == if ok then Saved else Dropped
      ensures ok ==> t.attempts[i] == s.attempts[i].(saved := |replies|, pc := Saved)
      ensures ok == (calls.failAt >= |replies| && calls.redis.Answered?
                     && Accepts(s.table, RowsToStore(s.attempts[i]), |replies|))
      ensures ok ==> db.messages == Inserted(s.table, RowsToStore(s.attempts[i]), |replies|)
    {
      ghost var a := s.attempts[i];
      var g := BuildGroupMsg(m, replies, calls.now);
      assert seq(|replies|, j requires 0 <= j < |replies| => replies[j].userId) == a.request;
      assert seq(|replies|, j requires 0 <= j < |replies| => replies[j].start) == a.ids;
      assert g == GroupMsgOf(a);
      var inserted;
      ok, inserted := db.SaveGroupMsg(g, calls.failAt, calls.redis);
      moves, t := GroupSaveIsPath(s, i, inserted, calls.redis);
      StopsExactly(s.table, GroupRows(g), inserted, calls.failAt);
    }

    /** Step 4: the rows, then the cache. */
    method StoreMsg(m: NewMsg, replies: seq<MsgIds>, calls: Calls, ghost s: State, ghost i: nat)
      returns (ok: bool, ghost moves: seq<Move>, ghost t: State)
      requires Mirrors(s) && i < |s.attempts| && UsersOk(m, calls)
      requires |replies| == |s.attempts[i].request| && s.attempts[i].request == IdRequest(m, calls.members)
      requires forall j | 0 <= j < |replies| :: replies[j].userId == s.attempts[i].request[j]
      requires s.attempts[i] == NewAttempt(m).(request := s.attempts[i].request, ids := Starts(replies),
                                               msgTime := calls.now, pc := Save)
      modifies db
      ensures Path(s, i, moves, t) && Mirrors(t)
      ensures i < |t.attempts| && t == With(s, i, t.attempts[i]).(table := db.messages, cache := db.lastSend)
      ensures t.attempts[i].pc == if ok then Saved else Dropped
      ensures ok ==> t.attempts[i] == s.attempts[i].(saved := |replies|, pc := Saved)
      ensures ok == (StorageHolds(m, calls) && KeysFree(s.table, m, s.attempts[i].request))
      ensures ok ==> AllStored(db.messages, m, s.attempts[i].request, Starts(replies), calls.now)
    {
      RowsAcceptedExactly(s.table, s.attempts[i]);
      if Accepts(s.table, RowsToStore(s.attempts[i]), |replies|) {
        InsertedAreStored(s.table, s.attempts[i]);
      }
      if m.msgType == PRIVATE {
        ok, moves, t := SavePrivate(m, Starts(replies), calls, s, i);
      } else {
        OthersNonNegativeRequest(m, calls, s.attempts[i].request);
        ok, moves, t := SaveGroup(m, replies, calls, s, i);
      }
    }

    /** Steps 2 to 4, for a message the lookup does not know. */
    method Process(m: NewMsg, calls: Calls, ghost s: State, ghost i: nat)
      returns (ok: bool, request: seq<UserId>, msgIds: seq<MsgId>, ghost moves: seq<Move>, ghost t: State)
      requires Mirrors(s) && i < |s.attempts| && s.attempts[i] == NewAttempt(m).(pc := Plan) && UsersOk(m, calls)
      modifies db, ids.idGen, ids.idGen.idCache
      ensures Path(s, i, moves, t) && Mirrors(t) && i < |t.attempts| && t.acks == s.acks
      ensures !ok ==> t.attempts[i].pc.Dropped?
      ensures ok ==> && |msgIds| == |request| >= 1
                     && t.attempts[i] == NewAttempt(m).(request := request, ids := msgIds, msgTime := calls.now,
                                                        saved := |request|, pc := Saved)
      ensures ok == GetsStored(s.cfg, s.idgen.st, s.table, m, calls)
      ensures ok ==> request == IdRequest(m, calls.members) && AllStored(db.messages, m, request, msgIds, calls.now)
    {
      var replies;
      msgIds := [];
      ok, request, replies, moves, t := RequestIds(m, calls, s, i);
      if !ok {
        return;
      }
      msgIds := Starts(replies);
      ghost var moves2, t2;
      ok, moves2, t2 := StoreMsg(m, replies, calls, t, i);
      PathConcat(s, i, moves, t, moves2, t2);
      moves, t := moves + moves2, t2;
    }

    /** What a call does with a message the lookup does not know. */
    method SendNew(m: NewMsg, calls: Calls, ghost s: State, ghost i: nat)
      returns (reply: Option<MsgReply>, request: seq<UserId>, msgIds: seq<MsgId>,
               ghost moves: seq<Move>, ghost t: State)
      requires Mirrors(s) && i < |s.attempts| && s.attempts[i] == NewAttempt(m).(pc := Plan) && UsersOk(m, calls)
      modifies db, ids.idGen, ids.idGen.idCache
      ensures Path(s, i, moves, t) && Mirrors(t) && i < |t.attempts|
      ensures reply.Some? <==> GetsStored(s.cfg, s.idgen.st, s.table, m, calls)
      ensures reply.None? ==> t.attempts[i].pc.Dropped? && t.acks == s.acks
      ensures reply.Some? ==>
                && |msgIds| == |request| >= 1 && request == IdRequest(m, calls.members)
                && t.attempts[i] == NewAttempt(m).(request := request, ids := msgIds, msgTime := calls.now,
                                                   saved := |request|, pc := Saved)
                && AllStored(db.messages, m, request, msgIds, calls.now)
                && reply.value == MsgReply(msgIds[0], calls.now)
                && t.acks == s.acks + {Ack(m.userId, m.clientTime, msgIds[0], calls.now, Fresh)}
    {
      reply := None;
      var ok;
      ok, request, msgIds, moves, t := Process(m, calls, s, i);
      if ok {
        reply := Some(MsgReply(msgIds[0], calls.now));
        moves, t := ThenReplied(s, i, moves, t, ReplyFresh);
      }
    }

    /**
     One whole call. Whatever fails, the call is a path of one attempt's moves; a reply is an
     acknowledgement of that path, and only a fresh reply leaves the attempt ready to fan out. The call
     is answered exactly when the lookup is reached and either knows the message, which is then
     answered as the lookup has it, or the message gets stored.
    */
    method SendMsg(m: NewMsg, calls: Calls, ghost s: State, ghost i: nat)
      returns (reply: Option<MsgReply>, isNew: bool, request: seq<UserId>, msgIds: seq<MsgId>,
               ghost moves: seq<Move>, ghost t: State)
      requires Mirrors(s) && i < |s.attempts| && s.attempts[i] == NewAttempt(m) && UsersOk(m, calls)
      modifies db, ids.idGen, ids.idGen.idCache
      ensures Path(s, i, moves, t) && Mirrors(t) && i < |t.attempts|
      ensures reply.None? ==> t.attempts[i].pc.Dropped? && t.acks == s.acks && !isNew
      ensures reply.Some? && isNew ==>
                && |msgIds| == |request| >= 1
                && t.attempts[i] == NewAttempt(m).(request := request, ids := msgIds, msgTime := calls.now,
                                                   saved := |request|, pc := Saved)
      ensures reply.Some? && !isNew ==>
                t.attempts[i].pc.Duplicate? && t == With(s, i, t.attempts[i]).(acks := t.acks)
      ensures reply.Some? <==>
                && Reached(calls, m.userId, s.cache)
                && (Known(s.table, s.cache, m, calls.parsed) || GetsStored(s.cfg, s.idgen.st, s.table, m, calls))
      ensures isNew <==> reply.Some? && !Known(s.table, s.cache, m, calls.parsed)
      ensures Reached(calls, m.userId, s.cache) ==>
                forall d | Answers(s.table, s.cache, m.userId, calls.parsed, d) && d.clientTime == m.clientTime ::
                  reply == Some(MsgReply(d.msgId, d.msgTime))
      ensures isNew ==> && reply.value == MsgReply(msgIds[0], calls.now) && request == IdRequest(m, calls.members)
                        && AllStored(db.messages, m, request, msgIds, calls.now)
      ensures reply.Some? ==>
                t.acks == s.acks + {Ack(m.userId, m.clientTime, reply.value.msgId, reply.value.msgTime,
                                        if isNew then Fresh else t.attempts[i].pc.via)}
    {
      reply, isNew, request, msgIds := None, false, [], [];
      var ok, hit;
      ok, hit, moves, t := CheckDuplicate(m, calls, s, i);
      if ok && hit.Some? {
        reply := Some(MsgReply(hit.value.msgId, hit.value.msgTime));
        moves, t := DuplicateReplied(s, i, moves, t);
      } else if ok {
        ghost var moves2, t2;
        reply, request, msgIds, moves2, t2 := SendNew(m, calls, t, i);
        isNew := reply.Some?;
        PathConcat(s, i, moves, t, moves2, t2);
        moves, t := moves + moves2, t2;
      }
    }

    /** The first pass of the fan-out: a channel per present session, opened if there is none to its server yet. */
    method OpenChannels(sessions: seq<Option<string>>) returns (channels: seq<string>)
      modifies this`accessMap
      ensures channels == Channels(sessions, |sessions|)
      ensures accessMap == old(accessMap) + set c | c in channels
    {
      channels := [];
      for k := 0 to |sessions|
        invariant channels == Channels(sessions, k)
        invariant accessMap == old(accessMap) + set c | c in channels
      {
        if sessions[k].None? {
          continue;
        }
        if sessions[k].value !in accessMap {
          accessMap := accessMap + {sessions[k].value};
        }
        channels := channels + [sessions[k].value];
      }
    }

    /** The second pass: a push per present session, with its own index into the channels. */
    method PushAll(m: NewMsg, request: seq<UserId>, msgIds: seq<MsgId>, msgTime: int, sessions: seq<Option<string>>,
                   channels: seq<string>) returns (pushes: seq<Push>)
      requires |msgIds| == |request| == |sessions| + 1 && channels == Channels(sessions, |sessions|)
      ensures pushes == Fanout(m, request, msgIds, sessions, msgTime, |sessions|)
    {
      pushes := [];
      var j := 0;
      for k := 0 to |sessions|
        invariant j == |Channels(sessions, k)|
        invariant pushes == Fanout(m, request, msgIds, sessions, msgTime, k)
      {
        if sessions[k].None? {
          continue;
        }
        ChannelsGrow(sessions, k + 1, |sessions|);
        assert channels[j] == sessions[k].value;
        pushes := pushes + [Push(k + 1, channels[j], PushMsg(m, request, msgIds, msgTime, k + 1))];
        j := j + 1;
      }
    }

    /**
     The background fan-out of a saved message is a path of the attempt's remaining moves; a failed
     session lookup ends it before any push.
    */
    method SendtoPeers(m: NewMsg, request: seq<UserId>, msgIds: seq<MsgId>, msgTime: int, sessionsOk: bool,
                       ghost s: State, ghost i: nat)
      returns (pushes: seq<Push>, ghost moves: seq<Move>, ghost t: State)
      requires Mirrors(s) && i < |s.attempts| && |msgIds| == |request| >= 1
      requires s.attempts[i] == NewAttempt(m).(request := request, ids := msgIds, msgTime := msgTime,
                                               saved := |request|, pc := Saved)
      modifies this`accessMap
      ensures Path(s, i, moves, t) && Mirrors(t)
      ensures !sessionsOk ==>
                pushes == [] && accessMap == old(accessMap) && t == With(s, i, s.attempts[i].(pc := Dropped))
      ensures sessionsOk ==>
                var sessions := SessionsOf(db.addrs, request[1..]);
                && pushes == Fanout(m, request, msgIds, sessions, msgTime, |sessions|)
                && accessMap == old(accessMap) + (set c | c in Channels(sessions, |sessions|))
                && t == With(s, i, s.attempts[i].(sessions := sessions, pc := Pushing, pushed := |pushes|))
                        .(pushes := s.pushes + SentBy(i, pushes, |pushes|))
    {
      pushes := [];
      if !sessionsOk {
        moves, t := DropIsPath(s, i);
        return;
      }
      moves, t := FanoutIsPath(s, i);
      var sessions := db.GetSessions(request[1..]);
      var channels := OpenChannels(sessions);
      pushes := PushAll(m, request, msgIds, msgTime, sessions, channels);
    }
  }

  lemma OthersNonNegativeRequest(m: NewMsg, calls: Calls, request: seq<UserId>)
    requires UsersOk(m, calls) && request == IdRequest(m, calls.members)
    ensures forall j | 0 <= j < |request| :: request[j] >= 0
    ensures m.msgType.GROUP? ==> forall j | 1 <= j < |request| :: request[j] != m.userId
  {
    if m.msgType.GROUP? {
      OthersNonNegative(calls.members, m.userId);
    }
  }

  /** The multi-row insert and the step system agree on when both copies go in, and on the table after. */
  lemma PrivateSaveAgrees(s: State, a: Attempt)
    requires a.msg.msgType.PRIVATE? && a.request == [a.msg.userId, a.msg.peerId] && |a.ids| == 2
    ensures var rows := PrivateRows(ToPrivate(a.msg, a.ids, a.msgTime));
            PrivateEffect(s, a) == if Accepts(s.table, rows, 2)
                                   then Only(s, a.(saved := 2, pc := UpdateCache)).(table := Inserted(s.table, rows, 2))
                                   else Only(s, a.(pc := Dropped))
  {
    var rows := PrivateRows(ToPrivate(a.msg, a.ids, a.msgTime));
    SavedRowsAreAligned(a.msg, a.request, a.ids, a.msgTime, 0);
    SavedRowsAreAligned(a.msg, a.request, a.ids, a.msgTime, 1);
    assert Inserted(s.table, rows, 1) == s.table[KeyOf(rows[0]) := rows[0]];
    assert Accepts(s.table, rows, 1) == (KeyOf(rows[0]) !in s.table);
  }
}
