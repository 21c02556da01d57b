/**
 The per-sender order fails exactly where a restart loses granted ids: from every state with an idle
 client, sending, restarting and sending again shows it, and with the guard as written such a
 restart can always be reached.
*/
module OrderGap {
  import opened Types
  import opened Dbproxy
  import opened Logic
  import opened SendProtocol
  import opened SendInvariant
  import opened SendTheorems
  import opened SendOrder
  import IdGen

  predicate NoRestart(acts: seq<Action>) {
    forall k | 0 <= k < |acts| :: !acts[k].RestartIdGen?
  }

  /** A run during which the id generator does not restart. */
  ghost predicate Quietly(s: State, acts: seq<Action>, t: State) {
    Steps(s, acts, t) && NoRestart(acts)
  }

  lemma QuietlyConcat(s: State, acts1: seq<Action>, mid: State, acts2: seq<Action>, t: State)
    requires Quietly(s, acts1, mid) && Quietly(mid, acts2, t)
    ensures Quietly(s, acts1 + acts2, t)
  {
    StepsConcat(s, acts1, mid, acts2, t);
  }

  lemma QuietStep(s: State, act: Action)
    requires s.cfg.block >= 1 && Enabled(s, act) && !act.RestartIdGen?
    ensures Quietly(s, [act], Next(s, act))
  {
    OneStep(s, act);
  }

  lemma TwoSteps(s: State, act1: Action, act2: Action)
    requires s.cfg.block >= 1 && Enabled(s, act1) && !act1.RestartIdGen? && !act2.RestartIdGen?
    requires Next(s, act1).cfg.block >= 1 && Enabled(Next(s, act1), act2)
    ensures Quietly(s, [act1] + [act2], Next(Next(s, act1), act2))
  {
    QuietStep(s, act1);
    QuietStep(Next(s, act1), act2);
    QuietlyConcat(s, [act1], Next(s, act1), [act2], Next(Next(s, act1), act2));
  }

  function Last(s: State): nat
    requires s.attempts != []
  {
    |s.attempts| - 1
  }

  /** The message is submitted and its first attempt launched. */
  lemma Begin(s: State, m: NewMsg) returns (acts: seq<Action>, t: State)
    requires s.cfg.block >= 1 && Idle(s, m.userId) && m.clientTime > s.clients[m.userId].last
    ensures Quietly(s, acts, t)
    ensures t == s.(clients := s.clients[m.userId := Client(m.clientTime, Some(m))],
                    attempts := s.attempts + [NewAttempt(m)])
  {
    acts := [Submit(m)] + [Launch(m.userId)];
    TwoSteps(s, Submit(m), Launch(m.userId));
    t := Next(Next(s, Submit(m)), Launch(m.userId));
  }

  /** The last attempt takes two moves. */
  lemma TwoMoves(s: State, move1: Move, move2: Move) returns (acts: seq<Action>, t: State)
    requires s.cfg.block >= 1 && s.attempts != []
    requires Ready(s, s.attempts[Last(s)], move1)
    requires var s1 := Apply(s, Last(s), Perform(s, Last(s), move1)); Ready(s1, s1.attempts[Last(s)], move2)
    ensures Quietly(s, acts, t)
    ensures var s1 := Apply(s, Last(s), Perform(s, Last(s), move1));
            t == Apply(s1, Last(s), Perform(s1, Last(s), move2))
  {
    var i := Last(s);
    acts := [Serve(i, move1)] + [Serve(i, move2)];
    TwoSteps(s, Serve(i, move1), Serve(i, move2));
    t := Next(Next(s, Serve(i, move1)), Serve(i, move2));
  }

  /** The lookup finds another time in the store; the group has no other member. */
  lemma LookUpAndList(s: State, d: LastSend) returns (acts: seq<Action>, t: State)
    requires s.cfg.block >= 1 && s.attempts != [] && s.attempts[Last(s)] == NewAttempt(s.attempts[Last(s)].msg)
    requires var m := s.attempts[Last(s)].msg;
             m.msgType.GROUP? && m.userId !in s.cache && IsNewest(s.table, m.userId, d) && d.clientTime != m.clientTime
    ensures Quietly(s, acts, t)
    ensures t == s.(attempts := s.attempts[Last(s) :=
                      s.attempts[Last(s)].(request := [s.attempts[Last(s)].msg.userId], pc := Allocate)])
  {
    var i, m := Last(s), s.attempts[Last(s)].msg;
    var acts1, s2 := TwoMoves(s, ReadCache(true), ReadStore(d));
    assert s2 == s.(attempts := s.attempts[i := NewAttempt(m).(pc := Plan)]);
    QuietStep(s2, Serve(i, ListIds([])));
    assert IdRequest(m, []) == [m.userId];
    t := Next(s2, Serve(i, ListIds([])));
    QuietlyConcat(s, acts1, s2, [Serve(i, ListIds([]))], t);
    acts := acts1 + [Serve(i, ListIds([]))];
  }

  /** The sender's id is granted and its row stored. */
  lemma GrantAndSave(s: State, first: MsgId) returns (acts: seq<Action>, t: State)
    requires s.cfg.block >= 1 && s.attempts != []
    requires var a := s.attempts[Last(s)];
             && a.pc.Allocate? && a.msg.msgType.GROUP? && a.request == [a.msg.userId] && a.ids == [] && a.saved == 0
             && SenderKey(a.msg) !in s.table
             && IdGen.Generate(s.cfg, s.idgen.st, a.msg.userId, 1, IdGen.DISK_OK).out == IdGen.Granted(first)
    ensures Quietly(s, acts, t)
    ensures var a := s.attempts[Last(s)];
            var b := a.(ids := [first], msgTime := 0, saved := 1, pc := UpdateCache);
            && t == s.(attempts := s.attempts[Last(s) := b], table := t.table,
                       idgen := IdGen.Exec(s.cfg, s.idgen, IdGen.Grant(a.msg.userId, 1, IdGen.DISK_OK)))
            && t.table == s.table[SenderKey(a.msg) := AttemptRow(b, 0)]
  {
    var i, a := Last(s), s.attempts[Last(s)];
    var c := a.(ids := [first], msgTime := 0, pc := Save);
    assert AfterGrant(a, IdGen.Granted(first), 0) == c;
    var grant := GrantId(IdGen.DISK_OK, 0);
    var s1 := Apply(s, i, Perform(s, i, grant));
    assert s1.attempts[i] == c && s1.table == s.table;
    assert RowKey(c, 0) == SenderKey(a.msg);
    acts, t := TwoMoves(s, grant, SaveGroupRow);
  }

  /** The cache is set, the reply sent and received. */
  lemma Finish(s: State) returns (acts: seq<Action>, t: State)
    requires s.cfg.block >= 1 && s.attempts != []
    requires var a := s.attempts[Last(s)];
             && a.pc.UpdateCache? && |a.ids| > 0
             && a.msg.userId in s.clients && s.clients[a.msg.userId].out == Some(a.msg)
    ensures Quietly(s, acts, t)
    ensures t.cfg == s.cfg && t.table == s.table && t.idgen == s.idgen
    ensures var u := s.attempts[Last(s)].msg.userId;
            Idle(t, u) && t.clients[u].last == s.clients[u].last
  {
    var i, a := Last(s), s.attempts[Last(s)];
    var acts1, s2 := TwoMoves(s, SetCache, ReplyFresh);
    var ack := Ack(a.msg.userId, a.msg.clientTime, a.ids[0], a.msgTime, Fresh);
    assert ack in s2.acks && s2.clients == s.clients;
    QuietStep(s2, Receive(ack));
    t := Next(s2, Receive(ack));
    QuietlyConcat(s, acts1, s2, [Receive(ack)], t);
    acts := acts1 + [Receive(ack)];
  }

  /** Up to the point where the ids are asked for. */
  lemma BeginAlone(s: State, m: NewMsg, d: LastSend) returns (acts: seq<Action>, t: State)
    requires s.cfg.block >= 1 && Idle(s, m.userId) && m.clientTime > s.clients[m.userId].last && m.msgType.GROUP?
    requires m.userId !in s.cache && IsNewest(s.table, m.userId, d) && d.clientTime != m.clientTime
    ensures Quietly(s, acts, t)
    ensures t == s.(clients := s.clients[m.userId := Client(m.clientTime, Some(m))],
                    attempts := s.attempts + [NewAttempt(m).(request := [m.userId], pc := Allocate)])
  {
    var acts1, s1 := Begin(s, m);
    var acts2;
    acts2, t := LookUpAndList(s1, d);
    QuietlyConcat(s, acts1, s1, acts2, t);
    acts := acts1 + acts2;
  }

  /** One message sent without any trouble, to a group of which the sender is the only member. */
  lemma SendAlone(s: State, m: NewMsg, d: LastSend, first: MsgId) returns (acts: seq<Action>, t: State)
    requires s.cfg.block >= 1 && Idle(s, m.userId) && m.clientTime > s.clients[m.userId].last && m.msgType.GROUP?
    requires m.userId !in s.cache && IsNewest(s.table, m.userId, d) && d.clientTime != m.clientTime
    requires SenderKey(m) !in s.table
    requires IdGen.Generate(s.cfg, s.idgen.st, m.userId, 1, IdGen.DISK_OK).out == IdGen.Granted(first)
    ensures Quietly(s, acts, t) && t.cfg == s.cfg
    ensures t.idgen == IdGen.Exec(s.cfg, s.idgen, IdGen.Grant(m.userId, 1, IdGen.DISK_OK))
    ensures t.table == s.table[SenderKey(m) := OwnRow(m, first)]
    ensures Idle(t, m.userId) && t.clients[m.userId].last == m.clientTime
  {
    var acts1, s1 := BeginAlone(s, m, d);
    var acts2, s2 := GrantAndSave(s1, first);
    var acts3;
    acts3, t := Finish(s2);
    QuietlyConcat(s1, acts2, s2, acts3, t);
    QuietlyConcat(s, acts1, s1, acts2 + acts3, t);
    acts := acts1 + (acts2 + acts3);
  }

  function OwnRow(m: NewMsg, id: MsgId): Row {
    Row(m.userId, m.userId, m.peerId, id, m.peerId, m.text, m.clientTime, 0)
  }

  function NextNote(s: State, u: UserId): NewMsg
    requires u in s.clients
  {
    NewMsg(u, 100, GROUP, "note", s.clients[u].last + 1)
  }

  /** No stored message of a client is newer than the last one it sent. */
  lemma OwnRowsAreOld(s: State, u: UserId, k: Key)
    requires Inv(s) && u in s.clients && k.sender == u
    ensures k in s.table ==> k.clientTime <= s.clients[u].last
  {
    if k in s.table && k !in s.seed {
      var w, j := WriterOf(s, k);
    }
  }

  /** The state after an idle client has sent its next message alone: one id granted, one row stored. */
  ghost predicate SentNext(s: State, u: UserId, t: State) {
    && Idle(s, u) && s.cfg.block >= 1
    && var m := NextNote(s, u);
       && t.cfg == s.cfg && Idle(t, u) && t.clients[u].last == m.clientTime
       && t.idgen == IdGen.Exec(s.cfg, s.idgen, IdGen.Grant(u, 1, IdGen.DISK_OK))
       && t.table == s.table[SenderKey(m) := OwnRow(m, IdGen.Base(s.idgen.st, u) + 1)]
  }

  /** The next message of an idle client is in no store, whatever the MAX query finds. */
  lemma NextNoteIsNew(s: State, u: UserId) returns (d: LastSend)
    requires Inv(s) && Idle(s, u)
    ensures IsNewest(s.table, u, d) && d.clientTime != NextNote(s, u).clientTime
    ensures SenderKey(NextNote(s, u)) !in s.table
  {
    d := NewestExists(s.table, u);
    assert ClientOk(s, u);
    if !NoneSent(s.table, u) {
      OwnRowsAreOld(s, u, Key(u, u, d.clientTime));
    }
    OwnRowsAreOld(s, u, SenderKey(NextNote(s, u)));
  }

  lemma Expired(s: State, u: UserId) returns (t: State)
    requires Reachable(s)
    ensures Quietly(s, [Expire(u)], t) && t == s.(cache := t.cache) && u !in t.cache && t.cfg.block >= 1
  {
    ReachableInv(s);
    QuietStep(s, Expire(u));
    t := Next(s, Expire(u));
  }

  /** From any reachable state an idle client can send its next message. */
  lemma SendNext(s: State, u: UserId) returns (acts: seq<Action>, t: State)
    requires Reachable(s) && Idle(s, u)
    ensures Quietly(s, acts, t) && Reachable(t) && SentNext(s, u, t)
  {
    ReachableInv(s);
    var d := NextNoteIsNew(s, u);
    var mid := Expired(s, u);
    acts, t := SendAlone(mid, NextNote(s, u), d, IdGen.Base(s.idgen.st, u) + 1);
    QuietlyConcat(s, [Expire(u)], mid, acts, t);
    acts := [Expire(u)] + acts;
    StaysReachable(s, acts, t);
  }

  // ----- Exactly which restarts keep the order.

  /** The generator restarts at r, and then `u` sends its next message: it is numbered from the watermark. */
  ghost predicate RestartedAndSent(r: State, u: UserId, t: State) {
    && Idle(r, u) && Idle(t, u)
    && t.table == r.table[SenderKey(NextNote(r, u)) := OwnRow(NextNote(r, u), IdGen.Watermark(r.idgen.st, u) + 1)]
  }

  lemma Restarted(r: State, u: UserId) returns (acts: seq<Action>, t: State)
    requires Reachable(r) && Idle(r, u)
    ensures Steps(r, acts, t) && |acts| == 1 && acts[0] == RestartIdGen && Reachable(t)
    ensures t.clients == r.clients && t.table == r.table
    ensures IdGen.Base(t.idgen.st, u) == IdGen.Watermark(r.idgen.st, u)
  {
    ReachableInv(r);
    OneStep(r, RestartIdGen);
    acts, t := [RestartIdGen], Next(r, RestartIdGen);
    StaysReachable(r, acts, t);
  }

  lemma NumberedFromWatermark(r: State, u: UserId, mid: State, t: State)
    requires Idle(r, u) && mid.clients == r.clients && mid.table == r.table
    requires IdGen.Base(mid.idgen.st, u) == IdGen.Watermark(r.idgen.st, u) && SentNext(mid, u, t)
    ensures RestartedAndSent(r, u, t)
  {
  }

  lemma RestartAndSend(r: State, u: UserId) returns (acts: seq<Action>, t: State)
    requires Reachable(r) && Idle(r, u)
    ensures Steps(r, acts, t) && RestartedAndSent(r, u, t)
    ensures acts != [] && acts[0] == RestartIdGen && NoRestart(acts[1..])
  {
    var first, mid := Restarted(r, u);
    var rest;
    rest, t := SendNext(mid, u);
    NumberedFromWatermark(r, u, mid, t);
    StepsConcat(r, first, mid, rest, t);
    acts := first + rest;
    assert acts[1..] == rest;
  }

  /** What the two messages around a restart are numbered. */
  lemma AroundARestart(s: State, u: UserId, r: State, t: State)
    requires Idle(s, u) && SentNext(s, u, r) && RestartedAndSent(r, u, t)
    ensures var k1, k2 := SenderKey(NextNote(s, u)), SenderKey(NextNote(r, u));
            && k1.clientTime < k2.clientTime && k1 in t.table && k2 in t.table
            && t.table[k1].msgId == IdGen.Base(s.idgen.st, u) + 1
            && t.table[k2].msgId == IdGen.Watermark(r.idgen.st, u) + 1
  {
  }

  /** The id just granted is the user's largest. */
  lemma TopAfterSending(s: State, u: UserId, r: State)
    requires IdGen.Ahead(s.idgen) && SentNext(s, u, r)
    ensures IdGen.Top(r.idgen.log, u) == IdGen.Base(s.idgen.st, u) + 1
  {
    IdGen.TopAppend(s.idgen.log, MsgIds(u, IdGen.Base(s.idgen.st, u) + 1, 1), u);
    assert IdGen.Top(s.idgen.log, u) <= IdGen.Base(s.idgen.st, u);
  }

  /**
   For every state of every run in order, with either guard: when an idle client sends, the generator
   restarts and the client sends again, the two messages are in order if and only if the restart
   found the client's ids below its watermark.
  */
  lemma RestartKeepsOrderExactly(s0: State, acts: seq<Action>, s: State, u: UserId)
    returns (before: seq<Action>, r: State, after: seq<Action>, t: State)
    requires RunTo(s0, acts, s) && StartsInOrder(s0) && RestartsCovered(s0, acts) && Idle(s, u)
    ensures Quietly(s, before, r) && SentNext(s, u, r)
    ensures Steps(r, after, t) && after != [] && after[0] == RestartIdGen && NoRestart(after[1..])
    ensures RestartedAndSent(r, u, t)
    ensures OutOfOrder(t, u, s.clients[u].last + 1, s.clients[u].last + 2)
       <==> IdGen.Top(r.idgen.log, u) > IdGen.Watermark(r.idgen.st, u)
  {
    RunIsAhead(s0, acts, s);
    before, r := SendNext(s, u);
    after, t := RestartAndSend(r, u);
    AroundARestart(s, u, r, t);
    TopAfterSending(s, u, r);
  }

  lemma RunIsAhead(s0: State, acts: seq<Action>, s: State)
    requires RunTo(s0, acts, s) && StartsInOrder(s0) && RestartsCovered(s0, acts)
    ensures Reachable(s) && IdGen.Ahead(s.idgen)
  {
    InitInv(s0);
    StepsKeepOrder(s0, acts, s);
  }

  /** `u` has two stored messages of its own, the later with an id that is not larger. */
  predicate OutOfOrder(s: State, u: UserId, t1: int, t2: int) {
    && t1 < t2 && Key(u, u, t1) in s.table && Key(u, u, t2) in s.table
    && s.table[Key(u, u, t2)].msgId <= s.table[Key(u, u, t1)].msgId
  }

  // ----- The guard as written.

  lemma SendRestartSend(s: State, u: UserId) returns (acts: seq<Action>, r: State, t: State)
    requires Reachable(s) && Idle(s, u)
    ensures Steps(s, acts, t) && SentNext(s, u, r) && RestartedAndSent(r, u, t)
  {
    var before, after;
    before, r := SendNext(s, u);
    after, t := RestartAndSend(r, u);
    StepsConcat(s, before, r, after, t);
    acts := before + after;
  }

  /** A loaded counter on a silent guard: the id is granted and nothing is reserved. */
  lemma SilentGrant(cfg: IdGen.Config, h: IdGen.Hist, u: UserId)
    requires cfg.block >= 1 && !IdGen.Reserves(cfg, h.st, u, 1)
    ensures var g := IdGen.Exec(cfg, h, IdGen.Grant(u, 1, IdGen.DISK_OK));
            && IdGen.Base(h.st, u) == IdGen.Counter(h.st, u)
            && IdGen.Counter(g.st, u) == IdGen.Counter(h.st, u) + 1
            && IdGen.Watermark(g.st, u) == IdGen.Watermark(h.st, u)
  {
  }

  /**
   From every state whose next grant to an idle client overruns, a run leads to two messages of that
   client with the same id in its mailbox, the second sent only after the first was acknowledged.
  */
  lemma OrderFailsAfterAnOverrun(s: State, u: UserId) returns (acts: seq<Action>, t: State)
    requires Reachable(s) && IdGen.Inv(s.cfg, s.idgen) && Idle(s, u)
    requires IdGen.Overruns(s.cfg, s.idgen.st, IdGen.Grant(u, 1, IdGen.DISK_OK))
    ensures Steps(s, acts, t)
    ensures var k1, k2 := Key(u, u, s.clients[u].last + 1), Key(u, u, s.clients[u].last + 2);
            k1 in t.table && k2 in t.table && t.table[k1].msgId == t.table[k2].msgId
  {
    IdGen.OverrunsAtTheWatermark(s.cfg, s.idgen, IdGen.Grant(u, 1, IdGen.DISK_OK));
    SilentGrant(s.cfg, s.idgen, u);
    var r;
    acts, r, t := SendRestartSend(s, u);
    AroundARestart(s, u, r, t);
  }

  /** With the guard as written, single-id grants never reserve for a loaded counter. */
  lemma SingleGrantsAreSilent(cfg: IdGen.Config, h: IdGen.Hist, u: UserId)
    requires cfg.guard.AsWritten? && cfg.block >= 1 && IdGen.Counter(h.st, u) > 0
    ensures !IdGen.Reserves(cfg, h.st, u, 1)
  {
  }

  /** How far a user is from its next overrun: not yet loaded, or so many ids below the watermark. */
  function ToGo(h: IdGen.Hist, u: UserId): (int, int) {
    (if IdGen.Counter(h.st, u) == 0 then 1 else 0, IdGen.Watermark(h.st, u) - IdGen.Counter(h.st, u))
  }

  lemma SendingApproaches(s: State, u: UserId, r: State)
    requires s.cfg.guard.AsWritten? && IdGen.NonNegative(s.idgen.st) && SentNext(s, u, r)
    ensures IdGen.Counter(r.idgen.st, u) > 0
    ensures IdGen.Counter(s.idgen.st, u) > 0 ==>
              && IdGen.Base(s.idgen.st, u) == IdGen.Counter(s.idgen.st, u)
              && IdGen.Counter(r.idgen.st, u) == IdGen.Counter(s.idgen.st, u) + 1
              && IdGen.Watermark(r.idgen.st, u) == IdGen.Watermark(s.idgen.st, u)
  {
    assert IdGen.Counter(s.idgen.st, u) >= 0 && IdGen.Watermark(s.idgen.st, u) >= 0;
    if IdGen.Counter(s.idgen.st, u) > 0 {
      SingleGrantsAreSilent(s.cfg, s.idgen, u);
      SilentGrant(s.cfg, s.idgen, u);
    }
  }

  lemma BreaksAtTheWatermark(s: State, u: UserId) returns (acts: seq<Action>, t: State)
    requires Reachable(s) && s.cfg.guard.AsWritten? && Idle(s, u)
    requires IdGen.Counter(s.idgen.st, u) > 0 && IdGen.Watermark(s.idgen.st, u) <= IdGen.Counter(s.idgen.st, u)
    ensures Steps(s, acts, t) && OutOfOrder(t, u, s.clients[u].last + 1, s.clients[u].last + 2)
  {
    ReachableInv(s);
    var r;
    acts, r, t := SendRestartSend(s, u);
    SendingApproaches(s, u, r);
    AroundARestart(s, u, r, t);
  }

  /**
   With the guard as written, every reachable state with an idle client leads to two of its messages
   out of order.
  */
  lemma {:induction false} AsWrittenBreaksOrder(s: State, u: UserId)
    returns (acts: seq<Action>, t: State, t1: int, t2: int)
    requires Reachable(s) && s.cfg.guard.AsWritten? && Idle(s, u)
    ensures Steps(s, acts, t) && OutOfOrder(t, u, t1, t2)
    decreases ToGo(s.idgen, u).0, ToGo(s.idgen, u).1
  {
    ReachableInv(s);
    if IdGen.Counter(s.idgen.st, u) > 0 && IdGen.Watermark(s.idgen.st, u) <= IdGen.Counter(s.idgen.st, u) {
      acts, t := BreaksAtTheWatermark(s, u);
      t1, t2 := s.clients[u].last + 1, s.clients[u].last + 2;
    } else {
      var before, r := SendNext(s, u);
      assert IdGen.Counter(s.idgen.st, u) >= 0;
      SendingApproaches(s, u, r);
      var after;
      after, t, t1, t2 := AsWrittenBreaksOrder(r, u);
      StepsConcat(s, before, r, after, t);
      acts := before + after;
    }
  }

  // ----- The guard decides.

  lemma QuiescentIsInOrder(cfg: IdGen.Config)
    requires cfg.block >= 1
    ensures StartsInOrder(Quiescent(cfg)) && IdGen.Inv(cfg, Quiescent(cfg).idgen)
  {
    forall u ensures IdGen.UserInv(cfg, Quiescent(cfg).idgen, u) {}
  }

  /** Every run that starts in order, with the reservations in order, ends in order. */
  ghost predicate AlwaysOrdered(cfg: IdGen.Config) {
    forall s0: State, acts: seq<Action>, s: State |
      RunTo(s0, acts, s) && s0.cfg == cfg && StartsInOrder(s0) && IdGen.Inv(cfg, s0.idgen) :: Ordered(s)
  }

  /**
   Over all runs, restarts included, the order the documentation promises holds if and only if the
   guard also reserves on a block end; the one in the code does not.
  */
  lemma GuardDecidesOrder(cfg: IdGen.Config)
    requires cfg.block >= 1
    ensures AlwaysOrdered(cfg) <==> cfg.guard.Repaired?
  {
    if cfg.guard.Repaired? {
      forall s0: State, acts: seq<Action>, s: State |
        RunTo(s0, acts, s) && s0.cfg == cfg && StartsInOrder(s0) && IdGen.Inv(cfg, s0.idgen)
        ensures Ordered(s)
      {
        RepairedIsCovered(s0, acts, s);
        MailboxOrder(s0, acts, s);
      }
    } else {
      var s0 := Quiescent(cfg);
      QuiescentIsInitial(cfg);
      QuiescentIsInOrder(cfg);
      var acts, t, t1, t2 := AsWrittenBreaksOrder(s0, ALICE);
      assert RunTo(s0, acts, t) && OutOfOrder(t, ALICE, t1, t2);
      assert !Ordered(t);
    }
  }
}
