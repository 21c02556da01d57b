/** What stored rows say, whom a group message reaches, and where their ids come from. */
module SendContents {
  import opened Types
  import opened Dbproxy
  import opened Logic
  import opened SendProtocol
  import opened SendInvariant
  import opened SendTheorems
  import IdGen

  // ----- Every id an attempt holds was granted by the generator to that position's user.

  predicate Logged(log: seq<MsgIds>, a: Attempt) {
    forall k | 0 <= k < |a.ids| && k < |a.request| :: MsgIds(a.request[k], a.ids[k], 1) in log
  }

  ghost predicate AllLogged(s: State) {
    forall i | 0 <= i < |s.attempts| :: Logged(s.idgen.log, s.attempts[i])
  }

  lemma LoggedStays(cfg: IdGen.Config, h: IdGen.Hist, op: IdGen.Op, a: Attempt)
    requires cfg.block >= 1 && Logged(h.log, a)
    ensures Logged(IdGen.Exec(cfg, h, op).log, a)
  {
  }

  lemma OutcomeIsLogged(log: seq<MsgIds>, a: Attempt, out: IdGen.Outcome, now: int, log': seq<MsgIds>)
    requires |a.ids| < |a.request| && Logged(log, a)
    requires log' == if out.Granted? then log + [MsgIds(a.request[|a.ids|], out.first, 1)] else log
    ensures Logged(log', AfterGrant(a, out, now))
  {
    AppendedId(a, out, now);
    var b := AfterGrant(a, out, now);
    forall k | 0 <= k < |b.ids| && k < |b.request| ensures MsgIds(b.request[k], b.ids[k], 1) in log' {
      if k < |a.ids| {
        assert b.ids[k] == a.ids[k];
      } else {
        assert log'[|log|] == MsgIds(b.request[k], b.ids[k], 1);
      }
    }
  }

  lemma MovedIsLogged(s: State, i: nat, move: Move)
    requires Inv(s) && AllLogged(s) && Enabled(s, Serve(i, move))
    ensures Logged(Perform(s, i, move).idgen.log, Perform(s, i, move).attempt)
  {
    var a := s.attempts[i];
    assert AttemptOk(s, a);
    if move.GrantId? {
      var op := IdGrant(a, move.disk);
      OutcomeIsLogged(s.idgen.log, a, IdGen.Generate(s.cfg, s.idgen.st, op.user, 1, move.disk).out, move.now,
                      IdGen.Exec(s.cfg, s.idgen, op).log);
    } else {
      OtherMovesGrantNothing(s, i, move);
      MoveKeepsLog(s, i, move);
    }
  }

  lemma MoveKeepsLog(s: State, i: nat, move: Move)
    requires s.cfg.block >= 1 && i < |s.attempts| && Ready(s, s.attempts[i], move) && !move.GrantId?
    ensures Perform(s, i, move).idgen == s.idgen
  {
  }

  lemma StepKeepsLogged(s: State, act: Action)
    requires Inv(s) && AllLogged(s) && Enabled(s, act)
    ensures AllLogged(Next(s, act))
  {
    var t := Next(s, act);
    var op := NextIdGen(s, act);
    forall i | 0 <= i < |t.attempts| ensures Logged(t.idgen.log, t.attempts[i]) {
      if i >= |s.attempts| {
        assert act.Launch?;
      } else if act.Serve? && act.i == i {
        MovedIsLogged(s, i, act.move);
      } else {
        assert t.attempts[i] == s.attempts[i];
        if op.Some? {
          LoggedStays(s.cfg, s.idgen, op.value, s.attempts[i]);
        }
      }
    }
  }

  lemma {:induction false} StepsKeepLogged(s: State, acts: seq<Action>, t: State)
    requires Inv(s) && AllLogged(s) && Steps(s, acts, t)
    ensures AllLogged(t)
    decreases |acts|
  {
    if acts != [] {
      StepKeepsInv(s, acts[0]);
      StepKeepsLogged(s, acts[0]);
      StepsKeepLogged(Next(s, acts[0]), acts[1..], t);
    }
  }

  lemma ReachableLogged(s: State)
    requires Reachable(s)
    ensures AllLogged(s)
  {
    var s0: State, acts: seq<Action> :| RunTo(s0, acts, s);
    InitInv(s0);
    StepsKeepLogged(s0, acts, s);
  }

  // ----- What a row says.

  /** The copy of message `m` in a mailbox, under an id and a time of its own. */
  predicate IsCopyOf(r: Row, m: NewMsg, mailbox: UserId) {
    && r.mailbox == mailbox && r.sender == m.userId && r.receiver == m.peerId
    && r.text == m.text && r.clientTime == m.clientTime
    && r.groupId == if m.msgType.GROUP? then m.peerId else 0
  }

  /**
   Every stored row is a full copy of the message its sender submitted, under an id that the generator
   granted to the mailbox's own user.
  */
  lemma RowsCarryTheMessage(s: State, k: Key) returns (w: nat)
    requires Reachable(s) && k in s.table && k !in s.seed
    ensures w < |s.attempts| && SameMsg(s.attempts[w], k.sender, k.clientTime)
    ensures IsCopyOf(s.table[k], s.attempts[w].msg, k.mailbox)
    ensures s.table[k].msgTime == s.attempts[w].msgTime
    ensures MsgIds(k.mailbox, s.table[k].msgId, 1) in s.idgen.log
  {
    ReachableInv(s);
    ReachableLogged(s);
    var j;
    w, j := WriterOf(s, k);
    assert Logged(s.idgen.log, s.attempts[w]);
  }

  // ----- Whom a group message is for.

  lemma RequestStaysMove(s: State, i: nat, move: Move)
    requires s.cfg.block >= 1 && i < |s.attempts| && Ready(s, s.attempts[i], move)
    requires Shape(s.attempts[i]) && s.attempts[i].request != []
    ensures Perform(s, i, move).attempt.msg == s.attempts[i].msg
    ensures Perform(s, i, move).attempt.request == s.attempts[i].request
  {
  }

  lemma RequestStaysOneStep(s: State, act: Action, w: nat)
    requires s.cfg.block >= 1 && Enabled(s, act) && w < |s.attempts| && s.attempts[w].request != []
    requires Shape(s.attempts[w])
    ensures w < |Next(s, act).attempts|
    ensures Next(s, act).attempts[w].msg == s.attempts[w].msg
    ensures Next(s, act).attempts[w].request == s.attempts[w].request
  {
    if act.Serve? && act.i == w {
      RequestStaysMove(s, w, act.move);
    } else {
      assert Next(s, act).attempts[w] == s.attempts[w];
    }
  }

  lemma {:induction false} RequestStays(s: State, acts: seq<Action>, t: State, w: nat)
    requires Inv(s) && Steps(s, acts, t) && w < |s.attempts| && s.attempts[w].request != []
    ensures w < |t.attempts| && t.attempts[w].msg == s.attempts[w].msg && t.attempts[w].request == s.attempts[w].request
    decreases |acts|
  {
    if acts != [] {
      assert AttemptOk(s, s.attempts[w]);
      RequestStaysOneStep(s, acts[0], w);
      StepKeepsInv(s, acts[0]);
      RequestStays(Next(s, acts[0]), acts[1..], t, w);
    }
  }

  lemma ListIdsSetsRequest(s: State, w: nat, members: seq<UserId>)
    requires s.cfg.block >= 1 && Enabled(s, Serve(w, ListIds(members)))
    ensures w < |Next(s, Serve(w, ListIds(members))).attempts|
    ensures Next(s, Serve(w, ListIds(members))).attempts[w]
         == s.attempts[w].(request := IdRequest(s.attempts[w].msg, members), pc := Allocate)
  {
  }

  /**
   Whatever happens after the group was listed, once that attempt has stored all its rows every listed
   member, and the sender, has a copy of the message.
  */
  lemma CompleteGroupReachesItsMembers(s: State, w: nat, members: seq<UserId>, acts: seq<Action>, t: State, v: UserId)
    requires Reachable(s) && s.cfg.block >= 1 && Enabled(s, Serve(w, ListIds(members)))
    requires Steps(Next(s, Serve(w, ListIds(members))), acts, t) && w < |t.attempts| && Complete(t.attempts[w])
    requires s.attempts[w].msg.msgType.GROUP? && (v in members || v == s.attempts[w].msg.userId)
    ensures var m := s.attempts[w].msg;
            && Key(v, m.userId, m.clientTime) in t.table
            && IsCopyOf(t.table[Key(v, m.userId, m.clientTime)], m, v)
  {
    var mid := Next(s, Serve(w, ListIds(members)));
    NextIsReachable(s, Serve(w, ListIds(members)));
    ListIdsSetsRequest(s, w, members);
    ReachableInv(mid);
    RequestStays(mid, acts, t, w);
    StepsKeepInv(mid, acts, t);
    var j := PlaceOf(s.attempts[w].msg, members, v);
    assert AttemptOk(t, t.attempts[w]);
    assert RowKey(t.attempts[w], j) in t.table;
  }

  lemma PlaceOf(m: NewMsg, members: seq<UserId>, v: UserId) returns (j: nat)
    requires m.msgType.GROUP? && (v in members || v == m.userId)
    ensures j < |IdRequest(m, members)| && IdRequest(m, members)[j] == v
  {
    GroupRequestNamesTheGroup(m, members);
    assert SenderAndMembers(IdRequest(m, members), m.userId, members, v);
    assert v in multiset(members) <==> v in members;
    assert v in multiset(IdRequest(m, members));
    j :| 0 <= j < |IdRequest(m, members)| && IdRequest(m, members)[j] == v;
  }
}
