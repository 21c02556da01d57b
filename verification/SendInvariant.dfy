/**
 The inductive invariant of the send pipeline, for either guard of the id generator. Which ids are
 granted plays no part in it: every enabled step preserves it.
*/
module SendInvariant {
  import opened Types
  import opened Dbproxy
  import opened Logic
  import opened SendProtocol
  import IdGen

  function TopId(s: State, u: UserId): int {
    IdGen.Top(s.idgen.log, u)
  }

  function SameMsg(a: Attempt, u: UserId, t: int): bool {
    a.msg.userId == u && a.msg.clientTime == t
  }

  /** This attempt has inserted every row of its request. */
  predicate Complete(a: Attempt) {
    0 < a.saved == |a.request|
  }

  /** Some attempt of (u, t) has stored a row for everybody on its list. */
  ghost predicate Whole(s: State, u: UserId, t: int) {
    exists i | 0 <= i < |s.attempts| :: SameMsg(s.attempts[i], u, t) && Complete(s.attempts[i])
  }

  // ----- One attempt.

  predicate Shape(a: Attempt) {
    && a.saved <= |a.request| && |a.ids| <= |a.request|
    && (a.request != [] ==> a.request[0] == a.msg.userId)
    && (a.msg.msgType.PRIVATE? ==> (a.request == [] || a.request == [a.msg.userId, a.msg.peerId]) && a.saved != 1)
    && (a.saved > 0 ==> |a.ids| == |a.request|)
    && (a.pc.Lookup? || a.pc.QueryStore? || a.pc.Duplicate? || a.pc.Plan? ==> a.request == [])
    && (a.pc.Allocate? ==> |a.ids| < |a.request| && a.saved == 0)
    && (a.pc.Save? ==> |a.ids| == |a.request| && a.saved < |a.request|)
    && (a.pc.UpdateCache? || a.pc.Saved? || a.pc.Pushing? || a.pushed > 0 ==> Complete(a))
    && (a.pushed > 0 ==> a.pc.Pushing? || a.pc.Dropped?)
    && (a.pc.Pushing? || a.pushed > 0 ==> |a.sessions| + 1 == |a.request| && a.pushed <= |PlanOf(a)|)
  }

  predicate RowsStored(s: State, a: Attempt) {
    && (forall k | 0 <= k < a.saved && k < |a.request| && k < |a.ids| ::
          RowKey(a, k) in s.table && s.table[RowKey(a, k)] == AttemptRow(a, k))
    && (forall p, q | 0 <= p < q < a.saved && q < |a.request| :: a.request[p] != a.request[q])
  }

  /** The attempt's message is newer than every initial row of its sender. */
  predicate NewerThanSeed(s: State, a: Attempt) {
    && a.msg.userId in s.clients
    && 0 < a.msg.clientTime <= s.clients[a.msg.userId].last
    && forall x | x in s.seed && x.sender == a.msg.userId :: x.clientTime < a.msg.clientTime
  }

  ghost predicate HitOk(s: State, a: Attempt) {
    a.pc.Duplicate? ==>
      && a.pc.hit.clientTime == a.msg.clientTime
      && StoredAs(s.table, a.msg.userId, a.pc.hit)
      && a.pc.via != Fresh
      && (a.pc.via == Cache ==> Whole(s, a.msg.userId, a.msg.clientTime))
  }

  ghost predicate AttemptOk(s: State, a: Attempt) {
    Shape(a) && RowsStored(s, a) && NewerThanSeed(s, a) && HitOk(s, a)
  }

  predicate Outstanding(s: State, a: Attempt) {
    && a.msg.userId in s.clients
    && s.clients[a.msg.userId].out.Some?
    && s.clients[a.msg.userId].out.value.clientTime == a.msg.clientTime
  }

  /** Either the client is still sending this message, or its sender's row is stored. */
  predicate MovedOn(s: State, a: Attempt) {
    if Outstanding(s, a) then s.clients[a.msg.userId].out.value == a.msg else SenderKey(a.msg) in s.table
  }

  // ----- Two attempts.

  /** A later message starts only after the earlier one's row is stored. */
  predicate PairOk(s: State, a: Attempt, b: Attempt) {
    a.msg.userId == b.msg.userId ==>
      && (a.msg.clientTime == b.msg.clientTime ==> a.msg == b.msg)
      && (a.msg.clientTime < b.msg.clientTime ==> SenderKey(a.msg) in s.table)
  }

  /** At most one attempt per message ever stores anything. */
  predicate NotBothWrote(a: Attempt, b: Attempt) {
    SameMsg(a, b.msg.userId, b.msg.clientTime) ==> a.saved == 0 || b.saved == 0
  }

  // ----- Stores and histories.

  predicate Wrote(s: State, i: nat, j: nat, k: Key) {
    i < |s.attempts| && j < s.attempts[i].saved && j < |s.attempts[i].request| && RowKey(s.attempts[i], j) == k
  }

  ghost predicate HasOrigin(s: State, k: Key) {
    k in s.seed || exists i: nat, j: nat :: Wrote(s, i, j, k)
  }

  predicate SeedOk(s: State) {
    forall k | k in s.seed ::
      && k in s.table && s.table[k] == s.seed[k] && KeyOf(s.seed[k]) == k
      && (k.sender in s.clients ==> k.clientTime <= s.clients[k.sender].last)
  }

  predicate ClientOk(s: State, u: UserId)
    requires u in s.clients
  {
    var c := s.clients[u];
    && c.last >= 0
    && (c.out.Some? ==>
          && c.out.value.userId == u && 0 < c.out.value.clientTime == c.last
          && forall x | x in s.seed && x.sender == u :: x.clientTime < c.out.value.clientTime)
  }

  ghost predicate CacheOk(s: State, u: UserId)
    requires u in s.cache
  {
    && StoredAs(s.table, u, s.cache[u])
    && (Key(u, u, s.cache[u].clientTime) in s.seed || Whole(s, u, s.cache[u].clientTime))
  }

  ghost predicate AckOk(s: State, ack: Ack) {
    && StoredAs(s.table, ack.user, LastSend(ack.msgId, ack.clientTime, ack.msgTime))
    && (ack.via != Store ==> Whole(s, ack.user, ack.clientTime))
  }

  predicate PushOk(s: State, p: Sent) {
    && p.attempt < |s.attempts|
    && p.pos < s.attempts[p.attempt].pushed
    && p.pos < |PlanOf(s.attempts[p.attempt])|
    && PlanOf(s.attempts[p.attempt])[p.pos] == p.push
  }

  predicate PushesDistinct(s: State) {
    forall m, n | 0 <= m < n < |s.pushes| ::
      !(s.pushes[m].attempt == s.pushes[n].attempt && s.pushes[m].pos == s.pushes[n].pos)
  }

  ghost predicate AttemptsOk(s: State) {
    forall i | 0 <= i < |s.attempts| :: AttemptOk(s, s.attempts[i]) && MovedOn(s, s.attempts[i])
  }

  ghost predicate PairsOk(s: State) {
    forall i, j | 0 <= i < |s.attempts| && 0 <= j < |s.attempts| :: PairOk(s, s.attempts[i], s.attempts[j])
  }

  ghost predicate OneWriter(s: State) {
    forall i, j | 0 <= i < j < |s.attempts| :: NotBothWrote(s.attempts[i], s.attempts[j])
  }

  ghost predicate StoresOk(s: State) {
    && (forall k | k in s.table :: HasOrigin(s, k))
    && (forall u | u in s.cache :: CacheOk(s, u))
  }

  ghost predicate HistoriesOk(s: State) {
    && (forall ack | ack in s.acks :: AckOk(s, ack))
    && (forall n | 0 <= n < |s.pushes| :: PushOk(s, s.pushes[n]))
    && PushesDistinct(s)
  }

  ghost predicate Inv(s: State) {
    && s.cfg.block >= 1 && IdGen.NonNegative(s.idgen.st)
    && SeedOk(s)
    && (forall u | u in s.clients :: ClientOk(s, u))
    && AttemptsOk(s)
    && PairsOk(s)
    && OneWriter(s)
    && StoresOk(s)
    && HistoriesOk(s)
  }

  lemma InitInv(s: State)
    requires Init(s)
    ensures Inv(s)
  {
  }

  // ----- What no step undoes.

  /** The part of an attempt that steps never change once it has stored a row. */
  predicate Later(a: Attempt, b: Attempt) {
    && b.msg == a.msg && a.saved <= b.saved && a.pushed <= b.pushed
    && (a.saved > 0 ==> b.request == a.request && b.ids == a.ids && b.msgTime == a.msgTime)
    && (Complete(a) ==> b.saved == a.saved)
    && (a.pushed > 0 ==> b.sessions == a.sessions)
  }

  /** Rows and sent replies stay as they are; ids, times and attempts only move forward. */
  ghost predicate Evolves(s: State, t: State) {
    && t.cfg == s.cfg && t.seed == s.seed
    && |s.attempts| <= |t.attempts|
    && (forall i | 0 <= i < |s.attempts| :: Later(s.attempts[i], t.attempts[i]))
    && (forall k | k in s.table :: k in t.table && t.table[k] == s.table[k])
    && (forall u :: TopId(s, u) <= TopId(t, u))
    && (forall u | u in s.clients :: u in t.clients && s.clients[u].last <= t.clients[u].last)
    && s.acks <= t.acks
    && s.pushes <= t.pushes
  }

  /** A step of one attempt that only adds rows and only raises granted ids. */
  lemma OneAttemptEvolves(s: State, i: nat, e: Effect)
    requires i < |s.attempts| && Later(s.attempts[i], e.attempt)
    requires s.acks <= e.acks && s.pushes <= e.pushes
    requires forall k | k in s.table :: k in e.table && e.table[k] == s.table[k]
    requires forall u :: TopId(s, u) <= IdGen.Top(e.idgen.log, u)
    ensures Evolves(s, Apply(s, i, e))
  {
    var t := Apply(s, i, e);
    forall j | 0 <= j < |s.attempts| ensures Later(s.attempts[j], t.attempts[j]) {
      if j != i {
        assert t.attempts[j] == s.attempts[j];
      }
    }
  }

  // ----- Id grants.

  lemma AppendedId(a: Attempt, out: IdGen.Outcome, now: int)
    requires |a.ids| < |a.request|
    ensures var b := AfterGrant(a, out, now);
            b.ids == (if out.Granted? then a.ids + [out.first] else a.ids)
            && b == a.(ids := b.ids, msgTime := b.msgTime, pc := b.pc)
            && (out.StorageError? ==> b.pc == Dropped)
            && (out.Granted? ==> b.pc == if |b.ids| == |b.request| then Save else a.pc)
  {
  }

  /** What a step does to the id generator: a grant, a crash, or nothing. */
  lemma NextIdGen(s: State, act: Action) returns (op: Option<IdGen.Op>)
    requires s.cfg.block >= 1 && Enabled(s, act)
    ensures Next(s, act).idgen == if op.None? then s.idgen else IdGen.Exec(s.cfg, s.idgen, op.value)
    ensures op.Some? ==> IdGen.OpOk(op.value)
    ensures op == if act.RestartIdGen? then Some(IdGen.Crash)
                  else if act.Serve? && act.move.GrantId? then Some(IdGrant(s.attempts[act.i], act.move.disk))
                  else None
  {
    op := if act.RestartIdGen? then Some(IdGen.Crash)
          else if act.Serve? && act.move.GrantId? then Some(IdGrant(s.attempts[act.i], act.move.disk))
          else None;
  }

  lemma IdGenKept(s: State, act: Action)
    requires s.cfg.block >= 1 && IdGen.NonNegative(s.idgen.st) && Enabled(s, act)
    ensures IdGen.NonNegative(Next(s, act).idgen.st)
  {
    var op := NextIdGen(s, act);
    if op.Some? {
      IdGen.ExecKeepsNonNegative(s.cfg, s.idgen, op.value);
    }
  }

  // ----- Every step evolves.

  predicate SameCore(a: Attempt, b: Attempt) {
    && b.msg == a.msg && b.request == a.request && b.ids == a.ids && b.msgTime == a.msgTime && b.saved == a.saved
  }

  /** Moves that touch no request, no id and no row. */
  predicate IsQuiet(move: Move) {
    !move.ListIds? && !move.GrantId? && !move.SavePrivate? && !move.SaveGroupRow?
  }

  lemma QuietMove(s: State, i: nat, move: Move)
    requires s.cfg.block >= 1 && i < |s.attempts| && Ready(s, s.attempts[i], move) && IsQuiet(move)
    requires Shape(s.attempts[i])
    ensures var e := Perform(s, i, move);
            && SameCore(s.attempts[i], e.attempt)
            && Later(s.attempts[i], e.attempt)
            && e.table == s.table && e.idgen == s.idgen
            && s.acks <= e.acks && s.pushes <= e.pushes
  {
  }

  lemma SaveGrowsTable(s: State, i: nat, move: Move)
    requires s.cfg.block >= 1 && i < |s.attempts| && Ready(s, s.attempts[i], move)
    requires move.SavePrivate? || move.SaveGroupRow?
    requires Shape(s.attempts[i])
    ensures var e := Perform(s, i, move);
            && Later(s.attempts[i], e.attempt)
            && (forall k | k in s.table :: k in e.table && e.table[k] == s.table[k])
            && e == Only(s, e.attempt).(table := e.table)
  {
  }

  lemma RequestMove(s: State, i: nat, move: Move)
    requires s.cfg.block >= 1 && i < |s.attempts| && Ready(s, s.attempts[i], move)
    requires move.ListIds? || move.GrantId?
    requires Shape(s.attempts[i])
    ensures var e := Perform(s, i, move);
            && Later(s.attempts[i], e.attempt)
            && e == Only(s, e.attempt).(idgen := e.idgen)
            && (move.ListIds? ==> e.idgen == s.idgen)
  {
  }

  lemma OtherMovesGrantNothing(s: State, i: nat, move: Move)
    requires s.cfg.block >= 1 && i < |s.attempts| && Ready(s, s.attempts[i], move) && !move.GrantId?
    requires Shape(s.attempts[i])
    ensures var a, b := s.attempts[i], Perform(s, i, move).attempt;
            b.msg == a.msg && b.ids == a.ids && (a.ids != [] ==> b.request == a.request)
  {
  }

  lemma MoveEvolves(s: State, i: nat, move: Move)
    requires s.cfg.block >= 1 && Enabled(s, Serve(i, move)) && Shape(s.attempts[i])
    ensures Evolves(s, Apply(s, i, Perform(s, i, move)))
  {
    if IsQuiet(move) {
      QuietMove(s, i, move);
    } else if move.SavePrivate? || move.SaveGroupRow? {
      SaveGrowsTable(s, i, move);
    } else {
      RequestMove(s, i, move);
      if move.GrantId? {
        forall u ensures TopId(s, u) <= IdGen.Top(Perform(s, i, move).idgen.log, u) {
          IdGen.TopNeverFalls(s.cfg, s.idgen, IdGrant(s.attempts[i], move.disk), u);
        }
      }
    }
    OneAttemptEvolves(s, i, Perform(s, i, move));
  }

  /** Nothing that was stored, granted, acknowledged or pushed is ever undone. */
  lemma StepEvolves(s: State, act: Action)
    requires s.cfg.block >= 1 && Enabled(s, act)
    requires forall i | 0 <= i < |s.attempts| :: Shape(s.attempts[i])
    requires forall u | u in s.clients :: ClientOk(s, u)
    ensures Evolves(s, Next(s, act))
  {
    if act.Serve? {
      MoveEvolves(s, act.i, act.move);
    } else {
      var t := Next(s, act);
      forall j | 0 <= j < |s.attempts| ensures Later(s.attempts[j], t.attempts[j]) {
        assert t.attempts[j] == s.attempts[j];
      }
    }
  }

  // ----- Facts about one attempt survive every step of the others.

  lemma WholeSurvives(s: State, t: State, u: UserId, time: int)
    requires Evolves(s, t) && Whole(s, u, time)
    requires forall i | 0 <= i < |s.attempts| :: Shape(s.attempts[i])
    ensures Whole(t, u, time)
  {
    var i :| 0 <= i < |s.attempts| && SameMsg(s.attempts[i], u, time) && Complete(s.attempts[i]);
    assert Later(s.attempts[i], t.attempts[i]);
  }

  lemma HitSurvives(s: State, t: State, a: Attempt)
    requires Evolves(s, t) && HitOk(s, a)
    requires forall i | 0 <= i < |s.attempts| :: Shape(s.attempts[i])
    ensures HitOk(t, a)
  {
    if a.pc.Duplicate? && a.pc.via == Cache {
      WholeSurvives(s, t, a.msg.userId, a.msg.clientTime);
    }
  }

  lemma AttemptSurvives(s: State, t: State, a: Attempt)
    requires Evolves(s, t) && AttemptOk(s, a)
    requires forall i | 0 <= i < |s.attempts| :: Shape(s.attempts[i])
    ensures AttemptOk(t, a)
  {
    HitSurvives(s, t, a);
  }

  // ----- The attempt that moves.

  ghost predicate AllOk(s: State) {
    forall i | 0 <= i < |s.attempts| :: AttemptOk(s, s.attempts[i])
  }

  lemma SameRowsStored(s: State, a: Attempt, b: Attempt)
    requires RowsStored(s, a) && Shape(a)
    requires b.msg == a.msg && b.saved == a.saved
    requires a.saved > 0 ==> b.request == a.request && b.ids == a.ids && b.msgTime == a.msgTime
    ensures RowsStored(s, b)
  {
    forall k | 0 <= k < b.saved && k < |b.request| && k < |b.ids|
      ensures RowKey(b, k) in s.table && s.table[RowKey(b, k)] == AttemptRow(b, k)
    {
      assert RowKey(a, k) == RowKey(b, k) && AttemptRow(a, k) == AttemptRow(b, k);
    }
  }

  lemma QuietMoveShape(s: State, i: nat, move: Move)
    requires s.cfg.block >= 1 && i < |s.attempts| && Ready(s, s.attempts[i], move) && IsQuiet(move)
    requires Shape(s.attempts[i])
    ensures Shape(Perform(s, i, move).attempt)
  {
  }

  lemma QuietMoveHit(s: State, i: nat, move: Move)
    requires s.cfg.block >= 1 && i < |s.attempts| && Ready(s, s.attempts[i], move) && IsQuiet(move)
    requires HitOk(s, s.attempts[i]) && NewerThanSeed(s, s.attempts[i])
    requires forall u | u in s.cache :: CacheOk(s, u)
    ensures HitOk(s, Perform(s, i, move).attempt)
  {
    var a := s.attempts[i];
    if move.ReadCache? && a.msg.userId in s.cache {
      assert CacheOk(s, a.msg.userId);
    }
  }

  lemma QuietMoveKeepsAttempt(s: State, i: nat, move: Move)
    requires s.cfg.block >= 1 && i < |s.attempts| && Ready(s, s.attempts[i], move) && IsQuiet(move)
    requires AttemptOk(s, s.attempts[i])
    requires forall u | u in s.cache :: CacheOk(s, u)
    ensures AttemptOk(s, Perform(s, i, move).attempt)
  {
    QuietMove(s, i, move);
    QuietMoveShape(s, i, move);
    QuietMoveHit(s, i, move);
    SameRowsStored(s, s.attempts[i], Perform(s, i, move).attempt);
  }

  lemma ListKeepsAttempt(s: State, a: Attempt, members: seq<UserId>)
    requires AttemptOk(s, a) && a.pc.Plan?
    ensures AttemptOk(s, a.(request := IdRequest(a.msg, members), pc := Allocate))
  {
    SameRowsStored(s, a, a.(request := IdRequest(a.msg, members), pc := Allocate));
  }

  lemma GrantKeepsAttempt(s: State, a: Attempt, disk: IdGen.Disk, now: int)
    requires s.cfg.block >= 1 && Ready(s, a, GrantId(disk, now)) && AttemptOk(s, a)
    ensures AttemptOk(s, GrantEffect(s, a, disk, now).attempt)
  {
    AppendedId(a, IdGen.Generate(s.cfg, s.idgen.st, a.request[|a.ids|], 1, disk).out, now);
    SameRowsStored(s, a, GrantEffect(s, a, disk, now).attempt);
  }

  lemma PrivateKeepsAttempt(s: State, i: nat)
    requires i < |s.attempts| && Ready(s, s.attempts[i], SavePrivate) && AttemptOk(s, s.attempts[i])
    ensures Shape(PrivateEffect(s, s.attempts[i]).attempt)
    ensures RowsStored(Apply(s, i, PrivateEffect(s, s.attempts[i])), PrivateEffect(s, s.attempts[i]).attempt)
  {
  }

  lemma GroupRowKeepsAttempt(s: State, i: nat)
    requires i < |s.attempts| && Ready(s, s.attempts[i], SaveGroupRow) && AttemptOk(s, s.attempts[i])
    ensures Shape(GroupRowEffect(s, s.attempts[i]).attempt)
    ensures RowsStored(Apply(s, i, GroupRowEffect(s, s.attempts[i])), GroupRowEffect(s, s.attempts[i]).attempt)
  {
    var a, e := s.attempts[i], GroupRowEffect(s, s.attempts[i]);
    var a' := e.attempt;
    forall k | 0 <= k < a'.saved ensures RowKey(a', k) in e.table && e.table[RowKey(a', k)] == AttemptRow(a', k) {
      assert RowKey(a', k) == RowKey(a, k) && AttemptRow(a', k) == AttemptRow(a, k);
    }
    forall p, q | 0 <= p < q < a'.saved ensures a'.request[p] != a'.request[q] {
      if q == a.saved {
        assert RowKey(a, p) in s.table;
      }
    }
  }

  lemma SaveKeepsAttempt(s: State, i: nat, move: Move)
    requires s.cfg.block >= 1 && i < |s.attempts| && Ready(s, s.attempts[i], move) && AttemptOk(s, s.attempts[i])
    requires move.SavePrivate? || move.SaveGroupRow?
    requires Evolves(s, Apply(s, i, Perform(s, i, move)))
    ensures AttemptOk(Apply(s, i, Perform(s, i, move)), Perform(s, i, move).attempt)
  {
    var a, e := s.attempts[i], Perform(s, i, move);
    var t := Apply(s, i, e);
    if move.SavePrivate? {
      PrivateKeepsAttempt(s, i);
    } else {
      GroupRowKeepsAttempt(s, i);
    }
    assert NewerThanSeed(t, e.attempt) && HitOk(t, e.attempt);
  }

  lemma MovedAttemptOk(s: State, i: nat, move: Move)
    requires s.cfg.block >= 1 && AllOk(s) && Enabled(s, Serve(i, move))
    requires forall u | u in s.cache :: CacheOk(s, u)
    requires Evolves(s, Apply(s, i, Perform(s, i, move)))
    ensures AttemptOk(Apply(s, i, Perform(s, i, move)), Perform(s, i, move).attempt)
  {
    var a, e := s.attempts[i], Perform(s, i, move);
    assert AttemptOk(s, a);
    if move.SavePrivate? || move.SaveGroupRow? {
      SaveKeepsAttempt(s, i, move);
    } else {
      if move.GrantId? {
        GrantKeepsAttempt(s, a, move.disk, move.now);
      } else if move.ListIds? {
        ListKeepsAttempt(s, a, move.members);
      } else {
        QuietMoveKeepsAttempt(s, i, move);
      }
      AttemptSurvives(s, Apply(s, i, e), e.attempt);
    }
  }

  lemma LaunchedAttemptOk(s: State, u: UserId)
    requires s.cfg.block >= 1 && Enabled(s, Launch(u)) && ClientOk(s, u)
    ensures AttemptOk(Next(s, Launch(u)), NewAttempt(s.clients[u].out.value))
  {
  }

  lemma AttemptsKept(s: State, act: Action)
    requires s.cfg.block >= 1 && AllOk(s) && Enabled(s, act)
    requires forall u | u in s.cache :: CacheOk(s, u)
    requires forall u | u in s.clients :: ClientOk(s, u)
    requires Evolves(s, Next(s, act))
    ensures AllOk(Next(s, act))
  {
    var t := Next(s, act);
    forall i | 0 <= i < |t.attempts| ensures AttemptOk(t, t.attempts[i]) {
      if act.Serve? && act.i == i {
        MovedAttemptOk(s, i, act.move);
      } else if i == |s.attempts| {
        LaunchedAttemptOk(s, act.user);
      } else {
        assert t.attempts[i] == s.attempts[i];
        AttemptSurvives(s, t, s.attempts[i]);
      }
    }
  }

  // ----- Clients, seeds and moving on.

  lemma SeedAndClientsKept(s: State, act: Action)
    requires SeedOk(s) && (forall u | u in s.clients :: ClientOk(s, u))
    requires s.cfg.block >= 1 && Enabled(s, act) && Evolves(s, Next(s, act))
    ensures SeedOk(Next(s, act))
    ensures forall u | u in Next(s, act).clients :: ClientOk(Next(s, act), u)
  {
    var t := Next(s, act);
    forall k | k in s.seed && k.sender in t.clients ensures k.clientTime <= t.clients[k.sender].last {
      assert k.sender in s.clients;
    }
    forall u | u in t.clients ensures ClientOk(t, u) {
      assert ClientOk(s, u);
    }
  }

  ghost predicate AllMovedOn(s: State) {
    forall i | 0 <= i < |s.attempts| :: MovedOn(s, s.attempts[i])
  }

  lemma MovedOnKept(s: State, act: Action)
    requires AllMovedOn(s) && AllOk(s) && (forall u | u in s.clients :: ClientOk(s, u))
    requires forall ack | ack in s.acks :: AckOk(s, ack)
    requires s.cfg.block >= 1 && Enabled(s, act) && Evolves(s, Next(s, act))
    ensures AllMovedOn(Next(s, act))
  {
    var t := Next(s, act);
    forall i | 0 <= i < |t.attempts| ensures MovedOn(t, t.attempts[i]) {
      if i == |s.attempts| {
        assert ClientOk(s, act.user);
      } else {
        var a := s.attempts[i];
        assert AttemptOk(s, a) && MovedOn(s, a) && Later(a, t.attempts[i]);
        if act.Receive? {
          assert AckOk(s, act.ack);
        }
      }
    }
  }

  // ----- Pairs of attempts.

  /** Of two attempts of one sender, only the one sending the newest message can still be storing rows. */
  lemma SavingIsNewest(s: State, i: nat, j: nat, move: Move)
    requires PairsOk(s) && i < |s.attempts| && j < |s.attempts|
    requires s.cfg.block >= 1 && Ready(s, s.attempts[i], move) && (move.SavePrivate? || move.SaveGroupRow?)
    requires Shape(s.attempts[i]) && s.attempts[i].saved == 0 && Perform(s, i, move).attempt.saved > 0
    requires s.attempts[i].msg.userId == s.attempts[j].msg.userId
    ensures s.attempts[i].msg.clientTime >= s.attempts[j].msg.clientTime
  {
    assert PairOk(s, s.attempts[i], s.attempts[j]);
    assert RowKey(s.attempts[i], 0) == SenderKey(s.attempts[i].msg);
  }

  /** A move changes no message, so the attempt that moved pairs as before. */
  lemma PairSurvives(s: State, t: State, a: Attempt, b: Attempt, a': Attempt, b': Attempt)
    requires PairOk(s, a, b) && Evolves(s, t) && a'.msg == a.msg && b'.msg == b.msg
    ensures PairOk(t, a', b')
  {
  }

  lemma LaunchPairs(s: State, u: UserId, j: nat)
    requires s.cfg.block >= 1 && Enabled(s, Launch(u)) && j < |s.attempts|
    requires AllMovedOn(s) && AllOk(s) && ClientOk(s, u)
    ensures var t := Next(s, Launch(u));
            PairOk(t, t.attempts[|s.attempts|], s.attempts[j]) && PairOk(t, s.attempts[j], t.attempts[|s.attempts|])
  {
    assert MovedOn(s, s.attempts[j]) && AttemptOk(s, s.attempts[j]);
  }

  lemma PairsKept(s: State, act: Action)
    requires s.cfg.block >= 1 && Enabled(s, act)
    requires AllOk(s) && AllMovedOn(s) && PairsOk(s) && (forall u | u in s.clients :: ClientOk(s, u))
    requires Evolves(s, Next(s, act))
    ensures PairsOk(Next(s, act))
  {
    var t := Next(s, act);
    forall i, j | 0 <= i < |t.attempts| && 0 <= j < |t.attempts| ensures PairOk(t, t.attempts[i], t.attempts[j]) {
      if i == j {
      } else if i == |s.attempts| {
        LaunchPairs(s, act.user, j);
      } else if j == |s.attempts| {
        LaunchPairs(s, act.user, i);
      } else {
        assert Later(s.attempts[i], t.attempts[i]) && Later(s.attempts[j], t.attempts[j]);
        assert PairOk(s, s.attempts[i], s.attempts[j]);
        PairSurvives(s, t, s.attempts[i], s.attempts[j], t.attempts[i], t.attempts[j]);
      }
    }
  }

  // ----- One writer per message.

  lemma SecondWriterIsRefused(s: State, i: nat, j: nat, move: Move)
    requires s.cfg.block >= 1 && Enabled(s, Serve(i, move)) && AllOk(s)
    requires j < |s.attempts| && NotBothWrote(s.attempts[i], s.attempts[j])
    ensures NotBothWrote(Perform(s, i, move).attempt, s.attempts[j])
  {
    var a, b, e := s.attempts[i], s.attempts[j], Perform(s, i, move);
    assert AttemptOk(s, a) && AttemptOk(s, b);
    if IsQuiet(move) {
      QuietMove(s, i, move);
    } else if b.saved > 0 && SameMsg(a, b.msg.userId, b.msg.clientTime) {
      assert RowKey(b, 0) in s.table;
      if move.SavePrivate? || move.SaveGroupRow? {
        assert RowKey(a, 0) == RowKey(b, 0);
      }
    }
  }

  lemma OneWriterKept(s: State, act: Action)
    requires s.cfg.block >= 1 && Enabled(s, act) && AllOk(s) && OneWriter(s)
    ensures OneWriter(Next(s, act))
  {
    var t := Next(s, act);
    forall i, j | 0 <= i < j < |t.attempts| ensures NotBothWrote(t.attempts[i], t.attempts[j]) {
      if j < |s.attempts| {
        assert NotBothWrote(s.attempts[i], s.attempts[j]);
        if act.Serve? && act.i == i {
          SecondWriterIsRefused(s, i, j, act.move);
        } else if act.Serve? && act.i == j {
          SecondWriterIsRefused(s, j, i, act.move);
        }
      }
    }
  }

  // ----- Origins of rows.

  lemma OriginSurvives(s: State, t: State, k: Key)
    requires HasOrigin(s, k) && Evolves(s, t)
    ensures HasOrigin(t, k)
  {
    if k !in s.seed {
      var i: nat, j: nat :| Wrote(s, i, j, k);
      assert Later(s.attempts[i], t.attempts[i]);
      assert Wrote(t, i, j, k);
    }
  }

  lemma NewRowHasOrigin(s: State, i: nat, move: Move, k: Key)
    requires s.cfg.block >= 1 && Enabled(s, Serve(i, move)) && Shape(s.attempts[i])
    requires k in Perform(s, i, move).table && k !in s.table
    ensures HasOrigin(Apply(s, i, Perform(s, i, move)), k)
  {
    var a, e := s.attempts[i], Perform(s, i, move);
    var t := Apply(s, i, e);
    if IsQuiet(move) {
      QuietMove(s, i, move);
    } else if move.SavePrivate? {
      assert Wrote(t, i, 0, RowKey(a, 0)) && Wrote(t, i, 1, RowKey(a, 1));
    } else if move.SaveGroupRow? {
      assert Wrote(t, i, a.saved, RowKey(a, a.saved));
    }
  }

  lemma OriginsKept(s: State, act: Action)
    requires s.cfg.block >= 1 && Enabled(s, act) && AllOk(s) && Evolves(s, Next(s, act))
    requires forall k | k in s.table :: HasOrigin(s, k)
    ensures forall k | k in Next(s, act).table :: HasOrigin(Next(s, act), k)
  {
    var t := Next(s, act);
    forall k | k in t.table ensures HasOrigin(t, k) {
      if k in s.table {
        OriginSurvives(s, t, k);
      } else {
        assert AttemptOk(s, s.attempts[act.i]);
        NewRowHasOrigin(s, act.i, act.move, k);
      }
    }
  }

  // ----- The cache and the replies.

  /** A complete attempt's own first row is what its reply and its cache entry say. */
  lemma CompleteIsStored(s: State, i: nat)
    requires i < |s.attempts| && AttemptOk(s, s.attempts[i]) && Complete(s.attempts[i])
    ensures var a := s.attempts[i];
            StoredAs(s.table, a.msg.userId, LastSend(a.ids[0], a.msg.clientTime, a.msgTime))
            && Whole(s, a.msg.userId, a.msg.clientTime)
  {
    var a := s.attempts[i];
    assert RowKey(a, 0) in s.table && s.table[RowKey(a, 0)] == AttemptRow(a, 0);
    assert SameMsg(a, a.msg.userId, a.msg.clientTime);
  }

  lemma CacheEntrySurvives(s: State, t: State, u: UserId)
    requires u in s.cache && CacheOk(s, u) && AllOk(s) && Evolves(s, t)
    requires u in t.cache && t.cache[u] == s.cache[u]
    ensures CacheOk(t, u)
  {
    if Key(u, u, s.cache[u].clientTime) !in s.seed {
      WholeSurvives(s, t, u, s.cache[u].clientTime);
    }
  }

  /** A move that touches the cache sets the entry of its own sender, to what it has just stored. */
  lemma CacheEntryIsSet(s: State, i: nat, move: Move, u: UserId)
    requires s.cfg.block >= 1 && Enabled(s, Serve(i, move)) && AttemptOk(s, s.attempts[i])
    requires u in Perform(s, i, move).cache
    requires !(u in s.cache && Perform(s, i, move).cache[u] == s.cache[u])
    ensures var a := Perform(s, i, move).attempt;
            && Complete(a) && |a.ids| > 0 && u == a.msg.userId
            && Perform(s, i, move).cache[u] == LastSend(a.ids[0], a.msg.clientTime, a.msgTime)
  {
    assert move.SetCache?;
  }

  lemma OneCacheEntryKept(s: State, act: Action, u: UserId)
    requires s.cfg.block >= 1 && Enabled(s, act) && AllOk(s) && Evolves(s, Next(s, act)) && AllOk(Next(s, act))
    requires (forall v | v in s.cache :: CacheOk(s, v)) && u in Next(s, act).cache
    ensures CacheOk(Next(s, act), u)
  {
    var t := Next(s, act);
    if u in s.cache && t.cache[u] == s.cache[u] {
      assert CacheOk(s, u);
      CacheEntrySurvives(s, t, u);
    } else {
      assert act.Serve?;
      CacheEntryIsSet(s, act.i, act.move, u);
      CompleteIsStored(t, act.i);
    }
  }

  lemma CacheKept(s: State, act: Action)
    requires s.cfg.block >= 1 && Enabled(s, act) && AllOk(s) && Evolves(s, Next(s, act)) && AllOk(Next(s, act))
    requires forall u | u in s.cache :: CacheOk(s, u)
    ensures forall u | u in Next(s, act).cache :: CacheOk(Next(s, act), u)
  {
    forall u | u in Next(s, act).cache ensures CacheOk(Next(s, act), u) {
      OneCacheEntryKept(s, act, u);
    }
  }

  lemma AckSurvives(s: State, t: State, ack: Ack)
    requires AckOk(s, ack) && AllOk(s) && Evolves(s, t)
    ensures AckOk(t, ack)
  {
    if ack.via != Store {
      WholeSurvives(s, t, ack.user, ack.clientTime);
    }
  }

  lemma AcksKept(s: State, act: Action)
    requires s.cfg.block >= 1 && Enabled(s, act) && AllOk(s) && Evolves(s, Next(s, act))
    requires forall ack | ack in s.acks :: AckOk(s, ack)
    ensures forall ack | ack in Next(s, act).acks :: AckOk(Next(s, act), ack)
  {
    var t := Next(s, act);
    forall ack | ack in t.acks ensures AckOk(t, ack) {
      if ack !in s.acks {
        assert act.Serve? && (act.move.ReplyFresh? || act.move.ReplyDuplicate?);
        assert AttemptOk(s, s.attempts[act.i]);
        if act.move.ReplyFresh? {
          CompleteIsStored(s, act.i);
        }
        assert AckOk(s, ack);
      }
      AckSurvives(s, t, ack);
    }
  }

  // ----- Pushes.

  lemma PushSurvives(s: State, t: State, p: Sent)
    requires PushOk(s, p) && AllOk(s) && Evolves(s, t)
    ensures PushOk(t, p)
  {
    var a := s.attempts[p.attempt];
    assert AttemptOk(s, a) && Later(a, t.attempts[p.attempt]);
    assert PlanOf(t.attempts[p.attempt]) == PlanOf(a);
  }

  lemma PushesKept(s: State, act: Action)
    requires s.cfg.block >= 1 && Enabled(s, act) && AllOk(s) && Evolves(s, Next(s, act))
    requires forall n | 0 <= n < |s.pushes| :: PushOk(s, s.pushes[n])
    ensures forall n | 0 <= n < |Next(s, act).pushes| :: PushOk(Next(s, act), Next(s, act).pushes[n])
  {
    var t := Next(s, act);
    forall n | 0 <= n < |t.pushes| ensures PushOk(t, t.pushes[n]) {
      if n < |s.pushes| {
        assert t.pushes[n] == s.pushes[n];
        PushSurvives(s, t, s.pushes[n]);
      } else {
        assert act.Serve? && act.move.PushNext?;
      }
    }
  }

  lemma PushesStayDistinct(s: State, act: Action)
    requires s.cfg.block >= 1 && Enabled(s, act)
    requires (forall n | 0 <= n < |s.pushes| :: PushOk(s, s.pushes[n])) && PushesDistinct(s)
    ensures PushesDistinct(Next(s, act))
  {
    var t := Next(s, act);
    forall m, n | 0 <= m < n < |t.pushes|
      ensures !(t.pushes[m].attempt == t.pushes[n].attempt && t.pushes[m].pos == t.pushes[n].pos)
    {
      assert PushOk(s, s.pushes[m]);
      if n == |s.pushes| {
        assert act.Serve? && act.move.PushNext?;
      }
    }
  }

  // ----- Every reachable state satisfies the invariant.

  lemma StepKeepsInv(s: State, act: Action)
    requires Inv(s) && Enabled(s, act)
    ensures Inv(Next(s, act)) && Evolves(s, Next(s, act))
  {
    StepEvolves(s, act);
    IdGenKept(s, act);
    SeedAndClientsKept(s, act);
    AttemptsKept(s, act);
    MovedOnKept(s, act);
    PairsKept(s, act);
    OneWriterKept(s, act);
    OriginsKept(s, act);
    CacheKept(s, act);
    AcksKept(s, act);
    PushesKept(s, act);
    PushesStayDistinct(s, act);
  }

  lemma EvolvesTransitively(s: State, mid: State, t: State)
    requires Inv(s) && Evolves(s, mid) && Evolves(mid, t)
    ensures Evolves(s, t)
  {
    forall i | 0 <= i < |s.attempts| ensures Later(s.attempts[i], t.attempts[i]) {
      assert AttemptOk(s, s.attempts[i]);
      assert Later(s.attempts[i], mid.attempts[i]) && Later(mid.attempts[i], t.attempts[i]);
    }
    forall u ensures TopId(s, u) <= TopId(t, u) {
      assert TopId(s, u) <= TopId(mid, u);
    }
  }

  /** Whatever is done, the invariant holds and nothing is undone, with either guard. */
  lemma {:induction false} StepsKeepInv(s: State, acts: seq<Action>, t: State)
    requires Inv(s) && Steps(s, acts, t)
    ensures Inv(t) && Evolves(s, t)
    decreases |acts|
  {
    if acts != [] {
      var mid := Next(s, acts[0]);
      StepKeepsInv(s, acts[0]);
      StepsKeepInv(mid, acts[1..], t);
      EvolvesTransitively(s, mid, t);
    }
  }

  lemma ReachableInv(s: State)
    requires Reachable(s)
    ensures Inv(s)
  {
    var s0: State, acts: seq<Action> :| RunTo(s0, acts, s);
    InitInv(s0);
    StepsKeepInv(s0, acts, s);
  }
}
