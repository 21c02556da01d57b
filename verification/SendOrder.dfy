/**
 Per-sender order in every mailbox, on top of the invariant: it holds in every run whose restarts of
 the id generator find all granted ids below the durable watermarks, and `OrderGap` shows that this
 condition cannot be dropped.
*/
module SendOrder {
  import opened Types
  import opened Dbproxy
  import opened Logic
  import opened SendProtocol
  import opened SendInvariant
  import opened SendTheorems
  import IdGen

  /** In each mailbox a sender's later message has the larger id. */
  ghost predicate Ordered(s: State) {
    forall k1, k2 | k1 in s.table && k2 in s.table
      && k1.mailbox == k2.mailbox && k1.sender == k2.sender && k1.clientTime < k2.clientTime ::
      s.table[k1].msgId < s.table[k2].msgId
  }

  /** The initial rows are in order, and the next id of every user is above all of the user's ids. */
  ghost predicate StartsInOrder(s: State) {
    IdGen.Ahead(s.idgen) && SeedInOrder(s)
  }

  ghost predicate SeedInOrder(s: State) {
    && (forall k | k in s.seed :: s.seed[k].msgId <= TopId(s, k.mailbox))
    && (forall k1, k2 | k1 in s.seed && k2 in s.seed
          && k1.mailbox == k2.mailbox && k1.sender == k2.sender && k1.clientTime < k2.clientTime ::
          s.seed[k1].msgId < s.seed[k2].msgId)
  }

  /** Where the id generator restarts, every granted id is below its user's watermark. */
  ghost predicate RestartsCovered(s: State, acts: seq<Action>)
    decreases |acts|
  {
    acts != [] && s.cfg.block >= 1 && Enabled(s, acts[0]) ==>
      && (acts[0].RestartIdGen? ==> IdGen.Covered(s.idgen))
      && RestartsCovered(Next(s, acts[0]), acts[1..])
  }

  // ----- The ids of attempts.

  predicate IdsGranted(s: State, a: Attempt) {
    && (forall k | 0 <= k < |a.ids| && k < |a.request| :: a.ids[k] <= TopId(s, a.request[k]))
    && (forall k, x | 0 <= k < |a.ids| && k < |a.request| && x in s.seed && x.mailbox == a.request[k] ::
          s.seed[x].msgId < a.ids[k])
  }

  predicate IdsBefore(a: Attempt, b: Attempt) {
    forall p, q | 0 <= p < |a.ids| && p < |a.request| && 0 <= q < |b.ids| && q < |b.request|
                  && a.request[p] == b.request[q] :: a.ids[p] < b.ids[q]
  }

  /** Once a message has a stored row, every attempt of a later message of its sender has larger ids. */
  predicate PairInOrder(a: Attempt, b: Attempt) {
    a.msg.userId == b.msg.userId && a.msg.clientTime < b.msg.clientTime && a.saved > 0 ==> IdsBefore(a, b)
  }

  ghost predicate AllGranted(s: State) {
    forall i | 0 <= i < |s.attempts| :: IdsGranted(s, s.attempts[i])
  }

  ghost predicate PairsInOrder(s: State) {
    forall i, j | 0 <= i < |s.attempts| && 0 <= j < |s.attempts| :: PairInOrder(s.attempts[i], s.attempts[j])
  }

  ghost predicate OrderInv(s: State) {
    IdGen.Ahead(s.idgen) && SeedInOrder(s) && AllGranted(s) && PairsInOrder(s)
  }

  // ----- What one grant appends.

  /** After a move, an attempt's ids are those it had, or one more, new to its user. */
  predicate AtMostOneNewId(s: State, a: Attempt, b: Attempt) {
    && b.msg == a.msg && (a.ids != [] ==> b.request == a.request)
    && (b.ids == a.ids
        || (b.request == a.request && |a.ids| < |a.request| && |b.ids| == |a.ids| + 1 && b.ids[..|a.ids|] == a.ids
            && TopId(s, a.request[|a.ids|]) < b.ids[|a.ids|]))
  }

  /** The new id, if there is one, is covered by the log of what was granted. */
  predicate NewIdLogged(log: seq<MsgIds>, a: Attempt, b: Attempt) {
    |a.ids| < |b.ids| && |a.ids| < |b.request| ==> b.ids[|a.ids|] <= IdGen.Top(log, b.request[|a.ids|])
  }

  lemma OutcomeAppendsOne(s: State, a: Attempt, out: IdGen.Outcome, now: int, log: seq<MsgIds>)
    requires |a.ids| < |a.request|
    requires out.Granted? ==> TopId(s, a.request[|a.ids|]) < out.first <= IdGen.Top(log, a.request[|a.ids|])
    ensures AtMostOneNewId(s, a, AfterGrant(a, out, now)) && NewIdLogged(log, a, AfterGrant(a, out, now))
  {
    AppendedId(a, out, now);
  }

  lemma GrantAppendsOne(s: State, a: Attempt, disk: IdGen.Disk, now: int)
    requires s.cfg.block >= 1 && IdGen.Ahead(s.idgen) && |a.ids| < |a.request|
    ensures var e := GrantEffect(s, a, disk, now);
            AtMostOneNewId(s, a, e.attempt) && NewIdLogged(e.idgen.log, a, e.attempt)
  {
    var op := IdGrant(a, disk);
    IdGen.GrantStaysAhead(s.cfg, s.idgen, op);
    OutcomeAppendsOne(s, a, IdGen.Generate(s.cfg, s.idgen.st, op.user, 1, disk).out, now,
                      IdGen.Exec(s.cfg, s.idgen, op).log);
  }

  lemma MoveGrantsAtMostOne(s: State, i: nat, move: Move)
    requires Inv(s) && IdGen.Ahead(s.idgen) && Enabled(s, Serve(i, move))
    ensures var e := Perform(s, i, move);
            AtMostOneNewId(s, s.attempts[i], e.attempt) && NewIdLogged(e.idgen.log, s.attempts[i], e.attempt)
  {
    assert AttemptOk(s, s.attempts[i]);
    if move.GrantId? {
      GrantAppendsOne(s, s.attempts[i], move.disk, move.now);
    } else {
      OtherMovesGrantNothing(s, i, move);
    }
  }

  lemma AheadKept(s: State, act: Action)
    requires Inv(s) && IdGen.Ahead(s.idgen) && Enabled(s, act)
    requires act.RestartIdGen? ==> IdGen.Covered(s.idgen)
    ensures IdGen.Ahead(Next(s, act).idgen)
  {
    var op := NextIdGen(s, act);
    if op.Some? && op.value.Grant? {
      IdGen.GrantStaysAhead(s.cfg, s.idgen, op.value);
    } else if op.Some? {
      IdGen.CrashStaysAheadExactly(s.idgen);
    }
  }

  lemma SeedInOrderKept(s: State, t: State)
    requires SeedInOrder(s) && Evolves(s, t)
    ensures SeedInOrder(t)
  {
    forall k | k in t.seed ensures t.seed[k].msgId <= TopId(t, k.mailbox) {
      assert TopId(s, k.mailbox) <= TopId(t, k.mailbox);
    }
  }

  lemma IdsGrantedKept(s: State, t: State, a: Attempt, b: Attempt)
    requires SeedInOrder(s) && IdsGranted(s, a) && Evolves(s, t) && AtMostOneNewId(s, a, b)
    requires NewIdLogged(t.idgen.log, a, b)
    ensures IdsGranted(t, b)
  {
    forall k | 0 <= k < |b.ids| && k < |b.request|
      ensures b.ids[k] <= TopId(t, b.request[k])
      ensures forall x | x in s.seed && x.mailbox == b.request[k] :: s.seed[x].msgId < b.ids[k]
    {
      if k < |a.ids| {
        assert b.ids[k] == a.ids[k] && TopId(s, a.request[k]) <= TopId(t, a.request[k]);
      }
    }
  }

  lemma AllGrantedKept(s: State, act: Action)
    requires Inv(s) && OrderInv(s) && Enabled(s, act) && Evolves(s, Next(s, act))
    ensures AllGranted(Next(s, act))
  {
    var t := Next(s, act);
    forall i | 0 <= i < |t.attempts| ensures IdsGranted(t, t.attempts[i]) {
      if i < |s.attempts| {
        if act.Serve? && act.i == i {
          MoveGrantsAtMostOne(s, i, act.move);
        } else {
          assert t.attempts[i] == s.attempts[i];
        }
        IdsGrantedKept(s, t, s.attempts[i], t.attempts[i]);
      }
    }
  }

  // ----- Pairs of attempts.

  /** A new id comes after all ids the other attempt has. */
  lemma NewIdComesLater(s: State, a: Attempt, b: Attempt, b': Attempt)
    requires IdsGranted(s, a) && IdsBefore(a, b) && AtMostOneNewId(s, b, b')
    ensures IdsBefore(a, b')
  {
    forall p, q | 0 <= p < |a.ids| && p < |a.request| && 0 <= q < |b'.ids| && q < |b'.request|
                  && a.request[p] == b'.request[q]
      ensures a.ids[p] < b'.ids[q]
    {
      if q < |b.ids| {
        assert b'.ids[q] == b.ids[q];
      } else {
        assert a.ids[p] <= TopId(s, a.request[p]);
      }
    }
  }

  lemma OnlySavesStore(s: State, i: nat, move: Move)
    requires s.cfg.block >= 1 && i < |s.attempts| && Ready(s, s.attempts[i], move) && Shape(s.attempts[i])
    requires Perform(s, i, move).attempt.saved > s.attempts[i].saved
    ensures move.SavePrivate? || move.SaveGroupRow?
  {
  }

  /** The pair (i, j) after a move of attempt i: it stores its first row only if it is the newest. */
  lemma EarlierMoves(s: State, i: nat, j: nat, move: Move)
    requires Inv(s) && PairsInOrder(s) && Enabled(s, Serve(i, move)) && j < |s.attempts| && i != j
    requires Evolves(s, Apply(s, i, Perform(s, i, move)))
    ensures PairInOrder(Perform(s, i, move).attempt, s.attempts[j])
  {
    var a, b, a' := s.attempts[i], s.attempts[j], Perform(s, i, move).attempt;
    assert AttemptOk(s, a);
    assert Apply(s, i, Perform(s, i, move)).attempts[i] == a';
    if a.saved == 0 && a'.saved > 0 && a.msg.userId == b.msg.userId {
      OnlySavesStore(s, i, move);
      SavingIsNewest(s, i, j, move);
    }
    EarlierPairKept(a, a', b);
  }

  lemma EarlierPairKept(a: Attempt, a': Attempt, b: Attempt)
    requires PairInOrder(a, b) && Later(a, a')
    requires a.saved == 0 && a'.saved > 0 && a.msg.userId == b.msg.userId ==> a.msg.clientTime >= b.msg.clientTime
    ensures PairInOrder(a', b)
  {
  }

  /** The pair (j, i) after a move of attempt i: a new id is above everything granted before. */
  lemma LaterMoves(s: State, i: nat, j: nat, move: Move)
    requires Inv(s) && OrderInv(s) && Enabled(s, Serve(i, move)) && j < |s.attempts| && i != j
    ensures PairInOrder(s.attempts[j], Perform(s, i, move).attempt)
  {
    var a, b := s.attempts[j], s.attempts[i];
    assert PairInOrder(a, b) && IdsGranted(s, a);
    MoveGrantsAtMostOne(s, i, move);
    if a.msg.userId == b.msg.userId && a.msg.clientTime < b.msg.clientTime && a.saved > 0 {
      NewIdComesLater(s, a, b, Perform(s, i, move).attempt);
    }
  }

  lemma OnePairInOrderKept(s: State, act: Action, i: nat, j: nat)
    requires Inv(s) && OrderInv(s) && Enabled(s, act) && Evolves(s, Next(s, act))
    requires i < |Next(s, act).attempts| && j < |Next(s, act).attempts|
    ensures PairInOrder(Next(s, act).attempts[i], Next(s, act).attempts[j])
  {
    if i == j {
    } else if i >= |s.attempts| || j >= |s.attempts| {
      assert act.Launch?;
    } else if act.Serve? && act.i == i {
      EarlierMoves(s, i, j, act.move);
    } else if act.Serve? && act.i == j {
      LaterMoves(s, j, i, act.move);
    } else {
      assert PairInOrder(s.attempts[i], s.attempts[j]);
    }
  }

  lemma PairsInOrderKept(s: State, act: Action)
    requires Inv(s) && OrderInv(s) && Enabled(s, act) && Evolves(s, Next(s, act))
    ensures PairsInOrder(Next(s, act))
  {
    var t := Next(s, act);
    forall i, j | 0 <= i < |t.attempts| && 0 <= j < |t.attempts| ensures PairInOrder(t.attempts[i], t.attempts[j]) {
      OnePairInOrderKept(s, act, i, j);
    }
  }

  // ----- Order.

  lemma StepKeepsOrder(s: State, act: Action)
    requires Inv(s) && OrderInv(s) && Enabled(s, act)
    requires act.RestartIdGen? ==> IdGen.Covered(s.idgen)
    ensures Inv(Next(s, act)) && OrderInv(Next(s, act))
  {
    StepKeepsInv(s, act);
    AheadKept(s, act);
    SeedInOrderKept(s, Next(s, act));
    AllGrantedKept(s, act);
    PairsInOrderKept(s, act);
  }

  lemma {:induction false} StepsKeepOrder(s: State, acts: seq<Action>, t: State)
    requires Inv(s) && OrderInv(s) && Steps(s, acts, t) && RestartsCovered(s, acts)
    ensures Inv(t) && OrderInv(t)
    decreases |acts|
  {
    if acts != [] {
      StepKeepsOrder(s, acts[0]);
      StepsKeepOrder(Next(s, acts[0]), acts[1..], t);
    }
  }

  lemma OrderInvIsOrdered(s: State, k1: Key, k2: Key)
    requires Inv(s) && OrderInv(s) && k1 in s.table && k2 in s.table
    requires k1.mailbox == k2.mailbox && k1.sender == k2.sender && k1.clientTime < k2.clientTime
    ensures s.table[k1].msgId < s.table[k2].msgId
  {
    if k2 in s.seed {
      if k1 !in s.seed {
        var w1, j1 := WriterOf(s, k1);
        assert false;
      }
    } else {
      var w2, j2 := WriterOf(s, k2);
      var b := s.attempts[w2];
      assert IdsGranted(s, b);
      if k1 in s.seed {
        assert s.seed[k1].msgId < b.ids[j2];
      } else {
        var w1, j1 := WriterOf(s, k1);
        assert PairInOrder(s.attempts[w1], b);
        assert s.attempts[w1].ids[j1] < b.ids[j2];
      }
    }
  }

  /**
   Per-sender order in every mailbox: of two stored messages of one sender, the one sent later has
   the larger id, whatever retries, lost replies, cache expiry, overrunning grants and covered
   restarts came between.
  */
  lemma MailboxOrder(s0: State, acts: seq<Action>, s: State)
    requires RunTo(s0, acts, s) && StartsInOrder(s0) && RestartsCovered(s0, acts)
    ensures Ordered(s)
  {
    InitInv(s0);
    StepsKeepOrder(s0, acts, s);
    forall k1, k2 | k1 in s.table && k2 in s.table
                    && k1.mailbox == k2.mailbox && k1.sender == k2.sender && k1.clientTime < k2.clientTime
      ensures s.table[k1].msgId < s.table[k2].msgId
    {
      OrderInvIsOrdered(s, k1, k2);
    }
  }

  // ----- Runs whose restarts are covered.

  /** A run without restarts, the generator overrunning as often as it likes. */
  lemma {:induction false} NoRestartIsCovered(s: State, acts: seq<Action>)
    requires forall k | 0 <= k < |acts| :: !acts[k].RestartIdGen?
    ensures RestartsCovered(s, acts)
    decreases |acts|
  {
    if acts != [] && s.cfg.block >= 1 && Enabled(s, acts[0]) {
      NoRestartIsCovered(Next(s, acts[0]), acts[1..]);
    }
  }

  /** No grant of the run overruns. */
  ghost predicate NeverOverruns(s: State, acts: seq<Action>)
    decreases |acts|
  {
    acts != [] && s.cfg.block >= 1 && Enabled(s, acts[0]) ==>
      && (acts[0].Serve? && acts[0].move.GrantId? ==>
            !IdGen.Overruns(s.cfg, s.idgen.st, IdGrant(s.attempts[acts[0].i], acts[0].move.disk)))
      && NeverOverruns(Next(s, acts[0]), acts[1..])
  }

  lemma ReservationKept(s: State, act: Action)
    requires IdGen.Inv(s.cfg, s.idgen) && Enabled(s, act)
    requires act.Serve? && act.move.GrantId? ==>
               !IdGen.Overruns(s.cfg, s.idgen.st, IdGrant(s.attempts[act.i], act.move.disk))
    ensures IdGen.Inv(s.cfg, Next(s, act).idgen)
  {
    var op := NextIdGen(s, act);
    if op.Some? {
      IdGen.ExecKeepsInv(s.cfg, s.idgen, op.value);
    }
  }

  /** A run that never overruns, restarted wherever it likes. */
  lemma {:induction false} NoOverrunIsCovered(s: State, acts: seq<Action>, t: State)
    requires IdGen.Inv(s.cfg, s.idgen) && Steps(s, acts, t) && NeverOverruns(s, acts)
    ensures RestartsCovered(s, acts) && IdGen.Inv(t.cfg, t.idgen)
    decreases |acts|
  {
    if acts != [] {
      IdGen.InvIsAheadAndCovered(s.cfg, s.idgen);
      ReservationKept(s, acts[0]);
      NoOverrunIsCovered(Next(s, acts[0]), acts[1..], t);
    }
  }

  /** With the repaired guard, every run. */
  lemma {:induction false} RepairedIsCovered(s: State, acts: seq<Action>, t: State)
    requires s.cfg.guard.Repaired? && IdGen.Inv(s.cfg, s.idgen) && Steps(s, acts, t)
    ensures NeverOverruns(s, acts) && RestartsCovered(s, acts)
    decreases |acts|
  {
    if acts != [] {
      IdGen.InvIsAheadAndCovered(s.cfg, s.idgen);
      ReservationKept(s, acts[0]);
      RepairedIsCovered(Next(s, acts[0]), acts[1..], t);
    }
  }
}
