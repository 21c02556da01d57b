/**
 Where the pipeline falls short of its promise, and exactly when it does not: which group messages
 reach everybody, and which retries of a stored message are acknowledged.
*/
module SendLimits {
  import opened Types
  import opened Dbproxy
  import opened Logic
  import opened SendProtocol
  import opened SendInvariant
  import opened SendTheorems
  import IdGen

  // ----- Repetitions on a list of users.

  predicate DistinctTo(request: seq<UserId>, k: nat) {
    forall p, q | 0 <= p < q < k && q < |request| :: request[p] != request[q]
  }

  predicate NoRepeats(request: seq<UserId>) {
    DistinctTo(request, |request|)
  }

  predicate NamedBefore(request: seq<UserId>, k: nat, u: UserId) {
    exists p | 0 <= p < k && p < |request| :: request[p] == u
  }

  predicate AllNamedBefore(request: seq<UserId>, k: nat) {
    forall j | 0 <= j < |request| :: NamedBefore(request, k, request[j])
  }

  lemma AllNamedExactly(request: seq<UserId>, k: nat)
    requires NoRepeats(request) && k <= |request|
    ensures AllNamedBefore(request, k) <==> k == |request|
  {
    if k < |request| {
      assert !NamedBefore(request, k, request[k]);
    } else {
      forall j | 0 <= j < |request| ensures NamedBefore(request, k, request[j]) {}
    }
  }

  /** The first position whose user is named before it, from position `k` on; the length if there is none. */
  function FirstRepeat(request: seq<UserId>, k: nat): (r: nat)
    requires k <= |request|
    ensures k <= r <= |request|
    decreases |request| - k
  {
    if k == |request| || NamedBefore(request, k, request[k]) then k else FirstRepeat(request, k + 1)
  }

  lemma {:induction false} FirstRepeatSkips(request: seq<UserId>, j: nat, k: nat)
    requires j <= k <= |request| && DistinctTo(request, k)
    ensures FirstRepeat(request, j) == FirstRepeat(request, k)
    decreases k - j
  {
    if j < k {
      FirstRepeatSkips(request, j + 1, k);
    }
  }

  lemma {:induction false} FirstRepeatExactly(request: seq<UserId>, k: nat)
    requires k <= |request| && DistinctTo(request, k)
    ensures FirstRepeat(request, k) == |request| <==> NoRepeats(request)
    decreases |request| - k
  {
    if k < |request| && !NamedBefore(request, k, request[k]) {
      FirstRepeatExactly(request, k + 1);
    }
  }

  // ----- Which group messages reach everybody.

  /** The attempt has stored the sender's row of a group message and is about to store another. */
  predicate Storing(s: State, w: nat) {
    w < |s.attempts| && s.attempts[w].pc.Save? && s.attempts[w].msg.msgType.GROUP? && s.attempts[w].saved > 0
  }

  /** The attempt has stored rows and will store no more. */
  predicate Stopped(s: State, w: nat) {
    && w < |s.attempts| && s.attempts[w].saved > 0
    && var pc := s.attempts[w].pc; pc.UpdateCache? || pc.Saved? || pc.Pushing? || pc.Dropped?
  }

  /** How many rows were in when a storage failure cut the save off; the whole list if none did. */
  ghost function CutAt(s: State, acts: seq<Action>, t: State, w: nat): nat
    requires Steps(s, acts, t) && w < |s.attempts|
    decreases |acts|
  {
    if acts == [] then |s.attempts[w].request|
    else if acts[0] == Serve(w, Drop) && s.attempts[w].pc.Save? then s.attempts[w].saved
    else CutAt(Next(s, acts[0]), acts[1..], t, w)
  }

  /** The mailboxes that have the message are those of the users named up to where its save got. */
  lemma ReachedExactlyTheSaved(s: State, w: nat, j: nat)
    requires Inv(s) && w < |s.attempts| && s.attempts[w].saved > 0 && j < |s.attempts[w].request|
    ensures var a := s.attempts[w];
            RowKey(a, j) in s.table <==> NamedBefore(a.request, a.saved, a.request[j])
  {
    var a := s.attempts[w];
    assert AttemptOk(s, a);
    if NamedBefore(a.request, a.saved, a.request[j]) {
      var p :| 0 <= p < a.saved && p < |a.request| && a.request[p] == a.request[j];
      assert RowKey(a, p) == RowKey(a, j);
    }
    if RowKey(a, j) in s.table {
      assert RowKey(a, j) !in s.seed;
      var v, x := WriterOf(s, RowKey(a, j));
      WritersAgree(s, v, w);
      assert a.request[x] == a.request[j];
    }
  }

  lemma ReachedByTheSaved(s: State, w: nat)
    requires Inv(s) && w < |s.attempts| && s.attempts[w].saved > 0
    ensures s.attempts[w].saved <= |s.attempts[w].request|
    ensures ReachedEverybody(s, s.attempts[w]) <==> AllNamedBefore(s.attempts[w].request, s.attempts[w].saved)
  {
    assert AttemptOk(s, s.attempts[w]);
    forall j | 0 <= j < |s.attempts[w].request|
      ensures RowKey(s.attempts[w], j) in s.table
         <==> NamedBefore(s.attempts[w].request, s.attempts[w].saved, s.attempts[w].request[j])
    {
      ReachedExactlyTheSaved(s, w, j);
    }
  }

  lemma StoppedStep(s: State, act: Action, w: nat)
    requires s.cfg.block >= 1 && Enabled(s, act) && Stopped(s, w)
    ensures Stopped(Next(s, act), w)
    ensures Next(s, act).attempts[w].request == s.attempts[w].request
    ensures Next(s, act).attempts[w].saved == s.attempts[w].saved
  {
  }

  lemma {:induction false} StoppedStays(s: State, acts: seq<Action>, t: State, w: nat)
    requires Steps(s, acts, t) && Stopped(s, w)
    ensures Stopped(t, w) && t.attempts[w].saved == s.attempts[w].saved
    ensures t.attempts[w].request == s.attempts[w].request
    ensures CutAt(s, acts, t, w) == |s.attempts[w].request|
    decreases |acts|
  {
    if acts != [] {
      StoppedStep(s, acts[0], w);
      StoppedStays(Next(s, acts[0]), acts[1..], t, w);
    }
  }

  lemma SavedSoFarAreDistinct(s: State, w: nat)
    requires Inv(s) && Storing(s, w)
    ensures s.attempts[w].saved < |s.attempts[w].request| && DistinctTo(s.attempts[w].request, s.attempts[w].saved)
  {
    assert AttemptOk(s, s.attempts[w]);
  }

  lemma StoringUntouched(s: State, act: Action, w: nat)
    requires s.cfg.block >= 1 && Enabled(s, act) && Storing(s, w)
    requires act != Serve(w, SaveGroupRow) && act != Serve(w, Drop)
    ensures w < |Next(s, act).attempts| && Next(s, act).attempts[w] == s.attempts[w]
  {
  }

  lemma StoringRow(s: State, w: nat)
    requires Inv(s) && Storing(s, w) && Enabled(s, Serve(w, SaveGroupRow))
    ensures s.attempts[w].saved < |s.attempts[w].request|
    ensures var a := s.attempts[w];
            GroupRowEffect(s, a).attempt
              == if NamedBefore(a.request, a.saved, a.request[a.saved]) then a.(pc := Dropped)
                 else a.(saved := a.saved + 1, pc := if a.saved + 1 == |a.request| then UpdateCache else Save)
  {
    SavedSoFarAreDistinct(s, w);
    ReachedExactlyTheSaved(s, w, s.attempts[w].saved);
  }

  /** One step of the save: it is cut off, or refused on a repeated user, or stores the next row. */
  lemma StoringStep(s: State, act: Action, w: nat)
    requires Inv(s) && Enabled(s, act) && Storing(s, w)
    ensures var a, b := s.attempts[w], Next(s, act).attempts[w];
            && a.saved < |a.request| && b.request == a.request
            && (if act == Serve(w, SaveGroupRow) && !NamedBefore(a.request, a.saved, a.request[a.saved]) then
                  b.saved == a.saved + 1
                  && (if b.saved == |b.request| then Stopped(Next(s, act), w) else Storing(Next(s, act), w))
                else if act == Serve(w, SaveGroupRow) || act == Serve(w, Drop) then
                  b.saved == a.saved && Stopped(Next(s, act), w)
                else b == a)
  {
    SavedSoFarAreDistinct(s, w);
    if act == Serve(w, SaveGroupRow) {
      StoringRow(s, w);
    } else if act != Serve(w, Drop) {
      StoringUntouched(s, act, w);
    }
  }

  /** A group save stops where a storage failure cuts it off or the list repeats a user, and nowhere else. */
  lemma {:induction false} SaveStopsExactly(s: State, acts: seq<Action>, t: State, w: nat)
    requires Inv(s) && Steps(s, acts, t) && Storing(s, w) && w < |t.attempts| && !t.attempts[w].pc.Save?
    ensures Stopped(t, w) && t.attempts[w].request == s.attempts[w].request
    ensures s.attempts[w].saved <= |s.attempts[w].request|
    ensures t.attempts[w].saved == Min(CutAt(s, acts, t, w), FirstRepeat(s.attempts[w].request, s.attempts[w].saved))
    decreases |acts|
  {
    StoringStep(s, acts[0], w);
    var mid := Next(s, acts[0]);
    StepKeepsInv(s, acts[0]);
    if Stopped(mid, w) {
      StoppedStays(mid, acts[1..], t, w);
    } else {
      SaveStopsExactly(mid, acts[1..], t, w);
    }
  }

  function Min(a: nat, b: nat): nat {
    if a < b then a else b
  }

  lemma SavedAtTheEnd(s: State, acts: seq<Action>, t: State, w: nat)
    requires Reachable(s) && Steps(s, acts, t) && Storing(s, w) && w < |t.attempts| && !t.attempts[w].pc.Save?
    ensures Inv(t) && t.attempts[w].saved > 0 && t.attempts[w].request == s.attempts[w].request
    ensures t.attempts[w].saved == Min(CutAt(s, acts, t, w), FirstRepeat(s.attempts[w].request, 0))
    ensures FirstRepeat(s.attempts[w].request, 0) == |s.attempts[w].request| <==> NoRepeats(s.attempts[w].request)
  {
    ReachableInv(s);
    var a := s.attempts[w];
    SavedSoFarAreDistinct(s, w);
    SaveStopsExactly(s, acts, t, w);
    FirstRepeatSkips(a.request, 0, a.saved);
    FirstRepeatExactly(a.request, a.saved);
    StepsKeepInv(s, acts, t);
  }

  /**
   Exactly which group messages reach everybody, for every run from the first stored row to the end
   of the save: the users named before the first storage failure and before the first repetition
   are those who get it. Without repetitions it reaches everybody if and only if no failure hits the
   save midway, and the save completes if and only if there is neither.
  */
  lemma ReachedEverybodyExactly(s: State, acts: seq<Action>, t: State, w: nat)
    requires Reachable(s) && Steps(s, acts, t) && Storing(s, w) && w < |t.attempts| && !t.attempts[w].pc.Save?
    ensures t.attempts[w].request == s.attempts[w].request
    ensures var request := s.attempts[w].request;
            var stop := Min(CutAt(s, acts, t, w), FirstRepeat(request, 0));
            ReachedEverybody(t, t.attempts[w]) <==> AllNamedBefore(request, stop)
    ensures NoRepeats(s.attempts[w].request) ==>
              (ReachedEverybody(t, t.attempts[w]) <==> CutAt(s, acts, t, w) >= |s.attempts[w].request|)
    ensures Complete(t.attempts[w])
       <==> NoRepeats(s.attempts[w].request) && CutAt(s, acts, t, w) >= |s.attempts[w].request|
  {
    SavedAtTheEnd(s, acts, t, w);
    ReachedByTheSaved(t, w);
    if NoRepeats(t.attempts[w].request) {
      AllNamedExactly(t.attempts[w].request, t.attempts[w].saved);
    }
  }

  lemma DroppedStays(s: State, act: Action, w: nat)
    requires s.cfg.block >= 1 && Enabled(s, act)
    requires w < |s.attempts| && s.attempts[w].pc.Dropped?
    ensures w < |Next(s, act).attempts| && Next(s, act).attempts[w] == s.attempts[w]
  {
  }

  lemma {:induction false} DroppedForGood(s: State, acts: seq<Action>, t: State, w: nat)
    requires Steps(s, acts, t) && w < |s.attempts| && s.attempts[w].pc.Dropped?
    ensures w < |t.attempts| && t.attempts[w] == s.attempts[w]
    decreases |acts|
  {
    if acts != [] {
      DroppedStays(s, acts[0], w);
      DroppedForGood(Next(s, acts[0]), acts[1..], t, w);
    }
  }

  /**
   Once the attempt that stored the sender's row is cut off, the message has reached whom it will
   ever reach: whoever on its list has no row then never gets one, however long the run goes on.
  */
  lemma PartialGroupSaveIsPermanent(s: State, acts: seq<Action>, t: State, w: nat)
    requires Reachable(s) && Steps(s, acts, t)
    requires w < |s.attempts| && s.attempts[w].pc.Dropped? && s.attempts[w].saved > 0
    ensures w < |t.attempts| && t.attempts[w] == s.attempts[w]
    ensures forall j | 0 <= j < |s.attempts[w].request| ::
              RowKey(s.attempts[w], j) in t.table <==> RowKey(s.attempts[w], j) in s.table
    ensures s.attempts[w].saved < |s.attempts[w].request| && NoRepeats(s.attempts[w].request) ==>
              !ReachedEverybody(t, s.attempts[w])
  {
    ReachableInv(s);
    StepsKeepInv(s, acts, t);
    DroppedForGood(s, acts, t, w);
    var a := s.attempts[w];
    forall j | 0 <= j < |a.request| ensures RowKey(a, j) in t.table <==> RowKey(a, j) in s.table {
      ReachedExactlyTheSaved(s, w, j);
      ReachedExactlyTheSaved(t, w, j);
    }
    if a.saved < |a.request| && NoRepeats(a.request) {
      ReachedByTheSaved(t, w);
      AllNamedExactly(a.request, a.saved);
    }
  }

  // ----- A reply although a member has no row.

  const BOB: UserId := 2
  const GREETING := NewMsg(ALICE, 100, GROUP, "hello", 5)

  lemma Take(s: State, act: Action) returns (t: State)
    requires Reachable(s) && s.cfg.block >= 1 && Enabled(s, act)
    ensures Reachable(t) && t == Next(s, act)
  {
    t := Next(s, act);
    NextIsReachable(s, act);
  }

  lemma SubmitAndLaunch(s: State, m: NewMsg) returns (t: State)
    requires Reachable(s) && s.cfg.block >= 1 && Enabled(s, Submit(m))
    ensures Reachable(t)
    ensures t == s.(clients := s.clients[m.userId := Client(m.clientTime, Some(m))],
                    attempts := s.attempts + [NewAttempt(m)])
  {
    var s1 := Take(s, Submit(m));
    t := Take(s1, Launch(m.userId));
  }

  /** A lookup that misses the cache and gets `d` from the store. */
  lemma LookupInStore(s: State, i: nat, d: LastSend) returns (t: State)
    requires Reachable(s) && s.cfg.block >= 1 && i < |s.attempts| && s.attempts[i].pc.Lookup?
    requires s.attempts[i].msg.userId !in s.cache && IsNewest(s.table, s.attempts[i].msg.userId, d)
    ensures Reachable(t)
    ensures t == s.(attempts := s.attempts[i := Decide(s.attempts[i], d, Store)])
  {
    var s1 := MissInCache(s, i);
    t := Take(s1, Serve(i, ReadStore(d)));
    assert t.attempts == s.attempts[i := Decide(s.attempts[i], d, Store)];
  }

  lemma MissInCache(s: State, i: nat) returns (t: State)
    requires Reachable(s) && s.cfg.block >= 1 && i < |s.attempts| && s.attempts[i].pc.Lookup?
    requires s.attempts[i].msg.userId !in s.cache
    ensures Reachable(t) && t == s.(attempts := s.attempts[i := s.attempts[i].(pc := QueryStore)])
  {
    t := Take(s, Serve(i, ReadCache(true)));
  }

  /** Up to the point where the group save is about to insert its first row. */
  lemma ReachesGroupSave(cfg: IdGen.Config) returns (s: State)
    requires cfg.block >= 1
    ensures Reachable(s) && s.cfg == cfg && s.table == map[] && s.cache == map[]
    ensures s.clients == map[ALICE := Client(5, Some(GREETING))]
    ensures |s.attempts| == 1
    ensures var a := s.attempts[0];
            a.msg == GREETING && a.pc == Save && a.request == [ALICE, BOB] && |a.ids| == 2 && a.saved == 0
  {
    var s2 := ReachesPlan(cfg);
    var s3 := AliceAndBobListed(s2);
    s := TwoIdsGranted(s3);
  }

  lemma ReachesPlan(cfg: IdGen.Config) returns (s: State)
    requires cfg.block >= 1
    ensures Reachable(s)
    ensures s == Quiescent(cfg).(clients := map[ALICE := Client(5, Some(GREETING))],
                                 attempts := [NewAttempt(GREETING).(pc := Plan)])
  {
    QuiescentIsInitial(cfg);
    var s1 := SubmitAndLaunch(Quiescent(cfg), GREETING);
    assert s1.attempts == [NewAttempt(GREETING)];
    s := LookupInStore(s1, 0, NOTHING_SENT);
    assert s.attempts == [NewAttempt(GREETING).(pc := Plan)];
  }

  lemma AliceAndBobListed(s: State) returns (t: State)
    requires Reachable(s) && s.cfg.block >= 1 && |s.attempts| == 1
    requires s.attempts[0].pc == Plan && s.attempts[0].msg == GREETING
    ensures Reachable(t)
    ensures t == s.(attempts := [s.attempts[0].(request := [ALICE, BOB], pc := Allocate)])
  {
    t := Take(s, Serve(0, ListIds([ALICE, BOB])));
    assert [ALICE, BOB][..1] == [ALICE] && [ALICE][..0] == [];
    assert Others([ALICE], ALICE) == [];
    assert Others([ALICE, BOB], ALICE) == [BOB];
    assert IdRequest(GREETING, [ALICE, BOB]) == [ALICE, BOB];
    assert t.attempts[0] == s.attempts[0].(request := [ALICE, BOB], pc := Allocate);
  }

  lemma TwoIdsGranted(s5: State) returns (s: State)
    requires Reachable(s5) && |s5.attempts| == 1 && s5.cfg.block >= 1
    requires s5.attempts[0].pc == Allocate && s5.attempts[0].request == [ALICE, BOB]
             && s5.attempts[0].ids == [] && s5.attempts[0].saved == 0
    requires s5.idgen.st == IdGen.State(map[], map[])
    ensures Reachable(s) && s == s5.(attempts := s.attempts, idgen := s.idgen) && |s.attempts| == 1
    ensures var a := s.attempts[0];
            a == s5.attempts[0].(pc := Save, ids := a.ids, msgTime := 7) && |a.ids| == 2
  {
    var s6 := FirstIdGranted(s5);
    s := Take(s6, Serve(0, GrantId(IdGen.DISK_OK, 7)));
  }

  lemma FirstIdGranted(s5: State) returns (s: State)
    requires Reachable(s5) && |s5.attempts| == 1 && s5.cfg.block >= 1
    requires s5.attempts[0].pc == Allocate && s5.attempts[0].request == [ALICE, BOB] && s5.attempts[0].ids == []
    requires s5.idgen.st == IdGen.State(map[], map[])
    ensures Reachable(s) && s == s5.(attempts := s.attempts, idgen := s.idgen) && |s.attempts| == 1
    ensures s.attempts[0] == s5.attempts[0].(ids := s.attempts[0].ids, msgTime := 7) && |s.attempts[0].ids| == 1
    ensures IdGen.Loads(s.idgen.st, BOB)
  {
    s := Take(s5, Serve(0, GrantId(IdGen.DISK_OK, 7)));
  }

  /** The save stores the sender's row and is cut off. */
  lemma SaveIsCutOff(s: State) returns (t: State)
    requires Reachable(s) && s.cfg.block >= 1 && s.table == map[] && |s.attempts| == 1
    requires var a := s.attempts[0];
             a.msg == GREETING && a.pc == Save && a.request == [ALICE, BOB] && |a.ids| == 2 && a.saved == 0
    ensures Reachable(t)
    ensures t == s.(attempts := [s.attempts[0].(saved := 1, pc := Dropped)],
                    table := map[SenderKey(GREETING) := AttemptRow(s.attempts[0], 0)])
  {
    var a := s.attempts[0];
    assert RowKey(a, 0) == SenderKey(GREETING);
    assert GroupRowEffect(s, a)
        == Only(s, a.(saved := 1, pc := Save)).(table := map[SenderKey(GREETING) := AttemptRow(a, 0)]);
    var s1 := Take(s, Serve(0, SaveGroupRow));
    assert s1.attempts == [a.(saved := 1, pc := Save)];
    t := Take(s1, Serve(0, Drop));
    assert t.attempts == [a.(saved := 1, pc := Dropped)];
  }

  /** A run in which a group message is acknowledged from the store although a member has no row. */
  lemma AckedGroupMessageCanMissAMember(cfg: IdGen.Config) returns (s: State, ack: Ack)
    requires cfg.block >= 1
    ensures Reachable(s) && ack in s.acks && ack.via == Store && ack.user == ALICE
    ensures |s.attempts| == 2 && s.attempts[0].request == [ALICE, BOB] && s.attempts[0].saved == 1
    ensures SameMsg(s.attempts[0], ack.user, ack.clientTime) && s.attempts[0].pc.Dropped?
    ensures !ReachedEverybody(s, s.attempts[0])
  {
    var s0 := ReachesGroupSave(cfg);
    var cut := SaveIsCutOff(s0);
    var first := cut.attempts[0];
    var s1 := Take(cut, Launch(ALICE));
    assert s1.attempts == [first, NewAttempt(GREETING)];
    s, ack := RetryIsAcked(s1, AttemptRow(s0.attempts[0], 0));
    assert RowKey(s.attempts[0], 1) !in s.table;
  }

  /** A retry finds the sender's row in the store and is acknowledged with it. */
  lemma RetryIsAcked(s: State, row: Row) returns (t: State, ack: Ack)
    requires Reachable(s) && s.cfg.block >= 1 && |s.attempts| == 2 && s.attempts[1] == NewAttempt(GREETING)
    requires s.cache == map[] && s.table == map[SenderKey(GREETING) := row]
    ensures Reachable(t) && |t.attempts| == 2 && t.attempts[0] == s.attempts[0] && t.table == s.table
    ensures ack in t.acks && ack == Ack(ALICE, 5, row.msgId, row.msgTime, Store)
  {
    var found := LastSend(row.msgId, 5, row.msgTime);
    assert SenderKey(GREETING) in s.table;
    assert !NoneSent(s.table, ALICE) && IsNewest(s.table, ALICE, found);
    var s2 := LookupInStore(s, 1, found);
    assert s2.attempts[1] == NewAttempt(GREETING).(pc := Duplicate(found, Store));
    t := Take(s2, Serve(1, ReplyDuplicate));
    ack := Ack(ALICE, 5, row.msgId, row.msgTime, Store);
  }

  // ----- Retries of a message that is already stored.

  /** A run in which only attempt `i` moves, and no call fails. */
  ghost predicate SoloRun(s: State, moves: seq<Move>, i: nat, t: State) {
    Path(s, i, moves, t) && forall k | 0 <= k < |moves| :: Works(moves[k])
  }

  predicate Works(move: Move) {
    !move.Drop? && (move.GrantId? ==> move.disk == IdGen.DISK_OK)
  }

  lemma SoloFirst(s: State, moves: seq<Move>, i: nat, t: State)
    requires SoloRun(s, moves, i, t) && moves != []
    ensures s.cfg.block >= 1 && i < |s.attempts| && Ready(s, s.attempts[i], moves[0]) && Works(moves[0])
    ensures SoloRun(Apply(s, i, Perform(s, i, moves[0])), moves[1..], i, t)
  {
    PathFirst(s, i, moves, t);
  }

  lemma SoloSplit(s: State, moves: seq<Move>, i: nat, n: nat, t: State) returns (mid: State)
    requires SoloRun(s, moves, i, t) && n <= |moves|
    ensures SoloRun(s, moves[..n], i, mid) && SoloRun(mid, moves[n..], i, t)
  {
    mid := PathSplit(s, i, moves, n, t);
  }

  /** What the lookup of a retry found: the cached entry, or the newest stored row when there is none. */
  ghost predicate Finds(s: State, m: NewMsg, d: LastSend, via: Via) {
    && d.clientTime == m.clientTime != 0
    && (if via.Cache? then m.userId in s.cache && s.cache[m.userId] == d
        else via.Store? && m.userId !in s.cache && IsNewest(s.table, m.userId, d))
  }

  /** How many moves the lookup takes. */
  function LookupMoves(via: Via): nat {
    if via.Cache? then 1 else 2
  }

  /** Where a retry that finds its message is after `k` moves, and what it has said so far. */
  ghost predicate HitPhase(s: State, t: State, i: nat, k: nat, d: LastSend, via: Via) {
    && i < |s.attempts|
    && |t.attempts| == |s.attempts| && t.attempts == s.attempts[i := t.attempts[i]]
    && t == s.(attempts := t.attempts, acks := t.acks)
    && t.attempts[i] == s.attempts[i].(pc := t.attempts[i].pc)
    && t.attempts[i].pc == (if k == 0 then Lookup else if k < LookupMoves(via) then QueryStore else Duplicate(d, via))
    && t.acks == s.acks + if k <= LookupMoves(via) then {}
                          else {Ack(s.attempts[i].msg.userId, d.clientTime, d.msgId, d.msgTime, via)}
  }

  lemma HitStep(s: State, t: State, move: Move, i: nat, k: nat, d: LastSend, via: Via)
    requires HitPhase(s, t, i, k, d, via) && Finds(s, s.attempts[i].msg, d, via)
    requires t.cfg.block >= 1 && Ready(t, t.attempts[i], move) && Works(move)
    requires k == 0 && via.Cache? ==> move == ReadCache(true)
    ensures HitPhase(s, Apply(t, i, Perform(t, i, move)), i, k + 1, d, via)
    ensures k >= LookupMoves(via) ==> move == ReplyDuplicate
  {
    if move.ReadStore? {
      NewestIsUnique(s.table, s.attempts[i].msg.userId, move.found, d);
    }
  }

  lemma {:induction false} HitRun(s: State, mid: State, moves: seq<Move>, t: State, i: nat, k: nat, d: LastSend,
                                  via: Via)
    requires HitPhase(s, mid, i, k, d, via) && Finds(s, s.attempts[i].msg, d, via) && SoloRun(mid, moves, i, t)
    requires k == 0 && via.Cache? && moves != [] ==> moves[0] == ReadCache(true)
    ensures HitPhase(s, t, i, k + |moves|, d, via)
    decreases |moves|
  {
    if moves == [] {
      assert Serves(i, moves) == [];
    } else {
      SoloFirst(mid, moves, i, t);
      HitStep(s, mid, moves[0], i, k, d, via);
      HitRun(s, Apply(mid, i, Perform(mid, i, moves[0])), moves[1..], t, i, k + 1, d, via);
    }
  }

  /**
   Retry completeness: if the sender's newest message is stored and the cache has no entry, a
   failure-free retry of it is acknowledged with the stored id, and changes neither the tables nor
   the id generator.
  */
  lemma RetryAfterExpiryIsAcked(s: State, moves: seq<Move>, i: nat, t: State, d: LastSend)
    requires SoloRun(s, moves, i, t) && i < |s.attempts| && s.attempts[i].pc.Lookup?
    requires s.attempts[i].msg.userId !in s.cache && IsNewest(s.table, s.attempts[i].msg.userId, d)
    requires d.clientTime == s.attempts[i].msg.clientTime != 0
    ensures HitPhase(s, t, i, |moves|, d, Store)
  {
    HitRun(s, s, moves, t, i, 0, d, Store);
  }

  /** Behind a readable entry of its own time a retry is acknowledged from the cache, and changes nothing else. */
  lemma RetryBehindOwnEntryIsAcked(s: State, moves: seq<Move>, i: nat, t: State)
    requires SoloRun(s, moves, i, t) && i < |s.attempts| && s.attempts[i].pc.Lookup?
    requires s.attempts[i].msg.userId in s.cache
    requires s.cache[s.attempts[i].msg.userId].clientTime == s.attempts[i].msg.clientTime != 0
    requires moves != [] ==> moves[0] == ReadCache(true)
    ensures HitPhase(s, t, i, |moves|, s.cache[s.attempts[i].msg.userId], Cache)
  {
    HitRun(s, s, moves, t, i, 0, s.cache[s.attempts[i].msg.userId], Cache);
  }

  /**
   Where a retry that does not find its message is after `k` moves: planned after the first, one id
   more after each further one, and refused its first row after the last. So far it has burned ids only.
  */
  ghost predicate StuckPhase(s: State, t: State, i: nat, k: nat) {
    && i < |s.attempts|
    && |t.attempts| == |s.attempts| && t.attempts == s.attempts[i := t.attempts[i]]
    && t == s.(attempts := t.attempts, idgen := t.idgen)
    && |t.idgen.log| == |s.idgen.log| + |t.attempts[i].ids|
    && StuckAttempt(s.attempts[i].msg, t.attempts[i], k)
  }

  predicate StuckAttempt(m: NewMsg, a: Attempt, k: nat) {
    if k == 0 then a == NewAttempt(m)
    else if k == 1 then a == NewAttempt(m).(pc := Plan)
    else
      && a.msg == m && a.saved == 0
      && |a.request| > 0 && a.request[0] == m.userId && (m.msgType.PRIVATE? ==> |a.request| == 2)
      && |a.ids| == Min(k - 2, |a.request|)
      && k <= |a.request| + 3
      && a.pc == if k - 2 < |a.request| then Allocate else if k - 2 == |a.request| then Save else Dropped
  }

  /** The message is stored, and its retry's lookup is answered by an entry that does not name it. */
  predicate Misses(s: State, m: NewMsg, parsed: bool) {
    && m.clientTime != 0 && SenderKey(m) in s.table
    && m.userId in s.cache && (s.cache[m.userId].clientTime != m.clientTime || !parsed)
  }

  lemma StuckGrant(s: State, t: State, i: nat, k: nat, now: int)
    requires StuckPhase(s, t, i, k) && t.cfg.block >= 1
    requires Ready(t, t.attempts[i], GrantId(IdGen.DISK_OK, now))
    ensures StuckPhase(s, Apply(t, i, GrantEffect(t, t.attempts[i], IdGen.DISK_OK, now)), i, k + 1)
  {
    var a := t.attempts[i];
    AppendedId(a, IdGen.Generate(t.cfg, t.idgen.st, a.request[|a.ids|], 1, IdGen.DISK_OK).out, now);
  }

  lemma StuckStep(s: State, t: State, move: Move, i: nat, k: nat)
    requires StuckPhase(s, t, i, k) && t.cfg.block >= 1 && Ready(t, t.attempts[i], move) && Works(move)
    requires Misses(s, s.attempts[i].msg, k == 0 && move.ReadCache? && move.parsed)
    ensures StuckPhase(s, Apply(t, i, Perform(t, i, move)), i, k + 1)
    ensures !move.ReplyDuplicate? && !move.ReplyFresh?
  {
    if move.GrantId? {
      StuckGrant(s, t, i, k, move.now);
    } else if move.SavePrivate? || move.SaveGroupRow? {
      assert RowKey(t.attempts[i], 0) == SenderKey(t.attempts[i].msg);
    }
  }

  lemma {:induction false} StuckRun(s: State, mid: State, moves: seq<Move>, t: State, i: nat, k: nat)
    requires StuckPhase(s, mid, i, k) && SoloRun(mid, moves, i, t)
    requires Misses(s, s.attempts[i].msg, k == 0 && moves != [] && moves[0] == ReadCache(true))
    ensures StuckPhase(s, t, i, k + |moves|)
    decreases |moves|
  {
    if moves == [] {
      assert Serves(i, moves) == [];
    } else {
      SoloFirst(mid, moves, i, t);
      StuckStep(s, mid, moves[0], i, k);
      StuckRun(s, Apply(mid, i, Perform(mid, i, moves[0])), moves[1..], t, i, k + 1);
    }
  }

  /**
   Behind an entry for another time, or one that does not parse, a failure-free retry of a stored
   message burns one id per user on its list and is then refused its first row: it changes no row and
   no entry and is never acknowledged.
  */
  lemma RetryBehindOldEntryIsRefused(s: State, moves: seq<Move>, i: nat, t: State)
    requires SoloRun(s, moves, i, t) && i < |s.attempts| && s.attempts[i] == NewAttempt(s.attempts[i].msg)
    requires Misses(s, s.attempts[i].msg, moves != [] && moves[0] == ReadCache(true))
    ensures StuckPhase(s, t, i, |moves|)
  {
    StuckRun(s, s, moves, t, i, 0);
  }

  function NextTry(m: NewMsg, k: nat, a: Attempt): Move {
    if k == 0 then ReadCache(false)
    else if k == 1 then ListIds([])
    else if |a.ids| < |a.request| then GrantId(IdGen.DISK_OK, 0)
    else if m.msgType.PRIVATE? then SavePrivate
    else SaveGroupRow
  }

  lemma NextTryIsReady(s: State, t: State, i: nat, k: nat)
    requires StuckPhase(s, t, i, k) && k != |t.attempts[i].request| + 3
    ensures var move := NextTry(t.attempts[i].msg, k, t.attempts[i]);
            Ready(t, t.attempts[i], move) && Works(move) && !(move.ReadCache? && move.parsed)
  {
  }

  /** Such a retry can always go on to its refusal, in exactly three moves more than its list has users. */
  lemma {:induction false} RefusedRetryRunsToItsEnd(s: State, t: State, i: nat, k: nat)
    returns (moves: seq<Move>, end: State)
    requires StuckPhase(s, t, i, k) && Misses(s, s.attempts[i].msg, false) && s.cfg.block >= 1
    ensures SoloRun(t, moves, i, end) && StuckPhase(s, end, i, k + |moves|)
    ensures end.attempts[i].pc.Dropped? && k + |moves| == |end.attempts[i].request| + 3
    decreases if k < 2 then 2 - k else 0, |t.attempts[i].request| + 3 - k
  {
    var a := t.attempts[i];
    if k >= 2 && k == |a.request| + 3 {
      moves, end := [], t;
      NoMoves(t, i);
    } else {
      var move := NextTry(a.msg, k, a);
      NextTryIsReady(s, t, i, k);
      StuckStep(s, t, move, i, k);
      OneMove(t, i, move);
      var next := Apply(t, i, Perform(t, i, move));
      var rest;
      rest, end := RefusedRetryRunsToItsEnd(s, next, i, k + 1);
      PathConcat(t, i, [move], next, rest, end);
      moves := [move] + rest;
    }
  }

  // ----- Exactly which retries are acknowledged.

  predicate Replies(moves: seq<Move>) {
    exists k | 0 <= k < |moves| :: moves[k].ReplyDuplicate? || moves[k].ReplyFresh?
  }

  lemma HitReplies(s: State, moves: seq<Move>, i: nat, t: State, d: LastSend, via: Via)
    requires SoloRun(s, moves, i, t) && i < |s.attempts| && s.attempts[i].pc.Lookup? && |moves| >= 3
    requires Finds(s, s.attempts[i].msg, d, via) && (via.Cache? ==> moves[0] == ReadCache(true))
    ensures Replies(moves) && t.table == s.table && t.cache == s.cache && t.idgen == s.idgen
    ensures t.acks == s.acks + {Ack(s.attempts[i].msg.userId, d.clientTime, d.msgId, d.msgTime, via)}
  {
    HitRun(s, s, moves, t, i, 0, d, via);
    var n := LookupMoves(via);
    var mid := SoloSplit(s, moves, i, n, t);
    HitRun(s, s, moves[..n], mid, i, 0, d, via);
    SoloFirst(mid, moves[n..], i, t);
    HitStep(s, mid, moves[n], i, n, d, via);
  }

  lemma StuckNeverReplies(s: State, moves: seq<Move>, i: nat, t: State)
    requires SoloRun(s, moves, i, t) && i < |s.attempts| && s.attempts[i] == NewAttempt(s.attempts[i].msg)
    requires Misses(s, s.attempts[i].msg, moves != [] && moves[0] == ReadCache(true))
    ensures !Replies(moves) && t.table == s.table && t.cache == s.cache && t.acks == s.acks
  {
    StuckRun(s, s, moves, t, i, 0);
    forall k | 0 <= k < |moves| ensures !moves[k].ReplyDuplicate? && !moves[k].ReplyFresh? {
      var mid := SoloSplit(s, moves, i, k, t);
      StuckRun(s, s, moves[..k], mid, i, 0);
      SoloFirst(mid, moves[k..], i, t);
      StuckStep(s, mid, moves[k], i, k);
    }
  }

  lemma NewestIsStored(s: State, m: NewMsg, d: LastSend)
    requires IsNewest(s.table, m.userId, d) && d.clientTime == m.clientTime != 0
    ensures SenderKey(m) in s.table
  {
  }

  /**
   Exactly which failure-free retries of the sender's newest stored message are acknowledged, in every
   reachable state: those that find no cache entry, or find one of the message's own time that
   parses. The acknowledgement carries the stored id and time; nothing else changes but burned ids.
  */
  lemma RetryIsAckedExactly(s: State, moves: seq<Move>, i: nat, t: State, d: LastSend)
    requires Reachable(s) && SoloRun(s, moves, i, t) && |moves| >= 3
    requires i < |s.attempts| && s.attempts[i] == NewAttempt(s.attempts[i].msg)
    requires IsNewest(s.table, s.attempts[i].msg.userId, d) && d.clientTime == s.attempts[i].msg.clientTime
    ensures var m := s.attempts[i].msg;
            && (Replies(moves) <==>
                  m.userId !in s.cache || (s.cache[m.userId].clientTime == m.clientTime && moves[0] == ReadCache(true)))
            && t.table == s.table && t.cache == s.cache
            && (Replies(moves) ==> t.idgen == s.idgen)
            && t.acks == s.acks + if !Replies(moves) then {}
                                  else {Ack(m.userId, m.clientTime, d.msgId, d.msgTime,
                                            if m.userId in s.cache then Cache else Store)}
  {
    ReachableInv(s);
    var m := s.attempts[i].msg;
    assert AttemptOk(s, s.attempts[i]);
    if m.userId !in s.cache {
      HitReplies(s, moves, i, t, d, Store);
    } else if s.cache[m.userId].clientTime == m.clientTime && moves[0] == ReadCache(true) {
      CacheLagsStore(s, m.userId, d);
      HitReplies(s, moves, i, t, d, Cache);
    } else {
      NewestIsStored(s, m, d);
      StuckNeverReplies(s, moves, i, t);
    }
  }
}
