/** What the access server's table keeps over every interleaving. */
module AccessTheorems {
  import opened Types
  import opened Access

  /** How often closure `c` occurs in `runs`. */
  function Count(runs: seq<Run>, c: Closure): nat {
    if runs == [] then 0
    else Count(runs[..|runs| - 1], c) + if runs[|runs| - 1].closure == c then 1 else 0
  }

  /** 1 if the table still parks `c`, under the user who pulled; a stopped server parks nothing. */
  function Parked(s: State, c: Closure): nat {
    if !s.stopped && c in s.received && IsParkedAt(s.core.table, s.received[c], c) then 1 else 0
  }

  predicate IsParkedAt(table: map<UserId, Data>, u: UserId, c: Closure) {
    u in table && table[u].done == Some(c)
  }

  predicate NullTogether(table: map<UserId, Data>) {
    forall u | u in table :: table[u].msgs == table[u].done && table[u].cntl == table[u].done
  }

  /** A parked closure is one that the entry's user pulled. */
  predicate OwnedBy(received: map<Closure, UserId>, table: map<UserId, Data>) {
    forall u | u in table && table[u].done.Some? ::
      table[u].done.value in received && received[table[u].done.value] == u
  }

  /** A closure is in exactly one place: parked once, due once, or run once; unknown ones are nowhere. */
  predicate InOnePlace(s: State, c: Closure) {
    Parked(s, c) + Count(s.due, c) + Count(s.ran, c) == if c in s.received then 1 else 0
  }

  /** A closure that carries a message was pulled by the message's recipient. */
  predicate PayloadsFit(received: map<Closure, UserId>, runs: seq<Run>) {
    forall k | 0 <= k < |runs| && runs[k].payload.Some? ::
      runs[k].closure in received && received[runs[k].closure] == runs[k].payload.value.userId
  }

  /** Every entry's timer is pending, or firing with its handler not yet past the lock. */
  predicate EntriesTimed(core: Core) {
    forall u | u in core.table ::
      var t := core.table[u].timer;
      t != 0 && ((t in core.pending && core.pending[t] == u) || (t in core.firing && core.firing[t] == u))
  }

  /** Every pending timer is the recorded one of its own user's entry. */
  predicate TimersRecorded(core: Core) {
    forall t | t in core.pending :: core.pending[t] in core.table && core.table[core.pending[t]].timer == t
  }

  predicate TimerIdsOk(core: Core) {
    && core.nextTimer >= 1
    && (forall t | t in core.pending :: 0 < t < core.nextTimer && t !in core.firing)
    && (forall t | t in core.firing :: 0 < t < core.nextTimer)
  }

  ghost predicate Inv(s: State) {
    && NullTogether(s.core.table)
    && OwnedBy(s.received, s.core.table)
    && (forall c :: InOnePlace(s, c))
    && PayloadsFit(s.received, s.due) && PayloadsFit(s.received, s.ran)
    && (!s.stopped ==> EntriesTimed(s.core) && TimersRecorded(s.core) && TimerIdsOk(s.core))
    && (s.stopped ==> s.core.pending == map[])
  }

  // ----- Counting.

  lemma {:induction false} CountAppend(a: seq<Run>, b: seq<Run>, c: Closure)
    ensures Count(a + b, c) == Count(a, c) + Count(b, c)
  {
    if b == [] {
      assert a + b == a;
    } else {
      CountAppend(a, b[..|b| - 1], c);
      assert (a + b)[..|a + b| - 1] == a + b[..|b| - 1];
    }
  }

  lemma CountOne(r: Run, c: Closure)
    ensures Count([r], c) == if r.closure == c then 1 else 0
  {
    assert [r][..0] == [];
  }

  lemma CountTakenOut(runs: seq<Run>, k: nat, c: Closure)
    requires k < |runs|
    ensures Count(runs[..k] + runs[k + 1..], c) + Count([runs[k]], c) == Count(runs, c)
  {
    assert runs == runs[..k] + [runs[k]] + runs[k + 1..];
    CountAppend(runs[..k] + [runs[k]], runs[k + 1..], c);
    CountAppend(runs[..k], [runs[k]], c);
    CountAppend(runs[..k], runs[k + 1..], c);
  }

  // ----- What an operation moves.

  /** The effect takes out of the table exactly what it will run, and parks at most `added`. */
  predicate Conserves(received: map<Closure, UserId>, core: Core, e: Effect, added: Option<Closure>, c: Closure) {
    c in received ==>
      var u := received[c];
      (if IsParkedAt(e.core.table, u, c) then 1 else 0) + Count(e.runs, c)
      == (if IsParkedAt(core.table, u, c) then 1 else 0) + if added == Some(c) then 1 else 0
  }

  lemma RunsCount(d: Option<Closure>, payload: Option<Msg>, c: Closure)
    ensures Count(Runs(d, payload), c) == if d == Some(c) then 1 else 0
  {
    if d.Some? {
      CountOne(Run(d.value, payload), c);
    }
  }

  lemma PushConserves(received: map<Closure, UserId>, core: Core, u: UserId, n: Closure, c: Closure)
    requires OwnedBy(received, core.table) && n in received && received[n] == u
    requires forall v | v in core.table :: core.table[v].done != Some(n)
    ensures Conserves(received, core, PushClosure(core, u, n), Some(n), c)
  {
    RunsCount(if u in core.table then core.table[u].done else None, None, c);
  }

  lemma ClearConserves(received: map<Closure, UserId>, core: Core, u: UserId, c: Closure)
    requires OwnedBy(received, core.table) && NullTogether(core.table)
    ensures Conserves(received, core, ClearUser(core, u), None, c)
  {
    RunsCount(if u in core.table then core.table[u].done else None, None, c);
  }

  lemma DeliverConserves(received: map<Closure, UserId>, core: Core, m: Msg, c: Closure)
    requires OwnedBy(received, core.table)
    ensures Conserves(received, core, Deliver(core, m), None, c)
  {
    RunsCount(if m.userId in core.table then core.table[m.userId].done else None, Some(m), c);
  }

  // ----- Timers.

  predicate TimersOk(core: Core) {
    EntriesTimed(core) && TimersRecorded(core) && TimerIdsOk(core)
  }

  lemma RestartKeepsTimers(core: Core, u: UserId, n: Closure)
    requires TimersOk(core)
    ensures TimersOk(PushClosure(core, u, n).core) && TimersOk(ResetHeartBeat(core, u).core)
  {
  }

  lemma ClearKeepsTimers(core: Core, u: UserId)
    requires TimersRecorded(core) && TimerIdsOk(core)
    requires forall v | v in core.table && v != u ::
               var t := core.table[v].timer;
               t != 0 && ((t in core.pending && core.pending[t] == v) || (t in core.firing && core.firing[t] == v))
    requires u in core.table && core.table[u].timer in core.pending ==> core.pending[core.table[u].timer] == u
    ensures TimersOk(ClearUser(core, u).core)
  {
  }

  // ----- Preservation.

  /** An operation under the lock: what it takes out it owes, and the rest of the invariant is kept. */
  lemma EffectKeepsInv(s: State, received: map<Closure, UserId>, e: Effect, added: Option<Closure>)
    requires Inv(s) && !s.stopped
    requires forall c | c in s.received :: c in received && received[c] == s.received[c]
    requires forall c | c in received && c !in s.received :: added == Some(c)
    requires added.Some? ==> added.value in received && added.value !in s.received
    requires forall c :: Conserves(received, s.core, e, added, c)
    requires forall c | Count(e.runs, c) > 0 :: c in received
    requires NullTogether(e.core.table) && OwnedBy(received, e.core.table)
    requires PayloadsFit(received, e.runs) && TimersOk(e.core)
    ensures Inv(Apply(s.(received := received), e))
  {
    var t := Apply(s.(received := received), e);
    forall c ensures InOnePlace(t, c) {
      assert InOnePlace(s, c);
      CountAppend(s.due, e.runs, c);
      assert Conserves(received, s.core, e, added, c);
      if added == Some(c) {
        assert !IsParkedAt(s.core.table, received[c], c);
      }
    }
    PayloadsAppend(received, s.due, e.runs);
  }

  lemma PayloadsAppend(received: map<Closure, UserId>, a: seq<Run>, b: seq<Run>)
    requires PayloadsFit(received, a) && PayloadsFit(received, b)
    ensures PayloadsFit(received, a + b)
  {
  }

  lemma CountedAreTaken(d: Option<Closure>, payload: Option<Msg>, c: Closure)
    requires Count(Runs(d, payload), c) > 0
    ensures d == Some(c)
  {
    RunsCount(d, payload, c);
  }

  lemma PullKeepsInv(s: State, u: UserId, n: Closure)
    requires Inv(s) && Enabled(s, Pull(u, n))
    ensures Inv(Next(s, Pull(u, n)))
  {
    var received := s.received[n := u];
    var e := PushClosure(s.core, u, n);
    forall c ensures Conserves(received, s.core, e, Some(n), c) {
      PushConserves(received, s.core, u, n, c);
    }
    forall c | Count(e.runs, c) > 0 ensures c in received {
      CountedAreTaken(if u in s.core.table then s.core.table[u].done else None, None, c);
    }
    RestartKeepsTimers(s.core, u, n);
    EffectKeepsInv(s, received, e, Some(n));
  }

  lemma PushKeepsInv(s: State, m: Msg)
    requires Inv(s) && Enabled(s, Push(m))
    ensures Inv(Next(s, Push(m)))
  {
    var e := Deliver(s.core, m);
    forall c ensures Conserves(s.received, s.core, e, None, c) {
      DeliverConserves(s.received, s.core, m, c);
    }
    forall c | Count(e.runs, c) > 0 ensures c in s.received {
      CountedAreTaken(if m.userId in s.core.table then s.core.table[m.userId].done else None, Some(m), c);
    }
    EffectKeepsInv(s, s.received, e, None);
  }

  lemma BeatKeepsInv(s: State, u: UserId)
    requires Inv(s) && Enabled(s, Beat(u))
    ensures Inv(Next(s, Beat(u)))
  {
    var e := ResetHeartBeat(s.core, u);
    RestartKeepsTimers(s.core, u, 0);
    EffectKeepsInv(s, s.received, e, None);
  }

  lemma HandleKeepsInv(s: State, t: TimerId)
    requires Inv(s) && Enabled(s, Handle(t))
    ensures Inv(Next(s, Handle(t)))
  {
    var u := s.core.firing[t];
    var core := s.core.(firing := s.core.firing - {t});
    var e := ClearUser(core, u);
    forall c ensures Conserves(s.received, s.core, e, None, c) {
      ClearConserves(s.received, core, u, c);
    }
    forall c | Count(e.runs, c) > 0 ensures c in s.received {
      CountedAreTaken(if u in core.table then core.table[u].done else None, None, c);
    }
    ClearKeepsTimers(core, u);
    EffectKeepsInv(s, s.received, e, None);
  }

  lemma FireKeepsInv(s: State, t: TimerId)
    requires Inv(s) && Enabled(s, Fire(t))
    ensures Inv(Next(s, Fire(t)))
  {
    forall c ensures InOnePlace(Next(s, Fire(t)), c) {
      assert InOnePlace(s, c);
    }
  }

  lemma RunDueKeepsInv(s: State, k: nat)
    requires Inv(s) && Enabled(s, RunDue(k))
    ensures Inv(Next(s, RunDue(k)))
  {
    var t := Next(s, RunDue(k));
    forall c ensures InOnePlace(t, c) {
      assert InOnePlace(s, c);
      CountTakenOut(s.due, k, c);
      CountAppend(s.ran, [s.due[k]], c);
    }
    forall j | 0 <= j < |t.due| && t.due[j].payload.Some?
      ensures t.due[j].closure in s.received && s.received[t.due[j].closure] == t.due[j].payload.value.userId
    {
      assert t.due[j] == s.due[if j < k then j else j + 1];
    }
  }

  // ----- Shutdown.

  /** The shutdown loop runs each parked closure of the entries it visits exactly once. */
  lemma {:induction false} ClosedRunsCount(received: map<Closure, UserId>, table: map<UserId, Data>,
                                           order: seq<UserId>, c: Closure)
    requires OwnedBy(received, table) && NullTogether(table)
    requires forall k | 0 <= k < |order| :: order[k] in table
    requires forall j, k | 0 <= j < k < |order| :: order[j] != order[k]
    ensures Count(ClosedRuns(table, order), c)
         == if c in received && IsParkedAt(table, received[c], c) && received[c] in order then 1 else 0
  {
    if order != [] {
      var n := |order| - 1;
      ClosedRunsCount(received, table, order[..n], c);
      RunsCount(table[order[n]].done, None, c);
      var last := if table[order[n]].msgs.Some? then Runs(table[order[n]].done, None) else [];
      CountAppend(ClosedRuns(table, order[..n]), last, c);
    }
  }

  lemma {:induction false} ClosedRunsCarryNothing(table: map<UserId, Data>, order: seq<UserId>, k: nat)
    requires forall j | 0 <= j < |order| :: order[j] in table
    requires k < |ClosedRuns(table, order)|
    ensures ClosedRuns(table, order)[k].payload.None?
  {
    if order != [] && k < |ClosedRuns(table, order[..|order| - 1])| {
      ClosedRunsCarryNothing(table, order[..|order| - 1], k);
    }
  }

  lemma {:induction false} ClosedTimersLeft(core: Core, order: seq<UserId>, t: TimerId)
    requires forall k | 0 <= k < |order| :: order[k] in core.table
    ensures t in ClosedTimers(core, order) ==>
              t in core.pending && forall k | 0 <= k < |order| :: core.table[order[k]].timer == t ==> t == 0
  {
    if order != [] {
      ClosedTimersLeft(core, order[..|order| - 1], t);
    }
  }

  lemma ShutdownKeepsInv(s: State, order: seq<UserId>)
    requires Inv(s) && Enabled(s, Shutdown(order))
    ensures Inv(Next(s, Shutdown(order)))
  {
    var t := Next(s, Shutdown(order));
    forall c ensures InOnePlace(t, c) {
      assert InOnePlace(s, c);
      ClosedRunsCount(s.received, s.core.table, order, c);
      CountAppend(s.ran, ClosedRuns(s.core.table, order), c);
    }
    forall k | 0 <= k < |ClosedRuns(s.core.table, order)| ensures ClosedRuns(s.core.table, order)[k].payload.None? {
      ClosedRunsCarryNothing(s.core.table, order, k);
    }
    PayloadsAppend(s.received, s.ran, ClosedRuns(s.core.table, order));
    forall x ensures x !in t.core.pending {
      ClosedTimersLeft(s.core, order, x);
      if x in t.core.pending {
        var k :| 0 <= k < |order| && order[k] == s.core.pending[x];
        assert false;
      }
    }
    assert t.core.pending == map[];
  }

  lemma StepKeepsInv(s: State, act: Action)
    requires Inv(s) && Enabled(s, act)
    ensures Inv(Next(s, act))
  {
    match act
    case Pull(u, c) => PullKeepsInv(s, u, c);
    case Push(m) => PushKeepsInv(s, m);
    case Beat(u) => BeatKeepsInv(s, u);
    case Fire(t) => FireKeepsInv(s, t);
    case Handle(t) => HandleKeepsInv(s, t);
    case RunDue(k) => RunDueKeepsInv(s, k);
    case Shutdown(order) => ShutdownKeepsInv(s, order);
  }

  lemma {:induction false} AfterInv(acts: seq<Action>)
    requires After(acts).Some?
    ensures Inv(After(acts).value)
  {
    if acts != [] {
      AfterInv(acts[..|acts| - 1]);
      StepKeepsInv(After(acts[..|acts| - 1]).value, acts[|acts| - 1]);
    }
  }

  // ----- The guarantees, for every run.

  /**
   Pull-closure conservation: in every interleaving of pulls, pushes, heartbeats, timeouts and the
   final shutdown, each received pull is parked once, due once or run once, and never two of these.
  */
  lemma {:induction false} PullsAreConserved(acts: seq<Action>, c: Closure)
    requires After(acts).Some?
    ensures var s := After(acts).value;
            Parked(s, c) + Count(s.due, c) + Count(s.ran, c) == if c in s.received then 1 else 0
  {
    AfterInv(acts);
    assert InOnePlace(After(acts).value, c);
  }

  /** After shutdown, once what is due has run, every pull has been answered exactly once. */
  lemma {:induction false} EveryPullIsAnsweredOnce(acts: seq<Action>, c: Closure)
    requires After(acts).Some? && After(acts).value.stopped && After(acts).value.due == []
    ensures Count(After(acts).value.ran, c) == if c in After(acts).value.received then 1 else 0
  {
    PullsAreConserved(acts, c);
  }

  /** An entry's three pointers are null together and belong to a pull of the entry's own user. */
  lemma {:induction false} EntriesHoldOwnPulls(acts: seq<Action>, u: UserId)
    requires After(acts).Some? && u in After(acts).value.core.table
    ensures var s := After(acts).value;
            var d := s.core.table[u];
            && d.done == d.msgs == d.cntl
            && (d.done.Some? ==> d.done.value in s.received && s.received[d.done.value] == u)
  {
    AfterInv(acts);
  }

  /** No message reaches another user's pull. */
  lemma {:induction false} MessagesReachTheirRecipient(acts: seq<Action>, k: nat)
    requires After(acts).Some? && k < |After(acts).value.ran| && After(acts).value.ran[k].payload.Some?
    ensures var s := After(acts).value;
            s.ran[k].closure in s.received && s.received[s.ran[k].closure] == s.ran[k].payload.value.userId
  {
    AfterInv(acts);
  }

  /**
   No orphaned pull and no orphaned timer: every entry's recorded timer is pending or still firing
   for that user, and every pending timer is recorded by its user's entry, also when a cancel loses
   the race with a firing handler.
  */
  lemma {:induction false} NothingIsOrphaned(acts: seq<Action>)
    requires After(acts).Some? && !After(acts).value.stopped
    ensures EntriesTimed(After(acts).value.core) && TimersRecorded(After(acts).value.core)
  {
    AfterInv(acts);
  }

  /**
   When a timer has fired before a new pull arrives, its late handler closes the new pull, without
   a message, and removes the entry together with the pull's own timer.
  */
  lemma LateHandlerClosesFreshPull(s: State, t: TimerId, u: UserId, c: Closure)
    requires Inv(s) && Enabled(s, Pull(u, c)) && t in s.core.firing && s.core.firing[t] == u
    ensures var s1 := Next(s, Pull(u, c));
            && Enabled(s1, Handle(t))
            && var s2 := Next(s1, Handle(t));
               && u !in s2.core.table && s.core.nextTimer !in s2.core.pending
               && |s2.due| > 0 && s2.due[|s2.due| - 1] == Run(c, None)
  {
  }
}
