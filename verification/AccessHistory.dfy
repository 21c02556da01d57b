/**
 The table as a function of what has happened: which pull of a user waits, which timer guards it, and
 which closures have run with which message, read off the run itself and not off the table.
*/
module AccessHistory {
  import opened Types
  import opened Access
  import opened AccessTheorems

  // ----- What one operation does.

  /** The user's timer is a new one, pending; the old one cannot fire any more; nobody else is touched. */
  predicate RestartsTimer(before: Core, after: Core, u: UserId) {
    && u in after.table && after.table[u].timer == before.nextTimer && after.nextTimer == before.nextTimer + 1
    && before.nextTimer !in before.pending && before.nextTimer !in before.firing
    && before.nextTimer in after.pending && after.pending[before.nextTimer] == u
    && (u in before.table ==> before.table[u].timer !in after.pending)
    && after.firing == before.firing
    && after.table - {u} == before.table - {u}
    && (forall t | t in before.pending && !(u in before.table && t == before.table[u].timer) ::
          t in after.pending && after.pending[t] == before.pending[t])
  }

  lemma BeatRestartsTimer(core: Core, u: UserId)
    requires TimersOk(core)
    ensures var e := ResetHeartBeat(core, u);
            && RestartsTimer(core, e.core, u) && e.runs == []
            && e.core.table[u].(timer := 0) == (if u in core.table then core.table[u] else NO_PULL).(timer := 0)
  {
  }

  lemma PullRestartsTimer(core: Core, u: UserId, c: Closure)
    requires TimersOk(core)
    ensures var e := PushClosure(core, u, c);
            && RestartsTimer(core, e.core, u)
            && e.core.table[u].done == e.core.table[u].msgs == e.core.table[u].cntl == Some(c)
            && e.runs == if u in core.table && core.table[u].done.Some? then [Run(core.table[u].done.value, None)]
                         else []
  {
  }

  /** The parked pull is answered with the whole message; the user stays, guarded by the same timer. */
  lemma DeliverHandsOver(core: Core, m: Msg)
    requires m.userId in core.table
    ensures var e, u := Deliver(core, m), m.userId;
            && e.core == core.(table := e.core.table) && e.core.table - {u} == core.table - {u}
            && u in e.core.table && e.core.table[u] == NO_PULL.(timer := core.table[u].timer)
            && e.runs == if core.table[u].done.Some? then [Run(core.table[u].done.value, Some(m))] else []
  {
  }

  // ----- Timers: each pull and each beat starts the next one.

  /** The user whose timer the action restarts. */
  function Restarts(act: Action): Option<UserId> {
    match act
    case Pull(u, _) => Some(u)
    case Beat(u) => Some(u)
    case _ => None
  }

  /** How many timers the run has started; the n-th is timer n. */
  function Started(acts: seq<Action>): nat {
    if acts == [] then 0
    else Started(acts[..|acts| - 1]) + if Restarts(acts[|acts| - 1]).Some? then 1 else 0
  }

  /** The timer that the user's latest pull or beat started; 0 if there was none. */
  function LatestTimer(acts: seq<Action>, u: UserId): TimerId {
    if acts == [] then 0
    else if Restarts(acts[|acts| - 1]) == Some(u) then Started(acts)
    else LatestTimer(acts[..|acts| - 1], u)
  }

  /** The user who started timer `t`. */
  function StarterOf(acts: seq<Action>, t: TimerId): Option<UserId> {
    if acts == [] then None
    else if Restarts(acts[|acts| - 1]).Some? && Started(acts) == t then Restarts(acts[|acts| - 1])
    else StarterOf(acts[..|acts| - 1], t)
  }

  // ----- Pulls: each waits until its user pulls again, is pushed a message or times out.

  /** The user who leaves the table: the one whose fired timer's handler runs. */
  predicate Leaves(acts: seq<Action>, act: Action, u: UserId) {
    act.Handle? && StarterOf(acts, act.timer) == Some(u)
  }

  /** The user has pulled or beaten and has not timed out since. */
  predicate Present(acts: seq<Action>, u: UserId) {
    if acts == [] then false
    else
      var before, act := acts[..|acts| - 1], acts[|acts| - 1];
      Restarts(act) == Some(u) || (!Leaves(before, act, u) && Present(before, u))
  }

  /** The user's latest pull, unless a push or a timeout has taken it. */
  function Waiting(acts: seq<Action>, u: UserId): Option<Closure> {
    if acts == [] then None
    else
      var before, act := acts[..|acts| - 1], acts[|acts| - 1];
      if act.Pull? && act.user == u then Some(act.closure)
      else if (act.Push? && act.m.userId == u) || Leaves(before, act, u) then None
      else Waiting(before, u)
  }

  /** What the last action of a run makes run: the waiting pull it takes, with the message if it is a push. */
  function Answered(before: seq<Action>, act: Action): seq<Run> {
    match act
    case Pull(u, _) => Runs(Waiting(before, u), None)
    case Push(m) => Runs(Waiting(before, m.userId), Some(m))
    case Handle(t) =>
      var u := StarterOf(before, t);
      if u.Some? then Runs(Waiting(before, u.value), None) else []
    case _ => []
  }

  function AllAnswered(acts: seq<Action>): seq<Run> {
    if acts == [] then []
    else AllAnswered(acts[..|acts| - 1]) + Answered(acts[..|acts| - 1], acts[|acts| - 1])
  }

  // ----- The table follows the history.

  ghost predicate TimersFollow(s: State, acts: seq<Action>) {
    && s.core.nextTimer == 1 + Started(acts)
    && (forall t | t in s.core.pending :: StarterOf(acts, t) == Some(s.core.pending[t]))
    && (forall t | t in s.core.firing :: StarterOf(acts, t) == Some(s.core.firing[t]))
  }

  predicate EntryFollows(s: State, acts: seq<Action>, u: UserId) {
    && (u in s.core.table <==> Present(acts, u))
    && (u !in s.core.table ==> Waiting(acts, u).None?)
    && (u in s.core.table ==>
          var w := Waiting(acts, u); s.core.table[u] == Data(w, w, w, LatestTimer(acts, u)))
  }

  lemma TimersFollowStep(s: State, acts: seq<Action>, act: Action)
    requires TimersFollow(s, acts) && TimerIdsOk(s.core) && Enabled(s, act) && !act.Shutdown?
    ensures TimersFollow(Next(s, act), acts + [act])
  {
    assert (acts + [act])[..|acts|] == acts;
  }

  lemma TimersFollowShutdown(s: State, acts: seq<Action>, order: seq<UserId>)
    requires TimersFollow(s, acts) && Inv(s) && Enabled(s, Shutdown(order))
    ensures TimersFollow(Next(s, Shutdown(order)), acts + [Shutdown(order)])
  {
    assert (acts + [Shutdown(order)])[..|acts|] == acts;
    StepKeepsInv(s, Shutdown(order));
  }

  lemma EntryFollowsStep(s: State, acts: seq<Action>, act: Action, u: UserId)
    requires TimersFollow(s, acts) && NullTogether(s.core.table) && EntryFollows(s, acts, u) && Enabled(s, act)
    ensures EntryFollows(Next(s, act), acts + [act], u)
  {
    assert (acts + [act])[..|acts|] == acts;
  }

  lemma {:induction false} TableFollows(acts: seq<Action>)
    requires After(acts).Some?
    ensures TimersFollow(After(acts).value, acts)
    ensures forall u :: EntryFollows(After(acts).value, acts, u)
  {
    if acts != [] {
      var before, act := acts[..|acts| - 1], acts[|acts| - 1];
      TableFollows(before);
      AfterInv(before);
      var s := After(before).value;
      assert acts == before + [act];
      if act.Shutdown? {
        TimersFollowShutdown(s, before, act.order);
      } else if s.stopped {
        assert act.RunDue?;
      } else {
        TimersFollowStep(s, before, act);
      }
      forall u ensures EntryFollows(After(acts).value, acts, u) {
        EntryFollowsStep(s, before, act, u);
      }
    }
  }

  /**
   In every run the table holds exactly the users who pulled or beat since they last timed out, each
   with the latest pull that nothing has taken yet and with the timer of its latest pull or beat.
  */
  lemma TableIsHistory(acts: seq<Action>, u: UserId)
    requires After(acts).Some?
    ensures var table := After(acts).value.core.table;
            && (u in table <==> Present(acts, u))
            && (u in table ==>
                  var w := Waiting(acts, u); table[u] == Data(w, w, w, LatestTimer(acts, u)))
  {
    TableFollows(acts);
    assert EntryFollows(After(acts).value, acts, u);
  }

  /** A timer fires only if its user has neither pulled nor beaten since it was started. */
  lemma OnlyLatestTimerFires(acts: seq<Action>, t: TimerId)
    requires After(acts).Some? && Enabled(After(acts).value, Fire(t))
    ensures StarterOf(acts, t).Some? && t == LatestTimer(acts, StarterOf(acts, t).value)
  {
    TableFollows(acts);
    AfterInv(acts);
    var s := After(acts).value;
    assert EntryFollows(s, acts, s.core.pending[t]);
  }

  // ----- What has run, and with which message.

  lemma AnsweredStep(s: State, acts: seq<Action>, act: Action)
    requires TimersFollow(s, acts) && (forall u :: EntryFollows(s, acts, u)) && NullTogether(s.core.table)
    requires Enabled(s, act) && !act.Shutdown? && !act.RunDue?
    ensures Next(s, act).due == s.due + Answered(acts, act) && Next(s, act).ran == s.ran
    ensures Next(s, act).stopped == s.stopped
  {
    match act
    case Pull(u, _) => assert EntryFollows(s, acts, u);
    case Push(m) => assert EntryFollows(s, acts, m.userId);
    case Handle(t) => assert EntryFollows(s, acts, s.core.firing[t]);
    case _ =>
  }

  lemma TakenOut(runs: seq<Run>, k: nat)
    requires k < |runs|
    ensures multiset(runs[..k] + runs[k + 1..]) + multiset{runs[k]} == multiset(runs)
  {
    assert runs == runs[..k] + [runs[k]] + runs[k + 1..];
  }

  lemma ShutdownCarriesNothing(s: State, order: seq<UserId>, r: Run)
    requires Enabled(s, Shutdown(order)) && r.payload.Some?
    ensures multiset(ClosedRuns(s.core.table, order))[r] == 0
  {
    var runs := ClosedRuns(s.core.table, order);
    forall k | 0 <= k < |runs| ensures runs[k].payload.None? {
      ClosedRunsCarryNothing(s.core.table, order, k);
    }
    assert r !in runs;
  }

  /**
   Every message that reaches a waiting pull is delivered with it exactly once, whole, and no pull runs
   with anything else: until the shutdown, what is due or has run is exactly what pushes, later pulls
   and timeouts took out, and the shutdown adds nothing that carries a message.
  */
  lemma {:induction false} DeliveriesAreExact(acts: seq<Action>, r: Run)
    requires After(acts).Some?
    ensures var s := After(acts).value;
            !s.stopped || r.payload.Some? ==>
              multiset(s.due)[r] + multiset(s.ran)[r] == multiset(AllAnswered(acts))[r]
  {
    if acts != [] {
      var before, act := acts[..|acts| - 1], acts[|acts| - 1];
      DeliveriesAreExact(before, r);
      TableFollows(before);
      AfterInv(before);
      var s := After(before).value;
      if act.RunDue? {
        TakenOut(s.due, act.k);
      } else if act.Shutdown? {
        if r.payload.Some? {
          ShutdownCarriesNothing(s, act.order, r);
        }
      } else {
        AnsweredStep(s, before, act);
      }
    }
  }

  /** A message pushed to a user whose pull waits is due with that pull at once, and runs with it alone. */
  lemma PushedMessageIsDelivered(acts: seq<Action>, m: Msg, c: Closure)
    requires After(acts + [Push(m)]).Some? && Waiting(acts, m.userId) == Some(c)
    ensures Run(c, Some(m)) in After(acts + [Push(m)]).value.due
    ensures Count(After(acts + [Push(m)]).value.due, c) == 1 && Count(After(acts + [Push(m)]).value.ran, c) == 0
  {
    var all := acts + [Push(m)];
    assert all[..|acts|] == acts;
    TableFollows(acts);
    AfterInv(acts);
    var s, t := After(acts).value, After(all).value;
    assert EntryFollows(s, acts, m.userId);
    AnsweredStep(s, acts, Push(m));
    assert t.due[|s.due|] == Run(c, Some(m));
    DueIsCounted(t.due, |s.due|);
    PullsAreConserved(all, c);
  }

  lemma {:induction false} DueIsCounted(runs: seq<Run>, k: nat)
    requires k < |runs|
    ensures Count(runs, runs[k].closure) > 0
  {
    if k < |runs| - 1 {
      DueIsCounted(runs[..|runs| - 1], k);
    }
  }
}
