/**
 The access server's table of parked pulls: one entry per user with a parked closure and a
 heartbeat timer, changed under a bucket lock while timer handlers may already be firing.
*/
module Access {
  import opened Types

  /** A pull call waiting for its closure to run; each call is a token of its own. */
  type Closure = nat
  type TimerId = nat

  /** `timer` is 0 when there is none. The three pointers name the call they belong to. */
  datatype Data = Data(done: Option<Closure>, msgs: Option<Closure>, cntl: Option<Closure>, timer: TimerId)

  const NO_PULL := Data(None, None, None, 0)

  /** A closure taken out of the table, with the message appended to its reply, if any. */
  datatype Run = Run(closure: Closure, payload: Option<Msg>)

  /** The table and the timer thread: a fired timer's handler runs later, and cannot be cancelled. */
  datatype Core = Core(table: map<UserId, Data>, pending: map<TimerId, UserId>, firing: map<TimerId, UserId>,
                       nextTimer: TimerId)

  /** What an operation under the lock leaves, and the closures it runs after unlocking. */
  datatype Effect = Effect(core: Core, runs: seq<Run>)

  function Runs(c: Option<Closure>, payload: Option<Msg>): seq<Run> {
    if c.Some? then [Run(c.value, payload)] else []
  }

  /** bthread_timer_del: removes only a timer that has not fired. */
  function TimerDel(core: Core, t: TimerId): Core {
    core.(pending := core.pending - {t})
  }

  /** bthread_timer_add: a timer id never used before. */
  function TimerAdd(core: Core, u: UserId): Core {
    core.(pending := core.pending[core.nextTimer := u], nextTimer := core.nextTimer + 1)
  }

  /** PushClosureAndReply: park a pull, release the one parked before, restart the timer. */
  function PushClosure(core: Core, u: UserId, c: Closure): Effect {
    var entry := if u in core.table then core.table[u] else NO_PULL;
    var core1 := if entry.timer != 0 then TimerDel(core, entry.timer) else core;
    Effect(TimerAdd(core1, u).(table := core.table[u := Data(Some(c), Some(c), Some(c), core.nextTimer)]),
           Runs(entry.done, None))
  }

  /** ResetHeartBeatTimer: restart the timer, creating an entry without a pull if there is none. */
  function ResetHeartBeat(core: Core, u: UserId): Effect {
    var entry := if u in core.table then core.table[u] else NO_PULL;
    var core1 := if entry.timer != 0 then TimerDel(core, entry.timer) else core;
    Effect(TimerAdd(core1, u).(table := core.table[u := entry.(timer := core.nextTimer)]), [])
  }

  /** ClearUserData: drop the entry, cancel its timer, run its closure. */
  function ClearUser(core: Core, u: UserId): Effect {
    if u !in core.table then Effect(core, [])
    else
      var entry := core.table[u];
      var core1 := if entry.timer != 0 then TimerDel(core, entry.timer) else core;
      Effect(core1.(table := core.table - {u}), if entry.msgs.Some? then Runs(entry.done, None) else [])
  }

  /** SendtoAccess: take the parked pull, answer it with the message, keep the entry and its timer. */
  function Deliver(core: Core, m: Msg): Effect {
    var u := m.userId;
    if u !in core.table then Effect(core, [])
    else
      Effect(core.(table := core.table[u := Data(None, None, None, core.table[u].timer)]),
             Runs(core.table[u].done, Some(m)))
  }

  /** The shutdown loop over the entries in iteration order. */
  function ClosedRuns(table: map<UserId, Data>, order: seq<UserId>): seq<Run>
    requires forall k | 0 <= k < |order| :: order[k] in table
  {
    if order == [] then []
    else
      var d := table[order[|order| - 1]];
      ClosedRuns(table, order[..|order| - 1]) + if d.msgs.Some? then Runs(d.done, None) else []
  }

  function ClosedTimers(core: Core, order: seq<UserId>): map<TimerId, UserId>
    requires forall k | 0 <= k < |order| :: order[k] in core.table
  {
    if order == [] then core.pending
    else
      var t := core.table[order[|order| - 1]].timer;
      ClosedTimers(core, order[..|order| - 1]) - if t != 0 then {t} else {}
  }

  /** The loop visits each entry once. */
  predicate Visits(order: seq<UserId>, table: map<UserId, Data>) {
    && (forall k | 0 <= k < |order| :: order[k] in table)
    && (forall u | u in table :: u in order)
    && (forall j, k | 0 <= j < k < |order| :: order[j] != order[k])
  }

  // ----- The step system.

  /**
   `received` records every pull and its user; `due` are closures taken under a lock and not yet
   run; `ran` is the history of closures that ran.
  */
  datatype State = State(core: Core, received: map<Closure, UserId>, due: seq<Run>, ran: seq<Run>, stopped: bool)

  datatype Action =
    | Pull(user: UserId, closure: Closure)
    | Push(m: Msg)
    | Beat(user: UserId)
    | Fire(timer: TimerId)
    | Handle(timer: TimerId)
    | RunDue(k: nat)
    | Shutdown(order: seq<UserId>)

  const START := State(Core(map[], map[], map[], 1), map[], [], [], false)

  predicate Enabled(s: State, act: Action) {
    match act
    case RunDue(k) => k < |s.due|
    case Pull(u, c) => !s.stopped && c !in s.received
    case Push(m) => !s.stopped
    case Beat(u) => !s.stopped
    case Fire(t) => !s.stopped && t in s.core.pending
    case Handle(t) => !s.stopped && t in s.core.firing
    case Shutdown(order) => !s.stopped && Visits(order, s.core.table)
  }

  function Apply(s: State, e: Effect): State {
    s.(core := e.core, due := s.due + e.runs)
  }

  function Next(s: State, act: Action): State
    requires Enabled(s, act)
  {
    match act
    case Pull(u, c) => Apply(s.(received := s.received[c := u]), PushClosure(s.core, u, c))
    case Push(m) => Apply(s, Deliver(s.core, m))
    case Beat(u) => Apply(s, ResetHeartBeat(s.core, u))
    case Fire(t) =>
      var u := s.core.pending[t];
      s.(core := s.core.(pending := s.core.pending - {t}, firing := s.core.firing[t := u]))
    case Handle(t) =>
      var u := s.core.firing[t];
      Apply(s, ClearUser(s.core.(firing := s.core.firing - {t}), u))
    case RunDue(k) => s.(due := s.due[..k] + s.due[k + 1..], ran := s.ran + [s.due[k]])
    case Shutdown(order) =>
      s.(core := s.core.(pending := ClosedTimers(s.core, order)),
         ran := s.ran + ClosedRuns(s.core.table, order), stopped := true)
  }

  /** The state after a run from the empty server, if every step of the run is possible. */
  function After(acts: seq<Action>): Option<State> {
    if acts == [] then Some(START)
    else
      var before := After(acts[..|acts| - 1]);
      var act := acts[|acts| - 1];
      if before.Some? && Enabled(before.value, act) then Some(Next(before.value, act)) else None
  }
}
