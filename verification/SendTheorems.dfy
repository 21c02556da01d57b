/** What the send pipeline guarantees in every reachable state, with either guard of the id generator. */
module SendTheorems {
  import opened Types
  import opened Dbproxy
  import opened Logic
  import opened SendProtocol
  import opened SendInvariant
  import IdGen

  /** Whatever is done from a reachable state, with either guard, stays reachable and undoes nothing. */
  lemma StepsStayReachable(s: State, acts: seq<Action>, t: State)
    requires Reachable(s) && Steps(s, acts, t)
    ensures Reachable(t) && Evolves(s, t)
  {
    ReachableInv(s);
    StepsKeepInv(s, acts, t);
    StaysReachable(s, acts, t);
  }

  // ----- A server on which nothing has been sent yet, with one client.

  const ALICE: UserId := 1

  function Quiescent(cfg: IdGen.Config): State {
    State(cfg, map[], map[ALICE := Client(0, None)], [], map[], map[], map[], IdGen.FRESH, {}, [])
  }

  lemma QuiescentIsInitial(cfg: IdGen.Config)
    requires cfg.block >= 1
    ensures Init(Quiescent(cfg)) && Reachable(Quiescent(cfg))
  {
    assert RunTo(Quiescent(cfg), [], Quiescent(cfg));
  }

  // ----- Where rows come from.

  /** Everything stored for one message comes from one attempt. */
  lemma WriterOf(s: State, k: Key) returns (w: nat, j: nat)
    requires Inv(s) && k in s.table && k !in s.seed
    ensures Wrote(s, w, j, k) && AttemptOk(s, s.attempts[w])
    ensures SameMsg(s.attempts[w], k.sender, k.clientTime)
    ensures s.table[k] == AttemptRow(s.attempts[w], j)
  {
    assert HasOrigin(s, k);
    w, j :| Wrote(s, w, j, k);
    assert AttemptOk(s, s.attempts[w]);
    assert RowKey(s.attempts[w], j) in s.table;
  }

  lemma WritersAgree(s: State, v: nat, w: nat)
    requires Inv(s) && v < |s.attempts| && w < |s.attempts|
    requires SameMsg(s.attempts[v], s.attempts[w].msg.userId, s.attempts[w].msg.clientTime)
    requires s.attempts[v].saved > 0 && s.attempts[w].saved > 0
    ensures v == w
  {
    assert v < w ==> NotBothWrote(s.attempts[v], s.attempts[w]);
    assert w < v ==> NotBothWrote(s.attempts[w], s.attempts[v]);
  }

  /**
   Competing retries never mix: all rows of one message come from a single attempt and are exactly
   the first `saved` positions of its user/id list, the sender's own row first.
  */
  lemma RetriesNeverMix(s: State, k: Key) returns (w: nat)
    requires Reachable(s) && k in s.table && k !in s.seed
    ensures w < |s.attempts|
    ensures var a := s.attempts[w];
            && SameMsg(a, k.sender, k.clientTime)
            && 0 < a.saved <= |a.request| == |a.ids|
            && a.request[0] == k.sender
            && (forall j | 0 <= j < a.saved :: RowKey(a, j) in s.table && s.table[RowKey(a, j)] == AttemptRow(a, j))
            && (forall x | x in s.table && x.sender == k.sender && x.clientTime == k.clientTime ::
                  exists j: nat :: Wrote(s, w, j, x))
    ensures Key(k.sender, k.sender, k.clientTime) in s.table
  {
    ReachableInv(s);
    var j0: nat;
    w, j0 := WriterOf(s, k);
    var a := s.attempts[w];
    assert RowKey(a, 0) in s.table;
    forall x | x in s.table && x.sender == k.sender && x.clientTime == k.clientTime
      ensures exists j: nat :: Wrote(s, w, j, x)
    {
      assert x !in s.seed;
      var v, j := WriterOf(s, x);
      WritersAgree(s, v, w);
      assert Wrote(s, w, j, x);
    }
  }

  // ----- Acknowledgements.

  /** Every reply, fresh or deduplicated, carries the id and time of the sender's stored row. */
  lemma AckSoundness(s: State, ack: Ack)
    requires Reachable(s) && ack in s.acks
    ensures var k := Key(ack.user, ack.user, ack.clientTime);
            k in s.table && s.table[k].msgId == ack.msgId && s.table[k].msgTime == ack.msgTime
  {
    ReachableInv(s);
    assert AckOk(s, ack);
  }

  /** Two replies to one message agree, also when they are sent at different times of the run. */
  lemma AcksAgree(s: State, ack1: Ack, ack2: Ack)
    requires Reachable(s) && ack1 in s.acks && ack2 in s.acks
    requires ack1.user == ack2.user && ack1.clientTime == ack2.clientTime
    ensures ack1.msgId == ack2.msgId && ack1.msgTime == ack2.msgTime
  {
    AckSoundness(s, ack1);
    AckSoundness(s, ack2);
  }

  /** Whoever is on the writing attempt's list has the message. */
  predicate ReachedEverybody(s: State, a: Attempt) {
    forall j | 0 <= j < |a.request| :: RowKey(a, j) in s.table
  }

  /**
   No acked loss: a reply from the attempt's own save or from the cache means that one attempt
   stored the message for everybody on its list.
  */
  lemma AckedFromSaveOrCacheIsWhole(s: State, ack: Ack) returns (w: nat)
    requires Reachable(s) && ack in s.acks && ack.via != Store
    ensures w < |s.attempts| && SameMsg(s.attempts[w], ack.user, ack.clientTime)
    ensures Complete(s.attempts[w]) && ReachedEverybody(s, s.attempts[w])
  {
    ReachableInv(s);
    assert AckOk(s, ack);
    w :| 0 <= w < |s.attempts| && SameMsg(s.attempts[w], ack.user, ack.clientTime) && Complete(s.attempts[w]);
    var a := s.attempts[w];
    assert AttemptOk(s, a);
    assert forall j | 0 <= j < |a.request| :: RowKey(a, j) in s.table;
  }

  /** No acked loss, private messages: whatever the reply came from, both copies are stored. */
  lemma AckedPrivateHasBothCopies(s: State, ack: Ack, i: nat)
    requires Reachable(s) && ack in s.acks && i < |s.attempts|
    requires SameMsg(s.attempts[i], ack.user, ack.clientTime) && s.attempts[i].msg.msgType.PRIVATE?
    ensures Key(ack.user, ack.user, ack.clientTime) in s.table
    ensures Key(s.attempts[i].msg.peerId, ack.user, ack.clientTime) in s.table
  {
    ReachableInv(s);
    assert AckOk(s, ack) && AttemptOk(s, s.attempts[i]);
    var k := Key(ack.user, ack.user, ack.clientTime);
    assert k !in s.seed;
    var w, j := WriterOf(s, k);
    var a := s.attempts[w];
    assert PairOk(s, a, s.attempts[i]);
    assert RowKey(a, 1) in s.table;
  }

  /** A client that has moved on to another message left its earlier one stored. */
  lemma MovedOnMeansStored(s: State, i: nat)
    requires Reachable(s) && i < |s.attempts| && !Outstanding(s, s.attempts[i])
    ensures SenderKey(s.attempts[i].msg) in s.table
  {
    ReachableInv(s);
    assert MovedOn(s, s.attempts[i]);
  }

  // ----- The cache.

  /** The cache lags the store but never leads it. */
  lemma CacheLagsStore(s: State, u: UserId, newest: LastSend)
    requires Reachable(s) && u in s.cache && IsNewest(s.table, u, newest)
    ensures StoredAs(s.table, u, s.cache[u])
    ensures s.cache[u].clientTime <= newest.clientTime
    ensures s.cache[u].clientTime == newest.clientTime ==> s.cache[u] == newest
  {
    ReachableInv(s);
    assert CacheOk(s, u);
    assert Key(u, u, s.cache[u].clientTime) in s.table;
  }

  lemma CacheStep(s: State, act: Action, u: UserId)
    requires s.cfg.block >= 1 && Enabled(s, act) && act != Expire(u) && u in s.cache
    ensures u in Next(s, act).cache
    ensures Next(s, act).cache[u] == s.cache[u] || s.cache[u].clientTime < Next(s, act).cache[u].clientTime
  {
  }

  /** Until it expires, a cache entry stays and only moves to newer messages, whatever else is done. */
  lemma {:induction false} CacheOnlyGrows(s: State, acts: seq<Action>, t: State, u: UserId)
    requires Steps(s, acts, t) && u in s.cache
    requires forall k | 0 <= k < |acts| :: acts[k] != Expire(u)
    ensures u in t.cache
    ensures t.cache[u] == s.cache[u] || s.cache[u].clientTime < t.cache[u].clientTime
    decreases |acts|
  {
    if acts != [] {
      CacheStep(s, acts[0], u);
      CacheOnlyGrows(Next(s, acts[0]), acts[1..], t, u);
    }
  }

  /**
   The cache keeps up with the store: once an attempt has run the compare-and-set, the sender's entry
   names that message or a later one, through everything that follows until it expires.
  */
  lemma CacheKeepsUp(s: State, i: nat, acts: seq<Action>, t: State)
    requires s.cfg.block >= 1 && Enabled(s, Serve(i, SetCache)) && Steps(Next(s, Serve(i, SetCache)), acts, t)
    requires forall k | 0 <= k < |acts| :: acts[k] != Expire(s.attempts[i].msg.userId)
    ensures var m := s.attempts[i].msg;
            m.userId in t.cache && t.cache[m.userId].clientTime >= m.clientTime
  {
    CacheOnlyGrows(Next(s, Serve(i, SetCache)), acts, t, s.attempts[i].msg.userId);
  }

  // ----- Pushes.

  /** A group push names the member it is for; the stored row names the group. */
  predicate PushMatchesRow(m: Msg, r: Row, kind: MsgType) {
    && r.mailbox == m.userId && r.sender == m.sender && r.clientTime == m.clientTime
    && r.msgId == m.msgId && r.groupId == m.groupId && r.text == m.text && r.msgTime == m.msgTime
    && m.receiver == m.userId
    && r.receiver == if kind.PRIVATE? then m.receiver else m.groupId
  }

  /** A push agrees with a row that is already stored in the recipient's mailbox. */
  lemma PushAgreesWithStore(s: State, n: nat)
    requires Reachable(s) && n < |s.pushes|
    ensures s.pushes[n].attempt < |s.attempts|
    ensures var m := s.pushes[n].push.msg;
            var k := Key(m.userId, m.sender, m.clientTime);
            && k in s.table && m.userId != m.sender
            && PushMatchesRow(m, s.table[k], s.attempts[s.pushes[n].attempt].msg.msgType)
  {
    ReachableInv(s);
    var p := s.pushes[n];
    assert PushOk(s, p);
    var a := s.attempts[p.attempt];
    assert AttemptOk(s, a);
    FanoutIsAligned(a.msg, a.request, a.ids, a.sessions, a.msgTime, |a.sessions|, p.pos);
    assert RowKey(a, p.push.slot) in s.table;
    assert a.request[0] != a.request[p.push.slot];
  }

  /** The address the user last registered in the run, `before` if it registered none. */
  function LatestAddr(before: Option<string>, acts: seq<Action>, u: UserId): Option<string> {
    if acts == [] then before
    else
      var act := acts[|acts| - 1];
      if act.SetAddr? && act.user == u then act.addr else LatestAddr(before, acts[..|acts| - 1], u)
  }

  function AddrOf(addrs: map<UserId, string>, u: UserId): Option<string> {
    if u in addrs then Some(addrs[u]) else None
  }

  lemma AddrStep(s: State, act: Action, u: UserId)
    requires s.cfg.block >= 1 && Enabled(s, act)
    ensures AddrOf(Next(s, act).addrs, u) == LatestAddr(AddrOf(s.addrs, u), [act], u)
  {
    assert [act][..0] == [];
  }

  lemma {:induction false} LatestAddrSplits(before: Option<string>, act: Action, acts: seq<Action>, u: UserId)
    ensures LatestAddr(before, [act] + acts, u) == LatestAddr(LatestAddr(before, [act], u), acts, u)
  {
    if acts == [] {
      assert [act] + acts == [act];
    } else {
      LatestAddrSplits(before, act, acts[..|acts| - 1], u);
      assert ([act] + acts)[..|acts|] == [act] + acts[..|acts| - 1];
    }
  }

  /** A session's address is the one last registered, whatever else the run does. */
  lemma {:induction false} SessionIsLatest(s: State, acts: seq<Action>, t: State, u: UserId)
    requires Steps(s, acts, t)
    ensures AddrOf(t.addrs, u) == LatestAddr(AddrOf(s.addrs, u), acts, u)
    decreases |acts|
  {
    if acts != [] {
      AddrStep(s, acts[0], u);
      SessionIsLatest(Next(s, acts[0]), acts[1..], t, u);
      LatestAddrSplits(AddrOf(s.addrs, u), acts[0], acts[1..], u);
      assert acts == [acts[0]] + acts[1..];
    }
  }

  /** Each push goes to the address its recipient's session had when the fan-out read it. */
  lemma FanoutUsesSessions(s: State, i: nat, q: nat)
    requires s.cfg.block >= 1 && Enabled(s, Serve(i, ReadSessions))
    requires Shape(s.attempts[i])
    requires q < |PlanOf(Next(s, Serve(i, ReadSessions)).attempts[i])|
    ensures var p := PlanOf(Next(s, Serve(i, ReadSessions)).attempts[i])[q];
            p.msg.userId in s.addrs && s.addrs[p.msg.userId] == p.addr
  {
    var a := Next(s, Serve(i, ReadSessions)).attempts[i];
    FanoutIsAligned(a.msg, a.request, a.ids, a.sessions, a.msgTime, |a.sessions|, q);
  }

  /** At most one push per stored copy: no recipient is pushed the same message twice. */
  lemma AtMostOnePush(s: State, m: nat, n: nat)
    requires Reachable(s) && m < |s.pushes| && n < |s.pushes|
    requires var x, y := s.pushes[m].push.msg, s.pushes[n].push.msg;
             x.userId == y.userId && x.sender == y.sender && x.clientTime == y.clientTime
    ensures m == n
  {
    ReachableInv(s);
    var p, q := s.pushes[m], s.pushes[n];
    assert PushOk(s, p) && PushOk(s, q);
    var a, b := s.attempts[p.attempt], s.attempts[q.attempt];
    assert AttemptOk(s, a) && AttemptOk(s, b);
    FanoutIsAligned(a.msg, a.request, a.ids, a.sessions, a.msgTime, |a.sessions|, p.pos);
    FanoutIsAligned(b.msg, b.request, b.ids, b.sessions, b.msgTime, |b.sessions|, q.pos);
    WritersAgree(s, p.attempt, q.attempt);
    if p.pos < q.pos {
      FanoutIsOrdered(a.msg, a.request, a.ids, a.sessions, a.msgTime, |a.sessions|, p.pos, q.pos);
    } else if q.pos < p.pos {
      FanoutIsOrdered(a.msg, a.request, a.ids, a.sessions, a.msgTime, |a.sessions|, q.pos, p.pos);
    }
    assert p.pos == q.pos && PushesDistinct(s);
  }
}
