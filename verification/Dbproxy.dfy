/**
 The storage service: the `messages` table with its unique key, the expiring cache of each
 sender's newest processed message, and the session addresses.
*/
module Dbproxy {
  import opened Types

  datatype NewPrivateMsg = NewPrivateMsg(sender: UserId, senderMsgId: MsgId, receiver: UserId, receiverMsgId: MsgId,
                                         text: string, clientTime: int, msgTime: int)

  datatype UserAndMsgId = UserAndMsgId(userId: UserId, msgId: MsgId)

  datatype NewGroupMsg = NewGroupMsg(groupId: int, userAndMsgIds: seq<UserAndMsgId>, sender: UserId,
                                     senderMsgId: MsgId, text: string, clientTime: int, msgTime: int)

  /** A call answers, or fails after it did or did not take effect. */
  datatype Call = Answered | Lost(applied: bool)

  function PrivateRows(m: NewPrivateMsg): (rows: seq<Row>)
    ensures |rows| == 2
  {
    [Row(m.sender, m.sender, m.receiver, m.senderMsgId, 0, m.text, m.clientTime, m.msgTime),
     Row(m.receiver, m.sender, m.receiver, m.receiverMsgId, 0, m.text, m.clientTime, m.msgTime)]
  }

  function GroupRow(m: NewGroupMsg, i: nat): Row
    requires i < |m.userAndMsgIds|
  {
    Row(m.userAndMsgIds[i].userId, m.sender, m.groupId, m.userAndMsgIds[i].msgId, m.groupId,
        m.text, m.clientTime, m.msgTime)
  }

  function GroupRows(m: NewGroupMsg): (rows: seq<Row>)
    ensures |rows| == |m.userAndMsgIds|
    ensures forall i | 0 <= i < |rows| :: rows[i] == GroupRow(m, i)
  {
    seq(|m.userAndMsgIds|, i requires 0 <= i < |m.userAndMsgIds| => GroupRow(m, i))
  }

  /** The table after inserting the first `n` rows. */
  function Inserted(table: map<Key, Row>, rows: seq<Row>, n: nat): map<Key, Row>
    requires n <= |rows|
  {
    if n == 0 then table else Inserted(table, rows, n - 1)[KeyOf(rows[n - 1]) := rows[n - 1]]
  }

  /** The unique key accepts each of the first `n` rows, inserted in order. */
  predicate Accepts(table: map<Key, Row>, rows: seq<Row>, n: nat)
    requires n <= |rows|
  {
    n == 0 || (Accepts(table, rows, n - 1) && KeyOf(rows[n - 1]) !in Inserted(table, rows, n - 1))
  }

  /** Accepted insertions keep every stored row, and add no key but those of the new rows. */
  lemma {:induction false} AcceptedKeepsOldRows(table: map<Key, Row>, rows: seq<Row>, n: nat, k: Key)
    requires n <= |rows| && Accepts(table, rows, n)
    ensures k in table ==> k in Inserted(table, rows, n) && Inserted(table, rows, n)[k] == table[k]
    ensures k in Inserted(table, rows, n) ==> k in table || exists i | 0 <= i < n :: KeyOf(rows[i]) == k
  {
    if n > 0 {
      AcceptedKeepsOldRows(table, rows, n - 1, k);
    }
  }

  /** Each accepted row is stored as given, under a key that no earlier row had. */
  lemma {:induction false} AcceptedRowIsStored(table: map<Key, Row>, rows: seq<Row>, n: nat, i: nat)
    requires i < n <= |rows| && Accepts(table, rows, n)
    ensures KeyOf(rows[i]) !in table
    ensures KeyOf(rows[i]) in Inserted(table, rows, n) && Inserted(table, rows, n)[KeyOf(rows[i])] == rows[i]
  {
    if i == n - 1 {
      AcceptedKeepsOldRows(table, rows, i, KeyOf(rows[i]));
    } else {
      AcceptedRowIsStored(table, rows, n - 1, i);
    }
  }

  /** The cache's compare-and-set script: only a newer time replaces the entry. */
  function SetIfNewer(cache: map<UserId, LastSend>, u: UserId, d: LastSend): map<UserId, LastSend> {
    if u !in cache || cache[u].clientTime < d.clientTime then cache[u := d] else cache
  }

  /** The cache after several commands, in the order they took effect. */
  function SetAll(cache: map<UserId, LastSend>, u: UserId, ds: seq<LastSend>): map<UserId, LastSend> {
    if ds == [] then cache else SetIfNewer(SetAll(cache, u, ds[..|ds| - 1]), u, ds[|ds| - 1])
  }

  /**
   In whatever order commands take effect, the entry ends at the newest of their times and its own,
   and it is one of them; nobody else's entry moves.
  */
  lemma {:induction false} SetAllKeepsNewest(cache: map<UserId, LastSend>, u: UserId, ds: seq<LastSend>)
    requires ds != [] || u in cache
    ensures u in SetAll(cache, u, ds)
    ensures u in cache ==> cache[u].clientTime <= SetAll(cache, u, ds)[u].clientTime
    ensures forall k | 0 <= k < |ds| :: ds[k].clientTime <= SetAll(cache, u, ds)[u].clientTime
    ensures SetAll(cache, u, ds)[u] in ds || (u in cache && SetAll(cache, u, ds)[u] == cache[u])
    ensures SetAll(cache, u, ds) - {u} == cache - {u}
  {
    if ds != [] {
      var n := |ds| - 1;
      if n > 0 || u in cache {
        SetAllKeepsNewest(cache, u, ds[..n]);
        forall k | 0 <= k < n ensures ds[k].clientTime <= SetAll(cache, u, ds)[u].clientTime {
          assert ds[..n][k] == ds[k];
        }
      } else {
        assert ds[..n] == [];
      }
    }
  }

  /** `d` is what the stored row of `u`'s own message at that time says. */
  predicate StoredAs(table: map<Key, Row>, u: UserId, d: LastSend) {
    var k := Key(u, u, d.clientTime);
    k in table && table[k].msgId == d.msgId && table[k].msgTime == d.msgTime
  }

  ghost predicate NoneSent(table: map<Key, Row>, u: UserId) {
    forall k: Key | k in table :: !(k.mailbox == u && k.sender == u)
  }

  /** The answer of the MAX(client_time) query. */
  ghost predicate IsNewest(table: map<Key, Row>, u: UserId, d: LastSend) {
    if NoneSent(table, u) then d == NOTHING_SENT
    else
      && StoredAs(table, u, d)
      && forall k: Key | k in table && k.mailbox == u && k.sender == u :: k.clientTime <= d.clientTime
  }

  lemma {:induction false} MaxTimeExists(times: set<int>, some: int) returns (t: int)
    requires some in times
    ensures t in times && forall x | x in times :: x <= t
  {
    t := some;
    var rest := times - {some};
    if next :| next in rest {
      var t' := MaxTimeExists(rest, next);
      t := if t' > some then t' else some;
    }
    forall x | x in times ensures x <= t {
      assert x == some || x in rest;
    }
  }

  /** The query has exactly one answer on every well-keyed table. */
  lemma NewestIsUnique(table: map<Key, Row>, u: UserId, d1: LastSend, d2: LastSend)
    requires IsNewest(table, u, d1) && IsNewest(table, u, d2)
    ensures d1 == d2
  {
    if !NoneSent(table, u) {
      assert Key(u, u, d1.clientTime) in table && Key(u, u, d2.clientTime) in table;
    }
  }

  /** The query always has an answer. */
  lemma NewestExists(table: map<Key, Row>, u: UserId) returns (d: LastSend)
    ensures IsNewest(table, u, d)
  {
    d := NOTHING_SENT;
    if some :| some in table && some.mailbox == u && some.sender == u {
      var times := set k | k in table && k.mailbox == u && k.sender == u :: k.clientTime;
      var t := MaxTimeExists(times, some.clientTime);
      d := LastSend(table[Key(u, u, t)].msgId, t, table[Key(u, u, t)].msgTime);
      forall k: Key | k in table && k.mailbox == u && k.sender == u ensures k.clientTime <= t {
        assert k.clientTime in times;
      }
    }
  }

  class DbproxyServiceImpl {
    var messages: map<Key, Row>
    var lastSend: map<UserId, LastSend>
    var addrs: map<UserId, string>

    constructor (messages: map<Key, Row>)
      ensures this.messages == messages && lastSend == map[] && addrs == map[]
    {
      this.messages := messages;
      lastSend := map[];
      addrs := map[];
    }

    /** One INSERT of one row. */
    method InsertRow(row: Row, sqlOk: bool) returns (ok: bool)
      modifies this`messages
      ensures ok == (sqlOk && KeyOf(row) !in old(messages))
      ensures messages == if ok then old(messages)[KeyOf(row) := row] else old(messages)
    {
      ok := sqlOk && KeyOf(row) !in messages;
      if ok {
        messages := messages[KeyOf(row) := row];
      }
    }

    /** Both copies go in with one multi-row INSERT, or neither does. */
    method SavePrivateMsg(m: NewPrivateMsg, sqlOk: bool, redis: Call) returns (ok: bool)
      modifies this`messages, this`lastSend
      ensures var rows := PrivateRows(m);
              var inserted := sqlOk && Accepts(old(messages), rows, 2);
              && messages == (if inserted then Inserted(old(messages), rows, 2) else old(messages))
              && lastSend == (if inserted && (redis.Answered? || redis.applied)
                              then SetIfNewer(old(lastSend), m.sender, LastSend(m.senderMsgId, m.clientTime, m.msgTime))
                              else old(lastSend))
              && ok == (inserted && redis.Answered?)
    {
      var rows := PrivateRows(m);
      var both := Inserted(messages, rows, 2);
      assert Inserted(messages, rows, 1) == messages[KeyOf(rows[0]) := rows[0]];
      assert Accepts(messages, rows, 1) == (KeyOf(rows[0]) !in messages);
      if !sqlOk || KeyOf(rows[0]) in messages || KeyOf(rows[1]) in messages || KeyOf(rows[0]) == KeyOf(rows[1]) {
        return false;
      }
      messages := both;
      ok := SetUserLastSendData(m.sender, LastSend(m.senderMsgId, m.clientTime, m.msgTime), redis);
    }

    /**
     The copies go in one INSERT at a time; the first refused row, or the storage error at
     `failAt`, stops the loop and leaves the rows already inserted.
    */
    method SaveGroupMsg(m: NewGroupMsg, failAt: nat, redis: Call) returns (ok: bool, inserted: nat)
      modifies this`messages, this`lastSend
      ensures var rows := GroupRows(m);
              && inserted <= |rows|
              && Accepts(old(messages), rows, inserted)
              && messages == Inserted(old(messages), rows, inserted)
              && inserted <= failAt
              && (inserted < |rows| ==> inserted == failAt || KeyOf(rows[inserted]) in messages)
              && lastSend == (if inserted == |rows| && (redis.Answered? || redis.applied)
                              then SetIfNewer(old(lastSend), m.sender, LastSend(m.senderMsgId, m.clientTime, m.msgTime))
                              else old(lastSend))
              && ok == (inserted == |rows| && redis.Answered?)
    {
      ghost var rows := GroupRows(m);
      inserted := 0;
      while inserted < |m.userAndMsgIds|
        invariant inserted <= |rows| && inserted <= failAt
        invariant Accepts(old(messages), rows, inserted)
        invariant messages == Inserted(old(messages), rows, inserted)
        invariant lastSend == old(lastSend)
      {
        var done := InsertRow(GroupRow(m, inserted), inserted != failAt);
        if !done {
          return false, inserted;
        }
        inserted := inserted + 1;
      }
      ok := SetUserLastSendData(m.sender, LastSend(m.senderMsgId, m.clientTime, m.msgTime), redis);
    }

    /** The script takes effect unless the call is lost before it: a newer time replaces the entry, no other does. */
    method SetUserLastSendData(u: UserId, d: LastSend, redis: Call) returns (ok: bool)
      modifies this`lastSend
      ensures ok == redis.Answered?
      ensures lastSend == if redis.Answered? || redis.applied then SetIfNewer(old(lastSend), u, d) else old(lastSend)
      ensures redis.Answered? || redis.applied ==> u in lastSend && lastSend[u].clientTime >= d.clientTime
      ensures (redis.Answered? || redis.applied) && (u !in old(lastSend) || old(lastSend)[u].clientTime < d.clientTime)
              ==> lastSend == old(lastSend)[u := d]
      ensures u in old(lastSend) && old(lastSend)[u].clientTime >= d.clientTime ==> lastSend == old(lastSend)
    {
      if redis.Answered? || redis.applied {
        if u !in lastSend || lastSend[u].clientTime < d.clientTime {
          lastSend := lastSend[u := d];
        }
      }
      ok := redis.Answered?;
    }

    /**
     The cache first, then the MAX query. `parsed` says whether the cached text scans as numbers;
     when it does not, the lookup answers zeros.
    */
    method GetUserLastSendData(u: UserId, redisOk: bool, parsed: bool, sqlOk: bool) returns (ok: bool, d: LastSend)
      ensures ok == (redisOk && (u in lastSend || sqlOk))
      ensures ok && u in lastSend ==> d == if parsed then lastSend[u] else NOTHING_SENT
      ensures ok && u !in lastSend ==> IsNewest(messages, u, d)
    {
      d := NOTHING_SENT;
      if !redisOk {
        return false, d;
      }
      if u in lastSend {
        if parsed {
          d := lastSend[u];
        }
        return true, d;
      }
      if !sqlOk {
        return false, d;
      }
      var own := set k | k in messages && k.mailbox == u && k.sender == u;
      if own != {} {
        var times := set k | k in own :: k.clientTime;
        ghost var some :| some in own;
        assert some.clientTime in times;
        ghost var max := MaxTimeExists(times, some.clientTime);
        var t :| t in times && forall x | x in times :: x <= t;
        assert forall k: Key | k in messages && k.mailbox == u && k.sender == u :: k in own && k.clientTime in times;
        var row := messages[Key(u, u, t)];
        d := LastSend(row.msgId, t, row.msgTime);
        assert Key(u, u, t) in own;
      } else {
        assert forall k | k in messages && k.mailbox == u && k.sender == u :: k in own;
      }
      return true, d;
    }

    /** One session per requested user, in request order. */
    method GetSessions(userIds: seq<UserId>) returns (sessions: seq<Option<string>>)
      ensures sessions == SessionsOf(addrs, userIds)
    {
      sessions := [];
      for i := 0 to |userIds|
        invariant sessions == SessionsOf(addrs, userIds[..i])
      {
        sessions := sessions + [if userIds[i] in addrs then Some(addrs[userIds[i]]) else None];
      }
      assert userIds[..|userIds|] == userIds;
    }
  }

  function SessionsOf(addrs: map<UserId, string>, userIds: seq<UserId>): (sessions: seq<Option<string>>)
    ensures |sessions| == |userIds|
    ensures forall i | 0 <= i < |userIds| ::
              sessions[i] == if userIds[i] in addrs then Some(addrs[userIds[i]]) else None
  {
    seq(|userIds|, i requires 0 <= i < |userIds| => if userIds[i] in addrs then Some(addrs[userIds[i]]) else None)
  }
}
