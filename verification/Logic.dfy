/**
 The pure parts and the loops of the logic service: whom to ask ids for, what to store,
 and what to push to whom.
*/
module Logic {
  import opened Types
  import opened Dbproxy

  // ----- Building the id request: the sender first, then everybody else.

  function Others(members: seq<UserId>, u: UserId): seq<UserId> {
    if members == [] then []
    else
      var last := members[|members| - 1];
      Others(members[..|members| - 1], u) + if last == u then [] else [last]
  }

  function IdRequest(m: NewMsg, members: seq<UserId>): (request: seq<UserId>)
    ensures |request| >= 1 && request[0] == m.userId
    ensures m.msgType.PRIVATE? ==> |request| == 2
  {
    if m.msgType.PRIVATE? then [m.userId, m.peerId] else [m.userId] + Others(members, m.userId)
  }

  /** The request names the sender once, in front, and each other member as often as the group lists it. */
  lemma {:induction false} OthersAreTheOtherMembers(members: seq<UserId>, u: UserId, v: UserId)
    ensures multiset(Others(members, u))[v] == if v == u then 0 else multiset(members)[v]
  {
    if members != [] {
      var k := |members| - 1;
      OthersAreTheOtherMembers(members[..k], u, v);
      assert members == members[..k] + [members[k]];
    }
  }

  /** The other members keep the group's order: each stands after those of the members before it. */
  lemma {:induction false} OthersKeepTheOrder(members: seq<UserId>, u: UserId, j: nat)
    requires j < |members| && members[j] != u
    ensures |Others(members[..j], u)| < |Others(members, u)|
    ensures Others(members, u)[|Others(members[..j], u)|] == members[j]
  {
    var n := |members| - 1;
    if j < n {
      OthersKeepTheOrder(members[..n], u, j);
      assert members[..n][..j] == members[..j] && members[..n][j] == members[j];
    }
  }

  /** How many of the first `j` members are not `u`. */
  function NotBefore(members: seq<UserId>, j: nat, u: UserId): nat
    requires j <= |members|
  {
    if j == 0 then 0 else NotBefore(members, j - 1, u) + if members[j - 1] == u then 0 else 1
  }

  lemma {:induction false} OthersCount(members: seq<UserId>, j: nat, u: UserId)
    requires j <= |members|
    ensures |Others(members[..j], u)| == NotBefore(members, j, u)
  {
    if j > 0 {
      OthersCount(members, j - 1, u);
      assert members[..j][..j - 1] == members[..j - 1];
    }
  }

  predicate IsAt(request: seq<UserId>, k: nat, v: UserId) {
    k < |request| && request[k] == v
  }

  predicate SenderAndMembers(request: seq<UserId>, sender: UserId, members: seq<UserId>, v: UserId) {
    multiset(request)[v] == if v == sender then 1 else multiset(members)[v]
  }

  /** Whom a group message is for: the sender once, in front, and every other listed member, in order. */
  ghost predicate NamesTheGroup(request: seq<UserId>, sender: UserId, members: seq<UserId>) {
    && IsAt(request, 0, sender)
    && (forall v: UserId :: SenderAndMembers(request, sender, members, v))
    && (forall j | 0 <= j < |members| && members[j] != sender ::
          IsAt(request, 1 + NotBefore(members, j, sender), members[j]))
  }

  lemma OneOfTheGroup(members: seq<UserId>, u: UserId, v: UserId)
    ensures SenderAndMembers([u] + Others(members, u), u, members, v)
  {
    OthersAreTheOtherMembers(members, u, v);
    assert multiset([u] + Others(members, u)) == multiset{u} + multiset(Others(members, u));
  }

  lemma PlaceInTheGroup(members: seq<UserId>, u: UserId, j: nat)
    requires j < |members| && members[j] != u
    ensures IsAt([u] + Others(members, u), 1 + NotBefore(members, j, u), members[j])
  {
    OthersKeepTheOrder(members, u, j);
    OthersCount(members, j, u);
  }

  lemma GroupRequestNamesTheGroup(m: NewMsg, members: seq<UserId>)
    requires m.msgType.GROUP?
    ensures NamesTheGroup(IdRequest(m, members), m.userId, members)
  {
    forall v: UserId ensures SenderAndMembers(IdRequest(m, members), m.userId, members, v) {
      OneOfTheGroup(members, m.userId, v);
    }
    forall j | 0 <= j < |members| && members[j] != m.userId
      ensures IsAt(IdRequest(m, members), 1 + NotBefore(members, j, m.userId), members[j])
    {
      PlaceInTheGroup(members, m.userId, j);
    }
  }

  method BuildIdRequest(m: NewMsg, members: seq<UserId>) returns (request: seq<UserId>)
    ensures request == IdRequest(m, members)
    ensures m.msgType.PRIVATE? ==> request == [m.userId, m.peerId]
    ensures m.msgType.GROUP? ==> NamesTheGroup(request, m.userId, members)
  {
    request := [m.userId];
    if m.msgType == PRIVATE {
      request := request + [m.peerId];
    } else {
      for i := 0 to |members|
        invariant request == [m.userId] + Others(members[..i], m.userId)
      {
        assert members[..i + 1][..i] == members[..i];
        if members[i] == m.userId {
          continue;
        }
        request := request + [members[i]];
      }
      assert members[..|members|] == members;
      GroupRequestNamesTheGroup(m, members);
    }
  }

  // ----- What is stored: one row per requested user, with the id granted in the same position.

  function RowFor(m: NewMsg, request: seq<UserId>, ids: seq<MsgId>, msgTime: int, i: nat): Row
    requires i < |request| && i < |ids|
  {
    Row(request[i], m.userId, m.peerId, ids[i], if m.msgType.PRIVATE? then 0 else m.peerId,
        m.text, m.clientTime, msgTime)
  }

  function ToPrivate(m: NewMsg, ids: seq<MsgId>, msgTime: int): NewPrivateMsg
    requires |ids| == 2
  {
    NewPrivateMsg(m.userId, ids[0], m.peerId, ids[1], m.text, m.clientTime, msgTime)
  }

  /** Copies the id reply into the group message; the sender's own id is the last one under its name. */
  method BuildGroupMsg(m: NewMsg, replies: seq<MsgIds>, msgTime: int) returns (g: NewGroupMsg)
    requires |replies| >= 1 && replies[0].userId == m.userId
    requires forall i | 1 <= i < |replies| :: replies[i].userId != m.userId
    ensures g == ToGroup(m, seq(|replies|, i requires 0 <= i < |replies| => replies[i].userId),
                            seq(|replies|, i requires 0 <= i < |replies| => replies[i].start), msgTime)
  {
    var msgId := 0;
    var pairs: seq<UserAndMsgId> := [];
    for i := 0 to |replies|
      invariant |pairs| == i
      invariant forall j | 0 <= j < i :: pairs[j] == UserAndMsgId(replies[j].userId, replies[j].start)
      invariant i > 0 ==> msgId == replies[0].start
    {
      if m.userId == replies[i].userId {
        msgId := replies[i].start;
      }
      pairs := pairs + [UserAndMsgId(replies[i].userId, replies[i].start)];
    }
    g := NewGroupMsg(m.peerId, pairs, m.userId, msgId, m.text, m.clientTime, msgTime);
  }

  function ToGroup(m: NewMsg, request: seq<UserId>, ids: seq<MsgId>, msgTime: int): NewGroupMsg
    requires |ids| == |request| >= 1
  {
    NewGroupMsg(m.peerId,
                seq(|request|, i requires 0 <= i < |request| => UserAndMsgId(request[i], ids[i])),
                m.userId, ids[0], m.text, m.clientTime, msgTime)
  }

  /** Either way of saving stores the same rows, aligned with the id request. */
  lemma SavedRowsAreAligned(m: NewMsg, request: seq<UserId>, ids: seq<MsgId>, msgTime: int, i: nat)
    requires |ids| == |request| && i < |request|
    requires m.msgType.PRIVATE? ==> request == [m.userId, m.peerId]
    ensures if m.msgType.PRIVATE? then PrivateRows(ToPrivate(m, ids, msgTime))[i] == RowFor(m, request, ids, msgTime, i)
            else GroupRows(ToGroup(m, request, ids, msgTime))[i] == RowFor(m, request, ids, msgTime, i)
  {
    if m.msgType.PRIVATE? {
      assert i == 0 || i == 1;
    } else {
      assert GroupRows(ToGroup(m, request, ids, msgTime))[i] == GroupRow(ToGroup(m, request, ids, msgTime), i);
    }
  }

  // ----- The fan-out to online recipients.

  /** The push to the recipient in position `slot` of the id request. */
  datatype Push = Push(slot: nat, addr: string, msg: Msg)

  function PushMsg(m: NewMsg, request: seq<UserId>, ids: seq<MsgId>, msgTime: int, i: nat): Msg
    requires i < |request| && i < |ids|
  {
    Msg(request[i], m.userId, request[i], ids[i], if m.msgType.PRIVATE? then 0 else m.peerId,
        m.text, m.clientTime, msgTime)
  }

  /** The pushes to the first `k` recipients, skipping those without a session. */
  function Fanout(m: NewMsg, request: seq<UserId>, ids: seq<MsgId>, sessions: seq<Option<string>>,
                  msgTime: int, k: nat): seq<Push>
    requires |ids| == |request| == |sessions| + 1 && k <= |sessions|
  {
    if k == 0 then []
    else
      Fanout(m, request, ids, sessions, msgTime, k - 1)
      + if sessions[k - 1].None? then []
        else [Push(k, sessions[k - 1].value, PushMsg(m, request, ids, msgTime, k))]
  }

  /** Every push goes to its recipient's session address with the id granted for that recipient. */
  predicate PushAligned(p: Push, m: NewMsg, request: seq<UserId>, ids: seq<MsgId>,
                        sessions: seq<Option<string>>, msgTime: int)
    requires |ids| == |request| == |sessions| + 1
  {
    && 1 <= p.slot < |request|
    && sessions[p.slot - 1] == Some(p.addr)
    && p.msg == PushMsg(m, request, ids, msgTime, p.slot)
  }

  lemma {:induction false} FanoutIsAligned(m: NewMsg, request: seq<UserId>, ids: seq<MsgId>,
                                           sessions: seq<Option<string>>, msgTime: int, k: nat, q: nat)
    requires |ids| == |request| == |sessions| + 1 && k <= |sessions|
    requires q < |Fanout(m, request, ids, sessions, msgTime, k)|
    ensures var p := Fanout(m, request, ids, sessions, msgTime, k)[q];
            PushAligned(p, m, request, ids, sessions, msgTime) && p.slot <= k
  {
    if k > 0 && q < |Fanout(m, request, ids, sessions, msgTime, k - 1)| {
      FanoutIsAligned(m, request, ids, sessions, msgTime, k - 1, q);
    }
  }

  /** Later pushes go to later recipients, so nobody is pushed to twice. */
  lemma {:induction false} FanoutIsOrdered(m: NewMsg, request: seq<UserId>, ids: seq<MsgId>,
                                           sessions: seq<Option<string>>, msgTime: int, k: nat, q: nat, r: nat)
    requires |ids| == |request| == |sessions| + 1 && k <= |sessions|
    requires q < r < |Fanout(m, request, ids, sessions, msgTime, k)|
    ensures var plan := Fanout(m, request, ids, sessions, msgTime, k);
            plan[q].slot < plan[r].slot
  {
    if k > 0 {
      if r < |Fanout(m, request, ids, sessions, msgTime, k - 1)| {
        FanoutIsOrdered(m, request, ids, sessions, msgTime, k - 1, q, r);
      } else {
        FanoutIsAligned(m, request, ids, sessions, msgTime, k - 1, q);
      }
    }
  }

  /** Nobody with a session is left out. */
  lemma {:induction false} FanoutReachesEverySession(m: NewMsg, request: seq<UserId>, ids: seq<MsgId>,
                                                     sessions: seq<Option<string>>, msgTime: int, k: nat, i: nat)
    returns (q: nat)
    requires |ids| == |request| == |sessions| + 1 && 1 <= i <= k <= |sessions| && sessions[i - 1].Some?
    ensures q < |Fanout(m, request, ids, sessions, msgTime, k)|
    ensures Fanout(m, request, ids, sessions, msgTime, k)[q].slot == i
  {
    if i == k {
      q := |Fanout(m, request, ids, sessions, msgTime, k - 1)|;
    } else {
      q := FanoutReachesEverySession(m, request, ids, sessions, msgTime, k - 1, i);
    }
  }

  /** The addresses of the sessions present among the first `k`: the channels of the first pass. */
  function Channels(sessions: seq<Option<string>>, k: nat): seq<string>
    requires k <= |sessions|
  {
    if k == 0 then []
    else Channels(sessions, k - 1) + if sessions[k - 1].None? then [] else [sessions[k - 1].value]
  }

  lemma {:induction false} ChannelsGrow(sessions: seq<Option<string>>, i: nat, k: nat)
    requires i <= k <= |sessions|
    ensures Channels(sessions, i) <= Channels(sessions, k)
  {
    if i < k {
      ChannelsGrow(sessions, i, k - 1);
    }
  }
}
