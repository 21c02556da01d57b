/** The client's side of sending: stamping each message and retrying it until it is acknowledged. */
module Client {
  import opened Types

  datatype Reply = Reply(msgId: MsgId, msgTime: int)

  /** The stamp of a message sent at clock reading `now` after one stamped `last`. */
  function Stamp(last: int, now: int): int {
    if now == last then now + 1 else now
  }

  /** The stamps of messages sent at the given clock readings, the first after a stamp of `last`. */
  function Stamps(last: int, clock: seq<int>): (stamps: seq<int>)
    ensures |stamps| == |clock|
  {
    if clock == [] then []
    else
      var before := Stamps(last, clock[..|clock| - 1]);
      before + [Stamp(if before == [] then last else before[|before| - 1], clock[|clock| - 1])]
  }

  /** last_send_time before the first message and after each one. */
  function SendTimes(last: int, clock: seq<int>): (times: seq<int>)
    ensures |times| == |clock| + 1
  {
    [last] + Stamps(last, clock)
  }

  predicate StrictlyIncreasing(times: seq<int>) {
    forall j, k | 0 <= j < k < |times| :: times[j] < times[k]
  }

  /** No message is sent while the clock still reads less than the previous stamp. */
  predicate NeverBehind(times: seq<int>, clock: seq<int>)
    requires |times| == |clock| + 1
  {
    forall k | 0 <= k < |clock| :: times[k] <= clock[k]
  }

  lemma {:induction false} StampAt(last: int, clock: seq<int>, k: nat)
    requires k < |clock|
    ensures SendTimes(last, clock)[k + 1] == Stamp(SendTimes(last, clock)[k], clock[k])
  {
    var n := |clock| - 1;
    if k < n {
      StampAt(last, clock[..n], k);
      assert clock[..n][k] == clock[k];
    }
  }

  lemma {:induction false} NeverBehindIsNewer(last: int, clock: seq<int>, j: nat, k: nat)
    requires NeverBehind(SendTimes(last, clock), clock) && j < k <= |clock|
    ensures SendTimes(last, clock)[j] < SendTimes(last, clock)[k]
  {
    StampAt(last, clock, k - 1);
    if j < k - 1 {
      NeverBehindIsNewer(last, clock, j, k - 1);
    }
  }

  /** Exactly when the stamps serve as version numbers: they strictly increase iff the clock is never behind. */
  lemma StampsIncreaseExactly(last: int, clock: seq<int>)
    ensures StrictlyIncreasing(SendTimes(last, clock)) <==> NeverBehind(SendTimes(last, clock), clock)
  {
    var times := SendTimes(last, clock);
    if NeverBehind(times, clock) {
      forall j, k | 0 <= j < k < |times| ensures times[j] < times[k] {
        NeverBehindIsNewer(last, clock, j, k);
      }
    }
    if StrictlyIncreasing(times) {
      forall k | 0 <= k < |clock| ensures times[k] <= clock[k] {
        StampAt(last, clock, k);
        assert times[k] < times[k + 1];
      }
    }
  }

  /** Three messages in one second: the third carries the stamp of the first again. */
  lemma ThreeInOneSecondRepeatAStamp(last: int, second: int)
    requires last < second
    ensures SendTimes(last, [second, second, second]) == [last, second, second + 1, second]
    ensures !StrictlyIncreasing(SendTimes(last, [second, second, second]))
  {
    var times := SendTimes(last, [second, second, second]);
    StampAt(last, [second, second, second], 0);
    StampAt(last, [second, second, second], 1);
    StampAt(last, [second, second, second], 2);
    assert times[1] >= times[3];
  }

  class SendClient {
    const userId: UserId
    var lastSendTime: int
    var curMsgId: MsgId

    constructor (userId: UserId)
      ensures this.userId == userId && lastSendTime == 0 && curMsgId == 0
    {
      this.userId := userId;
      lastSendTime := 0;
      curMsgId := 0;
    }

    /**
     One message: stamp it, then call with the very same message until a call succeeds. `outcomes`
     are the results of the successive calls, as far as the client lives to see them.
    */
    method Send(peerId: int, msgType: MsgType, text: string, now: int, outcomes: seq<Option<Reply>>)
      returns (m: NewMsg, calls: seq<NewMsg>, acked: bool)
      modifies this
      ensures m == NewMsg(userId, peerId, msgType, text, Stamp(old(lastSendTime), now))
      ensures lastSendTime == m.clientTime
      ensures |calls| <= |outcomes| && forall k | 0 <= k < |calls| :: calls[k] == m
      ensures forall k | 0 <= k < |calls| :: outcomes[k].Some? <==> acked && k == |calls| - 1
      ensures acked ==> |calls| > 0 && curMsgId == outcomes[|calls| - 1].value.msgId
      ensures !acked ==> |calls| == |outcomes| && curMsgId == old(curMsgId)
    {
      var msgTime := now;
      if msgTime == lastSendTime {
        msgTime := msgTime + 1;
      }
      lastSendTime := msgTime;
      m := NewMsg(userId, peerId, msgType, text, msgTime);
      calls := [];
      acked := false;
      while |calls| < |outcomes|
        invariant |calls| <= |outcomes|
        invariant forall k | 0 <= k < |calls| :: calls[k] == m && outcomes[k].None?
        invariant !acked && curMsgId == old(curMsgId) && lastSendTime == m.clientTime
      {
        calls := calls + [m];
        var outcome := outcomes[|calls| - 1];
        if outcome.Some? {
          curMsgId := outcome.value.msgId;
          acked := true;
          break;
        }
      }
    }
  }
}
