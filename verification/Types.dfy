/** Values shared by the services: the protocol-buffer messages and the rows they become. */
module Types {
  type UserId = int
  type MsgId = int

  datatype Option<+T> = None | Some(value: T)

  datatype MsgType = PRIVATE | GROUP

  /** A message as the client submits it; `peerId` is a user or, for GROUP, a group. */
  datatype NewMsg = NewMsg(userId: UserId, peerId: int, msgType: MsgType, text: string, clientTime: int)

  /** The unique key of the `messages` table. */
  datatype Key = Key(mailbox: UserId, sender: UserId, clientTime: int)

  /** One row of the `messages` table: a copy of the message in one mailbox. */
  datatype Row = Row(mailbox: UserId, sender: UserId, receiver: int, msgId: MsgId, groupId: int,
                     text: string, clientTime: int, msgTime: int)

  /** The sender's newest processed message, as cached and as answered by the lookup. */
  datatype LastSend = LastSend(msgId: MsgId, clientTime: int, msgTime: int)

  /** What the lookup answers when it finds nothing, or cannot parse what it found. */
  const NOTHING_SENT := LastSend(0, 0, 0)

  /** A message as it is pushed to a recipient's access server. */
  datatype Msg = Msg(userId: UserId, sender: UserId, receiver: UserId, msgId: MsgId, groupId: int,
                     text: string, clientTime: int, msgTime: int)

  /** One granted block of ids: `num` consecutive ids from `start` for `userId`. */
  datatype MsgIds = MsgIds(userId: UserId, start: MsgId, num: int)

  function KeyOf(r: Row): Key {
    Key(r.mailbox, r.sender, r.clientTime)
  }
}
