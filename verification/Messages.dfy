/** Messages (api/proto/message.go) and the bounded outbound channel of a client (internal/gateway/client.go). */
module Messages {

  datatype Message = Message(
    cmd: int, seqNo: int, msgId: int, from: string, to: string,
    chatType: int, content: string, timestamp: int, needAck: bool)

  const CMD_CHAT := 1
  const CMD_ACK := 2
  const CMD_OFFLINE := 5
  const CMD_KICK := 7
  const CMD_HISTORY := 8
  const CMD_READ_RECEIPT := 9
  const CMD_FILE := 17
  const CMD_RECALL := 19
  const CMD_FRIEND_REQUEST := 20
  const CMD_FRIEND_RESPONSE := 21
  const CMD_FORWARD := 23
  const CMD_EDIT := 24
  const CHAT_TYPE_GROUP := 2

  predicate NeedsTarget(cmd: int) {
    cmd == CMD_CHAT || cmd == CMD_HISTORY || cmd == CMD_READ_RECEIPT || cmd == CMD_FILE || cmd == CMD_RECALL
    || cmd == CMD_FRIEND_REQUEST || cmd == CMD_FRIEND_RESPONSE || cmd == CMD_FORWARD || cmd == CMD_EDIT
  }

  predicate Validates(m: Message) {
    0 < m.cmd <= CMD_EDIT && (NeedsTarget(m.cmd) ==> m.to != "")
  }

  /** A valid command is one of 1 to 24; chat, history, read receipt, file, recall, friend, forward and edit need a target. */
  lemma ValidatesIff(m: Message)
    ensures Validates(m) <==>
            && 1 <= m.cmd <= 24
            && (m.to != "" || m.cmd in {2, 3, 4, 5, 6, 7, 10, 11, 12, 13, 14, 15, 16, 18, 22})
  {
  }

  datatype SendResult = Sent | Unmarshallable | ClientClosed | BufferFull

  /**
   * What Go decides for us inside Client.Send: whether the message marshals, and which ready case `select`
   * takes when the client is closed although its channel has room.
   */
  datatype Luck = Luck(marshals: bool, takesClosed: bool)

  function SendOutcome(queued: nat, capacity: nat, closed: bool, luck: Luck): (r: SendResult)
    ensures r == Sent ==> queued < capacity && luck.marshals && (closed ==> !luck.takesClosed)
    ensures queued < capacity && !closed && luck.marshals ==> r == Sent
    ensures r == Unmarshallable <==> !luck.marshals
    ensures r == ClientClosed ==> closed
    ensures r == BufferFull <==> luck.marshals && !closed && queued >= capacity
  {
    if !luck.marshals then Unmarshallable
    else if closed && (queued >= capacity || luck.takesClosed) then ClientClosed
    else if queued < capacity then Sent
    else BufferFull
  }

  /** A client connection: its user, its outbound channel, and whether it is closed. */
  datatype Conn = Conn(uid: string, send: seq<Message>, capacity: nat, closed: bool)

  predicate Takes(c: Conn, luck: Luck) { SendOutcome(|c.send|, c.capacity, c.closed, luck) == Sent }

  /** The connection after Send: the message is at the end of the channel, or nothing has changed. */
  function AfterSend(c: Conn, m: Message, luck: Luck): Conn {
    if Takes(c, luck) then c.(send := c.send + [m]) else c
  }
}
