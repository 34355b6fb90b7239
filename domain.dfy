/**
 * Entities shared by the socket server and the REST routes: identities,
 * the persisted message record, its delivery status and the HTTP response
 * shape of the two read-side routes.
 */
module Domain {

  /** A user's account id as the server sees it (`socket.userId`, `_id.toString()`). */
  type UserId = string

  /** The transport handle of one connection (`socket.id`). */
  type SocketId = string

  /** Delivery lifecycle of a stored message: "sent" | "delivered" | "read". */
  datatype Status = Sent | Delivered | Read

  /** Position of a status along sent -> delivered -> read. */
  function Rank(s: Status): nat
  {
    match s
    case Sent => 0
    case Delivered => 1
    case Read => 2
  }

  /**
   * A persisted message. Ids are assigned by the store at creation; in this
   * model a message's id is its position in the store sequence.
   */
  datatype Message = Message(id: nat, sender: UserId, receiver: UserId, text: string, status: Status, createdAt: int)

  /** Two records of the same message that may differ only in their status. */
  predicate SameExceptStatus(a: Message, b: Message)
  {
    a.(status := b.status) == b
  }

  /** `b` is `a` after zero or more forward status transitions. */
  predicate Advanced(a: Message, b: Message)
  {
    SameExceptStatus(a, b) && Rank(a.status) <= Rank(b.status)
  }

  /** What an Express handler sends back: a JSON body, or a status code with `{ message }`. */
  datatype Response<+T> = Json(body: T) | ErrorJson(code: nat, message: string)

  /** The status code of the catch branches of both routes. */
  const InternalServerError: nat := 500
}
