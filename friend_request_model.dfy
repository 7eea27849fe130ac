/** The FriendRequest schema (models/friendRequest.model.js): two required
    user references, a status restricted to two values that defaults to
    "pending", and Mongoose's `createdAt` timestamp. The schema declares no
    uniqueness of (sender, recipient) and no `sender != recipient`. */
module FriendRequestModel {
  import opened Common

  datatype Status = Accepted | Pending

  /** The stored spelling of a status. */
  function StatusName(s: Status): (r: string)
    ensures r == "accepted" || r == "pending"
  {
    match s
    case Accepted => "accepted"
    case Pending => "pending"
  }

  /** The enum validator: a stored string is a status iff it is one of the
      two declared values, and it then reads back as that status. */
  function ParseStatus(s: string): (r: Option<Status>)
    ensures r.Some? <==> s == "accepted" || s == "pending"
    ensures r.Some? ==> StatusName(r.value) == s
  {
    if s == "accepted" then Some(Accepted)
    else if s == "pending" then Some(Pending)
    else None
  }

  const DefaultStatus: Status := Pending

  datatype FriendRequest = FriendRequest(
    recipient: Id,
    sender: Id,
    status: Status,
    createdAt: int)

  /** `new FriendRequest({ recipient, sender })` saved at time `now`: the
      status takes the schema default. */
  function NewRequest(recipient: Id, sender: Id, now: int): (r: FriendRequest)
    ensures r.status == Pending && ParseStatus("pending") == Some(r.status)
    ensures r.recipient == recipient && r.sender == sender && r.createdAt == now
  {
    FriendRequest(recipient, sender, DefaultStatus, now)
  }
}
