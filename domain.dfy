/** Entities of the demand workflow: users and roles, the Demand record,
    the in-app Notification record, outgoing e-mail, and the error answers
    of the demand handlers. */
module Domain {

  datatype Option<T> = None | Some(value: T) {
    function GetOr(default: T): T {
      match this
      case Some(v) => v
      case None => default
    }
  }

  /** JavaScript truthiness of an optional string: absent and "" are falsy. */
  predicate Truthy(s: Option<string>) {
    s.Some? && s.value != ""
  }

  /** User identities and demand identifiers are opaque to the handlers. */
  type UserId = string
  type DemandId = nat

  datatype Role = Buyer | Farmer | Admin

  /** The authenticated caller, as the authentication middleware supplies it. */
  datatype User = User(id: UserId, role: Role)

  datatype Status = Open | Accepted | Rejected | Cancelled

  /** The string stored in the `status` field of a demand document. */
  function StatusName(s: Status): (name: string)
    ensures name == "open" <==> s == Open
  {
    match s
    case Open => "open"
    case Accepted => "accepted"
    case Rejected => "rejected"
    case Cancelled => "cancelled"
  }

  /** Free-form structured location data; `{}` is the empty one. */
  datatype Location = Location(fields: map<string, string>)

  const EmptyLocation := Location(map[])

  datatype Demand = Demand(
    id: DemandId,
    buyer: UserId,
    seller: Option<UserId>,
    commodity: string,
    quantity: int,
    unit: string,
    location: Location,
    desiredBy: Option<string>,
    notes: string,
    priceOffer: Option<int>,
    status: Status,
    createdAt: int)

  /** A seller is recorded only by a response, and every accepted or
      rejected demand records the farmer who responded. */
  predicate SellerConsistent(d: Demand) {
    && (d.seller.Some? ==> d.status != Open)
    && (d.status == Accepted || d.status == Rejected ==> d.seller.Some?)
  }

  /** Every stored demand carries its own key as its id. */
  predicate Keyed(m: map<DemandId, Demand>) {
    forall k :: k in m ==> m[k].id == k
  }

  datatype NoticeKind = DemandAccepted | DemandRejected

  /** An in-app notification record; its data names the originating demand. */
  datatype Notification = Notification(user: UserId, kind: NoticeKind, title: string, demandId: DemandId)

  /** An e-mail handed to the mail transport. */
  datatype Email = Email(to: string, subject: string)

  /** BadRequest, Forbidden and NotFound are the handlers' 400, 403 and 404
      answers; NotAdmitted is a request the route's middleware turns away
      before any handler runs (failed authentication, role gate or the 422
      validation answer). */
  datatype Error = BadRequest | Forbidden | NotFound | NotAdmitted

  datatype Result<T> = Ok(value: T) | Err(error: Error)
}
