/** The per-demand transitions of the lifecycle engine, as functions on one
    Demand value: the record a creation builds, the owner/state guard shared
    by update and cancel, the allow-listed patch, the cancel and the two
    responses, the notification a response emits, and the step relation
    every transition respects. */
module Lifecycle {
  import opened Domain

  // ---------------------------------------------------------------- create

  /** Body of a creation request; every field may be omitted. */
  datatype CreateInput = CreateInput(
    commodity: Option<string>,
    quantity: Option<int>,
    unit: Option<string>,
    location: Option<Location>,
    desiredBy: Option<string>,
    notes: Option<string>)

  /** The handler's own 400 check, `!commodity || !quantity`: a missing or
      empty commodity, or a missing or zero quantity. */
  predicate CreateInputMissing(input: CreateInput) {
    !Truthy(input.commodity) || input.quantity.None? || input.quantity.value == 0
  }

  /** The document a creation stores: owned by the caller, open, without a
      seller or a price, with the defaults for the omitted fields. */
  function NewDemand(id: DemandId, buyer: UserId, input: CreateInput, now: int): (d: Demand)
    requires !CreateInputMissing(input)
    ensures d.id == id && d.buyer == buyer && d.createdAt == now
    ensures d.status == Open && d.seller.None? && d.priceOffer.None?
    ensures d.commodity == input.commodity.value && d.quantity == input.quantity.value
    ensures input.unit.None? || input.unit == Some("") ==> d.unit == "kg"
    ensures Truthy(input.unit) ==> d.unit == input.unit.value
    ensures input.location.None? ==> d.location == EmptyLocation
    ensures input.location.Some? ==> d.location == input.location.value
    ensures !Truthy(input.desiredBy) ==> d.desiredBy.None?
    ensures Truthy(input.desiredBy) ==> d.desiredBy == input.desiredBy
    ensures input.notes.None? ==> d.notes == ""
    ensures input.notes.Some? ==> d.notes == input.notes.value
    ensures SellerConsistent(d)
  {
    Demand(
      id := id,
      buyer := buyer,
      seller := None,
      commodity := input.commodity.value,
      quantity := input.quantity.value,
      unit := if Truthy(input.unit) then input.unit.value else "kg",
      location := input.location.GetOr(EmptyLocation),
      desiredBy := if Truthy(input.desiredBy) then input.desiredBy else None,
      notes := if Truthy(input.notes) then input.notes.value else "",
      priceOffer := None,
      status := Open,
      createdAt := now)
  }

  // ------------------------------------------------- update / cancel guard

  /** The guard update and cancel share: only the owning buyer or an admin,
      and a non-admin only while the demand is open. None means "go ahead". */
  function EditGuard(caller: User, d: Demand): (g: Option<Error>)
    ensures g == Some(Forbidden) <==> caller.role != Admin && d.buyer != caller.id
    ensures g == Some(BadRequest) <==> caller.role != Admin && d.buyer == caller.id && d.status != Open
    ensures g.None? <==> caller.role == Admin || (d.buyer == caller.id && d.status == Open)
  {
    if caller.role != Admin && d.buyer != caller.id then Some(Forbidden)
    else if caller.role != Admin && d.status != Open then Some(BadRequest)
    else None
  }

  // ---------------------------------------------------------------- update

  /** An update body: the six allow-listed keys, and the protected keys a
      client may also send, which the handler ignores. A key is present when
      it is not `undefined`; an explicit `null` desiredBy is Some(None). */
  datatype Patch = Patch(
    commodity: Option<string>,
    quantity: Option<int>,
    unit: Option<string>,
    location: Option<Location>,
    desiredBy: Option<Option<string>>,
    notes: Option<string>,
    status: Option<string>,
    buyer: Option<UserId>,
    seller: Option<UserId>,
    priceOffer: Option<int>)

  datatype Field = CommodityKey | QuantityKey | UnitKey | LocationKey | DesiredByKey | NotesKey

  /** The allow-list, in the order the handler visits it. */
  const Allowed: seq<Field> := [CommodityKey, QuantityKey, UnitKey, LocationKey, DesiredByKey, NotesKey]

  predicate Present(p: Patch, k: Field) {
    match k
    case CommodityKey => p.commodity.Some?
    case QuantityKey => p.quantity.Some?
    case UnitKey => p.unit.Some?
    case LocationKey => p.location.Some?
    case DesiredByKey => p.desiredBy.Some?
    case NotesKey => p.notes.Some?
  }

  /** `demand[k] = updates[k]` for one present allow-listed key. */
  function SetField(d: Demand, p: Patch, k: Field): (r: Demand)
    requires Present(p, k)
    ensures r.id == d.id && r.buyer == d.buyer && r.seller == d.seller
    ensures r.status == d.status && r.priceOffer == d.priceOffer && r.createdAt == d.createdAt
    ensures r.commodity == if k == CommodityKey then p.commodity.value else d.commodity
    ensures r.quantity == if k == QuantityKey then p.quantity.value else d.quantity
    ensures r.unit == if k == UnitKey then p.unit.value else d.unit
    ensures r.location == if k == LocationKey then p.location.value else d.location
    ensures r.desiredBy == if k == DesiredByKey then p.desiredBy.value else d.desiredBy
    ensures r.notes == if k == NotesKey then p.notes.value else d.notes
  {
    match k
    case CommodityKey => d.(commodity := p.commodity.value)
    case QuantityKey => d.(quantity := p.quantity.value)
    case UnitKey => d.(unit := p.unit.value)
    case LocationKey => d.(location := p.location.value)
    case DesiredByKey => d.(desiredBy := p.desiredBy.value)
    case NotesKey => d.(notes := p.notes.value)
  }

  /** The effect of a successful update: each present allow-listed key
      replaces its field, every other field keeps its value. */
  function ApplyPatch(d: Demand, p: Patch): (r: Demand)
    ensures r.id == d.id && r.buyer == d.buyer && r.seller == d.seller
    ensures r.status == d.status && r.priceOffer == d.priceOffer && r.createdAt == d.createdAt
    ensures p.commodity.Some? ==> r.commodity == p.commodity.value
    ensures p.commodity.None? ==> r.commodity == d.commodity
    ensures p.quantity.Some? ==> r.quantity == p.quantity.value
    ensures p.quantity.None? ==> r.quantity == d.quantity
    ensures p.unit.Some? ==> r.unit == p.unit.value
    ensures p.unit.None? ==> r.unit == d.unit
    ensures p.location.Some? ==> r.location == p.location.value
    ensures p.location.None? ==> r.location == d.location
    ensures p.desiredBy.Some? ==> r.desiredBy == p.desiredBy.value
    ensures p.desiredBy.None? ==> r.desiredBy == d.desiredBy
    ensures p.notes.Some? ==> r.notes == p.notes.value
    ensures p.notes.None? ==> r.notes == d.notes
  {
    d.(commodity := p.commodity.GetOr(d.commodity),
       quantity := p.quantity.GetOr(d.quantity),
       unit := p.unit.GetOr(d.unit),
       location := p.location.GetOr(d.location),
       desiredBy := p.desiredBy.GetOr(d.desiredBy),
       notes := p.notes.GetOr(d.notes))
  }

  /** Protected keys in the body have no effect: the result is the same
      whatever status, buyer, seller or priceOffer the client sends. */
  lemma PatchIgnoresProtectedKeys(d: Demand, p: Patch, status: Option<string>, buyer: Option<UserId>,
                                  seller: Option<UserId>, priceOffer: Option<int>)
    ensures ApplyPatch(d, p.(status := status, buyer := buyer, seller := seller, priceOffer := priceOffer))
            == ApplyPatch(d, p)
  {
  }

  /** Sending the same update twice leaves the demand as one update does. */
  lemma PatchIdempotent(d: Demand, p: Patch)
    ensures ApplyPatch(ApplyPatch(d, p), p) == ApplyPatch(d, p)
  {
  }

  // ---------------------------------------------------------------- cancel

  /** The effect of a successful cancel: status becomes cancelled, nothing
      else changes. */
  function Cancel(d: Demand): (r: Demand)
    ensures r.status == Cancelled
    ensures r.(status := d.status) == d
  {
    d.(status := Cancelled)
  }

  /** Cancelling twice as the same non-admin buyer: once the first cancel is
      let through, the guard turns the second one away with BadRequest. */
  lemma SecondCancelRefused(caller: User, d: Demand)
    requires caller.role != Admin && EditGuard(caller, d).None?
    ensures EditGuard(caller, Cancel(d)) == Some(BadRequest)
  {
  }

  // --------------------------------------------------------------- respond

  /** `['accept', 'reject'].includes(action)` */
  predicate IsAction(action: string) {
    action == "accept" || action == "reject"
  }

  const SellerNoteSeparator := "\nSeller note: "

  /** `(notes || '') + '\nSeller note: ' + n` when the response carries
      truthy notes; the old notes are left alone otherwise. */
  function WithSellerNote(notes: string, n: Option<string>): (r: string)
    ensures notes <= r
    ensures Truthy(n) ==> r[|notes|..] == SellerNoteSeparator + n.value
    ensures !Truthy(n) ==> r == notes
  {
    if Truthy(n) then notes + SellerNoteSeparator + n.value else notes
  }

  /** The effect of a response on an open demand: accepted or rejected, the
      responding farmer recorded as seller, the offered price kept only on
      accept, and the seller's note appended. */
  function RespondTo(d: Demand, farmer: UserId, accept: bool, priceOffer: Option<int>, notes: Option<string>): (r: Demand)
    ensures r.status == (if accept then Accepted else Rejected)
    ensures r.seller == Some(farmer)
    ensures accept && priceOffer.Some? ==> r.priceOffer == priceOffer
    ensures !accept || priceOffer.None? ==> r.priceOffer == d.priceOffer
    ensures r.notes == WithSellerNote(d.notes, notes)
    ensures d.notes <= r.notes
    ensures r.(status := d.status, seller := d.seller, priceOffer := d.priceOffer, notes := d.notes) == d
    ensures SellerConsistent(r)
  {
    d.(status := if accept then Accepted else Rejected,
       seller := Some(farmer),
       priceOffer := if accept && priceOffer.Some? then priceOffer else d.priceOffer,
       notes := WithSellerNote(d.notes, notes))
  }

  /** The in-app notification a response creates: addressed to the demand's
      buyer, typed by the action, naming the demand in its data. */
  function ResponseNotice(d: Demand, accept: bool): (n: Notification)
    ensures n.user == d.buyer && n.demandId == d.id
    ensures n.kind == DemandAccepted <==> accept
    ensures n.title == (if accept then "Demand Accepted" else "Demand Rejected")
  {
    if accept then Notification(d.buyer, DemandAccepted, "Demand Accepted", d.id)
    else Notification(d.buyer, DemandRejected, "Demand Rejected", d.id)
  }

  /** Subject line of the best-effort e-mail to the buyer. */
  function ResponseSubject(accept: bool): string {
    if accept then "Your demand was accepted" else "Your demand was rejected"
  }

  // ------------------------------------------------------ the step relation

  /** The status changes the handlers can make: none, leaving open, or a
      cancel (an admin may cancel in any state). Nothing leads back to open. */
  predicate StatusStep(a: Status, b: Status) {
    a == b || (a == Open && b != Open) || b == Cancelled
  }

  /** What any handler may do to one stored demand: id, buyer and creation
      time never change, the status moves by StatusStep, and a recorded
      seller is never replaced or cleared. */
  predicate StepOk(before: Demand, after: Demand) {
    && after.id == before.id
    && after.buyer == before.buyer
    && after.createdAt == before.createdAt
    && StatusStep(before.status, after.status)
    && (before.seller.Some? ==> after.seller == before.seller)
  }

  /** Every transition is a legitimate step (a response only from open), and
      keeps the seller/status consistency. */
  lemma TransitionsAreSteps(d: Demand, p: Patch, farmer: UserId, accept: bool, priceOffer: Option<int>, notes: Option<string>)
    requires SellerConsistent(d)
    ensures StepOk(d, d) && StepOk(d, ApplyPatch(d, p)) && StepOk(d, Cancel(d))
    ensures d.status == Open ==> StepOk(d, RespondTo(d, farmer, accept, priceOffer, notes))
    ensures SellerConsistent(ApplyPatch(d, p)) && SellerConsistent(Cancel(d))
  {
  }

  lemma StepOkTransitive(a: Demand, b: Demand, c: Demand)
    requires StepOk(a, b) && StepOk(b, c)
    ensures StepOk(a, c)
  {
  }

  /** The source does not keep the stronger rule "a seller is recorded
      exactly when the demand is accepted or rejected": an admin passes the
      guard on an accepted demand, and cancelling it keeps the seller. */
  lemma AdminCancelKeepsSeller(admin: User, d: Demand)
    requires admin.role == Admin && d.status == Accepted && SellerConsistent(d)
    ensures EditGuard(admin, d).None?
    ensures Cancel(d).status == Cancelled && Cancel(d).seller == d.seller && d.seller.Some?
  {
  }
}
