/** The demand routes: each runs its admission checks and, only when they
    pass, the handler. A request turned away by the middleware never reaches
    a handler, so it leaves the store as it was. */
module Router {
  import opened Domain
  import opened Lifecycle
  import opened Listing
  import opened Admission
  import opened Controller

  /** POST /demands */
  method PostDemand(c: DemandController, caller: Option<User>, input: CreateInput, now: int) returns (r: Result<Demand>)
    requires c.Valid()
    modifies c
    ensures c.Valid()
    ensures !CreateAdmitted(caller, input) ==> r == Err(NotAdmitted) && unchanged(c)
    ensures CreateAdmitted(caller, input) ==>
              && r.Ok? && r.value.id == old(c.nextId) && r.value.id !in old(c.demands)
              && r.value == NewDemand(old(c.nextId), caller.value.id, input, now)
              && r.value.commodity != "" && r.value.quantity > 0
              && c.demands == old(c.demands)[r.value.id := r.value] && c.nextId == old(c.nextId) + 1
              && c.notifications == old(c.notifications) && c.outbox == old(c.outbox)
  {
    if !CreateAdmitted(caller, input) {
      r := Err(NotAdmitted);
      return;
    }
    r := c.Create(caller.value, input, now);
  }

  /** GET /demands: no authentication is attached to this route, so the
      caller is whatever an application-wide middleware may have set. */
  method GetDemands(c: DemandController, caller: Option<User>, q: ListQuery) returns (r: Result<seq<Demand>>)
    requires c.Valid()
    ensures !ListAdmitted(q) ==> r == Err(NotAdmitted)
    ensures ListAdmitted(q) ==> r.Ok? && r.value == Window(VisibleListing(c.demands, c.nextId, caller, q), Skip(q), LimitOf(q))
    ensures r.Ok? ==> forall i :: 0 <= i < |r.value| ==> VisibleTo(caller, q, r.value[i])
    ensures r.Ok? && caller.None? ==> forall i :: 0 <= i < |r.value| ==> r.value[i].status == Open
  {
    if !ListAdmitted(q) {
      r := Err(NotAdmitted);
      return;
    }
    var page := c.List(caller, q);
    r := Ok(page);
  }

  /** PUT /demands/:id */
  method PutDemand(c: DemandController, caller: Option<User>, id: DemandId, patch: Patch) returns (r: Result<Demand>)
    requires c.Valid()
    modifies c
    ensures c.Valid()
    ensures !UpdateAdmitted(caller, patch) ==> r == Err(NotAdmitted) && unchanged(c)
    ensures UpdateAdmitted(caller, patch) && id !in old(c.demands) ==> r == Err(NotFound)
    ensures UpdateAdmitted(caller, patch) && id in old(c.demands) && EditGuard(caller.value, old(c.demands)[id]).Some? ==>
              r == Err(EditGuard(caller.value, old(c.demands)[id]).value)
    ensures UpdateAdmitted(caller, patch) && id in old(c.demands) && EditGuard(caller.value, old(c.demands)[id]).None? ==>
              r.Ok?
    ensures r.Err? ==> unchanged(c)
    ensures r.Ok? ==>
              && id in old(c.demands) && EditGuard(caller.value, old(c.demands)[id]).None?
              && r.value == ApplyPatch(old(c.demands)[id], patch)
              && c.demands == old(c.demands)[id := r.value]
              && c.notifications == old(c.notifications) && c.outbox == old(c.outbox) && c.nextId == old(c.nextId)
              && (old(c.demands)[id].quantity > 0 ==> r.value.quantity > 0)
  {
    if !UpdateAdmitted(caller, patch) {
      r := Err(NotAdmitted);
      return;
    }
    r := c.Update(caller.value, id, patch);
  }

  /** DELETE /demands/:id */
  method DeleteDemand(c: DemandController, caller: Option<User>, id: DemandId) returns (r: Result<Demand>)
    requires c.Valid()
    modifies c
    ensures c.Valid()
    ensures !CancelAdmitted(caller) ==> r == Err(NotAdmitted) && unchanged(c)
    ensures CancelAdmitted(caller) && id !in old(c.demands) ==> r == Err(NotFound)
    ensures CancelAdmitted(caller) && id in old(c.demands) && EditGuard(caller.value, old(c.demands)[id]).Some? ==>
              r == Err(EditGuard(caller.value, old(c.demands)[id]).value)
    ensures CancelAdmitted(caller) && id in old(c.demands) && EditGuard(caller.value, old(c.demands)[id]).None? ==>
              r.Ok?
    ensures r.Err? ==> unchanged(c)
    ensures r.Ok? ==>
              && id in old(c.demands) && EditGuard(caller.value, old(c.demands)[id]).None?
              && r.value == Lifecycle.Cancel(old(c.demands)[id])
              && c.demands == old(c.demands)[id := r.value]
              && c.notifications == old(c.notifications) && c.outbox == old(c.outbox) && c.nextId == old(c.nextId)
  {
    if !CancelAdmitted(caller) {
      r := Err(NotAdmitted);
      return;
    }
    r := c.Cancel(caller.value, id);
  }

  /** POST /demands/:id/respond: through this route the handler's own
      "Invalid action" answer cannot happen; a response fails only on an
      unknown or a non-open demand. */
  method RespondToDemand(c: DemandController, caller: Option<User>, id: DemandId, action: string,
                         priceOffer: Option<int>, notes: Option<string>, buyerEmail: Option<string>, emailFails: bool)
    returns (r: Result<Demand>)
    requires c.Valid()
    modifies c
    ensures c.Valid()
    ensures !RespondAdmitted(caller, action, priceOffer) ==> r == Err(NotAdmitted) && unchanged(c)
    ensures RespondAdmitted(caller, action, priceOffer) && id !in old(c.demands) ==> r == Err(NotFound)
    ensures RespondAdmitted(caller, action, priceOffer) && id in old(c.demands) && old(c.demands)[id].status != Open ==>
              r == Err(BadRequest)
    ensures RespondAdmitted(caller, action, priceOffer) && id in old(c.demands) && old(c.demands)[id].status == Open ==>
              r.Ok?
    ensures r.Err? ==> unchanged(c)
    ensures r.Ok? ==>
              && id in old(c.demands) && old(c.demands)[id].status == Open
              && r.value == RespondTo(old(c.demands)[id], caller.value.id, action == "accept", priceOffer, notes)
              && c.demands == old(c.demands)[id := r.value]
              && c.notifications == old(c.notifications) + [ResponseNotice(old(c.demands)[id], action == "accept")]
              && c.outbox == old(c.outbox) + (if Truthy(buyerEmail) && !emailFails
                                              then [Email(buyerEmail.value, ResponseSubject(action == "accept"))] else [])
              && c.nextId == old(c.nextId)
              && (r.value.priceOffer.Some? ==> r.value.priceOffer.value > 0)
  {
    if !RespondAdmitted(caller, action, priceOffer) {
      r := Err(NotAdmitted);
      return;
    }
    r := c.Respond(caller.value, id, action, priceOffer, notes, buyerEmail, emailFails);
  }
}
