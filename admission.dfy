/** What the demand routes let through to the handlers: the authentication
    and role gates, and the validator chains on body and query. A request
    that fails any of them is answered by the middleware (422 for the
    validators) and never reaches a handler. */
module Admission {
  import opened Domain
  import opened Lifecycle
  import opened Listing

  /** `authenticateToken` let the request through: a caller is present. */
  predicate Authenticated(caller: Option<User>) {
    caller.Some?
  }

  /** `authenticateToken` followed by `authorizeRoles(role)`. */
  predicate HasRole(caller: Option<User>, role: Role) {
    caller.Some? && caller.value.role == role
  }

  /** POST /demands: a buyer, a non-empty commodity, a positive quantity. */
  predicate CreateAdmitted(caller: Option<User>, input: CreateInput) {
    && HasRole(caller, Buyer)
    && Truthy(input.commodity)
    && input.quantity.Some? && input.quantity.value > 0
  }

  /** GET /demands: `page >= 1` and `1 <= limit <= 200` when given; no
      authentication is attached to this route. */
  predicate ListAdmitted(q: ListQuery) {
    && (q.page.Some? ==> q.page.value >= 1)
    && (q.limit.Some? ==> 1 <= q.limit.value <= 200)
  }

  /** PUT /demands/:id: any authenticated caller; a quantity, when given, is
      positive. Ownership is the handler's business. */
  predicate UpdateAdmitted(caller: Option<User>, p: Patch) {
    Authenticated(caller) && (p.quantity.Some? ==> p.quantity.value > 0)
  }

  /** DELETE /demands/:id: any authenticated caller. */
  predicate CancelAdmitted(caller: Option<User>) {
    Authenticated(caller)
  }

  /** POST /demands/:id/respond: a farmer, an action among accept and
      reject, and a positive price offer when one is given. */
  predicate RespondAdmitted(caller: Option<User>, action: string, priceOffer: Option<int>) {
    && HasRole(caller, Farmer)
    && IsAction(action)
    && (priceOffer.Some? ==> priceOffer.value > 0)
  }

  /** An admitted creation always passes the handler's own 400 check, and
      the stored demand has a non-empty commodity and a positive quantity. */
  lemma AdmittedCreatePassesCheck(caller: Option<User>, input: CreateInput, id: DemandId, now: int)
    requires CreateAdmitted(caller, input)
    ensures !CreateInputMissing(input)
    ensures NewDemand(id, caller.value.id, input, now).commodity != ""
    ensures NewDemand(id, caller.value.id, input, now).quantity > 0
  {
  }

  /** Admitted paging gives the handler a page of at least 1 and a limit
      within 1..200, including the defaults. */
  lemma AdmittedPaging(q: ListQuery)
    requires ListAdmitted(q)
    ensures PageOf(q) >= 1 && 1 <= LimitOf(q) <= 200
    ensures Skip(q) == (PageOf(q) - 1) * LimitOf(q)
  {
  }

  /** Through the route, an update never makes a positive quantity
      non-positive. */
  lemma AdmittedPatchKeepsQuantityPositive(caller: Option<User>, p: Patch, d: Demand)
    requires UpdateAdmitted(caller, p) && d.quantity > 0
    ensures ApplyPatch(d, p).quantity > 0
  {
  }

  /** Through the route, a response never records a non-positive price. */
  lemma AdmittedResponsePrice(caller: Option<User>, action: string, priceOffer: Option<int>,
                              d: Demand, notes: Option<string>)
    requires RespondAdmitted(caller, action, priceOffer)
    requires d.priceOffer.Some? ==> d.priceOffer.value > 0
    ensures var r := RespondTo(d, caller.value.id, action == "accept", priceOffer, notes);
            r.priceOffer.Some? ==> r.priceOffer.value > 0
  {
  }
}
