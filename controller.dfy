/** The demand handlers over an abstract store. The store keeps the demand
    documents by id, the log of in-app notifications and the outbox of
    e-mails handed to the transport. Each handler reads one document as a
    value, checks its guards, changes fields one at a time and saves the
    document back under its id. */
module Controller {
  import opened Domain
  import opened Lifecycle
  import opened Listing
  import opened Admission
  import opened Store

  class DemandController {
    var demands: map<DemandId, Demand>
    var notifications: seq<Notification>
    var outbox: seq<Email>
    /** The next id the repository hands out; every stored id is below it. */
    var nextId: nat

    /** The store invariant (see Store.StoreInvariant). */
    ghost predicate Valid()
      reads this
    {
      StoreInvariant(demands, notifications, nextId)
    }

    constructor ()
      ensures Valid()
      ensures demands == map[] && notifications == [] && outbox == [] && nextId == 0
    {
      demands := map[];
      notifications := [];
      outbox := [];
      nextId := 0;
    }

    /** createDemand: the caller becomes the buyer of a new open demand. */
    method Create(caller: User, input: CreateInput, now: int) returns (r: Result<Demand>)
      requires Valid()
      modifies this
      ensures Valid()
      ensures CreateInputMissing(input) ==> r == Err(BadRequest) && unchanged(this)
      ensures !CreateInputMissing(input) ==>
                && old(nextId) !in old(demands)
                && r == Ok(NewDemand(old(nextId), caller.id, input, now))
                && demands == old(demands)[old(nextId) := r.value]
                && nextId == old(nextId) + 1
                && notifications == old(notifications) && outbox == old(outbox)
      ensures Evolves(old(demands), demands)
    {
      if !Truthy(input.commodity) || input.quantity.None? || input.quantity.value == 0 {
        r := Err(BadRequest);
        return;
      }
      var d := NewDemand(nextId, caller.id, input, now);
      CreateKeepsInvariant(demands, notifications, nextId, d);
      demands := demands[d.id := d];
      nextId := nextId + 1;
      r := Ok(d);
    }

    /** The repository query `find(filter).sort({createdAt: -1}).skip(skip).limit(limit)`. */
    function Find(filter: Filter, skip: nat, limit: nat): (r: seq<Demand>)
      requires Keyed(demands)
      reads this
      ensures r == Window(SortNewestFirst(Select(demands, nextId, filter)), skip, limit)
      ensures |r| <= limit
      ensures forall i :: 0 <= i < |r| ==> r[i].id in demands && demands[r[i].id] == r[i] && Matches(filter, r[i])
      ensures NewestFirst(r)
    {
      QueryPageCorrect(demands, nextId, filter, skip, limit);
      Window(SortNewestFirst(Select(demands, nextId, filter)), skip, limit)
    }

    /** getDemands: the page of demands the (possibly anonymous) caller may
        see, newest first. */
    method List(caller: Option<User>, q: ListQuery) returns (r: seq<Demand>)
      requires Valid() && ListAdmitted(q)
      ensures r == Window(VisibleListing(demands, nextId, caller, q), Skip(q), LimitOf(q))
      ensures |r| <= LimitOf(q)
      ensures forall i :: 0 <= i < |r| ==> r[i].id in demands && demands[r[i].id] == r[i] && VisibleTo(caller, q, r[i])
      ensures NewestFirst(r) && DistinctIds(r)
    {
      var page := q.page.GetOr(1);
      var limit := q.limit.GetOr(20);
      AdmittedPaging(q);
      var skip: nat := (page - 1) * limit;
      assert skip == Skip(q);
      var filter := NoFilter;
      if Truthy(q.status) {
        filter := filter.(status := q.status);
      }
      if Truthy(q.commodity) {
        filter := filter.(commodity := q.commodity);
      }
      if caller.None? {
        // unauthenticated: only open demands
        filter := filter.(status := Some("open"));
      } else if caller.value.role == Buyer {
        filter := filter.(buyer := Some(caller.value.id));
      } else if caller.value.role == Farmer {
        filter := filter.(openOrSeller := Some(caller.value.id));
      }
      assert filter == VisibilityFilter(caller, q);
      r := Find(filter, skip, limit);
      PageCorrect(demands, nextId, caller, q, skip, limit);
    }

    /** getDemandById: the stored demand, or NotFound. */
    method GetById(id: DemandId) returns (r: Result<Demand>)
      ensures id in demands ==> r == Ok(demands[id])
      ensures id !in demands ==> r == Err(NotFound)
    {
      if id !in demands {
        r := Err(NotFound);
        return;
      }
      r := Ok(demands[id]);
    }

    /** updateDemand: the owning buyer (while open) or an admin overwrites
        the allow-listed fields present in the body. */
    method Update(caller: User, id: DemandId, patch: Patch) returns (r: Result<Demand>)
      requires Valid()
      modifies this
      ensures Valid()
      ensures id !in old(demands) ==> r == Err(NotFound)
      ensures id in old(demands) && EditGuard(caller, old(demands)[id]).Some? ==>
                r == Err(EditGuard(caller, old(demands)[id]).value)
      ensures r.Err? ==> unchanged(this)
      ensures id in old(demands) && EditGuard(caller, old(demands)[id]).None? ==>
                && r == Ok(ApplyPatch(old(demands)[id], patch))
                && demands == old(demands)[id := r.value]
                && notifications == old(notifications) && outbox == old(outbox) && nextId == old(nextId)
      ensures Evolves(old(demands), demands)
    {
      if id !in demands {
        r := Err(NotFound);
        return;
      }
      var d := demands[id];
      var guard := EditGuard(caller, d);
      if guard.Some? {
        r := Err(guard.value);
        return;
      }
      ghost var orig := d;
      var i := 0;
      while i < |Allowed|
        invariant 0 <= i <= |Allowed|
        invariant d.commodity == if 0 < i then patch.commodity.GetOr(orig.commodity) else orig.commodity
        invariant d.quantity == if 1 < i then patch.quantity.GetOr(orig.quantity) else orig.quantity
        invariant d.unit == if 2 < i then patch.unit.GetOr(orig.unit) else orig.unit
        invariant d.location == if 3 < i then patch.location.GetOr(orig.location) else orig.location
        invariant d.desiredBy == if 4 < i then patch.desiredBy.GetOr(orig.desiredBy) else orig.desiredBy
        invariant d.notes == if 5 < i then patch.notes.GetOr(orig.notes) else orig.notes
        invariant d.(commodity := orig.commodity, quantity := orig.quantity, unit := orig.unit,
                     location := orig.location, desiredBy := orig.desiredBy, notes := orig.notes) == orig
      {
        var k := Allowed[i];
        if Present(patch, k) {
          d := SetField(d, patch, k);
        }
        i := i + 1;
      }
      TransitionsAreSteps(orig, patch, caller.id, true, None, None);
      EditKeepsInvariant(demands, notifications, nextId, id, d);
      SaveEvolves(demands, id, d);
      demands := demands[id := d];
      r := Ok(d);
    }

    /** deleteDemand: the owning buyer (while open) or an admin sets the
        status to cancelled; the document is kept. */
    method Cancel(caller: User, id: DemandId) returns (r: Result<Demand>)
      requires Valid()
      modifies this
      ensures Valid()
      ensures id !in old(demands) ==> r == Err(NotFound)
      ensures id in old(demands) && EditGuard(caller, old(demands)[id]).Some? ==>
                r == Err(EditGuard(caller, old(demands)[id]).value)
      ensures r.Err? ==> unchanged(this)
      ensures id in old(demands) && EditGuard(caller, old(demands)[id]).None? ==>
                && r == Ok(Lifecycle.Cancel(old(demands)[id]))
                && demands == old(demands)[id := r.value]
                && notifications == old(notifications) && outbox == old(outbox) && nextId == old(nextId)
      ensures Evolves(old(demands), demands)
    {
      if id !in demands {
        r := Err(NotFound);
        return;
      }
      var d := demands[id];
      var guard := EditGuard(caller, d);
      if guard.Some? {
        r := Err(guard.value);
        return;
      }
      d := d.(status := Cancelled);
      EditKeepsInvariant(demands, notifications, nextId, id, d);
      SaveEvolves(demands, id, d);
      demands := demands[id := d];
      r := Ok(d);
    }

    /** The best-effort e-mail: sent when the buyer has an address; a
        failing transport is swallowed and leaves everything else as it is. */
    method TryEmail(to: Option<string>, subject: string, fails: bool)
      modifies this`outbox
      ensures outbox == old(outbox) + if Truthy(to) && !fails then [Email(to.value, subject)] else []
    {
      if Truthy(to) && !fails {
        outbox := outbox + [Email(to.value, subject)];
      }
    }

    /** The end of a response: the in-app notification is created, the
        best-effort e-mail is tried, and the demand is saved. */
    method SaveResponse(id: DemandId, d: Demand, notice: Notification, to: Option<string>, subject: string, fails: bool)
      requires Valid() && id in demands && demands[id].status == Open
      requires d.id == id && d.buyer == demands[id].buyer && d.seller.Some? && SellerConsistent(d)
      requires notice.demandId == id && notice.user == demands[id].buyer
      modifies this
      ensures Valid()
      ensures demands == old(demands)[id := d]
      ensures notifications == old(notifications) + [notice]
      ensures outbox == old(outbox) + if Truthy(to) && !fails then [Email(to.value, subject)] else []
      ensures nextId == old(nextId)
    {
      RespondKeepsInvariant(demands, notifications, nextId, id, d, notice);
      notifications := notifications + [notice];
      TryEmail(to, subject, fails);
      demands := demands[id := d];
    }

    /** respondToDemand: the farmer accepts or rejects an open demand, and
        the buyer is notified. `buyerEmail` is the address found on the
        buyer's account and `emailFails` the outcome of the transport. */
    method Respond(caller: User, id: DemandId, action: string, priceOffer: Option<int>, notes: Option<string>,
                   buyerEmail: Option<string>, emailFails: bool) returns (r: Result<Demand>)
      requires Valid()
      modifies this
      ensures Valid()
      ensures !IsAction(action) ==> r == Err(BadRequest)
      ensures IsAction(action) && id !in old(demands) ==> r == Err(NotFound)
      ensures IsAction(action) && id in old(demands) && old(demands)[id].status != Open ==> r == Err(BadRequest)
      ensures r.Err? ==> unchanged(this)
      ensures IsAction(action) && id in old(demands) && old(demands)[id].status == Open ==>
                && r == Ok(RespondTo(old(demands)[id], caller.id, action == "accept", priceOffer, notes))
                && demands == old(demands)[id := r.value]
                && notifications == old(notifications) + [ResponseNotice(old(demands)[id], action == "accept")]
                && outbox == old(outbox) + (if Truthy(buyerEmail) && !emailFails
                                            then [Email(buyerEmail.value, ResponseSubject(action == "accept"))] else [])
                && nextId == old(nextId)
      ensures Evolves(old(demands), demands)
    {
      if !(action == "accept" || action == "reject") {
        r := Err(BadRequest);
        return;
      }
      if id !in demands {
        r := Err(NotFound);
        return;
      }
      var d := demands[id];
      if d.status != Open {
        r := Err(BadRequest);
        return;
      }
      ghost var orig := d;
      var notice: Notification;
      var subject: string;
      if action == "accept" {
        d := d.(status := Accepted);
        d := d.(seller := Some(caller.id));
        if priceOffer.Some? {
          d := d.(priceOffer := priceOffer);
        }
        if Truthy(notes) {
          d := d.(notes := d.notes + SellerNoteSeparator + notes.value);
        }
        notice := Notification(d.buyer, DemandAccepted, "Demand Accepted", d.id);
        subject := "Your demand was accepted";
        assert d == RespondTo(orig, caller.id, true, priceOffer, notes);
      } else {
        d := d.(status := Rejected);
        d := d.(seller := Some(caller.id)); // records who rejected
        if Truthy(notes) {
          d := d.(notes := d.notes + SellerNoteSeparator + notes.value);
        }
        notice := Notification(d.buyer, DemandRejected, "Demand Rejected", d.id);
        subject := "Your demand was rejected";
        assert d == RespondTo(orig, caller.id, false, priceOffer, notes);
      }
      SaveEvolves(demands, id, d);
      assert notice == ResponseNotice(orig, action == "accept");
      assert subject == ResponseSubject(action == "accept");
      SaveResponse(id, d, notice, buyerEmail, subject, emailFails);
      r := Ok(d);
    }
  }
}
