/** Client runs of the routes that the handlers' contracts alone decide:
    the integration test's create / accept / update flow, a double cancel,
    ownership, and role-conditioned listing. */
module Scenarios {
  import opened Domain
  import opened Lifecycle
  import opened Listing
  import opened Controller
  import opened Router

  const BuyerA := User("a", Buyer)
  const BuyerC := User("c", Buyer)
  const FarmerB := User("b", Farmer)
  const FarmerD := User("d", Farmer)
  const Operator := User("admin", Admin)

  const Tomatoes := CreateInput(Some("tomato"), Some(2000), Some("kg"), None, None, Some("Need fresh produce"))

  function QuantityPatch(quantity: int): Patch {
    Patch(None, Some(quantity), None, None, None, None, None, None, None, None)
  }

  /** A buyer creates a demand, a farmer accepts it with a price and a note,
      the buyer is notified, and the buyer can no longer change it. */
  method AcceptFlow() returns (created: Result<Demand>, accepted: Result<Demand>, update: Result<Demand>,
                               notices: seq<Notification>)
    ensures created.Ok? && created.value.status == Open && created.value.seller.None? && created.value.unit == "kg"
    ensures accepted.Ok? && accepted.value.status == Accepted && accepted.value.seller == Some(FarmerB.id)
    ensures accepted.Ok? && accepted.value.priceOffer == Some(25000)
    ensures accepted.Ok? && accepted.value.notes == "Need fresh produce" + SellerNoteSeparator + "Can supply within 3 days"
    ensures notices == [Notification(BuyerA.id, DemandAccepted, "Demand Accepted", 0)]
    ensures update == Err(BadRequest)
  {
    var c := new DemandController();
    created := PostDemand(c, Some(BuyerA), Tomatoes, 100);
    var d0 := NewDemand(0, BuyerA.id, Tomatoes, 100);
    assert created == Ok(d0) && c.demands == map[0 := d0] && c.notifications == [];
    accepted := RespondToDemand(c, Some(FarmerB), 0, "accept", Some(25000), Some("Can supply within 3 days"),
                                Some("buyer-a@example.com"), false);
    var d1 := RespondTo(d0, FarmerB.id, true, Some(25000), Some("Can supply within 3 days"));
    assert accepted == Ok(d1) && c.demands == map[0 := d1];
    assert d1.notes == "Need fresh produce" + SellerNoteSeparator + "Can supply within 3 days";
    notices := c.notifications;
    assert EditGuard(BuyerA, d1) == Some(BadRequest);
    update := PutDemand(c, Some(BuyerA), 0, QuantityPatch(1000));
  }

  /** Cancelling twice as the owning buyer: the first succeeds, the second
      is a BadRequest. */
  method CancelTwice() returns (first: Result<Demand>, second: Result<Demand>)
    ensures first.Ok? && first.value.status == Cancelled
    ensures second == Err(BadRequest)
  {
    var c := new DemandController();
    var created := PostDemand(c, Some(BuyerA), Tomatoes, 100);
    var d0 := NewDemand(0, BuyerA.id, Tomatoes, 100);
    assert c.demands == map[0 := d0];
    first := DeleteDemand(c, Some(BuyerA), 0);
    assert c.demands == map[0 := Lifecycle.Cancel(d0)];
    second := DeleteDemand(c, Some(BuyerA), 0);
  }

  /** A farmer's response to a cancelled demand is a BadRequest. */
  method CancelledRefusesResponse() returns (response: Result<Demand>)
    ensures response == Err(BadRequest)
  {
    var c := new DemandController();
    var created := PostDemand(c, Some(BuyerA), Tomatoes, 100);
    var d0 := NewDemand(0, BuyerA.id, Tomatoes, 100);
    assert c.demands == map[0 := d0];
    var cancelled := DeleteDemand(c, Some(BuyerA), 0);
    assert c.demands == map[0 := Lifecycle.Cancel(d0)];
    response := RespondToDemand(c, Some(FarmerB), 0, "reject", None, None, None, false);
  }

  /** Another buyer can neither update nor cancel a demand, and the demand
      stays as it was. */
  method OtherBuyerRefused() returns (otherUpdate: Result<Demand>, otherCancel: Result<Demand>)
    ensures otherUpdate == Err(Forbidden) && otherCancel == Err(Forbidden)
  {
    var c := new DemandController();
    var created := PostDemand(c, Some(BuyerA), Tomatoes, 100);
    var d0 := NewDemand(0, BuyerA.id, Tomatoes, 100);
    assert c.demands == map[0 := d0];
    assert EditGuard(BuyerC, d0) == Some(Forbidden);
    otherUpdate := PutDemand(c, Some(BuyerC), 0, QuantityPatch(1000));
    otherCancel := DeleteDemand(c, Some(BuyerC), 0);
  }

  /** An admin updates a demand after it was accepted, without touching its
      status or seller. */
  method AdminUpdatesAccepted() returns (adminUpdate: Result<Demand>)
    ensures adminUpdate.Ok? && adminUpdate.value.quantity == 1000
    ensures adminUpdate.Ok? && adminUpdate.value.status == Accepted && adminUpdate.value.seller == Some(FarmerB.id)
  {
    var c := new DemandController();
    var created := PostDemand(c, Some(BuyerA), Tomatoes, 100);
    var d0 := NewDemand(0, BuyerA.id, Tomatoes, 100);
    assert c.demands == map[0 := d0];
    var accepted := RespondToDemand(c, Some(FarmerB), 0, "accept", None, None, None, true);
    var d1 := RespondTo(d0, FarmerB.id, true, None, None);
    assert c.demands == map[0 := d1];
    adminUpdate := PutDemand(c, Some(Operator), 0, QuantityPatch(1000));
    assert adminUpdate == Ok(ApplyPatch(d1, QuantityPatch(1000)));
  }

  /** With one accepted demand (seller B) and a newer open one, both of buyer
      A: an anonymous caller and farmer D see only the open one, farmer B
      and buyer A see both, newest first. */
  lemma Visibility()
    ensures var q := ListQuery(None, None, None, None);
            var taken := RespondTo(NewDemand(0, BuyerA.id, Tomatoes, 100), FarmerB.id, true, None, None);
            var open := NewDemand(1, BuyerA.id, Tomatoes, 200);
            var m := map[0 := taken, 1 := open];
            && VisibleListing(m, 2, None, q) == [open]
            && VisibleListing(m, 2, Some(FarmerD), q) == [open]
            && VisibleListing(m, 2, Some(FarmerB), q) == [open, taken]
            && VisibleListing(m, 2, Some(BuyerA), q) == [open, taken]
  {
    var q := ListQuery(None, None, None, None);
    var taken := RespondTo(NewDemand(0, BuyerA.id, Tomatoes, 100), FarmerB.id, true, None, None);
    var open := NewDemand(1, BuyerA.id, Tomatoes, 200);
    var m := map[0 := taken, 1 := open];
    assert Newer(open, taken);
    assert Insert(open, []) == [open];
    assert Insert(taken, [open]) == [open, taken];
    assert Select(m, 1, VisibilityFilter(None, q)) == [];
    assert Select(m, 1, VisibilityFilter(Some(FarmerD), q)) == [];
    assert Select(m, 1, VisibilityFilter(Some(FarmerB), q)) == [taken];
    assert Select(m, 1, VisibilityFilter(Some(BuyerA), q)) == [taken];
    assert Select(m, 2, VisibilityFilter(None, q)) == [open];
    assert Select(m, 2, VisibilityFilter(Some(FarmerD), q)) == [open];
    assert Select(m, 2, VisibilityFilter(Some(FarmerB), q)) == [taken, open];
    assert Select(m, 2, VisibilityFilter(Some(BuyerA), q)) == [taken, open];
    assert SortNewestFirst([open]) == [open] by {
      assert [open][1..] == [];
    }
    assert SortNewestFirst([taken, open]) == [open, taken] by {
      assert [taken, open][1..] == [open];
    }
    assert SortNewestFirst([taken]) == [taken] by {
      assert [taken][1..] == [];
    }
  }
}
