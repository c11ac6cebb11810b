/** The abstract datastore of demands and notifications: the invariant
    every handler keeps, and the relation between a store before and after
    any handler. */
module Store {
  import opened Domain
  import opened Lifecycle

  /** Number of notifications whose data names demand k. */
  function NoticeCount(ns: seq<Notification>, k: DemandId): nat {
    if ns == [] then 0
    else NoticeCount(ns[..|ns| - 1], k) + (if ns[|ns| - 1].demandId == k then 1 else 0)
  }

  lemma NoticeCountAppend(ns: seq<Notification>, n: Notification, k: DemandId)
    ensures NoticeCount(ns + [n], k) == NoticeCount(ns, k) + (if n.demandId == k then 1 else 0)
  {
    assert (ns + [n])[..|ns|] == ns;
  }

  lemma {:induction false} NoticeCountAbsent(ns: seq<Notification>, k: DemandId)
    requires forall i :: 0 <= i < |ns| ==> ns[i].demandId != k
    ensures NoticeCount(ns, k) == 0
  {
    if ns != [] {
      NoticeCountAbsent(ns[..|ns| - 1], k);
    }
  }

  /** The store invariant: ids are keys, below the next id to hand out;
      seller and status agree; an open demand carries no price; every
      notification goes to the buyer of a stored demand; a demand has
      exactly one notification when it has a seller and none otherwise. */
  ghost predicate StoreInvariant(m: map<DemandId, Demand>, ns: seq<Notification>, next: nat) {
    && Keyed(m)
    && (forall k :: k in m ==> k < next && SellerConsistent(m[k]))
    && (forall k :: k in m && m[k].status == Open ==> m[k].priceOffer.None?)
    && (forall i :: 0 <= i < |ns| ==> ns[i].demandId in m && ns[i].user == m[ns[i].demandId].buyer)
    && (forall k :: k in m ==> NoticeCount(ns, k) == if m[k].seller.Some? then 1 else 0)
  }

  /** Storing a fresh open demand under the next id keeps the invariant. */
  lemma CreateKeepsInvariant(m: map<DemandId, Demand>, ns: seq<Notification>, next: nat, d: Demand)
    requires StoreInvariant(m, ns, next)
    requires d.id == next && d.seller.None? && d.priceOffer.None? && SellerConsistent(d)
    ensures next !in m
    ensures StoreInvariant(m[next := d], ns, next + 1)
  {
    NoticeCountAbsent(ns, next);
  }

  /** Saving a demand that keeps its id, buyer and seller keeps the
      invariant (update and cancel). */
  lemma EditKeepsInvariant(m: map<DemandId, Demand>, ns: seq<Notification>, next: nat, id: DemandId, d: Demand)
    requires StoreInvariant(m, ns, next) && id in m
    requires d.id == id && d.buyer == m[id].buyer && d.seller == m[id].seller && SellerConsistent(d)
    requires d.status == Open ==> d.priceOffer.None?
    ensures StoreInvariant(m[id := d], ns, next)
  {
  }

  /** Responding to an open demand, with its one notification to the buyer,
      keeps the invariant. */
  lemma RespondKeepsInvariant(m: map<DemandId, Demand>, ns: seq<Notification>, next: nat,
                              id: DemandId, d: Demand, n: Notification)
    requires StoreInvariant(m, ns, next) && id in m && m[id].status == Open
    requires d.id == id && d.buyer == m[id].buyer && d.seller.Some? && SellerConsistent(d)
    requires n.demandId == id && n.user == m[id].buyer
    ensures StoreInvariant(m[id := d], ns + [n], next)
  {
    var m' := m[id := d];
    var ns' := ns + [n];
    forall k | k in m'
      ensures NoticeCount(ns', k) == if m'[k].seller.Some? then 1 else 0
    {
      NoticeCountAppend(ns, n, k);
    }
    forall i | 0 <= i < |ns'|
      ensures ns'[i].demandId in m' && ns'[i].user == m'[ns'[i].demandId].buyer
    {
      if i < |ns| {
        assert ns'[i] == ns[i];
      }
    }
  }

  /** A store evolves legitimately when no demand disappears and every
      demand takes a legitimate step. */
  ghost predicate Evolves(before: map<DemandId, Demand>, after: map<DemandId, Demand>) {
    && before.Keys <= after.Keys
    && forall k :: k in before ==> StepOk(before[k], after[k])
  }

  /** Saving one demand that takes a legitimate step is a legitimate
      evolution of the store. */
  lemma SaveEvolves(m: map<DemandId, Demand>, id: DemandId, d: Demand)
    requires id in m && StepOk(m[id], d)
    ensures Evolves(m, m[id := d])
  {
  }

  /** Over any history of legitimate steps, the first and last stores are
      related by Evolves: in particular a demand that has left open is never
      open again. */
  lemma {:induction false} EvolvesAlongHistory(h: seq<map<DemandId, Demand>>)
    requires |h| > 0
    requires forall i :: 0 <= i < |h| - 1 ==> Evolves(h[i], h[i + 1])
    ensures Evolves(h[0], h[|h| - 1])
    ensures forall k :: k in h[0] && h[0][k].status != Open ==> k in h[|h| - 1] && h[|h| - 1][k].status != Open
  {
    if |h| > 1 {
      var last := |h| - 1;
      EvolvesAlongHistory(h[..last]);
      assert h[..last][0] == h[0] && h[..last][last - 1] == h[last - 1];
      assert Evolves(h[last - 1], h[last]);
      forall k | k in h[0]
        ensures StepOk(h[0][k], h[last][k])
      {
        StepOkTransitive(h[0][k], h[last - 1][k], h[last][k]);
      }
    }
  }

}
