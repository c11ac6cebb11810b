/** Listing demands: the query a caller sends, the filter the handler builds
    from it and from the caller's role, the role-conditioned visibility rule
    that filter stands for, and the repository's query (select by filter,
    newest first, skip, limit). */
module Listing {
  import opened Domain

  /** Query string of a list request; page and limit default to 1 and 20. */
  datatype ListQuery = ListQuery(page: Option<int>, limit: Option<int>, status: Option<string>, commodity: Option<string>)

  function PageOf(q: ListQuery): int { q.page.GetOr(1) }
  function LimitOf(q: ListQuery): int { q.limit.GetOr(20) }

  /** `(page - 1) * limit` */
  function Skip(q: ListQuery): (n: nat)
    requires PageOf(q) >= 1 && LimitOf(q) >= 1
    ensures PageOf(q) == 1 <==> n == 0
  {
    (PageOf(q) - 1) * LimitOf(q)
  }

  /** A repository query: optional equality on status, commodity and buyer,
      and an optional "$or: open, or responded by this seller". */
  datatype Filter = Filter(status: Option<string>, commodity: Option<string>, buyer: Option<UserId>, openOrSeller: Option<UserId>)

  const NoFilter := Filter(None, None, None, None)

  predicate Matches(f: Filter, d: Demand) {
    && (f.status.Some? ==> StatusName(d.status) == f.status.value)
    && (f.commodity.Some? ==> d.commodity == f.commodity.value)
    && (f.buyer.Some? ==> d.buyer == f.buyer.value)
    && (f.openOrSeller.Some? ==> d.status == Open || d.seller == Some(f.openOrSeller.value))
  }

  /** The visibility rule, stated per caller independently of any filter:
      anonymous callers see open demands only (the requested status is
      overridden), buyers their own demands, farmers open demands and the
      ones they responded to, admins everything; the requested status and
      commodity narrow the result except where overridden. */
  predicate VisibleTo(caller: Option<User>, q: ListQuery, d: Demand) {
    var statusOk := !Truthy(q.status) || StatusName(d.status) == q.status.value;
    var commodityOk := !Truthy(q.commodity) || d.commodity == q.commodity.value;
    match caller
    case None => d.status == Open && commodityOk
    case Some(u) =>
      match u.role
      case Buyer => d.buyer == u.id && statusOk && commodityOk
      case Farmer => (d.status == Open || d.seller == Some(u.id)) && statusOk && commodityOk
      case Admin => statusOk && commodityOk
  }

  /** The filter the handler ends up with for this caller and query. */
  function VisibilityFilter(caller: Option<User>, q: ListQuery): (f: Filter)
    ensures forall d :: Matches(f, d) <==> VisibleTo(caller, q, d)
  {
    var requested := Filter(if Truthy(q.status) then q.status else None,
                            if Truthy(q.commodity) then q.commodity else None, None, None);
    match caller
    case None => requested.(status := Some("open"))
    case Some(u) =>
      match u.role
      case Buyer => requested.(buyer := Some(u.id))
      case Farmer => requested.(openOrSeller := Some(u.id))
      case Admin => requested
  }

  /** An anonymous caller only ever sees open demands, whatever it asks for. */
  lemma AnonymousSeesOnlyOpen(q: ListQuery, d: Demand)
    requires VisibleTo(None, q, d)
    ensures d.status == Open
  {
  }

  // ---------------------------------------------------------------- select

  /** The stored demands with id below n that match f, in increasing id order. */
  function Select(m: map<DemandId, Demand>, n: nat, f: Filter): seq<Demand> {
    if n == 0 then []
    else Select(m, n - 1, f) + (if n - 1 in m && Matches(f, m[n - 1]) then [m[n - 1]] else [])
  }

  lemma {:induction false} SelectMembers(m: map<DemandId, Demand>, n: nat, f: Filter)
    requires Keyed(m)
    ensures forall d :: d in Select(m, n, f) <==> d.id < n && d.id in m && m[d.id] == d && Matches(f, d)
    ensures forall i, j :: 0 <= i < j < |Select(m, n, f)| ==> Select(m, n, f)[i].id < Select(m, n, f)[j].id
  {
    if n > 0 {
      SelectMembers(m, n - 1, f);
    }
  }

  // ------------------------------------------------------------------ sort

  /** `sort({ createdAt: -1 })`, with ties between equal creation times
      broken by id so that the order is total. */
  predicate Newer(a: Demand, b: Demand) {
    a.createdAt > b.createdAt || (a.createdAt == b.createdAt && a.id > b.id)
  }

  predicate NewestFirst(s: seq<Demand>) {
    forall i, j :: 0 <= i < j < |s| ==> Newer(s[i], s[j])
  }

  predicate DistinctIds(s: seq<Demand>) {
    forall i, j :: 0 <= i < j < |s| ==> s[i].id != s[j].id
  }

  function Insert(d: Demand, s: seq<Demand>): seq<Demand> {
    if s == [] then [d]
    else if Newer(d, s[0]) then [d] + s
    else [s[0]] + Insert(d, s[1..])
  }

  function SortNewestFirst(s: seq<Demand>): seq<Demand> {
    if s == [] then [] else Insert(s[0], SortNewestFirst(s[1..]))
  }

  lemma TailNewestFirst(s: seq<Demand>)
    requires s != [] && NewestFirst(s)
    ensures NewestFirst(s[1..])
  {
    forall i, j | 0 <= i < j < |s[1..]| ensures Newer(s[1..][i], s[1..][j]) {
      assert s[1..][i] == s[i + 1] && s[1..][j] == s[j + 1];
    }
  }

  lemma {:induction false} InsertMultiset(d: Demand, s: seq<Demand>)
    ensures multiset(Insert(d, s)) == multiset(s) + multiset{d}
  {
    if s != [] && !Newer(d, s[0]) {
      InsertMultiset(d, s[1..]);
      assert s == [s[0]] + s[1..];
    }
  }

  /** Every demand after the head of a newest-first sequence is older than the head. */
  lemma HeadIsNewest(s: seq<Demand>)
    requires s != [] && NewestFirst(s)
    ensures forall e :: e in s[1..] ==> Newer(s[0], e)
  {
    forall e | e in s[1..] ensures Newer(s[0], e) {
      var j :| 0 <= j < |s[1..]| && s[1..][j] == e;
      assert s[j + 1] == e;
    }
  }

  lemma {:induction false} InsertMembers(d: Demand, s: seq<Demand>)
    ensures forall e :: e in Insert(d, s) <==> e == d || e in s
  {
    if s != [] && !Newer(d, s[0]) {
      InsertMembers(d, s[1..]);
      assert s == [s[0]] + s[1..];
    }
  }

  /** A demand older than the new head and sorted tail is older than all of
      `[x] + rest`. */
  lemma ConsNewestFirst(x: Demand, rest: seq<Demand>)
    requires NewestFirst(rest)
    requires forall e :: e in rest ==> Newer(x, e)
    ensures NewestFirst([x] + rest)
  {
    var r := [x] + rest;
    forall i, j | 0 <= i < j < |r| ensures Newer(r[i], r[j]) {
      assert r[j] == rest[j - 1];
      if i == 0 {
        assert rest[j - 1] in rest;
      } else {
        assert r[i] == rest[i - 1];
      }
    }
  }

  lemma {:induction false} InsertSorted(d: Demand, s: seq<Demand>)
    requires NewestFirst(s)
    requires forall e :: e in s ==> e.id != d.id
    ensures NewestFirst(Insert(d, s))
  {
    if s == [] {
    } else if Newer(d, s[0]) {
      HeadIsNewest([d] + s);
      assert ([d] + s)[1..] == s;
      ConsNewestFirst(d, s);
    } else {
      var rest := Insert(d, s[1..]);
      TailNewestFirst(s);
      assert forall e :: e in s[1..] ==> e in s;
      InsertSorted(d, s[1..]);
      assert Newer(s[0], d);
      HeadIsNewest(s);
      InsertMembers(d, s[1..]);
      assert forall e :: e in rest ==> Newer(s[0], e);
      ConsNewestFirst(s[0], rest);
    }
  }

  lemma InsertCorrect(d: Demand, s: seq<Demand>)
    requires NewestFirst(s)
    requires forall e :: e in s ==> e.id != d.id
    ensures NewestFirst(Insert(d, s))
    ensures multiset(Insert(d, s)) == multiset(s) + multiset{d}
  {
    InsertSorted(d, s);
    InsertMultiset(d, s);
  }

  lemma {:induction false} SortCorrect(s: seq<Demand>)
    requires DistinctIds(s)
    ensures NewestFirst(SortNewestFirst(s))
    ensures multiset(SortNewestFirst(s)) == multiset(s)
  {
    if s != [] {
      assert DistinctIds(s[1..]) by {
        forall i, j | 0 <= i < j < |s[1..]| ensures s[1..][i].id != s[1..][j].id {
          assert s[1..][i] == s[i + 1] && s[1..][j] == s[j + 1];
        }
      }
      SortCorrect(s[1..]);
      var sorted := SortNewestFirst(s[1..]);
      forall e | e in sorted ensures e.id != s[0].id {
        assert e in multiset(s[1..]);
        var j :| 0 <= j < |s[1..]| && s[1..][j] == e;
        assert s[j + 1] == e;
      }
      InsertCorrect(s[0], sorted);
      assert s == [s[0]] + s[1..];
    }
  }

  // ---------------------------------------------------------------- window

  /** `skip(skip).limit(limit)` over the sorted result. */
  function Window(s: seq<Demand>, skip: nat, limit: nat): (w: seq<Demand>)
    ensures |w| <= limit
    ensures skip >= |s| ==> w == []
    ensures skip < |s| ==> |w| == if skip + limit <= |s| then limit else |s| - skip
    ensures forall i :: 0 <= i < |w| ==> skip + i < |s| && w[i] == s[skip + i]
  {
    if skip >= |s| then []
    else if skip + limit <= |s| then s[skip..skip + limit]
    else s[skip..]
  }

  /** A page of the repository query holds at most limit stored demands
      that match the filter, newest first. */
  lemma QueryPageCorrect(m: map<DemandId, Demand>, n: nat, f: Filter, skip: nat, limit: nat)
    requires Keyed(m)
    ensures var w := Window(SortNewestFirst(Select(m, n, f)), skip, limit);
            && (forall i :: 0 <= i < |w| ==> w[i].id in m && m[w[i].id] == w[i] && Matches(f, w[i]))
            && NewestFirst(w)
  {
    var s := Select(m, n, f);
    SelectMembers(m, n, f);
    SortCorrect(s);
    var all := SortNewestFirst(s);
    var w := Window(all, skip, limit);
    forall i | 0 <= i < |w|
      ensures w[i].id in m && m[w[i].id] == w[i] && Matches(f, w[i])
    {
      assert w[i] == all[skip + i];
      assert all[skip + i] in multiset(all);
    }
    forall i, j | 0 <= i < j < |w|
      ensures Newer(w[i], w[j])
    {
      assert w[i] == all[skip + i] && w[j] == all[skip + j];
    }
  }

  // --------------------------------------------------------------- listing

  /** Every demand the caller may see for this query, newest first. */
  function VisibleListing(m: map<DemandId, Demand>, n: nat, caller: Option<User>, q: ListQuery): seq<Demand> {
    SortNewestFirst(Select(m, n, VisibilityFilter(caller, q)))
  }

  /** The sorted selection for any filter holds exactly the stored demands
      that match it (when every key is below n), each once, newest first. */
  lemma QueryCorrect(m: map<DemandId, Demand>, n: nat, f: Filter)
    requires Keyed(m) && forall k :: k in m ==> k < n
    ensures forall d :: d in SortNewestFirst(Select(m, n, f)) <==> d.id in m && m[d.id] == d && Matches(f, d)
    ensures NewestFirst(SortNewestFirst(Select(m, n, f)))
    ensures DistinctIds(SortNewestFirst(Select(m, n, f)))
  {
    var s := Select(m, n, f);
    SelectMembers(m, n, f);
    SortCorrect(s);
    var l := SortNewestFirst(s);
    forall d ensures d in l <==> d in s {
      assert d in l <==> d in multiset(l);
      assert d in s <==> d in multiset(s);
    }
    forall i, j | 0 <= i < j < |l| ensures l[i].id != l[j].id {
      assert Newer(l[i], l[j]);
    }
  }

  /** The listing holds exactly the stored demands visible to the caller
      (when every key is below n), each once, newest first. */
  lemma ListingCorrect(m: map<DemandId, Demand>, n: nat, caller: Option<User>, q: ListQuery)
    requires Keyed(m) && forall k :: k in m ==> k < n
    ensures forall d :: d in VisibleListing(m, n, caller, q) <==> d.id in m && m[d.id] == d && VisibleTo(caller, q, d)
    ensures NewestFirst(VisibleListing(m, n, caller, q))
    ensures DistinctIds(VisibleListing(m, n, caller, q))
  {
    QueryCorrect(m, n, VisibilityFilter(caller, q));
  }

  /** A page of the listing holds only stored demands visible to the
      caller, each once, newest first. */
  lemma PageCorrect(m: map<DemandId, Demand>, n: nat, caller: Option<User>, q: ListQuery, skip: nat, limit: nat)
    requires Keyed(m) && forall k :: k in m ==> k < n
    ensures var w := Window(VisibleListing(m, n, caller, q), skip, limit);
            && (forall i :: 0 <= i < |w| ==> w[i].id in m && m[w[i].id] == w[i] && VisibleTo(caller, q, w[i]))
            && NewestFirst(w) && DistinctIds(w)
  {
    var all := VisibleListing(m, n, caller, q);
    ListingCorrect(m, n, caller, q);
    var w := Window(all, skip, limit);
    forall i | 0 <= i < |w|
      ensures w[i].id in m && m[w[i].id] == w[i] && VisibleTo(caller, q, w[i])
    {
      assert w[i] == all[skip + i];
    }
    forall i, j | 0 <= i < j < |w|
      ensures Newer(w[i], w[j]) && w[i].id != w[j].id
    {
      assert w[i] == all[skip + i] && w[j] == all[skip + j];
    }
  }
}
