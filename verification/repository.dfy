/** `PackageRepositoryV1` over an abstract store: the JPA repository's
    primary-key operations and its JPQL queries as pure selections over a map
    from tracking number to entity, with the database's creation order kept
    as a newest-first list of keys. */
module Repository {
  import opened Wrappers
  import opened Dates
  import opened Model
  import opened Pages
  import opened PostcodeTally

  /** The `createdAt` ordering key; -1 for an entity never saved. */
  function Rank(p: Package): int {
    if p.createdAt.Some? then p.createdAt.value else -1
  }

  /** `ORDER BY p.createdAt DESC` */
  predicate IsNewestFirst(ps: seq<Package>) {
    forall i, j :: 0 <= i < j < |ps| ==> Rank(ps[j]) < Rank(ps[i])
  }

  /** The keys of `order`, read through `rows`, have strictly decreasing ranks. */
  predicate IsRankDescending(order: seq<string>, rows: map<string, Package>)
    requires forall k :: k in order ==> k in rows
  {
    forall i, j :: 0 <= i < j < |order| ==> Rank(rows[order[j]]) < Rank(rows[order[i]])
  }

  /** The table: entities by primary key, the keys newest first, and the
      creation rank the next insert receives. */
  datatype Table = Table(rows: map<string, Package>, order: seq<string>, clock: nat)

  /** Every row is stored under its own tracking number (the `@Id`), has the
      NOT NULL status, and a creation rank below the clock; `order` lists
      exactly the stored keys, newest first. */
  ghost predicate Valid(t: Table) {
    && (forall k :: k in t.rows ==>
          && t.rows[k].trackingNumber == k
          && t.rows[k].status.Some?
          && t.rows[k].createdAt.Some?
          && t.rows[k].createdAt.value < t.clock)
    && (forall k :: k in t.order <==> k in t.rows)
    && IsRankDescending(t.order, t.rows)
  }

  type Store = t: Table | Valid(t) witness Table(map[], [], 0)

  /** `findById(trackingNumber)` */
  function FindById(s: Store, trackingNumber: string): (r: Option<Package>)
    ensures r.Some? <==> trackingNumber in s.rows
    ensures r.Some? ==> r.value == s.rows[trackingNumber] && r.value.trackingNumber == trackingNumber
  {
    if trackingNumber in s.rows then Some(s.rows[trackingNumber]) else None
  }

  /** `existsById(trackingNumber)` */
  predicate ExistsById(s: Store, trackingNumber: string) {
    trackingNumber in s.rows
  }

  /** The stored entities, newest first. */
  function Rows(s: Store): (r: seq<Package>)
    ensures |r| == |s.order|
    ensures forall p :: p in r <==> p in s.rows.Values
    ensures IsNewestFirst(r)
  {
    var r := seq(|s.order|, i requires 0 <= i < |s.order| => s.rows[s.order[i]]);
    forall p | p in s.rows.Values
      ensures p in r
    {
      var k :| k in s.rows && s.rows[k] == p;
      var i :| 0 <= i < |s.order| && s.order[i] == k;
      assert r[i] == p;
    }
    r
  }

  /** The entities of `ps` that `keep` accepts, in their order in `ps`. */
  function Select(ps: seq<Package>, keep: Package -> bool): (r: seq<Package>)
    ensures |r| <= |ps|
    ensures forall p :: p in r <==> p in ps && keep(p)
    ensures (forall i :: 0 <= i < |ps| ==> !keep(ps[i])) ==> r == []
    ensures multiset(r) <= multiset(ps)
  {
    if ps == [] then []
    else
      var rest := Select(ps[1..], keep);
      assert ps == [ps[0]] + ps[1..];
      if keep(ps[0]) then [ps[0]] + rest else rest
  }

  /** A package older than every package of a newest-first list may go in
      front of it. */
  lemma PrependOlder(x: Package, rest: seq<Package>)
    requires IsNewestFirst(rest)
    requires forall p :: p in rest ==> Rank(p) < Rank(x)
    ensures IsNewestFirst([x] + rest)
  {
    var r := [x] + rest;
    forall i, j | 0 <= i < j < |r|
      ensures Rank(r[j]) < Rank(r[i])
    {
      assert r[j] == rest[j - 1];
      if i > 0 {
        assert r[i] == rest[i - 1];
      }
    }
  }

  /** Selecting keeps the newest-first order of the rows it keeps. */
  lemma {:induction false} SelectKeepsOrder(ps: seq<Package>, keep: Package -> bool)
    requires IsNewestFirst(ps)
    ensures IsNewestFirst(Select(ps, keep))
  {
    if ps != [] {
      var tail := ps[1..];
      assert IsNewestFirst(tail) by {
        forall i, j | 0 <= i < j < |tail|
          ensures Rank(tail[j]) < Rank(tail[i])
        {
          assert tail[j] == ps[j + 1] && tail[i] == ps[i + 1];
        }
      }
      SelectKeepsOrder(tail, keep);
      if keep(ps[0]) {
        var rest := Select(tail, keep);
        assert Select(ps, keep) == [ps[0]] + rest;
        forall p | p in rest
          ensures Rank(p) < Rank(ps[0])
        {
          var m :| 0 <= m < |tail| && tail[m] == p;
          assert p == ps[m + 1];
        }
        PrependOlder(ps[0], rest);
      }
    }
  }

  /** No package occurs twice: a query returns each matching row once. */
  predicate IsDistinct(ps: seq<Package>) {
    forall i, j :: 0 <= i < j < |ps| ==> ps[i] != ps[j]
  }

  /** Strictly decreasing ranks leave no room for a repeated package. */
  lemma NewestFirstIsDistinct(ps: seq<Package>)
    requires IsNewestFirst(ps)
    ensures IsDistinct(ps)
  {
  }

  /** Selecting keeps each accepted package exactly as often as `ps` holds
      it and drops every other: a sub-multiset, never a repetition. */
  lemma {:induction false} SelectMultiplicity(ps: seq<Package>, keep: Package -> bool)
    ensures forall p :: multiset(Select(ps, keep))[p] == if keep(p) then multiset(ps)[p] else 0
  {
    if ps != [] {
      SelectMultiplicity(ps[1..], keep);
      assert ps == [ps[0]] + ps[1..];
      if keep(ps[0]) {
        assert Select(ps, keep) == [ps[0]] + Select(ps[1..], keep);
      }
    }
  }

  /** The tail of a list without repeats has none, and lacks the head. */
  lemma DistinctTail(ps: seq<Package>)
    requires IsDistinct(ps) && ps != []
    ensures IsDistinct(ps[1..]) && ps[0] !in ps[1..]
  {
    var tail := ps[1..];
    forall i, j | 0 <= i < j < |tail|
      ensures tail[i] != tail[j]
    {
      assert tail[i] == ps[i + 1] && tail[j] == ps[j + 1];
    }
    forall m | 0 <= m < |tail|
      ensures tail[m] != ps[0]
    {
      assert tail[m] == ps[m + 1];
    }
  }

  /** The packages a list holds. */
  function Elements(ps: seq<Package>): set<Package> {
    set p | p in ps
  }

  /** The packages of `ps` addressed to `postcode`. */
  function AtPostcode(ps: set<Package>, postcode: string): set<Package> {
    set p | p in ps && p.recipientPostcode == postcode
  }

  /** The elements of a non-empty list: its head and the elements of its tail. */
  lemma ElementsOfCons(ps: seq<Package>)
    requires ps != []
    ensures Elements(ps) == {ps[0]} + Elements(ps[1..])
  {
    assert ps == [ps[0]] + ps[1..];
  }

  /** A list without repeats has as many elements as the set of them. */
  lemma {:induction false} DistinctLength(ps: seq<Package>)
    requires IsDistinct(ps)
    ensures |Elements(ps)| == |ps|
  {
    if ps != [] {
      DistinctTail(ps);
      DistinctLength(ps[1..]);
      ElementsOfCons(ps);
    }
  }

  /** In a list without repeats, the packages for `postcode` are counted by
      the set of them. */
  lemma {:induction false} CountAtDistinct(ps: seq<Package>, postcode: string)
    requires IsDistinct(ps)
    ensures CountAt(ps, postcode) == |AtPostcode(Elements(ps), postcode)|
  {
    if ps != [] {
      DistinctTail(ps);
      CountAtDistinct(ps[1..], postcode);
      ElementsOfCons(ps);
      var here := AtPostcode(Elements(ps), postcode);
      var there := AtPostcode(Elements(ps[1..]), postcode);
      if ps[0].recipientPostcode == postcode {
        assert here == {ps[0]} + there;
      } else {
        assert here == there;
      }
    }
  }

  /** The delivery came after the estimate (`actualDeliveryDate >
      estimatedDeliveryDate`; false for a null actual date, as in SQL). */
  predicate IsLate(p: Package) {
    p.actualDeliveryDate.Some? && IsAfter(p.actualDeliveryDate.value, p.estimatedDeliveryDate)
  }

  /** `findByStatusAndActualDeliveryDateAfterEstimatedDeliveryDate(status)`:
      the packages in `status` delivered after the estimate. */
  function FindDelayed(s: Store, status: Status): (r: seq<Package>)
    ensures forall p :: p in r <==> p in s.rows.Values && p.status == Some(status) && IsLate(p)
    ensures IsDistinct(r)
  {
    var keep := (p: Package) => p.status == Some(status) && IsLate(p);
    SelectKeepsOrder(Rows(s), keep);
    NewestFirstIsDistinct(Select(Rows(s), keep));
    Select(Rows(s), keep)
  }

  /** `findByStatusAndActualDeliveryDateOnOrBeforeEstimatedDeliveryDate(status)`:
      the packages in `status` delivered on or before the estimate, or not
      delivered at all, newest first. */
  function FindOnTime(s: Store, status: Status): (r: seq<Package>)
    ensures forall p :: p in r <==> p in s.rows.Values && p.status == Some(status) && !IsLate(p)
    ensures IsNewestFirst(r)
  {
    var keep := (p: Package) => p.status == Some(status) && !IsLate(p);
    SelectKeepsOrder(Rows(s), keep);
    Select(Rows(s), keep)
  }

  /** For one status the delayed and on-time results split the packages in
      that status: no package is in both, and each is in one. */
  lemma DelayedOnTimePartition(s: Store, status: Status, p: Package)
    ensures !(p in FindDelayed(s, status) && p in FindOnTime(s, status))
    ensures p in FindDelayed(s, status) || p in FindOnTime(s, status) <==> p in s.rows.Values && p.status == Some(status)
  {
  }

  /** `findByTrackingNumberAndEmailAndRecipientPostcode`: the package with
      all three values, or null. */
  function FindByAll(s: Store, trackingNumber: string, email: string, postcode: string): (r: Option<Package>)
    ensures r.Some? ==> (r.value in s.rows.Values && r.value.trackingNumber == trackingNumber
      && r.value.email == email && r.value.recipientPostcode == postcode)
    ensures r.None? ==> forall p :: p in s.rows.Values ==> !(p.trackingNumber == trackingNumber
                                                            && p.email == email && p.recipientPostcode == postcode)
  {
    if trackingNumber in s.rows && s.rows[trackingNumber].email == email
      && s.rows[trackingNumber].recipientPostcode == postcode
    then Some(s.rows[trackingNumber])
    else None
  }

  /** The tracking number is the primary key, so at most one stored package
      has a given tracking number, and the all-three lookup has at most one
      answer. */
  lemma {:induction false} AtMostOneByTrackingNumber(s: Store, p: Package, q: Package)
    requires p in s.rows.Values && q in s.rows.Values
    requires p.trackingNumber == q.trackingNumber
    ensures p == q
  {
    var kp :| kp in s.rows && s.rows[kp] == p;
    var kq :| kq in s.rows && s.rows[kq] == q;
    assert kp == p.trackingNumber && kq == q.trackingNumber;
  }

  /** `findDeliveredByActualDeliveryDate(deliveryDate)`: DELIVERED packages
      delivered on that day, newest first; a null date matches nothing. */
  function FindDeliveredOn(s: Store, deliveryDate: Option<Date>): (r: seq<Package>)
    ensures forall p :: p in r <==> (p in s.rows.Values && p.status == Some(Delivered)
      && deliveryDate.Some? && p.actualDeliveryDate == deliveryDate)
    ensures IsNewestFirst(r)
    ensures deliveryDate.None? ==> r == []
  {
    var keep := (p: Package) => p.status == Some(Delivered) && deliveryDate.Some? && p.actualDeliveryDate == deliveryDate;
    SelectKeepsOrder(Rows(s), keep);
    Select(Rows(s), keep)
  }

  /** `findDeliveredByRecipientPostcode(postcode)`: DELIVERED packages at
      that postcode, newest first. */
  function FindDeliveredByPostcode(s: Store, postcode: string): (r: seq<Package>)
    ensures forall p :: p in r <==> p in s.rows.Values && p.status == Some(Delivered) && p.recipientPostcode == postcode
    ensures IsNewestFirst(r)
  {
    var keep := (p: Package) => p.status == Some(Delivered) && p.recipientPostcode == postcode;
    SelectKeepsOrder(Rows(s), keep);
    Select(Rows(s), keep)
  }

  /** `findByRecipientPostcode(postcode)`: packages at that postcode in any
      status, newest first. */
  function FindByPostcode(s: Store, postcode: string): (r: seq<Package>)
    ensures forall p :: p in r <==> p in s.rows.Values && p.recipientPostcode == postcode
    ensures IsNewestFirst(r)
  {
    var keep := (p: Package) => p.recipientPostcode == postcode;
    SelectKeepsOrder(Rows(s), keep);
    Select(Rows(s), keep)
  }

  /** `findByEmail(email)`: packages for that email, newest first. */
  function FindByEmail(s: Store, email: string): (r: seq<Package>)
    ensures forall p :: p in r <==> p in s.rows.Values && p.email == email
    ensures IsNewestFirst(r)
  {
    var keep := (p: Package) => p.email == email;
    SelectKeepsOrder(Rows(s), keep);
    Select(Rows(s), keep)
  }

  /** `findByEmailAndRecipientPostcode(email, postcode)`: packages for that
      email at that postcode. */
  function FindByEmailAndPostcode(s: Store, email: string, postcode: string): (r: seq<Package>)
    ensures forall p :: p in r <==> p in s.rows.Values && p.email == email && p.recipientPostcode == postcode
    ensures IsDistinct(r)
  {
    var keep := (p: Package) => p.email == email && p.recipientPostcode == postcode;
    SelectKeepsOrder(Rows(s), keep);
    NewestFirstIsDistinct(Select(Rows(s), keep));
    Select(Rows(s), keep)
  }

  /** The DELIVERED-only postcode query returns a subset of the any-status
      one, and the email-and-postcode query a subset of the email query. */
  lemma NarrowerQueriesReturnSubsets(s: Store, email: string, postcode: string)
    ensures forall p :: p in FindDeliveredByPostcode(s, postcode) ==> p in FindByPostcode(s, postcode)
    ensures forall p :: p in FindByEmailAndPostcode(s, email, postcode) ==> p in FindByEmail(s, email)
  {
  }

  /** The stored DELIVERED packages that came late. */
  function LateDeliveries(s: Store): set<Package> {
    set p | p in s.rows.Values && p.status == Some(Delivered) && IsLate(p)
  }

  /** The rows of the aggregate: each late DELIVERED package exactly once. */
  function DelayedDeliveries(s: Store): (r: seq<Package>)
    ensures forall p :: p in r <==> p in s.rows.Values && p.status == Some(Delivered) && IsLate(p)
    ensures IsDistinct(r)
    ensures |r| == |LateDeliveries(s)|
  {
    var r := FindDelayed(s, Delivered);
    DistinctLength(r);
    assert Elements(r) == LateDeliveries(s);
    r
  }

  /** `findPostcodeWithMostDelayedPackages` before paging: one row per
      postcode with at least one late DELIVERED package, in descending count
      order, the counts summing to the number of late deliveries. */
  function MostDelayedPostcodes(s: Store): (r: seq<PostcodeByCount>)
    ensures DistinctPostcodes(r) && AllPositive(r) && IsCountDescending(r)
    ensures Total(r) == |DelayedDeliveries(s)| == |LateDeliveries(s)|
  {
    CountByPostcodeDescending(DelayedDeliveries(s))
  }

  /** Each postcode's count in the aggregate is the number of late
      DELIVERED packages addressed to it. */
  lemma MostDelayedCounts(s: Store, postcode: string)
    ensures CountOf(MostDelayedPostcodes(s), postcode) == CountAt(DelayedDeliveries(s), postcode)
    ensures CountOf(MostDelayedPostcodes(s), postcode) == |AtPostcode(LateDeliveries(s), postcode)|
  {
    var all := DelayedDeliveries(s);
    CountAtDistinct(all, postcode);
    assert Elements(all) == LateDeliveries(s);
  }

  /** Paging a query loses nothing: every result of the full query is on the
      page its position selects. */
  lemma QueryFindsEvery(all: seq<Package>, p: Package, size: nat)
    requires p in all && size >= 1
    ensures exists k: nat :: p in Slice(all, Pageable(k, size)).content
  {
    var i :| 0 <= i < |all| && all[i] == p;
    SliceLocates(all, size, i);
    assert p in Slice(all, Pageable(i / size, size)).content;
  }

  /** Rewriting rows without changing their ranks keeps the order descending. */
  lemma SameRanks(order: seq<string>, rows: map<string, Package>, rows': map<string, Package>)
    requires forall k :: k in order ==> k in rows && k in rows' && Rank(rows'[k]) == Rank(rows[k])
    requires IsRankDescending(order, rows)
    ensures IsRankDescending(order, rows')
  {
  }

  /** A key ranked above every key of a descending order may go in front. */
  lemma PrependNewest(k: string, order: seq<string>, rows: map<string, Package>)
    requires k in rows && forall x :: x in order ==> x in rows
    requires IsRankDescending(order, rows)
    requires forall x :: x in order ==> Rank(rows[x]) < Rank(rows[k])
    ensures IsRankDescending([k] + order, rows)
  {
    var o := [k] + order;
    forall i, j | 0 <= i < j < |o|
      ensures Rank(rows[o[j]]) < Rank(rows[o[i]])
    {
      assert o[j] == order[j - 1];
      if i > 0 {
        assert o[i] == order[i - 1];
      }
    }
  }

  /** The order `s.order` with `key` removed. */
  function RemoveKey(order: seq<string>, key: string, rows: map<string, Package>): (r: seq<string>)
    requires forall k :: k in order ==> k in rows
    ensures forall k :: k in r <==> k in order && k != key
  {
    if order == [] then []
    else
      assert order == [order[0]] + order[1..];
      var rest := RemoveKey(order[1..], key, rows);
      if order[0] == key then rest else [order[0]] + rest
  }

  /** Removing a key keeps the remaining keys newest first. */
  lemma {:induction false} RemoveKeyKeepsOrder(order: seq<string>, key: string, rows: map<string, Package>)
    requires forall k :: k in order ==> k in rows
    requires IsRankDescending(order, rows)
    ensures IsRankDescending(RemoveKey(order, key, rows), rows)
  {
    if order != [] {
      var tail := order[1..];
      assert IsRankDescending(tail, rows) by {
        forall i, j | 0 <= i < j < |tail|
          ensures Rank(rows[tail[j]]) < Rank(rows[tail[i]])
        {
          assert tail[j] == order[j + 1] && tail[i] == order[i + 1];
        }
      }
      RemoveKeyKeepsOrder(tail, key, rows);
      if order[0] != key {
        var rest := RemoveKey(tail, key, rows);
        assert RemoveKey(order, key, rows) == [order[0]] + rest;
        forall k | k in rest
          ensures Rank(rows[k]) < Rank(rows[order[0]])
        {
          var m :| 0 <= m < |tail| && tail[m] == k;
          assert k == order[m + 1];
        }
        PrependNewest(order[0], rest, rows);
      }
    }
  }

  /** `save(entity)`: updates the row with the entity's key, keeping its
      creation time, or inserts a new row with the next creation time.
      Returns the stored table and the managed entity. */
  function Save(s: Store, p: Package): (r: (Store, Package))
    requires p.status.Some?
    ensures var (s', saved) := r;
      && FindById(s', p.trackingNumber) == Some(saved)
      && saved == p.(createdAt := saved.createdAt)
      && (ExistsById(s, p.trackingNumber) ==> saved.createdAt == s.rows[p.trackingNumber].createdAt)
      && (!ExistsById(s, p.trackingNumber) ==> forall q :: q in s.rows.Values ==> Rank(q) < Rank(saved))
      && (forall k :: k != p.trackingNumber ==> FindById(s', k) == FindById(s, k))
  {
    var k := p.trackingNumber;
    if k in s.rows then
      var saved := p.(createdAt := s.rows[k].createdAt);
      var rows := s.rows[k := saved];
      SameRanks(s.order, s.rows, rows);
      (Table(rows, s.order, s.clock), saved)
    else
      var saved := p.(createdAt := Some(s.clock));
      var rows := s.rows[k := saved];
      SameRanks(s.order, s.rows, rows);
      PrependNewest(k, s.order, rows);
      (Table(rows, [k] + s.order, s.clock + 1), saved)
  }

  /** `deleteById(trackingNumber)`: removes the row with that key; an absent
      key changes nothing. */
  function DeleteById(s: Store, trackingNumber: string): (r: Store)
    ensures !ExistsById(r, trackingNumber)
    ensures forall k :: k != trackingNumber ==> FindById(r, k) == FindById(s, k)
  {
    var rows := s.rows - {trackingNumber};
    var order := RemoveKey(s.order, trackingNumber, s.rows);
    RemoveKeyKeepsOrder(s.order, trackingNumber, s.rows);
    SameRanks(order, s.rows, rows);
    Table(rows, order, s.clock)
  }
}
