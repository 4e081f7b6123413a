/** The streaming fetch of listings, and the publisher's own list of current listings. */
module ListingStream {
  import opened Base
  import opened Text
  import opened Sorting
  import opened Replaceable

  /** A parsed listing event, keyed by its coordinate. */
  type Product = Arrival<string, string>

  // ---------- what a stream of arrivals emits ----------

  function Emissions(arrivals: seq<Product>): seq<Product> {
    if arrivals == [] then []
    else
      var front, last := arrivals[..|arrivals| - 1], arrivals[|arrivals| - 1];
      Emissions(front) + if Replaces(Latest(front), last) then [last] else []
  }

  function EmittedFor(arrivals: seq<Product>, coordinate: string): seq<Product> {
    Filter((p: Product) => p.key == coordinate, Emissions(arrivals))
  }

  /** The listings strictly improve, and end with the one held for the coordinate. */
  ghost predicate EndsWith(emitted: seq<Product>, latest: map<string, Product>, coordinate: string) {
    && (emitted == [] <==> coordinate !in latest)
    && (emitted != [] ==> emitted[|emitted| - 1] == latest[coordinate])
    && forall i, j :: 0 <= i < j < |emitted| ==> Newer(emitted[j].stamp, emitted[i].stamp)
  }

  lemma EmittedForAppend(front: seq<Product>, last: Product, coordinate: string)
    ensures EmittedFor(front + [last], coordinate) ==
      if Replaces(Latest(front), last) && last.key == coordinate then EmittedFor(front, coordinate) + [last]
      else EmittedFor(front, coordinate)
  {
    assert (front + [last])[..|front|] == front;
    if Replaces(Latest(front), last) {
      FilterAppend((p: Product) => p.key == coordinate, Emissions(front), last);
    } else {
      assert Emissions(front) + [] == Emissions(front);
    }
  }

  lemma ImprovingAppend(emitted: seq<Product>, last: Product)
    requires forall i, j :: 0 <= i < j < |emitted| ==> Newer(emitted[j].stamp, emitted[i].stamp)
    requires emitted != [] ==> Newer(last.stamp, emitted[|emitted| - 1].stamp)
    ensures
      var all := emitted + [last];
      forall i, j :: 0 <= i < j < |all| ==> Newer(all[j].stamp, all[i].stamp)
  {
    forall i | 0 <= i < |emitted| ensures Newer(last.stamp, emitted[i].stamp) {
      if i < |emitted| - 1 {
        NewerIsStrictTotalOrder(last.stamp, emitted[|emitted| - 1].stamp, emitted[i].stamp);
      }
    }
  }

  /** Per coordinate the emitted listings strictly improve and end with the winner. */
  lemma {:induction false} EmissionsImprove(arrivals: seq<Product>, coordinate: string)
    ensures EndsWith(EmittedFor(arrivals, coordinate), Latest(arrivals), coordinate)
  {
    if arrivals != [] {
      var front, last := arrivals[..|arrivals| - 1], arrivals[|arrivals| - 1];
      assert arrivals == front + [last];
      EmissionsImprove(front, coordinate);
      EmittedForAppend(front, last, coordinate);
      if last.key == coordinate && Replaces(Latest(front), last) {
        ImprovingAppend(EmittedFor(front, coordinate), last);
      }
    }
  }

  /** One coordinate per key: the map grows by one exactly when a coordinate arrives for the first time. */
  lemma {:induction false} DistinctCoordinates(arrivals: seq<Product>)
    ensures Latest(arrivals).Keys == set p | p in arrivals :: p.key
  {
    LatestHoldsWinners(arrivals);
    forall k ensures k in Latest(arrivals) <==> k in (set p | p in arrivals :: p.key) {
      if k in Latest(arrivals) {
        assert Latest(arrivals)[k] in arrivals;
      }
    }
  }

  lemma NextArrival(arrivals: seq<Product>, p: Product)
    ensures Latest(arrivals + [p]) == Record(Latest(arrivals), p)
    ensures Emissions(arrivals + [p]) == Emissions(arrivals) + if Replaces(Latest(arrivals), p) then [p] else []
    ensures |Latest(arrivals + [p])| == |Latest(arrivals)| + if p.key in Latest(arrivals) then 0 else 1
  {
    var before := Latest(arrivals);
    assert (arrivals + [p])[..|arrivals|] == arrivals;
    if p.key in before {
      assert before[p.key := p].Keys == before.Keys;
    } else {
      assert before[p.key := p].Keys == before.Keys + {p.key};
    }
  }

  // ---------- the streaming callback ----------

  class Stream {
    var seen: map<string, (u64, string)>
    var count: nat
    var emitted: seq<Product>
    ghost var arrivals: seq<Product>

    ghost predicate Valid()
      reads this
    {
      && seen.Keys == Latest(arrivals).Keys
      && (forall k :: k in seen ==> Latest(arrivals)[k].stamp == Stamp(seen[k].0, Some(seen[k].1)))
      && count == |Latest(arrivals)|
      && emitted == Emissions(arrivals)
    }

    constructor ()
      ensures Valid() && arrivals == []
    {
      seen, count, emitted, arrivals := map[], 0, [], [];
    }

    /** Accepts a stamp for a coordinate if it is the first, or newer than the one held. */
    method RecordReplaceableEvent(coordinate: string, createdAt: u64, eventId: string)
        returns (accepted: bool, first: bool)
      modifies this`seen
      ensures first <==> coordinate !in old(seen)
      ensures !first ==> (accepted <==>
        Newer(Stamp(createdAt, Some(eventId)), Stamp(old(seen)[coordinate].0, Some(old(seen)[coordinate].1))))
      ensures first ==> accepted
      ensures seen == if accepted then old(seen)[coordinate := (createdAt, eventId)] else old(seen)
    {
      if coordinate !in seen {
        seen := seen[coordinate := (createdAt, eventId)];
        return true, true;
      }
      var current := seen[coordinate];
      if Newer(Stamp(createdAt, Some(eventId)), Stamp(current.0, Some(current.1))) {
        seen := seen[coordinate := (createdAt, eventId)];
        return true, false;
      }
      return false, false;
    }

    /** One parsed listing event: recorded, counted when its coordinate is new, emitted when accepted. */
    method Receive(product: Product)
      requires Valid() && product.stamp.eventId.Some?
      modifies this
      ensures Valid() && arrivals == old(arrivals) + [product]
    {
      NextArrival(arrivals, product);
      assert product.key in seen ==>
             Latest(arrivals)[product.key].stamp == Stamp(seen[product.key].0, Some(seen[product.key].1));
      var accepted, first := RecordReplaceableEvent(product.key, product.stamp.createdAt, product.stamp.eventId.value);
      if accepted {
        if first {
          count := count + 1;
        }
        emitted := emitted + [product];
      }
      arrivals := arrivals + [product];
    }
  }

  // ---------- the publisher's current listings ----------

  datatype Listing = Listing(id: string, publisher: string, isNip99: bool, stamp: Stamp, content: string)

  /** The coordinate of a listing whose publisher key reads `publisherHex`. */
  function Coordinate(publisherHex: string, listing: Listing): string {
    "30402:" + publisherHex + ":" + listing.id
  }

  predicate IsOwn(publisher: string, listing: Listing) {
    listing.publisher == publisher && listing.isNip99
  }

  function OwnArrivals(listings: seq<Listing>, publisher: string, publisherHex: string): seq<Arrival<string, Listing>> {
    if listings == [] then []
    else
      var last := listings[|listings| - 1];
      OwnArrivals(listings[..|listings| - 1], publisher, publisherHex)
        + if IsOwn(publisher, last) then [Arrival(Coordinate(publisherHex, last), last.stamp, last)] else []
  }

  predicate LaterCreated(a: Listing, b: Listing) {
    a.stamp.createdAt > b.stamp.createdAt
  }

  lemma OwnArrivalsAppend(front: seq<Listing>, last: Listing, publisher: string, publisherHex: string)
    ensures Latest(OwnArrivals(front + [last], publisher, publisherHex)) ==
      var latest := Latest(OwnArrivals(front, publisher, publisherHex));
      if IsOwn(publisher, last) then Record(latest, Arrival(Coordinate(publisherHex, last), last.stamp, last))
      else latest
  {
    var before := OwnArrivals(front, publisher, publisherHex);
    assert (front + [last])[..|front|] == front;
    if IsOwn(publisher, last) {
      var arrival := Arrival(Coordinate(publisherHex, last), last.stamp, last);
      assert (before + [arrival])[..|before|] == before;
    } else {
      assert before + [] == before;
    }
  }

  // ---------- what that list holds ----------

  /** `x` is a current listing of the publisher: its own, and every other one of the same id gives way to it. */
  ghost predicate IsCurrent(listings: seq<Listing>, publisher: string, x: Listing) {
    && x in listings && x.publisher == publisher && x.isNip99
    && forall y :: y in listings && y.publisher == publisher && y.isNip99 && y.id == x.id ==> GivesWay(y.stamp, x.stamp)
  }

  /** Current listings, one for each id of the publisher's listings, none created before a later one. */
  ghost predicate IsCurrentList(listings: seq<Listing>, publisher: string, r: seq<Listing>) {
    && (forall x :: x in r ==> IsCurrent(listings, publisher, x))
    && (forall y :: y in listings && y.publisher == publisher && y.isNip99 ==> exists x :: x in r && x.id == y.id)
    && (forall i, j :: 0 <= i < j < |r| ==> r[i].id != r[j].id)
    && (forall i, j :: 0 <= i < j < |r| ==> r[i].stamp.createdAt >= r[j].stamp.createdAt)
  }

  lemma {:induction false} OwnArrivalsHold(listings: seq<Listing>, publisher: string, publisherHex: string)
    ensures forall a :: a in OwnArrivals(listings, publisher, publisherHex) <==>
      && a.value in listings && a.value.publisher == publisher && a.value.isNip99
      && a == Arrival("30402:" + publisherHex + ":" + a.value.id, a.value.stamp, a.value)
  {
    if listings != [] {
      var front, last := listings[..|listings| - 1], listings[|listings| - 1];
      assert listings == front + [last];
      OwnArrivalsHold(front, publisher, publisherHex);
    }
  }

  lemma SameCoordinate(publisherHex: string, a: string, b: string)
    requires "30402:" + publisherHex + ":" + a == "30402:" + publisherHex + ":" + b
    ensures a == b
  {
    var front := "30402:" + publisherHex + ":";
    assert a == (front + a)[|front|..] && b == (front + b)[|front|..];
  }

  /** What is kept under a coordinate is the current listing of one id. */
  lemma WinnersAreCurrent(listings: seq<Listing>, publisher: string, publisherHex: string, k: string)
    requires k in Latest(OwnArrivals(listings, publisher, publisherHex))
    ensures
      var x := Latest(OwnArrivals(listings, publisher, publisherHex))[k].value;
      IsCurrent(listings, publisher, x) && k == "30402:" + publisherHex + ":" + x.id
  {
    var own := OwnArrivals(listings, publisher, publisherHex);
    OwnArrivalsHold(listings, publisher, publisherHex);
    LatestHoldsWinners(own);
    var x := Latest(own)[k].value;
    forall y | y in listings && y.publisher == publisher && y.isNip99 && y.id == x.id
      ensures GivesWay(y.stamp, x.stamp)
    {
      var b := Arrival("30402:" + publisherHex + ":" + y.id, y.stamp, y);
      assert b in own;
    }
  }

  lemma EveryIdIsKept(listings: seq<Listing>, publisher: string, publisherHex: string, y: Listing)
    requires y in listings && y.publisher == publisher && y.isNip99
    ensures
      var latest := Latest(OwnArrivals(listings, publisher, publisherHex));
      exists k :: k in latest && latest[k].value.id == y.id
  {
    var own := OwnArrivals(listings, publisher, publisherHex);
    OwnArrivalsHold(listings, publisher, publisherHex);
    LatestHoldsWinners(own);
    var b := Arrival("30402:" + publisherHex + ":" + y.id, y.stamp, y);
    assert b in own;
    WinnersAreCurrent(listings, publisher, publisherHex, b.key);
    SameCoordinate(publisherHex, Latest(own)[b.key].value.id, y.id);
  }

  lemma OneForEachId(listings: seq<Listing>, publisher: string, publisherHex: string, k: string, m: string)
    requires
      var latest := Latest(OwnArrivals(listings, publisher, publisherHex));
      k in latest && m in latest && latest[k].value.id == latest[m].value.id
    ensures k == m
  {
    WinnersAreCurrent(listings, publisher, publisherHex, k);
    WinnersAreCurrent(listings, publisher, publisherHex, m);
  }

  function IdOf(x: Listing): string {
    x.id
  }

  /** `r` is what is kept, in some order. */
  ghost predicate IsKept(listings: seq<Listing>, publisher: string, publisherHex: string, r: seq<Listing>) {
    var latest := Latest(OwnArrivals(listings, publisher, publisherHex));
    forall x :: x in r <==> exists k :: k in latest && latest[k].value == x
  }

  lemma KeptAreCurrent(listings: seq<Listing>, publisher: string, publisherHex: string, r: seq<Listing>)
    requires IsKept(listings, publisher, publisherHex, r)
    ensures forall x :: x in r ==> IsCurrent(listings, publisher, x)
  {
    var latest := Latest(OwnArrivals(listings, publisher, publisherHex));
    forall x | x in r ensures IsCurrent(listings, publisher, x) {
      var k :| k in latest && latest[k].value == x;
      WinnersAreCurrent(listings, publisher, publisherHex, k);
    }
  }

  lemma KeptCoverIds(listings: seq<Listing>, publisher: string, publisherHex: string, r: seq<Listing>, y: Listing)
    requires IsKept(listings, publisher, publisherHex, r)
    requires y in listings && y.publisher == publisher && y.isNip99
    ensures exists x :: x in r && x.id == y.id
  {
    EveryIdIsKept(listings, publisher, publisherHex, y);
    var latest := Latest(OwnArrivals(listings, publisher, publisherHex));
    var k :| k in latest && latest[k].value.id == y.id;
    assert latest[k].value in r;
  }

  lemma ListIsCurrent(listings: seq<Listing>, publisher: string, publisherHex: string, r: seq<Listing>)
    requires IsKept(listings, publisher, publisherHex, r)
    requires DistinctKeys(IdOf, r) && Sorted(LaterCreated, r)
    ensures IsCurrentList(listings, publisher, r)
  {
    KeptAreCurrent(listings, publisher, publisherHex, r);
    forall y | y in listings && y.publisher == publisher && y.isNip99 ensures exists x :: x in r && x.id == y.id {
      KeptCoverIds(listings, publisher, publisherHex, r, y);
    }
    forall i, j | 0 <= i < j < |r| ensures r[i].id != r[j].id && r[i].stamp.createdAt >= r[j].stamp.createdAt {
      assert IdOf(r[i]) != IdOf(r[j]) && !LaterCreated(r[j], r[i]);
    }
  }

  /** The winner of every coordinate of one publisher, latest first. */
  method CurrentUserListings(listings: seq<Listing>, publisher: string, publisherHex: string) returns (r: seq<Listing>)
    ensures IsCurrentList(listings, publisher, r)
    ensures
      var winners := Latest(OwnArrivals(listings, publisher, publisherHex));
      && (forall x :: x in r <==> exists k :: k in winners && winners[k].value == x)
      && |r| == |winners|
    ensures Sorted(LaterCreated, r)
  {
    var latest: map<string, Arrival<string, Listing>> := map[];
    for i := 0 to |listings|
      invariant latest == Latest(OwnArrivals(listings[..i], publisher, publisherHex))
    {
      var listing := listings[i];
      OwnArrivalsAppend(listings[..i], listing, publisher, publisherHex);
      assert listings[..i + 1] == listings[..i] + [listing];
      if IsOwn(publisher, listing) {
        latest := Record(latest, Arrival(Coordinate(publisherHex, listing), listing.stamp, listing));
      }
    }
    assert listings[..|listings|] == listings;
    forall k, m | k in latest && m in latest && latest[k].value.id == latest[m].value.id ensures k == m {
      OneForEachId(listings, publisher, publisherHex, k, m);
    }
    var values := ValuesOf(latest);
    r := SortListings(values);
    ListIsCurrent(listings, publisher, publisherHex, r);
  }

  method SortListings(values: seq<Listing>) returns (r: seq<Listing>)
    requires DistinctKeys(IdOf, values)
    ensures Sorted(LaterCreated, r) && |r| == |values| && DistinctKeys(IdOf, r)
    ensures forall x :: x in r <==> x in values
  {
    SortSorted(LaterCreated, values);
    SortMembers(LaterCreated, values);
    r := Sort(LaterCreated, values);
    forall i, j | 0 <= i < j < |r| ensures IdOf(r[i]) != IdOf(r[j]) {
      SortKeepsDistinct(LaterCreated, IdOf, values, i, j);
    }
  }

  /** `values` are what the map holds under these keys, each id once. */
  ghost predicate ValuesFor(latest: map<string, Arrival<string, Listing>>, keys: set<string>, values: seq<Listing>) {
    && (forall x :: x in values <==> exists k :: k in keys && k in latest && latest[k].value == x)
    && |values| == |keys| && DistinctKeys(IdOf, values)
  }

  ghost predicate OneKeyForEachId(latest: map<string, Arrival<string, Listing>>) {
    forall k, m :: k in latest && m in latest && latest[k].value.id == latest[m].value.id ==> k == m
  }

  lemma OneValueMore(latest: map<string, Arrival<string, Listing>>, keys: set<string>, values: seq<Listing>, k: string)
    requires OneKeyForEachId(latest) && ValuesFor(latest, keys, values) && k in latest && k !in keys
    ensures ValuesFor(latest, keys + {k}, values + [latest[k].value])
  {
    var longer := values + [latest[k].value];
    DistinctKeysAppend(IdOf, values, latest[k].value);
    forall x ensures x in longer <==> exists m :: m in keys + {k} && m in latest && latest[m].value == x {
      if m :| m in keys + {k} && m in latest && latest[m].value == x {
        assert m == k || x in values;
      }
      if x in values {
        var m :| m in keys && m in latest && latest[m].value == x;
        assert m in keys + {k};
      }
      if x == latest[k].value {
        assert k in keys + {k};
      }
    }
  }

  /** The values of a map in some order. */
  method ValuesOf(latest: map<string, Arrival<string, Listing>>) returns (values: seq<Listing>)
    requires OneKeyForEachId(latest)
    ensures DistinctKeys(IdOf, values)
    ensures forall x :: x in values <==> exists k :: k in latest && latest[k].value == x
    ensures |values| == |latest|
  {
    values := [];
    var todo := latest.Keys;
    ghost var done: set<string> := {};
    while todo != {}
      invariant done + todo == latest.Keys && done !! todo
      invariant ValuesFor(latest, done, values)
      decreases todo
    {
      var k :| k in todo;
      MoveOne(done, todo, k);
      OneValueMore(latest, done, values, k);
      values := values + [latest[k].value];
      done, todo := done + {k}, todo - {k};
    }
    assert done == latest.Keys;
  }

  /** Listings that were streamed and listings held locally settle on the same event for a coordinate. */
  lemma StreamAgreesWithCurrent(products: seq<Product>, listings: seq<Listing>, publisher: string, publisherHex: string,
                                coordinate: string)
    requires forall s :: StampArrived(products, coordinate, s) <==>
      exists a :: a in OwnArrivals(listings, publisher, publisherHex) && a.key == coordinate && a.stamp == s
    ensures coordinate in Latest(products) <==> coordinate in Latest(OwnArrivals(listings, publisher, publisherHex))
    ensures coordinate in Latest(products) ==>
      Latest(products)[coordinate].stamp == Latest(OwnArrivals(listings, publisher, publisherHex))[coordinate].stamp
  {
    var own := OwnArrivals(listings, publisher, publisherHex);
    LatestHoldsWinners(products);
    LatestHoldsWinners(own);
    if coordinate in Latest(products) {
      var a := Latest(products)[coordinate];
      assert StampArrived(products, coordinate, a.stamp);
      var b := Latest(own)[coordinate];
      assert StampArrived(products, coordinate, b.stamp);
      NewerIsStrictTotalOrder(a.stamp, b.stamp, b.stamp);
    }
    if coordinate in Latest(own) {
      assert StampArrived(products, coordinate, Latest(own)[coordinate].stamp);
    }
  }

  ghost predicate StampArrived(products: seq<Product>, coordinate: string, s: Stamp) {
    exists p :: p in products && p.key == coordinate && p.stamp == s
  }
}
