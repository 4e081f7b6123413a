/** The cached listings table: one guarded upsert, and what any history of upserts leaves behind. */
module MarketplaceCache {
  import opened Base
  import opened Text
  import opened Replaceable

  /** Every column the upsert writes besides the keys, the dates and the source event. */
  datatype Columns = Columns(
    title: string, description: string, priceSats: int, priceAmount: Option<string>, priceCurrency: Option<string>,
    downloadUrl: string, tags: string, specs: string, lud16: string, images: string, platforms: string,
    nip94: Option<string>, acquisition: Option<string>, summary: Option<string>, publishedAt: Option<int>,
    location: Option<string>, geohash: Option<string>, status: Option<string>)

  datatype Row = Row(columns: Columns, createdAt: int, sourceEventId: Option<string>, updatedAt: int)

  datatype Key = Key(publisher: string, productId: string)

  type Table = map<Key, Row>

  datatype UpsertOutcome = Inserted | Updated | Unchanged

  /** A listing to store: its key, its stamp, and the columns serialized for it. */
  type Listing = Arrival<Key, Columns>

  /** `as i64`: the upper half of the unsigned range turns negative. */
  function AsI64(n: u64): int {
    if n <= I64_MAX then n else n - U64_MAX - 1
  }

  function RowOf(listing: Listing, now: int): Row {
    Row(listing.value, AsI64(listing.stamp.createdAt), listing.stamp.eventId, now)
  }

  /** The row holds `listing`: its columns, its event id, and its timestamp as the signed number of the same 64 bits;
      the moment it was written is left open. */
  predicate Holds(row: Row, listing: Listing) {
    && row.columns == listing.value
    && row.sourceEventId == listing.stamp.eventId
    && -I64_MAX - 1 <= row.createdAt <= I64_MAX
    && (row.createdAt == listing.stamp.createdAt || row.createdAt + U64_MAX + 1 == listing.stamp.createdAt)
  }

  /** The serialized acquisition policy of a listing is never absent or empty. */
  predicate Serialized(listing: Listing) {
    listing.value.acquisition.Some? && listing.value.acquisition.value != ""
  }

  // ---------- the conflict guard ----------

  function Text0(s: Option<string>): string {
    if s.Some? then s.value else ""
  }

  function Int0(n: Option<int>): int {
    if n.Some? then n.value else 0
  }

  /** First conjunct of the guard: a legacy row, or a later event, or the lower id at the same instant. */
  predicate Outranks(excluded: Row, stored: Row) {
    || stored.columns.acquisition.None?
    || excluded.createdAt > stored.createdAt
    || (&& excluded.createdAt == stored.createdAt
        && excluded.sourceEventId.Some?
        && (stored.sourceEventId.None? || Less(excluded.sourceEventId.value, stored.sourceEventId.value)))
  }

  /** Second conjunct of the guard: some column would change. */
  predicate Differs(stored: Row, excluded: Row) {
    var a, b := stored.columns, excluded.columns;
    || a.title != b.title || a.description != b.description || a.priceSats != b.priceSats
    || Text0(a.priceAmount) != Text0(b.priceAmount) || Text0(a.priceCurrency) != Text0(b.priceCurrency)
    || a.downloadUrl != b.downloadUrl || a.tags != b.tags || a.specs != b.specs || a.lud16 != b.lud16
    || stored.createdAt != excluded.createdAt || stored.sourceEventId != excluded.sourceEventId
    || a.images != b.images || a.platforms != b.platforms || Text0(a.nip94) != Text0(b.nip94)
    || Text0(a.acquisition) != Text0(b.acquisition) || Text0(a.summary) != Text0(b.summary)
    || Int0(a.publishedAt) != Int0(b.publishedAt) || Text0(a.location) != Text0(b.location)
    || Text0(a.geohash) != Text0(b.geohash) || Text0(a.status) != Text0(b.status)
  }

  /** A row as readers see it: an absent text reads as empty, an absent number as zero. */
  function AsRead(row: Row): (Columns, int, Option<string>) {
    var c := row.columns;
    var text := (s: Option<string>) => if s == None then Some("") else s;
    (Columns(
       c.title, c.description, c.priceSats, text(c.priceAmount), text(c.priceCurrency), c.downloadUrl,
       c.tags, c.specs, c.lud16, c.images, c.platforms, text(c.nip94), text(c.acquisition), text(c.summary),
       if c.publishedAt == None then Some(0) else c.publishedAt, text(c.location), text(c.geohash), text(c.status)),
     row.createdAt, row.sourceEventId)
  }

  /** Rows differ exactly when they read differently, whenever they were written. */
  lemma DiffersIff(stored: Row, excluded: Row)
    ensures Differs(stored, excluded) <==> AsRead(stored) != AsRead(excluded)
  {
  }

  predicate Overwrites(table: Table, listing: Listing, now: int) {
    listing.key !in table ||
    (Outranks(RowOf(listing, now), table[listing.key]) && Differs(table[listing.key], RowOf(listing, now)))
  }

  class Cache {
    var table: Table

    constructor ()
      ensures table == map[]
    {
      table := map[];
    }

    method UpsertListing(listing: Listing, now: int) returns (outcome: UpsertOutcome)
      modifies this
      ensures table == if Overwrites(old(table), listing, now) then old(table)[listing.key := RowOf(listing, now)]
                       else old(table)
      ensures outcome == Inserted <==> listing.key !in old(table)
      ensures outcome == Updated <==> listing.key in old(table) && Overwrites(old(table), listing, now)
      ensures outcome == Updated ==> Differs(old(table)[listing.key], table[listing.key])
      ensures outcome != Unchanged ==> Holds(table[listing.key], listing) && table[listing.key].updatedAt == now
      ensures outcome == Unchanged ==> table == old(table)
    {
      var existed := listing.key in table;
      var excluded := RowOf(listing, now);
      if existed {
        var stored := table[listing.key];
        if !(Outranks(excluded, stored) && Differs(stored, excluded)) {
          return Unchanged;
        }
      }
      table := table[listing.key := excluded];
      return if existed then Updated else Inserted;
    }
  }

  // ---------- the guard against the shared order ----------

  predicate SameHalf(a: u64, b: u64) {
    a <= I64_MAX <==> b <= I64_MAX
  }

  /** On a row written for `stored`, the guard is the shared order exactly when both timestamps fall in the
      same half of the unsigned range; across the halves the signed comparison reverses it. */
  lemma GuardIsNewerIff(stored: Listing, listing: Listing, written: int, now: int)
    requires Serialized(stored)
    ensures (Outranks(RowOf(listing, now), RowOf(stored, written)) <==> Newer(listing.stamp, stored.stamp)) <==>
      SameHalf(stored.stamp.createdAt, listing.stamp.createdAt)
  {
  }

  /** An event at instant 0 pushes out one whose timestamp is just past the signed range. */
  lemma SignedComparisonReverses(key: Key, columns: Columns, now: int)
    requires columns.acquisition.Some?
    ensures
      var stored := Arrival(key, Stamp(I64_MAX + 1, Some("a")), columns);
      var listing := Arrival(key, Stamp(0, Some("b")), columns);
      Newer(stored.stamp, listing.stamp) && Overwrites(map[key := RowOf(stored, now)], listing, now)
  {
    var stored := Arrival(key, Stamp(I64_MAX + 1, Some("a")), columns);
    var listing := Arrival(key, Stamp(0, Some("b")), columns);
    assert RowOf(stored, now).createdAt == -I64_MAX - 1 && RowOf(listing, now).createdAt == 0;
  }

  /** The second conjunct never matters: what outranks a current row differs from it. */
  lemma OutrankingDiffers(stored: Row, excluded: Row)
    requires stored.columns.acquisition.Some? && Outranks(excluded, stored)
    ensures Differs(stored, excluded)
  {
    if excluded.sourceEventId.Some? {
      LessIrreflexive(excluded.sourceEventId.value);
    }
  }

  // ---------- every history of upserts ----------

  datatype Upsert = Upsert(listing: Listing, now: int)

  function Apply(table: Table, u: Upsert): Table {
    if Overwrites(table, u.listing, u.now) then table[u.listing.key := RowOf(u.listing, u.now)] else table
  }

  function Run(upserts: seq<Upsert>): Table {
    if upserts == [] then map[] else Apply(Run(upserts[..|upserts| - 1]), upserts[|upserts| - 1])
  }

  function Listings(upserts: seq<Upsert>): seq<Listing> {
    if upserts == [] then [] else Listings(upserts[..|upserts| - 1]) + [upserts[|upserts| - 1].listing]
  }

  ghost predicate AllSerialized(upserts: seq<Upsert>) {
    forall u :: u in upserts ==> Serialized(u.listing)
  }

  // ---------- the order the table really keeps ----------

  /** The stamp as the table compares it: signed time, shifted back into the unsigned range. */
  function SignedStamp(s: Stamp): Stamp {
    Stamp(AsI64(s.createdAt) + I64_MAX + 1, s.eventId)
  }

  function Ranked(l: Listing): Arrival<Key, Listing> {
    Arrival(l.key, SignedStamp(l.stamp), l)
  }

  function RankedAll(listings: seq<Listing>): (r: seq<Arrival<Key, Listing>>)
    ensures forall a :: a in r <==> a.value in listings && a == Ranked(a.value)
  {
    if listings == [] then []
    else
      var front, last := listings[..|listings| - 1], listings[|listings| - 1];
      assert listings == front + [last];
      RankedAll(front) + [Ranked(last)]
  }

  /** On a row written for `stored`, the guard is exactly the order on signed stamps. */
  lemma GuardIsSignedOrder(stored: Listing, listing: Listing, written: int, now: int)
    requires Serialized(stored)
    ensures Outranks(RowOf(listing, now), RowOf(stored, written)) <==>
      Newer(SignedStamp(listing.stamp), SignedStamp(stored.stamp))
  {
  }

  lemma UpsertFollowsSignedOrder(table: Table, stored: Listing, u: Upsert)
    requires u.listing.key in table && Holds(table[u.listing.key], stored) && Serialized(stored)
    ensures Overwrites(table, u.listing, u.now) <==> Newer(SignedStamp(u.listing.stamp), SignedStamp(stored.stamp))
  {
    var row := table[u.listing.key];
    GuardIsSignedOrder(stored, u.listing, row.updatedAt, u.now);
    if Outranks(RowOf(u.listing, u.now), row) {
      OutrankingDiffers(row, RowOf(u.listing, u.now));
    }
  }

  function Winners(upserts: seq<Upsert>): map<Key, Arrival<Key, Listing>> {
    Latest(RankedAll(Listings(upserts)))
  }

  lemma WinnersAppend(front: seq<Upsert>, u: Upsert)
    ensures Winners(front + [u]) == Record(Winners(front), Ranked(u.listing))
    ensures Listings(front + [u]) == Listings(front) + [u.listing]
  {
    assert (front + [u])[..|front|] == front;
    var before := Listings(front);
    assert (before + [u.listing])[..|before|] == before;
    var ranked := RankedAll(before);
    assert (ranked + [Ranked(u.listing)])[..|ranked|] == ranked;
  }

  lemma {:induction false} ListingsAreSerialized(upserts: seq<Upsert>)
    requires AllSerialized(upserts)
    ensures forall l :: l in Listings(upserts) ==> Serialized(l)
  {
    if upserts != [] {
      var front, u := upserts[..|upserts| - 1], upserts[|upserts| - 1];
      assert upserts == front + [u];
      ListingsAreSerialized(front);
    }
  }

  /** The table holds, key for key, what `winners` do. */
  ghost predicate HoldsAll(table: Table, winners: map<Key, Arrival<Key, Listing>>) {
    table.Keys == winners.Keys && forall k :: k in table ==> Holds(table[k], winners[k].value)
  }

  lemma ApplyKeepsWinners(table: Table, winners: map<Key, Arrival<Key, Listing>>, u: Upsert)
    requires HoldsAll(table, winners)
    requires u.listing.key in winners ==>
      var w := winners[u.listing.key];
      Serialized(w.value) && w.stamp == SignedStamp(w.value.stamp)
    ensures HoldsAll(Apply(table, u), Record(winners, Ranked(u.listing)))
  {
    if u.listing.key in winners {
      UpsertFollowsSignedOrder(table, winners[u.listing.key].value, u);
    }
  }

  /** After any history of upserts every key holds the winner by signed stamp. */
  lemma {:induction false} CacheKeepsSignedWinners(upserts: seq<Upsert>)
    requires AllSerialized(upserts)
    ensures Run(upserts).Keys == Winners(upserts).Keys
    ensures forall k :: k in Run(upserts) ==> Holds(Run(upserts)[k], Winners(upserts)[k].value)
  {
    if upserts != [] {
      var front, u := upserts[..|upserts| - 1], upserts[|upserts| - 1];
      assert upserts == front + [u];
      CacheKeepsSignedWinners(front);
      WinnersAppend(front, u);
      ListingsAreSerialized(front);
      LatestHoldsWinners(RankedAll(Listings(front)));
      ApplyKeepsWinners(Run(front), Winners(front), u);
    }
  }

  lemma SignedStampsDetermine(listings: seq<Listing>)
    requires StampsDetermine(listings)
    ensures StampsDetermine(RankedAll(listings))
  {
  }

  lemma SameRanked(a: seq<Listing>, b: seq<Listing>)
    requires forall x :: x in a <==> x in b
    ensures forall x :: x in RankedAll(a) <==> x in RankedAll(b)
  {
  }

  /** Two histories of the same listings leave the same rows, up to when they were written. */
  lemma CachesAgree(a: seq<Upsert>, b: seq<Upsert>, key: Key)
    requires AllSerialized(a) && AllSerialized(b)
    requires StampsDetermine(Listings(a)) && forall x :: x in Listings(a) <==> x in Listings(b)
    ensures key in Run(a) <==> key in Run(b)
    ensures key in Run(a) ==> Run(a)[key].(updatedAt := 0) == Run(b)[key].(updatedAt := 0)
  {
    CacheKeepsSignedWinners(a);
    CacheKeepsSignedWinners(b);
    SignedStampsDetermine(Listings(a));
    SameRanked(Listings(a), Listings(b));
    LatestIsOrderIndependent(RankedAll(Listings(a)), RankedAll(Listings(b)));
  }

  // ---------- when that is the shared order ----------

  /** The listings of a key all lie in one half of the unsigned range. */
  ghost predicate OneHalf(listings: seq<Listing>, key: Key) {
    forall x, y :: x in listings && y in listings && x.key == y.key == key ==>
      SameHalf(x.stamp.createdAt, y.stamp.createdAt)
  }

  lemma SignedOrderAgrees(x: Stamp, y: Stamp)
    requires SameHalf(x.createdAt, y.createdAt)
    ensures Newer(SignedStamp(x), SignedStamp(y)) <==> Newer(x, y)
  {
  }

  /** `ranked` holds what `plain` does for this key, in signed time. */
  ghost predicate SameEntry(ranked: map<Key, Arrival<Key, Listing>>, plain: map<Key, Listing>, key: Key) {
    (key in ranked <==> key in plain) && (key in plain ==> ranked[key] == Ranked(plain[key]))
  }

  lemma RecordsAgree(ranked: map<Key, Arrival<Key, Listing>>, plain: map<Key, Listing>, key: Key, last: Listing)
    requires SameEntry(ranked, plain, key)
    requires last.key == key && key in plain ==> SameHalf(last.stamp.createdAt, plain[key].stamp.createdAt)
    ensures SameEntry(Record(ranked, Ranked(last)), Record(plain, last), key)
  {
    if last.key == key && key in plain {
      SignedOrderAgrees(last.stamp, plain[key].stamp);
    }
  }

  /** The table and the shared order keep the same listing of a key while it stays in one half. */
  lemma {:induction false} OneHalfConverges(listings: seq<Listing>, key: Key)
    requires OneHalf(listings, key)
    ensures SameEntry(Latest(RankedAll(listings)), Latest(listings), key)
    ensures key in Latest(listings) ==> Latest(listings)[key] in listings && Latest(listings)[key].key == key
  {
    if listings != [] {
      var front, last := listings[..|listings| - 1], listings[|listings| - 1];
      assert listings == front + [last];
      OneHalfConverges(front, key);
      var ranked := RankedAll(front);
      assert (ranked + [Ranked(last)])[..|ranked|] == ranked;
      RecordsAgree(Latest(ranked), Latest(front), key, last);
    }
  }

  lemma UpperHalfWins(listings: seq<Listing>, x: Listing)
    requires x in listings && x.stamp.createdAt > I64_MAX
    ensures x.key in Latest(listings) && Latest(listings)[x.key].stamp.createdAt > I64_MAX
  {
    LatestHoldsWinners(listings);
    assert !Newer(x.stamp, Latest(listings)[x.key].stamp);
  }

  lemma LowerHalfWinsSigned(listings: seq<Listing>, x: Listing)
    requires x in listings && x.stamp.createdAt <= I64_MAX
    ensures x.key in Latest(RankedAll(listings))
    ensures Latest(RankedAll(listings))[x.key].value.stamp.createdAt <= I64_MAX
  {
    assert Ranked(x) in RankedAll(listings);
    LatestHoldsWinners(RankedAll(listings));
    assert !Newer(SignedStamp(x.stamp), Latest(RankedAll(listings))[x.key].stamp);
  }

  /** With both halves present the table ends in the lower one, the shared order in the upper one. */
  lemma TwoHalvesDiverge(listings: seq<Listing>, key: Key)
    requires !OneHalf(listings, key)
    ensures key in Latest(listings) && key in Latest(RankedAll(listings))
    ensures Latest(listings)[key].stamp.createdAt > I64_MAX
    ensures Latest(RankedAll(listings))[key].value.stamp.createdAt <= I64_MAX
  {
    var x, y :| x in listings && y in listings && x.key == y.key == key &&
      x.stamp.createdAt <= I64_MAX < y.stamp.createdAt;
    LowerHalfWinsSigned(listings, x);
    UpperHalfWins(listings, y);
  }

  /** A key ends at the winner of the shared order exactly when its listings all lie in one half of the range. */
  lemma CacheConvergesIff(upserts: seq<Upsert>, key: Key)
    requires AllSerialized(upserts)
    ensures key in Run(upserts) <==> key in Latest(Listings(upserts))
    ensures key in Run(upserts) ==>
      (Holds(Run(upserts)[key], Latest(Listings(upserts))[key]) <==> OneHalf(Listings(upserts), key))
  {
    CacheKeepsSignedWinners(upserts);
    if OneHalf(Listings(upserts), key) {
      OneHalfConverges(Listings(upserts), key);
    } else {
      TwoHalvesDiverge(Listings(upserts), key);
    }
  }
}
