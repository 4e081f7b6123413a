/** Writing the followed-by graph in batches, with counts and relay hints kept alongside. */
module SocialGraph {
  import opened Base
  import opened Protocol

  const FLUSH_THRESHOLD: nat := 5000

  /** One p-tag: who is followed, by whom, and the relay hint if the tag has a third value. */
  datatype Entry = Entry(target: string, follower: string, hint: Option<string>)

  datatype Pair = Pair(target: string, follower: string)

  function TagEntry(tag: Tag, follower: string): seq<Entry> {
    if |tag| >= 2 && tag[0] == "p" then [Entry(tag[1], follower, if |tag| >= 3 then Some(tag[2]) else None)] else []
  }

  function ListEntries(tags: seq<Tag>, follower: string): seq<Entry> {
    if tags == [] then [] else ListEntries(tags[..|tags| - 1], follower) + TagEntry(tags[|tags| - 1], follower)
  }

  type FollowLists = map<string, Event>

  /** All p-tags when the lists are visited in the given order. */
  function Entries(order: seq<string>, lists: FollowLists): seq<Entry>
    requires forall f :: f in order ==> f in lists
  {
    if order == [] then []
    else
      var front, last := order[..|order| - 1], order[|order| - 1];
      Entries(front, lists) + ListEntries(lists[last].tags, last)
  }

  function PairOf(e: Entry): Pair {
    Pair(e.target, e.follower)
  }

  function Pairs(entries: seq<Entry>): seq<Pair> {
    seq(|entries|, i requires 0 <= i < |entries| => PairOf(entries[i]))
  }

  function Count(entries: seq<Entry>, target: string): nat {
    |Filter((e: Entry) => e.target == target, entries)|
  }

  lemma CountConcat(a: seq<Entry>, b: seq<Entry>, target: string)
    ensures Count(a + b, target) == Count(a, target) + Count(b, target)
  {
    FilterConcat((e: Entry) => e.target == target, a, b);
  }

  lemma CountOne(e: Entry, target: string)
    ensures Count([e], target) == if e.target == target then 1 else 0
  {
    FilterSingle((x: Entry) => x.target == target, e);
  }

  /** The admitted hints given for a target, in order. */
  function HintsFor(entries: seq<Entry>, target: string, admit: string -> Option<string>): seq<string> {
    if entries == [] then []
    else
      var last := entries[|entries| - 1];
      HintsFor(entries[..|entries| - 1], target, admit)
        + (if last.target == target && last.hint.Some? && admit(last.hint.value).Some?
           then [admit(last.hint.value).value] else [])
  }

  // ---------- the tables ----------

  function Concat(batches: seq<seq<Pair>>): seq<Pair> {
    if batches == [] then [] else Concat(batches[..|batches| - 1]) + batches[|batches| - 1]
  }

  lemma ConcatAppend(batches: seq<seq<Pair>>, batch: seq<Pair>)
    ensures Concat(batches + [batch]) == Concat(batches) + batch
  {
    assert (batches + [batch])[..|batches|] == batches;
  }

  class SocialGraphDb {
    var rows: set<Pair>
    ghost var batches: seq<seq<Pair>>

    constructor ()
      ensures rows == {} && batches == []
    {
      rows, batches := {}, [];
    }

    method InsertBatch(pairs: seq<Pair>)
      modifies this
      ensures rows == old(rows) + ToSet(pairs)
      ensures batches == if pairs == [] then old(batches) else old(batches) + [pairs]
    {
      if pairs == [] {
        assert rows + ToSet(pairs) == rows;
        return;
      }
      for i := 0 to |pairs|
        invariant rows == old(rows) + ToSet(pairs[..i])
        invariant batches == old(batches)
      {
        assert pairs[..i + 1] == pairs[..i] + [pairs[i]];
        rows := rows + {pairs[i]};
      }
      assert pairs[..|pairs|] == pairs;
      batches := batches + [pairs];
    }
  }

  type Counts = map<string, nat>
  type Hints = map<string, seq<string>>

  datatype Scan = Scan(me: string, firstDegree: set<string>, admit: string -> Option<string>) {
    predicate Eligible(target: string) {
      target != me && target !in firstDegree
    }
  }

  ghost predicate CountsOk(scan: Scan, counts: Counts, entries: seq<Entry>) {
    && (forall t :: t in counts <==> t != scan.me && t !in scan.firstDegree && Count(entries, t) > 0)
    && (forall t :: t in counts ==> counts[t] == Count(entries, t))
  }

  ghost predicate HintsOk(scan: Scan, hints: Hints, entries: seq<Entry>) {
    && (forall t :: t in hints <==>
          t != scan.me && t !in scan.firstDegree && HintsFor(entries, t, scan.admit) != [])
    && (forall t :: t in hints ==> hints[t] == HintsFor(entries, t, scan.admit))
  }

  function AddCount(scan: Scan, counts: Counts, e: Entry): Counts {
    if scan.Eligible(e.target) then counts[e.target := (if e.target in counts then counts[e.target] else 0) + 1]
    else counts
  }

  function AddHint(scan: Scan, hints: Hints, e: Entry): Hints {
    if scan.Eligible(e.target) && e.hint.Some? && scan.admit(e.hint.value).Some? then
      hints[e.target := (if e.target in hints then hints[e.target] else []) + [scan.admit(e.hint.value).value]]
    else
      hints
  }

  lemma AddCountOk(scan: Scan, counts: Counts, entries: seq<Entry>, e: Entry)
    requires CountsOk(scan, counts, entries)
    ensures CountsOk(scan, AddCount(scan, counts, e), entries + [e])
  {
    forall t ensures Count(entries + [e], t) == Count(entries, t) + if e.target == t then 1 else 0 {
      CountConcat(entries, [e], t);
      CountOne(e, t);
    }
  }

  lemma AddHintOk(scan: Scan, hints: Hints, entries: seq<Entry>, e: Entry)
    requires HintsOk(scan, hints, entries)
    ensures HintsOk(scan, AddHint(scan, hints, e), entries + [e])
  {
    assert (entries + [e])[..|entries|] == entries;
    forall t ensures HintsFor(entries + [e], t, scan.admit) == HintsFor(entries, t, scan.admit)
      + if e.target == t && e.hint.Some? && scan.admit(e.hint.value).Some? then [scan.admit(e.hint.value).value] else []
    {
    }
  }

  /** The running state after some entries: what is still unflushed, the counts and the hints. */
  ghost predicate ScanOk(scan: Scan, batch: seq<Pair>, counts: Counts, hints: Hints, flushed: seq<Pair>,
                         entries: seq<Entry>) {
    && flushed + batch == Pairs(entries)
    && CountsOk(scan, counts, entries)
    && HintsOk(scan, hints, entries)
  }

  lemma ScanStep(scan: Scan, batch: seq<Pair>, counts: Counts, hints: Hints, flushed: seq<Pair>, entries: seq<Entry>,
                 e: Entry)
    requires ScanOk(scan, batch, counts, hints, flushed, entries)
    ensures ScanOk(
              scan, batch + [PairOf(e)], AddCount(scan, counts, e), AddHint(scan, hints, e), flushed, entries + [e])
  {
    AddCountOk(scan, counts, entries, e);
    AddHintOk(scan, hints, entries, e);
    assert Pairs(entries + [e]) == Pairs(entries) + [PairOf(e)];
    assert flushed + (batch + [PairOf(e)]) == (flushed + batch) + [PairOf(e)];
  }

  /** Scans one follow list. */
  method ScanList(scan: Scan, tags: seq<Tag>, follower: string, batch0: seq<Pair>, counts0: Counts, hints0: Hints,
                  ghost flushed: seq<Pair>, ghost entries: seq<Entry>)
    returns (batch: seq<Pair>, counts: Counts, hints: Hints)
    requires ScanOk(scan, batch0, counts0, hints0, flushed, entries)
    ensures ScanOk(scan, batch, counts, hints, flushed, entries + ListEntries(tags, follower))
  {
    batch, counts, hints := batch0, counts0, hints0;
    assert entries + ListEntries([], follower) == entries;
    for i := 0 to |tags|
      invariant ScanOk(scan, batch, counts, hints, flushed, entries + ListEntries(tags[..i], follower))
    {
      assert tags[..i + 1][..i] == tags[..i];
      var found := TagEntry(tags[i], follower);
      ghost var before := entries + ListEntries(tags[..i], follower);
      assert entries + ListEntries(tags[..i + 1], follower) == before + found;
      if found != [] {
        var e := found[0];
        assert found == [e];
        ScanStep(scan, batch, counts, hints, flushed, before, e);
        batch, counts, hints := batch + [PairOf(e)], AddCount(scan, counts, e), AddHint(scan, hints, e);
      } else {
        assert before + found == before;
      }
    }
    assert tags[..|tags|] == tags;
  }

  /** The batches written by one scan: every one is non-empty, and only the last may be below the threshold. */
  ghost predicate BatchesOk(batches: seq<seq<Pair>>) {
    forall i :: 0 <= i < |batches| ==> batches[i] != [] && (i < |batches| - 1 ==> |batches[i]| >= 5000)
  }

  ghost predicate AllFull(batches: seq<seq<Pair>>) {
    forall i :: 0 <= i < |batches| ==> |batches[i]| >= FLUSH_THRESHOLD
  }

  /** The tables after `written` on top of what they held before. */
  ghost predicate Holds(db: SocialGraphDb, batches: seq<seq<Pair>>, rows: set<Pair>, written: seq<seq<Pair>>)
    reads db
  {
    db.batches == batches + written && db.rows == rows + ToSet(Concat(written))
  }

  /** Writes out the pending pairs. */
  method Flush(db: SocialGraphDb, batch: seq<Pair>, ghost batches: seq<seq<Pair>>, ghost rows: set<Pair>,
               ghost written: seq<seq<Pair>>)
    requires batch != [] && Holds(db, batches, rows, written)
    modifies db
    ensures Holds(db, batches, rows, written + [batch])
    ensures Concat(written + [batch]) == Concat(written) + batch
    ensures AllFull(written) && |batch| >= FLUSH_THRESHOLD ==> AllFull(written + [batch])
  {
    db.InsertBatch(batch);
    ConcatAppend(written, batch);
    assert batches + (written + [batch]) == batches + written + [batch];
    assert ToSet(Concat(written) + batch) == ToSet(Concat(written)) + ToSet(batch);
  }

  /** The database after some batches were written to it. */
  twostate predicate Written(db: SocialGraphDb, written: seq<seq<Pair>>)
    reads db
  {
    Holds(db, old(db.batches), old(db.rows), written)
  }

  /** The lists visited so far, in the order of the visit. */
  ghost predicate Visited(order: seq<string>, todo: set<string>, lists: FollowLists) {
    todo <= lists.Keys && Distinct(order) && forall f :: f in order <==> f in lists && f !in todo
  }

  lemma VisitedStep(order: seq<string>, todo: set<string>, lists: FollowLists, follower: string)
    requires Visited(order, todo, lists) && follower in todo
    ensures Visited(order + [follower], todo - {follower}, lists)
    ensures Entries(order + [follower], lists) ==
      Entries(order, lists) + ListEntries(lists[follower].tags, follower)
  {
    assert (order + [follower])[..|order|] == order;
  }

  lemma NothingPending(scan: Scan, counts: Counts, hints: Hints, written: seq<Pair>, batch: seq<Pair>,
                       entries: seq<Entry>)
    requires ScanOk(scan, batch, counts, hints, written, entries)
    ensures ScanOk(scan, [], counts, hints, written + batch, entries)
  {
    assert written + batch + [] == written + batch;
  }

  /** Pairs pile up list by list, and are written out whenever 5000 or more are pending: what is written, and what is
      still pending. */
  ghost function Piled(order: seq<string>, lists: FollowLists): (seq<seq<Pair>>, seq<Pair>)
    requires forall f :: f in order ==> f in lists
  {
    if order == [] then ([], [])
    else
      var last := order[|order| - 1];
      var before := Piled(order[..|order| - 1], lists);
      var pending := before.1 + Pairs(ListEntries(lists[last].tags, last));
      if |pending| >= 5000 then (before.0 + [pending], []) else (before.0, pending)
  }

  lemma PairsConcat(a: seq<Entry>, b: seq<Entry>)
    ensures Pairs(a + b) == Pairs(a) + Pairs(b)
  {
  }

  lemma PendingGrows(flushed: seq<Pair>, before: seq<Pair>, after: seq<Pair>, entries: seq<Entry>, added: seq<Entry>)
    requires flushed + before == Pairs(entries) && flushed + after == Pairs(entries + added)
    ensures after == before + Pairs(added)
  {
    PairsConcat(entries, added);
    assert flushed + after == flushed + (before + Pairs(added));
    assert after == (flushed + after)[|flushed|..];
  }

  lemma PilesUp(order: seq<string>, lists: FollowLists, follower: string, before: seq<Pair>, after: seq<Pair>)
    requires (forall f :: f in order ==> f in lists) && follower in lists
    requires Piled(order, lists).1 == before && after == before + Pairs(ListEntries(lists[follower].tags, follower))
    ensures
      var written := Piled(order, lists).0;
      Piled(order + [follower], lists) == if |after| >= 5000 then (written + [after], []) else (written, after)
  {
    assert (order + [follower])[..|order|] == order;
  }

  /** Visits the follow lists in any order, flushing full batches as it goes. */
  method BuildSocialGraph(db: SocialGraphDb, lists: FollowLists, scan: Scan)
    returns (counts: Counts, hints: Hints, ghost order: seq<string>, ghost written: seq<seq<Pair>>)
    modifies db
    ensures Distinct(order) && forall f :: f in order <==> f in lists
    ensures Written(db, written) && BatchesOk(written)
    ensures written == Piled(order, lists).0 + if Piled(order, lists).1 == [] then [] else [Piled(order, lists).1]
    ensures Concat(written) == Pairs(Entries(order, lists))
    ensures CountsOk(scan, counts, Entries(order, lists))
    ensures HintsOk(scan, hints, Entries(order, lists))
  {
    counts, hints, order, written := map[], map[], [], [];
    var batch: seq<Pair> := [];
    var todo := lists.Keys;
    assert Concat(written) + batch == Pairs([]);
    while todo != {}
      invariant Visited(order, todo, lists)
      invariant ScanOk(scan, batch, counts, hints, Concat(written), Entries(order, lists))
      invariant Written(db, written) && AllFull(written)
      invariant Piled(order, lists) == (written, batch)
      decreases todo
    {
      var follower :| follower in todo;
      VisitedStep(order, todo, lists, follower);
      ghost var before := batch;
      batch, counts, hints :=
        ScanList(scan, lists[follower].tags, follower, batch, counts, hints, Concat(written), Entries(order, lists));
      PendingGrows(
        Concat(written), before, batch, Entries(order, lists), ListEntries(lists[follower].tags, follower));
      PilesUp(order, lists, follower, before, batch);
      order := order + [follower];
      todo := todo - {follower};
      if |batch| >= FLUSH_THRESHOLD {
        NothingPending(scan, counts, hints, Concat(written), batch, Entries(order, lists));
        Flush(db, batch, old(db.batches), old(db.rows), written);
        written := written + [batch];
        batch := [];
      }
    }
    NothingPending(scan, counts, hints, Concat(written), batch, Entries(order, lists));
    if batch != [] {
      Flush(db, batch, old(db.batches), old(db.rows), written);
      written := written + [batch];
    } else {
      assert Concat(written) + batch == Concat(written);
    }
  }

  // ---------- what is written, by the tags ----------

  /** `e` is what this tag of `follower`'s list says: who is followed, and the hint in its third place. */
  predicate Says(tag: Tag, follower: string, e: Entry) {
    && |tag| > 1 && tag[0] == "p"
    && e.target == tag[1] && e.follower == follower
    && e.hint == if |tag| > 2 then Some(tag[2]) else None
  }

  lemma {:induction false} ListEntriesIff(tags: seq<Tag>, follower: string)
    ensures forall e :: e in ListEntries(tags, follower) <==> exists tag :: tag in tags && Says(tag, follower, e)
  {
    if tags != [] {
      var front, last := tags[..|tags| - 1], tags[|tags| - 1];
      assert tags == front + [last];
      ListEntriesIff(front, follower);
      forall e ensures e in ListEntries(tags, follower) <==> exists tag :: tag in tags && Says(tag, follower, e) {
        assert e in TagEntry(last, follower) <==> Says(last, follower, e);
        if tag :| tag in tags && Says(tag, follower, e) {
          assert tag == last || tag in front;
        }
        if e in ListEntries(front, follower) {
          var tag :| tag in front && Says(tag, follower, e);
          assert tag in tags;
        }
        assert last in tags;
      }
    }
  }

  /** What was scanned is what the p-tags of the lists say. */
  lemma {:induction false} EntriesIff(order: seq<string>, lists: FollowLists)
    requires forall f :: f in order ==> f in lists
    ensures forall e :: e in Entries(order, lists) <==>
      e.follower in order && exists tag :: tag in lists[e.follower].tags && Says(tag, e.follower, e)
  {
    if order != [] {
      var front, last := order[..|order| - 1], order[|order| - 1];
      assert order == front + [last];
      EntriesIff(front, lists);
      ListEntriesIff(lists[last].tags, last);
      forall e ensures e in Entries(order, lists) <==>
        e.follower in order && exists tag :: tag in lists[e.follower].tags && Says(tag, e.follower, e)
      {
        assert e in Entries(order, lists) <==> e in Entries(front, lists) || e in ListEntries(lists[last].tags, last);
      }
    }
  }

  // ---------- what the counts mean ----------

  function Without(order: seq<string>, j: nat): seq<string>
    requires j < |order|
  {
    order[..j] + order[j + 1..]
  }

  lemma EntriesLast(front: seq<string>, last: string, lists: FollowLists, target: string)
    requires last in lists && forall f :: f in front ==> f in lists
    ensures Count(Entries(front + [last], lists), target) ==
      Count(Entries(front, lists), target) + Count(ListEntries(lists[last].tags, last), target)
  {
    assert (front + [last])[..|front|] == front;
    CountConcat(Entries(front, lists), ListEntries(lists[last].tags, last), target);
  }

  lemma WithoutSubset(order: seq<string>, j: nat, lists: FollowLists)
    requires j < |order| && forall f :: f in order ==> f in lists
    ensures forall f :: f in Without(order, j) ==> f in lists
  {
    forall f | f in Without(order, j) ensures f in lists {
      assert f in order;
    }
  }

  lemma CountWithoutStep(front: seq<string>, last: string, lists: FollowLists, j: nat, target: string, own: nat)
    requires j < |front| && last in lists && (forall f :: f in front ==> f in lists)
    requires forall f :: f in Without(front, j) ==> f in lists
    requires Count(Entries(front, lists), target) == Count(Entries(Without(front, j), lists), target) + own
    ensures Count(Entries(front + [last], lists), target) ==
      Count(Entries(Without(front, j) + [last], lists), target) + own
  {
    EntriesLast(front, last, lists, target);
    EntriesLast(Without(front, j), last, lists, target);
  }

  /** The target's count without the list at `j`. */
  ghost predicate CountsWithout(order: seq<string>, lists: FollowLists, j: nat, target: string)
    requires j < |order| && forall f :: f in order ==> f in lists
  {
    && (forall f :: f in Without(order, j) ==> f in lists)
    && Count(Entries(order, lists), target) ==
      Count(Entries(Without(order, j), lists), target) + Count(ListEntries(lists[order[j]].tags, order[j]), target)
  }

  lemma {:induction false} CountWithout(order: seq<string>, lists: FollowLists, j: nat, target: string)
    requires j < |order| && forall f :: f in order ==> f in lists
    ensures CountsWithout(order, lists, j, target)
  {
    var front, last := order[..|order| - 1], order[|order| - 1];
    assert order == front + [last];
    WithoutSubset(order, j, lists);
    if j == |front| {
      EntriesLast(front, last, lists, target);
      assert Without(order, j) == front;
    } else {
      assert forall f :: f in front ==> f in order;
      CountWithout(front, lists, j, target);
      assert Without(order, j) == Without(front, j) + [last];
      CountWithoutStep(front, last, lists, j, target, Count(ListEntries(lists[order[j]].tags, order[j]), target));
    }
  }

  /** The counts do not depend on the order in which the lists are visited. */
  lemma {:induction false} CountsAreOrderIndependent(a: seq<string>, b: seq<string>, lists: FollowLists, target: string)
    requires Distinct(a) && Distinct(b) && (forall f :: f in a <==> f in b) && forall f :: f in a ==> f in lists
    ensures Count(Entries(a, lists), target) == Count(Entries(b, lists), target)
    decreases |a|
  {
    SameMembersEmpty(a, b);
    if a != [] {
      var n := |a| - 1;
      var f := a[n];
      assert f in b;
      var j :| 0 <= j < |b| && b[j] == f;
      CountWithout(a, lists, n, target);
      CountWithout(b, lists, j, target);
      SameMembers(a, b, n, j);
      CountsAreOrderIndependent(Without(a, n), Without(b, j), lists, target);
    }
  }

  lemma SameMembers(a: seq<string>, b: seq<string>, i: nat, j: nat)
    requires Distinct(a) && Distinct(b) && forall f :: f in a <==> f in b
    requires i < |a| && j < |b| && a[i] == b[j]
    ensures Distinct(Without(a, i)) && Distinct(Without(b, j))
    ensures forall f :: f in Without(a, i) <==> f in Without(b, j)
  {
    WithoutMembers(a, i);
    WithoutMembers(b, j);
  }

  lemma WithoutMembers(s: seq<string>, i: nat)
    requires Distinct(s) && i < |s|
    ensures Distinct(Without(s, i))
    ensures forall f :: f in Without(s, i) <==> f in s && f != s[i]
  {
    var w := Without(s, i);
    forall f | f in s && f != s[i] ensures f in w {
      var k :| 0 <= k < |s| && s[k] == f;
      assert w[if k < i then k else k - 1] == f;
    }
    forall k | 0 <= k < |w| ensures w[k] == s[if k < i then k else k + 1] {
    }
  }

  /** The followers the database holds for a target. */
  function Followers(rows: set<Pair>, target: string): set<string> {
    set p | p in rows && p.target == target :: p.follower
  }

  function RowsOf(order: seq<string>, lists: FollowLists): set<Pair>
    requires forall f :: f in order ==> f in lists
  {
    ToSet(Pairs(Entries(order, lists)))
  }

  lemma {:induction false} ListFollowers(tags: seq<Tag>, follower: string, target: string)
    ensures forall e :: e in ListEntries(tags, follower) ==> e.follower == follower
    ensures Count(ListEntries(tags, follower), target) > 0 <==>
      exists e :: e in ListEntries(tags, follower) && e.target == target
  {
    if tags != [] {
      ListFollowers(tags[..|tags| - 1], follower, target);
    }
    var keep := (e: Entry) => e.target == target;
    var kept := Filter(keep, ListEntries(tags, follower));
    if kept != [] {
      assert kept[0] in kept;
    }
    if e :| e in ListEntries(tags, follower) && e.target == target {
      assert e in kept;
    }
  }

  lemma FollowersOfEntries(entries: seq<Entry>, target: string, f: string)
    ensures f in Followers(ToSet(Pairs(entries)), target) <==>
            exists e :: e in entries && e.target == target && e.follower == f
  {
    var pairs := Pairs(entries);
    if f in Followers(ToSet(pairs), target) {
      var p :| p in pairs && p.target == target && p.follower == f;
      var i :| 0 <= i < |pairs| && pairs[i] == p;
      assert entries[i] in entries;
    }
    if e :| e in entries && e.target == target && e.follower == f {
      var i :| 0 <= i < |entries| && entries[i] == e;
      assert pairs[i] == PairOf(e) && pairs[i] in ToSet(pairs);
    }
  }

  lemma FollowersGrow(order: seq<string>, lists: FollowLists, last: string, target: string)
    requires (forall f :: f in order ==> f in lists) && last in lists && last !in order
    ensures last !in Followers(RowsOf(order, lists), target)
    ensures Followers(RowsOf(order + [last], lists), target) == Followers(RowsOf(order, lists), target)
      + if Count(ListEntries(lists[last].tags, last), target) > 0 then {last} else {}
  {
    var before, added := Entries(order, lists), ListEntries(lists[last].tags, last);
    assert (order + [last])[..|order|] == order;
    ListFollowers(lists[last].tags, last, target);
    EntriesComeFromOrder(order, lists);
    FollowersOfEntries(before, target, last);
    forall f ensures f in Followers(RowsOf(order + [last], lists), target) <==>
      f in Followers(RowsOf(order, lists), target) || (f == last && Count(added, target) > 0)
    {
      FollowersOfEntries(before + added, target, f);
      FollowersOfEntries(before, target, f);
    }
  }

  lemma {:induction false} EntriesComeFromOrder(order: seq<string>, lists: FollowLists)
    requires forall f :: f in order ==> f in lists
    ensures forall e :: e in Entries(order, lists) ==> e.follower in order
  {
    if order != [] {
      var front, last := order[..|order| - 1], order[|order| - 1];
      EntriesComeFromOrder(front, lists);
      ListFollowers(lists[last].tags, last, "");
      assert order == front + [last];
    }
  }

  /** A list that names its target twice counts twice but stores one row. */
  lemma RepeatedTagCountsTwice(target: string, follower: string)
    ensures
      var entries := ListEntries([["p", target], ["p", target]], follower);
      Count(entries, target) == 2 && ToSet(Pairs(entries)) == {Pair(target, follower)}
  {
    var e := Entry(target, follower, None);
    assert TagEntry(["p", target], follower) == [e];
    var tags := [["p", target], ["p", target]];
    assert tags[..1] == [["p", target]] && [["p", target]][..0] == [];
    assert ListEntries([["p", target]], follower) == [e];
    assert ListEntries(tags, follower) == [e] + [e];
    CountConcat([e], [e], target);
    CountOne(e, target);
    assert Pairs([e] + [e]) == [Pair(target, follower), Pair(target, follower)];
  }

  ghost predicate NoRepeats(order: seq<string>, lists: FollowLists, target: string)
    requires forall f :: f in order ==> f in lists
  {
    forall f :: f in order ==> Count(ListEntries(lists[f].tags, f), target) <= 1
  }

  /** A count is a number of p-tags; it is the number of distinct followers exactly when no list repeats the target. */
  lemma {:induction false} CountsFollowersIff(order: seq<string>, lists: FollowLists, target: string)
    requires Distinct(order) && forall f :: f in order ==> f in lists
    ensures |Followers(RowsOf(order, lists), target)| <= Count(Entries(order, lists), target)
    ensures Count(Entries(order, lists), target) == |Followers(RowsOf(order, lists), target)| <==>
      NoRepeats(order, lists, target)
  {
    if order == [] {
      assert RowsOf(order, lists) == {};
      assert Followers({}, target) == {};
    } else {
      var front, last := order[..|order| - 1], order[|order| - 1];
      assert order == front + [last];
      CountsFollowersIff(front, lists, target);
      FollowersGrow(front, lists, last, target);
      CountConcat(Entries(front, lists), ListEntries(lists[last].tags, last), target);
    }
  }
}
