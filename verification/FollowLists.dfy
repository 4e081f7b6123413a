/** Fetching follow lists in batches: a window of requests in flight, merged in whatever order they finish. */
module FollowLists {
  import opened Base
  import opened Text
  import opened Protocol

  const AUTHORS_PER_BATCH: nat := 20
  const MAX_CONCURRENT_BATCHES: nat := 3

  // ---------- merging ----------

  /** The later list wins; at the same instant the one with the greater id, unlike listings. */
  predicate ShouldReplace(existing: Event, candidate: Event) {
    if candidate.createdAt != existing.createdAt then candidate.createdAt > existing.createdAt
    else Less(existing.id, candidate.id)
  }

  type Lists = map<PublicKey, Event>

  function MergeEvent(lists: Lists, event: Event): Lists {
    if event.pubkey !in lists || ShouldReplace(lists[event.pubkey], event) then lists[event.pubkey := event] else lists
  }

  function MergeAll(lists: Lists, events: seq<Event>): Lists
    decreases |events|
  {
    if events == [] then lists else MergeAll(MergeEvent(lists, events[0]), events[1..])
  }

  /** Each author of a delivered event is listed with a delivered event of theirs; every other one is older, or of the
      same instant with an id that is not greater. */
  ghost predicate HoldsGreatest(lists: Lists, delivered: set<Event>) {
    && (forall e :: e in delivered ==> e.pubkey in lists)
    && (forall a :: a in lists ==> IsGreatest(delivered, a, lists[a]))
  }

  ghost predicate IsGreatest(delivered: set<Event>, author: PublicKey, event: Event) {
    && event in delivered && event.pubkey == author
    && forall e :: e in delivered && e.pubkey == author ==>
         e.createdAt < event.createdAt || (e.createdAt == event.createdAt && !Less(event.id, e.id))
  }

  lemma ReplacementOrder(a: Event, b: Event, c: Event)
    ensures ShouldReplace(a, b) <==> a.createdAt < b.createdAt || (a.createdAt == b.createdAt && Less(a.id, b.id))
    ensures !ShouldReplace(a, a)
    ensures ShouldReplace(a, b) && ShouldReplace(b, c) ==> ShouldReplace(a, c)
    ensures !ShouldReplace(a, b) && !ShouldReplace(b, a) ==> a.createdAt == b.createdAt && a.id == b.id
    ensures ShouldReplace(a, b) ==> !ShouldReplace(b, a)
  {
    LessIrreflexive(a.id);
    LessTotal(a.id, b.id);
    if Less(a.id, b.id) && Less(b.id, c.id) {
      LessTransitive(a.id, b.id, c.id);
    }
    if Less(a.id, b.id) && Less(b.id, a.id) {
      LessTransitive(a.id, b.id, a.id);
    }
  }

  lemma MergeKeepsGreatest(lists: Lists, delivered: set<Event>, event: Event)
    requires HoldsGreatest(lists, delivered)
    ensures HoldsGreatest(MergeEvent(lists, event), delivered + {event})
  {
    var next := MergeEvent(lists, event);
    forall a | a in next ensures IsGreatest(delivered + {event}, a, next[a]) {
      assert a in lists ==> IsGreatest(delivered, a, lists[a]);
      forall e | e in delivered + {event} && e.pubkey == a
        ensures e.createdAt < next[a].createdAt || (e.createdAt == next[a].createdAt && !Less(next[a].id, e.id))
      {
        ReplacementOrder(next[a], e, e);
        ReplacementOrder(event, event, event);
        if a in lists {
          ReplacementOrder(lists[a], e, e);
          ReplacementOrder(lists[a], event, e);
        }
      }
    }
  }

  lemma {:induction false} MergeAllKeepsGreatest(lists: Lists, delivered: set<Event>, events: seq<Event>)
    requires HoldsGreatest(lists, delivered)
    ensures HoldsGreatest(MergeAll(lists, events), delivered + ToSet(events))
    decreases |events|
  {
    if events == [] {
      assert delivered + ToSet(events) == delivered;
    } else {
      MergeKeepsGreatest(lists, delivered, events[0]);
      MergeAllKeepsGreatest(MergeEvent(lists, events[0]), delivered + {events[0]}, events[1..]);
      SplitFirst(delivered, events);
    }
  }

  lemma SplitFirst(delivered: set<Event>, events: seq<Event>)
    requires events != []
    ensures delivered + {events[0]} + ToSet(events[1..]) == delivered + ToSet(events)
  {
    assert events == [events[0]] + events[1..];
  }

  /** When ids identify events, what was delivered determines the merged lists. */
  lemma GreatestIsUnique(a: Lists, b: Lists, delivered: set<Event>)
    requires HoldsGreatest(a, delivered) && HoldsGreatest(b, delivered)
    requires forall x, y :: x in delivered && y in delivered && x.id == y.id ==> x == y
    ensures a == b
  {
    forall k ensures k in a <==> k in b {
      assert k in a ==> IsGreatest(delivered, k, a[k]);
      assert k in b ==> IsGreatest(delivered, k, b[k]);
    }
    forall k | k in a ensures a[k] == b[k] {
      assert IsGreatest(delivered, k, a[k]) && IsGreatest(delivered, k, b[k]);
      ReplacementOrder(a[k], b[k], b[k]);
    }
  }

  // ---------- the window as a state machine ----------

  /** What each batch's request yields: its events, or nothing on an error or timeout. */
  type Outcomes = seq<Option<seq<Event>>>

  /** Batches below `next` have been dispatched; those in `inFlight` have not finished. */
  datatype Window = Window(next: nat, inFlight: set<nat>, completed: seq<nat>, lists: Lists)

  function Upto(n: nat): (r: set<nat>)
    ensures forall i: nat :: i in r <==> i < n
    ensures |r| == n
  {
    if n == 0 then {} else Upto(n - 1) + {n - 1}
  }

  function Opening(total: nat): Window {
    var n := Min(MAX_CONCURRENT_BATCHES, total);
    Window(n, Upto(n), [], map[])
  }

  function EventsOf(outcome: Option<seq<Event>>): seq<Event> {
    if outcome.Some? then outcome.value else []
  }

  /** Batch `b` finishes: its events are merged and the next pending batch, if any, is dispatched. */
  function Complete(outcomes: Outcomes, w: Window, b: nat): Window
    requires b < |outcomes|
  {
    Window(
      if w.next < |outcomes| then w.next + 1 else w.next,
      w.inFlight - {b} + if w.next < |outcomes| then {w.next} else {},
      w.completed + [b],
      MergeAll(w.lists, EventsOf(outcomes[b])))
  }

  ghost predicate Next(outcomes: Outcomes, w: Window, after: Window) {
    exists b :: b in w.inFlight && b < |outcomes| && after == Complete(outcomes, w, b)
  }

  /** A schedule: any batch in flight may be the next to finish. */
  ghost predicate IsRun(outcomes: Outcomes, run: seq<Window>) {
    && run != [] && run[0] == Opening(|outcomes|)
    && forall i :: 0 <= i < |run| - 1 ==> Next(outcomes, run[i], run[i + 1])
  }

  function Delivered(outcomes: Outcomes, completed: seq<nat>): set<Event> {
    set b, e | b in completed && b < |outcomes| && e in EventsOf(outcomes[b]) :: e
  }

  /** The window discipline: few in flight, full while batches are pending, nothing dispatched or finished twice. */
  ghost predicate BatchesOk(total: nat, w: Window) {
    && w.next <= total
    && |w.inFlight| <= 3
    && (w.next < total ==> |w.inFlight| == 3)
    && Distinct(w.completed)
    && (forall b :: b in w.inFlight ==> b !in w.completed)
    && (forall b: nat :: b in w.inFlight || b in w.completed <==> b < w.next)
  }

  ghost predicate WindowOk(outcomes: Outcomes, w: Window) {
    BatchesOk(|outcomes|, w) && HoldsGreatest(w.lists, Delivered(outcomes, w.completed))
  }

  lemma OpeningOk(outcomes: Outcomes)
    ensures WindowOk(outcomes, Opening(|outcomes|))
  {
    assert Delivered(outcomes, []) == {};
  }

  lemma CompleteKeepsBatches(outcomes: Outcomes, w: Window, b: nat)
    requires BatchesOk(|outcomes|, w) && b in w.inFlight && b < |outcomes|
    ensures BatchesOk(|outcomes|, Complete(outcomes, w, b))
  {
    var after := Complete(outcomes, w, b);
    assert w.next !in w.inFlight;
    assert |w.inFlight - {b}| == |w.inFlight| - 1;
    assert w.next < |outcomes| ==> |after.inFlight| == |w.inFlight - {b}| + 1;
    assert forall x :: x in after.completed <==> x in w.completed || x == b;
  }

  lemma DeliveredGrows(outcomes: Outcomes, completed: seq<nat>, b: nat)
    requires b < |outcomes|
    ensures Delivered(outcomes, completed + [b]) == Delivered(outcomes, completed) + ToSet(EventsOf(outcomes[b]))
  {
    forall e ensures e in Delivered(outcomes, completed + [b]) <==>
      e in Delivered(outcomes, completed) || e in EventsOf(outcomes[b])
    {
      if e in Delivered(outcomes, completed) {
        var c :| c in completed && c < |outcomes| && e in EventsOf(outcomes[c]);
        assert c in completed + [b];
      }
      assert b in completed + [b];
    }
  }

  lemma CompleteOk(outcomes: Outcomes, w: Window, b: nat)
    requires WindowOk(outcomes, w) && b in w.inFlight && b < |outcomes|
    ensures WindowOk(outcomes, Complete(outcomes, w, b))
  {
    CompleteKeepsBatches(outcomes, w, b);
    MergeAllKeepsGreatest(w.lists, Delivered(outcomes, w.completed), EventsOf(outcomes[b]));
    DeliveredGrows(outcomes, w.completed, b);
  }

  /** Along every schedule at most three batches are in flight, none is dispatched or finished twice, and the window
      stays full while batches are pending. */
  lemma {:induction false} EveryScheduleIsSafe(outcomes: Outcomes, run: seq<Window>, i: nat)
    requires IsRun(outcomes, run) && i < |run|
    ensures WindowOk(outcomes, run[i])
  {
    if i == 0 {
      OpeningOk(outcomes);
    } else {
      EveryScheduleIsSafe(outcomes, run, i - 1);
      assert Next(outcomes, run[i - 1], run[i]);
      var b :| b in run[i - 1].inFlight && b < |outcomes| && run[i] == Complete(outcomes, run[i - 1], b);
      CompleteOk(outcomes, run[i - 1], b);
    }
  }

  /** A schedule that has nothing in flight has finished every batch exactly once, and holds the greatest of all
      delivered events. */
  lemma IdleMeansDone(outcomes: Outcomes, run: seq<Window>)
    requires IsRun(outcomes, run) && run[|run| - 1].inFlight == {}
    ensures
      var last := run[|run| - 1];
      && last.next == |outcomes| && Distinct(last.completed)
      && (forall b: nat :: b in last.completed <==> b < |outcomes|)
      && HoldsGreatest(last.lists, AllDelivered(outcomes))
  {
    var last := run[|run| - 1];
    EveryScheduleIsSafe(outcomes, run, |run| - 1);
    assert Delivered(outcomes, last.completed) == AllDelivered(outcomes);
  }

  function AllDelivered(outcomes: Outcomes): set<Event> {
    set b, e | 0 <= b < |outcomes| && e in EventsOf(outcomes[b]) :: e
  }

  lemma {:induction false} DistinctSize(s: seq<nat>)
    requires Distinct(s)
    ensures |ToSet(s)| == |s|
  {
    if s == [] {
      assert ToSet(s) == {};
    } else {
      var front := s[..|s| - 1];
      DistinctSize(front);
      assert s == front + [s[|s| - 1]];
      assert ToSet(s) == ToSet(front) + {s[|s| - 1]};
      assert s[|s| - 1] !in front;
    }
  }

  /** All finished schedules agree on the merged lists. */
  lemma SchedulesAgree(outcomes: Outcomes, a: seq<Window>, b: seq<Window>)
    requires IsRun(outcomes, a) && a[|a| - 1].inFlight == {}
    requires IsRun(outcomes, b) && b[|b| - 1].inFlight == {}
    requires forall x, y :: x in AllDelivered(outcomes) && y in AllDelivered(outcomes) && x.id == y.id ==> x == y
    ensures a[|a| - 1].lists == b[|b| - 1].lists
  {
    IdleMeansDone(outcomes, a);
    IdleMeansDone(outcomes, b);
    GreatestIsUnique(a[|a| - 1].lists, b[|b| - 1].lists, AllDelivered(outcomes));
  }

  // ---------- the fetch loop ----------

  function Chunks(authors: seq<PublicKey>): (r: seq<seq<PublicKey>>)
    ensures forall i :: 0 <= i < |r| ==> 1 <= |r[i]| <= 20
    ensures forall i :: 0 <= i < |r| - 1 ==> |r[i]| == 20
  {
    if authors == [] then []
    else if |authors| <= AUTHORS_PER_BATCH then [authors]
    else [authors[..AUTHORS_PER_BATCH]] + Chunks(authors[AUTHORS_PER_BATCH..])
  }

  function Flatten(parts: seq<seq<PublicKey>>): seq<PublicKey> {
    if parts == [] then [] else parts[0] + Flatten(parts[1..])
  }

  /** Batching asks for every author, in order, once. */
  lemma {:induction false} ChunksCoverAuthors(authors: seq<PublicKey>)
    ensures Flatten(Chunks(authors)) == authors
  {
    if authors != [] {
      if |authors| <= AUTHORS_PER_BATCH {
        assert [authors][1..] == [];
      } else {
        ChunksCoverAuthors(authors[AUTHORS_PER_BATCH..]);
        assert Chunks(authors)[1..] == Chunks(authors[AUTHORS_PER_BATCH..]);
      }
    }
  }

  method OpenWindow(total: nat) returns (next: nat, inFlight: set<nat>)
    ensures next == Opening(total).next && inFlight == Opening(total).inFlight
  {
    next, inFlight := 0, {};
    for i := 0 to MAX_CONCURRENT_BATCHES
      invariant next == Min(i, total) && inFlight == Upto(next)
    {
      if next < total {
        inFlight := inFlight + {next};
        next := next + 1;
      }
    }
  }

  /** Runs the window to its end; which request finishes next is up to the network. */
  method FetchFollowLists(authors: seq<PublicKey>, outcomes: Outcomes)
    returns (lists: Lists, ghost run: seq<Window>)
    requires |outcomes| == |Chunks(authors)|
    ensures IsRun(outcomes, run) && run[|run| - 1].inFlight == {} && lists == run[|run| - 1].lists
    ensures HoldsGreatest(lists, AllDelivered(outcomes))
  {
    var total := |Chunks(authors)|;
    var next: nat, inFlight: set<nat> := OpenWindow(total);
    lists := map[];
    ghost var w := Opening(total);
    run := [w];
    OpeningOk(outcomes);
    while inFlight != {}
      invariant WindowOk(outcomes, w) && w == Window(next, inFlight, w.completed, lists)
      invariant IsRun(outcomes, run) && run[|run| - 1] == w
      decreases total - |w.completed|
    {
      var b :| b in inFlight;
      CompleteOk(outcomes, w, b);
      ghost var after := Complete(outcomes, w, b);
      CompletedWithinTotal(outcomes, after);
      RunGrows(outcomes, run, b);
      lists := Merge(lists, EventsOf(outcomes[b]));
      next, inFlight := Refill(total, next, inFlight - {b});
      w, run := after, run + [after];
    }
    IdleMeansDone(outcomes, run);
  }

  method Refill(total: nat, next: nat, rest: set<nat>) returns (after: nat, inFlight: set<nat>)
    ensures after == if next < total then next + 1 else next
    ensures inFlight == rest + if next < total then {next} else {}
  {
    after, inFlight := next, rest;
    if next < total {
      inFlight := inFlight + {next};
      after := next + 1;
    }
  }

  lemma RunGrows(outcomes: Outcomes, run: seq<Window>, b: nat)
    requires IsRun(outcomes, run) && b < |outcomes| && b in run[|run| - 1].inFlight
    ensures IsRun(outcomes, run + [Complete(outcomes, run[|run| - 1], b)])
  {
    var longer := run + [Complete(outcomes, run[|run| - 1], b)];
    forall i | 0 <= i < |longer| - 1 ensures Next(outcomes, longer[i], longer[i + 1]) {
      if i < |run| - 1 {
        assert Next(outcomes, run[i], run[i + 1]);
      }
    }
  }

  lemma CompletedWithinTotal(outcomes: Outcomes, w: Window)
    requires WindowOk(outcomes, w)
    ensures |w.completed| <= |outcomes|
  {
    DistinctSize(w.completed);
    assert Upto(w.next) == ToSet(w.completed) + w.inFlight;
  }

  method Merge(lists: Lists, events: seq<Event>) returns (r: Lists)
    ensures r == MergeAll(lists, events)
  {
    r := lists;
    for i := 0 to |events|
      invariant MergeAll(lists, events) == MergeAll(r, events[i..])
    {
      var event := events[i];
      assert events[i..][1..] == events[i + 1..];
      if event.pubkey in r {
        if ShouldReplace(r[event.pubkey], event) {
          r := r[event.pubkey := event];
        }
      } else {
        r := r[event.pubkey := event];
      }
    }
  }
}
