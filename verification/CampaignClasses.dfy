/** What state, claimability and class say about the events published by an instant. */
module CampaignClasses {
  import opened Base
  import opened Protocol
  import opened Campaign
  import opened CampaignChain
  import opened CampaignHistory
  import opened CampaignLifecycle
  import opened CampaignForks
  import opened CampaignGrowth

  /** The events published by `now`. */
  function Published(r: ResolvedCampaign, now: u64): seq<CampaignEvent> {
    Filter((n: CampaignEvent) => n.event.createdAt <= now, r.events)
  }

  /** The state at `now` is told by the events published by then: none, or their terms and whether one cancels. */
  lemma StateTells(nodes: seq<CampaignEvent>, scope: Scope, at: u64, r: ResolvedCampaign, now: u64)
    requires ResolveAt(nodes, scope, at) == Success(r)
    ensures r.events != []
    ensures StateAt(r, now).Some? <==> r.events[0].event.createdAt <= now
    ensures StateAt(r, now).Some? ==>
      && TermsInForce(Published(r, now)) == Some(StateAt(r, now).value.terms)
      && (IsCancelled(Published(r, now)) <==> StateAt(r, now).value.status == Stopped)
    ensures IsCancelled(Published(r, now)) ==> StateAt(r, now).Some?
  {
    StateAtIsPrefixFold(nodes, scope, at, r, now);
    ResolvedChain(nodes, scope, at, r);
    ChainIncreases(scope, r.events);
    UpToIsPrefix(r.events, now);
    SameCut(r, now);
    var k := Position(scope, r.events, now);
    assert Published(r, now) == r.events[..k];
    if k > 0 {
      CursorTells(scope, r.events, k);
    }
  }

  lemma SameCut(r: ResolvedCampaign, now: u64)
    ensures Published(r, now) == UpTo(r.events, now)
  {
    FilterSame((n: CampaignEvent) => n.event.createdAt <= now, (n: CampaignEvent) => n.At() <= now, r.events);
  }

  /** A campaign is claimable exactly while it is published, not cancelled, and between the start and the end that the
      terms in force set. */
  lemma ClaimableIff(nodes: seq<CampaignEvent>, scope: Scope, at: u64, r: ResolvedCampaign, now: u64)
    requires ResolveAt(nodes, scope, at) == Success(r)
    ensures r.events != []
    ensures ClaimableAt(r, now) <==>
      && r.events[0].event.createdAt <= now
      && !IsCancelled(Published(r, now))
      && TermsInForce(Published(r, now)).Some?
      && TermsInForce(Published(r, now)).value.starts <= now < TermsInForce(Published(r, now)).value.ends
  {
    StateTells(nodes, scope, at, r, now);
  }

  lemma {:induction false} TermsAreOrdered(scope: Scope, chain: seq<CampaignEvent>, i: nat)
    requires IsChain(scope, chain) && 1 <= i <= |chain|
    ensures CursorAt(chain, i).terms.starts < CursorAt(chain, i).terms.ends
  {
    if i > 1 {
      TermsAreOrdered(scope, chain, i - 1);
      assert Linked(scope, chain, i - 1);
    }
  }

  lemma OrderInForce(nodes: seq<CampaignEvent>, scope: Scope, at: u64, r: ResolvedCampaign, now: u64)
    requires ResolveAt(nodes, scope, at) == Success(r)
    ensures StateAt(r, now).Some? ==> StateAt(r, now).value.terms.starts < StateAt(r, now).value.terms.ends
  {
    StateAtIsPrefixFold(nodes, scope, at, r, now);
    var k := Position(scope, r.events, now);
    if k > 0 {
      TermsAreOrdered(scope, r.events, k);
    }
  }

  /** Published by `now`, and not cancelled by then. */
  predicate Stands(r: ResolvedCampaign, now: u64)
    requires r.events != []
  {
    r.events[0].event.createdAt <= now
    && forall n :: n in r.events && n.event.createdAt <= now ==> n.transition != Cancel
  }

  /** Each class, by the events published by `now`: invalid before the root, cancelled from the cancellation on, and
      otherwise upcoming before the start in force, ended from the end in force on, and active in between. */
  lemma ClassIff(nodes: seq<CampaignEvent>, scope: Scope, at: u64, r: ResolvedCampaign, now: u64)
    requires ResolveAt(nodes, scope, at) == Success(r)
    ensures r.events != []
    ensures ClassifyCampaign(r, now) == Invalid <==> now < r.events[0].event.createdAt
    ensures ClassifyCampaign(r, now) == Cancelled <==>
      exists n :: n in r.events && n.transition == Cancel && n.event.createdAt <= now
    ensures ClassifyCampaign(r, now) == Active <==> ClaimableAt(r, now)
    ensures Stands(r, now) ==> TermsInForce(Published(r, now)).Some?
    ensures ClassifyCampaign(r, now) == Upcoming <==>
      Stands(r, now) && now < TermsInForce(Published(r, now)).value.starts
    ensures ClassifyCampaign(r, now) == Ended <==>
      Stands(r, now) && TermsInForce(Published(r, now)).value.ends <= now
  {
    StateTells(nodes, scope, at, r, now);
    OrderInForce(nodes, scope, at, r, now);
  }

  // ---------- changes before the start ----------

  /** The replacement of the terms by a claim open from 40 to 50. */
  const AUTUMN: CampaignTerms := CampaignTerms(Claim, 40, 50)

  lemma Replacement(publisher: PublicKey, id: EventId, at: u64, predecessor: EventId) returns (n: CampaignEvent)
    ensures ParseCampaignEvent(n.event) == Success(n) && n.event.id == id && n.event.createdAt == at
    ensures n.event.pubkey == publisher && n.coordinate == SummerScope(publisher).coordinate
    ensures n.predecessor == Some(predecessor) && n.transition == ReplaceTerms(AUTUMN) && n.campaignId == "summer"
  {
    var params :=
      CampaignBuildParams("summer", CoordinateOf(publisher, "game"), Some(AUTUMN), Some(predecessor), false);
    CoordinateNamesPublisher(publisher, "game");
    BuiltEventParses(id, publisher, at, params);
    n := BuiltNode(id, publisher, at, params);
  }

  lemma TwoInForce(root: CampaignEvent, next: CampaignEvent)
    requires root.transition.Root?
    ensures TermsInForce([root]) == Some(root.transition.terms)
    ensures next.transition == Cancel ==> TermsInForce([root] + [next]) == Some(root.transition.terms)
    ensures next.transition.ReplaceTerms? ==> TermsInForce([root] + [next]) == Some(next.transition.terms)
  {
    assert [root][..0] == [] && ([root] + [next])[..1] == [root];
  }

  lemma BothPublished(r: ResolvedCampaign, root: CampaignEvent, next: CampaignEvent, now: u64)
    requires r.events == [root] + [next] && root.event.createdAt <= now && next.event.createdAt <= now
    ensures Published(r, now) == [root] + [next]
  {
    FilterAll((n: CampaignEvent) => n.event.createdAt <= now, r.events);
  }

  /** A claim of 10, open from 20 to 30, is cancelled at 15, before its start: at 22 it is cancelled. */
  lemma EarlyCancellation(publisher: PublicKey) returns (root: CampaignEvent, x: CampaignEvent, r: ResolvedCampaign)
    ensures root.At() == 10 && root.transition == Root(SUMMER) && x.At() == 15 && x.transition == Cancel
    ensures Resolve([root] + [x], SummerScope(publisher)) == Success(r) && r.events == [root] + [x]
    ensures ClassifyCampaign(r, 22) == Cancelled && !ClaimableAt(r, 22)
  {
    root := SummerRoot(publisher, DigitId('a'), 10);
    x := SummerCancel(publisher, DigitId('b'), 15, DigitId('a'));
    IdsDiffer('a', 'b');
    RootAloneIff(SummerScope(publisher), root);
    var alone := Resolve([root], SummerScope(publisher)).value;
    TwoInForce(root, x);
    NextEventIff([root], SummerScope(publisher), alone, x);
    r := alone.(events := [root] + [x]);
    assert r.events[1] == x;
    ClassIff([root] + [x], SummerScope(publisher), U64_MAX, r, 22);
  }

  /** The same claim moved at 15 to 40 until 50: at 22 it is upcoming, at 40 active, at 50 ended. */
  lemma EarlyReplacement(publisher: PublicKey) returns (root: CampaignEvent, x: CampaignEvent, r: ResolvedCampaign)
    ensures root.At() == 10 && root.transition == Root(SUMMER) && x.At() == 15 && x.transition == ReplaceTerms(AUTUMN)
    ensures Resolve([root] + [x], SummerScope(publisher)) == Success(r) && r.events == [root] + [x]
    ensures ClassifyCampaign(r, 22) == Upcoming && ClassifyCampaign(r, 40) == Active && ClassifyCampaign(r, 50) == Ended
  {
    root := SummerRoot(publisher, DigitId('a'), 10);
    x := Replacement(publisher, DigitId('b'), 15, DigitId('a'));
    IdsDiffer('a', 'b');
    RootAloneIff(SummerScope(publisher), root);
    var alone := Resolve([root], SummerScope(publisher)).value;
    TwoInForce(root, x);
    NextEventIff([root], SummerScope(publisher), alone, x);
    r := alone.(events := [root] + [x]);
    MovedClasses(publisher, root, x, r);
  }

  lemma MovedClasses(publisher: PublicKey, root: CampaignEvent, x: CampaignEvent, r: ResolvedCampaign)
    requires r.events == [root] + [x] && Resolve([root] + [x], SummerScope(publisher)) == Success(r)
    requires root.At() == 10 && root.transition.Root? && x.At() == 15 && x.transition == ReplaceTerms(AUTUMN)
    ensures ClassifyCampaign(r, 22) == Upcoming && ClassifyCampaign(r, 40) == Active && ClassifyCampaign(r, 50) == Ended
  {
    MovedClass(publisher, root, x, r, 22);
    MovedClass(publisher, root, x, r, 40);
    MovedClass(publisher, root, x, r, 50);
  }

  lemma MovedClass(publisher: PublicKey, root: CampaignEvent, x: CampaignEvent, r: ResolvedCampaign, now: u64)
    requires r.events == [root] + [x] && Resolve([root] + [x], SummerScope(publisher)) == Success(r)
    requires root.At() <= now && root.transition.Root? && x.At() <= now && x.transition == ReplaceTerms(AUTUMN)
    ensures ClassifyCampaign(r, now) == if now < 40 then Upcoming else if now < 50 then Active else Ended
  {
    TwoInForce(root, x);
    BothPublished(r, root, x, now);
    assert forall n :: n in r.events ==> n == root || n == x;
    ClassIff([root] + [x], SummerScope(publisher), U64_MAX, r, now);
    ClaimableIff([root] + [x], SummerScope(publisher), U64_MAX, r, now);
  }
}
