/** What one more event does to a resolved campaign, told by its fields alone. */
module CampaignGrowth {
  import opened Base
  import opened Protocol
  import opened Text
  import opened Campaign
  import opened CampaignChain
  import opened CampaignHistory
  import opened CampaignLifecycle
  import opened CampaignForks

  // ---------- the root ----------

  /** A root by its fields: the publisher's, for this game, open after it starts and not before it is published. */
  predicate OpensCampaign(scope: Scope, n: CampaignEvent) {
    && n.predecessor == None
    && n.event.pubkey == scope.publisher
    && n.coordinate == scope.coordinate
    && n.transition.Root?
    && n.event.createdAt <= n.transition.terms.starts < n.transition.terms.ends
  }

  /** An event alone resolves exactly when it is such a root, and then to itself. */
  lemma RootAloneIff(scope: Scope, n: CampaignEvent)
    requires ParseCampaignEvent(n.event) == Success(n)
    ensures Resolve([n], scope).Success? <==> OpensCampaign(scope, n)
    ensures
      var alone := ResolvedCampaign(n.event.id, scope.publisher, n.campaignId, scope.coordinate, [n]);
      OpensCampaign(scope, n) ==> Resolve([n], scope) == Success(alone)
  {
    if IsRoot(scope, n) && RootInOrder(n) {
      assert [n] + [] == [n];
      RootResolvesAlone(scope, n, [], U64_MAX);
    } else {
      WellFormedResolves([n], scope);
      NoRootAlone(scope, n);
    }
  }

  lemma NoRootAlone(scope: Scope, n: CampaignEvent)
    requires !(IsRoot(scope, n) && RootInOrder(n))
    ensures ResolveSet(scope, ToSet([n])).Failure?
  {
    assert ToSet([n]) == {n};
    assert CampaignChain.Roots(scope, {n}) == if IsRoot(scope, n) then {n} else {};
  }

  // ---------- one more event ----------

  predicate IsCancelled(chain: seq<CampaignEvent>) {
    exists n :: n in chain && n.transition == Cancel
  }

  /** The terms the last event that sets terms has set. */
  function TermsInForce(chain: seq<CampaignEvent>): Option<CampaignTerms> {
    if chain == [] then None
    else
      match chain[|chain| - 1].transition
      case Root(terms) => Some(terms)
      case ReplaceTerms(terms) => Some(terms)
      case Cancel => TermsInForce(chain[..|chain| - 1])
  }

  lemma {:induction false} CursorTells(scope: Scope, chain: seq<CampaignEvent>, i: nat)
    requires IsChain(scope, chain) && 1 <= i <= |chain|
    ensures TermsInForce(chain[..i]) == Some(CursorAt(chain, i).terms)
    ensures IsCancelled(chain[..i]) <==> CursorAt(chain, i).cancelledAt.Some?
  {
    var last := chain[i - 1];
    assert chain[..i][..i - 1] == chain[..i - 1] && chain[..i] == chain[..i - 1] + [last];
    if i > 1 {
      CursorTells(scope, chain, i - 1);
      assert Linked(scope, chain, i - 1);
    }
  }

  /** `next` continues `r`: the publisher's later event for this campaign, while it is not cancelled, that cancels it or
      replaces terms whose start has not been reached. */
  predicate Continues(r: ResolvedCampaign, next: CampaignEvent)
    requires r.events != [] && TermsInForce(r.events).Some?
  {
    && next.event.pubkey == r.publisher
    && next.coordinate == r.coordinate
    && next.campaignId == r.campaignId
    && r.events[|r.events| - 1].event.createdAt < next.event.createdAt
    && (forall n :: n in r.events ==> n.transition != Cancel)
    && (|| next.transition == Cancel
        || (&& next.transition.ReplaceTerms?
            && next.transition.terms.starts < next.transition.terms.ends
            && next.event.createdAt < TermsInForce(r.events).value.starts))
  }

  lemma AdmitsIff(scope: Scope, r: ResolvedCampaign, next: CampaignEvent)
    requires r.events != [] && r == Resolved(scope, r.events) && IsChain(scope, r.events)
    requires next.predecessor == Some(r.events[|r.events| - 1].event.id)
    requires next.event.id != r.events[|r.events| - 1].event.id
    ensures TermsInForce(r.events).Some?
    ensures Admits(scope, r.campaignId, CursorAt(r.events, |r.events|), next) <==> Continues(r, next)
  {
    CursorTells(scope, r.events, |r.events|);
    assert r.events[..|r.events|] == r.events;
  }

  lemma ParsedWith(events: seq<CampaignEvent>, next: CampaignEvent)
    requires FirstDefect(events).None? && DistinctIds(events)
    requires ParseCampaignEvent(next.event) == Success(next)
    requires forall n :: n in events ==> n.event.id != next.event.id
    ensures WellFormed(events + [next])
  {
    DistinctKeysAppend(IdOf, events, next);
  }

  lemma SameSuccessors(scope: Scope, chain: seq<CampaignEvent>, next: CampaignEvent, i: nat)
    requires IsChain(scope, chain) && DistinctIds(chain) && 1 <= i <= |chain|
    requires next.predecessor == Some(chain[|chain| - 1].event.id)
    requires !Admits(scope, chain[0].campaignId, CursorAt(chain, |chain|), next)
    ensures Successors(scope, chain[0].campaignId, ToSet(chain + [next]), CursorAt(chain, i)) ==
      Successors(scope, chain[0].campaignId, ToSet(chain), CursorAt(chain, i))
  {
    assert i < |chain| ==> IdOf(chain[i - 1]) != IdOf(chain[|chain| - 1]);
    assert !Admits(scope, chain[0].campaignId, CursorAt(chain, i), next);
    assert ToSet(chain + [next]) == ToSet(chain) + {next};
  }

  /** What is not admitted at the tip leaves an unambiguous chain as it is. */
  lemma IgnoredAtTip(scope: Scope, chain: seq<CampaignEvent>, next: CampaignEvent)
    requires IsChain(scope, chain) && DistinctIds(chain)
    requires next.predecessor == Some(chain[|chain| - 1].event.id)
    requires !Admits(scope, chain[0].campaignId, CursorAt(chain, |chain|), next)
    ensures ResolveSet(scope, ToSet(chain + [next])) == Success(Resolved(scope, chain))
  {
    var few, many := ToSet(chain), ToSet(chain + [next]);
    ChainsResolve(scope, chain);
    ResolvesExactlyUnambiguousChains(scope, few, chain);
    assert CampaignChain.Roots(scope, many) == CampaignChain.Roots(scope, few);
    forall i | 1 <= i <= |chain| ensures Settled(scope, many, chain, i) {
      assert Settled(scope, few, chain, i);
      SameSuccessors(scope, chain, next, i);
    }
    ResolvesExactlyUnambiguousChains(scope, many, chain);
  }

  /** An event that names the last one of a resolved campaign extends it exactly when it continues it by its fields, and
      is ignored otherwise. */
  lemma NextEventIff(nodes: seq<CampaignEvent>, scope: Scope, r: ResolvedCampaign, next: CampaignEvent)
    requires Resolve(nodes, scope) == Success(r)
    requires ParseCampaignEvent(next.event) == Success(next)
    requires r.events != [] && next.predecessor == Some(r.events[|r.events| - 1].event.id)
    requires forall n :: n in r.events ==> n.event.id != next.event.id
    ensures TermsInForce(r.events).Some?
    ensures Resolve(r.events + [next], scope) ==
      Success(if Continues(r, next) then r.(events := r.events + [next]) else r)
  {
    ResolvedChain(nodes, scope, U64_MAX, r);
    AllVisible(nodes);
    ChainIdsDistinct(scope, nodes, r);
    UnambiguousPartsParse(nodes, scope, r);
    ParsedWith(r.events, next);
    WellFormedResolves(r.events + [next], scope);
    AdmitsIff(scope, r, next);
    if Continues(r, next) {
      ChainGrows(scope, r.events, next);
      ChainsResolve(scope, r.events + [next]);
    } else {
      IgnoredAtTip(scope, r.events, next);
    }
  }

  lemma UnambiguousPartsParse(nodes: seq<CampaignEvent>, scope: Scope, r: ResolvedCampaign)
    requires Resolve(nodes, scope) == Success(r)
    ensures FirstDefect(r.events).None?
  {
    AllVisible(nodes);
    ResolvedIsUnambiguous(scope, ToSet(nodes), r);
    UnambiguousIsChain(scope, ToSet(nodes), r.events);
  }
}
