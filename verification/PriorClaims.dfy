/** A grant's verdict rests on what was published when it was issued; later events leave it alone. */
module PriorClaims {
  import opened Base
  import opened Protocol
  import opened Campaign
  import opened CampaignChain
  import opened CampaignForks
  import opened CampaignHistory
  import opened CampaignLifecycle
  import opened Entitlements
  import Authorization
  import AuthorizationAuthority

  /** Every event that `many` adds to `few` was published after `t`. */
  ghost predicate AddsOnlyLater(few: seq<CampaignEvent>, many: seq<CampaignEvent>, t: u64) {
    && (forall n :: n in few ==> n in many)
    && (forall n :: n in many && n !in few ==> n.At() > t)
  }

  lemma SameRoot(few: seq<CampaignEvent>, many: seq<CampaignEvent>, scope: Scope, a: ResolvedCampaign,
                 b: ResolvedCampaign)
    requires forall n :: n in few ==> n in many
    requires Resolve(few, scope) == Success(a) && Resolve(many, scope) == Success(b)
    ensures a.rootEventId == b.rootEventId && a.publisher == b.publisher && a.coordinate == b.coordinate
  {
    var seen, all := ToSet(VisibleAt(few, U64_MAX)), ToSet(VisibleAt(many, U64_MAX));
    ResolvedIsUnambiguous(scope, seen, a);
    ResolvedIsUnambiguous(scope, all, b);
    assert a.events[0] in CampaignChain.Roots(scope, seen);
    assert a.events[0] in CampaignChain.Roots(scope, all);
  }

  lemma CampaignPartSurvives(few: seq<CampaignEvent>, many: seq<CampaignEvent>, scope: Scope,
                             a: ResolvedCampaign, b: ResolvedCampaign, t: u64)
    requires AddsOnlyLater(few, many, t)
    requires Resolve(few, scope) == Success(a) && Resolve(many, scope) == Success(b)
    ensures a.rootEventId == b.rootEventId && a.publisher == b.publisher && a.coordinate == b.coordinate
    ensures ClaimableAt(a, t) <==> ClaimableAt(b, t)
  {
    SameRoot(few, many, scope, a, b);
    LaterEvidenceKeepsThePast(few, many, scope, a, b, t);
  }

  /** The verdict on a publisher's own grant is unchanged by campaign events published after it was issued,
      cancellations included, as long as they bring no second root and no fork. */
  lemma PublisherClaimsSurvive(grant: ResolvedGrant, t: u64,
                               few: seq<CampaignEvent>, many: seq<CampaignEvent>, scope: Scope, a: ResolvedCampaign)
    requires grant.events != [] && t == grant.events[0].event.createdAt
    requires AddsOnlyLater(few, many, t)
    requires Resolve(few, scope) == Success(a) && WellFormed(many) && Uncontested(scope, many, a)
    ensures Resolve(many, scope).Success?
    ensures ValidateEntitlement(grant, Resolve(many, scope).value, None) == ValidateEntitlement(grant, a, None)
  {
    StillResolvesIff(few, many, scope, U64_MAX, a);
    CampaignPartSurvives(few, many, scope, a, Resolve(many, scope).value, t);
    SameVerdict(grant, a, Resolve(many, scope).value, None, None);
  }

  /** The verdict on a delegated grant is unchanged by campaign and authorization events published after it was issued,
      cancellations included, as long as the campaign gets no second root and no fork, and the authorization is
      cancelled at most once. */
  lemma PriorClaimsSurvive(grant: ResolvedGrant, t: u64,
                           few: seq<CampaignEvent>, many: seq<CampaignEvent>, scope: Scope, a: ResolvedCampaign,
                           rootId: EventId, fewEvents: seq<Event>, manyEvents: seq<Event>,
                           c: Authorization.ResolvedAuthorization)
    requires grant.events != [] && t == grant.events[0].event.createdAt
    requires AddsOnlyLater(few, many, t)
    requires Resolve(few, scope) == Success(a) && WellFormed(many) && Uncontested(scope, many, a)
    requires AuthorizationAuthority.IdsDetermineEvents(manyEvents) && forall e :: e in fewEvents ==> e in manyEvents
    requires forall e :: e in manyEvents && e !in fewEvents ==> e.createdAt > t
    requires Authorization.Resolve(rootId, fewEvents) == Success(c)
    requires c.events != [] && AuthorizationAuthority.CancelledAtMostOnce(c.events[0], manyEvents)
    ensures Resolve(many, scope).Success? && Authorization.Resolve(rootId, manyEvents).Success?
    ensures
      ValidateEntitlement(
        grant, Resolve(many, scope).value, Some(Authorization.Resolve(rootId, manyEvents).value)) ==
      ValidateEntitlement(grant, a, Some(c))
  {
    StillResolvesIff(few, many, scope, U64_MAX, a);
    AuthorizationAuthority.StillResolvesIff(rootId, fewEvents, U64_MAX, manyEvents, c);
    var b, d := Resolve(many, scope).value, Authorization.Resolve(rootId, manyEvents).value;
    CampaignPartSurvives(few, many, scope, a, b, t);
    AuthorizationAuthority.LaterEventsKeepAuthority(rootId, fewEvents, manyEvents, t, c, d);
    SameVerdict(grant, a, b, Some(c), Some(d));
  }

  lemma SameVerdict(grant: ResolvedGrant, a: ResolvedCampaign, b: ResolvedCampaign,
                    c: Option<Authorization.ResolvedAuthorization>, d: Option<Authorization.ResolvedAuthorization>)
    requires grant.events != []
    requires a.rootEventId == b.rootEventId && a.publisher == b.publisher && a.coordinate == b.coordinate
    requires ClaimableAt(a, grant.events[0].event.createdAt) <==> ClaimableAt(b, grant.events[0].event.createdAt)
    requires c.Some? <==> d.Some?
    requires c.Some? ==>
      && c.value.rootEventId == d.value.rootEventId && c.value.developer == d.value.developer
      && forall signer, coordinate, capability ::
           AuthorizationAuthority.Authorizes(c.value, signer, coordinate, capability,
             grant.events[0].event.createdAt) <==>
           AuthorizationAuthority.Authorizes(d.value, signer, coordinate, capability, grant.events[0].event.createdAt)
    ensures ValidateEntitlement(grant, a, c) == ValidateEntitlement(grant, b, d)
  {
    var root := grant.events[0];
    if CoordinatePublisher(root.coordinate).Some? {
      SameIssuer(root, CoordinatePublisher(root.coordinate).value, c, d);
    }
  }

  lemma SameIssuer(root: Grant, publisher: PublicKey,
                   c: Option<Authorization.ResolvedAuthorization>, d: Option<Authorization.ResolvedAuthorization>)
    requires c.Some? <==> d.Some?
    requires c.Some? ==>
      && c.value.rootEventId == d.value.rootEventId && c.value.developer == d.value.developer
      && forall signer, coordinate, capability ::
           AuthorizationAuthority.Authorizes(c.value, signer, coordinate, capability, root.event.createdAt) <==>
           AuthorizationAuthority.Authorizes(d.value, signer, coordinate, capability, root.event.createdAt)
    ensures ValidateIssuer(root, publisher, c) == ValidateIssuer(root, publisher, d)
  {
  }
}
