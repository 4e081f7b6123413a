/** When a grant is valid: the chain it must be, the claim it must match and the key that must have issued it. */
module EntitlementValidity {
  import opened Base
  import opened Protocol
  import opened Campaign
  import CampaignChain
  import opened CampaignHistory
  import opened CampaignLifecycle
  import opened Entitlements
  import Authorization
  import AuthorizationAuthority

  // ---------- grants that resolve to themselves ----------

  /** `n` revokes `g`, by its fields: the publisher's later event naming `g`, for the same claim. */
  predicate Revokes(n: Grant, g: Grant) {
    && n.status == Revoked
    && n.predecessor == Some(g.event.id)
    && n.event.id != g.event.id
    && g.event.createdAt < n.event.createdAt
    && n.grantId == g.grantId && n.recipient == g.recipient && n.coordinate == g.coordinate
    && n.source == g.source && n.authorization == g.authorization
    && CoordinatePublisher(g.coordinate) == Some(n.event.pubkey)
  }

  lemma FollowsIff(g: Grant, n: Grant)
    requires g.status == Granted
    ensures Follows(g, g, n) <==> Revokes(n, g)
  {
  }

  /** A grant as it was signed, possibly followed by the publisher's revocation of it as that was signed. */
  predicate IsGrantChain(g: ResolvedGrant) {
    && 1 <= |g.events| <= 2
    && g.rootEventId == g.events[0].event.id
    && FirstDefect(g.events).None?
    && g.events[0].predecessor == None && g.events[0].status == Granted
    && (|g.events| == 2 ==> Revokes(g.events[1], g.events[0]))
  }

  lemma PartsParse(unique: seq<Grant>, events: seq<Grant>)
    requires FirstDefect(unique).None? && forall n :: n in events ==> n in unique
    ensures FirstDefect(events).None?
  {
  }

  lemma AfterRootIsChain(root: Grant, all: set<Grant>, g: ResolvedGrant)
    requires root in all && IsRoot(root) && AfterRoot(root, Revocations(root, all)) == Success(g)
    ensures g.rootEventId == root.event.id && 1 <= |g.events| <= 2 && g.events[0] == root
    ensures |g.events| == 2 ==> Revokes(g.events[1], root)
    ensures forall n :: n in g.events ==> n in all
  {
  }

  lemma ResolvedIsChain(nodes: seq<Grant>, g: ResolvedGrant)
    requires ResolveGrant(nodes) == Success(g)
    ensures IsGrantChain(g)
  {
    var unique := Dedup(GrantKey, nodes);
    var all := ToSet(unique);
    var root :| root in Roots(all);
    assert ResolveSet(all) == AfterRoot(root, Revocations(root, all));
    AfterRootIsChain(root, all, g);
    PartsParse(unique, g.events);
  }

  lemma AloneSet(root: Grant)
    requires IsRoot(root)
    ensures ResolveSet(ToSet([root])) == Success(ResolvedGrant(root.event.id, [root]))
  {
    assert ToSet([root]) == {root};
    assert Roots({root}) == {root};
    assert Revocations(root, {root}) == {};
  }

  lemma AloneResolves(root: Grant)
    requires IsRoot(root) && FirstDefect([root]).None?
    ensures ResolveGrant([root]) == Success(ResolvedGrant(root.event.id, [root]))
  {
    UnseenOfDistinct(GrantKey, [root], {});
    AloneSet(root);
  }

  lemma PairSet(root: Grant, next: Grant)
    requires IsRoot(root) && Revokes(next, root)
    ensures ResolveSet(ToSet([root, next])) == Success(ResolvedGrant(root.event.id, [root, next]))
  {
    assert ToSet([root, next]) == {root, next};
    assert Roots({root, next}) == {root};
    assert Revocations(root, {root, next}) == {next};
  }

  lemma PairResolves(root: Grant, next: Grant)
    requires IsRoot(root) && Revokes(next, root) && FirstDefect([root, next]).None?
    ensures ResolveGrant([root, next]) == Success(ResolvedGrant(root.event.id, [root, next]))
  {
    assert GrantKey(root) != GrantKey(next);
    UnseenOfDistinct(GrantKey, [root, next], {});
    PairSet(root, next);
  }

  lemma ChainIsResolved(g: ResolvedGrant)
    requires IsGrantChain(g)
    ensures ResolveGrant(g.events) == Success(g)
  {
    if |g.events| == 1 {
      AloneIsResolved(g, g.events[0]);
    } else {
      PairIsResolved(g, g.events[0], g.events[1]);
    }
  }

  lemma AloneIsResolved(g: ResolvedGrant, root: Grant)
    requires IsGrantChain(g) && |g.events| == 1 && root == g.events[0]
    ensures ResolveGrant(g.events) == Success(g)
  {
    assert g.events == [root];
    AloneResolves(root);
  }

  lemma PairIsResolved(g: ResolvedGrant, root: Grant, next: Grant)
    requires IsGrantChain(g) && |g.events| == 2 && root == g.events[0] && next == g.events[1]
    ensures ResolveGrant(g.events) == Success(g)
  {
    assert g.events == [root, next];
    PairResolves(root, next);
  }

  /** A grant resolves to itself exactly when it is such a chain. */
  lemma ResolvesToItselfIff(g: ResolvedGrant)
    ensures ResolveGrant(g.events) == Success(g) <==> IsGrantChain(g)
  {
    if ResolveGrant(g.events) == Success(g) {
      ResolvedIsChain(g.events, g);
    }
    if IsGrantChain(g) {
      ChainIsResolved(g);
    }
  }

  // ---------- validity ----------

  /** The grant claims from this campaign. */
  predicate ClaimsFrom(root: Grant, campaign: ResolvedCampaign) {
    && campaign.rootEventId == root.source
    && CoordinatePublisher(root.coordinate) == Some(campaign.publisher)
    && campaign.coordinate == root.coordinate
  }

  /** The publisher issued the grant and refers to no authorization, or another key did, under the authorization it
      refers to. */
  predicate RightfullyIssued(root: Grant, publisher: PublicKey,
                             authorization: Option<Authorization.ResolvedAuthorization>) {
    if root.event.pubkey == publisher then root.authorization.None?
    else
      && root.authorization.Some? && authorization.Some?
      && authorization.value.rootEventId == root.authorization.value
      && authorization.value.developer == publisher
      && AuthorizationAuthority.Authorizes(
           authorization.value, root.event.pubkey, root.coordinate, "issue_grant", root.event.createdAt)
  }

  ghost predicate IsValid(g: ResolvedGrant, campaign: ResolvedCampaign,
                          authorization: Option<Authorization.ResolvedAuthorization>)
  {
    && IsGrantChain(g)
    && ClaimsFrom(g.events[0], campaign)
    && ClaimableAt(campaign, g.events[0].event.createdAt)
    && RightfullyIssued(g.events[0], campaign.publisher, authorization)
  }

  lemma ParsedCoordinate(event: Event, n: Grant)
    requires ParseEntitlementEvent(event) == Success(n)
    ensures CoordinatePublisher(n.coordinate).Some?
  {
    Entitlements.ParsesIff(event, n);
  }

  lemma RevokerIsPublisher(g: ResolvedGrant)
    requires IsGrantChain(g)
    ensures CoordinatePublisher(g.events[0].coordinate).Some?
    ensures forall n :: n in g.events[1..] ==> CoordinatePublisher(g.events[0].coordinate) == Some(n.event.pubkey)
  {
    assert g.events[0] in g.events;
    ParsedCoordinate(g.events[0].event, g.events[0]);
    assert |g.events| == 2 ==> g.events[1..] == [g.events[1]];
  }

  lemma ClaimOf(g: ResolvedGrant, campaign: ResolvedCampaign,
                authorization: Option<Authorization.ResolvedAuthorization>)
    requires g.events != [] && CoordinatePublisher(g.events[0].coordinate).Some?
    requires forall n :: n in g.events[1..] ==> CoordinatePublisher(g.events[0].coordinate) == Some(n.event.pubkey)
    ensures ValidateClaim(g, campaign, authorization) ==
      if !ClaimsFrom(g.events[0], campaign) then Failure(CampaignMismatch)
      else if !ClaimableAt(campaign, g.events[0].event.createdAt) then Failure(CampaignNotClaimable)
      else ValidateIssuer(g.events[0], campaign.publisher, authorization)
  {
  }

  lemma ClaimOfChain(g: ResolvedGrant, campaign: ResolvedCampaign,
                     authorization: Option<Authorization.ResolvedAuthorization>)
    requires IsGrantChain(g)
    ensures ValidateClaim(g, campaign, authorization) ==
      if !ClaimsFrom(g.events[0], campaign) then Failure(CampaignMismatch)
      else if !ClaimableAt(campaign, g.events[0].event.createdAt) then Failure(CampaignNotClaimable)
      else ValidateIssuer(g.events[0], campaign.publisher, authorization)
  {
    RevokerIsPublisher(g);
    ClaimOf(g, campaign, authorization);
  }

  /** The verdict on a chain, check by check. */
  lemma VerdictOnChain(g: ResolvedGrant, campaign: ResolvedCampaign,
                       authorization: Option<Authorization.ResolvedAuthorization>)
    requires IsGrantChain(g)
    ensures ValidateEntitlement(g, campaign, authorization) ==
      if !ClaimsFrom(g.events[0], campaign) then Failure(CampaignMismatch)
      else if !ClaimableAt(campaign, g.events[0].event.createdAt) then Failure(CampaignNotClaimable)
      else ValidateIssuer(g.events[0], campaign.publisher, authorization)
  {
    ChainIsResolved(g);
    ClaimOfChain(g, campaign, authorization);
  }

  lemma IssuerVerdict(root: Grant, publisher: PublicKey, authorization: Option<Authorization.ResolvedAuthorization>)
    ensures ValidateIssuer(root, publisher, authorization).Success? <==>
            RightfullyIssued(root, publisher, authorization)
    ensures ValidateIssuer(root, publisher, authorization).Failure? ==>
      ValidateIssuer(root, publisher, authorization).error in
        {MissingAuthorizationEvent, MissingAuthorization, InvalidAuthorization}
  {
  }

  /** A grant is valid exactly when it is a grant chain that claims from this campaign, was issued while the campaign
      could be claimed, and was issued by a key that may. */
  lemma ValidIff(g: ResolvedGrant, campaign: ResolvedCampaign,
                 authorization: Option<Authorization.ResolvedAuthorization>)
    ensures ValidateEntitlement(g, campaign, authorization).Success? <==> IsValid(g, campaign, authorization)
  {
    ResolvesToItselfIff(g);
    if IsGrantChain(g) {
      VerdictOnChain(g, campaign, authorization);
      IssuerVerdict(g.events[0], campaign.publisher, authorization);
    }
  }

  /** For a resolved campaign: valid exactly when the grant was issued from the final start or the last change of terms
      on, and before the final end and any cancellation. */
  lemma ValidInIntervalIff(g: ResolvedGrant, nodes: seq<CampaignEvent>, scope: CampaignChain.Scope,
                           campaign: ResolvedCampaign,
                           authorization: Option<Authorization.ResolvedAuthorization>)
    requires CampaignChain.Resolve(nodes, scope) == Success(campaign)
    ensures campaign.events != [] && campaign.events[0].transition.Root?
    ensures ValidateEntitlement(g, campaign, authorization).Success? <==>
      && IsGrantChain(g)
      && ClaimsFrom(g.events[0], campaign)
      && ClaimFrom(campaign.events) <= g.events[0].event.createdAt < ClaimUntil(campaign.events)
      && RightfullyIssued(g.events[0], campaign.publisher, authorization)
  {
    ValidIff(g, campaign, authorization);
    ClaimableInterval(nodes, scope, U64_MAX, campaign, if IsGrantChain(g) then g.events[0].event.createdAt else 0);
  }

  lemma {:induction false} DefectsAreStructural(nodes: seq<Grant>)
    ensures FirstDefect(nodes).Some? ==>
      FirstDefect(nodes).value.EventError? || FirstDefect(nodes).value.ChainFailure?
  {
    if nodes != [] {
      DefectsAreStructural(nodes[1..]);
    }
  }

  lemma SetErrors(nodes: set<Grant>)
    ensures ResolveSet(nodes).Failure? ==> ResolveSet(nodes).error.ChainFailure?
  {
  }

  lemma ResolutionErrors(nodes: seq<Grant>)
    ensures ResolveGrant(nodes).Failure? ==>
      ResolveGrant(nodes).error.EventError? || ResolveGrant(nodes).error.ChainFailure?
  {
    var unique := Dedup(GrantKey, nodes);
    DefectsAreStructural(unique);
    SetErrors(ToSet(unique));
  }

  /** Two of the checks never fire: the coordinate was checked when the grant was parsed, and a resolved revocation is
      the publisher's own. */
  lemma UnreachableErrors(g: ResolvedGrant, campaign: ResolvedCampaign,
                          authorization: Option<Authorization.ResolvedAuthorization>)
    ensures ValidateEntitlement(g, campaign, authorization) != Failure(InvalidCoordinate)
    ensures ValidateEntitlement(g, campaign, authorization) != Failure(UnauthorizedRevoker)
  {
    ResolutionErrors(g.events);
    ResolvesToItselfIff(g);
    if IsGrantChain(g) {
      VerdictOnChain(g, campaign, authorization);
      IssuerVerdict(g.events[0], campaign.publisher, authorization);
    }
  }
}
