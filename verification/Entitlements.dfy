/** Entitlement grants: parsing, resolution of a grant and its revocation, and validation against policy. */
module Entitlements {
  import opened Base
  import opened Protocol
  import opened Campaign
  import opened CampaignChain
  import opened CampaignLifecycle
  import Authorization
  import AuthorizationAuthority

  datatype GrantStatus = Granted | Revoked

  datatype Grant = Grant(
    event: Event,
    grantId: string,
    recipient: PublicKey,
    coordinate: string,
    source: EventId,
    authorization: Option<EventId>,
    reason: Option<string>,
    status: GrantStatus,
    predecessor: Option<EventId>)

  datatype ResolvedGrant = ResolvedGrant(rootEventId: EventId, events: seq<Grant>) {
    function Status(): Option<GrantStatus> {
      if events == [] then None else Some(events[|events| - 1].status)
    }
  }

  datatype EntitlementError =
    | EventError(event: ProtocolError)
    | ChainFailure(chain: ChainError)
    | InvalidCoordinate
    | CampaignMismatch
    | CampaignNotClaimable
    | MissingAuthorizationEvent
    | MissingAuthorization
    | InvalidAuthorization
    | UnauthorizedRevoker

  // ---------- parsing ----------

  function ParseStatus(status: string): Result<GrantStatus, ProtocolError> {
    if status == "granted" then Success(Granted)
    else if status == "revoked" then Success(Revoked)
    else Failure(MalformedTag("status"))
  }

  /** Grant id, recipient and the coordinate of the game. */
  function ParseSubject(tags: seq<Tag>): Result<(string, PublicKey, string), ProtocolError> {
    var grantId :- RequiredTag(tags, "d");
    var recipient :- RequiredHex(tags, "p");
    var coordinate :- RequiredTag(tags, "a");
    if CoordinatePublisher(coordinate).None? then Failure(MalformedTag("a"))
    else Success((grantId, recipient, coordinate))
  }

  /** The campaign claimed from, the authorization referred to, and a reason. */
  function ParseBasis(tags: seq<Tag>): Result<(EventId, Option<EventId>, Option<string>), ProtocolError> {
    var source :- RequiredHex(tags, "source_event");
    var authorization :- OptionalId(tags, "authorization");
    var reason :- ExactTag(tags, "reason", false);
    Success((source, authorization, reason))
  }

  function ParseLink(tags: seq<Tag>): (r: Result<(GrantStatus, Option<EventId>), ProtocolError>)
    ensures r.Success? ==> (r.value.0 == Granted <==> r.value.1.None?)
  {
    var statusText :- RequiredTag(tags, "status");
    var status :- ParseStatus(statusText);
    var predecessor :- OptionalId(tags, "e");
    if status == Granted && predecessor.Some? then Failure(ForbiddenTag("e"))
    else if status == Revoked && predecessor.None? then Failure(MissingTag("e"))
    else Success((status, predecessor))
  }

  function ParseEntitlementEvent(event: Event): (r: Result<Grant, ProtocolError>)
    ensures r.Success? ==>
      r.value.event == event && (r.value.status == Granted <==> r.value.predecessor.None?)
  {
    if event.kind != ENTITLEMENT_GRANT_KIND then Failure(WrongKind(ENTITLEMENT_GRANT_KIND, event.kind))
    else if !event.verified then Failure(InvalidSignature)
    else
      var subject :- ParseSubject(event.tags);
      var basis :- ParseBasis(event.tags);
      var link :- ParseLink(event.tags);
      Success(Grant(event, subject.0, subject.1, subject.2, basis.0, basis.1, basis.2, link.0, link.1))
  }

  // ---------- what a parsed grant says ----------

  ghost predicate SaysStatus(tags: seq<Tag>, status: GrantStatus, predecessor: Option<EventId>) {
    && Says(tags, "status", if status == Granted then "granted" else "revoked")
    && SaysOptionalHex(tags, "e", predecessor)
    && (status == Granted <==> predecessor.None?)
  }

  /** `n` is what this verified grant event says, each tag once. */
  ghost predicate Describes(event: Event, n: Grant) {
    && n.event == event && event.kind == 1030 && event.verified
    && Says(event.tags, "d", n.grantId) && SaysHex(event.tags, "p", n.recipient)
    && Says(event.tags, "a", n.coordinate) && CoordinatePublisher(n.coordinate).Some?
    && SaysHex(event.tags, "source_event", n.source)
    && SaysOptionalHex(event.tags, "authorization", n.authorization) && SaysOptional(event.tags, "reason", n.reason)
    && SaysStatus(event.tags, n.status, n.predecessor)
  }

  lemma ParsesSubject(tags: seq<Tag>, grantId: string, recipient: PublicKey, coordinate: string)
    ensures ParseSubject(tags) == Success((grantId, recipient, coordinate)) <==>
      && Says(tags, "d", grantId) && SaysHex(tags, "p", recipient) && Says(tags, "a", coordinate)
      && CoordinatePublisher(coordinate).Some?
  {
    ReadsWhatTagsSay(tags, "d");
    ReadsWhatTagsSay(tags, "p");
    ReadsWhatTagsSay(tags, "a");
  }

  lemma ParsesBasis(tags: seq<Tag>, source: EventId, authorization: Option<EventId>, reason: Option<string>)
    ensures ParseBasis(tags) == Success((source, authorization, reason)) <==>
      && SaysHex(tags, "source_event", source) && SaysOptionalHex(tags, "authorization", authorization)
      && SaysOptional(tags, "reason", reason)
  {
    ReadsWhatTagsSay(tags, "source_event");
    ReadsWhatTagsSay(tags, "authorization");
    ReadsWhatTagsSay(tags, "reason");
  }

  lemma ParsesLink(tags: seq<Tag>, status: GrantStatus, predecessor: Option<EventId>)
    ensures ParseLink(tags) == Success((status, predecessor)) <==> SaysStatus(tags, status, predecessor)
  {
    ReadsWhatTagsSay(tags, "status");
    ReadsWhatTagsSay(tags, "e");
  }

  /** An event parses to `n` exactly when `n` is what its tags say. */
  lemma ParsesIff(event: Event, n: Grant)
    ensures ParseEntitlementEvent(event) == Success(n) <==> Describes(event, n)
  {
    ParsesSubject(event.tags, n.grantId, n.recipient, n.coordinate);
    ParsesBasis(event.tags, n.source, n.authorization, n.reason);
    ParsesLink(event.tags, n.status, n.predecessor);
  }

  // ---------- resolution ----------

  function GrantKey(n: Grant): EventId {
    n.event.id
  }

  function FirstDefect(nodes: seq<Grant>): (r: Option<EntitlementError>)
    ensures r.None? <==> forall n :: n in nodes ==> ParseEntitlementEvent(n.event) == Success(n)
  {
    if nodes == [] then None
    else
      assert forall n :: n in nodes <==> n == nodes[0] || n in nodes[1..];
      match ParseEntitlementEvent(nodes[0].event)
      case Failure(e) => Some(EventError(e))
      case Success(parsed) =>
        if parsed != nodes[0] then Some(ChainFailure(InvariantMutation)) else FirstDefect(nodes[1..])
  }

  predicate IsRoot(n: Grant) {
    n.predecessor.None? && n.status == Granted
  }

  /** `next` may follow `tip` in the chain of `root`. */
  predicate Follows(root: Grant, tip: Grant, next: Grant) {
    && next.predecessor == Some(tip.event.id)
    && next.grantId == root.grantId
    && next.recipient == root.recipient
    && next.coordinate == root.coordinate
    && next.source == root.source
    && next.authorization == root.authorization
    && next.status == Revoked
    && CoordinatePublisher(root.coordinate) == Some(next.event.pubkey)
    && tip.status != Revoked
    && next.event.createdAt > tip.event.createdAt
    && next.predecessor != Some(next.event.id)
  }

  function Roots(nodes: set<Grant>): set<Grant> {
    set n | n in nodes && IsRoot(n)
  }

  function Revocations(root: Grant, nodes: set<Grant>): set<Grant> {
    set n | n in nodes && Follows(root, root, n)
  }

  /** A grant is its only root, followed by its only valid revocation if there is one. */
  ghost function ResolveSet(nodes: set<Grant>): Result<ResolvedGrant, EntitlementError> {
    if Roots(nodes) == {} then Failure(ChainFailure(Cycle))
    else
      var root :| root in Roots(nodes);
      if Roots(nodes) != {root} then Failure(ChainFailure(MultipleRoots))
      else AfterRoot(root, Revocations(root, nodes))
  }

  ghost function AfterRoot(root: Grant, revocations: set<Grant>): Result<ResolvedGrant, EntitlementError> {
    if revocations == {} then Success(ResolvedGrant(root.event.id, [root]))
    else
      var next :| next in revocations;
      if revocations != {next} then Failure(ChainFailure(Fork(root.event.id)))
      else Success(ResolvedGrant(root.event.id, [root, next]))
  }

  /** Resolution of nodes that have already been deduplicated. */
  ghost function ResolveUnique(unique: seq<Grant>): Result<ResolvedGrant, EntitlementError> {
    if FirstDefect(unique).Some? then Failure(FirstDefect(unique).value)
    else if HasSelfReference(unique) then Failure(ChainFailure(Cycle))
    else ResolveSet(ToSet(unique))
  }

  predicate HasSelfReference(nodes: seq<Grant>) {
    exists n :: n in nodes && n.predecessor == Some(n.event.id)
  }

  ghost function ResolveGrant(nodes: seq<Grant>): Result<ResolvedGrant, EntitlementError> {
    if nodes == [] then Failure(ChainFailure(Empty)) else ResolveUnique(Dedup(GrantKey, nodes))
  }

  method ResolveEntitlementGrant(nodes: seq<Grant>) returns (r: Result<ResolvedGrant, EntitlementError>)
    ensures r == ResolveGrant(nodes)
  {
    if nodes == [] {
      return Failure(ChainFailure(Empty));
    }
    var unique := Dedup(GrantKey, nodes);
    DedupDistinct(GrantKey, nodes);
    r := ResolveUniqueNodes(unique);
  }

  method ResolveUniqueNodes(unique: seq<Grant>) returns (r: Result<ResolvedGrant, EntitlementError>)
    requires DistinctKeys(GrantKey, unique)
    ensures r == ResolveUnique(unique)
  {
    var defect := FirstDefect(unique);
    if defect.Some? {
      return Failure(defect.value);
    }
    if HasSelfReference(unique) {
      return Failure(ChainFailure(Cycle));
    }
    var roots := Filter(IsRoot, unique);
    FilterAsSet(IsRoot, unique, Roots(ToSet(unique)));
    if roots == [] {
      return Failure(ChainFailure(Cycle));
    }
    if |roots| != 1 {
      return Failure(ChainFailure(MultipleRoots));
    }
    assert roots[0] in roots;
    r := WalkGrant(unique, roots[0]);
    assert ResolveSet(ToSet(unique)) == AfterRoot(roots[0], Revocations(roots[0], ToSet(unique)));
  }

  /** Where the walk stands after `ordered`: at the root, or at the root's only revocation. */
  ghost predicate WalkState(unique: seq<Grant>, root: Grant, ordered: seq<Grant>, visited: set<EventId>, tip: Grant) {
    && tip in unique
    && if ordered == [] then visited == {} && tip == root
       else ordered == [root] && visited == {root.event.id} && tip.status == Revoked
            && Revocations(root, ToSet(unique)) == {tip}
  }

  /** A general chain walk; it never gets past the first revocation, and never meets a tip twice. */
  method WalkGrant(unique: seq<Grant>, root: Grant) returns (r: Result<ResolvedGrant, EntitlementError>)
    requires DistinctKeys(GrantKey, unique) && root in unique && root.status == Granted
    ensures r == AfterRoot(root, Revocations(root, ToSet(unique)))
  {
    var byId := IndexBy(GrantKey, unique);
    var ordered, visited: set<EventId> := [], {};
    var current := root.event.id;
    ghost var tip := root;
    while true
      invariant WalkState(unique, root, ordered, visited, tip) && current == tip.event.id
      decreases 2 - |ordered|
    {
      FreshTip(unique, root, ordered, visited, tip);
      if current in visited {
        assert false;
      }
      visited := visited + {current};
      assert current in byId && byId[current] == tip by {
        assert GrantKey(tip) in byId;
        SameKey(GrantKey, unique, byId[current], tip);
      }
      var predecessor := byId[current];
      ordered := ordered + [predecessor];
      var valid := FollowersOf(unique, root, predecessor);
      if |valid| > 1 {
        return Failure(ChainFailure(Fork(current)));
      }
      if valid == [] {
        assert ordered == if |ordered| == 1 then [root] else [root, tip];
        return Success(ResolvedGrant(root.event.id, ordered));
      }
      assert valid[0] in valid;
      tip := valid[0];
      current := valid[0].event.id;
    }
  }

  lemma FreshTip(unique: seq<Grant>, root: Grant, ordered: seq<Grant>, visited: set<EventId>, tip: Grant)
    requires DistinctKeys(GrantKey, unique) && root in unique && root.status == Granted
    requires WalkState(unique, root, ordered, visited, tip)
    ensures tip.event.id !in visited
  {
    if GrantKey(root) == GrantKey(tip) {
      SameKey(GrantKey, unique, root, tip);
    }
  }

  method FollowersOf(unique: seq<Grant>, root: Grant, tip: Grant) returns (valid: seq<Grant>)
    requires DistinctKeys(GrantKey, unique)
    ensures tip.status == Revoked ==> valid == []
    ensures tip == root ==>
      var revocations := Revocations(root, ToSet(unique));
      && (valid == [] <==> revocations == {})
      && (|valid| == 1 ==> revocations == {valid[0]})
      && (|valid| > 1 ==> forall n :: revocations != {n})
    ensures forall n :: n in valid ==> n in unique && n.status == Revoked
  {
    var follows := (n: Grant) => Follows(root, tip, n);
    valid := Filter(follows, unique);
    if tip == root {
      FilterAsSet(follows, unique, Revocations(root, ToSet(unique)));
    }
    if tip.status == Revoked {
      FilterNone(follows, unique);
    }
  }

  /** Resolution as a function of the set of well-formed nodes. */
  ghost function ResolveNodes(nodes: set<Grant>): Result<ResolvedGrant, EntitlementError> {
    if nodes == {} then Failure(ChainFailure(Empty))
    else if exists n :: n in nodes && n.predecessor == Some(n.event.id) then Failure(ChainFailure(Cycle))
    else ResolveSet(nodes)
  }

  /** Order and repetition of well-formed nodes do not matter. */
  lemma ResolveGrantOfSet(list: seq<Grant>, nodes: set<Grant>)
    requires forall n :: n in Dedup(GrantKey, list) <==> n in nodes
    requires forall n :: n in nodes ==> ParseEntitlementEvent(n.event) == Success(n)
    ensures ResolveGrant(list) == ResolveNodes(nodes)
  {
    var unique := Dedup(GrantKey, list);
    assert ToSet(unique) == nodes;
    assert FirstDefect(unique).None?;
    assert list == [] <==> nodes == {} by {
      if list != [] {
        assert unique[0] in unique;
      }
    }
  }

  lemma GrantOrderIndependence(a: seq<Grant>, b: seq<Grant>)
    requires forall n :: n in a <==> n in b
    requires KeyDetermines(GrantKey, a) && forall n :: n in a ==> ParseEntitlementEvent(n.event) == Success(n)
    ensures ResolveGrant(a) == ResolveGrant(b)
  {
    DedupKeepsAll(GrantKey, a);
    DedupKeepsAll(GrantKey, b);
    ResolveGrantOfSet(a, ToSet(a));
    ResolveGrantOfSet(b, ToSet(a));
  }

  /** More events can only revoke a grant: a revocation, once resolved, is final. */
  lemma RevocationIsFinal(few: set<Grant>, many: set<Grant>)
    requires few <= many && ResolveNodes(few).Success? && ResolveNodes(many).Success?
    ensures ResolveNodes(few).value.events <= ResolveNodes(many).value.events
    ensures ResolveNodes(few).value.Status() == Some(Revoked) ==> ResolveNodes(many) == ResolveNodes(few)
  {
    var root :| root in Roots(few);
    assert Roots(few) == {root} && root in Roots(many);
    assert Roots(many) == {root};
    assert Revocations(root, few) <= Revocations(root, many);
  }

  // ---------- validation ----------

  predicate AuthorizedBy(authorization: Authorization.ResolvedAuthorization, rootId: EventId, publisher: PublicKey,
                         root: Grant) {
    && authorization.rootEventId == rootId
    && authorization.developer == publisher
    && AuthorizationAuthority.Authorizes(
         authorization, root.event.pubkey, root.coordinate, Authorization.ISSUE_GRANT, root.event.createdAt)
  }

  /** Who may have issued the grant: the publisher itself, or a key the publisher had authorized by then. */
  function ValidateIssuer(root: Grant, publisher: PublicKey, authorization: Option<Authorization.ResolvedAuthorization>)
    : Result<(), EntitlementError>
  {
    if root.event.pubkey == publisher then
      if root.authorization.None? then Success(()) else Failure(InvalidAuthorization)
    else if root.authorization.None? then Failure(MissingAuthorizationEvent)
    else if authorization.None? then Failure(MissingAuthorization)
    else if AuthorizedBy(authorization.value, root.authorization.value, publisher, root) then Success(())
    else Failure(InvalidAuthorization)
  }

  ghost function ValidateEntitlement(grant: ResolvedGrant, campaign: ResolvedCampaign,
                                     authorization: Option<Authorization.ResolvedAuthorization>)
    : Result<(), EntitlementError>
  {
    var resolved :- ResolveGrant(grant.events);
    if resolved != grant then Failure(ChainFailure(InvariantMutation))
    else if resolved.events == [] then Failure(ChainFailure(Empty))
    else ValidateClaim(resolved, campaign, authorization)
  }

  ghost function ValidateClaim(grant: ResolvedGrant, campaign: ResolvedCampaign,
                               authorization: Option<Authorization.ResolvedAuthorization>)
    : Result<(), EntitlementError>
    requires grant.events != []
  {
    var root := grant.events[0];
    var publisher :- OkOr(CoordinatePublisher(root.coordinate), InvalidCoordinate);
    if campaign.rootEventId != root.source || campaign.publisher != publisher ||
      campaign.coordinate != root.coordinate
    then Failure(CampaignMismatch)
    else if !ClaimableAt(campaign, root.event.createdAt) then Failure(CampaignNotClaimable)
    else
      var _ :- ValidateIssuer(root, publisher, authorization);
      if exists n :: n in grant.events[1..] && n.event.pubkey != publisher then Failure(UnauthorizedRevoker)
      else Success(())
  }

  method ValidateAdpEntitlement(grant: ResolvedGrant, campaign: ResolvedCampaign,
                                authorization: Option<Authorization.ResolvedAuthorization>)
    returns (r: Result<(), EntitlementError>)
    ensures r == ValidateEntitlement(grant, campaign, authorization)
  {
    var resolution := ResolveEntitlementGrant(grant.events);
    if resolution.Failure? {
      return Failure(resolution.error);
    }
    var resolved := resolution.value;
    if resolved != grant {
      return Failure(ChainFailure(InvariantMutation));
    }
    if resolved.events == [] {
      return Failure(ChainFailure(Empty));
    }
    var root := resolved.events[0];
    var publisher := CoordinatePublisher(root.coordinate);
    if publisher.None? {
      return Failure(InvalidCoordinate);
    }
    if campaign.rootEventId != root.source || campaign.publisher != publisher.value ||
      campaign.coordinate != root.coordinate {
      return Failure(CampaignMismatch);
    }
    var state := ComputeStateAt(campaign, root.event.createdAt);
    if state.None? || !Open(state.value, root.event.createdAt) {
      return Failure(CampaignNotClaimable);
    }
    var issuer := ValidateIssuer(root, publisher.value, authorization);
    if issuer.Failure? {
      return Failure(issuer.error);
    }
    if exists n :: n in resolved.events[1..] && n.event.pubkey != publisher.value {
      return Failure(UnauthorizedRevoker);
    }
    return Success(());
  }
}
