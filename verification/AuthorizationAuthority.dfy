/** What a resolved authorization permits, and how evidence can only take authority away. */
module AuthorizationAuthority {
  import opened Base
  import opened Text
  import opened Protocol
  import opened Authorization

  predicate HasCapability(r: ResolvedAuthorization, capability: string) {
    IsKnownCapability(capability) && capability in r.terms.capabilities
  }

  predicate Authorizes(r: ResolvedAuthorization, signer: PublicKey, coordinate: string, capability: string, at: u64) {
    && signer == r.terms.fulfillment
    && coordinate == r.terms.coordinate
    && r.terms.validFrom <= at
    && (r.cancelledAt.None? || at < r.cancelledAt.value)
    && HasCapability(r, capability)
  }

  /** Ids are digests of signed content: an id names one event. */
  ghost predicate IdsDetermineEvents(events: seq<Event>) {
    forall a, b :: a in events && b in events && a.id == b.id ==> a == b
  }

  // ---------- growing evidence ----------

  ghost predicate Extends(small: map<EventId, Event>, large: map<EventId, Event>) {
    forall id :: id in small ==> id in large && large[id] == small[id]
  }

  /** `b` knows everything `a` does: the same root and terms, and `a`'s cancellation if it has one. */
  ghost predicate Refines(a: ResolvedAuthorization, b: ResolvedAuthorization) {
    && a.rootEventId == b.rootEventId && a.developer == b.developer && a.terms == b.terms
    && a.events <= b.events
    && (a.cancelledAt.Some? ==> b.cancelledAt == a.cancelledAt)
  }

  /** More events can add a cancellation or make a fork; they never change or remove what was found. */
  lemma MoreEvents(rootId: EventId, small: map<EventId, Event>, large: map<EventId, Event>)
    requires Extends(small, large) && rootId in small
    ensures
      match (ResolveMap(rootId, small), ResolveMap(rootId, large))
      case (Success(a), Success(b)) => Refines(a, b)
      case (Success(_), Failure(e)) => e == Fork(small[rootId].id)
      case (Failure(e), later) => later == Failure(e)
  {
    var found := FindRoot(rootId, small);
    assert FindRoot(rootId, large) == found;
    if found.Success? {
      CancellationsGrow(found.value, small, large);
      MoreCancellations(rootId, found.value, Cancellations(found.value, small), Cancellations(found.value, large));
    }
  }

  lemma MoreCancellations(rootId: EventId, root: AuthorizationEvent, few: set<Event>, many: set<Event>)
    requires few <= many && forall e :: e in many ==> IsCancellation(root, e)
    ensures
      match (Conclude(rootId, root, few), Conclude(rootId, root, many))
      case (Success(a), Success(b)) => Refines(a, b)
      case (Success(_), Failure(e)) => e == Fork(root.event.id)
      case (Failure(e), later) => later == Failure(e)
  {
  }

  lemma CancellationsGrow(root: AuthorizationEvent, small: map<EventId, Event>, large: map<EventId, Event>)
    requires Extends(small, large)
    ensures Cancellations(root, small) <= Cancellations(root, large)
  {
    forall e | e in Cancellations(root, small) ensures e in Cancellations(root, large) {
      var id :| id in small && small[id] == e;
      assert id in large && large[id] == e;
    }
  }

  lemma LessAuthority(a: ResolvedAuthorization, b: ResolvedAuthorization)
    requires Refines(a, b)
    ensures forall signer, coordinate, capability, at: u64 :: Authorizes(b, signer, coordinate, capability, at) ==>
      Authorizes(a, signer, coordinate, capability, at)
  {
  }

  lemma SameAuthority(a: ResolvedAuthorization, b: ResolvedAuthorization, t: u64)
    requires Refines(a, b) && (a.cancelledAt.None? && b.cancelledAt.Some? ==> t < b.cancelledAt.value)
    ensures forall signer, coordinate, capability ::
      Authorizes(a, signer, coordinate, capability, t) <==> Authorizes(b, signer, coordinate, capability, t)
  {
  }

  lemma VisibleExtends(few: seq<Event>, many: seq<Event>, t: u64, later: u64)
    requires IdsDetermineEvents(many) && t <= later && forall e :: e in few ==> e in many
    ensures Extends(ById(few, t), ById(many, later))
    ensures forall e :: e in few && e.createdAt <= t ==> e.id in ById(few, t) && ById(few, t)[e.id] == e
    ensures forall id :: id in ById(many, later) ==> ById(many, later)[id].id == id && ById(many, later)[id] in many
  {
    var small, large := ById(few, t), ById(many, later);
    forall id | id in small ensures id in large && large[id] == small[id] {
      assert small[id] in few && small[id].createdAt <= t;
      assert EventKey(small[id]) in large;
    }
    forall e | e in few && e.createdAt <= t ensures e.id in small && small[e.id] == e {
      assert EventKey(e) in small;
    }
  }

  /** Anything authorized under more events, or a later cut, was authorized under fewer. */
  lemma AuthorityOnlyShrinks(rootId: EventId, few: seq<Event>, t: u64, many: seq<Event>, later: u64,
                             b: ResolvedAuthorization)
    returns (a: ResolvedAuthorization)
    requires IdsDetermineEvents(many) && t <= later && forall e :: e in few ==> e in many
    requires rootId in ById(few, t)
    requires ResolveAt(rootId, many, later) == Success(b)
    ensures ResolveAt(rootId, few, t) == Success(a) && Refines(a, b)
    ensures forall signer, coordinate, capability, at: u64 :: Authorizes(b, signer, coordinate, capability, at) ==>
      Authorizes(a, signer, coordinate, capability, at)
  {
    var small, large := ById(few, t), ById(many, later);
    VisibleExtends(few, many, t, later);
    MoreEvents(rootId, small, large);
    assert ResolveMap(rootId, small).Success?;
    a := ResolveMap(rootId, small).value;
    LessAuthority(a, b);
  }

  /** No two different events cancel this root. */
  ghost predicate CancelledAtMostOnce(root: AuthorizationEvent, events: seq<Event>) {
    forall x, y :: x in events && y in events && IsCancellation(root, x) && IsCancellation(root, y) ==> x == y
  }

  lemma ConcludesIff(rootId: EventId, root: AuthorizationEvent, found: set<Event>)
    requires forall e :: e in found ==> IsCancellation(root, e)
    ensures Conclude(rootId, root, found).Success? <==> forall x, y :: x in found && y in found ==> x == y
  {
    if found != {} && forall x, y :: x in found && y in found ==> x == y {
      var c :| c in found;
      assert found == {c};
    }
  }

  lemma CancellationsAmong(root: AuthorizationEvent, events: seq<Event>)
    requires IdsDetermineEvents(events)
    ensures forall e :: e in Cancellations(root, ById(events, U64_MAX)) <==> e in events && IsCancellation(root, e)
  {
    VisibleExtends(events, events, U64_MAX, U64_MAX);
  }

  lemma RootOf(rootId: EventId, byId: map<EventId, Event>, r: ResolvedAuthorization)
    requires ResolveMap(rootId, byId) == Success(r)
    ensures r.events != [] && FindRoot(rootId, byId) == Success(r.events[0])
  {
  }

  /** What resolved on some events resolves on more exactly when they do not cancel the root twice. */
  lemma StillResolvesIff(rootId: EventId, few: seq<Event>, t: u64, many: seq<Event>, r: ResolvedAuthorization)
    requires IdsDetermineEvents(many) && forall e :: e in few ==> e in many
    requires ResolveAt(rootId, few, t) == Success(r)
    ensures r.events != []
    ensures Resolve(rootId, many).Success? <==> CancelledAtMostOnce(r.events[0], many)
  {
    VisibleExtends(few, many, t, U64_MAX);
    RootOf(rootId, ById(few, t), r);
    assert FindRoot(rootId, ById(many, U64_MAX)) == FindRoot(rootId, ById(few, t));
    CancellationsAmong(r.events[0], many);
    ConcludesIff(rootId, r.events[0], Cancellations(r.events[0], ById(many, U64_MAX)));
  }

  /** A fork is final: no further evidence and no later cut resolves it. */
  lemma ForksPersist(rootId: EventId, few: seq<Event>, t: u64, many: seq<Event>, later: u64, at: EventId)
    requires IdsDetermineEvents(many) && t <= later && forall e :: e in few ==> e in many
    requires ResolveAt(rootId, few, t) == Failure(Fork(at))
    ensures ResolveAt(rootId, many, later) == Failure(Fork(at))
  {
    VisibleExtends(few, many, t, later);
    MoreEvents(rootId, ById(few, t), ById(many, later));
  }

  lemma LateCancellation(rootId: EventId, small: map<EventId, Event>, large: map<EventId, Event>, t: u64,
                         a: ResolvedAuthorization, b: ResolvedAuthorization)
    requires Extends(small, large) && forall id :: id in large && id !in small ==> large[id].createdAt > t
    requires ResolveMap(rootId, small) == Success(a) && ResolveMap(rootId, large) == Success(b)
    requires a.cancelledAt.None? && b.cancelledAt.Some?
    ensures t < b.cancelledAt.value
  {
    var root := FindRoot(rootId, small).value;
    assert FindRoot(rootId, large) == Success(root);
    var c := ConcludedCancellation(rootId, root, Cancellations(root, large), b);
    var id :| id in large && large[id] == c;
    if id in small {
      NothingConcluded(rootId, root, Cancellations(root, small), a);
      assert c in small.Values;
    }
  }

  lemma ConcludedCancellation(rootId: EventId, root: AuthorizationEvent, found: set<Event>, r: ResolvedAuthorization)
    returns (c: Event)
    requires forall e :: e in found ==> IsCancellation(root, e)
    requires Conclude(rootId, root, found) == Success(r) && r.cancelledAt.Some?
    ensures c in found && r.cancelledAt == Some(c.createdAt)
  {
    c :| c in found;
  }

  lemma NothingConcluded(rootId: EventId, root: AuthorizationEvent, found: set<Event>, r: ResolvedAuthorization)
    requires forall e :: e in found ==> IsCancellation(root, e)
    requires Conclude(rootId, root, found) == Success(r) && r.cancelledAt.None?
    ensures found == {}
  {
  }

  lemma OnlyLateAdditions(few: seq<Event>, many: seq<Event>, t: u64)
    requires IdsDetermineEvents(many) && forall e :: e in few ==> e in many
    requires forall e :: e in many && e !in few ==> e.createdAt > t
    ensures
      var small, large := ById(few, U64_MAX), ById(many, U64_MAX);
      && Extends(small, large)
      && forall id :: id in large && id !in small ==> large[id].createdAt > t
  {
    var small, large := ById(few, U64_MAX), ById(many, U64_MAX);
    VisibleExtends(few, many, U64_MAX, U64_MAX);
    forall id | id in large && id !in small ensures large[id].createdAt > t {
      assert large[id] !in few;
    }
  }

  /** Events published after `t` do not change what was authorized at `t`. */
  lemma LaterEventsKeepAuthority(rootId: EventId, few: seq<Event>, many: seq<Event>, t: u64,
                                 a: ResolvedAuthorization, b: ResolvedAuthorization)
    requires IdsDetermineEvents(many) && forall e :: e in few ==> e in many
    requires forall e :: e in many && e !in few ==> e.createdAt > t
    requires Resolve(rootId, few) == Success(a) && Resolve(rootId, many) == Success(b)
    ensures a.rootEventId == b.rootEventId && a.developer == b.developer
    ensures forall signer, coordinate, capability ::
      Authorizes(a, signer, coordinate, capability, t) <==> Authorizes(b, signer, coordinate, capability, t)
  {
    OnlyLateAdditions(few, many, t);
    MoreEvents(rootId, ById(few, U64_MAX), ById(many, U64_MAX));
    assert Refines(a, b);
    if a.cancelledAt.None? && b.cancelledAt.Some? {
      LateCancellation(rootId, ById(few, U64_MAX), ById(many, U64_MAX), t, a, b);
    }
    SameAuthority(a, b, t);
  }

  // ---------- reuse ----------

  datatype AuthorizationReference = AuthorizationReference(rootEventId: EventId, fulfillment: PublicKey)

  datatype ReuseRequest = ReuseRequest(
    references: seq<AuthorizationReference>,
    heldKeys: set<PublicKey>,
    operator: PublicKey,
    coordinate: string,
    required: set<string>,
    at: u64)

  predicate IsReusable(r: ResolvedAuthorization, request: ReuseRequest) {
    && r.terms.operator == request.operator
    && r.terms.coordinate == request.coordinate
    && (forall c :: c in request.required ==> HasCapability(r, c))
    && r.terms.fulfillment in request.heldKeys
    && AuthorizationReference(r.rootEventId, r.terms.fulfillment) in request.references
    && r.terms.validFrom <= request.at
    && (r.cancelledAt.None? || request.at < r.cancelledAt.value)
  }

  /** The reusable authorization with the lowest root id. */
  method SelectReusable(authorizations: seq<ResolvedAuthorization>, request: ReuseRequest)
    returns (r: Option<ResolvedAuthorization>)
    ensures r.None? <==> forall a :: a in authorizations ==> !IsReusable(a, request)
    ensures r.Some? ==>
      && r.value in authorizations && IsReusable(r.value, request)
      && forall a :: a in authorizations && IsReusable(a, request) ==> !Less(a.rootEventId, r.value.rootEventId)
    ensures r.Some? ==> forall c :: c in request.required ==>
      Authorizes(r.value, r.value.terms.fulfillment, request.coordinate, c, request.at)
  {
    r := None;
    for i := 0 to |authorizations|
      invariant r.None? <==> forall a :: a in authorizations[..i] ==> !IsReusable(a, request)
      invariant r.Some? ==>
        && r.value in authorizations[..i] && IsReusable(r.value, request)
        && forall a :: a in authorizations[..i] && IsReusable(a, request) ==> !Less(a.rootEventId, r.value.rootEventId)
    {
      var next := authorizations[i];
      assert authorizations[..i + 1] == authorizations[..i] + [next];
      LessIrreflexive(next.rootEventId);
      var fits :=
        && next.terms.operator == request.operator
        && next.terms.coordinate == request.coordinate
        && (forall c :: c in request.required ==> HasCapability(next, c))
        && next.terms.fulfillment in request.heldKeys
        && AuthorizationReference(next.rootEventId, next.terms.fulfillment) in request.references
        && next.terms.validFrom <= request.at
        && (next.cancelledAt.None? || request.at < next.cancelledAt.value);
      assert fits <==> IsReusable(next, request);
      if fits && (r.None? || Less(next.rootEventId, r.value.rootEventId)) {
        if r.Some? {
          forall a | a in authorizations[..i] && IsReusable(a, request)
            ensures !Less(a.rootEventId, next.rootEventId)
          {
            if Less(a.rootEventId, next.rootEventId) {
              LessTransitive(a.rootEventId, next.rootEventId, r.value.rootEventId);
            }
          }
        }
        r := Some(next);
      }
    }
    assert authorizations[..|authorizations|] == authorizations;
  }
}
