/** What an authorization says and what cancels it, told by the signed events alone. */
module AuthorizationMeaning {
  import opened Base
  import opened Text
  import opened Protocol
  import opened Authorization
  import opened AuthorizationAuthority

  // ---------- cancellation ----------

  /** `c` cancels `root`, by its fields: later, naming it, and repeating its terms. */
  predicate Cancels(c: AuthorizationEvent, root: AuthorizationEvent) {
    && c.predecessor == Some(root.event.id)
    && root.event.createdAt < c.event.createdAt
    && c.terms.authorizationId == root.terms.authorizationId
    && c.terms.coordinate == root.terms.coordinate
    && c.terms.operator == root.terms.operator
    && c.terms.fulfillment == root.terms.fulfillment
    && c.terms.capabilities == root.terms.capabilities
    && c.terms.validFrom == root.terms.validFrom
  }

  lemma IsCancellationIff(root: AuthorizationEvent, c: AuthorizationEvent)
    requires ParseAuthorizationEvent(c.event) == Success(c)
    ensures IsCancellation(root, c.event) <==> Cancels(c, root)
  {
  }

  lemma TwoEvents(x: Event, y: Event)
    requires x.id != y.id
    ensures IdsDetermineEvents([x, y])
    ensures ById([x, y], U64_MAX).Values == {x, y}
    ensures x.id in ById([x, y], U64_MAX) && ById([x, y], U64_MAX)[x.id] == x
  {
    var events := [x, y];
    assert forall e :: e in events <==> e == x || e == y;
    VisibleExtends(events, events, U64_MAX, U64_MAX);
    var byId := ById(events, U64_MAX);
    assert byId[x.id] == x && byId[y.id] == y;
    forall e ensures e in byId.Values <==> e == x || e == y {
    }
  }

  lemma OnlyCancellation(root: AuthorizationEvent, c: AuthorizationEvent, byId: map<EventId, Event>)
    requires ParseAuthorizationEvent(root.event) == Success(root) && root.predecessor == None
    requires ParseAuthorizationEvent(c.event) == Success(c) && byId.Values == {root.event, c.event}
    ensures Cancellations(root, byId) == if Cancels(c, root) then {c.event} else {}
  {
    IsCancellationIff(root, c);
    assert !IsCancellation(root, root.event);
  }

  /** A root with one other event that names a predecessor resolves to both exactly when that event cancels it by its
      fields, before its authority begins or after; otherwise to the root alone. */
  lemma CancelledIff(root: AuthorizationEvent, c: AuthorizationEvent)
    requires ParseAuthorizationEvent(root.event) == Success(root) && root.predecessor == None
    requires ParseAuthorizationEvent(c.event) == Success(c) && c.predecessor != None
    requires root.event.id != c.event.id
    ensures
      var cancelled := Cancels(c, root);
      Resolve(root.event.id, [root.event, c.event]) == Success(ResolvedAuthorization(
        root.event.id, root.event.pubkey, root.terms, if cancelled then [root, c] else [root],
        if cancelled then Some(c.event.createdAt) else None))
  {
    TwoEvents(root.event, c.event);
    var byId := ById([root.event, c.event], U64_MAX);
    assert FindRoot(root.event.id, byId) == Success(root);
    OnlyCancellation(root, c, byId);
  }

  // ---------- authority ----------

  /** The root's own tags give `signer` this capability over this game from some time up to `at`. */
  ghost predicate Grants(root: Event, signer: PublicKey, coordinate: string, capability: string, at: u64) {
    && SaysHex(root.tags, "fulfillment_pubkey", signer)
    && Says(root.tags, "a", coordinate)
    && ["capability", capability] in root.tags
    && capability in ["issue_receipt", "issue_grant", "upload_build"]
    && exists from: u64 :: SaysNumber(root.tags, "valid_from", from) && from <= at
  }

  lemma TagsGrant(root: AuthorizationEvent, signer: PublicKey, coordinate: string, capability: string, at: u64)
    requires ParseAuthorizationEvent(root.event) == Success(root)
    ensures Grants(root.event, signer, coordinate, capability, at) <==>
      && root.terms.fulfillment == signer && root.terms.coordinate == coordinate
      && capability in ["issue_receipt", "issue_grant", "upload_build"]
      && capability in root.terms.capabilities && root.terms.validFrom <= at
  {
    var tags := root.event.tags;
    Authorization.ParsesIff(root.event, root);
    ReadsWhatTagsSay(tags, "fulfillment_pubkey");
    ReadsWhatTagsSay(tags, "a");
    ReadsWhatTagsSay(tags, "valid_from");
    assert SaysHex(tags, "fulfillment_pubkey", root.terms.fulfillment) && Says(tags, "a", root.terms.coordinate);
    assert SaysNumber(tags, "valid_from", root.terms.validFrom);
    assert HasName(["capability", capability], "capability");
    assert ["capability", capability] in tags <==> ["capability", capability] in Named(tags, "capability");
  }

  /** Nothing among these events cancels the root by `at`. */
  ghost predicate Uncancelled(root: AuthorizationEvent, events: seq<Event>, at: u64) {
    forall c: AuthorizationEvent ::
      c.event in events && ParseAuthorizationEvent(c.event) == Success(c) && Cancels(c, root) ==> at < c.event.createdAt
  }

  lemma UncancelledIff(root: AuthorizationEvent, events: seq<Event>, at: u64)
    requires IdsDetermineEvents(events)
    ensures Uncancelled(root, events, at) <==>
      forall e :: e in Cancellations(root, ById(events, U64_MAX)) ==> at < e.createdAt
  {
    CancellationsAmong(root, events);
    var found := Cancellations(root, ById(events, U64_MAX));
    forall c: AuthorizationEvent
      | c.event in events && ParseAuthorizationEvent(c.event) == Success(c)
      ensures Cancels(c, root) <==> c.event in found
    {
      IsCancellationIff(root, c);
    }
    forall e | e in found ensures ParseAuthorizationEvent(e).Success? && ParseAuthorizationEvent(e).value.event == e {
    }
  }

  lemma PermitsUntilCancelled(root: AuthorizationEvent, r: ResolvedAuthorization, found: set<Event>,
                              signer: PublicKey, coordinate: string, capability: string, at: u64)
    requires r.terms == root.terms && (found == {} <==> r.cancelledAt == None)
    requires forall c :: c in found ==> r.cancelledAt == Some(c.createdAt)
    ensures Authorizes(r, signer, coordinate, capability, at) <==>
      && root.terms.fulfillment == signer && root.terms.coordinate == coordinate
      && capability in ["issue_receipt", "issue_grant", "upload_build"]
      && capability in root.terms.capabilities && root.terms.validFrom <= at
      && forall e :: e in found ==> at < e.createdAt
  {
    if found != {} {
      var c :| c in found;
    }
  }

  /** What a resolved authorization permits is what its root's tags grant, while no event cancels it. */
  lemma AuthorizesIff(rootId: EventId, events: seq<Event>, r: ResolvedAuthorization,
                      signer: PublicKey, coordinate: string, capability: string, at: u64)
    requires IdsDetermineEvents(events) && Resolve(rootId, events) == Success(r)
    ensures r.events != [] && r.events[0].event in events && r.events[0].event.id == rootId
    ensures Authorizes(r, signer, coordinate, capability, at) <==>
      Grants(r.events[0].event, signer, coordinate, capability, at) && Uncancelled(r.events[0], events, at)
  {
    var byId := ById(events, U64_MAX);
    VisibleExtends(events, events, U64_MAX, U64_MAX);
    RootOf(rootId, byId, r);
    var root := r.events[0];
    TagsGrant(root, signer, coordinate, capability, at);
    CancelledFrom(rootId, root, Cancellations(root, byId), r);
    PermitsUntilCancelled(root, r, Cancellations(root, byId), signer, coordinate, capability, at);
    UncancelledIff(root, events, at);
  }

  lemma CancelledFrom(rootId: EventId, root: AuthorizationEvent, found: set<Event>, r: ResolvedAuthorization)
    requires forall e :: e in found ==> IsCancellation(root, e)
    requires Conclude(rootId, root, found) == Success(r)
    ensures r.terms == root.terms
    ensures found == {} <==> r.cancelledAt == None
    ensures forall c :: c in found ==> r.cancelledAt == Some(c.createdAt)
  {
  }
}
