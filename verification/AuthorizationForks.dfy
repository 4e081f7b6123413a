/** When an authorization loses its past: cancelled twice, it resolves for no time at all. */
module AuthorizationForks {
  import opened Base
  import opened Text
  import opened Protocol
  import opened Authorization
  import opened AuthorizationAuthority
  import opened AuthorizationBuilder

  // ---------- in general ----------

  lemma OnlyRootVisible(root: Event, later: seq<Event>, t: u64)
    requires root.createdAt <= t && forall e :: e in later ==> e.createdAt > t
    ensures Filter((e: Event) => e.createdAt <= t, [root] + later) == [root]
  {
    var seen := (e: Event) => e.createdAt <= t;
    FilterConcat(seen, [root], later);
    FilterSingle(seen, root);
    FilterNone(seen, later);
  }

  /** An active root with nothing else visible resolves to itself. */
  lemma RootResolvesAlone(root: AuthorizationEvent, later: seq<Event>, t: u64)
    requires ParseAuthorizationEvent(root.event) == Success(root) && root.transition == ActiveRoot
    requires root.event.createdAt <= t && forall e :: e in later ==> e.createdAt > t
    ensures ResolveAt(root.event.id, [root.event] + later, t) == Success(Outcome(root.event.id, root, None))
  {
    OnlyRootVisible(root.event, later, t);
    var byId := ById([root.event] + later, t);
    VisibleExtends([root.event], [root.event], t, t);
    OnlyRootVisible(root.event, [], t);
    assert [root.event] + [] == [root.event];
    assert byId == ById([root.event], t);
    assert FindRoot(root.event.id, byId) == Success(root);
    assert forall e :: e in byId.Values ==> e == root.event;
    assert Cancellations(root, byId) == {};
  }

  /** Two cancellations of one root, both later than `t`: resolved at `t`, a fork once they are seen. */
  lemma LateForkTakesThePast(root: AuthorizationEvent, a: Event, b: Event, t: u64)
    requires ParseAuthorizationEvent(root.event) == Success(root) && root.transition == ActiveRoot
    requires IsCancellation(root, a) && IsCancellation(root, b) && a != b
    requires IdsDetermineEvents([root.event] + [a, b])
    requires root.event.createdAt <= t < a.createdAt && t < b.createdAt
    ensures ResolveAt(root.event.id, [root.event] + [a, b], t) == Success(Outcome(root.event.id, root, None))
    ensures Resolve(root.event.id, [root.event] + [a, b]) == Failure(Fork(root.event.id))
  {
    var events := [root.event] + [a, b];
    assert events[0] == root.event && events[1] == a && events[2] == b;
    RootResolvesAlone(root, [a, b], t);
    StillResolvesIff(root.event.id, events, t, events, Outcome(root.event.id, root, None));
    assert !CancelledAtMostOnce(root, events);
    VisibleExtends(events, events, t, U64_MAX);
    MoreEvents(root.event.id, ById(events, t), ById(events, U64_MAX));
  }

  lemma DistinctIdsDetermine(x: Event, y: Event, z: Event)
    requires x.id != y.id && x.id != z.id && y.id != z.id
    ensures IdsDetermineEvents([x] + [y, z])
  {
    assert forall e :: e in [x] + [y, z] ==> e == x || e == y || e == z;
  }

  // ---------- the cancellation a developer publishes ----------

  function CancelTail(predecessor: EventId): seq<Tag> {
    [["status", "cancelled"], ["e", predecessor]]
  }

  /** The root's own tags, cancelled, pointing at the root. */
  function CancelTags(terms: AuthorizationTerms, order: seq<string>, predecessor: EventId): seq<Tag> {
    Front(terms) + CapabilityTags(order) + [["valid_from", Decimal(terms.validFrom)]] + CancelTail(predecessor)
  }

  function CancelEvent(id: EventId, signer: PublicKey, at: u64, terms: AuthorizationTerms, order: seq<string>,
                       predecessor: EventId): Event
  {
    Event(id, signer, FULFILLMENT_AUTHORIZATION_KIND, at, Signed(CancelTags(terms, order, predecessor), signer), true)
  }

  lemma TailNamed(predecessor: EventId, name: string)
    ensures Named(CancelTail(predecessor), name) ==
      if name == "status" then [["status", "cancelled"]]
      else if name == "e" then [["e", predecessor]]
      else []
  {
    var tail := CancelTail(predecessor);
    NamedPair(tail[0], tail[1], name);
    NamedSingle(tail[0], name);
    NamedSingle(tail[1], name);
  }

  /** A cancellation carries the root's tags of every name but status and predecessor. */
  lemma CancelNamed(terms: AuthorizationTerms, order: seq<string>, predecessor: EventId, name: string)
    ensures name != "status" && name != "e" ==>
      Named(CancelTags(terms, order, predecessor), name) == Named(BuiltTags(terms, order), name)
    ensures name == "status" || name == "e" ==>
      Named(CancelTags(terms, order, predecessor), name) == Named(CancelTail(predecessor), name)
  {
    var head, start := Front(terms) + CapabilityTags(order), [["valid_from", Decimal(terms.validFrom)]];
    NamedConcat(head + start, CancelTail(predecessor), name);
    NamedConcat(head, start, name);
    NamedConcat(head, Back(terms), name);
    NamedPair(Back(terms)[0], Back(terms)[1], name);
    NamedSingle(Back(terms)[0], name);
    NamedSingle(Back(terms)[1], name);
    TailNamed(predecessor, name);
    if name == "status" || name == "e" {
      NamedConcat(Front(terms), CapabilityTags(order), name);
      FrontNamed(terms, name);
      CapabilityTagNames(order);
      FilterNone((t: Tag) => HasName(t, name), CapabilityTags(order));
    }
  }

  lemma SameSays(a: seq<Tag>, b: seq<Tag>, name: string)
    requires Named(a, name) == Named(b, name)
    ensures forall text :: Says(a, name, text) <==> Says(b, name, text)
    ensures forall value: Hex32 :: SaysHex(a, name, value) <==> SaysHex(b, name, value)
    ensures forall n: u64 :: SaysNumber(a, name, n) <==> SaysNumber(b, name, n)
  {
  }

  lemma SameCapabilities(a: seq<Tag>, b: seq<Tag>, capabilities: set<string>)
    requires Named(a, "capability") == Named(b, "capability")
    ensures SaysCapabilities(a, capabilities) <==> SaysCapabilities(b, capabilities)
  {
  }

  /** A cancellation's tags say the root's terms. */
  lemma CancelSaysTerms(terms: AuthorizationTerms, order: seq<string>, predecessor: EventId, pubkey: PublicKey)
    requires SaysTerms(BuiltTags(terms, order), pubkey, terms)
    ensures SaysTerms(CancelTags(terms, order, predecessor), pubkey, terms)
  {
    var a, b := BuiltTags(terms, order), CancelTags(terms, order, predecessor);
    CancelNamed(terms, order, predecessor, "d");
    CancelNamed(terms, order, predecessor, "a");
    CancelNamed(terms, order, predecessor, "p");
    CancelNamed(terms, order, predecessor, "fulfillment_pubkey");
    CancelNamed(terms, order, predecessor, "capability");
    CancelNamed(terms, order, predecessor, "valid_from");
    SameSays(a, b, "d");
    SameSays(a, b, "a");
    SameSays(a, b, "p");
    SameSays(a, b, "fulfillment_pubkey");
    SameSays(a, b, "valid_from");
    SameCapabilities(a, b, terms.capabilities);
  }

  lemma CancelSaysTransition(terms: AuthorizationTerms, order: seq<string>, predecessor: EventId)
    ensures SaysTransition(CancelTags(terms, order, predecessor), Some(predecessor), Cancel)
  {
    var tags := CancelTags(terms, order, predecessor);
    CancelNamed(terms, order, predecessor, "status");
    CancelNamed(terms, order, predecessor, "e");
    TailNamed(predecessor, "status");
    TailNamed(predecessor, "e");
    assert Says(tags, "status", "cancelled");
    assert Says(tags, "e", predecessor) && FromHex(predecessor) == Some(predecessor);
  }

  lemma CancelTagsAllowed(terms: AuthorizationTerms, order: seq<string>, predecessor: EventId)
    ensures forall tag :: tag in CancelTags(terms, order, predecessor) ==> IsAllowed(tag)
  {
    CapabilityTagNames(order);
  }

  /** Signing a cancellation discards nothing unless the operator is the signer. */
  lemma CancelIsSignedWhole(terms: AuthorizationTerms, order: seq<string>, predecessor: EventId, signer: PublicKey)
    requires terms.operator != signer
    ensures Signed(CancelTags(terms, order, predecessor), signer) == CancelTags(terms, order, predecessor)
  {
    CancelNamed(terms, order, predecessor, "p");
    PublishedOperator(terms, order);
    SignedUnchanged(CancelTags(terms, order, predecessor), signer);
  }

  /** A root that reads back can be cancelled: the cancellation reads back too, and cancels it. */
  lemma CancellationIsRead(id: EventId, signer: PublicKey, at: u64, terms: AuthorizationTerms, order: seq<string>,
                           rootId: EventId)
    requires Distinct(order) && ToSet(order) == terms.capabilities
    requires BuilderAccepts(terms) && Readable(terms, signer) && terms.validFrom < at
    ensures
      var root := RootEvent(rootId, signer, terms, order);
      var event := CancelEvent(id, signer, at, terms, order, rootId);
      && ParseAuthorizationEvent(root) == Success(AuthorizationEvent(root, terms, None, ActiveRoot))
      && ParseAuthorizationEvent(event) == Success(AuthorizationEvent(event, terms, Some(rootId), Cancel))
      && IsCancellation(AuthorizationEvent(root, terms, None, ActiveRoot), event)
  {
    var root := RootEvent(rootId, signer, terms, order);
    var event := CancelEvent(id, signer, at, terms, order, rootId);
    PublishedReadsBack(terms, order);
    PublishedOperator(terms, order);
    SignedUnchanged(BuiltTags(terms, order), signer);
    ParsesIff(root, AuthorizationEvent(root, terms, None, ActiveRoot));
    CancelIsSignedWhole(terms, order, rootId, signer);
    CancelSaysTerms(terms, order, rootId, signer);
    CancelSaysTransition(terms, order, rootId);
    CancelTagsAllowed(terms, order, rootId);
    ParsesIff(event, AuthorizationEvent(event, terms, Some(rootId), Cancel));
  }

  /** Built, signed and cancelled twice after `t`: the root resolves at `t`, and forks once both are seen. */
  lemma CancelledTwice(signer: PublicKey, terms: AuthorizationTerms, order: seq<string>,
                       root: Event, a: Event, b: Event, t: u64)
    requires Distinct(order) && ToSet(order) == terms.capabilities
    requires BuilderAccepts(terms) && Readable(terms, signer)
    requires root == RootEvent(root.id, signer, terms, order)
    requires a == CancelEvent(a.id, signer, a.createdAt, terms, order, root.id)
    requires b == CancelEvent(b.id, signer, b.createdAt, terms, order, root.id)
    requires root.id != a.id && root.id != b.id && a.id != b.id
    requires terms.validFrom <= t < a.createdAt && t < b.createdAt
    ensures IdsDetermineEvents([root] + [a, b])
    ensures ResolveAt(root.id, [root] + [a, b], t) ==
      Success(Outcome(root.id, AuthorizationEvent(root, terms, None, ActiveRoot), None))
    ensures Resolve(root.id, [root] + [a, b]) == Failure(Fork(root.id))
  {
    CancellationIsRead(a.id, signer, a.createdAt, terms, order, root.id);
    CancellationIsRead(b.id, signer, b.createdAt, terms, order, root.id);
    DistinctIdsDetermine(root, a, b);
    LateForkTakesThePast(AuthorizationEvent(root, terms, None, ActiveRoot), a, b, t);
  }

  // ---------- the same input, written out ----------

  /** The right to issue grants for a game from 10 on. */
  function Release(signer: PublicKey, operator: PublicKey): AuthorizationTerms {
    AuthorizationTerms("release", CoordinateOf(signer, "game"), operator, operator, {ISSUE_GRANT}, 10)
  }

  lemma ReleaseIsReadable(signer: PublicKey, operator: PublicKey)
    requires operator != signer
    ensures ToSet([ISSUE_GRANT]) == {ISSUE_GRANT}
    ensures BuilderAccepts(Release(signer, operator)) && Readable(Release(signer, operator), signer)
  {
    CoordinateNamesPublisher(signer, "game");
    assert IsKnownCapability(ISSUE_GRANT) && ISSUE_GRANT in Release(signer, operator).capabilities;
  }

  lemma OperatorMayIssue(signer: PublicKey, operator: PublicKey, root: Event)
    ensures
      var r := Outcome(root.id, AuthorizationEvent(root, Release(signer, operator), None, ActiveRoot), None);
      Authorizes(r, operator, CoordinateOf(signer, "game"), ISSUE_GRANT, 22)
  {
    assert IsKnownCapability(ISSUE_GRANT) && ISSUE_GRANT in Release(signer, operator).capabilities;
  }

  /** An authorization of 10 is cancelled at 25 and again at 26. At 22 the operator could issue grants; now the
      authorization does not resolve, for 22 no more than for any other time. */
  lemma TwoCancellations(signer: PublicKey, operator: PublicKey) returns (root: Event, a: Event, b: Event)
    requires operator != signer
    ensures root.createdAt == 10 && a.createdAt == 25 && b.createdAt == 26
    ensures IdsDetermineEvents([root] + [a, b])
    ensures
      var before := ResolveAt(root.id, [root] + [a, b], 22);
      before.Success? && Authorizes(before.value, operator, CoordinateOf(signer, "game"), ISSUE_GRANT, 22)
    ensures Resolve(root.id, [root] + [a, b]) == Failure(Fork(root.id))
  {
    var terms, order := Release(signer, operator), [ISSUE_GRANT];
    ReleaseIsReadable(signer, operator);
    root := RootEvent(DigitId('a'), signer, terms, order);
    a := CancelEvent(DigitId('b'), signer, 25, terms, order, DigitId('a'));
    b := CancelEvent(DigitId('c'), signer, 26, terms, order, DigitId('a'));
    IdsDiffer('a', 'b');
    IdsDiffer('a', 'c');
    IdsDiffer('b', 'c');
    CancelledTwice(signer, terms, order, root, a, b, 22);
    OperatorMayIssue(signer, operator, root);
  }
}
