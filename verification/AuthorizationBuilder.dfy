/** The publisher's side of an authorization root, against the reader's. */
module AuthorizationBuilder {
  import opened Base
  import opened Text
  import opened Protocol
  import opened Authorization

  predicate BuilderAccepts(terms: AuthorizationTerms) {
    terms.authorizationId != "" && exists c :: c in terms.capabilities && IsKnownCapability(c)
  }

  /** What a reader needs beyond what the builder checks: the signer's own coordinate, an operator other than the
      signer, whose p-tag signing would discard, and no empty capability. */
  predicate Readable(terms: AuthorizationTerms, signer: PublicKey) {
    && CoordinatePublisher(terms.coordinate) == Some(signer)
    && terms.operator != signer
    && "" !in terms.capabilities
  }

  function Front(terms: AuthorizationTerms): seq<Tag> {
    [["d", terms.authorizationId], ["a", terms.coordinate], ["p", terms.operator],
     ["fulfillment_pubkey", terms.fulfillment]]
  }

  function CapabilityTags(order: seq<string>): seq<Tag> {
    if order == [] then [] else CapabilityTags(order[..|order| - 1]) + [["capability", order[|order| - 1]]]
  }

  function Back(terms: AuthorizationTerms): seq<Tag> {
    [["valid_from", Decimal(terms.validFrom)], ["status", "active"]]
  }

  function BuiltTags(terms: AuthorizationTerms, order: seq<string>): seq<Tag> {
    Front(terms) + CapabilityTags(order) + Back(terms)
  }

  /** A signed root reads back as its terms exactly when it is `Readable`; otherwise it is refused. */
  ghost predicate ReadsBack(tags: seq<Tag>, terms: AuthorizationTerms) {
    forall event: Event |
      && event.kind == FULFILLMENT_AUTHORIZATION_KIND && event.verified
      && event.tags == Signed(tags, event.pubkey) && event.createdAt == terms.validFrom
    ::
      if Readable(terms, event.pubkey) then
        ParseAuthorizationEvent(event) == Success(AuthorizationEvent(event, terms, None, ActiveRoot))
      else
        ParseAuthorizationEvent(event).Failure?
  }

  /** Builds the tags of an authorization root; capabilities are written in some order, each once. */
  method BuildAuthorizationTags(terms: AuthorizationTerms) returns (r: Option<seq<Tag>>)
    ensures r.Some? <==> BuilderAccepts(terms)
    ensures r.Some? ==> ReadsBack(r.value, terms)
  {
    if terms.authorizationId == "" || !exists c :: c in terms.capabilities && IsKnownCapability(c) {
      return None;
    }
    var capabilities, order := WriteCapabilities(terms.capabilities);
    var tags := Front(terms) + capabilities;
    tags := tags + [["valid_from", Decimal(terms.validFrom)], ["status", "active"]];
    PublishedReadsBack(terms, order);
    return Some(tags);
  }

  method WriteCapabilities(capabilities: set<string>) returns (tags: seq<Tag>, ghost order: seq<string>)
    ensures tags == CapabilityTags(order) && Distinct(order) && ToSet(order) == capabilities
  {
    tags, order := [], [];
    var todo := capabilities;
    while todo != {}
      invariant ToSet(order) !! todo && ToSet(order) + todo == capabilities
      invariant Distinct(order)
      invariant tags == CapabilityTags(order)
      decreases todo
    {
      var c :| c in todo;
      MoveOne(ToSet(order), todo, c);
      assert ToSet(order + [c]) == ToSet(order) + {c};
      assert (order + [c])[..|order|] == order;
      tags := tags + [["capability", c]];
      order := order + [c];
      todo := todo - {c};
    }
  }

  // ---------- tags by name ----------

  lemma NamedPair(x: Tag, y: Tag, name: string)
    ensures Named([x, y], name) == Named([x], name) + Named([y], name)
  {
    assert [x, y] == [x] + [y];
    NamedConcat([x], [y], name);
  }

  lemma FrontNamed(terms: AuthorizationTerms, name: string)
    ensures Named(Front(terms), name) ==
      if name == "d" then [["d", terms.authorizationId]]
      else if name == "a" then [["a", terms.coordinate]]
      else if name == "p" then [["p", terms.operator]]
      else if name == "fulfillment_pubkey" then [["fulfillment_pubkey", terms.fulfillment]]
      else []
  {
    var f := Front(terms);
    assert f == [f[0], f[1]] + [f[2], f[3]];
    NamedConcat([f[0], f[1]], [f[2], f[3]], name);
    NamedPair(f[0], f[1], name);
    NamedPair(f[2], f[3], name);
    NamedSingle(f[0], name);
    NamedSingle(f[1], name);
    NamedSingle(f[2], name);
    NamedSingle(f[3], name);
  }

  lemma BackNamed(terms: AuthorizationTerms, name: string)
    ensures Named(Back(terms), name) ==
      if name == "valid_from" then [["valid_from", Decimal(terms.validFrom)]]
      else if name == "status" then [["status", "active"]]
      else []
  {
    var b := Back(terms);
    NamedPair(b[0], b[1], name);
    NamedSingle(b[0], name);
    NamedSingle(b[1], name);
  }

  lemma {:induction false} CapabilityTagNames(order: seq<string>)
    ensures |CapabilityTags(order)| == |order|
    ensures forall i :: 0 <= i < |order| ==> CapabilityTags(order)[i] == ["capability", order[i]]
  {
    if order != [] {
      CapabilityTagNames(order[..|order| - 1]);
    }
  }

  lemma PublishedNamed(terms: AuthorizationTerms, order: seq<string>, name: string)
    requires name != "capability"
    ensures Named(BuiltTags(terms, order), name) ==
      Named(Front(terms), name) + Named(Back(terms), name)
  {
    var caps := CapabilityTags(order);
    CapabilityTagNames(order);
    FilterNone((t: Tag) => HasName(t, name), caps);
    NamedConcat(Front(terms) + caps, Back(terms), name);
    NamedConcat(Front(terms), caps, name);
  }

  // ---------- capabilities ----------

  lemma {:induction false} CollectConcat(a: seq<Tag>, b: seq<Tag>, found: set<string>)
    ensures CollectCapabilities(a + b, found) ==
      match CollectCapabilities(a, found)
      case None => None
      case Some(more) => CollectCapabilities(b, more)
  {
    if a == [] {
      assert a + b == b;
    } else {
      assert (a + b)[1..] == a[1..] + b;
      if !HasName(a[0], "capability") {
        CollectConcat(a[1..], b, found);
      } else if |a[0]| == 2 && a[0][1] != "" && a[0][1] !in found {
        CollectConcat(a[1..], b, found + {a[0][1]});
      }
    }
  }

  lemma {:induction false} CollectNone(tags: seq<Tag>, found: set<string>)
    requires forall i :: 0 <= i < |tags| ==> !HasName(tags[i], "capability")
    ensures CollectCapabilities(tags, found) == Some(found)
  {
    if tags != [] {
      CollectNone(tags[1..], found);
    }
  }

  lemma CollectSingle(capability: string, found: set<string>)
    ensures CollectCapabilities([["capability", capability]], found) ==
      if capability == "" || capability in found then None else Some(found + {capability})
  {
    var tag := ["capability", capability];
    assert [tag][1..] == [];
  }

  lemma {:induction false} CollectBuilt(order: seq<string>)
    requires Distinct(order)
    ensures CollectCapabilities(CapabilityTags(order), {}) == if "" in order then None else Some(ToSet(order))
  {
    if order == [] {
      assert ToSet(order) == {};
    } else {
      var front, last := order[..|order| - 1], order[|order| - 1];
      assert order == front + [last];
      CollectBuilt(front);
      CollectConcat(CapabilityTags(front), [["capability", last]], {});
      CollectSingle(last, ToSet(front));
      assert last !in front;
      assert ToSet(order) == ToSet(front) + {last};
    }
  }

  lemma PublishedCapabilities(terms: AuthorizationTerms, order: seq<string>)
    requires Distinct(order) && ToSet(order) == terms.capabilities && BuilderAccepts(terms)
    ensures ParseCapabilities(BuiltTags(terms, order)) ==
      if "" in terms.capabilities then Failure(MalformedTag("capability")) else Success(terms.capabilities)
  {
    CollectConcat(Front(terms) + CapabilityTags(order), Back(terms), {});
    CollectConcat(Front(terms), CapabilityTags(order), {});
    CollectNone(Front(terms), {});
    CollectBuilt(order);
    if "" !in order {
      CollectNone(Back(terms), ToSet(order));
    }
  }

  lemma {:induction false} NoUnknownTag(tags: seq<Tag>)
    requires forall i :: 0 <= i < |tags| ==> tags[i] != [] && IsAllowedName(tags[i][0])
    ensures UnknownTag(tags) == None
  {
    if tags != [] {
      NoUnknownTag(tags[1..]);
    }
  }

  lemma PublishedAllowed(terms: AuthorizationTerms, order: seq<string>)
    ensures UnknownTag(BuiltTags(terms, order)) == None
  {
    CapabilityTagNames(order);
    NoUnknownTag(BuiltTags(terms, order));
  }

  // ---------- reading back ----------

  lemma PublishedTag(terms: AuthorizationTerms, order: seq<string>, name: string, value: string)
    requires name != "capability" && value != ""
    requires [[name, value]] == Named(Front(terms), name) + Named(Back(terms), name)
    ensures RequiredTag(BuiltTags(terms, order), name) == Success(value)
  {
    PublishedNamed(terms, order, name);
  }

  lemma PublishedHead(terms: AuthorizationTerms, order: seq<string>, tags: seq<Tag>)
    requires tags == BuiltTags(terms, order) && terms.authorizationId != ""
    ensures RequiredTag(tags, "d") == Success(terms.authorizationId)
    ensures forall v :: RequiredTag(tags, "a") == Success(v) ==> v == terms.coordinate
    ensures terms.coordinate != "" ==> RequiredTag(tags, "a") == Success(terms.coordinate)
  {
    FrontNamed(terms, "d");
    BackNamed(terms, "d");
    PublishedTag(terms, order, "d", terms.authorizationId);
    FrontNamed(terms, "a");
    BackNamed(terms, "a");
    PublishedNamed(terms, order, "a");
  }

  lemma PublishedKeys(terms: AuthorizationTerms, order: seq<string>, tags: seq<Tag>)
    requires tags == BuiltTags(terms, order)
    ensures RequiredHex(tags, "p") == Success(terms.operator)
    ensures RequiredHex(tags, "fulfillment_pubkey") == Success(terms.fulfillment)
  {
    FrontNamed(terms, "p");
    BackNamed(terms, "p");
    PublishedTag(terms, order, "p", terms.operator);
    FrontNamed(terms, "fulfillment_pubkey");
    BackNamed(terms, "fulfillment_pubkey");
    PublishedTag(terms, order, "fulfillment_pubkey", terms.fulfillment);
  }

  lemma PublishedStart(terms: AuthorizationTerms, order: seq<string>, tags: seq<Tag>)
    requires tags == BuiltTags(terms, order)
    ensures RequiredU64(tags, "valid_from") == Success(terms.validFrom)
  {
    FrontNamed(terms, "valid_from");
    BackNamed(terms, "valid_from");
    PublishedTag(terms, order, "valid_from", Decimal(terms.validFrom));
    ParseDigits(Decimal(terms.validFrom));
  }

  lemma PublishedTail(terms: AuthorizationTerms, order: seq<string>, tags: seq<Tag>)
    requires tags == BuiltTags(terms, order)
    ensures RequiredTag(tags, "status") == Success("active")
    ensures OptionalId(tags, "e") == Success(None)
  {
    FrontNamed(terms, "status");
    BackNamed(terms, "status");
    PublishedTag(terms, order, "status", "active");
    FrontNamed(terms, "e");
    BackNamed(terms, "e");
    PublishedNamed(terms, order, "e");
  }

  /** What the reader finds, field by field. */
  ghost predicate Found(tags: seq<Tag>, terms: AuthorizationTerms) {
    && UnknownTag(tags) == None
    && ParseCapabilities(tags) ==
      (if "" in terms.capabilities then Failure(MalformedTag("capability")) else Success(terms.capabilities))
    && RequiredTag(tags, "d") == Success(terms.authorizationId)
    && (forall v :: RequiredTag(tags, "a") == Success(v) ==> v == terms.coordinate)
    && (terms.coordinate != "" ==> RequiredTag(tags, "a") == Success(terms.coordinate))
    && RequiredHex(tags, "p") == Success(terms.operator)
    && RequiredHex(tags, "fulfillment_pubkey") == Success(terms.fulfillment)
    && RequiredU64(tags, "valid_from") == Success(terms.validFrom)
    && RequiredTag(tags, "status") == Success("active")
    && OptionalId(tags, "e") == Success(None)
  }

  lemma FoundReadsBack(tags: seq<Tag>, terms: AuthorizationTerms, event: Event)
    requires Found(tags, terms) && BuilderAccepts(terms) && terms.operator != event.pubkey
    requires event.kind == FULFILLMENT_AUTHORIZATION_KIND && event.verified
    requires event.tags == tags && event.createdAt == terms.validFrom
    ensures
      if Readable(terms, event.pubkey) then
        ParseAuthorizationEvent(event) == Success(AuthorizationEvent(event, terms, None, ActiveRoot))
      else
        ParseAuthorizationEvent(event).Failure?
  {
  }

  lemma NoOperatorNoTerms(tags: seq<Tag>, pubkey: PublicKey)
    requires Named(tags, "p") == []
    ensures ParseTerms(tags, pubkey).Failure?
  {
    assert RequiredTag(tags, "p").Failure?;
    assert ParseKeys(tags).Failure?;
  }

  lemma SignedReadsBack(tags: seq<Tag>, terms: AuthorizationTerms)
    requires Found(tags, terms) && BuilderAccepts(terms) && Named(tags, "p") == [["p", terms.operator]]
    ensures ReadsBack(tags, terms)
  {
    forall event: Event |
      && event.kind == FULFILLMENT_AUTHORIZATION_KIND && event.verified
      && event.tags == Signed(tags, event.pubkey) && event.createdAt == terms.validFrom
      ensures
        if Readable(terms, event.pubkey) then
          ParseAuthorizationEvent(event) == Success(AuthorizationEvent(event, terms, None, ActiveRoot))
        else
          ParseAuthorizationEvent(event).Failure?
    {
      if terms.operator == event.pubkey {
        SignedLosesMention(tags, event.pubkey);
        NoOperatorNoTerms(event.tags, event.pubkey);
      } else {
        SignedUnchanged(tags, event.pubkey);
        FoundReadsBack(tags, terms, event);
      }
    }
  }

  lemma PublishedOperator(terms: AuthorizationTerms, order: seq<string>)
    ensures Named(BuiltTags(terms, order), "p") == [["p", terms.operator]]
  {
    FrontNamed(terms, "p");
    BackNamed(terms, "p");
    PublishedNamed(terms, order, "p");
  }

  lemma PublishedReadsBack(terms: AuthorizationTerms, order: seq<string>)
    requires Distinct(order) && ToSet(order) == terms.capabilities && BuilderAccepts(terms)
    ensures ReadsBack(BuiltTags(terms, order), terms)
  {
    var tags := BuiltTags(terms, order);
    PublishedAllowed(terms, order);
    PublishedCapabilities(terms, order);
    PublishedHead(terms, order, tags);
    PublishedKeys(terms, order, tags);
    PublishedStart(terms, order, tags);
    PublishedTail(terms, order, tags);
    PublishedOperator(terms, order);
    SignedReadsBack(tags, terms);
  }

  // ---------- the conditions, one input each ----------

  /** The root `signer` publishes for these terms, its capabilities written in this order. */
  function RootEvent(id: EventId, signer: PublicKey, terms: AuthorizationTerms, order: seq<string>): Event {
    Event(id, signer, FULFILLMENT_AUTHORIZATION_KIND, terms.validFrom, Signed(BuiltTags(terms, order), signer), true)
  }

  lemma RootIsBuilt(id: EventId, signer: PublicKey, terms: AuthorizationTerms, order: seq<string>)
    requires terms.authorizationId != "" && Distinct(order) && ToSet(order) == terms.capabilities
    requires ISSUE_GRANT in terms.capabilities
    ensures BuilderAccepts(terms)
    ensures ParseAuthorizationEvent(RootEvent(id, signer, terms, order)).Success? <==> Readable(terms, signer)
  {
    assert IsKnownCapability(ISSUE_GRANT);
    PublishedReadsBack(terms, order);
  }

  /** Built, published and read. */
  lemma PlainRootIsRead(id: EventId, signer: PublicKey, operator: PublicKey, at: u64)
    requires operator != signer
    ensures
      var terms := AuthorizationTerms("release", CoordinateOf(signer, "game"), operator, operator, {ISSUE_GRANT}, at);
      BuilderAccepts(terms) && ParseAuthorizationEvent(RootEvent(id, signer, terms, [ISSUE_GRANT])).Success?
  {
    var terms := AuthorizationTerms("release", CoordinateOf(signer, "game"), operator, operator, {ISSUE_GRANT}, at);
    CoordinateNamesPublisher(signer, "game");
    assert ToSet([ISSUE_GRANT]) == {ISSUE_GRANT};
    RootIsBuilt(id, signer, terms, [ISSUE_GRANT]);
  }

  /** The builder lets an empty capability through; nobody can read such a root. */
  lemma EmptyCapabilityIsAccepted(id: EventId, signer: PublicKey, operator: PublicKey, at: u64)
    requires operator != signer
    ensures
      var terms := AuthorizationTerms(
        "release", CoordinateOf(signer, "game"), operator, operator, {ISSUE_GRANT, ""}, at);
      BuilderAccepts(terms) && ParseAuthorizationEvent(RootEvent(id, signer, terms, [ISSUE_GRANT, ""])).Failure?
  {
    var terms := AuthorizationTerms("release", CoordinateOf(signer, "game"), operator, operator, {ISSUE_GRANT, ""}, at);
    assert ToSet([ISSUE_GRANT, ""]) == {ISSUE_GRANT, ""};
    RootIsBuilt(id, signer, terms, [ISSUE_GRANT, ""]);
  }

  /** The builder lets another publisher's coordinate through; the root it signs is refused. */
  lemma ForeignCoordinateIsAccepted(id: EventId, signer: PublicKey, other: PublicKey, at: u64)
    requires other != signer
    ensures
      var terms := AuthorizationTerms("release", CoordinateOf(other, "game"), other, other, {ISSUE_GRANT}, at);
      BuilderAccepts(terms) && ParseAuthorizationEvent(RootEvent(id, signer, terms, [ISSUE_GRANT])).Failure?
  {
    var terms := AuthorizationTerms("release", CoordinateOf(other, "game"), other, other, {ISSUE_GRANT}, at);
    CoordinateNamesPublisher(other, "game");
    assert ToSet([ISSUE_GRANT]) == {ISSUE_GRANT};
    RootIsBuilt(id, signer, terms, [ISSUE_GRANT]);
  }

  /** A developer that names itself as operator publishes a root without an operator, which is refused. */
  lemma SelfOperatorIsAccepted(id: EventId, signer: PublicKey, fulfillment: PublicKey, at: u64)
    ensures
      var terms := AuthorizationTerms("release", CoordinateOf(signer, "game"), signer, fulfillment, {ISSUE_GRANT}, at);
      BuilderAccepts(terms) && ParseAuthorizationEvent(RootEvent(id, signer, terms, [ISSUE_GRANT])).Failure?
  {
    var terms := AuthorizationTerms("release", CoordinateOf(signer, "game"), signer, fulfillment, {ISSUE_GRANT}, at);
    assert ToSet([ISSUE_GRANT]) == {ISSUE_GRANT};
    RootIsBuilt(id, signer, terms, [ISSUE_GRANT]);
  }
}
