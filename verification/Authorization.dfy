/** Developer-signed fulfillment authorizations: parsing, publishing, resolution and reuse. */
module Authorization {
  import opened Base
  import opened Text
  import opened Protocol

  const ISSUE_RECEIPT: string := "issue_receipt"
  const ISSUE_GRANT: string := "issue_grant"
  const UPLOAD_BUILD: string := "upload_build"

  datatype AuthorizationTerms = AuthorizationTerms(
    authorizationId: string,
    coordinate: string,
    operator: PublicKey,
    fulfillment: PublicKey,
    capabilities: set<string>,
    validFrom: u64)

  datatype AuthorizationTransition = ActiveRoot | Cancel

  datatype AuthorizationEvent = AuthorizationEvent(
    event: Event,
    terms: AuthorizationTerms,
    predecessor: Option<EventId>,
    transition: AuthorizationTransition)

  datatype ResolvedAuthorization = ResolvedAuthorization(
    rootEventId: EventId,
    developer: PublicKey,
    terms: AuthorizationTerms,
    events: seq<AuthorizationEvent>,
    cancelledAt: Option<u64>)

  // ---------- parsing ----------

  predicate IsKnownCapability(capability: string) {
    capability == ISSUE_RECEIPT || capability == ISSUE_GRANT || capability == UPLOAD_BUILD
  }

  /** The distinct capability tags, read in order; a repeated, empty or misshapen one is an error. */
  function CollectCapabilities(tags: seq<Tag>, found: set<string>): (r: Option<set<string>>)
    ensures r.Some? ==> found <= r.value
  {
    if tags == [] then Some(found)
    else if !HasName(tags[0], "capability") then CollectCapabilities(tags[1..], found)
    else if |tags[0]| != 2 || tags[0][1] == "" || tags[0][1] in found then None
    else CollectCapabilities(tags[1..], found + {tags[0][1]})
  }

  function ParseCapabilities(tags: seq<Tag>): Result<set<string>, ProtocolError> {
    match CollectCapabilities(tags, {})
    case None => Failure(MalformedTag("capability"))
    case Some(found) =>
      if found == {} then Failure(MissingTag("capability"))
      else if !exists c :: c in found && IsKnownCapability(c) then Failure(MalformedTag("capability"))
      else Success(found)
  }

  predicate IsAllowedName(name: string) {
    name in ["d", "a", "p", "fulfillment_pubkey", "capability", "valid_from", "status", "e"]
  }

  /** The first tag that has no name, or a name no authorization may carry. */
  function UnknownTag(tags: seq<Tag>): Option<ProtocolError> {
    if tags == [] then None
    else if tags[0] == [] then Some(ForbiddenTag("tag"))
    else if !IsAllowedName(tags[0][0]) then Some(ForbiddenTag(tags[0][0]))
    else UnknownTag(tags[1..])
  }

  function ParseTransition(status: string, predecessor: Option<EventId>)
    : Result<AuthorizationTransition, ProtocolError>
  {
    if status == "active" then
      if predecessor.None? then Success(ActiveRoot) else Failure(ForbiddenTag("e"))
    else if status == "cancelled" then
      if predecessor.Some? then Success(Cancel) else Failure(MissingTag("e"))
    else Failure(MalformedTag("status"))
  }

  /** The identifier and the coordinate, which must be the signer's. */
  function ParseSubject(tags: seq<Tag>, pubkey: PublicKey): Result<(string, string), ProtocolError> {
    var authorizationId :- RequiredTag(tags, "d");
    var coordinate :- RequiredTag(tags, "a");
    if CoordinatePublisher(coordinate) != Some(pubkey) then Failure(WrongPublisher)
    else Success((authorizationId, coordinate))
  }

  function ParseKeys(tags: seq<Tag>): Result<(PublicKey, PublicKey), ProtocolError> {
    var operator :- RequiredHex(tags, "p");
    var fulfillment :- RequiredHex(tags, "fulfillment_pubkey");
    Success((operator, fulfillment))
  }

  function ParseTerms(tags: seq<Tag>, pubkey: PublicKey): Result<AuthorizationTerms, ProtocolError> {
    var subject :- ParseSubject(tags, pubkey);
    var keys :- ParseKeys(tags);
    var capabilities :- ParseCapabilities(tags);
    var validFrom :- RequiredU64(tags, "valid_from");
    Success(AuthorizationTerms(subject.0, subject.1, keys.0, keys.1, capabilities, validFrom))
  }

  /** What an event does, and to which root. */
  function ParseLink(tags: seq<Tag>): (r: Result<(Option<EventId>, AuthorizationTransition), ProtocolError>)
    ensures r.Success? ==> OptionalId(tags, "e") == Success(r.value.0) && (r.value.1.ActiveRoot? <==> r.value.0.None?)
  {
    var status :- RequiredTag(tags, "status");
    var predecessor :- OptionalId(tags, "e");
    var transition :- ParseTransition(status, predecessor);
    Success((predecessor, transition))
  }

  function ParseAuthorizationEvent(event: Event): (r: Result<AuthorizationEvent, ProtocolError>)
    ensures r.Success? ==>
      && r.value.event == event
      && OptionalId(event.tags, "e") == Success(r.value.predecessor)
      && (r.value.transition.ActiveRoot? <==> r.value.predecessor.None?)
  {
    if event.kind != FULFILLMENT_AUTHORIZATION_KIND then
      Failure(WrongKind(FULFILLMENT_AUTHORIZATION_KIND, event.kind))
    else if !event.verified then Failure(InvalidSignature)
    else if UnknownTag(event.tags).Some? then Failure(UnknownTag(event.tags).value)
    else
      var terms :- ParseTerms(event.tags, event.pubkey);
      var link :- ParseLink(event.tags);
      if link.1.ActiveRoot? && terms.validFrom < event.createdAt then Failure(MalformedTag("valid_from"))
      else Success(AuthorizationEvent(event, terms, link.0, link.1))
  }

  // ---------- what a parsed event says ----------

  /** Every capability tag is a pair, none repeats, and `values` are what they hold. */
  ghost predicate Lists(tags: seq<Tag>, values: set<string>) {
    && (forall tag :: tag in Named(tags, "capability") ==> |tag| == 2 && tag[1] != "" && tag[1] in values)
    && (forall c :: c in values ==> ["capability", c] in Named(tags, "capability"))
    && Distinct(Named(tags, "capability"))
  }

  ghost predicate SaysCapabilities(tags: seq<Tag>, capabilities: set<string>) {
    Lists(tags, capabilities) && exists c :: c in capabilities && IsKnownCapability(c)
  }

  lemma NamedHead(tags: seq<Tag>, name: string)
    requires tags != []
    ensures Named(tags, name) == (if HasName(tags[0], name) then [tags[0]] else []) + Named(tags[1..], name)
  {
    assert tags == [tags[0]] + tags[1..];
    NamedConcat([tags[0]], tags[1..], name);
    NamedSingle(tags[0], name);
  }

  lemma PairTag(tag: Tag, name: string)
    requires HasName(tag, name) && |tag| == 2
    ensures tag == [name, tag[1]]
  {
  }

  /** One capability tag in front adds its value to the list. */
  lemma ListsHead(tags: seq<Tag>, values: set<string>)
    requires tags != [] && HasName(tags[0], "capability")
    ensures Lists(tags, values) <==>
      && |tags[0]| == 2 && tags[0][1] != "" && tags[0][1] in values && Lists(tags[1..], values - {tags[0][1]})
  {
    var head, rest := tags[0], Named(tags[1..], "capability");
    NamedHead(tags, "capability");
    DistinctHead(head, rest);
    assert Named(tags, "capability") == [head] + rest;
    forall tag | tag in rest ensures HasName(tag, "capability") {
    }
    if Lists(tags, values) {
      assert head in Named(tags, "capability");
      PairTag(head, "capability");
      forall tag | tag in rest ensures |tag| == 2 && tag[1] != "" && tag[1] in values - {head[1]} {
        assert tag in Named(tags, "capability");
        PairTag(tag, "capability");
      }
    }
    if |head| == 2 && head[1] != "" && head[1] in values && Lists(tags[1..], values - {head[1]}) {
      PairTag(head, "capability");
    }
  }

  lemma {:induction false} CollectsWhatIsListed(tags: seq<Tag>, found: set<string>, values: set<string>)
    requires found !! values
    ensures CollectCapabilities(tags, found) == Some(found + values) <==> Lists(tags, values)
    decreases |tags|
  {
    if tags == [] {
      assert Named(tags, "capability") == [];
      assert Lists(tags, values) <==> values == {};
      assert values == (found + values) - found && found + {} == found;
    } else if !HasName(tags[0], "capability") {
      NamedHead(tags, "capability");
      CollectsWhatIsListed(tags[1..], found, values);
    } else {
      ListsHead(tags, values);
      if |tags[0]| == 2 && tags[0][1] != "" && tags[0][1] !in found {
        var c := tags[0][1];
        assert CollectCapabilities(tags, found) == CollectCapabilities(tags[1..], found + {c});
        if c in values {
          CollectsWhatIsListed(tags[1..], found + {c}, values - {c});
          assert found + {c} + (values - {c}) == found + values;
        } else {
          assert CollectCapabilities(tags, found).Some? ==> c in CollectCapabilities(tags, found).value;
        }
      }
    }
  }

  lemma ParsesCapabilities(tags: seq<Tag>)
    ensures forall values :: ParseCapabilities(tags) == Success(values) <==> SaysCapabilities(tags, values)
  {
    forall values: set<string> ensures ParseCapabilities(tags) == Success(values) <==> SaysCapabilities(tags, values) {
      CollectsWhatIsListed(tags, {}, values);
      assert {} + values == values;
    }
  }

  predicate IsAllowed(tag: Tag) {
    tag != [] && IsAllowedName(tag[0])
  }

  ghost predicate SaysTerms(tags: seq<Tag>, pubkey: PublicKey, terms: AuthorizationTerms) {
    && Says(tags, "d", terms.authorizationId) && Says(tags, "a", terms.coordinate)
    && CoordinatePublisher(terms.coordinate) == Some(pubkey)
    && SaysHex(tags, "p", terms.operator) && SaysHex(tags, "fulfillment_pubkey", terms.fulfillment)
    && SaysCapabilities(tags, terms.capabilities) && SaysNumber(tags, "valid_from", terms.validFrom)
  }

  ghost predicate SaysTransition(tags: seq<Tag>, predecessor: Option<EventId>, transition: AuthorizationTransition) {
    && Says(tags, "status", if transition == Cancel then "cancelled" else "active")
    && SaysOptionalHex(tags, "e", predecessor) && (transition == Cancel <==> predecessor.Some?)
  }

  /** `n` is what this verified authorization event says; a root may not start before it is published. */
  ghost predicate Describes(event: Event, n: AuthorizationEvent) {
    && n.event == event && event.kind == 30406 && event.verified
    && (forall tag :: tag in event.tags ==> IsAllowed(tag))
    && SaysTerms(event.tags, event.pubkey, n.terms)
    && SaysTransition(event.tags, n.predecessor, n.transition)
    && (n.transition == ActiveRoot ==> event.createdAt <= n.terms.validFrom)
  }

  lemma {:induction false} AllowsKnownNames(tags: seq<Tag>)
    ensures UnknownTag(tags).None? <==> forall tag :: tag in tags ==> IsAllowed(tag)
  {
    if tags != [] {
      assert tags == [tags[0]] + tags[1..];
      AllowsKnownNames(tags[1..]);
      assert UnknownTag(tags).None? <==> IsAllowed(tags[0]) && UnknownTag(tags[1..]).None?;
    }
  }

  lemma ParsesSubject(tags: seq<Tag>, pubkey: PublicKey, authorizationId: string, coordinate: string)
    ensures ParseSubject(tags, pubkey) == Success((authorizationId, coordinate)) <==>
      Says(tags, "d", authorizationId) && Says(tags, "a", coordinate) && CoordinatePublisher(coordinate) == Some(pubkey)
  {
    ReadsWhatTagsSay(tags, "d");
    ReadsWhatTagsSay(tags, "a");
  }

  lemma ParsesKeys(tags: seq<Tag>, operator: PublicKey, fulfillment: PublicKey)
    ensures ParseKeys(tags) == Success((operator, fulfillment)) <==>
      SaysHex(tags, "p", operator) && SaysHex(tags, "fulfillment_pubkey", fulfillment)
  {
    ReadsWhatTagsSay(tags, "p");
    ReadsWhatTagsSay(tags, "fulfillment_pubkey");
  }

  /** The parts of these terms are what is read, part by part. */
  ghost predicate ReadsParts(tags: seq<Tag>, pubkey: PublicKey, terms: AuthorizationTerms) {
    && ParseSubject(tags, pubkey) == Success((terms.authorizationId, terms.coordinate))
    && ParseKeys(tags) == Success((terms.operator, terms.fulfillment))
    && ParseCapabilities(tags) == Success(terms.capabilities)
    && RequiredU64(tags, "valid_from") == Success(terms.validFrom)
  }

  lemma TermsAreTheirParts(tags: seq<Tag>, pubkey: PublicKey, terms: AuthorizationTerms)
    ensures ParseTerms(tags, pubkey) == Success(terms) <==> ReadsParts(tags, pubkey, terms)
  {
    var subject, keys := ParseSubject(tags, pubkey), ParseKeys(tags);
    if subject.Success? && keys.Success? && ParseTerms(tags, pubkey).Success? {
      assert subject.value == (subject.value.0, subject.value.1) && keys.value == (keys.value.0, keys.value.1);
    }
  }

  lemma PartsAreSaid(tags: seq<Tag>, pubkey: PublicKey, terms: AuthorizationTerms)
    ensures ReadsParts(tags, pubkey, terms) <==> SaysTerms(tags, pubkey, terms)
  {
    ParsesSubject(tags, pubkey, terms.authorizationId, terms.coordinate);
    ParsesKeys(tags, terms.operator, terms.fulfillment);
    ParsesCapabilities(tags);
    ReadsWhatTagsSay(tags, "valid_from");
  }

  lemma ParsesTerms(tags: seq<Tag>, pubkey: PublicKey, terms: AuthorizationTerms)
    ensures ParseTerms(tags, pubkey) == Success(terms) <==> SaysTerms(tags, pubkey, terms)
  {
    TermsAreTheirParts(tags, pubkey, terms);
    PartsAreSaid(tags, pubkey, terms);
  }

  lemma ParsesLink(tags: seq<Tag>, predecessor: Option<EventId>, transition: AuthorizationTransition)
    ensures ParseLink(tags) == Success((predecessor, transition)) <==> SaysTransition(tags, predecessor, transition)
  {
    ReadsWhatTagsSay(tags, "status");
    ReadsWhatTagsSay(tags, "e");
  }

  /** An event parses to `n` exactly when `n` is what its tags say. */
  lemma ParsesIff(event: Event, n: AuthorizationEvent)
    ensures ParseAuthorizationEvent(event) == Success(n) <==> Describes(event, n)
  {
    AllowsKnownNames(event.tags);
    ParsesTerms(event.tags, event.pubkey, n.terms);
    ParsesLink(event.tags, n.predecessor, n.transition);
  }

  // ---------- resolution as a function of the visible events ----------

  function ById(events: seq<Event>, at: u64): map<EventId, Event> {
    IndexBy(EventKey, Filter((e: Event) => e.createdAt <= at, events))
  }

  function EventKey(e: Event): EventId {
    e.id
  }

  predicate CancelsRoot(root: AuthorizationEvent, candidate: AuthorizationEvent) {
    && candidate.predecessor == Some(root.event.id)
    && candidate.transition == Cancel
    && candidate.terms == root.terms
    && candidate.event.createdAt > root.event.createdAt
  }

  predicate IsCancellation(root: AuthorizationEvent, event: Event) {
    var parsed := ParseAuthorizationEvent(event);
    parsed.Success? && CancelsRoot(root, parsed.value)
  }

  /** Every cancellation a full scan of the visible events finds. */
  function Cancellations(root: AuthorizationEvent, byId: map<EventId, Event>): set<Event> {
    set e | e in byId.Values && IsCancellation(root, e)
  }

  function FindRoot(rootId: EventId, byId: map<EventId, Event>): (r: Result<AuthorizationEvent, ChainError>)
    ensures r.Success? ==> rootId in byId && r.value.event == byId[rootId]
  {
    if rootId !in byId then Failure(Empty)
    else
      match ParseAuthorizationEvent(byId[rootId])
      case Failure(_) => Failure(InvalidTransition)
      case Success(root) => if root.transition != ActiveRoot then Failure(InvalidTransition) else Success(root)
  }

  function Outcome(rootId: EventId, root: AuthorizationEvent, cancellation: Option<AuthorizationEvent>)
    : ResolvedAuthorization
  {
    ResolvedAuthorization(
      rootId, root.event.pubkey, root.terms,
      if cancellation.Some? then [root, cancellation.value] else [root],
      if cancellation.Some? then Some(cancellation.value.event.createdAt) else None)
  }

  ghost function ResolveMap(rootId: EventId, byId: map<EventId, Event>): Result<ResolvedAuthorization, ChainError> {
    var root :- FindRoot(rootId, byId);
    Conclude(rootId, root, Cancellations(root, byId))
  }

  /** No cancellation, one, or a fork. */
  ghost function Conclude(rootId: EventId, root: AuthorizationEvent, found: set<Event>)
    : Result<ResolvedAuthorization, ChainError>
    requires forall e :: e in found ==> IsCancellation(root, e)
  {
    if found == {} then Success(Outcome(rootId, root, None))
    else
      var c :| c in found;
      if found != {c} then Failure(Fork(root.event.id))
      else
        assert IsCancellation(root, c);
        Success(Outcome(rootId, root, Some(ParseAuthorizationEvent(c).value)))
  }

  ghost function ResolveAt(rootId: EventId, events: seq<Event>, at: u64)
    : Result<ResolvedAuthorization, ChainError>
  {
    ResolveMap(rootId, ById(events, at))
  }

  ghost function Resolve(rootId: EventId, events: seq<Event>): Result<ResolvedAuthorization, ChainError> {
    ResolveAt(rootId, events, U64_MAX)
  }

  // ---------- resolution through the raw predecessor index ----------

  predicate References(tag: Tag, id: EventId) {
    |tag| == 2 && tag[0] == "e" && FromHex(tag[1]) == Some(id)
  }

  /** How often the index lists `event` under `id`: once for every tag that refers to it. */
  function ReferenceCount(tags: seq<Tag>, id: EventId): nat {
    if tags == [] then 0
    else ReferenceCount(tags[..|tags| - 1], id) + if References(tags[|tags| - 1], id) then 1 else 0
  }

  type Index = map<EventId, seq<Event>>

  function Listed(index: Index, id: EventId): seq<Event> {
    if id in index then index[id] else []
  }

  function AddReference(index: Index, id: EventId, event: Event): Index {
    index[id := Listed(index, id) + [event]]
  }

  /** One tag of an event: an id it refers to lists the event once more. */
  function AddTag(index: Index, tag: Tag, event: Event): Index {
    if |tag| == 2 && tag[0] == "e" && FromHex(tag[1]).Some?
    then AddReference(index, FromHex(tag[1]).value, event)
    else index
  }

  /** How often `e` is listed when `done` is indexed and the first `i` tags of `event` are. */
  ghost function Expected(done: set<Event>, event: Event, i: nat, id: EventId, e: Event): nat
    requires i <= |event.tags|
  {
    if e == event then ReferenceCount(event.tags[..i], id)
    else if e in done then ReferenceCount(e.tags, id)
    else 0
  }

  ghost predicate IndexedUpTo(index: Index, done: set<Event>, event: Event, i: nat)
    requires i <= |event.tags|
  {
    forall id: EventId, e: Event :: multiset(Listed(index, id))[e] == Expected(done, event, i, id, e)
  }

  /** The index lists exactly the events of `done`, each as often as its tags refer to the key. */
  ghost predicate Indexed(index: Index, done: set<Event>) {
    forall id: EventId, e: Event ::
      multiset(Listed(index, id))[e] == if e in done then ReferenceCount(e.tags, id) else 0
  }

  lemma IndexStep(index: Index, done: set<Event>, event: Event, i: nat)
    requires i < |event.tags| && IndexedUpTo(index, done, event, i)
    ensures IndexedUpTo(AddTag(index, event.tags[i], event), done, event, i + 1)
  {
    var tag := event.tags[i];
    var next := AddTag(index, tag, event);
    assert event.tags[..i + 1] == event.tags[..i] + [tag];
    forall id: EventId, e: Event
      ensures multiset(Listed(next, id))[e] == Expected(done, event, i + 1, id, e)
    {
      assert multiset(Listed(index, id))[e] == Expected(done, event, i, id, e);
      assert Listed(next, id) == Listed(index, id) + if References(tag, id) then [event] else [];
    }
  }

  lemma StartsIndexed(index: Index, done: set<Event>, event: Event)
    requires Indexed(index, done) && event !in done
    ensures IndexedUpTo(index, done, event, 0)
  {
    assert event.tags[..0] == [];
  }

  lemma EndsIndexed(index: Index, done: set<Event>, event: Event)
    requires IndexedUpTo(index, done, event, |event.tags|)
    ensures Indexed(index, done + {event})
  {
    assert event.tags[..|event.tags|] == event.tags;
    forall id: EventId, e: Event
      ensures multiset(Listed(index, id))[e] == if e in done + {event} then ReferenceCount(e.tags, id) else 0
    {
      assert multiset(Listed(index, id))[e] == Expected(done, event, |event.tags|, id, e);
    }
  }

  method IndexReferences(index: Index, ghost done: set<Event>, event: Event) returns (r: Index)
    requires Indexed(index, done) && event !in done
    ensures Indexed(r, done + {event})
  {
    r := index;
    StartsIndexed(r, done, event);
    for i := 0 to |event.tags|
      invariant IndexedUpTo(r, done, event, i)
    {
      IndexStep(r, done, event, i);
      r := AddTag(r, event.tags[i], event);
    }
    EndsIndexed(r, done, event);
  }

  method BuildIndex(byId: map<EventId, Event>) returns (index: Index)
    ensures Indexed(index, byId.Values)
  {
    index := map[];
    var todo := byId.Values;
    var done: set<Event> := {};
    while todo != {}
      invariant done + todo == byId.Values && done !! todo
      invariant Indexed(index, done)
      decreases todo
    {
      var event :| event in todo;
      index := IndexReferences(index, done, event);
      done, todo := done + {event}, todo - {event};
    }
  }

  /** An event that parses with a predecessor is listed under that predecessor exactly once. */
  lemma ListedOnce(event: Event, parsed: AuthorizationEvent, id: EventId)
    requires ParseAuthorizationEvent(event) == Success(parsed) && parsed.predecessor == Some(id)
    ensures ReferenceCount(event.tags, id) == 1
  {
    var v :| ExactTag(event.tags, "e", false) == Success(Some(v)) && FromHex(v) == Some(id);
    CountNamed(event.tags, id);
    CountSingle(["e", v], id);
  }

  lemma CountSingle(tag: Tag, id: EventId)
    ensures ReferenceCount([tag], id) == if References(tag, id) then 1 else 0
  {
    assert [tag][..0] == [];
  }

  lemma {:induction false} CountNamed(tags: seq<Tag>, id: EventId)
    ensures ReferenceCount(tags, id) == ReferenceCount(Named(tags, "e"), id)
  {
    if tags != [] {
      var front, last := tags[..|tags| - 1], tags[|tags| - 1];
      assert tags == front + [last];
      CountNamed(front, id);
      NamedConcat(front, [last], "e");
      NamedSingle(last, "e");
      if HasName(last, "e") {
        assert (Named(front, "e") + [last])[..|Named(front, "e")|] == Named(front, "e");
      } else {
        assert Named(front, "e") + [] == Named(front, "e");
      }
    }
  }

  /** The index finds exactly the cancellations a full scan finds, each once. */
  lemma IndexFindsCancellations(root: AuthorizationEvent, byId: map<EventId, Event>, index: Index)
    requires Indexed(index, byId.Values)
    ensures
      var listed := Filter((e: Event) => IsCancellation(root, e), Listed(index, root.event.id));
      && Distinct(listed)
      && (forall e :: e in listed <==> e in Cancellations(root, byId))
  {
    var all := Listed(index, root.event.id);
    var keep := (e: Event) => IsCancellation(root, e);
    var listed := Filter(keep, all);
    forall e ensures e in listed <==> e in Cancellations(root, byId) {
      assert e in all <==> multiset(all)[e] > 0;
      if keep(e) {
        ListedOnce(e, ParseAuthorizationEvent(e).value, root.event.id);
      }
    }
    forall e | e in listed ensures multiset(all)[e] == 1 {
      ListedOnce(e, ParseAuthorizationEvent(e).value, root.event.id);
    }
    FilterOnce(keep, all);
  }

  lemma {:induction false} FilterOnce<T(!new)>(keep: T -> bool, s: seq<T>)
    requires forall x :: x in s && keep(x) ==> multiset(s)[x] == 1
    ensures Distinct(Filter(keep, s))
  {
    if s != [] {
      assert s == [s[0]] + s[1..];
      assert multiset(s) == multiset{s[0]} + multiset(s[1..]);
      forall x | x in s[1..] && keep(x) ensures multiset(s[1..])[x] == 1 && x != s[0] {
        assert x in multiset(s[1..]) && x in s;
      }
      FilterOnce(keep, s[1..]);
    }
  }

  method ResolveAuthorizationAt(rootId: EventId, events: seq<Event>, at: u64)
    returns (r: Result<ResolvedAuthorization, ChainError>)
    ensures r == ResolveAt(rootId, events, at)
  {
    var byId := ById(events, at);
    var found := FindRoot(rootId, byId);
    if found.Failure? {
      return Failure(found.error);
    }
    var root := found.value;
    var index := BuildIndex(byId);
    var valid := Filter((e: Event) => IsCancellation(root, e), Listed(index, root.event.id));
    IndexFindsCancellations(root, byId, index);
    UniqueCancellation(root, byId, valid);
    if |valid| > 1 {
      return Failure(Fork(root.event.id));
    }
    if valid == [] {
      return Success(Outcome(rootId, root, None));
    }
    return Success(Outcome(rootId, root, Some(ParseAuthorizationEvent(valid[0]).value)));
  }

  lemma UniqueCancellation(root: AuthorizationEvent, byId: map<EventId, Event>, valid: seq<Event>)
    requires Distinct(valid) && forall e :: e in valid <==> e in Cancellations(root, byId)
    ensures valid == [] <==> Cancellations(root, byId) == {}
    ensures |valid| == 1 ==> Cancellations(root, byId) == {valid[0]} && IsCancellation(root, valid[0])
    ensures |valid| > 1 ==> forall e :: Cancellations(root, byId) != {e}
  {
    if |valid| == 1 {
      assert valid == [valid[0]] && valid[0] in valid;
    } else if |valid| > 1 {
      assert valid[0] in valid && valid[1] in valid;
    }
  }
}
