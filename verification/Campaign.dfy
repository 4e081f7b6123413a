/** Publisher-signed campaign chains: events, their tags, and resolution of an unordered bag of events. */
module Campaign {
  import opened Base
  import opened Text
  import opened Protocol

  datatype CampaignMode = Claim

  datatype CampaignTerms = CampaignTerms(mode: CampaignMode, starts: u64, ends: u64)

  datatype CampaignBuildParams = CampaignBuildParams(
    campaignId: string,
    coordinate: string,
    terms: Option<CampaignTerms>,
    predecessor: Option<EventId>,
    cancelled: bool)

  datatype CampaignTransition = Root(terms: CampaignTerms) | ReplaceTerms(terms: CampaignTerms) | Cancel

  datatype CampaignEvent = CampaignEvent(
    event: Event,
    campaignId: string,
    coordinate: string,
    predecessor: Option<EventId>,
    transition: CampaignTransition)
  {
    function At(): u64 {
      event.createdAt
    }
  }

  datatype ResolvedCampaign = ResolvedCampaign(
    rootEventId: EventId,
    publisher: PublicKey,
    campaignId: string,
    coordinate: string,
    events: seq<CampaignEvent>)

  // ---------- events and tags ----------

  function ParseTerms(tags: seq<Tag>): Result<CampaignTerms, ProtocolError> {
    var mode :- ExactTag(tags, "mode", true);
    if mode != Some("claim") then Failure(MalformedTag("mode"))
    else
      var starts :- RequiredU64(tags, "starts");
      var ends :- RequiredU64(tags, "ends");
      Success(CampaignTerms(Claim, starts, ends))
  }

  function ForbidTermTags(tags: seq<Tag>): Result<CampaignTransition, ProtocolError> {
    var mode :- ExactTag(tags, "mode", false);
    if mode.Some? then Failure(ForbiddenTag("mode"))
    else
      var starts :- ExactTag(tags, "starts", false);
      if starts.Some? then Failure(ForbiddenTag("starts"))
      else
        var ends :- ExactTag(tags, "ends", false);
        if ends.Some? then Failure(ForbiddenTag("ends")) else Success(Cancel)
  }

  function ParseTransition(tags: seq<Tag>, status: string, predecessor: Option<EventId>)
    : Result<CampaignTransition, ProtocolError>
  {
    if status == "active" then
      var terms :- ParseTerms(tags);
      Success(if predecessor.None? then Root(terms) else ReplaceTerms(terms))
    else if status == "cancelled" then
      if predecessor.None? then Failure(MissingTag("e")) else ForbidTermTags(tags)
    else
      Failure(MalformedTag("status"))
  }

  /** What an event does to its chain, and to which predecessor. */
  function ParseLink(tags: seq<Tag>): (r: Result<(Option<EventId>, CampaignTransition), ProtocolError>)
    ensures r.Success? ==> (r.value.1.Root? <==> r.value.0.None?)
  {
    var status :- RequiredTag(tags, "status");
    var predecessor :- OptionalId(tags, "e");
    var transition :- ParseTransition(tags, status, predecessor);
    Success((predecessor, transition))
  }

  function ParseCampaignEvent(event: Event): (r: Result<CampaignEvent, ProtocolError>)
    ensures r.Success? ==>
      && r.value.event == event
      && CoordinatePublisher(r.value.coordinate) == Some(event.pubkey)
      && (r.value.transition.Root? <==> r.value.predecessor.None?)
  {
    if event.kind != ADP_CAMPAIGN_KIND then Failure(WrongKind(ADP_CAMPAIGN_KIND, event.kind))
    else if !event.verified then Failure(InvalidSignature)
    else
      var campaignId :- RequiredTag(event.tags, "d");
      var coordinate :- RequiredTag(event.tags, "a");
      if CoordinatePublisher(coordinate) != Some(event.pubkey) then Failure(WrongPublisher)
      else
        var link :- ParseLink(event.tags);
        Success(CampaignEvent(event, campaignId, coordinate, link.0, link.1))
  }

  // ---------- what a parsed event says ----------

  ghost predicate SaysTerms(tags: seq<Tag>, terms: CampaignTerms) {
    Says(tags, "mode", "claim") && SaysNumber(tags, "starts", terms.starts) && SaysNumber(tags, "ends", terms.ends)
  }

  ghost predicate SaysTransition(tags: seq<Tag>, transition: CampaignTransition, predecessor: Option<EventId>) {
    match transition
    case Root(terms) => Says(tags, "status", "active") && predecessor.None? && SaysTerms(tags, terms)
    case ReplaceTerms(terms) => Says(tags, "status", "active") && predecessor.Some? && SaysTerms(tags, terms)
    case Cancel =>
      && Says(tags, "status", "cancelled") && predecessor.Some?
      && Named(tags, "mode") == [] && Named(tags, "starts") == [] && Named(tags, "ends") == []
  }

  lemma ParsesTerms(tags: seq<Tag>)
    ensures forall terms :: ParseTerms(tags) == Success(terms) <==> SaysTerms(tags, terms)
  {
    ReadsWhatTagsSay(tags, "mode");
    ReadsWhatTagsSay(tags, "starts");
    ReadsWhatTagsSay(tags, "ends");
    forall terms: CampaignTerms ensures ParseTerms(tags) == Success(terms) <==> SaysTerms(tags, terms) {
      assert terms.mode == Claim;
      assert ExactTag(tags, "mode", true) == Success(Some("claim")) <==> Says(tags, "mode", "claim");
    }
  }

  lemma ForbidsTerms(tags: seq<Tag>)
    ensures ForbidTermTags(tags).Success? <==>
      Named(tags, "mode") == [] && Named(tags, "starts") == [] && Named(tags, "ends") == []
    ensures ForbidTermTags(tags).Success? ==> ForbidTermTags(tags).value == Cancel
  {
    assert ExactTag(tags, "mode", false) == Success(None) <==> Named(tags, "mode") == [];
    assert ExactTag(tags, "starts", false) == Success(None) <==> Named(tags, "starts") == [];
    assert ExactTag(tags, "ends", false) == Success(None) <==> Named(tags, "ends") == [];
  }

  lemma ParsesLink(tags: seq<Tag>, predecessor: Option<EventId>, transition: CampaignTransition)
    ensures ParseLink(tags) == Success((predecessor, transition)) <==>
      SaysOptionalHex(tags, "e", predecessor) && SaysTransition(tags, transition, predecessor)
  {
    ReadsWhatTagsSay(tags, "status");
    ReadsWhatTagsSay(tags, "e");
    ParsesTerms(tags);
    ForbidsTerms(tags);
  }

  /** `n` is what this verified campaign event says, each tag once. */
  ghost predicate Describes(event: Event, n: CampaignEvent) {
    && n.event == event && event.kind == 1031 && event.verified
    && Says(event.tags, "d", n.campaignId) && Says(event.tags, "a", n.coordinate)
    && CoordinatePublisher(n.coordinate) == Some(event.pubkey)
    && SaysOptionalHex(event.tags, "e", n.predecessor)
    && SaysTransition(event.tags, n.transition, n.predecessor)
  }

  lemma ParsedIsDescribed(event: Event, n: CampaignEvent)
    requires ParseCampaignEvent(event) == Success(n)
    ensures Describes(event, n)
  {
    assert RequiredTag(event.tags, "d") == Success(n.campaignId);
    assert RequiredTag(event.tags, "a") == Success(n.coordinate);
    ParsesLink(event.tags, n.predecessor, n.transition);
  }

  lemma DescribedIsParsed(event: Event, n: CampaignEvent)
    requires Describes(event, n)
    ensures ParseCampaignEvent(event) == Success(n)
  {
    assert RequiredTag(event.tags, "d") == Success(n.campaignId);
    assert RequiredTag(event.tags, "a") == Success(n.coordinate);
    ParsesLink(event.tags, n.predecessor, n.transition);
  }

  /** An event parses to `n` exactly when `n` is what its tags say. */
  lemma ParsesIff(event: Event, n: CampaignEvent)
    ensures ParseCampaignEvent(event) == Success(n) <==> Describes(event, n)
  {
    if ParseCampaignEvent(event) == Success(n) {
      ParsedIsDescribed(event, n);
    }
    if Describes(event, n) {
      DescribedIsParsed(event, n);
    }
  }

  /** The tags a root, replacement or cancellation needs are there to be written. */
  predicate Shaped(params: CampaignBuildParams) {
    && params.campaignId != ""
    && CoordinatePublisher(params.coordinate).Some?
    && if params.cancelled then params.predecessor.Some? && params.terms.None? else params.terms.Some?
  }

  predicate BuilderAccepts(params: CampaignBuildParams) {
    Shaped(params) && (params.terms.Some? ==> params.terms.value.starts < params.terms.value.ends)
  }

  function BuiltTransition(params: CampaignBuildParams): CampaignTransition
    requires Shaped(params)
  {
    if params.cancelled then Cancel
    else if params.predecessor.None? then Root(params.terms.value)
    else ReplaceTerms(params.terms.value)
  }

  /** What a relay reader gets back from an event carrying tags built from `params`. */
  ghost predicate ReadsBack(tags: seq<Tag>, params: CampaignBuildParams)
    requires Shaped(params)
  {
    forall event: Event |
      event.kind == ADP_CAMPAIGN_KIND && event.verified && event.tags == Signed(tags, event.pubkey)
    ::
      ParseCampaignEvent(event) ==
        if CoordinatePublisher(params.coordinate) == Some(event.pubkey) then
          Success(CampaignEvent(event, params.campaignId, params.coordinate, params.predecessor,
            BuiltTransition(params)))
        else
          Failure(WrongPublisher)
  }

  /** Builds the tags of a campaign root, replacement or cancellation. */
  method BuildCampaignTags(params: CampaignBuildParams) returns (r: Result<seq<Tag>, ProtocolError>)
    ensures r.Success? <==> BuilderAccepts(params)
    ensures r.Success? ==> ReadsBack(r.value, params)
    ensures
      var named := params.campaignId != "" && CoordinatePublisher(params.coordinate) != None;
      r.Failure? ==> r == Failure(
        if !named then MalformedTag("d")
        else if params.cancelled then MissingTag("e")
        else if params.terms == None then MissingTag("starts")
        else MalformedTag("ends"))
  {
    if params.campaignId == "" || CoordinatePublisher(params.coordinate).None? {
      return Failure(MalformedTag("d"));
    }
    var tags := HeadTags(params);
    if params.predecessor.Some? {
      tags := tags + [["e", params.predecessor.value]];
    }
    assert tags == HeadTags(params) + LinkTags(params);
    if params.cancelled {
      if params.predecessor.None? || params.terms.Some? {
        return Failure(MissingTag("e"));
      }
    } else {
      if params.terms.None? {
        return Failure(MissingTag("starts"));
      }
      var terms := params.terms.value;
      if terms.starts >= terms.ends {
        return Failure(MalformedTag("ends"));
      }
      tags := tags + [["mode", "claim"], ["starts", Decimal(terms.starts)], ["ends", Decimal(terms.ends)]];
    }
    BuiltTagsReadBack(tags, params);
    return Success(tags);
  }

  function HeadTags(params: CampaignBuildParams): seq<Tag> {
    [["d", params.campaignId], ["a", params.coordinate], ["status", if params.cancelled then "cancelled" else "active"]]
  }

  function LinkTags(params: CampaignBuildParams): seq<Tag> {
    if params.predecessor.Some? then [["e", params.predecessor.value]] else []
  }

  function TermTags(params: CampaignBuildParams): seq<Tag>
    requires Shaped(params)
  {
    if params.cancelled then []
    else [["mode", "claim"], ["starts", Decimal(params.terms.value.starts)], ["ends", Decimal(params.terms.value.ends)]]
  }

  function BuiltTags(params: CampaignBuildParams): seq<Tag>
    requires Shaped(params)
  {
    HeadTags(params) + LinkTags(params) + TermTags(params)
  }

  lemma BuiltTagsNamed(tags: seq<Tag>, params: CampaignBuildParams, name: string)
    requires Shaped(params)
    requires tags == BuiltTags(params)
    ensures Named(tags, name) ==
      Named(HeadTags(params), name) + Named(LinkTags(params), name) + Named(TermTags(params), name)
  {
    NamedConcat(HeadTags(params) + LinkTags(params), TermTags(params), name);
    NamedConcat(HeadTags(params), LinkTags(params), name);
  }

  lemma NamedThree(x: Tag, y: Tag, z: Tag, name: string)
    ensures Named([x, y, z], name) == Named([x], name) + Named([y], name) + Named([z], name)
  {
    assert [x, y, z] == [x, y] + [z] && [x, y] == [x] + [y];
    NamedConcat([x, y], [z], name);
    NamedConcat([x], [y], name);
  }

  lemma HeadNamed(params: CampaignBuildParams, name: string)
    ensures Named(HeadTags(params), name) ==
      if name == "d" then [["d", params.campaignId]]
      else if name == "a" then [["a", params.coordinate]]
      else if name == "status" then [["status", if params.cancelled then "cancelled" else "active"]]
      else []
  {
    var tags := HeadTags(params);
    NamedThree(tags[0], tags[1], tags[2], name);
    NamedSingle(tags[0], name);
    NamedSingle(tags[1], name);
    NamedSingle(tags[2], name);
  }

  lemma LinkNamed(params: CampaignBuildParams, name: string)
    ensures Named(LinkTags(params), name) == if name == "e" then LinkTags(params) else []
  {
    if params.predecessor.Some? {
      NamedSingle(LinkTags(params)[0], name);
    }
  }

  lemma TermNamed(params: CampaignBuildParams, name: string)
    requires Shaped(params)
    ensures Named(TermTags(params), name) ==
      if params.cancelled then []
      else if name == "mode" then [["mode", "claim"]]
      else if name == "starts" then [["starts", Decimal(params.terms.value.starts)]]
      else if name == "ends" then [["ends", Decimal(params.terms.value.ends)]]
      else []
  {
    if !params.cancelled {
      var tags := TermTags(params);
      NamedThree(tags[0], tags[1], tags[2], name);
      NamedSingle(tags[0], name);
      NamedSingle(tags[1], name);
      NamedSingle(tags[2], name);
    }
  }

  lemma DecimalReadsBack(tags: seq<Tag>, name: string, n: u64)
    requires Named(tags, name) == [[name, Decimal(n)]]
    ensures RequiredU64(tags, name) == Success(n)
  {
    assert RequiredTag(tags, name) == Success(Decimal(n));
    ParseDigits(Decimal(n));
  }

  lemma TermTagsFound(tags: seq<Tag>, params: CampaignBuildParams, name: string)
    requires Shaped(params)
    requires tags == BuiltTags(params)
    requires name != "d" && name != "a" && name != "status" && name != "e"
    ensures Named(tags, name) == Named(TermTags(params), name)
  {
    BuiltTagsNamed(tags, params, name);
    HeadNamed(params, name);
    LinkNamed(params, name);
  }

  lemma BuiltTermsReadBack(tags: seq<Tag>, params: CampaignBuildParams)
    requires Shaped(params) && !params.cancelled
    requires tags == BuiltTags(params)
    ensures ParseTerms(tags) == Success(params.terms.value)
  {
    TermTagsFound(tags, params, "mode");
    TermTagsFound(tags, params, "starts");
    TermTagsFound(tags, params, "ends");
    TermNamed(params, "mode");
    TermNamed(params, "starts");
    TermNamed(params, "ends");
    DecimalReadsBack(tags, "starts", params.terms.value.starts);
    DecimalReadsBack(tags, "ends", params.terms.value.ends);
    assert ExactTag(tags, "mode", true) == Success(Some("claim"));
    assert params.terms.value.mode == Claim;
  }

  lemma CancellationReadsBack(tags: seq<Tag>, params: CampaignBuildParams)
    requires Shaped(params) && params.cancelled
    requires tags == BuiltTags(params)
    ensures ForbidTermTags(tags) == Success(Cancel)
  {
    TermTagsFound(tags, params, "mode");
    TermTagsFound(tags, params, "starts");
    TermTagsFound(tags, params, "ends");
    assert TermTags(params) == [];
  }

  lemma HeadTagsFound(tags: seq<Tag>, params: CampaignBuildParams, name: string)
    requires Shaped(params)
    requires tags == BuiltTags(params)
    requires name != "mode" && name != "starts" && name != "ends"
    ensures Named(tags, name) == Named(HeadTags(params), name) + Named(LinkTags(params), name)
  {
    BuiltTagsNamed(tags, params, name);
    TermNamed(params, name);
  }

  lemma BuiltHeadReadsBack(tags: seq<Tag>, params: CampaignBuildParams, tag: Tag)
    requires Shaped(params)
    requires tags == BuiltTags(params)
    requires tag in HeadTags(params) && tag[1] != ""
    ensures RequiredTag(tags, tag[0]) == Success(tag[1])
  {
    HeadTagsFound(tags, params, tag[0]);
    HeadNamed(params, tag[0]);
    LinkNamed(params, tag[0]);
    assert Named(tags, tag[0]) == [[tag[0], tag[1]]];
  }

  lemma BuiltLinkReadsBack(tags: seq<Tag>, params: CampaignBuildParams)
    requires Shaped(params)
    requires tags == BuiltTags(params)
    ensures OptionalId(tags, "e") == Success(params.predecessor)
  {
    HeadTagsFound(tags, params, "e");
    HeadNamed(params, "e");
    LinkNamed(params, "e");
    if params.predecessor.Some? {
      assert ExactTag(tags, "e", false) == Success(Some(params.predecessor.value));
    }
  }

  lemma NothingMentioned(tags: seq<Tag>, params: CampaignBuildParams)
    requires Shaped(params)
    requires tags == BuiltTags(params)
    ensures Named(tags, "p") == []
  {
    HeadTagsFound(tags, params, "p");
    HeadNamed(params, "p");
    LinkNamed(params, "p");
  }

  lemma SignedTagsUnchanged(tags: seq<Tag>, params: CampaignBuildParams)
    requires Shaped(params)
    requires tags == BuiltTags(params)
    ensures forall signer :: Signed(tags, signer) == tags
  {
    NothingMentioned(tags, params);
    forall signer ensures Signed(tags, signer) == tags {
      SignedUnchanged(tags, signer);
    }
  }

  lemma BuiltTagsReadBack(tags: seq<Tag>, params: CampaignBuildParams)
    requires Shaped(params)
    requires tags == BuiltTags(params)
    ensures ReadsBack(tags, params)
  {
    BuiltHeadReadsBack(tags, params, HeadTags(params)[0]);
    BuiltHeadReadsBack(tags, params, HeadTags(params)[1]);
    BuiltHeadReadsBack(tags, params, HeadTags(params)[2]);
    BuiltLinkReadsBack(tags, params);
    if params.cancelled {
      CancellationReadsBack(tags, params);
    } else {
      BuiltTermsReadBack(tags, params);
    }
    SignedTagsUnchanged(tags, params);
  }

  /** The event `publisher` signs for these parameters. */
  function BuiltEvent(id: EventId, publisher: PublicKey, at: u64, params: CampaignBuildParams): Event
    requires Shaped(params)
  {
    Event(id, publisher, ADP_CAMPAIGN_KIND, at, Signed(BuiltTags(params), publisher), true)
  }

  function BuiltNode(id: EventId, publisher: PublicKey, at: u64, params: CampaignBuildParams): CampaignEvent
    requires Shaped(params)
  {
    CampaignEvent(
      BuiltEvent(id, publisher, at, params), params.campaignId, params.coordinate, params.predecessor,
      BuiltTransition(params))
  }

  lemma BuiltEventParses(id: EventId, publisher: PublicKey, at: u64, params: CampaignBuildParams)
    requires Shaped(params) && CoordinatePublisher(params.coordinate) == Some(publisher)
    ensures ParseCampaignEvent(BuiltEvent(id, publisher, at, params)) == Success(BuiltNode(id, publisher, at, params))
  {
    BuiltTagsReadBack(BuiltTags(params), params);
  }

  /** A root open from 20 to 20: the parser takes it, the builder does not. */
  lemma EmptyIntervalParses(id: EventId, publisher: PublicKey, at: u64)
    ensures
      var terms := CampaignTerms(Claim, 20, 20);
      var params := CampaignBuildParams("summer", CoordinateOf(publisher, "game"), Some(terms), None, false);
      && Shaped(params) && !BuilderAccepts(params)
      && ParseCampaignEvent(BuiltEvent(id, publisher, at, params)) == Success(BuiltNode(id, publisher, at, params))
  {
    var terms := CampaignTerms(Claim, 20, 20);
    var params := CampaignBuildParams("summer", CoordinateOf(publisher, "game"), Some(terms), None, false);
    CoordinateNamesPublisher(publisher, "game");
    BuiltEventParses(id, publisher, at, params);
  }

  /** Every event a reader accepts can be rebuilt from what was read, unless its interval is empty. */
  lemma ParsedEventsCanBeRebuilt(event: Event, parsed: CampaignEvent)
    requires ParseCampaignEvent(event) == Success(parsed)
    ensures
      var terms := if parsed.transition.Cancel? then None else Some(parsed.transition.terms);
      var params := CampaignBuildParams(parsed.campaignId, parsed.coordinate, terms, parsed.predecessor, terms.None?);
      && (BuilderAccepts(params) <==> (terms.Some? ==> terms.value.starts < terms.value.ends))
      && (BuilderAccepts(params) ==> BuiltTransition(params) == parsed.transition)
  {
    LinkIsBuildable(event.tags);
    assert RequiredTag(event.tags, "d") == Success(parsed.campaignId);
    assert ParseLink(event.tags) == Success((parsed.predecessor, parsed.transition));
  }

  lemma LinkIsBuildable(tags: seq<Tag>)
    requires ParseLink(tags).Success?
    ensures
      var link := ParseLink(tags).value;
      if link.1.Cancel? then link.0.Some?
      else link.1 == (if link.0.None? then Root(link.1.terms) else ReplaceTerms(link.1.terms))
  {
  }
}
