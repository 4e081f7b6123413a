/** Why an event is refused: the first thing wrong with it, in the order the readers look. */
module ParseErrors {
  import opened Base
  import opened Text
  import opened Protocol
  import Campaign
  import Authorization
  import Entitlements

  // ---------- what can be wrong with one tag ----------

  type Problem = Option<ProtocolError>

  function Then(first: Problem, next: Problem): Problem {
    if first != None then first else next
  }

  function Check(ok: bool, error: ProtocolError): Problem {
    if ok then None else Some(error)
  }

  predicate IsPair(tags: seq<Tag>, name: string) {
    |Named(tags, name)| == 1 && |Named(tags, name)[0]| == 2 && Named(tags, name)[0][1] != ""
  }

  /** The text of a tag that is there once, as a pair of its name and a text. */
  function TextOf(tags: seq<Tag>, name: string): string {
    if IsPair(tags, name) then Named(tags, name)[0][1] else ""
  }

  /** At most one tag of this name, of the right shape. */
  function Shape(tags: seq<Tag>, name: string): Problem {
    if |Named(tags, name)| > 1 then Some(DuplicateTag(name))
    else Check(Named(tags, name) == [] || IsPair(tags, name), MalformedTag(name))
  }

  function Needed(tags: seq<Tag>, name: string): Problem {
    Then(Check(Named(tags, name) != [], MissingTag(name)), Shape(tags, name))
  }

  function NeededHex(tags: seq<Tag>, name: string): Problem {
    Then(Needed(tags, name), Check(FromHex(TextOf(tags, name)) != None, MalformedTag(name)))
  }

  function NeededNumber(tags: seq<Tag>, name: string): Problem {
    Then(Needed(tags, name), Check(ParseU64(TextOf(tags, name)) != None, MalformedTag(name)))
  }

  function OptionalHex(tags: seq<Tag>, name: string): Problem {
    if Named(tags, name) == [] then None else NeededHex(tags, name)
  }

  function Unwanted(tags: seq<Tag>, name: string): Problem {
    Then(Shape(tags, name), Check(Named(tags, name) == [], ForbiddenTag(name)))
  }

  function ErrorOf<T>(r: Result<T, ProtocolError>): Problem {
    if r.Failure? then Some(r.error) else None
  }

  lemma OneTag(tags: seq<Tag>, name: string)
    ensures IsPair(tags, name) ==> Named(tags, name) == [[name, TextOf(tags, name)]]
    ensures forall v :: v != "" && Named(tags, name) == [[name, v]] ==> IsPair(tags, name) && TextOf(tags, name) == v
  {
    if |Named(tags, name)| == 1 {
      var tag := Named(tags, name)[0];
      assert tag in Named(tags, name) && HasName(tag, name);
      assert |tag| == 2 ==> tag == [name, tag[1]];
    }
  }

  lemma ExactTagFails(tags: seq<Tag>, name: string)
    ensures ErrorOf(ExactTag(tags, name, true)) == Needed(tags, name)
    ensures ErrorOf(ExactTag(tags, name, false)) == Shape(tags, name)
    ensures IsPair(tags, name) ==> ExactTag(tags, name, true) == Success(Some(TextOf(tags, name)))
    ensures IsPair(tags, name) ==> ExactTag(tags, name, false) == Success(Some(TextOf(tags, name)))
  {
    OneTag(tags, name);
  }

  /** How each reader of one tag fails. */
  lemma ReadersFail(tags: seq<Tag>, name: string)
    ensures ErrorOf(RequiredTag(tags, name)) == Needed(tags, name)
    ensures Needed(tags, name) == None ==> RequiredTag(tags, name) == Success(TextOf(tags, name))
    ensures ErrorOf(RequiredHex(tags, name)) == NeededHex(tags, name)
    ensures ErrorOf(RequiredU64(tags, name)) == NeededNumber(tags, name)
    ensures ErrorOf(OptionalId(tags, name)) == OptionalHex(tags, name)
    ensures OptionalHex(tags, name) == None ==> (OptionalId(tags, name) == Success(None) <==> Named(tags, name) == [])
  {
    ExactTagFails(tags, name);
  }

  // ---------- campaigns ----------

  /** The first problem of an event's kind, signature or tags, in the order the campaign reader looks. */
  function CampaignProblem(event: Event): Problem {
    var tags := event.tags;
    Then(Check(event.kind == 1031, WrongKind(1031, event.kind)),
    Then(Check(event.verified, InvalidSignature),
    Then(Needed(tags, "d"),
    Then(Needed(tags, "a"),
    Then(Check(CoordinatePublisher(TextOf(tags, "a")) == Some(event.pubkey), WrongPublisher),
    Then(Needed(tags, "status"),
    Then(OptionalHex(tags, "e"),
    LinkProblem(tags))))))))
  }

  function LinkProblem(tags: seq<Tag>): Problem {
    if TextOf(tags, "status") == "active" then
      Then(Needed(tags, "mode"),
      Then(Check(TextOf(tags, "mode") == "claim", MalformedTag("mode")),
      Then(NeededNumber(tags, "starts"), NeededNumber(tags, "ends"))))
    else if TextOf(tags, "status") == "cancelled" then
      Then(Check(Named(tags, "e") != [], MissingTag("e")),
      Then(Unwanted(tags, "mode"), Then(Unwanted(tags, "starts"), Unwanted(tags, "ends"))))
    else
      Some(MalformedTag("status"))
  }

  lemma CampaignTermsFail(tags: seq<Tag>)
    ensures ErrorOf(Campaign.ParseTerms(tags)) ==
      Then(Needed(tags, "mode"),
      Then(Check(TextOf(tags, "mode") == "claim", MalformedTag("mode")),
      Then(NeededNumber(tags, "starts"), NeededNumber(tags, "ends"))))
    ensures ErrorOf(Campaign.ForbidTermTags(tags)) ==
      Then(Unwanted(tags, "mode"), Then(Unwanted(tags, "starts"), Unwanted(tags, "ends")))
  {
    ExactTagFails(tags, "mode");
    ExactTagFails(tags, "starts");
    ExactTagFails(tags, "ends");
    ReadersFail(tags, "starts");
    ReadersFail(tags, "ends");
  }

  lemma CampaignLinkFails(tags: seq<Tag>)
    ensures ErrorOf(Campaign.ParseLink(tags)) ==
      Then(Needed(tags, "status"), Then(OptionalHex(tags, "e"), LinkProblem(tags)))
  {
    ReadersFail(tags, "status");
    ReadersFail(tags, "e");
    CampaignTermsFail(tags);
  }

  /** A campaign event is refused for its first problem, and read when it has none. */
  lemma CampaignRefusedFor(event: Event)
    ensures ErrorOf(Campaign.ParseCampaignEvent(event)) == CampaignProblem(event)
  {
    ReadersFail(event.tags, "d");
    ReadersFail(event.tags, "a");
    CampaignLinkFails(event.tags);
  }

  // ---------- grants ----------

  function GrantProblem(event: Event): Problem {
    var tags := event.tags;
    Then(Check(event.kind == 1030, WrongKind(1030, event.kind)),
    Then(Check(event.verified, InvalidSignature),
    Then(GrantSubjectProblem(tags), Then(GrantBasisProblem(tags), GrantLinkProblem(tags)))))
  }

  function GrantSubjectProblem(tags: seq<Tag>): Problem {
    Then(Needed(tags, "d"),
    Then(NeededHex(tags, "p"),
    Then(Needed(tags, "a"), Check(CoordinatePublisher(TextOf(tags, "a")) != None, MalformedTag("a")))))
  }

  function GrantBasisProblem(tags: seq<Tag>): Problem {
    Then(NeededHex(tags, "source_event"), Then(OptionalHex(tags, "authorization"), Shape(tags, "reason")))
  }

  function GrantLinkProblem(tags: seq<Tag>): Problem {
    var status := TextOf(tags, "status");
    Then(Needed(tags, "status"),
    Then(Check(status == "granted" || status == "revoked", MalformedTag("status")),
    Then(OptionalHex(tags, "e"),
    if status == "granted" then Check(Named(tags, "e") == [], ForbiddenTag("e"))
    else Check(Named(tags, "e") != [], MissingTag("e")))))
  }

  lemma GrantPartsFail(tags: seq<Tag>)
    ensures ErrorOf(Entitlements.ParseSubject(tags)) == GrantSubjectProblem(tags)
    ensures ErrorOf(Entitlements.ParseBasis(tags)) == GrantBasisProblem(tags)
  {
    ReadersFail(tags, "d");
    ReadersFail(tags, "p");
    ReadersFail(tags, "a");
    ReadersFail(tags, "source_event");
    ReadersFail(tags, "authorization");
    ExactTagFails(tags, "reason");
  }

  lemma GrantLinkFails(tags: seq<Tag>)
    ensures ErrorOf(Entitlements.ParseLink(tags)) == GrantLinkProblem(tags)
  {
    ReadersFail(tags, "status");
    ReadersFail(tags, "e");
  }

  /** A grant event is refused for its first problem, and read when it has none. */
  lemma GrantRefusedFor(event: Event)
    ensures ErrorOf(Entitlements.ParseEntitlementEvent(event)) == GrantProblem(event)
  {
    GrantPartsFail(event.tags);
    GrantLinkFails(event.tags);
  }

  // ---------- authorizations ----------

  ghost function AuthorizationProblem(event: Event): Problem {
    var tags := event.tags;
    Then(Check(event.kind == 30406, WrongKind(30406, event.kind)),
    Then(Check(event.verified, InvalidSignature),
    Then(Authorization.UnknownTag(tags),
    Then(TermsProblem(tags, event.pubkey),
    Then(TransitionProblem(tags),
    Check(TextOf(tags, "status") == "active" ==> StartsBy(tags, event.createdAt), MalformedTag("valid_from")))))))
  }

  predicate StartsBy(tags: seq<Tag>, createdAt: u64) {
    var start := ParseU64(TextOf(tags, "valid_from"));
    start != None && createdAt <= start.value
  }

  ghost function TermsProblem(tags: seq<Tag>, pubkey: PublicKey): Problem {
    Then(Needed(tags, "d"),
    Then(Needed(tags, "a"),
    Then(Check(CoordinatePublisher(TextOf(tags, "a")) == Some(pubkey), WrongPublisher),
    Then(NeededHex(tags, "p"),
    Then(NeededHex(tags, "fulfillment_pubkey"),
    Then(CapabilityProblem(tags), NeededNumber(tags, "valid_from")))))))
  }

  /** Capability tags are pairs without repetition; there is one, and one is known. */
  ghost function CapabilityProblem(tags: seq<Tag>): Problem {
    var found := Named(tags, "capability");
    if !((forall tag :: tag in found ==> |tag| == 2 && tag[1] != "") && Distinct(found)) then
      Some(MalformedTag("capability"))
    else if found == [] then Some(MissingTag("capability"))
    else
      Check(
        exists tag :: tag in found && tag[1] in ["issue_receipt", "issue_grant", "upload_build"],
        MalformedTag("capability"))
  }

  function TransitionProblem(tags: seq<Tag>): Problem {
    var status := TextOf(tags, "status");
    Then(Needed(tags, "status"),
    Then(OptionalHex(tags, "e"),
    if status == "active" then Check(Named(tags, "e") == [], ForbiddenTag("e"))
    else if status == "cancelled" then Check(Named(tags, "e") != [], MissingTag("e"))
    else Some(MalformedTag("status"))))
  }

  /** The first tag without a name, or with a name no authorization may carry, is what is refused. */
  lemma {:induction false} UnknownTagIsFirst(tags: seq<Tag>)
    ensures forall error :: Authorization.UnknownTag(tags) == Some(error) ==>
      exists i :: 0 <= i < |tags| && IsUnknown(tags[i], error)
        && forall j :: 0 <= j < i ==> Authorization.IsAllowed(tags[j])
  {
    if tags != [] && Authorization.IsAllowed(tags[0]) {
      UnknownTagIsFirst(tags[1..]);
      if error :| Authorization.UnknownTag(tags[1..]) == Some(error) {
        var i :| 0 <= i < |tags[1..]| && IsUnknown(tags[1..][i], error)
          && forall j :: 0 <= j < i ==> Authorization.IsAllowed(tags[1..][j]);
        assert tags[i + 1] == tags[1..][i];
        assert forall j :: 0 < j < i + 1 ==> tags[j] == tags[1..][j - 1];
      }
    } else if tags != [] {
      assert forall error :: Authorization.UnknownTag(tags) == Some(error) ==> IsUnknown(tags[0], error);
    }
  }

  predicate IsUnknown(tag: Tag, error: ProtocolError) {
    if tag == [] then error == ForbiddenTag("tag")
    else
      && tag[0] !in ["d", "a", "p", "fulfillment_pubkey", "capability", "valid_from", "status", "e"]
      && error == ForbiddenTag(tag[0])
  }

  lemma GoodCapabilities(tags: seq<Tag>) returns (values: set<string>)
    requires forall tag :: tag in Named(tags, "capability") ==> |tag| == 2 && tag[1] != ""
    requires Distinct(Named(tags, "capability"))
    ensures Authorization.Lists(tags, values)
  {
    var found := Named(tags, "capability");
    values := set tag | tag in found && |tag| == 2 :: tag[1];
    forall c | c in values ensures ["capability", c] in found {
      var tag :| tag in found && |tag| == 2 && tag[1] == c;
      assert HasName(tag, "capability") && tag == ["capability", c];
    }
  }

  lemma CapabilitiesFail(tags: seq<Tag>)
    ensures ErrorOf(Authorization.ParseCapabilities(tags)) == CapabilityProblem(tags)
  {
    var found := Named(tags, "capability");
    if Authorization.CollectCapabilities(tags, {}).Some? {
      var read := Authorization.CollectCapabilities(tags, {}).value;
      Authorization.CollectsWhatIsListed(tags, {}, read);
      assert {} + read == read;
      ListedCapabilities(found, read, tags);
    } else if (forall tag :: tag in found ==> |tag| == 2 && tag[1] != "") && Distinct(found) {
      var values := GoodCapabilities(tags);
      assert {} + values == values;
      Authorization.CollectsWhatIsListed(tags, {}, values);
    }
  }

  lemma ListedCapabilities(found: seq<Tag>, read: set<string>, tags: seq<Tag>)
    requires Authorization.Lists(tags, read) && found == Named(tags, "capability")
    ensures found == [] <==> read == {}
    ensures (exists c :: c in read && Authorization.IsKnownCapability(c)) <==>
      exists tag :: tag in found && tag[1] in ["issue_receipt", "issue_grant", "upload_build"]
  {
    if c :| c in read && Authorization.IsKnownCapability(c) {
      assert ["capability", c] in found && ["capability", c][1] == c;
    }
    if found != [] {
      assert found[0] in found && found[0][1] in read;
    }
    if c :| c in read {
      assert ["capability", c] in found;
    }
  }

  lemma SubjectFails(tags: seq<Tag>, pubkey: PublicKey)
    ensures ErrorOf(Authorization.ParseTerms(tags, pubkey)) == TermsProblem(tags, pubkey)
    ensures TermsProblem(tags, pubkey) == None ==>
      ParseU64(TextOf(tags, "valid_from")) == Some(Authorization.ParseTerms(tags, pubkey).value.validFrom)
  {
    ReadersFail(tags, "d");
    ReadersFail(tags, "a");
    ReadersFail(tags, "p");
    ReadersFail(tags, "fulfillment_pubkey");
    CapabilitiesFail(tags);
    ReadersFail(tags, "valid_from");
  }

  lemma TransitionFails(tags: seq<Tag>)
    ensures ErrorOf(Authorization.ParseLink(tags)) == TransitionProblem(tags)
    ensures TransitionProblem(tags) == None ==>
      (Authorization.ParseLink(tags).value.1.ActiveRoot? <==> TextOf(tags, "status") == "active")
  {
    ReadersFail(tags, "status");
    ReadersFail(tags, "e");
  }

  lemma AuthorizationStages(event: Event)
    ensures
      var terms, link :=
        Authorization.ParseTerms(event.tags, event.pubkey), Authorization.ParseLink(event.tags);
      var late :=
        terms.Success? && link.Success? && link.value.1.ActiveRoot? && terms.value.validFrom < event.createdAt;
      ErrorOf(Authorization.ParseAuthorizationEvent(event)) ==
        Then(Check(event.kind == 30406, WrongKind(30406, event.kind)),
        Then(Check(event.verified, InvalidSignature),
        Then(Authorization.UnknownTag(event.tags),
        Then(ErrorOf(terms), Then(ErrorOf(link), Check(!late, MalformedTag("valid_from")))))))
  {
  }

  /** An authorization event is refused for its first problem, and read when it has none. */
  lemma AuthorizationRefusedFor(event: Event)
    ensures ErrorOf(Authorization.ParseAuthorizationEvent(event)) == AuthorizationProblem(event)
  {
    SubjectFails(event.tags, event.pubkey);
    TransitionFails(event.tags);
    AuthorizationStages(event);
  }
}
