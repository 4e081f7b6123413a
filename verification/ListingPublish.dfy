/** The listing builder itself: its checks in order, its loops over the input, and what a reader recovers. */
module ListingPublish {
  import opened Base
  import opened Text
  import opened Protocol
  import opened Listing
  import opened ListingBuilder
  import opened ListingRoundTrip

  // ---------- checks ----------

  method FindFailing<T(!new)>(ok: T -> bool, s: seq<T>) returns (r: Option<T>)
    ensures r == FirstFailing(ok, s)
  {
    var i := 0;
    while i < |s|
      invariant 0 <= i <= |s|
      invariant FirstFailing(ok, s) == FirstFailing(ok, s[i..])
    {
      if !ok(s[i]) {
        return Some(s[i]);
      }
      i := i + 1;
    }
    return None;
  }

  method FindBadPlatform(platforms: seq<string>) returns (r: Option<string>)
    ensures r == FirstBadPlatform(platforms, {})
  {
    var seen: set<string> := {};
    var i := 0;
    while i < |platforms|
      invariant 0 <= i <= |platforms|
      invariant FirstBadPlatform(platforms, {}) == FirstBadPlatform(platforms[i..], seen)
    {
      if !IsPlatformTag(platforms[i]) || platforms[i] in seen {
        return Some(platforms[i]);
      }
      seen := seen + {platforms[i]};
      i := i + 1;
    }
    return None;
  }

  /** The checks made before anything is written; a preserved tag without a name is only met while writing. */
  method CheckInput(urls: Urls, input: ListingInput) returns (problem: Option<PublishError>)
    ensures problem == Problem(urls, input.(preserved := []))
  {
    if input.priceSats > 0 && !Given(input.lud16) {
      return Some(MissingLud16);
    }
    if HasFulfillment(input) && Missing(input) != [] {
      return Some(IncompleteFulfillmentTier(Missing(input)));
    }
    var server := FindFailing(urls.http, input.servers);
    if server.Some? {
      return Some(MalformedServerUrl(server.value));
    }
    if input.acquisition.TimedAccess? && input.acquisition.startsAt >= input.acquisition.endsAt {
      return Some(InvalidTimedAccess);
    }
    var image := FindFailing((image: string) => ImageOk(urls, image), input.images);
    if image.Some? {
      return Some(MalformedImageUrl(image.value));
    }
    var platform := FindBadPlatform(input.platforms);
    if platform.Some? {
      return Some(InvalidPlatform(platform.value));
    }
    if input.fileHash.Some? && !IsSha256Hex(input.fileHash.value) {
      return Some(InvalidFileHash);
    }
    var campaign := FindFailing((campaign: CampaignInput) => CampaignOk(urls, campaign), input.campaigns);
    if campaign.Some? {
      return Some(InvalidCampaignPointer);
    }
    var reference :=
      FindFailing((reference: AuthorizationInput) => AuthorizationOk(urls, reference), input.authorizations);
    if reference.Some? {
      return Some(InvalidFulfillmentAuthorization);
    }
    if input.nip94.Some? && FromHex(input.nip94.value).None? {
      return Some(InvalidNip94EventId);
    }
    return None;
  }

  lemma PreservedComesLast(urls: Urls, input: ListingInput)
    ensures Problem(urls, input) ==
      OrElse(
        Problem(urls, input.(preserved := [])),
        if [] in input.preserved then Some(MalformedPreservedTag) else None)
  {
    var bare := input.(preserved := []);
    assert ServerProblem(urls, input) == ServerProblem(urls, bare);
    assert ImageProblem(urls, input) == ImageProblem(urls, bare);
    assert Missing(input) == Missing(bare);
  }

  // ---------- writing ----------

  method WriteValues(name: string, values: seq<string>) returns (tags: seq<Tag>)
    ensures tags == Each(Value(name), values)
  {
    tags := [];
    for i := 0 to |values|
      invariant tags == Each(Value(name), values[..i])
    {
      EachAppend(Value(name), values[..i], values[i]);
      assert values[..i + 1] == values[..i] + [values[i]];
      tags := tags + [[name, values[i]]];
    }
    assert values[..|values|] == values;
  }

  method WriteImages(images: seq<string>) returns (tags: seq<Tag>)
    ensures tags == Each(Value("image"), Filter(NonEmpty, images))
  {
    tags := [];
    for i := 0 to |images|
      invariant tags == Each(Value("image"), Filter(NonEmpty, images[..i]))
    {
      assert images[..i + 1] == images[..i] + [images[i]];
      FilterAppend(NonEmpty, images[..i], images[i]);
      if images[i] != "" {
        EachAppend(Value("image"), Filter(NonEmpty, images[..i]), images[i]);
        tags := tags + [["image", images[i]]];
      } else {
        assert Filter(NonEmpty, images[..i]) + [] == Filter(NonEmpty, images[..i]);
      }
    }
    assert images[..|images|] == images;
  }

  /** The topics already written, letter case ignored. */
  ghost function TopicKeys(topics: seq<string>): set<string> {
    if topics == [] then {"game"}
    else
      var last := Trim(topics[|topics| - 1]);
      TopicKeys(topics[..|topics| - 1]) + if last == "" then {} else {LowerAsciiString(last)}
  }

  lemma {:induction false} TopicKeysOfTrimmed(topics: seq<string>)
    ensures forall key :: key in TopicKeys(topics) <==>
      key == "game" || exists x :: x in Trimmed(topics) && LowerAsciiString(x) == key
  {
    if topics != [] {
      TopicKeysOfTrimmed(topics[..|topics| - 1]);
    }
  }

  lemma NewTopicsStep(front: seq<string>, last: string)
    ensures
      var topic, key := Trim(last), LowerAsciiString(Trim(last));
      && NewTopics(front + [last]) ==
        (if topic == "" || key in TopicKeys(front) then NewTopics(front) else NewTopics(front) + [topic])
      && TopicKeys(front + [last]) == (if topic == "" then TopicKeys(front) else TopicKeys(front) + {key})
  {
    assert (front + [last])[..|front|] == front;
    if Trim(last) == "" {
      assert Trimmed(front + [last]) == Trimmed(front);
    } else {
      assert Trimmed(front + [last]) == Trimmed(front) + [Trim(last)];
      TopicKeysOfTrimmed(front);
      UnseenAppend(LowerAsciiString, Trimmed(front), Trim(last), {"game"});
    }
  }

  function TopicTags(topics: seq<string>): seq<Tag> {
    Each(Value("t"), NewTopics(topics))
  }

  lemma TopicStep(front: seq<string>, last: string)
    ensures
      var topic, key := Trim(last), LowerAsciiString(Trim(last));
      && TopicTags(front + [last]) ==
        (if topic == "" || key in TopicKeys(front) then TopicTags(front) else TopicTags(front) + [["t", topic]])
      && TopicKeys(front + [last]) == (if topic == "" then TopicKeys(front) else TopicKeys(front) + {key})
  {
    NewTopicsStep(front, last);
    EachAppend(Value("t"), NewTopics(front), Trim(last));
  }

  method WriteTopics(topics: seq<string>) returns (tags: seq<Tag>)
    ensures tags == Each(Value("t"), NewTopics(topics))
  {
    tags := [];
    var seen := {"game"};
    for i := 0 to |topics|
      invariant tags == TopicTags(topics[..i])
      invariant seen == TopicKeys(topics[..i])
    {
      var topic := Trim(topics[i]);
      var key := LowerAsciiString(topic);
      TopicStep(topics[..i], topics[i]);
      assert topics[..i + 1] == topics[..i] + [topics[i]];
      if topic != "" {
        if key !in seen {
          tags := tags + [["t", topic]];
        }
        seen := seen + {key};
      }
    }
    assert topics[..|topics|] == topics;
  }

  method WriteCampaigns(campaigns: seq<CampaignInput>) returns (tags: seq<Tag>)
    requires forall c :: c in campaigns ==> c.root != ""
    ensures tags == Each(CampaignTag, campaigns)
  {
    tags := [];
    for i := 0 to |campaigns|
      invariant tags == Each(CampaignTag, campaigns[..i])
    {
      EachAppend(CampaignTag, campaigns[..i], campaigns[i]);
      assert campaigns[..i + 1] == campaigns[..i] + [campaigns[i]];
      assert campaigns[i] in campaigns;
      if campaigns[i].root != "" {
        var values := ["campaign", campaigns[i].root];
        if Given(campaigns[i].relayHint) {
          values := values + [campaigns[i].relayHint.value];
        }
        assert values == CampaignTag(campaigns[i]);
        tags := tags + [values];
      }
    }
    assert campaigns[..|campaigns|] == campaigns;
  }

  method WriteReferences(references: seq<AuthorizationInput>, written: set<Tag>) returns (tags: seq<Tag>)
    ensures tags == Unseen(Same, Each(AuthorizationTag, references), written)
  {
    tags := [];
    var seen := written;
    for i := 0 to |references|
      invariant tags == Unseen(Same, Each(AuthorizationTag, references[..i]), written)
      invariant forall x :: x in seen <==> x in written || x in Each(AuthorizationTag, references[..i])
    {
      var tag := AuthorizationTag(references[i]);
      ghost var before := Each(AuthorizationTag, references[..i]);
      EachAppend(AuthorizationTag, references[..i], references[i]);
      UnseenAppend(Same, before, tag, written);
      assert (exists x :: x in before && Same(x) == Same(tag)) <==> tag in before;
      assert references[..i + 1] == references[..i] + [references[i]];
      if tag !in seen {
        seen := seen + {tag};
        tags := tags + [tag];
      }
    }
    assert references[..|references|] == references;
  }

  ghost predicate NamesReferences(naming: Naming) {
    forall v: Tag :: naming(v) == Authorization <==> HasName(v, "fulfillment_authorization")
  }

  lemma StandardNames()
    ensures NamesReferences(ByName(FieldNamed))
  {
    NamesAreLabelled();
    AuthorizationNameIsUnique();
  }

  lemma KeepNothing(naming: Naming, front: seq<Tag>, kept: seq<Tag>, v: Tag)
    requires KeptFrom(naming, kept, front) && naming(v) == Authorization
    requires AuthorizationTags(naming, front + [v]) == AuthorizationTags(naming, front)
    ensures KeptFrom(naming, kept, front + [v])
  {
    forall field | field != Authorization ensures Of(naming, field, front + [v]) == Of(naming, field, front) {
      OfAppend(naming, field, front, v);
    }
  }

  lemma KeepOne(naming: Naming, front: seq<Tag>, kept: seq<Tag>, v: Tag)
    requires KeptFrom(naming, kept, front)
    requires naming(v) == Authorization ==>
             AuthorizationTags(naming, front + [v]) == AuthorizationTags(naming, front) + [v]
    requires naming(v) != Authorization ==> AuthorizationTags(naming, front + [v]) == AuthorizationTags(naming, front)
    ensures KeptFrom(naming, kept + [v], front + [v])
  {
    forall field ensures Of(naming, field, kept + [v]) ==
      if field == Authorization then AuthorizationTags(naming, front + [v]) else Of(naming, field, front + [v])
    {
      OfAppend(naming, field, front, v);
      OfAppend(naming, field, kept, v);
    }
  }

  /** The preserved tags without the authorization references that repeat an earlier one. */
  function KeptTags(naming: Naming, preserved: seq<Tag>): seq<Tag> {
    if preserved == [] then []
    else
      var front, v := preserved[..|preserved| - 1], preserved[|preserved| - 1];
      if Repeated(naming, front, v) then KeptTags(naming, front) else KeptTags(naming, front) + [v]
  }

  lemma {:induction false} KeptTagsFeedTheSame(naming: Naming, preserved: seq<Tag>)
    ensures KeptFrom(naming, KeptTags(naming, preserved), preserved)
  {
    if preserved != [] {
      var front, v := preserved[..|preserved| - 1], preserved[|preserved| - 1];
      assert preserved == front + [v];
      KeptTagsFeedTheSame(naming, front);
      AuthorizationTagsStep(naming, front, v);
      if Repeated(naming, front, v) {
        KeepNothing(naming, front, KeptTags(naming, front), v);
      } else {
        KeepOne(naming, front, KeptTags(naming, front), v);
      }
    }
  }

  /** Copies the preserved tags, dropping exact repetitions of an authorization reference; a nameless tag stops it. */
  method KeepTags(ghost naming: Naming, preserved: seq<Tag>)
    returns (r: Option<seq<Tag>>, seen: set<Tag>)
    requires NamesReferences(naming)
    ensures r.None? <==> [] in preserved
    ensures r.Some? ==> r.value == KeptTags(naming, preserved)
    ensures r.Some? ==> forall x :: x in seen <==> x in preserved && naming(x) == Authorization
  {
    var kept: seq<Tag> := [];
    seen := {};
    for i := 0 to |preserved|
      invariant forall j :: 0 <= j < i ==> preserved[j] != []
      invariant kept == KeptTags(naming, preserved[..i])
      invariant forall x :: x in seen <==> x in preserved[..i] && naming(x) == Authorization
    {
      var values := preserved[i];
      if values == [] {
        return None, {};
      }
      assert preserved[..i + 1][..i] == preserved[..i];
      var named := HasName(values, "fulfillment_authorization");
      if !(named && values in seen) {
        kept := kept + [values];
      }
      if named {
        seen := seen + {values};
      }
    }
    assert preserved[..|preserved|] == preserved;
    return Some(kept), seen;
  }

  // ---------- the builder ----------

  /** What a reader makes of the tags `signer` published: the input, around what was preserved; unread tags are carried
      over, except p-tags for the signer, which signing discards. */
  ghost predicate ReadsBackFrom(naming: Naming, urls: Urls, input: ListingInput, published: seq<Tag>,
                                signer: PublicKey) {
    && Complete(Extract(naming, urls, published)) == Success(PublishedListing(naming, urls, input))
    && Of(naming, Other, published) ==
      Signed(Of(naming, Other, input.preserved), signer) + OptionalTag("lud16", input.lud16)
  }

  /** Whoever signs the tags, they read back. */
  ghost predicate ReadsBack(naming: Naming, urls: Urls, input: ListingInput, tags: seq<Tag>) {
    forall signer :: ReadsBackFrom(naming, urls, input, Signed(tags, signer), signer)
  }

  ghost predicate MentionsAreUnread(naming: Naming) {
    forall tag :: HasName(tag, "p") ==> naming(tag) == Other
  }

  lemma OfSigned(naming: Naming, field: Field, tags: seq<Tag>, signer: PublicKey)
    requires MentionsAreUnread(naming) && field != Other
    ensures Of(naming, field, Signed(tags, signer)) == Of(naming, field, tags)
  {
    FilterFilter((tag: Tag) => naming(tag) == field, (tag: Tag) => !Mentions(tag, signer), tags);
  }

  /** Signing discards nothing the parser reads. */
  lemma SignedExtracts(naming: Naming, urls: Urls, tags: seq<Tag>, signer: PublicKey)
    requires MentionsAreUnread(naming)
    ensures Extract(naming, urls, Signed(tags, signer)) == Extract(naming, urls, tags)
  {
    OfSigned(naming, Id, tags, signer);
    OfSigned(naming, Title, tags, signer);
    OfSigned(naming, Summary, tags, signer);
    OfSigned(naming, PublishedAt, tags, signer);
    OfSigned(naming, Location, tags, signer);
    OfSigned(naming, Geohash, tags, signer);
    OfSigned(naming, Status, tags, signer);
    OfSigned(naming, Price, tags, signer);
    OfSigned(naming, Image, tags, signer);
    OfSigned(naming, Topic, tags, signer);
    OfSigned(naming, Platform, tags, signer);
    OfSigned(naming, Nip94, tags, signer);
    OfSigned(naming, Server, tags, signer);
    OfSigned(naming, FileHash, tags, signer);
    OfSigned(naming, Version, tags, signer);
    OfSigned(naming, Authorization, tags, signer);
    OfSigned(naming, Acquisition, tags, signer);
    OfSigned(naming, Campaign, tags, signer);
  }

  lemma UnreadSigned(naming: Naming, tags: seq<Tag>, signer: PublicKey)
    ensures Of(naming, Other, Signed(tags, signer)) == Signed(Of(naming, Other, tags), signer)
  {
    FilterCommutes((tag: Tag) => naming(tag) == Other, (tag: Tag) => !Mentions(tag, signer), tags);
  }

  lemma SignedAround(kept: seq<Tag>, lud16: Option<string>, signer: PublicKey)
    ensures Signed(kept + OptionalTag("lud16", lud16), signer) == Signed(kept, signer) + OptionalTag("lud16", lud16)
  {
    var keep := (tag: Tag) => !Mentions(tag, signer);
    FilterConcat(keep, kept, OptionalTag("lud16", lud16));
    FilterAll(keep, OptionalTag("lud16", lud16));
  }

  lemma SignedReadsBack(naming: Naming, urls: Urls, input: ListingInput, tags: seq<Tag>)
    requires MentionsAreUnread(naming)
    requires Complete(Extract(naming, urls, tags)) == Success(PublishedListing(naming, urls, input))
    requires Of(naming, Other, tags) == Of(naming, Other, input.preserved) + OptionalTag("lud16", input.lud16)
    ensures ReadsBack(naming, urls, input, tags)
  {
    forall signer ensures ReadsBackFrom(naming, urls, input, Signed(tags, signer), signer) {
      SignedExtracts(naming, urls, tags, signer);
      UnreadSigned(naming, tags, signer);
      SignedAround(Of(naming, Other, input.preserved), input.lud16, signer);
    }
  }

  lemma UnreadTagsAreKept(naming: Naming, p: Parts, input: ListingInput, references: seq<Tag>)
    requires Labelled(naming, p) && p == PartsOf(input, p.kept, references)
    requires KeptFrom(naming, p.kept, input.preserved)
    ensures Of(naming, Other, Flatten(p)) == Of(naming, Other, input.preserved) + OptionalTag("lud16", input.lud16)
  {
    OfFlatten(naming, p, Other);
  }

  lemma PartsPublish(table: string -> Field, urls: Urls, input: ListingInput, p: Parts)
    requires Labels(table) && urls.Valid() && Accepts(urls, input)
    requires KeptFrom(ByName(table), p.kept, input.preserved)
    requires p == PartsOf(input, p.kept, NewReferences(input, Of(ByName(table), Authorization, input.preserved)))
    ensures ReadsBack(ByName(table), urls, input, Flatten(p))
  {
    var naming := ByName(table);
    var written := Of(naming, Authorization, input.preserved);
    PartsAreLabelled(table, input, p.kept, written);
    PartsExtract(naming, urls, p);
    PartsReadBack(naming, urls, input, p.kept);
    UnreadTagsAreKept(naming, p, input, NewReferences(input, written));
    PartsComplete(naming, urls, p, input);
    SignedReadsBack(naming, urls, input, Flatten(p));
  }

  lemma PartsComplete(naming: Naming, urls: Urls, p: Parts, input: ListingInput)
    requires Extract(naming, urls, Flatten(p)) == PublishedListing(naming, urls, input)
    ensures Complete(Extract(naming, urls, Flatten(p))) == Success(PublishedListing(naming, urls, input))
  {
  }

  /** The tags the builder writes for this input. */
  function ListingTags(naming: Naming, input: ListingInput): seq<Tag> {
    Flatten(PartsOf(
      input, KeptTags(naming, input.preserved), NewReferences(input, Of(naming, Authorization, input.preserved))))
  }

  lemma TagsReadBack(urls: Urls, input: ListingInput)
    requires urls.Valid() && Accepts(urls, input)
    ensures ReadsBack(ByName(FieldNamed), urls, input, ListingTags(ByName(FieldNamed), input))
  {
    KeptTagsFeedTheSame(ByName(FieldNamed), input.preserved);
    NamesAreLabelled();
    var written := Of(ByName(FieldNamed), Authorization, input.preserved);
    var kept := KeptTags(ByName(FieldNamed), input.preserved);
    PartsPublish(FieldNamed, urls, input, PartsOf(input, kept, NewReferences(input, written)));
  }

  /** What readers make of this input once `signer` has published it: built, signed and parsed. */
  function Seen(urls: Urls, input: ListingInput, signer: PublicKey): Result<Listing, ListingError> {
    Complete(Extract(ByName(FieldNamed), urls, Signed(ListingTags(ByName(FieldNamed), input), signer)))
  }

  lemma SeenIsPublished(urls: Urls, input: ListingInput, signer: PublicKey)
    requires urls.Valid() && Accepts(urls, input)
    ensures Seen(urls, input, signer) == Success(PublishedListing(ByName(FieldNamed), urls, input))
  {
    var tags := ListingTags(ByName(FieldNamed), input);
    TagsReadBack(urls, input);
    assert ReadsBackFrom(ByName(FieldNamed), urls, input, Signed(tags, signer), signer);
  }

  lemma AcceptedIds(urls: Urls, input: ListingInput)
    requires Accepts(urls, input)
    ensures forall c :: c in input.campaigns ==> c.root != ""
  {
  }

  lemma SeenAreWritten(naming: Naming, preserved: seq<Tag>, seen: set<Tag>)
    requires forall x :: x in seen <==> x in preserved && naming(x) == Authorization
    ensures seen == ToSet(Of(naming, Authorization, preserved))
  {
  }

  /** Builds the tags of a listing, or names the first problem with the input. */
  method BuildListing(urls: Urls, input: ListingInput) returns (r: Result<seq<Tag>, PublishError>)
    requires urls.Valid()
    ensures r.Success? <==> Accepts(urls, input)
    ensures r.Failure? ==> Problem(urls, input) == Some(r.error)
    ensures r.Success? ==> r.value == ListingTags(ByName(FieldNamed), input)
    ensures r.Success? ==> ReadsBack(ByName(FieldNamed), urls, input, r.value)
  {
    NoProblemIff(urls, input);
    PreservedComesLast(urls, input);
    var problem := CheckInput(urls, input);
    if problem.Some? {
      return Failure(problem.value);
    }
    StandardNames();
    var kept, seen := KeepTags(ByName(FieldNamed), input.preserved);
    if kept.None? {
      return Failure(MalformedPreservedTag);
    }
    AcceptedIds(urls, input);
    ghost var written := Of(ByName(FieldNamed), Authorization, input.preserved);
    SeenAreWritten(ByName(FieldNamed), input.preserved, seen);
    var tags := WriteTags(input, kept.value, seen, written);
    TagsReadBack(urls, input);
    return Success(tags);
  }

  method WriteTags(input: ListingInput, kept: seq<Tag>, seen: set<Tag>, ghost written: seq<Tag>)
      returns (tags: seq<Tag>)
    requires forall c :: c in input.campaigns ==> c.root != ""
    requires seen == ToSet(written)
    ensures tags == Flatten(PartsOf(input, kept, NewReferences(input, written)))
  {
    ghost var p := PartsOf(input, kept, NewReferences(input, written));
    tags := [["d", input.dTag], ["title", input.title], ["price", Decimal(input.priceSats), "sat"], ["t", "game"]];
    assert tags == HeadTags(p);
    var media := WriteMedia(input);
    assert media == MediaTags(p);
    var fulfillment := WriteFulfillment(input, seen, written);
    assert fulfillment == FulfillmentTags(p);
    var links := WriteLinks(input);
    assert links == LinkTags(p);
    tags := tags + kept + media + fulfillment + links;
  }

  method WriteMedia(input: ListingInput) returns (tags: seq<Tag>)
    ensures tags == [AcquisitionTag(input.acquisition)] + Each(Value("image"), Filter(NonEmpty, input.images)) +
      Each(Value("t"), NewTopics(input.topics))
  {
    tags := [AcquisitionTag(input.acquisition)];
    var images := WriteImages(input.images);
    tags := tags + images;
    var topics := WriteTopics(input.topics);
    tags := tags + topics;
  }

  method WriteFulfillment(input: ListingInput, seen: set<Tag>, ghost written: seq<Tag>) returns (tags: seq<Tag>)
    requires seen == ToSet(written)
    ensures tags ==
      if HasFulfillment(input) then
        Each(Value("server"), input.servers) + [["file_hash", GetOr(input.fileHash, "")]] +
        [["version", GetOr(input.version, "")]] + NewReferences(input, written)
      else []
  {
    tags := [];
    if HasFulfillment(input) {
      tags := WriteValues("server", input.servers);
      tags := tags + [["file_hash", GetOr(input.fileHash, "")]];
      tags := tags + [["version", GetOr(input.version, "")]];
      var references := WriteReferences(input.authorizations, seen);
      tags := tags + references;
    }
  }

  method WriteLinks(input: ListingInput) returns (tags: seq<Tag>)
    requires forall c :: c in input.campaigns ==> c.root != ""
    ensures tags == OptionalTag("lud16", input.lud16) + Each(Value("platform"), input.platforms) +
      Each(CampaignTag, input.campaigns) + OptionalTag("nip94", input.nip94)
  {
    tags := [];
    if Given(input.lud16) {
      tags := tags + [["lud16", input.lud16.value]];
    }
    var platforms := WriteValues("platform", input.platforms);
    tags := tags + platforms;
    var campaigns := WriteCampaigns(input.campaigns);
    tags := tags + campaigns;
    if Given(input.nip94) {
      tags := tags + [["nip94", input.nip94.value]];
    }
  }

  // ---------- consequences ----------

  /** Preserved tags the parser leaves alone, and authorization references. */
  ghost predicate OnlyReferences(naming: Naming, preserved: seq<Tag>) {
    forall tag :: tag in preserved ==> naming(tag) == Other || naming(tag) == Authorization
  }

  lemma NothingPreserved(naming: Naming, preserved: seq<Tag>)
    requires OnlyReferences(naming, preserved)
    ensures forall field :: field != Other && field != Authorization ==> Of(naming, field, preserved) == []
  {
    forall field | field != Other && field != Authorization ensures Of(naming, field, preserved) == [] {
      FilterNone((tag: Tag) => naming(tag) == field, preserved);
    }
  }

  lemma ReferencesExtract(naming: Naming, urls: Urls, preserved: seq<Tag>)
    requires OnlyReferences(naming, preserved)
    ensures Extract(naming, urls, preserved) == BLANK.(
      authorizations := Collect(ReadAuthorization(urls), AuthorizationTags(naming, preserved)),
      malformedAuthorizations := Collect(Malformed(urls), AuthorizationTags(naming, preserved)))
  {
    NothingPreserved(naming, preserved);
  }

  lemma OverlayOnBlank(urls: Urls, p: Listing, references: seq<Tag>, input: ListingInput)
    requires p == BLANK.(authorizations := p.authorizations, malformedAuthorizations := p.malformedAuthorizations)
    ensures Overlay(urls, p, false, references, input) == Listing(
      Some(input.dTag), Some(input.title), None, None, None, None, None,
      Some(Decimal(input.priceSats)), Some("sat"), None,
      Filter(NonEmpty, input.images), ["game"] + NewTopics(input.topics), input.platforms, input.nip94,
      input.servers, input.fileHash, Declared(input.version),
      Collect(ReadAuthorization(urls), references), p.malformedAuthorizations,
      input.acquisition, Pointers(input.campaigns))
  {
    assert p.images + Filter(NonEmpty, input.images) == Filter(NonEmpty, input.images);
    assert ["game"] + p.topics == ["game"];
    assert p.platforms + input.platforms == input.platforms && p.servers + input.servers == input.servers;
    assert p.campaigns + Pointers(input.campaigns) == Pointers(input.campaigns);
  }

  lemma OverlaidOnReferences(naming: Naming, urls: Urls, input: ListingInput)
    requires OnlyReferences(naming, input.preserved)
    ensures
      var references := Of(naming, Authorization, input.preserved);
      PublishedListing(naming, urls, input) == Listing(
        Some(input.dTag), Some(input.title), None, None, None, None, None,
        Some(Decimal(input.priceSats)), Some("sat"), None,
        Filter(NonEmpty, input.images), ["game"] + NewTopics(input.topics), input.platforms, input.nip94,
        input.servers, input.fileHash, Declared(input.version),
        Collect(ReadAuthorization(urls), Dedup(Same, references + Each(AuthorizationTag, input.authorizations))),
        Collect(Malformed(urls), Dedup(Same, references)),
        input.acquisition, Pointers(input.campaigns))
  {
    ReferencesExtract(naming, urls, input.preserved);
    NothingPreserved(naming, input.preserved);
    var references := Of(naming, Authorization, input.preserved);
    OverlayOnBlank(
      urls, Extract(naming, urls, input.preserved),
      Dedup(Same, references + Each(AuthorizationTag, input.authorizations)), input);
  }

  /** Without preserved tags that the parser would read, the listing built, signed and parsed is the input and nothing
      else. */
  lemma InputIsRecovered(urls: Urls, input: ListingInput, signer: PublicKey)
    requires urls.Valid() && Accepts(urls, input) && OnlyReferences(ByName(FieldNamed), input.preserved)
    ensures
      var references := Of(ByName(FieldNamed), Authorization, input.preserved);
      Seen(urls, input, signer) == Success(Listing(
        Some(input.dTag), Some(input.title), None, None, None, None, None,
        Some(Decimal(input.priceSats)), Some("sat"), None,
        Filter(NonEmpty, input.images), ["game"] + NewTopics(input.topics), input.platforms, input.nip94,
        input.servers, input.fileHash, Declared(input.version),
        Collect(ReadAuthorization(urls), Dedup(Same, references + Each(AuthorizationTag, input.authorizations))),
        Collect(Malformed(urls), Dedup(Same, references)),
        input.acquisition, Pointers(input.campaigns)))
  {
    SeenIsPublished(urls, input, signer);
    OverlaidOnReferences(ByName(FieldNamed), urls, input);
  }

  // ---------- when preserved tags win ----------

  /** What was preserved does not speak, or says the same. */
  predicate Yields<T(==)>(preserved: Option<T>, own: Option<T>) {
    preserved.None? || preserved == own
  }

  /** Every policy tag reads as some policy, gated if nothing else. */
  lemma PolicyIsReadIff(tags: seq<Tag>)
    ensures First(ReadAcquisition, tags).None? <==> tags == []
  {
  }

  /** Readers see the input's own policy, release file, file hash and version exactly when the preserved tags hold no
      value for it, or the same one; and a frequency of the price only when a preserved price tag has one. */
  lemma OwnValuesAreSeenIff(urls: Urls, input: ListingInput, signer: PublicKey)
    requires urls.Valid() && Accepts(urls, input)
    ensures Seen(urls, input, signer).Success?
    ensures
      var seen := Seen(urls, input, signer).value;
      var was := (field: Field) => Of(ByName(FieldNamed), field, input.preserved);
      && (seen.acquisition == input.acquisition <==>
            Yields(First(ReadAcquisition, was(Acquisition)), Some(input.acquisition)))
      && (seen.nip94 == input.nip94 <==> Yields(First(At(1), was(Nip94)), input.nip94))
      && (seen.fileHash == input.fileHash <==> Yields(First(Nonempty, was(FileHash)), input.fileHash))
      && (seen.version == Declared(input.version) <==> Yields(First(Nonempty, was(Version)), Declared(input.version)))
      && seen.priceFrequency == First(At(3), was(Price))
  {
    SeenIsPublished(urls, input, signer);
    PolicyIsReadIff(Of(ByName(FieldNamed), Acquisition, input.preserved));
  }

  lemma {:induction false} TrimmedMembers(topics: seq<string>)
    ensures "" !in Trimmed(topics)
    ensures forall t :: t in topics && Trim(t) != "" ==> Trim(t) in Trimmed(topics)
  {
    if topics != [] {
      var front, last := topics[..|topics| - 1], topics[|topics| - 1];
      TrimmedMembers(front);
      assert topics == front + [last];
    }
  }

  /** `t` is how entry `i` spells its topic, and no entry before it spells the same topic in any letter case. */
  predicate FirstSpelling(topics: seq<string>, i: nat, t: string) {
    && i < |topics| && Trim(topics[i]) == t
    && forall j :: 0 <= j < i ==> Trim(topics[j]) == "" || LowerAsciiString(Trim(topics[j])) != LowerAsciiString(t)
  }

  lemma {:induction false} ListedInFirstSpelling(topics: seq<string>, t: string)
    requires t in NewTopics(topics)
    ensures exists i :: FirstSpelling(topics, i, t)
  {
    assert topics != [];
    var front, last := topics[..|topics| - 1], topics[|topics| - 1];
    assert topics == front + [last];
    NewTopicsStep(front, last);
    if t in NewTopics(front) {
      ListedInFirstSpelling(front, t);
      var i :| FirstSpelling(front, i, t);
      assert forall j :: 0 <= j < |front| ==> topics[j] == front[j];
      assert FirstSpelling(topics, i, t);
    } else {
      TopicKeysOfTrimmed(front);
      TrimmedMembers(front);
      forall j | 0 <= j < |front|
        ensures Trim(topics[j]) == "" || LowerAsciiString(Trim(topics[j])) != LowerAsciiString(t)
      {
        assert topics[j] == front[j] && front[j] in front;
      }
      assert FirstSpelling(topics, |front|, t);
    }
  }

  /** Every topic that is not blank is listed, once, in its first spelling. */
  lemma TopicsAreListedOnce(topics: seq<string>)
    ensures DistinctKeys(LowerAsciiString, NewTopics(topics))
    ensures forall t :: t in NewTopics(topics) ==> t != "" && LowerAsciiString(t) != "game"
    ensures forall t :: t in NewTopics(topics) ==> exists i :: FirstSpelling(topics, i, t)
    ensures forall i :: 0 <= i < |topics| && Trim(topics[i]) != "" && LowerAsciiString(Trim(topics[i])) != "game" ==>
      exists t :: t in NewTopics(topics) && LowerAsciiString(t) == LowerAsciiString(Trim(topics[i]))
  {
    UnseenDistinct(LowerAsciiString, Trimmed(topics), {"game"});
    TrimmedMembers(topics);
    forall t | t in NewTopics(topics) ensures exists i :: FirstSpelling(topics, i, t) {
      ListedInFirstSpelling(topics, t);
    }
    forall i | 0 <= i < |topics| && Trim(topics[i]) != "" && LowerAsciiString(Trim(topics[i])) != "game"
      ensures exists t :: t in NewTopics(topics) && LowerAsciiString(t) == LowerAsciiString(Trim(topics[i]))
    {
      UnseenCovers(LowerAsciiString, Trimmed(topics), {"game"}, Trim(topics[i]));
    }
  }
}
