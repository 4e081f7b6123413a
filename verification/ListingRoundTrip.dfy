/** Publishing a listing and parsing it again: the parser recovers the input around what was preserved. */
module ListingRoundTrip {
  import opened Base
  import opened Text
  import opened Protocol
  import opened Listing
  import opened ListingBuilder

  function Declared(text: Option<string>): Option<string> {
    if Given(text) then text else None
  }

  function Pointer(campaign: CampaignInput): Option<CampaignPointer> {
    match FromHex(campaign.root)
    case None => None
    case Some(root) => Some(CampaignPointer(root, campaign.relayHint))
  }

  function Pointers(campaigns: seq<CampaignInput>): seq<CampaignPointer> {
    if campaigns == [] then [] else ToList(Pointer(campaigns[0])) + Pointers(campaigns[1..])
  }

  /** The input laid over the listing `p` that the preserved tags describe: single values in `p` come first. */
  function Overlay(urls: Urls, p: Listing, acquisitionKept: bool, references: seq<Tag>, input: ListingInput): Listing {
    Listing(
      Some(input.dTag), Some(input.title), p.summary, p.publishedAt, p.location, p.geohash, p.status,
      Some(Decimal(input.priceSats)), Some("sat"), p.priceFrequency,
      p.images + Filter(NonEmpty, input.images),
      ["game"] + p.topics + NewTopics(input.topics),
      p.platforms + input.platforms,
      OrElse(p.nip94, input.nip94),
      p.servers + input.servers,
      OrElse(p.fileHash, input.fileHash),
      OrElse(p.version, Declared(input.version)),
      Collect(ReadAuthorization(urls), references),
      p.malformedAuthorizations,
      if acquisitionKept then p.acquisition else input.acquisition,
      p.campaigns + Pointers(input.campaigns))
  }

  /** The listing a reader sees. */
  function PublishedListing(naming: Naming, urls: Urls, input: ListingInput): Listing {
    Overlay(
      urls, Extract(naming, urls, input.preserved), Of(naming, Acquisition, input.preserved) != [],
      Dedup(Same, Of(naming, Authorization, input.preserved) + Each(AuthorizationTag, input.authorizations)), input)
  }

  /** What survives of the preserved tags: everything but exact repetitions of an authorization reference. */
  ghost predicate KeptFrom(naming: Naming, kept: seq<Tag>, preserved: seq<Tag>) {
    forall field :: Of(naming, field, kept) ==
      if field == Authorization then AuthorizationTags(naming, preserved) else Of(naming, field, preserved)
  }

  // ---------- what feeds each field of a published listing ----------

  function Fed(naming: Naming, p: Parts, field: Field): seq<Tag> {
    Before(p, field) + Of(naming, field, p.kept) + After(p, field)
  }

  lemma FirstFed<T>(read: Tag -> Option<T>, naming: Naming, p: Parts, field: Field)
    ensures First(read, Fed(naming, p, field)) ==
      OrElse(First(read, Before(p, field)),
        OrElse(First(read, Of(naming, field, p.kept)), First(read, After(p, field))))
  {
    FirstConcat(read, Before(p, field) + Of(naming, field, p.kept), After(p, field));
    FirstConcat(read, Before(p, field), Of(naming, field, p.kept));
  }

  lemma CollectFed<T>(read: Tag -> Option<T>, naming: Naming, p: Parts, field: Field)
    ensures Collect(read, Fed(naming, p, field)) ==
      Collect(read, Before(p, field)) + Collect(read, Of(naming, field, p.kept)) + Collect(read, After(p, field))
  {
    CollectConcat(read, Before(p, field) + Of(naming, field, p.kept), After(p, field));
    CollectConcat(read, Before(p, field), Of(naming, field, p.kept));
  }

  function ExtractParts(naming: Naming, urls: Urls, p: Parts): Listing {
    var references := Dedup(Same, Fed(naming, p, Authorization));
    Listing(
      First(At(1), Fed(naming, p, Id)),
      First(At(1), Fed(naming, p, Title)),
      First(At(1), Fed(naming, p, Summary)),
      First(Published, Fed(naming, p, PublishedAt)),
      First(At(1), Fed(naming, p, Location)),
      First(At(1), Fed(naming, p, Geohash)),
      First(At(1), Fed(naming, p, Status)),
      First(At(1), Fed(naming, p, Price)),
      First(At(2), Fed(naming, p, Price)),
      First(At(3), Fed(naming, p, Price)),
      Collect(At(1), Fed(naming, p, Image)),
      Collect(At(1), Fed(naming, p, Topic)),
      Collect(At(1), Fed(naming, p, Platform)),
      First(At(1), Fed(naming, p, Nip94)),
      Collect(Nonempty, Fed(naming, p, Server)),
      First(Nonempty, Fed(naming, p, FileHash)),
      First(Nonempty, Fed(naming, p, Version)),
      Collect(ReadAuthorization(urls), references),
      Collect(Malformed(urls), references),
      GetOr(First(ReadAcquisition, Fed(naming, p, Acquisition)), Gated),
      Collect(ReadCampaign(urls), Fed(naming, p, Campaign)))
  }

  lemma PartsExtract(naming: Naming, urls: Urls, p: Parts)
    requires Labelled(naming, p)
    ensures Extract(naming, urls, Flatten(p)) == ExtractParts(naming, urls, p)
  {
    OfFlatten(naming, p, Id);
    OfFlatten(naming, p, Title);
    OfFlatten(naming, p, Summary);
    OfFlatten(naming, p, PublishedAt);
    OfFlatten(naming, p, Location);
    OfFlatten(naming, p, Geohash);
    OfFlatten(naming, p, Status);
    OfFlatten(naming, p, Price);
    OfFlatten(naming, p, Image);
    OfFlatten(naming, p, Topic);
    OfFlatten(naming, p, Platform);
    OfFlatten(naming, p, Nip94);
    OfFlatten(naming, p, Server);
    OfFlatten(naming, p, FileHash);
    OfFlatten(naming, p, Version);
    OfFlatten(naming, p, Authorization);
    OfFlatten(naming, p, Acquisition);
    OfFlatten(naming, p, Campaign);
  }

  // ---------- references ----------

  lemma DedupKeepsOrder(preserved: seq<Tag>, written: seq<Tag>)
    ensures Dedup(Same, preserved + written) == Dedup(Same, preserved) + Unseen(Same, written, ToSet(preserved))
    ensures Dedup(Same, Dedup(Same, preserved + written)) == Dedup(Same, preserved + written)
  {
    assert forall k :: (exists x :: x in preserved && Same(x) == k) <==> k in preserved;
    UnseenConcat(Same, preserved, written, {}, ToSet(preserved));
    DedupDistinct(Same, preserved + written);
    UnseenOfDistinct(Same, Dedup(Same, preserved + written), {});
  }

  lemma ReferenceIsReadable(urls: Urls, reference: AuthorizationInput)
    requires urls.Valid() && AuthorizationOk(urls, reference)
    ensures ReadAuthorization(urls)(AuthorizationTag(reference)) == Some(AuthorizationReference(
      FromHex(reference.root).value, FromHex(reference.fulfillment).value, reference.relayHint))
  {
  }

  lemma {:induction false} NoneMalformed(urls: Urls, tags: seq<Tag>)
    requires forall tag :: tag in tags ==> ReadAuthorization(urls)(tag).Some?
    ensures Collect(Malformed(urls), tags) == []
  {
    if tags != [] {
      assert tags[0] in tags && forall tag :: tag in tags[1..] ==> tag in tags;
      NoneMalformed(urls, tags[1..]);
    }
  }

  lemma {:induction false} WrittenReferences(urls: Urls, references: seq<AuthorizationInput>)
    requires urls.Valid() && forall r :: r in references ==> AuthorizationOk(urls, r)
    ensures forall tag :: tag in Each(AuthorizationTag, references) ==> ReadAuthorization(urls)(tag).Some?
  {
    if references != [] {
      assert references[0] in references && forall r :: r in references[1..] ==> r in references;
      ReferenceIsReadable(urls, references[0]);
      WrittenReferences(urls, references[1..]);
    }
  }

  lemma WrittenAreWellFormed(urls: Urls, references: seq<AuthorizationInput>, before: seq<Tag>)
    requires urls.Valid() && forall r :: r in references ==> AuthorizationOk(urls, r)
    ensures Collect(Malformed(urls), Unseen(Same, Each(AuthorizationTag, references), ToSet(before))) == []
  {
    WrittenReferences(urls, references);
    NoneMalformed(urls, Unseen(Same, Each(AuthorizationTag, references), ToSet(before)));
  }

  lemma FedReferences(naming: Naming, p: Parts, preserved: seq<Tag>, written: seq<Tag>)
    requires KeptFrom(naming, p.kept, preserved)
    requires p.references == Unseen(Same, written, ToSet(Of(naming, Authorization, preserved)))
    ensures Fed(naming, p, Authorization) == Dedup(Same, Of(naming, Authorization, preserved) + written)
  {
    DedupKeepsOrder(Of(naming, Authorization, preserved), written);
  }

  /** The references a reader finds: the preserved ones, then the new ones, each exact text once. */
  lemma ReferencesReadBack(naming: Naming, urls: Urls, p: Parts, preserved: seq<Tag>,
                           references: seq<AuthorizationInput>)
    requires KeptFrom(naming, p.kept, preserved)
    requires p.references ==
             Unseen(Same, Each(AuthorizationTag, references), ToSet(Of(naming, Authorization, preserved)))
    requires urls.Valid() && forall r :: r in references ==> AuthorizationOk(urls, r)
    ensures
      var fed := Dedup(Same, Fed(naming, p, Authorization));
      && fed == Dedup(Same, Of(naming, Authorization, preserved) + Each(AuthorizationTag, references))
      && Collect(Malformed(urls), fed) == Collect(Malformed(urls), AuthorizationTags(naming, preserved))
  {
    var before, written := Of(naming, Authorization, preserved), Each(AuthorizationTag, references);
    FedReferences(naming, p, preserved, written);
    DedupKeepsOrder(before, written);
    WrittenAreWellFormed(urls, references, before);
    CollectConcat(Malformed(urls), Dedup(Same, before), Unseen(Same, written, ToSet(before)));
  }

  // ---------- field by field ----------

  lemma TitleReadsBack(naming: Naming, p: Parts)
    ensures |p.identifier| > 1 ==> First(At(1), Fed(naming, p, Id)) == Some(p.identifier[1])
    ensures |p.title| > 1 ==> First(At(1), Fed(naming, p, Title)) == Some(p.title[1])
  {
    FirstFed(At(1), naming, p, Id);
    ReadSingle(At(1), p.identifier);
    FirstFed(At(1), naming, p, Title);
    ReadSingle(At(1), p.title);
  }

  lemma PriceReadsBack(naming: Naming, p: Parts, preserved: seq<Tag>)
    requires KeptFrom(naming, p.kept, preserved) && |p.price| == 3
    ensures First(At(1), Fed(naming, p, Price)) == Some(p.price[1])
    ensures First(At(2), Fed(naming, p, Price)) == Some(p.price[2])
    ensures First(At(3), Fed(naming, p, Price)) == First(At(3), Of(naming, Price, preserved))
  {
    FirstFed(At(1), naming, p, Price);
    ReadSingle(At(1), p.price);
    FirstFed(At(2), naming, p, Price);
    ReadSingle(At(2), p.price);
    FirstFed(At(3), naming, p, Price);
    ReadSingle(At(3), p.price);
  }

  /** No part is written for these fields: only preserved tags feed them. */
  lemma PreservedOnly(naming: Naming, p: Parts, preserved: seq<Tag>, field: Field)
    requires KeptFrom(naming, p.kept, preserved)
    requires field == Summary || field == PublishedAt || field == Location || field == Geohash || field == Status
    ensures Fed(naming, p, field) == Of(naming, field, preserved)
  {
  }

  lemma ValuesReadBack(name: string, values: seq<string>)
    ensures Collect(At(1), Each(Value(name), values)) == values
    ensures "" !in values ==> Collect(Nonempty, Each(Value(name), values)) == values
  {
    CollectEach(At(1), Value(name), values, values);
    if "" !in values {
      CollectEach(Nonempty, Value(name), values, values);
    }
  }

  lemma Appended<T>(read: Tag -> Option<T>, naming: Naming, p: Parts, preserved: seq<Tag>, field: Field,
                    written: seq<Tag>)
    requires KeptFrom(naming, p.kept, preserved) && field != Authorization
    requires Before(p, field) == [] && After(p, field) == written
    ensures Collect(read, Fed(naming, p, field)) == Collect(read, Of(naming, field, preserved)) + Collect(read, written)
    ensures First(read, Fed(naming, p, field)) ==
            OrElse(First(read, Of(naming, field, preserved)), First(read, written))
  {
    assert Fed(naming, p, field) == Of(naming, field, preserved) + written;
    CollectConcat(read, Of(naming, field, preserved), written);
    FirstConcat(read, Of(naming, field, preserved), written);
  }

  lemma ImagesReadBack(naming: Naming, p: Parts, preserved: seq<Tag>, values: seq<string>)
    requires KeptFrom(naming, p.kept, preserved) && p.images == Each(Value("image"), values)
    ensures Collect(At(1), Fed(naming, p, Image)) == Collect(At(1), Of(naming, Image, preserved)) + values
  {
    Appended(At(1), naming, p, preserved, Image, p.images);
    ValuesReadBack("image", values);
  }

  lemma TopicsReadBack(naming: Naming, p: Parts, preserved: seq<Tag>, values: seq<string>)
    requires KeptFrom(naming, p.kept, preserved) && p.game == ["t", "game"] && p.topics == Each(Value("t"), values)
    ensures Collect(At(1), Fed(naming, p, Topic)) == ["game"] + Collect(At(1), Of(naming, Topic, preserved)) + values
  {
    CollectFed(At(1), naming, p, Topic);
    ReadSingle(At(1), p.game);
    ValuesReadBack("t", values);
  }

  lemma PlatformsReadBack(naming: Naming, p: Parts, preserved: seq<Tag>, values: seq<string>)
    requires KeptFrom(naming, p.kept, preserved) && p.platforms == Each(Value("platform"), values)
    ensures Collect(At(1), Fed(naming, p, Platform)) == Collect(At(1), Of(naming, Platform, preserved)) + values
  {
    Appended(At(1), naming, p, preserved, Platform, p.platforms);
    ValuesReadBack("platform", values);
  }

  lemma ServersReadBack(naming: Naming, p: Parts, preserved: seq<Tag>, values: seq<string>)
    requires KeptFrom(naming, p.kept, preserved) && p.servers == Each(Value("server"), values) && "" !in values
    ensures Collect(Nonempty, Fed(naming, p, Server)) == Collect(Nonempty, Of(naming, Server, preserved)) + values
  {
    Appended(Nonempty, naming, p, preserved, Server, p.servers);
    ValuesReadBack("server", values);
  }

  lemma FileHashReadsBack(naming: Naming, p: Parts, preserved: seq<Tag>, value: Option<string>)
    requires KeptFrom(naming, p.kept, preserved)
    requires p.fileHash == OptionalTag("file_hash", value) && value != Some("")
    ensures First(Nonempty, Fed(naming, p, FileHash)) == OrElse(First(Nonempty, Of(naming, FileHash, preserved)), value)
  {
    Appended(Nonempty, naming, p, preserved, FileHash, p.fileHash);
    OptionalReadsBack(Nonempty, "file_hash", value);
  }

  lemma VersionReadsBack(naming: Naming, p: Parts, preserved: seq<Tag>, value: Option<string>)
    requires KeptFrom(naming, p.kept, preserved)
    requires p.version == OptionalTag("version", value) && value != Some("")
    ensures First(Nonempty, Fed(naming, p, Version)) == OrElse(First(Nonempty, Of(naming, Version, preserved)), value)
  {
    Appended(Nonempty, naming, p, preserved, Version, p.version);
    OptionalReadsBack(Nonempty, "version", value);
  }

  lemma Nip94ReadsBack(naming: Naming, p: Parts, preserved: seq<Tag>, value: Option<string>)
    requires KeptFrom(naming, p.kept, preserved)
    requires p.nip94 == OptionalTag("nip94", value) && value != Some("")
    ensures First(At(1), Fed(naming, p, Nip94)) == OrElse(First(At(1), Of(naming, Nip94, preserved)), value)
  {
    Appended(At(1), naming, p, preserved, Nip94, p.nip94);
    OptionalReadsBack(At(1), "nip94", value);
  }

  lemma OptionalReadsBack(read: Tag -> Option<string>, name: string, value: Option<string>)
    requires value != Some("") && (value.Some? ==> read([name, value.value]) == value)
    ensures First(read, OptionalTag(name, value)) == value
  {
    if value.Some? {
      ReadSingle(read, [name, value.value]);
    }
  }

  lemma PolicyIsReadable(policy: AcquisitionPolicy)
    requires policy.TimedAccess? ==> policy.startsAt < policy.endsAt
    ensures ReadAcquisition(AcquisitionTag(policy)) == Some(policy)
  {
    if policy.TimedAccess? {
      ParseDigits(Decimal(policy.startsAt));
      ParseDigits(Decimal(policy.endsAt));
    }
  }

  /** A preserved acquisition tag comes first; without one, the policy reads back. */
  lemma AcquisitionReadsBack(naming: Naming, p: Parts, preserved: seq<Tag>, policy: AcquisitionPolicy)
    requires KeptFrom(naming, p.kept, preserved) && p.acquisition == AcquisitionTag(policy)
    requires policy.TimedAccess? ==> policy.startsAt < policy.endsAt
    ensures GetOr(First(ReadAcquisition, Fed(naming, p, Acquisition)), Gated) ==
      if Of(naming, Acquisition, preserved) == [] then policy
      else GetOr(First(ReadAcquisition, Of(naming, Acquisition, preserved)), Gated)
  {
    Appended(ReadAcquisition, naming, p, preserved, Acquisition, [p.acquisition]);
    PolicyIsReadable(policy);
    ReadSingle(ReadAcquisition, p.acquisition);
  }

  lemma CampaignIsReadable(urls: Urls, campaign: CampaignInput)
    requires urls.Valid() && CampaignOk(urls, campaign)
    ensures ReadCampaign(urls)(CampaignTag(campaign)) == Pointer(campaign)
  {
  }

  lemma {:induction false} WrittenCampaigns(urls: Urls, campaigns: seq<CampaignInput>)
    requires urls.Valid() && forall c :: c in campaigns ==> CampaignOk(urls, c)
    ensures Collect(ReadCampaign(urls), Each(CampaignTag, campaigns)) == Pointers(campaigns)
  {
    if campaigns != [] {
      assert campaigns[0] in campaigns && forall c :: c in campaigns[1..] ==> c in campaigns;
      CampaignIsReadable(urls, campaigns[0]);
      WrittenCampaigns(urls, campaigns[1..]);
      assert Each(CampaignTag, campaigns)[1..] == Each(CampaignTag, campaigns[1..]);
    }
  }

  lemma CampaignsReadBack(naming: Naming, urls: Urls, p: Parts, preserved: seq<Tag>, campaigns: seq<CampaignInput>)
    requires KeptFrom(naming, p.kept, preserved) && p.campaigns == Each(CampaignTag, campaigns)
    requires urls.Valid() && forall c :: c in campaigns ==> CampaignOk(urls, c)
    ensures Collect(ReadCampaign(urls), Fed(naming, p, Campaign)) ==
      Collect(ReadCampaign(urls), Of(naming, Campaign, preserved)) + Pointers(campaigns)
  {
    Appended(ReadCampaign(urls), naming, p, preserved, Campaign, p.campaigns);
    WrittenCampaigns(urls, campaigns);
  }

  // ---------- the round trip ----------

  lemma AcceptedTexts(urls: Urls, input: ListingInput)
    requires urls.Valid() && Accepts(urls, input)
    ensures input.fileHash != Some("") && input.nip94 != Some("") && "" !in input.servers
    ensures input.acquisition.TimedAccess? ==> input.acquisition.startsAt < input.acquisition.endsAt
    ensures forall c :: c in input.campaigns ==> CampaignOk(urls, c)
  {
  }

  lemma AcceptedTier(urls: Urls, input: ListingInput, kept: seq<Tag>, references: seq<Tag>)
    requires urls.Valid() && Accepts(urls, input)
    ensures
      var p := PartsOf(input, kept, references);
      && p.servers == Each(Value("server"), input.servers)
      && p.fileHash == OptionalTag("file_hash", input.fileHash)
      && p.version == OptionalTag("version", Declared(input.version))
  {
  }

  lemma AcceptedReferences(urls: Urls, input: ListingInput, kept: seq<Tag>, written: seq<Tag>)
    requires Accepts(urls, input)
    ensures PartsOf(input, kept, NewReferences(input, written)).references == NewReferences(input, written)
    ensures forall r :: r in input.authorizations ==> AuthorizationOk(urls, r)
  {
  }

  lemma MediaReadBack(naming: Naming, p: Parts, input: ListingInput, references: seq<Tag>)
    requires p == PartsOf(input, p.kept, references) && KeptFrom(naming, p.kept, input.preserved)
    ensures Collect(At(1), Fed(naming, p, Image)) ==
      Collect(At(1), Of(naming, Image, input.preserved)) + Filter(NonEmpty, input.images)
    ensures Collect(At(1), Fed(naming, p, Topic)) ==
      ["game"] + Collect(At(1), Of(naming, Topic, input.preserved)) + NewTopics(input.topics)
    ensures Collect(At(1), Fed(naming, p, Platform)) ==
      Collect(At(1), Of(naming, Platform, input.preserved)) + input.platforms
  {
    ImagesReadBack(naming, p, input.preserved, Filter(NonEmpty, input.images));
    TopicsReadBack(naming, p, input.preserved, NewTopics(input.topics));
    PlatformsReadBack(naming, p, input.preserved, input.platforms);
  }

  lemma FulfillmentReadsBack(naming: Naming, urls: Urls, p: Parts, input: ListingInput, references: seq<Tag>)
    requires p == PartsOf(input, p.kept, references) && KeptFrom(naming, p.kept, input.preserved)
    requires urls.Valid() && Accepts(urls, input)
    ensures Collect(Nonempty, Fed(naming, p, Server)) ==
      Collect(Nonempty, Of(naming, Server, input.preserved)) + input.servers
    ensures First(Nonempty, Fed(naming, p, FileHash)) ==
      OrElse(First(Nonempty, Of(naming, FileHash, input.preserved)), input.fileHash)
    ensures First(Nonempty, Fed(naming, p, Version)) ==
      OrElse(First(Nonempty, Of(naming, Version, input.preserved)), Declared(input.version))
  {
    AcceptedTexts(urls, input);
    AcceptedTier(urls, input, p.kept, references);
    ServersReadBack(naming, p, input.preserved, input.servers);
    FileHashReadsBack(naming, p, input.preserved, input.fileHash);
    VersionReadsBack(naming, p, input.preserved, Declared(input.version));
  }

  lemma PoliciesReadBack(naming: Naming, urls: Urls, p: Parts, input: ListingInput, references: seq<Tag>)
    requires p == PartsOf(input, p.kept, references) && KeptFrom(naming, p.kept, input.preserved)
    requires urls.Valid() && Accepts(urls, input)
    ensures First(At(1), Fed(naming, p, Nip94)) == OrElse(First(At(1), Of(naming, Nip94, input.preserved)), input.nip94)
    ensures GetOr(First(ReadAcquisition, Fed(naming, p, Acquisition)), Gated) ==
      if Of(naming, Acquisition, input.preserved) == [] then input.acquisition
      else GetOr(First(ReadAcquisition, Of(naming, Acquisition, input.preserved)), Gated)
    ensures Collect(ReadCampaign(urls), Fed(naming, p, Campaign)) ==
      Collect(ReadCampaign(urls), Of(naming, Campaign, input.preserved)) + Pointers(input.campaigns)
  {
    AcceptedTexts(urls, input);
    Nip94ReadsBack(naming, p, input.preserved, input.nip94);
    AcquisitionReadsBack(naming, p, input.preserved, input.acquisition);
    CampaignsReadBack(naming, urls, p, input.preserved, input.campaigns);
  }

  lemma PartsReadBack(naming: Naming, urls: Urls, input: ListingInput, kept: seq<Tag>)
    requires urls.Valid() && Accepts(urls, input) && KeptFrom(naming, kept, input.preserved)
    ensures
      var references := NewReferences(input, Of(naming, Authorization, input.preserved));
      ExtractParts(naming, urls, PartsOf(input, kept, references)) == PublishedListing(naming, urls, input)
  {
    var references := NewReferences(input, Of(naming, Authorization, input.preserved));
    var p := PartsOf(input, kept, references);
    TitleReadsBack(naming, p);
    PriceReadsBack(naming, p, input.preserved);
    PreservedOnly(naming, p, input.preserved, Summary);
    PreservedOnly(naming, p, input.preserved, PublishedAt);
    PreservedOnly(naming, p, input.preserved, Location);
    PreservedOnly(naming, p, input.preserved, Geohash);
    PreservedOnly(naming, p, input.preserved, Status);
    MediaReadBack(naming, p, input, references);
    FulfillmentReadsBack(naming, urls, p, input, references);
    PoliciesReadBack(naming, urls, p, input, references);
    AcceptedReferences(urls, input, kept, Of(naming, Authorization, input.preserved));
    ReferencesReadBack(naming, urls, p, input.preserved, input.authorizations);
  }
}
