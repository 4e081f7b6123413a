/** Republishing a listing: which of its present tags the publish form carries forward, and what readers then see. */
module ListingEdit {
  import opened Base
  import opened Text
  import opened Protocol
  import opened Listing
  import opened ListingBuilder
  import opened ListingRoundTrip
  import opened ListingPublish

  // ---------- preserved tags in general ----------

  /** The form republishes these fields itself. */
  predicate Managed(field: Field) {
    !(field.Summary? || field.PublishedAt? || field.Location? || field.Geohash? || field.Status?
      || field.Authorization? || field.Other?)
  }

  ghost predicate NothingManaged(naming: Naming, preserved: seq<Tag>) {
    forall tag :: tag in preserved ==> !Managed(naming(tag))
  }

  lemma ManagedIsBlank(naming: Naming, preserved: seq<Tag>, field: Field)
    requires NothingManaged(naming, preserved) && Managed(field)
    ensures Of(naming, field, preserved) == []
  {
    FilterNone((tag: Tag) => naming(tag) == field, preserved);
  }

  /** A listing with nothing but what the form leaves to others. */
  function Unmanaged(p: Listing): Listing {
    BLANK.(summary := p.summary, publishedAt := p.publishedAt, location := p.location, geohash := p.geohash,
           status := p.status, authorizations := p.authorizations, malformedAuthorizations := p.malformedAuthorizations)
  }

  lemma UnmanagedExtract(naming: Naming, urls: Urls, preserved: seq<Tag>)
    requires NothingManaged(naming, preserved)
    ensures Extract(naming, urls, preserved) == Unmanaged(Extract(naming, urls, preserved))
  {
    ManagedIsBlank(naming, preserved, Id);
    ManagedIsBlank(naming, preserved, Title);
    ManagedIsBlank(naming, preserved, Price);
    ManagedIsBlank(naming, preserved, Image);
    ManagedIsBlank(naming, preserved, Topic);
    ManagedIsBlank(naming, preserved, Platform);
    ManagedIsBlank(naming, preserved, Nip94);
    ManagedIsBlank(naming, preserved, Server);
    ManagedIsBlank(naming, preserved, FileHash);
    ManagedIsBlank(naming, preserved, Version);
    ManagedIsBlank(naming, preserved, Acquisition);
    ManagedIsBlank(naming, preserved, Campaign);
  }

  /** The listing made of the form's values, the fields `p` adds, and these references. */
  function Edited(urls: Urls, p: Listing, references: seq<Tag>, input: ListingInput): Listing {
    Listing(
      Some(input.dTag), Some(input.title), p.summary, p.publishedAt, p.location, p.geohash, p.status,
      Some(Decimal(input.priceSats)), Some("sat"), None,
      Filter(NonEmpty, input.images), ["game"] + NewTopics(input.topics), input.platforms, input.nip94,
      input.servers, input.fileHash, Declared(input.version),
      Collect(ReadAuthorization(urls), references), p.malformedAuthorizations,
      input.acquisition, Pointers(input.campaigns))
  }

  lemma OverlayOnUnmanaged(urls: Urls, p: Listing, references: seq<Tag>, input: ListingInput)
    requires p == Unmanaged(p)
    ensures Overlay(urls, p, false, references, input) == Edited(urls, p, references, input)
  {
    assert p.images + Filter(NonEmpty, input.images) == Filter(NonEmpty, input.images);
    assert ["game"] + p.topics == ["game"];
    assert p.platforms + input.platforms == input.platforms && p.servers + input.servers == input.servers;
    assert p.campaigns + Pointers(input.campaigns) == Pointers(input.campaigns);
  }

  lemma EditedIsRead(naming: Naming, urls: Urls, input: ListingInput)
    requires NothingManaged(naming, input.preserved)
    ensures
      var references := Of(naming, Authorization, input.preserved) + Each(AuthorizationTag, input.authorizations);
      PublishedListing(naming, urls, input) ==
        Edited(urls, Extract(naming, urls, input.preserved), Dedup(Same, references), input)
  {
    UnmanagedExtract(naming, urls, input.preserved);
    ManagedIsBlank(naming, input.preserved, Acquisition);
    var references := Of(naming, Authorization, input.preserved) + Each(AuthorizationTag, input.authorizations);
    OverlayOnUnmanaged(urls, Extract(naming, urls, input.preserved), Dedup(Same, references), input);
  }

  // ---------- the desktop form ----------

  const FORM_MANAGED_LISTING_TAGS: seq<string> := [
    "d", "title", "price", "t", "image", "acquisition", "server", "file_hash", "version", "fulfillment_pubkey",
    "lud16", "platform", "campaign", "nip94"]

  predicate IsPublishFormTag(tag: Tag) {
    tag != [] && tag[0] in FORM_MANAGED_LISTING_TAGS
  }

  predicate CarriesForward(tag: Tag, replacesAuthorizations: bool) {
    !IsPublishFormTag(tag) && !(replacesAuthorizations && HasName(tag, "fulfillment_authorization"))
  }

  /** The present tags that go into the replacement. */
  function PreservedListingTags(existing: seq<Tag>, replacesAuthorizations: bool): seq<Tag> {
    Filter((tag: Tag) => CarriesForward(tag, replacesAuthorizations), existing)
  }

  lemma ManagedNames(name: string)
    requires Managed(FieldNamed(name))
    ensures name in FORM_MANAGED_LISTING_TAGS
  {
    FormNames(name);
  }

  lemma UnmanagedNames(name: string)
    requires !Managed(FieldNamed(name)) && FieldNamed(name) != Other
    ensures name !in FORM_MANAGED_LISTING_TAGS
  {
    assert name == "summary" || name == "published_at" || name == "location" || name == "g" || name == "status"
      || name == "fulfillment_authorization";
  }

  /** What the names in use mean for a tag: the form drops exactly the tags of its own fields, and old addresses. */
  lemma FormTags(tag: Tag)
    ensures Managed(ByName(FieldNamed)(tag)) ==> IsPublishFormTag(tag)
    ensures IsPublishFormTag(tag) ==> Managed(ByName(FieldNamed)(tag)) || ByName(FieldNamed)(tag) == Other
    ensures ByName(FieldNamed)(tag) == Authorization <==> HasName(tag, "fulfillment_authorization")
  {
    if tag != [] {
      if Managed(FieldNamed(tag[0])) {
        ManagedNames(tag[0]);
      } else if FieldNamed(tag[0]) != Other {
        UnmanagedNames(tag[0]);
      }
      StandardNames();
      assert HasName(tag, "fulfillment_authorization") <==> ByName(FieldNamed)(tag) == Authorization;
    }
  }

  lemma FormPreservesNothingManaged(existing: seq<Tag>, replacesAuthorizations: bool)
    ensures NothingManaged(ByName(FieldNamed), PreservedListingTags(existing, replacesAuthorizations))
  {
    forall tag | tag in PreservedListingTags(existing, replacesAuthorizations)
      ensures !Managed(ByName(FieldNamed)(tag))
    {
      FormTags(tag);
    }
  }

  /** A field the form leaves alone keeps its tags, in order. */
  lemma FieldIsCarriedForward(existing: seq<Tag>, replacesAuthorizations: bool, field: Field)
    requires !Managed(field) && field != Other && (replacesAuthorizations ==> field != Authorization)
    ensures Of(ByName(FieldNamed), field, PreservedListingTags(existing, replacesAuthorizations)) ==
      Of(ByName(FieldNamed), field, existing)
  {
    var naming := ByName(FieldNamed);
    forall tag | naming(tag) == field ensures CarriesForward(tag, replacesAuthorizations) {
      FormTags(tag);
    }
    FilterFilter(
      (tag: Tag) => naming(tag) == field, (tag: Tag) => CarriesForward(tag, replacesAuthorizations), existing);
  }

  lemma AuthorizationsAreReplaced(existing: seq<Tag>)
    ensures Of(ByName(FieldNamed), Authorization, PreservedListingTags(existing, true)) == []
  {
    forall tag | tag in PreservedListingTags(existing, true) ensures ByName(FieldNamed)(tag) != Authorization {
      FormTags(tag);
    }
    FilterNone((tag: Tag) => ByName(FieldNamed)(tag) == Authorization, PreservedListingTags(existing, true));
  }

  /** The fields of the present listing that the form leaves alone. */
  function Kept(present: Listing, replacesAuthorizations: bool): Listing {
    if replacesAuthorizations then present.(malformedAuthorizations := []) else present
  }

  lemma CarriedForward(urls: Urls, existing: seq<Tag>, replacesAuthorizations: bool, references: seq<Tag>,
                       form: ListingInput)
    ensures
      var naming := ByName(FieldNamed);
      Edited(urls, Extract(naming, urls, PreservedListingTags(existing, replacesAuthorizations)), references, form) ==
      Edited(urls, Kept(Extract(naming, urls, existing), replacesAuthorizations), references, form)
  {
    FieldIsCarriedForward(existing, replacesAuthorizations, Summary);
    FieldIsCarriedForward(existing, replacesAuthorizations, PublishedAt);
    FieldIsCarriedForward(existing, replacesAuthorizations, Location);
    FieldIsCarriedForward(existing, replacesAuthorizations, Geohash);
    FieldIsCarriedForward(existing, replacesAuthorizations, Status);
    if replacesAuthorizations {
      AuthorizationsAreReplaced(existing);
    } else {
      FieldIsCarriedForward(existing, replacesAuthorizations, Authorization);
    }
  }

  /** What the form hands to the builder. */
  function EditedInput(existing: seq<Tag>, replacesAuthorizations: bool, form: ListingInput): ListingInput {
    form.(preserved := PreservedListingTags(existing, replacesAuthorizations))
  }

  /** An edit through the form, filtered, built, signed and parsed: readers see the form's values, the present summary,
      dates, place and status, and the present authorizations ahead of new ones unless this edit replaces them. */
  lemma EditReadsBack(urls: Urls, existing: seq<Tag>, replacesAuthorizations: bool, form: ListingInput,
                      signer: PublicKey)
    requires urls.Valid() && Accepts(urls, EditedInput(existing, replacesAuthorizations, form))
    ensures
      var naming := ByName(FieldNamed);
      var references := if replacesAuthorizations then [] else Of(naming, Authorization, existing);
      Seen(urls, EditedInput(existing, replacesAuthorizations, form), signer) == Success(Edited(
        urls, Kept(Extract(naming, urls, existing), replacesAuthorizations),
        Dedup(Same, references + Each(AuthorizationTag, form.authorizations)), form))
  {
    var naming, input := ByName(FieldNamed), EditedInput(existing, replacesAuthorizations, form);
    SeenIsPublished(urls, input, signer);
    FormPreservesNothingManaged(existing, replacesAuthorizations);
    EditedIsRead(naming, urls, input);
    if replacesAuthorizations {
      AuthorizationsAreReplaced(existing);
    } else {
      FieldIsCarriedForward(existing, replacesAuthorizations, Authorization);
    }
    var references := Of(naming, Authorization, input.preserved) + Each(AuthorizationTag, form.authorizations);
    CarriedForward(urls, existing, replacesAuthorizations, Dedup(Same, references), form);
  }

  /** Tags of names the parser does not read, other than the two such names the form manages itself. */
  predicate IsForeign(tag: Tag) {
    ByName(FieldNamed)(tag) == Other && !HasName(tag, "lud16") && !HasName(tag, "fulfillment_pubkey")
  }

  lemma UnreadFormNames(name: string)
    requires FieldNamed(name) == Other
    ensures name in FORM_MANAGED_LISTING_TAGS <==> name == "lud16" || name == "fulfillment_pubkey"
  {
    TextNames(name);
    DisplayNames(name);
    ReleaseNames(name);
    FormNames(name);
  }

  lemma FormNames(name: string)
    ensures name in FORM_MANAGED_LISTING_TAGS <==>
      || name == "d" || name == "title" || name == "price" || name == "t" || name == "image" || name == "acquisition"
      || name == "server" || name == "file_hash" || name == "version" || name == "fulfillment_pubkey"
      || name == "lud16" || name == "platform" || name == "campaign" || name == "nip94"
  {
    var names := FORM_MANAGED_LISTING_TAGS;
    assert names[0] == "d" && names[1] == "title" && names[2] == "price" && names[3] == "t" && names[4] == "image";
    assert names[5] == "acquisition" && names[6] == "server" && names[7] == "file_hash" && names[8] == "version";
    assert names[9] == "fulfillment_pubkey" && names[10] == "lud16" && names[11] == "platform";
    assert names[12] == "campaign" && names[13] == "nip94";
  }

  lemma ForeignIsCarried(tag: Tag, replacesAuthorizations: bool)
    requires ByName(FieldNamed)(tag) == Other
    ensures CarriesForward(tag, replacesAuthorizations) <==> IsForeign(tag)
  {
    FormTags(tag);
    if tag != [] {
      UnreadFormNames(tag[0]);
    }
  }

  /** An edit carries the present tags nobody reads over, in order, but not an old address or key, nor p-tags for the
      signer; the form's own address follows them. */
  lemma EditKeepsForeignTags(urls: Urls, existing: seq<Tag>, replacesAuthorizations: bool, form: ListingInput,
                             signer: PublicKey)
    requires urls.Valid() && Accepts(urls, EditedInput(existing, replacesAuthorizations, form))
    ensures
      var published :=
        Signed(ListingTags(ByName(FieldNamed), EditedInput(existing, replacesAuthorizations, form)), signer);
      Of(ByName(FieldNamed), Other, published) ==
        Signed(Filter(IsForeign, existing), signer) + OptionalTag("lud16", form.lud16)
  {
    var naming, input := ByName(FieldNamed), EditedInput(existing, replacesAuthorizations, form);
    TagsReadBack(urls, input);
    assert ReadsBackFrom(naming, urls, input, Signed(ListingTags(naming, input), signer), signer);
    ForeignTags(existing, replacesAuthorizations);
  }

  lemma {:induction false} ForeignTags(existing: seq<Tag>, replacesAuthorizations: bool)
    ensures Of(ByName(FieldNamed), Other, PreservedListingTags(existing, replacesAuthorizations)) ==
      Filter(IsForeign, existing)
  {
    if existing != [] {
      ForeignTags(existing[1..], replacesAuthorizations);
      if ByName(FieldNamed)(existing[0]) == Other {
        ForeignIsCarried(existing[0], replacesAuthorizations);
      }
    }
  }

  // ---------- callers that do not filter ----------

  /** A free public game whose preserved tags still say "gated". */
  const STALE: ListingInput := ListingInput(
    "game", "Game", 0, None, [], [], [], None, None, [], Public, [], [], None, [["acquisition", "gated"]])

  lemma StaleIsAccepted(urls: Urls)
    ensures Accepts(urls, STALE)
  {
  }

  lemma StaleReadsGated()
    ensures Of(ByName(FieldNamed), Acquisition, STALE.preserved) == [["acquisition", "gated"]]
    ensures First(ReadAcquisition, [["acquisition", "gated"]]) == Some(Gated)
  {
    var tag := ["acquisition", "gated"];
    LastNames();
    OfSingle(ByName(FieldNamed), Acquisition, tag);
    ReadSingle(ReadAcquisition, tag);
    assert |tag| == 2 && tag[1] != "public";
  }

  /** The builder writes preserved tags ahead of the policy, so whoever reads the signed listing sees the stale one. */
  lemma PreservedPolicyWins(urls: Urls, signer: PublicKey)
    requires urls.Valid()
    ensures Accepts(urls, STALE) && STALE.acquisition == Public
    ensures Seen(urls, STALE, signer).Success? && Seen(urls, STALE, signer).value.acquisition == Gated
  {
    StaleIsAccepted(urls);
    StaleReadsGated();
    OwnValuesAreSeenIff(urls, STALE, signer);
    SeenIsPublished(urls, STALE, signer);
  }
}
