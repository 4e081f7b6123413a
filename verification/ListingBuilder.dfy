/** The publisher's side of a listing: what is checked, what is written, and what the parser makes of it. */
module ListingBuilder {
  import opened Base
  import opened Text
  import opened Protocol
  import opened Listing

  datatype AuthorizationInput = AuthorizationInput(root: string, fulfillment: string, relayHint: Option<string>)

  datatype CampaignInput = CampaignInput(root: string, relayHint: Option<string>)

  datatype ListingInput = ListingInput(
    dTag: string, title: string, priceSats: u64, lud16: Option<string>, topics: seq<string>, images: seq<string>,
    servers: seq<string>, fileHash: Option<string>, version: Option<string>, authorizations: seq<AuthorizationInput>,
    acquisition: AcquisitionPolicy, platforms: seq<string>, campaigns: seq<CampaignInput>, nip94: Option<string>,
    preserved: seq<Tag>)

  datatype PublishError =
    | MissingLud16
    | IncompleteFulfillmentTier(missing: seq<string>)
    | MalformedServerUrl(url: string)
    | InvalidTimedAccess
    | MalformedImageUrl(url: string)
    | InvalidPlatform(platform: string)
    | InvalidFileHash
    | InvalidCampaignPointer
    | InvalidFulfillmentAuthorization
    | InvalidNip94EventId
    | MalformedPreservedTag

  // ---------- what the builder demands ----------

  predicate Given(text: Option<string>) {
    text.Some? && text.value != ""
  }

  function Missing(input: ListingInput): seq<string> {
    (if input.servers == [] then ["server"] else []) +
    (if Given(input.fileHash) then [] else ["file_hash"]) +
    (if Given(input.version) then [] else ["version"])
  }

  /** What an incomplete release lacks, in this order: servers, a file hash that is not blank, a version that is not. */
  lemma MissingIff(input: ListingInput)
    ensures
      var lacks := (name: string) =>
        || (name == "server" && input.servers == [])
        || (name == "file_hash" && (input.fileHash == None || input.fileHash == Some("")))
        || (name == "version" && (input.version == None || input.version == Some("")));
      Missing(input) == Filter(lacks, ["server", "file_hash", "version"])
  {
    var names := ["server", "file_hash", "version"];
    assert names[1..] == ["file_hash", "version"] && names[1..][1..] == ["version"];
  }

  predicate HasFulfillment(input: ListingInput) {
    input.servers != [] || Given(input.fileHash) || Given(input.version) || input.authorizations != []
  }

  predicate IsWordChar(c: char) {
    'a' <= c <= 'z' || 'A' <= c <= 'Z' || '0' <= c <= '9' || c == '_'
  }

  /** `<os>-<arch>`. */
  predicate IsPlatformTag(value: string) {
    match SplitOnce(value, '-')
    case None => false
    case Some(parts) =>
      parts.0 != "" && parts.1 != "" && '-' !in parts.1 && forall c :: c in parts.0 + parts.1 ==> IsWordChar(c)
  }

  lemma WordCharIff(c: char)
    ensures IsWordChar(c) <==>
      48 <= c as int <= 57 || 65 <= c as int <= 90 || c as int == 95 || 97 <= c as int <= 122
  {
  }

  /** ASCII letters, digits and underscores, at least one. */
  predicate IsWord(s: string) {
    s != "" && forall c :: c in s ==>
      48 <= c as int <= 57 || 65 <= c as int <= 90 || c as int == 95 || 97 <= c as int <= 122
  }

  lemma WordIff(s: string)
    ensures IsWord(s) <==> s != "" && forall c :: c in s ==> IsWordChar(c)
    ensures IsWord(s) ==> '-' !in s
  {
    forall c | c in s ensures IsWordChar(c) <==>
      48 <= c as int <= 57 || 65 <= c as int <= 90 || c as int == 95 || 97 <= c as int <= 122
    {
      WordCharIff(c);
    }
  }

  /** A platform is two words joined by a dash. */
  lemma PlatformTagIff(value: string)
    ensures IsPlatformTag(value) <==> exists os, arch :: value == os + ['-'] + arch && IsWord(os) && IsWord(arch)
  {
    if IsPlatformTag(value) {
      var parts := SplitOnce(value, '-').value;
      WordIff(parts.0);
      WordIff(parts.1);
      assert value == parts.0 + ['-'] + parts.1 && IsWord(parts.0) && IsWord(parts.1);
    }
    if os, arch :| value == os + ['-'] + arch && IsWord(os) && IsWord(arch) {
      WordIff(os);
      WordIff(arch);
      SplitOnceAt(os, '-', arch);
    }
  }

  predicate IsSha256Hex(hash: string) {
    IsHex32(LowerAsciiString(hash))
  }

  predicate RelayOk(urls: Urls, relayHint: Option<string>) {
    relayHint.Some? ==> urls.relay(relayHint.value)
  }

  predicate CampaignOk(urls: Urls, campaign: CampaignInput) {
    FromHex(campaign.root).Some? && RelayOk(urls, campaign.relayHint)
  }

  predicate AuthorizationOk(urls: Urls, reference: AuthorizationInput) {
    FromHex(reference.root).Some? && FromHex(reference.fulfillment).Some? && RelayOk(urls, reference.relayHint)
  }

  /** Everything an accepted input satisfies. */
  ghost predicate Accepts(urls: Urls, input: ListingInput) {
    && (input.priceSats > 0 ==> input.lud16 != None && input.lud16 != Some(""))
    && (var hashed, versioned :=
          input.fileHash != None && input.fileHash != Some(""), input.version != None && input.version != Some("");
        input.servers != [] || hashed || versioned || input.authorizations != [] ==>
          input.servers != [] && hashed && versioned)
    && (forall server :: server in input.servers ==> urls.http(server))
    && (input.acquisition.TimedAccess? ==> input.acquisition.startsAt < input.acquisition.endsAt)
    && (forall image :: image in input.images && image != "" ==> urls.http(image))
    && (forall platform :: platform in input.platforms ==> IsPlatformTag(platform))
    && Distinct(input.platforms)
    && (input.fileHash != None ==> FromHex(input.fileHash.value) != None)
    && (forall campaign :: campaign in input.campaigns ==>
          FromHex(campaign.root) != None && (campaign.relayHint != None ==> urls.relay(campaign.relayHint.value)))
    && (forall reference :: reference in input.authorizations ==>
          && FromHex(reference.root) != None && FromHex(reference.fulfillment) != None
          && (reference.relayHint != None ==> urls.relay(reference.relayHint.value)))
    && (input.nip94 != None ==> FromHex(input.nip94.value) != None)
    && [] !in input.preserved
  }

  function FirstFailing<T(!new)>(ok: T -> bool, s: seq<T>): (r: Option<T>)
    ensures r.None? <==> forall x :: x in s ==> ok(x)
  {
    if s == [] then None
    else
      assert forall x :: x in s <==> x == s[0] || x in s[1..];
      if ok(s[0]) then FirstFailing(ok, s[1..]) else Some(s[0])
  }

  function FirstBadPlatform(platforms: seq<string>, seen: set<string>): Option<string> {
    if platforms == [] then None
    else if !IsPlatformTag(platforms[0]) || platforms[0] in seen then Some(platforms[0])
    else FirstBadPlatform(platforms[1..], seen + {platforms[0]})
  }

  lemma {:induction false} GoodPlatforms(platforms: seq<string>, seen: set<string>)
    ensures FirstBadPlatform(platforms, seen).None? <==>
      && (forall platform :: platform in platforms ==> IsPlatformTag(platform) && platform !in seen)
      && Distinct(platforms)
  {
    if platforms != [] {
      var rest := platforms[1..];
      assert platforms == [platforms[0]] + rest;
      GoodPlatforms(rest, seen + {platforms[0]});
      DistinctHead(platforms[0], rest);
    }
  }

  function ServerProblem(urls: Urls, input: ListingInput): Option<PublishError> {
    match FirstFailing(urls.http, input.servers)
    case Some(url) => Some(MalformedServerUrl(url))
    case None =>
      if input.acquisition.TimedAccess? && input.acquisition.startsAt >= input.acquisition.endsAt then
        Some(InvalidTimedAccess)
      else None
  }

  predicate ImageOk(urls: Urls, image: string) {
    image == "" || urls.http(image)
  }

  function ImageProblem(urls: Urls, input: ListingInput): Option<PublishError> {
    match FirstFailing((image: string) => ImageOk(urls, image), input.images)
    case Some(url) => Some(MalformedImageUrl(url))
    case None =>
      match FirstBadPlatform(input.platforms, {})
      case Some(platform) => Some(InvalidPlatform(platform))
      case None => if input.fileHash.Some? && !IsSha256Hex(input.fileHash.value) then Some(InvalidFileHash) else None
  }

  function ReferenceProblem(urls: Urls, input: ListingInput): Option<PublishError> {
    if FirstFailing((campaign: CampaignInput) => CampaignOk(urls, campaign), input.campaigns).Some? then
      Some(InvalidCampaignPointer)
    else if FirstFailing((reference: AuthorizationInput) => AuthorizationOk(urls, reference),
      input.authorizations).Some? then
      Some(InvalidFulfillmentAuthorization)
    else if input.nip94.Some? && FromHex(input.nip94.value).None? then Some(InvalidNip94EventId)
    else if [] in input.preserved then Some(MalformedPreservedTag)
    else None
  }

  /** The first problem, in the order the builder looks. */
  function Problem(urls: Urls, input: ListingInput): Option<PublishError> {
    if input.priceSats > 0 && !Given(input.lud16) then Some(MissingLud16)
    else if HasFulfillment(input) && Missing(input) != [] then Some(IncompleteFulfillmentTier(Missing(input)))
    else OrElse(ServerProblem(urls, input), OrElse(ImageProblem(urls, input), ReferenceProblem(urls, input)))
  }

  lemma NoServerProblemIff(urls: Urls, input: ListingInput)
    ensures ServerProblem(urls, input).None? <==>
      && (forall server :: server in input.servers ==> urls.http(server))
      && (input.acquisition.TimedAccess? ==> input.acquisition.startsAt < input.acquisition.endsAt)
  {
  }

  lemma NoImageProblemIff(urls: Urls, input: ListingInput)
    ensures ImageProblem(urls, input).None? <==>
      && (forall image :: image in input.images && image != "" ==> urls.http(image))
      && (forall platform :: platform in input.platforms ==> IsPlatformTag(platform)) && Distinct(input.platforms)
      && (input.fileHash.Some? ==> IsSha256Hex(input.fileHash.value))
  {
    GoodPlatforms(input.platforms, {});
  }

  lemma NoProblemIff(urls: Urls, input: ListingInput)
    ensures Problem(urls, input).None? <==> Accepts(urls, input)
  {
    NoServerProblemIff(urls, input);
    NoImageProblemIff(urls, input);
  }

  // ---------- writing tags ----------

  function Each<T>(write: T -> Tag, s: seq<T>): seq<Tag> {
    if s == [] then [] else [write(s[0])] + Each(write, s[1..])
  }

  lemma {:induction false} EachAppend<T>(write: T -> Tag, s: seq<T>, x: T)
    ensures Each(write, s + [x]) == Each(write, s) + [write(x)]
  {
    if s == [] {
      assert s + [x] == [x] && [x][1..] == [];
    } else {
      assert (s + [x])[1..] == s[1..] + [x];
      EachAppend(write, s[1..], x);
    }
  }

  /** Tags written from values whose reader undoes the writer are read back as those values. */
  lemma {:induction false} CollectEach<T, U>(read: Tag -> Option<U>, write: T -> Tag, s: seq<T>, values: seq<U>)
    requires |values| == |s|
    requires forall i :: 0 <= i < |s| ==> read(write(s[i])) == Some(values[i])
    ensures Collect(read, Each(write, s)) == values
  {
    if s != [] {
      forall i | 0 <= i < |s[1..]| ensures read(write(s[1..][i])) == Some(values[1..][i]) {
        assert s[1..][i] == s[i + 1];
      }
      CollectEach(read, write, s[1..], values[1..]);
      assert Each(write, s)[1..] == Each(write, s[1..]);
      assert values == [values[0]] + values[1..];
    }
  }

  lemma {:induction false} EachNamed<T>(write: T -> Tag, s: seq<T>, name: string)
    requires forall x: T :: x in s ==> HasName(write(x), name)
    ensures forall tag :: tag in Each(write, s) ==> HasName(tag, name)
  {
    if s != [] {
      assert s[0] in s;
      assert forall x :: x in s[1..] ==> x in s;
      EachNamed(write, s[1..], name);
    }
  }

  function Value(name: string): string -> Tag {
    (value: string) => [name, value]
  }

  function HintTail(relayHint: Option<string>): seq<string> {
    if Given(relayHint) then [relayHint.value] else []
  }

  function AuthorizationTag(reference: AuthorizationInput): Tag {
    ["fulfillment_authorization", reference.root, reference.fulfillment] + ToList(reference.relayHint)
  }

  function CampaignTag(campaign: CampaignInput): Tag {
    ["campaign", campaign.root] + HintTail(campaign.relayHint)
  }

  function AcquisitionTag(policy: AcquisitionPolicy): Tag {
    match policy
    case Gated => ["acquisition", "gated"]
    case Public => ["acquisition", "public"]
    case TimedAccess(starts, ends) => ["acquisition", "timed-access", Decimal(starts), Decimal(ends)]
  }

  predicate NonEmpty(s: string) {
    s != ""
  }

  /** The topics, trimmed, blanks dropped. */
  function Trimmed(topics: seq<string>): seq<string> {
    if topics == [] then []
    else
      var last := Trim(topics[|topics| - 1]);
      Trimmed(topics[..|topics| - 1]) + if last == "" then [] else [last]
  }

  /** The first spelling of every topic other than the built-in "game", letter case ignored. */
  function NewTopics(topics: seq<string>): seq<string> {
    Unseen(LowerAsciiString, Trimmed(topics), {"game"})
  }

  function OptionalTag(name: string, value: Option<string>): seq<Tag> {
    if Given(value) then [[name, value.value]] else []
  }

  /** The tags of a listing, part by part, in the order they are written. */
  datatype Parts = Parts(
    identifier: Tag, title: Tag, price: Tag, game: Tag, kept: seq<Tag>, acquisition: Tag, images: seq<Tag>,
      topics: seq<Tag>,
    servers: seq<Tag>, fileHash: seq<Tag>, version: seq<Tag>, references: seq<Tag>, lud16: seq<Tag>,
    platforms: seq<Tag>, campaigns: seq<Tag>, nip94: seq<Tag>)

  function HeadTags(p: Parts): seq<Tag> {
    [p.identifier, p.title, p.price, p.game]
  }

  function MediaTags(p: Parts): seq<Tag> {
    [p.acquisition] + p.images + p.topics
  }

  function FulfillmentTags(p: Parts): seq<Tag> {
    p.servers + p.fileHash + p.version + p.references
  }

  function LinkTags(p: Parts): seq<Tag> {
    p.lud16 + p.platforms + p.campaigns + p.nip94
  }

  function Flatten(p: Parts): seq<Tag> {
    HeadTags(p) + p.kept + MediaTags(p) + FulfillmentTags(p) + LinkTags(p)
  }

  function When(taken: bool, tags: seq<Tag>): seq<Tag> {
    if taken then tags else []
  }

  /** All of these tags feed one field. */
  ghost predicate Feed(naming: Naming, tags: seq<Tag>, kind: Field) {
    forall field :: Of(naming, field, tags) == When(field == kind, tags)
  }

  /** Every part feeds its own field. */
  ghost predicate Labelled(naming: Naming, p: Parts) {
    && Feed(naming, [p.identifier], Id) && Feed(naming, [p.title], Title) && Feed(naming, [p.price], Price)
    && Feed(naming, [p.game], Topic) && Feed(naming, [p.acquisition], Acquisition) && Feed(naming, p.images, Image)
    && Feed(naming, p.topics, Topic) && Feed(naming, p.servers, Server)
    && Feed(naming, p.fileHash, FileHash) && Feed(naming, p.version, Version)
    && Feed(naming, p.references, Authorization) && Feed(naming, p.lud16, Other)
    && Feed(naming, p.platforms, Platform) && Feed(naming, p.campaigns, Campaign) && Feed(naming, p.nip94, Nip94)
  }

  function Before(p: Parts, field: Field): seq<Tag> {
    match field
    case Id => [p.identifier]
    case Title => [p.title]
    case Price => [p.price]
    case Topic => [p.game]
    case _ => []
  }

  function After(p: Parts, field: Field): seq<Tag> {
    match field
    case Acquisition => [p.acquisition]
    case Image => p.images
    case Topic => p.topics
    case Server => p.servers
    case FileHash => p.fileHash
    case Version => p.version
    case Authorization => p.references
    case Other => p.lud16
    case Platform => p.platforms
    case Campaign => p.campaigns
    case Nip94 => p.nip94
    case _ => []
  }

  lemma OfConcat3(naming: Naming, field: Field, a: seq<Tag>, b: seq<Tag>, c: seq<Tag>)
    ensures Of(naming, field, a + b + c) == Of(naming, field, a) + Of(naming, field, b) + Of(naming, field, c)
  {
    OfConcat(naming, field, a + b, c);
    OfConcat(naming, field, a, b);
  }

  lemma OfConcat4(naming: Naming, field: Field, a: seq<Tag>, b: seq<Tag>, c: seq<Tag>, d: seq<Tag>)
    ensures Of(naming, field, a + b + c + d) ==
      Of(naming, field, a) + Of(naming, field, b) + Of(naming, field, c) + Of(naming, field, d)
  {
    OfConcat(naming, field, a + b + c, d);
    OfConcat3(naming, field, a, b, c);
  }

  lemma HeadBefore(p: Parts, field: Field)
    ensures When(field == Id, [p.identifier]) + When(field == Title, [p.title]) + When(field == Price, [p.price]) +
      When(field == Topic, [p.game]) == Before(p, field)
  {
  }

  lemma MediaAfter(p: Parts, field: Field)
    ensures When(field == Acquisition, [p.acquisition]) + When(field == Image, p.images) +
            When(field == Topic, p.topics) ==
      When(field == Acquisition || field == Image || field == Topic, After(p, field))
  {
  }

  lemma FulfillmentAfter(p: Parts, field: Field)
    ensures When(field == Server, p.servers) + When(field == FileHash, p.fileHash) + When(field == Version, p.version) +
      When(field == Authorization, p.references) ==
      When(field == Server || field == FileHash || field == Version || field == Authorization, After(p, field))
  {
  }

  lemma LinksAfter(p: Parts, field: Field)
    ensures When(field == Other, p.lud16) + When(field == Platform, p.platforms) +
            When(field == Campaign, p.campaigns) +
      When(field == Nip94, p.nip94) ==
      When(field == Other || field == Platform || field == Campaign || field == Nip94, After(p, field))
  {
  }

  lemma HeadIsConcat(p: Parts)
    ensures HeadTags(p) == [p.identifier] + [p.title] + [p.price] + [p.game]
  {
  }

  lemma OfHead(naming: Naming, p: Parts, field: Field)
    requires Labelled(naming, p)
    ensures Of(naming, field, HeadTags(p)) == Before(p, field)
  {
    HeadIsConcat(p);
    OfConcat4(naming, field, [p.identifier], [p.title], [p.price], [p.game]);
    HeadBefore(p, field);
  }

  lemma OfMedia(naming: Naming, p: Parts, field: Field)
    requires Labelled(naming, p)
    ensures Of(naming, field, MediaTags(p)) ==
      When(field == Acquisition || field == Image || field == Topic, After(p, field))
  {
    OfConcat3(naming, field, [p.acquisition], p.images, p.topics);
    MediaAfter(p, field);
  }

  lemma OfFulfillment(naming: Naming, p: Parts, field: Field)
    requires Labelled(naming, p)
    ensures Of(naming, field, FulfillmentTags(p)) ==
      When(field == Server || field == FileHash || field == Version || field == Authorization, After(p, field))
  {
    OfConcat4(naming, field, p.servers, p.fileHash, p.version, p.references);
    FulfillmentAfter(p, field);
  }

  lemma OfLinks(naming: Naming, p: Parts, field: Field)
    requires Labelled(naming, p)
    ensures Of(naming, field, LinkTags(p)) ==
      When(field == Other || field == Platform || field == Campaign || field == Nip94, After(p, field))
  {
    OfConcat4(naming, field, p.lud16, p.platforms, p.campaigns, p.nip94);
    LinksAfter(p, field);
  }

  lemma OfWritten(naming: Naming, p: Parts, field: Field)
    requires Labelled(naming, p)
    ensures Of(naming, field, MediaTags(p) + FulfillmentTags(p) + LinkTags(p)) == After(p, field)
  {
    OfConcat3(naming, field, MediaTags(p), FulfillmentTags(p), LinkTags(p));
    OfMedia(naming, p, field);
    OfFulfillment(naming, p, field);
    OfLinks(naming, p, field);
  }

  /** What feeds a field: the part written for it, around what was preserved for it. */
  lemma OfFlatten(naming: Naming, p: Parts, field: Field)
    requires Labelled(naming, p)
    ensures Of(naming, field, Flatten(p)) == Before(p, field) + Of(naming, field, p.kept) + After(p, field)
  {
    var written := MediaTags(p) + FulfillmentTags(p) + LinkTags(p);
    assert Flatten(p) == HeadTags(p) + p.kept + written;
    OfConcat3(naming, field, HeadTags(p), p.kept, written);
    OfHead(naming, p, field);
    OfWritten(naming, p, field);
  }

  // ---------- the parts of a listing ----------

  /** The references to write after those in `p`: exact repetitions are dropped across both. */
  function NewReferences(input: ListingInput, written: seq<Tag>): seq<Tag> {
    Unseen(Same, Each(AuthorizationTag, input.authorizations), ToSet(written))
  }

  function PartsOf(input: ListingInput, kept: seq<Tag>, references: seq<Tag>): Parts {
    var tier := HasFulfillment(input);
    Parts(
      ["d", input.dTag],
      ["title", input.title],
      ["price", Decimal(input.priceSats), "sat"],
      ["t", "game"],
      kept,
      AcquisitionTag(input.acquisition),
      Each(Value("image"), Filter(NonEmpty, input.images)),
      Each(Value("t"), NewTopics(input.topics)),
      if tier then Each(Value("server"), input.servers) else [],
      if tier then [["file_hash", GetOr(input.fileHash, "")]] else [],
      if tier then [["version", GetOr(input.version, "")]] else [],
      if tier then references else [],
      OptionalTag("lud16", input.lud16),
      Each(Value("platform"), input.platforms),
      Each(CampaignTag, input.campaigns),
      OptionalTag("nip94", input.nip94))
  }

  // ---------- tag names ----------

  /** The names the builder writes, and the fields the parser takes them for. */
  ghost predicate Labels(table: string -> Field) {
    && table("d") == Id && table("title") == Title && table("price") == Price && table("t") == Topic
    && table("acquisition") == Acquisition && table("image") == Image && table("server") == Server
    && table("file_hash") == FileHash && table("version") == Version && table("lud16") == Other
    && table("p") == Other
    && table("platform") == Platform && table("campaign") == Campaign && table("nip94") == Nip94
    && table("fulfillment_authorization") == Authorization
  }

  ghost predicate OneAuthorizationName(table: string -> Field) {
    forall name :: table(name) == Authorization ==> name == "fulfillment_authorization"
  }

  lemma FirstNames()
    ensures FieldNamed("d") == Id && FieldNamed("title") == Title && FieldNamed("price") == Price
    ensures FieldNamed("t") == Topic && FieldNamed("image") == Image && FieldNamed("platform") == Platform
  {
  }

  lemma MiddleNames()
    ensures FieldNamed("nip94") == Nip94 && FieldNamed("server") == Server
    ensures FieldNamed("file_hash") == FileHash && FieldNamed("version") == Version
  {
  }

  lemma LastNames()
    ensures FieldNamed("acquisition") == Acquisition && FieldNamed("campaign") == Campaign
    ensures FieldNamed("lud16") == Other && FieldNamed("fulfillment_authorization") == Authorization
  {
  }

  lemma MentionName()
    ensures FieldNamed("p") == Other
  {
  }

  lemma NamesAreLabelled()
    ensures Labels(FieldNamed)
  {
    FirstNames();
    MiddleNames();
    LastNames();
    MentionName();
  }

  lemma AuthorizationNameIsUnique()
    ensures OneAuthorizationName(FieldNamed)
  {
    forall name | FieldNamed(name) == Authorization ensures name == "fulfillment_authorization" {
    }
  }

  lemma FeedUniform(table: string -> Field, tags: seq<Tag>, name: string)
    requires forall tag :: tag in tags ==> HasName(tag, name)
    ensures Feed(ByName(table), tags, table(name))
  {
    forall field ensures Of(ByName(table), field, tags) == When(field == table(name), tags) {
      OfUniform(ByName(table), field, tags, table(name));
    }
  }

  lemma FeedEach<T(!new)>(table: string -> Field, write: T -> Tag, s: seq<T>, name: string)
    requires forall x :: x in s ==> HasName(write(x), name)
    ensures Feed(ByName(table), Each(write, s), table(name))
  {
    EachNamed(write, s, name);
    FeedUniform(table, Each(write, s), name);
  }

  lemma FeedValues(table: string -> Field, s: seq<string>, name: string)
    ensures Feed(ByName(table), Each(Value(name), s), table(name))
  {
    FeedEach(table, Value(name), s, name);
  }

  lemma FeedReferences(table: string -> Field, input: ListingInput, written: seq<Tag>)
    requires Labels(table)
    ensures Feed(ByName(table), NewReferences(input, written), Authorization)
  {
    EachNamed(AuthorizationTag, input.authorizations, "fulfillment_authorization");
    FeedUniform(table, NewReferences(input, written), "fulfillment_authorization");
  }

  lemma FeedSingles(table: string -> Field, input: ListingInput)
    requires Labels(table)
    ensures Feed(ByName(table), [["d", input.dTag]], Id)
    ensures Feed(ByName(table), [["title", input.title]], Title)
    ensures Feed(ByName(table), [["price", Decimal(input.priceSats), "sat"]], Price)
    ensures Feed(ByName(table), [["t", "game"]], Topic)
    ensures Feed(ByName(table), [AcquisitionTag(input.acquisition)], Acquisition)
  {
    FeedUniform(table, [["d", input.dTag]], "d");
    FeedUniform(table, [["title", input.title]], "title");
    FeedUniform(table, [["price", Decimal(input.priceSats), "sat"]], "price");
    FeedUniform(table, [["t", "game"]], "t");
    FeedUniform(table, [AcquisitionTag(input.acquisition)], "acquisition");
  }

  lemma PartsAreLabelled(table: string -> Field, input: ListingInput, kept: seq<Tag>, written: seq<Tag>)
    requires Labels(table)
    ensures Labelled(ByName(table), PartsOf(input, kept, NewReferences(input, written)))
  {
    FeedSingles(table, input);
    FeedValues(table, Filter(NonEmpty, input.images), "image");
    FeedValues(table, NewTopics(input.topics), "t");
    FeedValues(table, input.servers, "server");
    FeedUniform(table, [["file_hash", GetOr(input.fileHash, "")]], "file_hash");
    FeedUniform(table, [["version", GetOr(input.version, "")]], "version");
    FeedReferences(table, input, written);
    FeedUniform(table, OptionalTag("lud16", input.lud16), "lud16");
    FeedValues(table, input.platforms, "platform");
    FeedEach(table, CampaignTag, input.campaigns, "campaign");
    FeedUniform(table, OptionalTag("nip94", input.nip94), "nip94");
  }
}
