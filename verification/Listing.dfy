/** Marketplace listings (kind 30402) as they are read from their tags. */
module Listing {
  import opened Base
  import opened Text
  import opened Protocol

  /** The URL checks of the libraries the listing code calls; neither accepts the empty text. */
  datatype Urls = Urls(http: string -> bool, relay: string -> bool) {
    predicate Valid() {
      !http("") && !relay("")
    }
  }

  datatype AcquisitionPolicy = Gated | Public | TimedAccess(startsAt: u64, endsAt: u64)

  datatype CampaignPointer = CampaignPointer(root: EventId, relayHint: Option<string>)

  datatype AuthorizationReference =
    AuthorizationReference(root: EventId, fulfillment: PublicKey, relayHint: Option<string>)

  datatype Listing = Listing(
    id: Option<string>, title: Option<string>, summary: Option<string>, publishedAt: Option<int>,
    location: Option<string>, geohash: Option<string>, status: Option<string>,
    priceAmount: Option<string>, priceCurrency: Option<string>, priceFrequency: Option<string>,
    images: seq<string>, topics: seq<string>, platforms: seq<string>, nip94: Option<string>,
    servers: seq<string>, fileHash: Option<string>, version: Option<string>,
    authorizations: seq<AuthorizationReference>, malformedAuthorizations: seq<Tag>,
    acquisition: AcquisitionPolicy, campaigns: seq<CampaignPointer>)

  datatype ListingError = MissingIdentifier | MissingTitle

  // ---------- which tag feeds which field ----------

  datatype Field =
    | Id | Title | Summary | PublishedAt | Location | Geohash | Status | Price | Image | Topic | Platform | Nip94
    | Server | FileHash | Version | Authorization | Acquisition | Campaign | Other

  function FieldNamed(name: string): Field {
    if name == "d" then Id
    else if name == "title" then Title
    else if name == "summary" then Summary
    else if name == "published_at" then PublishedAt
    else if name == "location" then Location
    else if name == "g" then Geohash
    else if name == "status" then Status
    else if name == "price" then Price
    else if name == "image" then Image
    else if name == "t" then Topic
    else if name == "platform" then Platform
    else if name == "nip94" then Nip94
    else if name == "server" then Server
    else if name == "file_hash" then FileHash
    else if name == "version" then Version
    else if name == "fulfillment_authorization" then Authorization
    else if name == "acquisition" then Acquisition
    else if name == "campaign" then Campaign
    else Other
  }

  /** Which field a tag feeds; the proofs below do not depend on the names in use. */
  type Naming = Tag -> Field

  function ByName(table: string -> Field): Naming {
    (tag: Tag) => if tag == [] then Other else table(tag[0])
  }

  /** The tags that feed a field, in order. */
  function Of(naming: Naming, field: Field, tags: seq<Tag>): seq<Tag> {
    Filter((tag: Tag) => naming(tag) == field, tags)
  }

  lemma OfConcat(naming: Naming, field: Field, a: seq<Tag>, b: seq<Tag>)
    ensures Of(naming, field, a + b) == Of(naming, field, a) + Of(naming, field, b)
  {
    FilterConcat((tag: Tag) => naming(tag) == field, a, b);
  }

  lemma OfSingle(naming: Naming, field: Field, tag: Tag)
    ensures Of(naming, field, [tag]) == if naming(tag) == field then [tag] else []
  {
    FilterSingle((t: Tag) => naming(t) == field, tag);
  }

  lemma OfUniform(naming: Naming, field: Field, tags: seq<Tag>, kind: Field)
    requires forall tag :: tag in tags ==> naming(tag) == kind
    ensures Of(naming, field, tags) == if field == kind then tags else []
  {
    if field == kind {
      FilterAll((tag: Tag) => naming(tag) == field, tags);
    } else {
      FilterNone((tag: Tag) => naming(tag) == field, tags);
    }
  }

  // ---------- readers of one tag ----------

  function At(k: nat): Tag -> Option<string> {
    (tag: Tag) => if k < |tag| then Some(tag[k]) else None
  }

  function Nonempty(tag: Tag): Option<string> {
    if 1 < |tag| && tag[1] != "" then Some(tag[1]) else None
  }

  function Published(tag: Tag): Option<int> {
    if 1 < |tag| then ParseI64(tag[1]) else None
  }

  function ReadAcquisition(tag: Tag): Option<AcquisitionPolicy> {
    if |tag| == 2 && tag[1] == "public" then Some(Public)
    else if |tag| == 4 && tag[1] == "timed-access" then
      match (ParseU64(tag[2]), ParseU64(tag[3]))
      case (Some(starts), Some(ends)) => if starts < ends then Some(TimedAccess(starts, ends)) else Some(Gated)
      case _ => Some(Gated)
    else Some(Gated)
  }

  function ReadAuthorization(urls: Urls): Tag -> Option<AuthorizationReference> {
    (tag: Tag) =>
      if |tag| != 3 && !(|tag| == 4 && tag[3] != "" && urls.relay(tag[3])) then None
      else
        match (FromHex(tag[1]), FromHex(tag[2]))
        case (Some(root), Some(key)) =>
          Some(AuthorizationReference(root, key, if |tag| == 4 then Some(tag[3]) else None))
        case _ => None
  }

  function ReadCampaign(urls: Urls): Tag -> Option<CampaignPointer> {
    (tag: Tag) =>
      if |tag| != 2 && !(|tag| == 3 && urls.relay(tag[2])) then None
      else
        match FromHex(tag[1])
        case Some(root) => Some(CampaignPointer(root, if |tag| == 3 then Some(tag[2]) else None))
        case None => None
  }

  // ---------- what each reader takes ----------

  /** The value in a place of a tag, the second place for the optional ones only if it is not blank. */
  lemma PlacesIff(tag: Tag, k: nat, v: string)
    ensures At(k)(tag) == Some(v) <==> |tag| > k && tag[k] == v
    ensures Nonempty(tag) == Some(v) <==> |tag| > 1 && tag[1] == v && v != ""
  {
  }

  lemma PublishedIff(tag: Tag, n: int)
    ensures Published(tag) == Some(n) <==> |tag| > 1 && ParseI64(tag[1]) == Some(n)
  {
  }

  /** A policy is public, or timed with an interval that is not empty; anything else is gated. */
  lemma AcquisitionIff(tag: Tag)
    ensures ReadAcquisition(tag) == Some(Public) <==> |tag| == 2 && tag[1] == "public"
    ensures forall starts: u64, ends: u64 :: ReadAcquisition(tag) == Some(TimedAccess(starts, ends)) <==>
      && |tag| == 4 && tag[1] == "timed-access"
      && ParseU64(tag[2]) == Some(starts) && ParseU64(tag[3]) == Some(ends) && starts < ends
    ensures ReadAcquisition(tag) != None
  {
  }

  /** An authorization reference is an event id and a key, and may add an acceptable relay. */
  lemma AuthorizationIff(urls: Urls, tag: Tag, reference: AuthorizationReference)
    ensures ReadAuthorization(urls)(tag) == Some(reference) <==>
      && |tag| > 2 && FromHex(tag[1]) == Some(reference.root) && FromHex(tag[2]) == Some(reference.fulfillment)
      && (|| (|tag| == 3 && reference.relayHint == None)
          || (|tag| == 4 && tag[3] != "" && urls.relay(tag[3]) && reference.relayHint == Some(tag[3])))
  {
  }

  /** A campaign pointer is an event id, and may add an acceptable relay. */
  lemma CampaignIff(urls: Urls, tag: Tag, pointer: CampaignPointer)
    ensures ReadCampaign(urls)(tag) == Some(pointer) <==>
      && |tag| > 1 && FromHex(tag[1]) == Some(pointer.root)
      && (|| (|tag| == 2 && pointer.relayHint == None)
          || (|tag| == 3 && urls.relay(tag[2]) && pointer.relayHint == Some(tag[2])))
  {
  }

  // ---------- first wins, and collect all ----------

  function OrElse<T>(a: Option<T>, b: Option<T>): Option<T> {
    if a.Some? then a else b
  }

  function ToList<T>(a: Option<T>): seq<T> {
    if a.Some? then [a.value] else []
  }

  function First<T>(read: Tag -> Option<T>, tags: seq<Tag>): Option<T> {
    if tags == [] then None else OrElse(read(tags[0]), First(read, tags[1..]))
  }

  function Collect<T>(read: Tag -> Option<T>, tags: seq<Tag>): seq<T> {
    if tags == [] then [] else ToList(read(tags[0])) + Collect(read, tags[1..])
  }

  lemma {:induction false} FirstConcat<T>(read: Tag -> Option<T>, a: seq<Tag>, b: seq<Tag>)
    ensures First(read, a + b) == OrElse(First(read, a), First(read, b))
  {
    if a == [] {
      assert a + b == b;
    } else {
      assert (a + b)[1..] == a[1..] + b;
      FirstConcat(read, a[1..], b);
    }
  }

  lemma {:induction false} CollectConcat<T>(read: Tag -> Option<T>, a: seq<Tag>, b: seq<Tag>)
    ensures Collect(read, a + b) == Collect(read, a) + Collect(read, b)
  {
    if a == [] {
      assert a + b == b;
    } else {
      assert (a + b)[1..] == a[1..] + b;
      CollectConcat(read, a[1..], b);
    }
  }

  /** Tag number `i` has the value `v`, and no tag before it has one. */
  predicate IsFirst<T(==)>(read: Tag -> Option<T>, tags: seq<Tag>, i: nat, v: T) {
    i < |tags| && read(tags[i]) == Some(v) && forall j :: 0 <= j < i ==> read(tags[j]) == None
  }

  lemma {:induction false} FirstAt<T>(read: Tag -> Option<T>, tags: seq<Tag>, i: nat, v: T)
    requires IsFirst(read, tags, i, v)
    ensures First(read, tags) == Some(v)
  {
    if i > 0 {
      assert read(tags[0]) == None;
      assert forall j :: 0 <= j < i - 1 ==> tags[1..][j] == tags[j + 1];
      FirstAt(read, tags[1..], i - 1, v);
    }
  }

  lemma {:induction false} FirstFound<T>(read: Tag -> Option<T>, tags: seq<Tag>) returns (i: nat)
    ensures First(read, tags).Some? ==> IsFirst(read, tags, i, First(read, tags).value)
    ensures First(read, tags).None? ==> forall tag :: tag in tags ==> read(tag) == None
  {
    i := 0;
    if tags != [] && read(tags[0]) == None {
      assert tags == [tags[0]] + tags[1..];
      var k := FirstFound(read, tags[1..]);
      i := k + 1;
      assert First(read, tags).Some? ==> forall j :: 0 < j < i ==> tags[j] == tags[1..][j - 1];
    }
  }

  /** `First` is the value of the first tag that has one. */
  lemma FirstIff<T>(read: Tag -> Option<T>, tags: seq<Tag>)
    ensures First(read, tags) == None <==> forall tag :: tag in tags ==> read(tag) == None
    ensures forall v :: First(read, tags) == Some(v) <==> exists i: nat :: IsFirst(read, tags, i, v)
  {
    var k := FirstFound(read, tags);
    forall v, i: nat | IsFirst(read, tags, i, v) ensures First(read, tags) == Some(v) {
      FirstAt(read, tags, i, v);
    }
    if First(read, tags).Some? {
      assert tags[k] in tags && read(tags[k]) != None;
    }
  }

  lemma ReadSingle<T>(read: Tag -> Option<T>, tag: Tag)
    ensures First(read, [tag]) == read(tag)
    ensures Collect(read, [tag]) == ToList(read(tag))
  {
    assert [tag][1..] == [];
  }

  lemma ReadAppend<T>(read: Tag -> Option<T>, tags: seq<Tag>, tag: Tag)
    ensures First(read, tags + [tag]) == OrElse(First(read, tags), read(tag))
    ensures Collect(read, tags + [tag]) == Collect(read, tags) + ToList(read(tag))
  {
    FirstConcat(read, tags, [tag]);
    CollectConcat(read, tags, [tag]);
    ReadSingle(read, tag);
  }

  // ---------- the listing a tag list describes ----------

  function Same(tag: Tag): Tag {
    tag
  }

  /** The authorization tags, exact repetitions dropped. */
  function AuthorizationTags(naming: Naming, tags: seq<Tag>): seq<Tag> {
    Dedup(Same, Of(naming, Authorization, tags))
  }

  function Malformed(urls: Urls): Tag -> Option<Tag> {
    (tag: Tag) => if ReadAuthorization(urls)(tag).Some? then None else Some(tag)
  }

  function GetOr<T>(a: Option<T>, default: T): T {
    if a.Some? then a.value else default
  }

  function Extract(naming: Naming, urls: Urls, tags: seq<Tag>): Listing {
    Listing(
      First(At(1), Of(naming, Id, tags)),
      First(At(1), Of(naming, Title, tags)),
      First(At(1), Of(naming, Summary, tags)),
      First(Published, Of(naming, PublishedAt, tags)),
      First(At(1), Of(naming, Location, tags)),
      First(At(1), Of(naming, Geohash, tags)),
      First(At(1), Of(naming, Status, tags)),
      First(At(1), Of(naming, Price, tags)),
      First(At(2), Of(naming, Price, tags)),
      First(At(3), Of(naming, Price, tags)),
      Collect(At(1), Of(naming, Image, tags)),
      Collect(At(1), Of(naming, Topic, tags)),
      Collect(At(1), Of(naming, Platform, tags)),
      First(At(1), Of(naming, Nip94, tags)),
      Collect(Nonempty, Of(naming, Server, tags)),
      First(Nonempty, Of(naming, FileHash, tags)),
      First(Nonempty, Of(naming, Version, tags)),
      Collect(ReadAuthorization(urls), AuthorizationTags(naming, tags)),
      Collect(Malformed(urls), AuthorizationTags(naming, tags)),
      GetOr(First(ReadAcquisition, Of(naming, Acquisition, tags)), Gated),
      Collect(ReadCampaign(urls), Of(naming, Campaign, tags)))
  }

  /** A listing needs an identifier and a title. */
  function Complete(l: Listing): Result<Listing, ListingError> {
    if l.id.None? then Failure(MissingIdentifier)
    else if l.title.None? then Failure(MissingTitle)
    else Success(l)
  }

  // ---------- parsing, tag by tag ----------

  const BLANK: Listing := Listing(
    None, None, None, None, None, None, None, None, None, None, [], [], [], None, [], None, None, [], [], Gated, [])

  /** Reads one more tag into the field it feeds; where the first tag wins, a set field is left alone. */
  function Step(urls: Urls, l: Listing, f: Field, repeated: bool, acquisitionSeen: bool, v: Tag): Listing {
    match f
    case Id => l.(id := OrElse(l.id, At(1)(v)))
    case Title => l.(title := OrElse(l.title, At(1)(v)))
    case Summary => l.(summary := OrElse(l.summary, At(1)(v)))
    case PublishedAt => l.(publishedAt := OrElse(l.publishedAt, Published(v)))
    case Location => l.(location := OrElse(l.location, At(1)(v)))
    case Geohash => l.(geohash := OrElse(l.geohash, At(1)(v)))
    case Status => l.(status := OrElse(l.status, At(1)(v)))
    case Price =>
      l.(priceAmount := OrElse(l.priceAmount, At(1)(v)),
         priceCurrency := OrElse(l.priceCurrency, At(2)(v)),
         priceFrequency := OrElse(l.priceFrequency, At(3)(v)))
    case Image => l.(images := l.images + ToList(At(1)(v)))
    case Topic => l.(topics := l.topics + ToList(At(1)(v)))
    case Platform => l.(platforms := l.platforms + ToList(At(1)(v)))
    case Nip94 => l.(nip94 := OrElse(l.nip94, At(1)(v)))
    case Server => l.(servers := l.servers + ToList(Nonempty(v)))
    case FileHash => l.(fileHash := OrElse(l.fileHash, Nonempty(v)))
    case Version => l.(version := OrElse(l.version, Nonempty(v)))
    case Authorization =>
      if repeated then l
      else
        l.(authorizations := l.authorizations + ToList(ReadAuthorization(urls)(v)),
           malformedAuthorizations := l.malformedAuthorizations + ToList(Malformed(urls)(v)))
    case Acquisition => if acquisitionSeen then l else l.(acquisition := GetOr(ReadAcquisition(v), Gated))
    case Campaign => l.(campaigns := l.campaigns + ToList(ReadCampaign(urls)(v)))
    case Other => l
  }

  predicate Repeated(naming: Naming, front: seq<Tag>, v: Tag) {
    naming(v) == Authorization && v in front
  }

  predicate AcquisitionSeen(naming: Naming, front: seq<Tag>) {
    exists v :: v in front && naming(v) == Acquisition
  }

  function Read(naming: Naming, urls: Urls, tags: seq<Tag>): Listing {
    if tags == [] then BLANK
    else
      var front, v := tags[..|tags| - 1], tags[|tags| - 1];
      Step(urls, Read(naming, urls, front), naming(v), Repeated(naming, front, v), AcquisitionSeen(naming, front), v)
  }

  method ParseTags(naming: Naming, urls: Urls, tags: seq<Tag>) returns (r: Result<Listing, ListingError>)
    ensures r == Complete(Read(naming, urls, tags))
  {
    var l := BLANK;
    var seen: set<Tag> := {};
    var acquisitionSeen := false;
    var i := 0;
    while i < |tags|
      invariant 0 <= i <= |tags|
      invariant l == Read(naming, urls, tags[..i])
      invariant forall x :: x in seen <==> x in tags[..i] && naming(x) == Authorization
      invariant acquisitionSeen == AcquisitionSeen(naming, tags[..i])
    {
      var v := tags[i];
      var f := naming(v);
      assert tags[..i + 1][..i] == tags[..i];
      l := Step(urls, l, f, v in seen, acquisitionSeen, v);
      if f == Authorization {
        seen := seen + {v};
      }
      acquisitionSeen := acquisitionSeen || f == Acquisition;
      i := i + 1;
    }
    assert tags[..i] == tags;
    if l.id.None? {
      return Failure(MissingIdentifier);
    }
    if l.title.None? {
      return Failure(MissingTitle);
    }
    return Success(l);
  }

  // ---------- the tag-by-tag reading finds exactly what each field's own tags say ----------

  lemma OfAppend(naming: Naming, field: Field, tags: seq<Tag>, v: Tag)
    ensures Of(naming, field, tags + [v]) ==
      if naming(v) == field then Of(naming, field, tags) + [v] else Of(naming, field, tags)
  {
    OfConcat(naming, field, tags, [v]);
    OfSingle(naming, field, v);
  }

  lemma FirstStep<T>(naming: Naming, read: Tag -> Option<T>, field: Field, tags: seq<Tag>, v: Tag)
    ensures First(read, Of(naming, field, tags + [v])) ==
      if naming(v) == field then OrElse(First(read, Of(naming, field, tags)), read(v))
      else First(read, Of(naming, field, tags))
  {
    OfAppend(naming, field, tags, v);
    ReadAppend(read, Of(naming, field, tags), v);
  }

  lemma CollectStep<T>(naming: Naming, read: Tag -> Option<T>, field: Field, tags: seq<Tag>, v: Tag)
    ensures Collect(read, Of(naming, field, tags + [v])) ==
      if naming(v) == field then Collect(read, Of(naming, field, tags)) + ToList(read(v))
      else Collect(read, Of(naming, field, tags))
  {
    OfAppend(naming, field, tags, v);
    ReadAppend(read, Of(naming, field, tags), v);
  }

  lemma AuthorizationTagsStep(naming: Naming, tags: seq<Tag>, v: Tag)
    ensures AuthorizationTags(naming, tags + [v]) ==
      if naming(v) != Authorization || Repeated(naming, tags, v) then AuthorizationTags(naming, tags)
      else AuthorizationTags(naming, tags) + [v]
  {
    OfAppend(naming, Authorization, tags, v);
    if naming(v) == Authorization {
      var before := Of(naming, Authorization, tags);
      UnseenAppend(Same, before, v, {});
      assert (exists x :: x in before && Same(x) == Same(v)) <==> v in before;
    }
  }

  lemma AuthorizationStep<T>(naming: Naming, read: Tag -> Option<T>, tags: seq<Tag>, v: Tag)
    ensures Collect(read, AuthorizationTags(naming, tags + [v])) ==
      if naming(v) != Authorization || Repeated(naming, tags, v) then Collect(read, AuthorizationTags(naming, tags))
      else Collect(read, AuthorizationTags(naming, tags)) + ToList(read(v))
  {
    AuthorizationTagsStep(naming, tags, v);
    ReadAppend(read, AuthorizationTags(naming, tags), v);
  }

  lemma AcquisitionStep(naming: Naming, tags: seq<Tag>, v: Tag)
    ensures GetOr(First(ReadAcquisition, Of(naming, Acquisition, tags + [v])), Gated) ==
      if naming(v) == Acquisition && !AcquisitionSeen(naming, tags) then GetOr(ReadAcquisition(v), Gated)
      else GetOr(First(ReadAcquisition, Of(naming, Acquisition, tags)), Gated)
  {
    FirstStep(naming, ReadAcquisition, Acquisition, tags, v);
    var before := Of(naming, Acquisition, tags);
    if AcquisitionSeen(naming, tags) {
      assert before != [];
    } else if before != [] {
      assert before[0] in before && before[0] in tags;
    }
  }

  /** The same step, told field by field: what becomes of each field, whatever the tag. */
  function StepByField(urls: Urls, l: Listing, f: Field, repeated: bool, acquisitionSeen: bool, v: Tag): Listing {
    Listing(
      if f == Id then OrElse(l.id, At(1)(v)) else l.id,
      if f == Title then OrElse(l.title, At(1)(v)) else l.title,
      if f == Summary then OrElse(l.summary, At(1)(v)) else l.summary,
      if f == PublishedAt then OrElse(l.publishedAt, Published(v)) else l.publishedAt,
      if f == Location then OrElse(l.location, At(1)(v)) else l.location,
      if f == Geohash then OrElse(l.geohash, At(1)(v)) else l.geohash,
      if f == Status then OrElse(l.status, At(1)(v)) else l.status,
      if f == Price then OrElse(l.priceAmount, At(1)(v)) else l.priceAmount,
      if f == Price then OrElse(l.priceCurrency, At(2)(v)) else l.priceCurrency,
      if f == Price then OrElse(l.priceFrequency, At(3)(v)) else l.priceFrequency,
      if f == Image then l.images + ToList(At(1)(v)) else l.images,
      if f == Topic then l.topics + ToList(At(1)(v)) else l.topics,
      if f == Platform then l.platforms + ToList(At(1)(v)) else l.platforms,
      if f == Nip94 then OrElse(l.nip94, At(1)(v)) else l.nip94,
      if f == Server then l.servers + ToList(Nonempty(v)) else l.servers,
      if f == FileHash then OrElse(l.fileHash, Nonempty(v)) else l.fileHash,
      if f == Version then OrElse(l.version, Nonempty(v)) else l.version,
      if f == Authorization && !repeated then l.authorizations + ToList(ReadAuthorization(urls)(v))
      else l.authorizations,
      if f == Authorization && !repeated then l.malformedAuthorizations + ToList(Malformed(urls)(v))
      else l.malformedAuthorizations,
      if f == Acquisition && !acquisitionSeen then GetOr(ReadAcquisition(v), Gated) else l.acquisition,
      if f == Campaign then l.campaigns + ToList(ReadCampaign(urls)(v)) else l.campaigns)
  }

  predicate IsText(f: Field) {
    f == Id || f == Title || f == Summary || f == PublishedAt || f == Location || f == Geohash || f == Status ||
    f == Price || f == Nip94
  }

  lemma TextStepsAgree(urls: Urls, l: Listing, f: Field, repeated: bool, acquisitionSeen: bool, v: Tag)
    requires IsText(f)
    ensures Step(urls, l, f, repeated, acquisitionSeen, v) == StepByField(urls, l, f, repeated, acquisitionSeen, v)
  {
  }

  lemma OtherStepsAgree(urls: Urls, l: Listing, f: Field, repeated: bool, acquisitionSeen: bool, v: Tag)
    requires !IsText(f)
    ensures Step(urls, l, f, repeated, acquisitionSeen, v) == StepByField(urls, l, f, repeated, acquisitionSeen, v)
  {
  }

  lemma StepsAgree(urls: Urls, l: Listing, f: Field, repeated: bool, acquisitionSeen: bool, v: Tag)
    ensures Step(urls, l, f, repeated, acquisitionSeen, v) == StepByField(urls, l, f, repeated, acquisitionSeen, v)
  {
    if IsText(f) {
      TextStepsAgree(urls, l, f, repeated, acquisitionSeen, v);
    } else {
      OtherStepsAgree(urls, l, f, repeated, acquisitionSeen, v);
    }
  }

  lemma StepExtracts(naming: Naming, urls: Urls, tags: seq<Tag>, v: Tag)
    ensures Extract(naming, urls, tags + [v]) ==
      StepByField(urls, Extract(naming, urls, tags), naming(v), Repeated(naming, tags, v),
        AcquisitionSeen(naming, tags), v)
  {
    FirstStep(naming, At(1), Id, tags, v);
    FirstStep(naming, At(1), Title, tags, v);
    FirstStep(naming, At(1), Summary, tags, v);
    FirstStep(naming, Published, PublishedAt, tags, v);
    FirstStep(naming, At(1), Location, tags, v);
    FirstStep(naming, At(1), Geohash, tags, v);
    FirstStep(naming, At(1), Status, tags, v);
    FirstStep(naming, At(1), Price, tags, v);
    FirstStep(naming, At(2), Price, tags, v);
    FirstStep(naming, At(3), Price, tags, v);
    CollectStep(naming, At(1), Image, tags, v);
    CollectStep(naming, At(1), Topic, tags, v);
    CollectStep(naming, At(1), Platform, tags, v);
    FirstStep(naming, At(1), Nip94, tags, v);
    CollectStep(naming, Nonempty, Server, tags, v);
    FirstStep(naming, Nonempty, FileHash, tags, v);
    FirstStep(naming, Nonempty, Version, tags, v);
    AuthorizationStep(naming, ReadAuthorization(urls), tags, v);
    AuthorizationStep(naming, Malformed(urls), tags, v);
    AcquisitionStep(naming, tags, v);
    CollectStep(naming, ReadCampaign(urls), Campaign, tags, v);
  }

  lemma BlankExtracts(naming: Naming, urls: Urls)
    ensures Extract(naming, urls, []) == BLANK
  {
  }

  lemma ReadAppends(naming: Naming, urls: Urls, front: seq<Tag>, v: Tag)
    ensures Read(naming, urls, front + [v]) ==
      Step(urls, Read(naming, urls, front), naming(v), Repeated(naming, front, v), AcquisitionSeen(naming, front), v)
  {
    assert (front + [v])[..|front|] == front;
  }

  /** Reading a list tag by tag gives, for every field, what the tags of that field say on their own. */
  lemma {:induction false} ReadExtracts(naming: Naming, urls: Urls, tags: seq<Tag>)
    ensures Read(naming, urls, tags) == Extract(naming, urls, tags)
  {
    if tags == [] {
      BlankExtracts(naming, urls);
    } else {
      var front, v := tags[..|tags| - 1], tags[|tags| - 1];
      assert tags == front + [v];
      ReadAppends(naming, urls, front, v);
      ReadExtracts(naming, urls, front);
      var l, repeated, seen := Read(naming, urls, front), Repeated(naming, front, v), AcquisitionSeen(naming, front);
      StepsAgree(urls, l, naming(v), repeated, seen, v);
      StepExtracts(naming, urls, front, v);
    }
  }

  // ---------- the names in use ----------

  lemma TextNames(name: string)
    ensures
      && (FieldNamed(name) == Id <==> name == "d")
      && (FieldNamed(name) == Title <==> name == "title")
      && (FieldNamed(name) == Summary <==> name == "summary")
      && (FieldNamed(name) == PublishedAt <==> name == "published_at")
      && (FieldNamed(name) == Location <==> name == "location")
      && (FieldNamed(name) == Geohash <==> name == "g")
  {
  }

  lemma DisplayNames(name: string)
    ensures
      && (FieldNamed(name) == Status <==> name == "status")
      && (FieldNamed(name) == Price <==> name == "price")
      && (FieldNamed(name) == Image <==> name == "image")
      && (FieldNamed(name) == Topic <==> name == "t")
      && (FieldNamed(name) == Platform <==> name == "platform")
      && (FieldNamed(name) == Nip94 <==> name == "nip94")
  {
  }

  lemma ReleaseNames(name: string)
    ensures
      && (FieldNamed(name) == Server <==> name == "server")
      && (FieldNamed(name) == FileHash <==> name == "file_hash")
      && (FieldNamed(name) == Version <==> name == "version")
      && (FieldNamed(name) == Authorization <==> name == "fulfillment_authorization")
      && (FieldNamed(name) == Acquisition <==> name == "acquisition")
      && (FieldNamed(name) == Campaign <==> name == "campaign")
  {
  }

  /** The tags that feed a field are the tags of its name. */
  lemma TagsNamed(field: Field, name: string, tags: seq<Tag>)
    requires field != Other && forall s :: FieldNamed(s) == field <==> s == name
    ensures Of(ByName(FieldNamed), field, tags) == Named(tags, name)
  {
    forall tag | tag in tags ensures (ByName(FieldNamed)(tag) == field) == HasName(tag, name) {
      if tag != [] {
        assert FieldNamed(tag[0]) == field <==> tag[0] == name;
      }
    }
    FilterSame((tag: Tag) => ByName(FieldNamed)(tag) == field, (tag: Tag) => HasName(tag, name), tags);
  }

  lemma TextTags(tags: seq<Tag>)
    ensures
      && Of(ByName(FieldNamed), Id, tags) == Named(tags, "d")
      && Of(ByName(FieldNamed), Title, tags) == Named(tags, "title")
      && Of(ByName(FieldNamed), Summary, tags) == Named(tags, "summary")
      && Of(ByName(FieldNamed), PublishedAt, tags) == Named(tags, "published_at")
      && Of(ByName(FieldNamed), Location, tags) == Named(tags, "location")
      && Of(ByName(FieldNamed), Geohash, tags) == Named(tags, "g")
  {
    forall s {
      TextNames(s);
    }
    TagsNamed(Id, "d", tags);
    TagsNamed(Title, "title", tags);
    TagsNamed(Summary, "summary", tags);
    TagsNamed(PublishedAt, "published_at", tags);
    TagsNamed(Location, "location", tags);
    TagsNamed(Geohash, "g", tags);
  }

  lemma DisplayTags(tags: seq<Tag>)
    ensures
      && Of(ByName(FieldNamed), Status, tags) == Named(tags, "status")
      && Of(ByName(FieldNamed), Price, tags) == Named(tags, "price")
      && Of(ByName(FieldNamed), Image, tags) == Named(tags, "image")
      && Of(ByName(FieldNamed), Topic, tags) == Named(tags, "t")
      && Of(ByName(FieldNamed), Platform, tags) == Named(tags, "platform")
      && Of(ByName(FieldNamed), Nip94, tags) == Named(tags, "nip94")
  {
    forall s {
      DisplayNames(s);
    }
    TagsNamed(Status, "status", tags);
    TagsNamed(Price, "price", tags);
    TagsNamed(Image, "image", tags);
    TagsNamed(Topic, "t", tags);
    TagsNamed(Platform, "platform", tags);
    TagsNamed(Nip94, "nip94", tags);
  }

  lemma ReleaseTags(tags: seq<Tag>)
    ensures
      && Of(ByName(FieldNamed), Server, tags) == Named(tags, "server")
      && Of(ByName(FieldNamed), FileHash, tags) == Named(tags, "file_hash")
      && Of(ByName(FieldNamed), Version, tags) == Named(tags, "version")
      && Of(ByName(FieldNamed), Authorization, tags) == Named(tags, "fulfillment_authorization")
      && Of(ByName(FieldNamed), Acquisition, tags) == Named(tags, "acquisition")
      && Of(ByName(FieldNamed), Campaign, tags) == Named(tags, "campaign")
  {
    forall s {
      ReleaseNames(s);
    }
    TagsNamed(Server, "server", tags);
    TagsNamed(FileHash, "file_hash", tags);
    TagsNamed(Version, "version", tags);
    TagsNamed(Authorization, "fulfillment_authorization", tags);
    TagsNamed(Acquisition, "acquisition", tags);
    TagsNamed(Campaign, "campaign", tags);
  }

  /** The listing that tags describe, by the names of the tags. */
  function ListingOf(urls: Urls, tags: seq<Tag>): Listing {
    var authorizations := Dedup(Same, Named(tags, "fulfillment_authorization"));
    Listing(
      First(At(1), Named(tags, "d")),
      First(At(1), Named(tags, "title")),
      First(At(1), Named(tags, "summary")),
      First(Published, Named(tags, "published_at")),
      First(At(1), Named(tags, "location")),
      First(At(1), Named(tags, "g")),
      First(At(1), Named(tags, "status")),
      First(At(1), Named(tags, "price")),
      First(At(2), Named(tags, "price")),
      First(At(3), Named(tags, "price")),
      Collect(At(1), Named(tags, "image")),
      Collect(At(1), Named(tags, "t")),
      Collect(At(1), Named(tags, "platform")),
      First(At(1), Named(tags, "nip94")),
      Collect(Nonempty, Named(tags, "server")),
      First(Nonempty, Named(tags, "file_hash")),
      First(Nonempty, Named(tags, "version")),
      Collect(ReadAuthorization(urls), authorizations),
      Collect(Malformed(urls), authorizations),
      GetOr(First(ReadAcquisition, Named(tags, "acquisition")), Gated),
      Collect(ReadCampaign(urls), Named(tags, "campaign")))
  }

  /** What feeds each field is read off the tags of one name. */
  lemma ExtractsByName(urls: Urls, tags: seq<Tag>)
    ensures Extract(ByName(FieldNamed), urls, tags) == ListingOf(urls, tags)
  {
    TextTags(tags);
    DisplayTags(tags);
    ReleaseTags(tags);
  }

  /** Parses the tags of a listing: for each field the tags of its name, in order; without a "d" or a "title" tag that
      has a value there is no listing. */
  method ParseListing(urls: Urls, tags: seq<Tag>) returns (r: Result<Listing, ListingError>)
    ensures r == Complete(Extract(ByName(FieldNamed), urls, tags))
    ensures r.Success? ==> r.value == ListingOf(urls, tags)
    ensures r == Failure(MissingIdentifier) <==> First(At(1), Named(tags, "d")) == None
    ensures r == Failure(MissingTitle) <==>
      First(At(1), Named(tags, "d")) != None && First(At(1), Named(tags, "title")) == None
  {
    ExtractsByName(urls, tags);
    r := ParseTags(ByName(FieldNamed), urls, tags);
    ReadExtracts(ByName(FieldNamed), urls, tags);
  }
}
