# Arcadestr protocol core, verified

Arcadestr sells games over Nostr relays. Relays deliver signed events in any order, repeated, partly hostile and partly
missing, and the client must still answer questions such as: which campaign is this, can it be claimed now, who may issue
grants for it, does this buyer own the game, which listing is current. This project models the code that answers them and
proves what the answers mean. `dafny verify dfyconfig.toml` checks the whole project.

Five parts, each a small group of modules:

- **Signed chains.** `Protocol` (events and exact tags), `Campaign`, `CampaignChain`, `CampaignHistory`,
  `CampaignLifecycle`, `CampaignForks`, `CampaignGrowth`, `CampaignClasses`, `Authorization`,
  `AuthorizationAuthority`, `AuthorizationBuilder`, `AuthorizationForks`, `AuthorizationMeaning`, `Entitlements`,
  `EntitlementValidity`, `ParseErrors`, `PriorClaims`, `EntitlementsStore` (file `EntitlementsRepository.dfy`),
  `GrantRevocation` and `CampaignDiscovery`. The resolvers are loops over lists, as in the source. Each is proved
  equal to a function of the *set* of visible events, and the history theorems are about that function.
  `CampaignGrowth`, `CampaignClasses`, `AuthorizationMeaning` and `GrantRevocation` say what one more event does, and
  what a state means, by the fields of the events alone.
- **Extended-network discovery.** `RelayCover` (capped greedy set cover), `FollowLists` (bounded window of batches as a
  state machine over completion orders) and `SocialGraph` (batched graph writer). Hash-map iteration is a nondeterministic
  choice throughout.
- **Last writer wins.** `Replaceable` (the order), `ListingStream` (the streaming map and the publisher's own list) and
  `MarketplaceCache` (the SQL guard). All three settle on the same winner of a key, the cache exactly while the
  key's timestamps all lie in one half of the unsigned range.
- **Builders against parsers.** `Campaign`, `AuthorizationBuilder`, and for listings `Listing` (the parser),
  `ListingBuilder` (what is checked and written), `ListingRoundTrip`, `ListingPublish` (the builder's loops) and
  `ListingEdit` (the desktop form that filters what is preserved).
- **Civil calendar.** `Calendar` (the integer-division formulas) and `CampaignForm` (the publisher's form).

`Base`, `Text` and `Sorting` hold shared vocabulary.

An event is its id, key, kind, time, tags and whether its signature verified. Ids and keys are the 64 lower-case hex digits
of their bytes, and decoding accepts either letter case, as the library does. Where a result rests on ids being digests of
the signed content, that is a stated hypothesis (`VerifiedIdsDetermine`, `IdsDetermineEvents`, `StampsDetermine`,
`KeyDetermines`).

## Where the code and a promise part ways

- `ADP-01-amendment-free-acquisitions.md:213` says that at a past time only events published by then are considered. The
  code resolves the whole list first, so later events can take the past away: a second root, two events competing for one
  place, an event delivered twice, or a node that is not what its event parses to. `CampaignForks.TwoRoots`,
  `CampaignForks.TwoCancellations` and `CampaignForks.RepeatedCancellation` are campaigns that can be claimed at instant
  22 and no longer resolve once the events of instant 25 on are there. The past is answered as before exactly when the
  whole list is well formed, without repetitions, and neither a second root nor a fork has appeared
  (`CampaignForks.PastSurvivesIff`). Discovery removes repetitions before it resolves. `PriorClaims.PriorClaimsSurvive`
  assumes that condition.
- An authorization root cancelled twice no longer resolves, its past included; that is the only way it stops resolving:
  `AuthorizationAuthority.StillResolvesIff`. `AuthorizationForks.TwoCancellations` is an authorization that permits grants
  at instant 22 and does not resolve once its cancellations of 25 and 26 are there.
- The cache compares timestamps as signed 64-bit numbers. It agrees with the shared order exactly when both timestamps fall
  in the same half of the unsigned range: `MarketplaceCache.GuardIsNewerIff`, with `MarketplaceCache.SignedComparisonReverses`
  as an instance where it does not. A key ends at the shared winner exactly when all its listings lie in one half
  (`MarketplaceCache.CacheConvergesIff`); in every case it ends at the winner by signed timestamp.
- The authorization builder accepts terms its own parser refuses: an empty capability, a coordinate of another publisher,
  or an operator that is the signing developer, whose p-tag is discarded on signing. A built root reads back exactly when
  none of these is the case (`AuthorizationBuilder.BuildAuthorizationTags`, whose contract covers both directions).
  `AuthorizationBuilder.EmptyCapabilityIsAccepted`, `AuthorizationBuilder.ForeignCoordinateIsAccepted` and
  `AuthorizationBuilder.SelfOperatorIsAccepted` are instances that do not; `AuthorizationBuilder.PlainRootIsRead` is one
  that does.
- Follow counts count p-tags. They count followers exactly when no list names the target twice:
  `SocialGraph.CountsFollowersIff`, with `SocialGraph.RepeatedTagCountsTwice` as an instance.
- A campaign event with an empty interval parses but cannot be built again: `Campaign.ParsedEventsCanBeRebuilt`, with
  `Campaign.EmptyIntervalParses` as an instance.
- The listing builder writes preserved tags ahead of most of the publisher's own, so for a caller that does not filter
  them a preserved `acquisition`, `nip94`, `file_hash` or `version` tag wins over the input. Each reads as the input's own
  exactly when the preserved tags hold no value for it, or the same one, and the price gets a frequency exactly when a
  preserved `price` tag has a fourth element: `ListingPublish.OwnValuesAreSeenIff`, with `ListingEdit.PreservedPolicyWins`
  as an instance. The desktop form removes the tags it manages before it builds; `ListingEdit.EditReadsBack` says what
  that guarantees.

## Model

| member | source | states |
|---|---|---|
| `Protocol.ExactTag` | core/src/adp_protocol.rs:67-92 | a value is returned exactly when one tag of that name exists and is the pair of name and a non-empty value; nothing is returned exactly when the tag is optional and absent |
| `Protocol.CoordinatePublisherIff` | core/src/adp_protocol.rs:94-103 | a coordinate names a publisher exactly when it is the listing kind, a key in hex and a name that is not empty, joined by colons |
| `Text.FromHexIff` | core/src/adp_protocol.rs:94-103 | a key or id is read from exactly 64 hex digits, in either letter case |
| `Text.ParseU64Iff` | core/src/campaign.rs:100-117 | a number is read from exactly its decimal digits, with or without a plus sign |
| `Campaign.ParsesIff` | core/src/campaign.rs:170-216 | an event parses exactly when it is a verified campaign event with campaign id, coordinate and status said once, a coordinate that names its signer, at most one predecessor, and either a cancelled status with a predecessor and no terms or an active one with mode, start and end said once; what is read is what these tags say |
| `ParseErrors.CampaignRefusedFor` | core/src/campaign.rs:100-216 | an event that does not parse is refused for the first thing wrong, in order: kind, signature, each tag (missing, repeated, misshapen, unreadable or unwanted), publisher |
| `Campaign.BuildCampaignTags` | core/src/campaign.rs:119-168 | tags are built exactly for well-formed parameters, otherwise the tag at fault is named; every verified event that carries them parses back to those parameters, or is refused when another key signed it |
| `Campaign.ParsedEventsCanBeRebuilt` | core/src/campaign.rs:119-216 | the builder accepts what was parsed exactly when its interval is not empty, and then builds the same transition |
| `Campaign.EmptyIntervalParses` | core/src/campaign.rs:119-216 | an instance: a root open from 20 to 20 parses, and the builder refuses its parameters |
| `CampaignChain.ResolveCampaignAt` | core/src/campaign.rs:235-353 | the loop over the node list, with its visited set and running terms, computes the set-based resolution, errors included |
| `CampaignChain.WalkVisible` | core/src/campaign.rs:305-345 | the successor loop returns the walk along the only admissible successors, or the fork; its cycle check never fires |
| `CampaignGrowth.RootAloneIff` | core/src/campaign.rs:263-303 | an event alone resolves exactly when it has no predecessor, is the publisher's for this game, and opens an interval that ends after it starts and does not start before publication |
| `CampaignGrowth.NextEventIff` | core/src/campaign.rs:305-352 | a parsed event naming the last event of a resolved campaign extends it exactly when it is later, has the same key, coordinate and campaign id, and, while nothing is cancelled, either cancels or replaces the terms by an interval that is not empty before the start in force; otherwise the campaign stays as it was |
| `CampaignHistory.ResolvesExactlyUnambiguousChains` | core/src/campaign.rs:263-352 | resolution succeeds exactly when there is one root and at every event one admissible successor or none, and returns that chain |
| `CampaignHistory.ChainsResolve` | core/src/campaign.rs:263-352 | every chain of events with distinct ids, each admitted by what came before, resolves to itself |
| `CampaignHistory.PrefixStability` | core/src/campaign.rs:227-353 | resolving at an earlier time yields exactly the events of the resolved chain published by then |
| `CampaignHistory.ReresolvingAChain` | core/src/campaign.rs:356-366 | a resolved chain resolved again at any time gives itself, cut at that time |
| `CampaignHistory.ReresolutionIsIdempotent` | core/src/campaign.rs:227-353 | resolving a resolved chain returns the same campaign |
| `CampaignHistory.OrderIndependence` | core/src/campaign.rs:235-353 | only which well-formed events are visible matters, not their order |
| `CampaignForks.FailsExactlyAtForks` | core/src/campaign.rs:305-345 | with one root, in order, resolution fails exactly when along some chain of the evidence two different events are admitted to the next place |
| `CampaignForks.ResolvesIff` | core/src/campaign.rs:227-353 | a list resolves exactly when its nodes are what their events parse to, with distinct ids, it has one root, in order, and it holds no fork |
| `CampaignForks.StillResolvesIff` | core/src/campaign.rs:227-353 | what resolved at some time on some evidence resolves on more exactly when that is well formed and brings no second root and no fork |
| `CampaignForks.PastSurvivesIff` | core/src/campaign.rs:227-386 | what resolved at a past time is answered the same by the whole list exactly when that list is well formed, without repetitions, and holds no second root and no fork |
| `CampaignForks.TwoCancellations` | core/src/campaign.rs:335-337 | an instance: a campaign claimable at 22 does not resolve once two cancellations of 25 and 26 are there |
| `CampaignForks.TwoRoots` | core/src/campaign.rs:263-277 | an instance: a campaign claimable at 22 does not resolve once a second root of 25 is there, and there is no fork |
| `CampaignForks.RepeatedCancellation` | core/src/campaign.rs:256-262 | an instance: a campaign claimable at 22 does not resolve once its cancellation of 25 is delivered twice, although there is no second root and no fork |
| `CampaignLifecycle.ComputeStateAt` | core/src/campaign.rs:356-386 | the state loop computes the specified state |
| `CampaignLifecycle.StateAtIsPrefixFold` | core/src/campaign.rs:356-386 | for a resolved campaign the state at a time is the fold of the events published by then, although the code resolves again |
| `CampaignLifecycle.ClaimableInterval` | core/src/campaign.rs:305-394 | a campaign is claimable exactly from the later of its final start and the last terms event, until the earlier of its final end and its cancellation |
| `CampaignClasses.ClaimableIff` | core/src/campaign.rs:356-394 | a campaign is claimable exactly while it is published, nothing published cancels it, and the time lies in the interval last set by a published event |
| `CampaignClasses.ClassIff` | core/src/campaign_discovery.rs:211-224 | Invalid is before the root, Cancelled from the cancellation on, and otherwise Upcoming is before the start in force, Active is claimable, and Ended is from the end in force on |
| `CampaignClasses.EarlyCancellation` | core/src/campaign.rs:305-345 | an instance: a claim of 10 open from 20 to 30 and cancelled at 15 is cancelled and not claimable at 22 |
| `CampaignClasses.EarlyReplacement` | core/src/campaign.rs:305-345 | an instance: the same claim moved at 15 to 40 until 50 is upcoming at 22, active at 40 and ended at 50 |
| `CampaignLifecycle.TermsFrozenAfterStart` | core/src/campaign.rs:326-329 | once the start in force is reached the terms never change |
| `CampaignLifecycle.LifecycleIsMonotone` | core/src/campaign_discovery.rs:211-224 | the classification never moves backwards through Invalid, Upcoming, Active, Ended, Cancelled |
| `CampaignLifecycle.LaterEvidenceKeepsThePast` | core/src/campaign.rs:235-394 | two resolutions whose evidence agrees up to a time agree on every state up to it |
| `Authorization.ParsesIff` | core/src/authorization.rs:192-254 | an event parses exactly when it is a verified authorization event with tags of known names only, whose tags each say the terms once and at least one known and no empty capability, under a coordinate that names its signer, and which is a root that does not start before it is published or a cancellation with a predecessor; what is read is what they say |
| `ParseErrors.AuthorizationRefusedFor` | core/src/authorization.rs:192-254 | the same for authorizations, unknown tags and capabilities included |
| `Authorization.IndexFindsCancellations` | core/src/authorization.rs:282-308 | the raw predecessor index lists each cancellation a full scan would find, exactly once |
| `Authorization.ResolveAuthorizationAt` | core/src/authorization.rs:263-320 | the resolver that goes through the index equals the resolution by full scan |
| `AuthorizationMeaning.CancelledIff` | core/src/authorization.rs:263-320 | a root with one event that names a predecessor is cancelled, from that event's time, exactly when the event is later, names the root and repeats each of its terms; otherwise the root stands alone |
| `AuthorizationMeaning.AuthorizesIff` | core/src/authorization.rs:322-343 | what a resolved authorization permits is what its root's tags say (key, coordinate, a known capability among those listed, a start not after the time) while none of the events cancels it by then |
| `AuthorizationAuthority.MoreEvents` | core/src/authorization.rs:263-320 | more events may add a cancellation or a fork, but never change or remove what was found, and never repair a failure |
| `AuthorizationAuthority.AuthorityOnlyShrinks` | core/src/authorization.rs:263-343 | whatever is authorized under more events or a later cut was authorized under fewer |
| `AuthorizationAuthority.StillResolvesIff` | core/src/authorization.rs:263-320 | an authorization that resolved on some events resolves on more exactly when they do not cancel its root twice |
| `AuthorizationForks.CancellationIsRead` | core/src/authorization.rs:192-308 | a cancellation that repeats the tags of a readable built root, later and pointing at it, parses and cancels it |
| `AuthorizationForks.LateForkTakesThePast` | core/src/authorization.rs:263-320 | a root with two cancellations later than a time resolves at that time, and is a fork once both are seen |
| `AuthorizationForks.TwoCancellations` | core/src/authorization.rs:263-343 | an instance: an authorization that permits grants at 22 is a fork once cancellations of 25 and 26 are there |
| `AuthorizationAuthority.ForksPersist` | core/src/authorization.rs:305-307 | a fork is final |
| `AuthorizationAuthority.LaterEventsKeepAuthority` | core/src/authorization.rs:330-343 | events published after a time do not change what was authorized at it |
| `AuthorizationAuthority.SelectReusable` | core/src/authorization.rs:345-377 | the selected authorization is reusable and has the lowest root id; none is selected exactly when none is reusable |
| `AuthorizationBuilder.BuildAuthorizationTags` | core/src/adp_publish.rs:104-148 | tags are built exactly for an identifier and a known capability; a root signed with them reads back as its terms exactly when the coordinate names the signer, the operator is another key and no capability is empty |
| `AuthorizationBuilder.EmptyCapabilityIsAccepted` | core/src/adp_publish.rs:104-148 | an instance: terms with an empty capability are built, and the root carrying the built tags is refused |
| `AuthorizationBuilder.ForeignCoordinateIsAccepted` | core/src/adp_publish.rs:104-148 | an instance: terms for the coordinate of another publisher are built, and the root carrying the built tags is refused |
| `AuthorizationBuilder.SelfOperatorIsAccepted` | core/src/adp_publish.rs:104-148 | an instance: terms whose operator is the signer are built, and the signed root has lost its operator and is refused |
| `Entitlements.ParsesIff` | core/src/entitlements.rs:78-148 | an event parses exactly when it is a verified grant event whose tags each say grant id, recipient, coordinate and source once, authorization and reason at most once, and a status that fits its predecessor; what is read is what they say |
| `ParseErrors.GrantRefusedFor` | core/src/entitlements.rs:78-148 | the same for grants |
| `Entitlements.ResolveEntitlementGrant` | core/src/entitlements.rs:150-225 | the loop over the nodes computes the set-based resolution of a grant, errors included |
| `Entitlements.GrantOrderIndependence` | core/src/entitlements.rs:150-225 | order and repetition of grant events do not matter |
| `Entitlements.RevocationIsFinal` | core/src/entitlements.rs:150-225 | a grant that resolves to Revoked resolves to the same chain under any larger evidence that still resolves |
| `EntitlementValidity.ResolvesToItselfIff` | core/src/entitlements.rs:150-225 | a grant resolves to itself exactly when it is a root alone, or a root followed by a later revocation of the same claim signed by the publisher |
| `EntitlementValidity.ValidIff` | core/src/entitlements.rs:227-277 | a grant is valid exactly when it is such a chain, claims from this campaign, was issued while the campaign could be claimed, and was issued by the publisher without an authorization or by another key under the authorization it refers to |
| `EntitlementValidity.ValidInIntervalIff` | core/src/entitlements.rs:227-277 | for a resolved campaign the issue time must lie from the later of the final start and the last terms event on, before the earlier of the final end and the cancellation |
| `EntitlementValidity.UnreachableErrors` | core/src/entitlements.rs:227-277 | the invalid-coordinate and unauthorized-revoker errors are never returned |
| `GrantRevocation.RevokedIff` | core/src/entitlements.rs:150-225 | a grant and a parsed event naming a predecessor resolve to both, revoked, exactly when the event is later, has another id, names the grant, repeats grant id, recipient, coordinate, source and authorization, and is the publisher's; otherwise the grant stands, unless the event names itself |
| `GrantRevocation.RevocationAcceptedIff` | core/src/entitlements_repository.rs:47-91 | a revocation of the only stored grant of a group is stored exactly when that grant is a valid claim of the campaign and authorization it is presented with |
| `GrantRevocation.StoredGrantStands` | core/src/entitlements_repository.rs:93-124 | until then the grant stands and the buyer owns the game |
| `GrantRevocation.RevocationEndsOwnership` | core/src/entitlements_repository.rs:47-124 | once such a revocation is stored the buyer owns the game exactly when another of their grants for it stands, and no other ownership changes |
| `PriorClaims.PublisherClaimsSurvive` | core/src/entitlements.rs:227-277 | the verdict on a publisher's own grant is unchanged by campaign events published after it was issued, cancellations included, when the list stays well formed and they bring no second root and no fork |
| `PriorClaims.PriorClaimsSurvive` | core/src/entitlements.rs:227-277 | the verdict on a delegated grant is unchanged by campaign and authorization events published after it was issued, cancellations included, when the campaign's list stays well formed and gets no second root and no fork, and the authorization is cancelled at most once |
| `EntitlementsStore.RunKeepsStore` | core/src/entitlements_repository.rs:47-91 | after every sequence of ingests each stored group resolves, every row is what its event says, and nothing stored is lost |
| `EntitlementsStore.RevokedStaysRevoked` | core/src/entitlements_repository.rs:47-91 | once a group resolves to Revoked no sequence of ingests changes how it resolves |
| `EntitlementsStore.IngestIsIdempotent` | core/src/entitlements_repository.rs:47-91 | an accepted ingest is accepted again and changes nothing |
| `EntitlementsStore.EntitlementsRepository.IngestEvent` | core/src/entitlements_repository.rs:47-91 | the method accepts and stores exactly as specified and keeps the store invariant |
| `EntitlementsStore.EntitlementsRepository.ParsedEvents` | core/src/entitlements_repository.rs:177-221 | the query returns each matching stored event once, in an order left open |
| `EntitlementsStore.EntitlementsRepository.ChainsFor` | core/src/entitlements_repository.rs:93-112 | it returns exactly the chains of the buyer's stored groups and drops no group |
| `EntitlementsStore.EntitlementsRepository.IsOwned` | core/src/entitlements_repository.rs:114-124 | a game is owned exactly when some stored grant of the buyer for it resolves to Granted |
| `CampaignDiscovery.ResolveCampaignCandidatesReport` | core/src/campaign_discovery.rs:144-209 | the loops over pointers, groups and events produce the report: each candidate once, resolved with its class or invalid, in ascending order |
| `CampaignDiscovery.CandidateIff` | core/src/campaign_discovery.rs:144-209 | a campaign is a candidate exactly when a followed pointer target or a fallback event parses, is the publisher's and is about this game and campaign |
| `CampaignDiscovery.GroupIff` | core/src/campaign_discovery.rs:144-209 | what is resolved for a campaign is every event of the chains, pointer targets and fallback that does |
| `CampaignDiscovery.ReportIsDetermined` | core/src/campaign_discovery.rs:144-209 | the sets of events determine the report, so permuting or repeating events changes nothing |
| `CampaignDiscovery.CandidatesArePartitioned` | core/src/campaign_discovery.rs:144-209 | every candidate id is in exactly one of the two lists and nothing else is in either |
| `CampaignDiscovery.PointersAreOnlyHints` | core/src/campaign_discovery.rs:144-209 | pointers whose events the fallback query already delivered change nothing |
| `Replaceable.NewerIsStrictTotalOrder` | core/src/replaceable_event.rs:5-20 | the replacement order is irreflexive, transitive and total on stamps |
| `Text.LessIff` | core/src/replaceable_event.rs:5-20 | ids are compared at the first character that differs, a proper prefix first |
| `Replaceable.LatestHoldsWinners` | core/src/replaceable_event.rs:5-20 | keeping replacements over any arrivals leaves every key at an arrival that nothing supersedes |
| `Replaceable.LatestIsOrderIndependent` | core/src/replaceable_event.rs:5-20 | the same arrivals in any order and repetition leave the same map |
| `ListingStream.Stream.RecordReplaceableEvent` | core/src/marketplace.rs:1210-1238 | an event is accepted exactly when it is first for its coordinate or newer, and only then recorded |
| `ListingStream.Stream.Receive` | core/src/marketplace.rs:1268-1300 | the callback keeps the map, the emitted listings and the counter equal to their specification over all arrivals |
| `ListingStream.EmissionsImprove` | core/src/marketplace.rs:1240-1310 | per coordinate the emitted listings strictly improve and end with the winner |
| `ListingStream.DistinctCoordinates` | core/src/marketplace.rs:1240-1310 | the counted coordinates are exactly those that arrived |
| `ListingStream.CurrentUserListings` | app/src/campaign_management.rs:112-135 | the list holds one listing for each id among the publisher's own, one to which every other of that id gives way (earlier, or as late with an id that is not lower), latest first |
| `ListingStream.StreamAgreesWithCurrent` | app/src/campaign_management.rs:112-135 | the stream and the local list settle on the same event for a coordinate |
| `MarketplaceCache.Cache.UpsertListing` | core/src/marketplace_cache.rs:170-301 | the row is inserted, overwritten or left alone by the guard, and the outcome says which; a written row holds the listing's columns, event id and timestamp and the time of writing |
| `MarketplaceCache.GuardIsNewerIff` | core/src/marketplace_cache.rs:170-301 | the first conjunct of the guard is the shared order exactly when both timestamps fall in the same half of the unsigned range |
| `MarketplaceCache.SignedComparisonReverses` | core/src/marketplace_cache.rs:170-301 | an event at instant 0 replaces one just past the signed range |
| `MarketplaceCache.OutrankingDiffers` | core/src/marketplace_cache.rs:170-301 | the conjunct that something must differ is implied on every row that has a policy |
| `MarketplaceCache.DiffersIff` | core/src/marketplace_cache.rs:170-301 | that conjunct compares exactly what readers see, absent texts as empty and absent numbers as zero |
| `MarketplaceCache.CacheKeepsSignedWinners` | core/src/marketplace_cache.rs:170-301 | any history of upserts leaves every key at its winner by signed timestamp, lower id on ties |
| `MarketplaceCache.CacheConvergesIff` | core/src/marketplace_cache.rs:170-301 | a key ends at the winner of the shared order exactly when its listings all lie in one half of the unsigned range |
| `MarketplaceCache.CachesAgree` | core/src/marketplace_cache.rs:170-301 | two histories of the same listings leave the same rows up to the time of writing |
| `RelayCover.BuildRelayMap` | core/src/extended_network.rs:776-806 | a relay lists an author exactly when the author's cached relay list announces it in admissible form, or, only for an author without one, the hints do |
| `RelayCover.ComputeRelaySetCover` | core/src/extended_network.rs:818-861 | every pick is new, serves most of what is uncovered and removes at most 300; the loop ends covered, at 100 picks, or with no useful relay left |
| `RelayCover.UncoveredOnlyByCap` | core/src/extended_network.rs:849-860 | below 100 picks, a pubkey left uncovered is listed only by relays that were picked while they had more than 300 uncovered authors |
| `RelayCover.GreedyBound` | core/src/extended_network.rs:818-861 | if k relays cover all n pubkeys within the cap, after i picks the uncovered number times k^i is at most n times (k-1)^i |
| `RelayCover.LogarithmicCover` | core/src/extended_network.rs:818-861 | the cover completes within k times (floor of log2 n, plus 1) picks whenever that is at most 100 |
| `FollowLists.ReplacementOrder` | core/src/extended_network.rs:676-686 | a list is replaced by a later one or, at the same instant, by one with a greater id; this is a strict order that only ties equal stamps |
| `FollowLists.EveryScheduleIsSafe` | core/src/extended_network.rs:350-450 | under every completion order at most 3 batches are in flight, the window is full while batches are pending, none is dispatched or finished twice, and each author is at the greatest event delivered so far |
| `FollowLists.IdleMeansDone` | core/src/extended_network.rs:350-450 | the loop stops only when every batch has completed exactly once |
| `FollowLists.SchedulesAgree` | core/src/extended_network.rs:350-450 | all schedules over the same outcomes end with the same lists |
| `FollowLists.ChunksCoverAuthors` | core/src/extended_network.rs:351-355 | the batches ask for every author once, in order |
| `FollowLists.FetchFollowLists` | core/src/extended_network.rs:350-450 | the loop with its window is one of these schedules, ends idle, and leaves each author at a delivered list such that every other delivered one is older, or of the same instant with an id that is not greater |
| `SocialGraph.SocialGraphDb.InsertBatch` | core/src/social_graph.rs:52-74 | all pairs of the batch are stored, repeated pairs once |
| `SocialGraph.BuildSocialGraph` | core/src/extended_network.rs:573-655 | pairs pile up list by list and are flushed whenever 5000 or more are pending; the batches concatenate to exactly the p-tag pairs of all lists, and each eligible target's count and hints are those of its tags |
| `SocialGraph.EntriesIff` | core/src/extended_network.rs:573-655 | a follow is scanned exactly when a p-tag of the follower's list names its target, with the third value as hint |
| `SocialGraph.CountsAreOrderIndependent` | core/src/extended_network.rs:573-655 | the counts do not depend on the order of the lists |
| `SocialGraph.CountsFollowersIff` | core/src/extended_network.rs:601-603 | a count is the number of distinct followers exactly when no list names the target twice |
| `SocialGraph.RepeatedTagCountsTwice` | core/src/extended_network.rs:601-603 | a list naming its target twice counts twice and stores one row |
| `Listing.ReadExtracts` | core/src/marketplace.rs:886-1029 | reading a tag list tag by tag gives for each field exactly what that field's own tags say: the first usable value, or all values in order |
| `Listing.ParseListing` | core/src/marketplace.rs:857-1071 | the loop computes, for each field, the first usable value or all values among the tags of that field's name, and fails exactly when identifier or title is missing |
| `Listing.FirstIff` | core/src/marketplace.rs:857-1071 | a first usable value is that of the earliest tag that has one, and is absent exactly when no tag has one |
| `Listing.PlacesIff` | core/src/marketplace.rs:857-1071 | a text field reads the second, third or fourth place of a tag that has it; release fields skip a blank one |
| `Listing.PublishedIff` | core/src/marketplace.rs:857-1071 | a publication date is a signed number in the second place |
| `Listing.AcquisitionIff` | core/src/marketplace.rs:857-1071 | a policy tag reads as public, or as timed with an interval that is not empty, exactly in those shapes, and as gated otherwise |
| `Listing.AuthorizationIff` | core/src/marketplace.rs:857-1071 | an authorization reference is read exactly from an id, a key and at most an acceptable relay |
| `Listing.CampaignIff` | core/src/marketplace.rs:857-1071 | a campaign pointer is read exactly from an id and at most an acceptable relay |
| `ListingBuilder.NoProblemIff` | core/src/adp_publish.rs:160-273 | the checks in order find nothing exactly when the input meets every stated condition |
| `ListingBuilder.MissingIff` | core/src/adp_publish.rs:167-203 | an incomplete release is reported with what it lacks, servers, file hash and version in this order |
| `ListingBuilder.PlatformTagIff` | core/src/adp_publish.rs:91-101 | a platform is accepted exactly when it is two words of letters, digits and underscores joined by a dash |
| `ListingBuilder.OfFlatten` | core/src/adp_publish.rs:275-385 | what feeds a field in a published listing is the part written for it, around what was preserved for it |
| `ListingRoundTrip.ReferencesReadBack` | core/src/adp_publish.rs:284-358 | the reader finds the preserved references, then the new ones, each exact text once, and no new malformed one |
| `ListingRoundTrip.PartsReadBack` | core/src/marketplace.rs:857-1071 | every field of the parsed listing is accounted for by the input and the preserved tags |
| `ListingPublish.BuildListing` | core/src/adp_publish.rs:157-386 | exactly the acceptable inputs are built, otherwise the first problem in order is named; whoever signs the tags, parsing gives the input laid over the preserved tags, and unread preserved tags are carried over in order, except p-tags for the signer |
| `ListingPublish.KeptTagsFeedTheSame` | core/src/adp_publish.rs:284-293 | dropping repeated references leaves every other field's tags as they were |
| `ListingPublish.InputIsRecovered` | core/src/adp_publish.rs:157-386 | when the preserved tags are references and names the parser does not read, parsing what was built and signed recovers the input and nothing else |
| `ListingPublish.OwnValuesAreSeenIff` | core/src/adp_publish.rs:275-385 | in what was built, signed and parsed, policy, release file, file hash and version are the input's own exactly when the preserved tags hold no value for them or the same one, and the price frequency is that of the preserved price tags |
| `ListingPublish.TopicsAreListedOnce` | core/src/adp_publish.rs:304-312 | every topic that is not blank is listed once, letter case ignored, in its first spelling; nothing else is listed and the built-in topic is not repeated |
| `Text.TrimTakesWhitespace` | core/src/adp_publish.rs:304-312 | trimming takes away whitespace at either end and nothing else |
| `Text.WhitespaceIff` | core/src/adp_publish.rs:304-312 | whitespace is the 25 code points of the Unicode property |
| `Text.LowerAsciiIff` | core/src/adp_publish.rs:304-312 | topics are compared with the 26 ASCII capitals lowered and nothing else changed |
| `ListingEdit.EditReadsBack` | desktop/src/adp_commands.rs:1276-1328 | the present tags filtered by the form, built, signed and parsed give the form's values for every managed field, the listing's own summary, publication date, place and status, and its own authorizations ahead of the new ones unless the edit replaces them |
| `ListingEdit.EditKeepsForeignTags` | desktop/src/adp_commands.rs:1276-1328 | an edit keeps the present tags of names nobody reads, in order, except an old lightning address or fulfillment key and p-tags for the signer, and adds the form's own address |
| `ListingEdit.PreservedPolicyWins` | core/src/adp_publish.rs:275-385 | an instance for a caller that does not filter: a public listing with a preserved gated policy is accepted, and reads as gated once built, signed and parsed |
| `Calendar.CivilOfDayNumber` | app/src/campaign_management.rs:296-307 | the date of a valid date's day number is that date, before 1970 as well |
| `Calendar.DayNumberOfCivil` | app/src/campaign_management.rs:296-307 | every day count names a valid date whose day number it is |
| `Calendar.NextDayAdvances` | app/src/campaign_management.rs:362-387 | the calendar's next day, read off the month lengths, has the next day number |
| `Calendar.CivilCountsDays` | app/src/campaign_management.rs:296-307 | the date of a day count is reached by counting that many calendar days from 1 January 1970 |
| `Calendar.DayNumbersKeepOrder` | app/src/campaign_management.rs:376-387 | day numbers order valid dates as the calendar does |
| `Calendar.ConversionsAreInverse` | app/src/campaign_management.rs:296-387 | a valid date converts exactly when it is not before the epoch, and the conversions undo each other |
| `CampaignForm.ReadsWhatIsSpelled` | app/src/campaign_management.rs:332-360 | a text is read as a moment exactly when it spells, around the first T, a date of the calendar and a time within the day |
| `Text.ParseI64Iff` | app/src/campaign_management.rs:332-360 | a signed number is read from exactly its digits with an optional sign, within 64 bits |
| `CampaignForm.ReadsInstantIff` | app/src/campaign_management.rs:326-387 | a text names an instant exactly when it spells a moment not before 1970, and the instant is 86400 seconds for each calendar day since then plus those of the time |
| `CampaignForm.UnixIsStrictlyMonotone` | app/src/campaign_management.rs:326-330 | one text names an earlier instant than another exactly when its fields come first lexicographically |
| `CampaignForm.FormAcceptsOrderedInstants` | app/src/campaign_management.rs:207-227 | the form is accepted exactly with an id, the free-claim type and two readable times in order, and returns their instants |
| `CampaignForm.UnfilledRefusedFor` | app/src/campaign_management.rs:207-227 | a form without id, free-claim type, start or end is refused for the first of these |
| `CampaignForm.FilledRefusedFor` | app/src/campaign_management.rs:207-227 | a form with an id, the free-claim type and two times is refused for the first time that names no instant, or because the end does not follow the start |
| `CampaignForm.UnixDayReadsBack` | app/src/campaign_management.rs:290-360 | the day printed for an instant, with a time of day appended, reads back as that time of the same day |

## Left out

- Signature verification: an event carries the outcome of the check on its own fields.
- Curve checks on public keys: any 32 bytes count as a key.
- URL and relay-address parsing: two predicates given to the listing parser and builder, of which only the refusal of the empty text is used.
- Relay-address normalization and host policy in the set cover and the graph writer: one partial function, applied where the code applies it.
- The nostr library's event builder beyond one step: signing discards the p-tags whose value is the signer's lower-case hex key and keeps every other tag.
- Error texts: errors are told apart by kind, tag name, event id or offending value only.
- The event id, author, time and content that the listing parser copies from its event.
- The order in which the capability set is written: any order is allowed, and the round trip holds for all of them.
- The first loop of `resolve_campaign_at`, which runs once and whose results are discarded.
- SQL: tables are maps, each repository call is one atomic step, database errors and the row order of queries are left open.
- Raw JSON in the entitlement table: the stored event is kept as it is, so a row that no longer decodes is not part of this model.
- Relay queries, timeouts and failed batches: a batch either delivers some events or none.
- Network discovery around the three modelled steps: finding the first-degree follows, connecting relays, the follower threshold, progress state and log lines.
- Contention on the streaming callback's locks: one callback runs at a time. The 32-bit counter is unbounded.
- 64-bit overflow in the calendar for astronomically large years, and the browser build of `datetime_local_to_unix`.
- Attestations, authorization discovery over relays, purchase receipts, buyer history and campaign pointer edits on listings: features beside the chains, caches and builders modelled here, with their own state.
- Marketplace filters, badges, storage of profiles, NIP-05 and web account caches, user interface, Tauri and wallet code.
