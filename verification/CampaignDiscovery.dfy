/** Turning three bags of relay events into a report on every candidate campaign. */
module CampaignDiscovery {
  import opened Base
  import opened Text
  import opened Protocol
  import opened Sorting
  import opened Campaign
  import opened CampaignChain
  import opened CampaignHistory
  import opened CampaignLifecycle

  datatype DiscoveryResult = DiscoveryResult(campaign: ResolvedCampaign, classification: CampaignClassification)

  datatype Report = Report(campaigns: seq<DiscoveryResult>, invalidIds: seq<string>)

  /** The events behind a report: pointer targets, pointer events, coordinate fallback and whole chains. */
  datatype Evidence = Evidence(pointers: set<EventId>, pointed: set<Event>, fallback: set<Event>, chained: set<Event>) {
    function All(): set<Event> {
      chained + pointed + fallback
    }
  }

  /** Ids digest the signed content, so two verified events with one id are one event. */
  ghost predicate VerifiedIdsDetermine(events: set<Event>) {
    forall a, b :: a in events && b in events && a.verified && b.verified && a.id == b.id ==> a == b
  }

  predicate InScope(scope: Scope, event: Event) {
    var parsed := ParseCampaignEvent(event);
    parsed.Success? && parsed.value.event.pubkey == scope.publisher && parsed.value.coordinate == scope.coordinate
  }

  function ScopedId(scope: Scope, event: Event): string
    requires InScope(scope, event)
  {
    ParseCampaignEvent(event).value.campaignId
  }

  /** An event that makes its campaign a candidate: a followed pointer, or any fallback event. */
  predicate Nominates(scope: Scope, e: Evidence, event: Event) {
    && InScope(scope, event)
    && ((event in e.pointed && event.id in e.pointers) || event in e.fallback)
  }

  function Candidates(scope: Scope, e: Evidence): set<string> {
    set event | event in e.All() && Nominates(scope, e, event) :: ScopedId(scope, event)
  }

  /** All the evidence about one campaign id. */
  function Group(scope: Scope, e: Evidence, id: string): set<CampaignEvent> {
    set event | event in e.All() && InScope(scope, event) && ScopedId(scope, event) == id
      :: ParseCampaignEvent(event).value
  }

  /** The event parses, is the publisher's, and is about this game and campaign. */
  predicate Concerns(scope: Scope, id: string, event: Event) {
    var parsed := ParseCampaignEvent(event);
    && parsed.Success?
    && event.pubkey == scope.publisher
    && parsed.value.coordinate == scope.coordinate && parsed.value.campaignId == id
  }

  /** A campaign is a candidate exactly when a pointer target that was followed, or a fallback event, concerns it. */
  lemma CandidateIff(scope: Scope, e: Evidence, id: string)
    ensures id in Candidates(scope, e) <==>
      exists event :: Concerns(scope, id, event)
        && ((event in e.pointed && event.id in e.pointers) || event in e.fallback)
  {
    if event :| Concerns(scope, id, event) && ((event in e.pointed && event.id in e.pointers) || event in e.fallback) {
      assert event in e.All() && Nominates(scope, e, event) && ScopedId(scope, event) == id;
    }
    if id in Candidates(scope, e) {
      var event :| event in e.All() && Nominates(scope, e, event) && ScopedId(scope, event) == id;
      assert Concerns(scope, id, event);
    }
  }

  /** The evidence about a campaign is every parsed event found anywhere that concerns it. */
  lemma GroupIff(scope: Scope, e: Evidence, id: string, n: CampaignEvent)
    ensures n in Group(scope, e, id) <==>
      && (n.event in e.chained || n.event in e.pointed || n.event in e.fallback)
      && Concerns(scope, id, n.event) && ParseCampaignEvent(n.event) == Success(n)
  {
    if Concerns(scope, id, n.event) && ParseCampaignEvent(n.event) == Success(n) && n.event in e.All() {
      assert InScope(scope, n.event) && ScopedId(scope, n.event) == id;
    }
  }

  ghost function Verdict(scope: Scope, e: Evidence, id: string): Result<ResolvedCampaign, ChainError> {
    ResolveSet(scope, Group(scope, e, id))
  }

  function ResultId(r: DiscoveryResult): string {
    r.campaign.campaignId
  }

  function ById(a: DiscoveryResult, b: DiscoveryResult): bool {
    Less(ResultId(a), ResultId(b))
  }

  ghost predicate Reports(scope: Scope, e: Evidence, now: u64, id: string, r: DiscoveryResult) {
    && id in Candidates(scope, e)
    && Verdict(scope, e, id) == Success(r.campaign)
    && r.classification == ClassifyCampaign(r.campaign, now)
  }

  /** The report lists, in ascending order, each candidate once: resolved with its class, or invalid. */
  ghost predicate IsReport(scope: Scope, e: Evidence, now: u64, report: Report) {
    && (forall r :: r in report.campaigns <==> exists id :: Reports(scope, e, now, id, r))
    && (forall id :: id in report.invalidIds <==> id in Candidates(scope, e) && Verdict(scope, e, id).Failure?)
    && Ascending(ById, report.campaigns)
    && Ascending(Less, report.invalidIds)
  }

  // ---------- properties of every report ----------

  lemma ByIdIsStrictWeak()
    ensures StrictWeakOrder(ById)
  {
    LessIsStrictWeak();
    forall x: DiscoveryResult ensures !ById(x, x) {
      assert !Less(ResultId(x), ResultId(x));
    }
    forall x: DiscoveryResult, y: DiscoveryResult | ById(x, y) ensures !ById(y, x) {
      assert !Less(ResultId(y), ResultId(x));
    }
    forall x: DiscoveryResult, y: DiscoveryResult, z: DiscoveryResult | !ById(y, x) && !ById(z, y) ensures !ById(z, x) {
      assert !Less(ResultId(z), ResultId(x));
    }
  }

  /** The evidence determines the report: order and repetition of events cannot show in it. */
  lemma ReportIsDetermined(scope: Scope, e: Evidence, now: u64, a: Report, b: Report)
    requires IsReport(scope, e, now, a) && IsReport(scope, e, now, b)
    ensures a == b
  {
    ByIdIsStrictWeak();
    LessIsStrictWeak();
    AscendingUnique(ById, a.campaigns, b.campaigns);
    AscendingUnique(Less, a.invalidIds, b.invalidIds);
  }

  lemma GroupCarriesId(scope: Scope, e: Evidence, id: string, r: ResolvedCampaign)
    requires Verdict(scope, e, id) == Success(r)
    ensures r.campaignId == id
  {
    ResolvedIsUnambiguous(scope, Group(scope, e, id), r);
    UnambiguousIsChain(scope, Group(scope, e, id), r.events);
    assert r.events[0] in r.events;
  }

  lemma ReportedUnderOwnId(scope: Scope, e: Evidence, now: u64, id: string, r: DiscoveryResult)
    requires Reports(scope, e, now, id, r)
    ensures ResultId(r) == id
  {
    GroupCarriesId(scope, e, id, r.campaign);
  }

  ghost predicate Lists(report: Report, id: string) {
    exists r :: r in report.campaigns && ResultId(r) == id
  }

  lemma ListedMeansResolved(scope: Scope, e: Evidence, now: u64, report: Report, id: string)
    requires IsReport(scope, e, now, report)
    ensures Lists(report, id) <==> id in Candidates(scope, e) && Verdict(scope, e, id).Success?
  {
    if r :| r in report.campaigns && ResultId(r) == id {
      var other :| Reports(scope, e, now, other, r);
      ReportedUnderOwnId(scope, e, now, other, r);
    }
    if id in Candidates(scope, e) && Verdict(scope, e, id).Success? {
      var c := Verdict(scope, e, id).value;
      var r := DiscoveryResult(c, ClassifyCampaign(c, now));
      assert Reports(scope, e, now, id, r);
      ReportedUnderOwnId(scope, e, now, id, r);
      assert r in report.campaigns;
    }
  }

  /** Every candidate is in exactly one of the two lists, and nothing else is in either. */
  lemma CandidatesArePartitioned(scope: Scope, e: Evidence, now: u64, report: Report, id: string)
    requires IsReport(scope, e, now, report)
    ensures id in Candidates(scope, e) <==> id in report.invalidIds || Lists(report, id)
    ensures !(id in report.invalidIds && Lists(report, id))
  {
    ListedMeansResolved(scope, e, now, report, id);
  }

  /** Pointers whose events the fallback query already delivered change nothing. */
  lemma PointersAreOnlyHints(scope: Scope, e: Evidence, now: u64, report: Report)
    requires IsReport(scope, e, now, report) && e.pointed <= e.fallback
    ensures IsReport(scope, e.(pointers := {}, pointed := {}), now, report)
  {
    var plain := e.(pointers := {}, pointed := {});
    PlainEvidence(scope, e);
    assert forall id :: Verdict(scope, plain, id) == Verdict(scope, e, id);
    assert forall id, r :: Reports(scope, plain, now, id, r) <==> Reports(scope, e, now, id, r);
  }

  lemma PlainEvidence(scope: Scope, e: Evidence)
    requires e.pointed <= e.fallback
    ensures
      var plain := e.(pointers := {}, pointed := {});
      Candidates(scope, plain) == Candidates(scope, e) && forall id :: Group(scope, plain, id) == Group(scope, e, id)
  {
    var plain := e.(pointers := {}, pointed := {});
    assert plain.All() == e.All();
    assert forall event :: Nominates(scope, plain, event) <==> Nominates(scope, e, event);
  }

  // ---------- computing the report ----------

  method CollectCandidates(scope: Scope, pointers: set<EventId>, pointed: seq<Event>, fallback: seq<Event>,
                           ghost e: Evidence)
    returns (ids: set<string>)
    requires e.pointers == pointers && e.pointed == ToSet(pointed) && e.fallback == ToSet(fallback)
    ensures ids == Candidates(scope, e)
  {
    var nominees := Filter((event: Event) => event.id in pointers, pointed) + fallback;
    ids := {};
    for i := 0 to |nominees|
      invariant forall id :: id in ids <==>
        exists event :: event in nominees[..i] && InScope(scope, event) && ScopedId(scope, event) == id
    {
      assert nominees[..i + 1] == nominees[..i] + [nominees[i]];
      if InScope(scope, nominees[i]) {
        ids := ids + {ScopedId(scope, nominees[i])};
      }
    }
    assert nominees[..|nominees|] == nominees;
    forall id ensures id in ids <==> id in Candidates(scope, e) {
      assert forall event :: event in nominees && InScope(scope, event) <==> Nominates(scope, e, event);
    }
  }

  type Groups = map<string, seq<CampaignEvent>>

  /** `n` is the parsed form of a listed event about one of the campaigns `ids`. */
  ghost predicate Kept(scope: Scope, ids: set<string>, events: seq<Event>, n: CampaignEvent) {
    && n.event in events && InScope(scope, n.event)
    && ParseCampaignEvent(n.event) == Success(n) && n.campaignId in ids
  }

  method GroupEvents(scope: Scope, ids: set<string>, events: seq<Event>)
    returns (groups: Groups, ghost kept: seq<CampaignEvent>)
    ensures forall n :: n in kept <==> Kept(scope, ids, events, n)
    ensures GroupsOf(groups, kept)
  {
    groups, kept := map[], [];
    for i := 0 to |events|
      invariant forall n :: n in kept <==> Kept(scope, ids, events[..i], n)
      invariant GroupsOf(groups, kept)
    {
      var event := events[i];
      assert events[..i + 1] == events[..i] + [event];
      if InScope(scope, event) && ScopedId(scope, event) in ids {
        var parsed := ParseCampaignEvent(event).value;
        GroupingStep(groups, kept, parsed);
        groups := AddToGroup(groups, parsed);
        kept := kept + [parsed];
      }
    }
    assert events[..|events|] == events;
  }

  /** `groups` holds exactly the events of `kept`, each under its campaign id. */
  ghost predicate GroupsOf(groups: Groups, kept: seq<CampaignEvent>) {
    && (forall id :: id in groups <==> exists n :: n in kept && n.campaignId == id)
    && (forall id, n :: id in groups ==> (n in groups[id] <==> n in kept && n.campaignId == id))
  }

  lemma GroupingStep(groups: Groups, kept: seq<CampaignEvent>, n: CampaignEvent)
    requires GroupsOf(groups, kept)
    ensures GroupsOf(AddToGroup(groups, n), kept + [n])
  {
    var next := AddToGroup(groups, n);
    forall id ensures id in next <==> exists x :: x in kept + [n] && x.campaignId == id {
      if id == n.campaignId {
        assert n in kept + [n];
      } else if id in groups {
        var x :| x in kept && x.campaignId == id;
        assert x in kept + [n];
      }
    }
  }

  function AddToGroup(groups: Groups, n: CampaignEvent): Groups {
    groups[n.campaignId := (if n.campaignId in groups then groups[n.campaignId] else []) + [n]]
  }

  lemma SameMembersNonempty<T(!new)>(list: seq<T>, members: set<T>)
    requires members != {} && forall n :: n in list <==> n in members
    ensures list != [] && ToSet(list) == members
  {
    var n :| n in members;
    assert n in list;
  }

  /** A deduplicated group resolves as the set of its evidence does. */
  lemma GroupVerdict(scope: Scope, e: Evidence, id: string, list: seq<CampaignEvent>)
    requires VerifiedIdsDetermine(e.All())
    requires Group(scope, e, id) != {} && forall n :: n in list <==> n in Group(scope, e, id)
    ensures Resolve(Dedup(IdOf, list), scope) == Verdict(scope, e, id)
  {
    var unique := Dedup(IdOf, list);
    forall x, y | x in list && y in list && IdOf(x) == IdOf(y) ensures x == y {
      assert x.event.verified && y.event.verified;
      assert x.event == y.event;
    }
    DedupKeepsAll(IdOf, list);
    DedupDistinct(IdOf, list);
    FilterAll((n: CampaignEvent) => n.At() <= U64_MAX, unique);
    SameMembersNonempty(unique, Group(scope, e, id));
    assert forall n :: n in unique ==> ParseCampaignEvent(n.event) == Success(n);
  }

  method ResolveCampaignCandidatesReport(
    pointers: seq<EventId>, pointed: seq<Event>, fallback: seq<Event>, chained: seq<Event>,
    publisher: PublicKey, coordinate: string, now: u64)
    returns (report: Report)
    requires VerifiedIdsDetermine(ToSet(chained) + ToSet(pointed) + ToSet(fallback))
    ensures IsReport(Scope(publisher, coordinate),
                     Evidence(ToSet(pointers), ToSet(pointed), ToSet(fallback), ToSet(chained)), now, report)
  {
    var scope := Scope(publisher, coordinate);
    ghost var e := Evidence(ToSet(pointers), ToSet(pointed), ToSet(fallback), ToSet(chained));
    var ids := CollectCandidates(scope, ToSet(pointers), pointed, fallback, e);
    var events := chained + pointed + fallback;
    var groups, kept := GroupEvents(scope, ids, events);
    GroupsCoverCandidates(scope, e, ids, events, groups, kept);
    var campaigns, invalid := ResolveGroups(scope, groups, now, e);
    report := SortReport(scope, e, now, campaigns, invalid);
  }

  lemma KeptIsGroup(scope: Scope, e: Evidence, ids: set<string>, events: seq<Event>, id: string, n: CampaignEvent)
    requires ids == Candidates(scope, e) && e.All() == ToSet(events) && id in ids
    ensures n in Group(scope, e, id) <==> Kept(scope, ids, events, n) && n.campaignId == id
  {
    if n in Group(scope, e, id) {
      var event :| event in e.All() && InScope(scope, event) && ScopedId(scope, event) == id
        && ParseCampaignEvent(event).value == n;
      assert n.event == event && event in events;
    }
  }

  lemma CandidateHasGroup(scope: Scope, e: Evidence, id: string)
    requires id in Candidates(scope, e)
    ensures Group(scope, e, id) != {}
  {
    var event :| event in e.All() && Nominates(scope, e, event) && ScopedId(scope, event) == id;
    assert ParseCampaignEvent(event).value in Group(scope, e, id);
  }

  lemma CandidateIsKept(scope: Scope, e: Evidence, ids: set<string>, events: seq<Event>, kept: seq<CampaignEvent>,
                        id: string)
    requires ids == Candidates(scope, e) && e.All() == ToSet(events) && id in ids
    requires forall n :: n in kept <==> Kept(scope, ids, events, n)
    ensures exists n :: n in kept && n.campaignId == id
  {
    CandidateHasGroup(scope, e, id);
    var n :| n in Group(scope, e, id);
    KeptIsGroup(scope, e, ids, events, id, n);
    assert n in kept;
  }

  lemma GroupsCoverCandidates(scope: Scope, e: Evidence, ids: set<string>, events: seq<Event>, groups: Groups,
                              kept: seq<CampaignEvent>)
    requires ids == Candidates(scope, e) && e.All() == ToSet(events)
    requires forall n :: n in kept <==> Kept(scope, ids, events, n)
    requires GroupsOf(groups, kept)
    ensures groups.Keys == Candidates(scope, e)
    ensures forall id, n :: id in groups ==> (n in groups[id] <==> n in Group(scope, e, id))
  {
    forall id ensures id in groups <==> id in ids {
      if id in ids {
        CandidateIsKept(scope, e, ids, events, kept, id);
      }
    }
    forall id, n | id in groups ensures n in groups[id] <==> n in Group(scope, e, id) {
      KeptIsGroup(scope, e, ids, events, id, n);
    }
  }

  /** The report entry of a campaign id, if its evidence resolves. */
  ghost function Entry(scope: Scope, e: Evidence, now: u64, id: string): Option<DiscoveryResult> {
    match Verdict(scope, e, id)
    case Success(c) => Some(DiscoveryResult(c, ClassifyCampaign(c, now)))
    case Failure(_) => None
  }

  method ResolveGroup(scope: Scope, ghost e: Evidence, id: string, list: seq<CampaignEvent>, now: u64)
    returns (r: Option<DiscoveryResult>)
    requires VerifiedIdsDetermine(e.All()) && id in Candidates(scope, e)
    requires forall n :: n in list <==> n in Group(scope, e, id)
    ensures r == Entry(scope, e, now, id)
    ensures r.Some? ==> ResultId(r.value) == id
  {
    var unique := Dedup(IdOf, list);
    CandidateHasGroup(scope, e, id);
    GroupVerdict(scope, e, id, list);
    var resolved := ResolveCampaignAt(unique, scope.publisher, scope.coordinate, U64_MAX);
    if resolved.Failure? {
      return None;
    }
    GroupCarriesId(scope, e, id, resolved.value);
    var classification := Classify(resolved.value, now);
    return Some(DiscoveryResult(resolved.value, classification));
  }

  /** What the loop over the groups has produced for the ids in `done`. */
  ghost predicate Collected(entries: map<string, Option<DiscoveryResult>>, done: set<string>,
                            campaigns: seq<DiscoveryResult>, invalid: seq<string>) {
    && (forall r :: r in campaigns <==> exists id :: id in done && id in entries && entries[id] == Some(r))
    && (forall id :: id in invalid <==> id in done && id in entries && entries[id] == None)
    && (forall r :: r in campaigns ==> ResultId(r) in done)
    && DistinctKeys(ResultId, campaigns) && Distinct(invalid)
  }

  lemma CollectStep(entries: map<string, Option<DiscoveryResult>>, done: set<string>,
                    campaigns: seq<DiscoveryResult>, invalid: seq<string>, id: string)
    requires Collected(entries, done, campaigns, invalid) && id in entries && id !in done
    requires entries[id].Some? ==> ResultId(entries[id].value) == id
    ensures entries[id].Some? ==> Collected(entries, done + {id}, campaigns + [entries[id].value], invalid)
    ensures entries[id].None? ==> Collected(entries, done + {id}, campaigns, invalid + [id])
  {
    if entries[id].Some? {
      DistinctKeysAppend(ResultId, campaigns, entries[id].value);
    }
  }

  method ResolveGroups(scope: Scope, groups: Groups, now: u64, ghost e: Evidence)
    returns (campaigns: seq<DiscoveryResult>, invalid: seq<string>)
    requires VerifiedIdsDetermine(e.All()) && groups.Keys == Candidates(scope, e)
    requires forall id, n :: id in groups ==> (n in groups[id] <==> n in Group(scope, e, id))
    ensures forall r :: r in campaigns <==> exists id :: Reports(scope, e, now, id, r)
    ensures forall id :: id in invalid <==> id in Candidates(scope, e) && Verdict(scope, e, id).Failure?
    ensures DistinctKeys(ResultId, campaigns) && Distinct(invalid)
  {
    campaigns, invalid := [], [];
    ghost var entries := map id | id in groups :: Entry(scope, e, now, id);
    var todo := groups.Keys;
    ghost var done: set<string> := {};
    CollectedNothing(entries);
    while todo != {}
      invariant done + todo == groups.Keys && done !! todo
      invariant Collected(entries, done, campaigns, invalid)
      decreases todo
    {
      var id :| id in todo;
      var result := ResolveGroup(scope, e, id, groups[id], now);
      CollectStep(entries, done, campaigns, invalid, id);
      if result.Some? {
        campaigns := campaigns + [result.value];
      } else {
        invalid := invalid + [id];
      }
      MoveOne(done, todo, id);
      done, todo := done + {id}, todo - {id};
    }
    assert done == entries.Keys;
    CollectedAll(scope, e, now, entries, campaigns, invalid);
  }

  lemma CollectedNothing(entries: map<string, Option<DiscoveryResult>>)
    ensures Collected(entries, {}, [], [])
  {
  }

  lemma CollectedAll(scope: Scope, e: Evidence, now: u64, entries: map<string, Option<DiscoveryResult>>,
                     campaigns: seq<DiscoveryResult>, invalid: seq<string>)
    requires entries.Keys == Candidates(scope, e) && forall id :: id in entries ==>
             entries[id] == Entry(scope, e, now, id)
    requires Collected(entries, entries.Keys, campaigns, invalid)
    ensures forall r :: r in campaigns <==> exists id :: Reports(scope, e, now, id, r)
    ensures forall id :: id in invalid <==> id in Candidates(scope, e) && Verdict(scope, e, id).Failure?
  {
    forall r ensures r in campaigns <==> exists id :: Reports(scope, e, now, id, r) {
      if r in campaigns {
        var id :| id in entries && entries[id] == Some(r);
        assert entries[id] == Entry(scope, e, now, id);
        assert Reports(scope, e, now, id, r);
      }
      if id :| Reports(scope, e, now, id, r) {
        assert id in entries && entries[id] == Entry(scope, e, now, id) == Some(r);
      }
    }
  }

  method Classify(campaign: ResolvedCampaign, now: u64) returns (c: CampaignClassification)
    ensures c == ClassifyCampaign(campaign, now)
  {
    var state := ComputeStateAt(campaign, now);
    c := ClassifyState(state, now);
  }

  method SortReport(scope: Scope, ghost e: Evidence, now: u64, campaigns: seq<DiscoveryResult>, invalid: seq<string>)
    returns (report: Report)
    requires forall r :: r in campaigns <==> exists id :: Reports(scope, e, now, id, r)
    requires forall id :: id in invalid <==> id in Candidates(scope, e) && Verdict(scope, e, id).Failure?
    requires DistinctKeys(ResultId, campaigns) && Distinct(invalid)
    ensures IsReport(scope, e, now, report)
  {
    report := Report(Sort(ById, campaigns), Sort(Less, invalid));
    SortMembers(ById, campaigns);
    SortMembers(Less, invalid);
    ByIdIsStrictWeak();
    LessIsStrictWeak();
    SortAscending(ById, ResultId, campaigns);
    SortAscending(Less, (s: string) => s, invalid);
  }

  /** Sorting entries with distinct keys gives a strictly ascending list. */
  lemma SortAscending<T(!new)>(before: (T, T) -> bool, key: T -> string, s: seq<T>)
    requires StrictWeakOrder(before) && DistinctKeys(key, s)
    requires forall x, y :: before(x, y) <==> Less(key(x), key(y))
    ensures Ascending(before, Sort(before, s))
  {
    var sorted := Sort(before, s);
    SortSorted(before, s);
    SortMembers(before, s);
    forall i, j | 0 <= i < j < |sorted| ensures before(sorted[i], sorted[j]) {
      SortKeepsDistinct(before, key, s, i, j);
      LessTotal(key(sorted[i]), key(sorted[j]));
    }
  }
}
