/** The local table of validated grant events and what every sequence of ingests keeps true of it. */
module EntitlementsStore {
  import opened Base
  import opened Protocol
  import opened Campaign
  import opened Entitlements
  import Authorization

  /** One row, keyed by event id; the columns repeat what the stored event says. */
  datatype Row = Row(grantId: string, buyer: PublicKey, coordinate: string, raw: Event)

  type Table = map<EventId, Row>

  datatype GroupKey = GroupKey(buyer: PublicKey, coordinate: string, grantId: string)

  function KeyOf(row: Row): GroupKey {
    GroupKey(row.buyer, row.coordinate, row.grantId)
  }

  function RowOf(grant: Grant): Row {
    Row(grant.grantId, grant.recipient, grant.coordinate, grant.event)
  }

  /** The row was written for exactly the event it holds. */
  predicate Faithful(id: EventId, row: Row) {
    var parsed := ParseEntitlementEvent(row.raw);
    row.raw.id == id && parsed.Success? && row == RowOf(parsed.value)
  }

  /** The stored events of one group that still parse. */
  function Group(table: Table, key: GroupKey): set<Grant> {
    set id | id in table && KeyOf(table[id]) == key && ParseEntitlementEvent(table[id].raw).Success?
      :: ParseEntitlementEvent(table[id].raw).value
  }

  ghost predicate AllFaithful(table: Table) {
    forall id :: id in table ==> Faithful(id, table[id])
  }

  ghost predicate GroupOk(table: Table, key: GroupKey) {
    Group(table, key) == {} || ResolveNodes(Group(table, key)).Success?
  }

  /** The store invariant: rows are faithful and every stored group resolves. */
  ghost predicate StoreOk(table: Table) {
    AllFaithful(table) && forall key :: GroupOk(table, key)
  }

  // ---------- one ingest, as a function of the table ----------

  datatype IngestCall = IngestCall(
    event: Event, campaign: ResolvedCampaign, authorization: Option<Authorization.ResolvedAuthorization>)

  /** The group an event would join, with the event; a stored event with the same id takes its place. */
  function Candidate(table: Table, grant: Grant): set<Grant> {
    var group := Group(table, KeyOf(RowOf(grant)));
    if exists n :: n in group && n.event.id == grant.event.id then group else group + {grant}
  }

  ghost predicate Accepts(table: Table, call: IngestCall) {
    var parsed := ParseEntitlementEvent(call.event);
    && parsed.Success?
    && var resolved := ResolveNodes(Candidate(table, parsed.value));
       resolved.Success? && ValidateEntitlement(resolved.value, call.campaign, call.authorization).Success?
  }

  ghost function Ingest(table: Table, call: IngestCall): Table {
    if Accepts(table, call) && call.event.id !in table then
      table[call.event.id := RowOf(ParseEntitlementEvent(call.event).value)]
    else
      table
  }

  /** `n` is the parsed content of the row stored under `id`. */
  predicate StoredAs(table: Table, key: GroupKey, id: EventId, n: Grant) {
    id in table && KeyOf(table[id]) == key && ParseEntitlementEvent(table[id].raw) == Success(n)
  }

  lemma InGroup(table: Table, key: GroupKey, n: Grant)
    ensures n in Group(table, key) <==> exists id :: StoredAs(table, key, id, n)
  {
    if n in Group(table, key) {
      var id :| id in table && KeyOf(table[id]) == key && ParseEntitlementEvent(table[id].raw).Success?
        && n == ParseEntitlementEvent(table[id].raw).value;
      assert StoredAs(table, key, id, n);
    }
    if id :| StoredAs(table, key, id, n) {
      assert n in Group(table, key);
    }
  }

  lemma StoredAfterInsert(table: Table, grant: Grant, key: GroupKey, id: EventId, n: Grant)
    requires grant.event.id !in table && ParseEntitlementEvent(grant.event) == Success(grant)
    ensures StoredAs(table[grant.event.id := RowOf(grant)], key, id, n) <==>
      StoredAs(table, key, id, n) || (id == grant.event.id && key == KeyOf(RowOf(grant)) && n == grant)
  {
  }

  lemma GroupAfterInsert(table: Table, grant: Grant, key: GroupKey)
    requires grant.event.id !in table && ParseEntitlementEvent(grant.event) == Success(grant)
    ensures Group(table[grant.event.id := RowOf(grant)], key) ==
      Group(table, key) + if key == KeyOf(RowOf(grant)) then {grant} else {}
  {
    var next := table[grant.event.id := RowOf(grant)];
    forall n ensures n in Group(next, key) <==>
      n in Group(table, key) || (key == KeyOf(RowOf(grant)) && n == grant)
    {
      InGroup(table, key, n);
      InGroup(next, key, n);
      if id :| StoredAs(next, key, id, n) {
        StoredAfterInsert(table, grant, key, id, n);
      }
      if id :| StoredAs(table, key, id, n) {
        StoredAfterInsert(table, grant, key, id, n);
      }
      StoredAfterInsert(table, grant, key, grant.event.id, n);
    }
  }

  lemma StoredUnderOwnId(table: Table, key: GroupKey, n: Grant)
    requires AllFaithful(table) && n in Group(table, key)
    ensures n.event.id in table && table[n.event.id] == RowOf(n) && KeyOf(RowOf(n)) == key
    ensures ParseEntitlementEvent(n.event) == Success(n)
  {
    InGroup(table, key, n);
    var id :| StoredAs(table, key, id, n);
    assert Faithful(id, table[id]);
  }

  lemma NewToGroup(table: Table, grant: Grant)
    requires AllFaithful(table) && grant.event.id !in table
    ensures Candidate(table, grant) == Group(table, KeyOf(RowOf(grant))) + {grant}
  {
    forall n | n in Group(table, KeyOf(RowOf(grant))) ensures n.event.id != grant.event.id {
      StoredUnderOwnId(table, KeyOf(RowOf(grant)), n);
    }
  }

  lemma InsertKeepsGroup(table: Table, grant: Grant, key: GroupKey)
    requires GroupOk(table, key)
    requires grant.event.id !in table && ParseEntitlementEvent(grant.event) == Success(grant)
    requires ResolveNodes(Group(table, KeyOf(RowOf(grant))) + {grant}).Success?
    ensures GroupOk(table[grant.event.id := RowOf(grant)], key)
  {
    GroupAfterInsert(table, grant, key);
    assert Group(table, key) + {} == Group(table, key);
  }

  lemma InsertKeepsStore(table: Table, grant: Grant)
    requires StoreOk(table) && grant.event.id !in table && ParseEntitlementEvent(grant.event) == Success(grant)
    requires ResolveNodes(Group(table, KeyOf(RowOf(grant))) + {grant}).Success?
    ensures StoreOk(table[grant.event.id := RowOf(grant)])
  {
    var next := table[grant.event.id := RowOf(grant)];
    forall id | id in next ensures Faithful(id, next[id]) {
      if id != grant.event.id {
        assert Faithful(id, table[id]);
      }
    }
    forall key ensures GroupOk(next, key) {
      assert GroupOk(table, key);
      InsertKeepsGroup(table, grant, key);
    }
  }

  ghost predicate Keeps(table: Table, next: Table) {
    forall id :: id in table ==> id in next && next[id] == table[id]
  }

  lemma IngestKeepsStore(table: Table, call: IngestCall)
    requires StoreOk(table)
    ensures StoreOk(Ingest(table, call)) && Keeps(table, Ingest(table, call))
  {
    if Accepts(table, call) && call.event.id !in table {
      var grant := ParseEntitlementEvent(call.event).value;
      NewToGroup(table, grant);
      InsertKeepsStore(table, grant);
    }
  }

  lemma GroupsGrow(table: Table, next: Table, key: GroupKey)
    requires Keeps(table, next)
    ensures Group(table, key) <= Group(next, key)
  {
    forall n | n in Group(table, key) ensures n in Group(next, key) {
      InGroup(table, key, n);
      var id :| StoredAs(table, key, id, n);
      assert StoredAs(next, key, id, n);
      InGroup(next, key, n);
    }
  }

  // ---------- every sequence of ingests ----------

  ghost function Run(table: Table, calls: seq<IngestCall>): Table
    decreases |calls|
  {
    if calls == [] then table else Run(Ingest(table, calls[0]), calls[1..])
  }

  /** After any calls in any order every stored group resolves, and nothing stored is lost. */
  lemma {:induction false} RunKeepsStore(table: Table, calls: seq<IngestCall>)
    requires StoreOk(table)
    ensures StoreOk(Run(table, calls)) && Keeps(table, Run(table, calls))
    decreases |calls|
  {
    if calls != [] {
      IngestKeepsStore(table, calls[0]);
      RunKeepsStore(Ingest(table, calls[0]), calls[1..]);
    }
  }

  /** Once a group resolves to Revoked, no further calls make it anything else. */
  lemma RevokedStaysRevoked(table: Table, calls: seq<IngestCall>, key: GroupKey)
    requires StoreOk(table) && Group(table, key) != {}
    requires ResolveNodes(Group(table, key)).Success?
    requires ResolveNodes(Group(table, key)).value.Status() == Some(Revoked)
    ensures ResolveNodes(Group(Run(table, calls), key)) == ResolveNodes(Group(table, key))
  {
    var next := Run(table, calls);
    RunKeepsStore(table, calls);
    GroupsGrow(table, next, key);
    assert GroupOk(next, key);
    RevocationIsFinal(Group(table, key), Group(next, key));
  }

  /** Repeating an accepted call is accepted again and changes nothing. */
  lemma IngestIsIdempotent(table: Table, call: IngestCall)
    requires StoreOk(table) && Accepts(table, call) && call.event.id !in table
    ensures Accepts(Ingest(table, call), call) && Ingest(Ingest(table, call), call) == Ingest(table, call)
  {
    var grant := ParseEntitlementEvent(call.event).value;
    NewToGroup(table, grant);
    GroupAfterInsert(table, grant, KeyOf(RowOf(grant)));
    var next := Ingest(table, call);
    assert grant in Group(next, KeyOf(RowOf(grant)));
    assert Candidate(next, grant) == Candidate(table, grant);
  }

  // ---------- the repository ----------

  ghost predicate Owns(table: Table, buyer: PublicKey, coordinate: string) {
    exists grantId :: GroupStatus(table, GroupKey(buyer, coordinate, grantId)) == Some(Granted)
  }

  ghost function GroupStatus(table: Table, key: GroupKey): Option<GrantStatus> {
    var resolved := ResolveNodes(Group(table, key));
    if resolved.Success? then resolved.value.Status() else None
  }

  class EntitlementsRepository {
    var table: Table

    ghost predicate Valid()
      reads this
    {
      StoreOk(table)
    }

    constructor ()
      ensures Valid() && table == map[]
    {
      table := map[];
    }

    method IngestEvent(event: Event, campaign: ResolvedCampaign,
                       authorization: Option<Authorization.ResolvedAuthorization>)
      returns (accepted: bool)
      requires Valid()
      modifies this
      ensures Valid()
      ensures accepted == Accepts(old(table), IngestCall(event, campaign, authorization))
      ensures table == Ingest(old(table), IngestCall(event, campaign, authorization))
    {
      ghost var call := IngestCall(event, campaign, authorization);
      IngestKeepsStore(table, call);
      var parsed := ParseEntitlementEvent(event);
      if parsed.Failure? {
        return false;
      }
      var grant := parsed.value;
      var stored := ParsedEvents(grant.recipient, grant.coordinate, Some(grant.grantId));
      forall n ensures n in stored <==> n in Group(table, KeyOf(RowOf(grant))) {
        MatchesGroup(table, KeyOf(RowOf(grant)), n);
      }
      var nodes := stored + [grant];
      CandidateList(table, grant, stored);
      forall n | n in Candidate(table, grant) ensures ParseEntitlementEvent(n.event) == Success(n) {
        CandidateParses(table, grant, n);
      }
      ResolveGrantOfSet(nodes, Candidate(table, grant));
      var resolved := ResolveEntitlementGrant(nodes);
      if resolved.Failure? {
        return false;
      }
      var verdict := ValidateAdpEntitlement(resolved.value, campaign, authorization);
      if verdict.Failure? {
        return false;
      }
      if event.id !in table {
        table := table[event.id := RowOf(grant)];
      }
      return true;
    }

    /** The parsed rows of a query, each once, in whatever order the query delivers them. */
    method ParsedEvents(buyer: PublicKey, coordinate: string, grantId: Option<string>) returns (events: seq<Grant>)
      requires Valid()
      ensures forall n :: n in events <==> Matches(table, buyer, coordinate, grantId, n)
      ensures DistinctKeys(GrantKey, events)
    {
      var todo := table.Keys;
      events := [];
      ghost var done: set<EventId> := {};
      while todo != {}
        invariant done + todo == table.Keys && done !! todo
        invariant forall n :: n in events <==> Matches(table, buyer, coordinate, grantId, n) && n.event.id in done
        invariant DistinctKeys(GrantKey, events)
        decreases todo
      {
        var id :| id in todo;
        var row := table[id];
        assert Faithful(id, row);
        var parsed := ParseEntitlementEvent(row.raw);
        OnlyOwnRowMatches(table, buyer, coordinate, grantId, id);
        if row.buyer == buyer && row.coordinate == coordinate && (grantId.None? || row.grantId == grantId.value) &&
          parsed.Success? {
          DistinctKeysAppend(GrantKey, events, parsed.value);
          events := events + [parsed.value];
        }
        done, todo := done + {id}, todo - {id};
      }
    }

    /** Every chain of a buyer for a game; no stored group is dropped. */
    method ChainsFor(buyer: PublicKey, coordinate: string) returns (chains: seq<ResolvedGrant>)
      requires Valid()
      ensures forall c :: c in chains <==> exists id :: IsChainOf(table, buyer, coordinate, id, c)
      ensures forall id :: Group(table, GroupKey(buyer, coordinate, id)) != {} ==>
        exists c :: c in chains && IsChainOf(table, buyer, coordinate, id, c)
    {
      var parsed := ParsedEvents(buyer, coordinate, None);
      var groups := GroupByGrant(parsed);
      chains := ResolveGroups(groups);
      forall id, c ensures IsChainOf(table, buyer, coordinate, id, c) <==> Resolves(groups, id, c) {
        GroupResolves(table, buyer, coordinate, id, parsed, groups, c);
      }
      assert forall c :: c in chains <==> exists id :: IsChainOf(table, buyer, coordinate, id, c);
      forall id | Group(table, GroupKey(buyer, coordinate, id)) != {}
        ensures exists c :: c in chains && IsChainOf(table, buyer, coordinate, id, c)
      {
        assert GroupOk(table, GroupKey(buyer, coordinate, id));
        assert IsChainOf(table, buyer, coordinate, id,
               ResolveNodes(Group(table, GroupKey(buyer, coordinate, id))).value);
      }
    }

    /** A game is owned while some grant for it stands unrevoked. */
    method IsOwned(buyer: PublicKey, coordinate: string) returns (owned: bool)
      requires Valid()
      ensures owned <==> Owns(table, buyer, coordinate)
    {
      var chains := ChainsFor(buyer, coordinate);
      owned := exists c :: c in chains && c.Status() == Some(Granted);
      if owned {
        var c :| c in chains && c.Status() == Some(Granted);
        ghost var id :| IsChainOf(table, buyer, coordinate, id, c);
        assert GroupStatus(table, GroupKey(buyer, coordinate, id)) == Some(Granted);
      }
      if id :| GroupStatus(table, GroupKey(buyer, coordinate, id)) == Some(Granted) {
        ghost var c := ResolveNodes(Group(table, GroupKey(buyer, coordinate, id))).value;
        assert IsChainOf(table, buyer, coordinate, id, c);
        assert c in chains;
      }
    }
  }

  ghost predicate Matches(table: Table, buyer: PublicKey, coordinate: string, grantId: Option<string>, n: Grant) {
    && n.event.id in table && table[n.event.id] == RowOf(n)
    && ParseEntitlementEvent(n.event) == Success(n)
    && n.recipient == buyer && n.coordinate == coordinate
    && (grantId.None? || n.grantId == grantId.value)
  }

  lemma OnlyOwnRowMatches(table: Table, buyer: PublicKey, coordinate: string, grantId: Option<string>, id: EventId)
    requires AllFaithful(table) && id in table
    ensures
      var row := table[id];
      var parsed := ParseEntitlementEvent(row.raw);
      && parsed.Success? && parsed.value.event.id == id
      && (Matches(table, buyer, coordinate, grantId, parsed.value) <==>
           row.buyer == buyer && row.coordinate == coordinate && (grantId.None? || row.grantId == grantId.value))
      && forall n :: Matches(table, buyer, coordinate, grantId, n) && n.event.id == id ==> n == parsed.value
  {
    assert Faithful(id, table[id]);
  }

  lemma MatchesGroup(table: Table, key: GroupKey, n: Grant)
    requires AllFaithful(table)
    ensures n in Group(table, key) <==> Matches(table, key.buyer, key.coordinate, Some(key.grantId), n)
  {
    if n in Group(table, key) {
      StoredUnderOwnId(table, key, n);
    }
    if Matches(table, key.buyer, key.coordinate, Some(key.grantId), n) {
      assert StoredAs(table, key, n.event.id, n);
      InGroup(table, key, n);
    }
  }

  ghost predicate IsChainOf(table: Table, buyer: PublicKey, coordinate: string, grantId: string, c: ResolvedGrant) {
    ResolveNodes(Group(table, GroupKey(buyer, coordinate, grantId))) == Success(c)
  }

  method GroupByGrant(events: seq<Grant>) returns (groups: map<string, seq<Grant>>)
    ensures forall id :: id in groups <==> exists n :: n in events && n.grantId == id
    ensures forall id, n :: id in groups ==> (n in groups[id] <==> n in events && n.grantId == id)
  {
    groups := map[];
    for i := 0 to |events|
      invariant forall id :: id in groups <==> exists n :: n in events[..i] && n.grantId == id
      invariant forall id, n :: id in groups ==> (n in groups[id] <==> n in events[..i] && n.grantId == id)
    {
      var event := events[i];
      assert events[..i + 1] == events[..i] + [event];
      groups := groups[event.grantId := (if event.grantId in groups then groups[event.grantId] else []) + [event]];
    }
    assert events[..|events|] == events;
  }

  lemma GroupList(table: Table, buyer: PublicKey, coordinate: string, id: string, parsed: seq<Grant>, list: seq<Grant>)
    requires AllFaithful(table) && DistinctKeys(GrantKey, parsed)
    requires forall n :: n in parsed <==> Matches(table, buyer, coordinate, None, n)
    requires forall n :: n in list <==> n in parsed && n.grantId == id
    ensures ResolveGrant(list) == ResolveNodes(Group(table, GroupKey(buyer, coordinate, id)))
    ensures list != [] ==> Group(table, GroupKey(buyer, coordinate, id)) != {}
  {
    var key := GroupKey(buyer, coordinate, id);
    forall n ensures n in list <==> n in Group(table, key) {
      MatchesGroup(table, key, n);
    }
    DistinctKeysDetermine(GrantKey, parsed);
    DedupKeepsAll(GrantKey, list);
    forall n | n in Group(table, key) ensures ParseEntitlementEvent(n.event) == Success(n) {
      StoredUnderOwnId(table, key, n);
    }
    ResolveGrantOfSet(list, Group(table, key));
    if list != [] {
      assert list[0] in list;
    }
  }

  ghost predicate Resolves(groups: map<string, seq<Grant>>, id: string, c: ResolvedGrant) {
    id in groups && ResolveGrant(groups[id]) == Success(c)
  }

  /** The chains of the groups that resolve, one by one. */
  method ResolveGroups(groups: map<string, seq<Grant>>) returns (chains: seq<ResolvedGrant>)
    ensures forall c :: c in chains <==> exists id :: Resolves(groups, id, c)
  {
    chains := [];
    var todo := groups.Keys;
    ghost var done: set<string> := {};
    while todo != {}
      invariant done + todo == groups.Keys
      invariant forall c :: c in chains <==> exists id :: id in done && Resolves(groups, id, c)
      decreases todo
    {
      var id :| id in todo;
      var resolved := ResolveEntitlementGrant(groups[id]);
      if resolved.Success? {
        chains := chains + [resolved.value];
        assert Resolves(groups, id, resolved.value);
      }
      done, todo := done + {id}, todo - {id};
    }
  }

  lemma GroupResolves(table: Table, buyer: PublicKey, coordinate: string, id: string,
                      parsed: seq<Grant>, groups: map<string, seq<Grant>>, c: ResolvedGrant)
    requires AllFaithful(table) && DistinctKeys(GrantKey, parsed)
    requires forall n :: n in parsed <==> Matches(table, buyer, coordinate, None, n)
    requires forall id :: id in groups <==> exists n :: n in parsed && n.grantId == id
    requires forall id, n :: id in groups ==> (n in groups[id] <==> n in parsed && n.grantId == id)
    ensures IsChainOf(table, buyer, coordinate, id, c) <==> Resolves(groups, id, c)
  {
    var key := GroupKey(buyer, coordinate, id);
    forall n | n in Group(table, key) ensures n in parsed && n.grantId == id {
      MatchesGroup(table, key, n);
    }
    if id in groups {
      GroupList(table, buyer, coordinate, id, parsed, groups[id]);
    }
  }

  lemma CandidateParses(table: Table, grant: Grant, n: Grant)
    requires AllFaithful(table) && ParseEntitlementEvent(grant.event) == Success(grant)
    requires n in Candidate(table, grant)
    ensures ParseEntitlementEvent(n.event) == Success(n)
  {
    if n != grant {
      StoredUnderOwnId(table, KeyOf(RowOf(grant)), n);
    }
  }

  lemma CandidateList(table: Table, grant: Grant, stored: seq<Grant>)
    requires forall n :: n in stored <==> n in Group(table, KeyOf(RowOf(grant)))
    requires DistinctKeys(GrantKey, stored)
    ensures forall n :: n in Dedup(GrantKey, stored + [grant]) <==> n in Candidate(table, grant)
  {
    var group := Group(table, KeyOf(RowOf(grant)));
    DistinctKeysDetermine(GrantKey, stored);
    DedupKeepsAll(GrantKey, stored);
    UnseenAppend(GrantKey, stored, grant, {});
    SameWitness(group, stored, grant);
    var kept := Dedup(GrantKey, stored);
    assert Dedup(GrantKey, stored + [grant]) == kept + if SomeWithId(group, grant) then [] else [grant];
  }

  ghost predicate SomeWithId(group: set<Grant>, grant: Grant) {
    exists n :: n in group && n.event.id == grant.event.id
  }

  lemma SameWitness(group: set<Grant>, stored: seq<Grant>, grant: Grant)
    requires forall n :: n in stored <==> n in group
    ensures (exists x :: x in stored && GrantKey(x) == GrantKey(grant)) <==> SomeWithId(group, grant)
  {
    if x :| x in stored && GrantKey(x) == GrantKey(grant) {
      assert x in group && x.event.id == grant.event.id;
    }
    if n :| n in group && n.event.id == grant.event.id {
      assert n in stored && GrantKey(n) == GrantKey(grant);
    }
  }
}
