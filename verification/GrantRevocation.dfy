/** Whether a second event revokes a grant, and what that does to the buyer's ownership. */
module GrantRevocation {
  import opened Base
  import opened Protocol
  import opened Campaign
  import opened CampaignLifecycle
  import opened Entitlements
  import opened EntitlementValidity
  import opened EntitlementsStore
  import Authorization

  // ---------- a grant and one more event ----------

  lemma ParsedStatus(n: Grant)
    requires ParseEntitlementEvent(n.event) == Success(n)
    ensures n.status == Granted <==> n.predecessor == None
  {
    Entitlements.ParsesIff(n.event, n);
  }

  lemma PairSetIff(g: Grant, n: Grant)
    requires Entitlements.IsRoot(g) && n.predecessor != None
    ensures ResolveSet({g, n}) == Success(ResolvedGrant(g.event.id, if Revokes(n, g) then [g, n] else [g]))
  {
    assert Roots({g, n}) == {g};
    FollowsIff(g, n);
    FollowsIff(g, g);
    assert Revocations(g, {g, n}) == if Revokes(n, g) then {n} else {};
  }

  lemma PairUnique(g: Grant, n: Grant)
    ensures Dedup(GrantKey, [g, n]) == if g.event.id == n.event.id then [g] else [g, n]
  {
    assert [g, n] == [g] + [n];
    UnseenOfDistinct(GrantKey, [g], {});
    UnseenAppend(GrantKey, [g], n, {});
    assert Dedup(GrantKey, [g]) == [g];
  }

  lemma PairOfTwo(g: Grant, n: Grant)
    requires Entitlements.IsRoot(g) && n.predecessor != None
    ensures HasSelfReference([g, n]) <==> n.predecessor == Some(n.event.id)
    ensures ResolveSet({g, n}) == Success(ResolvedGrant(g.event.id, if Revokes(n, g) then [g, n] else [g]))
  {
    PairSetIff(g, n);
    assert forall x :: x in [g, n] <==> x == g || x == n;
  }

  /** A grant with one parsed event that names a predecessor resolves to both, revoked, exactly when that event revokes
      the grant by its fields. Otherwise the grant stands alone; only an event that names itself is an error. */
  lemma RevokedIff(g: Grant, n: Grant)
    requires ParseEntitlementEvent(g.event) == Success(g) && ParseEntitlementEvent(n.event) == Success(n)
    requires g.predecessor == None && n.predecessor != None
    ensures ResolveGrant([g, n]) ==
      if Revokes(n, g) then Success(ResolvedGrant(g.event.id, [g, n]))
      else if n.event.id != g.event.id && n.predecessor == Some(n.event.id) then Failure(ChainFailure(ChainError.Cycle))
      else Success(ResolvedGrant(g.event.id, [g]))
    ensures ResolvedGrant(g.event.id, [g, n]).Status() == Some(Revoked)
    ensures ResolvedGrant(g.event.id, [g]).Status() == Some(Granted)
  {
    ParsedStatus(g);
    ParsedStatus(n);
    PairUnique(g, n);
    var unique := Dedup(GrantKey, [g, n]);
    assert FirstDefect(unique).None?;
    if g.event.id == n.event.id {
      AloneSet(g);
    } else {
      PairOfTwo(g, n);
      assert ToSet([g, n]) == {g, n};
    }
  }

  // ---------- ownership ----------

  /** The stored event `n` would join a group that holds nothing but the grant it revokes. */
  predicate RevokesStored(table: Table, g: Grant, n: Grant) {
    && ParseEntitlementEvent(g.event) == Success(g) && g.predecessor == None
    && ParseEntitlementEvent(n.event) == Success(n) && Revokes(n, g)
    && Group(table, KeyFor(g)) == {g}
    && n.event.id !in table
  }

  lemma PairNodes(g: Grant, n: Grant)
    requires Entitlements.IsRoot(g) && Revokes(n, g)
    ensures ResolveNodes({g, n}) == Success(ResolvedGrant(g.event.id, [g, n]))
  {
    PairSetIff(g, n);
    assert g in {g, n};
  }

  lemma AloneNodes(g: Grant)
    requires Entitlements.IsRoot(g)
    ensures ResolveNodes({g}) == Success(ResolvedGrant(g.event.id, [g]))
  {
    AloneSet(g);
    assert ToSet([g]) == {g} && g in {g};
  }

  function KeyFor(g: Grant): GroupKey {
    GroupKey(g.recipient, g.coordinate, g.grantId)
  }

  lemma SameGroup(g: Grant, n: Grant)
    ensures KeyOf(EntitlementsStore.RowOf(g)) == KeyFor(g)
    ensures Revokes(n, g) ==> KeyOf(EntitlementsStore.RowOf(n)) == KeyFor(g)
  {
  }

  lemma RevokedGroup(table: Table, g: Grant, n: Grant)
    requires StoreOk(table) && RevokesStored(table, g, n)
    ensures Candidate(table, n) == {g, n}
    ensures ResolveNodes({g, n}) == Success(ResolvedGrant(g.event.id, [g, n]))
  {
    ParsedStatus(g);
    SameGroup(g, n);
    NewToGroup(table, n);
    PairNodes(g, n);
    assert {g} + {n} == {g, n};
  }

  /** A revocation of the only stored grant of a group is stored exactly when the grant is a valid claim of the campaign
      it is presented with. */
  lemma RevocationAcceptedIff(table: Table, g: Grant, n: Grant, campaign: ResolvedCampaign,
                              authorization: Option<Authorization.ResolvedAuthorization>)
    requires StoreOk(table) && RevokesStored(table, g, n)
    ensures Accepts(table, IngestCall(n.event, campaign, authorization)) <==>
      && ClaimsFrom(g, campaign)
      && ClaimableAt(campaign, g.event.createdAt)
      && RightfullyIssued(g, campaign.publisher, authorization)
  {
    var chain := ResolvedGrant(g.event.id, [g, n]);
    ParsedStatus(g);
    RevokedGroup(table, g, n);
    assert FirstDefect([g, n]).None?;
    ValidIff(chain, campaign, authorization);
  }

  lemma RevocationIsStored(table: Table, g: Grant, n: Grant, call: IngestCall)
    requires RevokesStored(table, g, n) && call.event == n.event && Accepts(table, call)
    ensures Ingest(table, call) == table[n.event.id := EntitlementsStore.RowOf(n)]
  {
  }

  lemma GroupsAfter(table: Table, g: Grant, n: Grant, key: GroupKey)
    requires RevokesStored(table, g, n)
    ensures Group(table[n.event.id := EntitlementsStore.RowOf(n)], key) ==
      if key == KeyFor(g) then {g, n} else Group(table, key)
  {
    SameGroup(g, n);
    GroupAfterInsert(table, n, key);
    assert Group(table, key) + {} == Group(table, key);
    assert {g} + {n} == {g, n};
  }

  /** Until the revocation is stored, the grant stands and the buyer owns the game. */
  lemma StoredGrantStands(table: Table, g: Grant, n: Grant)
    requires StoreOk(table) && RevokesStored(table, g, n)
    ensures GroupStatus(table, KeyFor(g)) == Some(Granted)
    ensures Owns(table, g.recipient, g.coordinate)
  {
    ParsedStatus(g);
    AloneNodes(g);
  }

  lemma StatusAfter(table: Table, g: Grant, n: Grant, key: GroupKey)
    requires StoreOk(table) && RevokesStored(table, g, n)
    ensures GroupStatus(table[n.event.id := EntitlementsStore.RowOf(n)], key) ==
      if key == KeyFor(g) then Some(Revoked) else GroupStatus(table, key)
  {
    RevokedGroup(table, g, n);
    GroupsAfter(table, g, n, key);
  }

  /** Once the revocation is stored the buyer owns the game exactly when another of their grants for it stands; nobody
      else's ownership, and no other game, is touched. */
  lemma RevocationEndsOwnership(table: Table, g: Grant, n: Grant, call: IngestCall,
                                buyer: PublicKey, coordinate: string)
    requires StoreOk(table) && RevokesStored(table, g, n) && call.event == n.event && Accepts(table, call)
    ensures Owns(Ingest(table, call), buyer, coordinate) <==>
      exists id :: GroupStatus(table, GroupKey(buyer, coordinate, id)) == Some(Granted)
        && !(buyer == g.recipient && coordinate == g.coordinate && id == g.grantId)
    ensures GroupStatus(Ingest(table, call), KeyFor(g)) == Some(Revoked)
  {
    RevocationIsStored(table, g, n, call);
    forall id ensures
      GroupStatus(Ingest(table, call), GroupKey(buyer, coordinate, id)) ==
        if buyer == g.recipient && coordinate == g.coordinate && id == g.grantId then Some(Revoked)
        else GroupStatus(table, GroupKey(buyer, coordinate, id))
    {
      StatusAfter(table, g, n, GroupKey(buyer, coordinate, id));
    }
    StatusAfter(table, g, n, KeyFor(g));
  }
}
