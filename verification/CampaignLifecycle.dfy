/** The state of a resolved campaign at an instant, when it can be claimed, and how it ages. */
module CampaignLifecycle {
  import opened Base
  import opened Protocol
  import opened Campaign
  import opened CampaignChain
  import opened CampaignHistory

  datatype CampaignStatus = Running | Stopped

  datatype CampaignState = CampaignState(status: CampaignStatus, terms: CampaignTerms)

  datatype CampaignClassification = Upcoming | Active | Ended | Cancelled | Invalid

  // ---------- state_at, is_claimable_at and classify_campaign ----------

  /** The events after the root, applied in order until the first one later than `at`. */
  function Replay(events: seq<CampaignEvent>, at: u64, state: CampaignState): Option<CampaignState> {
    if events == [] || events[0].At() > at then Some(state)
    else
      match events[0].transition
      case ReplaceTerms(terms) => Replay(events[1..], at, state.(terms := terms))
      case Cancel => Replay(events[1..], at, state.(status := Stopped))
      case Root(_) => None
  }

  ghost function StateAt(r: ResolvedCampaign, at: u64): Option<CampaignState> {
    match ResolveAt(r.events, Scope(r.publisher, r.coordinate), at)
    case Failure(_) => None
    case Success(again) =>
      if again.rootEventId != r.rootEventId || again.campaignId != r.campaignId || again.events == [] then None
      else if at < again.events[0].At() then None
      else
        match again.events[0].transition
        case Root(terms) => Replay(again.events[1..], at, CampaignState(Running, terms))
        case _ => None
  }

  method ComputeStateAt(r: ResolvedCampaign, at: u64) returns (s: Option<CampaignState>)
    ensures s == StateAt(r, at)
  {
    var resolution := ResolveCampaignAt(r.events, r.publisher, r.coordinate, at);
    if resolution.Failure? {
      return None;
    }
    var again := resolution.value;
    if again.rootEventId != r.rootEventId || again.campaignId != r.campaignId || again.events == [] {
      return None;
    }
    var root := again.events[0];
    if at < root.At() || !root.transition.Root? {
      return None;
    }
    var state := CampaignState(Running, root.transition.terms);
    for i := 1 to |again.events|
      invariant StateAt(r, at) == Replay(again.events[i..], at, state)
    {
      var event := again.events[i];
      assert again.events[i..][1..] == again.events[i + 1..];
      if event.At() > at {
        return Some(state);
      }
      match event.transition {
        case ReplaceTerms(terms) => state := state.(terms := terms);
        case Cancel => state := state.(status := Stopped);
        case Root(_) => return None;
      }
    }
    return Some(state);
  }

  ghost predicate ClaimableAt(r: ResolvedCampaign, at: u64) {
    var state := StateAt(r, at);
    state.Some? && Open(state.value, at)
  }

  predicate Open(state: CampaignState, at: u64) {
    state.status == Running && state.terms.starts <= at < state.terms.ends
  }

  function ClassifyState(state: Option<CampaignState>, now: u64): CampaignClassification {
    if state.None? then Invalid
    else if state.value.status == Stopped then Cancelled
    else if now < state.value.terms.starts then Upcoming
    else if now < state.value.terms.ends then Active
    else Ended
  }

  ghost function ClassifyCampaign(r: ResolvedCampaign, now: u64): CampaignClassification {
    ClassifyState(StateAt(r, now), now)
  }

  // ---------- re-resolution equals a fold over the chain's own prefix ----------

  function StateOf(cur: Cursor): CampaignState {
    CampaignState(if cur.cancelledAt.Some? then Stopped else Running, cur.terms)
  }

  /** The state after the first `i` events of `chain`. */
  function StateAfter(chain: seq<CampaignEvent>, i: nat): CampaignState
    requires 1 <= i <= |chain| && chain[0].transition.Root?
  {
    StateOf(CursorAt(chain, i))
  }

  /** What is in force at `t` along `chain`: the state after the events published by then. */
  function InForce(chain: seq<CampaignEvent>, t: u64): Option<CampaignState>
    requires chain != [] && chain[0].transition.Root?
  {
    var published := |UpTo(chain, t)|;
    if 1 <= published <= |chain| then Some(StateAfter(chain, published)) else None
  }

  lemma {:induction false} ReplayIsFold(scope: Scope, chain: seq<CampaignEvent>, t: u64, i: nat)
    requires IsChain(scope, chain) && 1 <= i <= |chain|
    requires forall n :: n in chain ==> n.At() <= t
    ensures Replay(chain[i..], t, StateAfter(chain, i)) == Some(StateAfter(chain, |chain|))
    decreases |chain| - i
  {
    if i == |chain| {
      assert chain[i..] == [];
    } else {
      ReplayIsFold(scope, chain, t, i + 1);
      ReplayStep(scope, chain, t, i);
    }
  }

  lemma ReplayStep(scope: Scope, chain: seq<CampaignEvent>, t: u64, i: nat)
    requires IsChain(scope, chain) && 1 <= i < |chain| && chain[i].At() <= t
    ensures Replay(chain[i..], t, StateAfter(chain, i)) == Replay(chain[i + 1..], t, StateAfter(chain, i + 1))
  {
    assert Linked(scope, chain, i);
    assert chain[i..][1..] == chain[i + 1..];
  }

  lemma CutIsChain(scope: Scope, chain: seq<CampaignEvent>, t: u64)
    requires IsChain(scope, chain) && chain[0].At() <= t
    ensures IsChain(scope, UpTo(chain, t)) && UpTo(chain, t) <= chain
  {
    ChainIncreases(scope, chain);
    UpToIsPrefix(chain, t);
    ChainPrefix(scope, chain, |UpTo(chain, t)|);
  }

  lemma ResolvedChain(nodes: seq<CampaignEvent>, scope: Scope, at: u64, r: ResolvedCampaign)
    requires ResolveAt(nodes, scope, at) == Success(r)
    ensures r.events != [] && r == Resolved(scope, r.events) && IsChain(scope, r.events)
  {
    var visible := ToSet(VisibleAt(nodes, at));
    ResolvedIsUnambiguous(scope, visible, r);
    UnambiguousIsChain(scope, visible, r.events);
  }

  /** For a resolved campaign, `state_at`, which resolves again, is a fold over the events published by then. */
  lemma StateAtIsPrefixFold(nodes: seq<CampaignEvent>, scope: Scope, at: u64, r: ResolvedCampaign, t: u64)
    requires ResolveAt(nodes, scope, at) == Success(r)
    ensures r.events != [] && IsChain(scope, r.events) && StateAt(r, t) == InForce(r.events, t)
  {
    ResolvedChain(nodes, scope, at, r);
    ReresolvingAChain(nodes, scope, at, r, t);
    ChainIncreases(scope, r.events);
    UpToIsPrefix(r.events, t);
    if r.events[0].At() <= t {
      var kept := UpTo(r.events, t);
      CutIsChain(scope, r.events, t);
      ReplayIsFold(scope, kept, t, 1);
      CursorOfPrefix(kept, r.events, |kept|);
    }
  }

  // ---------- one step along a chain ----------

  predicate Replaces(before: Cursor, after: Cursor) {
    && after.last.At() < before.terms.starts
    && after.termsAt == after.last.At()
    && after.cancelledAt.None?
  }

  predicate Stops(before: Cursor, after: Cursor) {
    && after.terms == before.terms && after.termsAt == before.termsAt
    && after.cancelledAt == Some(after.last.At())
  }

  /** The next event either replaces terms that have not started, or cancels and ends the chain. */
  lemma StepFacts(scope: Scope, chain: seq<CampaignEvent>, i: nat)
    requires IsChain(scope, chain) && 1 <= i < |chain|
    ensures CursorAt(chain, i).cancelledAt.None?
    ensures
      || Replaces(CursorAt(chain, i), CursorAt(chain, i + 1))
      || (Stops(CursorAt(chain, i), CursorAt(chain, i + 1)) && i + 1 == |chain|)
  {
    assert Linked(scope, chain, i);
    if i + 1 < |chain| {
      assert Linked(scope, chain, i + 1);
    }
  }

  lemma {:induction false} DatesAdvance(scope: Scope, chain: seq<CampaignEvent>, i: nat, j: nat)
    requires IsChain(scope, chain) && 1 <= i <= j <= |chain|
    ensures CursorAt(chain, i).termsAt <= CursorAt(chain, j).termsAt
    ensures CursorAt(chain, j).termsAt <= chain[j - 1].At()
    ensures CursorAt(chain, j).cancelledAt.Some? ==> CursorAt(chain, j).cancelledAt == Some(chain[j - 1].At())
  {
    ChainIncreases(scope, chain);
    if j > 1 {
      StepFacts(scope, chain, j - 1);
      if i < j {
        DatesAdvance(scope, chain, i, j - 1);
      } else {
        DatesAdvance(scope, chain, i - 1, j - 1);
      }
    }
  }

  /** Where `t` falls: after the `k`-th event and before the next one, if there is one. */
  lemma Position(scope: Scope, chain: seq<CampaignEvent>, t: u64) returns (k: nat)
    requires IsChain(scope, chain)
    ensures k == |UpTo(chain, t)| <= |chain|
    ensures InForce(chain, t) == if k == 0 then None else Some(StateAfter(chain, k))
    ensures k > 0 ==> chain[k - 1].At() <= t
    ensures k < |chain| ==> t < chain[k].At()
  {
    ChainIncreases(scope, chain);
    UpToIsPrefix(chain, t);
    k := |UpTo(chain, t)|;
  }

  // ---------- the claimable instants ----------

  function ClaimFrom(chain: seq<CampaignEvent>): int
    requires chain != [] && chain[0].transition.Root?
  {
    var cur := CursorAt(chain, |chain|);
    Max(cur.terms.starts, cur.termsAt)
  }

  function ClaimUntil(chain: seq<CampaignEvent>): int
    requires chain != [] && chain[0].transition.Root?
  {
    var cur := CursorAt(chain, |chain|);
    if cur.cancelledAt.Some? then Min(cur.terms.ends, cur.cancelledAt.value) else cur.terms.ends
  }

  lemma OpenAfter(scope: Scope, chain: seq<CampaignEvent>, t: u64, k: nat)
    requires IsChain(scope, chain) && k <= |chain|
    requires k > 0 ==> chain[k - 1].At() <= t
    requires k < |chain| ==> t < chain[k].At()
    ensures k > 0 && Open(StateAfter(chain, k), t) <==> ClaimFrom(chain) <= t < ClaimUntil(chain)
  {
    DatesAdvance(scope, chain, |chain|, |chain|);
    if k == 0 {
      DatesAdvance(scope, chain, 1, |chain|);
    } else if k < |chain| {
      StepFacts(scope, chain, k);
      DatesAdvance(scope, chain, k, k);
      DatesAdvance(scope, chain, k + 1, |chain|);
    }
  }

  /** Whatever replacements and cancellation it contains, a campaign is claimable during one half-open interval. */
  lemma ClaimableInterval(nodes: seq<CampaignEvent>, scope: Scope, at: u64, r: ResolvedCampaign, t: u64)
    requires ResolveAt(nodes, scope, at) == Success(r)
    ensures r.events != [] && r.events[0].transition.Root?
    ensures ClaimableAt(r, t) <==> ClaimFrom(r.events) <= t < ClaimUntil(r.events)
  {
    StateAtIsPrefixFold(nodes, scope, at, r, t);
    var k := Position(scope, r.events, t);
    OpenAfter(scope, r.events, t, k);
  }

  // ---------- ageing ----------

  function Rank(c: CampaignClassification): nat {
    match c
    case Invalid => 0
    case Upcoming => 1
    case Active => 2
    case Ended => 3
    case Cancelled => 4
  }

  lemma PositionsAdvance(chain: seq<CampaignEvent>, t: u64, later: u64)
    requires Increasing(chain) && t <= later
    ensures |UpTo(chain, t)| <= |UpTo(chain, later)|
  {
    UpToIsPrefix(chain, t);
    UpToIsPrefix(chain, later);
    var k := |UpTo(chain, t)|;
    if k > 0 {
      assert chain[k - 1].At() <= t;
    }
  }

  lemma CursorAges(before: Cursor, next: Cursor, last: Cursor, t: u64, later: u64)
    requires t <= later && t < next.last.At()
    requires before.cancelledAt.None?
    requires Replaces(before, next) || (Stops(before, next) && last == next)
    ensures Rank(ClassifyState(Some(StateOf(before)), t)) <= Rank(ClassifyState(Some(StateOf(last)), later))
    ensures before.terms.starts <= t ==> last.terms == before.terms
  {
  }

  lemma AgesBetween(scope: Scope, chain: seq<CampaignEvent>, t: u64, k: nat, later: u64, m: nat)
    requires IsChain(scope, chain) && t <= later && 1 <= k <= m <= |chain|
    requires k < |chain| ==> t < chain[k].At()
    ensures Rank(ClassifyState(Some(StateAfter(chain, k)), t)) <= Rank(ClassifyState(Some(StateAfter(chain, m)), later))
    ensures StateAfter(chain, k).terms.starts <= t ==> StateAfter(chain, m).terms == StateAfter(chain, k).terms
  {
    if k < m {
      StepFacts(scope, chain, k);
      CursorAges(CursorAt(chain, k), CursorAt(chain, k + 1), CursorAt(chain, m), t, later);
    }
  }

  lemma ChainAges(scope: Scope, chain: seq<CampaignEvent>, t: u64, later: u64)
    requires IsChain(scope, chain) && t <= later
    ensures Rank(ClassifyState(InForce(chain, t), t)) <= Rank(ClassifyState(InForce(chain, later), later))
    ensures InForce(chain, t).Some? && InForce(chain, t).value.terms.starts <= t ==>
      InForce(chain, later).Some? && InForce(chain, later).value.terms == InForce(chain, t).value.terms
  {
    ChainIncreases(scope, chain);
    PositionsAdvance(chain, t, later);
    var k := Position(scope, chain, t);
    var m := Position(scope, chain, later);
    if k > 0 {
      AgesBetween(scope, chain, t, k, later, m);
    }
  }

  /** A campaign only moves forward through Invalid, Upcoming, Active, Ended, Cancelled. */
  lemma LifecycleIsMonotone(nodes: seq<CampaignEvent>, scope: Scope, at: u64, r: ResolvedCampaign, t: u64, later: u64)
    requires ResolveAt(nodes, scope, at) == Success(r) && t <= later
    ensures Rank(ClassifyCampaign(r, t)) <= Rank(ClassifyCampaign(r, later))
  {
    StateAtIsPrefixFold(nodes, scope, at, r, t);
    StateAtIsPrefixFold(nodes, scope, at, r, later);
    ChainAges(scope, r.events, t, later);
  }

  /** Once the start in force has been reached, the terms never change again. */
  lemma TermsFrozenAfterStart(nodes: seq<CampaignEvent>, scope: Scope, at: u64, r: ResolvedCampaign, t: u64, later: u64)
    requires ResolveAt(nodes, scope, at) == Success(r) && t <= later
    requires StateAt(r, t).Some? && StateAt(r, t).value.terms.starts <= t
    ensures StateAt(r, later).Some? && StateAt(r, later).value.terms == StateAt(r, t).value.terms
  {
    StateAtIsPrefixFold(nodes, scope, at, r, t);
    StateAtIsPrefixFold(nodes, scope, at, r, later);
    ChainAges(scope, r.events, t, later);
  }

  // ---------- later evidence ----------

  /** Two resolutions that agree on everything published up to `t` agree on every state up to `t`. */
  lemma LaterEvidenceKeepsThePast(a: seq<CampaignEvent>, b: seq<CampaignEvent>, scope: Scope,
                                  ra: ResolvedCampaign, rb: ResolvedCampaign, t: u64)
    requires Resolve(a, scope) == Success(ra) && Resolve(b, scope) == Success(rb)
    requires forall n: CampaignEvent :: n.At() <= t ==> (n in a <==> n in b)
    ensures StateAt(ra, t) == StateAt(rb, t)
    ensures StateAt(ra, t).Some? ==> ra.rootEventId == rb.rootEventId && ra.campaignId == rb.campaignId
  {
    WellFormedCut(a, scope, t);
    WellFormedCut(b, scope, t);
    OrderIndependence(a, b, scope, t);
    PrefixStability(a, scope, U64_MAX, ra, t);
    PrefixStability(b, scope, U64_MAX, rb, t);
    StateAtIsPrefixFold(a, scope, U64_MAX, ra, t);
    StateAtIsPrefixFold(b, scope, U64_MAX, rb, t);
    SameCutSameState(scope, ra.events, rb.events, t);
    ResolvedChain(a, scope, U64_MAX, ra);
    ResolvedChain(b, scope, U64_MAX, rb);
  }

  lemma SameCutSameState(scope: Scope, a: seq<CampaignEvent>, b: seq<CampaignEvent>, t: u64)
    requires IsChain(scope, a) && IsChain(scope, b)
    requires a[0].At() <= t <==> b[0].At() <= t
    requires a[0].At() <= t ==> UpTo(a, t) == UpTo(b, t)
    ensures InForce(a, t) == InForce(b, t)
    ensures InForce(a, t).Some? ==> a[0] == b[0]
  {
    var i := Position(scope, a, t);
    var j := Position(scope, b, t);
    if a[0].At() <= t {
      CutIsChain(scope, a, t);
      CutIsChain(scope, b, t);
      var kept := UpTo(a, t);
      assert i == j == |kept| && kept[0] == a[0] == b[0];
      CursorOfPrefix(kept, a, i);
      CursorOfPrefix(kept, b, i);
    } else {
      ChainIncreases(scope, a);
      ChainIncreases(scope, b);
    }
  }

  lemma WellFormedCut(nodes: seq<CampaignEvent>, scope: Scope, t: u64)
    requires Resolve(nodes, scope).Success?
    ensures nodes != [] && FirstDefect(VisibleAt(nodes, t)).None? && DistinctIds(VisibleAt(nodes, t))
  {
    var earlier := (n: CampaignEvent) => n.At() <= t;
    FilterFilter(earlier, (n: CampaignEvent) => n.At() <= U64_MAX, nodes);
    FilterDistinctKeys(IdOf, earlier, VisibleAt(nodes, U64_MAX));
  }
}
