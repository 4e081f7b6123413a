/** What a resolved campaign says about the past: cuts, re-resolution and order. */
module CampaignHistory {
  import opened Base
  import opened Protocol
  import opened Campaign
  import opened CampaignChain

  // ---------- a declarative reading of resolution ----------

  /** After `i` events the only admissible successor is the next event of `chain`; after all of them, none. */
  ghost predicate Settled(scope: Scope, nodes: set<CampaignEvent>, chain: seq<CampaignEvent>, i: nat)
    requires 1 <= i <= |chain| && chain[0].transition.Root?
  {
    Successors(scope, chain[0].campaignId, nodes, CursorAt(chain, i)) == if i < |chain| then {chain[i]} else {}
  }

  /** `chain` is the one maximal chain: its root and each next event are without competitor among `nodes`. */
  ghost predicate Unambiguous(scope: Scope, nodes: set<CampaignEvent>, chain: seq<CampaignEvent>) {
    && chain != []
    && Roots(scope, nodes) == {chain[0]}
    && RootInOrder(chain[0])
    && forall i :: 1 <= i <= |chain| ==> Settled(scope, nodes, chain, i)
  }

  function Resolved(scope: Scope, chain: seq<CampaignEvent>): ResolvedCampaign
    requires chain != []
  {
    ResolvedCampaign(chain[0].event.id, scope.publisher, chain[0].campaignId, scope.coordinate, chain)
  }

  lemma {:induction false} WalkFollows(scope: Scope, nodes: set<CampaignEvent>, front: seq<CampaignEvent>)
    returns (chain: seq<CampaignEvent>)
    requires front != [] && front[0].transition.Root?
    requires Walk(scope, front[0].campaignId, nodes, CursorAt(front, |front|)).Success?
    ensures front <= chain
    ensures Walk(scope, front[0].campaignId, nodes, CursorAt(front, |front|)) == Success(chain[|front| - 1..])
    ensures forall i :: |front| <= i <= |chain| ==> Settled(scope, nodes, chain, i)
    decreases U64_MAX - front[|front| - 1].At()
  {
    var next := Successors(scope, front[0].campaignId, nodes, CursorAt(front, |front|));
    if next == {} {
      chain := front;
      assert front[|front| - 1..] == [front[|front| - 1]];
    } else {
      var n :| n in next;
      CursorOfPrefix(front, front + [n], |front|);
      chain := WalkFollows(scope, nodes, front + [n]);
      CursorOfPrefix(front, chain, |front|);
      assert chain[|front| - 1..] == [front[|front| - 1]] + chain[|front|..];
      assert Settled(scope, nodes, chain, |front|);
    }
  }

  lemma {:induction false} UnambiguousWalk(scope: Scope, nodes: set<CampaignEvent>, chain: seq<CampaignEvent>, i: nat)
    requires Unambiguous(scope, nodes, chain) && 1 <= i <= |chain|
    ensures Walk(scope, chain[0].campaignId, nodes, CursorAt(chain, i)) == Success(chain[i - 1..])
    decreases |chain| - i
  {
    assert Settled(scope, nodes, chain, i);
    if i < |chain| {
      UnambiguousWalk(scope, nodes, chain, i + 1);
      assert chain[i - 1..] == [chain[i - 1]] + chain[i..];
    } else {
      assert chain[i - 1..] == [chain[i - 1]];
    }
  }

  /** Resolution succeeds exactly when an unambiguous chain exists, and returns that chain. */
  lemma ResolvesExactlyUnambiguousChains(scope: Scope, nodes: set<CampaignEvent>, chain: seq<CampaignEvent>)
    ensures Unambiguous(scope, nodes, chain) <==>
      chain != [] && ResolveSet(scope, nodes) == Success(Resolved(scope, chain))
  {
    if Unambiguous(scope, nodes, chain) {
      UnambiguousWalk(scope, nodes, chain, 1);
      assert chain[0..] == chain;
    }
    if chain != [] && ResolveSet(scope, nodes) == Success(Resolved(scope, chain)) {
      var root :| root in Roots(scope, nodes);
      var walked := WalkFollows(scope, nodes, [root]);
      assert walked[0..] == walked;
    }
  }

  lemma ResolvedIsUnambiguous(scope: Scope, nodes: set<CampaignEvent>, r: ResolvedCampaign)
    requires ResolveSet(scope, nodes) == Success(r)
    ensures r.events != [] && r == Resolved(scope, r.events)
    ensures Unambiguous(scope, nodes, r.events)
  {
    var root :| root in Roots(scope, nodes);
    ResolvesExactlyUnambiguousChains(scope, nodes, r.events);
  }

  // ---------- the part of a chain published up to some time ----------

  ghost predicate Increasing(chain: seq<CampaignEvent>) {
    forall i, j :: 0 <= i < j < |chain| ==> chain[i].At() < chain[j].At()
  }

  ghost predicate Linked(scope: Scope, chain: seq<CampaignEvent>, i: nat)
    requires 1 <= i < |chain| && chain[0].transition.Root?
  {
    Admits(scope, chain[0].campaignId, CursorAt(chain, i), chain[i])
  }

  /** Every event after the root was admitted by the part of the chain before it. */
  ghost predicate IsChain(scope: Scope, chain: seq<CampaignEvent>) {
    && chain != [] && IsRoot(scope, chain[0]) && RootInOrder(chain[0])
    && forall i :: 1 <= i < |chain| ==> Linked(scope, chain, i)
  }

  lemma UnambiguousIsChain(scope: Scope, nodes: set<CampaignEvent>, chain: seq<CampaignEvent>)
    requires Unambiguous(scope, nodes, chain)
    ensures IsChain(scope, chain)
    ensures forall n :: n in chain ==> n in nodes
  {
    assert chain[0] in Roots(scope, nodes);
    forall i | 1 <= i < |chain|
      ensures chain[i] in nodes && Linked(scope, chain, i)
    {
      assert Settled(scope, nodes, chain, i);
      assert chain[i] in Successors(scope, chain[0].campaignId, nodes, CursorAt(chain, i));
    }
  }

  lemma ChainPrefix(scope: Scope, chain: seq<CampaignEvent>, k: nat)
    requires IsChain(scope, chain) && 1 <= k <= |chain|
    ensures IsChain(scope, chain[..k])
  {
    forall i | 1 <= i < k
      ensures Linked(scope, chain[..k], i)
    {
      assert Linked(scope, chain, i);
      CursorOfPrefix(chain[..k], chain, i);
    }
  }

  lemma ChainIncreases(scope: Scope, chain: seq<CampaignEvent>)
    requires IsChain(scope, chain)
    ensures Increasing(chain)
  {
    forall i | 1 <= i < |chain|
      ensures chain[i - 1].At() < chain[i].At()
    {
      assert Linked(scope, chain, i);
    }
    StepwiseIncreasing(chain);
  }

  lemma {:induction false} StepwiseIncreasing(chain: seq<CampaignEvent>)
    requires forall i :: 1 <= i < |chain| ==> chain[i - 1].At() < chain[i].At()
    ensures Increasing(chain)
  {
    if |chain| > 1 {
      var front := chain[..|chain| - 1];
      StepwiseIncreasing(front);
      assert forall i :: 0 <= i < |front| ==> chain[i] == front[i] && front[i].At() <= front[|front| - 1].At();
    }
  }

  function UpTo(chain: seq<CampaignEvent>, t: u64): seq<CampaignEvent> {
    VisibleAt(chain, t)
  }

  lemma EarlierToo(chain: seq<CampaignEvent>, t: u64)
    requires Increasing(chain) && chain != [] && chain[|chain| - 1].At() <= t
    ensures forall n :: n in chain ==> n.At() <= t
  {
    forall i | 0 <= i < |chain| ensures chain[i].At() <= t {
      if i < |chain| - 1 {
        assert chain[i].At() < chain[|chain| - 1].At();
      }
    }
  }

  lemma {:induction false} UpToIsPrefix(chain: seq<CampaignEvent>, t: u64)
    requires Increasing(chain)
    ensures |UpTo(chain, t)| <= |chain| && UpTo(chain, t) == chain[..|UpTo(chain, t)|]
    ensures forall i :: 0 <= i < |chain| ==> (chain[i].At() <= t <==> i < |UpTo(chain, t)|)
  {
    if chain != [] {
      var front, last := chain[..|chain| - 1], chain[|chain| - 1];
      assert chain == front + [last];
      FilterAppend((n: CampaignEvent) => n.At() <= t, front, last);
      if last.At() <= t {
        EarlierToo(chain, t);
        FilterAll((n: CampaignEvent) => n.At() <= t, chain);
      } else {
        UpToIsPrefix(front, t);
        assert UpTo(chain, t) == UpTo(front, t);
        assert forall i :: 0 <= i < |front| ==> chain[i] == front[i];
      }
    }
  }

  /** Evidence that keeps the chain up to `t` and adds nothing foreign resolves to the chain up to `t`. */
  lemma PartialEvidence(scope: Scope, nodes: set<CampaignEvent>, chain: seq<CampaignEvent>, part: set<CampaignEvent>,
                        t: u64)
    requires Unambiguous(scope, nodes, chain) && chain[0].At() <= t
    requires forall n :: n in part ==> n in nodes && n.At() <= t
    requires forall n :: n in chain && n.At() <= t ==> n in part
    ensures Unambiguous(scope, part, UpTo(chain, t))
  {
    UnambiguousIsChain(scope, nodes, chain);
    ChainIncreases(scope, chain);
    UpToIsPrefix(chain, t);
    var kept := UpTo(chain, t);
    assert kept[0] == chain[0];
    assert Roots(scope, part) == {chain[0]} by {
      assert chain[0] in Roots(scope, nodes);
      assert forall n :: n in Roots(scope, part) ==> n in Roots(scope, nodes);
    }
    forall i | 1 <= i <= |kept|
      ensures Settled(scope, part, kept, i)
    {
      assert Settled(scope, nodes, chain, i);
      CursorOfPrefix(kept, chain, i);
      var before := Successors(scope, chain[0].campaignId, nodes, CursorAt(chain, i));
      var now := Successors(scope, chain[0].campaignId, part, CursorAt(chain, i));
      assert forall n :: n in now <==> n in before && n in part;
      if i < |chain| {
        assert chain[i] in before;
      }
    }
  }

  // ---------- prefix stability, idempotence, order independence ----------

  /** What every later cut of a successful resolution looks like. */
  function Cut(r: ResolvedCampaign, t: u64): Result<ResolvedCampaign, ChainError>
    requires r.events != []
  {
    if t < r.events[0].At() then Failure(Cycle) else Success(r.(events := UpTo(r.events, t)))
  }

  /** A list between the resolved chain and all its evidence, cut at `t`, resolves to the chain cut at `t`. */
  lemma CutEvidence(scope: Scope, nodes: set<CampaignEvent>, r: ResolvedCampaign, list: seq<CampaignEvent>, t: u64)
    requires ResolveSet(scope, nodes) == Success(r)
    requires list != [] && FirstDefect(VisibleAt(list, t)).None? && DistinctIds(VisibleAt(list, t))
    requires forall n :: n in list && n.At() <= t ==> n in nodes
    requires forall n :: n in r.events && n.At() <= t ==> n in list
    ensures r.events != [] && ResolveAt(list, scope, t) == Cut(r, t)
  {
    ResolvedIsUnambiguous(scope, nodes, r);
    UnambiguousIsChain(scope, nodes, r.events);
    var part := ToSet(VisibleAt(list, t));
    if t < r.events[0].At() {
      assert forall n :: n in Roots(scope, part) ==> n in Roots(scope, nodes);
      assert Roots(scope, part) == {};
    } else {
      PartialEvidence(scope, nodes, r.events, part, t);
      ResolvesExactlyUnambiguousChains(scope, part, UpTo(r.events, t));
      ChainIncreases(scope, r.events);
      UpToIsPrefix(r.events, t);
    }
  }

  /** Resolving again with an earlier cut yields exactly the events published by then. */
  lemma PrefixStability(nodes: seq<CampaignEvent>, scope: Scope, at: u64, r: ResolvedCampaign, t: u64)
    requires ResolveAt(nodes, scope, at) == Success(r) && t <= at
    ensures r.events != [] && ResolveAt(nodes, scope, t) == Cut(r, t)
  {
    var visible := VisibleAt(nodes, at);
    var earlier := (n: CampaignEvent) => n.At() <= t;
    FilterFilter(earlier, (n: CampaignEvent) => n.At() <= at, nodes);
    assert VisibleAt(nodes, t) == Filter(earlier, visible);
    FilterDistinctKeys(IdOf, earlier, visible);
    ResolvedIsUnambiguous(scope, ToSet(visible), r);
    UnambiguousIsChain(scope, ToSet(visible), r.events);
    CutEvidence(scope, ToSet(visible), r, nodes, t);
  }

  lemma ChainIdsDistinct(scope: Scope, visible: seq<CampaignEvent>, r: ResolvedCampaign)
    requires DistinctIds(visible) && ResolveSet(scope, ToSet(visible)) == Success(r)
    ensures r.events != [] && DistinctIds(r.events)
  {
    ResolvedIsUnambiguous(scope, ToSet(visible), r);
    UnambiguousIsChain(scope, ToSet(visible), r.events);
    ChainIncreases(scope, r.events);
    forall i, j | 0 <= i < j < |r.events|
      ensures IdOf(r.events[i]) != IdOf(r.events[j])
    {
      if IdOf(r.events[i]) == IdOf(r.events[j]) {
        assert r.events[i] in r.events && r.events[j] in r.events;
        SameKey(IdOf, visible, r.events[i], r.events[j]);
      }
    }
  }

  /** A resolved chain is its own evidence: re-resolving it at any time gives it back, cut at that time. */
  lemma ReresolvingAChain(nodes: seq<CampaignEvent>, scope: Scope, at: u64, r: ResolvedCampaign, t: u64)
    requires ResolveAt(nodes, scope, at) == Success(r)
    ensures r.events != [] && ResolveAt(r.events, scope, t) == Cut(r, t)
  {
    var visible := VisibleAt(nodes, at);
    ChainIdsDistinct(scope, visible, r);
    ResolvedIsUnambiguous(scope, ToSet(visible), r);
    UnambiguousIsChain(scope, ToSet(visible), r.events);
    FilterDistinctKeys(IdOf, (n: CampaignEvent) => n.At() <= t, r.events);
    CutEvidence(scope, ToSet(visible), r, r.events, t);
  }

  lemma ReresolutionIsIdempotent(nodes: seq<CampaignEvent>, scope: Scope, r: ResolvedCampaign)
    requires Resolve(nodes, scope) == Success(r)
    ensures Resolve(r.events, scope) == Success(r)
  {
    ReresolvingAChain(nodes, scope, U64_MAX, r, U64_MAX);
    FilterAll((n: CampaignEvent) => n.At() <= U64_MAX, r.events);
  }

  /** Only which well-formed events are visible matters, not their order. */
  lemma OrderIndependence(a: seq<CampaignEvent>, b: seq<CampaignEvent>, scope: Scope, t: u64)
    requires FirstDefect(VisibleAt(a, t)).None? && DistinctIds(VisibleAt(a, t))
    requires DistinctIds(VisibleAt(b, t))
    requires a != [] && b != [] && forall n: CampaignEvent :: n.At() <= t ==> (n in a <==> n in b)
    ensures ResolveAt(a, scope, t) == ResolveAt(b, scope, t)
  {
    assert ToSet(VisibleAt(a, t)) == ToSet(VisibleAt(b, t));
  }

  // ---------- which chains resolve ----------

  lemma FollowsItsPredecessor(scope: Scope, chain: seq<CampaignEvent>, i: nat, n: CampaignEvent)
    requires IsChain(scope, chain) && DistinctIds(chain) && 1 <= i <= |chain| && n in chain
    requires n.predecessor == Some(chain[i - 1].event.id)
    ensures i < |chain| && n == chain[i]
  {
    var j :| 0 <= j < |chain| && chain[j] == n;
    if j > 0 {
      assert Linked(scope, chain, j);
      assert IdOf(chain[j - 1]) == IdOf(chain[i - 1]);
    }
  }

  lemma OneRoot(scope: Scope, chain: seq<CampaignEvent>)
    requires IsChain(scope, chain)
    ensures Roots(scope, ToSet(chain)) == {chain[0]}
  {
    forall j | 1 <= j < |chain| ensures chain[j].predecessor.Some? {
      assert Linked(scope, chain, j);
    }
  }

  /** Every chain whose events carry distinct ids resolves to itself. */
  lemma ChainsResolve(scope: Scope, chain: seq<CampaignEvent>)
    requires IsChain(scope, chain) && DistinctIds(chain)
    ensures ResolveSet(scope, ToSet(chain)) == Success(Resolved(scope, chain))
  {
    var nodes := ToSet(chain);
    OneRoot(scope, chain);
    forall i | 1 <= i <= |chain| ensures Settled(scope, nodes, chain, i) {
      forall n | n in Successors(scope, chain[0].campaignId, nodes, CursorAt(chain, i))
        ensures i < |chain| && n == chain[i]
      {
        FollowsItsPredecessor(scope, chain, i, n);
      }
      if i < |chain| {
        assert Linked(scope, chain, i);
      }
    }
    ResolvesExactlyUnambiguousChains(scope, nodes, chain);
  }

  // ---------- forks ----------

  /** A chain found anywhere in the evidence is the start of the resolved one. */
  lemma {:induction false} ResolvedExtends(scope: Scope, nodes: set<CampaignEvent>, front: seq<CampaignEvent>,
                                           chain: seq<CampaignEvent>)
    requires IsChain(scope, front) && (forall n :: n in front ==> n in nodes) && Unambiguous(scope, nodes, chain)
    ensures front <= chain
  {
    var k := |front| - 1;
    if k == 0 {
      assert front[0] in Roots(scope, nodes);
    } else {
      var shorter := front[..k];
      assert forall n :: n in shorter ==> n in front;
      ChainPrefix(scope, front, k);
      ResolvedExtends(scope, nodes, shorter, chain);
      CursorOfPrefix(shorter, front, k);
      CursorOfPrefix(shorter, chain, k);
      assert Linked(scope, front, k) && front[k] in front;
      assert front[k] in Successors(scope, chain[0].campaignId, nodes, CursorAt(chain, k));
      assert Settled(scope, nodes, chain, k);
    }
  }

  lemma OnlySuccessor(scope: Scope, nodes: set<CampaignEvent>, front: seq<CampaignEvent>, chain: seq<CampaignEvent>,
                      n: CampaignEvent)
    requires Unambiguous(scope, nodes, chain) && front != [] && front <= chain && n in nodes
    requires Admits(scope, front[0].campaignId, CursorAt(front, |front|), n)
    ensures |front| < |chain| && chain[|front|] == n
  {
    CursorOfPrefix(front, chain, |front|);
    assert Settled(scope, nodes, chain, |front|);
    assert n in Successors(scope, chain[0].campaignId, nodes, CursorAt(chain, |front|));
  }

  /** Two admissible successors of one event, anywhere along a chain, leave the whole campaign unresolved. */
  lemma ForksFailClosed(scope: Scope, nodes: set<CampaignEvent>, front: seq<CampaignEvent>, a: CampaignEvent,
                        b: CampaignEvent)
    requires IsChain(scope, front) && (forall n :: n in front ==> n in nodes) && a in nodes && b in nodes && a != b
    requires Admits(scope, front[0].campaignId, CursorAt(front, |front|), a)
    requires Admits(scope, front[0].campaignId, CursorAt(front, |front|), b)
    ensures ResolveSet(scope, nodes).Failure?
  {
    if ResolveSet(scope, nodes).Success? {
      var chain := ResolveSet(scope, nodes).value.events;
      ResolvedIsUnambiguous(scope, nodes, ResolveSet(scope, nodes).value);
      ResolvedExtends(scope, nodes, front, chain);
      OnlySuccessor(scope, nodes, front, chain, a);
      OnlySuccessor(scope, nodes, front, chain, b);
      assert false;
    }
  }
}
