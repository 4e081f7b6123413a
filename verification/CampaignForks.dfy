/** When a campaign resolves at all, and when later events take its past away. */
module CampaignForks {
  import opened Base
  import opened Protocol
  import opened Text
  import opened Campaign
  import opened CampaignChain
  import opened CampaignHistory
  import opened CampaignLifecycle

  // ---------- forks ----------

  /** Along `front`, a chain of this evidence, `a` and `b` compete for the next place. */
  ghost predicate ForkAt(scope: Scope, nodes: set<CampaignEvent>, front: seq<CampaignEvent>,
                         a: CampaignEvent, b: CampaignEvent)
  {
    && IsChain(scope, front) && (forall n :: n in front ==> n in nodes) && a in nodes && b in nodes && a != b
    && Admits(scope, front[0].campaignId, CursorAt(front, |front|), a)
    && Admits(scope, front[0].campaignId, CursorAt(front, |front|), b)
  }

  ghost predicate HasFork(scope: Scope, nodes: set<CampaignEvent>) {
    exists front, a, b :: ForkAt(scope, nodes, front, a, b)
  }

  lemma ChainGrows(scope: Scope, front: seq<CampaignEvent>, n: CampaignEvent)
    requires IsChain(scope, front) && Admits(scope, front[0].campaignId, CursorAt(front, |front|), n)
    ensures IsChain(scope, front + [n])
  {
    var longer := front + [n];
    forall i | 1 <= i < |longer| ensures Linked(scope, longer, i) {
      if i < |front| {
        assert Linked(scope, front, i);
        CursorOfPrefix(front, longer, i);
      } else {
        CursorOfPrefix(front, longer, |front|);
      }
    }
  }

  /** A walk along a chain of this evidence fails only at a fork. */
  lemma {:induction false} FailedWalkForks(scope: Scope, nodes: set<CampaignEvent>, front: seq<CampaignEvent>)
    requires IsChain(scope, front) && forall n :: n in front ==> n in nodes
    requires Walk(scope, front[0].campaignId, nodes, CursorAt(front, |front|)).Failure?
    ensures HasFork(scope, nodes)
    decreases U64_MAX - front[|front| - 1].At()
  {
    var cur := CursorAt(front, |front|);
    var next := Successors(scope, front[0].campaignId, nodes, cur);
    var a :| a in next;
    if next == {a} {
      ChainGrows(scope, front, a);
      CursorOfPrefix(front, front + [a], |front|);
      FailedWalkForks(scope, nodes, front + [a]);
    } else {
      var b :| b in next && b != a;
      assert ForkAt(scope, nodes, front, a, b);
    }
  }

  /** With one root, in order, resolution fails exactly when the evidence holds a fork. */
  lemma FailsExactlyAtForks(scope: Scope, nodes: set<CampaignEvent>, root: CampaignEvent)
    requires CampaignChain.Roots(scope, nodes) == {root} && RootInOrder(root)
    ensures ResolveSet(scope, nodes).Failure? <==> HasFork(scope, nodes)
  {
    assert root in CampaignChain.Roots(scope, nodes);
    if HasFork(scope, nodes) {
      var front, a, b :| ForkAt(scope, nodes, front, a, b);
      ForksFailClosed(scope, nodes, front, a, b);
    }
    if ResolveSet(scope, nodes).Failure? {
      assert Walk(scope, root.campaignId, nodes, Begin(root)).Failure?;
      FailedWalkForks(scope, nodes, [root]);
    }
  }

  // ---------- the exact condition, from the evidence alone ----------

  ghost predicate OneRootInOrder(scope: Scope, nodes: set<CampaignEvent>) {
    exists root :: CampaignChain.Roots(scope, nodes) == {root} && RootInOrder(root)
  }

  lemma SetResolvesIff(scope: Scope, nodes: set<CampaignEvent>)
    ensures ResolveSet(scope, nodes).Success? <==> OneRootInOrder(scope, nodes) && !HasFork(scope, nodes)
  {
    if ResolveSet(scope, nodes).Success? {
      var r := ResolveSet(scope, nodes).value;
      ResolvedIsUnambiguous(scope, nodes, r);
      FailsExactlyAtForks(scope, nodes, r.events[0]);
    }
    if OneRootInOrder(scope, nodes) {
      var root :| CampaignChain.Roots(scope, nodes) == {root} && RootInOrder(root);
      FailsExactlyAtForks(scope, nodes, root);
    }
  }

  /** Every node is what its signed event parses to, and no id occurs twice. */
  ghost predicate WellFormed(nodes: seq<CampaignEvent>) {
    DistinctIds(nodes) && FirstDefect(nodes).None?
  }

  lemma AllVisible(nodes: seq<CampaignEvent>)
    ensures VisibleAt(nodes, U64_MAX) == nodes
  {
    FilterAll((n: CampaignEvent) => n.At() <= U64_MAX, nodes);
  }

  /** A list resolves exactly when its nodes are well formed, it has one root, in order, and it holds no fork. */
  lemma ResolvesIff(nodes: seq<CampaignEvent>, scope: Scope)
    ensures Resolve(nodes, scope).Success? <==>
      WellFormed(nodes) && OneRootInOrder(scope, ToSet(nodes)) && !HasFork(scope, ToSet(nodes))
  {
    AllVisible(nodes);
    SetResolvesIff(scope, ToSet(nodes));
    if nodes == [] {
      assert CampaignChain.Roots(scope, ToSet(nodes)) == {};
    }
  }

  // ---------- what later events can take away ----------

  /** Nothing competes with the root of `r`, nor for a place along any chain. */
  ghost predicate Uncontested(scope: Scope, nodes: seq<CampaignEvent>, r: ResolvedCampaign) {
    r.events != [] && CampaignChain.Roots(scope, ToSet(nodes)) == {r.events[0]} && !HasFork(scope, ToSet(nodes))
  }

  lemma VisibleRoot(nodes: seq<CampaignEvent>, scope: Scope, t: u64, r: ResolvedCampaign)
    requires ResolveAt(nodes, scope, t) == Success(r)
    ensures r.events != [] && RootInOrder(r.events[0]) && r.events[0].At() <= t
    ensures r.events[0] in nodes && IsRoot(scope, r.events[0])
  {
    var seen := ToSet(VisibleAt(nodes, t));
    ResolvedIsUnambiguous(scope, seen, r);
    assert r.events[0] in CampaignChain.Roots(scope, seen);
  }

  lemma OnlyRootIff(scope: Scope, nodes: set<CampaignEvent>, root: CampaignEvent)
    requires root in CampaignChain.Roots(scope, nodes) && RootInOrder(root)
    ensures OneRootInOrder(scope, nodes) <==> CampaignChain.Roots(scope, nodes) == {root}
  {
  }

  /** What resolved on some evidence resolves on more exactly when the new evidence is well formed and brings no second
      root and no fork. */
  lemma StillResolvesIff(few: seq<CampaignEvent>, many: seq<CampaignEvent>, scope: Scope, t: u64, r: ResolvedCampaign)
    requires ResolveAt(few, scope, t) == Success(r) && forall n :: n in few ==> n in many
    ensures Resolve(many, scope).Success? <==> WellFormed(many) && Uncontested(scope, many, r)
  {
    VisibleRoot(few, scope, t, r);
    ResolvesIff(many, scope);
    assert r.events[0] in CampaignChain.Roots(scope, ToSet(many));
    OnlyRootIff(scope, ToSet(many), r.events[0]);
  }

  /** `whole` answers for time `t` as the resolution at `t` did. */
  ghost predicate KeepsPast(whole: Result<ResolvedCampaign, ChainError>, r: ResolvedCampaign, t: u64) {
    && whole.Success?
    && whole.value.rootEventId == r.rootEventId && whole.value.publisher == r.publisher
    && whole.value.campaignId == r.campaignId && whole.value.coordinate == r.coordinate
    && StateAt(whole.value, t) == StateAt(r, t)
  }

  /** The past is answered as it was exactly when the whole list is well formed, without a repeated event, and no second
      root and no fork has appeared since. */
  lemma PastSurvivesIff(nodes: seq<CampaignEvent>, scope: Scope, t: u64, r: ResolvedCampaign)
    requires ResolveAt(nodes, scope, t) == Success(r)
    ensures KeepsPast(Resolve(nodes, scope), r, t) <==> WellFormed(nodes) && Uncontested(scope, nodes, r)
  {
    StillResolvesIff(nodes, nodes, scope, t, r);
    if WellFormed(nodes) && Uncontested(scope, nodes, r) {
      var whole := Resolve(nodes, scope).value;
      PrefixStability(nodes, scope, U64_MAX, whole, t);
      assert Cut(whole, t) == Success(r);
      StateAtIsPrefixFold(nodes, scope, U64_MAX, whole, t);
      StateAtIsPrefixFold(nodes, scope, t, r, t);
      ResolvedChain(nodes, scope, U64_MAX, whole);
      ResolvedChain(nodes, scope, t, r);
      UpToTwice(whole.events, t);
      SameCutSameState(scope, whole.events, r.events, t);
    }
  }

  lemma UpToTwice(chain: seq<CampaignEvent>, t: u64)
    ensures UpTo(UpTo(chain, t), t) == UpTo(chain, t)
  {
    FilterAll((n: CampaignEvent) => n.At() <= t, UpTo(chain, t));
  }

  // ---------- one input for each way to lose the past ----------

  lemma OnlyRootVisible(root: CampaignEvent, later: seq<CampaignEvent>, t: u64)
    requires root.At() <= t && forall n :: n in later ==> n.At() > t
    ensures VisibleAt([root] + later, t) == [root]
  {
    var seen := (n: CampaignEvent) => n.At() <= t;
    FilterConcat(seen, [root], later);
    FilterSingle(seen, root);
    FilterNone(seen, later);
  }

  lemma RootResolvesAlone(scope: Scope, root: CampaignEvent, later: seq<CampaignEvent>, t: u64)
    requires FirstDefect([root]).None? && IsRoot(scope, root) && RootInOrder(root)
    requires root.At() <= t && forall n :: n in later ==> n.At() > t
    ensures ResolveAt([root] + later, scope, t) == Success(Resolved(scope, [root]))
  {
    OnlyRootVisible(root, later, t);
    ChainsResolve(scope, [root]);
  }

  lemma PairKeys<K, T(!new)>(key: T -> K, x: T, y: T)
    ensures ToSet([x] + [y]) == {x, y}
    ensures DistinctKeys(key, [x] + [y]) <==> key(x) != key(y)
  {
    DistinctKeysAppend(key, [x], y);
  }

  lemma TripleKeys<K, T(!new)>(key: T -> K, x: T, y: T, z: T)
    ensures ToSet([x] + [y, z]) == {x, y, z}
    ensures DistinctKeys(key, [x] + [y, z]) <==> key(x) != key(y) && key(x) != key(z) && key(y) != key(z)
  {
    assert [x] + [y, z] == [x] + [y] + [z];
    PairKeys(key, x, y);
    DistinctKeysAppend(key, [x] + [y], z);
  }

  lemma ParsedTriple(x: CampaignEvent, y: CampaignEvent, z: CampaignEvent, nodes: seq<CampaignEvent>)
    requires FirstDefect([x]).None? && FirstDefect([y]).None? && FirstDefect([z]).None?
    requires ToSet(nodes) <= {x, y, z}
    ensures FirstDefect(nodes).None?
  {
    assert x in [x] && y in [y] && z in [z];
    assert forall n :: n in nodes ==> n in ToSet(nodes);
  }

  lemma WellFormedPair(x: CampaignEvent, y: CampaignEvent)
    requires FirstDefect([x]).None? && FirstDefect([y]).None? && IdOf(x) != IdOf(y)
    ensures WellFormed([x] + [y])
  {
    PairKeys(IdOf, x, y);
    ParsedTriple(x, y, y, [x] + [y]);
  }

  lemma WellFormedTriple(x: CampaignEvent, y: CampaignEvent, z: CampaignEvent)
    requires FirstDefect([x]).None? && FirstDefect([y]).None? && FirstDefect([z]).None?
    requires IdOf(x) != IdOf(y) && IdOf(x) != IdOf(z) && IdOf(y) != IdOf(z)
    ensures WellFormed([x] + [y, z])
  {
    TripleKeys(IdOf, x, y, z);
    ParsedTriple(x, y, z, [x] + [y, z]);
  }

  lemma WellFormedResolves(nodes: seq<CampaignEvent>, scope: Scope)
    requires WellFormed(nodes) && nodes != []
    ensures Resolve(nodes, scope) == ResolveSet(scope, ToSet(nodes))
  {
    AllVisible(nodes);
  }

  lemma TwoSuccessorsFork(scope: Scope, root: CampaignEvent, a: CampaignEvent, b: CampaignEvent)
    requires IsRoot(scope, root) && RootInOrder(root) && a != b
    requires Admits(scope, root.campaignId, Begin(root), a) && Admits(scope, root.campaignId, Begin(root), b)
    ensures ResolveSet(scope, {root, a, b}) == Failure(Fork(root.event.id)) && HasFork(scope, {root, a, b})
  {
    var nodes := {root, a, b};
    assert ForkAt(scope, nodes, [root], a, b);
    assert CampaignChain.Roots(scope, nodes) == {root};
    var next := Successors(scope, root.campaignId, nodes, Begin(root));
    assert a in next && b in next;
  }

  /** Two cancellations of one root, both later than `t`: resolved at `t`, a fork once they are seen. */
  lemma LateForkTakesThePast(scope: Scope, root: CampaignEvent, a: CampaignEvent, b: CampaignEvent, t: u64)
    requires WellFormed([root] + [a, b]) && IsRoot(scope, root) && RootInOrder(root)
    requires root.At() <= t < a.At() && t < b.At()
    requires Admits(scope, root.campaignId, Begin(root), a) && Admits(scope, root.campaignId, Begin(root), b)
    ensures ResolveAt([root] + [a, b], scope, t) == Success(Resolved(scope, [root]))
    ensures Resolve([root] + [a, b], scope) == Failure(Fork(root.event.id))
    ensures HasFork(scope, ToSet([root] + [a, b]))
  {
    var nodes := [root] + [a, b];
    assert nodes[0] == root;
    RootResolvesAlone(scope, root, [a, b], t);
    assert nodes[1] == a && nodes[2] == b && IdOf(nodes[1]) != IdOf(nodes[2]);
    TwoSuccessorsFork(scope, root, a, b);
    WellFormedResolves(nodes, scope);
    TripleKeys(IdOf, root, a, b);
  }

  lemma RootsDoNotFork(scope: Scope, nodes: set<CampaignEvent>)
    requires forall n :: n in nodes ==> n.predecessor.None?
    ensures !HasFork(scope, nodes)
  {
    forall front, a, b ensures !ForkAt(scope, nodes, front, a, b) {
    }
  }

  lemma SecondRoot(scope: Scope, root: CampaignEvent, other: CampaignEvent)
    requires IsRoot(scope, root) && IsRoot(scope, other) && root != other
    ensures ResolveSet(scope, {root, other}) == Failure(MultipleRoots) && !HasFork(scope, {root, other})
  {
    assert CampaignChain.Roots(scope, {root, other}) == {root, other};
    RootsDoNotFork(scope, {root, other});
  }

  /** A second root published after `t`: resolved at `t`, two roots once it is seen, and no fork anywhere. */
  lemma LateRootTakesThePast(scope: Scope, root: CampaignEvent, other: CampaignEvent, t: u64)
    requires WellFormed([root] + [other]) && IsRoot(scope, root) && RootInOrder(root) && IsRoot(scope, other)
    requires root.At() <= t < other.At()
    ensures ResolveAt([root] + [other], scope, t) == Success(Resolved(scope, [root]))
    ensures Resolve([root] + [other], scope) == Failure(MultipleRoots)
    ensures !HasFork(scope, ToSet([root] + [other]))
  {
    var nodes := [root] + [other];
    assert nodes[0] == root;
    RootResolvesAlone(scope, root, [other], t);
    assert nodes[1] == other && IdOf(nodes[0]) != IdOf(nodes[1]);
    SecondRoot(scope, root, other);
    WellFormedResolves(nodes, scope);
    PairKeys(IdOf, root, other);
  }

  lemma RepetitionIsDisconnected(nodes: seq<CampaignEvent>, scope: Scope)
    requires FirstDefect(nodes).None? && nodes != [] && !DistinctIds(nodes)
    ensures Resolve(nodes, scope) == Failure(Disconnected)
  {
    AllVisible(nodes);
  }

  lemma OneSuccessorDoesNotFork(scope: Scope, root: CampaignEvent, x: CampaignEvent)
    requires root.predecessor.None?
    ensures !HasFork(scope, {root, x})
  {
    forall front, a, b ensures !ForkAt(scope, {root, x}, front, a, b) {
    }
  }

  lemma RepeatedIsUncontested(scope: Scope, root: CampaignEvent, x: CampaignEvent)
    requires IsRoot(scope, root) && x.predecessor.Some?
    ensures Uncontested(scope, [root] + [x, x], Resolved(scope, [root]))
  {
    TripleKeys(IdOf, root, x, x);
    assert ToSet([root] + [x, x]) == {root, x};
    assert CampaignChain.Roots(scope, {root, x}) == {root};
    OneSuccessorDoesNotFork(scope, root, x);
  }

  /** A later event delivered twice: resolved at `t`, and refused as a whole, although nothing competes. */
  lemma LateRepetitionTakesThePast(scope: Scope, root: CampaignEvent, x: CampaignEvent, t: u64)
    requires FirstDefect([root]).None? && FirstDefect([x]).None? && x.predecessor.Some?
    requires IsRoot(scope, root) && RootInOrder(root) && root.At() <= t < x.At()
    ensures ResolveAt([root] + [x, x], scope, t) == Success(Resolved(scope, [root]))
    ensures Resolve([root] + [x, x], scope) == Failure(Disconnected)
    ensures Uncontested(scope, [root] + [x, x], Resolved(scope, [root]))
  {
    var nodes := [root] + [x, x];
    RootResolvesAlone(scope, root, [x, x], t);
    TripleKeys(IdOf, root, x, x);
    ParsedTriple(root, x, x, nodes);
    RepetitionIsDisconnected(nodes, scope);
    RepeatedIsUncontested(scope, root, x);
  }

  // ---------- the same three inputs, written out ----------

  const SUMMER: CampaignTerms := CampaignTerms(Claim, 20, 30)

  function SummerScope(publisher: PublicKey): Scope {
    Scope(publisher, CoordinateOf(publisher, "game"))
  }

  /** A root published at `at` for a free claim open from 20 to 30. */
  lemma SummerRoot(publisher: PublicKey, id: EventId, at: u64) returns (n: CampaignEvent)
    ensures FirstDefect([n]).None? && n.event.id == id && n.At() == at
    ensures IsRoot(SummerScope(publisher), n) && n.transition == Root(SUMMER) && n.campaignId == "summer"
  {
    var params := CampaignBuildParams("summer", CoordinateOf(publisher, "game"), Some(SUMMER), None, false);
    CoordinateNamesPublisher(publisher, "game");
    BuiltEventParses(id, publisher, at, params);
    n := BuiltNode(id, publisher, at, params);
  }

  /** A cancellation of the event `predecessor`, published at `at`. */
  lemma SummerCancel(publisher: PublicKey, id: EventId, at: u64, predecessor: EventId) returns (n: CampaignEvent)
    ensures FirstDefect([n]).None? && n.event.id == id && n.At() == at
    ensures n.event.pubkey == publisher && n.coordinate == SummerScope(publisher).coordinate
    ensures n.predecessor == Some(predecessor) && n.transition == Cancel && n.campaignId == "summer"
  {
    var params := CampaignBuildParams("summer", CoordinateOf(publisher, "game"), None, Some(predecessor), true);
    CoordinateNamesPublisher(publisher, "game");
    BuiltEventParses(id, publisher, at, params);
    n := BuiltNode(id, publisher, at, params);
  }

  lemma OpenAlone(scope: Scope, root: CampaignEvent, t: u64)
    requires FirstDefect([root]).None? && IsRoot(scope, root) && RootInOrder(root)
    requires root.transition.terms.starts <= t < root.transition.terms.ends
    ensures ClaimableAt(Resolved(scope, [root]), t)
  {
    var r := Resolved(scope, [root]);
    assert [root] + [] == [root] && r.events == [root];
    RootResolvesAlone(scope, root, [], t);
    assert Replay(r.events[1..], t, CampaignState(Running, root.transition.terms)) ==
      Some(CampaignState(Running, root.transition.terms));
  }

  /** A free claim published at 10 and open from 20 to 30 is cancelled at 25 and again at 26. At 22 it could be
      claimed; now it does not resolve, for 22 no more than for any other time. */
  lemma TwoCancellations(publisher: PublicKey) returns (root: CampaignEvent, a: CampaignEvent, b: CampaignEvent)
    ensures root.At() == 10 && root.transition == Root(SUMMER)
    ensures a.At() == 25 && b.At() == 26 && a.transition == b.transition == Cancel
    ensures WellFormed([root] + [a, b])
    ensures ResolveAt([root] + [a, b], SummerScope(publisher), 22) == Success(Resolved(SummerScope(publisher), [root]))
    ensures ClaimableAt(Resolved(SummerScope(publisher), [root]), 22)
    ensures Resolve([root] + [a, b], SummerScope(publisher)) == Failure(Fork(root.event.id))
  {
    root := SummerRoot(publisher, DigitId('a'), 10);
    a := SummerCancel(publisher, DigitId('b'), 25, DigitId('a'));
    b := SummerCancel(publisher, DigitId('c'), 26, DigitId('a'));
    IdsDiffer('a', 'b');
    IdsDiffer('a', 'c');
    IdsDiffer('b', 'c');
    WellFormedTriple(root, a, b);
    OpenAlone(SummerScope(publisher), root, 22);
    LateForkTakesThePast(SummerScope(publisher), root, a, b, 22);
  }

  /** The same campaign, and a second root for the game published at 25. */
  lemma TwoRoots(publisher: PublicKey) returns (root: CampaignEvent, other: CampaignEvent)
    ensures root.At() == 10 && other.At() == 25 && root.transition == other.transition == Root(SUMMER)
    ensures WellFormed([root] + [other])
    ensures ResolveAt([root] + [other], SummerScope(publisher), 22) == Success(Resolved(SummerScope(publisher), [root]))
    ensures ClaimableAt(Resolved(SummerScope(publisher), [root]), 22)
    ensures Resolve([root] + [other], SummerScope(publisher)) == Failure(MultipleRoots)
  {
    root := SummerRoot(publisher, DigitId('a'), 10);
    other := SummerRoot(publisher, DigitId('b'), 25);
    IdsDiffer('a', 'b');
    WellFormedPair(root, other);
    OpenAlone(SummerScope(publisher), root, 22);
    LateRootTakesThePast(SummerScope(publisher), root, other, 22);
  }

  /** The same campaign, and its cancellation of 25 delivered twice. */
  lemma RepeatedCancellation(publisher: PublicKey) returns (root: CampaignEvent, x: CampaignEvent)
    ensures root.At() == 10 && root.transition == Root(SUMMER) && x.At() == 25 && x.transition == Cancel
    ensures ResolveAt([root] + [x, x], SummerScope(publisher), 22) == Success(Resolved(SummerScope(publisher), [root]))
    ensures ClaimableAt(Resolved(SummerScope(publisher), [root]), 22)
    ensures Uncontested(SummerScope(publisher), [root] + [x, x], Resolved(SummerScope(publisher), [root]))
    ensures Resolve([root] + [x, x], SummerScope(publisher)) == Failure(Disconnected)
  {
    root := SummerRoot(publisher, DigitId('a'), 10);
    x := SummerCancel(publisher, DigitId('b'), 25, DigitId('a'));
    OpenAlone(SummerScope(publisher), root, 22);
    LateRepetitionTakesThePast(SummerScope(publisher), root, x, 22);
  }
}
