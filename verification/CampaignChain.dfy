/** Resolution of a campaign: one root, then at each tip the only admissible successor. */
module CampaignChain {
  import opened Base
  import opened Protocol
  import opened Campaign

  /** Where a walk along the chain stands. `termsAt` and `cancelledAt` date the last two kinds of change. */
  datatype Cursor = Cursor(last: CampaignEvent, terms: CampaignTerms, termsAt: u64, cancelledAt: Option<u64>)

  datatype Scope = Scope(publisher: PublicKey, coordinate: string)

  predicate IsRoot(scope: Scope, node: CampaignEvent) {
    && node.predecessor.None?
    && node.event.pubkey == scope.publisher
    && node.coordinate == scope.coordinate
    && node.transition.Root?
  }

  predicate RootInOrder(root: CampaignEvent) {
    root.transition.Root? && root.transition.terms.starts < root.transition.terms.ends
    && root.At() <= root.transition.terms.starts
  }

  /** `next` may follow the tip `cur.last` of the chain whose root carries `campaignId`. */
  predicate Admits(scope: Scope, campaignId: string, cur: Cursor, next: CampaignEvent) {
    && next.predecessor == Some(cur.last.event.id)
    && next.event.pubkey == scope.publisher
    && next.coordinate == scope.coordinate
    && next.campaignId == campaignId
    && next.At() > cur.last.At()
    && next.predecessor != Some(next.event.id)
    && cur.cancelledAt.None?
    && match next.transition
       case ReplaceTerms(terms) => terms.starts < terms.ends && next.At() < cur.terms.starts
       case Cancel => true
       case Root(_) => false
  }

  function Begin(root: CampaignEvent): Cursor
    requires root.transition.Root?
  {
    Cursor(root, root.transition.terms, root.At(), None)
  }

  function Advance(cur: Cursor, next: CampaignEvent): Cursor {
    match next.transition
    case ReplaceTerms(terms) => Cursor(next, terms, next.At(), cur.cancelledAt)
    case Cancel => Cursor(next, cur.terms, cur.termsAt, Some(next.At()))
    case Root(_) => cur.(last := next)
  }

  /** The cursor after walking the first `i` events of `chain`. */
  function CursorAt(chain: seq<CampaignEvent>, i: nat): (cur: Cursor)
    requires 1 <= i <= |chain| && chain[0].transition.Root?
    ensures cur.last == chain[i - 1]
  {
    if i == 1 then Begin(chain[0]) else Advance(CursorAt(chain, i - 1), chain[i - 1])
  }

  lemma {:induction false} CursorOfPrefix(chain: seq<CampaignEvent>, longer: seq<CampaignEvent>, i: nat)
    requires 1 <= i <= |chain| && chain[0].transition.Root? && chain <= longer
    ensures CursorAt(chain, i) == CursorAt(longer, i)
  {
    if i > 1 {
      CursorOfPrefix(chain, longer, i - 1);
    }
  }

  // ---------- resolution as a function of the set of visible events ----------

  function Successors(scope: Scope, campaignId: string, nodes: set<CampaignEvent>, cur: Cursor): set<CampaignEvent> {
    set n | n in nodes && Admits(scope, campaignId, cur, n)
  }

  function Roots(scope: Scope, nodes: set<CampaignEvent>): set<CampaignEvent> {
    set n | n in nodes && IsRoot(scope, n)
  }

  ghost function Walk(scope: Scope, campaignId: string, nodes: set<CampaignEvent>, cur: Cursor)
    : (r: Result<seq<CampaignEvent>, ChainError>)
    ensures r.Success? ==> r.value != [] && r.value[0] == cur.last
    decreases U64_MAX - cur.last.At()
  {
    var next := Successors(scope, campaignId, nodes, cur);
    if next == {} then Success([cur.last])
    else
      var n :| n in next;
      if next != {n} then Failure(Fork(cur.last.event.id))
      else
        var rest :- Walk(scope, campaignId, nodes, Advance(cur, n));
        Success([cur.last] + rest)
  }

  ghost function ResolveSet(scope: Scope, nodes: set<CampaignEvent>): Result<ResolvedCampaign, ChainError> {
    var roots := Roots(scope, nodes);
    if roots == {} then Failure(Cycle)
    else
      var root :| root in roots;
      if roots != {root} then Failure(MultipleRoots)
      else if !RootInOrder(root) then Failure(InvalidTransition)
      else
        var events :- Walk(scope, root.campaignId, nodes, Begin(root));
        Success(ResolvedCampaign(root.event.id, scope.publisher, root.campaignId, scope.coordinate, events))
  }

  // ---------- resolution of a list of nodes, as callers see it ----------

  function VisibleAt(nodes: seq<CampaignEvent>, at: u64): seq<CampaignEvent> {
    Filter((n: CampaignEvent) => n.At() <= at, nodes)
  }

  /** Each node is parsed again from its signed event; the first one that differs is an error. */
  function FirstDefect(nodes: seq<CampaignEvent>): (r: Option<ChainError>)
    ensures r.None? <==> forall n :: n in nodes ==> ParseCampaignEvent(n.event) == Success(n)
  {
    if nodes == [] then None
    else
      assert forall n :: n in nodes <==> n == nodes[0] || n in nodes[1..];
      match ParseCampaignEvent(nodes[0].event)
      case Failure(_) => Some(InvalidTransition)
      case Success(parsed) => if parsed != nodes[0] then Some(InvariantMutation) else FirstDefect(nodes[1..])
  }

  function IdOf(n: CampaignEvent): EventId {
    n.event.id
  }

  ghost predicate DistinctIds(nodes: seq<CampaignEvent>) {
    DistinctKeys(IdOf, nodes)
  }

  ghost function ResolveAt(nodes: seq<CampaignEvent>, scope: Scope, at: u64): Result<ResolvedCampaign, ChainError> {
    var visible := VisibleAt(nodes, at);
    if nodes == [] then Failure(Empty)
    else if FirstDefect(visible).Some? then Failure(FirstDefect(visible).value)
    else if !DistinctIds(visible) then Failure(Disconnected)
    else ResolveSet(scope, ToSet(visible))
  }

  ghost function Resolve(nodes: seq<CampaignEvent>, scope: Scope): Result<ResolvedCampaign, ChainError> {
    ResolveAt(nodes, scope, U64_MAX)
  }

  /** The imperative resolver computes `ResolveAt`. */
  method ResolveCampaignAt(nodes: seq<CampaignEvent>, publisher: PublicKey, coordinate: string, at: u64)
    returns (r: Result<ResolvedCampaign, ChainError>)
    ensures r == ResolveAt(nodes, Scope(publisher, coordinate), at)
  {
    if nodes == [] {
      return Failure(Empty);
    }
    var visible := VisibleAt(nodes, at);
    var defect := FirstDefect(visible);
    if defect.Some? {
      return Failure(defect.value);
    }
    var byId := IndexBy(IdOf, visible);
    IndexBySize(IdOf, visible);
    if |byId| != |visible| {
      return Failure(Disconnected);
    }
    var scope := Scope(publisher, coordinate);
    var roots := Filter((n: CampaignEvent) => IsRoot(scope, n), visible);
    FilterAsSet((n: CampaignEvent) => IsRoot(scope, n), visible, Roots(scope, ToSet(visible)));
    if roots == [] {
      return Failure(Cycle);
    }
    if |roots| != 1 {
      return Failure(MultipleRoots);
    }
    var root := roots[0];
    assert root in roots;
    if !RootInOrder(root) {
      return Failure(InvalidTransition);
    }
    var ordered := WalkVisible(visible, byId, scope, root);
    if ordered.Failure? {
      return Failure(ordered.error);
    }
    return Success(ResolvedCampaign(root.event.id, publisher, root.campaignId, coordinate, ordered.value));
  }

  /** The walk from the root; its cycle check on a visited tip can never fire. */
  method WalkVisible(visible: seq<CampaignEvent>, byId: map<EventId, CampaignEvent>, scope: Scope, root: CampaignEvent)
    returns (r: Result<seq<CampaignEvent>, ChainError>)
    requires DistinctIds(visible) && byId == IndexBy(IdOf, visible)
    requires root in visible && root.transition.Root?
    ensures r == Walk(scope, root.campaignId, ToSet(visible), Begin(root))
  {
    ghost var all := ToSet(visible);
    ghost var whole := Walk(scope, root.campaignId, all, Begin(root));
    ghost var cur := Begin(root);
    var ordered, visited: set<EventId> := [], {};
    var current := root.event.id;
    var terms := root.transition.terms;
    var cancelled := false;
    SameKey(IdOf, visible, byId[current], root);
    assert whole == Prepend(ordered, whole) by {
      assert whole.Success? ==> [] + whole.value == whole.value;
    }
    while true
      invariant current in byId && byId[current] == cur.last
      invariant terms == cur.terms && cancelled == cur.cancelledAt.Some?
      invariant forall id :: id in visited ==> id in byId && byId[id].At() < cur.last.At()
      invariant whole == Prepend(ordered, Walk(scope, root.campaignId, all, cur))
      decreases U64_MAX - cur.last.At()
    {
      if current in visited {
        assert false;
      }
      visited := visited + {current};
      var predecessor := byId[current];
      var valid := AdmittedBy(visible, scope, root.campaignId, predecessor, terms, cancelled, cur);
      WalkStep(ordered, scope, root.campaignId, all, cur);
      ordered := ordered + [predecessor];
      if |valid| > 1 {
        return Failure(Fork(current));
      }
      if valid == [] {
        return Success(ordered);
      }
      var next := valid[0];
      SameKey(IdOf, visible, byId[next.event.id], next);
      cur := Advance(cur, next);
      match next.transition {
        case ReplaceTerms(replacement) => terms := replacement;
        case Cancel => cancelled := true;
        case Root(_) =>
      }
      current := next.event.id;
    }
  }

  lemma WalkStep(ordered: seq<CampaignEvent>, scope: Scope, campaignId: string, nodes: set<CampaignEvent>, cur: Cursor)
    ensures
      var next := Successors(scope, campaignId, nodes, cur);
      var whole := Prepend(ordered, Walk(scope, campaignId, nodes, cur));
      && (next == {} ==> whole == Success(ordered + [cur.last]))
      && (next != {} && (forall n :: next != {n}) ==> whole == Failure(Fork(cur.last.event.id)))
      && forall n :: next == {n} ==>
           whole == Prepend(ordered + [cur.last], Walk(scope, campaignId, nodes, Advance(cur, n)))
  {
    var next := Successors(scope, campaignId, nodes, cur);
    if n :| next == {n} {
      var rest := Walk(scope, campaignId, nodes, Advance(cur, n));
      if rest.Success? {
        assert ordered + ([cur.last] + rest.value) == ordered + [cur.last] + rest.value;
      }
    }
  }

  /** The visible nodes the current tip admits; a list without repetition of the specified set. */
  method AdmittedBy(visible: seq<CampaignEvent>, scope: Scope, campaignId: string, tip: CampaignEvent,
                    terms: CampaignTerms, cancelled: bool, ghost cur: Cursor)
    returns (valid: seq<CampaignEvent>)
    requires DistinctIds(visible)
    requires tip == cur.last && terms == cur.terms && cancelled == cur.cancelledAt.Some?
    ensures
      var next := Successors(scope, campaignId, ToSet(visible), cur);
      && (valid == [] <==> next == {})
      && (|valid| == 1 ==> next == {valid[0]})
      && (|valid| > 1 ==> forall n :: next != {n})
    ensures forall n :: n in valid ==> n in visible && Admits(scope, campaignId, cur, n)
  {
    var view := Cursor(tip, terms, 0, if cancelled then Some(0) else None);
    var admits := (n: CampaignEvent) => Admits(scope, campaignId, view, n);
    valid := Filter(admits, visible);
    FilterAsSet(admits, visible, Successors(scope, campaignId, ToSet(visible), cur));
  }

  ghost function Prepend(front: seq<CampaignEvent>, r: Result<seq<CampaignEvent>, ChainError>)
    : Result<seq<CampaignEvent>, ChainError>
  {
    var rest :- r;
    Success(front + rest)
  }
}
