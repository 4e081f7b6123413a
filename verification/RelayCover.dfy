/** The capped greedy set cover over relays, and how far it can be from the best cover. */
module RelayCover {
  import opened Base

  const MAX_EXTENDED_RELAYS: nat := 100
  const MAX_AUTHORS_PER_RELAY: nat := 300

  type RelayMap = map<string, set<string>>

  // ---------- which relay serves whom ----------

  /** A cached relay list speaks for its author; only without one do the hints. */
  function Sources(author: string, cached: map<string, seq<string>>, hints: map<string, seq<string>>): seq<string> {
    if author in cached then cached[author] else if author in hints then hints[author] else []
  }

  /** `admit` normalizes a relay address and applies the host policy; it refuses some addresses. */
  predicate Announces(admit: string -> Option<string>, sources: seq<string>, url: string) {
    exists raw :: raw in sources && admit(raw) == Some(url)
  }

  ghost predicate Serves(relays: RelayMap, url: string, author: string) {
    url in relays && author in relays[url]
  }

  method BuildRelayMap(qualified: set<string>, cached: map<string, seq<string>>, hints: map<string, seq<string>>,
                       admit: string -> Option<string>)
    returns (relays: RelayMap)
    ensures forall url, a :: Serves(relays, url, a) <==>
            && a in qualified
            && if a in cached then Announces(admit, cached[a], url)
               else a in hints && Announces(admit, hints[a], url)
    ensures forall url :: url in relays ==> relays[url] != {}
  {
    relays := map[];
    var todo := qualified;
    ghost var done: set<string> := {};
    while todo != {}
      invariant done + todo == qualified && done !! todo
      invariant forall url, a :: Serves(relays, url, a) <==>
                a in done && Announces(admit, Sources(a, cached, hints), url)
      invariant forall url :: url in relays ==> relays[url] != {}
      decreases todo
    {
      var author :| author in todo;
      MoveOne(done, todo, author);
      relays := AddAuthor(relays, author, Sources(author, cached, hints), admit);
      done, todo := done + {author}, todo - {author};
    }
  }

  method AddAuthor(relays: RelayMap, author: string, sources: seq<string>, admit: string -> Option<string>)
    returns (r: RelayMap)
    requires forall url :: url in relays ==> relays[url] != {}
    ensures forall url, a :: Serves(r, url, a) <==>
            Serves(relays, url, a) || (a == author && Announces(admit, sources, url))
    ensures forall url :: url in r ==> r[url] != {}
  {
    r := relays;
    for i := 0 to |sources|
      invariant forall url, a ::
        Serves(r, url, a) <==> Serves(relays, url, a) || (a == author && Announces(admit, sources[..i], url))
      invariant forall url :: url in r ==> r[url] != {}
    {
      AnnouncesOneMore(admit, sources, i);
      var admitted := admit(sources[i]);
      if admitted.Some? {
        var url := admitted.value;
        r := r[url := (if url in r then r[url] else {}) + {author}];
      }
    }
    assert sources[..|sources|] == sources;
  }

  lemma AnnouncesOneMore(admit: string -> Option<string>, sources: seq<string>, i: nat)
    requires i < |sources|
    ensures forall url :: Announces(admit, sources[..i + 1], url) <==>
      Announces(admit, sources[..i], url) || admit(sources[i]) == Some(url)
  {
    assert sources[..i + 1] == sources[..i] + [sources[i]];
    forall url | Announces(admit, sources[..i], url) ensures Announces(admit, sources[..i + 1], url) {
      var raw :| raw in sources[..i] && admit(raw) == Some(url);
      assert raw in sources[..i + 1];
    }
    assert sources[i] in sources[..i + 1];
  }

  // ---------- runs of the greedy selection ----------

  /** Pick number `i`: the unpicked relay serving most, whose cap leaves the rest of its authors uncovered. */
  ghost predicate GreedyStep(relays: RelayMap, selected: seq<string>, trace: seq<set<string>>, i: nat)
    requires i < |selected| && |trace| == |selected| + 1
  {
    && selected[i] in relays && selected[i] !in selected[..i]
    && relays[selected[i]] * trace[i] != {}
    && (forall url :: url in relays && url !in selected[..i] ==>
          |relays[url] * trace[i]| <= |relays[selected[i]] * trace[i]|)
    && trace[i + 1] <= trace[i]
    && trace[i] - trace[i + 1] <= relays[selected[i]]
    && |trace[i] - trace[i + 1]| == Min(300, |relays[selected[i]] * trace[i]|)
  }

  /** `trace[i]` is what remains uncovered after `i` picks. */
  ghost predicate GreedyRun(relays: RelayMap, qualified: set<string>, selected: seq<string>, trace: seq<set<string>>) {
    && |trace| == |selected| + 1 && trace[0] == qualified
    && (forall i :: 0 <= i < |selected| ==> selected[i] in relays)
    && forall i :: 0 <= i < |selected| ==> GreedyStep(relays, selected, trace, i)
  }

  ghost predicate Exhausted(relays: RelayMap, selected: seq<string>, uncovered: set<string>) {
    || uncovered == {}
    || |selected| == 100
    || forall url :: url in relays && url !in selected ==> relays[url] * uncovered == {}
  }

  method ComputeRelaySetCover(qualified: set<string>, relays: RelayMap)
    returns (selected: seq<string>, ghost trace: seq<set<string>>)
    ensures GreedyRun(relays, qualified, selected, trace)
    ensures |selected| <= 100
    ensures Exhausted(relays, selected, trace[|selected|])
  {
    selected, trace := [], [qualified];
    if relays == map[] {
      return;
    }
    var uncovered, remaining := qualified, relays;
    while uncovered != {} && |selected| < MAX_EXTENDED_RELAYS && remaining != map[]
      invariant GreedyRun(relays, qualified, selected, trace) && uncovered == trace[|selected|]
      invariant |selected| <= MAX_EXTENDED_RELAYS
      invariant forall url :: url in remaining <==> url in relays && url !in selected
      invariant forall url :: url in remaining ==> remaining[url] == relays[url]
      decreases MAX_EXTENDED_RELAYS - |selected|
    {
      var best, size := BestRelay(remaining, uncovered);
      if best.None? || size == 0 {
        return;
      }
      var url := best.value;
      var covered := TakeSome(remaining[url] * uncovered, MAX_AUTHORS_PER_RELAY);
      ExtendRun(relays, qualified, selected, trace, url, covered);
      selected, trace := selected + [url], trace + [uncovered - covered];
      uncovered := uncovered - covered;
      remaining := remaining - {url};
    }
  }

  /** Scans the remaining relays in any order for one serving the most uncovered authors. */
  method BestRelay(remaining: RelayMap, uncovered: set<string>) returns (best: Option<string>, size: nat)
    ensures best.None? ==> size == 0
    ensures best.Some? ==> best.value in remaining && size == |remaining[best.value] * uncovered| && size > 0
    ensures forall url :: url in remaining ==> |remaining[url] * uncovered| <= size
  {
    best, size := None, 0;
    var todo := remaining.Keys;
    while todo != {}
      invariant todo <= remaining.Keys
      invariant best.None? ==> size == 0
      invariant best.Some? ==> best.value in remaining && size == |remaining[best.value] * uncovered| && size > 0
      invariant forall url :: url in remaining && url !in todo ==> |remaining[url] * uncovered| <= size
      decreases todo
    {
      var url :| url in todo;
      var cover := |remaining[url] * uncovered|;
      if cover > size {
        best, size := Some(url), cover;
      }
      todo := todo - {url};
    }
  }

  /** Any `cap` elements of a set, or all of them if there are no more. */
  method TakeSome(s: set<string>, cap: nat) returns (r: set<string>)
    ensures r <= s && |r| == Min(cap, |s|)
  {
    r := {};
    var rest := s;
    while rest != {} && |r| < cap
      invariant r + rest == s && r !! rest && |r| <= cap
      invariant |s| == |r| + |rest|
      decreases rest
    {
      var x :| x in rest;
      MoveOne(r, rest, x);
      r, rest := r + {x}, rest - {x};
    }
    if rest == {} {
      assert r == s;
    }
  }

  lemma ExtendRun(relays: RelayMap, qualified: set<string>, selected: seq<string>, trace: seq<set<string>>,
                  url: string, covered: set<string>)
    requires GreedyRun(relays, qualified, selected, trace)
    requires url in relays && url !in selected
    requires
      var uncovered := trace[|selected|];
      && relays[url] * uncovered != {}
      && (forall u :: u in relays && u !in selected ==> |relays[u] * uncovered| <= |relays[url] * uncovered|)
      && covered <= relays[url] * uncovered
      && |covered| == Min(MAX_AUTHORS_PER_RELAY, |relays[url] * uncovered|)
    ensures GreedyRun(relays, qualified, selected + [url], trace + [trace[|selected|] - covered])
  {
    var uncovered := trace[|selected|];
    var picks, states := selected + [url], trace + [uncovered - covered];
    assert uncovered - (uncovered - covered) == covered;
    forall i | 0 <= i < |picks| ensures GreedyStep(relays, picks, states, i) {
      if i < |selected| {
        assert GreedyStep(relays, selected, trace, i);
        assert picks[..i] == selected[..i];
      } else {
        assert picks[..i] == selected;
      }
    }
  }

  // ---------- why a covered or an uncovered author ends up so ----------

  lemma {:induction false} UncoveredShrinks(relays: RelayMap, qualified: set<string>, selected: seq<string>,
                                            trace: seq<set<string>>, i: nat, j: nat)
    requires GreedyRun(relays, qualified, selected, trace) && i <= j <= |selected|
    ensures trace[j] <= trace[i]
  {
    if i < j {
      UncoveredShrinks(relays, qualified, selected, trace, i, j - 1);
      assert GreedyStep(relays, selected, trace, j - 1);
    }
  }

  /** A pick within the cap covers everyone it serves, for good. */
  lemma PickWithinCap(relays: RelayMap, qualified: set<string>, selected: seq<string>, trace: seq<set<string>>,
                      i: nat, j: nat)
    requires GreedyRun(relays, qualified, selected, trace) && i < j <= |selected|
    requires |relays[selected[i]] * trace[i]| <= MAX_AUTHORS_PER_RELAY
    ensures relays[selected[i]] * trace[j] == {}
  {
    assert GreedyStep(relays, selected, trace, i);
    var served, removed := relays[selected[i]] * trace[i], trace[i] - trace[i + 1];
    assert removed <= served && |removed| == |served|;
    SubsetSameSize(removed, served);
    UncoveredShrinks(relays, qualified, selected, trace, i + 1, j);
    assert relays[selected[i]] * trace[j] <= served * trace[i + 1];
    assert served * trace[i + 1] == {};
  }

  lemma SubsetSameSize<T>(a: set<T>, b: set<T>)
    requires a <= b && |a| == |b|
    ensures a == b
  {
    assert |b| == |a| + |b - a|;
    assert b == a + (b - a);
  }

  /** Below the relay limit, an author stays uncovered only if each of its relays was picked while over the cap. */
  lemma UncoveredOnlyByCap(relays: RelayMap, qualified: set<string>, selected: seq<string>, trace: seq<set<string>>,
                           author: string, url: string)
    returns (i: nat)
    requires GreedyRun(relays, qualified, selected, trace) && Exhausted(relays, selected, trace[|selected|])
    requires |selected| < MAX_EXTENDED_RELAYS && author in trace[|selected|]
    requires url in relays && author in relays[url]
    ensures i < |selected| && selected[i] == url && |relays[url] * trace[i]| > MAX_AUTHORS_PER_RELAY
  {
    assert author in relays[url] * trace[|selected|];
    i :| 0 <= i < |selected| && selected[i] == url;
    if |relays[url] * trace[i]| <= MAX_AUTHORS_PER_RELAY {
      PickWithinCap(relays, qualified, selected, trace, i, |selected|);
    }
  }

  // ---------- the greedy bound ----------

  function Pow(b: nat, e: nat): nat {
    if e == 0 then 1 else b * Pow(b, e - 1)
  }

  /** The `picks` relays, taken together, serve every qualified author. */
  ghost predicate Covers(relays: RelayMap, picks: set<string>, qualified: set<string>) {
    picks <= relays.Keys && forall a :: a in qualified ==> exists url :: url in picks && a in relays[url]
  }

  ghost predicate WithinCap(relays: RelayMap) {
    forall url :: url in relays ==> |relays[url]| <= MAX_AUTHORS_PER_RELAY
  }

  lemma SmallerSubset<T>(a: set<T>, b: set<T>)
    requires a <= b
    ensures |a| <= |b|
  {
    assert b == a + (b - a);
  }

  /** If each of the relays serves at most `best` of them, together they serve at most that many times as many. */
  lemma {:induction false} Pigeonhole(relays: RelayMap, picks: set<string>, served: set<string>, best: nat)
    requires Covers(relays, picks, served)
    requires forall url :: url in picks ==> |relays[url] * served| <= best
    ensures |served| <= |picks| * best
    decreases picks
  {
    if picks != {} {
      var url :| url in picks;
      var rest := served - relays[url];
      forall a | a in rest ensures exists u :: u in picks - {url} && a in relays[u] {
        var u :| u in picks && a in relays[u];
        assert u in picks - {url};
      }
      forall u | u in picks - {url} ensures |relays[u] * rest| <= best {
        SmallerSubset(relays[u] * rest, relays[u] * served);
      }
      Pigeonhole(relays, picks - {url}, rest, best);
      assert served == rest + relays[url] * served;
      assert |picks| == |picks - {url}| + 1;
      OneMore(|picks - {url}|, best);
    } else {
      assert served == {};
    }
  }

  lemma OneMore(n: nat, best: nat)
    ensures (n + 1) * best == n * best + best
  {
  }

  lemma EveryRelayWithinBest(relays: RelayMap, qualified: set<string>, selected: seq<string>, trace: seq<set<string>>,
                             i: nat, url: string)
    requires GreedyRun(relays, qualified, selected, trace) && WithinCap(relays) && i < |selected| && url in relays
    ensures |relays[url] * trace[i]| <= |relays[selected[i]] * trace[i]|
  {
    assert GreedyStep(relays, selected, trace, i);
    if url in selected[..i] {
      var j :| 0 <= j < i && selected[j] == url;
      SmallerSubset(relays[url] * trace[j], relays[url]);
      PickWithinCap(relays, qualified, selected, trace, j, i);
    }
  }

  /** One pick covers at least one part in `k` of what is uncovered. */
  lemma StepShrinks(relays: RelayMap, qualified: set<string>, selected: seq<string>, trace: seq<set<string>>,
                    picks: set<string>, i: nat)
    requires GreedyRun(relays, qualified, selected, trace) && WithinCap(relays) && Covers(relays, picks, qualified)
    requires i < |selected| && |picks| >= 1
    ensures |trace[i + 1]| * |picks| <= |trace[i]| * (|picks| - 1)
  {
    var best := |relays[selected[i]] * trace[i]|;
    BestServesItsShare(relays, qualified, selected, trace, picks, i);
    PickServesBest(relays, qualified, selected, trace, i);
    Shrink(|trace[i]|, best, |picks|);
  }

  lemma BestServesItsShare(relays: RelayMap, qualified: set<string>, selected: seq<string>, trace: seq<set<string>>,
                           picks: set<string>, i: nat)
    requires GreedyRun(relays, qualified, selected, trace) && WithinCap(relays) && Covers(relays, picks, qualified)
    requires i < |selected|
    ensures |trace[i]| <= |picks| * |relays[selected[i]] * trace[i]|
  {
    UncoveredShrinks(relays, qualified, selected, trace, 0, i);
    forall url | url in picks ensures |relays[url] * trace[i]| <= |relays[selected[i]] * trace[i]| {
      EveryRelayWithinBest(relays, qualified, selected, trace, i, url);
    }
    Pigeonhole(relays, picks, trace[i], |relays[selected[i]] * trace[i]|);
  }

  lemma PickServesBest(relays: RelayMap, qualified: set<string>, selected: seq<string>, trace: seq<set<string>>, i: nat)
    requires GreedyRun(relays, qualified, selected, trace) && WithinCap(relays) && i < |selected|
    ensures |trace[i + 1]| == |trace[i]| - |relays[selected[i]] * trace[i]|
  {
    assert GreedyStep(relays, selected, trace, i);
    SmallerSubset(relays[selected[i]] * trace[i], relays[selected[i]]);
    assert trace[i] == trace[i + 1] + (trace[i] - trace[i + 1]);
  }

  lemma Shrink(n: nat, best: nat, k: nat)
    requires n <= k * best && best <= n
    ensures (n - best) * k <= n * (k - 1)
  {
    assert (n - best) * k == n * k - best * k;
    assert n * (k - 1) == n * k - n;
  }

  /** After `i` picks the uncovered share has shrunk by the factor `(k - 1) / k` at least `i` times. */
  lemma {:induction false} GreedyBound(relays: RelayMap, qualified: set<string>, selected: seq<string>,
                                       trace: seq<set<string>>, picks: set<string>, i: nat)
    requires GreedyRun(relays, qualified, selected, trace) && WithinCap(relays) && Covers(relays, picks, qualified)
    requires i <= |selected| && |picks| >= 1
    ensures |trace[i]| * Pow(|picks|, i) <= |qualified| * Pow(|picks| - 1, i)
  {
    if i > 0 {
      GreedyBound(relays, qualified, selected, trace, picks, i - 1);
      StepShrinks(relays, qualified, selected, trace, picks, i - 1);
      Compound(|trace[i]|, |trace[i - 1]|, |qualified|, |picks|, Pow(|picks|, i - 1), Pow(|picks| - 1, i - 1));
    }
  }

  lemma Compound(next: nat, prev: nat, n: nat, k: nat, p: nat, q: nat)
    requires k >= 1 && next * k <= prev * (k - 1) && prev * p <= n * q
    ensures next * (k * p) <= n * ((k - 1) * q)
  {
    assert next * (k * p) == (next * k) * p;
    MulMono(next * k, prev * (k - 1), p);
    assert (prev * (k - 1)) * p == (prev * p) * (k - 1);
    MulMono(prev * p, n * q, k - 1);
    assert (n * q) * (k - 1) == n * ((k - 1) * q);
  }

  lemma MulMono(a: nat, b: nat, c: nat)
    requires a <= b
    ensures a * c <= b * c
  {
  }

  // ---------- the bound in picks ----------

  function FloorLog2(n: nat): nat
    requires n >= 1
  {
    if n == 1 then 0 else 1 + FloorLog2(n / 2)
  }

  lemma {:induction false} LogIsTight(n: nat, rounds: nat)
    requires n >= 1 && rounds == FloorLog2(n) + 1
    ensures n < Pow(2, rounds) <= 2 * n
  {
    if n > 1 {
      LogIsTight(n / 2, rounds - 1);
    }
  }

  lemma {:induction false} Bernoulli(a: nat, j: nat)
    requires j >= 1
    ensures Pow(a + 1, j) >= Pow(a, j) + j * Pow(a, j - 1)
  {
    if j > 1 {
      Bernoulli(a, j - 1);
      BernoulliStep(a, j, Pow(a + 1, j - 1), Pow(a, j - 1), Pow(a, j - 2));
    }
  }

  lemma BernoulliStep(a: nat, j: nat, x: nat, y: nat, z: nat)
    requires j >= 2 && x >= y + (j - 1) * z && y == a * z
    ensures (a + 1) * x >= a * y + j * y
  {
    MulMono(y + (j - 1) * z, x, a + 1);
    assert (y + (j - 1) * z) * (a + 1) == a * y + y + (j - 1) * (a * z) + (j - 1) * z;
    assert (j - 1) * (a * z) == j * y - y;
  }

  /** `k` rounds at least halve: twice `(k - 1)^k` does not exceed `k^k`. */
  lemma Halving(k: nat)
    requires k >= 1
    ensures 2 * Pow(k - 1, k) <= Pow(k, k)
  {
    Bernoulli(k - 1, k);
    MulMono(k - 1, k, Pow(k - 1, k - 1));
  }

  lemma {:induction false} PowAdd(b: nat, x: nat, y: nat)
    ensures Pow(b, x + y) == Pow(b, x) * Pow(b, y)
  {
    if x > 0 {
      PowAdd(b, x - 1, y);
      MulAssociates(b, Pow(b, x - 1), Pow(b, y));
    }
  }

  lemma MulAssociates(a: nat, b: nat, c: nat)
    ensures a * (b * c) == (a * b) * c
  {
  }

  lemma {:induction false} RepeatedHalving(k: nat, t: nat)
    requires k >= 1
    ensures Pow(2, t) * Pow(k - 1, k * t) <= Pow(k, k * t)
  {
    if t > 0 {
      RepeatedHalving(k, t - 1);
      Halving(k);
      assert k * t == k + k * (t - 1);
      PowAdd(k, k, k * (t - 1));
      PowAdd(k - 1, k, k * (t - 1));
      Product(Pow(2, t - 1), Pow(k - 1, k), Pow(k, k), Pow(k - 1, k * (t - 1)), Pow(k, k * (t - 1)));
    }
  }

  lemma Product(w: nat, a: nat, b: nat, c: nat, d: nat)
    requires 2 * a <= b && w * c <= d
    ensures (2 * w) * (a * c) <= b * d
  {
    assert (2 * w) * (a * c) == (2 * a) * (w * c);
    MulMono(2 * a, b, w * c);
    MulMono(w * c, d, b);
  }

  lemma {:induction false} PowPositive(b: nat, e: nat)
    requires b >= 1
    ensures Pow(b, e) >= 1
  {
    if e > 0 {
      PowPositive(b, e - 1);
      MulMono(1, b, Pow(b, e - 1));
    }
  }

  /** After `k * t` picks with `2^t > n` nothing is left. */
  lemma EnoughPicksCover(relays: RelayMap, qualified: set<string>, selected: seq<string>, trace: seq<set<string>>,
                         picks: set<string>, t: nat)
    requires GreedyRun(relays, qualified, selected, trace) && WithinCap(relays) && Covers(relays, picks, qualified)
    requires |picks| >= 1 && t >= 1 && |picks| * t <= |selected| && |qualified| < Pow(2, t)
    ensures trace[|picks| * t] == {}
  {
    var k, i := |picks|, |picks| * t;
    GreedyBound(relays, qualified, selected, trace, picks, i);
    RepeatedHalving(k, t);
    PowPositive(k, i);
    NothingLeft(|trace[i]|, |qualified|, Pow(2, t), Pow(k - 1, i), Pow(k, i));
  }

  lemma NothingLeft(u: nat, n: nat, w: nat, q: nat, p: nat)
    requires u * p <= n * q && w * q <= p && n < w && p >= 1
    ensures u == 0
  {
    MulMono(n + 1, w, q);
    assert (n + 1) * q == n * q + q;
    assert u >= 1 ==> p <= u * p by {
      if u >= 1 {
        MulMono(1, u, p);
      }
    }
  }

  /** If `k` relays cover all `n` qualified authors, the greedy cover completes within `k * (floor(log2 n) + 1)` picks
      whenever that stays within the relay limit. */
  lemma LogarithmicCover(relays: RelayMap, qualified: set<string>, selected: seq<string>, trace: seq<set<string>>,
                         picks: set<string>, rounds: nat)
    requires GreedyRun(relays, qualified, selected, trace) && Exhausted(relays, selected, trace[|selected|])
    requires WithinCap(relays) && Covers(relays, picks, qualified)
    requires |qualified| >= 1 && rounds == FloorLog2(|qualified|) + 1 && |picks| * rounds <= MAX_EXTENDED_RELAYS
    ensures trace[|selected|] == {}
    ensures |selected| <= |picks| * rounds
  {
    LogIsTight(|qualified|, rounds);
    SomePick(relays, picks, qualified);
    CoverWithinBound(relays, qualified, selected, trace, picks, rounds);
  }

  lemma CoverWithinBound(relays: RelayMap, qualified: set<string>, selected: seq<string>, trace: seq<set<string>>,
                         picks: set<string>, t: nat)
    requires GreedyRun(relays, qualified, selected, trace) && Exhausted(relays, selected, trace[|selected|])
    requires WithinCap(relays) && Covers(relays, picks, qualified)
    requires |picks| >= 1 && t >= 1 && |qualified| < Pow(2, t) && |picks| * t <= MAX_EXTENDED_RELAYS
    ensures trace[|selected|] == {} && |selected| <= |picks| * t
  {
    PicksWithinBound(relays, qualified, selected, trace, picks, t);
    if |selected| == MAX_EXTENDED_RELAYS {
      EnoughPicksCover(relays, qualified, selected, trace, picks, t);
    } else {
      LeftoverIsPicked(relays, qualified, selected, trace, picks);
    }
  }

  lemma PicksWithinBound(relays: RelayMap, qualified: set<string>, selected: seq<string>, trace: seq<set<string>>,
                         picks: set<string>, t: nat)
    requires GreedyRun(relays, qualified, selected, trace) && WithinCap(relays) && Covers(relays, picks, qualified)
    requires |picks| >= 1 && t >= 1 && |qualified| < Pow(2, t)
    ensures |selected| <= |picks| * t
  {
    var bound := |picks| * t;
    if bound < |selected| {
      assert GreedyStep(relays, selected, trace, bound);
      EnoughPicksCover(relays, qualified, selected, trace, picks, t);
    }
  }

  lemma SomePick(relays: RelayMap, picks: set<string>, qualified: set<string>)
    requires Covers(relays, picks, qualified) && |qualified| >= 1
    ensures |picks| >= 1
  {
    var a :| a in qualified;
    var url :| url in picks && a in relays[url];
  }

  lemma LeftoverIsPicked(relays: RelayMap, qualified: set<string>, selected: seq<string>, trace: seq<set<string>>,
                         picks: set<string>)
    requires GreedyRun(relays, qualified, selected, trace) && Exhausted(relays, selected, trace[|selected|])
    requires WithinCap(relays) && Covers(relays, picks, qualified) && |selected| < MAX_EXTENDED_RELAYS
    ensures trace[|selected|] == {}
  {
    if a :| a in trace[|selected|] {
      UncoveredShrinks(relays, qualified, selected, trace, 0, |selected|);
      var url :| url in picks && a in relays[url];
      var i := UncoveredOnlyByCap(relays, qualified, selected, trace, a, url);
      SmallerSubset(relays[url] * trace[i], relays[url]);
    }
  }
}
