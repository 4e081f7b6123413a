/** The order on replaceable events, and the map that keeps the winner of every key. */
module Replaceable {
  import opened Base
  import opened Text

  datatype Stamp = Stamp(createdAt: u64, eventId: Option<string>)

  /** `candidate` supersedes `current`: later, or at the same instant with the lower event id. */
  predicate Newer(candidate: Stamp, current: Stamp) {
    if candidate.createdAt != current.createdAt then candidate.createdAt > current.createdAt
    else
      match (candidate.eventId, current.eventId)
      case (Some(a), Some(b)) => Less(a, b)
      case (Some(_), None) => true
      case (None, _) => false
  }

  /** `Newer` is a strict total order on stamps. */
  lemma NewerIsStrictTotalOrder(a: Stamp, b: Stamp, c: Stamp)
    ensures !Newer(a, a)
    ensures Newer(a, b) && Newer(b, c) ==> Newer(a, c)
    ensures Newer(a, b) || a == b || Newer(b, a)
  {
    if a.eventId.Some? {
      LessIrreflexive(a.eventId.value);
      if b.eventId.Some? {
        LessTotal(a.eventId.value, b.eventId.value);
        if c.eventId.Some? && Less(a.eventId.value, b.eventId.value) && Less(b.eventId.value, c.eventId.value) {
          LessTransitive(a.eventId.value, b.eventId.value, c.eventId.value);
        }
      }
    }
  }

  // ---------- keeping the winner of every key ----------

  datatype Arrival<K, V> = Arrival(key: K, stamp: Stamp, value: V)

  predicate Replaces<K(==), V>(latest: map<K, Arrival<K, V>>, a: Arrival<K, V>) {
    a.key !in latest || Newer(a.stamp, latest[a.key].stamp)
  }

  function Record<K(==), V>(latest: map<K, Arrival<K, V>>, a: Arrival<K, V>): map<K, Arrival<K, V>> {
    if Replaces(latest, a) then latest[a.key := a] else latest
  }

  /** What a reader that applies `Record` to every arrival ends up with. */
  function Latest<K(==), V>(arrivals: seq<Arrival<K, V>>): map<K, Arrival<K, V>> {
    if arrivals == [] then map[]
    else Record(Latest(arrivals[..|arrivals| - 1]), arrivals[|arrivals| - 1])
  }

  /** `b` is earlier than `a`, or of the same instant without an id that is lower. */
  predicate GivesWay(b: Stamp, a: Stamp) {
    || b.createdAt < a.createdAt
    || (&& b.createdAt == a.createdAt
        && (b.eventId == None || (a.eventId != None && !Less(b.eventId.value, a.eventId.value))))
  }

  /** `a` arrived for its key, and everything else that did gives way to it. */
  ghost predicate IsWinner<K, V(!new)>(arrivals: seq<Arrival<K, V>>, a: Arrival<K, V>) {
    a in arrivals && forall b :: b in arrivals && b.key == a.key ==> GivesWay(b.stamp, a.stamp)
  }

  lemma {:induction false} LatestHoldsWinners<K, V(!new)>(arrivals: seq<Arrival<K, V>>)
    ensures forall k :: k in Latest(arrivals) ==>
            Latest(arrivals)[k].key == k && IsWinner(arrivals, Latest(arrivals)[k])
    ensures forall a :: a in arrivals ==> a.key in Latest(arrivals)
  {
    if arrivals != [] {
      var front, last := arrivals[..|arrivals| - 1], arrivals[|arrivals| - 1];
      assert arrivals == front + [last];
      LatestHoldsWinners(front);
      var before, after := Latest(front), Latest(arrivals);
      forall k | k in after ensures after[k].key == k && IsWinner(arrivals, after[k]) {
        forall b | b in arrivals && b.key == k ensures !Newer(b.stamp, after[k].stamp) {
          if k in before {
            NewerIsStrictTotalOrder(b.stamp, last.stamp, before[k].stamp);
          } else {
            assert b !in front;
          }
          NewerIsStrictTotalOrder(last.stamp, last.stamp, last.stamp);
        }
      }
    }
  }

  /** A key's stamp identifies what was published: nobody signs two contents with one id. */
  ghost predicate StampsDetermine<K, V(!new)>(arrivals: seq<Arrival<K, V>>) {
    forall a, b :: a in arrivals && b in arrivals && a.key == b.key && a.stamp == b.stamp ==> a == b
  }

  lemma WinnerIsUnique<K, V(!new)>(arrivals: seq<Arrival<K, V>>, a: Arrival<K, V>, b: Arrival<K, V>)
    requires IsWinner(arrivals, a) && IsWinner(arrivals, b) && a.key == b.key
    ensures a.stamp == b.stamp
    ensures StampsDetermine(arrivals) ==> a == b
  {
    NewerIsStrictTotalOrder(a.stamp, b.stamp, b.stamp);
  }

  /** Order and repetition of arrivals do not matter. */
  lemma LatestIsOrderIndependent<K, V(!new)>(a: seq<Arrival<K, V>>, b: seq<Arrival<K, V>>)
    requires StampsDetermine(a) && forall x :: x in a <==> x in b
    ensures Latest(a) == Latest(b)
  {
    LatestHoldsWinners(a);
    LatestHoldsWinners(b);
    forall k ensures k in Latest(a) <==> k in Latest(b) {
      if k in Latest(a) {
        assert Latest(a)[k] in b;
      }
      if k in Latest(b) {
        assert Latest(b)[k] in a;
      }
    }
    forall k | k in Latest(a) ensures Latest(a)[k] == Latest(b)[k] {
      assert IsWinner(a, Latest(a)[k]) && IsWinner(a, Latest(b)[k]);
      WinnerIsUnique(a, Latest(a)[k], Latest(b)[k]);
    }
  }
}
