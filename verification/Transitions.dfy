/** Transition times over a history of status syncs: every successful sync reports a state for some keys,
    and an entry keeps the time at which it last appeared or changed state. */
module Transitions {
  import opened Kube

  /** A zero time is None. */
  datatype Entry<S> = Entry(state: S, since: Option<Time>)

  lemma TrackedUpdate<K, S>(report: map<K, S>, key: K, state: S, previous: map<K, Entry<S>>, now: Time)
    ensures Tracked(report[key := state], previous, now)
         == Tracked(report, previous, now)[key := Tracked(map[key := state], previous, now)[key]]
  {
  }

  /** One sync: what it reported, None when it failed, and its time. */
  datatype Sync<K, S> = Sync(report: Option<map<K, S>>, now: Time)

  function Tracked<K, S(==)>(report: map<K, S>, previous: map<K, Entry<S>>, now: Time): map<K, Entry<S>> {
    map k | k in report ::
      if k in previous && previous[k].state == report[k] then previous[k] else Entry(report[k], Some(now))
  }

  /** The entries after a history that starts with none; a failed sync leaves them intact. */
  function After<K, S(==)>(h: seq<Sync<K, S>>): map<K, Entry<S>> {
    if h == [] then map[]
    else
      var before, last := After(h[..|h| - 1]), h[|h| - 1];
      if last.report.None? then before else Tracked(last.report.value, before, last.now)
  }

  /** Sync k succeeded and reported the key in this state. */
  ghost predicate ReportedAs<K, S>(h: seq<Sync<K, S>>, k: int, key: K, state: S) {
    && 0 <= k < |h| && h[k].report.Some?
    && key in h[k].report.value && h[k].report.value[key] == state
  }

  ghost predicate LastSuccess<K, S>(h: seq<Sync<K, S>>, p: int, k: int) {
    0 <= p < k <= |h| && h[p].report.Some? && forall m :: p < m < k ==> h[m].report.None?
  }

  /** No successful sync precedes k, or the last one before k did not report the key in this state. */
  ghost predicate FreshAt<K, S>(h: seq<Sync<K, S>>, k: int, key: K, state: S) {
    forall p :: LastSuccess(h, p, k) ==> !ReportedAs(h, p, key, state)
  }

  /** Every successful sync after k reported the key in this state. */
  ghost predicate SteadySince<K, S>(h: seq<Sync<K, S>>, k: int, key: K, state: S) {
    forall m :: k < m < |h| && 0 <= m && h[m].report.Some? ==> ReportedAs(h, m, key, state)
  }

  /** k is the latest successful sync in which the key first appeared or changed state. */
  ghost predicate LatestTransition<K, S>(h: seq<Sync<K, S>>, k: int, key: K, state: S) {
    ReportedAs(h, k, key, state) && FreshAt(h, k, key, state) && SteadySince(h, k, key, state)
  }

  /** Among the syncs before k, one of them successful, there is a last successful one. */
  lemma {:induction false} SomeLastSuccess<K, S>(h: seq<Sync<K, S>>, m: int, k: int) returns (p: int)
    requires 0 <= m < k <= |h| && h[m].report.Some?
    ensures m <= p && LastSuccess(h, p, k)
    decreases k - m
  {
    if q :| m < q < k && h[q].report.Some? {
      p := SomeLastSuccess(h, q, k);
    } else {
      p := m;
    }
  }

  /** After its latest transition a key is in no state anew. */
  lemma NotFreshLater<K, S>(h: seq<Sync<K, S>>, j: int, k: int, key: K, state: S, other: S)
    requires LatestTransition(h, j, key, state) && j < k && ReportedAs(h, k, key, other)
    ensures !FreshAt(h, k, key, other)
  {
    var p := SomeLastSuccess(h, j, k);
    assert ReportedAs(h, k, key, state);
    assert p > j ==> ReportedAs(h, p, key, state);
    assert LastSuccess(h, p, k) && ReportedAs(h, p, key, other);
  }

  /** There is one latest transition. */
  lemma LatestTransitionUnique<K, S>(h: seq<Sync<K, S>>, j: int, k: int, key: K, state: S, other: S)
    requires LatestTransition(h, j, key, state) && LatestTransition(h, k, key, other)
    ensures j == k && state == other
  {
    if j < k {
      NotFreshLater(h, j, k, key, state, other);
    }
    if k < j {
      NotFreshLater(h, k, j, key, other, state);
    }
  }

  /** The entries are those of the last successful sync. */
  lemma {:induction false} LastReport<K, S>(h: seq<Sync<K, S>>, key: K, state: S)
    ensures forall p :: LastSuccess(h, p, |h|) ==>
              (ReportedAs(h, p, key, state) <==> key in After(h) && After(h)[key].state == state)
  {
    if h != [] {
      var n := |h| - 1;
      var front := h[..n];
      LastReport(front, key, state);
      if h[n].report.None? {
        forall p | LastSuccess(h, p, |h|)
          ensures ReportedAs(h, p, key, state) <==> key in After(h) && After(h)[key].state == state
        {
          assert LastSuccess(front, p, n) && front[p] == h[p];
        }
      }
    }
  }

  /** The time of an entry is that of the latest successful sync in which its key first appeared or changed
      state, however many syncs failed or repeated the state since. */
  lemma {:induction false} TransitionTimeExact<K, S>(h: seq<Sync<K, S>>, key: K)
    requires key in After(h)
    ensures exists k :: LatestTransition(h, k, key, After(h)[key].state) && After(h)[key].since == Some(h[k].now)
  {
    var n := |h| - 1;
    var front := h[..n];
    var before, state := After(front), After(h)[key].state;
    if h[n].report.Some? && !(key in before && before[key].state == state) {
      LastReport(front, key, state);
      forall p | LastSuccess(h, p, n)
        ensures !ReportedAs(h, p, key, state)
      {
        assert LastSuccess(front, p, n) && front[p] == h[p];
      }
      assert LatestTransition(h, n, key, state);
    } else {
      TransitionTimeExact(front, key);
      var k :| LatestTransition(front, k, key, state) && before[key].since == Some(front[k].now);
      Extend(h, k, key, state);
    }
  }

  /** A latest transition stays the latest when the last sync failed or repeated the state. */
  lemma Extend<K, S>(h: seq<Sync<K, S>>, k: int, key: K, state: S)
    requires h != [] && LatestTransition(h[..|h| - 1], k, key, state)
    requires h[|h| - 1].report.Some? ==> ReportedAs(h, |h| - 1, key, state)
    ensures LatestTransition(h, k, key, state)
  {
    var front := h[..|h| - 1];
    assert forall m :: 0 <= m < |front| ==> front[m] == h[m];
    forall p | LastSuccess(h, p, k)
      ensures !ReportedAs(h, p, key, state)
    {
      assert LastSuccess(front, p, k);
    }
    forall m | k < m < |front| && 0 <= m && h[m].report.Some?
      ensures ReportedAs(h, m, key, state)
    {
      assert ReportedAs(front, m, key, state);
    }
  }
}
