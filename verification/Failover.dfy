/** Store failover: stores that have been down for longer than PD's limit are recorded as failed, and each
    recorded failure adds one to the real replica count of the store tier. */
module Failover {
  import opened Kube
  import opened StoreStatus
  import Transitions

  datatype FailureStore = FailureStore(pod: PodName, storeId: int)

  type Failures = map<int, FailureStore>

  predicate Overdue(store: KVStore, limit: Time, now: Time) {
    store.lastTransition.Some? && store.state == Down && now > store.lastTransition.value + limit
  }

  predicate Recorded(failures: Failures, pod: PodName) {
    exists id <- failures :: failures[id].pod == pod
  }

  /** The failures after the stores of `order`, iterated in this order; clock(id) is the time read when store
      `id` is visited. */
  function FailedOver(stores: map<int, KVStore>, order: seq<int>, failures: Failures, limit: Time,
                      clock: int -> Time): Failures
    requires forall k :: 0 <= k < |order| ==> order[k] in stores
  {
    if order == [] then failures
    else
      var n := |order| - 1;
      var before, id := FailedOver(stores, order[..n], failures, limit, clock), order[n];
      if Overdue(stores[id], limit, clock(id)) && !Recorded(before, stores[id].pod)
      then before[id := FailureStore(stores[id].pod, stores[id].id)]
      else before
  }

  class StoreFailover {
    var failures: Failures

    constructor (failures: Failures)
      ensures this.failures == failures
    {
      this.failures := failures;
    }

    /** `limit` is PD's maximal down time; None when PD does not answer. */
    method Failover(stores: map<int, KVStore>, limit: Option<Time>, clock: int -> Time)
      returns (ok: bool, ghost order: seq<int>)
      modifies this
      ensures ok == limit.Some?
      ensures Lists(order, stores)
      ensures failures == if ok then FailedOver(stores, order, old(failures), limit.value, clock) else old(failures)
    {
      order := SomeOrder(stores);
      if limit.None? {
        return false, order;
      }
      order := [];
      var rest := stores.Keys;
      while rest != {}
        invariant Visited(order, stores, rest)
        invariant failures == FailedOver(stores, order, old(failures), limit.value, clock)
        decreases |rest|
      {
        var storeID := NextKey(rest);
        VisitNext(order, stores, rest, storeID);
        rest := rest - {storeID};
        ghost var longer := order + [storeID];
        assert longer[..|order|] == order;
        order := longer;
        var store := stores[storeID];
        if store.lastTransition.None? {
          continue;
        }
        var deadline := store.lastTransition.value + limit.value;
        var exist := HasPod(failures, store.pod);
        if store.state == Down && clock(storeID) > deadline && !exist {
          failures := failures[storeID := FailureStore(store.pod, store.id)];
        }
      }
      ok := true;
    }
  }

  /** The inner loop. */
  method HasPod(failures: Failures, pod: PodName) returns (exist: bool)
    ensures exist == Recorded(failures, pod)
  {
    var rest := failures.Keys;
    while rest != {}
      invariant rest <= failures.Keys
      invariant forall id <- failures :: id in rest || failures[id].pod != pod
      decreases |rest|
    {
      var id := NextKey(rest);
      if failures[id].pod == pod {
        return true;
      }
      rest := rest - {id};
    }
    exist := false;
  }

  // ---------------------------------------------------------------------------------------------
  // Accounting
  // ---------------------------------------------------------------------------------------------

  ghost function PodNames(failures: Failures): set<PodName> {
    set id | id in failures :: failures[id].pod
  }

  ghost function OverduePods(stores: map<int, KVStore>, limit: Time, clock: int -> Time): set<PodName> {
    set id | id in stores && Overdue(stores[id], limit, clock(id)) :: stores[id].pod
  }

  ghost predicate DistinctPods(failures: Failures) {
    forall a, b :: a in failures && b in failures && a != b ==> failures[a].pod != failures[b].pod
  }

  /** No overdue store whose pod is not recorded has its ID recorded, for another pod. */
  ghost predicate NoClobber(stores: map<int, KVStore>, failures: Failures, limit: Time, clock: int -> Time) {
    forall id :: id in stores && id in failures && Overdue(stores[id], limit, clock(id)) ==>
        Recorded(failures, stores[id].pod)
  }

  /** StoreRealReplicas. */
  function RealReplicas(replicas: int, failures: Failures): int {
    replicas + |failures|
  }

  /** What one pass has recorded after any part of the stores, when no ID clashes. */
  lemma {:induction false} PassRecords(stores: map<int, KVStore>, order: seq<int>, failures: Failures,
                                       limit: Time, clock: int -> Time)
    requires forall k :: 0 <= k < |order| ==> order[k] in stores
    requires forall j, k :: 0 <= j < k < |order| ==> order[j] != order[k]
    requires NoClobber(stores, failures, limit, clock)
    ensures var after := FailedOver(stores, order, failures, limit, clock);
            && (forall id :: id in failures ==> id in after && after[id] == failures[id])
            && (forall id :: id in after && id !in failures ==>
                  id in order && Overdue(stores[id], limit, clock(id))
                  && after[id].pod == stores[id].pod && after[id].storeId == stores[id].id)
            && (forall id :: id in order && Overdue(stores[id], limit, clock(id)) ==> Recorded(after, stores[id].pod))
            && (DistinctPods(failures) ==> DistinctPods(after))
  {
    if order != [] {
      var n := |order| - 1;
      var front, id := order[..n], order[n];
      PassRecords(stores, front, failures, limit, clock);
      var before := FailedOver(stores, front, failures, limit, clock);
      assert order == front + [id];
      assert id !in front;
      forall p | Recorded(failures, p)
        ensures Recorded(before, p)
      {
        var other :| other in failures && failures[other].pod == p;
        assert before[other].pod == p;
      }
      if Overdue(stores[id], limit, clock(id)) && !Recorded(before, stores[id].pod) {
        Recording(before, id, FailureStore(stores[id].pod, stores[id].id));
      }
    }
  }

  /** An entry under a new ID for a new pod. */
  lemma Recording(failures: Failures, id: int, entry: FailureStore)
    requires id !in failures && !Recorded(failures, entry.pod)
    ensures forall p :: Recorded(failures[id := entry], p) <==> Recorded(failures, p) || p == entry.pod
    ensures DistinctPods(failures) ==> DistinctPods(failures[id := entry])
  {
    var after := failures[id := entry];
    assert after[id].pod == entry.pod;
    forall p | Recorded(failures, p)
      ensures Recorded(after, p)
    {
      var other :| other in failures && failures[other].pod == p;
      assert after[other].pod == p;
    }
  }

  /** One pass makes the failed pods the old ones plus those of the overdue stores, in whatever order it
      visits the stores; it forgets no entry, keeps the pods distinct, and raises the real replica count by
      exactly the number of newly failed pods. */
  lemma PassAccounts(stores: map<int, KVStore>, order: seq<int>, failures: Failures, limit: Time, clock: int -> Time,
                     replicas: int)
    requires Lists(order, stores) && NoClobber(stores, failures, limit, clock)
    ensures var after := FailedOver(stores, order, failures, limit, clock);
            && PodNames(after) == PodNames(failures) + OverduePods(stores, limit, clock)
            && (DistinctPods(failures) ==>
                  && DistinctPods(after)
                  && RealReplicas(replicas, after)
                     == RealReplicas(replicas, failures) + |OverduePods(stores, limit, clock) - PodNames(failures)|)
  {
    PassRecords(stores, order, failures, limit, clock);
    var after := FailedOver(stores, order, failures, limit, clock);
    PassNames(stores, failures, after, limit, clock);
    if DistinctPods(failures) {
      NewlyFailed(failures, after, OverduePods(stores, limit, clock), replicas);
    }
  }

  lemma {:induction false} NewlyFailed(failures: Failures, after: Failures, overdue: set<PodName>, replicas: int)
    requires DistinctPods(failures) && DistinctPods(after)
    requires PodNames(after) == PodNames(failures) + overdue
    ensures RealReplicas(replicas, after) == RealReplicas(replicas, failures) + |overdue - PodNames(failures)|
  {
    PodPerEntry(after);
    PodPerEntry(failures);
    assert PodNames(after) == PodNames(failures) + (overdue - PodNames(failures));
  }

  lemma PassNames(stores: map<int, KVStore>, failures: Failures, after: Failures, limit: Time, clock: int -> Time)
    requires forall id :: id in failures ==> id in after && after[id] == failures[id]
    requires forall id :: id in after && id !in failures ==>
               id in stores && Overdue(stores[id], limit, clock(id)) && after[id].pod == stores[id].pod
    requires forall id :: id in stores && Overdue(stores[id], limit, clock(id)) ==> Recorded(after, stores[id].pod)
    ensures PodNames(after) == PodNames(failures) + OverduePods(stores, limit, clock)
  {
    forall p | p in PodNames(after)
      ensures p in PodNames(failures) + OverduePods(stores, limit, clock)
    {
      var id :| id in after && after[id].pod == p;
      assert id in failures ==> failures[id].pod in PodNames(failures);
    }
    forall p | p in OverduePods(stores, limit, clock)
      ensures p in PodNames(after)
    {
      var id :| id in stores && Overdue(stores[id], limit, clock(id)) && stores[id].pod == p;
      assert Recorded(after, p);
    }
  }

  lemma {:induction false} PodPerEntry(failures: Failures)
    requires DistinctPods(failures)
    ensures |PodNames(failures)| == |failures|
    decreases |failures|
  {
    if failures.Keys == {} {
      assert PodNames(failures) == {};
    } else {
      var id := AnyOf(failures.Keys);
      var rest := failures - {id};
      PodPerEntry(rest);
      assert failures.Keys == rest.Keys + {id};
      assert forall k :: k in rest ==> rest[k] == failures[k];
      assert PodNames(failures) == PodNames(rest) + {failures[id].pod};
    }
  }

  /** A second pass over the same stores, with the same clock readings and in any order, records nothing more. */
  lemma PassIsIdempotent(stores: map<int, KVStore>, order: seq<int>, again: seq<int>, failures: Failures,
                         limit: Time, clock: int -> Time)
    requires Lists(order, stores) && Lists(again, stores) && NoClobber(stores, failures, limit, clock)
    ensures var after := FailedOver(stores, order, failures, limit, clock);
            FailedOver(stores, again, after, limit, clock) == after
  {
    PassRecords(stores, order, failures, limit, clock);
    AllRecorded(stores, again, FailedOver(stores, order, failures, limit, clock), limit, clock);
  }

  lemma {:induction false} AllRecorded(stores: map<int, KVStore>, order: seq<int>, failures: Failures,
                                       limit: Time, clock: int -> Time)
    requires forall k :: 0 <= k < |order| ==> order[k] in stores
    requires forall k :: 0 <= k < |order| && Overdue(stores[order[k]], limit, clock(order[k])) ==>
        Recorded(failures, stores[order[k]].pod)
    ensures FailedOver(stores, order, failures, limit, clock) == failures
  {
    if order != [] {
      AllRecorded(stores, order[..|order| - 1], failures, limit, clock);
    }
  }

  /** Exactly when the accounting holds for every iteration order: a clashing ID makes the order that visits
      it last forget the pod recorded under it. */
  lemma AccountingExact(stores: map<int, KVStore>, failures: Failures, limit: Time, clock: int -> Time)
    requires UniquePods(stores) && DistinctPods(failures)
    ensures (forall order :: Lists(order, stores) ==>
               PodNames(FailedOver(stores, order, failures, limit, clock))
                 == PodNames(failures) + OverduePods(stores, limit, clock))
        <==> NoClobber(stores, failures, limit, clock)
  {
    if NoClobber(stores, failures, limit, clock) {
      forall order | Lists(order, stores)
        ensures PodNames(FailedOver(stores, order, failures, limit, clock))
            == PodNames(failures) + OverduePods(stores, limit, clock)
      {
        PassAccounts(stores, order, failures, limit, clock, 0);
      }
    } else {
      var id :| id in stores && id in failures && Overdue(stores[id], limit, clock(id))
          && !Recorded(failures, stores[id].pod);
      var front := SomeOrder(stores - {id});
      assert Lists(front + [id], stores);
      LastVisitForgets(stores, front, id, failures, limit, clock);
    }
  }

  lemma {:induction false} LastVisitForgets(stores: map<int, KVStore>, front: seq<int>, id: int,
                                            failures: Failures, limit: Time, clock: int -> Time)
    requires UniquePods(stores) && DistinctPods(failures)
    requires forall k :: 0 <= k < |front| ==> front[k] in stores && front[k] != id
    requires id in stores && id in failures && Overdue(stores[id], limit, clock(id))
        && !Recorded(failures, stores[id].pod)
    ensures failures[id].pod in PodNames(failures) - PodNames(FailedOver(stores, front + [id], failures, limit, clock))
  {
    LateStoreUnseen(stores, front, id, failures, limit, clock);
    assert (front + [id])[..|front|] == front;
  }

  /** While `id` has not been visited its entry stands, it is the only one for its pod, and the pod of the
      store `id` is not recorded. */
  lemma {:induction false} LateStoreUnseen(stores: map<int, KVStore>, order: seq<int>, id: int,
                                           failures: Failures, limit: Time, clock: int -> Time)
    requires UniquePods(stores) && DistinctPods(failures)
    requires forall k :: 0 <= k < |order| ==> order[k] in stores && order[k] != id
    requires id in stores && id in failures && !Recorded(failures, stores[id].pod)
    ensures var before := FailedOver(stores, order, failures, limit, clock);
            && id in before && before[id] == failures[id] && !Recorded(before, stores[id].pod)
            && forall k :: k in before && k != id ==> before[k].pod != failures[id].pod
  {
    if order != [] {
      var n := |order| - 1;
      LateStoreUnseen(stores, order[..n], id, failures, limit, clock);
      var before := FailedOver(stores, order[..n], failures, limit, clock);
      assert Recorded(before, failures[id].pod);
    }
  }

  // ---------------------------------------------------------------------------------------------
  // What PD has reported of a failed store
  // ---------------------------------------------------------------------------------------------

  /** Every successful sync from the k-th on reported the store Down, none did just before, and more than the limit
      has gone by since the k-th. */
  ghost predicate DownFor(h: seq<SyncEvent>, k: int, id: int, limit: Time, now: Time) {
    Transitions.LatestTransition(Syncs(h), k, id, Down) && now > h[k].now + limit
  }

  lemma OverdueExact(h: seq<SyncEvent>, id: int, limit: Time, now: Time)
    requires id in AfterHistory(h)
    ensures Overdue(AfterHistory(h)[id], limit, now) <==> exists k :: DownFor(h, k, id, limit, now)
  {
    var store := AfterHistory(h)[id];
    StoreTransitionExact(h, id);
    var k :| Transitions.LatestTransition(Syncs(h), k, id, store.state) && store.lastTransition == Some(h[k].now);
    forall j | Transitions.LatestTransition(Syncs(h), j, id, Down)
      ensures j == k && store.state == Down
    {
      Transitions.LatestTransitionUnique(Syncs(h), j, k, id, Down, store.state);
    }
    assert store.state == Down && now > h[k].now + limit ==> DownFor(h, k, id, limit, now);
  }

  /** A pass over the stores of a history of syncs records a store only if PD has reported it Down for longer than the
      limit, with its pod and its identifier; and after it the pod of every such store is recorded. */
  lemma RecordedExactly(h: seq<SyncEvent>, order: seq<int>, failures: Failures, limit: Time, clock: int -> Time)
    requires Lists(order, AfterHistory(h)) && NoClobber(AfterHistory(h), failures, limit, clock)
    ensures var stores := AfterHistory(h);
            var after := FailedOver(stores, order, failures, limit, clock);
            && (forall id :: id in after && id !in failures ==>
                  && id in stores && (exists k :: DownFor(h, k, id, limit, clock(id)))
                  && after[id].pod == stores[id].pod && after[id].storeId == stores[id].id)
            && forall id, k :: id in stores && DownFor(h, k, id, limit, clock(id)) ==>
                 exists r :: r in after && after[r].pod == stores[id].pod
  {
    PassRecords(AfterHistory(h), order, failures, limit, clock);
    forall id | id in AfterHistory(h)
      ensures Overdue(AfterHistory(h)[id], limit, clock(id)) <==> exists k :: DownFor(h, k, id, limit, clock(id))
    {
      OverdueExact(h, id, limit, clock(id));
    }
  }
}
