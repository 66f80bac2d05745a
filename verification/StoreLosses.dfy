/** Runs in which the store tier loses what every run is to keep: two evictions at once, or a partition that
    leaves an unrolled pod above it. */
module StoreLosses {
  import opened Kube
  import opened StoreStatus
  import opened StoreScaler
  import opened StoreMembers
  import opened StoreSafety
  import opened StoreRuns
  import opened StoreLimits

  /** What every run is to keep: one eviction at most, the suffix, and nothing unrolled above the partition. */
  ghost predicate Kept(v: StoreWorld) {
    && (forall a, b :: a in v.store.evicting && b in v.store.evicting ==> a == b)
    && UpgradedSuffix(v) && RolledAbovePartition(v)
  }

  ghost predicate KeptInEveryRun(v: StoreWorld) {
    forall run :: StoreRun(v, run) ==> Kept(StoreAfter(v, run))
  }

  lemma SafeIsKept(v: StoreWorld)
    requires StoreSafe(v)
    ensures KeptInEveryRun(v)
  {
    forall run | StoreRun(v, run)
      ensures Kept(StoreAfter(v, run))
    {
      StoreRunSafe(v, run);
    }
  }

  /** Beside the one store under eviction no other pod is annotated. */
  lemma Unannotated(v: StoreWorld, a: int, m: int, i: int)
    requires RegistryOk(v.registry) && AnnotatedIfEvicted(v)
    requires forall x, y :: x in v.store.evicting && y in v.store.evicting ==> x == y
    requires a in v.store.evicting && Registered(v.registry, a, m) && i != m && i in v.store.pods
    ensures v.store.evicting == {a} && v.store.pods[i].evictBegin.None?
  {
    assert forall x :: x in v.store.evicting ==> x == a;
    assert !EvictedOn(v, i);
  }

  // ---------------------------------------------------------------------------------------------
  // Building runs
  // ---------------------------------------------------------------------------------------------

  lemma RunFrom(w: StoreWorld, a: StoreAction, rest: seq<StoreAction>)
    requires StoreEnabled(w, a) && StoreRun(StoreStep(w, a), rest)
    ensures StoreRun(w, [a] + rest) && StoreAfter(w, [a] + rest) == StoreAfter(StoreStep(w, a), rest)
  {
    assert ([a] + rest)[1..] == rest;
  }

  lemma {:induction false} RunOn(w: StoreWorld, run: seq<StoreAction>, rest: seq<StoreAction>)
    requires StoreRun(w, run) && StoreRun(StoreAfter(w, run), rest)
    ensures StoreRun(w, run + rest) && StoreAfter(w, run + rest) == StoreAfter(StoreAfter(w, run), rest)
    decreases |run|
  {
    if run == [] {
      assert run + rest == rest;
    } else {
      RunOn(StoreStep(w, run[0]), run[1..], rest);
      assert (run + rest)[1..] == run[1..] + rest;
    }
  }

  /** The lists name the same stores on the same pods. */
  ghost predicate SameNames(a: seq<StoreInfo>, b: seq<StoreInfo>) {
    |a| == |b| && forall j :: 0 <= j < |a| ==>
      a[j].pod == b[j].pod && a[j].id == b[j].id && a[j].stats.Some? == b[j].stats.Some?
  }

  lemma SameListed(a: seq<StoreInfo>, b: seq<StoreInfo>)
    requires SameNames(a, b) && RegistryOk(a)
    ensures RegistryOk(b)
    ensures forall id, i :: Registered(a, id, i) <==> Registered(b, id, i)
    ensures forall i :: Tracked(a, i) <==> Tracked(b, i)
  {
    forall id, i
      ensures Registered(a, id, i) <==> Registered(b, id, i)
    {
      if Registered(a, id, i) {
        var j :| Reports(a, j, id) && a[j].pod == PodName(StoreTier, i);
        assert Reports(b, j, id);
      }
      if Registered(b, id, i) {
        var j :| Reports(b, j, id) && b[j].pod == PodName(StoreTier, i);
        assert Reports(a, j, id);
      }
    }
  }

  /** Leaders move, and stores go up and down, at any time. */
  lemma ListMoves(w: StoreWorld, moved: seq<StoreInfo>)
    requires RegistryOk(w.registry) && PodsKnown(w) && SameNames(w.registry, moved)
    ensures StoreEnabled(w, RegistryChange(moved)) && RegistryOk(moved) && PodsKnown(w.(registry := moved))
    ensures forall id, i :: Registered(moved, id, i) <==> Registered(w.registry, id, i)
    ensures forall i :: Tracked(moved, i) <==> Tracked(w.registry, i)
  {
    SameListed(w.registry, moved);
    var v := w.(registry := moved);
    assert PodsKnown(v) by {
      forall i | Tracked(moved, i)
        ensures Tracked(w.registry, i)
      {
      }
    }
    assert forall j, rev :: HighestOff(v, j, rev) == HighestOff(w, j, rev);
    assert forall j, rev :: StopsSafely(v, j, rev) == StopsSafely(w, j, rev);
  }

  /** The list with `leaders` leaders on the store of entry k. */
  function WithLeaders(registry: seq<StoreInfo>, k: int, leaders: int): seq<StoreInfo>
    requires 0 <= k < |registry| && registry[k].stats.Some?
  {
    registry[k := registry[k].(stats := Some(registry[k].stats.value.(leaders := leaders)))]
  }

  /** The status of a set in the middle of an upgrade. */
  function Upgrading(ss: StatefulSet): SetStatus {
    ss.status.(observedGeneration := Some(ss.generation), currentRevision := ss.status.updateRevision + "-")
  }

  function RollingPass(w: StoreWorld, listing: seq<int>): StoreAction {
    StorePass(NormalPhase, true, Desired(w.store.ss.spec.replicas, w.store.ss.spec.template),
      NoFaults(w.registry, listing))
  }

  /** In an upgrade a pass without faults does what its descent decides, and nothing else. */
  lemma RollingPassDescends(w: StoreWorld, listing: seq<int>)
    requires OperatorOwned(w.store.ss) && StatefulSetIsUpgrading(w.store.ss) && Lists(listing, w.store.pods)
    ensures PassEnabled(w, RollingPass(w, listing))
    ensures var s, t := w.store, StoreStep(w, RollingPass(w, listing)).store;
            var (e, decision) := PassDescent(w, RollingPass(w, listing));
            && t.pods == e.pods && t.evicting == e.evicting && t.pvcs == s.pvcs && t.ss.status == s.ss.status
            && OperatorOwned(t.ss) && t.status.stores == Stores(w.registry, s.status.stores, 0)
            && t.ss.spec == s.ss.spec.(partition := if decision.LowerTo? then decision.ordinal else s.ss.spec.partition)
            && t.ss.generation >= s.ss.generation
  {
  }

  /** Ordinals without a store are passed over. */
  lemma {:induction false} DescentPasses(n: int, top: int, e: Eviction, stores: map<int, KVStore>, update: Revision,
                                         input: StoreInput)
    requires 0 <= top <= n && forall k :: top < k <= n ==> StoreAt(stores, k).None?
    ensures Descent(n, e, stores, update, input) == Descent(top, e, stores, update, input)
    decreases n
  {
    if top < n {
      DescentPasses(n - 1, top, e, stores, update, input);
    }
  }

  /** The highest pod with a store is off the revision the status names and not annotated: once its store leads
      something, the next pass evicts its leaders too, whichever other store is under eviction. */
  lemma SecondEviction(v: StoreWorld, id: int, top: int) returns (run: seq<StoreAction>)
    requires OperatorOwned(v.store.ss) && RegistryOk(v.registry) && PodsKnown(v)
    requires Registered(v.registry, id, top) && forall i :: Tracked(v.registry, i) ==> i <= top
    requires !On(v.store, top, v.store.ss.status.updateRevision)
    requires top in v.store.pods && v.store.pods[top].evictBegin.None?
    ensures StoreRun(v, run)
    ensures StoreAfter(v, run).store.evicting == v.store.evicting + {id}
  {
    var k :| Reports(v.registry, k, id) && v.registry[k].pod == PodName(StoreTier, top);
    var busy := WithLeaders(v.registry, k, 1);
    ListMoves(v, busy);
    var v1 := StoreStep(v, RegistryChange(busy));
    assert Tracked(v.registry, top);
    var drift := StatusDrift(Upgrading(v.store.ss));
    var v2 := StoreStep(v1, drift);
    var listing := SomeOrder(v.store.pods);
    TopIsEvicted(v2, listing, k, id, top);
    RunFrom(v2, RollingPass(v2, listing), []);
    RunFrom(v1, drift, [RollingPass(v2, listing)] + []);
    RunFrom(v, RegistryChange(busy), [drift] + ([RollingPass(v2, listing)] + []));
    run := [RegistryChange(busy)] + ([drift] + ([RollingPass(v2, listing)] + []));
  }

  lemma TopIsEvicted(w: StoreWorld, listing: seq<int>, k: int, id: int, top: int)
    requires OperatorOwned(w.store.ss) && StatefulSetIsUpgrading(w.store.ss) && Lists(listing, w.store.pods)
    requires RegistryOk(w.registry) && PodsKnown(w)
    requires Reports(w.registry, k, id) && w.registry[k].pod == PodName(StoreTier, top)
    requires w.registry[k].stats.value.leaders != 0
    requires forall i :: Tracked(w.registry, i) ==> i <= top
    requires !On(w.store, top, w.store.ss.status.updateRevision)
    requires top in w.store.pods && w.store.pods[top].evictBegin.None?
    ensures PassEnabled(w, RollingPass(w, listing))
    ensures StoreStep(w, RollingPass(w, listing)).store.evicting == w.store.evicting + {id}
  {
    RollingPassDescends(w, listing);
    var s, stores := w.store, Stores(w.registry, w.store.status.stores, 0);
    RegistryView(w.registry, s.status.stores, 0);
    assert Registered(w.registry, id, top) && Tracked(w.registry, top);
    EntryMatches(w, s.status.stores, 0, top);
    var e, update, input := Eviction(s.pods, s.evicting), s.ss.status.updateRevision, NoFaults(w.registry, listing);
    forall i
      ensures StoreAt(stores, i).Some? <==> Tracked(w.registry, i)
    {
      FoundIfTracked(w.registry, s.status.stores, 0, i);
    }
    DescentPasses(s.ss.status.replicas - 1, top, e, stores, update, input);
  }

  /** The stores x and y on ordinals i and k. */
  function Pair(x: int, i: int, y: int, k: int): seq<StoreInfo> {
    [StoreInfo(x, PodName(StoreTier, i), 0, Some(StoreStats(0, 1))),
      StoreInfo(y, PodName(StoreTier, k), 0, Some(StoreStats(0, 1)))]
  }

  lemma PairRegistered(x: int, i: int, y: int, k: int)
    ensures forall id, m :: Registered(Pair(x, i, y, k), id, m) <==> (id == x && m == i) || (id == y && m == k)
    ensures forall m :: Tracked(Pair(x, i, y, k), m) <==> m == i || m == k
  {
    var pair := Pair(x, i, y, k);
    assert Reports(pair, 0, x) && Reports(pair, 1, y);
    assert Registered(pair, x, i) && Registered(pair, y, k);
  }

  /** Store a on ordinal m is under eviction, and a pod above, not annotated, is off the revision the status
      names. Once all other stores have left PD's list, a second store comes under eviction. */
  lemma EvictedBelowLoses(v: StoreWorld, a: int, m: int, i: int) returns (run: seq<StoreAction>)
    requires OperatorOwned(v.store.ss) && RegistryOk(v.registry) && PodsKnown(v)
    requires StatusFresh(v) ==> v.store.ss.status.updateRevision == v.store.ss.spec.template
    requires v.store.evicting == {a} && Registered(v.registry, a, m) && Tracked(v.registry, i) && m < i
    requires !On(v.store, i, v.store.ss.status.updateRevision) && v.store.pods[i].evictBegin.None?
    ensures StoreRun(v, run) && !Kept(StoreAfter(v, run))
  {
    var y :| Registered(v.registry, y, i);
    assert Tracked(v.registry, m) && y != a;
    PairRegistered(a, m, y, i);
    var leave := RegistryChange(Pair(a, m, y, i));
    assert Listable(v, Pair(a, m, y, i));
    var v1 := StoreStep(v, leave);
    var rest := SecondEviction(v1, y, i);
    RunFrom(v, leave, rest);
    run := [leave] + rest;
  }

  // ---------------------------------------------------------------------------------------------
  // A stale status
  // ---------------------------------------------------------------------------------------------

  /** The list with every store up and without leaders. */
  function Calm(registry: seq<StoreInfo>): seq<StoreInfo> {
    seq(|registry|, k requires 0 <= k < |registry| =>
      registry[k].(stateCode := 0, stats := if registry[k].stats.None? then None
        else Some(registry[k].stats.value.(leaders := 0))))
  }

  /** The pods run what they ran, and those of the ordinals below n are running. */
  ghost predicate Started(before: map<int, Pod>, after: map<int, Pod>, n: int) {
    && before.Keys == after.Keys
    && (forall i :: i in before ==>
      after[i].revision == before[i].revision && after[i].evictBegin == before[i].evictBegin)
    && forall i :: i in after && 0 <= i < n ==> after[i].running
  }

  lemma {:induction false} StartAll(v: StoreWorld, n: nat) returns (run: seq<StoreAction>)
    ensures StoreRun(v, run) && forall k :: 0 <= k < |run| ==> run[k].PodStarted?
    ensures var u := StoreAfter(v, run);
            && u == v.(store := v.store.(pods := u.store.pods)) && Started(v.store.pods, u.store.pods, n)
  {
    if n == 0 {
      run := [];
    } else {
      var front := StartAll(v, n - 1);
      var u := StoreAfter(v, front);
      if n - 1 in u.store.pods {
        RunFrom(u, PodStarted(n - 1, true), []);
        RunOn(v, front, [PodStarted(n - 1, true)] + []);
        run := front + ([PodStarted(n - 1, true)] + []);
      } else {
        run := front;
      }
    }
  }

  /** With every store calm and every pod running, a pass lowers the partition to the highest pod off the
      revision the status names. */
  lemma CalmPassLowers(w: StoreWorld, listing: seq<int>, j: int)
    requires OperatorOwned(w.store.ss) && StatefulSetIsUpgrading(w.store.ss) && Lists(listing, w.store.pods)
    requires RegistryOk(w.registry) && PodsKnown(w) && HighestOff(w, j, w.store.ss.status.updateRevision)
    requires forall i :: i in w.store.pods && 0 <= i < w.store.ss.spec.replicas ==> w.store.pods[i].running
    requires w.registry == Calm(w.registry)
    ensures PassEnabled(w, RollingPass(w, listing))
    ensures var t := StoreStep(w, RollingPass(w, listing)).store;
            t.ss.spec == w.store.ss.spec.(partition := j) && SamePods(w.store.pods, t.pods)
  {
    RollingPassDescends(w, listing);
    var s, update, input := w.store, w.store.ss.status.updateRevision, NoFaults(w.registry, listing);
    var stores, n, e := Stores(w.registry, s.status.stores, 0), s.ss.status.replicas - 1, Eviction(s.pods, s.evicting);
    forall k
      ensures StoreAt(stores, k).Some? <==> Tracked(w.registry, k)
      ensures Tracked(w.registry, k) ==>
          var store := stores[StoreAt(stores, k).value]; store.state == Up && store.leaders == 0
    {
      CalmEntry(w.registry, s.status.stores, k);
    }
    assert Due(j, s.pods, stores, update);
    forall k | j < k <= n
      ensures Cleared(k, e, stores, update, input)
    {
      if StoreAt(stores, k).Some? {
        assert Tracked(w.registry, k) && On(s, k, update);
      }
    }
    DescentLowersExactly(n, j, e, stores, update, input);
    DescentKeepsPods(n, e, stores, update, input);
  }

  lemma CalmEntry(registry: seq<StoreInfo>, previous: map<int, KVStore>, k: int)
    requires RegistryOk(registry) && registry == Calm(registry)
    ensures var stores := Stores(registry, previous, 0);
            && (StoreAt(stores, k).Some? <==> Tracked(registry, k))
            && (Tracked(registry, k) ==>
              var store := stores[StoreAt(stores, k).value]; store.state == Up && store.leaders == 0)
  {
    FoundIfTracked(registry, previous, 0, k);
    RegistryView(registry, previous, 0);
    if Tracked(registry, k) {
      var id :| Registered(registry, id, k);
      var j :| Reports(registry, j, id) && registry[j].pod == PodName(StoreTier, k);
      assert registry[j] == Calm(registry)[j];
      StoresAt(registry, previous, 0, j);
    }
  }

  lemma CalmDescentLoses(v: StoreWorld, j: int, k: int) returns (run: seq<StoreAction>)
    requires OperatorOwned(v.store.ss) && RegistryOk(v.registry) && PodsKnown(v)
    requires HighestOff(v, j, v.store.ss.status.updateRevision)
    requires k > j && Tracked(v.registry, k) && !UpToDate(v.store, k)
    requires forall i :: i in v.store.pods && 0 <= i < v.store.ss.spec.replicas ==> v.store.pods[i].running
    requires v.registry == Calm(v.registry)
    ensures StoreRun(v, run) && !Kept(StoreAfter(v, run))
  {
    var drift := StatusDrift(Upgrading(v.store.ss));
    var v1 := StoreStep(v, drift);
    assert forall i, rev :: On(v1.store, i, rev) == On(v.store, i, rev);
    var listing := SomeOrder(v1.store.pods);
    CalmPassLowers(v1, listing, j);
    var v2 := StoreStep(v1, RollingPass(v1, listing));
    assert Tracked(v2.registry, k) && !UpToDate(v2.store, k);
    assert !RolledAbovePartition(v2);
    RunFrom(v1, RollingPass(v1, listing), []);
    RunFrom(v, drift, [RollingPass(v1, listing)] + []);
    run := [drift] + ([RollingPass(v1, listing)] + []);
  }

  /** The status names a revision that a pod off the new template runs, while a lower one does not: a pass
      lowers the partition past the higher pod. */
  lemma StaleDescentLoses(v: StoreWorld, j: int, k: int) returns (run: seq<StoreAction>)
    requires OperatorOwned(v.store.ss) && RegistryOk(v.registry) && PodsKnown(v)
    requires HighestOff(v, j, v.store.ss.status.updateRevision)
    requires k > j && Tracked(v.registry, k) && !UpToDate(v.store, k)
    ensures StoreRun(v, run) && !Kept(StoreAfter(v, run))
  {
    var calm := RegistryChange(Calm(v.registry));
    ListMoves(v, Calm(v.registry));
    var v1 := StoreStep(v, calm);
    assert Tracked(v.registry, k);
    var started := StartAll(v1, v.store.ss.spec.replicas);
    var v2 := StoreAfter(v1, started);
    assert forall i, rev :: On(v2.store, i, rev) == On(v.store, i, rev);
    var rest := CalmDescentLoses(v2, j, k);
    RunOn(v1, started, rest);
    RunFrom(v, calm, started + rest);
    run := [calm] + (started + rest);
  }
}
