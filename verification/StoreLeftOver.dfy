/** How an eviction is left over from one upgrade and joined by another in the next: a run of two stores from
    a state with no upgrade under way. */
module StoreLeftOver {
  import opened Kube
  import opened StoreStatus
  import opened StoreScaler
  import opened StoreMembers
  import opened StoreSafety
  import opened StoreRuns
  import opened StoreLimits
  import opened StoreLosses
  import opened StoreJoins

  function TwoStores(leaders0: int, leaders1: int): seq<StoreInfo> {
    [Store10(0, leaders0), Store10(1, leaders1)]
  }

  /** Two running pods with these revisions; the first one's annotation is left open. */
  ghost predicate At(w: StoreWorld, rev0: Revision, rev1: Revision, partition: int, evicting: set<int>,
                     registry: seq<StoreInfo>)
  {
    && OperatorOwned(w.store.ss) && w.store.ss.spec.replicas == 2 == w.store.ss.status.replicas
    && w.store.ss.spec.partition == partition
    && w.store.pods.Keys == {0, 1} && On(w.store, 0, rev0) && On(w.store, 1, rev1)
    && w.store.pods[0].running && w.store.pods[1].running && w.store.pods[1].evictBegin.None?
    && w.store.evicting == evicting && w.registry == registry
  }

  /** The set is upgrading to its template, and its status says so. */
  ghost predicate Upgrades(w: StoreWorld, from: Revision, to: Revision) {
    var ss := w.store.ss;
    && ss.spec.template == to == ss.status.updateRevision && ss.status.currentRevision == from != to
    && ss.status.observedGeneration.Some?
  }

  lemma TwoKnown(w: StoreWorld, rev0: Revision, rev1: Revision, partition: int, evicting: set<int>, l0: int, l1: int)
    requires At(w, rev0, rev1, partition, evicting, TwoStores(l0, l1))
    ensures RegistryOk(w.registry) && PodsKnown(w)
    ensures forall id, i :: Registered(w.registry, id, i) <==> 0 <= i <= 1 && id == 10 + i
    ensures forall i :: Tracked(w.registry, i) <==> 0 <= i <= 1
  {
    assert Reports(w.registry, 0, 10) && Reports(w.registry, 1, 11);
    assert Registered(w.registry, 10, 0) && Registered(w.registry, 11, 1);
  }

  /** What the descent of such a world decides, store by store. */
  lemma TwoDescend(w: StoreWorld, rev0: Revision, rev1: Revision, partition: int, evicting: set<int>, l0: int, l1: int,
                   update: Revision, input: StoreInput)
    requires At(w, rev0, rev1, partition, evicting, TwoStores(l0, l1))
    requires input == NoFaults(w.registry, [0, 1]) && rev0 != update
    ensures var (e, d) := Descent(1, Eviction(w.store.pods, w.store.evicting),
        Stores(w.registry, w.store.status.stores, 0), update, input);
            && (rev1 != update && l1 == 0 ==> e == Eviction(w.store.pods, evicting) && d == LowerTo(1))
            && (rev1 == update && l0 == 0 ==> e == Eviction(w.store.pods, evicting - {11}) && d == LowerTo(0))
            && (rev1 == update && l0 != 0 && w.store.pods[0].evictBegin.None? ==>
                  && e.pods.Keys == {0, 1} && e.pods[1] == w.store.pods[1]
                  && e.pods[0] == w.store.pods[0].(evictBegin := e.pods[0].evictBegin)
                  && e.evicting == evicting - {11} + {10} && d == KeepPartition)
  {
    TwoKnown(w, rev0, rev1, partition, evicting, l0, l1);
    var stores := Stores(w.registry, w.store.status.stores, 0);
    RegistryView(w.registry, w.store.status.stores, 0);
    StoresAt(w.registry, w.store.status.stores, 0, 0);
    StoresAt(w.registry, w.store.status.stores, 0, 1);
    assert StoreAt(stores, 0) == Some(10) && stores[10].leaders == l0;
    assert StoreAt(stores, 1) == Some(11) && stores[11].leaders == l1 && stores[11].state == Up;
  }

  lemma TwoListed()
    ensures forall pods: map<int, Pod> :: pods.Keys == {0, 1} ==> Lists([0, 1], pods)
  {
    forall pods: map<int, Pod> | pods.Keys == {0, 1}
      ensures Lists([0, 1], pods)
    {
      assert [0, 1][0] == 0 && [0, 1][1] == 1;
      forall n | n in pods
        ensures n in [0, 1]
      {
        assert n in pods.Keys;
      }
    }
  }

  /** One rolling pass of a world in mid-upgrade. */
  lemma PassOfTwo(w: StoreWorld, rev0: Revision, rev1: Revision, partition: int, evicting: set<int>, l0: int, l1: int,
                  from: Revision, to: Revision)
    requires At(w, rev0, rev1, partition, evicting, TwoStores(l0, l1)) && Upgrades(w, from, to) && rev0 != to
    ensures StoreEnabled(w, RollingPass(w, [0, 1]))
    ensures var v := StoreStep(w, RollingPass(w, [0, 1]));
            && Upgrades(v, from, to)
            && (rev1 != to && l1 == 0 ==> At(v, rev0, rev1, 1, evicting, w.registry) && v.store.pods == w.store.pods)
            && (rev1 == to && l0 == 0 ==> At(v, rev0, rev1, 0, evicting - {11}, w.registry))
            && (rev1 == to && l0 != 0 && w.store.pods[0].evictBegin.None? ==>
                  At(v, rev0, rev1, partition, evicting - {11} + {10}, w.registry))
  {
    TwoListed();
    RollingPassDescends(w, [0, 1]);
    TwoDescend(w, rev0, rev1, partition, evicting, l0, l1, to, NoFaults(w.registry, [0, 1]));
  }

  /** A pass that writes a new template. */
  function WritePass(w: StoreWorld, template: PodSpec): StoreAction {
    StorePass(NormalPhase, true, Desired(w.store.ss.spec.replicas, template), NoFaults(w.registry, [0, 1]))
  }

  /** It writes the default partition with the template, and leaves pods and evictions alone. */
  lemma WriteApplies(w: StoreWorld, template: PodSpec)
    requires OperatorOwned(w.store.ss) && w.store.ss.spec.template != template && Lists([0, 1], w.store.pods)
    ensures var s, t := w.store, StoreStep(w, WritePass(w, template)).store;
            && t.ss == Applied(s.ss, SetSpec(s.ss.spec.replicas, template, s.ss.spec.replicas))
            && t.pods == s.pods && t.evicting == s.evicting
  {
  }

  lemma WriteOfTwo(w: StoreWorld, rev: Revision, partition: int, evicting: set<int>, registry: seq<StoreInfo>,
                   template: PodSpec)
    requires At(w, rev, rev, partition, evicting, registry) && w.store.ss.spec.template != template
    ensures Applicable(w, WritePass(w, template))
    ensures var v := StoreStep(w, WritePass(w, template));
            && At(v, rev, rev, 2, evicting, registry) && v.store.pods == w.store.pods
            && v.store.ss.spec.template == template && v.store.ss.status == w.store.ss.status
  {
    TwoListed();
    WriteApplies(w, template);
  }

  /** No upgrade under way: both pods on "a", store 10 leading five replicas and store 11 none. */
  function Idle(): StoreWorld {
    StoreWorld(Store(SetAt(SetSpec(2, "a", 2), "a", "a"), map[0 := RunningPod("a"), 1 := RunningPod("a")], map[], {},
                     TierStatus(NormalPhase, true, map[], map[])), TwoStores(5, 0))
  }

  lemma IdleIsSafe()
    ensures StoreSafe(Idle())
  {
    TwoKnown(Idle(), "a", "a", 2, {}, 5, 0);
  }

  /** The new template "b" is written and observed. */
  lemma Opening() returns (run: seq<StoreAction>)
    ensures StoreSafe(Idle()) && StoreRun(Idle(), run)
    ensures var v := StoreAfter(Idle(), run);
            && At(v, "a", "a", 2, {}, TwoStores(5, 0)) && Upgrades(v, "a", "b") && v.store.pods[0].evictBegin.None?
  {
    var w := Idle();
    IdleIsSafe();
    TwoKnown(w, "a", "a", 2, {}, 5, 0);
    WriteOfTwo(w, "a", 2, {}, TwoStores(5, 0), "b");
    var w1 := StoreStep(w, WritePass(w, "b"));
    RunFrom(w1, Observe, []);
    RunFrom(w, WritePass(w, "b"), [Observe] + []);
    run := [WritePass(w, "b")] + ([Observe] + []);
  }

  /** The top pod is rolled, and then store 10 put under eviction. */
  lemma FirstHalf(w: StoreWorld) returns (run: seq<StoreAction>)
    requires At(w, "a", "a", 2, {}, TwoStores(5, 0)) && Upgrades(w, "a", "b") && w.store.pods[0].evictBegin.None?
    ensures StoreRun(w, run)
    ensures var v := StoreAfter(w, run);
            At(v, "a", "b", 1, {10}, TwoStores(5, 0)) && Upgrades(v, "a", "b")
  {
    PassOfTwo(w, "a", "a", 2, {}, 5, 0, "a", "b");
    var w1 := StoreStep(w, RollingPass(w, [0, 1]));
    TwoKnown(w1, "a", "a", 1, {}, 5, 0);
    var w2 := StoreStep(w1, Replace(1, true));
    PassOfTwo(w2, "a", "b", 1, {}, 5, 0, "a", "b");
    assert {} - {11} + {10} == {10};
    RunFrom(w2, RollingPass(w2, [0, 1]), []);
    RunFrom(w1, Replace(1, true), [RollingPass(w2, [0, 1])] + []);
    RunFrom(w, RollingPass(w, [0, 1]), [Replace(1, true)] + ([RollingPass(w2, [0, 1])] + []));
    run := [RollingPass(w, [0, 1])] + ([Replace(1, true)] + ([RollingPass(w2, [0, 1])] + []));
  }

  /** Its end: store 10 is drained, its pod rolled, and the set is done before another pass. */
  lemma SecondHalf(w: StoreWorld) returns (run: seq<StoreAction>)
    requires At(w, "a", "b", 1, {10}, TwoStores(5, 0)) && Upgrades(w, "a", "b")
    ensures StoreRun(w, run)
    ensures var v := StoreAfter(w, run);
            && At(v, "b", "b", 0, {10}, TwoStores(0, 0))
            && v.store.ss.spec.template == "b" == v.store.ss.status.updateRevision == v.store.ss.status.currentRevision
  {
    TwoKnown(w, "a", "b", 1, {10}, 5, 0);
    ListMoves(w, TwoStores(0, 0));
    var join := RegistryChange(TwoStores(0, 0));
    var w1 := StoreStep(w, join);
    PassOfTwo(w1, "a", "b", 1, {10}, 0, 0, "a", "b");
    var w2 := StoreStep(w1, RollingPass(w1, [0, 1]));
    assert {10} - {11} == {10};
    var w3 := StoreStep(w2, Replace(0, true));
    TwoKnown(w3, "b", "b", 0, {10}, 0, 0);
    var done := StatusDrift(w3.store.ss.status.(currentRevision := "b"));
    RunFrom(w3, done, []);
    RunFrom(w2, Replace(0, true), [done] + []);
    var run2 := [Replace(0, true)] + ([done] + []);
    RunFrom(w1, RollingPass(w1, [0, 1]), run2);
    RunFrom(w, join, [RollingPass(w1, [0, 1])] + run2);
    run := [join] + ([RollingPass(w1, [0, 1])] + run2);
  }

  /** With store 10 still under eviction below the top the next template is not Retemplatable, and from its
      write a run evicts both stores. */
  lemma NextUpgradeEvictsBoth(v: StoreWorld, rev: Revision, template: PodSpec) returns (run: seq<StoreAction>)
    requires At(v, rev, rev, 0, {10}, TwoStores(0, 0)) && v.store.ss.spec.template == rev != template
    ensures !Retemplatable(v, template) && Applicable(v, WritePass(v, template))
    ensures var v1 := StoreStep(StoreStep(v, WritePass(v, template)), Observe);
            StoreRun(v1, run) && StoreAfter(v1, run).store.evicting == {10, 11}
  {
    TwoKnown(v, rev, rev, 0, {10}, 0, 0);
    assert Registered(v.registry, 10, 0) && Tracked(v.registry, 1) && !On(v.store, 1, template);
    WriteOfTwo(v, rev, 0, {10}, TwoStores(0, 0), template);
    var v1 := StoreStep(StoreStep(v, WritePass(v, template)), Observe);
    TwoKnown(v1, rev, rev, 2, {10}, 0, 0);
    run := SecondEviction(v1, 11, 1);
  }

  /** A whole upgrade, in a run of the kind StoreRunSafe speaks of, ends with store 10 still under eviction; the
      next one brings a second. */
  lemma LeftOverIsReached() returns (run: seq<StoreAction>, next: seq<StoreAction>)
    ensures StoreSafe(Idle()) && StoreRun(Idle(), run)
    ensures var v := StoreAfter(Idle(), run);
            && v.store.evicting == {10} && !Retemplatable(v, "c") && Applicable(v, WritePass(v, "c"))
            && var v1 := StoreStep(StoreStep(v, WritePass(v, "c")), Observe);
               StoreRun(v1, next) && StoreAfter(v1, next).store.evicting == {10, 11}
  {
    var opening := Opening();
    var w1 := StoreAfter(Idle(), opening);
    var first := FirstHalf(w1);
    var w := StoreAfter(w1, first);
    var second := SecondHalf(w);
    RunOn(w1, first, second);
    RunOn(Idle(), opening, first + second);
    run := opening + (first + second);
    next := NextUpgradeEvictsBoth(StoreAfter(w, second), "b", "c");
  }
}
