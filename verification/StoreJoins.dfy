/** What a store that joins and a pod that is made anew may do to the store tier, exactly: to the invariant in
    one step, and to every later run. */
module StoreJoins {
  import opened Kube
  import opened StoreStatus
  import opened StoreScaler
  import opened StoreMembers
  import opened StoreSafety
  import opened StoreRuns
  import opened StoreLimits
  import opened StoreLosses

  // ---------------------------------------------------------------------------------------------
  // One step
  // ---------------------------------------------------------------------------------------------

  /** A change of PD's list keeps the invariant exactly when every store that joins fits. */
  lemma JoinExact(w: StoreWorld, registry: seq<StoreInfo>)
    requires StoreSafe(w) && Listable(w, registry)
    ensures var v := StoreStep(w, RegistryChange(registry));
            StoreSafe(v)
            <==> StatusFresh(v) && forall i :: Tracked(registry, i) && !Tracked(w.registry, i) ==> Fits(v, i)
  {
    ListChangeIsNewcomers(w, registry);
    NewcomersFit(w, w.(registry := registry), iset i | Tracked(registry, i) && !Tracked(w.registry, i));
  }

  /** A pod that Kubernetes makes anew keeps the invariant exactly when, if it has a store, it fits. */
  lemma RecreatedExact(w: StoreWorld, i: int, running: bool)
    requires StoreSafe(w) && i in w.store.pods
    ensures var v := StoreStep(w, PodRecreated(i, running));
            StoreSafe(v) <==> StatusFresh(v) && (Tracked(w.registry, i) ==> Fits(v, i))
  {
    RecreationIsNewcomer(w, i, running);
    NewcomersFit(w, StoreStep(w, PodRecreated(i, running)), iset{i});
  }

  // ---------------------------------------------------------------------------------------------
  // Whole runs
  // ---------------------------------------------------------------------------------------------

  /** Every newcomer fits, and the status leads no descent too far. */
  ghost predicate AllFit(v: StoreWorld, newcomers: iset<int>) {
    StatusFresh(v) && forall i :: i in newcomers && Tracked(v.registry, i) ==> Fits(v, i)
  }

  /** Stores have joined, or pods were made anew: every later run keeps one eviction, the suffix and the rolled
      pods above the partition if and only if all of them fit. */
  lemma NewcomersRunExact(w: StoreWorld, v: StoreWorld, newcomers: iset<int>)
    requires StoreSafe(w) && Newcomers(w, v, newcomers)
    ensures KeptInEveryRun(v) <==> AllFit(v, newcomers)
  {
    if AllFit(v, newcomers) {
      NewcomersFit(w, v, newcomers);
      SafeIsKept(v);
    } else {
      var run := MisfitLoses(w, v, newcomers);
    }
  }

  lemma MisfitLoses(w: StoreWorld, v: StoreWorld, newcomers: iset<int>) returns (run: seq<StoreAction>)
    requires StoreSafe(w) && Newcomers(w, v, newcomers) && !AllFit(v, newcomers)
    ensures StoreRun(v, run) && !Kept(StoreAfter(v, run))
  {
    if !Kept(v) {
      run := [];
    } else if i :| i in newcomers && Tracked(v.registry, i) && !Fits(v, i) {
      var a, m :| a in v.store.evicting && Registered(v.registry, a, m) && m < i && !UpToDate(v.store, i);
      Unannotated(v, a, m, i);
      var v1 := StoreStep(v, Observe);
      assert !On(v1.store, i, v1.store.ss.status.updateRevision);
      var rest := EvictedBelowLoses(v1, a, m, i);
      RunFrom(v, Observe, rest);
      run := [Observe] + rest;
    } else {
      var j :| HighestOff(v, j, v.store.ss.status.updateRevision) && !StopsSafely(v, j, v.store.ss.spec.template);
      if k :| k > j && Tracked(v.registry, k) && !UpToDate(v.store, k) {
        run := StaleDescentLoses(v, j, k);
      } else {
        var a, m :| a in v.store.evicting && Registered(v.registry, a, m) && m < j;
        Unannotated(v, a, m, j);
        run := EvictedBelowLoses(v, a, m, j);
      }
    }
  }

  /** The run form of JoinExact. */
  lemma JoinRunExact(w: StoreWorld, registry: seq<StoreInfo>)
    requires StoreSafe(w) && Listable(w, registry)
    ensures var v := StoreStep(w, RegistryChange(registry));
            KeptInEveryRun(v)
            <==> StatusFresh(v) && forall i :: Tracked(registry, i) && !Tracked(w.registry, i) ==> Fits(v, i)
  {
    ListChangeIsNewcomers(w, registry);
    NewcomersRunExact(w, w.(registry := registry), iset i | Tracked(registry, i) && !Tracked(w.registry, i));
  }

  /** The run form of RecreatedExact. */
  lemma RecreatedRunExact(w: StoreWorld, i: int, running: bool)
    requires StoreSafe(w) && i in w.store.pods
    ensures var v := StoreStep(w, PodRecreated(i, running));
            KeptInEveryRun(v) <==> StatusFresh(v) && (Tracked(w.registry, i) ==> Fits(v, i))
  {
    RecreationIsNewcomer(w, i, running);
    NewcomersRunExact(w, StoreStep(w, PodRecreated(i, running)), iset{i});
  }

  /** From the partition on a pod is made anew on the template, under any status: it always fits. */
  lemma AnewFromPartitionFits(w: StoreWorld, i: int, running: bool)
    requires StoreSafe(w) && i in w.store.pods && i >= w.store.ss.spec.partition
    ensures var v := StoreStep(w, PodRecreated(i, running));
            KeptInEveryRun(v) && StatusFresh(v) && (Tracked(w.registry, i) ==> Fits(v, i))
  {
    ReplaceKeepsSafe(w, i, running);
    SafeIsKept(StoreStep(w, PodRecreated(i, running)));
    RecreatedRunExact(w, i, running);
  }

  /** While the status names the template: a pod that falls back to an older revision below the partition, as
      below the default partition of a paused upgrade, does no harm to any later run exactly when no pod below it
      is up to date and no store below it is under eviction. */
  lemma FallBackExact(w: StoreWorld, i: int, running: bool)
    requires StoreSafe(w) && Tracked(w.registry, i)
    requires w.store.ss.status.updateRevision == w.store.ss.spec.template
    requires i < w.store.ss.spec.partition && w.store.ss.status.currentRevision != w.store.ss.spec.template
    ensures KeptInEveryRun(StoreStep(w, PodRecreated(i, running)))
        <==> && (forall k :: k < i && Tracked(w.registry, k) ==> !UpToDate(w.store, k))
             && forall a, m :: a in w.store.evicting && Registered(w.registry, a, m) ==> i <= m
  {
    RecreatedRunExact(w, i, running);
    var v := StoreStep(w, PodRecreated(i, running));
    assert forall k :: k != i ==> UpToDate(v.store, k) == UpToDate(w.store, k);
    assert !UpToDate(v.store, i);
  }

  /** From `w` to `v` nothing changes but that a store joins on ordinal `top`, above all others. */
  ghost predicate TopJoins(w: StoreWorld, v: StoreWorld, top: int) {
    && v.store == w.store && Listable(w, v.registry)
    && (forall i :: Tracked(w.registry, i) ==> i < top)
    && (forall i :: Tracked(v.registry, i) <==> Tracked(w.registry, i) || i == top)
  }

  /** The pod of the new store is up to date; or it is not above the partition, no pod with a store is up to
      date, and no store is under eviction. */
  ghost predicate TopFits(w: StoreWorld, top: int) {
    || UpToDate(w.store, top)
    || (&& top <= w.store.ss.spec.partition && w.store.evicting == {}
        && forall i :: Tracked(w.registry, i) ==> !UpToDate(w.store, i))
  }

  /** For a store that joins on a new top ordinal while the status names the template, what fits is TopFits. */
  lemma TopJoinRunExact(w: StoreWorld, v: StoreWorld, top: int)
    requires StoreSafe(w) && TopJoins(w, v, top)
    requires w.store.ss.status.updateRevision == w.store.ss.spec.template
    ensures KeptInEveryRun(v) <==> TopFits(w, top)
    ensures StoreSafe(v) <==> TopFits(w, top)
  {
    assert v == w.(registry := v.registry);
    JoinRunExact(w, v.registry);
    JoinExact(w, v.registry);
    forall a | a in w.store.evicting
      ensures exists m :: Registered(v.registry, a, m) && m < top
    {
      var m :| EvictedAt(w, a, m);
      assert Tracked(w.registry, m);
      assert Registered(v.registry, a, m);
    }
    assert Fits(v, top) <==> TopFits(w, top);
  }

  // ---------------------------------------------------------------------------------------------
  // Inputs that lose
  // ---------------------------------------------------------------------------------------------

  /** Three pods on "old", the template "new" written and observed, the store on ordinal 1 under eviction; the
      store of ordinal 2 has yet to join. */
  function BeforeJoin(): StoreWorld {
    var evicted := Pod(Some("old"), true, false, Some(At(0)));
    var pods := map[0 := RunningPod("old"), 1 := evicted, 2 := RunningPod("old")];
    StoreWorld(Store(SetAt(SetSpec(3, "new", 3), "old", "new"), pods, map[], {11},
                     TierStatus(UpgradePhase, true, map[], map[])), [Store10(0, 5), Store10(1, 5)])
  }

  /** The suffix would allow the join, and yet some run evicts two stores at once. */
  lemma JoinDuringEviction() returns (run: seq<StoreAction>)
    ensures var w := BeforeJoin();
            var v := w.(registry := w.registry + [Store10(2, 5)]);
            && StoreSafe(w) && TopJoins(w, v, 2) && UpgradedSuffix(v)
            && StoreRun(v, run) && StoreAfter(v, run).store.evicting == {11, 12}
  {
    var w := BeforeJoin();
    var v := w.(registry := w.registry + [Store10(2, 5)]);
    BeforeJoinIsSafe();
    TwoListed(w.registry);
    ThreeListed(v.registry);
    run := SecondEviction(v, 12, 2);
  }

  /** Half-way through an upgrade of three stores: ordinals 1 and 2 are rolled, ordinal 0 is not. */
  function TwoRolled(): StoreWorld {
    var pods := map[0 := RunningPod("old"), 1 := RunningPod("new"), 2 := RunningPod("new")];
    StoreWorld(Store(SetAt(SetSpec(3, "new", 1), "old", "new"), pods, map[], {},
                     TierStatus(UpgradePhase, true, map[], map[])),
               [Store10(0, 5), Store10(1, 5)] + [Store10(2, 5)])
  }

  /** PD pauses the upgrade, whose set falls back to the default partition; a rolled pod made anew meanwhile
      starts on the old revision, and the suffix is broken. */
  lemma PausedRecreationBreaksSuffix()
    ensures var w := TwoRolled();
            var pass := StorePass(UpgradePhase, true, Desired(3, "new"), NoFaults(w.registry, [0, 1, 2]));
            && StoreSafe(w) && StoreEnabled(w, pass)
            && var v := StoreStep(StoreStep(w, pass), PodRecreated(2, true));
               Tracked(v.registry, 1) && Tracked(v.registry, 2) && UpToDate(v.store, 1) && !UpToDate(v.store, 2)
  {
    var w := TwoRolled();
    ThreeListed(w.registry);
    TwoRolledIsSafe();
    assert Lists([0, 1, 2], w.store.pods) by {
      assert [0, 1, 2][0] == 0 && [0, 1, 2][1] == 1 && [0, 1, 2][2] == 2;
    }
  }

  /** The status still names "old", which ordinals 0 and 1 run below a partition lowered to 1; the store of
      ordinal 2, whose pod runs the template "new", has yet to join. */
  function BeforeRise(): StoreWorld {
    var pods := map[0 := RunningPod("old"), 1 := RunningPod("old"), 2 := RunningPod("new")];
    StoreWorld(Store(SetAt(SetSpec(3, "new", 1), "older", "old"), pods, map[], {},
                     TierStatus(UpgradePhase, true, map[], map[])), [Store10(0, 5), Store10(1, 5)])
  }

  function AfterRise(): StoreWorld {
    BeforeRise().(registry := [Store10(0, 5), Store10(1, 5)] + [Store10(2, 0)])
  }

  /** It joins, drained, and the next pass raises the partition from 1 to 2. */
  lemma JoinRaisesPartition()
    ensures var join, pass := RegistryChange(AfterRise().registry), RollingPass(AfterRise(), [0, 1, 2]);
            && StoreSafe(BeforeRise()) && StoreEnabled(BeforeRise(), join)
            && StoreStep(BeforeRise(), join) == AfterRise() && StoreEnabled(AfterRise(), pass)
            && StoreStep(AfterRise(), pass).store.ss.spec.partition == 2
  {
    RiseIsEnabled();
    StepKeepsSafe(BeforeRise(), RegistryChange(AfterRise().registry));
    RisePassRolls();
    RiseLeads(AfterRise(), RollingPass(AfterRise(), [0, 1, 2]));
    PartitionMovesExactly(AfterRise(), RollingPass(AfterRise(), [0, 1, 2]), 2);
  }

  lemma RisePassRolls()
    ensures var v, pass := AfterRise(), RollingPass(AfterRise(), [0, 1, 2]);
            PassEnabled(v, pass) && Rolling(v, pass) && Undisturbed(pass)
  {
    assert Lists([0, 1, 2], AfterRise().store.pods) by {
      assert [0, 1, 2][0] == 0 && [0, 1, 2][1] == 1 && [0, 1, 2][2] == 2;
    }
  }

  lemma BeforeRiseIsSafe()
    ensures StoreSafe(BeforeRise())
  {
    TwoListed(BeforeRise().registry);
  }

  lemma RiseIsEnabled()
    ensures StoreSafe(BeforeRise()) && StoreEnabled(BeforeRise(), RegistryChange(AfterRise().registry))
  {
    BeforeRiseIsSafe();
    TwoListed(BeforeRise().registry);
    RiseIsListed();
    assert HighestOff(AfterRise(), 2, "old");
  }

  lemma RiseIsListed()
    ensures var registry := AfterRise().registry;
            RegistryOk(registry) && forall i :: Tracked(registry, i) <==> 0 <= i <= 2
    ensures forall id, i :: Registered(AfterRise().registry, id, i) <==> 0 <= i <= 2 && id == 10 + i
  {
    var three := [Store10(0, 5), Store10(1, 5)] + [Store10(2, 5)];
    ThreeListed(three);
    SameListed(three, AfterRise().registry);
  }

  /** Nothing above the top store, which is drained, stops the descent. */
  lemma RiseLeads(v: StoreWorld, a: StoreAction)
    requires a.StorePass? && v == AfterRise()
    ensures LeadsTo(v, a, 2)
  {
    RiseIsListed();
    assert v.registry[2].pod == PodName(StoreTier, 2);
  }

  lemma TwoRolledIsSafe()
    ensures StoreSafe(TwoRolled())
  {
    ThreeListed(TwoRolled().registry);
  }

  lemma BeforeJoinIsSafe()
    ensures StoreSafe(BeforeJoin())
  {
    var w := BeforeJoin();
    TwoListed(w.registry);
    assert EvictedAt(w, 11, 1) && EvictedOn(w, 1);
  }

  lemma TwoListed(registry: seq<StoreInfo>)
    requires registry == [Store10(0, 5), Store10(1, 5)]
    ensures forall id, i :: Registered(registry, id, i) <==> 0 <= i <= 1 && id == 10 + i
    ensures forall i :: Tracked(registry, i) <==> 0 <= i <= 1
  {
    assert Reports(registry, 0, 10) && Reports(registry, 1, 11);
    assert Registered(registry, 10, 0) && Registered(registry, 11, 1);
  }

  lemma ThreeListed(registry: seq<StoreInfo>)
    requires registry == [Store10(0, 5), Store10(1, 5)] + [Store10(2, 5)]
    ensures forall id, i :: Registered(registry, id, i) <==> 0 <= i <= 2 && id == 10 + i
    ensures forall i :: Tracked(registry, i) <==> 0 <= i <= 2
  {
    assert Reports(registry, 0, 10) && Reports(registry, 1, 11) && Reports(registry, 2, 12);
    assert Registered(registry, 10, 0) && Registered(registry, 11, 1) && Registered(registry, 12, 2);
  }
}
