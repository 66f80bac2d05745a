/** Two tiers open to rolling at once: no pass opens both, yet a tier that is open may stay so when another is
    opened. The exact condition, pass by pass and over every run. */
module TierRuns {
  import opened Kube
  import opened Operator
  import PdMembers
  import StoreScaler
  import StoreMembers
  import ProxyMembers
  import PdSafety
  import PdTemplateChange
  import PdProgress
  import PdQuorum
  import StoreStatus
  import StoreHistories
  import StoreSafety
  import StoreLimits

  /** The partition leaves some ordinal open to rolling. */
  predicate Open(ss: StatefulSet) {
    ss.spec.partition < ss.spec.replicas
  }

  predicate PdOpen(w: World) {
    Open(w.pd.pd.ss)
  }

  predicate StoreOpen(w: World) {
    Open(w.store.store.ss)
  }

  predicate ProxyOpen(w: World) {
    Open(w.proxy.ss)
  }

  /** What the PD sync of the pass leaves. */
  function PdSynced(w: World, a: Action): (PdMembers.Pd, Option<Error>)
    requires a.Pass? && Lists(a.input.pd.listing, w.pd.pd.pods)
  {
    PdMembers.Synced(w.pd.pd, a.spec.pd, a.input.pd)
  }

  /** The pass gets past PD and finds it in no upgrade. */
  predicate Unpaused(w: World, a: Action)
    requires a.Pass? && Lists(a.input.pd.listing, w.pd.pd.pods)
  {
    var (pd, error) := PdSynced(w, a);
    !a.input.preludeFails && error.None? && pd.status.phase == NormalPhase
  }

  /** A fault keeps the store sync from the write that closes the set. */
  predicate Faulty(store: StoreMembers.Store, desired: Desired, input: StoreMembers.StoreInput) {
    || input.serviceFails || input.infos.None? || input.tombstones.None? || !input.write.TookEffect()
    || (desired.replicas > store.ss.spec.replicas && StoreScaler.Marked(store.pvcs, store.ss.spec.replicas)
        && !input.deletePvc.Reported())
  }

  /** A fault, or PD's want of a quorum, keeps the pass from closing the store set. */
  predicate StoreCut(w: World, a: Action)
    requires a.Pass? && Lists(a.input.pd.listing, w.pd.pd.pods)
  {
    var (pd, error) := PdSynced(w, a);
    || a.input.preludeFails || error.Some? || !PdMembers.PdAvailable(pd, a.spec.pdReplicas)
    || Faulty(w.store.store, a.spec.store, a.input.store)
  }

  /** PD and the stores are open after the pass: PD is, while a fault leaves the stores as open as they were; or
      PD, in no upgrade, stays open since another member count is asked for, which its sync refuses silently. */
  ghost predicate StoresOverlap(w: World, a: Action)
    requires a.Pass? && Enabled(w, a)
  {
    if Unpaused(w, a) then PdOpen(w) && a.spec.pd.replicas != PdSafety.Count(w.pd) && StoreOpen(Step(w, a))
    else PdOpen(Step(w, a)) && StoreOpen(w) && StoreCut(w, a)
  }

  /** A PD sync that finds no upgrade closes the set, or refuses another member count. */
  lemma NormalPdCloses(pd: PdMembers.Pd, desired: Desired, input: PdMembers.PdInput)
    requires Lists(input.listing, pd.pods) && OperatorOwned(pd.ss)
    requires var (after, error) := PdMembers.Synced(pd, desired, input);
             error.None? && after.status.phase == NormalPhase
    ensures !input.serviceFails
    ensures Open(PdMembers.Synced(pd, desired, input).0.ss) <==> Open(pd.ss) && desired.replicas != pd.ss.spec.replicas
  {
  }

  /** A store sync during a PD upgrade closes the set unless it is cut. */
  lemma PausedSyncCloses(store: StoreMembers.Store, available: bool, desired: Desired, input: StoreMembers.StoreInput)
    requires Lists(input.listing, store.pods) && OperatorOwned(store.ss) && desired.replicas >= store.ss.spec.replicas
    ensures Open(StoreMembers.Synced(store, UpgradePhase, available, desired, input).0.ss)
            <==> Open(store.ss) && (!available || Faulty(store, desired, input))
  {
  }

  /** The store set a pass leaves is the one its store sync leaves, if it comes that far. */
  lemma StoreAfter(w: World, a: Action)
    requires Enabled(w, a) && a.Pass?
    ensures ReachesStores(w, a) ==>
              var part := StorePart(w, a);
              Step(w, a).store.store.ss
              == StoreMembers.Synced(w.store.store, part.pdPhase, part.pdAvailable, part.desired, part.input).0.ss
    ensures !ReachesStores(w, a) ==> Step(w, a).store.store.ss == w.store.store.ss
    ensures Step(w, a).pd.pd.ss == if a.input.preludeFails then w.pd.pd.ss else PdSynced(w, a).0.ss
  {
  }

  lemma PausedStoresClose(w: World, a: Action)
    requires Safe(w) && Enabled(w, a) && a.Pass? && !Unpaused(w, a)
    ensures StoreOpen(Step(w, a)) <==> StoreOpen(w) && StoreCut(w, a)
  {
    StoreAfter(w, a);
    if ReachesStores(w, a) {
      PausedSyncCloses(w.store.store, StorePart(w, a).pdAvailable, a.spec.store, a.input.store);
    }
  }

  lemma StoresOverlapExact(w: World, a: Action)
    requires Safe(w) && Enabled(w, a) && a.Pass?
    ensures PdOpen(Step(w, a)) && StoreOpen(Step(w, a)) <==> StoresOverlap(w, a)
  {
    StoreAfter(w, a);
    if Unpaused(w, a) {
      NormalPdCloses(w.pd.pd, a.spec.pd, a.input.pd);
    } else {
      PausedStoresClose(w, a);
    }
  }

  // ---------------------------------------------------------------------------------------------
  // The proxies
  // ---------------------------------------------------------------------------------------------

  /** What the store sync of a pass that gets past PD leaves. */
  ghost function StoreSynced(w: World, a: Action): (StoreMembers.Store, Option<Error>)
    requires a.Pass? && Listed(ClusterOf(w), a.input)
  {
    var part := StorePart(w, a);
    StoreMembers.Synced(w.store.store, part.pdPhase, part.pdAvailable, part.desired, part.input)
  }

  /** The pass gets as far as the proxies. */
  ghost predicate ReachesProxies(w: World, a: Action)
    requires a.Pass? && Listed(ClusterOf(w), a.input)
  {
    ReachesStores(w, a) && StoreSynced(w, a).1.None?
  }

  /** It gets there and finds neither PD nor the stores in an upgrade. */
  ghost predicate Clear(w: World, a: Action)
    requires a.Pass? && Listed(ClusterOf(w), a.input)
  {
    ReachesProxies(w, a) && !OthersUpgrading(PdSynced(w, a).0, StoreSynced(w, a).0)
  }

  /** A fault, or the want of a store, keeps the pass from closing the proxy set. */
  ghost predicate ProxyCut(w: World, a: Action)
    requires a.Pass? && Listed(ClusterOf(w), a.input)
  {
    !ReachesProxies(w, a) || !StoreMembers.StoreAvailable(StoreSynced(w, a).0) || !a.input.proxy.write.TookEffect()
  }

  /** The proxies and another tier are open after the pass. */
  ghost predicate ProxiesOverlap(w: World, a: Action)
    requires a.Pass? && Enabled(w, a)
  {
    if Clear(w, a) then PdOpen(w) && a.spec.pd.replicas != PdSafety.Count(w.pd) && ProxyOpen(Step(w, a))
    else (PdOpen(Step(w, a)) || StoreOpen(Step(w, a))) && ProxyOpen(w) && ProxyCut(w, a)
  }

  /** A store sync without an error that finds no upgrade closes the set. */
  lemma NormalStoresClose(store: StoreMembers.Store, available: bool, desired: Desired, input: StoreMembers.StoreInput)
    requires Lists(input.listing, store.pods) && OperatorOwned(store.ss) && desired.replicas >= store.ss.spec.replicas
    requires var (after, error) := StoreMembers.Synced(store, NormalPhase, available, desired, input);
             error.None? && after.status.phase == NormalPhase
    ensures !Open(StoreMembers.Synced(store, NormalPhase, available, desired, input).0.ss)
  {
  }

  /** A proxy sync during the upgrade of another tier closes the set unless it is cut. */
  lemma PausedProxiesClose(proxy: ProxyMembers.Proxy, available: bool, desired: Desired, input: ProxyMembers.ProxyInput)
    requires Lists(input.listing, proxy.pods) && OperatorOwned(proxy.ss)
    ensures Open(ProxyMembers.Synced(proxy, available, true, desired, input).0.ss)
            <==> Open(proxy.ss) && (!available || !input.write.TookEffect())
  {
  }

  lemma ProxyAfter(w: World, a: Action)
    requires Enabled(w, a) && a.Pass?
    ensures ReachesProxies(w, a) ==>
              Step(w, a).proxy.ss
              == ProxyMembers.Synced(w.proxy, StoreMembers.StoreAvailable(StoreSynced(w, a).0),
                                     OthersUpgrading(PdSynced(w, a).0, StoreSynced(w, a).0), a.spec.proxy,
                                     a.input.proxy).0.ss
    ensures !ReachesProxies(w, a) ==> Step(w, a).proxy.ss == w.proxy.ss
  {
  }

  lemma ProxiesOverlapExact(w: World, a: Action)
    requires Safe(w) && Enabled(w, a) && a.Pass? && OperatorOwned(w.proxy.ss)
    ensures (PdOpen(Step(w, a)) || StoreOpen(Step(w, a))) && ProxyOpen(Step(w, a)) <==> ProxiesOverlap(w, a)
  {
    StoreAfter(w, a);
    ProxyAfter(w, a);
    if Clear(w, a) {
      NormalPdCloses(w.pd.pd, a.spec.pd, a.input.pd);
      NormalStoresClose(w.store.store, StorePart(w, a).pdAvailable, a.spec.store, a.input.store);
    } else if ReachesProxies(w, a) {
      PausedProxiesClose(w.proxy, StoreMembers.StoreAvailable(StoreSynced(w, a).0), a.spec.proxy, a.input.proxy);
    }
  }

  // ---------------------------------------------------------------------------------------------
  // Runs
  // ---------------------------------------------------------------------------------------------

  predicate TwoOpen(w: World) {
    (PdOpen(w) && StoreOpen(w)) || ((PdOpen(w) || StoreOpen(w)) && ProxyOpen(w))
  }

  ghost predicate Overlaps(w: World, a: Action)
    requires Enabled(w, a)
  {
    a.Pass? && (StoresOverlap(w, a) || ProxiesOverlap(w, a))
  }

  /** Nobody but the operator writes the proxy set. */
  ghost predicate Managed(w: World, a: Action) {
    a.ProxyEvent? ==>
      && a.proxy.ss.spec == w.proxy.ss.spec && a.proxy.ss.lastApplied == w.proxy.ss.lastApplied
      && a.proxy.ss.templateApplied == w.proxy.ss.templateApplied
  }

  ghost predicate ManagedRun(w: World, run: seq<Action>)
    requires Run(w, run)
    decreases |run|
  {
    run != [] ==> Managed(w, run[0]) && ManagedRun(Step(w, run[0]), run[1..])
  }

  /** At some time of the run two tiers are open. */
  ghost predicate EverTwoOpen(w: World, run: seq<Action>)
    requires Run(w, run)
    decreases |run|
  {
    TwoOpen(w) || (run != [] && EverTwoOpen(Step(w, run[0]), run[1..]))
  }

  ghost predicate EverOverlaps(w: World, run: seq<Action>)
    requires Run(w, run)
    decreases |run|
  {
    run != [] && (Overlaps(w, run[0]) || EverOverlaps(Step(w, run[0]), run[1..]))
  }

  lemma EventsOpenNothing(w: World, a: Action)
    requires Enabled(w, a) && Managed(w, a) && !a.Pass?
    ensures TwoOpen(Step(w, a)) == TwoOpen(w)
    ensures OperatorOwned(w.proxy.ss) ==> OperatorOwned(Step(w, a).proxy.ss)
  {
  }

  lemma PassKeepsProxyOwned(w: World, a: Action)
    requires Enabled(w, a) && a.Pass? && OperatorOwned(w.proxy.ss)
    ensures OperatorOwned(Step(w, a).proxy.ss)
  {
    ProxyAfter(w, a);
    if ReachesProxies(w, a) {
      ProxySyncOwned(w.proxy, StoreMembers.StoreAvailable(StoreSynced(w, a).0),
                     OthersUpgrading(PdSynced(w, a).0, StoreSynced(w, a).0), a.spec.proxy, a.input.proxy);
    }
  }

  lemma ProxySyncOwned(proxy: ProxyMembers.Proxy, available: bool, others: bool, desired: Desired,
                       input: ProxyMembers.ProxyInput)
    requires Lists(input.listing, proxy.pods) && OperatorOwned(proxy.ss)
    ensures OperatorOwned(ProxyMembers.Synced(proxy, available, others, desired, input).0.ss)
  {
  }

  /** From a safe state with one tier open at most, two tiers are open at some time of a run if and only if some
      pass of the run meets the condition in the state it starts from. */
  lemma {:induction false} OverlapInRunsExact(w: World, run: seq<Action>)
    requires Safe(w) && OperatorOwned(w.proxy.ss) && !TwoOpen(w) && Run(w, run) && ManagedRun(w, run)
    ensures EverTwoOpen(w, run) <==> EverOverlaps(w, run)
    decreases |run|
  {
    if run != [] {
      var a, after := run[0], Step(w, run[0]);
      StepKeepsSafe(w, a);
      if a.Pass? {
        StoresOverlapExact(w, a);
        ProxiesOverlapExact(w, a);
        PassKeepsProxyOwned(w, a);
      } else {
        EventsOpenNothing(w, a);
      }
      if TwoOpen(after) {
        assert EverTwoOpen(after, run[1..]);
      } else {
        OverlapInRunsExact(after, run[1..]);
      }
    }
  }

  /** Every pass closes what it should, and asks for no other number of PD members. */
  ghost predicate CleanRun(w: World, run: seq<Action>)
    requires Run(w, run)
    decreases |run|
  {
    run != [] ==>
      && CleanRun(Step(w, run[0]), run[1..])
      && (run[0].Pass? ==>
            && run[0].spec.pd.replicas == PdSafety.Count(w.pd)
            && (StoreOpen(w) ==> !StoreCut(w, run[0])) && (ProxyOpen(w) ==> !ProxyCut(w, run[0])))
  }

  lemma {:induction false} CleanRunNeverOverlaps(w: World, run: seq<Action>)
    requires Run(w, run) && CleanRun(w, run)
    ensures !EverOverlaps(w, run)
    decreases |run|
  {
    if run != [] {
      CleanRunNeverOverlaps(Step(w, run[0]), run[1..]);
    }
  }

  // ---------------------------------------------------------------------------------------------
  // What the later tiers wait for
  // ---------------------------------------------------------------------------------------------

  /** A pass that gets PD's report changes the store tier only while a majority of the PD members is healthy. */
  lemma StoresWaitForQuorum(w: World, a: Action)
    requires Safe(w) && Enabled(w, a) && a.Pass?
    requires a.spec.pdReplicas == PdSafety.Count(w.pd) && a.input.pd.report.Some?
    requires forall i :: i in a.input.pd.report.value ==> 0 <= i < PdSafety.Count(w.pd)
    ensures Step(w, a).store.store != w.store.store ==>
        PdSafety.Quorum(w.pd) && 2 * |HealthyReported(a)| > a.spec.pdReplicas
  {
    if Step(w, a).store.store != w.store.store {
      PdMembers.SyncTakesReport(w.pd.pd, a.spec.pd, a.input.pd);
      var (pd, error) := PdSynced(w, a);
      assert ReachesStores(w, a) && PdMembers.PdAvailable(pd, a.spec.pdReplicas);
      PdMembers.AvailableExactly(pd, a.spec.pdReplicas);
      assert (set i | i in pd.status.members && pd.status.members[i]) == HealthyReported(a);
      PdQuorum.SubsetSize(HealthyReported(a), PdSafety.HealthyMembers(w.pd));
    }
  }

  function HealthyReported(a: Action): set<int>
    requires a.Pass? && a.input.pd.report.Some?
  {
    set i | i in a.input.pd.report.value && a.input.pd.report.value[i]
  }

  /** A pass changes the proxies only while PD lists a store that is Up and some store pod is ready. */
  lemma ProxiesWaitForStores(w: World, a: Action)
    requires Safe(w) && Enabled(w, a) && a.Pass? && Step(w, a).proxy != w.proxy
    ensures Step(w, a).store.store.ss.status.readyReplicas >= 1
    ensures exists k :: 0 <= k < |w.store.registry| && w.store.registry[k].stats.Some?
                        && w.store.registry[k].stateCode != 1 && w.store.registry[k].stateCode != 2
  {
    var (store, error) := StoreSynced(w, a);
    assert ReachesProxies(w, a) && StoreMembers.StoreAvailable(store);
    var part := StorePart(w, a);
    var p := StoreHistories.StatusPass(w.store.store, part.pdPhase, part.pdAvailable, part.desired, part.input, true);
    StoreHistories.PassIsSync(p);
    var id :| id in store.status.stores && store.status.stores[id].state == StoreStatus.Up;
    var before, now := w.store.store.status.stores, part.input.now;
    StoreStatus.StoresKeys(w.store.registry, before, now, id);
    var k :| StoreStatus.Reports(w.store.registry, k, id);
    StoreStatus.EntryExact(w.store.registry, before, now, k);
  }

  /** A pass has written the PD set, and the controller has not taken notice of it yet: the next pass finds PD in its
      upgrade all the same, so it does not get past PD as in no upgrade. */
  lemma UnseenWritePauses(w: World, a: Action, b: Action)
    requires Safe(w) && Enabled(w, a) && a.Pass? && w.pd.pd.ss.status.observedGeneration.Some?
    requires w.pd.pd.ss.status.observedGeneration.value <= w.pd.pd.ss.generation
    requires Step(w, a).pd.pd.ss != w.pd.pd.ss
    requires b.Pass? && Enabled(Step(w, a), b)
    ensures !Unpaused(Step(w, a), b)
  {
    WriteIsUnseen(w.pd, PdPart(a));
    StoreAfter(w, a);
    UpgradeIsFound(Step(w, a).pd.pd, b.spec.pd, b.input.pd);
  }

  lemma WriteIsUnseen(pd: PdSafety.PdWorld, a: PdSafety.PdAction)
    requires PdSafety.PdSafe(pd) && PdSafety.PdEnabled(pd, a) && a.PdPass?
    requires pd.pd.ss.status.observedGeneration.Some?
    requires pd.pd.ss.status.observedGeneration.value <= pd.pd.ss.generation
    ensures var after := PdSafety.PdStep(pd, a).pd.ss;
            after == pd.pd.ss || StatefulSetIsUpgrading(after)
  {
    PdSafety.PassOutcome(pd, a);
    var after := PdSafety.PdStep(pd, a).pd.ss;
    if after != pd.pd.ss {
      UnseenWriteIsUpgrade(pd.pd.ss, after.spec);
    }
  }

  lemma UpgradeIsFound(pd: PdMembers.Pd, desired: Desired, input: PdMembers.PdInput)
    requires Lists(input.listing, pd.pods) && StatefulSetIsUpgrading(pd.ss)
    ensures var (after, error) := PdMembers.Synced(pd, desired, input);
            error.None? ==> after.status.phase == UpgradePhase
  {
  }

  // ---------------------------------------------------------------------------------------------
  // Two rejected writes
  // ---------------------------------------------------------------------------------------------

  /** A pass without faults but for the write of the store set. */
  ghost function RejectingPass(w: World, pd: PdSafety.PdAction, listing: seq<int>, proxies: seq<int>): Action
    requires pd.PdPass?
  {
    var store, proxy := w.store.store.ss.spec, w.proxy.ss.spec;
    Pass(ClusterSpec(PdSafety.Count(w.pd), pd.desired, Desired(store.replicas, store.template),
                     Desired(proxy.replicas, proxy.template)),
         PassInput(false, pd.input, StoreLimits.NoFaults(w.store.registry, listing).(write := Rejected),
                   ProxyMembers.ProxyInput(proxies, Delivered), Delivered))
  }

  /** During a PD upgrade it leaves the store set and its pods alone, so an open set stays open. */
  lemma RejectingPassLeaves(w: World, pd: PdSafety.PdAction, listing: seq<int>, proxies: seq<int>)
    requires Safe(w) && pd.PdPass? && PdSafety.PdEnabled(w.pd, pd)
    requires Lists(listing, w.store.store.pods) && Lists(proxies, w.proxy.pods)
    requires var (after, error) := PdMembers.Synced(w.pd.pd, pd.desired, pd.input);
             error.None? && after.status.phase == UpgradePhase
    ensures var a := RejectingPass(w, pd, listing, proxies);
            Enabled(w, a) && Step(w, a).pd == PdSafety.PdStep(w.pd, pd) && StoreOpen(Step(w, a)) == StoreOpen(w)
  {
    var a := RejectingPass(w, pd, listing, proxies);
    PausedStoresClose(w, a);
  }

  lemma RunOnce(w: World, a: Action, rest: seq<Action>)
    requires Enabled(w, a) && Run(Step(w, a), rest)
    ensures Run(w, [a] + rest) && After(w, [a] + rest) == After(Step(w, a), rest)
  {
    assert ([a] + rest)[1..] == rest;
  }

  /** Once PD's new template is written and observed, the next pass opens PD beside the open stores. */
  lemma SecondPassOpens(w: World) returns (a: Action)
    requires Safe(w) && StoreOpen(w) && PdProgress.Observed(w.pd)
    requires forall i :: 0 <= i < PdSafety.Count(w.pd) ==> PdSafety.Healthy(w.pd, i) && !PdSafety.UpToDate(w.pd, i)
    ensures Enabled(w, a) && PdOpen(Step(w, a)) && StoreOpen(Step(w, a))
  {
    var top := PdSafety.Count(w.pd) - 1;
    var members := SomeOrder(w.pd.pd.pods);
    var listing := SomeOrder(w.store.store.pods);
    var proxies := SomeOrder(w.proxy.pods);
    var pd := PdTemplateChange.PassAt(w.pd, members);
    assert !PdSafety.UpToDate(w.pd, top);
    PdTemplateChange.PassLowers(w.pd, members, top);
    a := RejectingPass(w, pd, listing, proxies);
    RejectingPassLeaves(w, pd, listing, proxies);
  }

  /** The stores are open, in the middle of their upgrade, when PD gets a new template: if the writes that would
      close the store set are rejected in two passes, both tiers are open. */
  lemma RejectedWritesOverlap(w: World, template: PodSpec) returns (run: seq<Action>)
    requires Safe(w) && StoreOpen(w) && PdSafety.EpochStart(w.pd)
    requires w.pd.pd.ss.status.updateRevision == w.pd.pd.ss.spec.template != template
    ensures Run(w, run) && |run| == 3 && PdOpen(After(w, run)) && StoreOpen(After(w, run))
  {
    var members := SomeOrder(w.pd.pd.pods);
    var listing := SomeOrder(w.store.store.pods);
    var proxies := SomeOrder(w.proxy.pods);
    var write := PdTemplateChange.WriteAt(w.pd, template, members);
    PdSafety.EpochStartIsSafe(w.pd);
    PdTemplateChange.WriteOutcome(w.pd, template, members);
    RejectingPassLeaves(w, write, listing, proxies);
    var first := RejectingPass(w, write, listing, proxies);
    var w1 := Step(w, first);
    StepKeepsSafe(w, first);
    var w2 := Step(w1, PdEvent(PdSafety.Observe));
    StepKeepsSafe(w1, PdEvent(PdSafety.Observe));
    forall i | 0 <= i < PdSafety.Count(w2.pd)
      ensures PdSafety.Healthy(w2.pd, i) && !PdSafety.UpToDate(w2.pd, i)
    {
      assert PdSafety.On(w.pd, i, w.pd.pd.ss.spec.template) && PdSafety.Healthy(w.pd, i);
    }
    var second := SecondPassOpens(w2);
    RunOnce(w2, second, []);
    RunOnce(w1, PdEvent(PdSafety.Observe), [second] + []);
    RunOnce(w, first, [PdEvent(PdSafety.Observe)] + ([second] + []));
    run := [first] + ([PdEvent(PdSafety.Observe)] + ([second] + []));
  }
}
