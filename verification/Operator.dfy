/** One operator pass over the three tiers in order, tier exclusion within a pass, and the safety of
    every run of passes and Kubernetes steps. */
module Operator {
  import opened Kube
  import PdMembers
  import StoreStatus
  import StoreMembers
  import ProxyMembers
  import PdSafety
  import StoreSafety
  import StoreRuns

  datatype Cluster = Cluster(pd: PdMembers.Pd, store: StoreMembers.Store, proxy: ProxyMembers.Proxy)

  /** The CellCluster spec: `pdReplicas` is the member count PDIsAvailable asks for. */
  datatype ClusterSpec = ClusterSpec(pdReplicas: int, pd: Desired, store: Desired, proxy: Desired)

  /** `preludeFails` is an error of the reclaim policy manager or the orphan cleaner, `statusWrite` the
      fate of the write that stores the new status. */
  datatype PassInput = PassInput(preludeFails: bool, pd: PdMembers.PdInput, store: StoreMembers.StoreInput,
                                 proxy: ProxyMembers.ProxyInput, statusWrite: Outcome)

  ghost predicate Listed(c: Cluster, input: PassInput) {
    && Lists(input.pd.listing, c.pd.pods)
    && Lists(input.store.listing, c.store.pods)
    && Lists(input.proxy.listing, c.proxy.pods)
  }

  predicate OthersUpgrading(pd: PdMembers.Pd, store: StoreMembers.Store) {
    pd.status.phase == UpgradePhase || store.status.phase == UpgradePhase
  }

  /** updateCellCluster: each tier in turn; an error ends the pass. */
  ghost function Passed(c: Cluster, spec: ClusterSpec, input: PassInput): (Cluster, Option<Error>)
    requires Listed(c, input)
  {
    if input.preludeFails then (c, Some(CallFailed))
    else
      var (pd, pdError) := PdMembers.Synced(c.pd, spec.pd, input.pd);
      if pdError.Some? then (c.(pd := pd), pdError)
      else
        var available := PdMembers.PdAvailable(pd, spec.pdReplicas);
        var (store, storeError) := StoreMembers.Synced(c.store, pd.status.phase, available, spec.store, input.store);
        if storeError.Some? then (c.(pd := pd, store := store), storeError)
        else
          var (proxy, proxyError) :=
            ProxyMembers.Synced(c.proxy, StoreMembers.StoreAvailable(store), OthersUpgrading(pd, store),
                                spec.proxy, input.proxy);
          (Cluster(pd, store, proxy), proxyError)
  }

  /** The next pass starts from the old status when the new one could not be stored. */
  function Persisted(before: Cluster, after: Cluster, statusWrite: Outcome): Cluster {
    if statusWrite.TookEffect() then after
    else Cluster(after.pd.(status := before.pd.status), after.store.(status := before.store.status),
                 after.proxy.(status := before.proxy.status))
  }

  /** The operator's control loop over one CellCluster. */
  class Operator {
    const pd: PdMembers.PdManager
    const store: StoreMembers.StoreManager
    const proxy: ProxyMembers.ProxyManager

    function State(): Cluster
      reads pd, store, store.scaler, proxy
    {
      Cluster(pd.State(), store.State(), proxy.State())
    }

    constructor (c: Cluster)
      ensures State() == c && fresh(pd) && fresh(store) && fresh(store.scaler) && fresh(proxy)
    {
      pd := new PdMembers.PdManager(c.pd);
      store := new StoreMembers.StoreManager(c.store);
      proxy := new ProxyMembers.ProxyManager(c.proxy);
    }

    method UpdateCellCluster(spec: ClusterSpec, input: PassInput) returns (error: Option<Error>)
      requires Listed(State(), input)
      requires input.store.infos.Some? ==>
                 StoreStatus.UniquePods(StoreStatus.Stores(input.store.infos.value, store.stores, input.store.now))
      modifies pd, store, store.scaler, proxy
      ensures (State(), error) == Passed(old(State()), spec, input)
    {
      if input.preludeFails {
        return Some(CallFailed);
      }
      error := pd.Sync(spec.pd, input.pd);
      if error.Some? {
        return;
      }
      var available := pd.IsAvailable(spec.pdReplicas);
      error := store.Sync(pd.phase, available, spec.store, input.store);
      if error.Some? {
        return;
      }
      var storeAvailable := store.IsAvailable();
      var othersUpgrading := pd.phase == UpgradePhase || store.phase == UpgradePhase;
      error := proxy.Sync(storeAvailable, othersUpgrading, spec.proxy, input.proxy);
    }
  }

  // ---------------------------------------------------------------------------------------------
  // Tier exclusion
  // ---------------------------------------------------------------------------------------------

  /** The set was written, and with a partition that leaves some ordinal open to rolling. */
  ghost predicate WrittenOpen(before: StatefulSet, after: StatefulSet) {
    after != before && after.spec.partition < after.spec.replicas
  }

  /** The set is untouched, or written with its old template and the default partition. */
  ghost predicate Frozen(before: StatefulSet, after: StatefulSet, desired: Desired) {
    after == before || (after.spec.template == before.spec.template && after.spec.partition == desired.replicas)
  }

  lemma PdOpensInUpgrade(pd: PdMembers.Pd, desired: Desired, input: PdMembers.PdInput)
    requires Lists(input.listing, pd.pods)
    requires WrittenOpen(pd.ss, PdMembers.Synced(pd, desired, input).0.ss)
    ensures PdMembers.Synced(pd, desired, input).0.status.phase == UpgradePhase
  {
  }

  lemma StoreFrozen(store: StoreMembers.Store, pdPhase: Phase, available: bool, desired: Desired,
                    input: StoreMembers.StoreInput)
    requires Lists(input.listing, store.pods) && OperatorOwned(store.ss)
    ensures var t := StoreMembers.Synced(store, pdPhase, available, desired, input).0;
            && (pdPhase == UpgradePhase ==> Frozen(store.ss, t.ss, desired))
            && (pdPhase == UpgradePhase && t.ss != store.ss ==>
                  (WrittenOpen(store.ss, t.ss) <==> desired.replicas < store.ss.spec.replicas))
            && (WrittenOpen(store.ss, t.ss) ==>
                  desired.replicas < store.ss.spec.replicas
                    || (pdPhase == NormalPhase && t.status.phase == UpgradePhase))
  {
  }

  lemma ProxyFrozen(proxy: ProxyMembers.Proxy, storeAvailable: bool, others: bool, desired: Desired,
                    input: ProxyMembers.ProxyInput)
    requires Lists(input.listing, proxy.pods) && OperatorOwned(proxy.ss)
    ensures var t := ProxyMembers.Synced(proxy, storeAvailable, others, desired, input).0;
            && (others ==> Frozen(proxy.ss, t.ss, desired))
            && (WrittenOpen(proxy.ss, t.ss) ==> !others)
  {
  }

  /** In one pass: while PD is in its upgrade phase the store set keeps its template and the default
      partition; while PD or the stores are, so does the proxy set; and no pass opens two tiers to
      rolling, unless fewer stores are asked for than run. */
  lemma TierExclusion(c: Cluster, spec: ClusterSpec, input: PassInput)
    requires Listed(c, input)
    requires OperatorOwned(c.store.ss) && OperatorOwned(c.proxy.ss)
    ensures var d := Passed(c, spec, input).0;
            && (d.pd.status.phase == UpgradePhase ==> Frozen(c.store.ss, d.store.ss, spec.store))
            && (OthersUpgrading(d.pd, d.store) ==> Frozen(c.proxy.ss, d.proxy.ss, spec.proxy))
            && !(WrittenOpen(c.pd.ss, d.pd.ss) && WrittenOpen(c.proxy.ss, d.proxy.ss))
            && (spec.store.replicas >= c.store.ss.spec.replicas ==>
                  && !(WrittenOpen(c.pd.ss, d.pd.ss) && WrittenOpen(c.store.ss, d.store.ss))
                  && !(WrittenOpen(c.store.ss, d.store.ss) && WrittenOpen(c.proxy.ss, d.proxy.ss)))
  {
    if !input.preludeFails {
      var (pd, pdError) := PdMembers.Synced(c.pd, spec.pd, input.pd);
      if WrittenOpen(c.pd.ss, pd.ss) {
        PdOpensInUpgrade(c.pd, spec.pd, input.pd);
      }
      if pdError.None? {
        var available := PdMembers.PdAvailable(pd, spec.pdReplicas);
        StoreFrozen(c.store, pd.status.phase, available, spec.store, input.store);
        var (store, storeError) := StoreMembers.Synced(c.store, pd.status.phase, available, spec.store, input.store);
        if storeError.None? {
          ProxyFrozen(c.proxy, StoreMembers.StoreAvailable(store), OthersUpgrading(pd, store), spec.proxy, input.proxy);
        }
      }
    }
  }

  // ---------------------------------------------------------------------------------------------
  // Runs of the whole operator
  // ---------------------------------------------------------------------------------------------

  datatype World = World(pd: PdSafety.PdWorld, store: StoreSafety.StoreWorld, proxy: ProxyMembers.Proxy)

  datatype Action =
    | Pass(spec: ClusterSpec, input: PassInput)
    | PdEvent(pd: PdSafety.PdAction)
    | StoreEvent(store: StoreSafety.StoreAction)
      // Anything may happen to the proxies.
    | ProxyEvent(proxy: ProxyMembers.Proxy)

  function ClusterOf(w: World): Cluster {
    Cluster(w.pd.pd, w.store.store, w.proxy)
  }

  function PdPart(a: Action): PdSafety.PdAction
    requires a.Pass?
  {
    PdSafety.PdPass(a.spec.pd, a.input.pd)
  }

  /** The store sync of a pass, with the PD phase and availability the PD sync left. */
  function StorePart(w: World, a: Action): StoreSafety.StoreAction
    requires a.Pass? && Lists(a.input.pd.listing, w.pd.pd.pods)
  {
    var pd := PdMembers.Synced(w.pd.pd, a.spec.pd, a.input.pd).0;
    StoreSafety.StorePass(pd.status.phase, PdMembers.PdAvailable(pd, a.spec.pdReplicas), a.spec.store, a.input.store)
  }

  predicate ReachesStores(w: World, a: Action)
    requires a.Pass? && Lists(a.input.pd.listing, w.pd.pd.pods)
  {
    !a.input.preludeFails && PdMembers.Synced(w.pd.pd, a.spec.pd, a.input.pd).1.None?
  }

  ghost predicate Enabled(w: World, a: Action) {
    match a
    case Pass(_, input) =>
      && Listed(ClusterOf(w), input) && PdSafety.PdEnabled(w.pd, PdPart(a))
      && (ReachesStores(w, a) ==> StoreSafety.PassEnabled(w.store, StorePart(w, a)))
    case PdEvent(e) => !e.PdPass? && PdSafety.PdEnabled(w.pd, e)
    case StoreEvent(e) => !e.StorePass? && StoreSafety.StoreEnabled(w.store, e)
    case ProxyEvent(_) => true
  }

  ghost function Step(w: World, a: Action): World
    requires Enabled(w, a)
  {
    match a
    case Pass(spec, input) =>
      var c := Persisted(ClusterOf(w), Passed(ClusterOf(w), spec, input).0, input.statusWrite);
      World(w.pd.(pd := c.pd), w.store.(store := c.store), c.proxy)
    case PdEvent(e) => w.(pd := PdSafety.PdStep(w.pd, e))
    case StoreEvent(e) => w.(store := StoreSafety.StoreStep(w.store, e))
    case ProxyEvent(proxy) => w.(proxy := proxy)
  }

  ghost predicate Safe(w: World) {
    PdSafety.PdSafe(w.pd) && StoreSafety.StoreSafe(w.store)
  }

  /** The invariants look at no status the operator keeps, so losing a status write is harmless. */
  lemma SafeIgnoresStatus(pd: PdSafety.PdWorld, pdStatus: PdMembers.PdStatus,
                          store: StoreSafety.StoreWorld, storeStatus: StoreMembers.TierStatus)
    ensures PdSafety.PdSafe(pd) ==> PdSafety.PdSafe(pd.(pd := pd.pd.(status := pdStatus)))
    ensures StoreSafety.StoreSafe(store) ==> StoreSafety.StoreSafe(store.(store := store.store.(status := storeStatus)))
  {
    var pd1 := pd.(pd := pd.pd.(status := pdStatus));
    var store1 := store.(store := store.store.(status := storeStatus));
    assert forall i, rev :: PdSafety.On(pd, i, rev) == PdSafety.On(pd1, i, rev);
    assert forall rev :: PdSafety.AllOn(pd, rev) == PdSafety.AllOn(pd1, rev);
    assert forall i :: PdSafety.UpToDate(pd, i) == PdSafety.UpToDate(pd1, i);
    assert forall i :: PdSafety.Healthy(pd, i) == PdSafety.Healthy(pd1, i);
    if StoreSafety.StoreSafe(store) {
      StoreSafety.Unmoved(store, store1);
    }
  }

  /** A pass whose status is not stored leaves the next pass with the status of all tiers it started from. */
  lemma LostStatusIsKept(w: World, a: Action)
    requires Enabled(w, a) && a.Pass? && a.input.statusWrite == Rejected
    ensures var after := Step(w, a);
            && after.pd.pd.status == w.pd.pd.status && after.store.store.status == w.store.store.status
            && after.proxy.status == w.proxy.status
  {
  }

  lemma StepKeepsSafe(w: World, a: Action)
    requires Safe(w) && Enabled(w, a)
    ensures Safe(Step(w, a))
  {
    match a
    case Pass(spec, input) =>
      var c := Passed(ClusterOf(w), spec, input).0;
      if !input.preludeFails {
        PdSafety.PassKeepsSafe(w.pd, PdPart(a));
        if ReachesStores(w, a) {
          StoreSafety.PassKeepsSafe(w.store, StorePart(w, a));
        }
      }
      SafeIgnoresStatus(w.pd.(pd := c.pd), w.pd.pd.status, w.store.(store := c.store), w.store.store.status);
    case PdEvent(e) =>
      PdSafety.StepKeepsSafe(w.pd, e);
    case StoreEvent(e) =>
      StoreRuns.StepKeepsSafe(w.store, e);
    case ProxyEvent(_) =>
  }

  ghost predicate Run(w: World, run: seq<Action>)
    decreases |run|
  {
    run != [] ==> Enabled(w, run[0]) && Run(Step(w, run[0]), run[1..])
  }

  ghost function After(w: World, run: seq<Action>): World
    requires Run(w, run)
    decreases |run|
  {
    if run == [] then w else After(Step(w, run[0]), run[1..])
  }

  /** In every run of passes and Kubernetes steps from a safe state, whichever calls and status writes
      fail: at most one PD member is down, three members and more keep a healthy quorum, at most one
      store is under leader eviction, PD opens only its highest pod off the template to rolling, and the
      stores upgrade from the top ordinal down. */
  lemma {:induction false} EveryRunIsSafe(w: World, run: seq<Action>)
    requires Safe(w) && Run(w, run)
    ensures var v := After(w, run);
            && Safe(v)
            && (PdSafety.Count(v.pd) >= 3 ==> PdSafety.Quorum(v.pd))
            && |v.store.store.evicting| <= 1
    decreases |run|
  {
    if run != [] {
      StepKeepsSafe(w, run[0]);
      EveryRunIsSafe(Step(w, run[0]), run[1..]);
    } else {
      PdSafety.QuorumInEveryRun(w.pd, []);
      StoreRuns.StoreRunSafe(w.store, []);
    }
  }

  /** So is every run from an ordinary start of an upgrade: all PD members healthy, no store under eviction,
      and the pods of either tier on the one revision its status names. */
  lemma EveryRunFromEpochStart(w: World, run: seq<Action>)
    requires PdSafety.EpochStart(w.pd) && StoreRuns.EpochStart(w.store) && Run(w, run)
    ensures var v := After(w, run);
            && Safe(v)
            && (PdSafety.Count(v.pd) >= 3 ==> PdSafety.Quorum(v.pd))
            && |v.store.store.evicting| <= 1
  {
    PdSafety.EpochStartIsSafe(w.pd);
    StoreRuns.EpochStartIsSafe(w.store);
    EveryRunIsSafe(w, run);
  }
}
