/** What a store sync guarantees, and what every run of syncs and Kubernetes steps keeps. */
module StoreSafety {
  import opened Kube
  import opened StoreStatus
  import opened StoreScaler
  import opened StoreMembers

  // ---------------------------------------------------------------------------------------------
  // The descent
  // ---------------------------------------------------------------------------------------------

  /** Ordinal k has a store, its pod is upgraded and running and the store is Up. */
  ghost predicate Passed(k: int, pods: map<int, Pod>, stores: map<int, KVStore>, updateRevision: Revision) {
    && k in pods && pods[k].revision == Some(updateRevision) && pods[k].running
    && StoreAt(stores, k).Some? && stores[StoreAt(stores, k).value].state == Up
  }

  /** Both calls that end the eviction of the store on ordinal k report success. */
  ghost predicate EndReported(k: int, pods: map<int, Pod>, stores: map<int, KVStore>, input: StoreInput)
    requires k in pods && StoreAt(stores, k).Some?
  {
    && (pods[k].evictBegin.Some? ==> OutcomeOf(input.updatePod, k).Reported())
    && OutcomeOf(input.end, StoreAt(stores, k).value).Reported()
  }

  /** Ordinal k does not stop the descent. */
  ghost predicate Cleared(k: int, e: Eviction, stores: map<int, KVStore>, updateRevision: Revision, input: StoreInput) {
    StoreAt(stores, k).Some? ==> Passed(k, e.pods, stores, updateRevision) && EndReported(k, e.pods, stores, input)
  }

  /** The pod of ordinal j has a store and is off the update revision. */
  ghost predicate Due(j: int, pods: map<int, Pod>, stores: map<int, KVStore>, updateRevision: Revision) {
    StoreAt(stores, j).Some? && j in pods && pods[j].revision.Some? && pods[j].revision != Some(updateRevision)
  }

  /** The partition is lowered to j exactly when j is the highest ordinal with a store off the update
      revision, its store is drained or timed out, and every store above is upgraded, running, Up and
      reported as no longer evicting. */
  lemma {:induction false} DescentLowersExactly(i: int, j: int, e: Eviction, stores: map<int, KVStore>,
                                                updateRevision: Revision, input: StoreInput)
    ensures Descent(i, e, stores, updateRevision, input).1 == LowerTo(j)
        <==> && 0 <= j <= i
             && Due(j, e.pods, stores, updateRevision)
             && ReadyToUpgrade(e.pods[j], stores[StoreAt(stores, j).value], input.now)
             && forall k :: j < k <= i ==> Cleared(k, e, stores, updateRevision, input)
    decreases i + 1
  {
    if i >= 0 {
      match StoreAt(stores, i)
      case None =>
        DescentLowersExactly(i - 1, j, e, stores, updateRevision, input);
      case Some(id) =>
        if Passed(i, e.pods, stores, updateRevision) && EndReported(i, e.pods, stores, input) {
          var e1 := Ended(e, id, i, input).0;
          DescentLowersExactly(i - 1, j, e1, stores, updateRevision, input);
          assert forall k :: k != i ==> (k in e.pods <==> k in e1.pods) && (k in e.pods ==> e.pods[k] == e1.pods[k]);
          assert forall k :: j < k < i ==>
              (Cleared(k, e, stores, updateRevision, input) <==> Cleared(k, e1, stores, updateRevision, input));
        } else {
          assert !Cleared(i, e, stores, updateRevision, input);
        }
    }
  }

  /** Equal up to the eviction annotation. */
  ghost predicate SamePods(before: map<int, Pod>, after: map<int, Pod>) {
    && before.Keys == after.Keys
    && forall o :: o in before ==> before[o].revision == after[o].revision && before[o].running == after[o].running
  }

  /** Every store above ordinal j is upgraded, running, Up and not under eviction. */
  ghost predicate SettledAbove(j: int, i: int, e: Eviction, stores: map<int, KVStore>, updateRevision: Revision) {
    forall k :: j < k <= i && StoreAt(stores, k).Some?
      ==> Passed(k, e.pods, stores, updateRevision) && StoreAt(stores, k).value !in e.evicting
  }

  ghost predicate NoneDue(k: int, i: int, pods: map<int, Pod>, stores: map<int, KVStore>, updateRevision: Revision) {
    k <= i && forall m :: k <= m <= i ==> !Due(m, pods, stores, updateRevision)
  }

  /** The descent changes no pod beyond its annotation. */
  lemma {:induction false} DescentKeepsPods(i: int, e: Eviction, stores: map<int, KVStore>, updateRevision: Revision,
                                            input: StoreInput)
    ensures SamePods(e.pods, Descent(i, e, stores, updateRevision, input).0.pods)
    decreases i + 1
  {
    if i >= 0 {
      match StoreAt(stores, i)
      case None => DescentKeepsPods(i - 1, e, stores, updateRevision, input);
      case Some(id) =>
        if Passed(i, e.pods, stores, updateRevision) && EndReported(i, e.pods, stores, input) {
          DescentKeepsPods(i - 1, Ended(e, id, i, input).0, stores, updateRevision, input);
        }
    }
  }

  /** Passing ordinal i, its eviction ended, leaves the pods below as they were. */
  lemma EndedBelow(i: int, id: int, e: Eviction, stores: map<int, KVStore>, updateRevision: Revision, input: StoreInput)
    requires Passed(i, e.pods, stores, updateRevision) && StoreAt(stores, i) == Some(id)
    requires EndReported(i, e.pods, stores, input)
    ensures var (e0, error) := Ended(e, id, i, input);
            && error.None? && SamePods(e.pods, e0.pods) && e0.evicting == e.evicting - {id}
            && (forall m :: m != i ==>
              (Due(m, e0.pods, stores, updateRevision) <==> Due(m, e.pods, stores, updateRevision)))
            && !Due(i, e.pods, stores, updateRevision)
  {
    var e0 := Ended(e, id, i, input).0;
    assert forall k :: k != i ==> (k in e.pods <==> k in e0.pods) && (k in e.pods ==> e.pods[k] == e0.pods[k]);
  }

  /** The only store the descent puts under eviction is that of the highest due ordinal, and it does so, or
      lowers the partition, only when every store above is settled. */
  lemma {:induction false} DescentBegins(i: int, e: Eviction, stores: map<int, KVStore>, updateRevision: Revision,
                                         input: StoreInput)
    requires UniquePods(stores)
    ensures var (e1, d) := Descent(i, e, stores, updateRevision, input);
            && (forall id :: id in e1.evicting && id !in e.evicting ==>
                  exists j :: 0 <= j <= i && StoreAt(stores, j) == Some(id) && Due(j, e.pods, stores, updateRevision)
                              && SettledAbove(j, i, e1, stores, updateRevision))
            && (d.LowerTo? ==> e1.evicting <= e.evicting && SettledAbove(d.ordinal, i, e1, stores, updateRevision))
    decreases i + 1
  {
    if i >= 0 {
      var (e1, d) := Descent(i, e, stores, updateRevision, input);
      match StoreAt(stores, i)
      case None =>
        DescentBegins(i - 1, e, stores, updateRevision, input);
        assert forall j :: SettledAbove(j, i - 1, e1, stores, updateRevision) ==>
            SettledAbove(j, i, e1, stores, updateRevision);
      case Some(id) =>
        if Passed(i, e.pods, stores, updateRevision) && EndReported(i, e.pods, stores, input) {
          var e0 := Ended(e, id, i, input).0;
          EndedBelow(i, id, e, stores, updateRevision, input);
          DescentKeepsPods(i - 1, e0, stores, updateRevision, input);
          DescentBegins(i - 1, e0, stores, updateRevision, input);
          assert forall j :: StoreAt(stores, j) == Some(id) ==> j == i;
          assert id !in e1.evicting && Passed(i, e1.pods, stores, updateRevision);
          assert forall j :: SettledAbove(j, i - 1, e1, stores, updateRevision) ==>
              SettledAbove(j, i, e1, stores, updateRevision);
        } else {
          assert forall a :: a in e1.evicting && a !in e.evicting ==> a == id && Due(i, e.pods, stores, updateRevision);
          assert SettledAbove(i, i, e1, stores, updateRevision);
        }
    }
  }

  /** The descent ends the eviction of stores above every due ordinal only. */
  lemma {:induction false} DescentEnds(i: int, e: Eviction, stores: map<int, KVStore>, updateRevision: Revision,
                                       input: StoreInput)
    ensures var e1 := Descent(i, e, stores, updateRevision, input).0;
            forall id :: id in e.evicting && id !in e1.evicting ==>
              exists k :: StoreAt(stores, k) == Some(id) && NoneDue(k, i, e.pods, stores, updateRevision)
    decreases i + 1
  {
    if i >= 0 {
      var e1 := Descent(i, e, stores, updateRevision, input).0;
      match StoreAt(stores, i)
      case None =>
        DescentEnds(i - 1, e, stores, updateRevision, input);
        assert forall k :: NoneDue(k, i - 1, e.pods, stores, updateRevision) ==>
            NoneDue(k, i, e.pods, stores, updateRevision);
      case Some(id) =>
        if Passed(i, e.pods, stores, updateRevision) && EndReported(i, e.pods, stores, input) {
          var e0 := Ended(e, id, i, input).0;
          EndedBelow(i, id, e, stores, updateRevision, input);
          DescentEnds(i - 1, e0, stores, updateRevision, input);
          assert forall k :: NoneDue(k, i - 1, e0.pods, stores, updateRevision) ==>
              NoneDue(k, i, e.pods, stores, updateRevision);
          assert NoneDue(i, i, e.pods, stores, updateRevision);
        } else {
          assert e1.evicting != e.evicting && e1.evicting <= e.evicting ==>
              NoneDue(i, i, e.pods, stores, updateRevision);
        }
    }
  }

  /** What the descent does to pods and evictions, whichever of its calls fail. */
  lemma DescentEvicts(i: int, e: Eviction, stores: map<int, KVStore>, updateRevision: Revision, input: StoreInput)
    requires UniquePods(stores)
    ensures var (e1, d) := Descent(i, e, stores, updateRevision, input);
            && SamePods(e.pods, e1.pods)
            && (forall id :: id in e1.evicting && id !in e.evicting ==>
                  exists j :: 0 <= j <= i && StoreAt(stores, j) == Some(id) && Due(j, e.pods, stores, updateRevision)
                              && SettledAbove(j, i, e1, stores, updateRevision))
            && (d.LowerTo? ==> e1.evicting <= e.evicting && SettledAbove(d.ordinal, i, e1, stores, updateRevision))
            && (forall id :: id in e.evicting && id !in e1.evicting ==>
                  exists k :: StoreAt(stores, k) == Some(id) && NoneDue(k, i, e.pods, stores, updateRevision))
  {
    DescentKeepsPods(i, e, stores, updateRevision, input);
    DescentBegins(i, e, stores, updateRevision, input);
    DescentEnds(i, e, stores, updateRevision, input);
  }

  /** Only the pod of a store under eviction is annotated. */
  ghost predicate MarkedIfEvicted(e: Eviction, stores: map<int, KVStore>) {
    forall k :: k in e.pods && e.pods[k].evictBegin.Some? ==>
      StoreAt(stores, k).Some? && StoreAt(stores, k).value in e.evicting
  }

  /** So the descent leaves it, since PD is asked before the annotation is set and after it is removed. */
  lemma {:induction false} DescentMarks(i: int, e: Eviction, stores: map<int, KVStore>, updateRevision: Revision,
                                        input: StoreInput)
    requires UniquePods(stores) && MarkedIfEvicted(e, stores)
    ensures MarkedIfEvicted(Descent(i, e, stores, updateRevision, input).0, stores)
    decreases i + 1
  {
    if i >= 0 {
      match StoreAt(stores, i)
      case None => DescentMarks(i - 1, e, stores, updateRevision, input);
      case Some(id) =>
        assert forall k :: StoreAt(stores, k) == Some(id) ==> k == i;
        assert MarkedIfEvicted(Ended(e, id, i, input).0, stores);
        DescentMarks(i - 1, Ended(e, id, i, input).0, stores, updateRevision, input);
    }
  }

  // ---------------------------------------------------------------------------------------------
  // The cluster around the store sync
  // ---------------------------------------------------------------------------------------------

  /** The store tier with the list of stores PD keeps. */
  datatype StoreWorld = StoreWorld(store: Store, registry: seq<StoreInfo>)

  ghost predicate RegistryOk(registry: seq<StoreInfo>) {
    && DistinctIds(registry)
    && forall j, k :: 0 <= j < k < |registry| && registry[j].stats.Some? && registry[k].stats.Some?
         ==> registry[j].pod != registry[k].pod
  }

  /** PD lists store `id` on the pod of ordinal i. */
  ghost predicate Registered(registry: seq<StoreInfo>, id: int, i: int) {
    exists k :: Reports(registry, k, id) && registry[k].pod == PodName(StoreTier, i)
  }

  ghost predicate Tracked(registry: seq<StoreInfo>, i: int) {
    exists id :: Registered(registry, id, i)
  }

  ghost predicate On(store: Store, i: int, rev: Revision) {
    i in store.pods && store.pods[i].revision == Some(rev)
  }

  /** The pod of ordinal i runs the set's current template. */
  ghost predicate UpToDate(store: Store, i: int) {
    On(store, i, store.ss.spec.template)
  }

  /** A sync's view of the stores is PD's list. */
  lemma RegistryView(registry: seq<StoreInfo>, previous: map<int, KVStore>, now: Time)
    requires RegistryOk(registry)
    ensures var stores := Stores(registry, previous, now);
            && UniquePods(stores)
            && (forall id, i :: OnPod(stores, id, i) <==> Registered(registry, id, i))
            && (forall id, i :: StoreAt(stores, i) == Some(id) <==> Registered(registry, id, i))
  {
    var stores := Stores(registry, previous, now);
    forall id
      ensures id in stores ==> exists k :: Reports(registry, k, id) && stores[id].pod == registry[k].pod
      ensures forall k :: Reports(registry, k, id) ==> id in stores && stores[id].pod == registry[k].pod
    {
      StoresKeys(registry, previous, now, id);
      forall k | Reports(registry, k, id)
        ensures id in stores && stores[id].pod == registry[k].pod
      {
        StoresAt(registry, previous, now, k);
      }
    }
    forall a, b | a in stores && b in stores && a != b
      ensures stores[a].pod != stores[b].pod
    {
      var j :| Reports(registry, j, a) && stores[a].pod == registry[j].pod;
      var k :| Reports(registry, k, b) && stores[b].pod == registry[k].pod;
      assert j < k || k < j;
    }
    forall id, i
      ensures StoreAt(stores, i) == Some(id) <==> OnPod(stores, id, i)
    {
    }
  }

  // ---------------------------------------------------------------------------------------------
  // The invariant
  // ---------------------------------------------------------------------------------------------

  /** The pods with a store are pods of the set and carry a revision label. */
  ghost predicate PodsKnown(w: StoreWorld) {
    forall i :: Tracked(w.registry, i) ==>
      && 0 <= i < w.store.ss.spec.replicas && i < w.store.ss.status.replicas
      && i in w.store.pods && w.store.pods[i].revision.Some?
  }

  /** Among the ordinals with a store, those that run the current template form a suffix. */
  ghost predicate UpgradedSuffix(w: StoreWorld) {
    forall i, k :: i < k && Tracked(w.registry, i) && Tracked(w.registry, k) && UpToDate(w.store, i) ==>
        UpToDate(w.store, k)
  }

  /** Everything with a store above the partition has been rolled. */
  ghost predicate RolledAbovePartition(w: StoreWorld) {
    forall i :: Tracked(w.registry, i) && i > w.store.ss.spec.partition ==> UpToDate(w.store, i)
  }

  /** Ordinal j is the highest with a store whose pod is off the revision. */
  ghost predicate HighestOff(w: StoreWorld, j: int, rev: Revision) {
    && Tracked(w.registry, j) && !On(w.store, j, rev)
    && forall k :: k > j && Tracked(w.registry, k) ==> On(w.store, k, rev)
  }

  /** A descent may stop at ordinal j under the template: every pod above runs it, and no store below is under
      eviction. */
  ghost predicate StopsSafely(w: StoreWorld, j: int, template: Revision) {
    && (forall k :: k > j && Tracked(w.registry, k) ==> On(w.store, k, template))
    && forall a, m :: a in w.store.evicting && Registered(w.registry, a, m) ==> j <= m
  }

  /** The set's status names the current template, or the descent it leads to may stop where it does. */
  ghost predicate StatusFresh(w: StoreWorld) {
    var ss := w.store.ss;
    || ss.status.updateRevision == ss.spec.template
    || forall j :: HighestOff(w, j, ss.status.updateRevision) ==> StopsSafely(w, j, ss.spec.template)
  }

  /** At most one store is under leader eviction, and every pod above it with a store is up to date. */
  ghost predicate OneEviction(w: StoreWorld) {
    && (forall a, b :: a in w.store.evicting && b in w.store.evicting ==> a == b)
    && (forall a :: a in w.store.evicting ==> exists i :: EvictedAt(w, a, i))
  }

  ghost predicate EvictedAt(w: StoreWorld, id: int, i: int) {
    Registered(w.registry, id, i) && forall k :: k > i && Tracked(w.registry, k) ==> UpToDate(w.store, k)
  }

  ghost predicate EvictedOn(w: StoreWorld, i: int) {
    exists a :: a in w.store.evicting && Registered(w.registry, a, i)
  }

  /** A pod is annotated only while its store is under eviction. */
  ghost predicate AnnotatedIfEvicted(w: StoreWorld) {
    forall i :: i in w.store.pods && w.store.pods[i].evictBegin.Some? ==> EvictedOn(w, i)
  }

  ghost predicate StoreSafe(w: StoreWorld) {
    && RegistryOk(w.registry) && PodsKnown(w) && OperatorOwned(w.store.ss)
    && UpgradedSuffix(w) && RolledAbovePartition(w) && StatusFresh(w) && OneEviction(w) && AnnotatedIfEvicted(w)
    && Fresh(w.store.ss.spec.replicas, w.store.pvcs)
  }

  /** A template may be written now: the pods that run it are a suffix, with every pod above a store under
      eviction among them, and the status leads no descent past a pod that does not run it, or below which a
      store is under eviction. TemplateRunExact shows that this is exactly what later runs need. */
  ghost predicate Retemplatable(w: StoreWorld, template: PodSpec) {
    && (forall i, k :: i < k && Tracked(w.registry, i) && Tracked(w.registry, k) && On(w.store, i, template) ==>
      On(w.store, k, template))
    && (forall a, m, k :: a in w.store.evicting && Registered(w.registry, a, m) && Tracked(w.registry, k) && k > m
          ==> On(w.store, k, template))
    && (|| w.store.ss.status.updateRevision == template
        || forall j :: HighestOff(w, j, w.store.ss.status.updateRevision) ==> StopsSafely(w, j, template))
  }

  /** Ordinal i has a store and its pod or its store is new. It fits if its pod is up to date when it sits
      above the partition, above a pod that is, or above a store under eviction; and if, once it is up to
      date, so is every pod above it. */
  ghost predicate Fits(w: StoreWorld, i: int) {
    var store := w.store;
    && (i > store.ss.spec.partition ==> UpToDate(store, i))
    && (forall k :: k < i && Tracked(w.registry, k) && UpToDate(store, k) ==> UpToDate(store, i))
    && (forall a, m :: a in store.evicting && Registered(w.registry, a, m) && m < i ==> UpToDate(store, i))
    && (forall k :: k > i && Tracked(w.registry, k) && UpToDate(store, i) ==> UpToDate(store, k))
  }

  // ---------------------------------------------------------------------------------------------
  // Runs
  // ---------------------------------------------------------------------------------------------

  datatype StoreAction =
    | StorePass(pdPhase: Phase, pdAvailable: bool, desired: Desired, input: StoreInput)
      // The StatefulSet controller takes notice of the spec.
    | Observe
      // Any other change of the set's status.
    | StatusDrift(status: SetStatus)
      // The StatefulSet controller rolls a pod at or above the partition.
    | Replace(ordinal: int, running: bool)
    | PodStarted(ordinal: int, running: bool)
    | PodCreated(ordinal: int, pod: Pod)
      // A pod is lost and made anew: on the current revision below the partition, on the template from there on.
    | PodRecreated(ordinal: int, running: bool)
    | ClaimFor(ordinal: int)
      // Leaders move, stores go up and down, stores leave or join PD's list.
    | RegistryChange(registry: seq<StoreInfo>)

  ghost predicate PassEnabled(w: StoreWorld, a: StoreAction)
    requires a.StorePass?
  {
    && Lists(a.input.listing, w.store.pods)
    && (a.input.infos.Some? ==> a.input.infos.value == w.registry)
    && a.desired.replicas >= w.store.ss.spec.replicas
    && (a.pdPhase == NormalPhase && a.desired.template != w.store.ss.spec.template ==>
      Retemplatable(w, a.desired.template))
  }

  /** A list PD may come to keep: a listed store has a known pod, and a store under eviction stays on its pod. */
  ghost predicate Listable(w: StoreWorld, registry: seq<StoreInfo>) {
    && RegistryOk(registry) && PodsKnown(w.(registry := registry))
    && forall id, i :: id in w.store.evicting && Registered(w.registry, id, i) ==> Registered(registry, id, i)
  }

  function Recreated(store: Store, i: int, running: bool): Store {
    var revision := if i < store.ss.spec.partition then store.ss.status.currentRevision else store.ss.spec.template;
    store.(pods := store.pods[i := Pod(Some(revision), running, false, None)])
  }

  ghost predicate StoreEnabled(w: StoreWorld, a: StoreAction) {
    match a
    case StorePass(_, _, _, _) => PassEnabled(w, a)
    case Observe => true
    case StatusDrift(status) =>
      && status.updateRevision == w.store.ss.status.updateRevision
      && forall i :: Tracked(w.registry, i) ==> i < status.replicas
    case Replace(i, _) =>
      i in w.store.pods && i >= w.store.ss.spec.partition && !UpToDate(w.store, i)
    case PodStarted(i, _) => i in w.store.pods
    case PodCreated(i, pod) => i !in w.store.pods && i < w.store.ss.spec.replicas && pod.evictBegin.None?
    case PodRecreated(i, running) =>
      && i in w.store.pods
      && var v := w.(store := Recreated(w.store, i, running));
         i < w.store.ss.spec.partition ==>
           (StatusFresh(w) ==> StatusFresh(v)) && (Tracked(w.registry, i) ==> Fits(v, i))
    case ClaimFor(o) => VolumeEnabled(Volumes(w.store.ss.spec.replicas, w.store.pvcs), ClaimCreated(o))
    case RegistryChange(registry) =>
      && Listable(w, registry)
      && var v := w.(registry := registry);
         (StatusFresh(w) ==> StatusFresh(v)) && forall i :: Tracked(registry, i) && !Tracked(w.registry, i) ==>
           Fits(v, i)
  }

  /** The action makes sense in the world, whether or not the assumptions of StoreEnabled hold. */
  ghost predicate Applicable(w: StoreWorld, a: StoreAction) {
    && (a.StorePass? ==> Lists(a.input.listing, w.store.pods))
    && (a.PodStarted? ==> a.ordinal in w.store.pods)
  }

  ghost function StoreStep(w: StoreWorld, a: StoreAction): StoreWorld
    requires Applicable(w, a)
  {
    var s := w.store;
    match a
    case StorePass(pdPhase, pdAvailable, desired, input) =>
      w.(store := Synced(s, pdPhase, pdAvailable, desired, input).0)
    case Observe =>
      w.(store := s.(ss := s.ss.(status := s.ss.status.(updateRevision := s.ss.spec.template,
                                                        observedGeneration := Some(s.ss.generation)))))
    case StatusDrift(status) => w.(store := s.(ss := s.ss.(status := status)))
    case Replace(i, running) =>
      w.(store := s.(pods := s.pods[i := Pod(Some(s.ss.spec.template), running, false, None)]))
    case PodStarted(i, running) => w.(store := s.(pods := s.pods[i := s.pods[i].(running := running)]))
    case PodCreated(i, pod) => w.(store := s.(pods := s.pods[i := pod]))
    case PodRecreated(i, running) => w.(store := Recreated(s, i, running))
    case ClaimFor(o) => w.(store := s.(pvcs := s.pvcs[o := Pvc(None)]))
    case RegistryChange(registry) => w.(registry := registry)
  }

  // ---------------------------------------------------------------------------------------------
  // Every step keeps the invariant
  // ---------------------------------------------------------------------------------------------

  /** A due ordinal under settled ones is the highest off the revision the status names: everything above is up
      to date and not under eviction, and nothing below is under eviction. */
  lemma SettledIsUpToDate(w: StoreWorld, stores: map<int, KVStore>, j: int, e1: Eviction)
    requires StoreSafe(w)
    requires forall id, i :: StoreAt(stores, i) == Some(id) <==> Registered(w.registry, id, i)
    requires Due(j, w.store.pods, stores, w.store.ss.status.updateRevision)
    requires SamePods(w.store.pods, e1.pods)
    requires SettledAbove(j, w.store.ss.status.replicas - 1, e1, stores, w.store.ss.status.updateRevision)
    ensures HighestOff(w, j, w.store.ss.status.updateRevision)
    ensures StopsSafely(w, j, w.store.ss.spec.template)
    ensures forall k, id :: k > j && Registered(w.registry, id, k) ==> UpToDate(w.store, k) && id !in e1.evicting
  {
    var update := w.store.ss.status.updateRevision;
    assert Registered(w.registry, StoreAt(stores, j).value, j);
    forall k, id | k > j && Registered(w.registry, id, k)
      ensures On(w.store, k, update) && id !in e1.evicting
    {
      assert Tracked(w.registry, k);
      assert StoreAt(stores, k) == Some(id);
    }
    assert HighestOff(w, j, update);
    if update == w.store.ss.spec.template {
      forall a, m | a in w.store.evicting && Registered(w.registry, a, m)
        ensures j <= m
      {
        var at :| EvictedAt(w, a, at);
        assert at == m;
        assert !UpToDate(w.store, j);
      }
    }
  }

  /** There is one highest ordinal off a revision at most. */
  lemma HighestOffUnique(w: StoreWorld, i: int, j: int, rev: Revision)
    requires HighestOff(w, i, rev) && HighestOff(w, j, rev)
    ensures i == j
  {
  }

  /** The world with the pods and evictions a descent leaves. */
  function Evicting(w: StoreWorld, e: Eviction): StoreWorld {
    w.(store := w.store.(pods := e.pods, evicting := e.evicting))
  }

  /** What the invariant asks of pods and evictions, the set being as it is. */
  ghost predicate Orderly(w: StoreWorld) {
    OneEviction(w) && AnnotatedIfEvicted(w) && StatusFresh(w)
  }

  /** The descent of a safe world leaves one eviction at most, and a partition it lowers has nothing unrolled
      above it. */
  lemma DescentIsSafe(w: StoreWorld, stores: map<int, KVStore>, input: StoreInput)
    requires StoreSafe(w)
    requires UniquePods(stores) && forall id, i :: StoreAt(stores, i) == Some(id) <==> Registered(w.registry, id, i)
    ensures var (e1, decision) := Descent(w.store.ss.status.replicas - 1, Eviction(w.store.pods, w.store.evicting),
                                          stores, w.store.ss.status.updateRevision, input);
            && SamePods(w.store.pods, e1.pods) && Orderly(Evicting(w, e1))
            && (decision.LowerTo? ==>
                  && HighestOff(w, decision.ordinal, w.store.ss.status.updateRevision)
                  && forall i :: Tracked(w.registry, i) && i > decision.ordinal ==> UpToDate(w.store, i))
  {
    var update, n := w.store.ss.status.updateRevision, w.store.ss.status.replicas - 1;
    var e0 := Eviction(w.store.pods, w.store.evicting);
    var (e1, decision) := Descent(n, e0, stores, update, input);
    DescentEvicts(n, e0, stores, update, input);
    forall id | id in e1.evicting && id !in w.store.evicting
      ensures exists j :: BegunAt(w, stores, e1, id, j)
    {
      var j :| 0 <= j <= n && StoreAt(stores, j) == Some(id) && Due(j, e0.pods, stores, update)
          && SettledAbove(j, n, e1, stores, update);
      assert BegunAt(w, stores, e1, id, j);
    }
    DescentLeavesOne(w, stores, e1);
    DescentLeavesFresh(w, stores, e1);
    DescentLeavesMarks(w, stores, input);
    if decision.LowerTo? {
      DescentLowersExactly(n, decision.ordinal, e0, stores, update, input);
      SettledIsUpToDate(w, stores, decision.ordinal, e1);
    }
  }

  /** Every store the descent puts under eviction sits on a due ordinal under settled ones. */
  ghost predicate BegunWhenDue(w: StoreWorld, stores: map<int, KVStore>, e1: Eviction) {
    forall id :: id in e1.evicting && id !in w.store.evicting ==> exists j :: BegunAt(w, stores, e1, id, j)
  }

  ghost predicate BegunAt(w: StoreWorld, stores: map<int, KVStore>, e1: Eviction, id: int, j: int) {
    && 0 <= j < w.store.ss.status.replicas && StoreAt(stores, j) == Some(id)
    && Due(j, w.store.pods, stores, w.store.ss.status.updateRevision)
    && SettledAbove(j, w.store.ss.status.replicas - 1, e1, stores, w.store.ss.status.updateRevision)
  }

  lemma DescentLeavesOne(w: StoreWorld, stores: map<int, KVStore>, e1: Eviction)
    requires StoreSafe(w)
    requires forall id, i :: StoreAt(stores, i) == Some(id) <==> Registered(w.registry, id, i)
    requires SamePods(w.store.pods, e1.pods) && BegunWhenDue(w, stores, e1)
    ensures OneEviction(Evicting(w, e1))
  {
    var w1 := Evicting(w, e1);
    assert forall i :: UpToDate(w.store, i) <==> UpToDate(w1.store, i);
    forall a, b | a in e1.evicting && b in e1.evicting
      ensures a == b
    {
      if a !in w.store.evicting { BegunAlone(w, stores, e1, a, b); }
      if b !in w.store.evicting { BegunAlone(w, stores, e1, b, a); }
    }
    forall a | a in e1.evicting
      ensures exists i :: EvictedAt(w1, a, i)
    {
      if a in w.store.evicting {
        var i :| EvictedAt(w, a, i);
        assert EvictedAt(w1, a, i);
      } else {
        var j :| BegunAt(w, stores, e1, a, j);
        SettledIsUpToDate(w, stores, j, e1);
        assert EvictedAt(w1, a, j);
      }
    }
  }

  lemma DescentLeavesFresh(w: StoreWorld, stores: map<int, KVStore>, e1: Eviction)
    requires StoreSafe(w)
    requires forall id, i :: StoreAt(stores, i) == Some(id) <==> Registered(w.registry, id, i)
    requires SamePods(w.store.pods, e1.pods) && BegunWhenDue(w, stores, e1)
    ensures StatusFresh(Evicting(w, e1))
  {
    var w1, update := Evicting(w, e1), w.store.ss.status.updateRevision;
    SameOff(w, w1);
    forall j, a, m | HighestOff(w1, j, update) && update != w.store.ss.spec.template
                     && a in e1.evicting && Registered(w.registry, a, m)
      ensures j <= m
    {
      assert HighestOff(w, j, update);
      if a !in w.store.evicting {
        var at :| BegunAt(w, stores, e1, a, at);
        SettledIsUpToDate(w, stores, at, e1);
        HighestOffUnique(w, at, j, update);
        assert Registered(w.registry, a, at);
      }
    }
  }

  lemma DescentLeavesMarks(w: StoreWorld, stores: map<int, KVStore>, input: StoreInput)
    requires StoreSafe(w) && UniquePods(stores)
    requires forall id, i :: StoreAt(stores, i) == Some(id) <==> Registered(w.registry, id, i)
    ensures var e0 := Eviction(w.store.pods, w.store.evicting);
            var e1 := Descent(w.store.ss.status.replicas - 1, e0, stores, w.store.ss.status.updateRevision, input).0;
            AnnotatedIfEvicted(Evicting(w, e1))
  {
    var e0, update := Eviction(w.store.pods, w.store.evicting), w.store.ss.status.updateRevision;
    forall k | k in e0.pods && e0.pods[k].evictBegin.Some?
      ensures StoreAt(stores, k).Some? && StoreAt(stores, k).value in e0.evicting
    {
      assert EvictedOn(w, k);
      var a :| a in w.store.evicting && Registered(w.registry, a, k);
      assert StoreAt(stores, k) == Some(a);
    }
    DescentMarks(w.store.ss.status.replicas - 1, e0, stores, update, input);
    var e1 := Descent(w.store.ss.status.replicas - 1, e0, stores, update, input).0;
    forall k | k in e1.pods && e1.pods[k].evictBegin.Some?
      ensures EvictedOn(Evicting(w, e1), k)
    {
      assert Registered(w.registry, StoreAt(stores, k).value, k);
    }
  }

  /** An eviction that was there before and is still there sits on the due ordinal itself. */
  lemma OldEvictionAtDue(w: StoreWorld, stores: map<int, KVStore>, e1: Eviction, a: int, j: int, b: int)
    requires StoreSafe(w)
    requires forall id, i :: StoreAt(stores, i) == Some(id) <==> Registered(w.registry, id, i)
    requires SamePods(w.store.pods, e1.pods) && BegunAt(w, stores, e1, a, j)
    requires b in w.store.evicting && b in e1.evicting
    ensures Registered(w.registry, b, j)
  {
    SettledIsUpToDate(w, stores, j, e1);
    var m :| EvictedAt(w, b, m);
    assert m == j;
  }

  /** A store put under eviction is the only one: any other would sit above, where evictions have ended, and
      none sits below. */
  lemma BegunAlone(w: StoreWorld, stores: map<int, KVStore>, e1: Eviction, a: int, b: int)
    requires StoreSafe(w)
    requires forall id, i :: StoreAt(stores, i) == Some(id) <==> Registered(w.registry, id, i)
    requires SamePods(w.store.pods, e1.pods) && BegunWhenDue(w, stores, e1)
    requires a in e1.evicting && a !in w.store.evicting && b in e1.evicting
    ensures a == b
  {
    var j :| BegunAt(w, stores, e1, a, j);
    SettledIsUpToDate(w, stores, j, e1);
    assert Registered(w.registry, a, j);
    if b in w.store.evicting {
      OldEvictionAtDue(w, stores, e1, a, j, b);
    } else {
      var k :| BegunAt(w, stores, e1, b, k);
      SettledIsUpToDate(w, stores, k, e1);
      HighestOffUnique(w, j, k, w.store.ss.status.updateRevision);
      assert Registered(w.registry, b, k);
    }
  }

  /** The partition leaves no unrolled pod above it. */
  ghost predicate PartitionFits(w: StoreWorld, partition: int) {
    forall i :: Tracked(w.registry, i) && i > partition ==> UpToDate(w.store, i)
  }

  /** What the upgrader leaves behind in a safe world. */
  lemma UpgradedIsSafe(w: StoreWorld, store1: Store, pdPhase: Phase, draft: SetSpec, input: StoreInput)
    requires StoreSafe(w)
    requires store1 == w.store.(status := store1.status)
    requires UniquePods(store1.status.stores)
    requires forall id, i :: StoreAt(store1.status.stores, i) == Some(id) <==> Registered(w.registry, id, i)
    requires draft.partition >= w.store.ss.spec.replicas
    ensures var (store2, draft2, error) := Upgraded(store1, pdPhase, draft, input);
            && store2 == store1.(pods := store2.pods, evicting := store2.evicting, status := store2.status)
            && SamePods(w.store.pods, store2.pods)
            && Orderly(Evicting(w, Eviction(store2.pods, store2.evicting)))
            && draft2.replicas == draft.replicas
            && (pdPhase == UpgradePhase && error.None? ==> draft2.template == w.store.ss.spec.template)
            && (pdPhase == NormalPhase ==> draft2.template == draft.template)
            && (error.None? ==> PartitionFits(w, draft2.partition))
            && (draft2.partition == draft.partition || draft2.template == w.store.ss.spec.template)
            && (draft2.template != w.store.ss.spec.template ==>
              store2.pods == w.store.pods && store2.evicting == w.store.evicting)
  {
    assert Evicting(w, Eviction(w.store.pods, w.store.evicting)) == w;
    if pdPhase == NormalPhase && store1.status.synced && TemplateEqual(draft.template, w.store.ss) {
      DescentIsSafe(w, store1.status.stores, input);
    }
  }

  /** A store sync keeps the invariant, whichever of its calls fail. */
  lemma PassKeepsSafe(w: StoreWorld, a: StoreAction)
    requires StoreSafe(w) && a.StorePass? && PassEnabled(w, a)
    ensures StoreSafe(StoreStep(w, a))
  {
    var StorePass(pdPhase, pdAvailable, desired, input) := a;
    var s := w.store;
    var after := StoreStep(w, a);
    if !pdAvailable || input.serviceFails {
      assert after == w;
      return;
    }
    var (status, failure) := SyncedStatus(s, pdPhase, input);
    var store1 := s.(status := status);
    Unmoved(w, w.(store := store1));
    if failure.Some? {
      return;
    }
    RegistryView(w.registry, s.status.stores, input.now);
    var draft := SetSpec(desired.replicas, desired.template, desired.replicas);
    if !TemplateEqual(draft.template, s.ss) || status.phase == UpgradePhase {
      UpgradedIsSafe(w, store1, pdPhase, draft, input);
      var (store2, draft2, refused) := Upgraded(store1, pdPhase, draft, input);
      var w1 := Evicting(w, Eviction(store2.pods, store2.evicting));
      Unrolled(w, w1);
      Unmoved(w1, w.(store := store2));
      if refused.None? {
        SameWritable(w, w.(store := store2), draft2);
        CommitKeepsSafe(w.(store := store2), draft2, input);
      }
    } else {
      SameWritable(w, w.(store := store1), draft);
      CommitKeepsSafe(w.(store := store1), draft, input);
    }
  }

  /** The draft may be written: the same template and a partition that fits, or one that may be written and the
      default partition. */
  ghost predicate Writable(w: StoreWorld, spec: SetSpec) {
    if spec.template == w.store.ss.spec.template then PartitionFits(w, spec.partition)
    else Retemplatable(w, spec.template) && spec.partition >= w.store.ss.spec.replicas
  }

  lemma SameWritable(w: StoreWorld, v: StoreWorld, spec: SetSpec)
    requires v.registry == w.registry && v.store.ss == w.store.ss && SamePods(w.store.pods, v.store.pods)
    requires Writable(w, spec)
    requires spec.template == w.store.ss.spec.template || v.store.evicting == w.store.evicting
    ensures Writable(v, spec)
  {
    SameOff(w, v);
    assert forall i :: UpToDate(w.store, i) <==> UpToDate(v.store, i);
  }

  lemma CommitKeepsSafe(w: StoreWorld, draft: SetSpec, input: StoreInput)
    requires StoreSafe(w) && Writable(w, draft)
    ensures StoreSafe(w.(store := Committed(w.store, draft, input).0))
  {
    var (store1, draft1, unscaled) := Resized(w.store, draft, input);
    var w1 := w.(store := store1);
    Unmoved(w, w1);
    var after := w.(store := Committed(w.store, draft, input).0);
    if after.store.ss != w.store.ss {
      assert Fresh(draft1.replicas, store1.pvcs);
      SameWritable(w, w1, draft1);
      WriteKeepsSafe(w1, after, draft1);
    }
  }

  /** Stores that join, and pods made anew, keep the invariant exactly when they fit. `newcomers` are their ordinals. */
  ghost predicate Newcomers(w: StoreWorld, v: StoreWorld, newcomers: iset<int>) {
    && RegistryOk(v.registry) && PodsKnown(v) && AnnotatedIfEvicted(v)
    && v.store == w.store.(pods := v.store.pods)
    && (forall id, i :: id in w.store.evicting && Registered(w.registry, id, i) ==> Registered(v.registry, id, i))
    && forall i :: Tracked(v.registry, i) && i !in newcomers ==>
         Tracked(w.registry, i) && i in w.store.pods && v.store.pods[i].revision == w.store.pods[i].revision
  }

  lemma NewcomersFit(w: StoreWorld, v: StoreWorld, newcomers: iset<int>)
    requires StoreSafe(w) && Newcomers(w, v, newcomers)
    ensures StoreSafe(v) <==> StatusFresh(v) && forall i :: i in newcomers && Tracked(v.registry, i) ==> Fits(v, i)
  {
    assert forall i, rev :: Tracked(v.registry, i) && i !in newcomers ==> On(v.store, i, rev) == On(w.store, i, rev);
    assert forall i :: Tracked(v.registry, i) && i !in newcomers ==> UpToDate(v.store, i) == UpToDate(w.store, i);
    if StatusFresh(v) && forall i :: i in newcomers && Tracked(v.registry, i) ==> Fits(v, i) {
      forall a | a in v.store.evicting
        ensures exists m :: EvictedAt(v, a, m)
      {
        var m :| EvictedAt(w, a, m);
        assert EvictedAt(v, a, m);
      }
    }
    if StoreSafe(v) {
      forall i, a, m | a in v.store.evicting && Registered(v.registry, a, m) && m < i && Tracked(v.registry, i)
        ensures UpToDate(v.store, i)
      {
        var at :| EvictedAt(v, a, at);
        assert at == m;
      }
    }
  }

  /** A change of PD's list, and a pod made anew, are changes by newcomers. */
  lemma ListChangeIsNewcomers(w: StoreWorld, registry: seq<StoreInfo>)
    requires StoreSafe(w) && Listable(w, registry)
    ensures Newcomers(w, w.(registry := registry), iset i | Tracked(registry, i) && !Tracked(w.registry, i))
  {
    var v := w.(registry := registry);
    forall i | i in v.store.pods && v.store.pods[i].evictBegin.Some?
      ensures EvictedOn(v, i)
    {
      assert EvictedOn(w, i);
    }
  }

  lemma RecreationIsNewcomer(w: StoreWorld, i: int, running: bool)
    requires StoreSafe(w) && i in w.store.pods
    requires Tracked(w.registry, i) ==> PodsKnown(w)
    ensures Newcomers(w, w.(store := Recreated(w.store, i, running)), iset{i})
  {
    var v := w.(store := Recreated(w.store, i, running));
    forall k | k in v.store.pods && v.store.pods[k].evictBegin.Some?
      ensures EvictedOn(v, k)
    {
      assert EvictedOn(w, k);
    }
  }

  /** What pods are off a revision depends on the list and the pods' revisions only. */
  lemma SameOff(w: StoreWorld, v: StoreWorld)
    requires v.registry == w.registry && SamePods(w.store.pods, v.store.pods)
    ensures forall i, rev :: On(w.store, i, rev) == On(v.store, i, rev)
    ensures forall j, rev :: HighestOff(w, j, rev) == HighestOff(v, j, rev)
    ensures v.store.evicting == w.store.evicting ==> forall j, rev :: StopsSafely(w, j, rev) == StopsSafely(v, j, rev)
  {
    assert forall i, rev :: On(w.store, i, rev) == On(v.store, i, rev);
  }

  /** A step that leaves the set and the pods' revisions alone keeps the invariant. */
  lemma Unrolled(w: StoreWorld, after: StoreWorld)
    requires StoreSafe(w)
    requires after.registry == w.registry && after.store.ss == w.store.ss && SamePods(w.store.pods, after.store.pods)
    requires Orderly(after) && Fresh(after.store.ss.spec.replicas, after.store.pvcs)
    ensures StoreSafe(after)
  {
    assert forall i :: UpToDate(w.store, i) <==> UpToDate(after.store, i);
  }

  /** So does one that leaves pods and evictions alone too. */
  lemma Unmoved(w: StoreWorld, after: StoreWorld)
    requires StoreSafe(w)
    requires after.registry == w.registry && after.store.ss == w.store.ss
    requires after.store.pods == w.store.pods && after.store.evicting == w.store.evicting
    requires Fresh(after.store.ss.spec.replicas, after.store.pvcs)
    ensures StoreSafe(after)
  {
    SameOff(w, after);
    assert forall i :: UpToDate(w.store, i) <==> UpToDate(after.store, i);
    assert forall a, i :: EvictedAt(w, a, i) ==> EvictedAt(after, a, i);
    assert forall i :: EvictedOn(w, i) ==> EvictedOn(after, i);
  }

  /** Writing a set that may be written keeps the invariant. */
  lemma WriteKeepsSafe(w: StoreWorld, after: StoreWorld, spec: SetSpec)
    requires StoreSafe(w)
    requires after == w.(store := w.store.(ss := Applied(w.store.ss, spec)))
    requires w.store.ss.spec.replicas <= spec.replicas && Fresh(spec.replicas, w.store.pvcs)
    requires Writable(w, spec)
    ensures StoreSafe(after)
  {
    SameOff(w, after);
    assert forall i :: EvictedOn(w, i) ==> EvictedOn(after, i);
    assert forall i :: UpToDate(after.store, i) <==> On(w.store, i, spec.template);
    forall a | a in w.store.evicting
      ensures exists m :: EvictedAt(after, a, m)
    {
      var m :| EvictedAt(w, a, m);
      assert EvictedAt(after, a, m);
    }
  }
}
