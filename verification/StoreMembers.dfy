/** The store tier: status sync, rolling upgrade with leader eviction, scaling and the write of the
    store StatefulSet. */
module StoreMembers {
  import opened Kube
  import opened StoreStatus
  import opened StoreScaler

  /** cc.Status.Store. */
  datatype TierStatus = TierStatus(phase: Phase, synced: bool, stores: map<int, KVStore>, tombstones: map<int, KVStore>)

  /** What one store sync reads and writes; `evicting` is PD's set of stores under leader eviction. */
  datatype Store = Store(ss: StatefulSet, pods: map<int, Pod>, pvcs: map<int, Pvc>, evicting: set<int>,
                         status: TierStatus)

  /** What the sync meets outside. `begin` and `end` script the eviction calls by store ID, `updatePod`
      the pod updates by ordinal. */
  datatype StoreInput = StoreInput(
    serviceFails: bool, listing: seq<int>,
    infos: Option<seq<StoreInfo>>, tombstones: Option<seq<StoreInfo>>,
    begin: map<int, Outcome>, end: map<int, Outcome>, updatePod: map<int, Outcome>,
    deletePvc: Outcome, write: Outcome, now: Time)

  const EVICT_LEADER_TIMEOUT: Time := 3 * 60 * SECOND

  function SyncedStatus(store: Store, pdPhase: Phase, input: StoreInput): (TierStatus, Option<Error>)
    requires Lists(input.listing, store.pods)
  {
    var upgrading := StatefulSetIsUpgrading(store.ss)
        || OffRevision(input.listing, store.pods, store.ss.status.updateRevision);
    var phase := if upgrading && pdPhase != UpgradePhase then UpgradePhase else NormalPhase;
    var status := store.status.(phase := phase);
    if input.infos.None? || input.tombstones.None? then (status.(synced := false), Some(StatusError))
    else
      (TierStatus(phase, true, Stores(input.infos.value, status.stores, input.now),
        Tombstones(input.tombstones.value)), None)
  }

  // ---------------------------------------------------------------------------------------------
  // Leader eviction
  // ---------------------------------------------------------------------------------------------

  /** The pods, whose annotations record evictions, and PD's own record. */
  datatype Eviction = Eviction(pods: map<int, Pod>, evicting: set<int>)

  function Annotated(e: Eviction, i: int, stamp: Option<Stamp>, update: Outcome): Eviction
    requires i in e.pods
  {
    if update.TookEffect() then e.(pods := e.pods[i := e.pods[i].(evictBegin := stamp)]) else e
  }

  function Failure(o: Outcome): Option<Error> {
    if o.Reported() then None else Some(CallFailed)
  }

  /** beginEvictLeader: PD first, then the annotation. */
  function Begun(e: Eviction, id: int, i: int, input: StoreInput): (Eviction, Option<Error>)
    requires i in e.pods
  {
    var begin, update := OutcomeOf(input.begin, id), OutcomeOf(input.updatePod, i);
    var e1 := if begin.TookEffect() then e.(evicting := e.evicting + {id}) else e;
    if !begin.Reported() then (e1, Some(CallFailed))
    else (Annotated(e1, i, Some(At(Stamped(input.now))), update), Failure(update))
  }

  /** endEvictLeader: the annotation first, then PD, also when there was no annotation. */
  function Ended(e: Eviction, id: int, i: int, input: StoreInput): (Eviction, Option<Error>) {
    if i !in e.pods then (e, Some(PodNotFound(i)))
    else
      var annotated := e.pods[i].evictBegin.Some?;
      var end, update := OutcomeOf(input.end, id), OutcomeOf(input.updatePod, i);
      var e1 := if annotated then Annotated(e, i, None, update) else e;
      if annotated && !update.Reported() then (e1, Some(CallFailed))
      else (if end.TookEffect() then e1.(evicting := e1.evicting - {id}) else e1, Failure(end))
  }

  /** A pod may be rolled when its store leads nothing, or its eviction has lasted long enough. */
  predicate ReadyToUpgrade(pod: Pod, store: KVStore, now: Time) {
    || store.leaders == 0
    || (pod.evictBegin.Some? && pod.evictBegin.value.At? && now > pod.evictBegin.value.time + EVICT_LEADER_TIMEOUT)
  }

  ghost function PodUpgraded(i: int, e: Eviction, stores: map<int, KVStore>, input: StoreInput): (Eviction, Decision) {
    if i !in e.pods then (e, Refuse(PodNotFound(i)))
    else match StoreAt(stores, i)
      case None => (e, Refuse(NotInCluster))
      case Some(id) =>
        if ReadyToUpgrade(e.pods[i], stores[id], input.now) then (e, LowerTo(i))
        else if e.pods[i].evictBegin.Some? then (e, Refuse(EvictingLeader(i)))
        else
          var (e1, error) := Begun(e, id, i, input);
          (e1, if error.Some? then Refuse(error.value) else KeepPartition)
  }

  /** The store upgrader's loop from ordinal `i` down; ordinals without a store are skipped. */
  ghost function Descent(i: int, e: Eviction, stores: map<int, KVStore>, updateRevision: Revision,
                         input: StoreInput): (Eviction, Decision)
    decreases i + 1
  {
    if i < 0 then (e, KeepPartition)
    else match StoreAt(stores, i)
      case None => Descent(i - 1, e, stores, updateRevision, input)
      case Some(id) =>
        if i !in e.pods then (e, Refuse(PodNotFound(i)))
        else if e.pods[i].revision.None? then (e, Refuse(NoRevisionLabel))
        else if e.pods[i].revision.value != updateRevision then PodUpgraded(i, e, stores, input)
        else if !e.pods[i].running then (e, Refuse(UpgradedPodNotRunning(i)))
        else if stores[id].state != Up then (e, Refuse(UpgradedPodNotReady(i)))
        else
          var (e1, error) := Ended(e, id, i, input);
          if error.Some? then (e1, Refuse(error.value)) else Descent(i - 1, e1, stores, updateRevision, input)
  }

  // ---------------------------------------------------------------------------------------------
  // One sync
  // ---------------------------------------------------------------------------------------------

  /** The upgrader. While PD upgrades it freezes the pod template instead. */
  ghost function Upgraded(store: Store, pdPhase: Phase, draft: SetSpec,
                          input: StoreInput): (Store, SetSpec, Option<Error>)
  {
    if pdPhase == UpgradePhase then
      if store.ss.lastApplied.None? || store.ss.templateApplied.None? then (store, draft, Some(NoAppliedConfig))
      else (store, draft.(template := store.ss.templateApplied.value), None)
    else if !store.status.synced then (store, draft, Some(NotSynced))
    else
      var store1 := store.(status := store.status.(phase := UpgradePhase));
      if !TemplateEqual(draft.template, store.ss) then (store1, draft, None)
      else
        var (e, decision) := Descent(store.ss.status.replicas - 1, Eviction(store.pods, store.evicting),
                                     store.status.stores, store.ss.status.updateRevision, input);
        var store2 := store1.(pods := e.pods, evicting := e.evicting);
        match decision
        case LowerTo(i) => (store2, draft.(partition := i), None)
        case KeepPartition => (store2, draft.(partition := store.ss.spec.partition), None)
        case Refuse(error) => (store2, draft.(partition := store.ss.spec.partition), Some(error))
  }

  /** Scaling: out by one at most, in not at all. */
  ghost function Resized(store: Store, draft: SetSpec, input: StoreInput): (Store, SetSpec, Option<Error>) {
    if draft.replicas > store.ss.spec.replicas then
      var out := ScaledOut(store.status.phase, store.ss.spec.replicas, store.pvcs, input.deletePvc);
      (store.(pvcs := out.pvcs), draft.(replicas := out.replicas), out.error)
    else (store, draft.(replicas := store.ss.spec.replicas), None)
  }

  /** The rest of a sync once the upgrader is through: scaling, and the write of a set that differs. */
  ghost function Committed(store: Store, draft: SetSpec, input: StoreInput): (Store, Option<Error>) {
    var (store1, draft1, unscaled) := Resized(store, draft, input);
    if unscaled.Some? then (store1, unscaled)
    else if StatefulSetEqual(draft1, store.ss) then (store1, None)
    else (if input.write.TookEffect() then store1.(ss := Applied(store.ss, draft1)) else store1, Failure(input.write))
  }

  ghost function Synced(store: Store, pdPhase: Phase, pdAvailable: bool, desired: Desired,
                        input: StoreInput): (Store, Option<Error>)
    requires Lists(input.listing, store.pods)
  {
    if !pdAvailable then (store, Some(WaitingForPd))
    else if input.serviceFails then (store, Some(ServiceError))
    else
      var (status, failure) := SyncedStatus(store, pdPhase, input);
      var store1 := store.(status := status);
      if failure.Some? then (store1, failure)
      else
        var draft := SetSpec(desired.replicas, desired.template, desired.replicas);
        var (store2, draft2, refused) :=
          if !TemplateEqual(draft.template, store.ss) || status.phase == UpgradePhase then
            Upgraded(store1, pdPhase, draft, input)
          else (store1, draft, None);
        if refused.Some? then (store2, refused) else Committed(store2, draft2, input)
  }

  /** cc.StoreIsAvailable. */
  predicate StoreAvailable(store: Store) {
    (exists id :: id in store.status.stores && store.status.stores[id].state == Up)
      && store.ss.status.readyReplicas >= 1
  }

  /** The store member manager together with its upgrader; the scaler is a part of its own. */
  class StoreManager {
    var ss: StatefulSet
    var pods: map<int, Pod>
    var evicting: set<int>
    var phase: Phase
    var synced: bool
    var stores: map<int, KVStore>
    var tombstones: map<int, KVStore>
    const scaler: Scaler

    function State(): Store
      reads this, scaler
    {
      Store(ss, pods, scaler.pvcs, evicting, TierStatus(phase, synced, stores, tombstones))
    }

    constructor (store: Store)
      ensures State() == store && fresh(scaler)
    {
      ss, pods, evicting := store.ss, store.pods, store.evicting;
      phase, synced := store.status.phase, store.status.synced;
      stores, tombstones := store.status.stores, store.status.tombstones;
      scaler := new Scaler(store.pvcs);
    }

    function EvictionState(): Eviction
      reads this
    {
      Eviction(pods, evicting)
    }

    method UpdateEvictBegin(i: int, stamp: Option<Stamp>, update: Outcome) returns (error: Option<Error>)
      requires i in pods
      modifies this`pods
      ensures EvictionState() == Annotated(old(EvictionState()), i, stamp, update) && error == Failure(update)
    {
      if update.TookEffect() {
        pods := pods[i := pods[i].(evictBegin := stamp)];
      }
      error := Failure(update);
    }

    method BeginEvictLeader(id: int, i: int, input: StoreInput) returns (error: Option<Error>)
      requires i in pods
      modifies this`pods, this`evicting
      ensures (EvictionState(), error) == Begun(old(EvictionState()), id, i, input)
      ensures error.None? ==>
                id in evicting && pods[i].evictBegin == Some(At(input.now - input.now % 1_000_000_000))
    {
      var begin := OutcomeOf(input.begin, id);
      if begin.TookEffect() {
        evicting := evicting + {id};
      }
      if !begin.Reported() {
        return Some(CallFailed);
      }
      error := UpdateEvictBegin(i, Some(At(Stamped(input.now))), OutcomeOf(input.updatePod, i));
    }

    method EndEvictLeader(id: int, i: int, input: StoreInput) returns (error: Option<Error>)
      modifies this`pods, this`evicting
      ensures (EvictionState(), error) == Ended(old(EvictionState()), id, i, input)
    {
      if i !in pods {
        return Some(PodNotFound(i));
      }
      if pods[i].evictBegin.Some? {
        error := UpdateEvictBegin(i, None, OutcomeOf(input.updatePod, i));
        if error.Some? {
          return;
        }
      }
      var end := OutcomeOf(input.end, id);
      if end.TookEffect() {
        evicting := evicting - {id};
      }
      error := Failure(end);
    }

    method UpgradeStorePod(i: int, draft: SetDraft, input: StoreInput) returns (error: Option<Error>)
      requires UniquePods(stores)
      modifies this`pods, this`evicting, draft`partition
      ensures var (e, decision) := PodUpgraded(i, old(EvictionState()), stores, input);
              && EvictionState() == e
              && draft.Spec() == (if decision.LowerTo? then old(draft.Spec()).(partition := decision.ordinal)
                else old(draft.Spec()))
              && error == if decision.Refuse? then Some(decision.error) else None
    {
      if i !in pods {
        return Some(PodNotFound(i));
      }
      var found := GetStoreByOrdinal(stores, i);
      if found.None? {
        return Some(NotInCluster);
      }
      var id := found.value;
      if ReadyToUpgrade(pods[i], stores[id], input.now) {
        draft.SetUpgradePartition(i);
        return None;
      }
      if pods[i].evictBegin.None? {
        error := BeginEvictLeader(id, i, input);
        return;
      }
      error := Some(EvictingLeader(i));
    }

    method Upgrade(pdPhase: Phase, draft: SetDraft, input: StoreInput) returns (error: Option<Error>)
      requires UniquePods(stores)
      modifies this`phase, this`pods, this`evicting, draft`template, draft`partition
      ensures (State(), draft.Spec(), error) == Upgraded(old(State()), pdPhase, old(draft.Spec()), input)
    {
      if pdPhase == UpgradePhase {
        if ss.lastApplied.None? || ss.templateApplied.None? {
          return Some(NoAppliedConfig);
        }
        draft.template := ss.templateApplied.value;
        return None;
      }
      if !synced {
        return Some(NotSynced);
      }
      phase := UpgradePhase;
      if !TemplateEqual(draft.template, ss) {
        return None;
      }
      draft.SetUpgradePartition(ss.spec.partition);
      var update := ss.status.updateRevision;
      var i := ss.status.replicas - 1;
      ghost var whole := Descent(i, EvictionState(), stores, update, input);
      while i >= 0
        invariant Descent(i, EvictionState(), stores, update, input) == whole
        invariant State() == old(State()).(status := old(State()).status.(phase := UpgradePhase), pods := pods,
            evicting := evicting)
        invariant draft.Spec() == old(draft.Spec()).(partition := ss.spec.partition)
      {
        var found := GetStoreByOrdinal(stores, i);
        if found.Some? {
          if i !in pods {
            return Some(PodNotFound(i));
          }
          if pods[i].revision.None? {
            return Some(NoRevisionLabel);
          }
          if pods[i].revision.value != update {
            error := UpgradeStorePod(i, draft, input);
            return;
          }
          if !pods[i].running {
            return Some(UpgradedPodNotRunning(i));
          }
          if stores[found.value].state != Up {
            return Some(UpgradedPodNotReady(i));
          }
          error := EndEvictLeader(found.value, i, input);
          if error.Some? {
            return;
          }
        }
        i := i - 1;
      }
      error := None;
    }

    method SyncStatus(pdPhase: Phase, input: StoreInput) returns (error: Option<Error>)
      requires Lists(input.listing, pods)
      modifies this`phase, this`synced, this`stores, this`tombstones
      ensures var (status, e) := SyncedStatus(old(State()), pdPhase, input);
              State() == old(State()).(status := status) && error == e
      ensures input.infos.None? || input.tombstones.None? ==>
                stores == old(stores) && tombstones == old(tombstones) && !synced && error.Some?
    {
      var upgrading := SetIsUpgrading(ss, pods, input.listing);
      phase := if upgrading && pdPhase != UpgradePhase then UpgradePhase else NormalPhase;
      if input.infos.None? {
        synced := false;
        return Some(StatusError);
      }
      var collected := CollectStores(input.infos.value, stores, input.now);
      if input.tombstones.None? {
        synced := false;
        return Some(StatusError);
      }
      var buried := CollectTombstones(input.tombstones.value);
      synced, stores, tombstones := true, collected, buried;
      error := None;
    }

    method IsAvailable() returns (available: bool)
      ensures available == StoreAvailable(State())
    {
      if |stores| < 1 {
        return false;
      }
      var availableNum := 0;
      var rest := stores.Keys;
      while rest != {}
        invariant rest <= stores.Keys
        invariant availableNum >= 0
        invariant availableNum >= 1 <==> exists id :: id in stores && id !in rest && stores[id].state == Up
        decreases |rest|
      {
        var id := NextKey(rest);
        if stores[id].state == Up {
          availableNum := availableNum + 1;
        }
        rest := rest - {id};
      }
      available := availableNum >= 1 && ss.status.readyReplicas >= 1;
    }

    /** The rest of the sync once the upgrader is through. */
    method Commit(draft: SetDraft, input: StoreInput) returns (error: Option<Error>)
      modifies this`ss, scaler, draft`replicas
      ensures (State(), error) == Committed(old(State()), old(draft.Spec()), input)
    {
      if draft.replicas > ss.spec.replicas {
        error := scaler.ScaleOut(phase, ss.spec.replicas, draft, input.deletePvc);
        if error.Some? {
          return;
        }
      }
      if draft.replicas < ss.spec.replicas {
        draft.replicas := ss.spec.replicas;
      }
      if !StatefulSetEqual(draft.Spec(), ss) {
        if input.write.TookEffect() {
          ss := Applied(ss, draft.Spec());
        }
        return Failure(input.write);
      }
      error := None;
    }

    method Sync(pdPhase: Phase, pdAvailable: bool, desired: Desired, input: StoreInput) returns (error: Option<Error>)
      requires Lists(input.listing, pods)
      requires input.infos.Some? ==> UniquePods(Stores(input.infos.value, stores, input.now))
      modifies this, scaler
      ensures (State(), error) == Synced(old(State()), pdPhase, pdAvailable, desired, input)
      ensures !pdAvailable || input.serviceFails || input.infos.None? || input.tombstones.None? ==>
                stores == old(stores) && tombstones == old(tombstones) && error.Some?
    {
      if !pdAvailable {
        return Some(WaitingForPd);
      }
      if input.serviceFails {
        return Some(ServiceError);
      }
      var draft := new SetDraft(desired.replicas, desired.template, desired.replicas);
      error := SyncStatus(pdPhase, input);
      if error.Some? {
        return;
      }
      if !TemplateEqual(draft.template, ss) || phase == UpgradePhase {
        error := Upgrade(pdPhase, draft, input);
        if error.Some? {
          return;
        }
      }
      error := Commit(draft, input);
    }
  }
}
