/** Scaling of the store StatefulSet, one ordinal at a time, tied to the marking of volume claims. */
module StoreScaler {
  import opened Kube
  import opened StoreStatus

  /** A volume claim of the set; `deferDeleting` is the annotation that lets a scale-out delete it. */
  datatype Pvc = Pvc(deferDeleting: Option<Time>)

  /** What the scaler reads of the cluster: `labels` maps the ordinal of each existing pod to the store
      ID label the pod carries. */
  datatype ScaleView = ScaleView(phase: Phase, stores: map<int, KVStore>, tombstones: map<int, KVStore>,
                                 labels: map<int, Option<int>>)

  /** The replicas asked for, the claims afterwards and the error. */
  datatype Scaled = Scaled(replicas: int, pvcs: map<int, Pvc>, error: Option<Error>)

  predicate Marked(pvcs: map<int, Pvc>, ordinal: int) {
    ordinal in pvcs && pvcs[ordinal].deferDeleting.Some?
  }

  function ScaledOut(phase: Phase, replicas: int, pvcs: map<int, Pvc>, delete: Outcome): Scaled {
    if phase == UpgradePhase then Scaled(replicas, pvcs, None)
    else if !Marked(pvcs, replicas) then Scaled(replicas + 1, pvcs, None)
    else
      var left := if delete.TookEffect() then pvcs - {replicas} else pvcs;
      if delete.Reported() then Scaled(replicas + 1, left, None) else Scaled(replicas, left, Some(CallFailed))
  }

  /** A tombstone entry names the pod, and the pod's store ID label is the ID of that entry. */
  predicate TombstoneOn(view: ScaleView, id: int, ordinal: int) {
    && OnPod(view.tombstones, id, ordinal)
    && ordinal in view.labels && view.labels[ordinal] == Some(id)
  }

  ghost function ScaledIn(view: ScaleView, replicas: int, pvcs: map<int, Pvc>, update: Outcome,
                          deleteStore: Outcome, now: Time): Scaled
  {
    var ordinal := replicas - 1;
    if view.phase == UpgradePhase then Scaled(replicas, pvcs, None)
    else if ordinal !in view.labels then Scaled(replicas, pvcs, Some(PodNotFound(ordinal)))
    else match StoreAt(view.stores, ordinal)
      case Some(id) =>
        var asked := view.stores[id].state == Offline || deleteStore.Reported();
        Scaled(replicas, pvcs, Some(if asked then StillInCluster else CallFailed))
      case None =>
        if !exists id :: TombstoneOn(view, id, ordinal) then Scaled(replicas, pvcs, Some(NotInCluster))
        else if ordinal !in pvcs then Scaled(replicas, pvcs, Some(PvcNotFound))
        else
          var marked := if update.TookEffect() then pvcs[ordinal := Pvc(Some(Stamped(now)))] else pvcs;
          if update.Reported() then Scaled(replicas - 1, marked, None) else Scaled(replicas, marked, Some(CallFailed))
  }

  /** A scale-out grows by one exactly outside an upgrade and once the claim left behind, if it is marked, is
      reported deleted; otherwise it keeps the count. */
  lemma ScaleOutGrowsExactly(phase: Phase, replicas: int, pvcs: map<int, Pvc>, delete: Outcome)
    ensures var r := ScaledOut(phase, replicas, pvcs, delete);
            && (r.replicas == replicas + 1
                <==> phase == NormalPhase
                     && (replicas in pvcs && pvcs[replicas].deferDeleting.Some? ==> delete == Delivered))
            && (r.replicas == replicas + 1 || r.replicas == replicas)
            && (forall o :: o != replicas ==> (o in r.pvcs <==> o in pvcs) && (o in pvcs ==> r.pvcs[o] == pvcs[o]))
  {
  }

  /** A scale-in shrinks by one exactly outside an upgrade, when the last pod exists, no store is on it and a
      tombstone with its label is, and its claim is there and reported marked, with the time in whole seconds; in
      any other case it keeps the count and reports why, except in an upgrade. */
  lemma ScaleInShrinksExactly(view: ScaleView, replicas: int, pvcs: map<int, Pvc>, update: Outcome,
                              deleteStore: Outcome, now: Time)
    ensures var r, last := ScaledIn(view, replicas, pvcs, update, deleteStore, now), replicas - 1;
            && (r.replicas == replicas - 1
                <==> && view.phase == NormalPhase && last in view.labels && last in pvcs && update == Delivered
                     && (forall id :: id in view.stores ==> view.stores[id].pod != PodName(StoreTier, last))
                     && exists id :: id in view.tombstones && view.tombstones[id].pod == PodName(StoreTier, last)
                                     && view.labels[last] == Some(id))
            && (r.replicas == replicas - 1 ==>
                  r.error.None? && r.pvcs == pvcs[last := Pvc(Some(now - now % 1_000_000_000))])
            && (r.replicas != replicas - 1 ==>
                  r.replicas == replicas && (view.phase == NormalPhase ==> r.error.Some?))
  {
    var last := replicas - 1;
    assert forall id :: OnPod(view.stores, id, last) <==>
             (id in view.stores && view.stores[id].pod == PodName(StoreTier, last));
    assert last in view.labels ==> forall id :: TombstoneOn(view, id, last) <==>
             (id in view.tombstones && view.tombstones[id].pod == PodName(StoreTier, last)
               && view.labels[last] == Some(id));
  }

  /** The store scaler with the claims it changes. */
  class Scaler {
    var pvcs: map<int, Pvc>

    constructor (pvcs: map<int, Pvc>)
      ensures this.pvcs == pvcs
    {
      this.pvcs := pvcs;
    }

    /** deleteDeferDeletingPVC: a claim that is absent or not marked is skipped without error. */
    method DeleteDeferDeletingPvc(ordinal: int, delete: Outcome) returns (error: Option<Error>)
      modifies this
      ensures !Marked(old(pvcs), ordinal) ==> pvcs == old(pvcs) && error.None?
      ensures Marked(old(pvcs), ordinal) ==>
                && pvcs == (if delete.TookEffect() then old(pvcs) - {ordinal} else old(pvcs))
                && error == if delete.Reported() then None else Some(CallFailed)
    {
      if ordinal !in pvcs || pvcs[ordinal].deferDeleting.None? {
        return None;
      }
      if delete.TookEffect() {
        pvcs := pvcs - {ordinal};
      }
      error := if delete.Reported() then None else Some(CallFailed);
    }

    method ScaleOut(phase: Phase, oldReplicas: int, draft: SetDraft, delete: Outcome) returns (error: Option<Error>)
      modifies this, draft`replicas
      ensures var out := ScaledOut(phase, oldReplicas, old(pvcs), delete);
              draft.Spec() == old(draft.Spec()).(replicas := out.replicas) && pvcs == out.pvcs && error == out.error
    {
      if phase == UpgradePhase {
        draft.replicas := oldReplicas;
        return None;
      }
      error := DeleteDeferDeletingPvc(oldReplicas, delete);
      if error.Some? {
        draft.replicas := oldReplicas;
        return;
      }
      draft.replicas := oldReplicas + 1;
    }

    method FindTombstone(view: ScaleView, ordinal: int) returns (found: bool)
      requires ordinal in view.labels
      ensures found <==> exists id :: TombstoneOn(view, id, ordinal)
    {
      var rest := view.tombstones.Keys;
      while rest != {}
        invariant rest <= view.tombstones.Keys
        invariant forall id :: id in view.tombstones && id !in rest ==> !TombstoneOn(view, id, ordinal)
        decreases |rest|
      {
        var id := NextKey(rest);
        if view.tombstones[id].pod == PodName(StoreTier, ordinal) && view.labels[ordinal] == Some(id) {
          assert TombstoneOn(view, id, ordinal);
          return true;
        }
        rest := rest - {id};
      }
      found := false;
    }

    method ScaleIn(view: ScaleView, oldReplicas: int, draft: SetDraft, update: Outcome, deleteStore: Outcome, now: Time)
      returns (error: Option<Error>)
      requires UniquePods(view.stores)
      modifies this, draft`replicas
      ensures var r := ScaledIn(view, oldReplicas, old(pvcs), update, deleteStore, now);
              draft.Spec() == old(draft.Spec()).(replicas := r.replicas) && pvcs == r.pvcs && error == r.error
    {
      var ordinal := oldReplicas - 1;
      draft.replicas := oldReplicas;
      if view.phase == UpgradePhase {
        return None;
      }
      if ordinal !in view.labels {
        return Some(PodNotFound(ordinal));
      }
      var store := GetStoreByOrdinal(view.stores, ordinal);
      if store.Some? {
        if view.stores[store.value].state != Offline && !deleteStore.Reported() {
          return Some(CallFailed);
        }
        return Some(StillInCluster);
      }
      var gone := FindTombstone(view, ordinal);
      if !gone {
        return Some(NotInCluster);
      }
      if ordinal !in pvcs {
        return Some(PvcNotFound);
      }
      if update.TookEffect() {
        pvcs := pvcs[ordinal := Pvc(Some(Stamped(now)))];
      }
      if !update.Reported() {
        return Some(CallFailed);
      }
      draft.replicas := oldReplicas - 1;
      error := None;
    }
  }

  // ---------------------------------------------------------------------------------------------
  // Runs of the scaler
  // ---------------------------------------------------------------------------------------------

  /** The set's replica count and the claims of its ordinals. */
  datatype Volumes = Volumes(replicas: int, pvcs: map<int, Pvc>)

  datatype VolumeAction =
    | ScaleOutPass(phase: Phase, delete: Outcome, write: Outcome)
    | ScaleInPass(view: ScaleView, update: Outcome, deleteStore: Outcome, now: Time, write: Outcome)
    | ClaimCreated(ordinal: int)

  /** Kubernetes creates the missing claim of an ordinal it runs; a pass may happen at any time. */
  predicate VolumeEnabled(v: Volumes, a: VolumeAction) {
    a.ClaimCreated? ==> a.ordinal < v.replicas && a.ordinal !in v.pvcs
  }

  /** A pass writes the set only when the scaler returned no error, and the write may fail. */
  function Written(v: Volumes, s: Scaled, write: Outcome): Volumes {
    Volumes(if s.error.None? && write.TookEffect() then s.replicas else v.replicas, s.pvcs)
  }

  ghost function VolumeStep(v: Volumes, a: VolumeAction): Volumes {
    match a
    case ScaleOutPass(phase, delete, write) => Written(v, ScaledOut(phase, v.replicas, v.pvcs, delete), write)
    case ScaleInPass(view, update, deleteStore, now, write) =>
      Written(v, ScaledIn(view, v.replicas, v.pvcs, update, deleteStore, now), write)
    case ClaimCreated(o) => v.(pvcs := v.pvcs[o := Pvc(None)])
  }

  ghost predicate VolumeRun(v: Volumes, run: seq<VolumeAction>)
    decreases |run|
  {
    run != [] ==> VolumeEnabled(v, run[0]) && VolumeRun(VolumeStep(v, run[0]), run[1..])
  }

  ghost function VolumesAfter(v: Volumes, run: seq<VolumeAction>): Volumes
    decreases |run|
  {
    if run == [] then v else VolumesAfter(VolumeStep(v, run[0]), run[1..])
  }

  /** Every ordinal outside the set has no claim, or one that a scale-out will delete first. */
  ghost predicate Fresh(replicas: int, pvcs: map<int, Pvc>) {
    forall o :: o >= replicas && o in pvcs ==> Marked(pvcs, o)
  }

  /** In every run of scale-outs and scale-ins, whichever claim or set updates fail, no ordinal outside
      the set keeps an unmarked claim. */
  lemma {:induction false} VolumesStayFresh(v: Volumes, run: seq<VolumeAction>)
    requires Fresh(v.replicas, v.pvcs) && VolumeRun(v, run)
    ensures Fresh(VolumesAfter(v, run).replicas, VolumesAfter(v, run).pvcs)
    decreases |run|
  {
    if run != [] {
      VolumesStayFresh(VolumeStep(v, run[0]), run[1..]);
    }
  }

  /** A scale-out that raises the count raises it by one, and the ordinal it adds starts without an old
      claim; started outside a fresh state, it does so exactly when the claim was absent or marked and
      its deletion took effect. */
  lemma AddedOrdinalStartsClean(v: Volumes, a: VolumeAction)
    requires a.ScaleOutPass?
    ensures var after := VolumeStep(v, a);
            after.replicas != v.replicas ==>
              && after.replicas == v.replicas + 1
              && (v.replicas !in after.pvcs <==> v.replicas !in v.pvcs || Marked(v.pvcs, v.replicas))
              && (Fresh(v.replicas, v.pvcs) ==> v.replicas !in after.pvcs)
  {
    assert a.delete.Reported() ==> a.delete.TookEffect();
  }

  /** A scale-in gives up the last ordinal only after its store has left the cluster and its claim is
      marked; an ordinal that fails any of the two keeps its pod. */
  lemma ScaleInLeavesMarkedClaim(v: Volumes, a: VolumeAction)
    requires a.ScaleInPass?
    ensures var after := VolumeStep(v, a);
            after.replicas != v.replicas ==>
              && after.replicas == v.replicas - 1
              && Marked(after.pvcs, after.replicas)
              && a.view.phase == NormalPhase
              && (forall id :: !OnPod(a.view.stores, id, after.replicas))
              && exists id :: TombstoneOn(a.view, id, after.replicas)
  {
  }
}
