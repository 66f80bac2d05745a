/** Where the safety of the store tier ends, exactly, and how its replica count converges. */
module StoreLimits {
  import opened Kube
  import opened StoreStatus
  import opened StoreScaler
  import opened StoreMembers
  import opened StoreSafety
  import opened StoreRuns

  // ---------------------------------------------------------------------------------------------
  // Evictions
  // ---------------------------------------------------------------------------------------------

  /** A descent that puts the store on ordinal j under eviction leaves it the only one exactly when every
      store evicted before sits on an ordinal between j and the top of the descent. */
  lemma DescentBeginsAlone(n: int, e: Eviction, stores: map<int, KVStore>, update: Revision, input: StoreInput,
                           id: int, j: int)
    requires UniquePods(stores) && StoreAt(stores, j) == Some(id)
    requires id !in e.evicting && id in Descent(n, e, stores, update, input).0.evicting
    ensures (forall b :: b in Descent(n, e, stores, update, input).0.evicting ==> b == id)
        <==> forall b :: b in e.evicting ==> exists k :: j < k <= n && StoreAt(stores, k) == Some(b)
  {
    var e1 := Descent(n, e, stores, update, input).0;
    DescentEvicts(n, e, stores, update, input);
    forall b | b in e1.evicting && b !in e.evicting
      ensures b == id && Due(j, e.pods, stores, update) && SettledAbove(j, n, e1, stores, update)
    {
      var j1 :| 0 <= j1 <= n && StoreAt(stores, j1) == Some(id) && Due(j1, e.pods, stores, update)
          && SettledAbove(j1, n, e1, stores, update);
      var j2 :| 0 <= j2 <= n && StoreAt(stores, j2) == Some(b) && Due(j2, e.pods, stores, update)
          && SettledAbove(j2, n, e1, stores, update);
      assert j1 == j && j1 == j2;
    }
    forall b | b in e.evicting
      ensures b in e1.evicting <==> !exists k :: j < k <= n && StoreAt(stores, k) == Some(b)
    {
      if b !in e1.evicting {
        var k :| StoreAt(stores, k) == Some(b) && NoneDue(k, n, e.pods, stores, update);
        assert j < k <= n;
      }
    }
  }

  /** In any state, safe or not: a store newly put under eviction is the only one exactly when every
      store evicted before sits on a higher ordinal of the set. */
  lemma BeginIsAloneExactly(w: StoreWorld, a: StoreAction, id: int, j: int)
    requires OperatorOwned(w.store.ss) && RegistryOk(w.registry)
    requires a.StorePass? && Lists(a.input.listing, w.store.pods)
        && (a.input.infos.Some? ==> a.input.infos.value == w.registry)
    requires Registered(w.registry, id, j)
    requires id in StoreStep(w, a).store.evicting && id !in w.store.evicting
    ensures (forall b :: b in StoreStep(w, a).store.evicting ==> b == id)
        <==> forall b :: b in w.store.evicting ==>
          exists k :: j < k < w.store.ss.status.replicas && Registered(w.registry, b, k)
  {
    PassOutcome(w, a);
    RegistryView(w.registry, w.store.status.stores, a.input.now);
    var s, stores, n := w.store, StoreStep(w, a).store.status.stores, w.store.ss.status.replicas - 1;
    DescentBeginsAlone(n, Eviction(s.pods, s.evicting), stores, s.ss.status.updateRevision, a.input, id, j);
    forall b
      ensures (exists k :: j < k < w.store.ss.status.replicas && Registered(w.registry, b, k))
          <==> exists k :: j < k <= n && StoreAt(stores, k) == Some(b)
    {
    }
  }

  /** A pass that finds no upgrade under way and no new template ends no eviction: one left over from
      the last pod of an upgrade stays. */
  lemma NormalPassEndsNoEviction(w: StoreWorld, a: StoreAction)
    requires a.StorePass? && Applicable(w, a) && OperatorOwned(w.store.ss)
    requires a.desired.template == w.store.ss.spec.template
    requires SyncedStatus(w.store, a.pdPhase, a.input).0.phase == NormalPhase
    ensures StoreStep(w, a).store.evicting == w.store.evicting
  {
  }

  function Store10(i: int, leaders: int): StoreInfo {
    StoreInfo(10 + i, PodName(StoreTier, i), 0, Some(StoreStats(leaders, 1)))
  }

  function RunningPod(template: PodSpec): Pod {
    Pod(Some(template), true, false, None)
  }

  function NoFaults(registry: seq<StoreInfo>, listing: seq<int>): StoreInput {
    StoreInput(false, listing, Some(registry), Some([]), map[], map[], map[], Delivered, Delivered, 0)
  }

  function SetAt(spec: SetSpec, current: Revision, update: Revision): StatefulSet {
    StatefulSet(1, spec, Some(spec), Some(spec.template),
      SetStatus(Some(1), spec.replicas, spec.replicas, current, update))
  }

  // ---------------------------------------------------------------------------------------------
  // The suffix, and the default partition
  // ---------------------------------------------------------------------------------------------

  /** Half way through a store upgrade: ordinal 1 is rolled, ordinal 0 is not. */
  function HalfWay(): StoreWorld {
    var pods := map[0 := RunningPod("old"), 1 := RunningPod("new")];
    StoreWorld(Store(SetAt(SetSpec(2, "new", 1), "old", "new"), pods, map[], {},
                     TierStatus(UpgradePhase, true, map[], map[])), [Store10(0, 0), Store10(1, 0)])
  }

  /** A PD upgrade that pauses the store upgrade also lets it scale out: the pod added meanwhile starts on
      the old revision, below the default partition, and once its store joins the suffix is broken. */
  lemma PausedScaleOutBreaksSuffix()
    ensures var pass := StorePass(UpgradePhase, true, Desired(3, "new"), NoFaults(HalfWay().registry, [0, 1]));
            var grown := SetSpec(3, "new", 3);
            var pod, join := PodCreated(2, RunningPod("old")), RegistryChange(HalfWay().registry + [Store10(2, 0)]);
            && StoreSafe(HalfWay()) && StoreEnabled(HalfWay(), pass)
            && var w1 := StoreStep(HalfWay(), pass);
               && w1.store.ss.spec == grown && StoreEnabled(w1, pod)
               && var w3 := StoreStep(StoreStep(w1, pod), join);
                  Tracked(w3.registry, 1) && Tracked(w3.registry, 2) && UpToDate(w3.store, 1) && !UpToDate(w3.store, 2)
  {
    HalfWayIsSafe();
    PausedPassGrows();
    var registry := HalfWay().registry + [Store10(2, 0)];
    assert Reports(registry, 1, 11) && Reports(registry, 2, 12);
    assert Registered(registry, 11, 1) && Registered(registry, 12, 2);
  }

  lemma PausedPassGrows()
    ensures var pass := StorePass(UpgradePhase, true, Desired(3, "new"), NoFaults(HalfWay().registry, [0, 1]));
            && StoreEnabled(HalfWay(), pass)
            && var w1 := StoreStep(HalfWay(), pass);
               && w1.store.ss.spec == SetSpec(3, "new", 3)
               && w1.store.pods == HalfWay().store.pods && w1.registry == HalfWay().registry
  {
    var w := HalfWay();
    assert Lists([0, 1], w.store.pods) by {
      assert [0, 1][0] == 0 && [0, 1][1] == 1;
    }
  }

  lemma HalfWayIsSafe()
    ensures StoreSafe(HalfWay())
  {
    var w := HalfWay();
    forall id, i
      ensures Registered(w.registry, id, i) <==> (i == 0 || i == 1) && id == 10 + i
    {
      assert Reports(w.registry, 0, 10) && Reports(w.registry, 1, 11);
    }
    assert Registered(w.registry, 10, 0) && Registered(w.registry, 11, 1);
    assert Fresh(2, w.store.pvcs);
  }

  /** A pass that writes a new template leaves every pod with a store closed to rolling exactly when the
      desired count, its default partition, exceeds every ordinal with a store. */
  lemma NewTemplateOpensNothingExactly(w: StoreWorld, a: StoreAction)
    requires StoreSafe(w)
    requires a.StorePass? && Lists(a.input.listing, w.store.pods)
        && (a.input.infos.Some? ==> a.input.infos.value == w.registry)
    requires a.desired.template != w.store.ss.spec.template
    requires forall i :: Tracked(w.registry, i) ==> !On(w.store, i, a.desired.template)
    requires StoreStep(w, a).store.ss.spec.template == a.desired.template
    ensures (forall i :: !OpenToRoll(StoreStep(w, a), i))
        <==> forall i :: Tracked(w.registry, i) ==> i < a.desired.replicas
  {
    PassOutcome(w, a);
    var after := StoreStep(w, a);
    assert forall i :: Tracked(w.registry, i) ==> !UpToDate(after.store, i);
    assert forall i :: Tracked(w.registry, i) ==> i < w.store.ss.spec.replicas;
    assert forall i :: Tracked(w.registry, i) ==> (OpenToRoll(after, i) <==> i >= a.desired.replicas);
  }

  // ---------------------------------------------------------------------------------------------
  // Replica convergence
  // ---------------------------------------------------------------------------------------------

  /** One pass over a store tier. */
  datatype PassRecord = PassRecord(before: Store, pdPhase: Phase, pdAvailable: bool, input: StoreInput)

  ghost function Result(p: PassRecord, desired: Desired): (Store, Option<Error>)
    requires Lists(p.input.listing, p.before.pods)
  {
    Synced(p.before, p.pdPhase, p.pdAvailable, desired, p.input)
  }

  function Min(a: int, b: int): int {
    if a <= b then a else b
  }

  /** The pass returned no error and did not find the stores upgrading. */
  ghost predicate Productive(p: PassRecord, desired: Desired)
    requires Lists(p.input.listing, p.before.pods)
  {
    Result(p, desired).1.None? && Result(p, desired).0.status.phase == NormalPhase
  }

  /** A pass raises the count by at most one and never beyond the desired count, never lowers it, freezes
      it in an upgrade, and a productive pass raises it whenever it is below the desired count. */
  lemma ReplicasPerPass(p: PassRecord, desired: Desired)
    requires Lists(p.input.listing, p.before.pods) && OperatorOwned(p.before.ss)
    ensures var r, r' := p.before.ss.spec.replicas, Result(p, desired).0.ss.spec.replicas;
            && (r' == r || (r' == r + 1 && r < desired.replicas))
            && (Result(p, desired).0.status.phase == UpgradePhase ==> r' == r)
            && (Productive(p, desired) ==> r' == if r < desired.replicas then r + 1 else r)
  {
    var PassRecord(s, pdPhase, pdAvailable, input) := p;
    if pdAvailable && !input.serviceFails {
      var (status, failure) := SyncedStatus(s, pdPhase, input);
      var store1, draft := s.(status := status), SetSpec(desired.replicas, desired.template, desired.replicas);
      if failure.None? {
        if !TemplateEqual(draft.template, s.ss) || status.phase == UpgradePhase {
          var (store2, draft2, refused) := Upgraded(store1, pdPhase, draft, input);
          assert store2.ss == s.ss && draft2.replicas == draft.replicas;
          if refused.None? {
            CommitReplicas(store2, draft2, input);
          }
        } else {
          CommitReplicas(store1, draft, input);
        }
      }
    }
  }

  lemma CommitReplicas(store: Store, draft: SetSpec, input: StoreInput)
    requires OperatorOwned(store.ss)
    ensures var (after, error) := Committed(store, draft, input);
            var r, r' := store.ss.spec.replicas, after.ss.spec.replicas;
            && after.status == store.status
            && (r' == r || (r' == r + 1 && r < draft.replicas))
            && (store.status.phase == UpgradePhase ==> r' == r)
            && (error.None? && store.status.phase == NormalPhase ==> r' == if r < draft.replicas then r + 1 else r)
  {
  }

  /** Passes in sequence: whatever happens in between leaves the replica count alone. */
  ghost predicate Sequence(passes: seq<PassRecord>, desired: Desired) {
    && (forall k :: 0 <= k < |passes| ==>
      Lists(passes[k].input.listing, passes[k].before.pods) && OperatorOwned(passes[k].before.ss))
    && forall k :: 0 <= k < |passes| - 1 ==>
         passes[k + 1].before.ss.spec.replicas == Result(passes[k], desired).0.ss.spec.replicas
  }

  ghost function ProductiveCount(passes: seq<PassRecord>, desired: Desired): nat
    requires Sequence(passes, desired)
  {
    if passes == [] then 0
    else ProductiveCount(passes[..|passes| - 1], desired) + if Productive(passes[|passes| - 1], desired) then 1 else 0
  }

  lemma FrontSequence(passes: seq<PassRecord>, desired: Desired)
    requires Sequence(passes, desired) && passes != []
    ensures Sequence(passes[..|passes| - 1], desired)
  {
    var front := passes[..|passes| - 1];
    assert forall k :: 0 <= k < |front| ==> front[k] == passes[k];
  }

  /** What one pass does to the bounds of the passes before it. */
  lemma BoundsStep(d: int, r: int, n: nat, count: nat, before: int, after: int, productive: bool)
    requires r <= d && Min(d, r + count) <= before <= Min(d, r + n)
    requires after == before || (after == before + 1 && before < d)
    requires productive ==> after == if before < d then before + 1 else before
    ensures Min(d, r + count + if productive then 1 else 0) <= after <= Min(d, r + n + 1)
    ensures productive && before == Min(d, r + n) ==> after == Min(d, r + n + 1)
  {
  }

  /** After any passes the count lies between what the productive ones alone and what all of them could
      reach; when all are productive, k passes take R replicas to exactly min(D, R + k). */
  lemma {:induction false} ReplicasConverge(passes: seq<PassRecord>, desired: Desired)
    requires Sequence(passes, desired) && passes != []
    requires passes[0].before.ss.spec.replicas <= desired.replicas
    ensures var r, last := passes[0].before.ss.spec.replicas, Result(passes[|passes| - 1], desired).0.ss.spec.replicas;
            && Min(desired.replicas, r + ProductiveCount(passes, desired)) <= last
            && last <= Min(desired.replicas, r + |passes|)
            && ((forall k :: 0 <= k < |passes| ==> Productive(passes[k], desired)) ==>
                  last == Min(desired.replicas, r + |passes|))
  {
    var n := |passes| - 1;
    var front := passes[..n];
    var r, before := passes[0].before.ss.spec.replicas, passes[n].before.ss.spec.replicas;
    ReplicasPerPass(passes[n], desired);
    FrontSequence(passes, desired);
    if n > 0 {
      ReplicasConverge(front, desired);
      assert passes[n - 1] == front[n - 1] && front[0] == passes[0];
      assert before == Result(passes[n - 1], desired).0.ss.spec.replicas;
    } else {
      assert ProductiveCount(front, desired) == 0;
    }
    BoundsStep(desired.replicas, r, n, ProductiveCount(front, desired), before,
               Result(passes[n], desired).0.ss.spec.replicas, Productive(passes[n], desired));
  }
}
