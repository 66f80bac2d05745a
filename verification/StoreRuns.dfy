/** Runs of the store tier: safety in every reachable state, the exact limits of that safety, and the
    convergence of the replica count. */
module StoreRuns {
  import opened Kube
  import opened StoreStatus
  import opened StoreScaler
  import opened StoreMembers
  import opened StoreSafety

  /** A pod made anew at or above the partition, as a rolled one is, runs the template, whatever the status
      names; a stale status leads a descent no further than before, or to this pod. */
  lemma ReplacedIsFresh(w: StoreWorld, i: int, running: bool)
    requires StoreSafe(w) && i in w.store.pods && i >= w.store.ss.spec.partition
    ensures StatusFresh(StoreStep(w, Replace(i, running)))
  {
    var after := StoreStep(w, Replace(i, running));
    var update, template := w.store.ss.status.updateRevision, w.store.ss.spec.template;
    assert forall k, rev :: k != i ==> On(after.store, k, rev) == On(w.store, k, rev);
    forall j | update != template && HighestOff(after, j, update)
      ensures StopsSafely(after, j, template)
    {
      if j != i {
        assert HighestOff(w, j, update);
        assert StopsSafely(w, j, template);
      } else {
        forall a, m | a in w.store.evicting && Registered(w.registry, a, m)
          ensures i <= m
        {
          NoEvictionBelow(w, i, a, m, update);
        }
      }
    }
  }

  /** With everything above i on a stale revision, and i with a store, no eviction is below i. */
  lemma NoEvictionBelow(w: StoreWorld, i: int, a: int, m: int, update: Revision)
    requires StoreSafe(w) && Tracked(w.registry, i)
        && update == w.store.ss.status.updateRevision != w.store.ss.spec.template
    requires forall k :: k > i && Tracked(w.registry, k) ==> On(w.store, k, update)
    requires a in w.store.evicting && Registered(w.registry, a, m)
    ensures i <= m
  {
    var at :| EvictedAt(w, a, at);
    assert at == m;
    assert m < i ==> HighestOff(w, i, update);
    assert HighestOff(w, i, update) ==> StopsSafely(w, i, w.store.ss.spec.template);
  }

  /** So it keeps the invariant, under any status and whether or not it was up to date. */
  lemma ReplaceKeepsSafe(w: StoreWorld, i: int, running: bool)
    requires StoreSafe(w) && i in w.store.pods && i >= w.store.ss.spec.partition
    ensures StoreSafe(StoreStep(w, Replace(i, running)))
  {
    var after := StoreStep(w, Replace(i, running));
    ReplacedIsFresh(w, i, running);
    assert forall k :: UpToDate(after.store, k) <==> UpToDate(w.store, k) || k == i;
    assert forall id, m :: EvictedAt(w, id, m) ==> EvictedAt(after, id, m);
    assert forall k :: EvictedOn(w, k) ==> EvictedOn(after, k);
  }

  /** The pods with a store run what they ran, and list, spec and evictions are the same. */
  ghost predicate SameForStores(w: StoreWorld, after: StoreWorld) {
    && after.registry == w.registry && after.store.evicting == w.store.evicting
      && after.store.ss.spec == w.store.ss.spec
    && forall i, rev :: Tracked(w.registry, i) ==> On(w.store, i, rev) == On(after.store, i, rev)
  }

  lemma SameKeepsSafe(w: StoreWorld, after: StoreWorld)
    requires StoreSafe(w) && SameForStores(w, after)
    requires OperatorOwned(after.store.ss) && PodsKnown(after) && AnnotatedIfEvicted(after)
    requires Fresh(after.store.ss.spec.replicas, after.store.pvcs)
    requires after.store.ss.status.updateRevision in {w.store.ss.status.updateRevision, w.store.ss.spec.template}
    ensures StoreSafe(after)
  {
    assert forall i :: Tracked(w.registry, i) ==> UpToDate(w.store, i) == UpToDate(after.store, i);
    assert forall id, i :: EvictedAt(w, id, i) ==> EvictedAt(after, id, i);
    assert forall j, rev :: HighestOff(after, j, rev) ==> HighestOff(w, j, rev);
    assert forall j, rev :: StopsSafely(w, j, rev) ==> StopsSafely(after, j, rev);
  }

  /** A step that no store joins in, and that makes no pod anew, keeps the invariant. */
  lemma PlainStepKeepsSafe(w: StoreWorld, a: StoreAction)
    requires StoreSafe(w) && StoreEnabled(w, a)
    requires !a.StorePass? && !a.RegistryChange? && !a.PodRecreated? && !a.Replace?
    ensures StoreSafe(StoreStep(w, a))
  {
    var after := StoreStep(w, a);
    assert forall i :: EvictedOn(w, i) ==> EvictedOn(after, i);
    SameKeepsSafe(w, after);
  }

  /** Every step keeps the invariant. */
  lemma StepKeepsSafe(w: StoreWorld, a: StoreAction)
    requires StoreSafe(w) && StoreEnabled(w, a)
    ensures StoreSafe(StoreStep(w, a))
  {
    match a
    case StorePass(_, _, _, _) =>
      PassKeepsSafe(w, a);
    case RegistryChange(registry) =>
      ListChangeIsNewcomers(w, registry);
      NewcomersFit(w, StoreStep(w, a), iset i | Tracked(registry, i) && !Tracked(w.registry, i));
    case PodRecreated(i, running) =>
      if i >= w.store.ss.spec.partition {
        ReplaceKeepsSafe(w, i, running);
      } else {
        RecreationIsNewcomer(w, i, running);
        NewcomersFit(w, StoreStep(w, a), iset{i});
      }
    case Replace(i, running) =>
      ReplaceKeepsSafe(w, i, running);
    case _ =>
      PlainStepKeepsSafe(w, a);
  }

  ghost predicate StoreRun(w: StoreWorld, run: seq<StoreAction>)
    decreases |run|
  {
    run != [] ==> StoreEnabled(w, run[0]) && StoreRun(StoreStep(w, run[0]), run[1..])
  }

  ghost function StoreAfter(w: StoreWorld, run: seq<StoreAction>): StoreWorld
    requires StoreRun(w, run)
    decreases |run|
  {
    if run == [] then w else StoreAfter(StoreStep(w, run[0]), run[1..])
  }

  /** Ordinals from `p` on run the current template, those below do not. */
  ghost predicate SuffixFrom(store: Store, n: int, p: int) {
    0 <= p <= n && forall i :: 0 <= i < n ==> (UpToDate(store, i) <==> i >= p)
  }

  /** A suffix has a first ordinal. */
  lemma {:induction false} SuffixBoundary(w: StoreWorld, n: int, p: int)
    requires UpgradedSuffix(w) && RolledAbovePartition(w)
    requires forall i :: 0 <= i < n ==> Tracked(w.registry, i)
    requires 0 <= p <= n && forall i :: p <= i < n ==> UpToDate(w.store, i)
    ensures exists q :: SuffixFrom(w.store, n, q) && (q == 0 || q <= w.store.ss.spec.partition + 1 || q == n)
    decreases p
  {
    if p > 0 && UpToDate(w.store, p - 1) {
      SuffixBoundary(w, n, p - 1);
    } else {
      if p > 0 {
        assert forall i :: 0 <= i < p ==> !UpToDate(w.store, i);
      }
      assert SuffixFrom(w.store, n, p);
    }
  }

  lemma AtMostOne(w: StoreWorld)
    requires OneEviction(w)
    ensures |w.store.evicting| <= 1
  {
    if w.store.evicting != {} {
      var a := AnyOf(w.store.evicting);
      assert forall b :: b in w.store.evicting ==> b == a;
      assert w.store.evicting - {a} == {};
      assert |w.store.evicting| == |w.store.evicting - {a}| + 1;
    }
  }

  /** In every reachable state at most one store is under leader eviction, no claim outside the set is
      left unmarked, and, when every ordinal has a store, the ordinals on the current template are a
      suffix that reaches down to the partition. */
  lemma {:induction false} StoreRunSafe(w: StoreWorld, run: seq<StoreAction>)
    requires StoreSafe(w) && StoreRun(w, run)
    ensures var v := StoreAfter(w, run);
            var n := v.store.ss.spec.replicas;
            && StoreSafe(v)
            && |v.store.evicting| <= 1
            && (n >= 0 && (forall i :: 0 <= i < n ==> Tracked(v.registry, i)) ==>
                  exists q :: SuffixFrom(v.store, n, q) && (q == 0 || q <= v.store.ss.spec.partition + 1 || q == n))
    decreases |run|
  {
    if run != [] {
      StepKeepsSafe(w, run[0]);
      StoreRunSafe(StoreStep(w, run[0]), run[1..]);
    } else {
      var n := w.store.ss.spec.replicas;
      if n >= 0 && forall i :: 0 <= i < n ==> Tracked(w.registry, i) {
        SuffixBoundary(w, n, n);
      }
      AtMostOne(w);
    }
  }

  /** An upgrade may start here: nothing is under eviction and every pod with a store runs the revision the
      status names, which is the template or, with the new template just written, what the last upgrade left. */
  ghost predicate EpochStart(w: StoreWorld) {
    var ss := w.store.ss;
    && RegistryOk(w.registry) && PodsKnown(w) && OperatorOwned(ss) && Fresh(ss.spec.replicas, w.store.pvcs)
    && w.store.evicting == {} && (forall i :: i in w.store.pods ==> w.store.pods[i].evictBegin.None?)
    && (forall i :: Tracked(w.registry, i) ==> On(w.store, i, ss.status.updateRevision))
    && (ss.status.updateRevision == ss.spec.template || ss.spec.partition >= ss.spec.replicas)
  }

  /** Every such state is safe, and any template may be written in it. */
  lemma EpochStartIsSafe(w: StoreWorld)
    requires EpochStart(w)
    ensures StoreSafe(w)
    ensures forall template :: Retemplatable(w, template)
  {
    var ss := w.store.ss;
    assert ss.status.updateRevision == ss.spec.template ==> forall i :: Tracked(w.registry, i) ==> UpToDate(w.store, i);
    assert forall j :: !HighestOff(w, j, ss.status.updateRevision);
  }

  // ---------------------------------------------------------------------------------------------
  // Guarded descent
  // ---------------------------------------------------------------------------------------------

  /** Kubernetes may roll the pod of ordinal i, which has a store. */
  ghost predicate OpenToRoll(w: StoreWorld, i: int) {
    Tracked(w.registry, i) && i >= w.store.ss.spec.partition && !UpToDate(w.store, i)
  }

  /** Entry j of PD's list is about the pod of ordinal i. */
  ghost predicate EntryOf(registry: seq<StoreInfo>, j: int, i: int) {
    0 <= j < |registry| && registry[j].stats.Some? && registry[j].pod == PodName(StoreTier, i)
  }

  /** PD lists store `id` as leading nothing, or its eviction was stamped more than three minutes ago. */
  ghost predicate DrainedOrTimedOut(w: StoreWorld, i: int, now: Time) {
    exists k :: EntryOf(w.registry, k, i)
                && i in w.store.pods
                && (|| w.registry[k].stats.value.leaders == 0
                    || exists t :: w.store.pods[i].evictBegin == Some(At(t)) && now > t + EVICT_LEADER_TIMEOUT)
  }

  /** Ordinal k with a store runs the current template, is running and Up, and is not under eviction. */
  ghost predicate Settled(w: StoreWorld, after: StoreWorld, k: int) {
    && UpToDate(w.store, k) && w.store.pods[k].running
    && forall j :: EntryOf(w.registry, j, k) ==>
         StateOf(w.registry[j]) == Up && w.registry[j].id !in after.store.evicting
  }

  /** The descent a pass runs, over the stores it has just synced. */
  ghost function PassDescent(w: StoreWorld, a: StoreAction): (Eviction, Decision)
    requires a.StorePass? && Applicable(w, a)
  {
    Descent(w.store.ss.status.replicas - 1, Eviction(w.store.pods, w.store.evicting),
            StoreStep(w, a).store.status.stores, w.store.ss.status.updateRevision, a.input)
  }

  /** Scaling and writing take the draft's template and partition or leave the set as it was. */
  lemma CommitOutcome(store: Store, draft: SetSpec, input: StoreInput)
    ensures var t := Committed(store, draft, input).0;
            && t == store.(ss := t.ss, pvcs := t.pvcs)
            && (t.ss.spec == store.ss.spec
              || (t.ss.spec.template == draft.template && t.ss.spec.partition == draft.partition))
  {
  }

  /** The pass finds the set in an upgrade to the template it runs, not paused by PD. */
  ghost predicate Rolling(w: StoreWorld, a: StoreAction)
    requires a.StorePass? && Applicable(w, a)
  {
    && a.pdPhase == NormalPhase && a.desired.template == w.store.ss.spec.template
    && SyncedStatus(w.store, a.pdPhase, a.input).0.phase == UpgradePhase
  }

  /** The set a pass leaves: unchanged, or with the default partition, or, in an upgrade not paused by
      PD, with the old template and the partition kept or lowered as the descent decides. */
  lemma PassOutcome(w: StoreWorld, a: StoreAction)
    requires OperatorOwned(w.store.ss) && RegistryOk(w.registry)
    requires a.StorePass? && Lists(a.input.listing, w.store.pods)
        && (a.input.infos.Some? ==> a.input.infos.value == w.registry)
    ensures var s, t := w.store, StoreStep(w, a).store;
            && SamePods(s.pods, t.pods)
            && (|| t.evicting == s.evicting
                || (PassDescent(w, a).0 == Eviction(t.pods, t.evicting)
                    && t.status.stores == Stores(w.registry, s.status.stores, a.input.now)))
            && (|| t.ss.spec == s.ss.spec
                || (!Rolling(w, a) && t.ss.spec.partition == a.desired.replicas
                    && (t.ss.spec.template == s.ss.spec.template
                      || (a.pdPhase == NormalPhase && t.ss.spec.template == a.desired.template)))
                || (&& a.pdPhase == NormalPhase && t.status.phase == UpgradePhase
                  && t.ss.spec.template == s.ss.spec.template
                    && t.status.stores == Stores(w.registry, s.status.stores, a.input.now)
                    && PassDescent(w, a).0 == Eviction(t.pods, t.evicting)
                    && (PassDescent(w, a).1 == LowerTo(t.ss.spec.partition)
                        || (PassDescent(w, a).1 == KeepPartition && t.ss.spec.partition == s.ss.spec.partition))))
  {
    var StorePass(pdPhase, pdAvailable, desired, input) := a;
    var s := w.store;
    if !pdAvailable || input.serviceFails {
      return;
    }
    var (status, failure) := SyncedStatus(s, pdPhase, input);
    var store1 := s.(status := status);
    if failure.Some? {
      return;
    }
    RegistryView(w.registry, s.status.stores, input.now);
    var draft := SetSpec(desired.replicas, desired.template, desired.replicas);
    if !TemplateEqual(draft.template, s.ss) || status.phase == UpgradePhase {
      DescentEvicts(s.ss.status.replicas - 1, Eviction(s.pods, s.evicting), status.stores,
        s.ss.status.updateRevision, input);
      var (store2, draft2, refused) := Upgraded(store1, pdPhase, draft, input);
      if refused.None? {
        CommitOutcome(store2, draft2, input);
      }
    } else {
      CommitOutcome(store1, draft, input);
    }
  }

  /** Only a descent opens a pod with a store, the one it lowers the partition to. */
  lemma OpenedByDescent(w: StoreWorld, a: StoreAction, i: int)
    requires StoreSafe(w) && a.StorePass? && PassEnabled(w, a)
    requires !OpenToRoll(w, i) && OpenToRoll(StoreStep(w, a), i)
    ensures var after := StoreStep(w, a);
            && i == after.store.ss.spec.partition && PassDescent(w, a).1 == LowerTo(i)
            && PassDescent(w, a).0 == Eviction(after.store.pods, after.store.evicting)
            && after.store.status.stores == Stores(w.registry, w.store.status.stores, a.input.now)
            && after.store.ss.spec.template == w.store.ss.spec.template
            && a.pdPhase == NormalPhase && after.store.status.phase == UpgradePhase
  {
    PassOutcome(w, a);
    if PassDescent(w, a).1.LowerTo?
       && StoreStep(w, a).store.status.stores == Stores(w.registry, w.store.status.stores, a.input.now) {
      LoweredIsLed(w, a);
    }
  }

  /** Above the pod a descent lowers the partition to, every pod with a store is up to date. */
  lemma LoweredIsLed(w: StoreWorld, a: StoreAction)
    requires StoreSafe(w) && a.StorePass? && Applicable(w, a) && PassDescent(w, a).1.LowerTo?
    requires StoreStep(w, a).store.status.stores == Stores(w.registry, w.store.status.stores, a.input.now)
    ensures var j := PassDescent(w, a).1.ordinal;
            Tracked(w.registry, j) && forall k :: k > j && Tracked(w.registry, k) ==> UpToDate(w.store, k)
  {
    RegistryView(w.registry, w.store.status.stores, a.input.now);
    var (e1, decision) := PassDescent(w, a);
    var n, e0 := w.store.ss.status.replicas - 1, Eviction(w.store.pods, w.store.evicting);
    var stores := Stores(w.registry, w.store.status.stores, a.input.now);
    DescentLowersExactly(n, decision.ordinal, e0, stores, w.store.ss.status.updateRevision, a.input);
    DescentEvicts(n, e0, stores, w.store.ss.status.updateRevision, a.input);
    SettledIsUpToDate(w, stores, decision.ordinal, e1);
  }

  /** A descent that lowers the partition to i has found store i ready and every store above settled. */
  lemma DescentSettles(w: StoreWorld, a: StoreAction, i: int)
    requires StoreSafe(w) && a.StorePass? && PassEnabled(w, a) && PassDescent(w, a).1 == LowerTo(i)
    requires StoreStep(w, a).store.status.stores == Stores(w.registry, w.store.status.stores, a.input.now)
    requires PassDescent(w, a).0 == Eviction(StoreStep(w, a).store.pods, StoreStep(w, a).store.evicting)
    ensures DrainedOrTimedOut(w, i, a.input.now)
    ensures forall k :: k > i && Tracked(w.registry, k) ==> Settled(w, StoreStep(w, a), k)
  {
    var s, after := w.store, StoreStep(w, a);
    var stores := Stores(w.registry, s.status.stores, a.input.now);
    var n, e0 := s.ss.status.replicas - 1, Eviction(s.pods, s.evicting);
    RegistryView(w.registry, s.status.stores, a.input.now);
    DescentLowersExactly(n, i, e0, stores, s.ss.status.updateRevision, a.input);
    DescentEvicts(n, e0, stores, s.ss.status.updateRevision, a.input);
    SettledIsUpToDate(w, stores, i, PassDescent(w, a).0);
    EntryMatches(w, s.status.stores, a.input.now, i);
    forall k | k > i && Tracked(w.registry, k)
      ensures Settled(w, after, k)
    {
      EntryMatches(w, s.status.stores, a.input.now, k);
    }
  }

  /** In every safe state, a pass opens at most one pod with a store to rolling: the one at the partition
      it writes. It does so only if that store is drained or its eviction timed out, and every store
      above is upgraded, running, Up and no longer evicting. */
  lemma GuardedDescent(w: StoreWorld, a: StoreAction, i: int)
    requires StoreSafe(w) && a.StorePass? && PassEnabled(w, a)
    requires !OpenToRoll(w, i) && OpenToRoll(StoreStep(w, a), i)
    ensures var after := StoreStep(w, a);
            && i == after.store.ss.spec.partition
            && after.store.ss.spec.template == w.store.ss.spec.template
            && a.pdPhase == NormalPhase && after.store.status.phase == UpgradePhase
            && DrainedOrTimedOut(w, i, a.input.now)
            && forall k :: k > i && Tracked(w.registry, k) ==> Settled(w, after, k)
  {
    OpenedByDescent(w, a, i);
    DescentSettles(w, a, i);
  }

  /** No fault keeps the pass from its write. */
  predicate Undisturbed(a: StoreAction)
    requires a.StorePass?
  {
    && a.pdAvailable && !a.input.serviceFails && a.input.infos.Some? && a.input.tombstones.Some?
    && a.input.write.TookEffect()
  }

  /** Ordinal j is the highest with a store off the revision the status names, its store is drained or timed out,
      and no store above stops the descent. */
  ghost predicate LeadsTo(w: StoreWorld, a: StoreAction, j: int)
    requires a.StorePass?
  {
    var update := w.store.ss.status.updateRevision;
    var stores := Stores(w.registry, w.store.status.stores, a.input.now);
    && HighestOff(w, j, update) && DrainedOrTimedOut(w, j, a.input.now)
    && forall k :: k > j && Tracked(w.registry, k) ==>
         Cleared(k, Eviction(w.store.pods, w.store.evicting), stores, update, a.input)
  }

  lemma FoundIfTracked(registry: seq<StoreInfo>, previous: map<int, KVStore>, now: Time, i: int)
    requires RegistryOk(registry)
    ensures StoreAt(Stores(registry, previous, now), i).Some? <==> Tracked(registry, i)
  {
    RegistryView(registry, previous, now);
    match StoreAt(Stores(registry, previous, now), i)
    case Some(id) => assert Registered(registry, id, i);
    case None =>
  }

  lemma ReadyMatches(w: StoreWorld, previous: map<int, KVStore>, now: Time, j: int)
    requires StoreSafe(w) && Tracked(w.registry, j)
    ensures var stores := Stores(w.registry, previous, now);
            && StoreAt(stores, j).Some?
            && (ReadyToUpgrade(w.store.pods[j], stores[StoreAt(stores, j).value], now)
              <==> DrainedOrTimedOut(w, j, now))
  {
    EntryMatches(w, previous, now, j);
  }

  /** What a descent of a safe world lowers the partition to, in terms of PD's list. */
  lemma DescentLeads(w: StoreWorld, a: StoreAction, j: int)
    requires StoreSafe(w) && a.StorePass?
    ensures var stores := Stores(w.registry, w.store.status.stores, a.input.now);
            Descent(w.store.ss.status.replicas - 1, Eviction(w.store.pods, w.store.evicting), stores,
                    w.store.ss.status.updateRevision, a.input).1 == LowerTo(j)
            <==> LeadsTo(w, a, j)
  {
    var s, update, n := w.store, w.store.ss.status.updateRevision, w.store.ss.status.replicas - 1;
    var stores, e0 := Stores(w.registry, s.status.stores, a.input.now), Eviction(s.pods, s.evicting);
    DescentLowersExactly(n, j, e0, stores, update, a.input);
    forall k
      ensures StoreAt(stores, k).Some? <==> Tracked(w.registry, k)
      ensures Tracked(w.registry, k) ==> 0 <= k <= n
    {
      FoundIfTracked(w.registry, s.status.stores, a.input.now, k);
    }
    if Tracked(w.registry, j) {
      ReadyMatches(w, s.status.stores, a.input.now, j);
    }
    assert forall k :: Cleared(k, e0, stores, update, a.input) && Tracked(w.registry, k) ==> On(s, k, update);
  }

  /** In an upgrade that is not paused a pass moves the partition to where the descent leads, and nowhere else. */
  lemma RollingPassMoves(w: StoreWorld, a: StoreAction)
    requires StoreSafe(w) && a.StorePass? && PassEnabled(w, a) && Rolling(w, a)
    ensures var stores := Stores(w.registry, w.store.status.stores, a.input.now);
            var decision := Descent(w.store.ss.status.replicas - 1, Eviction(w.store.pods, w.store.evicting), stores,
                                    w.store.ss.status.updateRevision, a.input).1;
            StoreStep(w, a).store.ss.spec.partition
            == if Undisturbed(a) && decision.LowerTo? then decision.ordinal else w.store.ss.spec.partition
  {
  }

  lemma PartitionMovesExactly(w: StoreWorld, a: StoreAction, j: int)
    requires StoreSafe(w) && a.StorePass? && PassEnabled(w, a) && Rolling(w, a) && j != w.store.ss.spec.partition
    ensures StoreStep(w, a).store.ss.spec.partition == j <==> Undisturbed(a) && LeadsTo(w, a, j)
  {
    RollingPassMoves(w, a);
    DescentLeads(w, a, j);
  }

  /** A pod above the partition can be the highest off the revision the status names only when that is stale. */
  lemma LedAboveIsStale(w: StoreWorld, j: int)
    requires StoreSafe(w) && HighestOff(w, j, w.store.ss.status.updateRevision) && j > w.store.ss.spec.partition
    ensures w.store.ss.status.updateRevision != w.store.ss.spec.template && UpToDate(w.store, j)
  {
  }

  /** While an upgrade is not paused the partition rises exactly when no fault keeps the pass from its write and
      the descent leads to a pod above it. Such a pod is up to date and the status stale; so under a status that
      names the template the partition never rises. */
  lemma PartitionRisesExactly(w: StoreWorld, a: StoreAction)
    requires StoreSafe(w) && a.StorePass? && PassEnabled(w, a) && Rolling(w, a)
    ensures var before, after := w.store.ss.spec.partition, StoreStep(w, a).store.ss.spec.partition;
            && (after > before <==> Undisturbed(a) && exists j :: j > before && LeadsTo(w, a, j))
            && (after > before ==>
                  w.store.ss.status.updateRevision != w.store.ss.spec.template && UpToDate(w.store, after))
  {
    var before, after := w.store.ss.spec.partition, StoreStep(w, a).store.ss.spec.partition;
    forall j | j > before
      ensures after == j <==> Undisturbed(a) && LeadsTo(w, a, j)
    {
      PartitionMovesExactly(w, a, j);
    }
    if after > before {
      PartitionMovesExactly(w, a, after);
      LedAboveIsStale(w, after);
    }
  }

  /** The status entry of the store on ordinal i repeats what PD lists for it. */
  lemma EntryMatches(w: StoreWorld, previous: map<int, KVStore>, now: Time, i: int)
    requires RegistryOk(w.registry) && Tracked(w.registry, i)
    ensures var stores := Stores(w.registry, previous, now);
            && StoreAt(stores, i).Some?
            && (forall j :: EntryOf(w.registry, j, i) ==>
                  && StoreAt(stores, i) == Some(w.registry[j].id)
                  && stores[w.registry[j].id].state == StateOf(w.registry[j])
                  && stores[w.registry[j].id].leaders == w.registry[j].stats.value.leaders)
            && exists j :: EntryOf(w.registry, j, i)
  {
    RegistryView(w.registry, previous, now);
    var id :| Registered(w.registry, id, i);
    var j :| Reports(w.registry, j, id) && w.registry[j].pod == PodName(StoreTier, i);
    forall j | EntryOf(w.registry, j, i)
      ensures var stores := Stores(w.registry, previous, now);
              && StoreAt(stores, i) == Some(w.registry[j].id)
              && stores[w.registry[j].id].state == StateOf(w.registry[j])
              && stores[w.registry[j].id].leaders == w.registry[j].stats.value.leaders
    {
      assert Reports(w.registry, j, w.registry[j].id);
      assert Registered(w.registry, w.registry[j].id, i);
      StoresAt(w.registry, previous, now, j);
    }
  }
}
