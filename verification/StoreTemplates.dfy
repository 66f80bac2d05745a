/** When the store template may change: exactly the states from which every later run keeps one eviction at
    most, the suffix of updated pods, and nothing unrolled above the partition. */
module StoreTemplates {
  import opened Kube
  import opened StoreStatus
  import opened StoreScaler
  import opened StoreMembers
  import opened StoreSafety
  import opened StoreRuns
  import opened StoreLimits
  import opened StoreLosses

  /** The pass writes the template it asks for, which the set did not have. */
  ghost predicate Rewrites(w: StoreWorld, a: StoreAction) {
    && a.StorePass? && Applicable(w, a) && (a.input.infos.Some? ==> a.input.infos.value == w.registry)
    && a.desired.replicas >= w.store.ss.spec.replicas
    && a.desired.template != w.store.ss.spec.template
    && StoreStep(w, a).store.ss.spec.template == a.desired.template
  }

  /** Such a pass evicts nothing, touches no pod, and writes the default partition. */
  lemma WriteLeaves(w: StoreWorld, a: StoreAction)
    requires StoreSafe(w) && Rewrites(w, a)
    ensures var s, t := w.store, StoreStep(w, a).store;
            && t.pods == s.pods && t.evicting == s.evicting && t.pvcs == s.pvcs && t.ss.status == s.ss.status
            && OperatorOwned(t.ss) && t.ss.spec.replicas == s.ss.spec.replicas
            && t.ss.spec.partition >= s.ss.spec.replicas
  {
  }

  /** Before and after the write, the pods run what they ran. */
  lemma WriteKeepsRevisions(w: StoreWorld, a: StoreAction)
    requires StoreSafe(w) && Rewrites(w, a)
    ensures var v := StoreStep(w, a);
            && (forall i, rev :: On(w.store, i, rev) == On(v.store, i, rev))
            && (forall j, rev :: HighestOff(w, j, rev) == HighestOff(v, j, rev))
            && (forall j, rev :: StopsSafely(w, j, rev) == StopsSafely(v, j, rev))
            && PodsKnown(v) && AnnotatedIfEvicted(v)
  {
    WriteLeaves(w, a);
    SameOff(w, StoreStep(w, a));
    assert forall i :: EvictedOn(w, i) ==> EvictedOn(StoreStep(w, a), i);
  }

  /** The write of any template keeps the invariant if and only if the template was Retemplatable. */
  lemma TemplateExact(w: StoreWorld, a: StoreAction)
    requires StoreSafe(w) && Rewrites(w, a)
    ensures StoreSafe(StoreStep(w, a)) <==> Retemplatable(w, a.desired.template)
  {
    if Retemplatable(w, a.desired.template) {
      TimelyKeepsSafe(w, a);
    }
    if StoreSafe(StoreStep(w, a)) {
      SafeIsTimely(w, a);
    }
  }

  lemma TimelyKeepsSafe(w: StoreWorld, a: StoreAction)
    requires StoreSafe(w) && Rewrites(w, a) && Retemplatable(w, a.desired.template)
    ensures StoreSafe(StoreStep(w, a))
  {
    var v := StoreStep(w, a);
    WriteLeaves(w, a);
    WriteKeepsRevisions(w, a);
    assert forall i :: UpToDate(v.store, i) == On(w.store, i, a.desired.template);
    forall x | x in v.store.evicting
      ensures exists m :: EvictedAt(v, x, m)
    {
      var m :| EvictedAt(w, x, m);
      assert EvictedAt(v, x, m);
    }
  }

  lemma SafeIsTimely(w: StoreWorld, a: StoreAction)
    requires StoreSafe(w) && Rewrites(w, a) && StoreSafe(StoreStep(w, a))
    ensures Retemplatable(w, a.desired.template)
  {
    var v := StoreStep(w, a);
    WriteLeaves(w, a);
    WriteKeepsRevisions(w, a);
    assert forall i :: UpToDate(v.store, i) == On(w.store, i, a.desired.template);
    forall x, m, k | x in w.store.evicting && Registered(w.registry, x, m) && Tracked(w.registry, k) && k > m
      ensures On(w.store, k, a.desired.template)
    {
      var at :| EvictedAt(v, x, at);
      assert at == m && UpToDate(v.store, k);
    }
  }

  // ---------------------------------------------------------------------------------------------
  // The exact condition
  // ---------------------------------------------------------------------------------------------

  /** After the write of any template, new or old, every later run keeps one eviction, the suffix and the rolled
      pods above the partition if and only if the template was Retemplatable when it was written. */
  lemma TemplateRunExact(w: StoreWorld, a: StoreAction)
    requires StoreSafe(w) && Rewrites(w, a)
    ensures KeptInEveryRun(StoreStep(w, a)) <==> Retemplatable(w, a.desired.template)
  {
    if Retemplatable(w, a.desired.template) {
      TemplateExact(w, a);
      SafeIsKept(StoreStep(w, a));
    } else {
      var run := UntimelyLoses(w, a);
    }
  }

  /** A store is under eviction below a pod off the template, and the controller takes notice of the template. */
  lemma ObservedEvictionLoses(v: StoreWorld, x: int, m: int, k: int) returns (run: seq<StoreAction>)
    requires OperatorOwned(v.store.ss) && RegistryOk(v.registry) && PodsKnown(v)
    requires v.store.evicting == {x} && Registered(v.registry, x, m) && Tracked(v.registry, k) && m < k
    requires !UpToDate(v.store, k) && v.store.pods[k].evictBegin.None?
    ensures StoreRun(v, run) && !Kept(StoreAfter(v, run))
  {
    var v1 := StoreStep(v, Observe);
    assert !On(v1.store, k, v1.store.ss.status.updateRevision);
    var rest := EvictedBelowLoses(v1, x, m, k);
    RunFrom(v, Observe, rest);
    run := [Observe] + rest;
  }

  lemma UntimelyLoses(w: StoreWorld, a: StoreAction) returns (run: seq<StoreAction>)
    requires StoreSafe(w) && Rewrites(w, a) && !Retemplatable(w, a.desired.template)
    ensures StoreRun(StoreStep(w, a), run) && !Kept(StoreAfter(StoreStep(w, a), run))
  {
    var v, update, template := StoreStep(w, a), w.store.ss.status.updateRevision, a.desired.template;
    WriteLeaves(w, a);
    WriteKeepsRevisions(w, a);
    assert forall i :: UpToDate(v.store, i) == On(w.store, i, template);
    if !Kept(v) {
      run := [];
    } else if x, m, k :| x in w.store.evicting && Registered(w.registry, x, m) && Tracked(w.registry, k) && k > m
                         && !On(w.store, k, template) {
      Unannotated(w, x, m, k);
      run := ObservedEvictionLoses(v, x, m, k);
    } else {
      var j :| HighestOff(w, j, update) && !StopsSafely(w, j, template);
      if k :| k > j && Tracked(w.registry, k) && !On(w.store, k, template) {
        run := StaleDescentLoses(v, j, k);
      } else {
        var x, m :| x in w.store.evicting && Registered(w.registry, x, m) && m < j;
        Unannotated(w, x, m, j);
        assert HighestOff(v, j, update) && !StopsSafely(v, j, template);
        run := EvictedBelowLoses(v, x, m, j);
      }
    }
  }
}
