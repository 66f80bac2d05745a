/** A store upgrade is never stuck: from every safe state, whatever is under eviction, down or half done, some run
    without faults brings every pod with a store to the current template. */
module StoreProgress {
  import opened Kube
  import opened StoreStatus
  import opened StoreScaler
  import opened StoreMembers
  import opened StoreSafety
  import opened StoreRuns
  import opened StoreLimits
  import opened StoreLosses

  /** No pod is lost, no other template is asked for, and no fault keeps a pass from its write. */
  ghost predicate FaultFree(run: seq<StoreAction>, template: PodSpec) {
    forall k :: 0 <= k < |run| ==>
      match run[k]
      case StorePass(_, _, desired, _) => desired.template == template && Undisturbed(run[k])
      case PodRecreated(_, _) => false
      case _ => true
  }

  /** The set's status names the template and an upgrade to it, every pod is running, and every store is up and
      leads nothing. */
  ghost predicate Calmed(w: StoreWorld) {
    var ss := w.store.ss;
    && OperatorOwned(ss) && RegistryOk(w.registry) && PodsKnown(w) && w.registry == Calm(w.registry)
    && ss.status.updateRevision == ss.spec.template != ss.status.currentRevision && ss.status.observedGeneration.Some?
    && forall i :: i in w.store.pods && 0 <= i < ss.spec.replicas ==> w.store.pods[i].running
  }

  /** From `w` to `v` at most pods were brought to the template. */
  ghost predicate Advanced(w: StoreWorld, v: StoreWorld) {
    && v.registry == w.registry && v.store.ss.spec.template == w.store.ss.spec.template
    && forall i :: UpToDate(w.store, i) ==> UpToDate(v.store, i)
  }

  lemma PassOpens(w: StoreWorld, listing: seq<int>, j: int)
    requires Calmed(w) && HighestOff(w, j, w.store.ss.spec.template) && Lists(listing, w.store.pods)
    ensures StoreEnabled(w, RollingPass(w, listing)) && Undisturbed(RollingPass(w, listing))
    ensures var w1 := StoreStep(w, RollingPass(w, listing));
            && Calmed(w1) && w1.registry == w.registry && w1.store.ss.spec == w.store.ss.spec.(partition := j)
            && forall i, rev :: On(w.store, i, rev) == On(w1.store, i, rev)
  {
    RollingPassDescends(w, listing);
    CalmPassLowers(w, listing, j);
  }

  lemma RollAdvances(w: StoreWorld, j: int)
    requires Calmed(w) && w.store.ss.spec.partition == j && j in w.store.pods && !UpToDate(w.store, j)
    ensures StoreEnabled(w, Replace(j, true))
    ensures var v := StoreStep(w, Replace(j, true));
            Calmed(v) && Advanced(w, v) && UpToDate(v.store, j) && v.store.ss.spec.replicas == w.store.ss.spec.replicas
  {
    var v := StoreStep(w, Replace(j, true));
    assert forall i :: UpToDate(v.store, i) <==> UpToDate(w.store, i) || i == j;
  }

  /** A pass opens the highest pod off the template, and it is rolled. */
  lemma Round(w: StoreWorld, j: int) returns (run: seq<StoreAction>)
    requires Calmed(w) && HighestOff(w, j, w.store.ss.spec.template)
    ensures StoreRun(w, run) && |run| == 2 && FaultFree(run, w.store.ss.spec.template)
    ensures var v := StoreAfter(w, run);
            Calmed(v) && Advanced(w, v) && UpToDate(v.store, j) && v.store.ss.spec.replicas == w.store.ss.spec.replicas
  {
    var listing := SomeOrder(w.store.pods);
    var pass, roll := RollingPass(w, listing), Replace(j, true);
    PassOpens(w, listing, j);
    var w1 := StoreStep(w, pass);
    assert !UpToDate(w1.store, j);
    RollAdvances(w1, j);
    RunFrom(w1, roll, []);
    RunFrom(w, pass, [roll] + []);
    run := [pass] + ([roll] + []);
  }

  /** One round for each ordinal below n whose pod is off the template, from the top down. */
  lemma {:induction false} Rounds(w: StoreWorld, n: nat) returns (run: seq<StoreAction>)
    requires Calmed(w) && forall k :: k >= n && Tracked(w.registry, k) ==> UpToDate(w.store, k)
    ensures StoreRun(w, run) && |run| <= 2 * n && FaultFree(run, w.store.ss.spec.template)
    ensures var v := StoreAfter(w, run);
            Advanced(w, v) && forall i :: Tracked(v.registry, i) ==> UpToDate(v.store, i)
    decreases n
  {
    if n == 0 {
      assert forall i :: Tracked(w.registry, i) ==> 0 <= i;
      run := [];
    } else if !Tracked(w.registry, n - 1) || UpToDate(w.store, n - 1) {
      run := Rounds(w, n - 1);
    } else {
      var first := Round(w, n - 1);
      var rest := Rounds(StoreAfter(w, first), n - 1);
      RunOn(w, first, rest);
      run := first + rest;
    }
  }

  /** The controller takes notice of the template, the stores come up and their leaders leave, the pods start. */
  lemma CalmDown(w: StoreWorld) returns (run: seq<StoreAction>)
    requires StoreSafe(w)
    ensures StoreRun(w, run) && FaultFree(run, w.store.ss.spec.template)
    ensures var v := StoreAfter(w, run);
            && Calmed(v) && v.store.ss.spec == w.store.ss.spec && v.registry == Calm(w.registry)
            && forall i, rev :: On(v.store, i, rev) == On(w.store, i, rev)
  {
    var calm := RegistryChange(Calm(w.registry));
    ListMoves(w, Calm(w.registry));
    var w1 := StoreStep(w, calm);
    var w2 := StoreStep(w1, Observe);
    var drift := StatusDrift(Upgrading(w2.store.ss));
    var w3 := StoreStep(w2, drift);
    var n := if w.store.ss.spec.replicas < 0 then 0 else w.store.ss.spec.replicas;
    var started := StartAll(w3, n);
    var v := StoreAfter(w3, started);
    assert forall i, rev :: On(v.store, i, rev) == On(w.store, i, rev);
    assert Calm(w1.registry) == w1.registry;
    RunFrom(w2, drift, started);
    RunFrom(w1, Observe, [drift] + started);
    RunFrom(w, calm, [Observe] + ([drift] + started));
    run := [calm] + ([Observe] + ([drift] + started));
  }

  /** In a run without faults every pod with a store comes to the current template. */
  lemma NeverStuck(w: StoreWorld) returns (run: seq<StoreAction>)
    requires StoreSafe(w)
    ensures StoreRun(w, run) && FaultFree(run, w.store.ss.spec.template)
    ensures var v := StoreAfter(w, run);
            && v.store.ss.spec.template == w.store.ss.spec.template
            && (forall i :: Tracked(v.registry, i) <==> Tracked(w.registry, i))
            && (forall i :: Tracked(v.registry, i) ==> UpToDate(v.store, i))
  {
    var calming := CalmDown(w);
    var w1 := StoreAfter(w, calming);
    ListMoves(w, Calm(w.registry));
    var n := if w.store.ss.spec.replicas < 0 then 0 else w.store.ss.spec.replicas;
    var rounds := Rounds(w1, n);
    RunOn(w, calming, rounds);
    run := calming + rounds;
  }
}
