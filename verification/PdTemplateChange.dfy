/** When the PD template may change: exactly the states from which the new template keeps every later run to
    one member down. */
module PdTemplateChange {
  import opened Kube
  import opened PdMembers
  import opened PdSafety

  /** Every pass of the run asks for this template. */
  ghost predicate Asks(run: seq<PdAction>, template: PodSpec) {
    forall k :: 0 <= k < |run| && run[k].PdPass? ==> run[k].desired.template == template
  }

  /** The pass writes the template it asks for, which the set did not have. */
  ghost predicate Rewrites(w: PdWorld, a: PdAction) {
    && a.PdPass? && Applicable(w, a)
    && a.desired.template != w.pd.ss.spec.template
    && PdStep(w, a).pd.ss.spec.template == a.desired.template
  }

  /** Such a pass leaves the default partition, and pods, status of the set and health as they are. */
  lemma RewriteOutcome(w: PdWorld, a: PdAction)
    requires PdSafe(w) && Rewrites(w, a)
    ensures var v := PdStep(w, a);
            && v.pd.pods == w.pd.pods && v.health == w.health && v.pd.ss.status == w.pd.ss.status
            && v.pd.ss == Applied(w.pd.ss, SetSpec(Count(w), a.desired.template, Count(w)))
  {
    PassOutcome(w, a);
  }

  /** In the state after the write the invariant says what Restartable says before it. */
  lemma SafeAfterExactly(w: PdWorld, a: PdAction)
    requires PdSafe(w) && Rewrites(w, a)
    ensures PdSafe(PdStep(w, a)) <==> Restartable(w, a.desired.template)
  {
    RewriteOutcome(w, a);
    var v := PdStep(w, a);
    assert forall i :: Healthy(w, i) == Healthy(v, i);
    assert forall i, rev :: On(w, i, rev) == On(v, i, rev);
    assert forall rev :: AllOn(w, rev) == AllOn(v, rev);
    assert DownBelowNone(w, a.desired.template) == DownBelowNone(v, a.desired.template);
    assert StatusSafe(w, a.desired.template) == StatusSafe(v, a.desired.template);
  }

  // ---------------------------------------------------------------------------------------------
  // Building runs
  // ---------------------------------------------------------------------------------------------

  lemma RunFrom(w: PdWorld, a: PdAction, rest: seq<PdAction>)
    requires PdEnabled(w, a) && PdRun(PdStep(w, a), rest)
    ensures PdRun(w, [a] + rest) && PdAfter(w, [a] + rest) == PdAfter(PdStep(w, a), rest)
  {
    assert ([a] + rest)[1..] == rest;
  }

  /** A pass that sees the members as they are and meets no fault. */
  function PassAt(w: PdWorld, listing: seq<int>): PdAction {
    PdPass(Desired(Count(w), w.pd.ss.spec.template), PdInput(false, listing, Some(w.health), Delivered))
  }

  /** One that asks for another template writes it. */
  function WriteAt(w: PdWorld, template: PodSpec, listing: seq<int>): PdAction {
    PdPass(Desired(Count(w), template), PdInput(false, listing, Some(w.health), Delivered))
  }

  lemma WriteOutcome(w: PdWorld, template: PodSpec, listing: seq<int>)
    requires OperatorOwned(w.pd.ss) && PodsComplete(w) && AtMostOneDown(w) && PullFailsDown(w)
    requires Lists(listing, w.pd.pods) && template != w.pd.ss.spec.template
    ensures var (after, error) := Synced(w.pd, Desired(Count(w), template), WriteAt(w, template, listing).input);
            && error.None? && after.status.phase == UpgradePhase && after.pods == w.pd.pods
            && after.ss == Applied(w.pd.ss, SetSpec(Count(w), template, Count(w)))
  {
    NeverForced(w, listing);
  }

  /** It lowers the partition to the highest pod off the revision the status names, once every
      member above that pod is healthy, whatever template the pods above run. */
  lemma PassLowers(w: PdWorld, listing: seq<int>, j: int)
    requires OperatorOwned(w.pd.ss) && PodsComplete(w) && AtMostOneDown(w) && PullFailsDown(w)
    requires Lists(listing, w.pd.pods)
    requires 0 <= j < Count(w) && !On(w, j, w.pd.ss.status.updateRevision)
    requires forall k :: j < k < Count(w) ==> On(w, k, w.pd.ss.status.updateRevision) && Healthy(w, k)
    ensures PdEnabled(w, PassAt(w, listing))
    ensures var (after, error) := Synced(w.pd, PassAt(w, listing).desired, PassAt(w, listing).input);
            error.None? && after.status.phase == UpgradePhase
    ensures var v := PdStep(w, PassAt(w, listing));
            && v.pd.pods == w.pd.pods && v.health == w.health && v.pd.ss.status == w.pd.ss.status
            && v.pd.ss.spec == SetSpec(Count(w), w.pd.ss.spec.template, j)
  {
    NeverForced(w, listing);
    DescentSees(w, listing, j);
  }

  /** The sync sees the upgrade, and its descent leads to the highest pod off the revision. */
  lemma DescentSees(w: PdWorld, listing: seq<int>, j: int)
    requires PodsComplete(w) && Lists(listing, w.pd.pods)
    requires 0 <= j < Count(w) && !On(w, j, w.pd.ss.status.updateRevision)
    requires forall k :: j < k < Count(w) ==> On(w, k, w.pd.ss.status.updateRevision) && Healthy(w, k)
    ensures var update := w.pd.ss.status.updateRevision;
            && OffRevision(listing, w.pd.pods, update)
            && MemberDescent(w.pd.ss.status.replicas - 1, w.pd.pods, w.health, update) == LowerTo(j)
  {
    var update := w.pd.ss.status.updateRevision;
    OffRevisionExact(listing, w.pd.pods, update);
    assert j in listing && w.pd.pods[j].revision != Some(update);
    MemberDescentExact(Count(w) - 1, j, w.pd.pods, w.health, update);
    forall k | j < k < Count(w)
      ensures UpgradedMember(k, w.pd.pods, w.health, update)
    {
      assert On(w, k, update) && Healthy(w, k);
    }
  }

  /** The highest ordinal below n whose pod is off the revision. */
  lemma {:induction false} HighestOff(w: PdWorld, rev: Revision, n: int, i: int) returns (j: int)
    requires 0 <= i < n && !On(w, i, rev)
    ensures i <= j < n && !On(w, j, rev) && forall k :: j < k < n ==> On(w, k, rev)
    decreases n
  {
    if On(w, n - 1, rev) {
      j := HighestOff(w, rev, n - 1, i);
    } else {
      j := n - 1;
    }
  }

  ghost predicate TwoDown(w: PdWorld, x: int, y: int) {
    0 <= x < Count(w) && 0 <= y < Count(w) && x != y && !Healthy(w, x) && !Healthy(w, y)
  }

  // ---------------------------------------------------------------------------------------------
  // The two ways to lose a second member
  // ---------------------------------------------------------------------------------------------

  /** A member is down below a pod to be rolled: the first pass after the status is up to date opens the
      highest such pod, without a look at the members below it. */
  lemma DownBelowLoses(v: PdWorld, d: int, k: int) returns (run: seq<PdAction>, x: int)
    requires OperatorOwned(v.pd.ss) && PodsComplete(v) && AtMostOneDown(v) && PullFailsDown(v)
    requires v.pd.ss.spec.partition == Count(v)
    requires 0 <= d < k < Count(v) && !Healthy(v, d) && !UpToDate(v, k)
    ensures PdRun(v, run) && Asks(run, v.pd.ss.spec.template)
    ensures TwoDown(PdAfter(v, run), d, x)
  {
    var template := v.pd.ss.spec.template;
    x := HighestOff(v, template, Count(v), k);
    var listing := SomeOrder(v.pd.pods);
    var v1 := PdStep(v, Observe);
    assert forall i, rev :: On(v, i, rev) == On(v1, i, rev);
    assert forall i :: Healthy(v, i) == Healthy(v1, i);
    PassLowers(v1, listing, x);
    var v2 := PdStep(v1, PassAt(v1, listing));
    assert !UpToDate(v2, x);
    var v3 := PdStep(v2, Roll(x, false));
    assert TwoDown(v3, d, x);
    RunFrom(v2, Roll(x, false), []);
    RunFrom(v1, PassAt(v1, listing), [Roll(x, false)] + []);
    RunFrom(v, Observe, [PassAt(v1, listing)] + ([Roll(x, false)] + []));
    run := [Observe] + ([PassAt(v1, listing)] + ([Roll(x, false)] + []));
  }

  /** The one member that is down, if any, may recover. */
  lemma AllRecovered(v: PdWorld) returns (down: int)
    requires OperatorOwned(v.pd.ss) && PodsComplete(v) && AtMostOneDown(v) && PullFailsDown(v)
    ensures PdEnabled(v, Recover(down))
    ensures var v1 := PdStep(v, Recover(down));
            && v1.pd.ss == v.pd.ss && PodsComplete(v1) && AtMostOneDown(v1) && PullFailsDown(v1)
            && (forall m, rev :: On(v, m, rev) == On(v1, m, rev))
            && (forall m :: 0 <= m < Count(v) ==> Healthy(v1, m))
  {
    down := 0;
    if d :| 0 <= d < Count(v) && !Healthy(v, d) {
      down := d;
    }
    var v1 := PdStep(v, Recover(down));
    assert forall m :: 0 <= m < Count(v) && m != down ==> Healthy(v, m);
    assert forall m :: Healthy(v, m) || m == down ==> Healthy(v1, m);
  }

  /** Every pod above the lower of two pods to be rolled runs the revision the status still names. */
  ghost predicate StalePast(v: PdWorld, i: int, k: int) {
    && !AllOn(v, v.pd.ss.status.updateRevision)
    && 0 <= i < k < Count(v) && !UpToDate(v, i) && !UpToDate(v, k)
    && forall m :: i < m < Count(v) ==> On(v, m, v.pd.ss.status.updateRevision)
  }

  /** A pass before the status is up to date goes down past both, and then both may be rolled. */
  lemma StaleDescentFrom(v: PdWorld, i: int, k: int) returns (run: seq<PdAction>)
    requires OperatorOwned(v.pd.ss) && PodsComplete(v) && AtMostOneDown(v) && PullFailsDown(v)
    requires v.pd.ss.spec.partition == Count(v) && StalePast(v, i, k)
    requires forall m :: 0 <= m < Count(v) ==> Healthy(v, m)
    ensures PdRun(v, run) && Asks(run, v.pd.ss.spec.template)
    ensures TwoDown(PdAfter(v, run), i, k)
  {
    var update := v.pd.ss.status.updateRevision;
    var off :| 0 <= off < Count(v) && !On(v, off, update);
    var j := HighestOff(v, update, Count(v), off);
    var listing := SomeOrder(v.pd.pods);
    PassLowers(v, listing, j);
    var v1 := PdStep(v, PassAt(v, listing));
    var v2 := PdStep(v1, Observe);
    assert forall m :: UpToDate(v, m) == UpToDate(v2, m);
    TwoRolls(v2, k, i);
    var rolls := [Roll(k, false)] + ([Roll(i, false)] + []);
    RunFrom(v1, Observe, rolls);
    RunFrom(v, PassAt(v, listing), [Observe] + rolls);
    run := [PassAt(v, listing)] + ([Observe] + rolls);
  }

  lemma StaleDescentLoses(v: PdWorld, i: int, k: int) returns (run: seq<PdAction>)
    requires OperatorOwned(v.pd.ss) && PodsComplete(v) && AtMostOneDown(v) && PullFailsDown(v)
    requires v.pd.ss.spec.partition == Count(v) && StalePast(v, i, k)
    ensures PdRun(v, run) && Asks(run, v.pd.ss.spec.template)
    ensures TwoDown(PdAfter(v, run), i, k)
  {
    var down := AllRecovered(v);
    var v1 := PdStep(v, Recover(down));
    assert forall m, rev :: On(v, m, rev) == On(v1, m, rev);
    assert forall m :: UpToDate(v, m) == UpToDate(v1, m);
    assert AllOn(v, v.pd.ss.status.updateRevision) == AllOn(v1, v.pd.ss.status.updateRevision);
    var rest := StaleDescentFrom(v1, i, k);
    RunFrom(v, Recover(down), rest);
    run := [Recover(down)] + rest;
  }

  lemma TwoRolls(v: PdWorld, k: int, i: int)
    requires v.pd.ss.status.updateRevision == v.pd.ss.spec.template
    requires k in v.pd.pods && i in v.pd.pods && i != k && 0 <= i < Count(v) && 0 <= k < Count(v)
    requires v.pd.ss.spec.partition <= i && v.pd.ss.spec.partition <= k
    requires !UpToDate(v, i) && !UpToDate(v, k)
    ensures var rolls := [Roll(k, false)] + ([Roll(i, false)] + []);
            PdRun(v, rolls) && TwoDown(PdAfter(v, rolls), i, k)
  {
    var v1 := PdStep(v, Roll(k, false));
    assert !UpToDate(v1, i);
    var v2 := PdStep(v1, Roll(i, false));
    assert TwoDown(v2, i, k);
    RunFrom(v1, Roll(i, false), []);
    RunFrom(v, Roll(k, false), [Roll(i, false)] + []);
  }

  // ---------------------------------------------------------------------------------------------
  // The exact condition
  // ---------------------------------------------------------------------------------------------

  lemma NotRestartableLoses(w: PdWorld, a: PdAction) returns (run: seq<PdAction>, x: int, y: int)
    requires PdSafe(w) && Rewrites(w, a) && !Restartable(w, a.desired.template)
    ensures var v := PdStep(w, a);
            PdRun(v, run) && Asks(run, a.desired.template) && TwoDown(PdAfter(v, run), x, y)
  {
    RewriteOutcome(w, a);
    var v, template := PdStep(w, a), a.desired.template;
    assert forall i :: Healthy(w, i) == Healthy(v, i);
    assert forall i, rev :: On(w, i, rev) == On(v, i, rev);
    if !DownBelowNone(w, template) {
      var d, k :| 0 <= d < k < Count(w) && !Healthy(w, d) && !On(w, k, template);
      run, y := DownBelowLoses(v, d, k);
      x := d;
    } else {
      assert AllOn(w, w.pd.ss.status.updateRevision) == AllOn(v, w.pd.ss.status.updateRevision);
      var i, k :| 0 <= i < k < Count(w) && !On(w, i, template) && !On(w, k, template)
                  && forall m :: i < m < Count(w) ==> On(w, m, w.pd.ss.status.updateRevision);
      run := StaleDescentLoses(v, i, k);
      x, y := i, k;
    }
  }

  /** After the write of any template, new or old, at most one member is down in every later run of that
      template if and only if the template was Restartable when it was written. */
  lemma TemplateChangeExact(w: PdWorld, a: PdAction)
    requires PdSafe(w) && Rewrites(w, a)
    ensures var v := PdStep(w, a);
            (forall run :: PdRun(v, run) && Asks(run, a.desired.template) ==> AtMostOneDown(PdAfter(v, run)))
            <==> Restartable(w, a.desired.template)
  {
    var v := PdStep(w, a);
    SafeAfterExactly(w, a);
    if Restartable(w, a.desired.template) {
      forall run | PdRun(v, run)
        ensures AtMostOneDown(PdAfter(v, run))
      {
        QuorumInEveryRun(v, run);
      }
    } else {
      var run, x, y := NotRestartableLoses(w, a);
      assert !AtMostOneDown(PdAfter(v, run));
    }
  }

  /** With three or four members it is the quorum of every later run that hangs on it; PdQuorum has the condition
      for more. */
  lemma QuorumExact(w: PdWorld, a: PdAction)
    requires PdSafe(w) && Rewrites(w, a) && 3 <= Count(w) <= 4
    ensures var v := PdStep(w, a);
            (forall run :: PdRun(v, run) && Asks(run, a.desired.template) ==> Quorum(PdAfter(v, run)))
            <==> Restartable(w, a.desired.template)
  {
    var v := PdStep(w, a);
    SafeAfterExactly(w, a);
    RewriteOutcome(w, a);
    if Restartable(w, a.desired.template) {
      forall run | PdRun(v, run)
        ensures Quorum(PdAfter(v, run))
      {
        QuorumInEveryRun(v, run);
      }
    } else {
      var run, x, y := NotRestartableLoses(w, a);
      CountInRuns(v, run);
      TwoDownNoQuorum(PdAfter(v, run), x, y);
    }
  }

  lemma TwoDownNoQuorum(w: PdWorld, x: int, y: int)
    requires TwoDown(w, x, y) && Count(w) <= 4
    ensures !Quorum(w)
  {
    var healthy := HealthyMembers(w);
    RangeSize(healthy + {x, y}, Count(w));
    assert |healthy + {x, y}| == |healthy| + |{x, y}|;
  }

  /** No step changes the member count. */
  lemma {:induction false} CountInRuns(w: PdWorld, run: seq<PdAction>)
    requires PdRun(w, run)
    ensures Count(PdAfter(w, run)) == Count(w)
    decreases |run|
  {
    if run != [] {
      CountInRuns(PdStep(w, run[0]), run[1..]);
    }
  }

  /** For a template that no pod runs, written while the status names the current one: the pods must all be
      on the current template or the top one not yet, and every member below the top healthy. */
  lemma NewTemplateExact(w: PdWorld, template: PodSpec)
    requires PdSafe(w) && w.pd.ss.status.updateRevision == w.pd.ss.spec.template
    requires template != w.pd.ss.spec.template && forall i :: !On(w, i, template)
    ensures Restartable(w, template)
        <==> && (forall i :: 0 <= i < Count(w) - 1 ==> Healthy(w, i))
             && (AllOn(w, w.pd.ss.spec.template) || !UpToDate(w, Count(w) - 1))
    ensures UpgradedSuffix(w) ==>
              (!UpToDate(w, Count(w) - 1) <==> forall i :: 0 <= i < Count(w) ==> !UpToDate(w, i))
  {
    var top := Count(w) - 1;
    assert !On(w, top, template);
    if StatusSafe(w, template) && !AllOn(w, w.pd.ss.spec.template) {
      assert !On(w, top - 1, template) && !On(w, top, template);
    }
  }

  /** Three members, all healthy, ordinals 1 and 2 on the new template "b": the state is safe, and yet no new
      template may be written. */
  function MidUpgrade(): PdWorld {
    var spec := SetSpec(3, "b", 1);
    var pods := map[0 := Pod(Some("a"), true, false, None), 1 := Pod(Some("b"), true, false, None),
                    2 := Pod(Some("b"), true, false, None)];
    PdWorld(Pd(StatefulSet(1, spec, Some(spec), Some("b"), SetStatus(Some(1), 3, 3, "a", "b")), pods,
               PdStatus(UpgradePhase, true, map[])),
            map[0 := true, 1 := true, 2 := true])
  }

  lemma HealthyMidUpgradeNotRestartable()
    ensures PdSafe(MidUpgrade()) && !Restartable(MidUpgrade(), "c")
    ensures forall i :: 0 <= i < Count(MidUpgrade()) ==> Healthy(MidUpgrade(), i)
  {
    var w := MidUpgrade();
    assert forall i :: UpToDate(w, i) <==> i == 1 || i == 2;
    assert forall i :: !On(w, i, "c");
    assert UpToDate(w, 2) && !On(w, 0, "b");
    NewTemplateExact(w, "c");
  }
}
