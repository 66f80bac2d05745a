/** How a PD upgrade gets on: in every run the rolls are paid for by the pods off the template, and an upgrade
    that the set's status names ends after exactly as many helpful steps as its rank, and is never stuck. */
module PdProgress {
  import opened Kube
  import opened PdMembers
  import opened PdSafety
  import opened PdTemplateChange
  import opened PdQuorum

  /** The pods still to be rolled. */
  function Lagging(w: PdWorld): set<int> {
    set i | 0 <= i < Count(w) && !UpToDate(w, i)
  }

  function Rolls(run: seq<PdAction>): nat {
    if run == [] then 0 else (if run[0].Roll? then 1 else 0) + Rolls(run[1..])
  }

  lemma LaggingAfterRoll(w: PdWorld, i: int, pullFails: bool)
    requires PdSafe(w) && PdEnabled(w, Roll(i, pullFails))
    ensures var after := PdStep(w, Roll(i, pullFails));
            i in Lagging(w) && Lagging(after) == Lagging(w) - {i}
  {
    var after := PdStep(w, Roll(i, pullFails));
    assert forall k :: UpToDate(after, k) <==> UpToDate(w, k) || k == i;
  }

  /** Nothing but a roll changes what lags, as long as no other template is asked for. */
  lemma LaggingStays(w: PdWorld, a: PdAction)
    requires PdSafe(w) && PdEnabled(w, a) && !a.Roll?
    requires a.PdPass? ==> a.desired.template == w.pd.ss.spec.template
    ensures var after := PdStep(w, a);
            Lagging(after) == Lagging(w) && after.pd.ss.spec.template == w.pd.ss.spec.template
  {
    var after := PdStep(w, a);
    if a.PdPass? {
      PassOutcome(w, a);
    }
    assert forall i :: UpToDate(after, i) == UpToDate(w, i);
  }

  /** In every run of a template the pods still to be rolled and the rolls done add up to the pods to be rolled at
      first: no pod is rolled twice, and the upgrade is complete exactly after that many rolls. */
  lemma {:induction false} RollsAreCounted(w: PdWorld, run: seq<PdAction>)
    requires PdSafe(w) && PdRun(w, run) && Asks(run, w.pd.ss.spec.template)
    ensures |Lagging(PdAfter(w, run))| + Rolls(run) == |Lagging(w)|
    decreases |run|
  {
    if run != [] {
      StepKeepsSafe(w, run[0]);
      if run[0].Roll? {
        LaggingAfterRoll(w, run[0].ordinal, run[0].pullFails);
      } else {
        LaggingStays(w, run[0]);
      }
      RollsAreCounted(PdStep(w, run[0]), run[1..]);
    }
  }

  // ---------------------------------------------------------------------------------------------
  // The rank of an upgrade
  // ---------------------------------------------------------------------------------------------

  /** The partition lets Kubernetes roll a pod. */
  predicate Opens(w: PdWorld) {
    exists i :: i in Lagging(w) && i >= w.pd.ss.spec.partition
  }

  /** The rolled pods whose members are yet to come up. */
  function Starting(w: PdWorld): set<int> {
    set i | 0 <= i < Count(w) && UpToDate(w, i) && !Healthy(w, i)
  }

  /** Each pod takes a pass that opens it, a roll and a recovery. */
  function Rank(w: PdWorld): int {
    3 * |Lagging(w)| + |Starting(w)| - if Opens(w) then 1 else 0
  }

  /** A pass that opens a pod, a roll, or the recovery of a rolled member. */
  ghost predicate Helpful(w: PdWorld, a: PdAction)
    requires Applicable(w, a)
  {
    match a
    case PdPass(_, _) => !Opens(w) && Opens(PdStep(w, a))
    case Roll(_, _) => true
    case Recover(i) => i in Starting(w)
    case _ => false
  }

  ghost function HelpfulSteps(w: PdWorld, run: seq<PdAction>): nat
    requires PdRun(w, run)
    decreases |run|
  {
    if run == [] then 0 else (if Helpful(w, run[0]) then 1 else 0) + HelpfulSteps(PdStep(w, run[0]), run[1..])
  }

  /** The status names the template. */
  ghost predicate Observed(w: PdWorld) {
    PdSafe(w) && w.pd.ss.status.updateRevision == w.pd.ss.spec.template
  }

  /** The open pod is the only one, and every other member is healthy. */
  lemma RollIsAlone(w: PdWorld, i: int, pullFails: bool)
    requires Observed(w) && PdEnabled(w, Roll(i, pullFails))
    ensures Starting(w) == {} && Opens(w)
  {
    assert forall k :: 0 <= k < Count(w) && k != i ==> Healthy(w, k);
    assert i in Lagging(w);
  }

  /** Its roll closes the partition for all others. */
  lemma RollCloses(w: PdWorld, i: int, pullFails: bool)
    requires Observed(w) && PdEnabled(w, Roll(i, pullFails))
    ensures var after := PdStep(w, Roll(i, pullFails));
            Starting(after) == {i} && !Opens(after)
  {
    var after := PdStep(w, Roll(i, pullFails));
    LaggingAfterRoll(w, i, pullFails);
    assert forall k :: Healthy(after, k) <==> Healthy(w, k) && k != i;
    assert forall k :: UpToDate(after, k) <==> UpToDate(w, k) || k == i;
    assert forall k :: 0 <= k < Count(w) && k != i ==> Healthy(w, k);
  }

  lemma RollRanks(w: PdWorld, i: int, pullFails: bool)
    requires Observed(w) && PdEnabled(w, Roll(i, pullFails))
    ensures Rank(PdStep(w, Roll(i, pullFails))) == Rank(w) - 1
  {
    RollIsAlone(w, i, pullFails);
    RollCloses(w, i, pullFails);
    LaggingAfterRoll(w, i, pullFails);
  }

  lemma RecoverRanks(w: PdWorld, i: int)
    requires Observed(w) && PdEnabled(w, Recover(i))
    ensures Rank(PdStep(w, Recover(i))) == Rank(w) - if i in Starting(w) then 1 else 0
  {
    var after := PdStep(w, Recover(i));
    LaggingStays(w, Recover(i));
    assert forall k :: UpToDate(after, k) == UpToDate(w, k);
    assert forall k :: Healthy(after, k) <==> Healthy(w, k) || k == i;
    assert Starting(after) == Starting(w) - {i};
    assert Opens(after) == Opens(w);
  }

  lemma OtherRanks(w: PdWorld, a: PdAction)
    requires Observed(w) && PdEnabled(w, a) && !a.PdPass? && !a.Roll? && !a.Recover?
    ensures Rank(PdStep(w, a)) == Rank(w)
  {
    var after := PdStep(w, a);
    LaggingStays(w, a);
    assert forall k :: UpToDate(after, k) == UpToDate(w, k);
    assert forall k :: Healthy(after, k) == Healthy(w, k);
    assert Starting(after) == Starting(w);
    assert Opens(after) == Opens(w);
  }

  lemma LaggingIsSeen(w: PdWorld, listing: seq<int>)
    requires Observed(w) && Lists(listing, w.pd.pods) && Lagging(w) != {}
    ensures OffRevision(listing, w.pd.pods, w.pd.ss.status.updateRevision)
  {
    var i :| i in Lagging(w);
    assert i in listing && !On(w, i, w.pd.ss.status.updateRevision);
    forall k | 0 <= k < |listing|
      ensures listing[k] in w.pd.pods && w.pd.pods[listing[k]].revision.Some?
    {
    }
    OffRevisionExact(listing, w.pd.pods, w.pd.ss.status.updateRevision);
  }

  /** A pass of an upgrade keeps the partition or lowers it as the descent decides. */
  lemma UpgradingPass(w: PdWorld, a: PdAction)
    requires Observed(w) && a.PdPass? && PdEnabled(w, a) && a.desired.template == w.pd.ss.spec.template
    requires Lagging(w) != {}
    ensures var s, after := w.pd, PdStep(w, a);
            && after.pd.pods == s.pods && after.health == w.health && after.pd.ss.status == s.ss.status
            && Count(after) == Count(w) && after.pd.ss.spec.template == s.ss.spec.template
            && (|| after.pd.ss.spec.partition == s.ss.spec.partition
                || (a.input.report.Some?
                    && MemberDescent(s.ss.status.replicas - 1, s.pods, a.input.report.value, s.ss.status.updateRevision)
                       == LowerTo(after.pd.ss.spec.partition)))
  {
    NeverForced(w, a.input.listing);
    LaggingIsSeen(w, a.input.listing);
  }

  /** A pass that opens a pod gains one step, and no pass loses any. */
  lemma PassRanks(w: PdWorld, a: PdAction)
    requires Observed(w) && a.PdPass? && PdEnabled(w, a) && a.desired.template == w.pd.ss.spec.template
    ensures Rank(PdStep(w, a)) == Rank(w) - if !Opens(w) && Opens(PdStep(w, a)) then 1 else 0
  {
    var s, after := w.pd, PdStep(w, a);
    LaggingStays(w, a);
    PassOutcome(w, a);
    assert forall k :: UpToDate(after, k) == UpToDate(w, k);
    assert forall k :: Healthy(after, k) == Healthy(w, k);
    assert Starting(after) == Starting(w);
    if Opens(w) {
      UpgradingPass(w, a);
      PassNeverCloses(w, a);
    }
  }

  /** A pass never closes a partition that opens a pod. */
  lemma PassNeverCloses(w: PdWorld, a: PdAction)
    requires Observed(w) && a.PdPass? && PdEnabled(w, a) && a.desired.template == w.pd.ss.spec.template
    requires Opens(w)
    ensures Opens(PdStep(w, a))
  {
    var s, after := w.pd, PdStep(w, a);
    LaggingStays(w, a);
    UpgradingPass(w, a);
    var i :| i in Lagging(w) && i >= s.ss.spec.partition;
    assert i in Lagging(after);
    var partition := after.pd.ss.spec.partition;
    if partition != s.ss.spec.partition {
      MemberDescentExact(s.ss.status.replicas - 1, partition, s.pods, a.input.report.value, s.ss.status.updateRevision);
      assert partition in Lagging(after);
    }
  }

  /** In every run of the template, with any faults, drifts and failing images in between, the helpful steps and
      the rank that is left add up to the rank at first. */
  lemma {:induction false} RankIsPaid(w: PdWorld, run: seq<PdAction>)
    requires Observed(w) && PdRun(w, run) && Asks(run, w.pd.ss.spec.template)
    ensures Rank(PdAfter(w, run)) + HelpfulSteps(w, run) == Rank(w)
    ensures Observed(PdAfter(w, run))
    decreases |run|
  {
    if run != [] {
      var a := run[0];
      StepKeepsSafe(w, a);
      match a {
        case PdPass(_, _) => PassRanks(w, a); LaggingStays(w, a); PassOutcome(w, a);
        case Roll(i, pullFails) => RollRanks(w, i, pullFails);
        case Recover(i) => RecoverRanks(w, i);
        case _ => OtherRanks(w, a);
      }
      RankIsPaid(PdStep(w, a), run[1..]);
    }
  }

  /** Every pod runs the template and every member is healthy. */
  ghost predicate Complete(w: PdWorld) {
    forall i :: 0 <= i < Count(w) ==> UpToDate(w, i) && Healthy(w, i)
  }

  lemma RankZeroIsComplete(w: PdWorld)
    requires Observed(w)
    ensures Rank(w) >= 0
    ensures Rank(w) == 0 <==> Complete(w)
  {
    if Lagging(w) == {} {
      assert !Opens(w);
      assert Rank(w) == |Starting(w)|;
      if Starting(w) != {} {
        var i :| i in Starting(w);
        assert UpToDate(w, i) && !Healthy(w, i);
      } else {
        forall i | 0 <= i < Count(w)
          ensures UpToDate(w, i) && Healthy(w, i)
        {
          assert i !in Lagging(w) && i !in Starting(w);
        }
      }
    } else {
      var i :| i in Lagging(w);
      assert !UpToDate(w, i);
    }
  }

  /** An upgrade of N pods under an observed template, all members healthy and the partition still the default,
      is complete after 3 * N helpful steps and not before. */
  lemma UpgradeEndsExactly(w: PdWorld, run: seq<PdAction>)
    requires Observed(w) && PdRun(w, run) && Asks(run, w.pd.ss.spec.template)
    ensures HelpfulSteps(w, run) <= Rank(w)
    ensures Complete(PdAfter(w, run)) <==> HelpfulSteps(w, run) == Rank(w)
    ensures Starting(w) == {} && w.pd.ss.spec.partition >= Count(w) ==> Rank(w) == 3 * |Lagging(w)|
  {
    RankIsPaid(w, run);
    RankZeroIsComplete(PdAfter(w, run));
  }

  /** It is never stuck: while it is not complete, a rolled member that is down may recover; if there is none, an
      open pod may be rolled; and if none is open, every pass without faults opens one, in whatever order it lists
      the pods. */
  lemma NeverStuck(w: PdWorld, listing: seq<int>)
    requires Observed(w) && !Complete(w) && Lists(listing, w.pd.pods)
    ensures forall i :: i in Starting(w) ==> PdEnabled(w, Recover(i)) && Helpful(w, Recover(i))
    ensures Starting(w) == {} && Opens(w) ==>
              exists i :: PdEnabled(w, Roll(i, false)) && Helpful(w, Roll(i, false))
    ensures Starting(w) == {} && !Opens(w) ==> PdEnabled(w, PassAt(w, listing)) && Helpful(w, PassAt(w, listing))
  {
    if Starting(w) == {} && Opens(w) {
      var i :| i in Lagging(w) && i >= w.pd.ss.spec.partition;
      assert PdEnabled(w, Roll(i, false));
    }
    if Starting(w) == {} && !Opens(w) {
      assert exists i :: i in Lagging(w) by {
        var i :| 0 <= i < Count(w) && !(UpToDate(w, i) && Healthy(w, i));
        assert i in Lagging(w) || i in Starting(w);
      }
      var i :| i in Lagging(w);
      var j := HighestOff(w, w.pd.ss.spec.template, Count(w), i);
      forall k | j < k < Count(w)
        ensures Healthy(w, k)
      {
        assert k !in Starting(w) && UpToDate(w, k);
      }
      PassLowers(w, listing, j);
      var after := PdStep(w, PassAt(w, listing));
      assert !UpToDate(after, j);
      assert j in Lagging(after) && Opens(after);
    }
  }
}
