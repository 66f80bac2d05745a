/** The quorum of five PD members or more after a template is written: they can bear more than one member down,
    so the exact condition counts the pods that a descent by a stale status opens. */
module PdQuorum {
  import opened Kube
  import opened PdMembers
  import opened PdSafety
  import opened PdTemplateChange

  function DownMembers(w: PdWorld): set<int> {
    set i | 0 <= i < Count(w) && !Healthy(w, i)
  }

  /** With no more members than these down the others are a quorum. */
  predicate Tolerable(w: PdWorld, members: set<int>) {
    |members| <= (Count(w) - 1) / 2
  }

  lemma QuorumCounts(w: PdWorld)
    requires Count(w) >= 0
    ensures Quorum(w) <==> Tolerable(w, DownMembers(w))
  {
    var healthy, down := HealthyMembers(w), DownMembers(w);
    RangeCount(Count(w));
    assert healthy + down == Range(Count(w)) && healthy !! down;
    assert |healthy + down| == |healthy| + |down|;
  }

  lemma SubsetSize(s: set<int>, t: set<int>)
    requires s <= t
    ensures |s| <= |t|
  {
    assert t == s + (t - s);
  }

  /** Ordinal j is the highest whose pod is off the revision. */
  ghost predicate IsHighestOff(w: PdWorld, j: int, rev: Revision) {
    0 <= j < Count(w) && !On(w, j, rev) && forall k :: j < k < Count(w) ==> On(w, k, rev)
  }

  /** What a descent down to ordinal j leaves down or open to a roll to the template; a member that is down
      above j has recovered before. */
  function Opened(w: PdWorld, j: int, template: PodSpec): set<int> {
    set i | 0 <= i < Count(w) && ((i <= j && !Healthy(w, i)) || (i >= j && !On(w, i, template)))
  }

  /** A template may be written without loss of the quorum: the pods that the descent by the revision the status
      names opens, and the member that is down below them, are too few to cost it. */
  ghost predicate Bearable(w: PdWorld, template: PodSpec) {
    var update := w.pd.ss.status.updateRevision;
    update == template || forall j :: IsHighestOff(w, j, update) ==> Tolerable(w, Opened(w, j, template))
  }

  // ---------------------------------------------------------------------------------------------
  // Bearable suffices
  // ---------------------------------------------------------------------------------------------

  ghost predicate WellFormed(w: PdWorld) {
    OperatorOwned(w.pd.ss) && PodsComplete(w) && PullFailsDown(w) && Count(w) >= 5
  }

  /** The status still names the old revision and nothing is rolled: the partition is the default or that of
      the descent by this revision. */
  ghost predicate Stale(w: PdWorld) {
    var update, partition := w.pd.ss.status.updateRevision, w.pd.ss.spec.partition;
    && WellFormed(w) && update != w.pd.ss.spec.template && AtMostOneDown(w) && Bearable(w, w.pd.ss.spec.template)
    && (partition >= Count(w)
      || (IsHighestOff(w, partition, update) && forall k :: partition < k < Count(w) ==> Healthy(w, k)))
  }

  /** What is down, or is off the template from ordinal c on. */
  function Exposed(w: PdWorld, c: int): set<int> {
    set i | 0 <= i < Count(w) && (!Healthy(w, i) || (i >= c && !UpToDate(w, i)))
  }

  ghost predicate RolledAbove(w: PdWorld, i: int) {
    forall k :: i < k < Count(w) ==> UpToDate(w, k)
  }

  /** An open pod below c is the highest off the template, and then at most the member d is down. */
  ghost predicate OpenBelow(w: PdWorld, c: int, d: int) {
    forall i :: w.pd.ss.spec.partition <= i < c && 0 <= i < Count(w) && !UpToDate(w, i) ==>
      RolledAbove(w, i) && DownMembers(w) <= {d}
  }

  /** Below c a member other than d is down only after its roll, and that of every pod above it. */
  ghost predicate DownBelow(w: PdWorld, c: int, d: int) {
    forall m :: 0 <= m < Count(w) && m < c && m != d && !Healthy(w, m) ==> UpToDate(w, m) && RolledAbove(w, m)
  }

  /** The status names the template; a descent by the revision it named before had gone down to c, when at most
      the member d was down. */
  ghost predicate Current(w: PdWorld, c: int, d: int) {
    && WellFormed(w) && w.pd.ss.status.updateRevision == w.pd.ss.spec.template
    && Tolerable(w, Exposed(w, c)) && OpenBelow(w, c, d) && DownBelow(w, c, d)
  }

  /** The status still names the old revision, but pods may be rolled already: the partition never goes below c,
      since a pod from there on is off the revision the status names. */
  ghost predicate StaleRolled(w: PdWorld, c: int, d: int) {
    && WellFormed(w) && w.pd.ss.status.updateRevision != w.pd.ss.spec.template && c <= w.pd.ss.spec.partition
    && (exists x :: c <= x < Count(w) && 0 <= x && !On(w, x, w.pd.ss.status.updateRevision))
    && Tolerable(w, Exposed(w, c)) && DownBelow(w, c, d)
  }

  ghost predicate QuorumSafe(w: PdWorld) {
    Stale(w) || (exists c, d :: StaleRolled(w, c, d)) || exists c, d :: Current(w, c, d)
  }

  lemma QuorumHolds(w: PdWorld)
    requires QuorumSafe(w)
    ensures Quorum(w)
  {
    QuorumCounts(w);
    if Stale(w) {
      var d := FewDown(w);
    } else if c, d :| StaleRolled(w, c, d) {
      SubsetSize(DownMembers(w), Exposed(w, c));
    } else {
      var c, d :| Current(w, c, d);
      SubsetSize(DownMembers(w), Exposed(w, c));
    }
  }

  /** At most one member is down: it is this one. */
  lemma FewDown(w: PdWorld) returns (d: int)
    requires AtMostOneDown(w)
    ensures DownMembers(w) <= {d} && |DownMembers(w)| <= 1
  {
    d := -1;
    if x :| x in DownMembers(w) {
      d := x;
    }
    SubsetSize(DownMembers(w), {d});
  }

  /** What the pass writes in a state with a quorum, read in terms of the ordinals. */
  lemma PassWrites(w: PdWorld, a: PdAction)
    requires WellFormed(w) && Quorum(w) && a.PdPass? && PdEnabled(w, a) && a.desired.template == w.pd.ss.spec.template
    ensures var v := PdStep(w, a);
            var partition := v.pd.ss.spec.partition;
            && WellFormed(v) && v.pd.pods == w.pd.pods && v.health == w.health && v.pd.ss.status == w.pd.ss.status
            && v.pd.ss.spec.template == w.pd.ss.spec.template && Count(v) == Count(w)
            && (|| partition == w.pd.ss.spec.partition || partition == Count(w)
                || (IsHighestOff(w, partition, w.pd.ss.status.updateRevision)
                    && forall k :: partition < k < Count(w) ==> Healthy(w, k)))
  {
    PassOutcome(w, a);
    var s, v := w.pd, PdStep(w, a);
    var partition := v.pd.ss.spec.partition;
    assert forall i :: Healthy(w, i) == Healthy(v, i);
    if a.input.report.Some?
       && MemberDescent(s.ss.status.replicas - 1, s.pods, a.input.report.value, s.ss.status.updateRevision)
         == LowerTo(partition) {
      var members, update := a.input.report.value, s.ss.status.updateRevision;
      MemberDescentExact(s.ss.status.replicas - 1, partition, s.pods, members, update);
      assert !On(w, partition, update);
      forall k | partition < k < Count(w)
        ensures On(w, k, update) && Healthy(w, k)
      {
        assert UpgradedMember(k, s.pods, members, update);
      }
    }
  }

  lemma StalePassKeeps(w: PdWorld, a: PdAction)
    requires Stale(w) && a.PdPass? && PdEnabled(w, a) && a.desired.template == w.pd.ss.spec.template
    ensures Stale(PdStep(w, a))
  {
    QuorumHolds(w);
    PassWrites(w, a);
    var v := PdStep(w, a);
    assert forall i, rev :: On(w, i, rev) == On(v, i, rev);
    assert forall i :: Healthy(w, i) == Healthy(v, i);
    assert forall j :: Opened(w, j, w.pd.ss.spec.template) == Opened(v, j, w.pd.ss.spec.template);
  }

  lemma CurrentPassKeeps(w: PdWorld, a: PdAction, c: int, d: int)
    requires Current(w, c, d) && a.PdPass? && PdEnabled(w, a) && a.desired.template == w.pd.ss.spec.template
    ensures Current(PdStep(w, a), c, d)
  {
    QuorumHolds(w);
    PassWrites(w, a);
    var v := PdStep(w, a);
    assert forall i :: UpToDate(w, i) == UpToDate(v, i) == On(w, i, w.pd.ss.status.updateRevision);
    assert forall i :: Healthy(w, i) == Healthy(v, i);
    assert Exposed(v, c) == Exposed(w, c) && DownMembers(v) == DownMembers(w);
    assert forall i :: RolledAbove(w, i) == RolledAbove(v, i);
  }

  lemma StaleRolledPassKeeps(w: PdWorld, a: PdAction, c: int, d: int)
    requires StaleRolled(w, c, d) && a.PdPass? && PdEnabled(w, a) && a.desired.template == w.pd.ss.spec.template
    ensures StaleRolled(PdStep(w, a), c, d)
  {
    QuorumHolds(w);
    PassWrites(w, a);
    var v := PdStep(w, a);
    assert forall i, rev :: On(w, i, rev) == On(v, i, rev);
    assert forall i :: UpToDate(w, i) == UpToDate(v, i);
    assert forall i :: Healthy(w, i) == Healthy(v, i);
    assert Exposed(v, c) == Exposed(w, c);
    assert forall i :: RolledAbove(w, i) == RolledAbove(v, i);
  }

  /** Members that recover, or whose image cannot be pulled, and changes of the status but for the revision. */
  ghost predicate Milder(w: PdWorld, v: PdWorld) {
    && v.pd.ss.spec == w.pd.ss.spec && v.pd.ss.status.updateRevision == w.pd.ss.status.updateRevision
    && (forall i, rev :: On(v, i, rev) == On(w, i, rev))
    && (forall i :: Healthy(w, i) ==> Healthy(v, i))
  }

  lemma StaleStaysMilder(w: PdWorld, v: PdWorld)
    requires Stale(w) && Milder(w, v) && WellFormed(v)
    ensures Stale(v)
  {
    var template := w.pd.ss.spec.template;
    forall j | IsHighestOff(v, j, v.pd.ss.status.updateRevision)
      ensures Tolerable(v, Opened(v, j, template))
    {
      assert IsHighestOff(w, j, w.pd.ss.status.updateRevision);
      SubsetSize(Opened(v, j, template), Opened(w, j, template));
    }
  }

  lemma CurrentStaysMilder(w: PdWorld, v: PdWorld, c: int, d: int)
    requires Current(w, c, d) && Milder(w, v) && WellFormed(v)
    ensures Current(v, c, d)
  {
    assert forall i :: UpToDate(v, i) == UpToDate(w, i);
    assert forall i :: RolledAbove(w, i) == RolledAbove(v, i);
    SubsetSize(Exposed(v, c), Exposed(w, c));
    assert DownMembers(v) <= DownMembers(w);
  }

  lemma StaleRolledStaysMilder(w: PdWorld, v: PdWorld, c: int, d: int)
    requires StaleRolled(w, c, d) && Milder(w, v) && WellFormed(v)
    ensures StaleRolled(v, c, d)
  {
    assert forall i :: UpToDate(v, i) == UpToDate(w, i);
    assert forall i :: RolledAbove(w, i) == RolledAbove(v, i);
    SubsetSize(Exposed(v, c), Exposed(w, c));
  }

  /** The first roll under a stale status: the partition is that of the descent by it. */
  lemma StaleRollKeeps(w: PdWorld, i: int, pullFails: bool)
    requires Stale(w) && PdEnabled(w, Roll(i, pullFails))
    ensures exists c, d :: StaleRolled(PdStep(w, Roll(i, pullFails)), c, d)
  {
    var v, c := PdStep(w, Roll(i, pullFails)), w.pd.ss.spec.partition;
    var d := FewDown(w);
    assert forall k, rev :: k != i ==> On(v, k, rev) == On(w, k, rev);
    assert forall k :: Healthy(v, k) <==> Healthy(w, k) && k != i;
    assert forall m :: 0 <= m < Count(v) && m != i && !Healthy(v, m) ==> m in DownMembers(w);
    SubsetSize(Exposed(v, c), Opened(w, c, w.pd.ss.spec.template));
    assert !On(v, c, v.pd.ss.status.updateRevision);
    assert StaleRolled(v, c, d);
  }

  lemma StaleRolledRollKeeps(w: PdWorld, i: int, pullFails: bool, c: int, d: int)
    requires StaleRolled(w, c, d) && PdEnabled(w, Roll(i, pullFails))
    ensures StaleRolled(PdStep(w, Roll(i, pullFails)), c, d)
  {
    var v := PdStep(w, Roll(i, pullFails));
    assert forall k :: !On(w, k, w.pd.ss.status.updateRevision) ==> !On(v, k, w.pd.ss.status.updateRevision);
    assert forall k :: UpToDate(v, k) <==> UpToDate(w, k) || k == i;
    assert forall k :: Healthy(v, k) <==> Healthy(w, k) && k != i;
    assert Exposed(v, c) == Exposed(w, c);
  }

  lemma StaleRolledObserveKeeps(w: PdWorld, c: int, d: int)
    requires StaleRolled(w, c, d)
    ensures Current(PdStep(w, Observe), c, d)
  {
    var v := PdStep(w, Observe);
    assert forall i :: UpToDate(v, i) == UpToDate(w, i);
    assert forall i :: Healthy(v, i) == Healthy(w, i);
    assert Exposed(v, c) == Exposed(w, c);
  }

  /** The status comes to name the template. */
  lemma ObserveKeeps(w: PdWorld)
    requires Stale(w)
    ensures exists c, d :: Current(PdStep(w, Observe), c, d)
  {
    var v := PdStep(w, Observe);
    var c := w.pd.ss.spec.partition;
    var d := FewDown(w);
    assert forall i, rev :: On(v, i, rev) == On(w, i, rev);
    assert forall i :: Healthy(v, i) == Healthy(w, i);
    assert forall m :: 0 <= m < Count(v) && !Healthy(v, m) ==> m in DownMembers(w);
    if c >= Count(w) {
      SubsetSize(Exposed(v, c), DownMembers(w));
    } else {
      SubsetSize(Exposed(v, c), Opened(w, c, w.pd.ss.spec.template));
    }
    assert Current(v, c, d);
  }

  lemma RollKeeps(w: PdWorld, i: int, pullFails: bool, c: int, d: int)
    requires Current(w, c, d) && PdEnabled(w, Roll(i, pullFails))
    ensures Current(PdStep(w, Roll(i, pullFails)), c, d)
  {
    var v := PdStep(w, Roll(i, pullFails));
    assert forall k :: UpToDate(v, k) <==> UpToDate(w, k) || k == i;
    assert forall k :: Healthy(v, k) <==> Healthy(w, k) && k != i;
    if i >= c {
      assert Exposed(v, c) == Exposed(w, c);
    } else {
      assert RolledAbove(w, i);
      SubsetSize(Exposed(v, c), {d, i});
    }
  }

  lemma StaleStepKeeps(w: PdWorld, a: PdAction)
    requires Stale(w) && PdEnabled(w, a) && (a.PdPass? ==> a.desired.template == w.pd.ss.spec.template)
    ensures QuorumSafe(PdStep(w, a))
  {
    match a
    case PdPass(_, _) => StalePassKeeps(w, a);
    case Observe => ObserveKeeps(w);
    case Roll(i, pullFails) => StaleRollKeeps(w, i, pullFails);
    case _ => StaleStaysMilder(w, PdStep(w, a));
  }

  lemma StaleRolledStepKeeps(w: PdWorld, a: PdAction, c: int, d: int)
    requires StaleRolled(w, c, d) && PdEnabled(w, a) && (a.PdPass? ==> a.desired.template == w.pd.ss.spec.template)
    ensures StaleRolled(PdStep(w, a), c, d) || Current(PdStep(w, a), c, d)
  {
    match a
    case PdPass(_, _) => StaleRolledPassKeeps(w, a, c, d);
    case Observe => StaleRolledObserveKeeps(w, c, d);
    case Roll(i, pullFails) => StaleRolledRollKeeps(w, i, pullFails, c, d);
    case _ => StaleRolledStaysMilder(w, PdStep(w, a), c, d);
  }

  lemma CurrentStepKeeps(w: PdWorld, a: PdAction, c: int, d: int)
    requires Current(w, c, d) && PdEnabled(w, a) && (a.PdPass? ==> a.desired.template == w.pd.ss.spec.template)
    ensures Current(PdStep(w, a), c, d)
  {
    match a
    case PdPass(_, _) => CurrentPassKeeps(w, a, c, d);
    case Roll(i, pullFails) => RollKeeps(w, i, pullFails, c, d);
    case _ => CurrentStaysMilder(w, PdStep(w, a), c, d);
  }

  lemma StepKeepsQuorumSafe(w: PdWorld, a: PdAction)
    requires QuorumSafe(w) && PdEnabled(w, a)
    requires a.PdPass? ==> a.desired.template == w.pd.ss.spec.template
    ensures QuorumSafe(PdStep(w, a))
  {
    if Stale(w) {
      StaleStepKeeps(w, a);
    } else if c, d :| StaleRolled(w, c, d) {
      StaleRolledStepKeeps(w, a, c, d);
    } else {
      var c, d :| Current(w, c, d);
      CurrentStepKeeps(w, a, c, d);
    }
  }

  lemma {:induction false} RunKeepsQuorum(w: PdWorld, run: seq<PdAction>)
    requires QuorumSafe(w) && PdRun(w, run) && Asks(run, w.pd.ss.spec.template)
    ensures Quorum(PdAfter(w, run))
    decreases |run|
  {
    if run != [] {
      StepKeepsQuorumSafe(w, run[0]);
      if run[0].PdPass? {
        QuorumHolds(w);
        PassWrites(w, run[0]);
      }
      RunKeepsQuorum(PdStep(w, run[0]), run[1..]);
    } else {
      QuorumHolds(w);
    }
  }

  // ---------------------------------------------------------------------------------------------
  // Bearable is needed
  // ---------------------------------------------------------------------------------------------

  /** Every open pod between c and n that is off the template is rolled. */
  lemma {:induction false} RollAll(v: PdWorld, c: int, n: int) returns (run: seq<PdAction>)
    requires v.pd.ss.status.updateRevision == v.pd.ss.spec.template
    requires v.pd.ss.spec.partition <= c && 0 <= c <= n <= Count(v)
    requires forall i :: 0 <= i < Count(v) ==> i in v.pd.pods
    ensures PdRun(v, run) && (forall k :: 0 <= k < |run| ==> run[k].Roll?) && Count(PdAfter(v, run)) == Count(v)
    ensures forall i :: 0 <= i < Count(v) && (!Healthy(v, i) || (c <= i < n && !UpToDate(v, i))) ==>
        !Healthy(PdAfter(v, run), i)
    decreases n
  {
    if n == c {
      run := [];
    } else if UpToDate(v, n - 1) {
      run := RollAll(v, c, n - 1);
    } else {
      var v1 := PdStep(v, Roll(n - 1, false));
      assert forall i :: i != n - 1 ==> UpToDate(v1, i) == UpToDate(v, i);
      var rest := RollAll(v1, c, n - 1);
      RunFrom(v, Roll(n - 1, false), rest);
      run := [Roll(n - 1, false)] + rest;
    }
  }

  /** The descent by a stale status down to j, with every member above j healthy. */
  lemma StaleDescent(v: PdWorld, j: int) returns (run: seq<PdAction>)
    requires OperatorOwned(v.pd.ss) && PodsComplete(v) && AtMostOneDown(v) && PullFailsDown(v)
    requires v.pd.ss.spec.partition == Count(v)
    requires IsHighestOff(v, j, v.pd.ss.status.updateRevision) && forall k :: j < k < Count(v) ==> Healthy(v, k)
    ensures PdRun(v, run) && Asks(run, v.pd.ss.spec.template)
    ensures Count(PdAfter(v, run)) == Count(v) && Opened(v, j, v.pd.ss.spec.template) <= DownMembers(PdAfter(v, run))
  {
    var listing := SomeOrder(v.pd.pods);
    PassLowers(v, listing, j);
    var v1 := PdStep(v, PassAt(v, listing));
    var v2 := PdStep(v1, Observe);
    assert forall i :: UpToDate(v, i) == UpToDate(v2, i);
    assert forall i :: Healthy(v, i) == Healthy(v2, i);
    var rolls := RollAll(v2, j, Count(v));
    RunFrom(v1, Observe, rolls);
    RunFrom(v, PassAt(v, listing), [Observe] + rolls);
    run := [PassAt(v, listing)] + ([Observe] + rolls);
  }

  /** If a member above j is down it recovers first. */
  lemma OpenedGoDown(v: PdWorld, j: int) returns (run: seq<PdAction>)
    requires OperatorOwned(v.pd.ss) && PodsComplete(v) && AtMostOneDown(v) && PullFailsDown(v)
    requires v.pd.ss.spec.partition == Count(v) && IsHighestOff(v, j, v.pd.ss.status.updateRevision)
    ensures PdRun(v, run) && Asks(run, v.pd.ss.spec.template)
    ensures Count(PdAfter(v, run)) == Count(v) && Opened(v, j, v.pd.ss.spec.template) <= DownMembers(PdAfter(v, run))
  {
    if d :| j < d < Count(v) && !Healthy(v, d) {
      var v1 := PdStep(v, Recover(d));
      assert forall i, rev :: On(v1, i, rev) == On(v, i, rev);
      assert forall i :: Healthy(v1, i) <==> Healthy(v, i) || i == d;
      assert Opened(v1, j, v.pd.ss.spec.template) == Opened(v, j, v.pd.ss.spec.template);
      var rest := StaleDescent(v1, j);
      RunFrom(v, Recover(d), rest);
      run := [Recover(d)] + rest;
    } else {
      run := StaleDescent(v, j);
    }
  }

  // ---------------------------------------------------------------------------------------------
  // The exact condition
  // ---------------------------------------------------------------------------------------------

  /** Bearable speaks of pods, health and status, which the write leaves alone. */
  lemma BearableAfter(w: PdWorld, v: PdWorld, template: PodSpec)
    requires v.pd.pods == w.pd.pods && v.health == w.health && v.pd.ss.status == w.pd.ss.status && Count(v) == Count(w)
    ensures Bearable(w, template) <==> Bearable(v, template)
    ensures forall j :: Opened(w, j, template) == Opened(v, j, template)
  {
    assert forall i, rev :: On(w, i, rev) == On(v, i, rev);
    assert forall i :: Healthy(w, i) == Healthy(v, i);
    forall j
      ensures Opened(w, j, template) == Opened(v, j, template)
      ensures forall rev :: IsHighestOff(w, j, rev) == IsHighestOff(v, j, rev)
    {
    }
  }

  lemma WrittenIsQuorumSafe(w: PdWorld, a: PdAction)
    requires PdSafe(w) && Rewrites(w, a) && Count(w) >= 5 && Bearable(w, a.desired.template)
    ensures QuorumSafe(PdStep(w, a))
  {
    RewriteOutcome(w, a);
    var v, template := PdStep(w, a), a.desired.template;
    BearableAfter(w, v, template);
    assert forall i :: Healthy(w, i) == Healthy(v, i);
    if v.pd.ss.status.updateRevision == template {
      var d := FewDown(v);
      assert Exposed(v, Count(v)) == DownMembers(v);
      assert forall m :: 0 <= m < Count(v) && !Healthy(v, m) ==> m in DownMembers(v);
      assert Current(v, Count(v), d);
    }
  }

  /** With five members or more the healthy ones are a quorum in every later run of the written template if and
      only if it was Bearable when it was written. */
  lemma QuorumExact(w: PdWorld, a: PdAction)
    requires PdSafe(w) && Rewrites(w, a) && Count(w) >= 5
    ensures var v := PdStep(w, a);
            (forall run :: PdRun(v, run) && Asks(run, a.desired.template) ==> Quorum(PdAfter(v, run)))
            <==> Bearable(w, a.desired.template)
  {
    RewriteOutcome(w, a);
    var v, template := PdStep(w, a), a.desired.template;
    if Bearable(w, template) {
      WrittenIsQuorumSafe(w, a);
      forall run | PdRun(v, run) && Asks(run, template)
        ensures Quorum(PdAfter(v, run))
      {
        RunKeepsQuorum(v, run);
      }
    } else {
      BearableAfter(w, v, template);
      var j :| IsHighestOff(v, j, v.pd.ss.status.updateRevision) && !Tolerable(v, Opened(v, j, template));
      assert forall i :: Healthy(w, i) == Healthy(v, i);
      var run := OpenedGoDown(v, j);
      SubsetSize(Opened(v, j, template), DownMembers(PdAfter(v, run)));
      QuorumCounts(PdAfter(v, run));
    }
  }

  function DownUpTo(w: PdWorld, j: int): set<int> {
    set d | 0 <= d < j && !Healthy(w, d)
  }

  lemma DownBelowCount(w: PdWorld, j: int)
    requires 0 <= j < Count(w) && AtMostOneDown(w)
    ensures |DownUpTo(w, j)| == if exists d :: 0 <= d < j && !Healthy(w, d) then 1 else 0
  {
    if d :| 0 <= d < j && !Healthy(w, d) {
      assert DownUpTo(w, j) == {d};
    } else {
      assert DownUpTo(w, j) == {};
    }
  }

  function From(j: int, n: int): set<int>
    requires n >= 0
  {
    set i | i in Range(n) && i >= j
  }

  lemma {:induction false} FromCount(j: int, n: int)
    requires 0 <= j <= n
    ensures |From(j, n)| == n - j
  {
    RangeCount(n);
    if j < n {
      FromCount(j, n - 1);
      RangeCount(n - 1);
      assert From(j, n) == From(j, n - 1) + {n - 1};
    } else {
      assert From(j, n) == {};
    }
  }

  lemma DisjointSize(s: set<int>, t: set<int>)
    requires s !! t
    ensures |s + t| == |s| + |t|
  {
  }

  lemma OpenedCount(w: PdWorld, template: PodSpec, j: int)
    requires 0 <= j < Count(w) && AtMostOneDown(w) && forall i :: !On(w, i, template)
    ensures |Opened(w, j, template)| == Count(w) - j + if exists d :: 0 <= d < j && !Healthy(w, d) then 1 else 0
  {
    DownBelowCount(w, j);
    FromCount(j, Count(w));
    RangeCount(Count(w));
    assert Opened(w, j, template) == DownUpTo(w, j) + From(j, Count(w));
    DisjointSize(DownUpTo(w, j), From(j, Count(w)));
  }

  /** For a template that no pod runs: with j the highest pod off the revision the status names, j itself, the
      pods above it and the member that is down below it must be fewer than half. */
  lemma NewTemplateExact(w: PdWorld, template: PodSpec, j: int)
    requires Count(w) >= 0 && AtMostOneDown(w) && IsHighestOff(w, j, w.pd.ss.status.updateRevision)
    requires w.pd.ss.status.updateRevision != template && forall i :: !On(w, i, template)
    ensures Bearable(w, template)
        <==> 2 * (Count(w) - j + if exists d :: 0 <= d < j && !Healthy(w, d) then 1 else 0) < Count(w)
  {
    OpenedCount(w, template, j);
    assert forall k :: IsHighestOff(w, k, w.pd.ss.status.updateRevision) ==> k == j;
  }
}
