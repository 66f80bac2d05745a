/** Runs of the scheduler: Filter calls of different pods, placements, and pods and claims that come and go.
    A Filter call is two steps, taking the lock and choosing nodes, and anything but another Filter call
    may happen in between. */
module SchedulerRuns {
  import opened Kube
  import opened Scheduler

  /** `active` is the Filter call in progress; `answers` holds every node a pod was ever answered. */
  datatype World = World(claims: map<string, Claim>, pods: map<string, Option<string>>,
                         active: Option<(string, seq<string>)>, answers: map<string, set<string>>)

  datatype Action =
    | Lock(pod: string, nodes: seq<string>, input: FilterInput)
    | Choose(input: FilterInput)
    | Place(pod: string, node: string)
    | Create(pod: string)
    | Delete(pod: string)
    | DropClaim(claim: string)

  datatype Rules = Rules(component: string, max: nat) {
    function ClaimOf(pod: string): string {
      PvcName(component, pod)
    }
  }

  predicate Waits(w: World, pod: string) {
    pod in w.pods && w.pods[pod].None?
  }

  function Answered(w: World, pod: string): set<string> {
    if pod in w.answers then w.answers[pod] else {}
  }

  /** Place assumes that the pod is put on a node of one of its answers. Create assumes that the claim of a
      new pod is not bound. A claim is dropped only when its pod is placed or gone. */
  ghost predicate Enabled(r: Rules, w: World, a: Action) {
    match a
    case Lock(pod, nodes, input) => w.active.None? && pod in w.pods && nodes != [] && Lists(input.claimItems, w.claims)
    case Choose(_) => w.active.Some?
    case Place(pod, node) => Waits(w, pod) && node in Answered(w, pod)
    case Create(pod) => pod !in w.pods && !Bound(r, w, pod)
    case Delete(pod) => pod in w.pods
    case DropClaim(claim) => forall pod :: Waits(w, pod) ==> r.ClaimOf(pod) != claim
  }

  /** The state after the creation of a pod, whether or not its claim is bound. */
  function Created(r: Rules, w: World, pod: string): World {
    var claim := r.ClaimOf(pod);
    w.(pods := w.pods[pod := None],
       claims := if claim in w.claims then w.claims else w.claims[claim := Claim(None, false)])
  }

  /** A claim becomes bound in the step that places its pod. The answer of a call whose pod is deleted
      meanwhile is for nobody. */
  ghost function Step(r: Rules, w: World, a: Action): World
    requires Enabled(r, w, a)
  {
    match a
    case Lock(pod, nodes, input) =>
      var (claims, error) := Acquired(w.claims, r.ClaimOf(pod), input);
      w.(claims := claims, active := if error.None? then Some((pod, nodes)) else None)
    case Choose(input) =>
      var (pod, nodes) := w.active.value;
      (match Picked(r.component, r.max, w.claims, w.pods, pod, nodes, input)
       case Nodes(kept) => w.(active := None, answers := w.answers[pod := Answered(w, pod) + set n | n in kept])
       case Failed(_) => w.(active := None))
    case Place(pod, node) =>
      var claim := r.ClaimOf(pod);
      w.(pods := w.pods[pod := Some(node)],
         claims := if claim in w.claims then w.claims[claim := w.claims[claim].(bound := true)] else w.claims)
    case Create(pod) => Created(r, w, pod)
    case Delete(pod) =>
      w.(pods := w.pods - {pod}, answers := w.answers - {pod},
         active := if w.active.Some? && w.active.value.0 == pod then None else w.active)
    case DropClaim(claim) => w.(claims := w.claims - {claim})
  }

  /** A waiting pod that was answered holds the lock, and so does one whose Filter call is in progress. */
  ghost predicate HoldsLock(r: Rules, w: World, pod: string) {
    Answered(w, pod) != {} || (w.active.Some? && w.active.value.0 == pod) ==> Holds(w.claims, r.ClaimOf(pod))
  }

  ghost predicate NoneOverfull(r: Rules, w: World) {
    forall n :: Load(n, w.pods) <= r.max
  }

  ghost predicate Orderly(r: Rules, w: World) {
    && OneHolder(w.claims)
    && (w.active.Some? ==> w.active.value.0 in w.pods)
    && (forall pod :: pod in w.answers ==> pod in w.pods)
    && (forall pod :: Waits(w, pod) ==> r.ClaimOf(pod) in w.claims)
    && (forall pod :: Waits(w, pod) ==> HoldsLock(r, w, pod))
    && (forall pod, n :: Waits(w, pod) && n in Answered(w, pod) ==> HasRoom(n, w.pods, r.max))
    && NoneOverfull(r, w)
  }

  predicate Bound(r: Rules, w: World, pod: string) {
    r.ClaimOf(pod) in w.claims && w.claims[r.ClaimOf(pod)].bound
  }

  ghost predicate Safe(r: Rules, w: World) {
    Orderly(r, w) && forall pod :: Waits(w, pod) ==> !Bound(r, w, pod)
  }

  /** Only one waiting pod at a time has an answer to be placed by. */
  lemma OneWaitingAnswer(r: Rules, w: World, a: string, b: string)
    requires Safe(r, w) && Waits(w, a) && Waits(w, b)
    requires Holds(w.claims, r.ClaimOf(a)) && Holds(w.claims, r.ClaimOf(b))
    ensures a == b
  {
    PvcNameInjective(r.component, a, b);
  }

  lemma LockKeepsSafe(r: Rules, w: World, pod: string, nodes: seq<string>, input: FilterInput)
    requires Safe(r, w) && Enabled(r, w, Lock(pod, nodes, input))
    ensures Safe(r, Step(r, w, Lock(pod, nodes, input)))
  {
    var claim := r.ClaimOf(pod);
    LockKept(w.claims, claim, input);
    HolderFound(w.claims, input.claimItems);
    var after := Step(r, w, Lock(pod, nodes, input));
    assert forall q :: Waits(after, q) <==> Waits(w, q);
    forall q | Waits(w, q) && Answered(w, q) != {}
      ensures Holds(after.claims, r.ClaimOf(q))
    {
      PvcNameInjective(r.component, q, pod);
      assert HoldsLock(r, w, q);
    }
  }

  lemma ChooseKeepsSafe(r: Rules, w: World, input: FilterInput)
    requires Safe(r, w) && Enabled(r, w, Choose(input))
    ensures Safe(r, Step(r, w, Choose(input)))
  {
    var (pod, nodes) := w.active.value;
    var after := Step(r, w, Choose(input));
    assert forall q :: Waits(after, q) <==> Waits(w, q);
    if Waits(w, pod) {
      assert HoldsLock(r, w, pod);
      ChoiceMembers(nodes, w.pods, r.max);
    }
    forall q | Waits(after, q)
      ensures HoldsLock(r, after, q)
    {
      assert HoldsLock(r, w, q);
    }
  }

  /** Placing a pod adds one pod to its node and none to any other. */
  lemma PlacedLoad(pods: map<string, Option<string>>, pod: string, node: string, n: string)
    requires pod in pods && pods[pod].None?
    ensures Load(n, pods[pod := Some(node)]) == Load(n, pods) + if n == node then 1 else 0
  {
    var after := pods[pod := Some(node)];
    assert PodsOn(n, after) == PodsOn(n, pods) + if n == node then {pod} else {};
  }

  lemma PlaceKeepsSafe(r: Rules, w: World, pod: string, node: string)
    requires Safe(r, w) && Enabled(r, w, Place(pod, node))
    ensures Safe(r, Step(r, w, Place(pod, node)))
  {
    var after := Step(r, w, Place(pod, node));
    assert HoldsLock(r, w, pod);
    assert HasRoom(node, w.pods, r.max);
    forall n
      ensures Load(n, after.pods) == Load(n, w.pods) + if n == node then 1 else 0
    {
      PlacedLoad(w.pods, pod, node, n);
    }
    assert forall c :: Holds(after.claims, c) <==> Holds(w.claims, c);
    forall q | Waits(after, q)
      ensures q != pod && Waits(w, q) && Answered(after, q) == {} && HoldsLock(r, after, q)
      ensures r.ClaimOf(q) in after.claims && !Bound(r, after, q)
    {
      assert Waits(w, q) && HoldsLock(r, w, q);
      PvcNameInjective(r.component, q, pod);
      if Holds(w.claims, r.ClaimOf(q)) {
        OneWaitingAnswer(r, w, q, pod);
      }
    }
  }

  /** Pods that wait or are gone load no node. */
  lemma SameLoad(before: map<string, Option<string>>, after: map<string, Option<string>>, n: string)
    requires forall p :: p in after && after[p].Some? ==> p in before && before[p] == after[p]
    ensures Load(n, after) <= Load(n, before)
  {
    Included(PodsOn(n, after), PodsOn(n, before));
  }

  lemma {:induction false} Included<T>(a: set<T>, b: set<T>)
    requires a <= b
    ensures |a| <= |b|
  {
    if a != {} {
      var x :| x in a;
      Included(a - {x}, b - {x});
    }
  }

  lemma ChurnKeepsSafe(r: Rules, w: World, a: Action)
    requires Safe(r, w) && Enabled(r, w, a) && (a.Create? || a.Delete? || a.DropClaim?)
    ensures Safe(r, Step(r, w, a))
  {
    var after := Step(r, w, a);
    forall n
      ensures Load(n, after.pods) <= Load(n, w.pods)
    {
      SameLoad(w.pods, after.pods, n);
    }
    assert forall c :: Holds(after.claims, c) ==> Holds(w.claims, c);
    forall q | Waits(after, q)
      ensures HoldsLock(r, after, q)
      ensures r.ClaimOf(q) in after.claims && !Bound(r, after, q)
      ensures Answered(after, q) != {} ==> Waits(w, q)
      ensures forall n :: n in Answered(after, q) ==> n in Answered(w, q) && HasRoom(n, w.pods, r.max)
    {
      if Waits(w, q) {
        assert HoldsLock(r, w, q);
        if a.Create? {
          PvcNameInjective(r.component, q, a.pod);
        }
      }
    }
  }

  lemma StepKeepsSafe(r: Rules, w: World, a: Action)
    requires Safe(r, w) && Enabled(r, w, a)
    ensures Safe(r, Step(r, w, a))
  {
    match a
    case Lock(pod, nodes, input) => LockKeepsSafe(r, w, pod, nodes, input);
    case Choose(input) => ChooseKeepsSafe(r, w, input);
    case Place(pod, node) => PlaceKeepsSafe(r, w, pod, node);
    case _ => ChurnKeepsSafe(r, w, a);
  }

  ghost predicate IsRun(r: Rules, w: World, run: seq<Action>)
    decreases |run|
  {
    run == [] || (Enabled(r, w, run[0]) && IsRun(r, Step(r, w, run[0]), run[1..]))
  }

  ghost function After(r: Rules, w: World, run: seq<Action>): World
    requires IsRun(r, w, run)
    decreases |run|
  {
    if run == [] then w else After(r, Step(r, w, run[0]), run[1..])
  }

  /** Before the first pod of the component: claims may be left over, with at most one lock holder. */
  ghost predicate Start(w: World) {
    OneHolder(w.claims) && w.pods == map[] && w.active.None? && w.answers == map[]
  }

  /** However Filter calls, placements, creations and deletions interleave and whichever calls fail, no node
      ever holds more than the maximum of the component's pods, and the lock has at most one holder. */
  lemma NoNodeOverfull(r: Rules, w: World, run: seq<Action>)
    requires Start(w) && IsRun(r, w, run)
    ensures forall n :: Load(n, After(r, w, run).pods) <= r.max
    ensures OneHolder(After(r, w, run).claims)
  {
    assert forall n :: PodsOn(n, w.pods) == {};
    RunKeepsSafe(r, w, run);
  }

  lemma {:induction false} RunKeepsSafe(r: Rules, w: World, run: seq<Action>)
    requires Safe(r, w) && IsRun(r, w, run)
    ensures Safe(r, After(r, w, run))
    decreases |run|
  {
    if run != [] {
      StepKeepsSafe(r, w, run[0]);
      RunKeepsSafe(r, Step(r, w, run[0]), run[1..]);
    }
  }

  // ---------------------------------------------------------------------------------------------
  // Exactly when the bound holds
  // ---------------------------------------------------------------------------------------------

  const OPEN := FilterInput([], [], true, Delivered, Delivered, true, true, 0)

  lemma RunFrom(r: Rules, w: World, a: Action, rest: seq<Action>)
    requires Enabled(r, w, a) && IsRun(r, Step(r, w, a), rest)
    ensures IsRun(r, w, [a] + rest) && After(r, w, [a] + rest) == After(r, Step(r, w, a), rest)
  {
    assert ([a] + rest)[1..] == rest;
  }

  lemma {:induction false} RunOn(r: Rules, w: World, run: seq<Action>, rest: seq<Action>)
    requires IsRun(r, w, run) && IsRun(r, After(r, w, run), rest)
    ensures IsRun(r, w, run + rest) && After(r, w, run + rest) == After(r, After(r, w, run), rest)
    decreases |run|
  {
    if run == [] {
      assert run + rest == rest;
    } else {
      RunOn(r, Step(r, w, run[0]), run[1..], rest);
      assert (run + rest)[1..] == run[1..] + rest;
    }
  }

  /** No Filter call is in progress, and every call can take the lock. */
  ghost predicate LockFree(w: World) {
    w.active.None? && OneHolder(w.claims) && forall c :: Holds(w.claims, c) ==> w.claims[c].bound
  }

  /** One Filter call of a waiting pod over a single node, and its placement there, from a state in which the
      call can take the lock and the node is answered. */
  lemma CallAndPlace(r: Rules, w: World, pod: string, node: string) returns (run: seq<Action>)
    requires LockFree(w) && Waits(w, pod) && r.ClaimOf(pod) in w.claims
    requires Bound(r, w, pod) || HasRoom(node, w.pods, r.max)
    ensures IsRun(r, w, run)
    ensures var v := After(r, w, run);
            && v.pods == w.pods[pod := Some(node)] && LockFree(v) && v.claims.Keys == w.claims.Keys
            && forall c :: c in w.claims && c != r.ClaimOf(pod) ==> v.claims[c].bound == w.claims[c].bound
  {
    var claim := r.ClaimOf(pod);
    var order := SomeOrder(w.claims);
    var input := OPEN.(claimItems := order);
    LockKept(w.claims, claim, input);
    LockSucceedsExactly(w.claims, claim, input);
    var w1 := Step(r, w, Lock(pod, [node], input));
    AnswersNode(r, w1, pod, node);
    var w2 := Step(r, w1, Choose(OPEN));
    var w3 := Step(r, w2, Place(pod, node));
    assert w2.claims == w1.claims;
    assert forall c :: Holds(w3.claims, c) ==> Holds(w1.claims, c);
    assert forall c :: Holds(w1.claims, c) ==> c == claim;
    RunFrom(r, w2, Place(pod, node), []);
    RunFrom(r, w1, Choose(OPEN), [Place(pod, node)] + []);
    RunFrom(r, w, Lock(pod, [node], input), [Choose(OPEN)] + ([Place(pod, node)] + []));
    run := [Lock(pod, [node], input)] + ([Choose(OPEN)] + ([Place(pod, node)] + []));
  }

  lemma AnswersNode(r: Rules, w: World, pod: string, node: string)
    requires w.active == Some((pod, [node])) && r.ClaimOf(pod) in w.claims
    requires Bound(r, w, pod) || HasRoom(node, w.pods, r.max)
    ensures var v := Step(r, w, Choose(OPEN));
            v == w.(active := None, answers := v.answers) && node in Answered(v, pod)
  {
    ChoiceMembers([node], w.pods, r.max);
    assert node in [node];
    assert !Bound(r, w, pod) ==> LeastLoaded(node, [node], w.pods, r.max);
  }

  /** A pod created anew beside its old, bound claim is answered the one node it is offered unseen, and so
      joins a node however many pods that holds. */
  lemma RecreatedPodIgnoresLoad(r: Rules, w: World, pod: string, node: string) returns (run: seq<Action>)
    requires LockFree(w) && Waits(w, pod) && Bound(r, w, pod)
    ensures IsRun(r, w, run)
    ensures Load(node, After(r, w, run).pods) == Load(node, w.pods) + 1
  {
    run := CallAndPlace(r, w, pod, node);
    PlacedLoad(w.pods, pod, node, node);
  }

  /** There is always a name not used yet. */
  lemma {:induction false} LongName(names: set<string>) returns (name: string)
    ensures forall n :: n in names ==> |n| < |name|
  {
    if names == {} {
      name := "";
    } else {
      var n := AnyOf(names);
      name := LongName(names - {n});
      if |name| <= |n| {
        name := n + "x";
      }
    }
  }

  /** A new pod is created and placed on a node with room. */
  lemma FillOne(r: Rules, w: World, waiting: string, node: string) returns (run: seq<Action>)
    requires LockFree(w) && Waits(w, waiting) && Bound(r, w, waiting) && HasRoom(node, w.pods, r.max)
    ensures IsRun(r, w, run)
    ensures var v := After(r, w, run);
            LockFree(v) && Waits(v, waiting) && Bound(r, v, waiting) && Load(node, v.pods) == Load(node, w.pods) + 1
  {
    var pod := LongName(w.pods.Keys + w.claims.Keys);
    assert pod !in w.pods.Keys + w.claims.Keys;
    var claim := r.ClaimOf(pod);
    assert |claim| > |pod|;
    assert claim !in w.pods.Keys + w.claims.Keys;
    var w1 := Step(r, w, Create(pod));
    assert forall c :: Holds(w1.claims, c) <==> Holds(w.claims, c);
    assert PodsOn(node, w1.pods) == PodsOn(node, w.pods);
    var rest := CallAndPlace(r, w1, pod, node);
    PlacedLoad(w1.pods, pod, node, node);
    PvcNameInjective(r.component, pod, waiting);
    RunFrom(r, w, Create(pod), rest);
    run := [Create(pod)] + rest;
  }

  lemma {:induction false} Fill(r: Rules, w: World, waiting: string, node: string) returns (run: seq<Action>)
    requires LockFree(w) && Waits(w, waiting) && Bound(r, w, waiting) && Load(node, w.pods) <= r.max
    ensures IsRun(r, w, run)
    ensures var v := After(r, w, run);
            LockFree(v) && Waits(v, waiting) && Bound(r, v, waiting) && Load(node, v.pods) == r.max
    decreases r.max - Load(node, w.pods)
  {
    if Load(node, w.pods) == r.max {
      run := [];
    } else {
      var first := FillOne(r, w, waiting, node);
      var rest := Fill(r, After(r, w, first), waiting, node);
      RunOn(r, w, first, rest);
      run := first + rest;
    }
  }

  /** A holder that is not bound is out of the way once its pod and then its claim are gone. */
  lemma FreeLock(r: Rules, w: World, waiting: string) returns (run: seq<Action>)
    requires Orderly(r, w) && w.active.None? && Waits(w, waiting) && Bound(r, w, waiting)
    ensures IsRun(r, w, run)
    ensures var v := After(r, w, run);
            LockFree(v) && Waits(v, waiting) && Bound(r, v, waiting) && NoneOverfull(r, v)
  {
    if holder :| Holds(w.claims, holder) && !w.claims[holder].bound {
      if pod :| Waits(w, pod) && r.ClaimOf(pod) == holder {
        var w1 := Step(r, w, Delete(pod));
        forall q | Waits(w1, q)
          ensures r.ClaimOf(q) != holder
        {
          PvcNameInjective(r.component, q, pod);
        }
        forall n
          ensures Load(n, w1.pods) <= Load(n, w.pods)
        {
          SameLoad(w.pods, w1.pods, n);
        }
        DropFreesLock(r, w1, holder);
        RunFrom(r, w1, DropClaim(holder), []);
        RunFrom(r, w, Delete(pod), [DropClaim(holder)] + []);
        run := [Delete(pod)] + ([DropClaim(holder)] + []);
      } else {
        DropFreesLock(r, w, holder);
        RunFrom(r, w, DropClaim(holder), []);
        run := [DropClaim(holder)] + [];
      }
    } else {
      run := [];
    }
  }

  lemma DropFreesLock(r: Rules, w: World, holder: string)
    requires w.active.None? && OneHolder(w.claims) && Holds(w.claims, holder)
    requires Enabled(r, w, DropClaim(holder))
    ensures LockFree(Step(r, w, DropClaim(holder)))
  {
    var v := Step(r, w, DropClaim(holder));
    assert forall c :: Holds(v.claims, c) ==> Holds(w.claims, c) && c != holder;
  }

  /** From a state like those of NoNodeOverfull's runs, except that claims of waiting pods may be bound: no
      node is ever overfull, in any run, if and only if no waiting pod's claim is bound. */
  lemma OccupancyExact(r: Rules, w: World)
    requires Orderly(r, w) && w.active.None?
    ensures (forall run :: IsRun(r, w, run) ==> NoneOverfull(r, After(r, w, run)))
        <==> forall pod :: Waits(w, pod) ==> !Bound(r, w, pod)
  {
    if pod :| Waits(w, pod) && Bound(r, w, pod) {
      var node := "";
      var free := FreeLock(r, w, pod);
      var w1 := After(r, w, free);
      var full := Fill(r, w1, pod, node);
      RunOn(r, w, free, full);
      var w2 := After(r, w1, full);
      var last := RecreatedPodIgnoresLoad(r, w2, pod, node);
      RunOn(r, w, free + full, last);
      assert !NoneOverfull(r, After(r, w, free + full + last));
    } else {
      forall run | IsRun(r, w, run)
        ensures NoneOverfull(r, After(r, w, run))
      {
        RunKeepsSafe(r, w, run);
      }
    }
  }

  /** So the assumption about Create is exact: from a safe state, a pod may be created without harm to any
      later run if and only if its claim is not bound. */
  lemma CreateExact(r: Rules, w: World, pod: string)
    requires Safe(r, w) && w.active.None? && pod !in w.pods
    ensures var v := Created(r, w, pod);
            (forall run :: IsRun(r, v, run) ==> NoneOverfull(r, After(r, v, run))) <==> !Bound(r, w, pod)
  {
    var v := Created(r, w, pod);
    forall n
      ensures Load(n, v.pods) <= Load(n, w.pods)
    {
      SameLoad(w.pods, v.pods, n);
    }
    assert forall c :: Holds(v.claims, c) <==> Holds(w.claims, c);
    forall q | Waits(v, q)
      ensures HoldsLock(r, v, q) && r.ClaimOf(q) in v.claims
      ensures q != pod ==> Waits(w, q) && !Bound(r, v, q)
      ensures forall n :: n in Answered(v, q) ==> n in Answered(w, q) && HasRoom(n, v.pods, r.max)
    {
      PvcNameInjective(r.component, q, pod);
      assert Answered(v, q) == Answered(w, q);
      if Waits(w, q) {
        assert HoldsLock(r, w, q);
        assert forall n :: n in Answered(w, q) ==> HasRoom(n, w.pods, r.max);
      }
    }
    OccupancyExact(r, v);
    assert Waits(v, pod) && Bound(r, v, pod) == Bound(r, w, pod);
  }
}
