/** The scheduler's high-availability predicate: a lock kept as an annotation on one volume claim of the
    component, and the choice of the least loaded nodes. */
module Scheduler {
  import opened Kube

  /** A volume claim of one namespace, instance and component; `scheduling` is the annotation that makes it
      the holder of the lock. */
  datatype Claim = Claim(scheduling: Option<Time>, bound: bool)

  datatype FilterError =
    NoNodes | ListFailed | NoClaim | Waiting(holder: string) | UpdateFailed | GetFailed | NoNodeLeft

  /** The order in which the API lists the claims and the pods, the fate of its calls, and the time. */
  datatype FilterInput = FilterInput(claimItems: seq<string>, podItems: seq<string>, listClaims: bool, clear: Outcome,
                                     annotate: Outcome, getClaim: bool, listPods: bool, now: Time)

  function PvcName(component: string, podName: string): string {
    component + "-" + podName
  }

  lemma PvcNameInjective(component: string, a: string, b: string)
    ensures PvcName(component, a) == PvcName(component, b) <==> a == b
  {
    assert PvcName(component, a)[|component| + 1..] == a;
    assert PvcName(component, b)[|component| + 1..] == b;
  }

  // ---------------------------------------------------------------------------------------------
  // The lock
  // ---------------------------------------------------------------------------------------------

  predicate Holds(claims: map<string, Claim>, name: string) {
    name in claims && claims[name].scheduling.Some?
  }

  function FirstHolder(items: seq<string>, claims: map<string, Claim>): Option<string> {
    if items == [] then None else if Holds(claims, items[0]) then Some(items[0]) else FirstHolder(items[1..], claims)
  }

  lemma {:induction false} FirstHolderExact(items: seq<string>, claims: map<string, Claim>)
    ensures match FirstHolder(items, claims)
            case None => forall n :: n in items ==> !Holds(claims, n)
            case Some(h) => h in items && Holds(claims, h)
  {
    if items != [] {
      FirstHolderExact(items[1..], claims);
    }
  }

  function Annotated(claims: map<string, Claim>, name: string, stamp: Option<Time>, update: Outcome): map<string, Claim>
    requires name in claims
  {
    if update.TookEffect() then claims[name := claims[name].(scheduling := stamp)] else claims
  }

  function Failure(update: Outcome): Option<FilterError> {
    if update.Reported() then None else Some(UpdateFailed)
  }

  /** realAcquireLock for the claim `current`, once the first holder of the listing is known. */
  function AcquiredFrom(claims: map<string, Claim>, holder: Option<string>, current: string,
                        input: FilterInput): (map<string, Claim>, Option<FilterError>)
  {
    var stamp := Some(Stamped(input.now));
    if current !in claims then (claims, Some(NoClaim))
    else if holder.None? then (Annotated(claims, current, stamp, input.annotate), Failure(input.annotate))
    else if holder.value == current then (claims, None)
    else if holder.value !in claims || !claims[holder.value].bound then (claims, Some(Waiting(holder.value)))
    else
      var cleared := Annotated(claims, holder.value, None, input.clear);
      if !input.clear.Reported() then (cleared, Some(UpdateFailed))
      else (Annotated(cleared, current, stamp, input.annotate), Failure(input.annotate))
  }

  function Acquired(claims: map<string, Claim>, current: string, input: FilterInput): (map<string, Claim>,
                    Option<FilterError>)
  {
    if !input.listClaims then (claims, Some(ListFailed))
    else AcquiredFrom(claims, FirstHolder(input.claimItems, claims), current, input)
  }

  /** The loop of realAcquireLock over the claim list. */
  method ScanClaims(claims: map<string, Claim>, items: seq<string>, current: string)
    returns (found: bool, scheduling: Option<string>)
    requires Lists(items, claims)
    ensures found <==> current in claims
    ensures scheduling == FirstHolder(items, claims)
  {
    found, scheduling := false, None;
    for i := 0 to |items|
      invariant found <==> current in items[..i]
      invariant FirstHolder(items, claims) == if scheduling.Some? then scheduling else FirstHolder(items[i..], claims)
    {
      assert items[..i + 1] == items[..i] + [items[i]];
      assert items[i..][0] == items[i] && items[i..][1..] == items[i + 1..];
      if items[i] == current {
        found := true;
      }
      if claims[items[i]].scheduling.Some? && scheduling.None? {
        scheduling := Some(items[i]);
      }
    }
    assert items[..|items|] == items;
  }

  /** At most one claim holds the lock. */
  ghost predicate OneHolder(claims: map<string, Claim>) {
    forall a, b :: Holds(claims, a) && Holds(claims, b) ==> a == b
  }

  /** With at most one holder, the listing finds it whatever its order. */
  lemma HolderFound(claims: map<string, Claim>, items: seq<string>)
    requires Lists(items, claims) && OneHolder(claims)
    ensures forall h :: Holds(claims, h) <==> FirstHolder(items, claims) == Some(h)
  {
    FirstHolderExact(items, claims);
    assert forall n :: Holds(claims, n) ==> n in items;
  }

  /** After every call, whichever update fails, at most one claim holds the lock; a successful call leaves
      the caller's claim as the only holder; another holder that is not bound keeps the lock, and the call
      fails. No call changes anything but the annotation. */
  lemma LockKept(claims: map<string, Claim>, current: string, input: FilterInput)
    requires Lists(input.claimItems, claims) && OneHolder(claims)
    ensures var (after, error) := Acquired(claims, current, input);
            && OneHolder(after)
            && (error.None? ==> Holds(after, current))
            && (forall h :: Holds(claims, h) && h != current && !claims[h].bound ==> error.Some? && after == claims)
            && after.Keys == claims.Keys
            && (Holds(after, current) && !Holds(claims, current) ==>
                  after[current].scheduling == Some(input.now - input.now % 1_000_000_000))
            && forall n :: n in claims ==> after[n].bound == claims[n].bound
  {
    HolderFound(claims, input.claimItems);
    var after := Acquired(claims, current, input).0;
    var holder := FirstHolder(input.claimItems, claims);
    forall n | Holds(after, n) && n != current
      ensures after == claims
    {
      assert holder == Some(n);
    }
  }

  /** Exactly when a call succeeds: the claim exists, no unbound claim of another pod holds the lock, and
      the updates it needs are reported. */
  lemma LockSucceedsExactly(claims: map<string, Claim>, current: string, input: FilterInput)
    requires Lists(input.claimItems, claims) && OneHolder(claims)
    ensures Acquired(claims, current, input).1.None?
        <==> && input.listClaims && current in claims
             && (forall h :: Holds(claims, h) && h != current ==> claims[h].bound && input.clear.Reported())
             && (!Holds(claims, current) ==> input.annotate.Reported())
  {
    HolderFound(claims, input.claimItems);
  }

  // ---------------------------------------------------------------------------------------------
  // The choice of nodes
  // ---------------------------------------------------------------------------------------------

  /** The pods of the component on a node; a pod that has no node yet maps to None. */
  ghost function PodsOn(node: string, pods: map<string, Option<string>>): set<string> {
    set p | p in pods && pods[p] == Some(node)
  }

  ghost function Load(node: string, pods: map<string, Option<string>>): nat {
    |PodsOn(node, pods)|
  }

  ghost predicate HasRoom(node: string, pods: map<string, Option<string>>, max: int) {
    Load(node, pods) < max
  }

  /** The node has room, and no node of the list that has room holds fewer pods. */
  ghost predicate LeastLoaded(node: string, nodes: seq<string>, pods: map<string, Option<string>>, max: int) {
    HasRoom(node, pods, max) && forall m :: m in nodes && HasRoom(m, pods, max) ==> Load(node, pods) <= Load(m, pods)
  }

  /** The sub-sequence of `nodes` whose members are in `names`. */
  function Keep(nodes: seq<string>, names: set<string>): (kept: seq<string>)
    ensures forall n :: n in kept <==> n in nodes && n in names
  {
    if nodes == [] then []
    else if nodes[|nodes| - 1] in names then Keep(nodes[..|nodes| - 1], names) + [nodes[|nodes| - 1]]
    else Keep(nodes[..|nodes| - 1], names)
  }

  /** `kept` lists the nodes at these positions, from the first to the last. */
  ghost predicate ListsAt(positions: seq<int>, nodes: seq<string>, kept: seq<string>) {
    && |positions| == |kept|
    && (forall k :: 0 <= k < |positions| ==> 0 <= positions[k] < |nodes| && kept[k] == nodes[positions[k]])
    && forall j, k :: 0 <= j < k < |positions| ==> positions[j] < positions[k]
  }

  /** The positions in a longer list, and with its last node. */
  lemma ListsAtNext(positions: seq<int>, nodes: seq<string>, kept: seq<string>)
    requires nodes != [] && ListsAt(positions, nodes[..|nodes| - 1], kept)
    ensures ListsAt(positions, nodes, kept)
    ensures ListsAt(positions + [|nodes| - 1], nodes, kept + [nodes[|nodes| - 1]])
  {
  }

  /** The listed positions are all those of nodes in the set. */
  ghost predicate PositionsOf(positions: seq<int>, nodes: seq<string>, names: set<string>) {
    forall i :: 0 <= i < |nodes| ==> (i in positions <==> nodes[i] in names)
  }

  lemma PositionsNext(positions: seq<int>, nodes: seq<string>, names: set<string>)
    requires nodes != [] && PositionsOf(positions, nodes[..|nodes| - 1], names) && |nodes| - 1 !in positions
    ensures var n := |nodes| - 1;
            PositionsOf(if nodes[n] in names then positions + [n] else positions, nodes, names)
  {
    var n := |nodes| - 1;
    forall i | 0 <= i < n
      ensures i in positions <==> nodes[i] in names
      ensures i in positions + [n] <==> i in positions
    {
      assert nodes[..n][i] == nodes[i];
    }
  }

  /** Keeping lists the positions of the nodes in the set, all of them, in input order. */
  lemma {:induction false} KeepInOrder(nodes: seq<string>, names: set<string>) returns (positions: seq<int>)
    ensures ListsAt(positions, nodes, Keep(nodes, names)) && PositionsOf(positions, nodes, names)
  {
    if nodes == [] {
      positions := [];
    } else {
      var n := |nodes| - 1;
      var front := KeepInOrder(nodes[..n], names);
      ListsAtNext(front, nodes, Keep(nodes[..n], names));
      PositionsNext(front, nodes, names);
      positions := if nodes[n] in names then front + [n] else front;
    }
  }

  /** getNodeFromNames: the nodes with these names, in input order. */
  method GetNodeFromNames(nodes: seq<string>, nodeNames: seq<string>) returns (kept: seq<string>)
    ensures kept == Keep(nodes, set n | n in nodeNames)
    ensures exists positions ::
              && ListsAt(positions, nodes, kept)
              && forall i :: 0 <= i < |nodes| ==> (i in positions <==> nodes[i] in nodeNames)
  {
    ghost var names := set n | n in nodeNames;
    kept := [];
    for i := 0 to |nodes|
      invariant kept == Keep(nodes[..i], names)
    {
      assert nodes[..i + 1][..i] == nodes[..i];
      var found := false;
      for j := 0 to |nodeNames|
        invariant found <==> nodes[i] in nodeNames[..j]
        invariant kept == Keep(nodes[..i], names) + if found then [nodes[i]] else []
      {
        assert nodeNames[..j + 1] == nodeNames[..j] + [nodeNames[j]];
        if nodes[i] == nodeNames[j] {
          kept := kept + [nodes[i]];
          found := true;
          assert nodeNames[j] in nodeNames;
          break;
        }
      }
      assert found <==> nodes[i] in names;
    }
    assert nodes[..|nodes|] == nodes;
    ghost var positions := KeepInOrder(nodes, names);
  }

  lemma {:induction false} KeepNone(nodes: seq<string>)
    ensures Keep(nodes, {}) == []
  {
    if nodes != [] {
      KeepNone(nodes[..|nodes| - 1]);
    }
  }

  /** The pods among the items that are placed on the node. */
  function CountOn(items: seq<string>, node: string, pods: map<string, Option<string>>): nat
    requires forall k :: 0 <= k < |items| ==> items[k] in pods
  {
    if items == [] then 0
    else
      var n := |items| - 1;
      CountOn(items[..n], node, pods) + if pods[items[n]] == Some(node) then 1 else 0
  }

  lemma {:induction false} CountIsSize(items: seq<string>, node: string, pods: map<string, Option<string>>)
    requires forall k :: 0 <= k < |items| ==> items[k] in pods
    requires forall j, k :: 0 <= j < k < |items| ==> items[j] != items[k]
    ensures CountOn(items, node, pods) == |set p | p in items && pods[p] == Some(node)|
  {
    if items != [] {
      var n := |items| - 1;
      var front, last := items[..n], items[n];
      CountIsSize(front, node, pods);
      assert items == front + [last];
      var here, there := set p | p in items && pods[p] == Some(node), set p | p in front && pods[p] == Some(node);
      assert last !in there;
      assert here == there + if pods[last] == Some(node) then {last} else {};
    }
  }

  lemma CountIsLoad(items: seq<string>, node: string, pods: map<string, Option<string>>)
    requires Lists(items, pods)
    ensures CountOn(items, node, pods) == Load(node, pods)
  {
    CountIsSize(items, node, pods);
    assert (set p | p in items && pods[p] == Some(node)) == PodsOn(node, pods);
  }

  /** The loop over the pod list: the pods on each of the given nodes. */
  method GroupByNode(nodes: seq<string>, pods: map<string, Option<string>>, items: seq<string>)
    returns (nodeMap: map<string, seq<string>>)
    requires Lists(items, pods)
    ensures forall n :: n in nodeMap <==> n in nodes
    ensures forall n :: n in nodeMap ==> |nodeMap[n]| == Load(n, pods)
  {
    nodeMap := map[];
    for i := 0 to |nodes|
      invariant forall n :: n in nodeMap <==> n in nodes[..i]
      invariant forall n :: n in nodeMap ==> nodeMap[n] == []
    {
      assert nodes[..i + 1] == nodes[..i] + [nodes[i]];
      nodeMap := nodeMap[nodes[i] := []];
    }
    assert nodes[..|nodes|] == nodes;
    for k := 0 to |items|
      invariant forall n :: n in nodeMap <==> n in nodes
      invariant forall n :: n in nodeMap ==> |nodeMap[n]| == CountOn(items[..k], n, pods)
    {
      assert items[..k + 1][..k] == items[..k];
      var node := pods[items[k]];
      if node.Some? && node.value in nodeMap {
        nodeMap := nodeMap[node.value := nodeMap[node.value] + [items[k]]];
      }
    }
    assert items[..|items|] == items;
    forall n | n in nodeMap
      ensures |nodeMap[n]| == Load(n, pods)
    {
      CountIsLoad(items, n, pods);
    }
  }

  /** The names the choice keeps. */
  ghost function Best(nodes: seq<string>, pods: map<string, Option<string>>, max: int): set<string> {
    set n | n in nodes && LeastLoaded(n, nodes, pods, max)
  }

  /** `names` are the nodes of `done` with room that hold `min` pods, the least of any; -1 stands for none. */
  ghost predicate MinOver(done: set<string>, nodeMap: map<string, seq<string>>, max: int, min: int,
                          names: seq<string>)
  {
    && done <= nodeMap.Keys
    && (if names == [] then min == -1 else min >= 0)
    && (forall n :: n in names ==> n in done && |nodeMap[n]| == min < max)
    && (forall n :: n in done && |nodeMap[n]| < max ==>
      0 <= min <= |nodeMap[n]| && (|nodeMap[n]| == min ==> n in names))
  }

  lemma MinOverAll(nodes: seq<string>, pods: map<string, Option<string>>, nodeMap: map<string, seq<string>>, max: int,
                   min: int, names: seq<string>)
    requires forall n :: n in nodeMap <==> n in nodes
    requires forall n :: n in nodeMap ==> |nodeMap[n]| == Load(n, pods)
    requires MinOver(nodeMap.Keys, nodeMap, max, min, names)
    ensures (set n | n in names) == Best(nodes, pods, max)
  {
    forall n | n in names
      ensures LeastLoaded(n, nodes, pods, max)
    {
    }
    forall n | n in nodes && LeastLoaded(n, nodes, pods, max)
      ensures n in names
    {
      assert names[0] in names;
    }
  }

  /** One more node with room joins the least loaded ones, replaces them, or is passed over. */
  lemma MinOverNext(done: set<string>, nodeMap: map<string, seq<string>>, max: int, min: int, names: seq<string>,
                    node: string)
    requires MinOver(done, nodeMap, max, min, names) && node in nodeMap && node !in done
    ensures var count := |nodeMap[node]|;
            && (count >= max || (min >= 0 && count > min) ==> MinOver(done + {node}, nodeMap, max, min, names))
            && (count < max && (min == -1 || count < min) ==> MinOver(done + {node}, nodeMap, max, count, [node]))
            && (count < max && count == min ==> MinOver(done + {node}, nodeMap, max, min, names + [node]))
  {
  }

  /** The loop over the node map, in any order: the names of the least loaded nodes with room. */
  method PickMin(nodes: seq<string>, pods: map<string, Option<string>>, nodeMap: map<string, seq<string>>, max: int)
    returns (minNodeNames: seq<string>)
    requires forall n :: n in nodeMap <==> n in nodes
    requires forall n :: n in nodeMap ==> |nodeMap[n]| == Load(n, pods)
    ensures (set n | n in minNodeNames) == Best(nodes, pods, max)
  {
    var min := -1;
    minNodeNames := [];
    var rest := nodeMap.Keys;
    while rest != {}
      invariant rest <= nodeMap.Keys
      invariant MinOver(nodeMap.Keys - rest, nodeMap, max, min, minNodeNames)
      decreases |rest|
    {
      var nodeName := NextKey(rest);
      ghost var done := nodeMap.Keys - rest;
      var podsCount := |nodeMap[nodeName]|;
      MinOverNext(done, nodeMap, max, min, minNodeNames, nodeName);
      rest := rest - {nodeName};
      assert nodeMap.Keys - rest == done + {nodeName};
      if podsCount >= max {
        continue;
      }
      if min == -1 {
        min := podsCount;
      }
      if podsCount > min {
        continue;
      }
      if podsCount < min {
        min, minNodeNames := podsCount, [];
      }
      minNodeNames := minNodeNames + [nodeName];
    }
    MinOverAll(nodes, pods, nodeMap, max, min, minNodeNames);
  }

  /** What Filter returns: the nodes, or why there are none. */
  datatype Choice = Nodes(nodes: seq<string>) | Failed(error: FilterError)

  ghost function Chosen(nodes: seq<string>, pods: map<string, Option<string>>, max: int): Choice {
    var kept := Keep(nodes, Best(nodes, pods, max));
    if kept == [] then Failed(NoNodeLeft) else Nodes(kept)
  }

  /** Filter once the lock is held. */
  ghost function Picked(component: string, max: int, claims: map<string, Claim>, pods: map<string, Option<string>>,
                        podName: string, nodes: seq<string>, input: FilterInput): Choice
  {
    var name := PvcName(component, podName);
    if |nodes| == 1 && (!input.getClaim || name !in claims) then Failed(GetFailed)
    else if |nodes| == 1 && claims[name].bound then Nodes(nodes)
    else if !input.listPods then Failed(ListFailed)
    else Chosen(nodes, pods, max)
  }

  /** Filter for one pod. The lock is taken before any node is looked at. */
  ghost function Filtered(component: string, max: int, claims: map<string, Claim>, pods: map<string, Option<string>>,
                          podName: string, nodes: seq<string>, input: FilterInput): (map<string, Claim>, Choice)
  {
    if nodes == [] then (claims, Failed(NoNodes))
    else
      var (claims1, error) := Acquired(claims, PvcName(component, podName), input);
      (claims1, if error.Some? then Failed(error.value)
        else Picked(component, max, claims1, pods, podName, nodes, input))
  }

  /** `kept` lists, in input order, the positions of the least loaded nodes with room, all of them. */
  ghost predicate KeptInOrder(nodes: seq<string>, kept: seq<string>, pods: map<string, Option<string>>, max: int) {
    exists positions ::
      && ListsAt(positions, nodes, kept)
      && forall i :: 0 <= i < |nodes| ==> (i in positions <==> LeastLoaded(nodes[i], nodes, pods, max))
  }

  /** Exactly which nodes a choice keeps, and exactly when it keeps none. */
  lemma ChoiceExact(nodes: seq<string>, pods: map<string, Option<string>>, max: int)
    ensures match Chosen(nodes, pods, max)
            case Nodes(kept) =>
              && kept != []
              && (forall n :: n in kept <==> n in nodes && LeastLoaded(n, nodes, pods, max))
              && KeptInOrder(nodes, kept, pods, max)
            case Failed(error) => error == NoNodeLeft && forall n :: n in nodes ==> !HasRoom(n, pods, max)
  {
    ChoiceMembers(nodes, pods, max);
    var positions := KeepInOrder(nodes, Best(nodes, pods, max));
  }

  /** Which ones, without their order. */
  lemma ChoiceMembers(nodes: seq<string>, pods: map<string, Option<string>>, max: int)
    ensures match Chosen(nodes, pods, max)
            case Nodes(kept) => kept != [] && forall n :: n in kept <==> n in nodes && LeastLoaded(n, nodes, pods, max)
            case Failed(error) => error == NoNodeLeft && forall n :: n in nodes ==> !HasRoom(n, pods, max)
  {
    if Keep(nodes, Best(nodes, pods, max)) == [] {
      if n :| n in nodes && HasRoom(n, pods, max) {
        var least := Least(nodes, pods, max, n);
        assert false;
      }
    }
  }

  lemma {:induction false} Least(nodes: seq<string>, pods: map<string, Option<string>>, max: int, n: string)
    returns (least: string)
    requires n in nodes && HasRoom(n, pods, max)
    ensures least in nodes && LeastLoaded(least, nodes, pods, max)
    decreases Load(n, pods)
  {
    if m :| m in nodes && HasRoom(m, pods, max) && Load(m, pods) < Load(n, pods) {
      least := Least(nodes, pods, max, m);
    } else {
      least := n;
    }
  }

  /** The claim of the pod is bound and there is one node only: Filter returns the node unseen. */
  predicate Bypass(claims: map<string, Claim>, name: string, nodes: seq<string>) {
    |nodes| == 1 && name in claims && claims[name].bound
  }

  /** A successful Filter outside the bypass returns, in input order, exactly the least loaded nodes with
      room, whatever the order in which the API lists claims and pods; it finds no node exactly when it
      gets as far as counting and every node is full. */
  lemma FilterExact(component: string, max: int, claims: map<string, Claim>, pods: map<string, Option<string>>,
                    podName: string, nodes: seq<string>, input: FilterInput)
    requires Lists(input.claimItems, claims) && OneHolder(claims)
    ensures var name := PvcName(component, podName);
            match Filtered(component, max, claims, pods, podName, nodes, input).1
            case Nodes(kept) =>
              if Bypass(claims, name, nodes) then kept == nodes
              else && (forall n :: n in kept <==> n in nodes && LeastLoaded(n, nodes, pods, max))
                   && KeptInOrder(nodes, kept, pods, max) && kept != []
            case Failed(error) =>
              error == NoNodeLeft
              <==> && nodes != [] && !Bypass(claims, name, nodes)
                   && Acquired(claims, name, input).1.None? && (|nodes| == 1 ==> input.getClaim) && input.listPods
                   && forall n :: n in nodes ==> !HasRoom(n, pods, max)
  {
    var name := PvcName(component, podName);
    LockKept(claims, name, input);
    ChoiceExact(nodes, pods, max);
  }

  /** The predicate over one component's claims and pods. */
  class Ha {
    const component: string
    const maxPodCountPerNode: int
    var claims: map<string, Claim>
    var pods: map<string, Option<string>>

    constructor (component: string, maxPodCountPerNode: int, claims: map<string, Claim>,
                 pods: map<string, Option<string>>)
      ensures this.component == component && this.maxPodCountPerNode == maxPodCountPerNode
      ensures this.claims == claims && this.pods == pods
    {
      this.component, this.maxPodCountPerNode, this.claims, this.pods := component, maxPodCountPerNode, claims, pods;
    }

    method UpdateScheduling(name: string, stamp: Option<Time>, update: Outcome) returns (error: Option<FilterError>)
      requires name in claims
      modifies this`claims
      ensures claims == Annotated(old(claims), name, stamp, update) && error == Failure(update)
    {
      if update.TookEffect() {
        claims := claims[name := claims[name].(scheduling := stamp)];
      }
      error := Failure(update);
    }

    method AcquireLock(podName: string, input: FilterInput) returns (error: Option<FilterError>)
      requires Lists(input.claimItems, claims)
      modifies this`claims
      ensures (claims, error) == Acquired(old(claims), PvcName(component, podName), input)
    {
      if !input.listClaims {
        return Some(ListFailed);
      }
      var current := PvcName(component, podName);
      var found, scheduling := ScanClaims(claims, input.claimItems, current);
      if !found {
        return Some(NoClaim);
      }
      FirstHolderExact(input.claimItems, claims);
      if scheduling.None? {
        error := UpdateScheduling(current, Some(Stamped(input.now)), input.annotate);
        return;
      }
      var holder := scheduling.value;
      if holder == current {
        return None;
      }
      if !claims[holder].bound {
        return Some(Waiting(holder));
      }
      error := UpdateScheduling(holder, None, input.clear);
      if error.Some? {
        return;
      }
      error := UpdateScheduling(current, Some(Stamped(input.now)), input.annotate);
    }

    method Filter(podName: string, nodes: seq<string>, input: FilterInput) returns (choice: Choice)
      requires Lists(input.claimItems, claims) && Lists(input.podItems, pods)
      modifies this`claims
      ensures (claims, choice) == Filtered(component, maxPodCountPerNode, old(claims), pods, podName, nodes, input)
    {
      if |nodes| == 0 {
        return Failed(NoNodes);
      }
      var failure := AcquireLock(podName, input);
      if failure.Some? {
        return Failed(failure.value);
      }
      if |nodes| == 1 {
        var name := PvcName(component, podName);
        if !input.getClaim || name !in claims {
          return Failed(GetFailed);
        }
        if claims[name].bound {
          return Nodes(nodes);
        }
      }
      if !input.listPods {
        return Failed(ListFailed);
      }
      var nodeMap := GroupByNode(nodes, pods, input.podItems);
      var minNodeNames := PickMin(nodes, pods, nodeMap, maxPodCountPerNode);
      ghost var best := Best(nodes, pods, maxPodCountPerNode);
      if |minNodeNames| == 0 {
        assert best == {};
        KeepNone(nodes);
        return Failed(NoNodeLeft);
      }
      assert minNodeNames[0] in best;
      assert minNodeNames[0] in Keep(nodes, best);
      var kept := GetNodeFromNames(nodes, minNodeNames);
      choice := Nodes(kept);
    }
  }
}
