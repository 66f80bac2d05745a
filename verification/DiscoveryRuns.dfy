/** Runs of bootstrap discovery: calls to any number of discovery processes, which restart at will, the
    operator's status writes made from stale versions, and edits of the object by users, interleaved
    between the read and the update of every call. */
module DiscoveryRuns {
  import opened CellClusters
  import opened Discovery
  import opened Kube
  import opened Strings

  /** A discovery process; the update its current call is about to send. */
  datatype Process = Process(peers: Option<Peers>, pending: Option<(string, Snapshot)>)

  /** `replies` holds every successful reply and the cluster it was about. */
  datatype World = World(clusters: map<string, History>, processes: map<int, Process>, replies: set<(string, string)>)

  datatype Action =
      // A process starts anew. A crashed process whose update is still on its way is one under another number.
    | Restart(process: int)
    | Ask(process: int, url: string, getOk: bool, order: seq<string>)
    | Send(process: int, outcome: Outcome)
    | Operator(cluster: string, version: nat, status: string, outcome: Outcome)
    | Edit(cluster: string, pdReplicas: int)

  function Found(w: World, namespace: string, url: string, getOk: bool): Option<Snapshot> {
    match ParsePeer(url, namespace)
    case Malformed(_) => None
    case Peer(_, cluster) =>
      if !getOk || cluster !in w.clusters then None
      else Some(Snapshot(|w.clusters[cluster]| - 1, Current(w.clusters[cluster])))
  }

  ghost predicate Enabled(namespace: string, w: World, a: Action) {
    match a
    case Restart(_) => true
    case Ask(p, url, getOk, order) =>
      && p in w.processes && w.processes[p].pending.None?
      && InOrder(namespace, w.processes[p].peers, url, Found(w, namespace, url, getOk), order)
    case Send(p, _) => p in w.processes && w.processes[p].pending.Some? && w.processes[p].pending.value.0 in w.clusters
    case Operator(cluster, version, _, _) => cluster in w.clusters && version < |w.clusters[cluster]|
    case Edit(cluster, _) => cluster in w.clusters
  }

  function Replied(w: World, cluster: string, answer: Answer): set<(string, string)> {
    if answer.Members? then w.replies + {(cluster, answer.param)} else w.replies
  }

  /** The cluster a call is about; "" when its address is malformed. */
  function ClusterOf(namespace: string, url: string): string {
    match ParsePeer(url, namespace)
    case Malformed(_) => ""
    case Peer(_, cluster) => cluster
  }

  /** What is left of a call before its update, if it makes one. */
  function Carried(w: World, p: int, peers: Option<Peers>, cluster: string, next: Next): World {
    match next
    case Reply(answer) => w.(processes := w.processes[p := Process(peers, None)],
      replies := Replied(w, cluster, answer))
    case Publish(update) => w.(processes := w.processes[p := Process(peers, Some((cluster, update)))])
  }

  ghost function Step(namespace: string, w: World, a: Action): World
    requires Enabled(namespace, w, a)
  {
    match a
    case Restart(p) => w.(processes := w.processes[p := Process(None, None)])
    case Ask(p, url, getOk, order) =>
      var (peers, next) := Asked(namespace, w.processes[p].peers, url, Found(w, namespace, url, getOk), order);
      Carried(w, p, peers, ClusterOf(namespace, url), next)
    case Send(p, outcome) =>
      var (cluster, update) := w.processes[p].pending.value;
      var (h, reply) := Updated(w.clusters[cluster], update, outcome);
      World(w.clusters[cluster := h], w.processes[p := w.processes[p].(pending := None)],
            Replied(w, cluster, Published(update, reply)))
    case Operator(cluster, version, status, outcome) =>
      var h := w.clusters[cluster];
      w.(clusters := w.clusters[cluster := Updated(h, Snapshot(version, h[version].(status := status)), outcome).0])
    case Edit(cluster, pdReplicas) =>
      var h := w.clusters[cluster];
      w.(clusters := w.clusters[cluster := h + [Current(h).(pdReplicas := pdReplicas)]])
  }

  /** Every registered address parses, and names the pod it is registered for. */
  ghost predicate WellRegistered(namespace: string, peers: Peers) {
    forall p <- peers :: ParsePeer(peers[p], namespace).Peer? && ParsePeer(peers[p], namespace).pod == p
  }

  /** The membership strings list some well-registered peers, each once, in one order. */
  ghost predicate ListsPeers(namespace: string, cc: CellCluster, order: seq<string>, peers: Peers) {
    Built(order, peers, cc.peerUrl, cc.peerRpc) && WellRegistered(namespace, peers)
  }

  ghost predicate Sound(namespace: string, cc: CellCluster) {
    if cc.peerUrl == "" then cc.peerRpc == "" else exists order, peers :: ListsPeers(namespace, cc, order, peers)
  }

  /** As many peers as the object then asked for replicas. */
  ghost predicate Full(namespace: string, cc: CellCluster) {
    exists order, peers :: ListsPeers(namespace, cc, order, peers) && |peers| == cc.pdReplicas
  }

  predicate Changes(h: History, k: int) {
    0 <= k < |h| - 1 && h[k].peerUrl != h[k + 1].peerUrl
  }

  predicate SameMembers(a: CellCluster, b: CellCluster) {
    a.peerUrl == b.peerUrl && a.peerRpc == b.peerRpc
  }

  /** Once published the membership strings never change. */
  ghost predicate Stable(h: History) {
    forall i, j :: 0 <= i < j < |h| && h[i].peerUrl != "" ==> SameMembers(h[i], h[j])
  }

  ghost predicate SoundHistory(namespace: string, h: History) {
    Stable(h) && forall k :: 0 <= k < |h| ==> Sound(namespace, h[k])
  }

  ghost predicate FullWhenPublished(namespace: string, h: History) {
    forall k :: Changes(h, k) ==> Full(namespace, h[k + 1])
  }

  /** The update was made from a version that had nothing published, and changes nothing else. */
  ghost predicate Fresh(namespace: string, h: History, update: Snapshot) {
    && update.version < |h| && h[update.version].peerUrl == ""
    && update.cc.peerUrl != "" && Sound(namespace, update.cc) && Full(namespace, update.cc)
  }

  ghost predicate Safe(namespace: string, w: World) {
    && (forall c <- w.clusters :: SoundHistory(namespace, w.clusters[c]) && FullWhenPublished(namespace, w.clusters[c]))
    && (forall p <- w.processes :: w.processes[p].peers.Some? ==> WellRegistered(namespace, w.processes[p].peers.value))
    && (forall p <- w.processes :: w.processes[p].pending.Some? ==>
          var (cluster, update) := w.processes[p].pending.value;
          cluster in w.clusters && Fresh(namespace, w.clusters[cluster], update))
    && (forall r <- w.replies :: r.0 in w.clusters && r.1 != "" && Current(w.clusters[r.0]).peerUrl == r.1)
  }

  /** A version with the same membership strings is as sound. */
  lemma SameIsSound(namespace: string, cc: CellCluster, cc': CellCluster)
    requires Sound(namespace, cc) && SameMembers(cc, cc')
    ensures Sound(namespace, cc')
  {
    if cc.peerUrl != "" {
      var order, peers :| ListsPeers(namespace, cc, order, peers);
      assert ListsPeers(namespace, cc', order, peers);
    }
  }

  lemma AppendStable(h: History, cc: CellCluster)
    requires Stable(h) && (SameMembers(Current(h), cc) || Current(h).peerUrl == "")
    ensures Stable(h + [cc])
  {
    forall i | 0 <= i < |h| && h[i].peerUrl != ""
      ensures SameMembers(h[i], cc)
    {
      assert i < |h| - 1 ==> SameMembers(h[i], h[|h| - 1]);
    }
  }

  /** A version that keeps the membership strings, or publishes them first, keeps the history sound. */
  lemma Append(namespace: string, h: History, cc: CellCluster)
    requires SoundHistory(namespace, h)
    requires SameMembers(Current(h), cc) || (Current(h).peerUrl == "" && Sound(namespace, cc))
    ensures SoundHistory(namespace, h + [cc])
  {
    AppendStable(h, cc);
    if SameMembers(Current(h), cc) {
      SameIsSound(namespace, Current(h), cc);
    }
  }

  lemma AppendFull(namespace: string, h: History, cc: CellCluster)
    requires FullWhenPublished(namespace, h)
    requires SameMembers(Current(h), cc) || Full(namespace, cc)
    ensures FullWhenPublished(namespace, h + [cc])
  {
    var after: History := h + [cc];
    forall k | Changes(after, k)
      ensures Full(namespace, after[k + 1])
    {
      assert k < |h| - 1 ==> Changes(h, k);
    }
  }

  /** What the rest of the world needs from a new version of one object. */
  lemma GrownKeepsSafe(namespace: string, w: World, cluster: string, cc: CellCluster)
    requires Safe(namespace, w) && cluster in w.clusters
    requires SameMembers(Current(w.clusters[cluster]), cc)
             || (Current(w.clusters[cluster]).peerUrl == "" && Sound(namespace, cc) && Full(namespace, cc))
    ensures Safe(namespace, w.(clusters := w.clusters[cluster := w.clusters[cluster] + [cc]]))
  {
    Append(namespace, w.clusters[cluster], cc);
    AppendFull(namespace, w.clusters[cluster], cc);
  }

  /** A call keeps the registry well-registered, and publishes only a sound object where none was. */
  lemma AskedIsSound(namespace: string, before: Option<Peers>, url: string, found: Option<Snapshot>, order: seq<string>)
    requires before.Some? ==> WellRegistered(namespace, before.value)
    requires InOrder(namespace, before, url, found, order)
    ensures var (peers, next) := Asked(namespace, before, url, found, order);
            && (peers.Some? ==> WellRegistered(namespace, peers.value))
            && (next.Publish? ==>
                  && found.Some? && found.value.cc.peerUrl == "" && next.update.version == found.value.version
                  && next.update.cc.peerUrl != "" && Sound(namespace, next.update.cc)
                    && Full(namespace, next.update.cc))
  {
    if Publishes(namespace, before, url, found) {
      var registered := Registered(before, ParsePeer(url, namespace).pod, url);
      MemberUrlNotEmpty(order, registered);
      var cc := Asked(namespace, before, url, found, order).1.update.cc;
      assert ListsPeers(namespace, cc, order, registered) && |registered| == cc.pdReplicas;
    }
  }

  /** What a process may come to hold. */
  lemma HeldKeepsSafe(namespace: string, w: World, p: int, process: Process)
    requires Safe(namespace, w)
    requires process.peers.Some? ==> WellRegistered(namespace, process.peers.value)
    requires process.pending.Some? ==>
               var (cluster, update) := process.pending.value;
               cluster in w.clusters && Fresh(namespace, w.clusters[cluster], update)
    ensures Safe(namespace, w.(processes := w.processes[p := process]))
  {
  }

  /** A reply that agrees with what its cluster has published. */
  lemma RepliedKeepsSafe(namespace: string, w: World, cluster: string, answer: Answer)
    requires Safe(namespace, w)
    requires answer.Members? ==>
               cluster in w.clusters && answer.param != "" && Current(w.clusters[cluster]).peerUrl == answer.param
    ensures Safe(namespace, w.(replies := Replied(w, cluster, answer)))
  {
  }

  /** A call that answers with a string answers with what its cluster has published, and one that is about to
      publish has found its cluster with nothing published. */
  lemma AskedIsFresh(namespace: string, w: World, a: Action)
    requires Enabled(namespace, w, a) && a.Ask?
    requires var before := w.processes[a.process].peers; before.Some? ==> WellRegistered(namespace, before.value)
    ensures var found := Found(w, namespace, a.url, a.getOk);
            var (peers, next) := Asked(namespace, w.processes[a.process].peers, a.url, found, a.order);
            var cluster := ClusterOf(namespace, a.url);
            && (peers.Some? ==> WellRegistered(namespace, peers.value))
            && (next.Publish? ==> cluster in w.clusters && Fresh(namespace, w.clusters[cluster], next.update))
            && (next.Reply? && next.answer.Members? ==>
                  && cluster in w.clusters && next.answer.param != ""
                  && Current(w.clusters[cluster]).peerUrl == next.answer.param)
  {
    var found := Found(w, namespace, a.url, a.getOk);
    FoundIsCurrent(namespace, w, a.url, a.getOk);
    AskedIsSound(namespace, w.processes[a.process].peers, a.url, found, a.order);
    if found.Some? {
      FoundIsFresh(namespace, w.processes[a.process].peers, a.url, found, a.order,
        w.clusters[ClusterOf(namespace, a.url)]);
    } else {
      NothingFound(namespace, w.processes[a.process].peers, a.url, a.order);
    }
  }

  lemma NothingFound(namespace: string, before: Option<Peers>, url: string, order: seq<string>)
    requires InOrder(namespace, before, url, None, order)
    ensures var next := Asked(namespace, before, url, None, order).1;
            next.Reply? && !next.answer.Members?
  {
  }

  lemma FoundIsFresh(namespace: string, before: Option<Peers>, url: string, found: Option<Snapshot>,
                     order: seq<string>, h: History)
    requires before.Some? ==> WellRegistered(namespace, before.value)
    requires InOrder(namespace, before, url, found, order) && found == Some(Snapshot(|h| - 1, Current(h)))
    ensures var next := Asked(namespace, before, url, found, order).1;
            && (next.Publish? ==> Fresh(namespace, h, next.update))
            && (next.Reply? && next.answer.Members? ==> Current(h).peerUrl == next.answer.param != "")
  {
    AskedIsSound(namespace, before, url, found, order);
    AnswerIsFound(namespace, before, url, found, order);
  }

  lemma FoundIsCurrent(namespace: string, w: World, url: string, getOk: bool)
    ensures var found, cluster := Found(w, namespace, url, getOk), ClusterOf(namespace, url);
            found.Some? ==>
              && cluster in w.clusters && found.value.version == |w.clusters[cluster]| - 1
              && found.value.cc == Current(w.clusters[cluster])
  {
  }

  lemma AnswerIsFound(namespace: string, before: Option<Peers>, url: string, found: Option<Snapshot>,
                      order: seq<string>)
    requires InOrder(namespace, before, url, found, order)
    ensures var next := Asked(namespace, before, url, found, order).1;
            next.Reply? && next.answer.Members? ==> found.Some? && next.answer.param == found.value.cc.peerUrl != ""
  {
  }

  lemma AskKeepsSafe(namespace: string, w: World, a: Action)
    requires Safe(namespace, w) && Enabled(namespace, w, a) && a.Ask?
    ensures Safe(namespace, Step(namespace, w, a))
  {
    AskedIsFresh(namespace, w, a);
    var found := Found(w, namespace, a.url, a.getOk);
    var (peers, next) := Asked(namespace, w.processes[a.process].peers, a.url, found, a.order);
    AskCarries(namespace, w, a);
    CarriedKeepsSafe(namespace, w, a.process, peers, ClusterOf(namespace, a.url), next);
  }

  lemma AskCarries(namespace: string, w: World, a: Action)
    requires Enabled(namespace, w, a) && a.Ask?
    ensures var found := Found(w, namespace, a.url, a.getOk);
            var (peers, next) := Asked(namespace, w.processes[a.process].peers, a.url, found, a.order);
            Step(namespace, w, a) == Carried(w, a.process, peers, ClusterOf(namespace, a.url), next)
  {
  }

  lemma CarriedKeepsSafe(namespace: string, w: World, p: int, peers: Option<Peers>, cluster: string, next: Next)
    requires Safe(namespace, w) && (peers.Some? ==> WellRegistered(namespace, peers.value))
    requires next.Publish? ==> cluster in w.clusters && Fresh(namespace, w.clusters[cluster], next.update)
    requires next.Reply? && next.answer.Members? ==>
               && cluster in w.clusters && next.answer.param != ""
               && Current(w.clusters[cluster]).peerUrl == next.answer.param
    ensures Safe(namespace, Carried(w, p, peers, cluster, next))
  {
    match next
    case Reply(answer) =>
      AnsweredKeepsSafe(namespace, w, p, peers, cluster, answer);
    case Publish(update) =>
      HeldKeepsSafe(namespace, w, p, Process(peers, Some((cluster, update))));
  }

  lemma AnsweredKeepsSafe(namespace: string, w: World, p: int, peers: Option<Peers>, cluster: string, answer: Answer)
    requires Safe(namespace, w) && (peers.Some? ==> WellRegistered(namespace, peers.value))
    requires answer.Members? ==>
               cluster in w.clusters && answer.param != "" && Current(w.clusters[cluster]).peerUrl == answer.param
    ensures Safe(namespace, w.(processes := w.processes[p := Process(peers, None)],
                               replies := Replied(w, cluster, answer)))
  {
    HeldKeepsSafe(namespace, w, p, Process(peers, None));
    RepliedKeepsSafe(namespace, w.(processes := w.processes[p := Process(peers, None)]), cluster, answer);
  }

  /** An update of an idle world: it is the first to publish, or it changes nothing. */
  lemma UpdateKeepsSafe(namespace: string, w: World, cluster: string, update: Snapshot, outcome: Outcome)
    requires Safe(namespace, w) && cluster in w.clusters && Fresh(namespace, w.clusters[cluster], update)
    ensures Safe(namespace, w.(clusters := w.clusters[cluster := Updated(w.clusters[cluster], update, outcome).0]))
  {
    var h := w.clusters[cluster];
    if update.version + 1 == |h| && outcome.TookEffect() {
      assert Current(h).peerUrl == "";
      GrownKeepsSafe(namespace, w, cluster, update.cc);
    } else {
      assert w.clusters[cluster := h] == w.clusters;
    }
  }

  lemma SendKeepsSafe(namespace: string, w: World, a: Action)
    requires Safe(namespace, w) && Enabled(namespace, w, a) && a.Send?
    ensures Safe(namespace, Step(namespace, w, a))
  {
    var (cluster, update) := w.processes[a.process].pending.value;
    var (h, reply) := Updated(w.clusters[cluster], update, a.outcome);
    var idle := w.(processes := w.processes[a.process := w.processes[a.process].(pending := None)]);
    HeldKeepsSafe(namespace, w, a.process, w.processes[a.process].(pending := None));
    UpdateKeepsSafe(namespace, idle, cluster, update, a.outcome);
    RepliedKeepsSafe(namespace, idle.(clusters := w.clusters[cluster := h]), cluster, Published(update, reply));
  }

  lemma StepKeepsSafe(namespace: string, w: World, a: Action)
    requires Safe(namespace, w) && Enabled(namespace, w, a)
    ensures Safe(namespace, Step(namespace, w, a))
  {
    match a
    case Restart(_) =>
    case Ask(_, _, _, _) => AskKeepsSafe(namespace, w, a);
    case Send(_, _) => SendKeepsSafe(namespace, w, a);
    case Edit(cluster, pdReplicas) =>
      GrownKeepsSafe(namespace, w, cluster, Current(w.clusters[cluster]).(pdReplicas := pdReplicas));
    case Operator(_, _, _, _) => OperatorKeepsSafe(namespace, w, a);
  }

  lemma OperatorKeepsSafe(namespace: string, w: World, a: Action)
    requires Safe(namespace, w) && Enabled(namespace, w, a) && a.Operator?
    ensures Safe(namespace, Step(namespace, w, a))
  {
    var h := w.clusters[a.cluster];
    if a.version + 1 == |h| && a.outcome.TookEffect() {
      GrownKeepsSafe(namespace, w, a.cluster, h[a.version].(status := a.status));
    } else {
      assert w.clusters[a.cluster := h] == w.clusters;
    }
  }

  ghost predicate IsRun(namespace: string, w: World, run: seq<Action>)
    decreases |run|
  {
    run == [] || (Enabled(namespace, w, run[0]) && IsRun(namespace, Step(namespace, w, run[0]), run[1..]))
  }

  ghost function After(namespace: string, w: World, run: seq<Action>): World
    requires IsRun(namespace, w, run)
    decreases |run|
  {
    if run == [] then w else After(namespace, Step(namespace, w, run[0]), run[1..])
  }

  /** Clusters with nothing published yet, no discovery process, and no reply. */
  ghost predicate Start(w: World) {
    && (forall c <- w.clusters ::
          |w.clusters[c]| == 1 && Current(w.clusters[c]).peerUrl == Current(w.clusters[c]).peerRpc == "")
    && w.processes == map[] && w.replies == {}
  }

  lemma {:induction false} RunKeepsSafe(namespace: string, w: World, run: seq<Action>)
    requires Safe(namespace, w) && IsRun(namespace, w, run)
    ensures Safe(namespace, After(namespace, w, run))
    decreases |run|
  {
    if run != [] {
      StepKeepsSafe(namespace, w, run[0]);
      RunKeepsSafe(namespace, Step(namespace, w, run[0]), run[1..]);
    }
  }

  /** In every run, all successful replies about a cluster are the same string, which is the published one;
      the published string leaves "" at most once and is never erased or replaced, by whoever; and it lists
      well-registered peers, each once, as many as the replicas asked for when it was published. */
  lemma Agreement(namespace: string, w: World, run: seq<Action>)
    requires Start(w) && IsRun(namespace, w, run)
    ensures var after := After(namespace, w, run);
            && (forall a, b :: a in after.replies && b in after.replies && a.0 == b.0 ==> a.1 == b.1)
            && (forall r <- after.replies :: r.0 in after.clusters && Current(after.clusters[r.0]).peerUrl == r.1 != "")
            && (forall c <- after.clusters :: var h := after.clusters[c];
                  && (forall j, k :: Changes(h, j) && Changes(h, k) ==> j == k)
                  && (forall k :: Changes(h, k) ==> h[k].peerUrl == "" && Full(namespace, h[k + 1]))
                  && (forall k :: 0 <= k < |h| && h[k].peerUrl != "" ==>
                        exists order, peers :: ListsPeers(namespace, h[k], order, peers)))
  {
    RunKeepsSafe(namespace, w, run);
    var after := After(namespace, w, run);
    forall c | c in after.clusters
      ensures var h := after.clusters[c];
              && (forall j, k :: Changes(h, j) && Changes(h, k) ==> j == k)
              && (forall k :: Changes(h, k) ==> h[k].peerUrl == "" && Full(namespace, h[k + 1]))
              && (forall k :: 0 <= k < |h| && h[k].peerUrl != "" ==>
                    exists order, peers :: ListsPeers(namespace, h[k], order, peers))
    {
      OneChange(namespace, after.clusters[c]);
    }
  }

  lemma StableChangesOnce(h: History)
    requires Stable(h)
    ensures forall j, k :: Changes(h, j) && Changes(h, k) ==> j == k
    ensures forall k :: Changes(h, k) ==> h[k].peerUrl == ""
  {
    assert forall i, j :: 0 <= i < j < |h| && h[i].peerUrl != h[j].peerUrl ==> h[i].peerUrl == "" != h[j].peerUrl;
  }

  lemma OneChange(namespace: string, h: History)
    requires SoundHistory(namespace, h) && FullWhenPublished(namespace, h)
    ensures forall j, k :: Changes(h, j) && Changes(h, k) ==> j == k
    ensures forall k :: Changes(h, k) ==> h[k].peerUrl == "" && Full(namespace, h[k + 1])
    ensures forall k :: 0 <= k < |h| && h[k].peerUrl != "" ==>
              exists order, peers :: ListsPeers(namespace, h[k], order, peers)
  {
    StableChangesOnce(h);
    forall k | 0 <= k < |h| && h[k].peerUrl != ""
      ensures exists order, peers :: ListsPeers(namespace, h[k], order, peers)
    {
      assert Sound(namespace, h[k]);
    }
  }

  /** In a published string different pods have different addresses, since an address names its pod. */
  lemma AddressesDiffer(namespace: string, cc: CellCluster, order: seq<string>, peers: Peers)
    requires ListsPeers(namespace, cc, order, peers)
    ensures forall j, k :: 0 <= j < k < |order| ==> peers[order[j]] != peers[order[k]]
  {
    forall j, k | 0 <= j < k < |order|
      ensures peers[order[j]] != peers[order[k]]
    {
      assert ParsePeer(peers[order[j]], namespace).pod == order[j];
    }
  }
}
