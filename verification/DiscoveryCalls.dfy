/** Whose peers a discovery process holds and publishes: the registry is not kept by cluster. */
module DiscoveryCalls {
  import opened CellClusters
  import opened Discovery
  import opened DiscoveryRuns
  import opened Kube
  import opened Strings

  /** A call that parsed and found its object: the pod it names and its address. */
  datatype Call = Call(pod: string, url: string)

  ghost predicate Parsed(namespace: string, calls: seq<Call>) {
    forall k :: 0 <= k < |calls| ==>
      ParsePeer(calls[k].url, namespace).Peer? && ParsePeer(calls[k].url, namespace).pod == calls[k].pod
  }

  /** The registry of a process after these calls. */
  function RegistryOf(calls: seq<Call>): Option<Peers> {
    if calls == [] then None
    else
      var last := calls[|calls| - 1];
      Some(Registered(RegistryOf(calls[..|calls| - 1]), last.pod, last.url))
  }

  /** Call k is the last one of its pod. */
  ghost predicate LastCall(calls: seq<Call>, k: int) {
    0 <= k < |calls| && forall j :: k < j < |calls| ==> calls[j].pod != calls[k].pod
  }

  lemma {:induction false} RegistryExact(calls: seq<Call>, pod: string, url: string)
    ensures var peers := RegistryOf(calls);
            peers.Some? && pod in peers.value && peers.value[pod] == url
            <==> exists k :: LastCall(calls, k) && calls[k] == Call(pod, url)
  {
    if calls != [] {
      var n := |calls| - 1;
      var front := calls[..n];
      RegistryExact(front, pod, url);
      assert LastCall(calls, n);
      assert forall k :: 0 <= k < n ==> front[k] == calls[k];
      assert forall k :: k < n ==> (LastCall(calls, k) <==> LastCall(front, k) && calls[k].pod != calls[n].pod);
    }
  }

  /** All these peers belong to the cluster. */
  ghost predicate OneCluster(namespace: string, peers: Peers, cluster: string) {
    forall p <- peers :: ParsePeer(peers[p], namespace) == Peer(p, cluster)
  }

  /** The last call of every pod named the cluster. */
  ghost predicate Named(namespace: string, calls: seq<Call>, cluster: string) {
    forall k :: LastCall(calls, k) ==> ParsePeer(calls[k].url, namespace) == Peer(calls[k].pod, cluster)
  }

  /** The registry is not kept by cluster: all the peers a process would publish belong to one cluster exactly
      when the last call of every pod that called since the process started named that cluster. */
  lemma OneClusterExact(namespace: string, calls: seq<Call>, cluster: string)
    requires calls != [] && Parsed(namespace, calls)
    ensures OneCluster(namespace, RegistryOf(calls).value, cluster) <==> Named(namespace, calls, cluster)
  {
    var peers := RegistryOf(calls).value;
    forall k | LastCall(calls, k)
      ensures calls[k].pod in peers && peers[calls[k].pod] == calls[k].url
    {
      RegistryExact(calls, calls[k].pod, calls[k].url);
    }
    forall p | p in peers
      ensures exists k :: LastCall(calls, k) && calls[k] == Call(p, peers[p])
    {
      RegistryExact(calls, p, peers[p]);
    }
  }

  // ---------------------------------------------------------------------------------------------
  // Runs
  // ---------------------------------------------------------------------------------------------

  /** What the processes have been asked: `calls` since each one started, and `published` those of the process
      whose update published the strings of a cluster, as they were then. */
  datatype Ledger = Ledger(calls: map<int, seq<Call>>, published: map<string, seq<Call>>)

  /** The call parses and finds its object. */
  predicate Registers(namespace: string, w: World, a: Action) {
    a.Ask? && Found(w, namespace, a.url, a.getOk).Some?
  }

  function CallOf(namespace: string, url: string): Call
    requires ParsePeer(url, namespace).Peer?
  {
    Call(ParsePeer(url, namespace).pod, url)
  }

  /** The update takes effect. */
  predicate Publishing(namespace: string, w: World, a: Action) {
    && a.Send? && a.process in w.processes && w.processes[a.process].pending.Some?
    && var (cluster, update) := w.processes[a.process].pending.value;
       cluster in w.clusters && Updated(w.clusters[cluster], update, a.outcome).0 != w.clusters[cluster]
  }

  function CallsOf(ledger: Ledger, p: int): seq<Call> {
    if p in ledger.calls then ledger.calls[p] else []
  }

  function Noted(namespace: string, w: World, a: Action, ledger: Ledger): Ledger {
    if a.Restart? then ledger.(calls := ledger.calls[a.process := []])
    else if Registers(namespace, w, a) then
      ledger.(calls := ledger.calls[a.process := CallsOf(ledger, a.process) + [CallOf(namespace, a.url)]])
    else if Publishing(namespace, w, a) then
      ledger.(published := ledger.published[w.processes[a.process].pending.value.0 := CallsOf(ledger, a.process)])
    else ledger
  }

  ghost function LedgerAfter(namespace: string, w: World, run: seq<Action>, ledger: Ledger): Ledger
    requires IsRun(namespace, w, run)
    decreases |run|
  {
    if run == [] then ledger
    else LedgerAfter(namespace, Step(namespace, w, run[0]), run[1..], Noted(namespace, w, run[0], ledger))
  }

  /** The membership strings list what these calls registered, and the last of them was about this cluster. */
  ghost predicate ListsCalls(namespace: string, cc: CellCluster, calls: seq<Call>, cluster: string) {
    && calls != [] && Parsed(namespace, calls)
    && ParsePeer(calls[|calls| - 1].url, namespace).cluster == cluster
    && exists order :: Built(order, RegistryOf(calls).value, cc.peerUrl, cc.peerRpc)
  }

  /** The registry of the process is that of its calls, and so is the update it is about to send. */
  ghost predicate Registry(namespace: string, process: Process, calls: seq<Call>) {
    && Parsed(namespace, calls) && process.peers == RegistryOf(calls)
    && (process.pending.Some? ==>
          ListsCalls(namespace, process.pending.value.1.cc, calls, process.pending.value.0))
  }

  ghost predicate Origin(namespace: string, cluster: string, cc: CellCluster, published: map<string, seq<Call>>) {
    cc.peerUrl != "" ==> cluster in published && ListsCalls(namespace, cc, published[cluster], cluster)
  }

  ghost predicate Accounts(namespace: string, w: World, ledger: Ledger) {
    && (forall p <- w.processes :: Registry(namespace, w.processes[p], CallsOf(ledger, p)))
    && (forall c <- w.clusters :: Origin(namespace, c, Current(w.clusters[c]), ledger.published))
  }

  /** A call that finds its object turns the registry of the calls before it into that of the calls with it,
      and what it is about to publish lists that registry. */
  lemma CallRegisters(namespace: string, calls: seq<Call>, url: string, found: Option<Snapshot>, order: seq<string>)
    requires Parsed(namespace, calls) && ParsePeer(url, namespace).Peer? && found.Some?
    requires InOrder(namespace, RegistryOf(calls), url, found, order)
    ensures var (peers, next) := Asked(namespace, RegistryOf(calls), url, found, order);
            var after := calls + [CallOf(namespace, url)];
            && Parsed(namespace, after) && peers == RegistryOf(after)
            && (next.Publish? ==> ListsCalls(namespace, next.update.cc, after, ParsePeer(url, namespace).cluster))
  {
    var call := CallOf(namespace, url);
    assert (calls + [call])[|calls|] == call && (calls + [call])[..|calls|] == calls;
    var (peers, next) := Asked(namespace, RegistryOf(calls), url, found, order);
    if next.Publish? {
      assert Built(order, peers.value, next.update.cc.peerUrl, next.update.cc.peerRpc);
    }
  }

  lemma AskAccounts(namespace: string, w: World, a: Action, ledger: Ledger)
    requires Accounts(namespace, w, ledger) && Enabled(namespace, w, a) && a.Ask?
    ensures Accounts(namespace, Step(namespace, w, a), Noted(namespace, w, a, ledger))
  {
    var calls := CallsOf(ledger, a.process);
    assert Registry(namespace, w.processes[a.process], calls);
    if Registers(namespace, w, a) {
      CallRegisters(namespace, calls, a.url, Found(w, namespace, a.url, a.getOk), a.order);
    }
  }

  lemma SendAccounts(namespace: string, w: World, a: Action, ledger: Ledger)
    requires Accounts(namespace, w, ledger) && Enabled(namespace, w, a) && a.Send?
    ensures Accounts(namespace, Step(namespace, w, a), Noted(namespace, w, a, ledger))
  {
    var (cluster, update) := w.processes[a.process].pending.value;
    assert Registry(namespace, w.processes[a.process], CallsOf(ledger, a.process));
    var h := w.clusters[cluster];
    assert Origin(namespace, cluster, Current(h), ledger.published);
    var after := Updated(h, update, a.outcome).0;
    assert after != h ==> after == h + [update.cc];
  }

  /** A version with the same membership strings has the same origin. */
  lemma SameOrigin(namespace: string, cluster: string, cc: CellCluster, cc': CellCluster,
                   published: map<string, seq<Call>>)
    requires Origin(namespace, cluster, cc, published) && SameMembers(cc, cc')
    ensures Origin(namespace, cluster, cc', published)
  {
    if cc.peerUrl != "" {
      var order :| Built(order, RegistryOf(published[cluster]).value, cc.peerUrl, cc.peerRpc);
      assert Built(order, RegistryOf(published[cluster]).value, cc'.peerUrl, cc'.peerRpc);
    }
  }

  lemma StepAccounts(namespace: string, w: World, a: Action, ledger: Ledger)
    requires Accounts(namespace, w, ledger) && Enabled(namespace, w, a)
    ensures Accounts(namespace, Step(namespace, w, a), Noted(namespace, w, a, ledger))
  {
    match a
    case Restart(_) =>
    case Ask(_, _, _, _) => AskAccounts(namespace, w, a, ledger);
    case Send(_, _) => SendAccounts(namespace, w, a, ledger);
    case Edit(cluster, pdReplicas) =>
      var cc := Current(w.clusters[cluster]);
      SameOrigin(namespace, cluster, cc, cc.(pdReplicas := pdReplicas), ledger.published);
    case Operator(cluster, version, status, outcome) =>
      var h := w.clusters[cluster];
      SameOrigin(namespace, cluster, Current(h), Current(h).(status := status), ledger.published);
  }

  lemma {:induction false} RunAccounts(namespace: string, w: World, run: seq<Action>, ledger: Ledger)
    requires Accounts(namespace, w, ledger) && IsRun(namespace, w, run)
    ensures Accounts(namespace, After(namespace, w, run), LedgerAfter(namespace, w, run, ledger))
    decreases |run|
  {
    if run != [] {
      StepAccounts(namespace, w, run[0], ledger);
      RunAccounts(namespace, Step(namespace, w, run[0]), run[1..], Noted(namespace, w, run[0], ledger));
    }
  }

  /** In every run a process holds the registry of the calls it has had since it started, and all the peers it
      holds belong to one cluster exactly when the last call of every pod named it. */
  lemma ProcessExact(namespace: string, w: World, run: seq<Action>, p: int, cluster: string)
    requires Start(w) && IsRun(namespace, w, run) && p in After(namespace, w, run).processes
    ensures var peers := After(namespace, w, run).processes[p].peers;
            var calls := CallsOf(LedgerAfter(namespace, w, run, Ledger(map[], map[])), p);
            && peers == RegistryOf(calls)
            && (peers.Some? ==> (OneCluster(namespace, peers.value, cluster) <==> Named(namespace, calls, cluster)))
  {
    var ledger := Ledger(map[], map[]);
    RunAccounts(namespace, w, run, ledger);
    var calls := CallsOf(LedgerAfter(namespace, w, run, ledger), p);
    assert Registry(namespace, After(namespace, w, run).processes[p], calls);
    if calls != [] {
      OneClusterExact(namespace, calls, cluster);
    }
  }

  /** The strings can be read back, peer by peer, exactly when no name or address holds a separator. */
  ghost predicate Told(cc: CellCluster, order: seq<string>, peers: Peers)
    requires forall k :: 0 <= k < |order| ==> order[k] in peers
  {
    && (TellsUrls(cc.peerUrl, order, peers) <==> UrlFree(peers))
    && (TellsRpcs(cc.peerRpc, order, peers) <==> RpcFree(peers))
  }

  /** In every run the strings published for a cluster list, each once, the peers that called the publishing
      process between its start and its update, the cluster's own caller among them; and they list peers of
      that cluster only exactly when the last of these calls of every pod named it. */
  lemma PublishedExact(namespace: string, w: World, run: seq<Action>, cluster: string)
    requires Start(w) && IsRun(namespace, w, run)
    requires cluster in After(namespace, w, run).clusters
    requires Current(After(namespace, w, run).clusters[cluster]).peerUrl != ""
    ensures var published := LedgerAfter(namespace, w, run, Ledger(map[], map[])).published;
            && cluster in published && published[cluster] != []
            && var calls := published[cluster];
               var peers := RegistryOf(calls).value;
               && (exists order ::
                     && ListsPeers(namespace, Current(After(namespace, w, run).clusters[cluster]), order, peers)
                     && Told(Current(After(namespace, w, run).clusters[cluster]), order, peers))
               && (exists p <- peers :: ParsePeer(peers[p], namespace) == Peer(p, cluster))
               && (OneCluster(namespace, peers, cluster) <==> Named(namespace, calls, cluster))
  {
    var ledger := Ledger(map[], map[]);
    RunAccounts(namespace, w, run, ledger);
    var cc := Current(After(namespace, w, run).clusters[cluster]);
    var published := LedgerAfter(namespace, w, run, ledger).published;
    assert Origin(namespace, cluster, cc, published);
    var calls := published[cluster];
    var peers := RegistryOf(calls).value;
    OneClusterExact(namespace, calls, cluster);
    CallsAreRegistered(namespace, calls);
    var order :| Built(order, peers, cc.peerUrl, cc.peerRpc);
    MembershipCodec(order, peers, cc.peerUrl, cc.peerRpc);
    assert ListsPeers(namespace, cc, order, peers) && Told(cc, order, peers);
    var last := calls[|calls| - 1];
    assert ParsePeer(peers[last.pod], namespace) == Peer(last.pod, cluster);
  }

  lemma {:induction false} CallsAreRegistered(namespace: string, calls: seq<Call>)
    requires Parsed(namespace, calls)
    ensures RegistryOf(calls).Some? ==> WellRegistered(namespace, RegistryOf(calls).value)
  {
    if calls != [] {
      CallsAreRegistered(namespace, calls[..|calls| - 1]);
    }
  }

  // ---------------------------------------------------------------------------------------------
  // A foreign peer
  // ---------------------------------------------------------------------------------------------

  lemma RunFrom(namespace: string, w: World, a: Action, rest: seq<Action>)
    requires Enabled(namespace, w, a) && IsRun(namespace, Step(namespace, w, a), rest)
    ensures IsRun(namespace, w, [a] + rest)
    ensures After(namespace, w, [a] + rest) == After(namespace, Step(namespace, w, a), rest)
  {
    assert ([a] + rest)[1..] == rest;
  }

  /** Two clusters of two PD replicas each. */
  function Two(a: string, b: string): World {
    var h: History := [CellCluster(2, "", "", "")];
    World(map[a := h, b := h], map[], {})
  }

  function Holding(peers: Option<Peers>, pending: Option<(string, Snapshot)>): map<int, Process> {
    map[0 := Process(peers, pending)]
  }

  function BothUrl(podA: string, urlA: string, podB: string, urlB: string): string {
    podA + "=http://" + urlA + ":2380," + podB + "=http://" + urlB + ":2380"
  }

  lemma EntriesAsText(podA: string, urlA: string, podB: string, urlB: string)
    ensures UrlEntry(podA, urlA) + [','] + UrlEntry(podB, urlB) == BothUrl(podA, urlA, podB, urlB)
  {
  }

  lemma TwoJoined(entries: seq<string>, a: string, b: string)
    requires entries == [a, b]
    ensures Join(entries, ',') == a + [','] + b
  {
    assert entries[1..] == [b];
  }

  lemma BothListed(podA: string, urlA: string, podB: string, urlB: string)
    requires podA != podB
    ensures var peers: Peers := map[podA := urlA, podB := urlB];
            && |peers| == 2 && Lists([podA, podB], peers)
            && MemberUrl([podA, podB], peers) == BothUrl(podA, urlA, podB, urlB)
  {
    var peers: Peers := map[podA := urlA, podB := urlB];
    var order := [podA, podB];
    assert order[0] == podA && order[1] == podB;
    ListedOnce(order, peers);
    TwoJoined(UrlEntries(order, peers), UrlEntry(podA, urlA), UrlEntry(podB, urlB));
    EntriesAsText(podA, urlA, podB, urlB);
  }

  lemma FirstAsk(namespace: string, a: string, b: string, podA: string, urlA: string)
    requires ParsePeer(urlA, namespace) == Peer(podA, a)
    ensures var w := Two(a, b).(processes := Holding(None, None));
            var ask := Ask(0, urlA, true, []);
            && Enabled(namespace, w, ask)
            && Step(namespace, w, ask) == w.(processes := Holding(Some(map[podA := urlA]), None))
  {
    var registered := Registered(None, podA, urlA);
    assert registered == map[podA := urlA] && |registered| == 1;
  }

  lemma SecondAsk(namespace: string, a: string, b: string, podA: string, urlA: string, podB: string, urlB: string)
    returns (update: Snapshot)
    requires ParsePeer(urlB, namespace) == Peer(podB, b) && podA != podB
    ensures update.version == 0 && update.cc.peerUrl == BothUrl(podA, urlA, podB, urlB)
    ensures var w := Two(a, b).(processes := Holding(Some(map[podA := urlA]), None));
            var ask := Ask(0, urlB, true, [podA, podB]);
            && Enabled(namespace, w, ask)
            && Step(namespace, w, ask)
               == w.(processes := Holding(Some(map[podA := urlA, podB := urlB]), Some((b, update))))
  {
    BothListed(podA, urlA, podB, urlB);
    var peers: Peers := map[podA := urlA, podB := urlB];
    assert Registered(Some(map[podA := urlA]), podB, urlB) == peers;
    var w := Two(a, b).(processes := Holding(Some(map[podA := urlA]), None));
    assert Found(w, namespace, urlB, true) == Some(Snapshot(0, CellCluster(2, "", "", "")));
    update := Snapshot(0, CellCluster(2, MemberUrl([podA, podB], peers), MemberRpc([podA, podB], peers), ""));
    assert Asked(namespace, Some(map[podA := urlA]), urlB, Found(w, namespace, urlB, true), [podA, podB])
        == (Some(peers), Publish(update));
  }

  lemma LastSend(namespace: string, a: string, b: string, peers: Peers, update: Snapshot)
    requires a != b && update.version == 0
    ensures var w := Two(a, b).(processes := Holding(Some(peers), Some((b, update))));
            && Enabled(namespace, w, Send(0, Delivered))
            && var after := Step(namespace, w, Send(0, Delivered));
               && b in after.clusters && Current(after.clusters[b]) == update.cc
               && (b, update.cc.peerUrl) in after.replies
  {
  }

  lemma Foreign(namespace: string, a: string, b: string, podA: string, urlA: string, podB: string, urlB: string)
    returns (run: seq<Action>)
    requires a != b && podA != podB
    requires ParsePeer(urlA, namespace) == Peer(podA, a) && ParsePeer(urlB, namespace) == Peer(podB, b)
    ensures IsRun(namespace, Two(a, b), run)
    ensures var after := After(namespace, Two(a, b), run);
            && b in after.clusters && Current(after.clusters[b]).peerUrl == BothUrl(podA, urlA, podB, urlB)
            && (b, BothUrl(podA, urlA, podB, urlB)) in after.replies
  {
    var w := Two(a, b);
    var askA, askB := Ask(0, urlA, true, []), Ask(0, urlB, true, [podA, podB]);
    var peers: Peers := map[podA := urlA, podB := urlB];
    FirstAsk(namespace, a, b, podA, urlA);
    var update := SecondAsk(namespace, a, b, podA, urlA, podB, urlB);
    LastSend(namespace, a, b, peers, update);
    var w1 := w.(processes := Holding(None, None));
    var w2 := w.(processes := Holding(Some(map[podA := urlA]), None));
    var w3 := w.(processes := Holding(Some(peers), Some((b, update))));
    var tail := [Send(0, Delivered)] + [];
    RunFrom(namespace, w3, Send(0, Delivered), []);
    RunFrom(namespace, w2, askB, tail);
    RunFrom(namespace, w1, askA, [askB] + tail);
    RunFrom(namespace, w, Restart(0), [askA] + ([askB] + tail));
    run := [Restart(0)] + ([askA] + ([askB] + tail));
  }

  /** One pod of each of two clusters asks the one process, and the process publishes for the second cluster
      the address of the first one's pod. */
  lemma ForeignPeer(namespace: string, a: string, b: string, podA: string, podB: string) returns (run: seq<Action>)
    requires a != b && podA != podB
    requires '.' !in a && '.' !in b && '.' !in podA && '.' !in podB && '.' !in namespace
    ensures Start(Two(a, b)) && IsRun(namespace, Two(a, b), run)
    ensures var after := After(namespace, Two(a, b), run);
            && b in after.clusters
            && Current(after.clusters[b]).peerUrl
               == BothUrl(podA, PeerDomain(podA, a, namespace), podB, PeerDomain(podB, b, namespace))
            && (b, Current(after.clusters[b]).peerUrl) in after.replies
    ensures ParsePeer(PeerDomain(podA, a, namespace), namespace) == Peer(podA, a)
  {
    var urlA, urlB := PeerDomain(podA, a, namespace), PeerDomain(podB, b, namespace);
    PeerDomainExact(podA, a, namespace);
    PeerDomainExact(podB, b, namespace);
    run := Foreign(namespace, a, b, podA, urlA, podB, urlB);
  }
}
