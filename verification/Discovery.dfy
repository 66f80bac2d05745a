/** PD bootstrap discovery: the peers that have asked so far, and the membership string published through
    one version-checked update of the CellCluster object. */
module Discovery {
  import opened CellClusters
  import opened Kube
  import opened Strings

  datatype DiscoverError = EmptyUrl | BadFormat | WrongNamespace | GetFailed | UpdateFailed | WaitForPods

  datatype Peer = Peer(pod: string, cluster: string) | Malformed(error: DiscoverError)

  datatype Answer = Members(param: string) | Failed(error: DiscoverError)

  type Peers = map<string, string>

  const PEER_SUFFIX := "-pd-peer"

  /** The pod and the cluster an advertised address names. */
  function ParsePeer(url: string, namespace: string): Peer {
    if url == "" then Malformed(EmptyUrl)
    else
      var parts := Split(url, '.');
      if |parts| != 4 then Malformed(BadFormat)
      else if parts[2] != namespace then Malformed(WrongNamespace)
      else Peer(parts[0], TrimSuffix(parts[1], PEER_SUFFIX))
  }

  /** The address a PD pod advertises: its host name in the peer service of its cluster. */
  function PeerDomain(pod: string, cluster: string, namespace: string): string {
    Join([pod, cluster + PEER_SUFFIX, namespace, "svc"], '.')
  }

  /** The address is read back exactly when its three names are free of dots. */
  lemma PeerDomainExact(pod: string, cluster: string, namespace: string)
    ensures ParsePeer(PeerDomain(pod, cluster, namespace), namespace) == Peer(pod, cluster)
        <==> '.' !in pod && '.' !in cluster && '.' !in namespace
  {
    var parts := [pod, cluster + PEER_SUFFIX, namespace, "svc"];
    TrimSuffixUndoesAppend(cluster, PEER_SUFFIX);
    if '.' !in pod && '.' !in cluster && '.' !in namespace {
      SplitJoin(parts, '.');
    }
  }

  // ---------------------------------------------------------------------------------------------
  // The membership strings
  // ---------------------------------------------------------------------------------------------

  function UrlEntry(pod: string, address: string): string {
    pod + "=http://" + address + ":2380"
  }

  function RpcEntry(address: string): string {
    address + ":20800"
  }

  function UrlEntries(order: seq<string>, peers: Peers): seq<string>
    requires forall k :: 0 <= k < |order| ==> order[k] in peers
  {
    seq(|order|, k requires 0 <= k < |order| => UrlEntry(order[k], peers[order[k]]))
  }

  function RpcEntries(order: seq<string>, peers: Peers): seq<string>
    requires forall k :: 0 <= k < |order| ==> order[k] in peers
  {
    seq(|order|, k requires 0 <= k < |order| => RpcEntry(peers[order[k]]))
  }

  /** PdPeerURL and PdPeerRPC for the peers in this order. */
  function MemberUrl(order: seq<string>, peers: Peers): string
    requires order != [] && forall k :: 0 <= k < |order| ==> order[k] in peers
  {
    Join(UrlEntries(order, peers), ',')
  }

  function MemberRpc(order: seq<string>, peers: Peers): string
    requires order != [] && forall k :: 0 <= k < |order| ==> order[k] in peers
  {
    Join(RpcEntries(order, peers), ',')
  }

  /** Both strings list all the peers, in this one order. */
  ghost predicate Built(order: seq<string>, peers: Peers, url: string, rpc: string) {
    && order != [] && Lists(order, peers)
    && url == MemberUrl(order, peers) && rpc == MemberRpc(order, peers)
  }

  lemma EntryIsFree(pod: string, address: string)
    ensures ',' !in UrlEntry(pod, address) <==> ',' !in pod && ',' !in address
    ensures ',' !in RpcEntry(address) <==> ',' !in address
  {
  }

  lemma ListedOnce(order: seq<string>, peers: Peers)
    requires Lists(order, peers)
    ensures |order| == |peers|
  {
    DistinctSize(order);
    assert (set p | p in order) == peers.Keys;
  }

  lemma {:induction false} DistinctSize(order: seq<string>)
    requires forall j, k :: 0 <= j < k < |order| ==> order[j] != order[k]
    ensures |set p | p in order| == |order|
  {
    if order == [] {
      assert (set p | p in order) == {};
    } else {
      var front, last := order[..|order| - 1], order[|order| - 1];
      DistinctSize(front);
      assert order == front + [last];
      assert (set p | p in order) == (set p | p in front) + {last};
    }
  }

  /** Splitting a membership string at commas gives back its entries exactly when none of them holds a comma. */
  lemma EntriesCodec(order: seq<string>, peers: Peers)
    requires order != [] && Lists(order, peers)
    ensures Split(MemberRpc(order, peers), ',') == RpcEntries(order, peers) <==> forall p <- peers :: ',' !in peers[p]
    ensures Split(MemberUrl(order, peers), ',') == UrlEntries(order, peers)
        <==> forall p <- peers :: ',' !in p && ',' !in peers[p]
  {
    SplitJoinExactly(UrlEntries(order, peers), ',');
    SplitJoinExactly(RpcEntries(order, peers), ',');
    EntriesFree(order, peers);
  }

  /** Read part by part, the first string says of each peer, in this order, its pod name and where PD reaches it:
      every part splits at '=' into the two. */
  ghost predicate TellsUrls(url: string, order: seq<string>, peers: Peers)
    requires forall k :: 0 <= k < |order| ==> order[k] in peers
  {
    var parts := Split(url, ',');
    && |parts| == |order|
    && forall k :: 0 <= k < |order| ==> Split(parts[k], '=') == [order[k], "http://" + peers[order[k]] + ":2380"]
  }

  /** And the second one the address, and the port of the proxies' calls: every part splits at ':' into the two. */
  ghost predicate TellsRpcs(rpc: string, order: seq<string>, peers: Peers)
    requires forall k :: 0 <= k < |order| ==> order[k] in peers
  {
    var parts := Split(rpc, ',');
    && |parts| == |order|
    && forall k :: 0 <= k < |order| ==> Split(parts[k], ':') == [peers[order[k]], "20800"]
  }

  /** One part of each string. */
  lemma EntryReadsBack(pod: string, address: string)
    ensures Split(UrlEntry(pod, address), '=') == [pod, "http://" + address + ":2380"]
        <==> '=' !in pod && '=' !in address
    ensures Split(RpcEntry(address), ':') == [address, "20800"] <==> ':' !in address
    ensures forall part :: Split(part, '=') == [pod, "http://" + address + ":2380"] ==> part == UrlEntry(pod, address)
    ensures forall part :: Split(part, ':') == [address, "20800"] ==> part == RpcEntry(address)
  {
    var where := "http://" + address + ":2380";
    assert UrlEntry(pod, address) == pod + ['='] + where;
    assert RpcEntry(address) == address + [':'] + "20800";
    assert '=' in where <==> '=' in address;
    forall part
      ensures Split(part, '=') == [pod, where] <==> part == pod + ['='] + where && '=' !in pod && '=' !in where
      ensures Split(part, ':') == [address, "20800"] <==> part == address + [':'] + "20800" && ':' !in address
    {
      SplitsInTwo(part, pod, where, '=');
      SplitsInTwo(part, address, "20800", ':');
    }
  }

  lemma UrlReadsBack(order: seq<string>, peers: Peers)
    requires order != [] && Lists(order, peers)
    ensures TellsUrls(MemberUrl(order, peers), order, peers)
        <==> forall p <- peers :: ',' !in p && ',' !in peers[p] && '=' !in p && '=' !in peers[p]
  {
    var parts, entries := Split(MemberUrl(order, peers), ','), UrlEntries(order, peers);
    EntriesCodec(order, peers);
    forall k | 0 <= k < |order|
      ensures Split(entries[k], '=') == [order[k], "http://" + peers[order[k]] + ":2380"]
              <==> '=' !in order[k] && '=' !in peers[order[k]]
      ensures |parts| == |order| && Split(parts[k], '=') == [order[k], "http://" + peers[order[k]] + ":2380"] ==>
                parts[k] == entries[k]
    {
      EntryReadsBack(order[k], peers[order[k]]);
    }
    if TellsUrls(MemberUrl(order, peers), order, peers) {
      assert parts == entries;
    }
  }

  lemma RpcReadsBack(order: seq<string>, peers: Peers)
    requires order != [] && Lists(order, peers)
    ensures TellsRpcs(MemberRpc(order, peers), order, peers)
        <==> forall p <- peers :: ',' !in peers[p] && ':' !in peers[p]
  {
    var parts, entries := Split(MemberRpc(order, peers), ','), RpcEntries(order, peers);
    EntriesCodec(order, peers);
    forall k | 0 <= k < |order|
      ensures Split(entries[k], ':') == [peers[order[k]], "20800"] <==> ':' !in peers[order[k]]
      ensures |parts| == |order| && Split(parts[k], ':') == [peers[order[k]], "20800"] ==> parts[k] == entries[k]
    {
      EntryReadsBack(order[k], peers[order[k]]);
    }
    if TellsRpcs(MemberRpc(order, peers), order, peers) {
      assert parts == entries;
    }
  }

  /** The separators a membership string relies on do not occur in the names and addresses. */
  ghost predicate UrlFree(peers: Peers) {
    forall p <- peers :: ',' !in p && ',' !in peers[p] && '=' !in p && '=' !in peers[p]
  }

  ghost predicate RpcFree(peers: Peers) {
    forall p <- peers :: ',' !in peers[p] && ':' !in peers[p]
  }

  /** Each registered peer is listed once, and both strings can be read back, peer by peer and in one order, exactly
      when no name or address holds a separator. */
  lemma MembershipCodec(order: seq<string>, peers: Peers, url: string, rpc: string)
    requires Built(order, peers, url, rpc)
    ensures |order| == |peers|
    ensures TellsUrls(url, order, peers) <==> UrlFree(peers)
    ensures TellsRpcs(rpc, order, peers) <==> RpcFree(peers)
  {
    ListedOnce(order, peers);
    UrlReadsBack(order, peers);
    RpcReadsBack(order, peers);
  }
  lemma EntriesFree(order: seq<string>, peers: Peers)
    requires Lists(order, peers)
    ensures Free(RpcEntries(order, peers), ',') <==> forall p <- peers :: ',' !in peers[p]
    ensures Free(UrlEntries(order, peers), ',') <==> forall p <- peers :: ',' !in p && ',' !in peers[p]
  {
    var urls, rpcs := UrlEntries(order, peers), RpcEntries(order, peers);
    forall k | 0 <= k < |order|
      ensures ',' !in urls[k] <==> ',' !in order[k] && ',' !in peers[order[k]]
      ensures ',' !in rpcs[k] <==> ',' !in peers[order[k]]
    {
      EntryIsFree(order[k], peers[order[k]]);
    }
    if p :| p in peers && (',' in p || ',' in peers[p]) {
      var k :| 0 <= k < |order| && order[k] == p;
      assert ',' in urls[k];
      assert ',' in peers[p] ==> ',' in rpcs[k];
    }
  }

  lemma MemberUrlNotEmpty(order: seq<string>, peers: Peers)
    requires order != [] && forall k :: 0 <= k < |order| ==> order[k] in peers
    ensures MemberUrl(order, peers) != ""
  {
    assert UrlEntries(order, peers)[0] == UrlEntry(order[0], peers[order[0]]);
  }

  /** The addresses GetProxyConfig puts into the proxy's configuration; None is its error. */
  function ProxyAddresses(cc: CellCluster): Option<seq<string>> {
    if cc.peerRpc == "" then None else Some(Split(cc.peerRpc, ','))
  }

  /** A published object gives the proxies the address of every peer with the port of their calls, in the order of
      PdPeerURL, exactly when no address holds a comma. */
  lemma ProxySeesEveryPeer(cc: CellCluster, order: seq<string>, peers: Peers)
    requires Built(order, peers, cc.peerUrl, cc.peerRpc)
    ensures ProxyAddresses(cc)
            == Some(seq(|order|, k requires 0 <= k < |order| && order[k] in peers => peers[order[k]] + ":20800"))
        <==> forall p <- peers :: ',' !in peers[p]
  {
    EntriesCodec(order, peers);
    assert RpcEntries(order, peers)[0] == RpcEntry(peers[order[0]]);
    assert RpcEntries(order, peers)
           == seq(|order|, k requires 0 <= k < |order| && order[k] in peers => peers[order[k]] + ":20800");
  }

  // ---------------------------------------------------------------------------------------------
  // Discover
  // ---------------------------------------------------------------------------------------------

  /** The registry once the call has registered its peer. */
  function Registered(peers: Option<Peers>, pod: string, url: string): Peers {
    (if peers.None? then map[] else peers.value)[pod := url]
  }

  /** What a call does after its read of the object: it answers, or it tries to publish. */
  datatype Next = Reply(answer: Answer) | Publish(update: Snapshot)

  /** `found` is the object the call read and its version. The call publishes when every replica has asked
      and nothing is published yet. */
  predicate Publishes(namespace: string, peers: Option<Peers>, url: string, found: Option<Snapshot>) {
    && ParsePeer(url, namespace).Peer? && found.Some? && found.value.cc.peerUrl == ""
    && |Registered(peers, ParsePeer(url, namespace).pod, url)| == found.value.cc.pdReplicas
  }

  /** `order` is an iteration order of the registry in which the call builds its strings. */
  ghost predicate InOrder(namespace: string, peers: Option<Peers>, url: string, found: Option<Snapshot>,
                          order: seq<string>)
  {
    Publishes(namespace, peers, url, found) ==>
      order != [] && Lists(order, Registered(peers, ParsePeer(url, namespace).pod, url))
  }

  ghost function Asked(namespace: string, peers: Option<Peers>, url: string, found: Option<Snapshot>,
                       order: seq<string>): (Option<Peers>, Next)
    requires InOrder(namespace, peers, url, found, order)
  {
    match ParsePeer(url, namespace)
    case Malformed(error) => (peers, Reply(Failed(error)))
    case Peer(pod, _) =>
      if found.None? then (peers, Reply(Failed(GetFailed)))
      else
        var cc, registered := found.value.cc, Registered(peers, pod, url);
        (Some(registered),
         if cc.peerUrl != "" then Reply(Members(cc.peerUrl))
         else if |registered| == cc.pdReplicas then
           Publish(found.value.(cc :=
             cc.(peerUrl := MemberUrl(order, registered), peerRpc := MemberRpc(order, registered))))
         else Reply(Failed(WaitForPods)))
  }

  function Published(update: Snapshot, reply: CellClusters.Reply): Answer {
    if reply.Done? then Members(update.cc.peerUrl) else Failed(UpdateFailed)
  }

  /** What a call publishes tells of every pod that has asked, the caller with the address of this call, exactly
      when no name or address holds a separator. */
  lemma PublishReadsBack(namespace: string, before: Option<Peers>, url: string, found: Option<Snapshot>,
                         order: seq<string>)
    requires Publishes(namespace, before, url, found) && InOrder(namespace, before, url, found, order)
    ensures var (after, next) := Asked(namespace, before, url, found, order);
            var pod := ParsePeer(url, namespace).pod;
            && after.Some? && Lists(order, after.value)
            && after.value == (if before.None? then map[] else before.value)[pod := url]
            && next.Publish?
            && (TellsUrls(next.update.cc.peerUrl, order, after.value) <==> UrlFree(after.value))
            && (TellsRpcs(next.update.cc.peerRpc, order, after.value) <==> RpcFree(after.value))
  {
    var (after, next) := Asked(namespace, before, url, found, order);
    MembershipCodec(order, after.value, next.update.cc.peerUrl, next.update.cc.peerRpc);
  }

  /** When an address is accepted, and what it names. */
  lemma ParseExact(url: string, namespace: string, pod: string, cluster: string)
    ensures ParsePeer(url, namespace) == Peer(pod, cluster)
        <==> && url != "" && |Split(url, '.')| == 4
             && var parts := Split(url, '.');
                parts[0] == pod && parts[2] == namespace && cluster == TrimSuffix(parts[1], "-pd-peer")
  {
  }

  /** Exactly when a call answers with a string, and with which one, and exactly when it is about to publish. */
  lemma AnswerExact(namespace: string, before: Option<Peers>, url: string, found: Option<Snapshot>, order: seq<string>)
    requires InOrder(namespace, before, url, found, order)
    ensures var (after, next) := Asked(namespace, before, url, found, order);
            var heard := ParsePeer(url, namespace).Peer? && found.Some?;
            && (forall s :: next == Reply(Members(s)) <==> heard && s == found.value.cc.peerUrl != "")
            && (next.Publish? <==> heard && found.value.cc.peerUrl == "" && |after.value| == found.value.cc.pdReplicas)
            && (next.Publish? ==> next.update == Snapshot(found.value.version, next.update.cc)
                                  && next.update.cc == found.value.cc.(peerUrl := next.update.cc.peerUrl,
                                                                       peerRpc := next.update.cc.peerRpc))
  {
  }

  class CellDiscovery {
    const namespace: string
    var currentCluster: Option<Peers>

    constructor (namespace: string)
      ensures this.namespace == namespace && currentCluster.None?
    {
      this.namespace := namespace;
      currentCluster := None;
    }

    /** The call up to its update. */
    method Ask(url: string, found: Option<Snapshot>) returns (next: Next, ghost order: seq<string>)
      modifies this
      ensures InOrder(namespace, old(currentCluster), url, found, order)
      ensures (currentCluster, next) == Asked(namespace, old(currentCluster), url, found, order)
    {
      order := [];
      if url == "" {
        return Reply(Failed(EmptyUrl)), order;
      }
      var strArr := Split(url, '.');
      if |strArr| != 4 {
        return Reply(Failed(BadFormat)), order;
      }
      if strArr[2] != namespace {
        return Reply(Failed(WrongNamespace)), order;
      }
      if found.None? {
        return Reply(Failed(GetFailed)), order;
      }
      var cc := found.value.cc;
      var peers: Peers := if currentCluster.None? then map[] else currentCluster.value;
      peers := peers[strArr[0] := url];
      currentCluster := Some(peers);
      if cc.peerUrl != "" {
        return Reply(Members(cc.peerUrl)), order;
      }
      if |peers| == cc.pdReplicas {
        var initClusterParam, pdPeerRPC := BuildMembers(peers);
        order :| Built(order, peers, initClusterParam, pdPeerRPC);
        next := Publish(found.value.(cc := cc.(peerUrl := initClusterParam, peerRpc := pdPeerRPC)));
      } else {
        next := Reply(Failed(WaitForPods));
      }
    }

    /** The whole call; `others` is what other clients write between its read and its update. */
    method Discover(api: ApiServer, url: string, getOk: bool, others: seq<CellCluster>, outcome: Outcome)
      returns (answer: Answer, ghost order: seq<string>)
      modifies this, api
      ensures var found := if getOk then Some(Snapshot(|old(api.history)| - 1, Current(old(api.history)))) else None;
              && InOrder(namespace, old(currentCluster), url, found, order)
              && var (peers, next) := Asked(namespace, old(currentCluster), url, found, order);
              && currentCluster == peers
              && match next
                 case Reply(a) => answer == a && api.history == old(api.history)
                 case Publish(update) =>
                   var (after, reply) := Updated(old(api.history) + others, update, outcome);
                   api.history == after && answer == Published(update, reply)
    {
      var found := if getOk then Some(Snapshot(|api.history| - 1, Current(api.history))) else None;
      var next;
      next, order := Ask(url, found);
      match next {
        case Reply(a) => answer := a;
        case Publish(update) =>
          api.OthersWrite(others);
          var reply := api.Update(update, outcome);
          answer := Published(update, reply);
      }
    }
  }

  lemma EntryAppended(order: seq<string>, peers: Peers, pod: string)
    requires pod in peers && forall k :: 0 <= k < |order| ==> order[k] in peers
    ensures var longer := order + [pod];
            && Terminated(UrlEntries(longer, peers), ',')
              == Terminated(UrlEntries(order, peers), ',') + UrlEntry(pod, peers[pod]) + [',']
            && Terminated(RpcEntries(longer, peers), ',')
              == Terminated(RpcEntries(order, peers), ',') + RpcEntry(peers[pod]) + [',']
  {
    var longer := order + [pod];
    assert UrlEntries(longer, peers) == UrlEntries(order, peers) + [UrlEntry(pod, peers[pod])];
    assert UrlEntries(longer, peers)[..|order|] == UrlEntries(order, peers);
    assert RpcEntries(longer, peers) == RpcEntries(order, peers) + [RpcEntry(peers[pod])];
    assert RpcEntries(longer, peers)[..|order|] == RpcEntries(order, peers);
  }

  /** Cutting the trailing commas off leaves the membership strings. */
  lemma Trimmed(order: seq<string>, peers: Peers, url: string, rpc: string)
    requires order != [] && Lists(order, peers)
    requires url == Terminated(UrlEntries(order, peers), ',') && rpc == Terminated(RpcEntries(order, peers), ',')
    ensures |url| > 0 && |rpc| > 0 && Built(order, peers, url[..|url| - 1], rpc[..|rpc| - 1])
  {
    TerminatedIsJoined(UrlEntries(order, peers), ',');
    TerminatedIsJoined(RpcEntries(order, peers), ',');
  }

  /** The loop that builds both strings, in the iteration order of the registry. */
  method BuildMembers(peers: Peers) returns (initClusterParam: string, pdPeerRPC: string)
    requires |peers| > 0
    ensures exists order ::
              && Built(order, peers, initClusterParam, pdPeerRPC)
              && (TellsUrls(initClusterParam, order, peers) <==> UrlFree(peers))
              && (TellsRpcs(pdPeerRPC, order, peers) <==> RpcFree(peers))
  {
    initClusterParam, pdPeerRPC := "", "";
    ghost var order: seq<string> := [];
    var rest := peers.Keys;
    assert |rest| > 0;
    while rest != {}
      invariant Visited(order, peers, rest)
      invariant initClusterParam == Terminated(UrlEntries(order, peers), ',')
      invariant pdPeerRPC == Terminated(RpcEntries(order, peers), ',')
      invariant rest != peers.Keys ==> order != []
      decreases |rest|
    {
      var podName := NextKey(rest);
      var peerURL := peers[podName];
      VisitNext(order, peers, rest, podName);
      EntryAppended(order, peers, podName);
      initClusterParam := initClusterParam + (podName + "=http://" + peerURL + ":2380") + ",";
      pdPeerRPC := pdPeerRPC + (peerURL + ":20800") + ",";
      order := order + [podName];
      rest := rest - {podName};
    }
    Trimmed(order, peers, initClusterParam, pdPeerRPC);
    initClusterParam := initClusterParam[..|initClusterParam| - 1];
    pdPeerRPC := pdPeerRPC[..|pdPeerRPC| - 1];
    MembershipCodec(order, peers, initClusterParam, pdPeerRPC);
  }
}
