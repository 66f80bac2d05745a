/** The store part of the status sync: one KVStore entry per store PD lists, with the time of its
    last state transition and its last known heartbeat carried over from the previous sync. */
module StoreStatus {
  import opened Kube
  import opened Transitions

  datatype StoreState = Up | Down | Offline | Tombstone

  datatype StoreStats = StoreStats(leaders: int, lastHeartbeatTs: int)

  /** One entry of PD's store list; `pod` is the first label of the store's address. */
  datatype StoreInfo = StoreInfo(id: int, pod: PodName, stateCode: int, stats: Option<StoreStats>)

  /** A zero time is None. */
  datatype KVStore = KVStore(id: int, pod: PodName, leaders: int, state: StoreState,
                             lastHeartbeat: Option<Time>, lastTransition: Option<Time>)

  function StateOf(info: StoreInfo): StoreState {
    if info.stateCode == 1 then Down else if info.stateCode == 2 then Tombstone else Up
  }

  function GetKVStore(info: StoreInfo): Option<KVStore> {
    match info.stats
    case None => None
    case Some(stats) =>
      var heartbeat := if stats.lastHeartbeatTs > 0 then Some(stats.lastHeartbeatTs * SECOND) else None;
      Some(KVStore(info.id, info.pod, stats.leaders, StateOf(info), heartbeat, None))
  }

  /** The entry written for a store, given the entries of the previous sync. */
  function Carried(store: KVStore, previous: map<int, KVStore>, now: Time): KVStore {
    if store.id !in previous then store.(lastTransition := Some(now))
    else
      var before := previous[store.id];
      store.(lastHeartbeat := if store.lastHeartbeat.None? then before.lastHeartbeat else store.lastHeartbeat,
             lastTransition := if store.state != before.state then Some(now) else before.lastTransition)
  }

  /** The new store map; a later entry of the list overrides an earlier one with the same ID. */
  function Stores(infos: seq<StoreInfo>, previous: map<int, KVStore>, now: Time): map<int, KVStore> {
    if infos == [] then map[]
    else
      var n := |infos| - 1;
      match GetKVStore(infos[n])
      case None => Stores(infos[..n], previous, now)
      case Some(store) => Stores(infos[..n], previous, now)[store.id := Carried(store, previous, now)]
  }

  method CollectStores(infos: seq<StoreInfo>, previous: map<int, KVStore>, now: Time)
    returns (stores: map<int, KVStore>)
    ensures stores == Stores(infos, previous, now)
  {
    stores := map[];
    for k := 0 to |infos|
      invariant stores == Stores(infos[..k], previous, now)
    {
      assert infos[..k + 1][..k] == infos[..k];
      var found := GetKVStore(infos[k]);
      if found.Some? {
        var status := found.value;
        if status.lastHeartbeat.None? && status.id in previous {
          status := status.(lastHeartbeat := previous[status.id].lastHeartbeat);
        }
        if status.id in previous {
          status := status.(lastTransition := previous[status.id].lastTransition);
        }
        if status.id !in previous || status.state != previous[status.id].state {
          status := status.(lastTransition := Some(now));
        }
        stores := stores[status.id := status];
      }
    }
    assert infos[..|infos|] == infos;
  }

  /** The tombstone map, which carries nothing over. */
  function Tombstones(infos: seq<StoreInfo>): map<int, KVStore> {
    if infos == [] then map[]
    else
      var n := |infos| - 1;
      match GetKVStore(infos[n])
      case None => Tombstones(infos[..n])
      case Some(store) => Tombstones(infos[..n])[store.id := store]
  }

  method CollectTombstones(infos: seq<StoreInfo>) returns (stores: map<int, KVStore>)
    ensures stores == Tombstones(infos)
  {
    stores := map[];
    for k := 0 to |infos|
      invariant stores == Tombstones(infos[..k])
    {
      assert infos[..k + 1][..k] == infos[..k];
      var found := GetKVStore(infos[k]);
      if found.Some? {
        stores := stores[found.value.id := found.value];
      }
    }
    assert infos[..|infos|] == infos;
  }

  // ---------------------------------------------------------------------------------------------
  // Looking a store up by the pod it runs on
  // ---------------------------------------------------------------------------------------------

  predicate OnPod(stores: map<int, KVStore>, id: int, ordinal: int) {
    id in stores && stores[id].pod == PodName(StoreTier, ordinal)
  }

  /** No two entries of the status name the same pod. */
  ghost predicate UniquePods(stores: map<int, KVStore>) {
    forall a, b :: a in stores && b in stores && a != b ==> stores[a].pod != stores[b].pod
  }

  ghost function StoreAt(stores: map<int, KVStore>, ordinal: int): (found: Option<int>)
    ensures found.Some? ==> OnPod(stores, found.value, ordinal)
    ensures found.None? ==> forall id :: !OnPod(stores, id, ordinal)
  {
    if exists id :: OnPod(stores, id, ordinal) then
      var id :| OnPod(stores, id, ordinal);
      Some(id)
    else None
  }

  /** getStoreByOrdinal; NextKey stands for Go's map iteration order. */
  method GetStoreByOrdinal(stores: map<int, KVStore>, ordinal: int) returns (found: Option<int>)
    requires UniquePods(stores)
    ensures found == StoreAt(stores, ordinal)
  {
    var rest := stores.Keys;
    while rest != {}
      invariant rest <= stores.Keys
      invariant forall id :: id in stores && id !in rest ==> !OnPod(stores, id, ordinal)
      decreases |rest|
    {
      var id := NextKey(rest);
      if stores[id].pod == PodName(StoreTier, ordinal) {
        assert OnPod(stores, id, ordinal);
        return Some(id);
      }
      rest := rest - {id};
    }
    found := None;
  }

  // ---------------------------------------------------------------------------------------------
  // What the map says about the list
  // ---------------------------------------------------------------------------------------------

  predicate Reports(infos: seq<StoreInfo>, k: int, id: int) {
    0 <= k < |infos| && infos[k].id == id && infos[k].stats.Some?
  }

  ghost predicate DistinctIds(infos: seq<StoreInfo>) {
    forall j, k :: 0 <= j < k < |infos| ==> infos[j].id != infos[k].id
  }

  lemma {:induction false} StoresKeys(infos: seq<StoreInfo>, previous: map<int, KVStore>, now: Time, id: int)
    ensures id in Stores(infos, previous, now) <==> exists k :: Reports(infos, k, id)
    ensures id in Stores(infos, previous, now) ==> Stores(infos, previous, now)[id].id == id
  {
    if infos != [] {
      var n := |infos| - 1;
      StoresKeys(infos[..n], previous, now, id);
      assert forall k :: Reports(infos[..n], k, id) ==> Reports(infos, k, id);
      assert forall k :: Reports(infos, k, id) && k < n ==> Reports(infos[..n], k, id);
      assert GetKVStore(infos[n]).Some? && infos[n].id == id <==> Reports(infos, n, id);
    }
  }

  /** The map holds, for each listed store, what PD reported about it. */
  lemma {:induction false} StoresAt(infos: seq<StoreInfo>, previous: map<int, KVStore>, now: Time, k: int)
    requires DistinctIds(infos) && 0 <= k < |infos| && infos[k].stats.Some?
    ensures infos[k].id in Stores(infos, previous, now)
    ensures Stores(infos, previous, now)[infos[k].id] == Carried(GetKVStore(infos[k]).value, previous, now)
  {
    var n := |infos| - 1;
    if k < n {
      assert infos[..n][k] == infos[k];
      StoresAt(infos[..n], previous, now, k);
    }
  }

  /** Field by field: pod and leaders as PD lists them; state code 1 is Down, 2 Tombstone, any other Up; a heartbeat
      of at least one second counts, in nanoseconds, and otherwise the previous one stands; and the transition time
      is the previous one if the store was there before in the same state. */
  lemma EntryExact(infos: seq<StoreInfo>, previous: map<int, KVStore>, now: Time, k: int)
    requires DistinctIds(infos) && 0 <= k < |infos| && infos[k].stats.Some?
    ensures infos[k].id in Stores(infos, previous, now)
    ensures var info, entry := infos[k], Stores(infos, previous, now)[infos[k].id];
            var known := info.id in previous;
            && entry.id == info.id && entry.pod == info.pod && entry.leaders == info.stats.value.leaders
            && (entry.state == Down <==> info.stateCode == 1) && (entry.state == Tombstone <==> info.stateCode == 2)
            && (entry.state == Up <==> info.stateCode != 1 && info.stateCode != 2)
            && entry.lastHeartbeat
               == (if info.stats.value.lastHeartbeatTs > 0 then Some(info.stats.value.lastHeartbeatTs * 1_000_000_000)
                   else if known then previous[info.id].lastHeartbeat else None)
            && entry.lastTransition
               == if known && previous[info.id].state == entry.state then previous[info.id].lastTransition
                 else Some(now)
  {
    StoresAt(infos, previous, now, k);
  }

  /** The tombstone entry for what PD lists: field by field, and without a transition time. */
  predicate Buried(info: StoreInfo, entry: KVStore) {
    && info.stats.Some? && entry.id == info.id && entry.pod == info.pod && entry.leaders == info.stats.value.leaders
    && (entry.state == Down <==> info.stateCode == 1) && (entry.state == Tombstone <==> info.stateCode == 2)
    && (entry.state == Up <==> info.stateCode != 1 && info.stateCode != 2) && entry.lastTransition == None
    && entry.lastHeartbeat == if info.stats.value.lastHeartbeatTs <= 0 then None
                              else Some(info.stats.value.lastHeartbeatTs * 1_000_000_000)
  }

  lemma BuriedAs(info: StoreInfo)
    requires info.stats.Some?
    ensures Buried(info, GetKVStore(info).value)
  {
  }

  /** The tombstone map holds the listed stores that have a status, each as the last entry about it says. */
  lemma {:induction false} TombstonesExact(infos: seq<StoreInfo>, id: int)
    ensures id in Tombstones(infos) <==> exists k :: Reports(infos, k, id)
    ensures forall k :: ReportsLast(infos, k, id) ==> id in Tombstones(infos) && Buried(infos[k], Tombstones(infos)[id])
  {
    if infos != [] {
      var n := |infos| - 1;
      var front := infos[..n];
      TombstonesExact(front, id);
      assert forall k :: 0 <= k < n ==> front[k] == infos[k] && (Reports(front, k, id) <==> Reports(infos, k, id));
      if Reports(infos, n, id) {
        BuriedAs(infos[n]);
        assert forall k :: ReportsLast(infos, k, id) ==> k == n;
      } else {
        assert forall k :: ReportsLast(infos, k, id) ==> ReportsLast(front, k, id);
        assert forall k :: Reports(infos, k, id) ==> k != n;
      }
    }
  }

  // ---------------------------------------------------------------------------------------------
  // Histories of syncs
  // ---------------------------------------------------------------------------------------------

  /** One sync: the two store lists PD returned (None when the call failed) and the time. */
  datatype SyncEvent = SyncEvent(infos: Option<seq<StoreInfo>>, tombstones: Option<seq<StoreInfo>>, now: Time) {
    predicate Succeeds() { infos.Some? && tombstones.Some? }
  }

  /** The store map after a sync: a failed one, at either call, leaves it intact. */
  function AfterSync(stores: map<int, KVStore>, e: SyncEvent): map<int, KVStore> {
    if e.Succeeds() then Stores(e.infos.value, stores, e.now) else stores
  }

  function AfterHistory(h: seq<SyncEvent>): map<int, KVStore> {
    if h == [] then map[] else AfterSync(AfterHistory(h[..|h| - 1]), h[|h| - 1])
  }

  ghost predicate WellFormed(h: seq<SyncEvent>) {
    forall k :: 0 <= k < |h| && h[k].Succeeds() ==> DistinctIds(h[k].infos.value)
  }

  /** The state each listed store is in; a later entry of the list overrides an earlier one. */
  function StatesOf(infos: seq<StoreInfo>): map<int, StoreState> {
    if infos == [] then map[]
    else
      var n := |infos| - 1;
      if infos[n].stats.None? then StatesOf(infos[..n]) else StatesOf(infos[..n])[infos[n].id := StateOf(infos[n])]
  }

  /** Entry k is the last one to report the store. */
  ghost predicate ReportsLast(infos: seq<StoreInfo>, k: int, id: int) {
    Reports(infos, k, id) && forall j :: k < j < |infos| ==> !Reports(infos, j, id)
  }

  lemma {:induction false} StatesOfExact(infos: seq<StoreInfo>, id: int, state: StoreState)
    ensures id in StatesOf(infos) && StatesOf(infos)[id] == state
        <==> exists k :: ReportsLast(infos, k, id) && StateOf(infos[k]) == state
  {
    if infos != [] {
      var n := |infos| - 1;
      var front := infos[..n];
      StatesOfExact(front, id, state);
      assert forall k :: 0 <= k < n ==> front[k] == infos[k] && (Reports(front, k, id) <==> Reports(infos, k, id));
      if Reports(infos, n, id) {
        assert ReportsLast(infos, n, id);
        assert forall k :: ReportsLast(infos, k, id) ==> k == n;
      } else {
        assert forall k :: ReportsLast(infos, k, id) ==> k != n && ReportsLast(front, k, id);
        assert forall k :: ReportsLast(front, k, id) ==> ReportsLast(infos, k, id);
      }
    }
  }

  /** The states and transition times of a store map. */
  function Standing(stores: map<int, KVStore>): map<int, Entry<StoreState>> {
    map id | id in stores :: Entry(stores[id].state, stores[id].lastTransition)
  }

  lemma {:induction false} StoresTrack(infos: seq<StoreInfo>, previous: map<int, KVStore>, now: Time)
    ensures Standing(Stores(infos, previous, now)) == Tracked(StatesOf(infos), Standing(previous), now)
  {
    if infos != [] {
      var n := |infos| - 1;
      var front, last := infos[..n], infos[n];
      StoresTrack(front, previous, now);
      if last.stats.Some? {
        var store := Carried(GetKVStore(last).value, previous, now);
        StandingUpdate(Stores(front, previous, now), last.id, store);
        TrackedUpdate(StatesOf(front), last.id, store.state, Standing(previous), now);
        assert last.id in Standing(previous) <==> last.id in previous;
      }
    }
  }

  lemma StandingUpdate(stores: map<int, KVStore>, id: int, store: KVStore)
    ensures Standing(stores[id := store]) == Standing(stores)[id := Entry(store.state, store.lastTransition)]
  {
  }

  function SyncOf(e: SyncEvent): Sync<int, StoreState> {
    Sync(if e.Succeeds() then Some(StatesOf(e.infos.value)) else None, e.now)
  }

  function Syncs(h: seq<SyncEvent>): seq<Sync<int, StoreState>> {
    seq(|h|, k requires 0 <= k < |h| => SyncOf(h[k]))
  }

  lemma {:induction false} HistoryTracks(h: seq<SyncEvent>)
    ensures Standing(AfterHistory(h)) == After(Syncs(h))
  {
    if h != [] {
      var front, e := h[..|h| - 1], h[|h| - 1];
      HistoryTracks(front);
      assert Syncs(h)[..|h| - 1] == Syncs(front);
      if e.Succeeds() {
        StoresTrack(e.infos.value, AfterHistory(front), e.now);
      }
    }
  }

  /** The last transition time of a store is the time of the latest successful sync in which it first
      appeared or changed state, however many syncs failed or repeated the state since. */
  lemma StoreTransitionExact(h: seq<SyncEvent>, id: int)
    requires id in AfterHistory(h)
    ensures exists k :: LatestTransition(Syncs(h), k, id, AfterHistory(h)[id].state)
                        && AfterHistory(h)[id].lastTransition == Some(h[k].now)
  {
    HistoryTracks(h);
    assert id in Standing(AfterHistory(h));
    TransitionTimeExact(Syncs(h), id);
    var k :| LatestTransition(Syncs(h), k, id, After(Syncs(h))[id].state)
        && After(Syncs(h))[id].since == Some(Syncs(h)[k].now);
    assert LatestTransition(Syncs(h), k, id, AfterHistory(h)[id].state);
  }

  /** A failed sync, at either PD call, leaves every entry as it was. */
  lemma FailedSyncKeepsStores(h: seq<SyncEvent>, e: SyncEvent)
    requires !e.Succeeds()
    ensures AfterHistory(h + [e]) == AfterHistory(h)
  {
    assert (h + [e])[..|h|] == h;
  }

  /** A store that stays present keeps a known heartbeat, and takes over any newer one PD reports. */
  lemma HeartbeatNeverForgotten(h: seq<SyncEvent>, e: SyncEvent, id: int)
    requires WellFormed(h + [e])
    requires id in AfterHistory(h) && id in AfterHistory(h + [e])
    ensures AfterHistory(h)[id].lastHeartbeat.Some? ==> AfterHistory(h + [e])[id].lastHeartbeat.Some?
    ensures forall j ::
              (e.Succeeds() && Reports(e.infos.value, j, id) && e.infos.value[j].stats.value.lastHeartbeatTs > 0)
              ==> AfterHistory(h + [e])[id].lastHeartbeat == Some(e.infos.value[j].stats.value.lastHeartbeatTs * SECOND)
  {
    assert (h + [e])[..|h|] == h;
    if e.Succeeds() {
      assert (h + [e])[|h|] == e;
      var infos, before := e.infos.value, AfterHistory(h);
      StoresKeys(infos, before, e.now, id);
      forall j | Reports(infos, j, id)
        ensures Stores(infos, before, e.now)[id] == Carried(GetKVStore(infos[j]).value, before, e.now)
      {
        StoresAt(infos, before, e.now, j);
      }
    }
  }
}
