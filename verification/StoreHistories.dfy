/** What a sequence of store passes makes of the store status: the history of their syncs, whatever else the passes
    do, whichever of them fail or lose the write of their status. */
module StoreHistories {
  import opened Kube
  import opened Transitions
  import opened StoreStatus
  import opened StoreMembers

  /** One pass of the manager; `kept` tells whether the new status was stored. */
  datatype StatusPass = StatusPass(before: Store, pdPhase: Phase, pdAvailable: bool, desired: Desired,
                                   input: StoreInput, kept: bool)

  ghost function Result(p: StatusPass): Store
    requires Lists(p.input.listing, p.before.pods)
  {
    Synced(p.before, p.pdPhase, p.pdAvailable, p.desired, p.input).0
  }

  function EventOf(p: StatusPass): SyncEvent {
    SyncEvent(p.input.infos, p.input.tombstones, p.input.now)
  }

  /** The pass comes as far as the status sync. */
  predicate Syncs(p: StatusPass) {
    p.pdAvailable && !p.input.serviceFails
  }

  /** The stores of the manager after any pass are those of the history rule, or untouched if the pass does not come
      that far; what the rest of the pass does leaves them alone. */
  lemma PassIsSync(p: StatusPass)
    requires Lists(p.input.listing, p.before.pods)
    ensures Result(p).status.stores
         == if Syncs(p) then AfterSync(p.before.status.stores, EventOf(p)) else p.before.status.stores
  {
  }

  /** A pass whose sync fails at either call to PD, or that does not come to it, leaves every entry as it was. */
  lemma FailedPassKeepsStores(p: StatusPass)
    requires Lists(p.input.listing, p.before.pods)
    requires !p.pdAvailable || p.input.serviceFails || p.input.infos.None? || p.input.tombstones.None?
    ensures Result(p).status.stores == p.before.status.stores
    ensures Result(p).status.tombstones == p.before.status.tombstones
  {
    PassIsSync(p);
  }

  /** The store map the next pass starts from. */
  ghost function Left(p: StatusPass): map<int, KVStore>
    requires Lists(p.input.listing, p.before.pods)
  {
    if p.kept then Result(p).status.stores else p.before.status.stores
  }

  /** Passes in sequence from an empty status; between them anything but the store map may change. */
  ghost predicate Chain(passes: seq<StatusPass>) {
    && (forall k :: 0 <= k < |passes| ==> Lists(passes[k].input.listing, passes[k].before.pods))
    && (passes != [] ==> passes[0].before.status.stores == map[])
    && forall k :: 0 < k < |passes| ==> passes[k].before.status.stores == Left(passes[k - 1])
  }

  /** The syncs whose status was stored. */
  function Events(passes: seq<StatusPass>): seq<SyncEvent> {
    if passes == [] then []
    else
      var n := |passes| - 1;
      Events(passes[..n]) + if Syncs(passes[n]) && passes[n].kept then [EventOf(passes[n])] else []
  }

  ghost function Stands(passes: seq<StatusPass>): map<int, KVStore>
    requires Chain(passes)
  {
    if passes == [] then map[] else Left(passes[|passes| - 1])
  }

  lemma {:induction false} PassesAreHistory(passes: seq<StatusPass>)
    requires Chain(passes)
    ensures Stands(passes) == AfterHistory(Events(passes))
  {
    if passes != [] {
      var n := |passes| - 1;
      var front, last := passes[..n], passes[n];
      assert Chain(front) by {
        assert forall k :: 0 <= k < n ==> front[k] == passes[k];
      }
      PassesAreHistory(front);
      assert last.before.status.stores == Stands(front) by {
        assert n > 0 ==> front[n - 1] == passes[n - 1];
      }
      PassIsSync(last);
      var h, e := Events(front), EventOf(last);
      assert (h + [e])[..|h|] == h && (h + [e])[|h|] == e;
      assert Stands(passes) == Left(last);
      if Syncs(last) && last.kept {
        assert Events(passes) == h + [e];
      } else {
        assert Events(passes) == h;
      }
    }
  }

  /** So the transition time of a store in the manager's status is that of the latest stored sync in which it first
      appeared or changed state. */
  lemma ManagerTransitionExact(passes: seq<StatusPass>, id: int)
    requires Chain(passes) && id in Stands(passes)
    ensures var h, store := Events(passes), Stands(passes)[id];
            exists k :: LatestTransition(StoreStatus.Syncs(h), k, id, store.state)
              && store.lastTransition == Some(h[k].now)
  {
    PassesAreHistory(passes);
    StoreTransitionExact(Events(passes), id);
  }

  /** And a store that stays in it keeps a known heartbeat. */
  lemma ManagerKeepsHeartbeat(passes: seq<StatusPass>, last: StatusPass, id: int)
    requires Chain(passes + [last]) && WellFormed(Events(passes + [last]))
    requires Chain(passes) && id in Stands(passes) && id in Stands(passes + [last])
    ensures Stands(passes)[id].lastHeartbeat.Some? ==> Stands(passes + [last])[id].lastHeartbeat.Some?
  {
    PassesAreHistory(passes);
    PassesAreHistory(passes + [last]);
    assert (passes + [last])[..|passes|] == passes;
    if Events(passes + [last]) != Events(passes) {
      HeartbeatNeverForgotten(Events(passes), EventOf(last), id);
    }
  }
}
