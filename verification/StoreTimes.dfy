/** How long a store with leaders is waited for: a pass rolls its pod only once the leaders are gone, or three
    minutes after PD was asked to evict them, in every run. */
module StoreTimes {
  import opened Kube
  import opened StoreStatus
  import opened StoreScaler
  import opened StoreMembers
  import opened StoreSafety
  import opened StoreRuns

  // ---------------------------------------------------------------------------------------------
  // When PD is asked
  // ---------------------------------------------------------------------------------------------

  /** The descent from ordinal i comes to j, the first one off the update revision, whose store has leaders and
      whose pod is not annotated. */
  ghost predicate AsksAt(i: int, j: int, e: Eviction, stores: map<int, KVStore>, updateRevision: Revision,
                         input: StoreInput)
  {
    && 0 <= j <= i && Due(j, e.pods, stores, updateRevision) && e.pods[j].evictBegin.None?
    && stores[StoreAt(stores, j).value].leaders != 0
    && forall k :: j < k <= i ==> Cleared(k, e, stores, updateRevision, input)
  }

  /** PD is asked there to evict the leaders of store `id`, and does. */
  ghost predicate Begins(i: int, j: int, id: int, e: Eviction, stores: map<int, KVStore>, updateRevision: Revision,
                         input: StoreInput)
  {
    && AsksAt(i, j, e, stores, updateRevision, input) && StoreAt(stores, j) == Some(id)
    && OutcomeOf(input.begin, id).TookEffect()
  }

  /** An annotation a descent leaves was there before, or holds the time of the call to PD in whole seconds. */
  ghost predicate Stamps(i: int, e: Eviction, e1: Eviction, stores: map<int, KVStore>, updateRevision: Revision,
                         input: StoreInput)
  {
    forall k :: k in e1.pods && e1.pods[k].evictBegin.Some? ==>
      k in e.pods
      && (|| e1.pods[k].evictBegin == e.pods[k].evictBegin
          || (&& e1.pods[k].evictBegin == Some(At(input.now - input.now % 1_000_000_000))
              && exists id :: Begins(i, k, id, e, stores, updateRevision, input)))
  }

  /** PD evicts the leaders of no other stores than before and those it is asked for. */
  ghost predicate Evicts(i: int, e: Eviction, e1: Eviction, stores: map<int, KVStore>, updateRevision: Revision,
                         input: StoreInput)
  {
    && (forall id :: id in e1.evicting && id !in e.evicting ==>
          exists j :: Begins(i, j, id, e, stores, updateRevision, input))
    && (forall j, id :: Begins(i, j, id, e, stores, updateRevision, input) ==> id in e1.evicting)
    && forall j, id :: Begins(i, j, id, e, stores, updateRevision, input) && Delivers(j, id, input) ==>
         j in e1.pods && e1.pods[j].evictBegin.Some?
  }

  /** Both calls that begin an eviction are delivered. */
  predicate Delivers(j: int, id: int, input: StoreInput) {
    OutcomeOf(input.begin, id) == OutcomeOf(input.updatePod, j) == Delivered
  }

  lemma {:induction false} DescentStamps(i: int, e: Eviction, stores: map<int, KVStore>, updateRevision: Revision,
                                         input: StoreInput)
    requires UniquePods(stores)
    ensures var e1 := Descent(i, e, stores, updateRevision, input).0;
            Stamps(i, e, e1, stores, updateRevision, input) && Evicts(i, e, e1, stores, updateRevision, input)
    decreases i + 1
  {
    if i >= 0 {
      match StoreAt(stores, i)
      case None =>
        DescentStamps(i - 1, e, stores, updateRevision, input);
        FromBelow(i, e, e, Descent(i - 1, e, stores, updateRevision, input).0, stores, updateRevision, input);
      case Some(id) =>
        if Passed(i, e.pods, stores, updateRevision) && EndReported(i, e.pods, stores, input) {
          var e0 := Ended(e, id, i, input).0;
          EndedBelow(i, id, e, stores, updateRevision, input);
          DescentStamps(i - 1, e0, stores, updateRevision, input);
          FromBelow(i, e, e0, Descent(i - 1, e0, stores, updateRevision, input).0, stores, updateRevision, input);
        } else {
          DescentStops(i, id, e, stores, updateRevision, input);
        }
    }
  }

  /** A descent that passes ordinal i asks what the rest of it asks. */
  lemma BelowAsks(i: int, e: Eviction, e0: Eviction, stores: map<int, KVStore>, updateRevision: Revision,
                  input: StoreInput)
    requires Cleared(i, e, stores, updateRevision, input) && !Due(i, e.pods, stores, updateRevision)
    requires forall k :: k != i ==> (k in e.pods <==> k in e0.pods) && (k in e.pods ==> e.pods[k] == e0.pods[k])
    ensures forall j, id :: Begins(i, j, id, e, stores, updateRevision, input)
                            <==> Begins(i - 1, j, id, e0, stores, updateRevision, input)
  {
    assert forall k :: k != i ==>
        (Cleared(k, e, stores, updateRevision, input) <==> Cleared(k, e0, stores, updateRevision, input));
    assert forall k :: k != i ==> (Due(k, e.pods, stores, updateRevision) <==> Due(k, e0.pods, stores, updateRevision));
  }

  /** So what the rest of it leaves is what the whole leaves. */
  lemma FromBelow(i: int, e: Eviction, e0: Eviction, e1: Eviction, stores: map<int, KVStore>,
                  updateRevision: Revision, input: StoreInput)
    requires Cleared(i, e, stores, updateRevision, input) && !Due(i, e.pods, stores, updateRevision)
    requires forall k :: k != i ==> (k in e.pods <==> k in e0.pods) && (k in e.pods ==> e.pods[k] == e0.pods[k])
    requires i in e0.pods ==> i in e.pods && e0.pods[i].evictBegin in {None, e.pods[i].evictBegin}
    requires e0.evicting <= e.evicting
    requires Stamps(i - 1, e0, e1, stores, updateRevision, input)
    requires Evicts(i - 1, e0, e1, stores, updateRevision, input)
    ensures Stamps(i, e, e1, stores, updateRevision, input) && Evicts(i, e, e1, stores, updateRevision, input)
  {
    BelowAsks(i, e, e0, stores, updateRevision, input);
    forall k | k in e1.pods && e1.pods[k].evictBegin.Some? && e1.pods[k].evictBegin != e0.pods[k].evictBegin
      ensures exists id :: Begins(i, k, id, e, stores, updateRevision, input)
    {
      var id :| Begins(i - 1, k, id, e0, stores, updateRevision, input);
      assert Begins(i, k, id, e, stores, updateRevision, input);
    }
    forall id | id in e1.evicting && id !in e.evicting
      ensures exists j :: Begins(i, j, id, e, stores, updateRevision, input)
    {
      var j :| Begins(i - 1, j, id, e0, stores, updateRevision, input);
      assert Begins(i, j, id, e, stores, updateRevision, input);
    }
  }

  /** Where the descent stops. */
  lemma DescentStops(i: int, id: int, e: Eviction, stores: map<int, KVStore>, updateRevision: Revision,
                     input: StoreInput)
    requires i >= 0 && StoreAt(stores, i) == Some(id)
    requires !(Passed(i, e.pods, stores, updateRevision) && EndReported(i, e.pods, stores, input))
    ensures var e1 := Descent(i, e, stores, updateRevision, input).0;
            Stamps(i, e, e1, stores, updateRevision, input) && Evicts(i, e, e1, stores, updateRevision, input)
  {
    assert !Cleared(i, e, stores, updateRevision, input);
    assert forall j, a :: Begins(i, j, a, e, stores, updateRevision, input) ==> j == i && a == id;
    if AsksAt(i, i, e, stores, updateRevision, input) && OutcomeOf(input.begin, id).TookEffect() {
      assert Begins(i, i, id, e, stores, updateRevision, input);
    }
  }

  /** A descent comes to its end without an error and without lowering the partition exactly when it passes all
      ordinals, or begins an eviction and no call fails. */
  lemma {:induction false} DescentRests(i: int, e: Eviction, stores: map<int, KVStore>, updateRevision: Revision,
                                        input: StoreInput)
    ensures Descent(i, e, stores, updateRevision, input).1 == KeepPartition
        <==> || (forall k :: 0 <= k <= i ==> Cleared(k, e, stores, updateRevision, input))
             || (exists j, id :: Begins(i, j, id, e, stores, updateRevision, input) && Delivers(j, id, input))
    decreases i + 1
  {
    if i >= 0 {
      match StoreAt(stores, i)
      case None =>
        DescentRests(i - 1, e, stores, updateRevision, input);
        BelowAsks(i, e, e, stores, updateRevision, input);
        RestsBelow(i, e, e, stores, updateRevision, input);
      case Some(id) =>
        if Passed(i, e.pods, stores, updateRevision) && EndReported(i, e.pods, stores, input) {
          var e0 := Ended(e, id, i, input).0;
          EndedBelow(i, id, e, stores, updateRevision, input);
          DescentRests(i - 1, e0, stores, updateRevision, input);
          RestsBelow(i, e, e0, stores, updateRevision, input);
        } else {
          assert !Cleared(i, e, stores, updateRevision, input);
          assert forall j, a :: Begins(i, j, a, e, stores, updateRevision, input) ==> j == i && a == id;
          assert Descent(i, e, stores, updateRevision, input).1 == KeepPartition ==>
                   Begins(i, i, id, e, stores, updateRevision, input) && Delivers(i, id, input);
        }
    }
  }

  lemma RestsBelow(i: int, e: Eviction, e0: Eviction, stores: map<int, KVStore>, updateRevision: Revision,
                   input: StoreInput)
    requires i >= 0 && Cleared(i, e, stores, updateRevision, input) && !Due(i, e.pods, stores, updateRevision)
    requires forall k :: k != i ==> (k in e.pods <==> k in e0.pods) && (k in e.pods ==> e.pods[k] == e0.pods[k])
    ensures (forall k :: 0 <= k <= i ==> Cleared(k, e, stores, updateRevision, input))
            <==> forall k :: 0 <= k <= i - 1 ==> Cleared(k, e0, stores, updateRevision, input)
    ensures (exists j, id :: Begins(i, j, id, e, stores, updateRevision, input) && Delivers(j, id, input))
            <==> exists j, id :: Begins(i - 1, j, id, e0, stores, updateRevision, input) && Delivers(j, id, input)
  {
    BelowAsks(i, e, e0, stores, updateRevision, input);
    assert forall k :: k != i ==>
             (Cleared(k, e, stores, updateRevision, input) <==> Cleared(k, e0, stores, updateRevision, input));
    assert forall j, id :: Begins(i, j, id, e, stores, updateRevision, input)
             ==> Begins(i - 1, j, id, e0, stores, updateRevision, input);
  }

  // ---------------------------------------------------------------------------------------------
  // The pass
  // ---------------------------------------------------------------------------------------------

  /** The pass gets to its descent. */
  ghost predicate Descends(w: StoreWorld, a: StoreAction)
    requires a.StorePass? && Applicable(w, a)
  {
    Rolling(w, a) && a.pdAvailable && !a.input.serviceFails && a.input.infos.Some? && a.input.tombstones.Some?
  }

  /** No store above ordinal j stops the descent. */
  ghost predicate NothingStops(w: StoreWorld, a: StoreAction, j: int)
    requires a.StorePass?
  {
    var stores := Stores(w.registry, w.store.status.stores, a.input.now);
    forall k :: k > j && Tracked(w.registry, k) ==>
      Cleared(k, Eviction(w.store.pods, w.store.evicting), stores, w.store.ss.status.updateRevision, a.input)
  }

  /** PD, in this pass, is asked to evict the leaders of store `id` on ordinal j, and does: j is the highest
      ordinal with a store off the revision the status names, no store above stops the descent, the store leads
      something and its pod is not annotated. */
  ghost predicate AsksPd(w: StoreWorld, a: StoreAction, id: int, j: int)
    requires a.StorePass? && Applicable(w, a)
  {
    && Descends(w, a) && Registered(w.registry, id, j) && HighestOff(w, j, w.store.ss.status.updateRevision)
    && j in w.store.pods && w.store.pods[j].evictBegin.None? && OutcomeOf(a.input.begin, id).TookEffect()
    && (forall k :: EntryOf(w.registry, k, j) ==> w.registry[k].stats.value.leaders != 0)
    && NothingStops(w, a, j)
  }

  /** Pods and evictions after a pass are those its descent leaves, if it gets there. */
  lemma PassDescends(w: StoreWorld, a: StoreAction)
    requires StoreSafe(w) && a.StorePass? && PassEnabled(w, a) && Descends(w, a)
    ensures var s, t := w.store, StoreStep(w, a).store;
            Eviction(t.pods, t.evicting)
            == Descent(s.ss.status.replicas - 1, Eviction(s.pods, s.evicting),
                       Stores(w.registry, s.status.stores, a.input.now), s.ss.status.updateRevision, a.input).0
  {
  }

  lemma PassSkips(w: StoreWorld, a: StoreAction)
    requires StoreSafe(w) && a.StorePass? && PassEnabled(w, a) && !Descends(w, a)
    ensures StoreStep(w, a).store.pods == w.store.pods && StoreStep(w, a).store.evicting == w.store.evicting
  {
  }

  lemma BeginsIsAsksPd(w: StoreWorld, a: StoreAction, id: int, j: int)
    requires StoreSafe(w) && a.StorePass? && PassEnabled(w, a) && Descends(w, a)
    ensures Begins(w.store.ss.status.replicas - 1, j, id, Eviction(w.store.pods, w.store.evicting),
                   Stores(w.registry, w.store.status.stores, a.input.now), w.store.ss.status.updateRevision, a.input)
            <==> AsksPd(w, a, id, j)
  {
    var s, update, n := w.store, w.store.ss.status.updateRevision, w.store.ss.status.replicas - 1;
    var stores, e0 := Stores(w.registry, s.status.stores, a.input.now), Eviction(s.pods, s.evicting);
    RegistryView(w.registry, s.status.stores, a.input.now);
    forall k
      ensures StoreAt(stores, k).Some? <==> Tracked(w.registry, k)
      ensures Tracked(w.registry, k) ==> 0 <= k <= n
    {
      FoundIfTracked(w.registry, s.status.stores, a.input.now, k);
    }
    if Tracked(w.registry, j) {
      EntryMatches(w, s.status.stores, a.input.now, j);
    }
    assert forall k :: Cleared(k, e0, stores, update, a.input) && Tracked(w.registry, k) ==> On(s, k, update);
  }

  /** What the descent of a pass leaves, in terms of what PD is asked. */
  lemma PassDescentStamps(w: StoreWorld, a: StoreAction)
    requires StoreSafe(w) && a.StorePass? && PassEnabled(w, a) && Descends(w, a)
    ensures var t, e0 := StoreStep(w, a).store, Eviction(w.store.pods, w.store.evicting);
            var n, update := w.store.ss.status.replicas - 1, w.store.ss.status.updateRevision;
            var stores := Stores(w.registry, w.store.status.stores, a.input.now);
            && Stamps(n, e0, Eviction(t.pods, t.evicting), stores, update, a.input)
            && Evicts(n, e0, Eviction(t.pods, t.evicting), stores, update, a.input)
            && forall id, j :: Begins(n, j, id, e0, stores, update, a.input) <==> AsksPd(w, a, id, j)
  {
    PassDescends(w, a);
    var s, update, n := w.store, w.store.ss.status.updateRevision, w.store.ss.status.replicas - 1;
    var stores, e0 := Stores(w.registry, s.status.stores, a.input.now), Eviction(s.pods, s.evicting);
    RegistryView(w.registry, s.status.stores, a.input.now);
    DescentStamps(n, e0, stores, update, a.input);
    forall id, j
      ensures Begins(n, j, id, e0, stores, update, a.input) <==> AsksPd(w, a, id, j)
    {
      BeginsIsAsksPd(w, a, id, j);
    }
  }

  /** PD evicts no other stores than before and those asked for, and annotates their pods if no call fails. */
  lemma PassEvicts(w: StoreWorld, a: StoreAction)
    requires StoreSafe(w) && a.StorePass? && PassEnabled(w, a)
    ensures var t := StoreStep(w, a).store;
            && (forall id :: id in t.evicting ==> id in w.store.evicting || exists j :: AsksPd(w, a, id, j))
            && (forall id, j :: AsksPd(w, a, id, j) ==> id in t.evicting)
            && forall id, j :: AsksPd(w, a, id, j) && Delivers(j, id, a.input) ==>
                 j in t.pods && t.pods[j].evictBegin.Some?
  {
    if Descends(w, a) {
      PassDescentStamps(w, a);
    } else {
      PassSkips(w, a);
    }
  }

  /** An annotation was there before or is that of the pod whose store was asked for, and then holds the time of
      the pass in whole seconds. */
  lemma PassStamps(w: StoreWorld, a: StoreAction)
    requires StoreSafe(w) && a.StorePass? && PassEnabled(w, a)
    ensures var t := StoreStep(w, a).store;
            forall k :: k in t.pods && t.pods[k].evictBegin.Some? ==>
              k in w.store.pods
              && (|| t.pods[k].evictBegin == w.store.pods[k].evictBegin
                  || (&& t.pods[k].evictBegin == Some(At(a.input.now - a.input.now % 1_000_000_000))
                      && exists id :: AsksPd(w, a, id, k)))
  {
    if Descends(w, a) {
      PassDescentStamps(w, a);
    } else {
      PassSkips(w, a);
    }
  }

  /** A pass that gets to its descent fails, short of the write of the set, exactly when the descent neither lowers the
      partition nor comes to its end. */
  lemma RefusedPassFails(w: StoreWorld, a: StoreAction)
    requires StoreSafe(w) && a.StorePass? && PassEnabled(w, a) && Descends(w, a) && a.input.write == Delivered
    ensures Synced(w.store, a.pdPhase, a.pdAvailable, a.desired, a.input).1.Some?
        <==> Descent(w.store.ss.status.replicas - 1, Eviction(w.store.pods, w.store.evicting),
                     Stores(w.registry, w.store.status.stores, a.input.now), w.store.ss.status.updateRevision,
                     a.input).1.Refuse?
  {
  }

  /** A pass asks PD about one store at most. */
  lemma AsksOnce(w: StoreWorld, a: StoreAction, id: int, j: int, id': int, j': int)
    requires RegistryOk(w.registry) && a.StorePass? && Applicable(w, a)
    requires AsksPd(w, a, id, j) && AsksPd(w, a, id', j')
    ensures id == id' && j == j'
  {
    HighestOffUnique(w, j, j', w.store.ss.status.updateRevision);
  }

  // ---------------------------------------------------------------------------------------------
  // Runs with a clock
  // ---------------------------------------------------------------------------------------------

  /** A world, the time PD was last asked to evict the leaders of each store, and the time of the last pass. */
  datatype Timed = Timed(w: StoreWorld, asked: map<int, Time>, now: Time)

  /** The clock of the passes does not run back. */
  ghost predicate TimedEnabled(t: Timed, a: StoreAction) {
    StoreEnabled(t.w, a) && (a.StorePass? ==> a.input.now >= t.now)
  }

  ghost function Noted(w: StoreWorld, a: StoreAction, asked: map<int, Time>): map<int, Time>
    requires a.StorePass? && Applicable(w, a)
  {
    if exists id, j :: AsksPd(w, a, id, j) then
      var id, j :| AsksPd(w, a, id, j);
      asked[id := a.input.now]
    else asked
  }

  ghost function TimedStep(t: Timed, a: StoreAction): Timed
    requires Applicable(t.w, a)
  {
    if a.StorePass? then Timed(StoreStep(t.w, a), Noted(t.w, a, t.asked), a.input.now)
    else t.(w := StoreStep(t.w, a))
  }

  /** PD was asked about every store under eviction. */
  ghost predicate AllAsked(t: Timed) {
    forall id :: id in t.w.store.evicting ==> id in t.asked && t.asked[id] <= t.now
  }

  /** Store `id` on ordinal i is under eviction and its pod is annotated. */
  ghost predicate StampedEviction(w: StoreWorld, id: int, i: int) {
    && id in w.store.evicting && Registered(w.registry, id, i)
    && i in w.store.pods && w.store.pods[i].evictBegin.Some?
  }

  /** The annotation holds the time of the call to PD in whole seconds. */
  ghost predicate StampsTell(t: Timed) {
    forall id, i :: StampedEviction(t.w, id, i) ==> id in t.asked && StampTells(t, id, i)
  }

  ghost predicate StampTells(t: Timed, id: int, i: int)
    requires i in t.w.store.pods && id in t.asked
  {
    t.w.store.pods[i].evictBegin == Some(At(t.asked[id] - t.asked[id] % 1_000_000_000))
  }

  ghost predicate TimedSafe(t: Timed) {
    StoreSafe(t.w) && AllAsked(t) && StampsTell(t)
  }

  lemma NotedExact(w: StoreWorld, a: StoreAction, asked: map<int, Time>)
    requires RegistryOk(w.registry) && a.StorePass? && Applicable(w, a)
    ensures forall id, j :: AsksPd(w, a, id, j) ==> Noted(w, a, asked) == asked[id := a.input.now]
    ensures (forall id, j :: !AsksPd(w, a, id, j)) ==> Noted(w, a, asked) == asked
  {
    forall id, j | AsksPd(w, a, id, j)
      ensures Noted(w, a, asked) == asked[id := a.input.now]
    {
      forall id', j' | AsksPd(w, a, id', j')
        ensures id' == id
      {
        AsksOnce(w, a, id, j, id', j');
      }
    }
  }

  lemma NotedOther(w: StoreWorld, a: StoreAction, asked: map<int, Time>, id: int)
    requires RegistryOk(w.registry) && a.StorePass? && Applicable(w, a)
    requires forall b, j :: AsksPd(w, a, b, j) ==> b != id
    ensures id in asked ==> id in Noted(w, a, asked) && Noted(w, a, asked)[id] == asked[id]
  {
    NotedExact(w, a, asked);
  }

  /** A stamped eviction that PD is not asked about again was so before the pass, with the same stamp. */
  lemma StampFromBefore(w: StoreWorld, a: StoreAction, id: int, i: int)
    requires StoreSafe(w) && a.StorePass? && PassEnabled(w, a)
    requires StampedEviction(StoreStep(w, a), id, i) && !AsksPd(w, a, id, i)
    ensures StampedEviction(w, id, i) && w.store.pods[i].evictBegin == StoreStep(w, a).store.pods[i].evictBegin
    ensures forall b, j :: AsksPd(w, a, b, j) ==> b != id
  {
    PassStamps(w, a);
    PassEvicts(w, a);
    forall b, j | AsksPd(w, a, b, j)
      ensures b == id ==> j == i
      ensures j == i ==> b == id
    {
      assert Registered(w.registry, b, j);
    }
    assert AnnotatedIfEvicted(w) && EvictedOn(w, i);
  }

  lemma TimedPassKeepsStamps(t: Timed, a: StoreAction)
    requires TimedSafe(t) && TimedEnabled(t, a) && a.StorePass?
    ensures StampsTell(TimedStep(t, a))
  {
    var after := TimedStep(t, a);
    forall id, i | StampedEviction(after.w, id, i)
      ensures id in after.asked && StampTells(after, id, i)
    {
      if AsksPd(t.w, a, id, i) {
        NotedExact(t.w, a, t.asked);
        PassStamps(t.w, a);
      } else {
        StampFromBefore(t.w, a, id, i);
        NotedOther(t.w, a, t.asked, id);
      }
    }
  }

  lemma TimedPassKeepsSafe(t: Timed, a: StoreAction)
    requires TimedSafe(t) && TimedEnabled(t, a) && a.StorePass?
    ensures TimedSafe(TimedStep(t, a))
  {
    PassKeepsSafe(t.w, a);
    PassEvicts(t.w, a);
    NotedExact(t.w, a, t.asked);
    TimedPassKeepsStamps(t, a);
  }

  /** Other steps annotate no pod, put no store under eviction and leave those that are on their pods. */
  lemma OtherStepStamps(w: StoreWorld, a: StoreAction, id: int, i: int)
    requires StoreSafe(w) && StoreEnabled(w, a) && !a.StorePass?
    requires StampedEviction(StoreStep(w, a), id, i)
    ensures StampedEviction(w, id, i) && w.store.pods[i].evictBegin == StoreStep(w, a).store.pods[i].evictBegin
  {
    var at :| EvictedAt(w, id, at);
    assert Registered(StoreStep(w, a).registry, id, at);
    assert at == i;
  }

  lemma TimedStepKeepsSafe(t: Timed, a: StoreAction)
    requires TimedSafe(t) && TimedEnabled(t, a)
    ensures TimedSafe(TimedStep(t, a))
  {
    if a.StorePass? {
      TimedPassKeepsSafe(t, a);
    } else {
      StepKeepsSafe(t.w, a);
      var after := TimedStep(t, a);
      assert after.w.store.evicting == t.w.store.evicting;
      forall id, i | StampedEviction(after.w, id, i)
        ensures id in after.asked && StampTells(after, id, i)
      {
        OtherStepStamps(t.w, a, id, i);
      }
    }
  }

  ghost predicate TimedRun(t: Timed, run: seq<StoreAction>)
    decreases |run|
  {
    run != [] ==> TimedEnabled(t, run[0]) && TimedRun(TimedStep(t, run[0]), run[1..])
  }

  ghost function TimedAfter(t: Timed, run: seq<StoreAction>): Timed
    requires TimedRun(t, run)
    decreases |run|
  {
    if run == [] then t else TimedAfter(TimedStep(t, run[0]), run[1..])
  }

  lemma {:induction false} TimedRunSafe(t: Timed, run: seq<StoreAction>)
    requires TimedSafe(t) && TimedRun(t, run)
    ensures TimedSafe(TimedAfter(t, run))
    decreases |run|
  {
    if run != [] {
      TimedStepKeepsSafe(t, run[0]);
      TimedRunSafe(TimedStep(t, run[0]), run[1..]);
    }
  }

  /** Every ordinary start of an upgrade will do, whatever was asked before. */
  lemma EpochStartIsTimedSafe(t: Timed)
    requires EpochStart(t.w)
    ensures TimedSafe(t)
  {
    EpochStartIsSafe(t.w);
  }

  // ---------------------------------------------------------------------------------------------
  // The wait
  // ---------------------------------------------------------------------------------------------

  /** PD lists the store of ordinal i as leading something. */
  ghost predicate Leads(w: StoreWorld, i: int) {
    exists k :: EntryOf(w.registry, k, i) && w.registry[k].stats.value.leaders != 0
  }

  /** PD was asked to evict the leaders of store `id` more than three minutes before, whole seconds counted. */
  predicate Waited(t: Timed, id: int, now: Time) {
    id in t.asked && now > t.asked[id] - t.asked[id] % 1_000_000_000 + 180_000_000_000
  }

  /** A store with leaders may be rolled exactly when its eviction stands, its pod carries the stamp, and the wait
      is over. */
  lemma WaitIsOver(t: Timed, i: int, now: Time)
    requires TimedSafe(t) && Leads(t.w, i)
    ensures DrainedOrTimedOut(t.w, i, now) <==> exists id :: StampedEviction(t.w, id, i) && Waited(t, id, now)
  {
    var k :| EntryOf(t.w.registry, k, i) && t.w.registry[k].stats.value.leaders != 0;
    assert forall j :: EntryOf(t.w.registry, j, i) ==> j == k;
    assert Reports(t.w.registry, k, t.w.registry[k].id);
    assert Tracked(t.w.registry, i) by {
      assert Registered(t.w.registry, t.w.registry[k].id, i);
    }
    if t.w.store.pods[i].evictBegin.Some? {
      assert EvictedOn(t.w, i);
      var id :| id in t.w.store.evicting && Registered(t.w.registry, id, i);
      assert StampedEviction(t.w, id, i) && StampTells(t, id, i);
      assert forall b :: StampedEviction(t.w, b, i) ==> b == id;
    }
  }

  /** In every run: a pass that opens the pod of a store with leaders comes more than three minutes after PD was
      asked to evict them, in an eviction that still stands. */
  lemma LeadersAreWaitedFor(start: Timed, run: seq<StoreAction>, a: StoreAction, i: int)
    requires TimedSafe(start) && TimedRun(start, run) && a.StorePass? && TimedEnabled(TimedAfter(start, run), a)
    requires var w := TimedAfter(start, run).w; Leads(w, i) && !OpenToRoll(w, i) && OpenToRoll(StoreStep(w, a), i)
    ensures var t := TimedAfter(start, run);
            exists id ::
              && id in t.w.store.evicting && Registered(t.w.registry, id, i) && id in t.asked
              && a.input.now > t.asked[id] - t.asked[id] % 1_000_000_000 + 180_000_000_000
  {
    TimedRunSafe(start, run);
    var t := TimedAfter(start, run);
    GuardedDescent(t.w, a, i);
    WaitIsOver(t, i, a.input.now);
    var id :| StampedEviction(t.w, id, i) && Waited(t, id, a.input.now);
  }

  /** And exactly then: a pass of an upgrade moves the partition to the pod of a store with leaders if and only if
      no fault keeps it from its write, the pod is the highest with a store off the revision the status names, no
      store above stops the descent, and its standing eviction, with its stamp, has lasted that long. */
  lemma WaitExact(start: Timed, run: seq<StoreAction>, a: StoreAction, i: int)
    requires TimedSafe(start) && TimedRun(start, run) && a.StorePass? && TimedEnabled(TimedAfter(start, run), a)
    requires var w := TimedAfter(start, run).w; Leads(w, i) && Rolling(w, a) && i != w.store.ss.spec.partition
    ensures var t := TimedAfter(start, run);
            var update := t.w.store.ss.status.updateRevision;
            StoreStep(t.w, a).store.ss.spec.partition == i
            <==> && Undisturbed(a) && HighestOff(t.w, i, update) && NothingStops(t.w, a, i)
                 && (exists id ::
                       && StampedEviction(t.w, id, i) && id in t.asked
                       && a.input.now > t.asked[id] - t.asked[id] % 1_000_000_000 + 180_000_000_000)
  {
    TimedRunSafe(start, run);
    var t := TimedAfter(start, run);
    PartitionMovesExactly(t.w, a, i);
    WaitIsOver(t, i, a.input.now);
    assert LeadsTo(t.w, a, i)
           <==> && HighestOff(t.w, i, t.w.store.ss.status.updateRevision) && NothingStops(t.w, a, i)
                && DrainedOrTimedOut(t.w, i, a.input.now);
    assert forall id :: Waited(t, id, a.input.now) <==>
             (id in t.asked && a.input.now > t.asked[id] - t.asked[id] % 1_000_000_000 + 180_000_000_000);
  }

  /** A pass begins an eviction and no call fails; the next pass finds the leaders still there and is kept from its
      write by no fault. It rolls the pod exactly when more than three minutes have gone by since the first pass,
      whole seconds counted. */
  lemma NextPassExact(t: Timed, first: StoreAction, second: StoreAction, id: int, j: int)
    requires TimedSafe(t) && first.StorePass? && TimedEnabled(t, first)
    requires AsksPd(t.w, first, id, j) && Delivers(j, id, first.input)
    requires var w := StoreStep(t.w, first);
             && second.StorePass? && PassEnabled(w, second) && second.input.now >= first.input.now
             && Rolling(w, second) && Undisturbed(second) && j != w.store.ss.spec.partition
             && HighestOff(w, j, w.store.ss.status.updateRevision) && NothingStops(w, second, j)
    ensures var b := first.input.now;
            StoreStep(StoreStep(t.w, first), second).store.ss.spec.partition == j
            <==> second.input.now > b - b % 1_000_000_000 + 180_000_000_000
  {
    PassStamps(t.w, first);
    PassEvicts(t.w, first);
    NotedExact(t.w, first, t.asked);
    TimedStepKeepsSafe(t, first);
    var v := TimedStep(t, first);
    assert StampedEviction(v.w, id, j);
    assert Leads(v.w, j) by {
      assert Registered(t.w.registry, id, j);
      var k :| Reports(t.w.registry, k, id) && t.w.registry[k].pod == PodName(StoreTier, j);
      assert EntryOf(v.w.registry, k, j);
    }
    WaitIsOver(v, j, second.input.now);
    PartitionMovesExactly(v.w, second, j);
    assert forall b :: StampedEviction(v.w, b, j) ==> b == id;
  }
}
