/** The translation of a node selector into a Kubernetes affinity. */
module Affinity {
  import opened Kube
  import opened Strings

  /** The label's value is one of these. */
  datatype Requirement = In(key: string, values: seq<string>)

  /** The requirements of a term are ANDed. */
  datatype Preference = Preference(weight: int, exps: seq<Requirement>)

  datatype PodTerm = PodTerm(weight: int, antiLabels: map<string, string>, topologyKey: string, namespace: string)

  /** `term` is the one required node selector term. */
  datatype NodeAffinity = NodeAffinity(term: seq<Requirement>, preferred: seq<Preference>,
                                       podAnti: Option<seq<PodTerm>>)

  /** The topology keys. TopologyOfSource shows that the ones of the source satisfy Valid. */
  datatype Topology = Topology(region: string, zone: string, rack: string, hostname: string) {
    predicate Has(key: string) {
      key == region || key == zone || key == rack || key == hostname
    }

    function Weight(key: string): int
      requires Has(key)
    {
      if key == region then 10 else if key == zone then 20 else if key == rack then 40 else 80
    }

    function Weights(): map<string, int> {
      map[region := 10, zone := 20, rack := 40, hostname := 80]
    }

    ghost predicate Valid() {
      Ascending([hostname, rack, region, zone])
    }
  }

  // ---------------------------------------------------------------------------------------------
  // Sorted keys
  // ---------------------------------------------------------------------------------------------

  /** Lexicographic order. */
  predicate Le(a: string, b: string) {
    a == "" || (b != "" && (a[0] < b[0] || (a[0] == b[0] && Le(a[1..], b[1..]))))
  }

  lemma {:induction false} LeAntisymmetric(a: string, b: string)
    requires Le(a, b) && Le(b, a)
    ensures a == b
  {
    if a != "" {
      LeAntisymmetric(a[1..], b[1..]);
      assert a == [a[0]] + a[1..] && b == [b[0]] + b[1..];
    }
  }

  lemma {:induction false} LeTotal(a: string, b: string)
    ensures Le(a, b) || Le(b, a)
  {
    if a != "" && b != "" {
      LeTotal(a[1..], b[1..]);
    }
  }

  lemma {:induction false} LeTransitive(a: string, b: string, c: string)
    requires Le(a, b) && Le(b, c)
    ensures Le(a, c)
  {
    if a != "" && a[0] == b[0] == c[0] {
      LeTransitive(a[1..], b[1..], c[1..]);
    }
  }

  ghost predicate Ascending(keys: seq<string>) {
    forall i, j :: 0 <= i < j < |keys| ==> Le(keys[i], keys[j]) && keys[i] != keys[j]
  }

  function Insert(key: string, keys: seq<string>): seq<string> {
    if keys == [] || Le(key, keys[0]) then [key] + keys else [keys[0]] + Insert(key, keys[1..])
  }

  /** sort.Strings. */
  function Sort(keys: seq<string>): seq<string> {
    if keys == [] then [] else Insert(keys[0], Sort(keys[1..]))
  }

  lemma {:induction false} InsertAscends(key: string, keys: seq<string>)
    requires Ascending(keys) && key !in keys
    ensures Ascending(Insert(key, keys))
    ensures forall k :: k in Insert(key, keys) <==> k == key || k in keys
  {
    if keys != [] {
      if Le(key, keys[0]) {
        forall j | 0 <= j < |keys|
          ensures Le(key, keys[j]) && key != keys[j]
        {
          if j > 0 {
            LeTransitive(key, keys[0], keys[j]);
          }
        }
      } else {
        LeTotal(key, keys[0]);
        InsertAscends(key, keys[1..]);
        var rest := Insert(key, keys[1..]);
        assert keys == [keys[0]] + keys[1..];
        forall j | 0 <= j < |rest|
          ensures Le(keys[0], rest[j]) && keys[0] != rest[j]
        {
          assert rest[j] in rest;
          assert forall k :: k in keys[1..] ==> exists i :: 0 < i < |keys| && keys[i] == k;
        }
      }
    }
  }

  lemma {:induction false} SortAscends(keys: seq<string>)
    requires forall i, j :: 0 <= i < j < |keys| ==> keys[i] != keys[j]
    ensures Ascending(Sort(keys))
    ensures forall k :: k in Sort(keys) <==> k in keys
  {
    if keys != [] {
      SortAscends(keys[1..]);
      assert keys == [keys[0]] + keys[1..];
      assert keys[0] !in keys[1..];
      InsertAscends(keys[0], Sort(keys[1..]));
    }
  }

  /** Ascending lists with the same members are equal. */
  lemma {:induction false} AscendingUnique(a: seq<string>, b: seq<string>)
    requires Ascending(a) && Ascending(b)
    requires forall k :: k in a <==> k in b
    ensures a == b
  {
    if a == [] {
      assert forall j :: 0 <= j < |b| ==> b[j] in b;
    } else {
      assert a[0] in b && b != [] && b[0] in a;
      if a[0] != b[0] {
        LeAntisymmetric(a[0], b[0]);
      }
      assert a == [a[0]] + a[1..] && b == [b[0]] + b[1..];
      forall k
        ensures k in a[1..] <==> k in b[1..]
      {
        assert k in a[1..] <==> k in a && k != a[0];
        assert k in b[1..] <==> k in b && k != b[0];
      }
      AscendingUnique(a[1..], b[1..]);
    }
  }

  /** The sorted keys of a map do not depend on the order in which it is iterated. */
  lemma SortedKeysUnique<V>(order: seq<string>, other: seq<string>, m: map<string, V>)
    requires Lists(order, m) && Lists(other, m)
    ensures Sort(order) == Sort(other) && Lists(Sort(order), m)
  {
    SortAscends(order);
    SortAscends(other);
    AscendingUnique(Sort(order), Sort(other));
    assert forall k :: 0 <= k < |Sort(order)| ==> Sort(order)[k] in Sort(order);
  }

  method SortedKeys<V>(m: map<string, V>) returns (keys: seq<string>)
    ensures Lists(keys, m) && Ascending(keys) && forall order :: Lists(order, m) ==> keys == Sort(order)
  {
    keys := [];
    var rest := m.Keys;
    while rest != {}
      invariant Visited(keys, m, rest)
      decreases |rest|
    {
      var key := NextKey(rest);
      VisitNext(keys, m, rest, key);
      keys := keys + [key];
      rest := rest - {key};
    }
    forall order | Lists(order, m)
      ensures Sort(keys) == Sort(order)
    {
      SortedKeysUnique(keys, order, m);
    }
    SortedKeysUnique(keys, keys, m);
    SortAscends(keys);
    keys := Sort(keys);
  }

  // ---------------------------------------------------------------------------------------------
  // The translation
  // ---------------------------------------------------------------------------------------------

  function RequirementFor(selector: map<string, string>, key: string): Requirement
    requires key in selector
  {
    In(key, Split(selector[key], ','))
  }

  /** The keys every node must match: all when `required`, otherwise those with a value that are not
      topology keys. */
  predicate Hard(t: Topology, required: bool, selector: map<string, string>, key: string) {
    key in selector && (required || (selector[key] != "" && !t.Has(key)))
  }

  predicate Soft(t: Topology, required: bool, selector: map<string, string>, key: string) {
    key in selector && !required && selector[key] != "" && t.Has(key)
  }

  function HardTerm(t: Topology, required: bool, selector: map<string, string>, keys: seq<string>): seq<Requirement> {
    if keys == [] then []
    else
      var n := |keys| - 1;
      HardTerm(t, required, selector, keys[..n])
      + if Hard(t, required, selector, keys[n]) then [RequirementFor(selector, keys[n])] else []
  }

  function Preferences(t: Topology, required: bool, selector: map<string, string>, keys: seq<string>): seq<Preference> {
    if keys == [] then []
    else
      var n := |keys| - 1;
      Preferences(t, required, selector, keys[..n])
      + if Soft(t, required, selector, keys[n])
        then [Preference(t.Weight(keys[n]), [RequirementFor(selector, keys[n])])] else []
  }

  /** The anti-affinity terms, in the order of the sorted topology keys. */
  function AntiTerms(t: Topology, namespace: string, antiLabels: map<string, string>): seq<PodTerm> {
    [PodTerm(80, antiLabels, t.hostname, namespace), PodTerm(40, antiLabels, t.rack, namespace),
     PodTerm(10, antiLabels, t.region, namespace), PodTerm(20, antiLabels, t.zone, namespace)]
  }

  /** The anti-affinity terms: for each topology key one, with its weight, its labels and its namespace, in the order
      of the keys. */
  lemma AntiTermsExact(t: Topology, namespace: string, antiLabels: map<string, string>)
    requires t.Valid()
    ensures var terms := AntiTerms(t, namespace, antiLabels);
            && |terms| == 4
            && (forall j, k :: 0 <= j < k < |terms| ==> Le(terms[j].topologyKey, terms[k].topologyKey))
            && forall weight, key, labels, ns :: PodTerm(weight, labels, key, ns) in terms
                 <==> && labels == antiLabels && ns == namespace
                      && (|| (key == t.region && weight == 10) || (key == t.zone && weight == 20)
                          || (key == t.rack && weight == 40) || (key == t.hostname && weight == 80))
  {
    var terms := AntiTerms(t, namespace, antiLabels);
    assert terms[0].topologyKey == t.hostname && terms[1].topologyKey == t.rack;
    assert terms[2].topologyKey == t.region && terms[3].topologyKey == t.zone;
    var keys := [t.hostname, t.rack, t.region, t.zone];
    assert forall k :: 0 <= k < 4 ==> terms[k].topologyKey == keys[k];
  }

  lemma SortedTopology(t: Topology, keys: seq<string>)
    requires t.Valid() && Lists(keys, t.Weights()) && Ascending(keys)
    ensures keys == [t.hostname, t.rack, t.region, t.zone]
  {
    var sorted := [t.hostname, t.rack, t.region, t.zone];
    assert forall k :: k in t.Weights() <==> t.Has(k);
    forall k
      ensures k in keys <==> k in sorted
    {
      assert k in keys <==> t.Has(k);
      assert k in sorted <==> k == sorted[0] || k == sorted[1] || k == sorted[2] || k == sorted[3];
    }
    AscendingUnique(sorted, keys);
  }

  lemma TopologyOfSource()
    ensures Topology("region", "zone", "rack", "kubernetes.io/hostname").Valid()
  {
    var hostname, rack, region, zone := "kubernetes.io/hostname", "rack", "region", "zone";
    assert hostname[0] == 'k' && rack[0] == region[0] == 'r' && zone[0] == 'z';
    assert rack[1..][0] == 'a' && region[1..][0] == 'e';
    assert rack[1] != region[1];
    assert Le(hostname, rack) && Le(hostname, region) && Le(hostname, zone) && Le(rack, zone) && Le(region, zone);
    assert Le(rack, region);
  }

  method AntiAffinityForPod(t: Topology, namespace: string, antiLabels: map<string, string>)
    returns (terms: seq<PodTerm>)
    requires t.Valid()
    ensures terms == AntiTerms(t, namespace, antiLabels)
  {
    var weights := t.Weights();
    var keys := SortedKeys(weights);
    SortedTopology(t, keys);
    terms := [];
    for i := 0 to |keys|
      invariant |terms| == i
      invariant forall k :: 0 <= k < i ==> terms[k] == PodTerm(weights[keys[k]], antiLabels, keys[k], namespace)
    {
      terms := terms + [PodTerm(weights[keys[i]], antiLabels, keys[i], namespace)];
    }
    TermsInOrder(t, namespace, antiLabels, terms);
  }

  lemma TermsInOrder(t: Topology, namespace: string, antiLabels: map<string, string>, terms: seq<PodTerm>)
    requires t.Valid() && |terms| == 4
    requires var keys := [t.hostname, t.rack, t.region, t.zone];
             forall k :: 0 <= k < 4 ==> terms[k] == PodTerm(t.Weights()[keys[k]], antiLabels, keys[k], namespace)
    ensures terms == AntiTerms(t, namespace, antiLabels)
  {
    DistinctTopology(t);
    assert terms == [terms[0], terms[1], terms[2], terms[3]];
  }

  /** The loops over the sorted keys. */
  method TermsForKeys(t: Topology, required: bool, selector: map<string, string>, keys: seq<string>)
    returns (exps: seq<Requirement>, preferredTerms: seq<Preference>)
    requires Lists(keys, selector)
    ensures exps == HardTerm(t, required, selector, keys)
    ensures preferredTerms == Preferences(t, required, selector, keys)
  {
    exps, preferredTerms := [], [];
    for i := 0 to |keys|
      invariant exps == HardTerm(t, required, selector, keys[..i])
      invariant preferredTerms == Preferences(t, required, selector, keys[..i])
    {
      assert keys[..i + 1][..i] == keys[..i];
      var key := keys[i];
      if required {
        exps := exps + [In(key, Split(selector[key], ','))];
      } else if selector[key] != "" {
        var values := Split(selector[key], ',');
        if t.Has(key) {
          preferredTerms := preferredTerms + [Preference(t.Weight(key), [In(key, values)])];
        } else {
          exps := exps + [In(key, values)];
        }
      }
    }
    assert keys[..|keys|] == keys;
  }

  /** The result is the same for every order in which the selector is iterated. A selector that is nil
      gives no affinity. */
  method AffinityForNodeSelector(t: Topology, namespace: string, required: bool,
                                 antiLabels: Option<map<string, string>>,
                                 selector: Option<map<string, string>>) returns (affinity: Option<NodeAffinity>)
    requires t.Valid()
    ensures affinity.None? <==> selector.None?
    ensures selector.Some? ==> forall order :: Lists(order, selector.value) ==>
              && affinity.value.term == HardTerm(t, required, selector.value, Sort(order))
              && affinity.value.preferred == Preferences(t, required, selector.value, Sort(order))
    ensures selector.Some? ==>
              affinity.value.podAnti == if antiLabels.None? then None
                else Some(AntiTerms(t, namespace, antiLabels.value))
  {
    if selector.None? {
      return None;
    }
    var podAnti := None;
    if antiLabels.Some? {
      var terms := AntiAffinityForPod(t, namespace, antiLabels.value);
      podAnti := Some(terms);
    }
    var keys := SortedKeys(selector.value);
    var exps, preferredTerms := TermsForKeys(t, required, selector.value, keys);
    affinity := Some(NodeAffinity(exps, preferredTerms, podAnti));
  }

  // ---------------------------------------------------------------------------------------------
  // What the translation means for a node
  // ---------------------------------------------------------------------------------------------

  predicate Meets(labels: map<string, string>, exp: Requirement) {
    exp.key in labels && labels[exp.key] in exp.values
  }

  /** Kubernetes: a term without requirements matches no node. */
  predicate Matches(labels: map<string, string>, exps: seq<Requirement>) {
    exps != [] && forall k :: 0 <= k < |exps| ==> Meets(labels, exps[k])
  }

  /** The node's label for the key is one of the comma-separated values of the selector. */
  predicate InSelector(labels: map<string, string>, selector: map<string, string>, key: string) {
    key in selector && key in labels && labels[key] in Split(selector[key], ',')
  }

  lemma {:induction false} HardTermHolds(t: Topology, required: bool, selector: map<string, string>, keys: seq<string>)
    ensures forall k :: 0 <= k < |keys| && Hard(t, required, selector, keys[k]) ==>
              RequirementFor(selector, keys[k]) in HardTerm(t, required, selector, keys)
    ensures forall e :: e in HardTerm(t, required, selector, keys) ==>
              e.key in keys && Hard(t, required, selector, e.key) && e == RequirementFor(selector, e.key)
  {
    if keys != [] {
      HardTermHolds(t, required, selector, keys[..|keys| - 1]);
    }
  }

  function TermKeys(exps: seq<Requirement>): seq<string> {
    seq(|exps|, k requires 0 <= k < |exps| => exps[k].key)
  }

  /** The first key of each preference, which has just one. */
  function PreferredKeys(preferred: seq<Preference>): seq<string>
    requires forall k :: 0 <= k < |preferred| ==> preferred[k].exps != []
  {
    seq(|preferred|, k requires 0 <= k < |preferred| => preferred[k].exps[0].key)
  }

  /** A key above all others goes last. */
  lemma AscendingNext(front: seq<string>, keys: seq<string>)
    requires keys != [] && Ascending(keys) && Ascending(front)
    requires forall k :: 0 <= k < |front| ==> front[k] in keys[..|keys| - 1]
    ensures Ascending(front + [keys[|keys| - 1]])
    ensures forall k :: k in keys[..|keys| - 1] ==> k in keys
  {
    var n := |keys| - 1;
    forall k | 0 <= k < |front|
      ensures Le(front[k], keys[n]) && front[k] != keys[n]
    {
      var i :| 0 <= i < n && keys[i] == front[k];
    }
  }

  /** The requirements are listed in the order of their keys, each key once. */
  lemma {:induction false} TermAscends(t: Topology, required: bool, selector: map<string, string>, keys: seq<string>)
    requires Ascending(keys)
    ensures var listed := TermKeys(HardTerm(t, required, selector, keys));
            Ascending(listed) && forall k :: 0 <= k < |listed| ==> listed[k] in keys
  {
    if keys != [] {
      var n := |keys| - 1;
      TermAscends(t, required, selector, keys[..n]);
      var front, all := HardTerm(t, required, selector, keys[..n]), HardTerm(t, required, selector, keys);
      AscendingNext(TermKeys(front), keys);
      if Hard(t, required, selector, keys[n]) {
        assert TermKeys(all) == TermKeys(front) + [keys[n]];
      } else {
        assert all == front;
      }
    }
  }

  /** So are the preferences. */
  lemma {:induction false} PreferencesAscend(t: Topology, required: bool, selector: map<string, string>,
                                             keys: seq<string>)
    requires Ascending(keys)
    ensures var preferred := Preferences(t, required, selector, keys);
            && (forall k :: 0 <= k < |preferred| ==> |preferred[k].exps| == 1)
            && var listed := PreferredKeys(preferred);
               Ascending(listed) && forall k :: 0 <= k < |listed| ==> listed[k] in keys
  {
    if keys != [] {
      var n := |keys| - 1;
      PreferencesAscend(t, required, selector, keys[..n]);
      var front, all := Preferences(t, required, selector, keys[..n]), Preferences(t, required, selector, keys);
      AscendingNext(PreferredKeys(front), keys);
      if Soft(t, required, selector, keys[n]) {
        assert PreferredKeys(all) == PreferredKeys(front) + [keys[n]];
      } else {
        assert all == front;
      }
    }
  }

  /** A node must match the key: all keys are required, or it has a value and is no topology key. */
  predicate MustMatch(t: Topology, required: bool, value: string, key: string) {
    required || (value != "" && key != t.region && key != t.zone && key != t.rack && key != t.hostname)
  }

  /** The node term admits a node exactly when there is a hard key, and the node's label for every hard key
      is one of that key's values. Without a hard key, as for a selector of topology keys alone, it admits
      no node at all. */
  lemma TermAdmitsExactly(t: Topology, required: bool, selector: map<string, string>, order: seq<string>,
                          labels: map<string, string>)
    requires Lists(order, selector)
    ensures Matches(labels, HardTerm(t, required, selector, Sort(order)))
        <==> && (exists key :: key in selector && MustMatch(t, required, selector[key], key))
             && (forall key :: key in selector && MustMatch(t, required, selector[key], key) ==>
                   key in labels && labels[key] in Split(selector[key], ','))
  {
    assert forall key :: Hard(t, required, selector, key) <==>
             (key in selector && MustMatch(t, required, selector[key], key));
    assert forall key :: key in selector ==>
             (InSelector(labels, selector, key) <==> key in labels && labels[key] in Split(selector[key], ','));
    SortedKeysUnique(order, order, selector);
    var keys := Sort(order);
    var term := HardTerm(t, required, selector, keys);
    HardTermHolds(t, required, selector, keys);
    forall key | Hard(t, required, selector, key)
      ensures RequirementFor(selector, key) in term
    {
      assert key in keys;
    }
    if Matches(labels, term) {
      assert term[0] in term;
      forall key | Hard(t, required, selector, key)
        ensures InSelector(labels, selector, key)
      {
        var k :| 0 <= k < |term| && term[k] == RequirementFor(selector, key);
        assert Meets(labels, term[k]);
      }
    } else if term != [] {
      var k :| 0 <= k < |term| && !Meets(labels, term[k]);
      assert term[k] in term;
      assert !InSelector(labels, selector, term[k].key);
    }
  }

  /** The scheduler adds up the weights of the preferences a node matches. */
  function Score(labels: map<string, string>, preferred: seq<Preference>): int {
    if preferred == [] then 0
    else
      var last := preferred[|preferred| - 1];
      Score(labels, preferred[..|preferred| - 1]) + if Matches(labels, last.exps) then last.weight else 0
  }

  /** What one key of the selector adds for a node. */
  function Gain(t: Topology, required: bool, selector: map<string, string>, labels: map<string, string>,
                key: string): int
  {
    if Soft(t, required, selector, key) && InSelector(labels, selector, key) then t.Weight(key) else 0
  }

  lemma ScoreStep(t: Topology, required: bool, selector: map<string, string>, labels: map<string, string>,
                  keys: seq<string>)
    requires keys != []
    ensures Score(labels, Preferences(t, required, selector, keys))
         == Score(labels, Preferences(t, required, selector, keys[..|keys| - 1]))
            + Gain(t, required, selector, labels, keys[|keys| - 1])
  {
    var front, last := keys[..|keys| - 1], keys[|keys| - 1];
    var before, preferred := Preferences(t, required, selector, front), Preferences(t, required, selector, keys);
    if Soft(t, required, selector, last) {
      var exp := RequirementFor(selector, last);
      assert preferred == before + [Preference(t.Weight(last), [exp])];
      assert preferred[..|before|] == before;
      assert Matches(labels, [exp]) <==> Meets(labels, [exp][0]);
    } else {
      assert preferred == before;
    }
  }

  function GainIn(t: Topology, required: bool, selector: map<string, string>, labels: map<string, string>,
                  keys: seq<string>, key: string): int
  {
    if key in keys then Gain(t, required, selector, labels, key) else 0
  }

  lemma {:induction false} ScoreOfKeys(t: Topology, required: bool, selector: map<string, string>,
                                       labels: map<string, string>, keys: seq<string>)
    requires t.Valid() && forall j, k :: 0 <= j < k < |keys| ==> keys[j] != keys[k]
    ensures Score(labels, Preferences(t, required, selector, keys))
         == GainIn(t, required, selector, labels, keys, t.region) + GainIn(t, required, selector, labels, keys, t.zone)
            + GainIn(t, required, selector, labels, keys, t.rack)
            + GainIn(t, required, selector, labels, keys, t.hostname)
  {
    if keys != [] {
      var front, last := keys[..|keys| - 1], keys[|keys| - 1];
      ScoreOfKeys(t, required, selector, labels, front);
      ScoreStep(t, required, selector, labels, keys);
      DistinctTopology(t);
      assert keys == front + [last] && last !in front;
      assert forall k :: k in keys <==> k in front || k == last;
    }
  }

  lemma DistinctTopology(t: Topology)
    requires t.Valid()
    ensures t.region != t.zone && t.region != t.rack && t.zone != t.rack
    ensures t.hostname != t.region && t.hostname != t.zone && t.hostname != t.rack
  {
    var sorted := [t.hostname, t.rack, t.region, t.zone];
    assert sorted[0] != sorted[1] && sorted[0] != sorted[2] && sorted[0] != sorted[3];
    assert sorted[1] != sorted[2] && sorted[1] != sorted[3] && sorted[2] != sorted[3];
  }

  /** Topology keys with a value only rank nodes, unless all keys are required: a node scores the sum of the
      weights of the topology keys it matches, so a matched host name outranks all the others together. */
  lemma ScoreExact(t: Topology, required: bool, selector: map<string, string>, order: seq<string>,
                   labels: map<string, string>)
    requires t.Valid() && Lists(order, selector)
    ensures var score := Score(labels, Preferences(t, required, selector, Sort(order)));
            var counts := (key: string) =>
              && !required && key in selector && selector[key] != ""
              && key in labels && labels[key] in Split(selector[key], ',');
            && score == (if counts(t.region) then 10 else 0) + (if counts(t.zone) then 20 else 0)
                        + (if counts(t.rack) then 40 else 0) + (if counts(t.hostname) then 80 else 0)
            && (counts(t.hostname) <==> score > 70)
  {
    SortedKeysUnique(order, order, selector);
    var keys := Sort(order);
    ScoreOfKeys(t, required, selector, labels, keys);
    DistinctTopology(t);
    assert forall key :: Soft(t, required, selector, key) ==> key in keys;
  }
}
