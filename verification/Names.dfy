/** The printed names of pods and volume claims, and the functions that read ordinals back from them. */
module Names {
  import opened Kube
  import opened Strings
  import Scheduler

  const MAX_INT32 := 0x7fff_ffff
  const MIN_INT32 := -0x8000_0000
  const MAX_INT64 := 0x7fff_ffff_ffff_ffff

  // ---------------------------------------------------------------------------------------------
  // Numbers
  // ---------------------------------------------------------------------------------------------

  predicate IsDigit(c: char) {
    '0' <= c <= '9'
  }

  predicate AllDigits(s: string) {
    forall k :: 0 <= k < |s| ==> IsDigit(s[k])
  }

  function Digits(n: nat): (s: string)
    ensures s != "" && AllDigits(s)
  {
    var last := ['0' + (n % 10) as char];
    if n < 10 then last else Digits(n / 10) + last
  }

  function ValueOf(s: string): nat
    requires AllDigits(s)
  {
    if s == "" then 0 else ValueOf(s[..|s| - 1]) * 10 + (s[|s| - 1] - '0') as int
  }

  lemma {:induction false} DigitsRoundTrip(n: nat)
    ensures ValueOf(Digits(n)) == n
  {
    if n < 10 {
      assert Digits(n)[..0] == "";
    } else {
      DigitsRoundTrip(n / 10);
      assert Digits(n)[..|Digits(n)| - 1] == Digits(n / 10);
    }
  }

  /** The %d verb. */
  function Itoa(n: int): string {
    if n < 0 then "-" + Digits(-n) else Digits(n)
  }

  /** strconv.Atoi on 64-bit integers; None is its error. */
  function Atoi(s: string): Option<int> {
    var signed := s != "" && (s[0] == '-' || s[0] == '+');
    var digits := if signed then s[1..] else s;
    if digits == "" || !AllDigits(digits) then None
    else
      var n: int := if signed && s[0] == '-' then 0 - ValueOf(digits) else ValueOf(digits);
      if -MAX_INT64 - 1 <= n <= MAX_INT64 then Some(n) else None
  }

  lemma AtoiOfDigits(n: nat)
    requires n <= MAX_INT64
    ensures Atoi(Digits(n)) == Some(n)
  {
    DigitsRoundTrip(n);
    assert IsDigit(Digits(n)[0]);
  }

  /** The conversion to int32 keeps the low 32 bits. */
  function ToInt32(n: int): int {
    (n - MIN_INT32) % 0x1_0000_0000 + MIN_INT32
  }

  lemma ToInt32Exact(n: int)
    requires 0 <= n <= MAX_INT32 + 1
    ensures ToInt32(n) == if n <= MAX_INT32 then n else MIN_INT32
  {
  }

  // ---------------------------------------------------------------------------------------------
  // Names
  // ---------------------------------------------------------------------------------------------

  function TierName(tier: Tier): string {
    match tier
    case PdTier => "pd"
    case StoreTier => "store"
    case ProxyTier => "proxy"
  }

  /** The name of a tier's StatefulSet. */
  function MemberName(cluster: string, tier: Tier): string {
    cluster + ['-'] + TierName(tier)
  }

  /** pdPodName, storePodName and proxyPodName. */
  function PrintPodName(cluster: string, tier: Tier, ordinal: int): string {
    MemberName(cluster, tier) + ['-'] + Itoa(ordinal)
  }

  function OrdinalPvcName(tier: Tier, setName: string, ordinal: int): string {
    TierName(tier) + ['-'] + setName + ['-'] + Itoa(ordinal)
  }

  /** The printed numbers have no sign unless negative, and no leading zero unless zero. */
  lemma {:induction false} DigitsLead(n: nat)
    ensures n > 0 ==> Digits(n)[0] != '0'
    ensures Digits(0) == "0"
  {
    if n >= 10 {
      DigitsLead(n / 10);
    }
  }

  /** Appending in one go or with the dashes apart. */
  lemma Spelled(a: string, tier: string, d: string)
    ensures a + ['-'] + tier + ['-'] + d == a + (['-'] + tier + ['-']) + d
  {
  }

  lemma TiersSpelled()
    ensures ['-'] + TierName(PdTier) + ['-'] == "-pd-"
    ensures ['-'] + TierName(StoreTier) + ['-'] == "-store-"
    ensures ['-'] + TierName(ProxyTier) + ['-'] == "-proxy-"
    ensures TierName(StoreTier) + ['-'] == "store-"
  {
  }

  /** The names as they are printed: the cluster, the tier and the ordinal, with dashes between. */
  lemma PodNamesSpelled(cluster: string, n: nat)
    ensures PrintPodName(cluster, PdTier, n) == cluster + "-pd-" + Digits(n)
    ensures PrintPodName(cluster, StoreTier, n) == cluster + "-store-" + Digits(n)
    ensures PrintPodName(cluster, ProxyTier, n) == cluster + "-proxy-" + Digits(n)
  {
    TiersSpelled();
    Spelled(cluster, TierName(PdTier), Digits(n));
    Spelled(cluster, TierName(StoreTier), Digits(n));
    Spelled(cluster, TierName(ProxyTier), Digits(n));
  }

  /** The name of a store's claim has the tier once more in front. */
  lemma PvcNameSpelled(setName: string, n: nat)
    ensures OrdinalPvcName(StoreTier, setName, n) == "store-" + setName + ['-'] + Digits(n)
  {
    TiersSpelled();
  }

  /** strings.LastIndex for one character; -1 when there is none. */
  function LastIndex(s: string, c: char): (i: int)
    ensures -1 <= i < |s|
    ensures i >= 0 ==> s[i] == c
    ensures forall k :: i < k < |s| ==> s[k] != c
  {
    if s == "" then -1 else if s[|s| - 1] == c then |s| - 1 else LastIndex(s[..|s| - 1], c)
  }

  function GetOrdinalFromPodName(podName: string): Option<int> {
    match Atoi(podName[LastIndex(podName, '-') + 1..])
    case None => None
    case Some(n) => Some(ToInt32(n))
  }

  /** The source panics when the name holds no dash. */
  function GetNextOrdinalPodName(podName: string, ordinal: int): string
    requires '-' in podName
  {
    podName[..LastIndex(podName, '-')] + ['-'] + Itoa(ToInt32(ordinal + 1))
  }

  lemma LastIndexAt(a: string, b: string)
    requires '-' !in b
    ensures var s := a + ['-'] + b; LastIndex(s, '-') == |a| && s[..|a|] == a && s[|a| + 1..] == b
  {
    var s := a + ['-'] + b;
    assert s[|a|] == '-' && s[|a| + 1..] == b;
    assert forall k :: |a| < k < |s| ==> s[k] == b[k - |a| - 1];
  }

  /** A text and a dash-free part after a dash are read back from their joining. */
  lemma DashInjective(a: string, b: string, c: string, d: string)
    requires '-' !in b && '-' !in d
    ensures a + ['-'] + b == c + ['-'] + d <==> a == c && b == d
  {
    LastIndexAt(a, b);
    LastIndexAt(c, d);
  }

  lemma DashFree(n: nat)
    ensures '-' !in Digits(n)
  {
  }

  /** Reading the number after the last dash. */
  lemma OrdinalAfterDash(prefix: string, n: nat)
    requires n <= MAX_INT64
    ensures GetOrdinalFromPodName(prefix + ['-'] + Digits(n)) == Some(ToInt32(n))
  {
    DashFree(n);
    LastIndexAt(prefix, Digits(n));
    AtoiOfDigits(n);
  }

  lemma MinusIsDash(prefix: string, n: int)
    requires n < 0
    ensures prefix + ['-'] + Itoa(n) == (prefix + ['-']) + ['-'] + Digits(-n)
  {
  }

  /** Over the whole int32 range, the ordinal read back from a printed pod name is the printed one exactly
      when it is not negative, or is the smallest int32: a negative number's sign is taken for the dash. */
  lemma OrdinalRoundTrip(cluster: string, tier: Tier, ordinal: int)
    requires MIN_INT32 <= ordinal <= MAX_INT32
    ensures GetOrdinalFromPodName(PrintPodName(cluster, tier, ordinal)) == Some(ordinal)
        <==> ordinal >= 0 || ordinal == MIN_INT32
  {
    if ordinal >= 0 {
      OrdinalAfterDash(MemberName(cluster, tier), ordinal);
      ToInt32Exact(ordinal);
    } else {
      NegativeLosesSign(MemberName(cluster, tier), ordinal);
      ToInt32Exact(-ordinal);
    }
  }

  /** What is read back of a negative ordinal. */
  lemma NegativeLosesSign(prefix: string, ordinal: int)
    requires MIN_INT32 <= ordinal < 0
    ensures GetOrdinalFromPodName(prefix + ['-'] + Itoa(ordinal)) == Some(ToInt32(-ordinal))
  {
    MinusIsDash(prefix, ordinal);
    OrdinalOfName(prefix + ['-'] + Itoa(ordinal), prefix + ['-'], -ordinal);
  }

  lemma OrdinalOfName(name: string, prefix: string, n: nat)
    requires name == prefix + ['-'] + Digits(n) && n <= MAX_INT64
    ensures GetOrdinalFromPodName(name) == Some(ToInt32(n))
  {
    OrdinalAfterDash(prefix, n);
  }

  lemma DigitsInjective(i: nat, j: nat)
    ensures Digits(i) == Digits(j) <==> i == j
  {
    DigitsRoundTrip(i);
    DigitsRoundTrip(j);
  }

  lemma TierNamesDiffer(s: Tier, t: Tier)
    ensures TierName(s) == TierName(t) <==> s == t
    ensures '-' !in TierName(s)
  {
    assert TierName(s)[1] == (if s.PdTier? then 'd' else if s.StoreTier? then 't' else 'r');
    assert TierName(t)[1] == (if t.PdTier? then 'd' else if t.StoreTier? then 't' else 'r');
  }

  lemma MemberNamesInjective(a: string, s: Tier, b: string, t: Tier)
    ensures MemberName(a, s) == MemberName(b, t) <==> a == b && s == t
  {
    TierNamesDiffer(s, t);
    TierNamesDiffer(t, s);
    DashInjective(a, TierName(s), b, TierName(t));
  }

  /** Equal pod names of ordinals that are not negative have equal clusters, tiers and ordinals: names are
      injective, and the three families disjoint. */
  lemma PodNamesInjective(a: string, s: Tier, i: nat, b: string, t: Tier, j: nat)
    ensures PrintPodName(a, s, i) == PrintPodName(b, t, j) <==> a == b && s == t && i == j
  {
    MemberNamesInjective(a, s, b, t);
    DashFree(i);
    DashFree(j);
    DashInjective(MemberName(a, s), Digits(i), MemberName(b, t), Digits(j));
    DigitsInjective(i, j);
  }

  /** The next name is the printed name of the next ordinal exactly below the largest int32. */
  lemma NextNameExact(cluster: string, tier: Tier, ordinal: nat)
    requires ordinal <= MAX_INT32
    ensures var name := PrintPodName(cluster, tier, ordinal);
            && '-' in name
            && (GetNextOrdinalPodName(name, ordinal) == PrintPodName(cluster, tier, ordinal + 1)
              <==> ordinal < MAX_INT32)
  {
    var name, setName := PrintPodName(cluster, tier, ordinal), MemberName(cluster, tier);
    DashFree(ordinal);
    LastIndexAt(setName, Digits(ordinal));
    assert name[|setName|] == '-';
    ToInt32Exact(ordinal + 1);
    var next, wrapped := ordinal + 1, ToInt32(ordinal + 1);
    AfterDash(setName, Itoa(next));
    AfterDash(setName, Itoa(wrapped));
    assert wrapped < 0 ==> Itoa(wrapped)[0] == '-';
    assert IsDigit(Itoa(next)[0]);
  }

  lemma AfterDash(prefix: string, rest: string)
    ensures (prefix + ['-'] + rest)[|prefix| + 1..] == rest
  {
  }

  /** The claim whose lock the scheduler takes for a pod is the claim the scaler marks and deletes. */
  lemma SchedulerAndScalerAgree(cluster: string, tier: Tier, ordinal: int)
    ensures Scheduler.PvcName(TierName(tier), PrintPodName(cluster, tier, ordinal))
         == OrdinalPvcName(tier, MemberName(cluster, tier), ordinal)
  {
    assert "-" == ['-'];
  }

  /** Claims of different pods have different names. */
  lemma PvcNamesInjective(a: string, s: Tier, i: nat, b: string, t: Tier, j: nat)
    ensures OrdinalPvcName(s, MemberName(a, s), i) == OrdinalPvcName(t, MemberName(b, t), j)
        <==> a == b && s == t && i == j
  {
    var x, y := TierName(s) + ['-'] + a, TierName(t) + ['-'] + b;
    DashFree(i);
    DashFree(j);
    assert TierName(s) + ['-'] + MemberName(a, s) == x + ['-'] + TierName(s);
    assert TierName(t) + ['-'] + MemberName(b, t) == y + ['-'] + TierName(t);
    DashInjective(x + ['-'] + TierName(s), Digits(i), y + ['-'] + TierName(t), Digits(j));
    DigitsInjective(i, j);
    TierNamesDiffer(s, t);
    TierNamesDiffer(t, s);
    DashInjective(x, TierName(s), y, TierName(t));
    AfterDash(TierName(s), a);
    AfterDash(TierName(t), b);
  }
}
