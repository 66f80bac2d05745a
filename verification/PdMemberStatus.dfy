/** The PD part of the status sync: one entry per named member, with the time its health last changed. */
module PdMemberStatus {
  import opened Kube
  import opened Transitions

  /** One entry of PD's health report. */
  datatype MemberHealth = MemberHealth(name: string, id: int, clientUrls: seq<string>, health: bool)

  datatype PdMember = PdMember(name: string, id: int, clientUrl: string, health: bool, lastTransition: Option<Time>)

  function EntryFor(m: MemberHealth, previous: map<string, PdMember>, now: Time): PdMember {
    var since :=
      if m.name in previous && previous[m.name].health == m.health then previous[m.name].lastTransition else Some(now);
    PdMember(m.name, m.id, if m.clientUrls == [] then "" else m.clientUrls[0], m.health, since)
  }

  /** The new member map. Members without a name are skipped; a later entry overrides an earlier one. */
  function Members(healths: seq<MemberHealth>, previous: map<string, PdMember>, now: Time): map<string, PdMember> {
    if healths == [] then map[]
    else
      var n := |healths| - 1;
      if healths[n].name == "" then Members(healths[..n], previous, now)
      else Members(healths[..n], previous, now)[healths[n].name := EntryFor(healths[n], previous, now)]
  }

  method CollectMembers(healths: seq<MemberHealth>, previous: map<string, PdMember>, now: Time)
    returns (pdStatus: map<string, PdMember>)
    ensures pdStatus == Members(healths, previous, now)
  {
    pdStatus := map[];
    for k := 0 to |healths|
      invariant pdStatus == Members(healths[..k], previous, now)
    {
      assert healths[..k + 1][..k] == healths[..k];
      var m := healths[k];
      var clientUrl := "";
      if |m.clientUrls| > 0 {
        clientUrl := m.clientUrls[0];
      }
      if |m.name| == 0 {
        continue;
      }
      var status := PdMember(m.name, m.id, clientUrl, m.health, None);
      if m.name in previous {
        status := status.(lastTransition := previous[m.name].lastTransition);
      }
      if m.name !in previous || status.health != previous[m.name].health {
        status := status.(lastTransition := Some(now));
      }
      pdStatus := pdStatus[m.name := status];
    }
    assert healths[..|healths|] == healths;
  }

  /** The health reported for each named member. */
  function HealthOf(healths: seq<MemberHealth>): map<string, bool> {
    if healths == [] then map[]
    else
      var n := |healths| - 1;
      if healths[n].name == "" then HealthOf(healths[..n])
          else HealthOf(healths[..n])[healths[n].name := healths[n].health]
  }

  /** Entry k is the last one about the member. */
  ghost predicate ReportsLast(healths: seq<MemberHealth>, k: int, name: string) {
    0 <= k < |healths| && healths[k].name == name && forall j :: k < j < |healths| ==> healths[j].name != name
  }

  lemma {:induction false} HealthOfExact(healths: seq<MemberHealth>, name: string, health: bool)
    ensures name in HealthOf(healths) && HealthOf(healths)[name] == health
        <==> name != "" && exists k :: ReportsLast(healths, k, name) && healths[k].health == health
  {
    if healths != [] {
      var n := |healths| - 1;
      var front := healths[..n];
      HealthOfExact(front, name, health);
      if healths[n].name == name {
        assert ReportsLast(healths, n, name);
        assert forall k :: ReportsLast(healths, k, name) ==> k == n;
      } else {
        assert forall k :: ReportsLast(healths, k, name) <==> ReportsLast(front, k, name);
      }
    }
  }

  /** A member is listed under its name, with its identifier, its first client URL or none, and its health. */
  lemma {:induction false} MemberEntryExact(healths: seq<MemberHealth>, previous: map<string, PdMember>, now: Time,
                                            k: int)
    requires 0 <= k < |healths| && healths[k].name != "" && ReportsLast(healths, k, healths[k].name)
    ensures var m, members := healths[k], Members(healths, previous, now);
            && m.name in members && members[m.name].name == m.name && members[m.name].id == m.id
            && members[m.name].health == m.health
            && (if |m.clientUrls| > 0 then members[m.name].clientUrl == m.clientUrls[0]
              else members[m.name].clientUrl == "")
  {
    var n := |healths| - 1;
    if k < n {
      assert healths[..n][k] == healths[k] && healths[n].name != healths[k].name;
      assert ReportsLast(healths[..n], k, healths[k].name);
      MemberEntryExact(healths[..n], previous, now, k);
    }
  }

  function Standing(members: map<string, PdMember>): map<string, Entry<bool>> {
    map name | name in members :: Entry(members[name].health, members[name].lastTransition)
  }

  lemma {:induction false} MembersTrack(healths: seq<MemberHealth>, previous: map<string, PdMember>, now: Time)
    ensures Standing(Members(healths, previous, now)) == Tracked(HealthOf(healths), Standing(previous), now)
  {
    if healths != [] {
      var n := |healths| - 1;
      var front, last := healths[..n], healths[n];
      MembersTrack(front, previous, now);
      if last.name != "" {
        var member := EntryFor(last, previous, now);
        StandingUpdate(Members(front, previous, now), last.name, member);
        TrackedUpdate(HealthOf(front), last.name, last.health, Standing(previous), now);
        assert last.name in Standing(previous) <==> last.name in previous;
      }
    }
  }

  lemma StandingUpdate(members: map<string, PdMember>, name: string, member: PdMember)
    ensures Standing(members[name := member]) == Standing(members)[name := Entry(member.health, member.lastTransition)]
  {
  }

  /** One sync: PD's health report, None when one of its three calls failed, and the time. */
  datatype SyncEvent = SyncEvent(healths: Option<seq<MemberHealth>>, now: Time)

  function AfterHistory(h: seq<SyncEvent>): map<string, PdMember> {
    if h == [] then map[]
    else
      var before, last := AfterHistory(h[..|h| - 1]), h[|h| - 1];
      if last.healths.None? then before else Members(last.healths.value, before, last.now)
  }

  function Syncs(h: seq<SyncEvent>): seq<Sync<string, bool>> {
    seq(|h|, k requires 0 <= k < |h| =>
      Sync(if h[k].healths.None? then None else Some(HealthOf(h[k].healths.value)), h[k].now))
  }

  lemma {:induction false} HistoryTracks(h: seq<SyncEvent>)
    ensures Standing(AfterHistory(h)) == After(Syncs(h))
  {
    if h != [] {
      var front, e := h[..|h| - 1], h[|h| - 1];
      HistoryTracks(front);
      assert Syncs(h)[..|h| - 1] == Syncs(front);
      if e.healths.Some? {
        MembersTrack(e.healths.value, AfterHistory(front), e.now);
      }
    }
  }

  /** The last transition time of a member is the time of the latest successful sync in which it first
      appeared or changed health. */
  lemma MemberTransitionExact(h: seq<SyncEvent>, name: string)
    requires name in AfterHistory(h)
    ensures exists k :: LatestTransition(Syncs(h), k, name, AfterHistory(h)[name].health)
                        && AfterHistory(h)[name].lastTransition == Some(h[k].now)
  {
    HistoryTracks(h);
    assert name in Standing(AfterHistory(h));
    TransitionTimeExact(Syncs(h), name);
    var k :| LatestTransition(Syncs(h), k, name, After(Syncs(h))[name].state)
        && After(Syncs(h))[name].since == Some(Syncs(h)[k].now);
    assert LatestTransition(Syncs(h), k, name, AfterHistory(h)[name].health);
  }
}
