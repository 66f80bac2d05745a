/** The CellCluster object in the API server, its version-checked updates, and the operator's status
    writer, which retries on a version conflict. */
module CellClusters {
  import opened Kube

  /** The parts of a CellCluster that discovery and the status writer touch. */
  datatype CellCluster = CellCluster(pdReplicas: int, peerUrl: string, peerRpc: string, status: string)

  /** What the object has been, oldest first; the version of an object is its position. */
  type History = h: seq<CellCluster> | h != [] witness [CellCluster(0, "", "", "")]

  /** An object as somebody holds it: the version it was read at, and its content since edited. */
  datatype Snapshot = Snapshot(version: nat, cc: CellCluster)

  datatype Reply = Done | Conflict | NotReported

  function Current(h: History): CellCluster {
    h[|h| - 1]
  }

  /** The API server refuses an update that is not made from the latest version. */
  function Updated(h: History, update: Snapshot, outcome: Outcome): (History, Reply) {
    if update.version + 1 != |h| then (h, if outcome.Reported() then Conflict else NotReported)
    else (if outcome.TookEffect() then h + [update.cc] else h, if outcome.Reported() then Done else NotReported)
  }

  /** The object in the API server. */
  class ApiServer {
    var history: History

    constructor (history: History)
      ensures this.history == history
    {
      this.history := history;
    }

    /** Versions written by other clients. */
    method OthersWrite(versions: seq<CellCluster>)
      modifies this
      ensures history == old(history) + versions
    {
      history := history + versions;
    }

    method Update(update: Snapshot, outcome: Outcome) returns (reply: Reply)
      modifies this
      ensures (history, reply) == Updated(old(history), update, outcome)
    {
      if update.version + 1 != |history| {
        return if outcome.Reported() then Conflict else NotReported;
      }
      if outcome.TookEffect() {
        history := history + [update.cc];
      }
      reply := if outcome.Reported() then Done else NotReported;
    }
  }

  // ---------------------------------------------------------------------------------------------
  // The status writer
  // ---------------------------------------------------------------------------------------------

  /** The number of steps of the default retry. */
  const STEPS := 5

  /** One attempt: what others wrote before it, its fate, and the version the lister then holds, if it
      holds one. The lister may lag. */
  datatype Attempt = Attempt(others: seq<CellCluster>, outcome: Outcome, listed: Option<nat>)

  function Relisted(h: History, held: Snapshot, status: string, listed: Option<nat>): Snapshot {
    if listed.Some? && listed.value < |h| then Snapshot(listed.value, h[listed.value].(status := status)) else held
  }

  /** UpdateCellCluster from the next attempt on; the flag says whether it returns without an error. */
  function Retried(h: History, held: Snapshot, status: string, script: seq<Attempt>): (History, bool)
    decreases |script|
  {
    if script == [] then (h, false)
    else
      var (h1, reply) := Updated(h + script[0].others, held, script[0].outcome);
      match reply
      case Done => (h1, true)
      case NotReported => (h1, false)
      case Conflict => Retried(h1, Relisted(h1, held, status, script[0].listed), status, script[1..])
  }

  method UpdateCellCluster(api: ApiServer, cc: Snapshot, script: seq<Attempt>) returns (ok: bool)
    requires |script| == STEPS
    modifies api
    ensures (api.history, ok) == Retried(old(api.history), cc, cc.cc.status, script)
  {
    var status := cc.cc.status;
    var held := cc;
    for k := 0 to STEPS
      invariant Retried(old(api.history), cc, status, script) == Retried(api.history, held, status, script[k..])
    {
      assert script[k..][0] == script[k] && script[k..][1..] == script[k + 1..];
      api.OthersWrite(script[k].others);
      var reply := api.Update(held, script[k].outcome);
      if reply.Done? {
        return true;
      }
      if reply.NotReported? {
        return false;
      }
      held := Relisted(api.history, held, status, script[k].listed);
    }
    ok := false;
  }

  /** The versions others wrote during these attempts. */
  function OthersWrote(script: seq<Attempt>): seq<CellCluster> {
    if script == [] then [] else script[0].others + OthersWrote(script[1..])
  }

  /** The writer holds some version of the object, with the status it wants to write. */
  ghost predicate Holding(h: History, held: Snapshot, status: string) {
    held.version < |h| && held.cc == h[held.version].(status := status)
  }

  /** However stale the versions it held, all the writer ever adds is one version that differs from the
      one right before it in the status alone; it adds that version if it returns without an error. */
  lemma {:induction false} RetryIsStatusPatch(h: History, held: Snapshot, status: string, script: seq<Attempt>)
    returns (k: nat)
    requires Holding(h, held, status)
    ensures k <= |script|
    ensures var before: History := h + OthersWrote(script[..k]);
            var (after, ok) := Retried(h, held, status, script);
            && (after == before || after == before + [Current(before).(status := status)])
            && (ok ==> after == before + [Current(before).(status := status)])
    decreases |script|
  {
    if script == [] {
      k := 0;
    } else {
      var h0: History := h + script[0].others;
      var (h1, reply) := Updated(h0, held, script[0].outcome);
      if reply.Conflict? {
        var next := Relisted(h1, held, status, script[0].listed);
        assert Holding(h1, next, status);
        var m := RetryIsStatusPatch(h1, next, status, script[1..]);
        k := m + 1;
        assert script[..k][0] == script[0] && script[..k][1..] == script[1..][..m];
        assert h + OthersWrote(script[..k]) == h1 + OthersWrote(script[1..][..m]);
      } else {
        k := 1;
        assert script[..1][1..] == [];
        assert h + OthersWrote(script[..1]) == h0;
      }
    }
  }

  // ---------------------------------------------------------------------------------------------
  // When a retry succeeds
  // ---------------------------------------------------------------------------------------------

  /** Somebody writes just before the attempt, and the refusal is reported. */
  predicate Busy(a: Attempt) {
    a.others != [] && a.outcome.Reported()
  }

  /** Nobody writes before the attempt, and it is delivered. */
  predicate Quiet(a: Attempt) {
    a.others == [] && a.outcome == Delivered
  }

  /** While somebody writes before every attempt the writer adds nothing and fails. */
  lemma {:induction false} BusyFails(h: History, held: Snapshot, status: string, script: seq<Attempt>)
    requires Holding(h, held, status) && forall k :: 0 <= k < |script| ==> Busy(script[k])
    ensures Retried(h, held, status, script) == (h + OthersWrote(script), false)
    decreases |script|
  {
    if script != [] {
      var h1: History := h + script[0].others;
      var next := Relisted(h1, held, status, script[0].listed);
      assert Holding(h1, next, status);
      BusyFails(h1, next, status, script[1..]);
      assert h1 + OthersWrote(script[1..]) == h + OthersWrote(script);
    } else {
      assert h + OthersWrote(script) == h;
    }
  }

  /** The writer holds the latest version when it comes to attempt k after k refusals. */
  ghost predicate CaughtUp(h: History, held: Snapshot, script: seq<Attempt>, k: nat)
    requires k < |script|
  {
    if k == 0 then held.version == |h| - 1
    else script[k - 1].listed == Some(|h| + |OthersWrote(script[..k])| - 1)
  }

  /** After any number of busy attempts a quiet one succeeds, if the lister has caught up. */
  lemma {:induction false} QuietSucceeds(h: History, held: Snapshot, status: string, script: seq<Attempt>, k: nat)
    requires k < |script| && Holding(h, held, status) && CaughtUp(h, held, script, k)
    requires (forall i :: 0 <= i < k ==> Busy(script[i])) && Quiet(script[k])
    ensures var before: History := h + OthersWrote(script[..k]);
            Retried(h, held, status, script) == (before + [Current(before).(status := status)], true)
    decreases k
  {
    if k == 0 {
      assert h + OthersWrote(script[..0]) == h;
      assert h + script[0].others == h;
    } else {
      var h1: History := h + script[0].others;
      var next := Relisted(h1, held, status, script[0].listed);
      assert Holding(h1, next, status);
      assert script[..k][0] == script[0] && script[..k][1..] == script[1..][..k - 1];
      assert h + OthersWrote(script[..k]) == h1 + OthersWrote(script[1..][..k - 1]);
      assert |h| + |OthersWrote(script[..k])| == |h1| + |OthersWrote(script[1..][..k - 1])|;
      if k == 1 {
        assert OthersWrote(script[1..][..0]) == [];
      }
      QuietSucceeds(h1, next, status, script[1..], k - 1);
    }
  }

  /** There are five attempts: four busy ones are borne, five are not. */
  lemma FiveAttempts(h: History, held: Snapshot, status: string, script: seq<Attempt>)
    requires |script| == STEPS && Holding(h, held, status) && forall k :: 0 <= k < 4 ==> Busy(script[k])
    ensures Busy(script[4]) ==> !Retried(h, held, status, script).1
    ensures Quiet(script[4]) && CaughtUp(h, held, script, 4) ==> Retried(h, held, status, script).1
  {
    if Busy(script[4]) {
      forall k | 0 <= k < |script|
        ensures Busy(script[k])
      {
        assert k == 4 || k < 4;
      }
      BusyFails(h, held, status, script);
    }
    if Quiet(script[4]) && CaughtUp(h, held, script, 4) {
      QuietSucceeds(h, held, status, script, 4);
    }
  }
}
