/** The three-phase drain protocol of one server (pkg/drainer/drainer.go), and what a pass of the
    reconcile loop does to one drain record. */
module Draining {
  import opened Common

  datatype Phase = Cordon | Drain | Decommission | Forced | Finished

  datatype Record = Record(phase: Phase, activeSessions: int, enteredAt: int, lastCheckedAt: int, forcedDeadline: int)

  datatype DrainConfig = DrainConfig(timeout: int, interval: int, forceTime: int)

  /** The session query's outcome, chosen by the environment. */
  datatype Answer = QueryError | Sessions(count: int)

  function Started(cfg: DrainConfig, now: int): Record {
    Record(Cordon, 0, now, now, now + cfg.forceTime)
  }

  /** A record rebuilt from a pod label after a restart: its deadline is the zero time. */
  function Recovered(now: int): Record {
    Record(Drain, 0, now, now, ZERO_TIME)
  }

  predicate Overdue(cfg: DrainConfig, r: Record, now: int) {
    cfg.forceTime > 0 && now > r.forcedDeadline
  }

  /** The record after Advance. */
  function Advanced(cfg: DrainConfig, r: Record, now: int, a: Answer): Record {
    match r.phase
    case Cordon => r.(phase := Drain, lastCheckedAt := now)
    case Drain =>
      if Overdue(cfg, r, now) then r.(phase := Forced)
      else if a.QueryError? then r
      else if a.count == 0 && now - r.enteredAt >= cfg.timeout then
        r.(phase := Decommission, activeSessions := a.count, lastCheckedAt := now)
      else r.(activeSessions := a.count, lastCheckedAt := now)
    case Decommission => r.(phase := Finished)
    case Forced => r.(phase := Finished)
    case Finished => r
  }

  /** Advance's boolean result: the caller should delete the pod. */
  predicate Ready(cfg: DrainConfig, r: Record, now: int, a: Answer) {
    match r.phase
    case Cordon => false
    case Drain => Overdue(cfg, r, now) || (a == Sessions(0) && now - r.enteredAt >= cfg.timeout)
    case Decommission => true
    case Forced => true
    case Finished => false
  }

  predicate Fails(cfg: DrainConfig, r: Record, now: int, a: Answer) {
    r.phase == Drain && !Overdue(cfg, r, now) && a.QueryError?
  }

  predicate DueForCheck(cfg: DrainConfig, r: Record, now: int) {
    r.phase == Drain && now - r.lastCheckedAt >= cfg.interval
  }

  class ServerState {
    const name: string
    var phase: Phase
    var activeSessions: int
    var enteredAt: int
    var lastCheckedAt: int
    var forcedDeadline: int

    function Value(): Record
      reads this
    {
      Record(phase, activeSessions, enteredAt, lastCheckedAt, forcedDeadline)
    }

    constructor (name: string, phase: Phase, now: int, forcedDeadline: int)
      ensures this.name == name && Value() == Record(phase, 0, now, now, forcedDeadline)
    {
      this.name, this.phase, this.forcedDeadline := name, phase, forcedDeadline;
      activeSessions, enteredAt, lastCheckedAt := 0, now, now;
    }
  }

  class Drainer {
    const config: DrainConfig

    constructor (timeoutSeconds: int, intervalSeconds: int, forceAfterSeconds: int)
      ensures config == DrainConfig(timeoutSeconds * SECOND, intervalSeconds * SECOND, forceAfterSeconds * SECOND)
    {
      config := DrainConfig(timeoutSeconds * SECOND, intervalSeconds * SECOND, forceAfterSeconds * SECOND);
    }

    method StartDrain(name: string, now: int) returns (s: ServerState)
      ensures fresh(s) && s.name == name && s.Value() == Started(config, now)
    {
      s := new ServerState(name, Cordon, now, now + config.forceTime);
    }

    method Advance(s: ServerState, now: int, answer: Answer) returns (ready: bool, failed: bool)
      modifies s
      ensures s.Value() == Advanced(config, old(s.Value()), now, answer)
      ensures ready == Ready(config, old(s.Value()), now, answer)
      ensures failed == Fails(config, old(s.Value()), now, answer)
    {
      ready, failed := false, false;
      match s.phase {
        case Cordon =>
          s.phase := Drain;
          s.lastCheckedAt := now;
        case Drain =>
          if config.forceTime > 0 && now > s.forcedDeadline {
            s.phase := Forced;
            return true, false;
          }
          if answer.QueryError? {
            return false, true;
          }
          s.activeSessions := answer.count;
          s.lastCheckedAt := now;
          if answer.count == 0 {
            if now - s.enteredAt >= config.timeout {
              s.phase := Decommission;
              return true, false;
            }
          }
        case Decommission =>
          s.phase := Finished;
          ready := true;
        case Forced =>
          s.phase := Finished;
          ready := true;
        case Finished =>
      }
    }

    method ShouldCheck(s: ServerState, now: int) returns (due: bool)
      ensures due == DueForCheck(config, s.Value(), now)
    {
      if s.phase != Drain {
        return false;
      }
      return now - s.lastCheckedAt >= config.interval;
    }
  }

  // ---------------------------------------------------------------- one record, one pass

  /** The gate of advanceDraining. */
  predicate Visits(cfg: DrainConfig, r: Record, now: int) {
    DueForCheck(cfg, r, now) || r.phase == Cordon
  }

  function AfterPass(cfg: DrainConfig, r: Record, now: int, a: Answer): Record {
    if Visits(cfg, r, now) then Advanced(cfg, r, now, a) else r
  }

  /** The pass asks the cluster to delete the record's pod. */
  predicate RequestsDelete(cfg: DrainConfig, r: Record, now: int, a: Answer) {
    Visits(cfg, r, now) && Ready(cfg, r, now, a)
  }

  // ---------------------------------------------------------------- one record, many passes

  datatype Pass = Pass(now: int, answer: Answer, deleteOk: bool)

  /** The record before pass k; None once its pod has been deleted. */
  ghost function RecordBefore(cfg: DrainConfig, r: Record, ps: seq<Pass>, k: nat): Option<Record>
    requires k <= |ps|
  {
    if k == 0 then Some(r)
    else
      var was, p := RecordBefore(cfg, r, ps, k - 1), ps[k - 1];
      if was.None? || (RequestsDelete(cfg, was.value, p.now, p.answer) && p.deleteOk) then None
      else Some(AfterPass(cfg, was.value, p.now, p.answer))
  }

  ghost predicate RequestsAt(cfg: DrainConfig, r: Record, ps: seq<Pass>, k: nat)
    requires k < |ps|
  {
    var was := RecordBefore(cfg, r, ps, k);
    was.Some? && RequestsDelete(cfg, was.value, ps[k].now, ps[k].answer)
  }

  function PhaseIndex(p: Phase): nat {
    match p
    case Cordon => 0
    case Drain => 1
    case Decommission => 2
    case Forced => 2
    case Finished => 3
  }

  /** Entry time and deadline are fixed when the record is made; the phase never goes back. */
  lemma {:induction false} RecordHistory(cfg: DrainConfig, r: Record, ps: seq<Pass>, j: nat, k: nat)
    requires j <= k <= |ps| && RecordBefore(cfg, r, ps, k).Some?
    ensures RecordBefore(cfg, r, ps, j).Some?
    ensures var early, late := RecordBefore(cfg, r, ps, j).value, RecordBefore(cfg, r, ps, k).value;
            && PhaseIndex(early.phase) <= PhaseIndex(late.phase)
            && late.enteredAt == early.enteredAt && late.forcedDeadline == early.forcedDeadline
    decreases k
  {
    if j < k {
      RecordHistory(cfg, r, ps, j, k - 1);
    }
  }

  /** Drain safety: for a record started at s, deletion is requested only after a query that
      returned zero sessions and the minimum drain time, or after the force deadline. */
  lemma DeleteOnlyWhenSafe(cfg: DrainConfig, s: int, ps: seq<Pass>, k: nat)
    requires k < |ps| && RequestsAt(cfg, Started(cfg, s), ps, k)
    ensures (ps[k].answer == Sessions(0) && ps[k].now - s >= cfg.timeout)
            || (cfg.forceTime > 0 && ps[k].now > s + cfg.forceTime)
  {
    RecordHistory(cfg, Started(cfg, s), ps, 0, k);
  }

  /** Once deletion has been requested the record is never visited again: at most one request per
      record, and a deletion that failed is not retried by any later pass. */
  lemma {:induction false} NoSecondRequest(cfg: DrainConfig, r: Record, ps: seq<Pass>, j: nat, k: nat)
    requires j < k <= |ps| && RequestsAt(cfg, r, ps, j) && PhaseIndex(r.phase) <= 1
    ensures ps[j].deleteOk ==> RecordBefore(cfg, r, ps, k).None?
    ensures !ps[j].deleteOk ==>
              RecordBefore(cfg, r, ps, k) == RecordBefore(cfg, r, ps, j + 1) && RecordBefore(cfg, r, ps, k).Some?
    ensures k < |ps| ==> !RequestsAt(cfg, r, ps, k)
    decreases k
  {
    if k > j + 1 {
      NoSecondRequest(cfg, r, ps, j, k - 1);
    }
    var was := RecordBefore(cfg, r, ps, j).value;
    assert was.phase == Drain;
  }

  /** Passes in time order, never more than gap apart. */
  ghost predicate Regular(ps: seq<Pass>, gap: int) {
    forall i | 0 <= i < |ps| - 1 :: ps[i].now <= ps[i + 1].now <= ps[i].now + gap
  }

  /** The latest instant at which an unforced check can have happened: the force deadline, or the
      cordon pass if that comes later. */
  function LastUnforced(cfg: DrainConfig, s: int, ps: seq<Pass>): int
    requires ps != []
  {
    Max(s + cfg.forceTime, ps[0].now)
  }

  lemma {:induction false} StillDraining(cfg: DrainConfig, s: int, ps: seq<Pass>, k: nat)
    requires 1 <= k <= |ps| && cfg.forceTime > 0
    requires forall i | 0 <= i < k :: !RequestsAt(cfg, Started(cfg, s), ps, i)
    ensures var r := RecordBefore(cfg, Started(cfg, s), ps, k);
            && r.Some? && r.value.phase == Drain && r.value.forcedDeadline == s + cfg.forceTime
            && r.value.lastCheckedAt <= LastUnforced(cfg, s, ps)
    decreases k
  {
    if k > 1 {
      StillDraining(cfg, s, ps, k - 1);
      assert !RequestsAt(cfg, Started(cfg, s), ps, k - 1);
    } else {
      assert RecordBefore(cfg, Started(cfg, s), ps, 0) == Some(Started(cfg, s));
      assert !RequestsAt(cfg, Started(cfg, s), ps, 0);
    }
  }

  /** Drain deadline: with a force time set, whatever the session queries answer, deletion is
      requested no later than one polling interval and one pass gap after the force deadline
      (or after the cordon pass, if that came later). */
  lemma {:induction false} DeleteRequestedInTime(cfg: DrainConfig, s: int, ps: seq<Pass>, gap: int) returns (k: nat)
    requires cfg.forceTime > 0 && ps != [] && Regular(ps, gap)
    requires ps[|ps| - 1].now > LastUnforced(cfg, s, ps) + Max(0, cfg.interval)
    ensures k < |ps| && RequestsAt(cfg, Started(cfg, s), ps, k)
    ensures ps[k].now <= LastUnforced(cfg, s, ps) + Max(0, cfg.interval) + gap
  {
    var limit := LastUnforced(cfg, s, ps) + Max(0, cfg.interval);
    k := 0;
    while ps[k].now <= limit && !RequestsAt(cfg, Started(cfg, s), ps, k)
      invariant k < |ps| && (k > 0 ==> ps[k - 1].now <= limit)
      invariant forall i | 0 <= i < k :: !RequestsAt(cfg, Started(cfg, s), ps, i)
      decreases |ps| - k
    {
      k := k + 1;
    }
    if !RequestsAt(cfg, Started(cfg, s), ps, k) {
      StillDraining(cfg, s, ps, k);
    }
  }

  /** One visit in numbers: deletion is asked for exactly when an interval has passed since the last
      check and either the deadline is over, or no session is left and the minimum time has passed. */
  lemma RequestIff(cfg: DrainConfig, r: Record, now: int, a: Answer)
    ensures RequestsDelete(cfg, r, now, a) <==>
            r.phase == Drain && now - r.lastCheckedAt >= cfg.interval &&
            ((cfg.forceTime > 0 && now > r.forcedDeadline) || (a == Sessions(0) && now - r.enteredAt >= cfg.timeout))
  {
  }

  /** Advance reports a failure exactly when it made a query, which it does in the drain phase up to
      the deadline, and the query failed; it then leaves the record as it was. */
  lemma FailsIff(cfg: DrainConfig, r: Record, now: int, a: Answer)
    ensures Fails(cfg, r, now, a) <==>
            r.phase == Drain && !(cfg.forceTime > 0 && now > r.forcedDeadline) && a == QueryError
    ensures Fails(cfg, r, now, a) ==> Advanced(cfg, r, now, a) == r && !Ready(cfg, r, now, a)
  {
  }

  /** So a failed query does not postpone the next one: the record stays due. */
  lemma FailedQueryIsRetried(cfg: DrainConfig, r: Record, now: int, later: int)
    requires DueForCheck(cfg, r, now) && !Overdue(cfg, r, now) && now <= later
    ensures AfterPass(cfg, r, now, QueryError) == r && DueForCheck(cfg, AfterPass(cfg, r, now, QueryError), later)
  {
  }

  /** Past its request a record has one step left, which says ready once more. */
  lemma FinishedOnce(cfg: DrainConfig, r: Record, now: int, a: Answer)
    requires r.phase == Decommission || r.phase == Forced || r.phase == Finished
    ensures Advanced(cfg, r, now, a) == r.(phase := Finished)
    ensures Ready(cfg, r, now, a) <==> r.phase != Finished
  {
  }

  /** When a record started at s was last checked before pass k: at its start, at its cordon pass, or
      at the last pass that came an interval or more after the previous check, not after the force
      deadline, and got an answer. */
  ghost function CheckTime(cfg: DrainConfig, s: int, ps: seq<Pass>, k: nat): int
    requires k <= |ps|
  {
    if k == 0 then s
    else if k == 1 then ps[0].now
    else if Answered(cfg, s, ps[k - 1], CheckTime(cfg, s, ps, k - 1)) then ps[k - 1].now
    else CheckTime(cfg, s, ps, k - 1)
  }

  /** The sessions that the last answered check found. */
  ghost function LastCount(cfg: DrainConfig, s: int, ps: seq<Pass>, k: nat): int
    requires k <= |ps|
  {
    if k <= 1 then 0
    else if Answered(cfg, s, ps[k - 1], CheckTime(cfg, s, ps, k - 1)) then ps[k - 1].answer.count
    else LastCount(cfg, s, ps, k - 1)
  }

  predicate Answered(cfg: DrainConfig, s: int, p: Pass, lastCheck: int) {
    && p.now - lastCheck >= cfg.interval
    && !(cfg.forceTime > 0 && p.now > s + cfg.forceTime)
    && p.answer.Sessions?
  }

  /** The first pass cordons; from then on deletion is asked for by the first pass that comes an
      interval after the last check and finds the deadline over, or no session left after the minimum
      time. Up to that pass the record is its own history. */
  lemma {:induction false} RecordIsHistory(cfg: DrainConfig, s: int, ps: seq<Pass>, k: nat)
    requires k <= |ps| && forall i | 0 <= i < k :: !RequestsAt(cfg, Started(cfg, s), ps, i)
    ensures RecordBefore(cfg, Started(cfg, s), ps, k) ==
            Some(Record(if k == 0 then Cordon else Drain, LastCount(cfg, s, ps, k), s, CheckTime(cfg, s, ps, k),
                        s + cfg.forceTime))
    ensures k < |ps| ==>
              var now := ps[k].now;
              RequestsAt(cfg, Started(cfg, s), ps, k) <==>
              k > 0 && now - CheckTime(cfg, s, ps, k) >= cfg.interval &&
              ((cfg.forceTime > 0 && now > s + cfg.forceTime) || (ps[k].answer == Sessions(0) && now - s >= cfg.timeout))
    decreases k
  {
    if k > 0 {
      RecordIsHistory(cfg, s, ps, k - 1);
      assert !RequestsAt(cfg, Started(cfg, s), ps, k - 1);
    }
  }

  /** A request whose deletion failed leaves the record forced if its deadline was over, else
      decommissioned. */
  lemma RequestedRecord(cfg: DrainConfig, r: Record, now: int, a: Answer)
    requires RequestsDelete(cfg, r, now, a)
    ensures AfterPass(cfg, r, now, a).phase ==
            if cfg.forceTime > 0 && now > r.forcedDeadline then Forced else Decommission
  {
  }

  // ---------------------------------------------------------------- what the protocol does not promise

  /** Deletion without a zero-session answer happens exactly when a due check finds the record past
      its deadline: the documented "never kill a pod with active players" holds only short of that. */
  lemma KillsWithoutZeroIff(cfg: DrainConfig, r: Record, now: int, a: Answer)
    requires r.phase == Cordon || r.phase == Drain
    ensures a != Sessions(0) ==>
              (RequestsDelete(cfg, r, now, a) <==> DueForCheck(cfg, r, now) && Overdue(cfg, r, now))
    ensures (forall b | RequestsDelete(cfg, r, now, b) :: b == Sessions(0)) <==>
            !(DueForCheck(cfg, r, now) && Overdue(cfg, r, now))
  {
    assert RequestsDelete(cfg, r, now, Sessions(1)) <==> DueForCheck(cfg, r, now) && Overdue(cfg, r, now);
  }

  /** Without a force time, and as long as no query answers zero, deletion is never requested. */
  lemma TimeoutIsNoDeadline(cfg: DrainConfig, s: int, ps: seq<Pass>, k: nat)
    requires cfg.forceTime <= 0 && k < |ps|
    requires forall i | 0 <= i < |ps| :: ps[i].answer != Sessions(0)
    ensures !RequestsAt(cfg, Started(cfg, s), ps, k)
  {
    if RequestsAt(cfg, Started(cfg, s), ps, k) {
      DeleteOnlyWhenSafe(cfg, s, ps, k);
    }
  }

  /** Pass k finds the record still there and due for a check. */
  ghost predicate ChecksAt(cfg: DrainConfig, r: Record, ps: seq<Pass>, k: nat)
    requires k < |ps|
  {
    var was := RecordBefore(cfg, r, ps, k);
    was.Some? && DueForCheck(cfg, was.value, ps[k].now)
  }

  ghost predicate NotBefore(s: int, ps: seq<Pass>) {
    forall i | 0 <= i < |ps| :: s <= ps[i].now
  }

  /** The timeout is the documented maximum wait: every check later than that asks for deletion,
      whatever the session query answers. */
  ghost predicate TimeoutIsMaximum(cfg: DrainConfig, s: int) {
    forall ps: seq<Pass>, k: nat | k < |ps| && NotBefore(s, ps) && ChecksAt(cfg, Started(cfg, s), ps, k) &&
                                   ps[k].now > s + cfg.timeout ::
      RequestsAt(cfg, Started(cfg, s), ps, k)
  }

  lemma {:induction false} ChecksAreSpaced(cfg: DrainConfig, s: int, ps: seq<Pass>, k: nat)
    requires k <= |ps| && NotBefore(s, ps) && RecordBefore(cfg, Started(cfg, s), ps, k).Some?
    ensures RecordBefore(cfg, Started(cfg, s), ps, k).value.lastCheckedAt >= s
    decreases k
  {
    if k > 0 {
      ChecksAreSpaced(cfg, s, ps, k - 1);
    }
  }

  lemma LateCheckIsForced(cfg: DrainConfig, s: int, ps: seq<Pass>, k: nat)
    requires cfg.forceTime > 0 && (cfg.forceTime <= cfg.timeout || cfg.forceTime < cfg.interval)
    requires k < |ps| && NotBefore(s, ps) && ChecksAt(cfg, Started(cfg, s), ps, k) && ps[k].now > s + cfg.timeout
    ensures RequestsAt(cfg, Started(cfg, s), ps, k)
  {
    ChecksAreSpaced(cfg, s, ps, k);
    RecordHistory(cfg, Started(cfg, s), ps, 0, k);
  }

  lemma LateCheckLeaves(cfg: DrainConfig, s: int) returns (ps: seq<Pass>)
    requires !(cfg.forceTime > 0 && (cfg.forceTime <= cfg.timeout || cfg.forceTime < cfg.interval))
    ensures |ps| == 2 && NotBefore(s, ps) && ps[1].now > s + cfg.timeout
    ensures ChecksAt(cfg, Started(cfg, s), ps, 1) && !RequestsAt(cfg, Started(cfg, s), ps, 1)
  {
    var late := s + Max(0, Max(cfg.timeout + 1, cfg.interval));
    ps := [Pass(s, Sessions(1), true), Pass(late, Sessions(1), true)];
    var start := Started(cfg, s);
    assert RecordBefore(cfg, start, ps, 0) == Some(start);
    assert RecordBefore(cfg, start, ps, 1) == Some(start.(phase := Drain));
  }

  /** The drain timeout is the longest wait exactly when a force time is set that is no longer than
      it, or shorter than the interval between checks. */
  lemma TimeoutIsMaximumIff(cfg: DrainConfig, s: int)
    ensures TimeoutIsMaximum(cfg, s) <==>
            cfg.forceTime > 0 && (cfg.forceTime <= cfg.timeout || cfg.forceTime < cfg.interval)
  {
    if cfg.forceTime > 0 && (cfg.forceTime <= cfg.timeout || cfg.forceTime < cfg.interval) {
      forall ps: seq<Pass>, k: nat | k < |ps| && NotBefore(s, ps) && ChecksAt(cfg, Started(cfg, s), ps, k) &&
                                     ps[k].now > s + cfg.timeout
        ensures RequestsAt(cfg, Started(cfg, s), ps, k)
      {
        LateCheckIsForced(cfg, s, ps, k);
      }
    } else {
      var ps := LateCheckLeaves(cfg, s);
    }
  }

  /** A match of seven players, ten minutes' timeout, forced after half an hour. */
  lemma ActivePlayersKilled()
    ensures var cfg := DrainConfig(600 * SECOND, 30 * SECOND, 1800 * SECOND);
            var ps := [Pass(115 * SECOND, Sessions(7), true), Pass(1901 * SECOND, Sessions(7), true)];
            RequestsAt(cfg, Started(cfg, 100 * SECOND), ps, 1)
  {
    var cfg := DrainConfig(600 * SECOND, 30 * SECOND, 1800 * SECOND);
    var ps := [Pass(115 * SECOND, Sessions(7), true), Pass(1901 * SECOND, Sessions(7), true)];
    var start := Started(cfg, 100 * SECOND);
    assert RecordBefore(cfg, start, ps, 0) == Some(start);
    assert RecordBefore(cfg, start, ps, 1) == Some(Record(Drain, 0, 100 * SECOND, 115 * SECOND, 1900 * SECOND));
  }

  /** A record recovered after a restart has no deadline of its own: with a force time set, its
      first due check requests deletion whatever the sessions are. */
  lemma RecoveredIsForcedAtOnce(cfg: DrainConfig, at: int, now: int, a: Answer)
    requires at <= now && ZERO_TIME < now
    ensures cfg.forceTime > 0 ==> (RequestsDelete(cfg, Recovered(at), now, a) <==> now - at >= cfg.interval)
    ensures cfg.forceTime <= 0 ==> (RequestsDelete(cfg, Recovered(at), now, a) <==>
                                      now - at >= cfg.interval && a == Sessions(0) && now - at >= cfg.timeout)
  {
  }
}
