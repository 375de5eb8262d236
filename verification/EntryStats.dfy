/** Gate statistics: counts over the log, tied to the tickets. */
module EntryStats {
  import opened Admission
  import opened AdmissionSafety

  function Count(logs: seq<GateLog>, eventId: string, which: GateLog -> bool): nat {
    if logs == [] then 0
    else
      var last := logs[|logs| - 1];
      Count(logs[..|logs| - 1], eventId, which) + if last.eventId == eventId && which(last) then 1 else 0
  }

  datatype Stats = Stats(
    total: nat, success: nat, failed: nat, fallback: nat,
    strongMode: nat, normalMode: nat, offlineMode: nat, fallbackMode: nat)

  function StatsOf(logs: seq<GateLog>, eventId: string): Stats {
    Stats(
      Count(logs, eventId, (l: GateLog) => true),
      Count(logs, eventId, (l: GateLog) => l.result == SUCCESS),
      Count(logs, eventId, (l: GateLog) => l.result == FAILED),
      Count(logs, eventId, (l: GateLog) => l.result == VerificationResult.FALLBACK),
      Count(logs, eventId, (l: GateLog) => l.mode == STRONG),
      Count(logs, eventId, (l: GateLog) => l.mode == NORMAL),
      Count(logs, eventId, (l: GateLog) => l.mode == OFFLINE),
      Count(logs, eventId, (l: GateLog) => l.mode == VerificationMode.FALLBACK))
  }

  /** The event's log entries of a kind, by position. */
  ghost function Positions(logs: seq<GateLog>, eventId: string, which: GateLog -> bool): set<nat> {
    set i: nat | i < |logs| && logs[i].eventId == eventId && which(logs[i])
  }

  lemma {:induction false} CountIsNumber(logs: seq<GateLog>, eventId: string, which: GateLog -> bool)
    ensures Count(logs, eventId, which) == |Positions(logs, eventId, which)|
  {
    if logs == [] {
      assert Positions(logs, eventId, which) == {};
    } else {
      var n := |logs| - 1;
      CountIsNumber(logs[..n], eventId, which);
      var most := Positions(logs[..n], eventId, which);
      if logs[n].eventId == eventId && which(logs[n]) {
        assert Positions(logs, eventId, which) == most + {n};
      } else {
        assert Positions(logs, eventId, which) == most;
      }
    }
  }

  /** Each figure is the number of log entries of the event that its name says. */
  ghost predicate TrueStats(logs: seq<GateLog>, eventId: string, c: Stats) {
    && c.total == |Positions(logs, eventId, (l: GateLog) => true)|
    && c.success == |Positions(logs, eventId, (l: GateLog) => l.result == SUCCESS)|
    && c.failed == |Positions(logs, eventId, (l: GateLog) => l.result == FAILED)|
    && c.fallback == |Positions(logs, eventId, (l: GateLog) => l.result == VerificationResult.FALLBACK)|
    && c.strongMode == |Positions(logs, eventId, (l: GateLog) => l.mode == STRONG)|
    && c.normalMode == |Positions(logs, eventId, (l: GateLog) => l.mode == NORMAL)|
    && c.offlineMode == |Positions(logs, eventId, (l: GateLog) => l.mode == OFFLINE)|
    && c.fallbackMode == |Positions(logs, eventId, (l: GateLog) => l.mode == VerificationMode.FALLBACK)|
  }

  lemma StatsAreTrue(logs: seq<GateLog>, eventId: string)
    ensures TrueStats(logs, eventId, StatsOf(logs, eventId))
  {
    forall which: GateLog -> bool ensures Count(logs, eventId, which) == |Positions(logs, eventId, which)| {
      CountIsNumber(logs, eventId, which);
    }
  }

  lemma {:induction false} StatsAddUp(logs: seq<GateLog>, eventId: string)
    requires forall i :: 0 <= i < |logs| ==> logs[i].mode != OFFLINE
    ensures var c := StatsOf(logs, eventId);
      && c.total == c.success + c.failed + c.fallback
      && c.total == c.strongMode + c.normalMode + c.offlineMode + c.fallbackMode
      && c.offlineMode == 0
      && c.success + c.fallback == Count(logs, eventId, IsAdmission)
  {
    if logs != [] {
      StatsAddUp(logs[..|logs| - 1], eventId);
    }
  }

  ghost function UsedTickets(s: State, eventId: string): set<string> {
    set id | id in s.tickets && s.tickets[id].eventId == eventId && s.tickets[id].status == USED
  }

  ghost function LostLogs(s: State, eventId: string): set<string> {
    set id | id in s.tickets && s.tickets[id].eventId == eventId && LogLost(s, id)
  }

  /** The tickets of the event that were let in by an attempt that failed to write its log. */
  ghost function UnloggedEntries(p: Platform, actions: seq<Action>, eventId: string): set<string> {
    set id | id in Run(p, Initial(p), actions).tickets &&
             Run(p, Initial(p), actions).tickets[id].eventId == eventId && AdmissionWriteFailed(p, actions, id)
  }

  ghost function LoggedBefore(s: State, eventId: string, n: nat): set<string> {
    set id | id in s.admissions && s.admissions[id].Logged? && s.admissions[id].index < n &&
             KnownEvent(s, id, eventId)
  }

  lemma {:induction false} LogsCountTickets(s: State, eventId: string, n: nat)
    requires AdmissionsOk(s) && LogsOk(s) && n <= |s.logs|
    ensures Count(s.logs[..n], eventId, IsAdmission) == |LoggedBefore(s, eventId, n)|
  {
    if n == 0 {
      assert LoggedBefore(s, eventId, n) == {};
    } else {
      LogsCountTickets(s, eventId, n - 1);
      assert s.logs[..n][..n - 1] == s.logs[..n - 1];
      var log := s.logs[n - 1];
      assert LogOk(s, log);
      NextLogged(s, eventId, n);
    }
  }

  lemma NextLogged(s: State, eventId: string, n: nat)
    requires AdmissionsOk(s) && LogsOk(s) && 0 < n <= |s.logs|
    ensures var log := s.logs[n - 1]; var before := LoggedBefore(s, eventId, n - 1);
      if log.eventId == eventId && IsAdmission(log)
      then log.ticketId !in before && LoggedBefore(s, eventId, n) == before + {log.ticketId}
      else LoggedBefore(s, eventId, n) == before
  {
    assert LogOk(s, s.logs[n - 1]);
    forall id | id in LoggedBefore(s, eventId, n) && s.admissions[id].index == n - 1
      ensures id == s.logs[n - 1].ticketId && IsAdmission(s.logs[n - 1]) && s.logs[n - 1].eventId == eventId
    {
      assert RecordOk(s, id, s.admissions[id]);
    }
  }

  /** With no attempt in flight the counted admissions of an event are its USED tickets, less those whose log
      could not be written. */
  lemma StatsMatchTickets(p: Platform, actions: seq<Action>, eventId: string)
    requires Run(p, Initial(p), actions).attempts == map[]
    ensures var s := Run(p, Initial(p), actions); var c := StatsOf(s.logs, eventId);
      && c.total == c.success + c.failed + c.fallback
      && c.total == c.strongMode + c.normalMode + c.offlineMode + c.fallbackMode
      && c.offlineMode == 0
      && c.success + c.fallback + |UnloggedEntries(p, actions, eventId)| == |UsedTickets(s, eventId)|
  {
    RunKeepsSafe(p, actions);
    SafeStatsMatch(p, Run(p, Initial(p), actions), eventId);
    forall id: string ensures LogLost(Run(p, Initial(p), actions), id) <==> AdmissionWriteFailed(p, actions, id) {
      LostIffWriteFailed(p, actions, id);
    }
    assert UnloggedEntries(p, actions, eventId) == LostLogs(Run(p, Initial(p), actions), eventId);
  }

  lemma SafeStatsMatch(p: Platform, s: State, eventId: string)
    requires Safe(p, s) && s.attempts == map[]
    ensures var c := StatsOf(s.logs, eventId);
      && c.total == c.success + c.failed + c.fallback
      && c.total == c.strongMode + c.normalMode + c.offlineMode + c.fallbackMode
      && c.offlineMode == 0
      && c.success + c.fallback + |LostLogs(s, eventId)| == |UsedTickets(s, eventId)|
  {
    forall i | 0 <= i < |s.logs| ensures s.logs[i].mode != OFFLINE {
      assert LogOk(s, s.logs[i]);
    }
    StatsAddUp(s.logs, eventId);
    assert s.logs[..|s.logs|] == s.logs;
    LogsCountTickets(s, eventId, |s.logs|);
    var logged, lost := LoggedBefore(s, eventId, |s.logs|), LostLogs(s, eventId);
    UsedAreLoggedOrLost(s, eventId);
    assert logged !! lost;
  }

  lemma UsedAreLoggedOrLost(s: State, eventId: string)
    requires AdmissionsOk(s) && s.attempts == map[]
    ensures UsedTickets(s, eventId) == LoggedBefore(s, eventId, |s.logs|) + LostLogs(s, eventId)
  {
    forall id | id in s.admissions
      ensures s.admissions[id] == Lost || (s.admissions[id].Logged? && s.admissions[id].index < |s.logs|)
    {
      assert RecordOk(s, id, s.admissions[id]);
    }
  }

  /** Totals agree also while attempts are in flight. */
  lemma StatsAlwaysAddUp(p: Platform, actions: seq<Action>, eventId: string)
    ensures var c := StatsOf(Run(p, Initial(p), actions).logs, eventId);
      && c.total == c.success + c.failed + c.fallback
      && c.total == c.strongMode + c.normalMode + c.fallbackMode
  {
    RunKeepsSafe(p, actions);
    var s := Run(p, Initial(p), actions);
    forall i | 0 <= i < |s.logs| ensures s.logs[i].mode != OFFLINE {
      assert LogOk(s, s.logs[i]);
    }
    StatsAddUp(s.logs, eventId);
  }
}
