/** What every interleaving of ticketing and gate operations keeps: one admission per ticket, final states, matching logs. */
module AdmissionSafety {
  import opened Options
  import opened Admission

  // ---------------------------------------------------------------- tickets only move forward

  ghost predicate TicketOk(p: Platform, id: string, t: Ticket) {
    && (t.sbtTokenId.Some? <==> t.aaWalletAddress.Some?)
    && (HasToken(t) ==> t.sbtTokenId == Some(DeriveTokenId(p, id)))
    && (t.status == MINTED ==> HasToken(t))
    && (t.status == PREAUTHORIZED || t.status == PAID ==> !HasToken(t))
  }

  ghost predicate TicketsOk(p: Platform, s: State) {
    forall id :: id in s.tickets ==> TicketOk(p, id, s.tickets[id])
  }

  /** USED and REFUNDED are final, identity never changes, and a token once assigned stays assigned. */
  predicate Later(t: Ticket, u: Ticket) {
    && u.eventId == t.eventId && u.userId == t.userId
    && (t.status == USED || t.status == REFUNDED ==> u.status == t.status)
    && (HasToken(t) ==> u.sbtTokenId == t.sbtTokenId && u.aaWalletAddress == t.aaWalletAddress)
  }

  ghost predicate TicketsLater(s: State, s': State) {
    forall id :: id in s.tickets ==> id in s'.tickets && Later(s.tickets[id], s'.tickets[id])
  }

  // ---------------------------------------------------------------- attempts and logs

  ghost predicate KnownTicket(s: State, id: string, t: Ticket) {
    id in s.tickets && Later(t, s.tickets[id])
  }

  predicate KnownEvent(s: State, id: string, eventId: string) {
    id in s.tickets && s.tickets[id].eventId == eventId
  }

  ghost predicate LogOk(s: State, log: GateLog) {
    && log.mode != OFFLINE
    && (IsAdmission(log) ==> KnownEvent(s, log.ticketId, log.eventId) && s.tickets[log.ticketId].status == USED)
  }

  ghost predicate AttemptOk(s: State, x: Attempt) {
    match x
    case Read(id, t, _) => KnownTicket(s, id, t)
    case Owned(id, t, _) => KnownTicket(s, id, t)
    case Compared(id, t, mode) => KnownTicket(s, id, t) && mode != OFFLINE
    case Found(id, eventId) => KnownEvent(s, id, eventId)
    case Logging(log) => LogOk(s, log)
    case _ => true
  }

  ghost predicate AttemptsOk(s: State) {
    forall a :: a in s.attempts ==> AttemptOk(s, s.attempts[a])
  }

  ghost predicate LogsOk(s: State) {
    forall i :: 0 <= i < |s.logs| ==> LogOk(s, s.logs[i])
  }

  // ---------------------------------------------------------------- one record per admitted ticket

  ghost predicate RecordOk(s: State, id: string, r: Record) {
    match r
    case Pending(a) => a in s.attempts && AdmitsBy(s.attempts[a], id)
    case Logged(i) => i < |s.logs| && IsAdmission(s.logs[i]) && s.logs[i].ticketId == id
    case Lost => true
  }

  predicate AdmitsBy(x: Attempt, id: string) {
    x.Logging? && IsAdmission(x.log) && x.log.ticketId == id
  }

  ghost predicate AdmissionsOk(s: State) {
    && (forall id :: id in s.admissions ==> id in s.tickets && RecordOk(s, id, s.admissions[id]))
    && (forall id :: id in s.tickets ==> (s.tickets[id].status == USED <==> id in s.admissions))
    && (forall i :: 0 <= i < |s.logs| && IsAdmission(s.logs[i]) ==>
          s.logs[i].ticketId in s.admissions && s.admissions[s.logs[i].ticketId] == Logged(i))
    && (forall a :: a in s.attempts && s.attempts[a].Logging? && IsAdmission(s.attempts[a].log) ==>
          s.attempts[a].log.ticketId in s.admissions && s.admissions[s.attempts[a].log.ticketId] == Pending(a))
  }

  ghost predicate Safe(p: Platform, s: State) {
    TicketsOk(p, s) && AttemptsOk(s) && LogsOk(s) && AdmissionsOk(s)
  }

  // ---------------------------------------------------------------- steps that leave rows alone

  predicate RejectsOnly(x: Attempt) {
    x.Logging? ==> !IsAdmission(x.log)
  }

  /** One attempt moves, is new or ends; tickets, logs and admissions are as before. */
  ghost predicate QuietMove(s: State, s': State, a: nat) {
    && s'.tickets == s.tickets && s'.logs == s.logs && s'.admissions == s.admissions
    && (forall b :: b != a && b in s'.attempts ==> b in s.attempts && s'.attempts[b] == s.attempts[b])
    && (forall b :: b != a && b in s.attempts ==> b in s'.attempts)
    && (a in s.attempts ==> RejectsOnly(s.attempts[a]))
    && (a in s'.attempts ==> RejectsOnly(s'.attempts[a]) && AttemptOk(s, s'.attempts[a]))
  }

  lemma QuietMoveKeepsSafe(p: Platform, s: State, s': State, a: nat)
    requires Safe(p, s) && QuietMove(s, s', a)
    ensures Safe(p, s')
  {
    LogsSurvive(s, s');
    AttemptsSurvive(s, s');
    QuietMoveKeepsAdmissions(s, s', a);
  }

  lemma QuietMoveKeepsAdmissions(s: State, s': State, a: nat)
    requires AdmissionsOk(s) && QuietMove(s, s', a)
    ensures AdmissionsOk(s')
  {
    forall t | t in s'.admissions ensures t in s'.tickets && RecordOk(s', t, s'.admissions[t]) {
      assert RecordOk(s, t, s.admissions[t]);
    }
  }

  lemma ScanIsQuiet(s: State, a: nat, nonce: string, photo: bool)
    ensures ScanStep(s, a, nonce, photo) == s || QuietMove(s, ScanStep(s, a, nonce, photo), a)
  {
  }

  lemma FreshIsQuiet(s: State, a: nat)
    ensures FreshStep(s, a) == s || QuietMove(s, FreshStep(s, a), a)
  {
  }

  lemma ReserveIsQuiet(s: State, a: nat)
    ensures ReserveStep(s, a) == s || QuietMove(s, ReserveStep(s, a), a)
  {
  }

  lemma PutIsQuiet(s: State, a: nat, x: Attempt)
    requires a in s.attempts && RejectsOnly(s.attempts[a]) && RejectsOnly(x) && AttemptOk(s, x)
    ensures QuietMove(s, Put(s, a, x), a)
  {
  }

  lemma ReadIsQuiet(s: State, a: nat)
    ensures ReadStep(s, a) == s || QuietMove(s, ReadStep(s, a), a)
  {
    if a in s.attempts && s.attempts[a].Reserved? {
      PutIsQuiet(s, a, ReadStep(s, a).attempts[a]);
    }
  }

  lemma OwnershipIsQuiet(s: State, a: nat, rpcOk: bool)
    requires AttemptsOk(s)
    ensures OwnershipStep(s, a, rpcOk) == s || QuietMove(s, OwnershipStep(s, a, rpcOk), a)
  {
  }

  lemma FaceIsQuiet(s: State, a: nat, outcome: FaceOutcome)
    requires AttemptsOk(s)
    ensures FaceStep(s, a, outcome) == s || QuietMove(s, FaceStep(s, a, outcome), a)
  {
    if a in s.attempts && s.attempts[a].Owned? && a in FaceStep(s, a, outcome).attempts {
      assert AttemptOk(s, s.attempts[a]);
      PutIsQuiet(s, a, FaceStep(s, a, outcome).attempts[a]);
    }
  }

  lemma FindMintedIsQuiet(s: State, a: nat, eventId: string, userId: string, found: Option<string>)
    ensures FindMintedStep(s, a, eventId, userId, found) == s ||
            QuietMove(s, FindMintedStep(s, a, eventId, userId, found), a)
  {
  }

  lemma FindPaidIsQuiet(s: State, a: nat, found: Option<string>)
    ensures FindPaidStep(s, a, found) == s || QuietMove(s, FindPaidStep(s, a, found), a)
  {
  }

  // ---------------------------------------------------------------- marking and logging

  lemma LogSurvives(s: State, s': State, log: GateLog)
    requires LogOk(s, log) && TicketsLater(s, s')
    ensures LogOk(s', log)
  {
  }

  lemma LogsSurvive(s: State, s': State)
    requires LogsOk(s) && TicketsLater(s, s') && s'.logs == s.logs
    ensures LogsOk(s')
  {
    forall i | 0 <= i < |s'.logs| ensures LogOk(s', s'.logs[i]) {
      LogSurvives(s, s', s.logs[i]);
    }
  }

  lemma AttemptsSurvive(s: State, s': State)
    requires AttemptsOk(s) && TicketsLater(s, s')
    requires forall b :: b in s'.attempts ==>
      (b in s.attempts && s'.attempts[b] == s.attempts[b]) || AttemptOk(s', s'.attempts[b])
    ensures AttemptsOk(s')
  {
    forall b | b in s'.attempts ensures AttemptOk(s', s'.attempts[b]) {
      if b in s.attempts && s'.attempts[b] == s.attempts[b] {
        AttemptSurvives(s, s', s.attempts[b]);
      }
    }
  }

  lemma AttemptSurvives(s: State, s': State, x: Attempt)
    requires AttemptOk(s, x) && TicketsLater(s, s')
    ensures AttemptOk(s', x)
  {
  }

  predicate Marks(s: State, a: nat) {
    && a in s.attempts && (s.attempts[a].Compared? || s.attempts[a].Found?)
    && s.attempts[a].ticketId in s.tickets && Admissible(s.tickets[s.attempts[a].ticketId])
  }

  lemma MarkKeepsTickets(p: Platform, s: State, a: nat)
    requires TicketsOk(p, s) && Marks(s, a)
    ensures var s' := MarkStep(s, a); TicketsOk(p, s') && TicketsLater(s, s')
  {
  }

  lemma MarkedLogOk(s: State, a: nat)
    requires AttemptsOk(s) && Marks(s, a)
    ensures AttemptOk(MarkStep(s, a), MarkStep(s, a).attempts[a])
  {
    assert AttemptOk(s, s.attempts[a]);
  }

  lemma MarkKeepsRows(p: Platform, s: State, a: nat)
    requires TicketsOk(p, s) && AttemptsOk(s) && LogsOk(s) && Marks(s, a)
    ensures var s' := MarkStep(s, a); TicketsOk(p, s') && TicketsLater(s, s') && AttemptsOk(s') && LogsOk(s')
  {
    var s' := MarkStep(s, a);
    MarkKeepsTickets(p, s, a);
    MarkedLogOk(s, a);
    LogsSurvive(s, s');
    AttemptsSurvive(s, s');
  }

  lemma MarkKeepsAdmissions(s: State, a: nat)
    requires AttemptsOk(s) && AdmissionsOk(s) && Marks(s, a)
    ensures AdmissionsOk(MarkStep(s, a))
  {
    var s' := MarkStep(s, a);
    var id := s.attempts[a].ticketId;
    assert id !in s.admissions;
    forall t | t in s'.admissions ensures t in s'.tickets && RecordOk(s', t, s'.admissions[t]) {
      if t != id {
        assert RecordOk(s, t, s.admissions[t]);
      }
    }
  }

  lemma MissedMarkIsQuiet(s: State, a: nat)
    requires AttemptsOk(s) && !Marks(s, a)
    ensures MarkStep(s, a) == s || QuietMove(s, MarkStep(s, a), a)
  {
  }

  lemma MarkKeepsSafe(p: Platform, s: State, a: nat)
    requires Safe(p, s)
    ensures Safe(p, MarkStep(s, a)) && TicketsLater(s, MarkStep(s, a))
  {
    if Marks(s, a) {
      MarkKeepsRows(p, s, a);
      MarkKeepsAdmissions(s, a);
    } else {
      MissedMarkIsQuiet(s, a);
      if MarkStep(s, a) != s {
        QuietMoveKeepsSafe(p, s, MarkStep(s, a), a);
      }
    }
  }

  lemma LogKeepsLogs(s: State, a: nat, stored: bool)
    requires AttemptsOk(s) && LogsOk(s)
    ensures LogsOk(LogStep(s, a, stored))
  {
    var s' := LogStep(s, a, stored);
    assert TicketsLater(s, s');
    forall i | 0 <= i < |s'.logs| ensures LogOk(s', s'.logs[i]) {
      if i < |s.logs| {
        LogSurvives(s, s', s.logs[i]);
      } else {
        assert AttemptOk(s, s.attempts[a]);
      }
    }
  }

  lemma LogKeepsRows(p: Platform, s: State, a: nat, stored: bool)
    requires TicketsOk(p, s) && AttemptsOk(s) && LogsOk(s)
    ensures var s' := LogStep(s, a, stored); TicketsOk(p, s') && TicketsLater(s, s') && AttemptsOk(s') && LogsOk(s')
  {
    LogKeepsLogs(s, a, stored);
    LogEndsAttempt(s, a, stored);
    AttemptsSurvive(s, LogStep(s, a, stored));
  }

  lemma LogEndsAttempt(s: State, a: nat, stored: bool)
    ensures var s' := LogStep(s, a, stored);
      s'.tickets == s.tickets && forall b :: b in s'.attempts ==> b in s.attempts && s'.attempts[b] == s.attempts[b]
  {
  }

  lemma StoredLogKeepsRecords(s: State, a: nat)
    requires AdmissionsOk(s) && a in s.attempts && s.attempts[a].Logging?
    ensures var s' := LogStep(s, a, true);
      forall t :: t in s'.admissions ==> t in s'.tickets && RecordOk(s', t, s'.admissions[t])
  {
    var s' := LogStep(s, a, true);
    forall t | t in s'.admissions ensures t in s'.tickets && RecordOk(s', t, s'.admissions[t]) {
      assert RecordOk(s, t, s.admissions[t]);
    }
  }

  lemma StoredLogIsRecorded(s: State, a: nat, i: nat)
    requires AdmissionsOk(s) && a in s.attempts && s.attempts[a].Logging?
    requires i < |LogStep(s, a, true).logs| && IsAdmission(LogStep(s, a, true).logs[i])
    ensures var s' := LogStep(s, a, true);
      s'.logs[i].ticketId in s'.admissions && s'.admissions[s'.logs[i].ticketId] == Logged(i)
  {
    if i < |s.logs| {
      assert LogStep(s, a, true).logs[i] == s.logs[i];
    }
  }

  lemma StoredLogKeepsAdmissions(s: State, a: nat)
    requires AdmissionsOk(s)
    requires a in s.attempts && s.attempts[a].Logging?
    ensures AdmissionsOk(LogStep(s, a, true))
  {
    var s' := LogStep(s, a, true);
    StoredLogKeepsRecords(s, a);
    forall i | 0 <= i < |s'.logs| && IsAdmission(s'.logs[i])
      ensures s'.logs[i].ticketId in s'.admissions && s'.admissions[s'.logs[i].ticketId] == Logged(i)
    {
      StoredLogIsRecorded(s, a, i);
    }
  }

  lemma LostLogKeepsAdmissions(s: State, a: nat)
    requires AttemptsOk(s) && AdmissionsOk(s)
    requires a in s.attempts && s.attempts[a].Logging?
    ensures AdmissionsOk(LogStep(s, a, false))
  {
    var s' := LogStep(s, a, false);
    forall t | t in s'.admissions ensures t in s'.tickets && RecordOk(s', t, s'.admissions[t]) {
      assert RecordOk(s, t, s.admissions[t]);
    }
  }

  lemma LogKeepsSafe(p: Platform, s: State, a: nat, stored: bool)
    requires Safe(p, s)
    ensures Safe(p, LogStep(s, a, stored)) && TicketsLater(s, LogStep(s, a, stored))
  {
    LogKeepsRows(p, s, a, stored);
    if a in s.attempts && s.attempts[a].Logging? {
      if stored { StoredLogKeepsAdmissions(s, a); } else { LostLogKeepsAdmissions(s, a); }
    }
  }

  // ---------------------------------------------------------------- ticketing

  /** One ticket is new or moves forward, but not to USED; the gate's own data stay. */
  ghost predicate TicketMove(p: Platform, s: State, s': State, id: string) {
    && s'.attempts == s.attempts && s'.logs == s.logs && s'.admissions == s.admissions
    && id in s'.tickets && s'.tickets == s.tickets[id := s'.tickets[id]]
    && TicketOk(p, id, s'.tickets[id])
    && (id in s.tickets ==> Later(s.tickets[id], s'.tickets[id]))
    && (s'.tickets[id].status == USED <==> id in s.tickets && s.tickets[id].status == USED)
  }

  lemma TicketMoveKeepsSafe(p: Platform, s: State, s': State, id: string)
    requires Safe(p, s) && TicketMove(p, s, s', id)
    ensures Safe(p, s') && TicketsLater(s, s')
  {
    LogsSurvive(s, s');
    AttemptsSurvive(s, s');
    forall t | t in s'.admissions ensures t in s'.tickets && RecordOk(s', t, s'.admissions[t]) {
      assert RecordOk(s, t, s.admissions[t]);
    }
  }

  lemma MintMoves(p: Platform, s: State, id: string, wallet: Option<string>, txOk: bool)
    requires TicketsOk(p, s)
    ensures MintStep(p, s, id, wallet, txOk) == s || TicketMove(p, s, MintStep(p, s, id, wallet, txOk), id)
  {
  }

  lemma RefundMoves(p: Platform, s: State, id: string, requester: Option<string>, ecpayOk: bool, txOk: bool)
    requires TicketsOk(p, s)
    ensures RefundStep(p, s, id, requester, ecpayOk, txOk) == s ||
            TicketMove(p, s, RefundStep(p, s, id, requester, ecpayOk, txOk), id)
  {
  }

  // ---------------------------------------------------------------- every step

  lemma QuietStepKeepsSafe(p: Platform, s: State, s': State, a: nat)
    requires Safe(p, s) && (s' == s || QuietMove(s, s', a))
    ensures Safe(p, s') && TicketsLater(s, s')
  {
    if s' != s {
      QuietMoveKeepsSafe(p, s, s', a);
    }
  }

  lemma TicketStepMoves(p: Platform, s: State, a: Action)
    requires TicketsOk(p, s) && IsTicketing(a) && !a.MintKyc?
    ensures TicketStep(p, s, a) == s || TicketMove(p, s, TicketStep(p, s, a), a.ticketId)
  {
    match a
    case MintTicket(id, wallet, txOk) => MintMoves(p, s, id, wallet, txOk);
    case RefundTicket(id, requester, ecpayOk, txOk) => RefundMoves(p, s, id, requester, ecpayOk, txOk);
    case _ =>
  }

  lemma KycKeepsSafe(p: Platform, s: State, a: Action)
    requires Safe(p, s) && a.MintKyc?
    ensures Safe(p, TicketStep(p, s, a)) && TicketsLater(s, TicketStep(p, s, a))
  {
    LogsSurvive(s, TicketStep(p, s, a));
    AttemptsSurvive(s, TicketStep(p, s, a));
  }

  lemma TicketStepKeepsSafe(p: Platform, s: State, a: Action)
    requires Safe(p, s) && IsTicketing(a)
    ensures Safe(p, TicketStep(p, s, a)) && TicketsLater(s, TicketStep(p, s, a))
  {
    if a.MintKyc? {
      KycKeepsSafe(p, s, a);
    } else {
      TicketStepMoves(p, s, a);
      if TicketStep(p, s, a) != s {
        TicketMoveKeepsSafe(p, s, TicketStep(p, s, a), a.ticketId);
      }
    }
  }

  lemma AttemptStepKeepsSafe(p: Platform, s: State, a: Action)
    requires Safe(p, s) && !a.Tick? && !IsTicketing(a) && !Decides(a) && !a.GenerateQr?
    ensures Safe(p, GateStep(s, a)) && TicketsLater(s, GateStep(s, a))
  {
    var s' := GateStep(s, a);
    match a {
      case Scan(x, nonce, photo) => ScanIsQuiet(s, x, nonce, photo);
      case CheckFreshness(x) => FreshIsQuiet(s, x);
      case ReserveNonce(x) => ReserveIsQuiet(s, x);
      case ReadTicket(x) => ReadIsQuiet(s, x);
      case CheckOwnership(x, rpcOk) => OwnershipIsQuiet(s, x, rpcOk);
      case CompareFace(x, outcome) => FaceIsQuiet(s, x, outcome);
      case FindMinted(x, eventId, userId, found) => FindMintedIsQuiet(s, x, eventId, userId, found);
      case FindPaid(x, found) => FindPaidIsQuiet(s, x, found);
    }
    QuietStepKeepsSafe(p, s, s', a.attempt);
  }

  lemma GenerateKeepsSafe(p: Platform, s: State, id: string, nonce: string)
    requires Safe(p, s)
    ensures Safe(p, GenerateStep(s, id, nonce)) && TicketsLater(s, GenerateStep(s, id, nonce))
  {
    var s' := GenerateStep(s, id, nonce);
    LogsSurvive(s, s');
    AttemptsSurvive(s, s');
    forall t | t in s'.admissions ensures t in s'.tickets && RecordOk(s', t, s'.admissions[t]) {
      assert RecordOk(s, t, s.admissions[t]);
    }
  }

  lemma GateStepKeepsSafe(p: Platform, s: State, a: Action)
    requires Safe(p, s) && !a.Tick? && !IsTicketing(a)
    ensures Safe(p, GateStep(s, a)) && TicketsLater(s, GateStep(s, a))
  {
    match a
    case GenerateQr(id, nonce) => GenerateKeepsSafe(p, s, id, nonce);
    case MarkUsed(x) => MarkKeepsSafe(p, s, x);
    case WriteLog(x, stored) => LogKeepsSafe(p, s, x, stored);
    case Crash(x) => CrashKeepsSafe(p, s, x);
    case _ => AttemptStepKeepsSafe(p, s, a);
  }

  lemma CrashKeepsSafe(p: Platform, s: State, a: nat)
    requires Safe(p, s)
    ensures Safe(p, CrashStep(s, a)) && TicketsLater(s, CrashStep(s, a))
  {
    if a in s.attempts && s.attempts[a].Logging? {
      LogKeepsSafe(p, s, a, false);
    } else {
      QuietStepKeepsSafe(p, s, CrashStep(s, a), a);
    }
  }

  lemma StepKeepsSafe(p: Platform, s: State, a: Action)
    requires Safe(p, s)
    ensures Safe(p, Step(p, s, a)) && TicketsLater(s, Step(p, s, a))
  {
    if a.Tick? {
      LogsSurvive(s, Step(p, s, a));
      AttemptsSurvive(s, Step(p, s, a));
    } else if IsTicketing(a) {
      TicketStepKeepsSafe(p, s, a);
    } else {
      GateStepKeepsSafe(p, s, a);
    }
  }

  // ---------------------------------------------------------------- whole runs

  lemma {:induction false} RunKeepsSafe(p: Platform, actions: seq<Action>)
    ensures Safe(p, Run(p, Initial(p), actions))
  {
    if actions != [] {
      RunKeepsSafe(p, actions[..|actions| - 1]);
      StepKeepsSafe(p, Run(p, Initial(p), actions[..|actions| - 1]), actions[|actions| - 1]);
    }
  }

  lemma LaterAddsUp(s: State, t: State, u: State)
    requires TicketsLater(s, t) && TicketsLater(t, u)
    ensures TicketsLater(s, u)
  {
  }

  /** From any point of any run on, tickets only move forward: USED and REFUNDED are final. */
  lemma {:induction false} TicketsOnlyMoveForward(p: Platform, actions: seq<Action>, more: seq<Action>)
    ensures TicketsLater(Run(p, Initial(p), actions), Run(p, Initial(p), actions + more))
  {
    if more == [] {
      assert actions + more == actions;
    } else {
      var n := |more| - 1;
      assert (actions + more)[..|actions + more| - 1] == actions + more[..n];
      var t := Run(p, Initial(p), actions + more[..n]);
      TicketsOnlyMoveForward(p, actions, more[..n]);
      RunKeepsSafe(p, actions + more[..n]);
      StepKeepsSafe(p, t, more[n]);
      LaterAddsUp(Run(p, Initial(p), actions), t, Run(p, Initial(p), actions + more));
    }
  }

  /** The positions of the SUCCESS and FALLBACK entries that name the ticket. */
  function AdmissionLogs(logs: seq<GateLog>, id: string): set<nat> {
    set i: nat | 0 <= i < |logs| && IsAdmission(logs[i]) && logs[i].ticketId == id
  }

  lemma AtMostOneAdmissionLog(p: Platform, actions: seq<Action>, id: string)
    ensures |AdmissionLogs(Run(p, Initial(p), actions).logs, id)| <= 1
  {
    RunKeepsSafe(p, actions);
    var s := Run(p, Initial(p), actions);
    LoggedOnce(s, id);
  }

  lemma LoggedOnce(s: State, id: string)
    requires AdmissionsOk(s)
    ensures AdmissionLogs(s.logs, id) ==
      if id in s.admissions && s.admissions[id].Logged? then {s.admissions[id].index} else {}
  {
    if id in s.admissions {
      assert RecordOk(s, id, s.admissions[id]);
    }
  }

  /** Once refunded, a ticket never lets anyone in, and once it has let someone in it is never refunded. */
  lemma AdmittedOrRefunded(p: Platform, actions: seq<Action>, more: seq<Action>, id: string)
    requires id in Run(p, Initial(p), actions).tickets
    ensures var s, s' := Run(p, Initial(p), actions), Run(p, Initial(p), actions + more);
      && id in s'.tickets
      && (s.tickets[id].status == REFUNDED ==> AdmissionLogs(s'.logs, id) == {})
      && (AdmissionLogs(s.logs, id) != {} ==> s'.tickets[id].status == USED)
  {
    TicketsOnlyMoveForward(p, actions, more);
    RunKeepsSafe(p, actions);
    RunKeepsSafe(p, actions + more);
    LoggedOnce(Run(p, Initial(p), actions), id);
    LoggedOnce(Run(p, Initial(p), actions + more), id);
  }

  // ---------------------------------------------------------------- logs that get lost

  predicate LogLost(s: State, id: string) {
    id in s.admissions && s.admissions[id] == Lost
  }

  /** The write that fails here is that of the log of the attempt that has just let the ticket in. */
  predicate Loses(s: State, a: Action, id: string) {
    && (a.Crash? || (a.WriteLog? && !a.stored))
    && a.attempt in s.attempts && AdmitsBy(s.attempts[a.attempt], id)
  }

  ghost predicate LosesAt(p: Platform, actions: seq<Action>, i: nat, id: string)
    requires i < |actions|
  {
    Loses(Run(p, Initial(p), actions[..i]), actions[i], id)
  }

  /** At some point of the run the attempt that let the ticket in fails to write its log. */
  ghost predicate AdmissionWriteFailed(p: Platform, actions: seq<Action>, id: string) {
    exists i :: 0 <= i < |actions| && LosesAt(p, actions, i, id)
  }

  lemma MarkLosesNothing(s: State, a: nat, id: string)
    requires AdmissionsOk(s)
    ensures LogLost(MarkStep(s, a), id) <==> LogLost(s, id)
  {
  }

  lemma LogLosesIff(s: State, a: nat, stored: bool, id: string)
    requires AdmissionsOk(s)
    ensures LogLost(LogStep(s, a, stored), id) <==>
      LogLost(s, id) || (!stored && a in s.attempts && AdmitsBy(s.attempts[a], id))
  {
  }

  lemma CrashLosesIff(s: State, a: nat, id: string)
    requires AdmissionsOk(s)
    ensures LogLost(CrashStep(s, a), id) <==> LogLost(s, id) || (a in s.attempts && AdmitsBy(s.attempts[a], id))
  {
    LogLosesIff(s, a, false, id);
  }

  lemma TicketingLeavesRecords(p: Platform, s: State, a: Action)
    requires IsTicketing(a)
    ensures TicketStep(p, s, a).admissions == s.admissions
  {
  }

  lemma StepLosesIff(p: Platform, s: State, a: Action, id: string)
    requires AdmissionsOk(s)
    ensures LogLost(Step(p, s, a), id) <==> LogLost(s, id) || Loses(s, a, id)
  {
    if IsTicketing(a) {
      TicketingLeavesRecords(p, s, a);
    } else {
      match a {
        case Tick(_) =>
        case MarkUsed(x) => MarkLosesNothing(s, x, id);
        case WriteLog(x, stored) => LogLosesIff(s, x, stored, id);
        case Crash(x) => CrashLosesIff(s, x, id);
        case _ => AttemptStepLeavesRecords(s, a);
      }
    }
  }

  /** A log is lost exactly when the attempt that let the ticket in crashed before, or failed in, writing it. */
  lemma {:induction false} LostIffWriteFailed(p: Platform, actions: seq<Action>, id: string)
    ensures LogLost(Run(p, Initial(p), actions), id) <==> AdmissionWriteFailed(p, actions, id)
  {
    if actions != [] {
      var n := |actions| - 1;
      var s := Run(p, Initial(p), actions[..n]);
      LostIffWriteFailed(p, actions[..n], id);
      RunKeepsSafe(p, actions[..n]);
      StepLosesIff(p, s, actions[n], id);
      WriteFailedExtends(p, actions, id);
    }
  }

  lemma WriteFailedExtends(p: Platform, actions: seq<Action>, id: string)
    requires actions != []
    ensures var n := |actions| - 1;
      AdmissionWriteFailed(p, actions, id) <==> AdmissionWriteFailed(p, actions[..n], id) || LosesAt(p, actions, n, id)
  {
    var n := |actions| - 1;
    forall i | 0 <= i < n ensures LosesAt(p, actions, i, id) <==> LosesAt(p, actions[..n], i, id) {
      assert actions[..n][..i] == actions[..i];
    }
  }

  /** With no attempt in flight a ticket is USED exactly when one admission log names it or the write of that log
      failed, and never both: "USED iff exactly one admission log" holds iff that write did not fail. */
  lemma UsedIffLogged(p: Platform, actions: seq<Action>, id: string)
    requires var s := Run(p, Initial(p), actions); s.attempts == map[] && id in s.tickets
    ensures var s := Run(p, Initial(p), actions);
      && (s.tickets[id].status == USED <==> |AdmissionLogs(s.logs, id)| == 1 || AdmissionWriteFailed(p, actions, id))
      && (AdmissionWriteFailed(p, actions, id) ==> AdmissionLogs(s.logs, id) == {})
      && ((s.tickets[id].status == USED <==> |AdmissionLogs(s.logs, id)| == 1) <==> !AdmissionWriteFailed(p, actions, id))
  {
    RunKeepsSafe(p, actions);
    LostIffWriteFailed(p, actions, id);
    var s := Run(p, Initial(p), actions);
    LoggedOnce(s, id);
    if id in s.admissions {
      assert RecordOk(s, id, s.admissions[id]);
    }
  }

  /** A paid ticket, a fallback entry, and a log write that is refused. */
  function UnloggedEntry(): seq<Action> {
    [ Preauthorize("t", "e", "u", 1, "BT"), CapturePayment("t", true), FindMinted(1, "e", "u", None),
      FindPaid(1, Some("t")), MarkUsed(1), WriteLog(1, false) ]
  }

  lemma UnloggedEntryPaid(p: Platform)
    ensures var s := Run(p, Initial(p), UnloggedEntry()[..2]);
      && s.attempts == map[] && s.logs == []
      && s.tickets == map["t" := Ticket("e", "u", 1, PAID, None, None, Some("BT"), None)]
  {
    var acts := UnloggedEntry();
    assert acts[..0] == [];
    RunNext(p, acts, 0);
    RunNext(p, acts, 1);
    assert acts[0] == Preauthorize("t", "e", "u", 1, "BT") && acts[1] == CapturePayment("t", true);
  }

  lemma NoMintedTicket(s: State)
    requires s.attempts == map[]
    requires s.tickets == map["t" := Ticket("e", "u", 1, PAID, None, None, Some("BT"), None)]
    ensures FindMintedStep(s, 1, "e", "u", None) == s.(attempts := map[1 := NoMinted("e", "u")])
  {
  }

  lemma PaidTicketFound(s: State)
    requires s.attempts == map[1 := NoMinted("e", "u")]
    requires s.tickets == map["t" := Ticket("e", "u", 1, PAID, None, None, Some("BT"), None)]
    ensures FindPaidStep(s, 1, Some("t")) == s.(attempts := map[1 := Found("t", "e")])
  {
  }

  lemma UnloggedEntryMissed(p: Platform)
    ensures var s := Run(p, Initial(p), UnloggedEntry()[..3]);
      && s.attempts == map[1 := NoMinted("e", "u")] && s.logs == []
      && s.tickets == map["t" := Ticket("e", "u", 1, PAID, None, None, Some("BT"), None)]
  {
    var s := Run(p, Initial(p), UnloggedEntry()[..2]);
    UnloggedEntryPaid(p);
    RunNext(p, UnloggedEntry(), 2);
    NoMintedTicket(s);
    assert Step(p, s, FindMinted(1, "e", "u", None)) == s.(attempts := map[1 := NoMinted("e", "u")]);
  }

  lemma UnloggedEntryFound(p: Platform)
    ensures var s := Run(p, Initial(p), UnloggedEntry()[..4]);
      && s.attempts == map[1 := Found("t", "e")] && s.logs == []
      && s.tickets == map["t" := Ticket("e", "u", 1, PAID, None, None, Some("BT"), None)]
  {
    var s := Run(p, Initial(p), UnloggedEntry()[..3]);
    UnloggedEntryMissed(p);
    RunNext(p, UnloggedEntry(), 3);
    PaidTicketFound(s);
    assert Step(p, s, FindPaid(1, Some("t"))) == s.(attempts := map[1 := Found("t", "e")]);
  }

  lemma UnloggedEntryMarked(p: Platform)
    ensures var s := Run(p, Initial(p), UnloggedEntry()[..5]);
      && s.attempts ==
           map[1 := Logging(GateLog("e", "t", VerificationMode.FALLBACK, VerificationResult.FALLBACK))]
      && s.logs == []
      && s.tickets == map["t" := Ticket("e", "u", 1, USED, None, None, Some("BT"), None)]
  {
    var s := Run(p, Initial(p), UnloggedEntry()[..4]);
    UnloggedEntryFound(p);
    RunNext(p, UnloggedEntry(), 4);
    assert Step(p, s, MarkUsed(1)) == MarkStep(s, 1);
  }

  /** It happens: the ticket is USED, nothing is in flight, and no log names it. */
  lemma UsedWithoutLog(p: Platform)
    ensures var s := Run(p, Initial(p), UnloggedEntry());
      && s.attempts == map[] && "t" in s.tickets && s.tickets["t"].status == USED
      && AdmissionLogs(s.logs, "t") == {}
  {
    var s := Run(p, Initial(p), UnloggedEntry()[..5]);
    UnloggedEntryMarked(p);
    RunNext(p, UnloggedEntry(), 5);
    assert Step(p, s, WriteLog(1, false)) == LogStep(s, 1, false);
    assert UnloggedEntry()[..6] == UnloggedEntry();
  }
}
