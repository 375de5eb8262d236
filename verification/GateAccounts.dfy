/** What the gate's logs tell over whole runs: each scan past the nonce and each fallback is logged once or dropped for a
    reason, and each log names its ticket's event. A fresh QR admits its ticket for 60 seconds. */
module GateAccounts {
  import opened Options
  import opened Admission
  import opened AdmissionSafety
  import opened BoxOffice

  // ---------------------------------------------------------------- one log per attempt

  predicate PastNonce(x: Attempt) {
    !x.Scanned? && !x.Fresh?
  }

  /** The attempts that owe a log. */
  ghost function Owing(s: State): set<nat> {
    set a | a in s.attempts && PastNonce(s.attempts[a])
  }

  /** The action gets an attempt past the nonce, or starts a fallback. */
  ghost predicate Starts(s: State, a: Action) {
    || (a.ReserveNonce? && a.attempt in s.attempts && s.attempts[a.attempt].Fresh?
        && !KeyLive(s, s.attempts[a.attempt].payload.nonce))
    || (a.FindMinted? && a.attempt !in s.attempts && FindsOne(s, a.eventId, a.userId, MINTED, a.found))
  }

  /** The three ways in which an attempt ends without a log: a crash, a failed write, a silent face service. */
  ghost predicate Drops(s: State, a: Action) {
    || (a.Crash? && a.attempt in s.attempts && PastNonce(s.attempts[a.attempt]))
    || (a.WriteLog? && !a.stored && a.attempt in s.attempts && s.attempts[a.attempt].Logging?)
    || (a.CompareFace? && a.outcome.Unavailable? && a.attempt in s.attempts && s.attempts[a.attempt].Owned?
        && s.attempts[a.attempt].photo)
  }

  ghost function Started(p: Platform, actions: seq<Action>): nat {
    if actions == [] then 0
    else
      var n := |actions| - 1;
      Started(p, actions[..n]) + if Starts(Run(p, Initial(p), actions[..n]), actions[n]) then 1 else 0
  }

  ghost function Dropped(p: Platform, actions: seq<Action>): nat {
    if actions == [] then 0
    else
      var n := |actions| - 1;
      Dropped(p, actions[..n]) + if Drops(Run(p, Initial(p), actions[..n]), actions[n]) then 1 else 0
  }

  ghost predicate Balanced(s: State, s': State, a: Action) {
    |s'.logs| + |Owing(s')| + (if Drops(s, a) then 1 else 0) == |s.logs| + |Owing(s)| + if Starts(s, a) then 1 else 0
  }

  function One(b: bool): nat {
    if b then 1 else 0
  }

  lemma WithoutOne(owing: set<nat>, a: nat)
    ensures |owing| == |owing - {a}| + One(a in owing)
  {
    if a in owing {
      assert owing == (owing - {a}) + {a};
    } else {
      assert owing == owing - {a};
    }
  }

  /** What attempt a itself owes and writes. */
  predicate OwnShare(s: State, s': State, a: nat, drops: bool, starts: bool) {
    && s'.attempts - {a} == s.attempts - {a}
    && |s'.logs| + One(a in s'.attempts && PastNonce(s'.attempts[a])) + One(drops)
       == |s.logs| + One(a in s.attempts && PastNonce(s.attempts[a])) + One(starts)
  }

  ghost predicate Fair(s: State, s': State, act: Action)
    requires !act.Tick? && !IsTicketing(act) && !act.GenerateQr?
  {
    OwnShare(s, s', act.attempt, Drops(s, act), Starts(s, act))
  }

  /** Only that attempt moves, and its own share balances. */
  lemma MoveBalances(s: State, s': State, act: Action)
    requires !act.Tick? && !IsTicketing(act) && !act.GenerateQr? && Fair(s, s', act)
    ensures Balanced(s, s', act)
  {
    var a := act.attempt;
    assert Owing(s') - {a} == Owing(s) - {a} by {
      forall b | b != a ensures b in Owing(s') <==> b in Owing(s) {
        assert b in s'.attempts <==> b in s'.attempts - {a};
        assert b in s.attempts <==> b in s.attempts - {a};
      }
    }
    WithoutOne(Owing(s), a);
    WithoutOne(Owing(s'), a);
  }

  lemma ScanIsFair(s: State, a: nat, nonce: string, photo: bool)
    ensures Fair(s, ScanStep(s, a, nonce, photo), Scan(a, nonce, photo)) && Fair(s, FreshStep(s, a), CheckFreshness(a))
  {
  }

  lemma ReserveIsFair(s: State, a: nat)
    ensures Fair(s, ReserveStep(s, a), ReserveNonce(a))
  {
  }

  lemma ReadIsFair(s: State, a: nat)
    ensures Fair(s, ReadStep(s, a), ReadTicket(a))
  {
  }

  lemma OwnershipIsFair(s: State, a: nat, rpcOk: bool)
    ensures Fair(s, OwnershipStep(s, a, rpcOk), CheckOwnership(a, rpcOk))
  {
  }

  lemma FaceIsFair(s: State, a: nat, outcome: FaceOutcome)
    ensures Fair(s, FaceStep(s, a, outcome), CompareFace(a, outcome))
  {
  }

  lemma FindIsFair(s: State, a: nat, eventId: string, userId: string, found: Option<string>)
    ensures Fair(s, FindMintedStep(s, a, eventId, userId, found), FindMinted(a, eventId, userId, found))
    ensures Fair(s, FindPaidStep(s, a, found), FindPaid(a, found))
  {
  }

  lemma MarkIsFair(s: State, a: nat)
    ensures Fair(s, MarkStep(s, a), MarkUsed(a))
  {
  }

  lemma LogIsFair(s: State, a: nat, stored: bool)
    ensures Fair(s, LogStep(s, a, stored), WriteLog(a, stored))
  {
  }

  lemma CrashIsFair(s: State, a: nat)
    ensures Fair(s, CrashStep(s, a), Crash(a))
  {
  }

  lemma GateIsFair(s: State, act: Action)
    requires !act.Tick? && !IsTicketing(act) && !act.GenerateQr?
    ensures Fair(s, GateStep(s, act), act)
  {
    match act {
      case Scan(a, nonce, photo) => ScanIsFair(s, a, nonce, photo);
      case CheckFreshness(a) => ScanIsFair(s, a, "", false);
      case ReserveNonce(a) => ReserveIsFair(s, a);
      case ReadTicket(a) => ReadIsFair(s, a);
      case CheckOwnership(a, rpcOk) => OwnershipIsFair(s, a, rpcOk);
      case CompareFace(a, outcome) => FaceIsFair(s, a, outcome);
      case FindMinted(a, eventId, userId, found) => FindIsFair(s, a, eventId, userId, found);
      case FindPaid(a, found) => FindIsFair(s, a, "", "", found);
      case MarkUsed(a) => MarkIsFair(s, a);
      case WriteLog(a, stored) => LogIsFair(s, a, stored);
      case Crash(a) => CrashIsFair(s, a);
    }
  }

  lemma TicketingOwesNothing(p: Platform, s: State, act: Action)
    requires IsTicketing(act)
    ensures var s' := TicketStep(p, s, act); s'.attempts == s.attempts && s'.logs == s.logs && s'.issued == s.issued
  {
  }

  lemma StepBalances(p: Platform, s: State, act: Action)
    ensures Balanced(s, Step(p, s, act), act)
  {
    if IsTicketing(act) {
      TicketingOwesNothing(p, s, act);
      assert Owing(Step(p, s, act)) == Owing(s);
    } else if act.Tick? || act.GenerateQr? {
      assert Owing(Step(p, s, act)) == Owing(s);
    } else {
      GateIsFair(s, act);
      MoveBalances(s, GateStep(s, act), act);
    }
  }

  /** In every run: scans past the nonce and fallbacks are logged, under way, or dropped for one of the three reasons. */
  lemma {:induction false} EveryAttemptIsAccountedFor(p: Platform, actions: seq<Action>)
    ensures var s := Run(p, Initial(p), actions);
      |s.logs| + |Owing(s)| + Dropped(p, actions) == Started(p, actions)
  {
    if actions == [] {
      assert Owing(Initial(p)) == {};
    } else {
      var n := |actions| - 1;
      EveryAttemptIsAccountedFor(p, actions[..n]);
      StepBalances(p, Run(p, Initial(p), actions[..n]), actions[n]);
    }
  }

  // ---------------------------------------------------------------- what a log says

  /** A log names a ticket and that ticket's event, except that of a fallback which found none; its mode fits its result. */
  ghost predicate LogTrue(s: State, l: GateLog) {
    && (KnownEvent(s, l.ticketId, l.eventId) || (l.ticketId == "unknown" && l.mode.FALLBACK? && l.result == FAILED))
    && match l.result
       case SUCCESS => l.mode == STRONG || l.mode == NORMAL
       case FALLBACK => l.mode.FALLBACK?
       case FAILED => l.mode != OFFLINE
  }

  ghost predicate AttemptTrue(s: State, x: Attempt) {
    match x
    case Scanned(q, _) => q.sub in s.tickets
    case Fresh(q, _, _) => q.sub in s.tickets
    case Reserved(q, _) => q.sub in s.tickets
    case Compared(_, _, mode) => mode == STRONG || mode == NORMAL
    case Logging(l) => LogTrue(s, l)
    case _ => true
  }

  ghost predicate Truthful(s: State) {
    && (forall n :: n in s.issued ==> s.issued[n].sub in s.tickets)
    && (forall a :: a in s.attempts ==> AttemptTrue(s, s.attempts[a]))
    && (forall i :: 0 <= i < |s.logs| ==> LogTrue(s, s.logs[i]))
  }

  lemma TruthStays(s: State, s': State, l: GateLog, x: Attempt)
    requires TicketsLater(s, s')
    ensures LogTrue(s, l) ==> LogTrue(s', l)
    ensures AttemptTrue(s, x) ==> AttemptTrue(s', x)
  {
  }

  ghost predicate MovesTruly(s: State, s': State, a: nat) {
    && s'.issued == s.issued && s'.attempts - {a} == s.attempts - {a}
    && (a in s'.attempts ==> AttemptTrue(s, s'.attempts[a]))
    && (s'.logs == s.logs ||
        (|s'.logs| == |s.logs| + 1 && s'.logs[..|s.logs|] == s.logs && LogTrue(s, s'.logs[|s.logs|])))
  }

  /** One attempt moves to a true state; whatever it writes is true. */
  lemma TruthfulMove(s: State, s': State, a: nat)
    requires Truthful(s) && TicketsLater(s, s') && MovesTruly(s, s', a)
    ensures Truthful(s')
  {
    forall b | b in s'.attempts ensures AttemptTrue(s', s'.attempts[b]) {
      if b != a {
        assert b in s'.attempts - {a} && (s'.attempts - {a})[b] == s'.attempts[b];
        assert b in s.attempts && s'.attempts[b] == s.attempts[b];
      }
      TruthStays(s, s', GateLog("", "", NORMAL, FAILED), s'.attempts[b]);
    }
    forall i | 0 <= i < |s'.logs| ensures LogTrue(s', s'.logs[i]) {
      if i < |s.logs| {
        assert s'.logs[i] == s'.logs[..|s.logs|][i] == s.logs[i];
      }
      TruthStays(s, s', s'.logs[i], NoMinted("", ""));
    }
  }

  lemma EarlyMovesTruly(s: State, a: nat, nonce: string, photo: bool)
    requires Truthful(s)
    ensures MovesTruly(s, ScanStep(s, a, nonce, photo), a) && MovesTruly(s, FreshStep(s, a), a)
    ensures MovesTruly(s, ReserveStep(s, a), a)
  {
    assert a in s.attempts ==> AttemptTrue(s, s.attempts[a]);
  }

  lemma ReadMovesTruly(s: State, a: nat)
    requires Truthful(s)
    ensures MovesTruly(s, ReadStep(s, a), a)
  {
    assert a in s.attempts ==> AttemptTrue(s, s.attempts[a]);
  }

  lemma OwnershipMovesTruly(s: State, a: nat, rpcOk: bool)
    requires Truthful(s) && AttemptsOk(s)
    ensures MovesTruly(s, OwnershipStep(s, a, rpcOk), a)
  {
    assert a in s.attempts ==> AttemptTrue(s, s.attempts[a]) && AttemptOk(s, s.attempts[a]);
  }

  lemma FaceMovesTruly(s: State, a: nat, outcome: FaceOutcome)
    requires Truthful(s) && AttemptsOk(s)
    ensures MovesTruly(s, FaceStep(s, a, outcome), a)
  {
    assert a in s.attempts ==> AttemptTrue(s, s.attempts[a]) && AttemptOk(s, s.attempts[a]);
  }

  lemma FindMovesTruly(s: State, a: nat, eventId: string, userId: string, found: Option<string>)
    requires Truthful(s)
    ensures MovesTruly(s, FindMintedStep(s, a, eventId, userId, found), a) && MovesTruly(s, FindPaidStep(s, a, found), a)
  {
    assert a in s.attempts ==> AttemptTrue(s, s.attempts[a]);
  }

  lemma MarkMovesTruly(s: State, a: nat)
    requires Truthful(s) && AttemptsOk(s)
    ensures MovesTruly(s, MarkStep(s, a), a)
  {
    assert a in s.attempts ==> AttemptTrue(s, s.attempts[a]) && AttemptOk(s, s.attempts[a]);
  }

  lemma LogMovesTruly(s: State, a: nat, stored: bool)
    requires Truthful(s)
    ensures MovesTruly(s, LogStep(s, a, stored), a) && MovesTruly(s, CrashStep(s, a), a)
  {
    assert a in s.attempts ==> AttemptTrue(s, s.attempts[a]);
  }

  lemma GateMovesTruly(s: State, act: Action)
    requires Truthful(s) && AttemptsOk(s) && !act.Tick? && !IsTicketing(act) && !act.GenerateQr?
    ensures MovesTruly(s, GateStep(s, act), act.attempt)
  {
    match act {
      case Scan(a, nonce, photo) => EarlyMovesTruly(s, a, nonce, photo);
      case CheckFreshness(a) => EarlyMovesTruly(s, a, "", false);
      case ReserveNonce(a) => EarlyMovesTruly(s, a, "", false);
      case ReadTicket(a) => ReadMovesTruly(s, a);
      case CheckOwnership(a, rpcOk) => OwnershipMovesTruly(s, a, rpcOk);
      case CompareFace(a, outcome) => FaceMovesTruly(s, a, outcome);
      case FindMinted(a, eventId, userId, found) => FindMovesTruly(s, a, eventId, userId, found);
      case FindPaid(a, found) => FindMovesTruly(s, a, "", "", found);
      case MarkUsed(a) => MarkMovesTruly(s, a);
      case WriteLog(a, stored) => LogMovesTruly(s, a, stored);
      case Crash(a) => LogMovesTruly(s, a, false);
    }
  }

  lemma QuietStepKeepsTruth(s: State, s': State)
    requires Truthful(s) && TicketsLater(s, s') && s'.attempts == s.attempts && s'.logs == s.logs
    requires forall n :: n in s'.issued ==> s'.issued[n].sub in s'.tickets
    ensures Truthful(s')
  {
    forall a | a in s'.attempts ensures AttemptTrue(s', s'.attempts[a]) {
      TruthStays(s, s', GateLog("", "", NORMAL, FAILED), s.attempts[a]);
    }
    forall i | 0 <= i < |s'.logs| ensures LogTrue(s', s'.logs[i]) {
      TruthStays(s, s', s.logs[i], NoMinted("", ""));
    }
  }

  lemma OtherStepKeepsTruth(p: Platform, s: State, act: Action)
    requires Truthful(s) && (act.Tick? || IsTicketing(act) || act.GenerateQr?) && TicketsLater(s, Step(p, s, act))
    ensures Truthful(Step(p, s, act))
  {
    if IsTicketing(act) {
      TicketingOwesNothing(p, s, act);
    }
    QuietStepKeepsTruth(s, Step(p, s, act));
  }

  lemma StepKeepsTruth(p: Platform, s: State, act: Action)
    requires Safe(p, s) && Truthful(s)
    ensures Truthful(Step(p, s, act))
  {
    StepKeepsSafe(p, s, act);
    if act.Tick? || IsTicketing(act) || act.GenerateQr? {
      OtherStepKeepsTruth(p, s, act);
    } else {
      GateMovesTruly(s, act);
      TruthfulMove(s, Step(p, s, act), act.attempt);
    }
  }

  lemma {:induction false} LogsNameTheirTicket(p: Platform, actions: seq<Action>)
    ensures Truthful(Run(p, Initial(p), actions))
  {
    if actions != [] {
      var n := |actions| - 1;
      RunKeepsSafe(p, actions[..n]);
      LogsNameTheirTicket(p, actions[..n]);
      StepKeepsTruth(p, Run(p, Initial(p), actions[..n]), actions[n]);
    }
  }

  // ---------------------------------------------------------------- a fresh QR

  /** The ticket lets its holder in: its state allows it, the chain does not object, and neither does the face. */
  predicate LetsIn(s: State, id: string, photo: bool, rpcOk: bool, face: FaceOutcome) {
    && id in s.tickets && s.tickets[id].status in {MINTED, PAID}
    && !Disowned(s, s.tickets[id], rpcOk) && (photo ==> face.Matched?)
  }

  function Entered(s: State, id: string, photo: bool, rpcOk: bool, face: FaceOutcome): map<string, Ticket> {
    if LetsIn(s, id, photo, rpcOk, face) then s.tickets[id := s.tickets[id].(status := USED)] else s.tickets
  }

  lemma LoggingKeepsTickets(s: State, a: nat, stored: bool)
    requires a !in s.attempts || s.attempts[a].Logging?
    ensures FromMark(s, a, stored).tickets == s.tickets
  {
  }

  lemma ComparedEnters(s: State, a: nat, id: string, mode: VerificationMode, stored: bool)
    requires id in s.tickets && s.tickets[id].status in {MINTED, PAID}
    ensures FromMark(Put(s, a, Compared(id, s.tickets[id], mode)), a, stored).tickets ==
      s.tickets[id := s.tickets[id].(status := USED)]
  {
  }

  lemma FaceDecides(s: State, a: nat, id: string, photo: bool, face: FaceOutcome)
    requires a in s.attempts && id in s.tickets && s.attempts[a] == Owned(id, s.tickets[id], photo)
    ensures (photo ==> face.Matched?) ==> FaceStep(s, a, face) == Put(s, a, Compared(id, s.tickets[id], ModeOf(photo)))
    ensures !(photo ==> face.Matched?) ==>
      var t := FaceStep(s, a, face); t.tickets == s.tickets && (a !in t.attempts || t.attempts[a].Logging?)
  {
  }

  lemma OwnedEnters(s: State, a: nat, id: string, photo: bool, rpcOk: bool, face: FaceOutcome, stored: bool)
    requires a in s.attempts && id in s.tickets && s.attempts[a] == Owned(id, s.tickets[id], photo)
    requires s.tickets[id].status in {MINTED, PAID} && !Disowned(s, s.tickets[id], rpcOk)
    ensures FromFace(s, a, face, stored).tickets == Entered(s, id, photo, rpcOk, face)
  {
    FaceDecides(s, a, id, photo, face);
    if photo ==> face.Matched? {
      ComparedEnters(s, a, id, ModeOf(photo), stored);
    } else {
      LoggingKeepsTickets(FaceStep(s, a, face), a, stored);
    }
  }

  lemma ReadEnters(s: State, a: nat, id: string, photo: bool, rpcOk: bool, face: FaceOutcome, stored: bool)
    requires a in s.attempts && id in s.tickets && s.attempts[a] == Read(id, s.tickets[id], photo)
    requires s.tickets[id].status in {MINTED, PAID}
    ensures FromOwnership(s, a, rpcOk, face, stored).tickets == Entered(s, id, photo, rpcOk, face)
  {
    var t := OwnershipStep(s, a, rpcOk);
    if Disowned(s, s.tickets[id], rpcOk) {
      assert FaceStep(t, a, face) == t;
      LoggingKeepsTickets(t, a, stored);
    } else {
      OwnedEnters(t, a, id, photo, rpcOk, face, stored);
    }
  }

  lemma RejectedStaysOut(s: State, a: nat, rpcOk: bool, face: FaceOutcome, stored: bool)
    requires a in s.attempts && s.attempts[a].Logging?
    ensures FromOwnership(s, a, rpcOk, face, stored).tickets == s.tickets
  {
    OnlyLoggingLeft(s, a, rpcOk, face, stored);
  }

  lemma FitIsRead(s: State, a: nat)
    requires a in s.attempts && s.attempts[a].Reserved?
    requires var id := s.attempts[a].payload.sub; id in s.tickets && s.tickets[id].status in {MINTED, PAID}
    ensures var x := s.attempts[a];
      ReadStep(s, a) == Put(s, a, Read(x.payload.sub, s.tickets[x.payload.sub], x.photo))
  {
  }

  lemma FitEnters(s: State, a: nat, rpcOk: bool, face: FaceOutcome, stored: bool)
    requires a in s.attempts && s.attempts[a].Reserved?
    requires var id := s.attempts[a].payload.sub; id in s.tickets && s.tickets[id].status in {MINTED, PAID}
    ensures FromRead(s, a, rpcOk, face, stored).tickets ==
      Entered(s, s.attempts[a].payload.sub, s.attempts[a].photo, rpcOk, face)
  {
    var x := s.attempts[a];
    var t := Put(s, a, Read(x.payload.sub, s.tickets[x.payload.sub], x.photo));
    FitIsRead(s, a);
    ReadEnters(t, a, x.payload.sub, x.photo, rpcOk, face, stored);
  }

  lemma UnfitStaysOut(s: State, a: nat, rpcOk: bool, face: FaceOutcome, stored: bool)
    requires a in s.attempts && s.attempts[a].Reserved?
    requires var id := s.attempts[a].payload.sub; id in s.tickets ==> s.tickets[id].status !in {MINTED, PAID}
    ensures FromRead(s, a, rpcOk, face, stored).tickets == s.tickets
  {
    UnfitIsRejected(s, a);
    RejectedStaysOut(ReadStep(s, a), a, rpcOk, face, stored);
  }

  lemma ReservedEnters(s: State, a: nat, photo: bool, rpcOk: bool, face: FaceOutcome, stored: bool)
    requires a in s.attempts && s.attempts[a].Reserved? && s.attempts[a].photo == photo
    ensures FromRead(s, a, rpcOk, face, stored).tickets == Entered(s, s.attempts[a].payload.sub, photo, rpcOk, face)
  {
    var id := s.attempts[a].payload.sub;
    if id in s.tickets && s.tickets[id].status in {MINTED, PAID} {
      FitEnters(s, a, rpcOk, face, stored);
    } else {
      UnfitStaysOut(s, a, rpcOk, face, stored);
    }
  }

  predicate InTime(s: State, nonce: string, elapsed: nat)
    requires nonce in s.issued
  {
    s.clock < s.issued[nonce].iat + 60 && s.clock + elapsed <= s.issued[nonce].iat + 60
  }

  lemma ScanIsFresh(s: State, a: nat, nonce: string, photo: bool, elapsed: nat)
    requires a !in s.attempts && nonce in s.issued
    ensures FreshStep(Wait(ScanStep(s, a, nonce, photo), elapsed), a) ==
      if InTime(s, nonce, elapsed) then Put(Wait(s, elapsed), a, Fresh(s.issued[nonce], photo, s.clock + elapsed))
      else Wait(s, elapsed)
  {
    assert (s.attempts[a := Scanned(s.issued[nonce], photo)]) - {a} == s.attempts;
  }

  lemma FreshReserves(s: State, a: nat, q: QrPayload, photo: bool)
    requires q.nonce !in s.nonces
    ensures var t := ReserveStep(Put(s, a, Fresh(q, photo, s.clock)), a);
      t.tickets == s.tickets && t.ledger == s.ledger && a in t.attempts && t.attempts[a] == Reserved(q, photo)
  {
  }

  /** The state of an attempt that got past the nonce, scanned at `s` and gone on with at once. */
  lemma FreshScanReserves(s: State, a: nat, nonce: string, photo: bool, elapsed: nat)
    requires a !in s.attempts && nonce in s.issued && s.issued[nonce].nonce == nonce && nonce !in s.nonces
    ensures var t := ReserveStep(FreshStep(Wait(ScanStep(s, a, nonce, photo), elapsed), a), a);
      && t.tickets == s.tickets && t.ledger == s.ledger
      && if InTime(s, nonce, elapsed) then a in t.attempts && t.attempts[a] == Reserved(s.issued[nonce], photo)
         else a !in t.attempts
  {
    ScanIsFresh(s, a, nonce, photo, elapsed);
    if InTime(s, nonce, elapsed) {
      FreshReserves(Wait(s, elapsed), a, s.issued[nonce], photo);
    }
  }

  lemma ScannedEnters(s: State, a: nat, nonce: string, photo: bool, elapsed: nat,
                      rpcOk: bool, face: FaceOutcome, stored: bool)
    requires a !in s.attempts && nonce in s.issued && s.issued[nonce].nonce == nonce && nonce !in s.nonces
    ensures VerifyAlone(s, a, nonce, photo, elapsed, rpcOk, face, stored).tickets ==
      if InTime(s, nonce, elapsed) then Entered(s, s.issued[nonce].sub, photo, rpcOk, face) else s.tickets
  {
    var u := ReserveStep(FreshStep(Wait(ScanStep(s, a, nonce, photo), elapsed), a), a);
    FreshScanReserves(s, a, nonce, photo, elapsed);
    if InTime(s, nonce, elapsed) {
      ReservedEnters(u, a, photo, rpcOk, face, stored);
    } else {
      NothingAfterEnd(u, a, rpcOk, face, stored);
    }
  }

  /** A QR code just issued lets its own ticket in, if that ticket may enter, when it is scanned within 60 seconds and
      checked no later than that; after that it changes nothing. */
  lemma FreshQrAdmits(s: State, id: string, nonce: string, waited: nat, a: nat, photo: bool, elapsed: nat,
                      rpcOk: bool, face: FaceOutcome, stored: bool)
    requires nonce !in s.issued && nonce !in s.nonces && a !in s.attempts
    ensures var t := Wait(GenerateStep(s, id, nonce), waited);
      VerifyAlone(t, a, nonce, photo, elapsed, rpcOk, face, stored).tickets ==
        if waited < 60 && waited + elapsed <= 60 then Entered(s, id, photo, rpcOk, face) else s.tickets
  {
    var t := Wait(GenerateStep(s, id, nonce), waited);
    if nonce in t.issued {
      ScannedEnters(t, a, nonce, photo, elapsed, rpcOk, face, stored);
    } else {
      var u := ReserveStep(FreshStep(Wait(ScanStep(t, a, nonce, photo), elapsed), a), a);
      UnknownTokenStops(t, a, nonce, photo, elapsed);
      NothingAfterEnd(u, a, rpcOk, face, stored);
    }
  }

  lemma UnknownTokenStops(s: State, a: nat, nonce: string, photo: bool, elapsed: nat)
    requires a !in s.attempts && nonce !in s.issued
    ensures ReserveStep(FreshStep(Wait(ScanStep(s, a, nonce, photo), elapsed), a), a) == Wait(s, elapsed)
  {
  }
}
