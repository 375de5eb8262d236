/** The ticketing and gate services over their shared stores, written as they run: statement by statement,
    with early exits. Each method is tied to the machine in Admission. */
module BoxOffice {
  import opened Options
  import opened Admission
  import opened EntryStats
  import Ecpay
  import Sbt

  // ---------------------------------------------------------------- a gate attempt that nobody interrupts

  function FromMark(s: State, a: nat, stored: bool): State {
    LogStep(MarkStep(s, a), a, stored)
  }

  function FromFace(s: State, a: nat, face: FaceOutcome, stored: bool): State {
    FromMark(FaceStep(s, a, face), a, stored)
  }

  function FromOwnership(s: State, a: nat, rpcOk: bool, face: FaceOutcome, stored: bool): State {
    FromFace(OwnershipStep(s, a, rpcOk), a, face, stored)
  }

  function FromRead(s: State, a: nat, rpcOk: bool, face: FaceOutcome, stored: bool): State {
    FromOwnership(ReadStep(s, a), a, rpcOk, face, stored)
  }

  function FromReserve(s: State, a: nat, rpcOk: bool, face: FaceOutcome, stored: bool): State {
    FromRead(ReserveStep(s, a), a, rpcOk, face, stored)
  }

  function FromFresh(s: State, a: nat, rpcOk: bool, face: FaceOutcome, stored: bool): State {
    FromReserve(FreshStep(s, a), a, rpcOk, face, stored)
  }

  function Wait(s: State, seconds: nat): State {
    s.(clock := s.clock + seconds)
  }

  /** All steps of `verifyEntry` in a row, `elapsed` seconds passing between the token check and the
      freshness check; steps after an early exit find nothing to do. */
  function VerifyAlone(s: State, a: nat, nonce: string, photo: bool, elapsed: nat,
                       rpcOk: bool, face: FaceOutcome, stored: bool): State {
    FromFresh(Wait(ScanStep(s, a, nonce, photo), elapsed), a, rpcOk, face, stored)
  }

  function FallbackAlone(s: State, a: nat, eventId: string, userId: string, minted: Option<string>,
                         paid: Option<string>, stored: bool): State {
    FromMark(FindPaidStep(FindMintedStep(s, a, eventId, userId, minted), a, paid), a, stored)
  }

  lemma NothingAfterEnd(s: State, a: nat, rpcOk: bool, face: FaceOutcome, stored: bool)
    requires a !in s.attempts
    ensures FromFace(s, a, face, stored) == s && FromMark(s, a, stored) == s
    ensures FromRead(s, a, rpcOk, face, stored) == s
    ensures FromReserve(s, a, rpcOk, face, stored) == s
    ensures FromFresh(s, a, rpcOk, face, stored) == s
  {
  }

  lemma OnlyLoggingLeft(s: State, a: nat, rpcOk: bool, face: FaceOutcome, stored: bool)
    requires a in s.attempts && s.attempts[a].Logging?
    ensures FromMark(s, a, stored) == LogStep(s, a, stored)
    ensures FromFace(s, a, face, stored) == LogStep(s, a, stored)
    ensures FromOwnership(s, a, rpcOk, face, stored) == LogStep(s, a, stored)
  {
  }

  lemma UnfitIsRejected(s: State, a: nat)
    requires a in s.attempts && s.attempts[a].Reserved?
    requires var id := s.attempts[a].payload.sub; id in s.tickets ==> s.tickets[id].status !in {MINTED, PAID}
    ensures var id := s.attempts[a].payload.sub;
      ReadStep(s, a) ==
        Put(s, a, Logging(GateLog(if id in s.tickets then s.tickets[id].eventId else id, id, NORMAL, FAILED)))
  {
  }

  lemma {:induction false} RunFirst(p: Platform, s: State, first: Action, rest: seq<Action>)
    ensures Run(p, s, [first] + rest) == Run(p, Step(p, s, first), rest)
  {
    var all := [first] + rest;
    if rest == [] {
      assert all[..0] == [] && all[0] == first;
    } else {
      assert all[..|all| - 1] == [first] + rest[..|rest| - 1];
      RunFirst(p, s, first, rest[..|rest| - 1]);
    }
  }

  function MarkScript(a: nat, stored: bool): seq<Action> {
    [MarkUsed(a)] + [WriteLog(a, stored)]
  }

  function CheckScript(a: nat, rpcOk: bool, face: FaceOutcome, stored: bool): seq<Action> {
    [ReadTicket(a)] + ([CheckOwnership(a, rpcOk)] + ([CompareFace(a, face)] + MarkScript(a, stored)))
  }

  function FreshScript(a: nat, rpcOk: bool, face: FaceOutcome, stored: bool): seq<Action> {
    [CheckFreshness(a)] + ([ReserveNonce(a)] + CheckScript(a, rpcOk, face, stored))
  }

  function VerifyScript(a: nat, nonce: string, photo: bool, elapsed: nat, rpcOk: bool, face: FaceOutcome, stored: bool)
    : seq<Action>
  {
    [Scan(a, nonce, photo)] + ([Tick(elapsed)] + FreshScript(a, rpcOk, face, stored))
  }

  lemma MarkScriptRuns(p: Platform, s: State, a: nat, stored: bool)
    ensures Run(p, s, MarkScript(a, stored)) == FromMark(s, a, stored)
  {
    RunFirst(p, s, MarkUsed(a), [WriteLog(a, stored)]);
    RunFirst(p, MarkStep(s, a), WriteLog(a, stored), []);
    assert [WriteLog(a, stored)] + [] == [WriteLog(a, stored)];
  }

  lemma CheckScriptRuns(p: Platform, s: State, a: nat, rpcOk: bool, face: FaceOutcome, stored: bool)
    ensures Run(p, s, CheckScript(a, rpcOk, face, stored)) == FromRead(s, a, rpcOk, face, stored)
  {
    var s1 := ReadStep(s, a);
    var s2 := OwnershipStep(s1, a, rpcOk);
    RunFirst(p, s, ReadTicket(a), [CheckOwnership(a, rpcOk)] + ([CompareFace(a, face)] + MarkScript(a, stored)));
    RunFirst(p, s1, CheckOwnership(a, rpcOk), [CompareFace(a, face)] + MarkScript(a, stored));
    RunFirst(p, s2, CompareFace(a, face), MarkScript(a, stored));
    MarkScriptRuns(p, FaceStep(s2, a, face), a, stored);
  }

  lemma FreshScriptRuns(p: Platform, s: State, a: nat, rpcOk: bool, face: FaceOutcome, stored: bool)
    ensures Run(p, s, FreshScript(a, rpcOk, face, stored)) == FromFresh(s, a, rpcOk, face, stored)
  {
    var checks, s1 := CheckScript(a, rpcOk, face, stored), FreshStep(s, a);
    RunFirst(p, s, CheckFreshness(a), [ReserveNonce(a)] + checks);
    RunFirst(p, s1, ReserveNonce(a), checks);
    CheckScriptRuns(p, ReserveStep(s1, a), a, rpcOk, face, stored);
  }

  /** The uninterrupted call is one of the runs that the theorems about interleavings speak of. */
  lemma VerifyAloneIsARun(p: Platform, s: State, a: nat, nonce: string, photo: bool, elapsed: nat,
                          rpcOk: bool, face: FaceOutcome, stored: bool)
    ensures Run(p, s, VerifyScript(a, nonce, photo, elapsed, rpcOk, face, stored))
         == VerifyAlone(s, a, nonce, photo, elapsed, rpcOk, face, stored)
  {
    var rest, s2 := FreshScript(a, rpcOk, face, stored), Wait(ScanStep(s, a, nonce, photo), elapsed);
    ScanAndWait(p, s, a, nonce, photo, elapsed, rest);
    FreshScriptRuns(p, s2, a, rpcOk, face, stored);
  }

  lemma ScanAndWait(p: Platform, s: State, a: nat, nonce: string, photo: bool, elapsed: nat, rest: seq<Action>)
    ensures Run(p, s, [Scan(a, nonce, photo)] + ([Tick(elapsed)] + rest))
         == Run(p, Wait(ScanStep(s, a, nonce, photo), elapsed), rest)
  {
    var s1 := ScanStep(s, a, nonce, photo);
    RunFirst(p, s, Scan(a, nonce, photo), [Tick(elapsed)] + rest);
    RunFirst(p, s1, Tick(elapsed), rest);
    assert Step(p, s1, Tick(elapsed)) == Wait(s1, elapsed);
  }

  function FallbackScript(a: nat, eventId: string, userId: string, minted: Option<string>, paid: Option<string>,
                          stored: bool): seq<Action>
  {
    [FindMinted(a, eventId, userId, minted)] + ([FindPaid(a, paid)] + MarkScript(a, stored))
  }

  /** So is the uninterrupted fallback. */
  lemma FallbackAloneIsARun(p: Platform, s: State, a: nat, eventId: string, userId: string,
                            minted: Option<string>, paid: Option<string>, stored: bool)
    ensures Run(p, s, FallbackScript(a, eventId, userId, minted, paid, stored))
         == FallbackAlone(s, a, eventId, userId, minted, paid, stored)
  {
    var s1 := FindMintedStep(s, a, eventId, userId, minted);
    RunFirst(p, s, FindMinted(a, eventId, userId, minted), [FindPaid(a, paid)] + MarkScript(a, stored));
    RunFirst(p, s1, FindPaid(a, paid), MarkScript(a, stored));
    MarkScriptRuns(p, FindPaidStep(s1, a, paid), a, stored);
  }

  /** A field of a form body; its values are strings. */
  function Field(body: seq<Ecpay.Entry>, name: string): Option<string> {
    match Ecpay.Lookup(body, name)
    case Some(Text(s)) => Some(s)
    case _ => None
  }

  datatype CallbackReply = MacError | OrderNotFound | Accepted

  function Truthy(s: Option<string>): Option<string> {
    if s == Some("") then None else s
  }

  datatype EntryResult =
    | Admitted(ticketId: string, mode: VerificationMode)
    | Unauthorized
    | Conflict
    | BadRequest
    | ServiceError

  /** The token is genuine and young enough, both when it is parsed and `elapsed` seconds later. */
  predicate TokenAccepted(s: State, nonce: string, elapsed: nat) {
    && nonce in s.issued
    && s.clock < s.issued[nonce].iat + 60 && s.clock + elapsed <= s.issued[nonce].iat + 60
  }

  /** At that time the key of the token's nonce is still there. */
  predicate KeyHeld(s: State, nonce: string, now: nat)
    requires nonce in s.issued
  {
    var key := s.issued[nonce].nonce;
    key in s.nonces && now < s.nonces[key]
  }

  /** The chain answers that the wallet of the ticket does not hold its token. */
  predicate Disowned(s: State, t: Ticket, rpcOk: bool) {
    && t.sbtTokenId.Some? && t.aaWalletAddress.Some? && rpcOk
    && Sbt.BalanceOf(s.ledger.balances, t.aaWalletAddress.value, t.sbtTokenId.value) == 0
  }

  function ModeOf(facePhoto: bool): VerificationMode {
    if facePhoto then STRONG else NORMAL
  }

  /** What a caller past the nonce is told, provided the log can be stored. */
  function AnswerTo(s: State, ticketId: string, facePhoto: bool, rpcOk: bool, face: FaceOutcome): EntryResult {
    if ticketId !in s.tickets then BadRequest
    else match s.tickets[ticketId].status
      case USED => Conflict
      case PREAUTHORIZED => BadRequest
      case REFUNDED => BadRequest
      case _ =>
        if Disowned(s, s.tickets[ticketId], rpcOk) then Unauthorized
        else if facePhoto && face.Unavailable? then ServiceError
        else if facePhoto && face.Mismatched? then Unauthorized
        else Admitted(ticketId, ModeOf(facePhoto))
  }

  /** The log of a scan past the nonce. A ticket nobody knows is logged under its own id, and only a face comparison
      makes a log STRONG; nothing is logged when the face service does not answer. */
  function LogsOf(s: State, ticketId: string, facePhoto: bool, rpcOk: bool, face: FaceOutcome): seq<GateLog> {
    var answer := AnswerTo(s, ticketId, facePhoto, rpcOk, face);
    if ticketId !in s.tickets then [GateLog(ticketId, ticketId, NORMAL, FAILED)]
    else
      var event := s.tickets[ticketId].eventId;
      if answer.Admitted? then [GateLog(event, ticketId, ModeOf(facePhoto), SUCCESS)]
      else if answer.ServiceError? then []
      else if answer.Unauthorized? && !Disowned(s, s.tickets[ticketId], rpcOk) then [GateLog(event, ticketId, STRONG, FAILED)]
      else [GateLog(event, ticketId, NORMAL, FAILED)]
  }

  /** A ticket that lets the person into the event. */
  predicate Holds(t: Ticket, eventId: string, userId: string) {
    t.eventId == eventId && t.userId == userId && t.status in {MINTED, PAID}
  }

  /** The conditional update and the log of its outcome. */
  ghost predicate MarkedAndLogged(s: State, s': State, r: EntryResult, ticketId: string, eventId: string,
                                  mode: VerificationMode, admission: VerificationResult, stored: bool)
  {
    var affected := ticketId in s.tickets && s.tickets[ticketId].status in {PAID, MINTED};
    && r == (if !stored then ServiceError else if affected then Admitted(ticketId, mode) else Conflict)
    && s'.tickets == (if affected then s.tickets[ticketId := s.tickets[ticketId].(status := USED)] else s.tickets)
    && s'.logs == (if !stored then s.logs
                   else s.logs + [GateLog(eventId, ticketId, mode, if affected then admission else FAILED)])
    && s'.nonces == s.nonces && s'.clock == s.clock && s'.ledger == s.ledger
  }

  /** The answer, the log and the tickets after the nonce, in the inputs alone. */
  ghost predicate Resolved(s: State, s': State, r: EntryResult, ticketId: string, facePhoto: bool, rpcOk: bool,
                           face: FaceOutcome, stored: bool)
  {
    var answer := AnswerTo(s, ticketId, facePhoto, rpcOk, face);
    && r == (if stored then answer else ServiceError)
    && s'.logs == (if stored then s.logs + LogsOf(s, ticketId, facePhoto, rpcOk, face) else s.logs)
    && s'.tickets ==
         (if answer.Admitted? then s.tickets[ticketId := s.tickets[ticketId].(status := USED)] else s.tickets)
    && s'.ledger == s.ledger
  }

  ghost predicate StatusRefused(s: State, s': State, r: EntryResult, ticketId: string, stored: bool) {
    && r == (if !stored then ServiceError
             else if ticketId in s.tickets && s.tickets[ticketId].status == USED then Conflict else BadRequest)
    && s'.logs == s.logs + (if !stored then []
                            else if ticketId in s.tickets then [GateLog(s.tickets[ticketId].eventId, ticketId, NORMAL, FAILED)]
                            else [GateLog(ticketId, ticketId, NORMAL, FAILED)])
    && s'.tickets == s.tickets && s'.ledger == s.ledger
  }

  lemma ResolvedByStatus(s: State, s': State, r: EntryResult, ticketId: string, facePhoto: bool, rpcOk: bool,
                         face: FaceOutcome, stored: bool)
    requires ticketId in s.tickets ==> s.tickets[ticketId].status !in {MINTED, PAID}
    requires StatusRefused(s, s', r, ticketId, stored)
    ensures Resolved(s, s', r, ticketId, facePhoto, rpcOk, face, stored)
  {
  }

  lemma ResolvedByOwner(s: State, s': State, r: EntryResult, ticketId: string, facePhoto: bool, rpcOk: bool,
                        face: FaceOutcome, stored: bool)
    requires ticketId in s.tickets && s.tickets[ticketId].status in {MINTED, PAID} && Disowned(s, s.tickets[ticketId], rpcOk)
    requires r == if stored then Unauthorized else ServiceError
    requires s'.tickets == s.tickets && s'.ledger == s.ledger && s'.logs == s.logs +
      if stored then [GateLog(s.tickets[ticketId].eventId, ticketId, NORMAL, FAILED)] else []
    ensures Resolved(s, s', r, ticketId, facePhoto, rpcOk, face, stored)
  {
  }

  lemma ResolvedByFace(s: State, s': State, r: EntryResult, ticketId: string, rpcOk: bool, face: FaceOutcome, stored: bool)
    requires ticketId in s.tickets && s.tickets[ticketId].status in {MINTED, PAID} && !Disowned(s, s.tickets[ticketId], rpcOk)
    requires !face.Matched? && s'.tickets == s.tickets && s'.ledger == s.ledger
    requires face.Unavailable? ==> r == ServiceError && s'.logs == s.logs
    requires face.Mismatched? ==>
      && r == (if stored then Unauthorized else ServiceError)
      && s'.logs == s.logs + if stored then [GateLog(s.tickets[ticketId].eventId, ticketId, STRONG, FAILED)] else []
    ensures Resolved(s, s', r, ticketId, true, rpcOk, face, stored)
  {
  }

  lemma ResolvedByUpdate(s: State, s': State, r: EntryResult, ticketId: string, facePhoto: bool, rpcOk: bool,
                         face: FaceOutcome, stored: bool)
    requires ticketId in s.tickets && s.tickets[ticketId].status in {MINTED, PAID} && !Disowned(s, s.tickets[ticketId], rpcOk)
    requires facePhoto ==> face.Matched?
    requires MarkedAndLogged(s, s', r, ticketId, s.tickets[ticketId].eventId, ModeOf(facePhoto), SUCCESS, stored)
    ensures Resolved(s, s', r, ticketId, facePhoto, rpcOk, face, stored)
  {
  }

  lemma ResolvedFromEarlier(s: State, t: State, s': State, r: EntryResult, ticketId: string, facePhoto: bool, rpcOk: bool,
                            face: FaceOutcome, stored: bool)
    requires t.tickets == s.tickets && t.ledger == s.ledger && t.logs == s.logs
    requires Resolved(t, s', r, ticketId, facePhoto, rpcOk, face, stored)
    ensures Resolved(s, s', r, ticketId, facePhoto, rpcOk, face, stored)
  {
  }

  /** Steps 1 to 3: a token that is accepted and whose key is not there sets the key, for 120 s. */
  ghost predicate PassedNonce(s: State, t: State, nonce: string, elapsed: nat, payload: Option<QrPayload>) {
    && t.clock == s.clock + elapsed
    && t.tickets == s.tickets && t.ledger == s.ledger && t.logs == s.logs
    && (payload.Some? <==> TokenAccepted(s, nonce, elapsed) && !KeyHeld(s, nonce, t.clock))
    && (payload.Some? ==> payload.value == s.issued[nonce])
    && t.nonces == if payload.Some? then s.nonces[payload.value.nonce := t.clock + 120] else s.nonces
  }

  /** What `verifyEntry` answers, logs and changes, in its inputs alone. */
  ghost predicate Answered(s: State, s': State, r: EntryResult, nonce: string, facePhoto: bool, elapsed: nat,
                           rpcOk: bool, face: FaceOutcome, stored: bool)
  {
    && s'.clock == s.clock + elapsed
    && if !TokenAccepted(s, nonce, elapsed) then
         r == Unauthorized && s'.logs == s.logs && s'.tickets == s.tickets && s'.nonces == s.nonces && s'.ledger == s.ledger
       else if KeyHeld(s, nonce, s'.clock) then
         r == Conflict && s'.logs == s.logs && s'.tickets == s.tickets && s'.nonces == s.nonces && s'.ledger == s.ledger
       else
         && s'.nonces == s.nonces[s.issued[nonce].nonce := s'.clock + 120]
         && Resolved(s, s', r, s.issued[nonce].sub, facePhoto, rpcOk, face, stored)
  }

  lemma AnsweredEarly(s: State, t: State, nonce: string, facePhoto: bool, elapsed: nat,
                      rpcOk: bool, face: FaceOutcome, stored: bool)
    requires PassedNonce(s, t, nonce, elapsed, None)
    ensures Answered(s, t, if TokenAccepted(s, nonce, elapsed) then Conflict else Unauthorized,
                     nonce, facePhoto, elapsed, rpcOk, face, stored)
  {
  }

  lemma AnsweredLate(s: State, t: State, s': State, r: EntryResult, nonce: string, facePhoto: bool, elapsed: nat,
                     rpcOk: bool, face: FaceOutcome, stored: bool)
    requires nonce in s.issued && PassedNonce(s, t, nonce, elapsed, Some(s.issued[nonce]))
    requires s'.nonces == t.nonces && s'.clock == t.clock
    requires Resolved(t, s', r, s.issued[nonce].sub, facePhoto, rpcOk, face, stored)
    ensures Answered(s, s', r, nonce, facePhoto, elapsed, rpcOk, face, stored)
  {
  }

  /** A refund burns the ticket's token; a burn that fails, on chain or on the way there, leaves it stranded. */
  ghost predicate BurnedOrStranded(s: State, s': State, ticketId: string, txOk: bool)
    requires ticketId in s.tickets
  {
    var t := s.tickets[ticketId];
    if t.sbtTokenId.None? || t.aaWalletAddress.None? then s'.ledger == s.ledger && s'.stranded == s.stranded
    else
      var wallet, tokenId := t.aaWalletAddress.value, t.sbtTokenId.value;
      if txOk && wallet != Sbt.ZERO && Sbt.BalanceOf(s.ledger.balances, wallet, tokenId) >= 1 then
        && Sbt.Shifted(s.ledger.balances, s'.ledger.balances, wallet, Sbt.ZERO, Sbt.Item(tokenId, 1))
        && s'.stranded == s.stranded
      else s'.ledger == s.ledger && s'.stranded == s.stranded + {ticketId}
  }

  class BoxOffice {
    const platform: Platform
    const sbt: Sbt.BlockTicSBT
    var tickets: map<string, Ticket>
    var issued: map<string, QrPayload>
    var nonces: map<string, nat>
    var logs: seq<GateLog>
    var clock: nat
    ghost var attempts: map<nat, Attempt>
    ghost var passed: seq<string>
    ghost var stranded: set<string>
    ghost var admissions: map<string, Record>

    constructor (platform: Platform)
      ensures View() == Initial(platform) && this.platform == platform && fresh(sbt)
    {
      this.platform := platform;
      sbt := new Sbt.BlockTicSBT(platform.signer);
      tickets, issued, nonces, logs, clock := map[], map[], map[], [], 0;
      attempts, passed, stranded, admissions := map[], [], {}, map[];
    }

    ghost function View(): State
      reads this, sbt
    {
      State(tickets, sbt.View(), issued, nonces, logs, attempts, clock, passed, stranded, admissions)
    }

    // -------------------------------------------------------------- ticketing

    /** `ticketId`, `tradeNo` and `tradeDate` are generated. */
    method Preauthorize(m: Ecpay.Merchant, ticketId: string, eventId: string, userId: string, amount: int,
                        tradeNo: string, tradeDate: string, clientUrl: string)
      returns (paymentFormData: map<string, string>)
      requires ticketId !in tickets
      modifies this`tickets
      ensures View() == TicketStep(platform, old(View()), Action.Preauthorize(ticketId, eventId, userId, amount, tradeNo))
      ensures tickets == old(tickets)[ticketId :=
        Ticket(eventId, userId, amount, PREAUTHORIZED, None, None, Some(tradeNo), None)]
      ensures Ecpay.OrderHeld(paymentFormData, m, tradeNo, tradeDate, (m.signer.decimal)(amount as real), clientUrl)
      ensures forall body :: Ecpay.Lists(body, paymentFormData - {"_action"}) ==> Ecpay.CallbackAccepts(m.signer, body)
    {
      tickets := tickets[ticketId := Ticket(eventId, userId, amount, PREAUTHORIZED, None, None, Some(tradeNo), None)];
      paymentFormData := Ecpay.BuildEcpayFormData(m, tradeNo, tradeDate, amount as real, clientUrl);
    }

    method CapturePayment(ticketId: string, ecpayOk: bool) returns (ok: bool)
      modifies this
      ensures View() == TicketStep(platform, old(View()), Action.CapturePayment(ticketId, ecpayOk))
      ensures ok <==> ticketId in old(tickets) && old(tickets)[ticketId].status == PREAUTHORIZED && ecpayOk
      ensures tickets == if ok then old(tickets)[ticketId := old(tickets)[ticketId].(status := PAID)] else old(tickets)
    {
      if ticketId !in tickets { return false; }
      var ticket := tickets[ticketId];
      if ticket.status != PREAUTHORIZED || !ecpayOk { return false; }
      tickets := tickets[ticketId := ticket.(status := PAID)];
      ok := true;
    }

    method MintTicket(ticketId: string, wallet: Option<Sbt.Address>, txOk: bool) returns (ok: bool)
      requires platform.signer != Sbt.ZERO
      modifies this, sbt
      ensures View() == MintStep(platform, old(View()), ticketId, wallet, txOk)
      ensures ok <==>
        && ticketId in old(tickets) && old(tickets)[ticketId].status == PAID && wallet.Some? && txOk
        && wallet.value != Sbt.ZERO && old(sbt.owner) == platform.signer
        && old(Sbt.BalanceOf(sbt.balances, wallet.value, 1000 + platform.digest(ticketId) % 1_000_000_000)) + 1 < Sbt.UINT_LIMIT
      ensures var tokenId: nat := 1000 + platform.digest(ticketId) % 1_000_000_000;
        if ok then
          && tickets == old(tickets)[ticketId := old(tickets)[ticketId].(
               status := MINTED, sbtTokenId := Some(tokenId), aaWalletAddress := wallet)]
          && Sbt.Shifted(old(sbt.balances), sbt.balances, Sbt.ZERO, wallet.value, Sbt.Item(tokenId, 1))
        else tickets == old(tickets) && sbt.View() == old(sbt.View())
    {
      if ticketId !in tickets { return false; }
      var ticket := tickets[ticketId];
      if ticket.status != PAID || wallet.None? { return false; }
      var sbtTokenId := DeriveTokenId(platform, ticketId);
      if !txOk { return false; }   // the transaction did not go through
      Sbt.MintDone(sbt.View(), platform.signer, wallet.value, sbtTokenId, 1);
      var minted := sbt.Mint(platform.signer, wallet.value, sbtTokenId, 1);
      if !minted { return false; }
      tickets := tickets[ticketId :=
        ticket.(status := MINTED, sbtTokenId := Some(sbtTokenId), aaWalletAddress := wallet)];
      ok := true;
    }

    method RefundTicket(ticketId: string, requester: Option<string>, ecpayOk: bool, txOk: bool) returns (ok: bool)
      requires platform.signer != Sbt.ZERO
      modifies this, sbt
      ensures View() == RefundStep(platform, old(View()), ticketId, requester, ecpayOk, txOk)
      ensures ok <==>
        && ticketId in old(tickets) && old(tickets)[ticketId].status in {PREAUTHORIZED, PAID, MINTED}
        && (requester.Some? && requester.value != "" ==> requester.value == old(tickets)[ticketId].userId)
        && (old(tickets)[ticketId].preauthTradeNo.Some? ==> ecpayOk)
      ensures tickets == if ok then old(tickets)[ticketId := old(tickets)[ticketId].(status := REFUNDED)] else old(tickets)
      ensures ok ==> BurnedOrStranded(old(View()), View(), ticketId, txOk && old(sbt.owner) == platform.signer)
      ensures !ok ==> sbt.View() == old(sbt.View()) && stranded == old(stranded)
    {
      if ticketId !in tickets { return false; }
      var ticket := tickets[ticketId];
      if requester.Some? && requester.value != "" && ticket.userId != requester.value { return false; }
      if !Refundable(ticket) { return false; }
      if ticket.preauthTradeNo.Some? && !ecpayOk { return false; }
      if HasToken(ticket) {
        BurnToken(ticketId, ticket, txOk);
      }
      tickets := tickets[ticketId := ticket.(status := REFUNDED)];
      ok := true;
    }

    /** A failed burn is logged and swallowed. */
    method BurnToken(ghost ticketId: string, ticket: Ticket, txOk: bool)
      requires platform.signer != Sbt.ZERO && HasToken(ticket)
      modifies this`stranded, sbt
      ensures var burn := BurnOf(platform, old(View()), ticket);
        if txOk && burn.Done? then sbt.View() == burn.ledger && stranded == old(stranded)
        else sbt.View() == old(sbt.View()) && stranded == old(stranded) + {ticketId}
      ensures ticketId in old(tickets) && old(tickets)[ticketId] == ticket ==>
        BurnedOrStranded(old(View()), View(), ticketId, txOk && old(sbt.owner) == platform.signer)
    {
      var burned := false;
      if txOk {
        burned := sbt.Burn(platform.signer, ticket.aaWalletAddress.value, ticket.sbtTokenId.value, 1);
        Sbt.BurnDone(old(sbt.View()), platform.signer, ticket.aaWalletAddress.value, ticket.sbtTokenId.value, 1);
      }
      if !burned {
        stranded := stranded + {ticketId};
      }
    }

    /** `findOne` by trade number; a body without one asks for any ticket. */
    ghost predicate FindsTrade(tradeNo: Option<string>, found: Option<string>)
      reads this
    {
      match found
      case Some(id) => id in tickets && (tradeNo.Some? ==> tickets[id].preauthTradeNo == tradeNo)
      case None => forall id :: id in tickets ==> tradeNo.Some? && tickets[id].preauthTradeNo != tradeNo
    }

    method HandleEcpayCallback(signer: Ecpay.Signer, body: seq<Ecpay.Entry>, found: Option<string>) returns (reply: CallbackReply)
      requires FindsTrade(Field(body, "MerchantTradeNo"), found)
      modifies this`tickets
      ensures reply == if !Ecpay.CallbackAccepts(signer, body) then MacError
                       else if found.None? then OrderNotFound else Accepted
      ensures !reply.Accepted? ==> View() == old(View())
      ensures reply.Accepted? ==>
        match Field(body, "TradeNo")
        case Some(no) =>
          tickets == if no == "" then old(tickets)
                     else old(tickets)[found.value := old(tickets)[found.value].(ecpayTradeNo := Some(no))]
        case None => tickets == old(tickets)
      ensures reply.Accepted? ==> View() == TicketStep(platform, old(View()),
        Action.EcpayCallback(found.value, Field(body, "MerchantTradeNo"), Truthy(Field(body, "TradeNo"))))
    {
      var receivedMac := Ecpay.Lookup(body, Ecpay.MAC);
      var expectedMac := Ecpay.CheckMacValue(signer, Ecpay.Without(body, Ecpay.MAC));
      if receivedMac != Some(Ecpay.Text(expectedMac)) { return MacError; }
      var ecpayTradeNo := Truthy(Field(body, "TradeNo"));
      if found.None? { return OrderNotFound; }
      if ecpayTradeNo.Some? {
        tickets := tickets[found.value := tickets[found.value].(ecpayTradeNo := ecpayTradeNo)];
      }
      reply := Accepted;
    }

    // -------------------------------------------------------------- gate

    method GenerateDynamicQr(ticketId: string, nonce: string) returns (ok: bool)
      requires nonce !in issued
      modifies this`issued
      ensures View() == GenerateStep(old(View()), ticketId, nonce)
      ensures issued == if ok then old(issued)[nonce := QrPayload(ticketId, nonce, clock)] else old(issued)
      ensures ok <==> ticketId in tickets && tickets[ticketId].status != USED && tickets[ticketId].status != REFUNDED
    {
      if ticketId !in tickets { return false; }
      if tickets[ticketId].status == USED { return false; }
      if tickets[ticketId].status == REFUNDED { return false; }
      issued := issued[nonce := QrPayload(ticketId, nonce, clock)];
      ok := true;
    }

    /** `saveLog`, the last thing an attempt does. */
    method SaveLog(ghost a: nat, log: GateLog, stored: bool)
      requires a in attempts && attempts[a] == Logging(log)
      modifies this`logs, this`attempts, this`admissions
      ensures View() == LogStep(old(View()), a, stored)
      ensures logs == if stored then old(logs) + [log] else old(logs)
    {
      if IsAdmission(log) {
        admissions := admissions[log.ticketId := if stored then Logged(|logs|) else Lost];
      }
      if stored {
        logs := logs + [log];
      }
      attempts := attempts - {a};
    }

    /** Steps 1 and 2: signature and expiry of the token, then its freshness. */
    method AcceptToken(ghost a: nat, nonce: string, facePhoto: bool, elapsed: nat) returns (r: Option<QrPayload>)
      requires a !in attempts
      modifies this`attempts, this`clock
      ensures View() == FreshStep(Wait(ScanStep(old(View()), a, nonce, facePhoto), elapsed), a)
      ensures r.None? ==> a !in attempts
      ensures r.Some? <==> TokenAccepted(old(View()), nonce, elapsed)
      ensures clock == old(clock) + elapsed
      ensures r.Some? ==> r.value == issued[nonce]
      ensures r.Some? ==> a in attempts && attempts[a] == Fresh(r.value, facePhoto, clock)
    {
      if nonce !in issued || clock >= issued[nonce].iat + QR_TTL_SECONDS {
        clock := clock + elapsed;
        return None;
      }
      var payload := issued[nonce];
      attempts := attempts[a := Scanned(payload, facePhoto)];
      clock := clock + elapsed;
      if clock > payload.iat + QR_TTL_SECONDS {
        attempts := attempts - {a};
        return None;
      }
      attempts := attempts[a := Fresh(payload, facePhoto, clock)];
      r := Some(payload);
    }

    /** Step 3: SET NX in Redis. */
    method SetNonce(ghost a: nat, payload: QrPayload, ghost facePhoto: bool) returns (isNew: bool)
      requires a in attempts && attempts[a].Fresh? && attempts[a].payload == payload && attempts[a].photo == facePhoto
      modifies this`nonces, this`attempts, this`passed
      ensures isNew <==> !(payload.nonce in old(nonces) && clock < old(nonces)[payload.nonce])
      ensures nonces == if isNew then old(nonces)[payload.nonce := clock + 120] else old(nonces)
      ensures View() == ReserveStep(old(View()), a)
      ensures if isNew then a in attempts && attempts[a] == Reserved(payload, facePhoto) else a !in attempts
    {
      isNew := !(payload.nonce in nonces && clock < nonces[payload.nonce]);
      if isNew {
        nonces := nonces[payload.nonce := clock + QR_TTL_SECONDS * 2];
        passed := passed + [payload.nonce];
        attempts := attempts[a := Reserved(payload, facePhoto)];
      } else {
        attempts := attempts - {a};
      }
    }

    /** Step 4: ticket status. */
    method CheckStatus(ghost a: nat, ticketId: string, ghost facePhoto: bool, ghost rpcOk: bool,
                       ghost face: FaceOutcome, stored: bool)
      returns (r: Option<Ticket>, refusal: EntryResult)
      requires a in attempts && attempts[a].Reserved?
      requires attempts[a].payload.sub == ticketId && attempts[a].photo == facePhoto
      modifies this`logs, this`attempts, this`admissions
      ensures r.Some? <==> ticketId in tickets && tickets[ticketId].status in {MINTED, PAID}
      ensures r.None? ==> StatusRefused(old(View()), View(), refusal, ticketId, stored)
      ensures r.None? ==> View() == FromRead(old(View()), a, rpcOk, face, stored)
      ensures r.Some? ==> ticketId in tickets && r.value == tickets[ticketId] && logs == old(logs)
      ensures r.Some? ==> a in attempts && attempts[a] == Read(ticketId, r.value, facePhoto)
      ensures r.Some? ==> View() == ReadStep(old(View()), a)
    {
      r, refusal := None, ServiceError;
      if ticketId !in tickets || (tickets[ticketId].status != MINTED && tickets[ticketId].status != PAID) {
        refusal := RefuseStatus(a, ticketId, rpcOk, face, stored);
        return;
      }
      var ticket := tickets[ticketId];
      attempts := attempts[a := Read(ticketId, ticket, facePhoto)];
      r := Some(ticket);
    }

    /** Step 4 where it ends: no such ticket, a used one, or one in no state to enter. */
    method RefuseStatus(ghost a: nat, ticketId: string, ghost rpcOk: bool, ghost face: FaceOutcome, stored: bool)
      returns (refusal: EntryResult)
      requires a in attempts && attempts[a].Reserved? && attempts[a].payload.sub == ticketId
      requires ticketId in tickets ==> tickets[ticketId].status !in {MINTED, PAID}
      modifies this`logs, this`attempts, this`admissions
      ensures StatusRefused(old(View()), View(), refusal, ticketId, stored)
      ensures View() == FromRead(old(View()), a, rpcOk, face, stored)
    {
      ghost var s := View();
      var eventId := if ticketId in tickets then tickets[ticketId].eventId else ticketId;
      var used := ticketId in tickets && tickets[ticketId].status == USED;
      UnfitIsRejected(s, a);
      refusal := Refuse(a, GateLog(eventId, ticketId, NORMAL, FAILED), if used then Conflict else BadRequest, rpcOk, face, stored);
    }

    /** Step 5: ownership on chain. */
    method CheckOwner(ghost a: nat, ticketId: string, ticket: Ticket, ghost facePhoto: bool, rpcOk: bool,
                      ghost face: FaceOutcome, stored: bool)
      returns (valid: bool, refusal: EntryResult)
      requires a in attempts && attempts[a] == Read(ticketId, ticket, facePhoto)
      modifies this`logs, this`attempts, this`admissions
      ensures valid <==> !Disowned(old(View()), ticket, rpcOk)
      ensures !valid ==> View() == FromOwnership(old(View()), a, rpcOk, face, stored)
      ensures !valid ==> refusal == if stored then Unauthorized else ServiceError
      ensures !valid ==>
        logs == old(logs) + if stored then [GateLog(ticket.eventId, ticketId, NORMAL, FAILED)] else []
      ensures valid ==> a in attempts && attempts[a] == Owned(ticketId, ticket, facePhoto)
      ensures valid ==> logs == old(logs) && View() == OwnershipStep(old(View()), a, rpcOk)
    {
      valid, refusal := true, ServiceError;
      if HasToken(ticket) && rpcOk &&
         Sbt.BalanceOf(sbt.balances, ticket.aaWalletAddress.value, ticket.sbtTokenId.value) == 0
      {
        refusal := Refuse(a, GateLog(ticket.eventId, ticketId, NORMAL, FAILED), Unauthorized, rpcOk, face, stored);
        return false, refusal;
      }
      attempts := attempts[a := Owned(ticketId, ticket, facePhoto)];
    }

    method VerifyEntry(ghost a: nat, nonce: string, facePhoto: bool, elapsed: nat,
                       rpcOk: bool, face: FaceOutcome, stored: bool)
      returns (r: EntryResult)
      requires a !in attempts
      modifies this
      ensures View() == VerifyAlone(old(View()), a, nonce, facePhoto, elapsed, rpcOk, face, stored)
      ensures Answered(old(View()), View(), r, nonce, facePhoto, elapsed, rpcOk, face, stored)
    {
      ghost var s := View();
      var payload, refusal := PassNonce(a, nonce, facePhoto, elapsed);
      ghost var t := View();
      if payload.None? {
        NothingAfterEnd(t, a, rpcOk, face, stored);
        AnsweredEarly(s, t, nonce, facePhoto, elapsed, rpcOk, face, stored);
        return refusal;
      }
      r := CheckReserved(a, payload.value.sub, facePhoto, rpcOk, face, stored);
      AnsweredLate(s, t, View(), r, nonce, facePhoto, elapsed, rpcOk, face, stored);
    }

    /** Steps 1 to 3. */
    method PassNonce(ghost a: nat, nonce: string, facePhoto: bool, elapsed: nat)
      returns (payload: Option<QrPayload>, refusal: EntryResult)
      requires a !in attempts
      modifies this`attempts, this`clock, this`nonces, this`passed
      ensures View() == ReserveStep(FreshStep(Wait(ScanStep(old(View()), a, nonce, facePhoto), elapsed), a), a)
      ensures PassedNonce(old(View()), View(), nonce, elapsed, payload)
      ensures payload.None? ==> a !in attempts
      ensures payload.None? ==> refusal == if TokenAccepted(old(View()), nonce, elapsed) then Conflict else Unauthorized
      ensures payload.Some? ==> a in attempts && attempts[a] == Reserved(payload.value, facePhoto)
    {
      refusal := ServiceError;
      payload := AcceptToken(a, nonce, facePhoto, elapsed);
      if payload.None? {
        return None, Unauthorized;
      }
      var isNew := SetNonce(a, payload.value, facePhoto);
      if !isNew {
        return None, Conflict;
      }
    }

    /** Steps 4 to 8, once the nonce is set. */
    method CheckReserved(ghost a: nat, ticketId: string, facePhoto: bool, rpcOk: bool, face: FaceOutcome, stored: bool)
      returns (r: EntryResult)
      requires a in attempts && attempts[a].Reserved?
      requires attempts[a].payload.sub == ticketId && attempts[a].photo == facePhoto
      modifies this
      ensures View() == FromRead(old(View()), a, rpcOk, face, stored)
      ensures Resolved(old(View()), View(), r, ticketId, facePhoto, rpcOk, face, stored)
      ensures nonces == old(nonces) && clock == old(clock)
    {
      ghost var s := View();
      var ticket, refusal := CheckStatus(a, ticketId, facePhoto, rpcOk, face, stored);
      if ticket.None? {
        ResolvedByStatus(s, View(), refusal, ticketId, facePhoto, rpcOk, face, stored);
        return refusal;
      }
      ghost var t := View();
      r := CheckTicket(a, ticketId, ticket.value, facePhoto, rpcOk, face, stored);
      ResolvedFromEarlier(s, t, View(), r, ticketId, facePhoto, rpcOk, face, stored);
    }

    /** Steps 5 to 8, for a ticket in a state to enter. */
    method CheckTicket(ghost a: nat, ticketId: string, ticket: Ticket, facePhoto: bool, rpcOk: bool,
                       face: FaceOutcome, stored: bool)
      returns (r: EntryResult)
      requires a in attempts && attempts[a] == Read(ticketId, ticket, facePhoto)
      requires ticketId in tickets && tickets[ticketId] == ticket && ticket.status in {MINTED, PAID}
      modifies this
      ensures View() == FromOwnership(old(View()), a, rpcOk, face, stored)
      ensures Resolved(old(View()), View(), r, ticketId, facePhoto, rpcOk, face, stored)
      ensures nonces == old(nonces) && clock == old(clock)
    {
      ghost var s := View();
      var valid, refused := CheckOwner(a, ticketId, ticket, facePhoto, rpcOk, face, stored);
      if !valid {
        ResolvedByOwner(s, View(), refused, ticketId, facePhoto, rpcOk, face, stored);
        return refused;
      }
      r := CompareAndMark(a, ticketId, ticket, facePhoto, face, stored);
      if facePhoto && !face.Matched? {
        ResolvedByFace(s, View(), r, ticketId, rpcOk, face, stored);
      } else {
        ResolvedByUpdate(s, View(), r, ticketId, facePhoto, rpcOk, face, stored);
      }
    }

    /** A FAILED log, then an exception. */
    method Refuse(ghost a: nat, log: GateLog, refusal: EntryResult, ghost rpcOk: bool, ghost face: FaceOutcome, stored: bool)
      returns (r: EntryResult)
      requires a in attempts && !IsAdmission(log) && !refusal.Admitted?
      modifies this`logs, this`attempts, this`admissions
      ensures View() == LogStep(Put(old(View()), a, Logging(log)), a, stored)
      ensures r == if stored then refusal else ServiceError
      ensures logs == if stored then old(logs) + [log] else old(logs)
      ensures var s := Put(old(View()), a, Logging(log));
        && FromMark(s, a, stored) == View()
        && FromFace(s, a, face, stored) == View()
        && FromOwnership(s, a, rpcOk, face, stored) == View()
    {
      attempts := attempts[a := Logging(log)];
      OnlyLoggingLeft(View(), a, rpcOk, face, stored);
      SaveLog(a, log, stored);
      r := if stored then refusal else ServiceError;
    }

    /** Steps 6 to 8: face, conditional update, log. */
    method CompareAndMark(ghost a: nat, ticketId: string, ticket: Ticket, facePhoto: bool, face: FaceOutcome, stored: bool)
      returns (r: EntryResult)
      requires a in attempts && attempts[a] == Owned(ticketId, ticket, facePhoto)
      modifies this
      ensures View() == FromFace(old(View()), a, face, stored)
      ensures nonces == old(nonces) && clock == old(clock) && sbt.View() == old(sbt.View())
      ensures facePhoto && face.Unavailable? ==> r == ServiceError && logs == old(logs) && tickets == old(tickets)
      ensures facePhoto && face.Mismatched? ==>
        && tickets == old(tickets) && r == (if stored then Unauthorized else ServiceError)
        && logs == old(logs) + if stored then [GateLog(ticket.eventId, ticketId, STRONG, FAILED)] else []
      ensures (facePhoto ==> face.Matched?) ==>
        MarkedAndLogged(old(View()), View(), r, ticketId, ticket.eventId, ModeOf(facePhoto), SUCCESS, stored)
    {
      ghost var owned := View();
      var mode := NORMAL;
      if facePhoto {
        mode := STRONG;
        if face.Unavailable? {
          attempts := attempts - {a};
          return ServiceError;
        }
        if face.Mismatched? {
          r := Refuse(a, GateLog(ticket.eventId, ticketId, mode, FAILED), Unauthorized, true, face, stored);
          return;
        }
      }
      attempts := attempts[a := Compared(ticketId, ticket, mode)];
      assert View() == FaceStep(owned, a, face);
      r := MarkCompared(a, ticketId, ticket, mode, stored);
    }

    method MarkCompared(ghost a: nat, ticketId: string, ticket: Ticket, mode: VerificationMode, stored: bool)
      returns (r: EntryResult)
      requires a in attempts && attempts[a] == Compared(ticketId, ticket, mode)
      modifies this`tickets, this`logs, this`attempts, this`admissions
      ensures View() == FromMark(old(View()), a, stored)
      ensures MarkedAndLogged(old(View()), View(), r, ticketId, ticket.eventId, mode, SUCCESS, stored)
    {
      var affected := ConditionalUse(a, ticketId);
      if !affected {
        SaveLog(a, GateLog(ticket.eventId, ticketId, mode, FAILED), stored);
        return if stored then Conflict else ServiceError;
      }
      SaveLog(a, GateLog(ticket.eventId, ticketId, mode, SUCCESS), stored);
      r := if stored then Admitted(ticketId, mode) else ServiceError;
    }

    /** UPDATE tickets SET status = USED WHERE id = ... AND status IN (PAID, MINTED) */
    method ConditionalUse(ghost a: nat, ticketId: string) returns (affected: bool)
      requires a in attempts && (attempts[a].Compared? || attempts[a].Found?) && attempts[a].ticketId == ticketId
      modifies this`tickets, this`attempts, this`admissions
      ensures affected <==> ticketId in old(tickets) && old(tickets)[ticketId].status in {PAID, MINTED}
      ensures View() == MarkStep(old(View()), a)
      ensures a in attempts && attempts[a] == Logging(LogOf(old(attempts)[a], affected))
      ensures tickets == if affected then old(tickets)[ticketId := old(tickets)[ticketId].(status := USED)] else old(tickets)
    {
      affected := ticketId in tickets && Admissible(tickets[ticketId]);
      attempts := attempts[a := Logging(LogOf(attempts[a], affected))];
      if affected {
        tickets := tickets[ticketId := tickets[ticketId].(status := USED)];
        admissions := admissions[ticketId := Pending(a)];
      }
    }

    /** `findOne` on tickets. */
    method FindTicket(eventId: string, userId: string, status: TicketStatus) returns (found: Option<string>)
      ensures FindsOne(View(), eventId, userId, status, found)
    {
      var left := tickets.Keys;
      while left != {}
        invariant left <= tickets.Keys
        invariant forall id :: id in tickets && id !in left ==> !Held(tickets[id], eventId, userId, status)
      {
        var id :| id in left;
        if Held(tickets[id], eventId, userId, status) {
          return Some(id);
        }
        left := left - {id};
      }
      found := None;
    }

    method MarkFound(ghost a: nat, ticketId: string, eventId: string, stored: bool) returns (r: EntryResult)
      requires a in attempts && attempts[a] == Found(ticketId, eventId)
      modifies this`tickets, this`logs, this`attempts, this`admissions
      ensures View() == FromMark(old(View()), a, stored)
      ensures MarkedAndLogged(old(View()), View(), r, ticketId, eventId, VerificationMode.FALLBACK, VerificationResult.FALLBACK, stored)
    {
      var affected := ConditionalUse(a, ticketId);
      if !affected {
        SaveLog(a, GateLog(eventId, ticketId, VerificationMode.FALLBACK, FAILED), stored);
        return if stored then Conflict else ServiceError;
      }
      SaveLog(a, GateLog(eventId, ticketId, VerificationMode.FALLBACK, VerificationResult.FALLBACK), stored);
      r := if stored then Admitted(ticketId, VerificationMode.FALLBACK) else ServiceError;
    }

    /** The two queries: a MINTED ticket, or else a PAID one. */
    method FindValidTicket(ghost a: nat, eventId: string, userId: string)
      returns (ticket: Option<string>, ghost minted: Option<string>, ghost paid: Option<string>)
      requires a !in attempts
      modifies this`attempts
      ensures FindsOne(old(View()), eventId, userId, MINTED, minted)
      ensures minted.None? ==> FindsOne(old(View()), eventId, userId, PAID, paid)
      ensures ticket == if minted.Some? then minted else paid
      ensures attempts == old(attempts)[a :=
        if ticket.Some? then Found(ticket.value, eventId)
        else Logging(GateLog(eventId, "unknown", VerificationMode.FALLBACK, FAILED))]
      ensures View() == FindPaidStep(FindMintedStep(old(View()), a, eventId, userId, minted), a, paid)
    {
      ghost var before := View();
      paid := None;
      ticket := FindTicket(eventId, userId, MINTED);
      minted := ticket;
      if ticket.None? {
        attempts := attempts[a := NoMinted(eventId, userId)];
        ghost var none := View();
        assert none == FindMintedStep(before, a, eventId, userId, minted);
        ticket := FindTicket(eventId, userId, PAID);
        paid := ticket;
      }
      attempts := attempts[a :=
        if ticket.Some? then Found(ticket.value, eventId)
        else Logging(GateLog(eventId, "unknown", VerificationMode.FALLBACK, FAILED))];
    }

    method FallbackVerify(ghost a: nat, eventId: string, userId: string, stored: bool)
      returns (r: EntryResult, ghost minted: Option<string>, ghost paid: Option<string>)
      requires a !in attempts
      modifies this
      ensures View() == FallbackAlone(old(View()), a, eventId, userId, minted, paid, stored)
      ensures sbt.View() == old(sbt.View())
      ensures !stored ==> r.ServiceError? && logs == old(logs)
      ensures stored ==> (r.Admitted? <==> exists id :: id in old(tickets) && Holds(old(tickets)[id], eventId, userId))
      ensures stored && !r.Admitted? ==>
        && r == BadRequest && tickets == old(tickets)
        && logs == old(logs) + [GateLog(eventId, "unknown", VerificationMode.FALLBACK, FAILED)]
      ensures r.Admitted? ==>
        && r.ticketId in old(tickets) && Holds(old(tickets)[r.ticketId], eventId, userId)
        && (old(tickets)[r.ticketId].status == PAID ==>
              forall id :: id in old(tickets) && Holds(old(tickets)[id], eventId, userId) ==> old(tickets)[id].status == PAID)
        && r.mode == VerificationMode.FALLBACK
        && tickets == old(tickets)[r.ticketId := old(tickets)[r.ticketId].(status := USED)]
        && logs == old(logs) + [GateLog(eventId, r.ticketId, VerificationMode.FALLBACK, VerificationResult.FALLBACK)]
    {
      var ticket;
      ticket, minted, paid := FindValidTicket(a, eventId, userId);
      if ticket.None? {
        OnlyLoggingLeft(View(), a, true, Matched, stored);
        SaveLog(a, GateLog(eventId, "unknown", VerificationMode.FALLBACK, FAILED), stored);
        assert forall id :: id in old(tickets) ==>
          !Held(old(tickets)[id], eventId, userId, MINTED) && !Held(old(tickets)[id], eventId, userId, PAID);
        return if stored then BadRequest else ServiceError, minted, paid;
      }
      r := MarkFound(a, ticket.value, eventId, stored);
    }

    // -------------------------------------------------------------- statistics

    method CountWhere(eventId: string, which: GateLog -> bool) returns (n: nat)
      ensures n == Count(logs, eventId, which)
    {
      n := 0;
      for i := 0 to |logs|
        invariant n == Count(logs[..i], eventId, which)
      {
        assert logs[..i + 1][..i] == logs[..i];
        if logs[i].eventId == eventId && which(logs[i]) {
          n := n + 1;
        }
      }
      assert logs[..|logs|] == logs;
    }

    method GetEntryStats(eventId: string) returns (c: Stats)
      ensures c == StatsOf(logs, eventId)
      ensures TrueStats(logs, eventId, c)
    {
      StatsAreTrue(logs, eventId);
      var total := CountWhere(eventId, (l: GateLog) => true);
      var success := CountWhere(eventId, (l: GateLog) => l.result == SUCCESS);
      var failed := CountWhere(eventId, (l: GateLog) => l.result == FAILED);
      var fallback := CountWhere(eventId, (l: GateLog) => l.result == VerificationResult.FALLBACK);
      var strongMode := CountWhere(eventId, (l: GateLog) => l.mode == STRONG);
      var normalMode := CountWhere(eventId, (l: GateLog) => l.mode == NORMAL);
      var offlineMode := CountWhere(eventId, (l: GateLog) => l.mode == OFFLINE);
      var fallbackMode := CountWhere(eventId, (l: GateLog) => l.mode == VerificationMode.FALLBACK);
      c := Stats(total, success, failed, fallback, strongMode, normalMode, offlineMode, fallbackMode);
    }
  }
}
