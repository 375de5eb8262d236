/** Tickets, the token ledger, QR nonces and gate logs as one machine. Ticketing operations are atomic;
    a gate attempt takes one awaited operation at a time, so any number of attempts interleave. */
module Admission {
  import opened Options
  import Sbt

  // ---------------------------------------------------------------- rows

  datatype TicketStatus = PREAUTHORIZED | PAID | MINTED | REFUNDED | USED

  datatype Ticket = Ticket(
    eventId: string,
    userId: string,
    amount: int,
    status: TicketStatus,
    sbtTokenId: Option<nat>,
    aaWalletAddress: Option<Sbt.Address>,
    preauthTradeNo: Option<string>,
    ecpayTradeNo: Option<string>)

  datatype VerificationMode = STRONG | NORMAL | OFFLINE | FALLBACK

  datatype VerificationResult = SUCCESS | FAILED | FALLBACK

  datatype GateLog = GateLog(eventId: string, ticketId: string, mode: VerificationMode, result: VerificationResult)

  datatype QrPayload = QrPayload(sub: string, nonce: string, iat: nat)

  // ---------------------------------------------------------------- attempts

  /** Where one call of `verifyEntry` or `fallbackVerify` stands, with the local variables it still needs. */
  datatype Attempt =
    | Scanned(payload: QrPayload, photo: bool)
    | Fresh(payload: QrPayload, photo: bool, checkedAt: nat)
    | Reserved(payload: QrPayload, photo: bool)
    | Read(ticketId: string, ticket: Ticket, photo: bool)
    | Owned(ticketId: string, ticket: Ticket, photo: bool)
    | Compared(ticketId: string, ticket: Ticket, mode: VerificationMode)
    | NoMinted(eventId: string, userId: string)
    | Found(ticketId: string, eventId: string)
    | Logging(log: GateLog)

  datatype FaceOutcome = Matched | Mismatched | Unavailable

  /** History: what became of the log entry of a ticket that was let in. */
  datatype Record = Pending(attempt: nat) | Logged(index: nat) | Lost

  /** `passed`, `stranded` and `admissions` are history; `nonces` maps a key to its expiry time. */
  datatype State = State(
    tickets: map<string, Ticket>,
    ledger: Sbt.Ledger,
    issued: map<string, QrPayload>,
    nonces: map<string, nat>,
    logs: seq<GateLog>,
    attempts: map<nat, Attempt>,
    clock: nat,
    passed: seq<string>,
    stranded: set<string>,
    admissions: map<string, Record>)

  /** `digest` is the first four bytes of SHA-256, big endian; `signer` is the account that deployed the contract. */
  datatype Platform = Platform(digest: string -> nat, signer: Sbt.Address)

  datatype Action =
    | Preauthorize(ticketId: string, eventId: string, userId: string, amount: int, tradeNo: string)
    | EcpayCallback(ticketId: string, merchantTradeNo: Option<string>, ecpayTradeNo: Option<string>)
    | CapturePayment(ticketId: string, ecpayOk: bool)
    | MintTicket(ticketId: string, wallet: Option<Sbt.Address>, txOk: bool)
    | RefundTicket(ticketId: string, requester: Option<string>, ecpayOk: bool, txOk: bool)
    | MintKyc(account: Sbt.Address, txOk: bool)
    | Tick(seconds: nat)
    | GenerateQr(ticketId: string, nonce: string)
    | Scan(attempt: nat, nonce: string, photo: bool)
    | CheckFreshness(attempt: nat)
    | ReserveNonce(attempt: nat)
    | ReadTicket(attempt: nat)
    | CheckOwnership(attempt: nat, rpcOk: bool)
    | CompareFace(attempt: nat, outcome: FaceOutcome)
    | FindMinted(attempt: nat, eventId: string, userId: string, found: Option<string>)
    | FindPaid(attempt: nat, found: Option<string>)
    | MarkUsed(attempt: nat)
    | WriteLog(attempt: nat, stored: bool)
    | Crash(attempt: nat)

  const QR_TTL_SECONDS: nat := 60
  const TICKET_TOKEN_ID_BASE: nat := 1000
  const KYC_ATTESTATION_TOKEN_ID: nat := 1

  function Initial(p: Platform): State {
    State(map[], Sbt.Deployed(p.signer), map[], map[], [], map[], 0, [], {}, map[])
  }

  // ---------------------------------------------------------------- ticketing

  function DeriveTokenId(p: Platform, ticketId: string): nat {
    TICKET_TOKEN_ID_BASE + p.digest(ticketId) % 1_000_000_000
  }

  function SetTicket(s: State, id: string, t: Ticket): State {
    s.(tickets := s.tickets[id := t])
  }

  function MintStep(p: Platform, s: State, id: string, wallet: Option<Sbt.Address>, txOk: bool): State {
    if id !in s.tickets || s.tickets[id].status != PAID || wallet.None? then s
    else
      var tokenId := DeriveTokenId(p, id);
      var tx := Sbt.Execute(s.ledger, p.signer, Sbt.Mint(wallet.value, tokenId, 1));
      if !txOk || tx.Reverted? then s
      else SetTicket(s, id, s.tickets[id].(status := MINTED, sbtTokenId := Some(tokenId), aaWalletAddress := wallet))
             .(ledger := tx.ledger)
  }

  predicate Refundable(t: Ticket) {
    t.status == PREAUTHORIZED || t.status == PAID || t.status == MINTED
  }

  predicate HasToken(t: Ticket) {
    t.sbtTokenId.Some? && t.aaWalletAddress.Some?
  }

  function BurnOf(p: Platform, s: State, t: Ticket): Sbt.Outcome
    requires HasToken(t)
  {
    Sbt.Execute(s.ledger, p.signer, Sbt.Burn(t.aaWalletAddress.value, t.sbtTokenId.value, 1))
  }

  /** A failed burn is logged and swallowed: the ticket is refunded all the same. */
  function RefundStep(p: Platform, s: State, id: string, requester: Option<string>, ecpayOk: bool, txOk: bool): State {
    if id !in s.tickets then s
    else
      var t := s.tickets[id];
      if (requester.Some? && requester.value != "" && requester.value != t.userId) || !Refundable(t) then s
      else if t.preauthTradeNo.Some? && !ecpayOk then s
      else
        var s1 := SetTicket(s, id, t.(status := REFUNDED));
        if !HasToken(t) then s1
        else if txOk && BurnOf(p, s, t).Done? then s1.(ledger := BurnOf(p, s, t).ledger)
        else s1.(stranded := s.stranded + {id})
  }

  function TicketStep(p: Platform, s: State, a: Action): State {
    match a
    case Preauthorize(id, eventId, userId, amount, tradeNo) =>
      if id in s.tickets then s   // generated ids are new
      else SetTicket(s, id, Ticket(eventId, userId, amount, PREAUTHORIZED, None, None, Some(tradeNo), None))
    case EcpayCallback(id, merchantTradeNo, ecpayTradeNo) =>
      if id !in s.tickets || ecpayTradeNo.None? then s
      else if merchantTradeNo.Some? && s.tickets[id].preauthTradeNo != merchantTradeNo then s
      else SetTicket(s, id, s.tickets[id].(ecpayTradeNo := ecpayTradeNo))
    case CapturePayment(id, ecpayOk) =>
      if id !in s.tickets || s.tickets[id].status != PREAUTHORIZED || !ecpayOk then s
      else SetTicket(s, id, s.tickets[id].(status := PAID))
    case MintTicket(id, wallet, txOk) => MintStep(p, s, id, wallet, txOk)
    case RefundTicket(id, requester, ecpayOk, txOk) => RefundStep(p, s, id, requester, ecpayOk, txOk)
    case MintKyc(account, txOk) =>
      var tx := Sbt.Execute(s.ledger, p.signer, Sbt.Mint(account, KYC_ATTESTATION_TOKEN_ID, 1));
      if !txOk || tx.Reverted? then s else s.(ledger := tx.ledger)
    case _ => s
  }

  // ---------------------------------------------------------------- the gate

  function Put(s: State, a: nat, x: Attempt): State {
    s.(attempts := s.attempts[a := x])
  }

  function End(s: State, a: nat): State {
    s.(attempts := s.attempts - {a})
  }

  predicate Admissible(t: Ticket) {
    t.status == MINTED || t.status == PAID
  }

  /** Redis drops a key when its time is over. */
  predicate KeyLive(s: State, nonce: string) {
    nonce in s.nonces && s.clock < s.nonces[nonce]
  }

  function GenerateStep(s: State, id: string, nonce: string): State {
    if id !in s.tickets || s.tickets[id].status == USED || s.tickets[id].status == REFUNDED then s
    else if nonce in s.issued then s   // nonces are 16 fresh random bytes
    else s.(issued := s.issued[nonce := QrPayload(id, nonce, s.clock)])
  }

  /** `jwtService.verify`: only issued tokens carry a valid signature, and they expire after their time to live. */
  function ScanStep(s: State, a: nat, nonce: string, photo: bool): State {
    if a in s.attempts || nonce !in s.issued || s.clock >= s.issued[nonce].iat + QR_TTL_SECONDS then s
    else Put(s, a, Scanned(s.issued[nonce], photo))
  }

  function FreshStep(s: State, a: nat): State {
    if a !in s.attempts || !s.attempts[a].Scanned? then s
    else
      var x := s.attempts[a];
      if s.clock > x.payload.iat + QR_TTL_SECONDS then End(s, a)
      else Put(s, a, Fresh(x.payload, x.photo, s.clock))
  }

  /** SET key NX EX 120 */
  function ReserveStep(s: State, a: nat): State {
    if a !in s.attempts || !s.attempts[a].Fresh? then s
    else
      var x := s.attempts[a];
      if KeyLive(s, x.payload.nonce) then End(s, a)
      else Put(s, a, Reserved(x.payload, x.photo)).(
        nonces := s.nonces[x.payload.nonce := s.clock + QR_TTL_SECONDS * 2],
        passed := s.passed + [x.payload.nonce])
  }

  function Reject(s: State, a: nat, eventId: string, ticketId: string, mode: VerificationMode): State {
    Put(s, a, Logging(GateLog(eventId, ticketId, mode, FAILED)))
  }

  function ReadStep(s: State, a: nat): State {
    if a !in s.attempts || !s.attempts[a].Reserved? then s
    else
      var x := s.attempts[a];
      var id := x.payload.sub;
      if id !in s.tickets then Reject(s, a, id, id, NORMAL)
      else if !Admissible(s.tickets[id]) then Reject(s, a, s.tickets[id].eventId, id, NORMAL)
      else Put(s, a, Read(id, s.tickets[id], x.photo))
  }

  /** No token yet, or a chain that does not answer, does not hold anyone up. */
  predicate OwnershipValid(s: State, t: Ticket, rpcOk: bool) {
    HasToken(t) && rpcOk ==> Sbt.BalanceOf(s.ledger.balances, t.aaWalletAddress.value, t.sbtTokenId.value) > 0
  }

  function OwnershipStep(s: State, a: nat, rpcOk: bool): State {
    if a !in s.attempts || !s.attempts[a].Read? then s
    else
      var x := s.attempts[a];
      if OwnershipValid(s, x.ticket, rpcOk) then Put(s, a, Owned(x.ticketId, x.ticket, x.photo))
      else Reject(s, a, x.ticket.eventId, x.ticketId, NORMAL)
  }

  function FaceStep(s: State, a: nat, outcome: FaceOutcome): State {
    if a !in s.attempts || !s.attempts[a].Owned? then s
    else
      var x := s.attempts[a];
      if !x.photo then Put(s, a, Compared(x.ticketId, x.ticket, NORMAL))
      else match outcome
        case Matched => Put(s, a, Compared(x.ticketId, x.ticket, STRONG))
        case Mismatched => Reject(s, a, x.ticket.eventId, x.ticketId, STRONG)
        case Unavailable => End(s, a)
  }

  predicate Held(t: Ticket, eventId: string, userId: string, status: TicketStatus) {
    t.eventId == eventId && t.userId == userId && t.status == status
  }

  /** `findOne`: some ticket that fits, or none when none fits. */
  predicate FindsOne(s: State, eventId: string, userId: string, status: TicketStatus, found: Option<string>) {
    match found
    case Some(id) => id in s.tickets && Held(s.tickets[id], eventId, userId, status)
    case None => forall id :: id in s.tickets ==> !Held(s.tickets[id], eventId, userId, status)
  }

  function FindMintedStep(s: State, a: nat, eventId: string, userId: string, found: Option<string>): State {
    if a in s.attempts || !FindsOne(s, eventId, userId, MINTED, found) then s
    else Put(s, a, if found.Some? then Found(found.value, eventId) else NoMinted(eventId, userId))
  }

  function FindPaidStep(s: State, a: nat, found: Option<string>): State {
    if a !in s.attempts || !s.attempts[a].NoMinted? then s
    else
      var x := s.attempts[a];
      if !FindsOne(s, x.eventId, x.userId, PAID, found) then s
      else if found.Some? then Put(s, a, Found(found.value, x.eventId))
      else Reject(s, a, x.eventId, "unknown", VerificationMode.FALLBACK)
  }

  /** The log that an attempt about to mark a ticket will write. */
  function LogOf(x: Attempt, admitted: bool): GateLog
    requires x.Compared? || x.Found?
  {
    if x.Compared? then GateLog(x.ticket.eventId, x.ticketId, x.mode, if admitted then SUCCESS else FAILED)
    else GateLog(x.eventId, x.ticketId, VerificationMode.FALLBACK, if admitted then VerificationResult.FALLBACK else FAILED)
  }

  /** UPDATE ... SET status = USED WHERE id = ... AND status IN (PAID, MINTED) */
  function MarkStep(s: State, a: nat): State {
    if a !in s.attempts || !(s.attempts[a].Compared? || s.attempts[a].Found?) then s
    else
      var x := s.attempts[a];
      if x.ticketId in s.tickets && Admissible(s.tickets[x.ticketId]) then
        SetTicket(Put(s, a, Logging(LogOf(x, true))), x.ticketId, s.tickets[x.ticketId].(status := USED))
          .(admissions := s.admissions[x.ticketId := Pending(a)])
      else Put(s, a, Logging(LogOf(x, false)))
  }

  predicate IsAdmission(log: GateLog) {
    log.result != FAILED
  }

  function LogStep(s: State, a: nat, stored: bool): State {
    if a !in s.attempts || !s.attempts[a].Logging? then s
    else
      var log := s.attempts[a].log;
      var s1 := if stored then End(s, a).(logs := s.logs + [log]) else End(s, a);
      if !IsAdmission(log) then s1
      else s1.(admissions := s.admissions[log.ticketId := if stored then Logged(|s.logs|) else Lost])
  }

  function CrashStep(s: State, a: nat): State {
    if a !in s.attempts then s
    else if s.attempts[a].Logging? then LogStep(s, a, false)
    else End(s, a)
  }

  function GateStep(s: State, a: Action): State {
    match a
    case GenerateQr(id, nonce) => GenerateStep(s, id, nonce)
    case Scan(attempt, nonce, photo) => ScanStep(s, attempt, nonce, photo)
    case CheckFreshness(attempt) => FreshStep(s, attempt)
    case ReserveNonce(attempt) => ReserveStep(s, attempt)
    case ReadTicket(attempt) => ReadStep(s, attempt)
    case CheckOwnership(attempt, rpcOk) => OwnershipStep(s, attempt, rpcOk)
    case CompareFace(attempt, outcome) => FaceStep(s, attempt, outcome)
    case FindMinted(attempt, eventId, userId, found) => FindMintedStep(s, attempt, eventId, userId, found)
    case FindPaid(attempt, found) => FindPaidStep(s, attempt, found)
    case MarkUsed(attempt) => MarkStep(s, attempt)
    case WriteLog(attempt, stored) => LogStep(s, attempt, stored)
    case Crash(attempt) => CrashStep(s, attempt)
    case _ => s
  }

  predicate IsTicketing(a: Action) {
    a.Preauthorize? || a.EcpayCallback? || a.CapturePayment? || a.MintTicket? || a.RefundTicket? || a.MintKyc?
  }

  function Step(p: Platform, s: State, a: Action): State {
    if a.Tick? then s.(clock := s.clock + a.seconds)
    else if IsTicketing(a) then TicketStep(p, s, a)
    else GateStep(s, a)
  }

  function Run(p: Platform, s: State, actions: seq<Action>): State {
    if actions == [] then s
    else Step(p, Run(p, s, actions[..|actions| - 1]), actions[|actions| - 1])
  }

  /** The gate's actions that end in a verdict or a log. */
  predicate Decides(a: Action) {
    a.MarkUsed? || a.WriteLog? || a.Crash?
  }

  /** Everything that is stored for good, but for nonces and issued tokens. */
  predicate SameRecords(s: State, s': State) {
    && s'.tickets == s.tickets && s'.ledger == s.ledger && s'.stranded == s.stranded
    && s'.logs == s.logs && s'.admissions == s.admissions
  }

  lemma ScanLeavesRecords(s: State, a: nat, nonce: string, photo: bool)
    ensures SameRecords(s, ScanStep(s, a, nonce, photo)) && SameRecords(s, FreshStep(s, a))
  {
  }

  lemma ReserveLeavesRecords(s: State, a: nat)
    ensures SameRecords(s, ReserveStep(s, a))
  {
  }

  lemma ReadLeavesRecords(s: State, a: nat)
    ensures SameRecords(s, ReadStep(s, a))
  {
  }

  lemma OwnershipLeavesRecords(s: State, a: nat, rpcOk: bool)
    ensures SameRecords(s, OwnershipStep(s, a, rpcOk))
  {
  }

  lemma FaceLeavesRecords(s: State, a: nat, outcome: FaceOutcome)
    ensures SameRecords(s, FaceStep(s, a, outcome))
  {
  }

  lemma FindLeavesRecords(s: State, a: nat, eventId: string, userId: string, found: Option<string>)
    ensures SameRecords(s, FindMintedStep(s, a, eventId, userId, found)) && SameRecords(s, FindPaidStep(s, a, found))
  {
  }

  /** Until an attempt decides, it leaves all records alone. */
  lemma AttemptStepLeavesRecords(s: State, a: Action)
    requires !a.Tick? && !IsTicketing(a) && !Decides(a)
    ensures SameRecords(s, GateStep(s, a))
  {
    match a {
      case GenerateQr(_, _) =>
      case Scan(x, nonce, photo) => ScanLeavesRecords(s, x, nonce, photo);
      case CheckFreshness(x) => ScanLeavesRecords(s, x, "", false);
      case ReserveNonce(x) => ReserveLeavesRecords(s, x);
      case ReadTicket(x) => ReadLeavesRecords(s, x);
      case CheckOwnership(x, rpcOk) => OwnershipLeavesRecords(s, x, rpcOk);
      case CompareFace(x, outcome) => FaceLeavesRecords(s, x, outcome);
      case FindMinted(x, eventId, userId, found) => FindLeavesRecords(s, x, eventId, userId, found);
      case FindPaid(x, found) => FindLeavesRecords(s, x, "", "", found);
    }
  }

  lemma RunNext(p: Platform, actions: seq<Action>, i: nat)
    requires i < |actions|
    ensures Run(p, Initial(p), actions[..i + 1]) == Step(p, Run(p, Initial(p), actions[..i]), actions[i])
  {
    assert actions[..i + 1][..i] == actions[..i];
  }
}
