/** What rows, logs and balances owe to the operations of the run: no ticket is paid without a capture, every scan past
    the nonce is logged or dropped for a reason, and identity tokens count the mints. */
module AdmissionHistory {
  import opened Options
  import opened Admission
  import opened AdmissionSafety
  import opened AdmissionLedger
  import Sbt

  // ---------------------------------------------------------------- where a ticket's columns come from

  ghost predicate RefundedBy(actions: seq<Action>, id: string, t: Ticket) {
    exists requester, txOk: bool :: RefundTicket(id, requester, true, txOk) in actions && Asks(requester, t)
  }

  /** The owner, or nobody in particular. */
  predicate Asks(requester: Option<string>, t: Ticket) {
    requester.Some? && requester.value != "" ==> requester.value == t.userId
  }

  ghost predicate NumberedBy(actions: seq<Action>, id: string, t: Ticket) {
    EcpayCallback(id, None, t.ecpayTradeNo) in actions || EcpayCallback(id, t.preauthTradeNo, t.ecpayTradeNo) in actions
  }

  /** Every column is one that an operation of the run has set. */
  ghost predicate Earned(actions: seq<Action>, id: string, t: Ticket) {
    && t.preauthTradeNo.Some?
    && Preauthorize(id, t.eventId, t.userId, t.amount, t.preauthTradeNo.value) in actions
    && (t.ecpayTradeNo.Some? ==> NumberedBy(actions, id, t))
    && (HasToken(t) ==> MintTicket(id, t.aaWalletAddress, true) in actions)
    && (t.status == REFUNDED ==> RefundedBy(actions, id, t))
  }

  ghost predicate AllEarned(s: State, actions: seq<Action>) {
    forall id :: id in s.tickets ==> Earned(actions, id, s.tickets[id])
  }

  lemma EarnedStays(actions: seq<Action>, a: Action, id: string, t: Ticket)
    requires Earned(actions, id, t)
    ensures Earned(actions + [a], id, t)
  {
    if t.status == REFUNDED {
      var requester, txOk: bool :|
        RefundTicket(id, requester, true, txOk) in actions && Asks(requester, t);
      assert RefundTicket(id, requester, true, txOk) in actions + [a];
    }
  }

  lemma RefundWasAsked(p: Platform, s: State, a: Action)
    requires a.RefundTicket? && a.ticketId in s.tickets && s.tickets[a.ticketId].preauthTradeNo.Some?
    ensures var s' := TicketStep(p, s, a); var t := s.tickets[a.ticketId];
      && a.ticketId in s'.tickets
      && (s'.tickets[a.ticketId] == t ||
          (s'.tickets[a.ticketId] == t.(status := REFUNDED) && a.ecpayOk && Asks(a.requester, t)))
  {
  }

  lemma RefundEarns(p: Platform, s: State, a: Action, actions: seq<Action>)
    requires AllEarned(s, actions) && a.RefundTicket? && a.ticketId in s.tickets
    ensures a.ticketId in TicketStep(p, s, a).tickets
    ensures Earned(actions + [a], a.ticketId, TicketStep(p, s, a).tickets[a.ticketId])
  {
    var id, more := a.ticketId, actions + [a];
    EarnedStays(actions, a, id, s.tickets[id]);
    RefundWasAsked(p, s, a);
    assert more[|actions|] == a;
    if TicketStep(p, s, a).tickets[id] != s.tickets[id] {
      assert RefundTicket(id, a.requester, true, a.txOk) in more && Asks(a.requester, s.tickets[id]);
    }
  }

  lemma MintEarns(p: Platform, s: State, a: Action, actions: seq<Action>)
    requires TicketsOk(p, s) && AllEarned(s, actions) && a.MintTicket? && a.ticketId in s.tickets
    ensures a.ticketId in TicketStep(p, s, a).tickets
    ensures Earned(actions + [a], a.ticketId, TicketStep(p, s, a).tickets[a.ticketId])
  {
    EarnedStays(actions, a, a.ticketId, s.tickets[a.ticketId]);
    assert (actions + [a])[|actions|] == a;
  }

  lemma RowEarns(p: Platform, s: State, a: Action, actions: seq<Action>)
    requires AllEarned(s, actions) && (a.Preauthorize? || a.EcpayCallback? || a.CapturePayment?)
    requires a.ticketId in TicketStep(p, s, a).tickets
    ensures Earned(actions + [a], a.ticketId, TicketStep(p, s, a).tickets[a.ticketId])
  {
    if a.ticketId in s.tickets {
      EarnedStays(actions, a, a.ticketId, s.tickets[a.ticketId]);
    }
    assert (actions + [a])[|actions|] == a;
  }

  lemma OtherTicketsStay(p: Platform, s: State, a: Action, id: string)
    requires IsTicketing(a) && (!a.MintKyc? ==> id != a.ticketId) && id in TicketStep(p, s, a).tickets
    ensures id in s.tickets && TicketStep(p, s, a).tickets[id] == s.tickets[id]
  {
  }

  lemma TicketsStay(p: Platform, s: State, a: Action)
    requires IsTicketing(a)
    ensures forall id :: id in s.tickets ==> id in TicketStep(p, s, a).tickets
    ensures a.MintTicket? || a.RefundTicket? ==> TicketStep(p, s, a).tickets.Keys == s.tickets.Keys
  {
  }

  /** One step makes of an earned ticket an earned ticket. */
  lemma TicketStepEarns(p: Platform, s: State, a: Action, actions: seq<Action>, id: string)
    requires TicketsOk(p, s) && AllEarned(s, actions) && IsTicketing(a) && id in TicketStep(p, s, a).tickets
    ensures Earned(actions + [a], id, TicketStep(p, s, a).tickets[id])
  {
    TicketsStay(p, s, a);
    if a.MintKyc? || id != a.ticketId {
      OtherTicketsStay(p, s, a, id);
      EarnedStays(actions, a, id, s.tickets[id]);
    } else if a.RefundTicket? {
      RefundEarns(p, s, a, actions);
    } else if a.MintTicket? {
      MintEarns(p, s, a, actions);
    } else {
      RowEarns(p, s, a, actions);
    }
  }

  lemma MarkEarns(s: State, a: Action, actions: seq<Action>, id: string)
    requires AllEarned(s, actions) && a.MarkUsed? && id in MarkStep(s, a.attempt).tickets
    ensures Earned(actions + [a], id, MarkStep(s, a.attempt).tickets[id])
  {
    EarnedStays(actions, a, id, s.tickets[id]);
  }

  lemma GateLeavesTickets(s: State, a: Action)
    requires !a.Tick? && !IsTicketing(a) && !a.MarkUsed?
    ensures GateStep(s, a).tickets == s.tickets
  {
    UnmarkedStepLeavesBooks(s, a);
  }

  lemma StepEarns(p: Platform, s: State, a: Action, actions: seq<Action>)
    requires TicketsOk(p, s) && AllEarned(s, actions)
    ensures AllEarned(Step(p, s, a), actions + [a])
  {
    var s' := Step(p, s, a);
    forall id | id in s'.tickets ensures Earned(actions + [a], id, s'.tickets[id]) {
      if IsTicketing(a) {
        TicketStepEarns(p, s, a, actions, id);
      } else if a.MarkUsed? {
        MarkEarns(s, a, actions, id);
      } else {
        if !a.Tick? {
          GateLeavesTickets(s, a);
        }
        EarnedStays(actions, a, id, s.tickets[id]);
      }
    }
  }

  lemma {:induction false} RunEarns(p: Platform, actions: seq<Action>)
    ensures AllEarned(Run(p, Initial(p), actions), actions)
  {
    if actions != [] {
      var n := |actions| - 1;
      RunKeepsSafe(p, actions[..n]);
      RunEarns(p, actions[..n]);
      StepEarns(p, Run(p, Initial(p), actions[..n]), actions[n], actions[..n]);
      assert actions[..n] + [actions[n]] == actions;
    }
  }

  /** The order's columns are those of its preauthorization; a trade number came in a callback for that order or for
      none; a token was minted to the stored wallet; and a refund was confirmed by ECPay and asked for by the owner or
      by nobody in particular. */
  lemma TicketsAreEarned(p: Platform, actions: seq<Action>, id: string)
    requires id in Run(p, Initial(p), actions).tickets
    ensures var t := Run(p, Initial(p), actions).tickets[id];
      && (t.sbtTokenId.Some? ==> MintTicket(id, t.aaWalletAddress, true) in actions)
      && (t.status == REFUNDED ==> RefundedBy(actions, id, t))
      && t.preauthTradeNo.Some?
      && Preauthorize(id, t.eventId, t.userId, t.amount, t.preauthTradeNo.value) in actions
      && (t.ecpayTradeNo.Some? ==> NumberedBy(actions, id, t))
  {
    RunKeepsSafe(p, actions);
    RunEarns(p, actions);
    var t := Run(p, Initial(p), actions).tickets[id];
    assert TicketOk(p, id, t) && Earned(actions, id, t);
  }

  // ---------------------------------------------------------------- payment comes first

  /** ECPay captures the payment of a preauthorized ticket. */
  ghost predicate CapturedAt(p: Platform, actions: seq<Action>, i: nat, id: string)
    requires i < |actions|
  {
    var s := Run(p, Initial(p), actions[..i]);
    actions[i] == CapturePayment(id, true) && id in s.tickets && s.tickets[id].status == PREAUTHORIZED
  }

  predicate PaidFor(s: State, id: string) {
    id in s.tickets && (s.tickets[id].status in {PAID, MINTED, USED} || HasToken(s.tickets[id]))
  }

  lemma StepPays(p: Platform, s: State, a: Action, id: string)
    requires TicketsOk(p, s) && !PaidFor(s, id) && PaidFor(Step(p, s, a), id)
    ensures a == CapturePayment(id, true) && id in s.tickets && s.tickets[id].status == PREAUTHORIZED
  {
    if !a.Tick? && !IsTicketing(a) && !a.MarkUsed? {
      GateLeavesTickets(s, a);
    }
  }

  /** Nobody gets a ticket without paying: a ticket that is PAID, MINTED or USED, or has ever had a token, was
      captured by ECPay earlier in the run, while it was preauthorized. */
  lemma {:induction false} PaymentCameFirst(p: Platform, actions: seq<Action>, id: string) returns (i: nat)
    requires PaidFor(Run(p, Initial(p), actions), id)
    ensures i < |actions| && CapturedAt(p, actions, i, id)
  {
    var n := |actions| - 1;
    var before := Run(p, Initial(p), actions[..n]);
    RunKeepsSafe(p, actions[..n]);
    if PaidFor(before, id) {
      i := PaymentCameFirst(p, actions[..n], id);
      assert actions[..n][..i] == actions[..i];
    } else {
      i := n;
      StepPays(p, before, actions[n], id);
    }
  }

  // ---------------------------------------------------------------- token ids

  /** Ticket tokens keep clear of the identity token and below 1,000,001,000; two tickets share an id exactly when the
      first four bytes of their digests agree modulo a thousand million. */
  lemma TokenIdsCollideIff(p: Platform, id: string, other: string)
    ensures 1000 <= DeriveTokenId(p, id) < 1_000_001_000
    ensures DeriveTokenId(p, id) != KYC_ATTESTATION_TOKEN_ID
    ensures DeriveTokenId(p, id) == DeriveTokenId(p, other) <==> (p.digest(id) - p.digest(other)) % 1_000_000_000 == 0
  {
    var m, n := p.digest(id), p.digest(other);
    assert m == m / 1_000_000_000 * 1_000_000_000 + m % 1_000_000_000;
    assert n == n / 1_000_000_000 * 1_000_000_000 + n % 1_000_000_000;
  }

  function KycMints(actions: seq<Action>, account: Sbt.Address): nat {
    if actions == [] then 0
    else KycMints(actions[..|actions| - 1], account) + if actions[|actions| - 1] == MintKyc(account, true) then 1 else 0
  }

  lemma {:induction false} KycMintsBound(actions: seq<Action>, account: Sbt.Address)
    ensures KycMints(actions, account) <= |actions|
  {
    if actions != [] {
      KycMintsBound(actions[..|actions| - 1], account);
    }
  }

  lemma MintLeavesKyc(p: Platform, s: State, id: string, wallet: Option<string>, txOk: bool, account: Sbt.Address)
    requires s.ledger.owner == p.signer
    ensures Sbt.BalanceOf(MintStep(p, s, id, wallet, txOk).ledger.balances, account, 1)
         == Sbt.BalanceOf(s.ledger.balances, account, 1)
  {
    if wallet.Some? {
      Sbt.MintOneEffect(s.ledger, wallet.value, DeriveTokenId(p, id));
    }
  }

  lemma RefundLeavesKyc(p: Platform, s: State, a: Action, account: Sbt.Address)
    requires TicketsOk(p, s) && LedgerOk(p, s) && a.RefundTicket?
    ensures Sbt.BalanceOf(TicketStep(p, s, a).ledger.balances, account, 1) == Sbt.BalanceOf(s.ledger.balances, account, 1)
  {
    var id := a.ticketId;
    if id in s.tickets && HasToken(s.tickets[id]) {
      assert TicketOk(p, id, s.tickets[id]);
      Sbt.BurnOneEffect(s.ledger, s.tickets[id].aaWalletAddress.value, s.tickets[id].sbtTokenId.value);
    }
  }

  lemma KycMinted(p: Platform, s: State, a: Action, account: Sbt.Address)
    requires s.ledger.owner == p.signer && account != Sbt.ZERO && a.MintKyc?
    requires Sbt.BalanceOf(s.ledger.balances, account, 1) + 1 < Sbt.UINT_LIMIT
    ensures Sbt.BalanceOf(TicketStep(p, s, a).ledger.balances, account, 1) ==
      Sbt.BalanceOf(s.ledger.balances, account, 1) + if a == MintKyc(account, true) then 1 else 0
  {
    Sbt.MintOneEffect(s.ledger, a.account, KYC_ATTESTATION_TOKEN_ID);
  }

  lemma OtherStepsLeaveLedger(p: Platform, s: State, a: Action)
    requires !a.MintKyc? && !a.MintTicket? && !a.RefundTicket?
    ensures Step(p, s, a).ledger == s.ledger
  {
    if !a.Tick? && !IsTicketing(a) && !a.MarkUsed? {
      UnmarkedStepLeavesBooks(s, a);
    }
  }

  lemma KycStep(p: Platform, s: State, a: Action, account: Sbt.Address)
    requires TicketsOk(p, s) && LedgerOk(p, s) && account != Sbt.ZERO
    requires Sbt.BalanceOf(s.ledger.balances, account, 1) + 1 < Sbt.UINT_LIMIT
    ensures Sbt.BalanceOf(Step(p, s, a).ledger.balances, account, 1) ==
      Sbt.BalanceOf(s.ledger.balances, account, 1) + if a == MintKyc(account, true) then 1 else 0
  {
    match a
    case MintKyc(_, _) => KycMinted(p, s, a, account);
    case MintTicket(id, wallet, txOk) => MintLeavesKyc(p, s, id, wallet, txOk, account);
    case RefundTicket(_, _, _, _) => RefundLeavesKyc(p, s, a, account);
    case _ => OtherStepsLeaveLedger(p, s, a);
  }

  /** Whatever happens to tickets, an account holds as many identity tokens as were minted to it. */
  lemma {:induction false} KycTokensCountMints(p: Platform, actions: seq<Action>, account: Sbt.Address)
    requires account != Sbt.ZERO && |actions| < Sbt.UINT_LIMIT
    ensures Sbt.BalanceOf(Run(p, Initial(p), actions).ledger.balances, account, 1) == KycMints(actions, account)
  {
    if actions != [] {
      var n := |actions| - 1;
      KycTokensCountMints(p, actions[..n], account);
      KycMintsBound(actions[..n], account);
      RunKeepsSafe(p, actions[..n]);
      RunKeepsLedger(p, actions[..n]);
      KycStep(p, Run(p, Initial(p), actions[..n]), actions[n], account);
    }
  }
}
