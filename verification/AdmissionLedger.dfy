/** Database rows against token balances, although derived token ids collide and failed burns are swallowed. */
module AdmissionLedger {
  import opened Options
  import opened Admission
  import opened AdmissionSafety
  import Sbt

  /** The ticket stands for a token that is still on chain. */
  predicate OnChain(s: State, id: string)
    requires id in s.tickets
  {
    s.tickets[id].status == MINTED || s.tickets[id].status == USED || id in s.stranded
  }

  predicate Carries(s: State, id: string, wallet: Sbt.Address, tokenId: nat) {
    && id in s.tickets && s.tickets[id].sbtTokenId == Some(tokenId) && s.tickets[id].aaWalletAddress == Some(wallet)
    && OnChain(s, id)
  }

  function Carriers(s: State, wallet: Sbt.Address, tokenId: nat): set<string> {
    set id | id in s.tickets && Carries(s, id, wallet, tokenId)
  }

  ghost predicate BalancesMatch(s: State) {
    forall w, i :: i >= TICKET_TOKEN_ID_BASE ==> Sbt.BalanceOf(s.ledger.balances, w, i) == |Carriers(s, w, i)|
  }

  ghost predicate LedgerOk(p: Platform, s: State) {
    && s.ledger.owner == p.signer
    && (forall id :: id in s.stranded ==> id in s.tickets && s.tickets[id].status == REFUNDED)
    && (forall id :: id in s.tickets && HasToken(s.tickets[id]) ==> s.tickets[id].aaWalletAddress.value != Sbt.ZERO)
    && BalancesMatch(s)
  }

  // ---------------------------------------------------------------- steps

  lemma SameCarriers(p: Platform, s: State, s': State)
    requires LedgerOk(p, s) && s'.ledger == s.ledger && s'.stranded == s.stranded
    requires forall id :: id in s.tickets ==> id in s'.tickets
    requires forall id :: id in s'.tickets && id !in s.tickets ==>
      !HasToken(s'.tickets[id]) && !s'.tickets[id].aaWalletAddress.Some?
    requires forall id :: id in s.tickets ==>
      && s'.tickets[id].sbtTokenId == s.tickets[id].sbtTokenId
      && s'.tickets[id].aaWalletAddress == s.tickets[id].aaWalletAddress
      && (s'.tickets[id].status == REFUNDED <==> s.tickets[id].status == REFUNDED)
      && (HasToken(s.tickets[id]) ==> (OnChain(s', id) <==> OnChain(s, id)))
    ensures LedgerOk(p, s')
  {
    forall w, i ensures Carriers(s', w, i) == Carriers(s, w, i) {}
  }

  predicate Mints(p: Platform, s: State, id: string, wallet: Option<string>, txOk: bool) {
    id in s.tickets && s.tickets[id].status == PAID && wallet.Some? && txOk &&
    Sbt.Execute(s.ledger, p.signer, Sbt.Mint(wallet.value, DeriveTokenId(p, id), 1)).Done?
  }

  /** One more ticket carries the pair, and carried nothing before. */
  lemma MintedCarriers(p: Platform, s: State, s': State, id: string, wallet: Sbt.Address, token: nat, w: Sbt.Address, i: nat)
    requires TicketsOk(p, s) && id in s.tickets && s.tickets[id].status == PAID
    requires s'.stranded == s.stranded && s'.tickets ==
      s.tickets[id := s.tickets[id].(status := MINTED, sbtTokenId := Some(token), aaWalletAddress := Some(wallet))]
    ensures id !in Carriers(s, w, i)
    ensures Carriers(s', w, i) == if w == wallet && i == token then Carriers(s, w, i) + {id} else Carriers(s, w, i)
  {
    assert TicketOk(p, id, s.tickets[id]);
  }

  lemma MintKeepsLedger(p: Platform, s: State, id: string, wallet: Option<string>, txOk: bool)
    requires TicketsOk(p, s) && LedgerOk(p, s)
    ensures LedgerOk(p, MintStep(p, s, id, wallet, txOk))
  {
    if Mints(p, s, id, wallet, txOk) {
      var s', token := MintStep(p, s, id, wallet, txOk), DeriveTokenId(p, id);
      Sbt.MintOneEffect(s.ledger, wallet.value, token);
      forall w, i | i >= TICKET_TOKEN_ID_BASE
        ensures Sbt.BalanceOf(s'.ledger.balances, w, i) == |Carriers(s', w, i)|
      {
        MintedCarriers(p, s, s', id, wallet.value, token, w, i);
      }
    }
  }

  predicate Refunds(s: State, id: string, requester: Option<string>, ecpayOk: bool) {
    && id in s.tickets && Refundable(s.tickets[id])
    && (requester.Some? && requester.value != "" ==> requester.value == s.tickets[id].userId)
    && (s.tickets[id].preauthTradeNo.Some? ==> ecpayOk)
  }

  /** When a refund burns, the wallet has the token to burn: only the chain itself can fail the burn. */
  lemma BurnHasBalance(p: Platform, s: State, id: string)
    requires TicketsOk(p, s) && LedgerOk(p, s)
    requires id in s.tickets && s.tickets[id].status == MINTED
    ensures HasToken(s.tickets[id]) && BurnOf(p, s, s.tickets[id]).Done?
  {
    assert TicketOk(p, id, s.tickets[id]);
    var w, i := s.tickets[id].aaWalletAddress.value, s.tickets[id].sbtTokenId.value;
    Held(p, s, id);
    Sbt.BurnOneEffect(s.ledger, w, i);
  }

  lemma Held(p: Platform, s: State, id: string)
    requires TicketsOk(p, s) && LedgerOk(p, s)
    requires id in s.tickets && HasToken(s.tickets[id]) && OnChain(s, id)
    ensures Sbt.BalanceOf(s.ledger.balances, s.tickets[id].aaWalletAddress.value, s.tickets[id].sbtTokenId.value) > 0
  {
    assert TicketOk(p, id, s.tickets[id]);
    assert id in Carriers(s, s.tickets[id].aaWalletAddress.value, s.tickets[id].sbtTokenId.value);
  }

  lemma BurnedCarriers(p: Platform, s: State, id: string, requester: Option<string>, ecpayOk: bool, w: Sbt.Address, i: nat)
    requires TicketsOk(p, s) && LedgerOk(p, s)
    requires Refunds(s, id, requester, ecpayOk) && s.tickets[id].status == MINTED
    ensures HasToken(s.tickets[id]) && BurnOf(p, s, s.tickets[id]).Done?
    ensures var own := s.tickets[id].aaWalletAddress == Some(w) && s.tickets[id].sbtTokenId == Some(i);
      && (own ==> id in Carriers(s, w, i))
      && Carriers(RefundStep(p, s, id, requester, ecpayOk, true), w, i) ==
           if own then Carriers(s, w, i) - {id} else Carriers(s, w, i)
  {
    assert TicketOk(p, id, s.tickets[id]);
    BurnHasBalance(p, s, id);
  }

  lemma BurningRefundKeepsLedger(p: Platform, s: State, id: string, requester: Option<string>, ecpayOk: bool)
    requires TicketsOk(p, s) && LedgerOk(p, s)
    requires Refunds(s, id, requester, ecpayOk) && s.tickets[id].status == MINTED
    ensures LedgerOk(p, RefundStep(p, s, id, requester, ecpayOk, true))
  {
    var s' := RefundStep(p, s, id, requester, ecpayOk, true);
    var t := s.tickets[id];
    BurnHasBalance(p, s, id);
    Sbt.BurnOneEffect(s.ledger, t.aaWalletAddress.value, t.sbtTokenId.value);
    forall w, i | i >= TICKET_TOKEN_ID_BASE
      ensures Sbt.BalanceOf(s'.ledger.balances, w, i) == |Carriers(s', w, i)|
    {
      BurnedCarriers(p, s, id, requester, ecpayOk, w, i);
    }
  }

  lemma PlainRefundKeepsLedger(p: Platform, s: State, id: string, requester: Option<string>, ecpayOk: bool, txOk: bool)
    requires TicketsOk(p, s) && LedgerOk(p, s)
    requires Refunds(s, id, requester, ecpayOk) && (s.tickets[id].status == MINTED ==> !txOk)
    ensures LedgerOk(p, RefundStep(p, s, id, requester, ecpayOk, txOk))
  {
    var s' := RefundStep(p, s, id, requester, ecpayOk, txOk);
    assert TicketOk(p, id, s.tickets[id]);
    forall w, i ensures Carriers(s', w, i) == Carriers(s, w, i) {}
  }

  lemma RefundKeepsLedger(p: Platform, s: State, id: string, requester: Option<string>, ecpayOk: bool, txOk: bool)
    requires TicketsOk(p, s) && LedgerOk(p, s)
    ensures LedgerOk(p, RefundStep(p, s, id, requester, ecpayOk, txOk))
  {
    if Refunds(s, id, requester, ecpayOk) {
      if s.tickets[id].status == MINTED && txOk {
        BurningRefundKeepsLedger(p, s, id, requester, ecpayOk);
      } else {
        PlainRefundKeepsLedger(p, s, id, requester, ecpayOk, txOk);
      }
    } else {
      assert RefundStep(p, s, id, requester, ecpayOk, txOk) == s;
    }
  }

  lemma KycKeepsLedger(p: Platform, s: State, a: Action)
    requires LedgerOk(p, s) && a.MintKyc?
    ensures LedgerOk(p, TicketStep(p, s, a))
  {
    var s' := TicketStep(p, s, a);
    if s' != s {
      Sbt.MintOneEffect(s.ledger, a.account, KYC_ATTESTATION_TOKEN_ID);
      forall w, i ensures Carriers(s', w, i) == Carriers(s, w, i) {}
    }
  }

  lemma TicketStepKeepsLedger(p: Platform, s: State, a: Action)
    requires TicketsOk(p, s) && LedgerOk(p, s) && IsTicketing(a)
    ensures LedgerOk(p, TicketStep(p, s, a))
  {
    match a
    case MintTicket(id, wallet, txOk) => MintKeepsLedger(p, s, id, wallet, txOk);
    case RefundTicket(id, requester, ecpayOk, txOk) => RefundKeepsLedger(p, s, id, requester, ecpayOk, txOk);
    case MintKyc(_, _) => KycKeepsLedger(p, s, a);
    case _ => RowStepKeepsLedger(p, s, a);
  }

  lemma RowStepKeepsLedger(p: Platform, s: State, a: Action)
    requires TicketsOk(p, s) && LedgerOk(p, s)
    requires a.Preauthorize? || a.EcpayCallback? || a.CapturePayment?
    ensures LedgerOk(p, TicketStep(p, s, a))
  {
    RowMoves(p, s, a);
    if TicketStep(p, s, a) != s {
      SameCarriers(p, s, TicketStep(p, s, a));
    }
  }

  /** One row is new without a token, or keeps its token columns and is not refunded. */
  ghost predicate RowMove(s: State, s': State, id: string) {
    && s'.ledger == s.ledger && s'.stranded == s.stranded
    && id in s'.tickets && s'.tickets == s.tickets[id := s'.tickets[id]]
    && (id !in s.tickets ==> s'.tickets[id].sbtTokenId.None? && s'.tickets[id].aaWalletAddress.None?)
    && (id in s.tickets ==>
          && s'.tickets[id].sbtTokenId == s.tickets[id].sbtTokenId
          && s'.tickets[id].aaWalletAddress == s.tickets[id].aaWalletAddress
          && (s'.tickets[id].status == s.tickets[id].status ||
              (s.tickets[id].status == PREAUTHORIZED && s'.tickets[id].status == PAID)))
  }

  lemma RowMoves(p: Platform, s: State, a: Action)
    requires a.Preauthorize? || a.EcpayCallback? || a.CapturePayment?
    ensures TicketStep(p, s, a) == s || RowMove(s, TicketStep(p, s, a), a.ticketId)
  {
  }

  predicate SameBooks(s: State, s': State) {
    s'.tickets == s.tickets && s'.ledger == s.ledger && s'.stranded == s.stranded
  }

  lemma LogLeavesBooks(s: State, a: nat, stored: bool)
    ensures SameBooks(s, LogStep(s, a, stored))
  {
  }

  lemma UnmarkedStepLeavesBooks(s: State, a: Action)
    requires !a.Tick? && !IsTicketing(a) && !a.MarkUsed?
    ensures SameBooks(s, GateStep(s, a))
  {
    match a {
      case WriteLog(x, stored) => LogLeavesBooks(s, x, stored);
      case Crash(x) => LogLeavesBooks(s, x, false);
      case _ => AttemptStepLeavesRecords(s, a);
    }
  }

  lemma MarkSpares(s: State, a: nat, id: string)
    requires id in s.tickets
    ensures var s' := MarkStep(s, a);
      && id in s'.tickets
      && s'.tickets[id].sbtTokenId == s.tickets[id].sbtTokenId
      && s'.tickets[id].aaWalletAddress == s.tickets[id].aaWalletAddress
      && (s'.tickets[id].status == s.tickets[id].status || (Admissible(s.tickets[id]) && s'.tickets[id].status == USED))
  {
  }

  lemma MarkKeepsLedger(p: Platform, s: State, a: nat)
    requires TicketsOk(p, s) && LedgerOk(p, s)
    ensures LedgerOk(p, MarkStep(s, a))
  {
    var s' := MarkStep(s, a);
    assert s'.ledger == s.ledger && s'.stranded == s.stranded && s'.tickets.Keys == s.tickets.Keys;
    forall id | id in s.tickets
      ensures s'.tickets[id].sbtTokenId == s.tickets[id].sbtTokenId
      ensures s'.tickets[id].aaWalletAddress == s.tickets[id].aaWalletAddress
      ensures s'.tickets[id].status == REFUNDED <==> s.tickets[id].status == REFUNDED
      ensures HasToken(s.tickets[id]) ==> (OnChain(s', id) <==> OnChain(s, id))
    {
      MarkSpares(s, a, id);
      assert TicketOk(p, id, s.tickets[id]);
    }
    SameCarriers(p, s, s');
  }

  lemma StepKeepsLedger(p: Platform, s: State, a: Action)
    requires TicketsOk(p, s) && LedgerOk(p, s)
    ensures LedgerOk(p, Step(p, s, a))
  {
    if IsTicketing(a) {
      TicketStepKeepsLedger(p, s, a);
    } else if a.MarkUsed? {
      MarkKeepsLedger(p, s, a.attempt);
    } else {
      if !a.Tick? {
        UnmarkedStepLeavesBooks(s, a);
      }
      assert SameBooks(s, Step(p, s, a));
      SameCarriers(p, s, Step(p, s, a));
    }
  }

  // ---------------------------------------------------------------- whole runs

  lemma {:induction false} RunKeepsLedger(p: Platform, actions: seq<Action>)
    ensures LedgerOk(p, Run(p, Initial(p), actions))
  {
    if actions == [] {
      forall w, i ensures Carriers(Initial(p), w, i) == {} {}
    } else {
      var n := |actions| - 1;
      RunKeepsSafe(p, actions[..n]);
      RunKeepsLedger(p, actions[..n]);
      StepKeepsLedger(p, Run(p, Initial(p), actions[..n]), actions[n]);
    }
  }

  /** The balance of a wallet for a ticket token is the number of tickets that stand for it, colliding ids included. */
  lemma BalanceCountsTickets(p: Platform, actions: seq<Action>, wallet: Sbt.Address, tokenId: nat)
    requires tokenId >= TICKET_TOKEN_ID_BASE
    ensures var s := Run(p, Initial(p), actions);
      Sbt.BalanceOf(s.ledger.balances, wallet, tokenId) == |Carriers(s, wallet, tokenId)|
  {
    RunKeepsLedger(p, actions);
  }

  /** Every refund of a minted ticket finds its token; if the chain answers, the token is burned. */
  lemma RefundNeverLacksBalance(p: Platform, actions: seq<Action>, id: string)
    requires var s := Run(p, Initial(p), actions); id in s.tickets && s.tickets[id].status == MINTED
    ensures var s := Run(p, Initial(p), actions); HasToken(s.tickets[id]) && BurnOf(p, s, s.tickets[id]).Done?
  {
    RunKeepsSafe(p, actions);
    RunKeepsLedger(p, actions);
    BurnHasBalance(p, Run(p, Initial(p), actions), id);
  }

  /** The ownership check refuses an attempt only if its ticket has meanwhile been refunded. */
  lemma OwnershipRefusesOnlyRefunded(p: Platform, actions: seq<Action>, attempt: nat, rpcOk: bool)
    requires var s := Run(p, Initial(p), actions); attempt in s.attempts && s.attempts[attempt].Read?
    requires var s := Run(p, Initial(p), actions); !OwnershipValid(s, s.attempts[attempt].ticket, rpcOk)
    ensures var s := Run(p, Initial(p), actions); var id := s.attempts[attempt].ticketId;
      id in s.tickets && s.tickets[id].status == REFUNDED && id !in s.stranded
  {
    RunKeepsSafe(p, actions);
    RunKeepsLedger(p, actions);
    var s := Run(p, Initial(p), actions);
    var x := s.attempts[attempt];
    assert AttemptOk(s, x);
    assert TicketOk(p, x.ticketId, s.tickets[x.ticketId]);
    if OnChain(s, x.ticketId) {
      Held(p, s, x.ticketId);
    }
  }
}
