/** The soulbound ERC-1155 contract: balances and approvals as inherited from OpenZeppelin 5.3,
    with transfers and approvals reserved to the owner. */
module Sbt {

  type Address = string
  const ZERO: Address := "0x0000000000000000000000000000000000000000"

  /** A uint256 holds less than this. */
  const UINT_LIMIT: nat := 0x1_0000000000000000_0000000000000000_0000000000000000_0000000000000000

  /** `everOwner`, `minted` and `burned` are history; the contract does not store them. */
  datatype Ledger = Ledger(
    balances: map<nat, map<Address, nat>>,
    approvals: map<Address, set<Address>>,
    owner: Address,
    everOwner: set<Address>,
    minted: map<nat, nat>,
    burned: map<nat, nat>)

  datatype Item = Item(id: nat, amount: nat)

  datatype Call =
    | SetApprovalForAll(operator: Address, approved: bool)
    | SafeTransferFrom(from: Address, to: Address, id: nat, amount: nat)
    | SafeBatchTransferFrom(from: Address, to: Address, ids: seq<nat>, amounts: seq<nat>)
    | Mint(to: Address, id: nat, amount: nat)
    | MintBatch(to: Address, ids: seq<nat>, amounts: seq<nat>)
    | Burn(from: Address, id: nat, amount: nat)
    | TransferOwnership(newOwner: Address)
    | RenounceOwnership

  datatype Outcome = Done(ledger: Ledger) | Reverted

  function Deployed(sender: Address): Ledger {
    Ledger(map[], map[], sender, {sender}, map[], map[])
  }

  // ---------------------------------------------------------------- reading

  function Holdings(balances: map<nat, map<Address, nat>>, id: nat): map<Address, nat> {
    if id in balances then balances[id] else map[]
  }

  function Amount(m: map<Address, nat>, a: Address): nat {
    if a in m then m[a] else 0
  }

  function BalanceOf(balances: map<nat, map<Address, nat>>, a: Address, id: nat): nat {
    Amount(Holdings(balances, id), a)
  }

  function Total(m: map<nat, nat>, id: nat): nat {
    if id in m then m[id] else 0
  }

  function ApprovedBy(l: Ledger, a: Address): set<Address> {
    if a in l.approvals then l.approvals[a] else {}
  }

  // ---------------------------------------------------------------- moving tokens

  datatype Moved = Moved(balances: map<nat, map<Address, nat>>) | Refused

  function SetBalance(balances: map<nat, map<Address, nat>>, a: Address, id: nat, n: nat)
    : map<nat, map<Address, nat>>
  {
    balances[id := Holdings(balances, id)[a := n]]
  }

  function Debit(balances: map<nat, map<Address, nat>>, a: Address, i: Item): Moved {
    if a == ZERO then Moved(balances)
    else if BalanceOf(balances, a, i.id) < i.amount then Refused
    else Moved(SetBalance(balances, a, i.id, BalanceOf(balances, a, i.id) - i.amount))
  }

  function Credit(balances: map<nat, map<Address, nat>>, a: Address, i: Item): Moved {
    if a == ZERO then Moved(balances)
    else if BalanceOf(balances, a, i.id) + i.amount >= UINT_LIMIT then Refused
    else Moved(SetBalance(balances, a, i.id, BalanceOf(balances, a, i.id) + i.amount))
  }

  /** The inherited `_update` for one id: the zero address stands for minting and burning. */
  function MoveOne(balances: map<nat, map<Address, nat>>, from: Address, to: Address, i: Item): Moved {
    var d := Debit(balances, from, i);
    if d.Refused? then Refused else Credit(d.balances, to, i)
  }

  function MoveAll(balances: map<nat, map<Address, nat>>, from: Address, to: Address, items: seq<Item>): Moved {
    if items == [] then Moved(balances)
    else
      var m := MoveAll(balances, from, to, items[..|items| - 1]);
      if m.Refused? then Refused else MoveOne(m.balances, from, to, items[|items| - 1])
  }

  function Items(ids: seq<nat>, amounts: seq<nat>): (r: seq<Item>)
    requires |ids| == |amounts|
  {
    seq(|ids|, i requires 0 <= i < |ids| => Item(ids[i], amounts[i]))
  }

  function AddTotals(m: map<nat, nat>, items: seq<Item>): map<nat, nat> {
    if items == [] then m
    else
      var i := items[|items| - 1];
      var t := AddTotals(m, items[..|items| - 1]);
      t[i.id := Total(t, i.id) + i.amount]
  }

  function Transfer(l: Ledger, sender: Address, from: Address, to: Address, items: seq<Item>): Outcome {
    if sender != l.owner then Reverted                                         // "Soulbound: transfer disabled"
    else if from != sender && sender !in ApprovedBy(l, from) then Reverted     // ERC1155MissingApprovalForAll
    else if to == ZERO || from == ZERO then Reverted
    else
      var m := MoveAll(l.balances, from, to, items);
      if m.Refused? then Reverted else Done(l.(balances := m.balances))
  }

  function MintItems(l: Ledger, sender: Address, to: Address, items: seq<Item>): Outcome {
    if sender != l.owner || to == ZERO then Reverted
    else
      var m := MoveAll(l.balances, ZERO, to, items);
      if m.Refused? then Reverted else Done(l.(balances := m.balances, minted := AddTotals(l.minted, items)))
  }

  function BurnItem(l: Ledger, sender: Address, from: Address, item: Item): Outcome {
    if sender != l.owner || from == ZERO then Reverted
    else
      var m := MoveOne(l.balances, from, ZERO, item);
      if m.Refused? then Reverted else Done(l.(balances := m.balances, burned := AddTotals(l.burned, [item])))
  }

  function Execute(l: Ledger, sender: Address, c: Call): Outcome {
    match c
    case SetApprovalForAll(operator, approved) =>
      if sender != l.owner || operator == ZERO then Reverted
      else
        var had := ApprovedBy(l, sender);
        Done(l.(approvals := l.approvals[sender := if approved then had + {operator} else had - {operator}]))
    case SafeTransferFrom(from, to, id, amount) => Transfer(l, sender, from, to, [Item(id, amount)])
    case SafeBatchTransferFrom(from, to, ids, amounts) =>
      if |ids| != |amounts| then Reverted else Transfer(l, sender, from, to, Items(ids, amounts))
    case Mint(to, id, amount) => MintItems(l, sender, to, [Item(id, amount)])
    case MintBatch(to, ids, amounts) =>
      if |ids| != |amounts| then Reverted else MintItems(l, sender, to, Items(ids, amounts))
    case Burn(from, id, amount) => BurnItem(l, sender, from, Item(id, amount))
    case TransferOwnership(newOwner) =>
      if sender != l.owner || newOwner == ZERO then Reverted
      else Done(l.(owner := newOwner, everOwner := l.everOwner + {newOwner}))
    case RenounceOwnership =>
      if sender != l.owner then Reverted else Done(l.(owner := ZERO, everOwner := l.everOwner + {ZERO}))
  }

  /** A reverted transaction changes nothing. Nobody can send as the zero address. */
  function Apply(l: Ledger, t: (Address, Call)): Ledger {
    if t.0 == ZERO then l
    else
      var r := Execute(l, t.0, t.1);
      if r.Done? then r.ledger else l
  }

  function Run(l: Ledger, transactions: seq<(Address, Call)>): Ledger {
    if transactions == [] then l
    else Apply(Run(l, transactions[..|transactions| - 1]), transactions[|transactions| - 1])
  }

  // ---------------------------------------------------------------- sums over accounts

  ghost function Sum(m: map<Address, nat>): nat {
    if m == map[] then 0
    else
      var a :| a in m;
      m[a] + Sum(m - {a})
  }

  lemma {:induction false} SumWithout(m: map<Address, nat>, a: Address)
    requires a in m
    ensures Sum(m) == m[a] + Sum(m - {a})
    decreases |m|
  {
    var b :| b in m && Sum(m) == m[b] + Sum(m - {b});
    if b != a {
      SumWithout(m - {b}, a);
      SumWithout(m - {a}, b);
      assert m - {b} - {a} == m - {a} - {b};
    }
  }

  lemma SumUpdated(m: map<Address, nat>, a: Address, n: nat)
    ensures Sum(m[a := n]) == Sum(m) - Amount(m, a) + n
  {
    SumWithout(m[a := n], a);
    assert m[a := n] - {a} == m - {a};
    if a in m {
      SumWithout(m, a);
    } else {
      assert m - {a} == m;
    }
  }

  ghost function Supply(balances: map<nat, map<Address, nat>>, id: nat): nat {
    Sum(Holdings(balances, id))
  }

  // ---------------------------------------------------------------- conservation

  lemma MoveOneSupply(balances: map<nat, map<Address, nat>>, from: Address, to: Address, i: Item, id: nat)
    requires MoveOne(balances, from, to, i).Moved?
    ensures var n := if id == i.id then i.amount else 0;
      Supply(MoveOne(balances, from, to, i).balances, id) + (if from == ZERO then 0 else n)
      == Supply(balances, id) + (if to == ZERO then 0 else n)
  {
    var d := Debit(balances, from, i).balances;
    if from != ZERO {
      SumUpdated(Holdings(balances, i.id), from, BalanceOf(balances, from, i.id) - i.amount);
    }
    if to != ZERO {
      SumUpdated(Holdings(d, i.id), to, BalanceOf(d, to, i.id) + i.amount);
    }
  }

  function AmountOf(items: seq<Item>, id: nat): nat {
    if items == [] then 0
    else
      var i := items[|items| - 1];
      AmountOf(items[..|items| - 1], id) + if i.id == id then i.amount else 0
  }

  lemma {:induction false} MoveAllSupply(balances: map<nat, map<Address, nat>>, from: Address, to: Address,
                                         items: seq<Item>, id: nat)
    requires MoveAll(balances, from, to, items).Moved?
    ensures Supply(MoveAll(balances, from, to, items).balances, id) + (if from == ZERO then 0 else AmountOf(items, id))
      == Supply(balances, id) + (if to == ZERO then 0 else AmountOf(items, id))
  {
    if items != [] {
      var rest, last := items[..|items| - 1], items[|items| - 1];
      MoveAllSupply(balances, from, to, rest, id);
      MoveOneSupply(MoveAll(balances, from, to, rest).balances, from, to, last, id);
    }
  }

  lemma {:induction false} TotalsAdded(m: map<nat, nat>, items: seq<Item>, id: nat)
    ensures Total(AddTotals(m, items), id) == Total(m, id) + AmountOf(items, id)
  {
    if items != [] {
      TotalsAdded(m, items[..|items| - 1], id);
    }
  }

  /** Per token id, what is held is what was minted less what was burned. */
  ghost predicate Conserved(l: Ledger) {
    forall id :: Supply(l.balances, id) + Total(l.burned, id) == Total(l.minted, id)
  }

  lemma TransferConserves(l: Ledger, sender: Address, from: Address, to: Address, items: seq<Item>)
    requires Conserved(l) && Transfer(l, sender, from, to, items).Done?
    ensures Conserved(Transfer(l, sender, from, to, items).ledger)
  {
    forall id ensures Supply(Transfer(l, sender, from, to, items).ledger.balances, id) == Supply(l.balances, id) {
      MoveAllSupply(l.balances, from, to, items, id);
    }
  }

  lemma MintConserves(l: Ledger, sender: Address, to: Address, items: seq<Item>)
    requires Conserved(l) && MintItems(l, sender, to, items).Done?
    ensures Conserved(MintItems(l, sender, to, items).ledger)
  {
    var l' := MintItems(l, sender, to, items).ledger;
    forall id ensures Supply(l'.balances, id) + Total(l'.burned, id) == Total(l'.minted, id) {
      MoveAllSupply(l.balances, ZERO, to, items, id);
      TotalsAdded(l.minted, items, id);
    }
  }

  lemma BurnConserves(l: Ledger, sender: Address, from: Address, item: Item)
    requires Conserved(l) && BurnItem(l, sender, from, item).Done?
    ensures Conserved(BurnItem(l, sender, from, item).ledger)
  {
    var l' := BurnItem(l, sender, from, item).ledger;
    forall id ensures Supply(l'.balances, id) + Total(l'.burned, id) == Total(l'.minted, id) {
      MoveOneSupply(l.balances, from, ZERO, item, id);
      TotalsAdded(l.burned, [item], id);
      assert [item][..0] == [];
      assert AmountOf([], id) == 0;
    }
  }

  lemma ApplyConserves(l: Ledger, t: (Address, Call))
    requires Conserved(l)
    ensures Conserved(Apply(l, t))
  {
    if t.0 != ZERO && Execute(l, t.0, t.1).Done? {
      match t.1
      case SafeTransferFrom(from, to, id, amount) => TransferConserves(l, t.0, from, to, [Item(id, amount)]);
      case SafeBatchTransferFrom(from, to, ids, amounts) => TransferConserves(l, t.0, from, to, Items(ids, amounts));
      case Mint(to, id, amount) => MintConserves(l, t.0, to, [Item(id, amount)]);
      case MintBatch(to, ids, amounts) => MintConserves(l, t.0, to, Items(ids, amounts));
      case Burn(from, id, amount) => BurnConserves(l, t.0, from, Item(id, amount));
      case _ =>
    }
  }

  // ---------------------------------------------------------------- soulbound

  /** Only accounts that are or were owner have ever approved an operator. */
  ghost predicate Bound(l: Ledger) {
    l.owner in l.everOwner && forall a :: a !in l.everOwner ==> ApprovedBy(l, a) == {}
  }

  lemma ApplyKeepsBound(l: Ledger, t: (Address, Call))
    requires Bound(l)
    ensures Bound(Apply(l, t))
    ensures l.everOwner <= Apply(l, t).everOwner
  {
  }

  lemma MoveOneOthers(balances: map<nat, map<Address, nat>>, from: Address, to: Address, i: Item, a: Address, id: nat)
    requires MoveOne(balances, from, to, i).Moved?
    requires a != from || from == ZERO
    ensures BalanceOf(MoveOne(balances, from, to, i).balances, a, id) >= BalanceOf(balances, a, id)
  {
  }

  lemma {:induction false} MoveAllOthers(balances: map<nat, map<Address, nat>>, from: Address, to: Address,
                                         items: seq<Item>, a: Address, id: nat)
    requires MoveAll(balances, from, to, items).Moved?
    requires a != from || from == ZERO
    ensures BalanceOf(MoveAll(balances, from, to, items).balances, a, id) >= BalanceOf(balances, a, id)
  {
    if items != [] {
      var rest, last := items[..|items| - 1], items[|items| - 1];
      MoveAllOthers(balances, from, to, rest, a, id);
      MoveOneOthers(MoveAll(balances, from, to, rest).balances, from, to, last, a, id);
    }
  }

  /** The call is the owner burning `amount` of exactly these tokens. */
  predicate BurnsFrom(l: Ledger, t: (Address, Call), a: Address, id: nat, amount: nat) {
    t.0 == l.owner && t.1 == Burn(a, id, amount)
  }

  lemma OnlyBurnTakes(l: Ledger, t: (Address, Call), a: Address, id: nat)
    requires Bound(l) && a !in l.everOwner
    requires BalanceOf(Apply(l, t).balances, a, id) < BalanceOf(l.balances, a, id)
    ensures BurnsFrom(l, t, a, id, BalanceOf(l.balances, a, id) - BalanceOf(Apply(l, t).balances, a, id))
  {
    match t.1
    case SafeTransferFrom(from, to, i, amount) => MoveAllOthersIfDone(l, from, to, [Item(i, amount)], a, id);
    case SafeBatchTransferFrom(from, to, ids, amounts) =>
      if |ids| == |amounts| { MoveAllOthersIfDone(l, from, to, Items(ids, amounts), a, id); }
    case Mint(to, i, amount) => MoveAllOthersIfDone(l, ZERO, to, [Item(i, amount)], a, id);
    case MintBatch(to, ids, amounts) =>
      if |ids| == |amounts| { MoveAllOthersIfDone(l, ZERO, to, Items(ids, amounts), a, id); }
    case Burn(from, i, amount) =>
      if a != from && MoveOne(l.balances, from, ZERO, Item(i, amount)).Moved? {
        MoveOneOthers(l.balances, from, ZERO, Item(i, amount), a, id);
      }
    case _ =>
  }

  lemma MoveAllOthersIfDone(l: Ledger, from: Address, to: Address, items: seq<Item>, a: Address, id: nat)
    ensures var m := MoveAll(l.balances, from, to, items);
      m.Moved? && (a != from || from == ZERO) ==> BalanceOf(m.balances, a, id) >= BalanceOf(l.balances, a, id)
  {
    if MoveAll(l.balances, from, to, items).Moved? && (a != from || from == ZERO) {
      MoveAllOthers(l.balances, from, to, items, a, id);
    }
  }

  // ---------------------------------------------------------------- every call sequence

  lemma {:induction false} RunInvariant(deployer: Address, transactions: seq<(Address, Call)>)
    ensures Conserved(Run(Deployed(deployer), transactions)) && Bound(Run(Deployed(deployer), transactions))
  {
    if transactions != [] {
      var n := |transactions| - 1;
      RunInvariant(deployer, transactions[..n]);
      ApplyConserves(Run(Deployed(deployer), transactions[..n]), transactions[n]);
      ApplyKeepsBound(Run(Deployed(deployer), transactions[..n]), transactions[n]);
    }
  }

  /** After any calls: nothing appears or disappears, and an account that never was owner has approved nobody. */
  lemma SupplyIsMintedMinusBurned(deployer: Address, transactions: seq<(Address, Call)>, id: nat)
    ensures var l := Run(Deployed(deployer), transactions);
      Supply(l.balances, id) == Total(l.minted, id) - Total(l.burned, id)
  {
    RunInvariant(deployer, transactions);
  }

  /** The account did not deploy the contract, and no call made it the owner. */
  ghost predicate NeverOwner(deployer: Address, transactions: seq<(Address, Call)>, a: Address) {
    a != deployer && a != ZERO && forall t :: t in transactions ==> t.1 != TransferOwnership(a)
  }

  lemma {:induction false} NeverOwnerIsNotRecorded(deployer: Address, transactions: seq<(Address, Call)>, a: Address)
    requires NeverOwner(deployer, transactions, a)
    ensures a !in Run(Deployed(deployer), transactions).everOwner
  {
    if transactions != [] {
      var n := |transactions| - 1;
      forall t | t in transactions[..n] ensures t.1 != TransferOwnership(a) {
        assert t in transactions;
      }
      NeverOwnerIsNotRecorded(deployer, transactions[..n], a);
      assert transactions[n] in transactions;
    }
  }

  lemma HoldersApproveNobody(deployer: Address, transactions: seq<(Address, Call)>, a: Address)
    requires NeverOwner(deployer, transactions, a)
    ensures ApprovedBy(Run(Deployed(deployer), transactions), a) == {}
  {
    RunInvariant(deployer, transactions);
    NeverOwnerIsNotRecorded(deployer, transactions, a);
  }

  /** The soulbound law: in any call sequence a holder's balance shrinks only by the owner's burn of that very token. */
  lemma HoldersLoseOnlyByBurn(deployer: Address, transactions: seq<(Address, Call)>, t: (Address, Call), a: Address, id: nat)
    requires NeverOwner(deployer, transactions, a)
    ensures var l, l' := Run(Deployed(deployer), transactions), Run(Deployed(deployer), transactions + [t]);
      var before, after := BalanceOf(l.balances, a, id), BalanceOf(l'.balances, a, id);
      after < before ==> BurnsFrom(l, t, a, id, before - after)
  {
    RunInvariant(deployer, transactions);
    NeverOwnerIsNotRecorded(deployer, transactions, a);
    var l := Run(Deployed(deployer), transactions);
    assert (transactions + [t])[..|transactions|] == transactions;
    if BalanceOf(Apply(l, t).balances, a, id) < BalanceOf(l.balances, a, id) {
      OnlyBurnTakes(l, t, a, id);
    }
  }

  // ---------------------------------------------------------------- single tokens

  lemma MintOneEffect(l: Ledger, to: Address, id: nat)
    ensures var r := Execute(l, l.owner, Mint(to, id, 1));
      && (r.Done? <==> to != ZERO && BalanceOf(l.balances, to, id) + 1 < UINT_LIMIT)
      && (r.Done? ==> r.ledger.owner == l.owner && forall a, i ::
            BalanceOf(r.ledger.balances, a, i) == BalanceOf(l.balances, a, i) + if a == to && i == id then 1 else 0)
  {
    MoveOneAlone(l.balances, ZERO, to, Item(id, 1));
  }

  lemma MintDone(l: Ledger, sender: Address, to: Address, id: nat, amount: nat)
    ensures Execute(l, sender, Mint(to, id, amount)).Done? <==>
      sender == l.owner && to != ZERO && BalanceOf(l.balances, to, id) + amount < UINT_LIMIT
  {
    MoveOneAlone(l.balances, ZERO, to, Item(id, amount));
  }

  lemma BurnDone(l: Ledger, sender: Address, from: Address, id: nat, amount: nat)
    ensures Execute(l, sender, Burn(from, id, amount)).Done? <==>
      sender == l.owner && from != ZERO && BalanceOf(l.balances, from, id) >= amount
  {
  }

  lemma BurnOneEffect(l: Ledger, from: Address, id: nat)
    requires from != ZERO
    ensures var r := Execute(l, l.owner, Burn(from, id, 1));
      && (r.Done? <==> BalanceOf(l.balances, from, id) > 0)
      && (r.Done? ==> r.ledger.owner == l.owner && forall a, i ::
            BalanceOf(r.ledger.balances, a, i) == BalanceOf(l.balances, a, i) - if a == from && i == id then 1 else 0)
  {
  }

  /** What one movement does to every balance; the zero address neither holds nor lacks anything. */
  ghost predicate Shifted(before: map<nat, map<Address, nat>>, after: map<nat, map<Address, nat>>,
                          from: Address, to: Address, item: Item)
  {
    forall a, i :: BalanceOf(after, a, i) + (if a == from && a != ZERO && i == item.id then item.amount else 0)
                == BalanceOf(before, a, i) + (if a == to && a != ZERO && i == item.id then item.amount else 0)
  }

  lemma MoveOneShifts(balances: map<nat, map<Address, nat>>, from: Address, to: Address, item: Item)
    requires MoveOne(balances, from, to, item).Moved?
    ensures Shifted(balances, MoveOne(balances, from, to, item).balances, from, to, item)
  {
  }

  // ---------------------------------------------------------------- batches

  /** What a batch brings of one token: the amounts beside that id. */
  function AmountIn(ids: seq<nat>, amounts: seq<nat>, id: nat): nat
    requires |ids| == |amounts|
  {
    if ids == [] then 0
    else
      var n := |ids| - 1;
      AmountIn(ids[..n], amounts[..n], id) + if ids[n] == id then amounts[n] else 0
  }

  lemma {:induction false} ItemsPairUp(ids: seq<nat>, amounts: seq<nat>, id: nat)
    requires |ids| == |amounts|
    ensures AmountOf(Items(ids, amounts), id) == AmountIn(ids, amounts, id)
  {
    if ids != [] {
      var n := |ids| - 1;
      ItemsPairUp(ids[..n], amounts[..n], id);
      assert Items(ids, amounts)[..n] == Items(ids[..n], amounts[..n]);
    }
  }

  /** What a batch does to every balance. */
  ghost predicate AllShifted(before: map<nat, map<Address, nat>>, after: map<nat, map<Address, nat>>,
                             from: Address, to: Address, items: seq<Item>)
  {
    forall a, i :: BalanceOf(after, a, i) + (if a == from && a != ZERO then AmountOf(items, i) else 0)
                == BalanceOf(before, a, i) + (if a == to && a != ZERO then AmountOf(items, i) else 0)
  }

  lemma {:induction false} MoveAllShifts(balances: map<nat, map<Address, nat>>, from: Address, to: Address, items: seq<Item>)
    requires MoveAll(balances, from, to, items).Moved?
    ensures AllShifted(balances, MoveAll(balances, from, to, items).balances, from, to, items)
  {
    if items != [] {
      var rest, last := items[..|items| - 1], items[|items| - 1];
      MoveAllShifts(balances, from, to, rest);
      MoveOneShifts(MoveAll(balances, from, to, rest).balances, from, to, last);
    }
  }

  /** The sender has all of each token that the batch asks for, and the receiver has room for it. */
  ghost predicate Covered(balances: map<nat, map<Address, nat>>, from: Address, to: Address, items: seq<Item>) {
    forall i :: i in items ==> ItemCovered(balances, from, to, items, i.id)
  }

  predicate ItemCovered(balances: map<nat, map<Address, nat>>, from: Address, to: Address, items: seq<Item>, id: nat) {
    && (from != ZERO ==> AmountOf(items, id) <= BalanceOf(balances, from, id))
    && (to != ZERO ==> BalanceOf(balances, to, id) + AmountOf(items, id) < UINT_LIMIT)
  }

  lemma CoveredExtends(balances: map<nat, map<Address, nat>>, from: Address, to: Address, items: seq<Item>)
    requires items != []
    ensures var n := |items| - 1;
      Covered(balances, from, to, items) <==>
        Covered(balances, from, to, items[..n]) && ItemCovered(balances, from, to, items, items[n].id)
  {
    var n := |items| - 1;
    var rest := items[..n];
    assert items == rest + [items[n]];
    if Covered(balances, from, to, items) {
      forall i | i in rest ensures ItemCovered(balances, from, to, rest, i.id) {
        assert ItemCovered(balances, from, to, items, i.id);
      }
      assert items[n] in items;
    }
    if Covered(balances, from, to, rest) && ItemCovered(balances, from, to, items, items[n].id) {
      forall i | i in items ensures ItemCovered(balances, from, to, items, i.id) {
        if i.id != items[n].id {
          assert i in rest && ItemCovered(balances, from, to, rest, i.id);
        }
      }
    }
  }

  lemma LastMoves(balances: map<nat, map<Address, nat>>, from: Address, to: Address, items: seq<Item>)
    requires from != to && items != []
    requires MoveAll(balances, from, to, items[..|items| - 1]).Moved?
    ensures MoveAll(balances, from, to, items).Moved? <==>
      ItemCovered(balances, from, to, items, items[|items| - 1].id)
  {
    MoveAllShifts(balances, from, to, items[..|items| - 1]);
  }

  /** A batch between two accounts goes through exactly when, token by token, the sums are covered. */
  lemma {:induction false} MoveAllIff(balances: map<nat, map<Address, nat>>, from: Address, to: Address, items: seq<Item>)
    requires from != to
    ensures MoveAll(balances, from, to, items).Moved? <==> Covered(balances, from, to, items)
  {
    if items != [] {
      MoveAllIff(balances, from, to, items[..|items| - 1]);
      CoveredExtends(balances, from, to, items);
      if MoveAll(balances, from, to, items[..|items| - 1]).Moved? {
        LastMoves(balances, from, to, items);
      }
    }
  }

  /** The same in terms of the two lists. */
  ghost predicate BatchCovered(balances: map<nat, map<Address, nat>>, from: Address, to: Address,
                               ids: seq<nat>, amounts: seq<nat>)
    requires |ids| == |amounts|
  {
    forall id :: id in ids ==>
      && (from != ZERO ==> AmountIn(ids, amounts, id) <= BalanceOf(balances, from, id))
      && (to != ZERO ==> BalanceOf(balances, to, id) + AmountIn(ids, amounts, id) < UINT_LIMIT)
  }

  ghost predicate BatchShifted(before: map<nat, map<Address, nat>>, after: map<nat, map<Address, nat>>,
                               from: Address, to: Address, ids: seq<nat>, amounts: seq<nat>)
    requires |ids| == |amounts|
  {
    forall a, i :: BalanceOf(after, a, i) + (if a == from && a != ZERO then AmountIn(ids, amounts, i) else 0)
                == BalanceOf(before, a, i) + (if a == to && a != ZERO then AmountIn(ids, amounts, i) else 0)
  }

  lemma BatchMoves(balances: map<nat, map<Address, nat>>, from: Address, to: Address, ids: seq<nat>, amounts: seq<nat>)
    requires |ids| == |amounts|
    ensures var m := MoveAll(balances, from, to, Items(ids, amounts));
      && (from != to ==> (m.Moved? <==> BatchCovered(balances, from, to, ids, amounts)))
      && (m.Moved? ==> BatchShifted(balances, m.balances, from, to, ids, amounts))
  {
    var items := Items(ids, amounts);
    forall id ensures AmountOf(items, id) == AmountIn(ids, amounts, id) {
      ItemsPairUp(ids, amounts, id);
    }
    forall k | 0 <= k < |ids| ensures items[k] in items && items[k].id in ids {
    }
    assert Covered(balances, from, to, items) <==> BatchCovered(balances, from, to, ids, amounts) by {
      CoveredInLists(balances, from, to, ids, amounts);
    }
    if from != to {
      MoveAllIff(balances, from, to, items);
    }
    if MoveAll(balances, from, to, items).Moved? {
      MoveAllShifts(balances, from, to, items);
    }
  }

  lemma CoveredInLists(balances: map<nat, map<Address, nat>>, from: Address, to: Address, ids: seq<nat>, amounts: seq<nat>)
    requires |ids| == |amounts|
    requires forall id :: AmountOf(Items(ids, amounts), id) == AmountIn(ids, amounts, id)
    ensures Covered(balances, from, to, Items(ids, amounts)) <==> BatchCovered(balances, from, to, ids, amounts)
  {
    var items := Items(ids, amounts);
    if Covered(balances, from, to, items) {
      forall id | id in ids ensures ItemCovered(balances, from, to, items, id) {
        var k :| 0 <= k < |ids| && ids[k] == id;
        assert items[k] in items;
      }
    }
    if BatchCovered(balances, from, to, ids, amounts) {
      forall i | i in items ensures ItemCovered(balances, from, to, items, i.id) {
        var k :| 0 <= k < |items| && items[k] == i;
        assert ids[k] in ids;
      }
    }
  }

  // ---------------------------------------------------------------- the contract

  predicate Approves(approvals: map<Address, set<Address>>, a: Address, operator: Address) {
    a in approvals && operator in approvals[a]
  }

  predicate MayMove(approvals: map<Address, set<Address>>, sender: Address, from: Address, to: Address) {
    (from == sender || Approves(approvals, from, sender)) && from != ZERO && to != ZERO
  }

  class BlockTicSBT {
    var balances: map<nat, map<Address, nat>>
    var operatorApprovals: map<Address, set<Address>>
    var owner: Address
    ghost var everOwner: set<Address>
    ghost var minted: map<nat, nat>
    ghost var burned: map<nat, nat>

    constructor (sender: Address)
      ensures View() == Deployed(sender)
    {
      balances, operatorApprovals, owner := map[], map[], sender;
      everOwner, minted, burned := {sender}, map[], map[];
    }

    ghost function View(): Ledger
      reads this
    {
      Ledger(balances, operatorApprovals, owner, everOwner, minted, burned)
    }

    method SetApprovalForAll(sender: Address, operator: Address, approved: bool) returns (ok: bool)
      requires sender != ZERO
      modifies this
      ensures View() == Apply(old(View()), (sender, Call.SetApprovalForAll(operator, approved)))
      ensures ok <==> sender == old(owner) && operator != ZERO
      ensures balances == old(balances) && owner == old(owner) && (!ok ==> operatorApprovals == old(operatorApprovals))
      ensures ok ==> forall a, o :: Approves(operatorApprovals, a, o) <==>
        if a == sender && o == operator then approved else Approves(old(operatorApprovals), a, o)
    {
      if sender != owner || operator == ZERO { return false; }
      var had := if sender in operatorApprovals then operatorApprovals[sender] else {};
      operatorApprovals := operatorApprovals[sender := if approved then had + {operator} else had - {operator}];
      ok := true;
    }

    /** The inherited `_update`: all ids or none. */
    method Update(from: Address, to: Address, items: seq<Item>) returns (ok: bool)
      modifies this`balances
      ensures ok == MoveAll(old(balances), from, to, items).Moved?
      ensures balances == if ok then MoveAll(old(balances), from, to, items).balances else old(balances)
    {
      var work := balances;
      for i := 0 to |items|
        invariant MoveAll(balances, from, to, items[..i]) == Moved(work)
        invariant balances == old(balances)
      {
        var item := items[i];
        assert items[..i + 1][..i] == items[..i];
        if from != ZERO {
          if BalanceOf(work, from, item.id) < item.amount {
            AllOrNothing(balances, from, to, items, i + 1);
            return false;
          }
          work := SetBalance(work, from, item.id, BalanceOf(work, from, item.id) - item.amount);
        }
        if to != ZERO {
          if BalanceOf(work, to, item.id) + item.amount >= UINT_LIMIT {
            AllOrNothing(balances, from, to, items, i + 1);
            return false;
          }
          work := SetBalance(work, to, item.id, BalanceOf(work, to, item.id) + item.amount);
        }
      }
      assert items[..|items|] == items;
      balances := work;
      ok := true;
    }

    method SafeTransferFrom(sender: Address, from: Address, to: Address, id: nat, amount: nat) returns (ok: bool)
      requires sender != ZERO
      modifies this
      ensures View() == Apply(old(View()), (sender, Call.SafeTransferFrom(from, to, id, amount)))
      ensures ok <==>
        && sender == old(owner) && MayMove(old(operatorApprovals), sender, from, to)
        && old(BalanceOf(balances, from, id)) >= amount
        && old(BalanceOf(balances, to, id)) + (if from == to then 0 else amount) < UINT_LIMIT
      ensures operatorApprovals == old(operatorApprovals) && owner == old(owner)
      ensures if ok then Shifted(old(balances), balances, from, to, Item(id, amount)) else balances == old(balances)
    {
      if sender != owner { return false; }
      MoveOneAlone(balances, from, to, Item(id, amount));
      ghost var before := balances;
      ok := TransferInherited(sender, from, to, [Item(id, amount)]);
      if ok {
        MoveOneShifts(before, from, to, Item(id, amount));
      }
    }

    method SafeBatchTransferFrom(sender: Address, from: Address, to: Address, ids: seq<nat>, amounts: seq<nat>)
      returns (ok: bool)
      requires sender != ZERO
      modifies this
      ensures View() == Apply(old(View()), (sender, Call.SafeBatchTransferFrom(from, to, ids, amounts)))
      ensures ok ==>
        && sender == old(owner) && MayMove(old(operatorApprovals), sender, from, to)
        && |ids| == |amounts| && BatchShifted(old(balances), balances, from, to, ids, amounts)
      ensures from != to ==> (ok <==>
        && sender == old(owner) && MayMove(old(operatorApprovals), sender, from, to)
        && |ids| == |amounts| && BatchCovered(old(balances), from, to, ids, amounts))
      ensures operatorApprovals == old(operatorApprovals) && owner == old(owner) && (!ok ==> balances == old(balances))
    {
      if sender != owner || |ids| != |amounts| { return false; }
      BatchMoves(balances, from, to, ids, amounts);
      ok := TransferInherited(sender, from, to, Items(ids, amounts));
    }

    method TransferInherited(sender: Address, from: Address, to: Address, items: seq<Item>) returns (ok: bool)
      requires sender == owner
      modifies this`balances
      ensures ok == Transfer(old(View()), sender, from, to, items).Done?
      ensures View() == if ok then Transfer(old(View()), sender, from, to, items).ledger else old(View())
    {
      if from != sender && (from !in operatorApprovals || sender !in operatorApprovals[from]) { return false; }
      if to == ZERO || from == ZERO { return false; }
      ok := Update(from, to, items);
    }

    method Mint(sender: Address, to: Address, id: nat, amount: nat) returns (ok: bool)
      requires sender != ZERO
      modifies this
      ensures View() == Apply(old(View()), (sender, Call.Mint(to, id, amount)))
      ensures ok <==> sender == old(owner) && to != ZERO && old(BalanceOf(balances, to, id)) + amount < UINT_LIMIT
      ensures if ok then Shifted(old(balances), balances, ZERO, to, Item(id, amount)) else balances == old(balances)
      ensures operatorApprovals == old(operatorApprovals) && owner == old(owner)
    {
      if sender != owner || to == ZERO { return false; }
      MoveOneAlone(balances, ZERO, to, Item(id, amount));
      ghost var before := balances;
      ok := Update(ZERO, to, [Item(id, amount)]);
      if ok {
        MoveOneShifts(before, ZERO, to, Item(id, amount));
        minted := AddTotals(minted, [Item(id, amount)]);
      }
    }

    method MintBatch(sender: Address, to: Address, ids: seq<nat>, amounts: seq<nat>) returns (ok: bool)
      requires sender != ZERO
      modifies this
      ensures View() == Apply(old(View()), (sender, Call.MintBatch(to, ids, amounts)))
      ensures ok <==>
        && sender == old(owner) && to != ZERO && |ids| == |amounts| && BatchCovered(old(balances), ZERO, to, ids, amounts)
      ensures if ok then BatchShifted(old(balances), balances, ZERO, to, ids, amounts) else balances == old(balances)
      ensures operatorApprovals == old(operatorApprovals) && owner == old(owner)
    {
      if sender != owner || to == ZERO || |ids| != |amounts| { return false; }
      BatchMoves(balances, ZERO, to, ids, amounts);
      ok := Update(ZERO, to, Items(ids, amounts));
      if ok {
        minted := AddTotals(minted, Items(ids, amounts));
      }
    }

    method Burn(sender: Address, from: Address, id: nat, amount: nat) returns (ok: bool)
      requires sender != ZERO
      modifies this
      ensures View() == Apply(old(View()), (sender, Call.Burn(from, id, amount)))
      ensures ok <==> sender == old(owner) && from != ZERO && old(BalanceOf(balances, from, id)) >= amount
      ensures if ok then Shifted(old(balances), balances, from, ZERO, Item(id, amount)) else balances == old(balances)
      ensures operatorApprovals == old(operatorApprovals) && owner == old(owner)
    {
      if sender != owner || from == ZERO { return false; }
      MoveOneAlone(balances, from, ZERO, Item(id, amount));
      ghost var before := balances;
      ok := Update(from, ZERO, [Item(id, amount)]);
      if ok {
        MoveOneShifts(before, from, ZERO, Item(id, amount));
        burned := AddTotals(burned, [Item(id, amount)]);
      }
    }

    method TransferOwnership(sender: Address, newOwner: Address) returns (ok: bool)
      requires sender != ZERO
      modifies this
      ensures View() == Apply(old(View()), (sender, Call.TransferOwnership(newOwner)))
      ensures ok <==> sender == old(owner) && newOwner != ZERO
      ensures owner == if ok then newOwner else old(owner)
      ensures balances == old(balances) && operatorApprovals == old(operatorApprovals)
    {
      if sender != owner || newOwner == ZERO { return false; }
      owner := newOwner;
      everOwner := everOwner + {newOwner};
      ok := true;
    }

    method RenounceOwnership(sender: Address) returns (ok: bool)
      requires sender != ZERO
      modifies this
      ensures View() == Apply(old(View()), (sender, Call.RenounceOwnership))
      ensures ok <==> sender == old(owner)
      ensures owner == if ok then ZERO else old(owner)
      ensures balances == old(balances) && operatorApprovals == old(operatorApprovals)
    {
      if sender != owner { return false; }
      owner := ZERO;
      everOwner := everOwner + {ZERO};
      ok := true;
    }
  }

  lemma {:induction false} AllOrNothing(balances: map<nat, map<Address, nat>>, from: Address, to: Address,
                                        items: seq<Item>, n: nat)
    requires n <= |items| && MoveAll(balances, from, to, items[..n]).Refused?
    ensures MoveAll(balances, from, to, items).Refused?
    decreases |items|
  {
    if n < |items| {
      assert items[..|items| - 1][..n] == items[..n];
      AllOrNothing(balances, from, to, items[..|items| - 1], n);
    } else {
      assert items[..n] == items;
    }
  }

  lemma MoveOneAlone(balances: map<nat, map<Address, nat>>, from: Address, to: Address, i: Item)
    ensures MoveAll(balances, from, to, [i]) == MoveOne(balances, from, to, i)
  {
    assert [i][..0] == [];
    assert MoveAll(balances, from, to, []) == Moved(balances);
  }
}
