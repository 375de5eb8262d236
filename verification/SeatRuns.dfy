/** Allocation transactions over row locks, interleaved with each other and with releases. */
module SeatRuns {
  import opened Options
  import opened Seats

  datatype SeatRow = SeatRow(eventId: string, zoneId: string, place: Place, status: SeatStatus)

  /** An open transaction: the rows it has locked, in order, and the block it has chosen. */
  datatype Tx = Tx(eventId: string, zoneId: string, size: nat, available: seq<string>, block: Option<seq<string>>)

  /** What a committed allocation returned. */
  datatype Grant = Grant(eventId: string, zoneId: string, size: nat, seats: seq<string>)

  /** `grants` and `live` are history: every allocation, and the seats it still holds. */
  datatype State = State(
    seats: map<string, SeatRow>,
    locks: map<string, nat>,
    txs: map<nat, Tx>,
    grants: map<string, Grant>,
    live: map<string, set<string>>)

  datatype Action =
    | Select(tx: nat, eventId: string, zoneId: string, size: nat, available: seq<string>)
    | Choose(tx: nat)
    | Commit(tx: nat, allocationId: string)
    | Abort(tx: nat)
    | Release(seatId: string)

  function PlacesOf(seats: map<string, SeatRow>, ids: seq<string>): (r: seq<Place>)
    ensures |r| == |ids|
  {
    seq(|ids|, i requires 0 <= i < |ids| => if ids[i] in seats then seats[ids[i]].place else Place("", 0))
  }

  predicate Wanted(s: State, id: string, eventId: string, zoneId: string) {
    id in s.seats && s.seats[id].eventId == eventId && s.seats[id].zoneId == zoneId && s.seats[id].status == AVAILABLE
  }

  /** FOR UPDATE SKIP LOCKED: the available rows of the zone that nobody holds, ordered by row and number. */
  ghost predicate Selects(s: State, eventId: string, zoneId: string, available: seq<string>) {
    && (forall id :: id in available <==> Wanted(s, id, eventId, zoneId) && id !in s.locks)
    && InOrder(PlacesOf(s.seats, available))
  }

  ghost function SelectStep(s: State, a: Action): State
    requires a.Select?
  {
    if a.tx in s.txs || a.size == 0 || !Selects(s, a.eventId, a.zoneId, a.available) then s
    else s.(
      txs := s.txs[a.tx := Tx(a.eventId, a.zoneId, a.size, a.available, None)],
      locks := map id | id in s.locks.Keys + Members(a.available) ::
        if id in s.locks then s.locks[id] else a.tx)
  }

  function ChooseStep(s: State, tx: nat): State {
    if tx !in s.txs then s
    else
      var t := s.txs[tx];
      match FirstRun(PlacesOf(s.seats, t.available), t.size, 0)
      case Some(i) =>
        if i + t.size <= |t.available| then s.(txs := s.txs[tx := t.(block := Some(t.available[i..i + t.size]))]) else s
      case None => EndTx(s, tx)   // the exception rolls the transaction back
  }

  function EndTx(s: State, tx: nat): State {
    s.(txs := s.txs - {tx}, locks := map id | id in s.locks && s.locks[id] != tx :: s.locks[id])
  }

  function Members(ids: seq<string>): set<string> {
    set id | id in ids
  }

  function Mark(seats: map<string, SeatRow>, block: seq<string>): map<string, SeatRow> {
    map id | id in seats :: if id in block then seats[id].(status := ALLOCATED) else seats[id]
  }

  function CommitStep(s: State, tx: nat, allocationId: string): State {
    if tx !in s.txs || s.txs[tx].block.None? || allocationId in s.grants then s
    else
      var t := s.txs[tx];
      EndTx(s, tx).(
        seats := Mark(s.seats, t.block.value),
        grants := s.grants[allocationId := Grant(t.eventId, t.zoneId, t.size, t.block.value)],
        live := s.live[allocationId := Members(t.block.value)])
  }

  function ReleaseStep(s: State, id: string): State {
    if id !in s.seats || s.seats[id].status == AVAILABLE || s.seats[id].status == USED then s
    else s.(
      seats := s.seats[id := s.seats[id].(status := AVAILABLE)],
      live := map a | a in s.live :: s.live[a] - {id})
  }

  ghost function Step(s: State, a: Action): State {
    match a
    case Select(_, _, _, _, _) => SelectStep(s, a)
    case Choose(tx) => ChooseStep(s, tx)
    case Commit(tx, allocationId) => CommitStep(s, tx, allocationId)
    case Abort(tx) => EndTx(s, tx)
    case Release(id) => ReleaseStep(s, id)
  }

  ghost function Run(s: State, actions: seq<Action>): State {
    if actions == [] then s else Step(Run(s, actions[..|actions| - 1]), actions[|actions| - 1])
  }

  function Opened(seats: map<string, SeatRow>): State {
    State(seats, map[], map[], map[], map[])
  }

  // ---------------------------------------------------------------- invariants

  ghost predicate BlockOk(s: State, t: Tx) {
    t.block.Some? ==>
      match FirstRun(PlacesOf(s.seats, t.available), t.size, 0)
      case Some(i) => i + t.size <= |t.available| && t.block.value == t.available[i..i + t.size]
      case None => false
  }

  ghost predicate TxOk(s: State, tx: nat, t: Tx) {
    && t.size >= 1
    && InOrder(PlacesOf(s.seats, t.available))
    && (forall id :: id in t.available ==> Wanted(s, id, t.eventId, t.zoneId) && id in s.locks && s.locks[id] == tx)
    && BlockOk(s, t)
  }

  ghost predicate TxsOk(s: State) {
    forall tx :: tx in s.txs ==> TxOk(s, tx, s.txs[tx])
  }

  ghost predicate Owned(s: State, id: string) {
    exists a :: a in s.live && id in s.live[a]
  }

  ghost predicate OwnersOk(s: State) {
    && (forall a, b :: a in s.live && b in s.live && a != b ==> s.live[a] !! s.live[b])
    && (forall a, id :: a in s.live && id in s.live[a] ==> id in s.seats && s.seats[id].status == ALLOCATED)
    && (forall id :: id in s.seats && s.seats[id].status != AVAILABLE ==> Owned(s, id))
  }

  /** Exactly `size` different seats of one row of the zone, numbered one after the other. */
  ghost predicate GrantOk(seats: map<string, SeatRow>, g: Grant) {
    && |g.seats| == g.size && g.size >= 1
    && forall k :: 0 <= k < |g.seats| ==>
         && g.seats[k] in seats && seats[g.seats[k]].eventId == g.eventId && seats[g.seats[k]].zoneId == g.zoneId
         && g.seats[0] in seats
         && seats[g.seats[k]].place == Place(seats[g.seats[0]].place.row, seats[g.seats[0]].place.number + k)
  }

  ghost predicate GrantsOk(s: State) {
    && s.live.Keys == s.grants.Keys
    && (forall a :: a in s.grants ==> GrantOk(s.seats, s.grants[a]))
    && (forall a :: a in s.grants ==> forall id :: id in s.live[a] ==> id in s.grants[a].seats)
  }

  ghost predicate Inv(s: State) {
    TxsOk(s) && OwnersOk(s) && GrantsOk(s)
  }

  // ---------------------------------------------------------------- rows keep their identity

  ghost predicate SameRows(m: map<string, SeatRow>, n: map<string, SeatRow>) {
    && m.Keys == n.Keys
    && forall id :: id in m ==> n[id].eventId == m[id].eventId && n[id].zoneId == m[id].zoneId && n[id].place == m[id].place
  }

  lemma SameRowsSamePlaces(m: map<string, SeatRow>, n: map<string, SeatRow>, ids: seq<string>)
    requires SameRows(m, n)
    ensures PlacesOf(m, ids) == PlacesOf(n, ids)
  {
  }

  lemma StepKeepsIdentity(s: State, a: Action)
    ensures SameRows(s.seats, Step(s, a).seats)
  {
  }

  lemma GrantsSurvive(s: State, n: map<string, SeatRow>, g: Grant)
    requires GrantOk(s.seats, g) && SameRows(s.seats, n)
    ensures GrantOk(n, g)
  {
  }

  // ---------------------------------------------------------------- steps

  /** A transaction is untouched by a step that leaves its rows available and locked by it. */
  lemma TxSurvives(s: State, s': State, tx: nat, t: Tx)
    requires TxOk(s, tx, t) && SameRows(s.seats, s'.seats)
    requires forall id :: id in t.available ==>
      s'.seats[id].status == AVAILABLE && id in s'.locks && s'.locks[id] == tx
    ensures TxOk(s', tx, t)
  {
    SameRowsSamePlaces(s.seats, s'.seats, t.available);
    forall id | id in t.available ensures Wanted(s', id, t.eventId, t.zoneId) {
      assert Wanted(s, id, t.eventId, t.zoneId);
    }
  }

  lemma SameBooksKeepInv(s: State, s': State)
    requires Inv(s) && TxsOk(s')
    requires s'.seats == s.seats && s'.live == s.live && s'.grants == s.grants
    ensures Inv(s')
  {
    forall id | id in s'.seats && s'.seats[id].status != AVAILABLE ensures Owned(s', id) {
      assert Owned(s, id);
    }
  }

  lemma SelectKeepsTxs(s: State, a: Action)
    requires TxsOk(s) && a.Select?
    ensures TxsOk(SelectStep(s, a))
  {
    var s' := SelectStep(s, a);
    forall tx | tx in s'.txs ensures TxOk(s', tx, s'.txs[tx]) {
      if tx in s.txs {
        TxSurvives(s, s', tx, s.txs[tx]);
      } else {
        forall id | id in a.available
          ensures Wanted(s', id, a.eventId, a.zoneId) && id in s'.locks && s'.locks[id] == a.tx
        {
          assert Wanted(s, id, a.eventId, a.zoneId) && id !in s.locks;
        }
      }
    }
  }

  lemma EndTxKeepsTxs(s: State, tx: nat)
    requires TxsOk(s)
    ensures TxsOk(EndTx(s, tx))
  {
    var s' := EndTx(s, tx);
    forall u | u in s'.txs ensures TxOk(s', u, s'.txs[u]) {
      assert TxOk(s, u, s.txs[u]);
      TxSurvives(s, s', u, s.txs[u]);
    }
  }

  lemma ChosenTxOk(s: State, s': State, tx: nat, t: Tx, i: nat)
    requires TxOk(s, tx, t) && s'.seats == s.seats && s'.locks == s.locks
    requires FirstRun(PlacesOf(s.seats, t.available), t.size, 0) == Some(i) && i + t.size <= |t.available|
    ensures TxOk(s', tx, t.(block := Some(t.available[i..i + t.size])))
  {
    forall id | id in t.available ensures Wanted(s', id, t.eventId, t.zoneId) {
      assert Wanted(s, id, t.eventId, t.zoneId);
    }
  }

  lemma ChosenKeepsTxs(s: State, s': State, tx: nat, i: nat)
    requires TxsOk(s) && tx in s.txs && s'.seats == s.seats && s'.locks == s.locks
    requires FirstRun(PlacesOf(s.seats, s.txs[tx].available), s.txs[tx].size, 0) == Some(i)
    requires i + s.txs[tx].size <= |s.txs[tx].available|
    requires s'.txs == s.txs[tx := s.txs[tx].(block := Some(s.txs[tx].available[i..i + s.txs[tx].size]))]
    ensures TxsOk(s')
  {
    forall u | u in s'.txs ensures TxOk(s', u, s'.txs[u]) {
      assert TxOk(s, u, s.txs[u]);
      if u == tx {
        ChosenTxOk(s, s', tx, s.txs[tx], i);
      } else {
        TxSurvives(s, s', u, s.txs[u]);
      }
    }
  }

  lemma ChooseKeepsTxs(s: State, tx: nat)
    requires TxsOk(s)
    ensures TxsOk(ChooseStep(s, tx))
  {
    if tx in s.txs {
      var t := s.txs[tx];
      var r := FirstRun(PlacesOf(s.seats, t.available), t.size, 0);
      if r.None? {
        EndTxKeepsTxs(s, tx);
        assert ChooseStep(s, tx) == EndTx(s, tx);
      } else if r.value + t.size <= |t.available| {
        var block := t.available[r.value..r.value + t.size];
        var s' := s.(txs := s.txs[tx := t.(block := Some(block))]);
        ChosenKeepsTxs(s, s', tx, r.value);
        assert ChooseStep(s, tx) == s';
      }
    }
  }

  lemma CommitKeepsTxs(s: State, tx: nat, allocationId: string)
    requires TxsOk(s)
    ensures TxsOk(CommitStep(s, tx, allocationId))
  {
    var s' := CommitStep(s, tx, allocationId);
    if s' != s {
      assert TxOk(s, tx, s.txs[tx]);
      BlockIsLocked(s, tx);
      forall u | u in s'.txs ensures TxOk(s', u, s'.txs[u]) {
        assert TxOk(s, u, s.txs[u]);
        forall id | id in s.txs[u].available
          ensures s'.seats[id].status == AVAILABLE && id in s'.locks && s'.locks[id] == u
        {
          assert Wanted(s, id, s.txs[u].eventId, s.txs[u].zoneId) && s.locks[id] == u;
        }
        TxSurvives(s, s', u, s.txs[u]);
      }
    }
  }

  /** The chosen block lies among the rows the transaction holds, and it is a proper grant. */
  lemma BlockIsLocked(s: State, tx: nat)
    requires tx in s.txs && TxOk(s, tx, s.txs[tx]) && s.txs[tx].block.Some?
    ensures var t := s.txs[tx];
      && (forall id :: id in t.block.value ==> Wanted(s, id, t.eventId, t.zoneId) && id in s.locks && s.locks[id] == tx)
      && GrantOk(s.seats, Grant(t.eventId, t.zoneId, t.size, t.block.value))
  {
    var t := s.txs[tx];
    var ps := PlacesOf(s.seats, t.available);
    FirstRunIsFirst(ps, t.size, 0);
    var i := FirstRun(ps, t.size, 0).value;
    RunIsBlock(ps, i, t.size);
    var block := t.block.value;
    forall k | 0 <= k < |block|
      ensures Wanted(s, block[k], t.eventId, t.zoneId) && block[k] in t.available
      ensures s.seats[block[k]].place == Place(ps[i].row, ps[i].number + k)
    {
      assert block[k] == t.available[i + k] && block[k] in t.available;
      assert Wanted(s, block[k], t.eventId, t.zoneId) && ps[i + k] == s.seats[block[k]].place;
    }
    assert block[0] in s.seats && s.seats[block[0]].place == Place(ps[i].row, ps[i].number + 0);
  }

  lemma CommitKeepsOwners(s: State, tx: nat, allocationId: string)
    requires Inv(s)
    ensures OwnersOk(CommitStep(s, tx, allocationId))
  {
    var s' := CommitStep(s, tx, allocationId);
    if s' != s {
      assert TxOk(s, tx, s.txs[tx]);
      BlockIsLocked(s, tx);
      var block := s.txs[tx].block.value;
      forall a | a in s.live ensures s.live[a] !! s'.live[allocationId] {
        forall id | id in s.live[a] ensures id !in block {
          assert s.seats[id].status == ALLOCATED;
        }
      }
      forall id | id in s'.seats && s'.seats[id].status != AVAILABLE ensures Owned(s', id) {
        if id in block {
          assert id in s'.live[allocationId];
        } else {
          assert Owned(s, id);
          var a :| a in s.live && id in s.live[a];
          assert a in s'.live && id in s'.live[a];
        }
      }
    }
  }

  lemma CommitKeepsGrants(s: State, tx: nat, allocationId: string)
    requires TxsOk(s) && GrantsOk(s)
    ensures GrantsOk(CommitStep(s, tx, allocationId))
  {
    var s' := CommitStep(s, tx, allocationId);
    if s' != s {
      assert TxOk(s, tx, s.txs[tx]);
      BlockIsLocked(s, tx);
      forall a | a in s'.grants ensures GrantOk(s'.seats, s'.grants[a]) {
        GrantsSurvive(s, s'.seats, s'.grants[a]);
      }
    }
  }

  lemma ReleaseKeepsTxs(s: State, id: string)
    requires TxsOk(s)
    ensures TxsOk(ReleaseStep(s, id))
  {
    var s' := ReleaseStep(s, id);
    forall u | u in s'.txs ensures TxOk(s', u, s'.txs[u]) {
      assert TxOk(s, u, s.txs[u]);
      TxSurvives(s, s', u, s.txs[u]);
    }
  }

  lemma ReleaseKeepsOwners(s: State, id: string)
    requires OwnersOk(s)
    ensures OwnersOk(ReleaseStep(s, id))
  {
    var s' := ReleaseStep(s, id);
    if s' != s {
      forall x | x in s'.seats && s'.seats[x].status != AVAILABLE ensures Owned(s', x) {
        assert Owned(s, x);
        var a :| a in s.live && x in s.live[a];
        assert a in s'.live && x in s'.live[a];
      }
    }
  }

  lemma ReleaseKeepsGrants(s: State, id: string)
    requires GrantsOk(s)
    ensures GrantsOk(ReleaseStep(s, id))
  {
    var s' := ReleaseStep(s, id);
    forall a | a in s'.grants ensures GrantOk(s'.seats, s'.grants[a]) {
      GrantsSurvive(s, s'.seats, s'.grants[a]);
    }
  }

  lemma CommitKeepsInv(s: State, tx: nat, allocationId: string)
    requires Inv(s)
    ensures Inv(CommitStep(s, tx, allocationId))
  {
    CommitKeepsTxs(s, tx, allocationId);
    CommitKeepsOwners(s, tx, allocationId);
    CommitKeepsGrants(s, tx, allocationId);
  }

  lemma ReleaseKeepsInv(s: State, id: string)
    requires Inv(s)
    ensures Inv(ReleaseStep(s, id))
  {
    ReleaseKeepsTxs(s, id);
    ReleaseKeepsOwners(s, id);
    ReleaseKeepsGrants(s, id);
  }

  lemma SelectKeepsInv(s: State, a: Action)
    requires Inv(s) && a.Select?
    ensures Inv(SelectStep(s, a))
  {
    SelectKeepsTxs(s, a);
    SameBooksKeepInv(s, SelectStep(s, a));
  }

  lemma EndTxKeepsInv(s: State, tx: nat)
    requires Inv(s)
    ensures Inv(EndTx(s, tx))
  {
    EndTxKeepsTxs(s, tx);
    SameBooksKeepInv(s, EndTx(s, tx));
  }

  lemma ChooseKeepsInv(s: State, tx: nat)
    requires Inv(s)
    ensures Inv(ChooseStep(s, tx))
  {
    ChooseKeepsTxs(s, tx);
    SameBooksKeepInv(s, ChooseStep(s, tx));
  }

  lemma StepKeepsInv(s: State, a: Action)
    requires Inv(s)
    ensures Inv(Step(s, a))
  {
    match a {
      case Select(_, _, _, _, _) => SelectKeepsInv(s, a);
      case Choose(tx) => ChooseKeepsInv(s, tx);
      case Commit(tx, allocationId) => CommitKeepsInv(s, tx, allocationId);
      case Abort(tx) => EndTxKeepsInv(s, tx);
      case Release(id) => ReleaseKeepsInv(s, id);
    }
  }

  // ---------------------------------------------------------------- whole runs

  predicate AllAvailable(seats: map<string, SeatRow>) {
    forall id :: id in seats ==> seats[id].status == AVAILABLE
  }

  lemma {:induction false} RunKeepsInv(seats: map<string, SeatRow>, actions: seq<Action>)
    requires AllAvailable(seats)
    ensures Inv(Run(Opened(seats), actions)) && SameRows(seats, Run(Opened(seats), actions).seats)
  {
    if actions != [] {
      var before := Run(Opened(seats), actions[..|actions| - 1]);
      RunKeepsInv(seats, actions[..|actions| - 1]);
      StepKeepsInv(before, actions[|actions| - 1]);
      StepKeepsIdentity(before, actions[|actions| - 1]);
    }
  }

  /**
    * However transactions and releases interleave: no seat is held by two allocations, a seat is
    * available exactly when no allocation holds it, and every allocation ever granted was `size`
    * consecutive seats of one row of the zone asked for.
    */
  lemma SeatsAreHeldOnce(seats: map<string, SeatRow>, actions: seq<Action>)
    requires AllAvailable(seats)
    ensures var s := Run(Opened(seats), actions);
      && (forall a, b :: a in s.live && b in s.live && a != b ==> s.live[a] !! s.live[b])
      && (forall id :: id in s.seats ==> (s.seats[id].status == AVAILABLE <==> !Owned(s, id)))
      && (forall a :: a in s.grants ==> GrantOk(seats, s.grants[a]))
      && (forall a :: a in s.grants ==> a in s.live && forall id :: id in s.live[a] ==> id in s.grants[a].seats)
  {
    RunKeepsInv(seats, actions);
    var s := Run(Opened(seats), actions);
    forall a | a in s.grants ensures GrantOk(seats, s.grants[a]) {
      assert GrantOk(s.seats, s.grants[a]);
    }
  }

  /** The first of `size` seats stands where the least block of the offered places begins. */
  ghost predicate BeginsLeast(s: State, block: seq<string>, offered: set<Place>, size: nat) {
    && |block| == size >= 1 && block[0] in s.seats
    && LeastBlock(offered, s.seats[block[0]].place.row, s.seats[block[0]].place.number, size)
  }

  lemma LeastOfLocked(s: State, tx: nat)
    requires tx in s.txs && TxOk(s, tx, s.txs[tx])
    ensures var t := s.txs[tx]; var ps := PlacesOf(s.seats, t.available);
      match FirstRun(ps, t.size, 0)
      case None => forall row, first :: !IsBlock(Offered(ps), row, first, t.size)
      case Some(i) =>
        && i + t.size <= |t.available| && t.available[i] in s.seats
        && LeastBlock(Offered(ps), s.seats[t.available[i]].place.row, s.seats[t.available[i]].place.number, t.size)
        && !(forall row, first :: !IsBlock(Offered(ps), row, first, t.size))
  {
    var t := s.txs[tx];
    var ps := PlacesOf(s.seats, t.available);
    FirstRunIsFirst(ps, t.size, 0);
    FirstRunIsLeastBlock(ps, t.size);
    if FirstRun(ps, t.size, 0).Some? {
      var i := FirstRun(ps, t.size, 0).value;
      assert t.available[i] in t.available && Wanted(s, t.available[i], t.eventId, t.zoneId);
      assert ps[i] == s.seats[t.available[i]].place;
    }
  }

  lemma ChosenBeginsLeast(s: State, tx: nat)
    requires tx in s.txs && TxOk(s, tx, s.txs[tx])
    ensures var s' := ChooseStep(s, tx); var t := s.txs[tx]; var offered := Offered(PlacesOf(s.seats, t.available));
      && (tx !in s'.txs <==> FirstRun(PlacesOf(s.seats, t.available), t.size, 0).None?)
      && (tx in s'.txs ==> s'.txs[tx].block.Some? && BeginsLeast(s, s'.txs[tx].block.value, offered, t.size))
  {
    LeastOfLocked(s, tx);
    var t := s.txs[tx];
    match FirstRun(PlacesOf(s.seats, t.available), t.size, 0) {
      case None =>
      case Some(i) => assert t.available[i..i + t.size][0] == t.available[i];
    }
  }

  /** In any run a scan aborts exactly when its rows hold no block, and otherwise chooses the least one. */
  lemma ChooseTakesLeastBlock(seats: map<string, SeatRow>, actions: seq<Action>, tx: nat)
    requires AllAvailable(seats) && tx in Run(Opened(seats), actions).txs
    ensures var s := Run(Opened(seats), actions); var s' := ChooseStep(s, tx); var t := s.txs[tx];
      var offered := Offered(PlacesOf(s.seats, t.available));
      && (tx !in s'.txs <==> forall row, first :: !IsBlock(offered, row, first, t.size))
      && (tx in s'.txs ==> s'.txs[tx].block.Some? && BeginsLeast(s, s'.txs[tx].block.value, offered, t.size))
  {
    RunKeepsInv(seats, actions);
    var s := Run(Opened(seats), actions);
    assert TxOk(s, tx, s.txs[tx]);
    ChosenBeginsLeast(s, tx);
    FirstRunIsLeastBlock(PlacesOf(s.seats, s.txs[tx].available), s.txs[tx].size);
  }

  // ---------------------------------------------------------------- flat counts

  /** The seats of an event, or only those on offer. */
  function Among(seats: map<string, SeatRow>, eventId: string, free: bool): set<string> {
    set id | id in seats && seats[id].eventId == eventId && (free ==> seats[id].status == AVAILABLE)
  }

  /** How many seats of the event a step takes. */
  function Taken(s: State, a: Action, eventId: string): nat {
    match a
    case Commit(tx, allocationId) =>
      if tx !in s.txs || s.txs[tx].block.None? || allocationId in s.grants || s.txs[tx].eventId != eventId then 0
      else s.txs[tx].size
    case _ => 0
  }

  /** How many seats of the event a step gives back. */
  function GivenBack(s: State, a: Action, eventId: string): nat {
    if a.Release? && a.seatId in s.seats && s.seats[a.seatId].eventId == eventId
      && s.seats[a.seatId].status != AVAILABLE && s.seats[a.seatId].status != USED then 1 else 0
  }

  lemma LastSeatDiffers(seats: map<string, SeatRow>, g: Grant, n: nat)
    requires GrantOk(seats, g) && 0 < n <= |g.seats|
    ensures g.seats[n - 1] !in g.seats[..n - 1]
  {
    forall k | 0 <= k < n - 1 ensures g.seats[k] != g.seats[n - 1] {
      assert seats[g.seats[k]].place != seats[g.seats[n - 1]].place;
    }
  }

  lemma MembersGrow(ids: seq<string>, n: nat)
    requires 0 < n <= |ids|
    ensures Members(ids[..n]) == Members(ids[..n - 1]) + {ids[n - 1]}
  {
    assert ids[..n] == ids[..n - 1] + [ids[n - 1]];
  }

  lemma {:induction false} SeatsOfGrantDiffer(seats: map<string, SeatRow>, g: Grant, n: nat)
    requires GrantOk(seats, g) && n <= |g.seats|
    ensures |Members(g.seats[..n])| == n
  {
    if n > 0 {
      SeatsOfGrantDiffer(seats, g, n - 1);
      MembersGrow(g.seats, n);
      LastSeatDiffers(seats, g, n);
    }
  }

  lemma MarkedAmong(seats: map<string, SeatRow>, block: seq<string>, eventId: string)
    requires forall id :: id in block ==> id in seats && seats[id].status == AVAILABLE
    ensures Among(Mark(seats, block), eventId, true) == Among(seats, eventId, true) - Members(block)
  {
  }

  lemma MarkTakesAll(seats: map<string, SeatRow>, g: Grant, eventId: string)
    requires GrantOk(seats, g)
    requires forall id :: id in g.seats ==> id in seats && seats[id].eventId == g.eventId && seats[id].status == AVAILABLE
    ensures |Among(Mark(seats, g.seats), eventId, true)|
         == |Among(seats, eventId, true)| - if g.eventId == eventId then g.size else 0
  {
    var before, block := Among(seats, eventId, true), Members(g.seats);
    SeatsOfGrantDiffer(seats, g, |g.seats|);
    assert g.seats[..|g.seats|] == g.seats;
    MarkedAmong(seats, g.seats, eventId);
    if g.eventId == eventId {
      assert block <= before;
    } else {
      assert before - block == before;
    }
  }

  lemma CommitTakesSize(s: State, tx: nat, allocationId: string, eventId: string)
    requires TxsOk(s)
    ensures |Among(CommitStep(s, tx, allocationId).seats, eventId, true)|
         == |Among(s.seats, eventId, true)| - Taken(s, Commit(tx, allocationId), eventId)
  {
    if tx in s.txs && s.txs[tx].block.Some? && allocationId !in s.grants {
      var t := s.txs[tx];
      assert TxOk(s, tx, t);
      BlockIsLocked(s, tx);
      forall id | id in t.block.value
        ensures id in s.seats && s.seats[id].eventId == t.eventId && s.seats[id].status == AVAILABLE
      {
        assert Wanted(s, id, t.eventId, t.zoneId);
      }
      MarkTakesAll(s.seats, Grant(t.eventId, t.zoneId, t.size, t.block.value), eventId);
    }
  }

  lemma ReleaseGivesOne(s: State, id: string, eventId: string)
    ensures |Among(ReleaseStep(s, id).seats, eventId, true)|
         == |Among(s.seats, eventId, true)| + GivenBack(s, Release(id), eventId)
  {
    var s' := ReleaseStep(s, id);
    var before := Among(s.seats, eventId, true);
    if GivenBack(s, Release(id), eventId) == 1 {
      assert Among(s'.seats, eventId, true) == before + {id} && id !in before;
    } else {
      assert Among(s'.seats, eventId, true) == before;
    }
  }

  /** Over any run the number of seats stays; a commit takes exactly its size, a release gives one back, nothing else counts. */
  lemma CountsOverRuns(seats: map<string, SeatRow>, actions: seq<Action>, a: Action, eventId: string)
    requires AllAvailable(seats)
    ensures var s := Run(Opened(seats), actions);
      && Among(s.seats, eventId, false) == Among(seats, eventId, false)
      && |Among(Step(s, a).seats, eventId, true)|
         == |Among(s.seats, eventId, true)| - Taken(s, a, eventId) + GivenBack(s, a, eventId)
  {
    RunKeepsInv(seats, actions);
    var s := Run(Opened(seats), actions);
    match a {
      case Commit(tx, allocationId) => CommitTakesSize(s, tx, allocationId, eventId);
      case Release(id) => ReleaseGivesOne(s, id, eventId);
      case _ =>
    }
  }
}
