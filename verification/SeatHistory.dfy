/** What a transaction chooses from and grants, in terms of the operation that opened it: all seats of its zone that were
    on offer at that moment. */
module SeatHistory {
  import opened Options
  import opened Seats
  import opened SeatRuns

  ghost function At(seats: map<string, SeatRow>, actions: seq<Action>, i: nat): State
    requires i <= |actions|
  {
    Run(Opened(seats), actions[..i])
  }

  lemma AtNext(seats: map<string, SeatRow>, actions: seq<Action>, i: nat)
    requires i < |actions|
    ensures At(seats, actions, i + 1) == Step(At(seats, actions, i), actions[i])
  {
    assert actions[..i + 1][..i] == actions[..i];
  }

  /** Operation i opens the transaction that is still open before operation j. */
  ghost predicate OpenSince(seats: map<string, SeatRow>, actions: seq<Action>, i: nat, j: nat, tx: nat)
    requires i < j <= |actions|
  {
    tx !in At(seats, actions, i).txs && forall k :: i < k <= j ==> tx in At(seats, actions, k).txs
  }

  /** The seat can be had: it stands in the zone, is AVAILABLE, and no transaction holds it. */
  predicate Free(s: State, id: string, eventId: string, zoneId: string) {
    && id in s.seats && s.seats[id].eventId == eventId && s.seats[id].zoneId == zoneId
    && s.seats[id].status == AVAILABLE && id !in s.locks
  }

  ghost function FreePlaces(s: State, eventId: string, zoneId: string): set<Place> {
    set id | id in s.seats && Free(s, id, eventId, zoneId) :: s.seats[id].place
  }

  /** The transaction is the one that the operation opened at state s. */
  ghost predicate Carries(s: State, a: Action, t: Tx) {
    && a.Select? && t.eventId == a.eventId && t.zoneId == a.zoneId && t.size == a.size && t.available == a.available
    && forall id :: id in t.available <==> Free(s, id, a.eventId, a.zoneId)
  }

  lemma OnlySelectOpens(s: State, a: Action, tx: nat)
    requires tx !in s.txs && tx in Step(s, a).txs
    ensures a.Select? && a.tx == tx && Carries(s, a, Step(s, a).txs[tx])
  {
    assert forall id :: Wanted(s, id, a.eventId, a.zoneId) && id !in s.locks <==> Free(s, id, a.eventId, a.zoneId);
  }

  /** A query opens the transaction exactly when it lists the free seats of the zone, in order; then it holds them all. */
  lemma SelectOpensIff(s: State, a: Action)
    requires a.Select? && a.tx !in s.txs
    ensures var s' := Step(s, a);
      && (a.tx in s'.txs <==>
            && a.size >= 1 && InOrder(PlacesOf(s.seats, a.available))
            && forall id :: id in a.available <==> Free(s, id, a.eventId, a.zoneId))
      && (a.tx in s'.txs ==> forall id :: id in a.available ==> id in s'.locks && s'.locks[id] == a.tx)
  {
    assert forall id :: Wanted(s, id, a.eventId, a.zoneId) && id !in s.locks <==> Free(s, id, a.eventId, a.zoneId);
  }

  /** A release makes exactly its seat available, unless it is so already or has been used, and takes it out of its
      allocation. */
  lemma ReleaseFreesOne(s: State, id: string)
    ensures var s' := Step(s, Release(id));
      && s'.seats == (if id in s.seats && s.seats[id].status in {ALLOCATED, SOLD}
                      then s.seats[id := s.seats[id].(status := AVAILABLE)] else s.seats)
      && s'.locks == s.locks && s'.txs == s.txs && s'.grants == s.grants
  {
  }

  // ---------------------------------------------------------------- who holds the locks

  /** A seat is locked exactly by the open transaction that lists it. */
  ghost predicate LocksListed(s: State) {
    && (forall id :: id in s.locks ==> s.locks[id] in s.txs && id in s.txs[s.locks[id]].available)
    && (forall tx, id :: tx in s.txs && id in s.txs[tx].available ==> id in s.locks && s.locks[id] == tx)
  }

  lemma EndKeepsLocksListed(s: State, tx: nat)
    requires LocksListed(s)
    ensures LocksListed(EndTx(s, tx))
  {
  }

  lemma SelectKeepsLocksListed(s: State, a: Action)
    requires LocksListed(s) && a.Select?
    ensures LocksListed(SelectStep(s, a))
  {
    assert forall id :: id in Members(a.available) <==> id in a.available;
  }

  lemma ChooseKeepsLocksListed(s: State, tx: nat)
    requires LocksListed(s)
    ensures LocksListed(ChooseStep(s, tx))
  {
    EndKeepsLocksListed(s, tx);
  }

  lemma CommitKeepsLocksListed(s: State, tx: nat, allocationId: string)
    requires LocksListed(s)
    ensures LocksListed(CommitStep(s, tx, allocationId))
  {
    EndKeepsLocksListed(s, tx);
  }

  /** In every run a transaction that has ended holds no lock, and one that is open holds all it listed. */
  lemma {:induction false} LocksEndWithTransactions(seats: map<string, SeatRow>, actions: seq<Action>)
    ensures LocksListed(Run(Opened(seats), actions))
  {
    if actions != [] {
      var n := |actions| - 1;
      var before := Run(Opened(seats), actions[..n]);
      LocksEndWithTransactions(seats, actions[..n]);
      match actions[n] {
        case Select(_, _, _, _, _) => SelectKeepsLocksListed(before, actions[n]);
        case Choose(tx) => ChooseKeepsLocksListed(before, tx);
        case Commit(tx, allocationId) => CommitKeepsLocksListed(before, tx, allocationId);
        case Abort(tx) => EndKeepsLocksListed(before, tx);
        case Release(id) => ReleaseFreesOne(before, id);
      }
    }
  }

  // ---------------------------------------------------------------- what a transaction works on

  lemma OpenTxStays(s: State, a: Action, tx: nat)
    requires tx in s.txs && tx in Step(s, a).txs
    ensures var t, u := s.txs[tx], Step(s, a).txs[tx];
      u.eventId == t.eventId && u.zoneId == t.zoneId && u.size == t.size && u.available == t.available
  {
  }

  lemma {:induction false} TxWasSelected(seats: map<string, SeatRow>, actions: seq<Action>, i: nat, j: nat, tx: nat)
    requires i < j <= |actions| && OpenSince(seats, actions, i, j, tx)
    ensures actions[i].Select? && actions[i].tx == tx
    ensures Carries(At(seats, actions, i), actions[i], At(seats, actions, j).txs[tx])
    decreases j
  {
    AtNext(seats, actions, j - 1);
    if j == i + 1 {
      OnlySelectOpens(At(seats, actions, i), actions[i], tx);
    } else {
      TxWasSelected(seats, actions, i, j - 1, tx);
      OpenTxStays(At(seats, actions, j - 1), actions[j - 1], tx);
    }
  }

  lemma PlacesStay(seats: map<string, SeatRow>, actions: seq<Action>, i: nat, j: nat)
    requires AllAvailable(seats) && i <= |actions| && j <= |actions|
    ensures SameRows(At(seats, actions, i).seats, At(seats, actions, j).seats)
  {
    RunKeepsInv(seats, actions[..i]);
    RunKeepsInv(seats, actions[..j]);
  }

  lemma OfferedAreFree(s: State, u: State, a: Action, t: Tx)
    requires Carries(s, a, t) && SameRows(s.seats, u.seats)
    ensures Offered(PlacesOf(u.seats, t.available)) == FreePlaces(s, a.eventId, a.zoneId)
  {
    var ps := PlacesOf(u.seats, t.available);
    forall p | p in Offered(ps) ensures p in FreePlaces(s, a.eventId, a.zoneId) {
      var k :| 0 <= k < |ps| && ps[k] == p;
      assert t.available[k] in t.available && Free(s, t.available[k], a.eventId, a.zoneId);
      assert u.seats[t.available[k]].place == s.seats[t.available[k]].place;
    }
    forall p | p in FreePlaces(s, a.eventId, a.zoneId) ensures p in Offered(ps) {
      var id :| id in s.seats && Free(s, id, a.eventId, a.zoneId) && s.seats[id].place == p;
      var k :| 0 <= k < |t.available| && t.available[k] == id;
      assert ps[k] == u.seats[id].place == p;
    }
  }

  /** A scan aborts exactly when the free seats of the zone, as they were when the transaction opened, hold no block of
      the size asked for; otherwise it chooses the least such block. */
  lemma ScanSeesAllFree(seats: map<string, SeatRow>, actions: seq<Action>, i: nat, j: nat, tx: nat)
    requires AllAvailable(seats) && i < j < |actions| && OpenSince(seats, actions, i, j, tx) && actions[j] == Choose(tx)
    ensures actions[i].Select? && actions[i].tx == tx
    ensures var a := actions[i]; var free := FreePlaces(At(seats, actions, i), a.eventId, a.zoneId);
      var s, s' := At(seats, actions, j), At(seats, actions, j + 1);
      && (tx !in s'.txs <==> forall row, first :: !IsBlock(free, row, first, a.size))
      && (tx in s'.txs ==> s'.txs[tx].block.Some? && BeginsLeast(s, s'.txs[tx].block.value, free, a.size))
  {
    TxWasSelected(seats, actions, i, j, tx);
    PlacesStay(seats, actions, i, j);
    OfferedAreFree(At(seats, actions, i), At(seats, actions, j), actions[i], At(seats, actions, j).txs[tx]);
    ChooseTakesLeastBlock(seats, actions[..j], tx);
    AtNext(seats, actions, j);
  }

  /** A commit grants the chosen block under the event, zone and size asked for when the transaction opened, and exactly
      the seats of the block become ALLOCATED. */
  lemma GrantIsWhatWasAsked(seats: map<string, SeatRow>, actions: seq<Action>, i: nat, j: nat, tx: nat, id: string)
    requires i < j < |actions| && OpenSince(seats, actions, i, j, tx) && actions[j] == Commit(tx, id)
    requires At(seats, actions, j).txs[tx].block.Some? && id !in At(seats, actions, j).grants
    ensures actions[i].Select?
    ensures var s, s' := At(seats, actions, j), At(seats, actions, j + 1); var block := s.txs[tx].block.value;
      && tx !in s'.txs
      && s'.grants == s.grants[id := Grant(actions[i].eventId, actions[i].zoneId, actions[i].size, block)]
      && s'.seats == map seat | seat in s.seats ::
           if seat in block then s.seats[seat].(status := ALLOCATED) else s.seats[seat]
  {
    TxWasSelected(seats, actions, i, j, tx);
    AtNext(seats, actions, j);
  }
}
