/** Finding neighbouring seats in a list ordered by row and number. */
module Seats {
  import opened Options
  import opened Ordering

  datatype SeatStatus = AVAILABLE | ALLOCATED | SOLD | USED

  datatype Place = Place(row: string, number: int)

  /** ORDER BY row, seatNumber; the unique index leaves no two seats of a zone in one place. */
  predicate Before(p: Place, q: Place) {
    Less(p.row, q.row) || (p.row == q.row && p.number < q.number)
  }

  ghost predicate InOrder(ps: seq<Place>) {
    forall i, j :: 0 <= i < j < |ps| ==> Before(ps[i], ps[j])
  }

  predicate Neighbours(p: Place, q: Place) {
    q.row == p.row && q.number == p.number + 1
  }

  /** `size` seats from position i on, each next to the one before. */
  predicate RunAt(ps: seq<Place>, i: nat, size: nat) {
    i + size <= |ps| && forall k :: i < k < i + size ==> Neighbours(ps[k - 1], ps[k])
  }

  /** The first position where such a run starts. */
  function FirstRun(ps: seq<Place>, size: nat, from: nat): (r: Option<nat>)
    decreases |ps| - from
  {
    if from + size > |ps| || from >= |ps| then None
    else if RunAt(ps, from, size) then Some(from)
    else FirstRun(ps, size, from + 1)
  }

  lemma {:induction false} FirstRunIsFirst(ps: seq<Place>, size: nat, from: nat)
    requires size >= 1
    ensures match FirstRun(ps, size, from)
      case Some(i) => from <= i && RunAt(ps, i, size) && forall j :: from <= j < i ==> !RunAt(ps, j, size)
      case None => forall j :: from <= j ==> !RunAt(ps, j, size)
    decreases |ps| - from
  {
    if from + size <= |ps| && !RunAt(ps, from, size) {
      FirstRunIsFirst(ps, size, from + 1);
    }
  }

  // ---------------------------------------------------------------- blocks of places

  /** The places row/first .. row/first+size-1 are all on offer; no list order is involved. */
  ghost predicate IsBlock(offered: set<Place>, row: string, first: int, size: nat) {
    forall k :: first <= k < first + size ==> Place(row, k) in offered
  }

  function Offered(ps: seq<Place>): set<Place> {
    set p | p in ps
  }

  lemma RunIsBlock(ps: seq<Place>, i: nat, size: nat)
    requires RunAt(ps, i, size) && size >= 1
    ensures forall m :: i <= m < i + size ==> ps[m] == Place(ps[i].row, ps[i].number + (m - i))
    ensures IsBlock(Offered(ps), ps[i].row, ps[i].number, size)
  {
    var end := i + 1;
    while end < i + size
      invariant i < end <= i + size
      invariant forall m :: i <= m < end ==> ps[m] == Place(ps[i].row, ps[i].number + (m - i))
    {
      assert Neighbours(ps[end - 1], ps[end]);
      end := end + 1;
    }
    forall n | ps[i].number <= n < ps[i].number + size ensures Place(ps[i].row, n) in ps {
      assert ps[i + (n - ps[i].number)] == Place(ps[i].row, n);
    }
  }

  lemma NextPlaceIsNextInList(ps: seq<Place>, i: nat, j: nat)
    requires InOrder(ps) && i < |ps| && j < |ps| && Neighbours(ps[i], ps[j])
    ensures j == i + 1
  {
    LessAsymmetric(ps[i].row, ps[i].row);
    if j > i + 1 {
      NothingBetween(ps[i], ps[i + 1], ps[j]);
    }
  }

  lemma NothingBetween(p: Place, x: Place, q: Place)
    requires Neighbours(p, q)
    ensures !(Before(p, x) && Before(x, q))
  {
    LessAsymmetric(p.row, x.row);
    LessAsymmetric(p.row, p.row);
  }

  /** In an ordered list every block lies in one piece. */
  lemma {:induction false} BlockIsRun(ps: seq<Place>, row: string, first: int, size: nat) returns (i: nat)
    requires InOrder(ps) && size >= 1 && IsBlock(Offered(ps), row, first, size)
    ensures RunAt(ps, i, size) && ps[i] == Place(row, first)
  {
    assert Place(row, first) in Offered(ps);
    i :| 0 <= i < |ps| && ps[i] == Place(row, first);
    var end := i + 1;
    while end < i + size
      invariant i < end <= i + size && end <= |ps|
      invariant forall m :: i <= m < end ==> ps[m] == Place(row, first + (m - i))
    {
      assert Place(row, first + (end - i)) in Offered(ps);
      var j :| 0 <= j < |ps| && ps[j] == Place(row, first + (end - i));
      assert ps[end - 1] == Place(row, first + (end - 1 - i));
      NextPlaceIsNextInList(ps, end - 1, j);
      end := end + 1;
    }
  }

  /** The block at (row, first) is on offer and no block of the size comes before it. */
  ghost predicate LeastBlock(offered: set<Place>, row: string, first: int, size: nat) {
    && IsBlock(offered, row, first, size)
    && forall r, n :: IsBlock(offered, r, n, size) ==> (r == row && n == first) || Before(Place(row, first), Place(r, n))
  }

  /** There is a first run iff there is a block anywhere, and it is the least block by row and number. */
  lemma FirstRunIsLeastBlock(ps: seq<Place>, size: nat)
    requires InOrder(ps) && size >= 1
    ensures FirstRun(ps, size, 0).None? <==> forall row, first :: !IsBlock(Offered(ps), row, first, size)
    ensures FirstRun(ps, size, 0).Some? ==>
      var i := FirstRun(ps, size, 0).value; i < |ps| && LeastBlock(Offered(ps), ps[i].row, ps[i].number, size)
  {
    FirstRunIsFirst(ps, size, 0);
    var r := FirstRun(ps, size, 0);
    forall row, first | IsBlock(Offered(ps), row, first, size)
      ensures r.Some? && r.value < |ps| &&
        (ps[r.value] == Place(row, first) || Before(ps[r.value], Place(row, first)))
    {
      var j := BlockIsRun(ps, row, first, size);
    }
    if r.Some? {
      RunIsBlock(ps, r.value, size);
    }
  }

  lemma LeastBlockUnique(offered: set<Place>, row: string, first: int, row': string, first': int, size: nat)
    requires LeastBlock(offered, row, first, size) && LeastBlock(offered, row', first', size)
    ensures row == row' && first == first'
  {
    LessAsymmetric(row, row');
    LessAsymmetric(row, row);
  }

  // ---------------------------------------------------------------- the scan

  class Seat {
    const id: string
    const zoneId: string
    const row: string
    const seatNumber: int
    var status: SeatStatus
    var ticketId: Option<string>
    var allocatedAt: Option<nat>

    constructor (id: string, zoneId: string, row: string, seatNumber: int)
      ensures this.id == id && this.zoneId == zoneId && this.row == row && this.seatNumber == seatNumber
      ensures status == AVAILABLE && ticketId == None && allocatedAt == None
    {
      this.id, this.zoneId, this.row, this.seatNumber := id, zoneId, row, seatNumber;
      status, ticketId, allocatedAt := AVAILABLE, None, None;
    }

    function Where(): Place {
      Place(row, seatNumber)
    }
  }

  function Places(seats: seq<Seat>): (r: seq<Place>)
    ensures |r| == |seats|
  {
    seq(|seats|, i requires 0 <= i < |seats| => seats[i].Where())
  }

  /** What the loop knows of the seats read so far: `run` is the last stretch of neighbours, shorter than asked for. */
  ghost predicate Scanned(ps: seq<Place>, i: nat, start: nat, size: nat) {
    && start <= i <= |ps| && i - start < size
    && (i > 0 ==> start < i)
    && RunAt(ps, start, i - start)
    && (0 < start < i ==> !Neighbours(ps[start - 1], ps[start]))
    && forall j :: 0 <= j && j + size <= i ==> !RunAt(ps, j, size)
  }

  lemma ScanExtends(ps: seq<Place>, i: nat, start: nat, size: nat)
    requires Scanned(ps, i, start, size) && i < |ps|
    ensures var start' := if start == i || !Neighbours(ps[i - 1], ps[i]) then i else start;
      if i + 1 - start' == size then FirstRun(ps, size, 0) == Some(start')
      else Scanned(ps, i + 1, start', size)
  {
    FirstRunIsFirst(ps, size, 0);
    var start' := if start == i || !Neighbours(ps[i - 1], ps[i]) then i else start;
    if i + 1 - start' == size {
      assert RunAt(ps, start', size);
    }
  }

  lemma SliceGrows<T>(s: seq<T>, from: nat, to: nat)
    requires from <= to < |s|
    ensures s[from..to] + [s[to]] == s[from..to + 1]
  {
  }

  /** The loop without the shortcut for one seat. */
  method ScanForRun(seats: seq<Seat>, size: nat) returns (found: Option<seq<Seat>>)
    requires size >= 1
    ensures IsFirstRun(seats, size, found)
  {
    ghost var ps := Places(seats);
    ghost var start := 0;
    var run: seq<Seat> := [];
    for i := 0 to |seats|
      invariant Scanned(ps, i, start, size)
      invariant run == seats[start..i]
    {
      var seat := seats[i];
      ScanExtends(ps, i, start, size);
      var apart := |run| == 0 || seat.row != run[|run| - 1].row || seat.seatNumber != run[|run| - 1].seatNumber + 1;
      assert apart == (start == i || !Neighbours(ps[i - 1], ps[i]));
      if apart {
        assert seats[i..i + 1] == [seat];
        run := [seat];
        start := i;
      } else {
        SliceGrows(seats, start, i);
        run := run + [seat];
      }
      if |run| == size {
        return Some(run);
      }
    }
    ScanEnds(ps, start, size);
    found := None;
  }

  lemma ScanEnds(ps: seq<Place>, start: nat, size: nat)
    requires size >= 1 && Scanned(ps, |ps|, start, size)
    ensures FirstRun(ps, size, 0) == None
  {
    FirstRunIsFirst(ps, size, 0);
  }

  ghost predicate Consecutive(block: seq<Seat>) {
    forall k :: 0 <= k < |block| ==> block[k].Where() == Place(block[0].row, block[0].seatNumber + k)
  }

  /** Nothing is found exactly when there is no block; what is found is the least one, seat by seat. */
  ghost predicate IsLeastRun(offered: set<Place>, size: nat, found: Option<seq<Seat>>) {
    match found
    case None => forall row, first :: !IsBlock(offered, row, first, size)
    case Some(run) =>
      |run| == size && size >= 1 && Consecutive(run) && LeastBlock(offered, run[0].row, run[0].seatNumber, size)
  }

  ghost predicate IsFirstRun(seats: seq<Seat>, size: nat, found: Option<seq<Seat>>) {
    match FirstRun(Places(seats), size, 0)
    case Some(i) => i + size <= |seats| && found == Some(seats[i..i + size])
    case None => found == None
  }

  /** The least block on offer, or nothing if there is none, for any list in row and number order. */
  method FindConsecutiveSeats(seats: seq<Seat>, size: nat) returns (found: Option<seq<Seat>>)
    requires size >= 1
    ensures IsFirstRun(seats, size, found)
    ensures InOrder(Places(seats)) ==> IsLeastRun(Offered(Places(seats)), size, found)
    ensures found.Some? ==> forall seat :: seat in found.value ==> seat in seats
  {
    if size == 1 && |seats| > 0 {
      found := Some([seats[0]]);
      assert RunAt(Places(seats), 0, 1) && seats[0..1] == [seats[0]];
    } else {
      found := ScanForRun(seats, size);
      FirstRunIsFirst(Places(seats), size, 0);
    }
    if InOrder(Places(seats)) {
      FirstRunIsLeast(seats, size, found);
    }
  }

  lemma FirstRunIsLeast(seats: seq<Seat>, size: nat, found: Option<seq<Seat>>)
    requires size >= 1 && InOrder(Places(seats)) && IsFirstRun(seats, size, found)
    ensures IsLeastRun(Offered(Places(seats)), size, found)
  {
    FirstRunIsLeastBlock(Places(seats), size);
    FoundIsLeast(seats, Offered(Places(seats)), size, found);
  }

  lemma FoundIsLeast(seats: seq<Seat>, offered: set<Place>, size: nat, found: Option<seq<Seat>>)
    requires size >= 1 && IsFirstRun(seats, size, found)
    requires match FirstRun(Places(seats), size, 0)
      case None => forall row, first :: !IsBlock(offered, row, first, size)
      case Some(i) => i < |seats| && LeastBlock(offered, seats[i].row, seats[i].seatNumber, size)
    ensures IsLeastRun(offered, size, found)
  {
    if found.Some? {
      var i := FirstRun(Places(seats), size, 0).value;
      FirstRunIsFirst(Places(seats), size, 0);
      RunIsConsecutive(seats, i, size);
      assert found.value[0] == seats[i];
    }
  }

  lemma RunIsConsecutive(seats: seq<Seat>, i: nat, size: nat)
    requires size >= 1 && RunAt(Places(seats), i, size)
    ensures Consecutive(seats[i..i + size])
  {
    var ps, block := Places(seats), seats[i..i + size];
    RunIsBlock(ps, i, size);
    forall k | 0 <= k < |block| ensures block[k].Where() == Place(block[0].row, block[0].seatNumber + k) {
      assert block[k] == seats[i + k] && ps[i + k] == seats[i + k].Where();
    }
  }

  // ---------------------------------------------------------------- allocation and release of seat objects

  method MarkAllocated(block: seq<Seat>, now: nat)
    modifies block`status, block`allocatedAt
    ensures forall k :: 0 <= k < |block| ==> block[k].status == ALLOCATED && block[k].allocatedAt == Some(now)
  {
    for i := 0 to |block|
      invariant forall k :: 0 <= k < i ==> block[k].status == ALLOCATED && block[k].allocatedAt == Some(now)
    {
      block[i].status := ALLOCATED;
      block[i].allocatedAt := Some(now);
    }
  }

  /** Exactly the seats of the block are marked. */
  twostate predicate Marked(seats: seq<Seat>, new block: seq<Seat>, now: nat)
    reads seats
  {
    forall s :: s in seats ==>
      if s in block then s.status == ALLOCATED && s.allocatedAt == Some(now)
      else s.status == old(s.status) && s.allocatedAt == old(s.allocatedAt)
  }

  /** What the transaction does with the rows it has locked: mark the least block, or nothing. */
  method AllocateSeats(available: seq<Seat>, groupSize: nat, now: nat) returns (saved: Option<seq<Seat>>)
    requires groupSize >= 1 && InOrder(Places(available))
    modifies available`status, available`allocatedAt
    ensures IsLeastRun(Offered(Places(available)), groupSize, saved)
    ensures saved.Some? ==> forall seat :: seat in saved.value ==> seat in available
    ensures Marked(available, if saved.Some? then saved.value else [], now)
  {
    var consecutive := FindConsecutiveSeats(available, groupSize);
    if consecutive.None? { return None; }
    var block := consecutive.value;
    assert forall k :: 0 <= k < |block| ==> block[k] in available;
    MarkAllocated(block, now);
    saved := Some(block);
  }

  datatype ReleaseResult = Released | AlreadyAvailable | AlreadyUsed

  method ReleaseSeat(seat: Seat) returns (r: ReleaseResult)
    modifies seat
    ensures r == if old(seat.status) == AVAILABLE then AlreadyAvailable
                 else if old(seat.status) == USED then AlreadyUsed else Released
    ensures r == Released ==> seat.status == AVAILABLE && seat.ticketId == None && seat.allocatedAt == None
    ensures r != Released ==>
      seat.status == old(seat.status) && seat.ticketId == old(seat.ticketId) && seat.allocatedAt == old(seat.allocatedAt)
  {
    if seat.status == AVAILABLE { return AlreadyAvailable; }
    if seat.status == USED { return AlreadyUsed; }
    seat.status := AVAILABLE;
    seat.ticketId := None;
    seat.allocatedAt := None;
    r := Released;
  }
}
