/** Registrations, concurrent draws and the VRF contract, interleaved one awaited operation at a time. */
module LotteryRuns {
  import opened LotterySpec
  import Numerals
  import Vrf

  /** A `lottery_entries` row. */
  datatype Row = Row(eventId: string, entry: Entry, status: Status, drawProofTxHash: string)

  /** A `draw_results` row. */
  datatype DrawResult = DrawResult(eventId: string, vrfRequestId: string, randomSeed: string, drawProofTxHash: string)

  /** Where one call of `draw` stands, with the local variables it still needs. */
  datatype Phase =
    | Fetched(entries: set<Entry>)
    | Undrawn(entries: set<Entry>)
    | Requested(entries: set<Entry>)
    | Waiting(entries: set<Entry>, requestId: nat)
    | Drawn(entries: set<Entry>, requestId: nat, word: nat)
    | Marked(entries: set<Entry>, requestId: nat, seed: string, statuses: map<Entry, Status>)
    | InTransaction(entries: set<Entry>, requestId: nat, seed: string, statuses: map<Entry, Status>)
    | Saved(entries: set<Entry>, resultId: string)
    | Recorded(entries: set<Entry>, txHash: string)

  datatype Draw = Draw(eventId: string, phase: Phase)

  /** A call of `register` that found no earlier row. */
  datatype Registration = Registration(eventId: string, userId: string, zoneId: string, groupSize: int)

  datatype State = State(
    rows: map<string, Row>,
    results: map<string, DrawResult>,
    vrf: Vrf.Storage,
    draws: map<nat, Draw>,
    registrations: map<nat, Registration>)

  datatype Action =
    | CheckRegistration(call: nat, registration: Registration)
    | SaveRegistration(call: nat, newId: string)
    | FetchEntries(call: nat, eventId: string)
    | CheckUndrawn(call: nat)
    | RequestWord(call: nat, issued: nat)
    | ReadRequestId(call: nat)
    | PollWord(call: nat)
    | MarkEntries(call: nat)
    | CheckInTransaction(call: nat)
    | CommitDraw(call: nat, newId: string)
    | RecordProof(call: nat, txHash: string)
    | TagEntry(call: nat, rowId: string)
    | Abandon(call: nat)
    | FulfilWord(requestId: nat, word: nat)

  const INITIAL := State(map[], map[], Vrf.Storage(map[], 0), map[], map[])

  // ---------------------------------------------------------------- queries

  function EntriesOf(s: State, eventId: string): set<Entry> {
    set id | id in s.rows && s.rows[id].eventId == eventId :: s.rows[id].entry
  }

  predicate HasResult(s: State, eventId: string) {
    exists r :: r in s.results && s.results[r].eventId == eventId
  }

  predicate IsRegistered(s: State, eventId: string, userId: string) {
    exists id :: id in s.rows && s.rows[id].eventId == eventId && s.rows[id].entry.userId == userId
  }

  // ---------------------------------------------------------------- steps

  function SaveRegistrationStep(s: State, call: nat, newId: string): State {
    if call !in s.registrations || newId in s.rows then s else
      var r := s.registrations[call];
      var s1 := s.(registrations := s.registrations - {call});
      if IsRegistered(s, r.eventId, r.userId) then s1   // the unique index refuses the row
      else s1.(rows := s.rows[newId :=
        Row(r.eventId, Entry(newId, r.userId, r.zoneId, r.groupSize), PENDING, "")])
  }

  function SetPhase(s: State, call: nat, p: Phase): State
    requires call in s.draws
  {
    s.(draws := s.draws[call := s.draws[call].(phase := p)])
  }

  function Stop(s: State, call: nat): State {
    s.(draws := s.draws - {call})
  }

  function UpdateStatuses(rows: map<string, Row>, statuses: map<Entry, Status>): map<string, Row> {
    map id | id in rows ::
      if rows[id].entry in statuses then rows[id].(status := statuses[rows[id].entry]) else rows[id]
  }

  /** The transaction: the unique index on eventId decides, and either everything is written or nothing. */
  function CommitStep(s: State, call: nat, newId: string): State
    requires call in s.draws && s.draws[call].phase.InTransaction?
  {
    var d := s.draws[call];
    var p := d.phase;
    if newId in s.results then s
    else if HasResult(s, d.eventId) then Stop(s, call)
    else SetPhase(s, call, Saved(p.entries, newId)).(
      results := s.results[newId := DrawResult(d.eventId, Numerals.Decimal(p.requestId), p.seed, "")],
      rows := UpdateStatuses(s.rows, p.statuses))
  }

  function DrawStep(keccak: string -> string, s: State, a: Action): State
    requires !a.FulfilWord? && a.call in s.draws
  {
    var call, d, p := a.call, s.draws[a.call], s.draws[a.call].phase;
    match a
    case CheckUndrawn(_) =>
      if !p.Fetched? then s
      else if HasResult(s, d.eventId) then Stop(s, call)
      else SetPhase(s, call, Undrawn(p.entries))
    case RequestWord(_, issued) =>
      if !p.Undrawn? || issued in s.vrf.requests then s   // the coordinator issues fresh ids
      else SetPhase(s, call, Requested(p.entries)).(vrf := Vrf.Request(s.vrf, issued))
    case ReadRequestId(_) =>
      if !p.Requested? then s else SetPhase(s, call, Waiting(p.entries, s.vrf.lastRequestId))
    case PollWord(_) =>
      if !p.Waiting? then s
      else
        var r := Vrf.ResultOf(s.vrf, p.requestId);
        if r.fulfilled then SetPhase(s, call, Drawn(p.entries, p.requestId, r.randomWord)) else s
    case MarkEntries(_) =>
      if !p.Drawn? then s
      else
        var seed := Vrf.SeedHex(p.word);
        SetPhase(s, call, Marked(p.entries, p.requestId, seed,
          map e | e in p.entries :: Verdict(keccak, seed, p.entries, e)))
    case CheckInTransaction(_) =>
      if !p.Marked? then s
      else if HasResult(s, d.eventId) then Stop(s, call)
      else SetPhase(s, call, InTransaction(p.entries, p.requestId, p.seed, p.statuses))
    case CommitDraw(_, newId) =>
      if !p.InTransaction? then s else CommitStep(s, call, newId)
    case RecordProof(_, txHash) =>
      if !p.Saved? || p.resultId !in s.results then s
      else SetPhase(s, call, Recorded(p.entries, txHash)).(
        results := s.results[p.resultId := s.results[p.resultId].(drawProofTxHash := txHash)])
    case TagEntry(_, rowId) =>
      if !p.Recorded? || rowId !in s.rows || s.rows[rowId].entry !in p.entries then s
      else s.(rows := s.rows[rowId := s.rows[rowId].(drawProofTxHash := p.txHash)])
    case Abandon(_) => Stop(s, call)
    case _ => s
  }

  /** One operation of one call; an operation that is not due leaves the state alone. */
  function Step(keccak: string -> string, s: State, a: Action): State {
    match a
    case CheckRegistration(call, r) =>
      if call in s.registrations || IsRegistered(s, r.eventId, r.userId) then s
      else s.(registrations := s.registrations[call := r])
    case SaveRegistration(call, newId) => SaveRegistrationStep(s, call, newId)
    case FetchEntries(call, eventId) =>
      if call in s.draws || EntriesOf(s, eventId) == {} then s
      else s.(draws := s.draws[call := Draw(eventId, Fetched(EntriesOf(s, eventId)))])
    case FulfilWord(requestId, word) =>
      // the coordinator fulfils issued ids with 256-bit words
      if requestId in s.vrf.requests && Vrf.IsWord(word) then s.(vrf := Vrf.Fulfil(s.vrf, requestId, word)) else s
    case _ => if a.call in s.draws then DrawStep(keccak, s, a) else s
  }

  function Run(keccak: string -> string, s: State, actions: seq<Action>): State {
    if actions == [] then s
    else Step(keccak, Run(keccak, s, actions[..|actions| - 1]), actions[|actions| - 1])
  }

  // ---------------------------------------------------------------- invariants

  predicate SameApplicant(x: Row, y: Row) {
    x.eventId == y.eventId && x.entry.userId == y.entry.userId
  }

  ghost predicate RowsOk(s: State) {
    && (forall id :: id in s.rows ==> s.rows[id].entry.id == id)
    && (forall i, j :: i in s.rows && j in s.rows && SameApplicant(s.rows[i], s.rows[j]) ==> i == j)
  }

  ghost predicate VrfOk(s: State) {
    && (forall id :: id in s.vrf.requests ==> Vrf.IsWord(s.vrf.requests[id].randomWord))
    && (s.vrf.requests.Keys != {} ==> s.vrf.lastRequestId in s.vrf.requests)
  }

  /** The word on chain under a request id, as a stored seed. */
  ghost predicate SeedOnChain(s: State, requestId: nat, seed: string) {
    requestId in s.vrf.requests && s.vrf.requests[requestId].fulfilled &&
    seed == Vrf.SeedHex(s.vrf.requests[requestId].randomWord)
  }

  /** The request id is read back from the stored column. */
  ghost predicate ResultOnChain(s: State, r: DrawResult) {
    var id := Numerals.Parse(10, r.vrfRequestId);
    r.vrfRequestId == Numerals.Decimal(id) && SeedOnChain(s, id, r.randomSeed)
  }

  ghost predicate EntriesKnown(s: State, eventId: string, entries: set<Entry>) {
    forall e :: e in entries ==> e.id in s.rows && s.rows[e.id].eventId == eventId && s.rows[e.id].entry == e
  }

  ghost predicate PhaseOk(keccak: string -> string, s: State, p: Phase) {
    match p
    case Requested(_) => s.vrf.requests.Keys != {}
    case Waiting(_, id) => id in s.vrf.requests
    case Drawn(_, id, word) => id in s.vrf.requests && s.vrf.requests[id] == Vrf.RequestResult(true, word)
    case Marked(entries, id, seed, statuses) =>
      SeedOnChain(s, id, seed) && statuses == map e | e in entries :: Verdict(keccak, seed, entries, e)
    case InTransaction(entries, id, seed, statuses) =>
      SeedOnChain(s, id, seed) && statuses == map e | e in entries :: Verdict(keccak, seed, entries, e)
    case _ => true
  }

  ghost predicate DrawOk(keccak: string -> string, s: State, d: Draw) {
    EntriesKnown(s, d.eventId, d.phase.entries) && PhaseOk(keccak, s, d.phase)
  }

  ghost predicate DrawsOk(keccak: string -> string, s: State) {
    forall c :: c in s.draws ==> DrawOk(keccak, s, s.draws[c])
  }

  ghost predicate ResultsOk(s: State) {
    && (forall r, q :: r in s.results && q in s.results && s.results[r].eventId == s.results[q].eventId ==> r == q)
    && (forall r :: r in s.results ==> ResultOnChain(s, s.results[r]))
  }

  /** The event's entries that a draw has decided. */
  ghost function Decided(s: State, eventId: string): set<Entry> {
    set id | id in s.rows && s.rows[id].eventId == eventId && s.rows[id].status != PENDING :: s.rows[id].entry
  }

  /** Recomputing the draw from a seed over the decided entries gives every stored status. */
  ghost predicate Reproducible(keccak: string -> string, s: State, eventId: string, seed: string) {
    forall id :: id in s.rows && s.rows[id].eventId == eventId && s.rows[id].status != PENDING ==>
      s.rows[id].status == Verdict(keccak, seed, Decided(s, eventId), s.rows[id].entry)
  }

  ghost predicate OutcomesOk(keccak: string -> string, s: State) {
    && (forall id :: id in s.rows && !HasResult(s, s.rows[id].eventId) ==> s.rows[id].status == PENDING)
    && (forall r :: r in s.results ==> Reproducible(keccak, s, s.results[r].eventId, s.results[r].randomSeed))
  }

  ghost predicate Inv(keccak: string -> string, s: State) {
    RowsOk(s) && VrfOk(s) && DrawsOk(keccak, s) && ResultsOk(s) && OutcomesOk(keccak, s)
  }

  // ---------------------------------------------------------------- every step keeps them

  predicate RowFrozen(s: State, x: Row, y: Row) {
    y.eventId == x.eventId && y.entry == x.entry && (HasResult(s, x.eventId) ==> y.status == x.status)
  }

  ghost predicate RowsFrozen(s: State, s': State) {
    forall id :: id in s.rows ==> id in s'.rows && RowFrozen(s, s.rows[id], s'.rows[id])
  }

  predicate ResultFrozen(x: DrawResult, y: DrawResult) {
    y.eventId == x.eventId && y.randomSeed == x.randomSeed && y.vrfRequestId == x.vrfRequestId
  }

  ghost predicate ResultsFrozen(s: State, s': State) {
    forall r :: r in s.results ==> r in s'.results && ResultFrozen(s.results[r], s'.results[r])
  }

  /** What no later step takes back. */
  ghost predicate Frozen(s: State, s': State) {
    RowsFrozen(s, s') && ResultsFrozen(s, s') && Vrf.WordsKept(s.vrf, s'.vrf)
  }

  /** A commit writes only to rows of its own event, which had no result. */
  lemma CommitRows(keccak: string -> string, s: State, call: nat, newId: string)
    requires DrawsOk(keccak, s) && RowsOk(s)
    requires call in s.draws && s.draws[call].phase.InTransaction?
    ensures RowsFrozen(s, CommitStep(s, call, newId))
    ensures forall id :: id in s.rows && s.rows[id].eventId != s.draws[call].eventId ==>
      CommitStep(s, call, newId).rows[id] == s.rows[id]
  {
    var p := s.draws[call].phase;
    assert DrawOk(keccak, s, s.draws[call]);
    forall id | id in s.rows && s.rows[id].entry in p.statuses ensures s.rows[id].eventId == s.draws[call].eventId {
      assert s.rows[id].entry in p.entries;
    }
  }

  /** The same rows, but for transaction hashes. */
  ghost predicate OnlyProofsDiffer(s: State, s': State) {
    && s'.rows.Keys == s.rows.Keys
    && forall id :: id in s.rows ==> s'.rows[id] == s.rows[id].(drawProofTxHash := s'.rows[id].drawProofTxHash)
  }

  /** Only a registration, a commit and a tag write to rows. */
  lemma WhoWritesRows(keccak: string -> string, s: State, a: Action)
    ensures var s' := Step(keccak, s, a);
      || OnlyProofsDiffer(s, s')
      || (a.SaveRegistration? && s' == SaveRegistrationStep(s, a.call, a.newId))
      || (a.CommitDraw? && a.call in s.draws && s.draws[a.call].phase.InTransaction? && s' == CommitStep(s, a.call, a.newId))
  {
  }

  lemma SaveFreezesRows(s: State, call: nat, newId: string)
    ensures RowsFrozen(s, SaveRegistrationStep(s, call, newId))
  {
  }

  lemma StepFreezesRows(keccak: string -> string, s: State, a: Action)
    requires DrawsOk(keccak, s) && RowsOk(s)
    ensures RowsFrozen(s, Step(keccak, s, a))
  {
    WhoWritesRows(keccak, s, a);
    if a.SaveRegistration? {
      SaveFreezesRows(s, a.call, a.newId);
    } else if a.CommitDraw? && a.call in s.draws && s.draws[a.call].phase.InTransaction? {
      CommitRows(keccak, s, a.call, a.newId);
    }
  }

  lemma StepFreezesResults(keccak: string -> string, s: State, a: Action)
    ensures ResultsFrozen(s, Step(keccak, s, a))
  {
  }

  lemma StepFreezes(keccak: string -> string, s: State, a: Action)
    requires DrawsOk(keccak, s) && RowsOk(s)
    ensures Frozen(s, Step(keccak, s, a))
  {
    StepFreezesRows(keccak, s, a);
    StepFreezesResults(keccak, s, a);
  }

  ghost predicate SameEntries(s: State, s': State) {
    && s'.rows.Keys == s.rows.Keys
    && forall id :: id in s.rows ==> s'.rows[id].eventId == s.rows[id].eventId && s'.rows[id].entry == s.rows[id].entry
  }

  lemma SameEntriesKeepRows(s: State, s': State)
    requires RowsOk(s) && SameEntries(s, s')
    ensures RowsOk(s')
  {
    forall i, j | i in s'.rows && j in s'.rows && SameApplicant(s'.rows[i], s'.rows[j]) ensures i == j {
      assert SameApplicant(s.rows[i], s.rows[j]);
    }
  }

  lemma SaveKeepsRows(s: State, call: nat, newId: string)
    requires RowsOk(s)
    ensures RowsOk(SaveRegistrationStep(s, call, newId))
  {
  }

  lemma StepKeepsRows(keccak: string -> string, s: State, a: Action)
    requires RowsOk(s)
    ensures RowsOk(Step(keccak, s, a))
  {
    WhoWritesRows(keccak, s, a);
    if a.SaveRegistration? {
      SaveKeepsRows(s, a.call, a.newId);
    } else {
      assert SameEntries(s, Step(keccak, s, a));
      SameEntriesKeepRows(s, Step(keccak, s, a));
    }
  }

  lemma StepKeepsVrf(keccak: string -> string, s: State, a: Action)
    requires VrfOk(s)
    ensures VrfOk(Step(keccak, s, a))
  {
    Vrf.ZeroIsWord();
  }

  /** What a draw knows survives whatever freezes. */
  lemma DrawSurvives(keccak: string -> string, s: State, s': State, d: Draw)
    requires DrawOk(keccak, s, d)
    requires RowsFrozen(s, s') && Vrf.WordsKept(s.vrf, s'.vrf)
    requires s.vrf.requests.Keys <= s'.vrf.requests.Keys
    ensures DrawOk(keccak, s', d)
  {
    match d.phase
    case Drawn(_, id, word) => assert Vrf.ResultOf(s.vrf, id).fulfilled;
    case Marked(_, id, _, _) => assert Vrf.ResultOf(s.vrf, id).fulfilled;
    case InTransaction(_, id, _, _) => assert Vrf.ResultOf(s.vrf, id).fulfilled;
    case _ =>
  }

  lemma RequestsStay(keccak: string -> string, s: State, a: Action)
    ensures s.vrf.requests.Keys <= Step(keccak, s, a).vrf.requests.Keys
  {
  }

  lemma OtherDrawsStay(keccak: string -> string, s: State, a: Action, c: nat)
    requires a.FulfilWord? || c != a.call
    ensures var s' := Step(keccak, s, a); c in s'.draws ==> c in s.draws && s'.draws[c] == s.draws[c]
  {
  }

  lemma NewDrawIsKnown(keccak: string -> string, s: State, a: Action)
    requires RowsOk(s)
    requires !a.FulfilWord? && a.call !in s.draws
    ensures var s' := Step(keccak, s, a);
      a.call in s'.draws ==> s'.draws[a.call].phase.Fetched? && DrawOk(keccak, s, s'.draws[a.call])
  {
  }

  lemma SnapshotStays(keccak: string -> string, s: State, a: Action)
    requires !a.FulfilWord? && a.call in s.draws
    ensures var s' := Step(keccak, s, a);
      a.call in s'.draws ==>
        && s'.draws[a.call].eventId == s.draws[a.call].eventId
        && s'.draws[a.call].phase.entries == s.draws[a.call].phase.entries
  {
  }

  lemma NextPhaseOk(keccak: string -> string, s: State, a: Action)
    requires VrfOk(s)
    requires !a.FulfilWord? && a.call in s.draws && PhaseOk(keccak, s, s.draws[a.call].phase)
    ensures var s' := Step(keccak, s, a);
      a.call in s'.draws && !s'.draws[a.call].phase.Requested? ==> PhaseOk(keccak, s, s'.draws[a.call].phase)
  {
  }

  /** The phase a draw moves to is right in the state before the move, but for a request id the move itself stores. */
  lemma PhaseAdvances(keccak: string -> string, s: State, a: Action)
    requires RowsOk(s) && VrfOk(s)
    requires !a.FulfilWord? && a.call in s.draws && DrawOk(keccak, s, s.draws[a.call])
    ensures var s' := Step(keccak, s, a);
      a.call in s'.draws && !s'.draws[a.call].phase.Requested? ==> DrawOk(keccak, s, s'.draws[a.call])
  {
    SnapshotStays(keccak, s, a);
    NextPhaseOk(keccak, s, a);
  }

  lemma RequestedIsStored(keccak: string -> string, s: State, a: Action)
    requires !a.FulfilWord? && a.call in s.draws && PhaseOk(keccak, s, s.draws[a.call].phase)
    ensures var s' := Step(keccak, s, a);
      a.call in s'.draws && s'.draws[a.call].phase.Requested? ==> s'.vrf.requests.Keys != {}
  {
    if a.RequestWord? {
      var s' := Step(keccak, s, a);
      if s'.vrf != s.vrf {
        assert a.issued in s'.vrf.requests.Keys;
      }
    }
  }

  lemma PhaseRequested(keccak: string -> string, s: State, a: Action)
    requires !a.FulfilWord? && a.call in s.draws && DrawOk(keccak, s, s.draws[a.call])
    ensures var s' := Step(keccak, s, a);
      a.call in s'.draws && s'.draws[a.call].phase.Requested? ==>
        s'.vrf.requests.Keys != {} && DrawOk(keccak, s, Draw(s'.draws[a.call].eventId, Undrawn(s'.draws[a.call].phase.entries)))
  {
    SnapshotStays(keccak, s, a);
    RequestedIsStored(keccak, s, a);
  }

  lemma StepKeepsDraws(keccak: string -> string, s: State, a: Action)
    requires RowsOk(s) && VrfOk(s) && DrawsOk(keccak, s)
    ensures DrawsOk(keccak, Step(keccak, s, a))
  {
    var s' := Step(keccak, s, a);
    StepFreezes(keccak, s, a);
    RequestsStay(keccak, s, a);
    forall c | c in s'.draws ensures DrawOk(keccak, s', s'.draws[c]) {
      var d := s'.draws[c];
      if a.FulfilWord? || c != a.call {
        OtherDrawsStay(keccak, s, a, c);
        DrawSurvives(keccak, s, s', d);
      } else if c !in s.draws {
        NewDrawIsKnown(keccak, s, a);
        DrawSurvives(keccak, s, s', d);
      } else {
        PhaseAdvances(keccak, s, a);
        PhaseRequested(keccak, s, a);
        if d.phase.Requested? {
          DrawSurvives(keccak, s, s', Draw(d.eventId, Undrawn(d.phase.entries)));
        } else {
          DrawSurvives(keccak, s, s', d);
        }
      }
    }
  }

  /** A result row is either an old one or the one a commit just wrote. */
  lemma ResultComesFrom(keccak: string -> string, s: State, a: Action, r: string)
    requires r in Step(keccak, s, a).results
    ensures (r in s.results && ResultFrozen(s.results[r], Step(keccak, s, a).results[r])) ||
            (a.CommitDraw? && r == a.newId && Commits(s, a))
  {
  }

  ghost predicate Commits(s: State, a: Action) {
    && a.CommitDraw? && a.call in s.draws && s.draws[a.call].phase.InTransaction?
    && a.newId !in s.results && !HasResult(s, s.draws[a.call].eventId)
  }

  lemma CommitOnChain(keccak: string -> string, s: State, a: Action)
    requires Commits(s, a) && DrawOk(keccak, s, s.draws[a.call])
    ensures var s' := Step(keccak, s, a);
      a.newId in s'.results && s'.results[a.newId].eventId == s.draws[a.call].eventId &&
      ResultOnChain(s', s'.results[a.newId])
  {
    Numerals.ParseInBase(10, s.draws[a.call].phase.requestId);
  }

  lemma OnChainSurvives(s: State, s': State, x: DrawResult, y: DrawResult)
    requires ResultOnChain(s, x) && ResultFrozen(x, y)
    requires Vrf.WordsKept(s.vrf, s'.vrf) && s.vrf.requests.Keys <= s'.vrf.requests.Keys
    ensures ResultOnChain(s', y)
  {
    assert Vrf.ResultOf(s.vrf, Numerals.Parse(10, x.vrfRequestId)).fulfilled;
  }

  lemma StepKeepsResults(keccak: string -> string, s: State, a: Action)
    requires RowsOk(s) && DrawsOk(keccak, s) && ResultsOk(s)
    ensures ResultsOk(Step(keccak, s, a))
  {
    var s' := Step(keccak, s, a);
    StepFreezes(keccak, s, a);
    RequestsStay(keccak, s, a);
    if Commits(s, a) {
      CommitOnChain(keccak, s, a);
    }
    forall r | r in s'.results ensures ResultOnChain(s', s'.results[r]) {
      ResultComesFrom(keccak, s, a, r);
      if r in s.results {
        OnChainSurvives(s, s', s.results[r], s'.results[r]);
      }
    }
    forall r, q | r in s'.results && q in s'.results && s'.results[r].eventId == s'.results[q].eventId
      ensures r == q
    {
      ResultComesFrom(keccak, s, a, r);
      ResultComesFrom(keccak, s, a, q);
    }
  }

  lemma ResultsStay(s: State, s': State, eventId: string)
    requires ResultsFrozen(s, s') && HasResult(s, eventId)
    ensures HasResult(s', eventId)
  {
    var r :| r in s.results && s.results[r].eventId == eventId;
    assert r in s'.results && ResultFrozen(s.results[r], s'.results[r]);
  }

  /** The decided rows of an event are the same rows with the same statuses. */
  ghost predicate SameDecisions(s: State, s': State, eventId: string) {
    && (forall id :: IsDecided(s, eventId, id) ==> IsDecided(s', eventId, id) && s'.rows[id].entry == s.rows[id].entry &&
                                                   s'.rows[id].status == s.rows[id].status)
    && (forall id :: IsDecided(s', eventId, id) ==> IsDecided(s, eventId, id))
  }

  ghost predicate IsDecided(s: State, eventId: string, id: string) {
    id in s.rows && s.rows[id].eventId == eventId && s.rows[id].status != PENDING
  }

  lemma SameDecisionsReproduce(keccak: string -> string, s: State, s': State, eventId: string, seed: string)
    requires SameDecisions(s, s', eventId) && Reproducible(keccak, s, eventId, seed)
    ensures Reproducible(keccak, s', eventId, seed)
  {
    forall id | IsDecided(s', eventId, id) ensures s'.rows[id].entry in Decided(s, eventId) {
      assert IsDecided(s, eventId, id);
    }
    forall id | IsDecided(s, eventId, id) ensures s.rows[id].entry in Decided(s', eventId) {
      assert IsDecided(s', eventId, id);
    }
    assert Decided(s', eventId) == Decided(s, eventId);
    forall id | IsDecided(s', eventId, id)
      ensures s'.rows[id].status == Verdict(keccak, seed, Decided(s', eventId), s'.rows[id].entry)
    {
      assert IsDecided(s, eventId, id);
    }
  }

  /** The committing draw decides exactly its snapshot, by the seed it stores. */
  lemma CommitDecides(keccak: string -> string, s: State, call: nat, newId: string)
    requires RowsOk(s) && OutcomesOk(keccak, s)
    requires call in s.draws && s.draws[call].phase.InTransaction? && DrawOk(keccak, s, s.draws[call])
    requires newId !in s.results && !HasResult(s, s.draws[call].eventId)
    ensures var s' := CommitStep(s, call, newId); var d := s.draws[call];
      && Decided(s', d.eventId) == d.phase.entries
      && Reproducible(keccak, s', d.eventId, d.phase.seed)
  {
    var s', d, p := CommitStep(s, call, newId), s.draws[call], s.draws[call].phase;
    forall e | e in p.entries ensures e in Decided(s', d.eventId) {
      assert IsDecided(s', d.eventId, e.id) && s'.rows[e.id].entry == e;
    }
    forall id | IsDecided(s', d.eventId, id)
      ensures s'.rows[id].entry in p.entries && s'.rows[id].status == p.statuses[s'.rows[id].entry]
    {
      assert s.rows[id].status == PENDING;
    }
  }

  lemma SaveKeepsDecisions(s: State, call: nat, newId: string, eventId: string)
    ensures SameDecisions(s, SaveRegistrationStep(s, call, newId), eventId)
  {
  }

  lemma ProofsKeepDecisions(s: State, s': State, eventId: string)
    requires OnlyProofsDiffer(s, s')
    ensures SameDecisions(s, s', eventId)
  {
  }

  lemma RowsStepDecisions(keccak: string -> string, s: State, a: Action, eventId: string)
    requires !a.CommitDraw?
    ensures SameDecisions(s, Step(keccak, s, a), eventId)
  {
    WhoWritesRows(keccak, s, a);
    if a.SaveRegistration? {
      SaveKeepsDecisions(s, a.call, a.newId, eventId);
    } else {
      ProofsKeepDecisions(s, Step(keccak, s, a), eventId);
    }
  }

  lemma CommitDecisionsElsewhere(keccak: string -> string, s: State, call: nat, newId: string, eventId: string)
    requires RowsOk(s) && DrawsOk(keccak, s)
    requires call in s.draws && s.draws[call].phase.InTransaction? && s.draws[call].eventId != eventId
    ensures SameDecisions(s, CommitStep(s, call, newId), eventId)
  {
    CommitRows(keccak, s, call, newId);
  }

  /** Without a commit, no decision changes and no event becomes drawn. */
  lemma QuietStepKeepsOutcomes(keccak: string -> string, s: State, s': State)
    requires OutcomesOk(keccak, s) && ResultsFrozen(s, s')
    requires forall r :: r in s'.results ==> r in s.results
    requires forall e :: SameDecisions(s, s', e)
    ensures OutcomesOk(keccak, s')
  {
    forall r | r in s'.results ensures Reproducible(keccak, s', s'.results[r].eventId, s'.results[r].randomSeed) {
      assert ResultFrozen(s.results[r], s'.results[r]);
      SameDecisionsReproduce(keccak, s, s', s.results[r].eventId, s.results[r].randomSeed);
    }
    forall id | id in s'.rows && !HasResult(s', s'.rows[id].eventId) ensures s'.rows[id].status == PENDING {
      var e := s'.rows[id].eventId;
      if IsDecided(s', e, id) {
        assert SameDecisions(s, s', e);
        assert IsDecided(s, e, id);
        ResultsStay(s, s', e);
      }
    }
  }

  lemma StepKeepsOutcomes(keccak: string -> string, s: State, a: Action)
    requires RowsOk(s) && DrawsOk(keccak, s) && OutcomesOk(keccak, s)
    ensures OutcomesOk(keccak, Step(keccak, s, a))
  {
    var s' := Step(keccak, s, a);
    if a.CommitDraw? && a.call in s.draws && s.draws[a.call].phase.InTransaction? {
      CommitKeepsOutcomes(keccak, s, a.call, a.newId);
    } else {
      StepFreezesResults(keccak, s, a);
      forall r | r in s'.results ensures r in s.results {
        ResultComesFrom(keccak, s, a, r);
      }
      forall e ensures SameDecisions(s, s', e) {
        if !a.CommitDraw? {
          RowsStepDecisions(keccak, s, a, e);
        }
      }
      QuietStepKeepsOutcomes(keccak, s, s');
    }
  }

  lemma CommitKeepsOutcomes(keccak: string -> string, s: State, call: nat, newId: string)
    requires RowsOk(s) && DrawsOk(keccak, s) && OutcomesOk(keccak, s)
    requires call in s.draws && s.draws[call].phase.InTransaction?
    ensures OutcomesOk(keccak, CommitStep(s, call, newId))
  {
    var s', d := CommitStep(s, call, newId), s.draws[call];
    if newId !in s.results && !HasResult(s, d.eventId) {
      assert DrawOk(keccak, s, d);
      CommitDecides(keccak, s, call, newId);
      CommitRows(keccak, s, call, newId);
      assert newId in s'.results;
      forall r | r in s'.results ensures Reproducible(keccak, s', s'.results[r].eventId, s'.results[r].randomSeed) {
        if r != newId {
          assert r in s.results;
          CommitDecisionsElsewhere(keccak, s, call, newId, s.results[r].eventId);
          SameDecisionsReproduce(keccak, s, s', s.results[r].eventId, s.results[r].randomSeed);
        }
      }
      forall id | id in s'.rows && !HasResult(s', s'.rows[id].eventId) ensures s'.rows[id].status == PENDING {
        if HasResult(s, s'.rows[id].eventId) {
          ResultsStay(s, s', s'.rows[id].eventId);
        }
        assert s'.rows[id].eventId != d.eventId;
      }
    }
  }

  // ---------------------------------------------------------------- whole runs

  lemma {:induction false} RunKeepsInvariant(keccak: string -> string, actions: seq<Action>)
    ensures Inv(keccak, Run(keccak, INITIAL, actions))
  {
    if actions != [] {
      var n := |actions| - 1;
      RunKeepsInvariant(keccak, actions[..n]);
      var s := Run(keccak, INITIAL, actions[..n]);
      StepKeepsRows(keccak, s, actions[n]);
      StepKeepsVrf(keccak, s, actions[n]);
      StepKeepsDraws(keccak, s, actions[n]);
      StepKeepsResults(keccak, s, actions[n]);
      StepKeepsOutcomes(keccak, s, actions[n]);
    }
  }

  lemma FreezingAddsUp(s: State, t: State, u: State)
    requires Frozen(s, t) && Frozen(t, u)
    ensures Frozen(s, u)
  {
    forall id | id in s.rows ensures id in u.rows && RowFrozen(s, s.rows[id], u.rows[id]) {
      assert RowFrozen(s, s.rows[id], t.rows[id]) && RowFrozen(t, t.rows[id], u.rows[id]);
      if HasResult(s, s.rows[id].eventId) {
        ResultsStay(s, t, s.rows[id].eventId);
      }
    }
    forall r | r in s.results ensures r in u.results && ResultFrozen(s.results[r], u.results[r]) {
      assert ResultFrozen(s.results[r], t.results[r]) && ResultFrozen(t.results[r], u.results[r]);
    }
  }

  /** Entries, decided statuses, result seeds and fulfilled words are final from the moment they exist. */
  lemma {:induction false} NothingIsTakenBack(keccak: string -> string, actions: seq<Action>, more: seq<Action>)
    ensures Frozen(Run(keccak, INITIAL, actions), Run(keccak, INITIAL, actions + more))
  {
    if more == [] {
      assert actions + more == actions;
    } else {
      var n := |more| - 1;
      assert (actions + more)[..|actions + more| - 1] == actions + more[..n];
      var t := Run(keccak, INITIAL, actions + more[..n]);
      NothingIsTakenBack(keccak, actions, more[..n]);
      RunKeepsInvariant(keccak, actions + more[..n]);
      StepFreezes(keccak, t, more[n]);
      FreezingAddsUp(Run(keccak, INITIAL, actions), t, Run(keccak, INITIAL, actions + more));
    }
  }

  /** The i-th operation of the run is a commit that writes a result for the event. */
  ghost predicate CommitsAt(keccak: string -> string, actions: seq<Action>, i: nat, eventId: string)
    requires i < |actions|
  {
    var s := Run(keccak, INITIAL, actions[..i]);
    Commits(s, actions[i]) && s.draws[actions[i].call].eventId == eventId
  }

  /** However many draws run, one at most commits for an event. */
  lemma OneCommitPerEvent(keccak: string -> string, actions: seq<Action>, i: nat, j: nat, eventId: string)
    requires i < |actions| && j < |actions|
    requires CommitsAt(keccak, actions, i, eventId) && CommitsAt(keccak, actions, j, eventId)
    ensures i == j
  {
    if i < j {
      SecondCommitFails(keccak, actions, i, j, eventId);
    } else if j < i {
      SecondCommitFails(keccak, actions, j, i, eventId);
    }
  }

  lemma CommitLeavesResult(keccak: string -> string, s: State, a: Action)
    requires Commits(s, a) && DrawsOk(keccak, s)
    ensures HasResult(Step(keccak, s, a), s.draws[a.call].eventId)
  {
    assert DrawOk(keccak, s, s.draws[a.call]);
    CommitOnChain(keccak, s, a);
  }

  lemma CommitAtLeavesResult(keccak: string -> string, actions: seq<Action>, i: nat, eventId: string)
    requires i < |actions| && CommitsAt(keccak, actions, i, eventId)
    ensures HasResult(Run(keccak, INITIAL, actions[..i + 1]), eventId)
  {
    assert actions[..i + 1][..i] == actions[..i];
    RunKeepsInvariant(keccak, actions[..i]);
    CommitLeavesResult(keccak, Run(keccak, INITIAL, actions[..i]), actions[i]);
  }

  lemma SecondCommitFails(keccak: string -> string, actions: seq<Action>, i: nat, j: nat, eventId: string)
    requires i < j < |actions|
    requires CommitsAt(keccak, actions, i, eventId)
    ensures !CommitsAt(keccak, actions, j, eventId)
  {
    CommitAtLeavesResult(keccak, actions, i, eventId);
    assert actions[..j] == actions[..i + 1] + actions[i + 1..j];
    NothingIsTakenBack(keccak, actions[..i + 1], actions[i + 1..j]);
    ResultsStay(Run(keccak, INITIAL, actions[..i + 1]), Run(keccak, INITIAL, actions[..j]), eventId);
  }

  /** What anyone can check of a stored result: its seed is the word on chain under its request id, and
      the draw recomputed from that seed over the decided entries gives every stored status. */
  lemma StoredDrawReproduces(keccak: string -> string, actions: seq<Action>, r: string)
    requires r in Run(keccak, INITIAL, actions).results
    ensures var s := Run(keccak, INITIAL, actions); var d := s.results[r];
      var id := Numerals.Parse(10, d.vrfRequestId);
      && Reproducible(keccak, s, d.eventId, d.randomSeed)
      && d.vrfRequestId == Numerals.Decimal(id)
      && id in s.vrf.requests && s.vrf.requests[id].fulfilled
      && Vrf.ParseSeed(d.randomSeed) == s.vrf.requests[id].randomWord
      && |d.randomSeed| == Vrf.WORD_DIGITS + 2
  {
    RunKeepsInvariant(keccak, actions);
    var s := Run(keccak, INITIAL, actions);
    assert ResultOnChain(s, s.results[r]);
    Vrf.SeedRoundTrip(s.vrf.requests[Numerals.Parse(10, s.results[r].vrfRequestId)].randomWord);
  }

  ghost function WonEntries(s: State, eventId: string): set<Entry> {
    set id | id in s.rows && s.rows[id].eventId == eventId && s.rows[id].status == WON :: s.rows[id].entry
  }

  /** The pool of an entry has exactly its quota of winners among the decided rows of the event. */
  ghost predicate QuotaKept(s: State, eventId: string, e: Entry) {
    var pool := Pool(Decided(s, eventId), e);
    |WonEntries(s, eventId) * pool| == Quota(|pool|)
  }

  lemma DecidedQuota(keccak: string -> string, s: State, eventId: string, seed: string, e: Entry)
    requires RowsOk(s) && Reproducible(keccak, s, eventId, seed)
    ensures CollisionFree(keccak, seed, Decided(s, eventId)) && e in Decided(s, eventId) ==> QuotaKept(s, eventId, e)
  {
    var decided := Decided(s, eventId);
    var pool := Pool(decided, e);
    if CollisionFree(keccak, seed, decided) && e in decided {
      DecidedIds(s, eventId);
      QuotaIsMet(keccak, seed, decided, e);
      forall x | x in pool ensures x in WonEntries(s, eventId) <==> Wins(keccak, seed, decided, x) {
        WonIffWins(keccak, s, eventId, seed, x);
      }
      assert WonEntries(s, eventId) * pool == set x | x in pool && Wins(keccak, seed, decided, x);
    }
  }

  lemma DecidedIds(s: State, eventId: string)
    requires RowsOk(s)
    ensures DistinctIds(Decided(s, eventId))
  {
  }

  lemma WonIffWins(keccak: string -> string, s: State, eventId: string, seed: string, e: Entry)
    requires RowsOk(s) && Reproducible(keccak, s, eventId, seed)
    requires e in Decided(s, eventId)
    ensures e in WonEntries(s, eventId) <==> Wins(keccak, seed, Decided(s, eventId), e)
  {
    assert IsDecided(s, eventId, e.id) && s.rows[e.id].entry == e;
    assert s.rows[e.id].status == Verdict(keccak, seed, Decided(s, eventId), e);
  }

  /** Every pool of a drawn event holds exactly its quota of WON rows, unless two of its hashes collide. */
  lemma StoredWinnersMeetQuota(keccak: string -> string, actions: seq<Action>, r: string, e: Entry)
    requires r in Run(keccak, INITIAL, actions).results
    ensures var s := Run(keccak, INITIAL, actions); var d := s.results[r];
      CollisionFree(keccak, d.randomSeed, Decided(s, d.eventId)) && e in Decided(s, d.eventId) ==> QuotaKept(s, d.eventId, e)
  {
    RunKeepsInvariant(keccak, actions);
    var s := Run(keccak, INITIAL, actions);
    DecidedQuota(keccak, s, s.results[r].eventId, s.results[r].randomSeed, e);
  }

  /** One entry per applicant and event, in spite of the gap between the check and the insert. */
  lemma {:induction false} OneEntryPerApplicant(keccak: string -> string, actions: seq<Action>, i: string, j: string)
    requires var s := Run(keccak, INITIAL, actions);
      i in s.rows && j in s.rows && SameApplicant(s.rows[i], s.rows[j])
    ensures i == j
  {
    RunKeepsInvariant(keccak, actions);
  }
}
