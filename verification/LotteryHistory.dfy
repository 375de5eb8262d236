/** What stored lottery rows and results owe to the operations of the run: a draw decides every entry the event had
    when it was fetched, a seed is a word the coordinator brought, a row is what its applicant registered, and a
    transaction hash is the one that was recorded. */
module LotteryHistory {
  import opened LotterySpec
  import opened LotteryRuns
  import Numerals
  import Vrf

  ghost function At(keccak: string -> string, actions: seq<Action>, i: nat): State
    requires i <= |actions|
  {
    Run(keccak, INITIAL, actions[..i])
  }

  lemma AtNext(keccak: string -> string, actions: seq<Action>, i: nat)
    requires i < |actions|
    ensures At(keccak, actions, i + 1) == Step(keccak, At(keccak, actions, i), actions[i])
  {
    assert actions[..i + 1][..i] == actions[..i];
  }

  lemma AtEnd(keccak: string -> string, actions: seq<Action>)
    ensures At(keccak, actions, |actions|) == Run(keccak, INITIAL, actions)
  {
    assert actions[..|actions|] == actions;
  }

  lemma SameBefore(keccak: string -> string, actions: seq<Action>, n: nat, i: nat)
    requires i <= n <= |actions|
    ensures At(keccak, actions[..n], i) == At(keccak, actions, i)
  {
    assert actions[..n][..i] == actions[..i];
  }

  // ---------------------------------------------------------------- what a draw decides

  /** Operation i starts the draw that call c is still running before operation j. */
  ghost predicate Opened(keccak: string -> string, actions: seq<Action>, i: nat, j: nat, c: nat)
    requires i < j <= |actions|
  {
    c !in At(keccak, actions, i).draws && forall k :: i < k <= j ==> c in At(keccak, actions, k).draws
  }

  lemma OnlyFetchOpens(keccak: string -> string, s: State, a: Action, c: nat)
    requires c !in s.draws && c in Step(keccak, s, a).draws
    ensures a.FetchEntries? && a.call == c
    ensures Step(keccak, s, a).draws[c].eventId == a.eventId
    ensures forall e :: e in Step(keccak, s, a).draws[c].phase.entries <==>
      exists id :: id in s.rows && s.rows[id].eventId == a.eventId && s.rows[id].entry == e
  {
  }

  /** All along, the call works on the event it was started for and on the entries that event had then. */
  lemma {:induction false} SnapshotKept(keccak: string -> string, actions: seq<Action>, i: nat, j: nat, c: nat)
    requires i < j <= |actions| && Opened(keccak, actions, i, j, c)
    ensures actions[i].FetchEntries? && actions[i].call == c
    ensures var d, s := At(keccak, actions, j).draws[c], At(keccak, actions, i);
      && d.eventId == actions[i].eventId
      && forall e :: e in d.phase.entries <==>
           exists id :: id in s.rows && s.rows[id].eventId == actions[i].eventId && s.rows[id].entry == e
    decreases j
  {
    var before := At(keccak, actions, j - 1);
    AtNext(keccak, actions, j - 1);
    if j == i + 1 {
      OnlyFetchOpens(keccak, before, actions[i], c);
    } else {
      SnapshotKept(keccak, actions, i, j - 1, c);
      if actions[j - 1].FulfilWord? || c != actions[j - 1].call {
        OtherDrawsStay(keccak, before, actions[j - 1], c);
      } else {
        SnapshotStays(keccak, before, actions[j - 1]);
      }
    }
  }

  /** A commit decides every entry the event had when the draw fetched its list, and no other. */
  lemma CommitDecidesAllFetched(keccak: string -> string, actions: seq<Action>, i: nat, j: nat, eventId: string)
    requires i < j < |actions| && CommitsAt(keccak, actions, j, eventId)
    requires Opened(keccak, actions, i, j, actions[j].call)
    ensures actions[i] == FetchEntries(actions[j].call, eventId)
    ensures forall id :: IsDecided(At(keccak, actions, j + 1), eventId, id) <==>
      id in At(keccak, actions, i).rows && At(keccak, actions, i).rows[id].eventId == eventId
  {
    var s, t, u := At(keccak, actions, i), At(keccak, actions, j), At(keccak, actions, j + 1);
    var c := actions[j].call;
    SnapshotKept(keccak, actions, i, j, c);
    RunKeepsInvariant(keccak, actions[..i]);
    RunKeepsInvariant(keccak, actions[..j]);
    RunKeepsInvariant(keccak, actions[..j + 1]);
    AtNext(keccak, actions, j);
    assert DrawOk(keccak, t, t.draws[c]);
    CommitDecides(keccak, t, c, actions[j].newId);
    assert u == CommitStep(t, c, actions[j].newId);
    DecidedRows(s, u, eventId);
  }

  lemma DecidedRows(s: State, u: State, eventId: string)
    requires RowsOk(s) && RowsOk(u)
    requires forall e :: e in Decided(u, eventId) <==>
      exists id :: id in s.rows && s.rows[id].eventId == eventId && s.rows[id].entry == e
    ensures forall id :: IsDecided(u, eventId, id) <==> id in s.rows && s.rows[id].eventId == eventId
  {
    forall id | IsDecided(u, eventId, id) ensures id in s.rows && s.rows[id].eventId == eventId {
      assert u.rows[id].entry in Decided(u, eventId);
    }
    forall id | id in s.rows && s.rows[id].eventId == eventId ensures IsDecided(u, eventId, id) {
      assert s.rows[id].entry in Decided(u, eventId);
    }
  }

  /** Every draw in flight has been started by some operation. */
  lemma {:induction false} DrawWasOpened(keccak: string -> string, actions: seq<Action>, j: nat, c: nat) returns (i: nat)
    requires j <= |actions| && c in At(keccak, actions, j).draws
    ensures i < j && Opened(keccak, actions, i, j, c)
    decreases j
  {
    assert actions[..0] == [];
    if c in At(keccak, actions, j - 1).draws {
      i := DrawWasOpened(keccak, actions, j - 1, c);
    } else {
      i := j - 1;
    }
  }

  /** So each commit decides exactly the entries that some earlier operation of its call found. */
  lemma EveryCommitDecidesAllFetched(keccak: string -> string, actions: seq<Action>, j: nat, eventId: string)
    returns (i: nat)
    requires j < |actions| && CommitsAt(keccak, actions, j, eventId)
    ensures i < j && actions[i] == FetchEntries(actions[j].call, eventId)
    ensures forall id :: IsDecided(At(keccak, actions, j + 1), eventId, id) <==>
      id in At(keccak, actions, i).rows && At(keccak, actions, i).rows[id].eventId == eventId
  {
    i := DrawWasOpened(keccak, actions, j, actions[j].call);
    CommitDecidesAllFetched(keccak, actions, i, j, eventId);
  }

  // ---------------------------------------------------------------- a registration that nobody interrupts

  /** It stores one PENDING row with what was registered, unless the user is registered for the event already. */
  lemma RegistrationAloneStores(keccak: string -> string, s: State, c: nat, r: Registration, newId: string)
    requires c !in s.registrations && newId !in s.rows
    ensures Step(keccak, Step(keccak, s, CheckRegistration(c, r)), SaveRegistration(c, newId)).rows ==
      if exists id :: id in s.rows && s.rows[id].eventId == r.eventId && s.rows[id].entry.userId == r.userId then s.rows
      else s.rows[newId := Row(r.eventId, Entry(newId, r.userId, r.zoneId, r.groupSize), PENDING, "")]
  {
    assert !IsRegistered(s, r.eventId, r.userId) ==>
      !IsRegistered(s.(registrations := s.registrations[c := r]), r.eventId, r.userId);
  }

  // ---------------------------------------------------------------- a draw that nobody interrupts

  lemma {:induction false} RunFirst(keccak: string -> string, s: State, first: Action, rest: seq<Action>)
    ensures Run(keccak, s, [first] + rest) == Run(keccak, Step(keccak, s, first), rest)
  {
    var all := [first] + rest;
    if rest == [] {
      assert all[..0] == [] && all[0] == first;
    } else {
      assert all[..|all| - 1] == [first] + rest[..|rest| - 1];
      RunFirst(keccak, s, first, rest[..|rest| - 1]);
    }
  }

  function CommitScript(c: nat, newId: string): seq<Action> {
    [MarkEntries(c)] + ([CheckInTransaction(c)] + [CommitDraw(c, newId)])
  }

  function OutcomeScript(c: nat, requestId: nat, word: nat, newId: string): seq<Action> {
    [FulfilWord(requestId, word)] + ([PollWord(c)] + CommitScript(c, newId))
  }

  function DrawScript(c: nat, eventId: string, requestId: nat, word: nat, newId: string): seq<Action> {
    [FetchEntries(c, eventId)] + ([CheckUndrawn(c)] + ([RequestWord(c, requestId)] + ([ReadRequestId(c)] +
      OutcomeScript(c, requestId, word, newId))))
  }

  function InPhase(s: State, c: nat, eventId: string, p: Phase): State {
    s.(draws := s.draws[c := Draw(eventId, p)])
  }

  ghost function WithRequest(s: State, requestId: nat, r: Vrf.RequestResult): State {
    s.(vrf := Vrf.Storage(s.vrf.requests[requestId := r], requestId))
  }

  lemma FetchDue(keccak: string -> string, s: State, c: nat, eventId: string)
    requires c !in s.draws && EntriesOf(s, eventId) != {}
    ensures Step(keccak, s, FetchEntries(c, eventId)) == InPhase(s, c, eventId, Fetched(EntriesOf(s, eventId)))
  {
  }

  lemma CheckDue(keccak: string -> string, s: State, c: nat, eventId: string, es: set<Entry>)
    requires !HasResult(s, eventId)
    ensures Step(keccak, InPhase(s, c, eventId, Fetched(es)), CheckUndrawn(c)) == InPhase(s, c, eventId, Undrawn(es))
  {
    assert !HasResult(InPhase(s, c, eventId, Fetched(es)), eventId);
    assert InPhase(s, c, eventId, Fetched(es)).draws[c := Draw(eventId, Undrawn(es))] == s.draws[c := Draw(eventId, Undrawn(es))];
  }

  lemma RequestDue(keccak: string -> string, s: State, c: nat, eventId: string, es: set<Entry>, requestId: nat)
    requires requestId !in s.vrf.requests
    ensures Step(keccak, InPhase(s, c, eventId, Undrawn(es)), RequestWord(c, requestId)) ==
      InPhase(WithRequest(s, requestId, Vrf.RequestResult(false, 0)), c, eventId, Phase.Requested(es))
  {
    var p := Phase.Requested(es);
    assert InPhase(s, c, eventId, Undrawn(es)).draws[c := Draw(eventId, p)] == s.draws[c := Draw(eventId, p)];
  }

  lemma ReadDue(keccak: string -> string, s: State, c: nat, eventId: string, es: set<Entry>)
    ensures Step(keccak, InPhase(s, c, eventId, Phase.Requested(es)), ReadRequestId(c)) ==
      InPhase(s, c, eventId, Waiting(es, s.vrf.lastRequestId))
  {
    var p := Waiting(es, s.vrf.lastRequestId);
    assert InPhase(s, c, eventId, Phase.Requested(es)).draws[c := Draw(eventId, p)] == s.draws[c := Draw(eventId, p)];
  }

  lemma RequestHalf(keccak: string -> string, s: State, c: nat, eventId: string, requestId: nat, rest: seq<Action>)
    requires c !in s.draws && EntriesOf(s, eventId) != {} && !HasResult(s, eventId) && requestId !in s.vrf.requests
    ensures Run(keccak, s, [FetchEntries(c, eventId)] +
                             ([CheckUndrawn(c)] + ([RequestWord(c, requestId)] + ([ReadRequestId(c)] + rest))))
         == Run(keccak, InPhase(WithRequest(s, requestId, Vrf.RequestResult(false, 0)), c, eventId,
                                Waiting(EntriesOf(s, eventId), requestId)), rest)
  {
    var es := EntriesOf(s, eventId);
    var asked := WithRequest(s, requestId, Vrf.RequestResult(false, 0));
    FetchDue(keccak, s, c, eventId);
    RunFirst(keccak, s, FetchEntries(c, eventId),
             [CheckUndrawn(c)] + ([RequestWord(c, requestId)] + ([ReadRequestId(c)] + rest)));
    CheckDue(keccak, s, c, eventId, es);
    RunFirst(keccak, InPhase(s, c, eventId, Fetched(es)), CheckUndrawn(c),
             [RequestWord(c, requestId)] + ([ReadRequestId(c)] + rest));
    RequestDue(keccak, s, c, eventId, es, requestId);
    RunFirst(keccak, InPhase(s, c, eventId, Undrawn(es)), RequestWord(c, requestId), [ReadRequestId(c)] + rest);
    ReadDue(keccak, asked, c, eventId, es);
    RunFirst(keccak, InPhase(asked, c, eventId, Phase.Requested(es)), ReadRequestId(c), rest);
  }

  lemma FulfilDue(keccak: string -> string, s: State, c: nat, eventId: string, es: set<Entry>, requestId: nat, word: nat)
    requires Vrf.IsWord(word)
    ensures Step(keccak, InPhase(WithRequest(s, requestId, Vrf.RequestResult(false, 0)), c, eventId, Waiting(es, requestId)),
                 FulfilWord(requestId, word))
         == InPhase(WithRequest(s, requestId, Vrf.RequestResult(true, word)), c, eventId, Waiting(es, requestId))
  {
    var asked := s.vrf.requests[requestId := Vrf.RequestResult(false, 0)];
    assert asked[requestId := Vrf.RequestResult(true, word)] == s.vrf.requests[requestId := Vrf.RequestResult(true, word)];
  }

  lemma PollDue(keccak: string -> string, s: State, c: nat, eventId: string, es: set<Entry>, requestId: nat, word: nat)
    requires requestId in s.vrf.requests && s.vrf.requests[requestId] == Vrf.RequestResult(true, word)
    ensures Step(keccak, InPhase(s, c, eventId, Waiting(es, requestId)), PollWord(c)) ==
      InPhase(s, c, eventId, Drawn(es, requestId, word))
  {
    var p := Drawn(es, requestId, word);
    assert InPhase(s, c, eventId, Waiting(es, requestId)).draws[c := Draw(eventId, p)] == s.draws[c := Draw(eventId, p)];
  }

  /** What the transaction is about to write. */
  ghost function Verdicts(keccak: string -> string, seed: string, entries: set<Entry>): map<Entry, Status> {
    map e | e in entries :: Verdict(keccak, seed, entries, e)
  }

  ghost function ReadyToCommit(keccak: string -> string, s: State, c: nat, eventId: string, es: set<Entry>,
                               requestId: nat, word: nat): State
  {
    InPhase(s, c, eventId, InTransaction(es, requestId, Vrf.SeedHex(word), Verdicts(keccak, Vrf.SeedHex(word), es)))
  }

  lemma MarkDue(keccak: string -> string, s: State, c: nat, eventId: string, es: set<Entry>, requestId: nat, word: nat)
    ensures var seed := Vrf.SeedHex(word);
      Step(keccak, InPhase(s, c, eventId, Drawn(es, requestId, word)), MarkEntries(c)) ==
      InPhase(s, c, eventId, Marked(es, requestId, seed, Verdicts(keccak, seed, es)))
  {
    var p := Marked(es, requestId, Vrf.SeedHex(word), Verdicts(keccak, Vrf.SeedHex(word), es));
    assert InPhase(s, c, eventId, Drawn(es, requestId, word)).draws[c := Draw(eventId, p)] == s.draws[c := Draw(eventId, p)];
  }

  lemma EnterDue(keccak: string -> string, s: State, c: nat, eventId: string, es: set<Entry>, requestId: nat,
                 seed: string, statuses: map<Entry, Status>)
    requires !HasResult(s, eventId)
    ensures Step(keccak, InPhase(s, c, eventId, Marked(es, requestId, seed, statuses)), CheckInTransaction(c)) ==
      InPhase(s, c, eventId, InTransaction(es, requestId, seed, statuses))
  {
    var marked := InPhase(s, c, eventId, Marked(es, requestId, seed, statuses));
    var p := InTransaction(es, requestId, seed, statuses);
    assert !HasResult(marked, eventId);
    assert marked.draws[c := Draw(eventId, p)] == s.draws[c := Draw(eventId, p)];
  }

  lemma CommitHalf(keccak: string -> string, s: State, c: nat, eventId: string, es: set<Entry>, requestId: nat,
                   word: nat, newId: string)
    requires !HasResult(s, eventId)
    ensures Run(keccak, InPhase(s, c, eventId, Drawn(es, requestId, word)), CommitScript(c, newId))
         == CommitStep(ReadyToCommit(keccak, s, c, eventId, es, requestId, word), c, newId)
  {
    var seed := Vrf.SeedHex(word);
    var statuses := Verdicts(keccak, seed, es);
    MarkDue(keccak, s, c, eventId, es, requestId, word);
    RunFirst(keccak, InPhase(s, c, eventId, Drawn(es, requestId, word)), MarkEntries(c),
             [CheckInTransaction(c)] + [CommitDraw(c, newId)]);
    EnterAndCommit(keccak, s, c, eventId, es, requestId, seed, statuses, newId);
  }

  lemma EnterAndCommit(keccak: string -> string, s: State, c: nat, eventId: string, es: set<Entry>, requestId: nat,
                       seed: string, statuses: map<Entry, Status>, newId: string)
    requires !HasResult(s, eventId)
    ensures Run(keccak, InPhase(s, c, eventId, Marked(es, requestId, seed, statuses)),
                [CheckInTransaction(c)] + [CommitDraw(c, newId)])
         == CommitStep(InPhase(s, c, eventId, InTransaction(es, requestId, seed, statuses)), c, newId)
  {
    EnterDue(keccak, s, c, eventId, es, requestId, seed, statuses);
    RunFirst(keccak, InPhase(s, c, eventId, Marked(es, requestId, seed, statuses)), CheckInTransaction(c),
             [CommitDraw(c, newId)]);
    RunOne(keccak, InPhase(s, c, eventId, InTransaction(es, requestId, seed, statuses)), CommitDraw(c, newId));
  }

  lemma RunOne(keccak: string -> string, s: State, a: Action)
    ensures Run(keccak, s, [a]) == Step(keccak, s, a)
  {
    assert [a][..0] == [];
    assert Run(keccak, s, []) == s;
  }

  lemma OutcomeHalf(keccak: string -> string, s: State, c: nat, eventId: string, es: set<Entry>, requestId: nat,
                    word: nat, newId: string)
    requires !HasResult(s, eventId) && Vrf.IsWord(word)
    ensures Run(keccak, InPhase(WithRequest(s, requestId, Vrf.RequestResult(false, 0)), c, eventId, Waiting(es, requestId)),
                OutcomeScript(c, requestId, word, newId))
         == CommitStep(ReadyToCommit(keccak, WithRequest(s, requestId, Vrf.RequestResult(true, word)), c, eventId, es,
                                     requestId, word), c, newId)
  {
    var asked := WithRequest(s, requestId, Vrf.RequestResult(false, 0));
    var answered := WithRequest(s, requestId, Vrf.RequestResult(true, word));
    FulfilDue(keccak, s, c, eventId, es, requestId, word);
    RunFirst(keccak, InPhase(asked, c, eventId, Waiting(es, requestId)), FulfilWord(requestId, word),
             [PollWord(c)] + CommitScript(c, newId));
    PollDue(keccak, answered, c, eventId, es, requestId, word);
    RunFirst(keccak, InPhase(answered, c, eventId, Waiting(es, requestId)), PollWord(c), CommitScript(c, newId));
    assert !HasResult(answered, eventId);
    CommitHalf(keccak, answered, c, eventId, es, requestId, word, newId);
  }

  /** The row as an uninterrupted draw leaves it. */
  ghost function RowDrawn(keccak: string -> string, s: State, eventId: string, seed: string, row: Row): Row {
    if row.eventId != eventId then row
    else row.(status := Verdict(keccak, seed, EntriesOf(s, eventId), row.entry))
  }

  lemma CommittedRows(keccak: string -> string, s: State, t: State, c: nat, eventId: string, requestId: nat, word: nat,
                      newId: string)
    requires RowsOk(s) && newId !in s.results && !HasResult(s, eventId)
    requires t.rows == s.rows && t.results == s.results
    ensures var s' := CommitStep(ReadyToCommit(keccak, t, c, eventId, EntriesOf(s, eventId), requestId, word), c, newId);
      && s'.results == s.results[newId := DrawResult(eventId, Numerals.Decimal(requestId), Vrf.SeedHex(word), "")]
      && s'.rows.Keys == s.rows.Keys
      && (forall id :: id in s.rows ==> s'.rows[id] == RowDrawn(keccak, s, eventId, Vrf.SeedHex(word), s.rows[id]))
  {
    var es := EntriesOf(s, eventId);
    var ready := ReadyToCommit(keccak, t, c, eventId, es, requestId, word);
    assert !HasResult(ready, eventId);
    forall id | id in s.rows ensures s.rows[id].entry in es <==> s.rows[id].eventId == eventId {
      if s.rows[id].entry in es {
        var other :| other in s.rows && s.rows[other].eventId == eventId && s.rows[other].entry == s.rows[id].entry;
        assert other == s.rows[other].entry.id == id;
      }
    }
  }

  /** A draw that nobody interrupts commits: the result holds the request id and the word's seed, every row of the
      event gets its verdict among all rows of the event, and no other row changes. */
  lemma DrawAloneCommits(keccak: string -> string, s: State, c: nat, eventId: string, requestId: nat, word: nat, newId: string)
    requires RowsOk(s) && c !in s.draws && EntriesOf(s, eventId) != {} && !HasResult(s, eventId)
    requires requestId !in s.vrf.requests && Vrf.IsWord(word) && newId !in s.results
    ensures var s' := Run(keccak, s, DrawScript(c, eventId, requestId, word, newId));
      && s'.results == s.results[newId := DrawResult(eventId, Numerals.Decimal(requestId), Vrf.SeedHex(word), "")]
      && s'.rows.Keys == s.rows.Keys
      && (forall id :: id in s.rows ==> s'.rows[id] == RowDrawn(keccak, s, eventId, Vrf.SeedHex(word), s.rows[id]))
  {
    RequestHalf(keccak, s, c, eventId, requestId, OutcomeScript(c, requestId, word, newId));
    OutcomeHalf(keccak, s, c, eventId, EntriesOf(s, eventId), requestId, word, newId);
    CommittedRows(keccak, s, WithRequest(s, requestId, Vrf.RequestResult(true, word)), c, eventId, requestId, word, newId);
  }

  // ---------------------------------------------------------------- where seeds come from

  ghost predicate WordsBrought(vrf: Vrf.Storage, actions: seq<Action>) {
    forall id :: Vrf.ResultOf(vrf, id).fulfilled ==> FulfilWord(id, Vrf.ResultOf(vrf, id).randomWord) in actions
  }

  lemma StepBringsWords(keccak: string -> string, s: State, a: Action, actions: seq<Action>)
    requires WordsBrought(s.vrf, actions)
    ensures WordsBrought(Step(keccak, s, a).vrf, actions + [a])
  {
    forall id | Vrf.ResultOf(Step(keccak, s, a).vrf, id).fulfilled
      ensures FulfilWord(id, Vrf.ResultOf(Step(keccak, s, a).vrf, id).randomWord) in actions + [a]
    {
      WordOfStep(keccak, s, a, id);
    }
  }

  lemma WordOfStep(keccak: string -> string, s: State, a: Action, id: nat)
    ensures var r := Vrf.ResultOf(Step(keccak, s, a).vrf, id);
      r.fulfilled ==> r == Vrf.ResultOf(s.vrf, id) || a == FulfilWord(id, r.randomWord)
  {
  }

  lemma {:induction false} RunBringsWords(keccak: string -> string, actions: seq<Action>)
    ensures WordsBrought(Run(keccak, INITIAL, actions).vrf, actions)
  {
    if actions != [] {
      var n := |actions| - 1;
      RunBringsWords(keccak, actions[..n]);
      StepBringsWords(keccak, Run(keccak, INITIAL, actions[..n]), actions[n], actions[..n]);
      assert actions[..n] + [actions[n]] == actions;
    }
  }

  /** The seed of a stored result is a word that the coordinator brought under the stored request id. */
  lemma SeedWasBrought(keccak: string -> string, actions: seq<Action>, r: string)
    requires r in Run(keccak, INITIAL, actions).results
    ensures var d := Run(keccak, INITIAL, actions).results[r];
      FulfilWord(Numerals.Parse(10, d.vrfRequestId), Vrf.ParseSeed(d.randomSeed)) in actions
  {
    StoredDrawReproduces(keccak, actions, r);
    RunBringsWords(keccak, actions);
    var s := Run(keccak, INITIAL, actions);
    assert Vrf.ResultOf(s.vrf, Numerals.Parse(10, s.results[r].vrfRequestId)).fulfilled;
  }

  /** Every decided row of an event with a result stands where the hash of the stored seed puts it among the decided rows. */
  lemma StoredStatusesMean(keccak: string -> string, actions: seq<Action>, r: string, id: string)
    requires var s := Run(keccak, INITIAL, actions); r in s.results && IsDecided(s, s.results[r].eventId, id)
    ensures var s := Run(keccak, INITIAL, actions); var d := s.results[r];
      DrawnAs(keccak, d.randomSeed, Decided(s, d.eventId), s.rows[id].entry, s.rows[id].status)
  {
    StoredDrawReproduces(keccak, actions, r);
    var s := Run(keccak, INITIAL, actions);
    var d := s.results[r];
    VerdictMeans(keccak, d.randomSeed, Decided(s, d.eventId), s.rows[id].entry);
  }

  // ---------------------------------------------------------------- where rows come from

  ghost predicate Registers(actions: seq<Action>, c: nat, r: Registration) {
    CheckRegistration(c, r) in actions
  }

  /** The row holds what some call registered, under the id with which that call saved it. */
  ghost predicate RowRegistered(actions: seq<Action>, id: string, row: Row) {
    exists c: nat ::
      && Registers(actions, c, Registration(row.eventId, row.entry.userId, row.entry.zoneId, row.entry.groupSize))
      && SaveRegistration(c, id) in actions
  }

  ghost predicate AllRegistered(s: State, actions: seq<Action>) {
    && (forall c :: c in s.registrations ==> Registers(actions, c, s.registrations[c]))
    && (forall id :: id in s.rows ==> RowRegistered(actions, id, s.rows[id]))
  }

  lemma RegistrationsExtend(s: State, actions: seq<Action>, a: Action)
    requires AllRegistered(s, actions)
    ensures AllRegistered(s, actions + [a])
  {
    forall id | id in s.rows ensures RowRegistered(actions + [a], id, s.rows[id]) {
      var row := s.rows[id];
      var c: nat :|
        && Registers(actions, c, Registration(row.eventId, row.entry.userId, row.entry.zoneId, row.entry.groupSize))
        && SaveRegistration(c, id) in actions;
      assert Registers(actions + [a], c,
                       Registration(row.eventId, row.entry.userId, row.entry.zoneId, row.entry.groupSize));
    }
  }

  /** A row that a step brings in holds the registration its call has been carrying. */
  lemma NewRow(keccak: string -> string, s: State, a: Action, id: string)
    requires id in Step(keccak, s, a).rows && id !in s.rows
    ensures a.SaveRegistration? && a.newId == id && a.call in s.registrations
    ensures var row := Step(keccak, s, a).rows[id];
      s.registrations[a.call] == Registration(row.eventId, row.entry.userId, row.entry.zoneId, row.entry.groupSize)
  {
    WhoWritesRows(keccak, s, a);
  }

  lemma OldRow(keccak: string -> string, s: State, a: Action, id: string)
    requires id in s.rows && DrawsOk(keccak, s) && RowsOk(s)
    ensures id in Step(keccak, s, a).rows
    ensures Step(keccak, s, a).rows[id].eventId == s.rows[id].eventId && Step(keccak, s, a).rows[id].entry == s.rows[id].entry
  {
    StepFreezes(keccak, s, a);
    assert RowFrozen(s, s.rows[id], Step(keccak, s, a).rows[id]);
  }

  lemma PendingRegistrations(keccak: string -> string, s: State, a: Action, c: nat)
    requires c in Step(keccak, s, a).registrations
    ensures var r := Step(keccak, s, a).registrations[c];
      (c in s.registrations && s.registrations[c] == r) || a == CheckRegistration(c, r)
  {
  }

  lemma StepKeepsRegistered(keccak: string -> string, s: State, a: Action, actions: seq<Action>)
    requires DrawsOk(keccak, s) && RowsOk(s) && AllRegistered(s, actions)
    ensures AllRegistered(Step(keccak, s, a), actions + [a])
  {
    var s', more := Step(keccak, s, a), actions + [a];
    RegistrationsExtend(s, actions, a);
    forall c | c in s'.registrations ensures Registers(more, c, s'.registrations[c]) {
      PendingRegistrations(keccak, s, a, c);
    }
    forall id | id in s'.rows ensures RowRegistered(more, id, s'.rows[id]) {
      if id in s.rows {
        OldRow(keccak, s, a, id);
        assert RowRegistered(more, id, s.rows[id]);
      } else {
        NewRow(keccak, s, a, id);
        assert Registers(more, a.call, s.registrations[a.call]) && more[|actions|] == a;
      }
    }
  }

  lemma {:induction false} RunKeepsRegistered(keccak: string -> string, actions: seq<Action>)
    ensures AllRegistered(Run(keccak, INITIAL, actions), actions)
  {
    if actions != [] {
      var n := |actions| - 1;
      RunKeepsInvariant(keccak, actions[..n]);
      RunKeepsRegistered(keccak, actions[..n]);
      StepKeepsRegistered(keccak, Run(keccak, INITIAL, actions[..n]), actions[n], actions[..n]);
      assert actions[..n] + [actions[n]] == actions;
    }
  }

  /** Every stored entry has the event, user, zone and group size that one call registered and then saved under its id. */
  lemma RowsWereRegistered(keccak: string -> string, actions: seq<Action>, id: string) returns (c: nat)
    requires id in Run(keccak, INITIAL, actions).rows
    ensures var row := Run(keccak, INITIAL, actions).rows[id];
      && CheckRegistration(c, Registration(row.eventId, row.entry.userId, row.entry.zoneId, row.entry.groupSize)) in actions
      && SaveRegistration(c, id) in actions
      && row.entry.id == id
  {
    RunKeepsInvariant(keccak, actions);
    RunKeepsRegistered(keccak, actions);
    var row := Run(keccak, INITIAL, actions).rows[id];
    assert RowRegistered(actions, id, row);
    c :|
      && Registers(actions, c, Registration(row.eventId, row.entry.userId, row.entry.zoneId, row.entry.groupSize))
      && SaveRegistration(c, id) in actions;
  }
}
