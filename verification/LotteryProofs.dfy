/** The transaction hashes that a draw leaves behind: one per drawn event, the same on its result and on its rows. */
module LotteryProofs {
  import opened LotteryRuns

  ghost predicate ResultHas(s: State, eventId: string, txHash: string) {
    exists r :: r in s.results && s.results[r].eventId == eventId && s.results[r].drawProofTxHash == txHash
  }

  predicate Finished(d: Draw) {
    d.phase.Saved? || d.phase.Recorded?
  }

  predicate BothFinished(d: Draw, e: Draw) {
    Finished(d) && Finished(e) && d.eventId == e.eventId
  }

  /** A draw that has committed has a result, without a hash until it records one. */
  ghost predicate Traced(s: State, d: Draw) {
    match d.phase
    case Saved(_, r) => r in s.results && s.results[r].eventId == d.eventId && s.results[r].drawProofTxHash == ""
    case Recorded(_, txHash) => ResultHas(s, d.eventId, txHash)
    case _ => true
  }

  ghost predicate ProofsOk(s: State) {
    && (forall c :: c in s.draws ==> Traced(s, s.draws[c]))
    && (forall c, o :: c in s.draws && o in s.draws && BothFinished(s.draws[c], s.draws[o]) ==> c == o)
    && (forall id :: id in s.rows && s.rows[id].drawProofTxHash != "" ==>
          ResultHas(s, s.rows[id].eventId, s.rows[id].drawProofTxHash))
  }

  predicate Writes(a: Action) {
    a.SaveRegistration? || a.CommitDraw? || a.RecordProof? || a.TagEntry?
  }

  lemma QuietStep(keccak: string -> string, s: State, a: Action)
    requires !Writes(a)
    ensures var s' := Step(keccak, s, a);
      && s'.rows == s.rows && s'.results == s.results
      && forall c :: c in s'.draws && Finished(s'.draws[c]) ==> c in s.draws && s'.draws[c] == s.draws[c]
  {
  }

  lemma QuietStepKeepsProofs(keccak: string -> string, s: State, a: Action)
    requires ProofsOk(s) && !Writes(a)
    ensures ProofsOk(Step(keccak, s, a))
  {
    QuietStep(keccak, s, a);
    var s' := Step(keccak, s, a);
    forall c | c in s'.draws ensures Traced(s', s'.draws[c]) {
      if Finished(s'.draws[c]) {
        assert Traced(s, s.draws[c]);
      }
    }
    forall id | id in s'.rows && s'.rows[id].drawProofTxHash != ""
      ensures ResultHas(s', s'.rows[id].eventId, s'.rows[id].drawProofTxHash)
    {
      assert ResultHas(s, s.rows[id].eventId, s.rows[id].drawProofTxHash);
    }
  }

  lemma SaveKeepsProofs(s: State, call: nat, newId: string)
    requires ProofsOk(s)
    ensures ProofsOk(SaveRegistrationStep(s, call, newId))
  {
    var s' := SaveRegistrationStep(s, call, newId);
    forall c | c in s'.draws ensures Traced(s', s'.draws[c]) {
      assert Traced(s, s.draws[c]);
    }
    forall id | id in s'.rows && s'.rows[id].drawProofTxHash != ""
      ensures ResultHas(s', s'.rows[id].eventId, s'.rows[id].drawProofTxHash)
    {
      assert ResultHas(s, s.rows[id].eventId, s.rows[id].drawProofTxHash);
    }
  }

  lemma ResultStays(s: State, s': State, eventId: string, txHash: string, changed: string)
    requires ResultHas(s, eventId, txHash)
    requires forall r :: r in s.results && r != changed ==> r in s'.results && s'.results[r] == s.results[r]
    requires changed in s.results ==> s.results[changed].eventId != eventId
    ensures ResultHas(s', eventId, txHash)
  {
    var r :| r in s.results && s.results[r].eventId == eventId && s.results[r].drawProofTxHash == txHash;
    assert r in s'.results && s'.results[r] == s.results[r];
  }

  /** An event without a result has no draw that finished. */
  lemma UndrawnHasNoFinisher(s: State, c: nat)
    requires ProofsOk(s) && c in s.draws && Finished(s.draws[c])
    ensures HasResult(s, s.draws[c].eventId)
  {
    assert Traced(s, s.draws[c]);
  }

  lemma CommitTraces(keccak: string -> string, s: State, call: nat, newId: string, c: nat)
    requires ProofsOk(s) && Commits(s, CommitDraw(call, newId)) && c in CommitStep(s, call, newId).draws
    ensures Traced(CommitStep(s, call, newId), CommitStep(s, call, newId).draws[c])
  {
    var s' := CommitStep(s, call, newId);
    if c != call {
      assert s'.draws[c] == s.draws[c] && Traced(s, s.draws[c]);
      match s.draws[c].phase {
        case Recorded(_, txHash) => ResultStays(s, s', s.draws[c].eventId, txHash, newId);
        case _ =>
      }
    }
  }

  lemma CommitKeepsProofs(keccak: string -> string, s: State, call: nat, newId: string)
    requires ProofsOk(s) && Commits(s, CommitDraw(call, newId))
    ensures ProofsOk(CommitStep(s, call, newId))
  {
    var s' := CommitStep(s, call, newId);
    forall c | c in s'.draws ensures Traced(s', s'.draws[c]) {
      CommitTraces(keccak, s, call, newId, c);
    }
    forall c | c in s.draws && Finished(s.draws[c]) ensures s.draws[c].eventId != s.draws[call].eventId {
      UndrawnHasNoFinisher(s, c);
    }
    forall id | id in s'.rows && s'.rows[id].drawProofTxHash != ""
      ensures ResultHas(s', s'.rows[id].eventId, s'.rows[id].drawProofTxHash)
    {
      assert s'.rows[id].eventId == s.rows[id].eventId && s'.rows[id].drawProofTxHash == s.rows[id].drawProofTxHash;
      ResultStays(s, s', s.rows[id].eventId, s.rows[id].drawProofTxHash, newId);
    }
  }

  /** The call is due to record the hash of its transaction. */
  predicate Records(s: State, call: nat) {
    call in s.draws && s.draws[call].phase.Saved? && s.draws[call].phase.resultId in s.results
  }

  ghost function Recording(s: State, call: nat, txHash: string): State
    requires Records(s, call)
  {
    var d := s.draws[call];
    var r := d.phase.resultId;
    s.(draws := s.draws[call := Draw(d.eventId, Recorded(d.phase.entries, txHash))],
       results := s.results[r := s.results[r].(drawProofTxHash := txHash)])
  }

  lemma RecordIs(keccak: string -> string, s: State, call: nat, txHash: string)
    ensures Step(keccak, s, RecordProof(call, txHash)) == if Records(s, call) then Recording(s, call, txHash) else s
  {
  }

  /** No other draw of the event has finished, so a hash that is recorded belongs to no other finished draw. */
  lemma OtherResult(s: State, call: nat, c: nat)
    requires ProofsOk(s) && Records(s, call) && c in s.draws && c != call && Finished(s.draws[c])
    ensures s.results[s.draws[call].phase.resultId].eventId != s.draws[c].eventId
  {
    assert Traced(s, s.draws[call]);
    assert !BothFinished(s.draws[call], s.draws[c]);
  }

  lemma OthersStayTraced(s: State, call: nat, txHash: string, c: nat)
    requires ProofsOk(s) && Records(s, call) && c in s.draws && c != call && Finished(s.draws[c])
    ensures Traced(Recording(s, call, txHash), s.draws[c])
  {
    OtherResult(s, call, c);
    assert Traced(s, s.draws[c]);
    match s.draws[c].phase {
      case Recorded(_, other) =>
        ResultStays(s, Recording(s, call, txHash), s.draws[c].eventId, other, s.draws[call].phase.resultId);
      case _ =>
    }
  }

  lemma OwnIsTraced(s: State, call: nat, txHash: string)
    requires ProofsOk(s) && Records(s, call)
    ensures Traced(Recording(s, call, txHash), Recording(s, call, txHash).draws[call])
  {
    var s', r := Recording(s, call, txHash), s.draws[call].phase.resultId;
    assert Traced(s, s.draws[call]);
    assert r in s'.results && s'.results[r].eventId == s.draws[call].eventId && s'.results[r].drawProofTxHash == txHash;
  }

  lemma RecordKeepsProofs(s: State, call: nat, txHash: string)
    requires ProofsOk(s) && ResultsOk(s) && Records(s, call)
    ensures ProofsOk(Recording(s, call, txHash))
  {
    var s', r := Recording(s, call, txHash), s.draws[call].phase.resultId;
    assert Traced(s, s.draws[call]);
    forall c | c in s'.draws ensures Traced(s', s'.draws[c]) {
      if c == call {
        OwnIsTraced(s, call, txHash);
      } else if Finished(s.draws[c]) {
        OthersStayTraced(s, call, txHash, c);
      }
    }
    forall id | id in s'.rows && s'.rows[id].drawProofTxHash != ""
      ensures ResultHas(s', s'.rows[id].eventId, s'.rows[id].drawProofTxHash)
    {
      assert ResultHas(s, s.rows[id].eventId, s.rows[id].drawProofTxHash);
      ResultStays(s, s', s.rows[id].eventId, s.rows[id].drawProofTxHash, r);
    }
  }

  lemma TagKeepsProofs(keccak: string -> string, s: State, call: nat, rowId: string)
    requires ProofsOk(s) && DrawsOk(keccak, s) && RowsOk(s)
    ensures ProofsOk(Step(keccak, s, TagEntry(call, rowId)))
  {
    var s' := Step(keccak, s, TagEntry(call, rowId));
    if s' != s {
      assert Traced(s, s.draws[call]) && DrawOk(keccak, s, s.draws[call]);
      forall c | c in s'.draws ensures Traced(s', s'.draws[c]) {
        assert Traced(s, s.draws[c]);
      }
      forall id | id in s'.rows && s'.rows[id].drawProofTxHash != ""
        ensures ResultHas(s', s'.rows[id].eventId, s'.rows[id].drawProofTxHash)
      {
        assert id != rowId ==> ResultHas(s, s.rows[id].eventId, s.rows[id].drawProofTxHash);
      }
    }
  }

  lemma StepKeepsProofs(keccak: string -> string, s: State, a: Action)
    requires ProofsOk(s) && RowsOk(s) && DrawsOk(keccak, s) && ResultsOk(s)
    ensures ProofsOk(Step(keccak, s, a))
  {
    match a {
      case SaveRegistration(call, newId) => SaveKeepsProofs(s, call, newId);
      case RecordProof(call, txHash) =>
        RecordIs(keccak, s, call, txHash);
        if Records(s, call) {
          RecordKeepsProofs(s, call, txHash);
        }
      case TagEntry(call, rowId) => TagKeepsProofs(keccak, s, call, rowId);
      case CommitDraw(call, newId) => CommitActionKeepsProofs(keccak, s, call, newId);
      case _ => QuietStepKeepsProofs(keccak, s, a);
    }
  }

  lemma CommitActionKeepsProofs(keccak: string -> string, s: State, call: nat, newId: string)
    requires ProofsOk(s)
    ensures ProofsOk(Step(keccak, s, CommitDraw(call, newId)))
  {
    if Commits(s, CommitDraw(call, newId)) {
      CommitKeepsProofs(keccak, s, call, newId);
    } else {
      var s' := Step(keccak, s, CommitDraw(call, newId));
      assert s' == s || s' == Stop(s, call);
      forall c | c in s'.draws ensures Traced(s', s'.draws[c]) {
        assert Traced(s, s.draws[c]);
      }
      forall id | id in s'.rows && s'.rows[id].drawProofTxHash != ""
        ensures ResultHas(s', s'.rows[id].eventId, s'.rows[id].drawProofTxHash)
      {
        assert ResultHas(s, s.rows[id].eventId, s.rows[id].drawProofTxHash);
      }
    }
  }

  /** A draw that has recorded its hash writes it to each row of its list. */
  lemma TagIs(keccak: string -> string, s: State, call: nat, rowId: string)
    requires call in s.draws && s.draws[call].phase.Recorded? && rowId in s.rows
    requires s.rows[rowId].entry in s.draws[call].phase.entries
    ensures Step(keccak, s, TagEntry(call, rowId)) ==
      s.(rows := s.rows[rowId := s.rows[rowId].(drawProofTxHash := s.draws[call].phase.txHash)])
  {
  }

  lemma {:induction false} RunKeepsProofs(keccak: string -> string, actions: seq<Action>)
    ensures ProofsOk(Run(keccak, INITIAL, actions))
  {
    if actions != [] {
      var n := |actions| - 1;
      RunKeepsInvariant(keccak, actions[..n]);
      RunKeepsProofs(keccak, actions[..n]);
      StepKeepsProofs(keccak, Run(keccak, INITIAL, actions[..n]), actions[n]);
    }
  }

  lemma HashOfStep(keccak: string -> string, s: State, a: Action, r: string)
    requires r in Step(keccak, s, a).results
    ensures var h := Step(keccak, s, a).results[r].drawProofTxHash;
      h == "" || (r in s.results && s.results[r].drawProofTxHash == h) || (a.RecordProof? && a.txHash == h)
  {
  }

  lemma {:induction false} ResultHashWasRecorded(keccak: string -> string, actions: seq<Action>, r: string) returns (c: nat)
    requires r in Run(keccak, INITIAL, actions).results
    requires Run(keccak, INITIAL, actions).results[r].drawProofTxHash != ""
    ensures RecordProof(c, Run(keccak, INITIAL, actions).results[r].drawProofTxHash) in actions
  {
    var n := |actions| - 1;
    var s := Run(keccak, INITIAL, actions[..n]);
    var h := Run(keccak, INITIAL, actions).results[r].drawProofTxHash;
    HashOfStep(keccak, s, actions[n], r);
    if r in s.results && s.results[r].drawProofTxHash == h {
      c := ResultHashWasRecorded(keccak, actions[..n], r);
    } else {
      c := actions[n].call;
      assert actions[n] == RecordProof(c, h);
    }
  }

  /** However many draws run: a row's hash is that of its event's one result, and some draw recorded it. */
  lemma RowHashIsTheResults(keccak: string -> string, actions: seq<Action>, id: string) returns (r: string, c: nat)
    requires var s := Run(keccak, INITIAL, actions); id in s.rows && s.rows[id].drawProofTxHash != ""
    ensures var s := Run(keccak, INITIAL, actions);
      && r in s.results && s.results[r].eventId == s.rows[id].eventId
      && s.results[r].drawProofTxHash == s.rows[id].drawProofTxHash
      && RecordProof(c, s.rows[id].drawProofTxHash) in actions
  {
    RunKeepsProofs(keccak, actions);
    var s := Run(keccak, INITIAL, actions);
    r :| r in s.results && s.results[r].eventId == s.rows[id].eventId
      && s.results[r].drawProofTxHash == s.rows[id].drawProofTxHash;
    c := ResultHashWasRecorded(keccak, actions, r);
  }
}
