/** Replay protection: a 60-second token, a 120-second key and the time an attempt takes in between. */
module AdmissionNonces {
  import opened Options
  import opened Admission

  // ---------------------------------------------------------------- invariant

  predicate Genuine(s: State, q: QrPayload) {
    q.nonce in s.issued && s.issued[q.nonce] == q
  }

  ghost predicate ScanOk(s: State, x: Attempt) {
    match x
    case Scanned(q, _) => Genuine(s, q)
    case Fresh(q, _, at) => Genuine(s, q) && at <= q.iat + QR_TTL_SECONDS
    case _ => true
  }

  /** The key of a passed nonce lives until no attempt in time can present the nonce any more. */
  ghost predicate KeyOutlivesToken(s: State, nonce: string) {
    && nonce in s.issued && nonce in s.nonces
    && s.nonces[nonce] >= s.issued[nonce].iat + 2 * QR_TTL_SECONDS
  }

  ghost predicate NoncesOk(s: State) {
    && (forall n :: n in s.issued ==> s.issued[n].nonce == n && s.issued[n].iat <= s.clock)
    && (forall a :: a in s.attempts ==> ScanOk(s, s.attempts[a]))
    && (forall i :: 0 <= i < |s.passed| ==> KeyOutlivesToken(s, s.passed[i]))
    && (forall i, j :: 0 <= i < j < |s.passed| ==> s.passed[i] != s.passed[j])
  }

  /** Less than 60 s between the freshness check and SET NX. */
  predicate Prompt(s: State, a: Action) {
    a.ReserveNonce? && a.attempt in s.attempts && s.attempts[a.attempt].Fresh? ==>
      s.clock < s.attempts[a.attempt].checkedAt + QR_TTL_SECONDS
  }

  // ---------------------------------------------------------------- steps

  /** Nothing that replay protection looks at changes, but for attempts past that point. */
  ghost predicate BeyondReplay(s: State, s': State) {
    && s'.issued == s.issued && s'.nonces == s.nonces && s'.passed == s.passed && s'.clock == s.clock
    && forall a :: a in s'.attempts ==>
         (a in s.attempts && s'.attempts[a] == s.attempts[a]) || !(s'.attempts[a].Scanned? || s'.attempts[a].Fresh?)
  }

  lemma BeyondReplayKeeps(s: State, s': State)
    requires NoncesOk(s) && BeyondReplay(s, s')
    ensures NoncesOk(s')
  {
    forall a | a in s'.attempts ensures ScanOk(s', s'.attempts[a]) {
      if a in s.attempts {
        assert ScanOk(s, s.attempts[a]);
      }
    }
    forall i | 0 <= i < |s'.passed| ensures KeyOutlivesToken(s', s'.passed[i]) {
      assert KeyOutlivesToken(s, s.passed[i]);
    }
  }

  lemma TicketingIsBeyond(p: Platform, s: State, a: Action)
    requires IsTicketing(a)
    ensures BeyondReplay(s, TicketStep(p, s, a))
  {
  }

  lemma ReadIsBeyond(s: State, a: nat)
    ensures BeyondReplay(s, ReadStep(s, a))
  {
  }

  lemma OwnershipIsBeyond(s: State, a: nat, rpcOk: bool)
    ensures BeyondReplay(s, OwnershipStep(s, a, rpcOk))
  {
  }

  lemma FaceIsBeyond(s: State, a: nat, outcome: FaceOutcome)
    ensures BeyondReplay(s, FaceStep(s, a, outcome))
  {
  }

  lemma FindMintedIsBeyond(s: State, a: nat, eventId: string, userId: string, found: Option<string>)
    ensures BeyondReplay(s, FindMintedStep(s, a, eventId, userId, found))
  {
  }

  lemma FindPaidIsBeyond(s: State, a: nat, found: Option<string>)
    ensures BeyondReplay(s, FindPaidStep(s, a, found))
  {
  }

  lemma FindIsBeyond(s: State, a: Action)
    requires a.FindMinted? || a.FindPaid?
    ensures BeyondReplay(s, GateStep(s, a))
  {
    match a
    case FindMinted(x, eventId, userId, found) => FindMintedIsBeyond(s, x, eventId, userId, found);
    case FindPaid(x, found) => FindPaidIsBeyond(s, x, found);
  }

  lemma MarkIsBeyond(s: State, a: nat)
    ensures BeyondReplay(s, MarkStep(s, a))
  {
  }

  lemma LogIsBeyond(s: State, a: nat, stored: bool)
    ensures BeyondReplay(s, LogStep(s, a, stored))
  {
  }

  lemma CrashIsBeyond(s: State, a: nat)
    ensures BeyondReplay(s, CrashStep(s, a))
  {
    LogIsBeyond(s, a, false);
  }

  lemma GenerateKeepsNonces(s: State, id: string, nonce: string)
    requires NoncesOk(s)
    ensures NoncesOk(GenerateStep(s, id, nonce))
  {
    var s' := GenerateStep(s, id, nonce);
    forall a | a in s'.attempts ensures ScanOk(s', s'.attempts[a]) {
      assert ScanOk(s, s.attempts[a]);
    }
    forall i | 0 <= i < |s'.passed| ensures KeyOutlivesToken(s', s'.passed[i]) {
      assert KeyOutlivesToken(s, s.passed[i]);
    }
  }

  lemma TickKeepsNonces(s: State, seconds: nat)
    requires NoncesOk(s)
    ensures NoncesOk(s.(clock := s.clock + seconds))
  {
    var s' := s.(clock := s.clock + seconds);
    forall a | a in s'.attempts ensures ScanOk(s', s'.attempts[a]) {
      assert ScanOk(s, s.attempts[a]);
    }
    forall i | 0 <= i < |s'.passed| ensures KeyOutlivesToken(s', s'.passed[i]) {
      assert KeyOutlivesToken(s, s.passed[i]);
    }
  }

  lemma ScanKeepsNonces(s: State, a: nat, nonce: string, photo: bool)
    requires NoncesOk(s)
    ensures NoncesOk(ScanStep(s, a, nonce, photo))
  {
    var s' := ScanStep(s, a, nonce, photo);
    forall b | b in s'.attempts ensures ScanOk(s', s'.attempts[b]) {
      if b in s.attempts { assert ScanOk(s, s.attempts[b]); }
    }
    forall i | 0 <= i < |s'.passed| ensures KeyOutlivesToken(s', s'.passed[i]) {
      assert KeyOutlivesToken(s, s.passed[i]);
    }
  }

  lemma FreshKeepsNonces(s: State, a: nat)
    requires NoncesOk(s)
    ensures NoncesOk(FreshStep(s, a))
  {
    var s' := FreshStep(s, a);
    forall b | b in s'.attempts ensures ScanOk(s', s'.attempts[b]) {
      assert ScanOk(s, s.attempts[b]);
    }
    forall i | 0 <= i < |s'.passed| ensures KeyOutlivesToken(s', s'.passed[i]) {
      assert KeyOutlivesToken(s, s.passed[i]);
    }
  }

  /** The heart of it: a nonce that passed before still has its key when the next prompt attempt comes. */
  lemma PassedKeyIsLive(s: State, a: nat, i: nat)
    requires NoncesOk(s) && a in s.attempts && s.attempts[a].Fresh?
    requires s.clock < s.attempts[a].checkedAt + QR_TTL_SECONDS
    requires i < |s.passed| && s.passed[i] == s.attempts[a].payload.nonce
    ensures KeyLive(s, s.passed[i])
  {
    assert ScanOk(s, s.attempts[a]);
    assert KeyOutlivesToken(s, s.passed[i]);
  }

  lemma ReserveKeepsNonces(s: State, a: nat)
    requires NoncesOk(s) && Prompt(s, ReserveNonce(a))
    ensures NoncesOk(ReserveStep(s, a))
  {
    var s' := ReserveStep(s, a);
    if s' != s {
      var q := s.attempts[a].payload;
      assert ScanOk(s, s.attempts[a]);
      forall i | 0 <= i < |s.passed| && s.passed[i] == q.nonce ensures KeyLive(s, q.nonce) {
        PassedKeyIsLive(s, a, i);
      }
      forall b | b in s'.attempts ensures ScanOk(s', s'.attempts[b]) {
        assert ScanOk(s, s.attempts[b]);
      }
      forall i | 0 <= i < |s'.passed| ensures KeyOutlivesToken(s', s'.passed[i]) {
        if i < |s.passed| {
          assert KeyOutlivesToken(s, s.passed[i]);
        }
      }
    }
  }

  lemma StepKeepsNonces(p: Platform, s: State, a: Action)
    requires NoncesOk(s) && Prompt(s, a)
    ensures NoncesOk(Step(p, s, a))
  {
    match a
    case Tick(seconds) => TickKeepsNonces(s, seconds);
    case GenerateQr(id, nonce) => GenerateKeepsNonces(s, id, nonce);
    case Scan(x, nonce, photo) => ScanKeepsNonces(s, x, nonce, photo);
    case CheckFreshness(x) => FreshKeepsNonces(s, x);
    case ReserveNonce(x) => ReserveKeepsNonces(s, x);
    case _ => OtherStepKeepsNonces(p, s, a);
  }

  predicate PastReplay(a: Action) {
    || a.ReadTicket? || a.CheckOwnership? || a.CompareFace? || a.FindMinted? || a.FindPaid?
    || a.MarkUsed? || a.WriteLog? || a.Crash?
  }

  lemma GateStepIsBeyond(s: State, a: Action)
    requires PastReplay(a)
    ensures BeyondReplay(s, GateStep(s, a))
  {
    match a
    case ReadTicket(x) => ReadIsBeyond(s, x);
    case CheckOwnership(x, rpcOk) => OwnershipIsBeyond(s, x, rpcOk);
    case CompareFace(x, outcome) => FaceIsBeyond(s, x, outcome);
    case MarkUsed(x) => MarkIsBeyond(s, x);
    case WriteLog(x, stored) => LogIsBeyond(s, x, stored);
    case Crash(x) => CrashIsBeyond(s, x);
    case _ => FindIsBeyond(s, a);
  }

  lemma OtherStepKeepsNonces(p: Platform, s: State, a: Action)
    requires NoncesOk(s) && (IsTicketing(a) || PastReplay(a))
    ensures NoncesOk(Step(p, s, a))
  {
    if IsTicketing(a) {
      TicketingIsBeyond(p, s, a);
      BeyondReplayKeeps(s, TicketStep(p, s, a));
    } else {
      GateStepIsBeyond(s, a);
      BeyondReplayKeeps(s, GateStep(s, a));
    }
  }

  // ---------------------------------------------------------------- whole runs

  ghost predicate PromptRun(p: Platform, actions: seq<Action>) {
    forall i :: 0 <= i < |actions| ==> Prompt(Run(p, Initial(p), actions[..i]), actions[i])
  }

  lemma {:induction false} PromptRunKeepsNonces(p: Platform, actions: seq<Action>)
    requires PromptRun(p, actions)
    ensures NoncesOk(Run(p, Initial(p), actions))
  {
    if actions != [] {
      var n := |actions| - 1;
      assert Prompt(Run(p, Initial(p), actions[..n]), actions[n]);
      forall i | 0 <= i < n ensures Prompt(Run(p, Initial(p), actions[..n][..i]), actions[..n][i]) {
        assert actions[..n][..i] == actions[..i];
      }
      PromptRunKeepsNonces(p, actions[..n]);
      StepKeepsNonces(p, Run(p, Initial(p), actions[..n]), actions[n]);
    }
  }

  /** If every attempt takes less than 60 s from freshness check to SET NX, no nonce passes the replay step twice. */
  lemma NonceNeverPassesTwice(p: Platform, actions: seq<Action>, i: nat, j: nat)
    requires PromptRun(p, actions)
    requires var s := Run(p, Initial(p), actions); i < j < |s.passed|
    ensures var s := Run(p, Initial(p), actions); s.passed[i] != s.passed[j]
  {
    PromptRunKeepsNonces(p, actions);
  }

  // ---------------------------------------------------------------- exactly when a nonce repeats

  /** SET NX on a nonce that has passed before and whose key has expired. */
  predicate Repeats(s: State, a: Action) {
    && PassesReplay(s, a)
    && s.attempts[a.attempt].payload.nonce in s.passed
  }

  predicate PassesReplay(s: State, a: Action) {
    && a.ReserveNonce? && a.attempt in s.attempts && s.attempts[a.attempt].Fresh?
    && !KeyLive(s, s.attempts[a.attempt].payload.nonce)
  }

  ghost predicate RepeatsAt(p: Platform, actions: seq<Action>, i: nat)
    requires i < |actions|
  {
    Repeats(Run(p, Initial(p), actions[..i]), actions[i])
  }

  ghost predicate HasRepetition(passed: seq<string>) {
    exists i, j :: 0 <= i < j < |passed| && passed[i] == passed[j]
  }

  lemma RepetitionGrows(passed: seq<string>, nonce: string)
    ensures HasRepetition(passed + [nonce]) <==> HasRepetition(passed) || nonce in passed
  {
    var longer := passed + [nonce];
    if HasRepetition(passed) {
      var i, j :| 0 <= i < j < |passed| && passed[i] == passed[j];
      assert longer[i] == longer[j];
    }
    if nonce in passed {
      var i :| 0 <= i < |passed| && passed[i] == nonce;
      assert longer[i] == longer[|passed|];
    }
  }

  lemma OnlyReserveNoncePasses(p: Platform, s: State, a: Action)
    requires !a.ReserveNonce?
    ensures Step(p, s, a).passed == s.passed
  {
    if IsTicketing(a) {
      TicketingIsBeyond(p, s, a);
    } else if PastReplay(a) {
      GateStepIsBeyond(s, a);
    }
  }

  lemma StepPasses(p: Platform, s: State, a: Action)
    ensures Step(p, s, a).passed ==
      if PassesReplay(s, a) then s.passed + [s.attempts[a.attempt].payload.nonce] else s.passed
  {
    if a.ReserveNonce? {
      assert Step(p, s, a) == ReserveStep(s, a.attempt);
    } else {
      OnlyReserveNoncePasses(p, s, a);
    }
  }

  /** Over any run, prompt or not: some nonce passes the replay step twice exactly when somewhere in the run SET NX
      meets a nonce that has passed and whose key is no longer there. */
  lemma {:induction false} NoncePassesTwiceIff(p: Platform, actions: seq<Action>)
    ensures HasRepetition(Run(p, Initial(p), actions).passed) <==>
      exists i :: 0 <= i < |actions| && RepeatsAt(p, actions, i)
  {
    if actions != [] {
      var n := |actions| - 1;
      var s := Run(p, Initial(p), actions[..n]);
      NoncePassesTwiceIff(p, actions[..n]);
      StepPasses(p, s, actions[n]);
      if PassesReplay(s, actions[n]) {
        RepetitionGrows(s.passed, s.attempts[actions[n].attempt].payload.nonce);
      }
      RepeatsExtends(p, actions);
    }
  }

  lemma RepeatsExtends(p: Platform, actions: seq<Action>)
    requires actions != []
    ensures var n := |actions| - 1;
      (exists i :: 0 <= i < |actions| && RepeatsAt(p, actions, i)) <==>
        (exists i :: 0 <= i < n && RepeatsAt(p, actions[..n], i)) || RepeatsAt(p, actions, n)
  {
    var n := |actions| - 1;
    forall i | 0 <= i < n ensures RepeatsAt(p, actions[..n], i) == RepeatsAt(p, actions, i) {
      assert actions[..n][..i] == actions[..i];
    }
  }

  // ---------------------------------------------------------------- the bound is exact

  /** Two scans of one token, which is parsed in its 59th second and checked in its 60th; the second attempt then
      takes `delay` seconds to reach SET NX. */
  function SlowRun(delay: nat): seq<Action> {
    [ Preauthorize("t", "e", "u", 1, "BT"), GenerateQr("t", "n"), Scan(1, "n", false), CheckFreshness(1),
      ReserveNonce(1), Tick(59), Scan(2, "n", false), Tick(1), CheckFreshness(2), Tick(delay), ReserveNonce(2) ]
  }

  lemma SlowRunStart(p: Platform, delay: nat)
    ensures var s := Run(p, Initial(p), SlowRun(delay)[..2]); var q := QrPayload("t", "n", 0);
      && s.issued == map["n" := q] && s.attempts == map[] && s.clock == 0 && s.nonces == map[] && s.passed == []
  {
    var acts := SlowRun(delay);
    assert acts[..0] == [];
    RunNext(p, acts, 0);
    RunNext(p, acts, 1);
  }

  lemma SlowRunFirstScan(p: Platform, delay: nat)
    ensures var s := Run(p, Initial(p), SlowRun(delay)[..3]); var q := QrPayload("t", "n", 0);
      && s.issued == map["n" := q] && s.attempts == map[1 := Scanned(q, false)]
      && s.clock == 0 && s.nonces == map[] && s.passed == []
  {
    var s := Run(p, Initial(p), SlowRun(delay)[..2]);
    SlowRunStart(p, delay);
    RunNext(p, SlowRun(delay), 2);
    assert Step(p, s, Scan(1, "n", false)) == ScanStep(s, 1, "n", false);
  }

  lemma SlowRunFirstCheck(p: Platform, delay: nat)
    ensures var s := Run(p, Initial(p), SlowRun(delay)[..4]); var q := QrPayload("t", "n", 0);
      && s.issued == map["n" := q] && s.attempts == map[1 := Fresh(q, false, 0)]
      && s.clock == 0 && s.nonces == map[] && s.passed == []
  {
    var s := Run(p, Initial(p), SlowRun(delay)[..3]);
    SlowRunFirstScan(p, delay);
    RunNext(p, SlowRun(delay), 3);
    assert Step(p, s, CheckFreshness(1)) == FreshStep(s, 1);
  }

  lemma SlowRunFirstPass(p: Platform, delay: nat)
    ensures var s := Run(p, Initial(p), SlowRun(delay)[..5]); var q := QrPayload("t", "n", 0);
      && s.issued == map["n" := q] && s.attempts == map[1 := Reserved(q, false)]
      && s.clock == 0 && s.nonces == map["n" := 120] && s.passed == ["n"]
  {
    var s := Run(p, Initial(p), SlowRun(delay)[..4]);
    SlowRunFirstCheck(p, delay);
    RunNext(p, SlowRun(delay), 4);
    assert Step(p, s, ReserveNonce(1)) == ReserveStep(s, 1);
  }

  lemma SlowRunSecondScan(p: Platform, delay: nat)
    ensures var s := Run(p, Initial(p), SlowRun(delay)[..7]); var q := QrPayload("t", "n", 0);
      && s.attempts == map[1 := Reserved(q, false), 2 := Scanned(q, false)]
      && s.clock == 59 && s.nonces == map["n" := 120] && s.passed == ["n"]
  {
    SlowRunFirstPass(p, delay);
    RunNext(p, SlowRun(delay), 5);
    RunNext(p, SlowRun(delay), 6);
    var s := Run(p, Initial(p), SlowRun(delay)[..6]);
    assert s.clock == 59;
    assert Step(p, s, Scan(2, "n", false)) == ScanStep(s, 2, "n", false);
  }

  lemma SlowRunSecondCheck(p: Platform, delay: nat)
    ensures var s := Run(p, Initial(p), SlowRun(delay)[..9]); var q := QrPayload("t", "n", 0);
      && s.attempts == map[1 := Reserved(q, false), 2 := Fresh(q, false, 60)]
      && s.clock == 60 && s.nonces == map["n" := 120] && s.passed == ["n"]
  {
    SlowRunSecondScan(p, delay);
    RunNext(p, SlowRun(delay), 7);
    RunNext(p, SlowRun(delay), 8);
    var s := Run(p, Initial(p), SlowRun(delay)[..8]);
    assert s.clock == 60;
    assert Step(p, s, CheckFreshness(2)) == FreshStep(s, 2);
  }

  /** Any delay of 60 s or more lets the same nonce pass twice: the key expires before the second attempt sets it. */
  lemma SlowAttemptPassesTwice(p: Platform, delay: nat)
    requires delay >= QR_TTL_SECONDS
    ensures Run(p, Initial(p), SlowRun(delay)).passed == ["n", "n"]
  {
    SlowRunSecondCheck(p, delay);
    RunNext(p, SlowRun(delay), 9);
    RunNext(p, SlowRun(delay), 10);
    var s := Run(p, Initial(p), SlowRun(delay)[..10]);
    assert s.clock == 60 + delay;
    assert Step(p, s, ReserveNonce(2)) == ReserveStep(s, 2);
    assert SlowRun(delay)[..11] == SlowRun(delay);
  }
}
