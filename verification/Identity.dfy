/** Identity checks: four layers inside a database transaction, and a face registry that does not roll back. */
module Identity {
  import opened Options

  datatype KycStatus = PENDING | ID_VERIFIED | LIVENESS_PASSED | FACE_MATCHED | APPROVED | REJECTED

  datatype Row = Row(
    personIdHash: Option<string>,
    kycStatus: KycStatus,
    faceEmbeddingRef: Option<string>,
    aaWalletAddress: Option<string>,
    kycAttestationTxHash: Option<string>)

  const NEW_ROW := Row(None, PENDING, None, None, None)

  datatype Face = Face(subject: string, image: string)

  /** `sha256` hashes documents; two images match when their similarity reaches the threshold. */
  datatype Services = Services(sha256: string -> string, similarity: (string, string) -> real, threshold: real)

  /** `erased` is history: the persons whose faces a deletion took away without removing the row, and who have
      registered none since. */
  datatype State = State(persons: map<string, Row>, registry: seq<Face>, erased: set<string>)

  datatype Submission = Submission(
    userId: Option<string>,
    newId: string,
    idCardImage: string,
    selfieImage: string,
    consent: bool,
    authUserId: Option<string>)

  datatype Check = Passed | NotPassed | Broken

  /** `AddedUnheard`: the registry stored the face, and the answer got lost. */
  datatype Adding = Added | NotAdded | AddedUnheard

  datatype Chain = Minted(wallet: string, txHash: string) | ChainFailed | WalletNotSaved

  /** How the outside world answers one submission: the layers, the chain, and the database. */
  datatype Answers = Answers(
    liveness: Check,
    comparison: Check,
    recognitionOk: bool,
    adding: Adding,
    chain: Chain,
    insertOk: bool,
    saveOk: bool,
    linkOk: bool,
    commitOk: bool)

  /** How it answers one deletion: whether the registry dropped the faces, whether it replied, whether the row went. */
  datatype Erasure = Erasure(facesErased: bool, replied: bool, rowRemoved: bool)

  datatype Reply = Status(status: KycStatus) | BadRequest | NotFound | ServerError | Deleted

  datatype Action =
    | Submit(submission: Submission, answers: Answers)
    | Delete(userId: string, erasure: Erasure)

  // ---------------------------------------------------------------- images

  function IndexOfComma(s: string): (k: nat)
    ensures k <= |s|
    ensures k < |s| ==> s[k] == ','
    ensures forall i :: 0 <= i < k ==> s[i] != ','
  {
    if s == "" || s[0] == ',' then 0 else IndexOfComma(s[1..]) + 1
  }

  function StripDataUrlPrefix(image: string): string {
    if IndexOfComma(image) < |image| && "data:" <= image then image[IndexOfComma(image) + 1..] else image
  }

  /** The prefix of a data URL makes no difference to what is hashed and compared. */
  lemma PrefixIsStripped(mediaType: string, image: string)
    requires ',' !in mediaType && ',' !in image
    ensures StripDataUrlPrefix("data:" + mediaType + "," + image) == image == StripDataUrlPrefix(image)
  {
    var url, comma := "data:" + mediaType + "," + image, 5 + |mediaType|;
    forall i | 0 <= i < comma ensures url[i] != ',' {
      assert i >= 5 ==> url[i] == mediaType[i - 5] && mediaType[i - 5] in mediaType;
    }
    assert url[comma] == ',' && url[comma + 1..] == image;
    assert forall i :: 0 <= i < |image| ==> image[i] in image;
  }

  // ---------------------------------------------------------------- one submission

  /** Best-match recognition: the collection holds a face that reaches the threshold. */
  predicate Known(v: Services, registry: seq<Face>, selfie: string) {
    exists i :: 0 <= i < |registry| && v.similarity(selfie, registry[i].image) >= v.threshold
  }

  predicate HeldByAnother(persons: map<string, Row>, idHash: string, id: string) {
    exists other :: other in persons && other != id && persons[other].personIdHash == Some(idHash)
  }

  /** What the four layers make of the person, or that one of them broke; and the registry as they leave it. */
  datatype Judgement = Judged(row: Row, registry: seq<Face>) | Aborted(registry: seq<Face>)

  function Judge(v: Services, s: State, id: string, row: Row, idCard: string, selfie: string, w: Answers): Judgement {
    var idHash := v.sha256(idCard);
    var hashed := row.(personIdHash := Some(idHash));
    if HeldByAnother(s.persons, idHash, id) then Judged(row.(kycStatus := REJECTED), s.registry)
    else if w.liveness.Broken? then Aborted(s.registry)
    else if w.liveness.NotPassed? then Judged(hashed.(kycStatus := REJECTED), s.registry)
    else if w.comparison.Broken? then Aborted(s.registry)
    else if w.comparison.NotPassed? then Judged(hashed.(kycStatus := REJECTED), s.registry)
    else if !w.recognitionOk then Aborted(s.registry)
    else if Known(v, s.registry, selfie) then Judged(hashed.(kycStatus := REJECTED), s.registry)
    else match w.adding
      case NotAdded => Aborted(s.registry)
      case AddedUnheard => Aborted(s.registry + [Face(id, selfie)])
      case Added => Judged(hashed.(kycStatus := APPROVED, faceEmbeddingRef := Some(id)), s.registry + [Face(id, selfie)])
  }

  /** The row that reaches the commit, if the transaction gets that far: a failed save or link rolls it back,
      and so does a wallet that could not be saved, because it leaves the transaction aborted. */
  function Committed(row: Row, sub: Submission, w: Answers): Option<Row> {
    if !w.saveOk || !w.commitOk then None
    else if row.kycStatus != APPROVED then Some(row)
    else if w.chain.WalletNotSaved? || (Truthy(sub.authUserId) && !w.linkOk) then None
    else if w.chain.Minted? then
      Some(row.(aaWalletAddress := Some(w.chain.wallet), kycAttestationTxHash := Some(w.chain.txHash)))
    else Some(row)
  }

  predicate Truthy(s: Option<string>) {
    s.Some? && s.value != ""
  }

  function Subject(sub: Submission): string {
    if Truthy(sub.userId) then sub.userId.value else sub.newId
  }

  predicate Starts(s: State, sub: Submission, w: Answers) {
    && sub.consent
    && if Truthy(sub.userId) then sub.userId.value in s.persons else sub.newId != "" && sub.newId !in s.persons && w.insertOk
  }

  function SubmitStep(v: Services, s: State, sub: Submission, w: Answers): State {
    if !Starts(s, sub, w) then s
    else
      var id := Subject(sub);
      var row := if Truthy(sub.userId) then s.persons[id] else NEW_ROW;
      var j := Judge(v, s, id, row, StripDataUrlPrefix(sub.idCardImage), StripDataUrlPrefix(sub.selfieImage), w);
      var erased := if j.registry == s.registry then s.erased else s.erased - {id};
      if j.Aborted? || Committed(j.row, sub, w).None? then State(s.persons, j.registry, erased)
      else State(s.persons[id := Committed(j.row, sub, w).value], j.registry, erased)
  }

  // ---------------------------------------------------------------- one deletion

  function WithoutSubject(registry: seq<Face>, subject: string): (r: seq<Face>)
    ensures forall f :: f in r <==> f in registry && f.subject != subject
  {
    if registry == [] then []
    else if registry[0].subject == subject then WithoutSubject(registry[1..], subject)
    else [registry[0]] + WithoutSubject(registry[1..], subject)
  }

  /** Without a reply the call throws; a reply that reports a failure is only logged. */
  function DeleteStep(s: State, id: string, e: Erasure): State {
    if id !in s.persons then s
    else
      var faced := Truthy(s.persons[id].faceEmbeddingRef);
      var registry :=
        if faced && e.facesErased then WithoutSubject(s.registry, s.persons[id].faceEmbeddingRef.value) else s.registry;
      if (faced && !e.replied) || !e.rowRemoved then
        State(s.persons, registry, if faced && e.facesErased then s.erased + {id} else s.erased)
      else State(s.persons - {id}, registry, s.erased)
  }

  function Step(v: Services, s: State, a: Action): State {
    match a
    case Submit(sub, w) => SubmitStep(v, s, sub, w)
    case Delete(id, e) => DeleteStep(s, id, e)
  }

  function Run(v: Services, s: State, actions: seq<Action>): State {
    if actions == [] then s else Step(v, Run(v, s, actions[..|actions| - 1]), actions[|actions| - 1])
  }

  const EMPTY := State(map[], [], {})

  const ALL_PASS := Answers(Passed, Passed, true, Added, ChainFailed, true, true, true, true)

  // ---------------------------------------------------------------- what every run keeps

  ghost predicate UniqueHashes(persons: map<string, Row>) {
    forall p, q :: p in persons && q in persons && p != q && persons[p].personIdHash.Some? ==>
      persons[p].personIdHash != persons[q].personIdHash
  }

  /** Only final verdicts are committed, and a reference names its owner; an approval has a document and a reference. */
  ghost predicate RowOk(id: string, row: Row) {
    && (row.kycStatus == APPROVED || row.kycStatus == REJECTED)
    && (Truthy(row.faceEmbeddingRef) ==> row.faceEmbeddingRef == Some(id))
    && (row.kycStatus == APPROVED ==> row.personIdHash.Some? && row.faceEmbeddingRef == Some(id))
  }

  ghost predicate RowsOk(persons: map<string, Row>) {
    forall id :: id in persons ==> RowOk(id, persons[id])
  }

  ghost predicate Apart(v: Services, registry: seq<Face>) {
    forall i, j :: 0 <= i < |registry| && 0 <= j < |registry| && i != j ==>
      v.similarity(registry[i].image, registry[j].image) < v.threshold
  }

  ghost predicate HasFace(registry: seq<Face>, id: string) {
    exists f :: f in registry && f.subject == id
  }

  /** An approved person has a face under their id exactly when no interrupted deletion took it away. */
  ghost predicate FacesOk(s: State) {
    forall id :: id in s.persons && s.persons[id].kycStatus == APPROVED ==> (HasFace(s.registry, id) <==> id !in s.erased)
  }

  ghost predicate Inv(v: Services, s: State) {
    "" !in s.persons && UniqueHashes(s.persons) && RowsOk(s.persons) && Apart(v, s.registry) && FacesOk(s)
  }

  ghost predicate Symmetric(v: Services) {
    forall x, y :: v.similarity(x, y) == v.similarity(y, x)
  }

  // ---------------------------------------------------------------- a submission keeps it

  lemma RowKeepsHashesUnique(persons: map<string, Row>, id: string, row: Row)
    requires UniqueHashes(persons)
    requires row.personIdHash.Some? ==> !HeldByAnother(persons, row.personIdHash.value, id)
    ensures UniqueHashes(persons[id := row])
  {
    var after := persons[id := row];
    forall p, q | p in after && q in after && p != q && after[p].personIdHash.Some?
      ensures after[p].personIdHash != after[q].personIdHash
    {
    }
  }

  /** A judged row takes no document from anybody else and states a final verdict. */
  lemma JudgedRow(v: Services, s: State, id: string, row: Row, idCard: string, selfie: string, w: Answers)
    requires UniqueHashes(s.persons)
    requires if id in s.persons then row == s.persons[id] && RowOk(id, row) else row == NEW_ROW
    requires Judge(v, s, id, row, idCard, selfie, w).Judged?
    ensures var r := Judge(v, s, id, row, idCard, selfie, w).row;
      RowOk(id, r) && (r.personIdHash.Some? ==> !HeldByAnother(s.persons, r.personIdHash.value, id))
  {
  }

  lemma AddedFaceKeepsApart(v: Services, registry: seq<Face>, f: Face)
    requires Symmetric(v) && Apart(v, registry) && !Known(v, registry, f.image)
    ensures Apart(v, registry + [f])
  {
    var more := registry + [f];
    forall i, j | 0 <= i < |more| && 0 <= j < |more| && i != j
      ensures v.similarity(more[i].image, more[j].image) < v.threshold
    {
      assert v.similarity(more[i].image, more[j].image) == v.similarity(more[j].image, more[i].image);
    }
  }

  /** The registry gains at most the selfie, under the person's id, and an approval means that it did. */
  lemma JudgedRegistry(v: Services, s: State, id: string, row: Row, idCard: string, selfie: string, w: Answers)
    requires Symmetric(v) && Apart(v, s.registry)
    ensures var j := Judge(v, s, id, row, idCard, selfie, w);
      && Apart(v, j.registry)
      && (j.registry == s.registry || j.registry == s.registry + [Face(id, selfie)])
      && (j.Judged? && j.row.kycStatus == APPROVED ==> j.registry == s.registry + [Face(id, selfie)])
  {
    if !Known(v, s.registry, selfie) {
      AddedFaceKeepsApart(v, s.registry, Face(id, selfie));
    }
  }

  lemma HasFaceExtends(registry: seq<Face>, f: Face, id: string)
    ensures HasFace(registry + [f], id) <==> HasFace(registry, id) || f.subject == id
  {
    if f.subject == id {
      assert (registry + [f])[|registry|] == f;
    }
    if HasFace(registry, id) {
      var g :| g in registry && g.subject == id;
      assert g in registry + [f];
    }
  }

  lemma SubmitKeepsInv(v: Services, s: State, sub: Submission, w: Answers)
    requires Symmetric(v) && Inv(v, s)
    ensures Inv(v, SubmitStep(v, s, sub, w))
  {
    if Starts(s, sub, w) {
      var id, s' := Subject(sub), SubmitStep(v, s, sub, w);
      var row := if Truthy(sub.userId) then s.persons[id] else NEW_ROW;
      var idCard, selfie := StripDataUrlPrefix(sub.idCardImage), StripDataUrlPrefix(sub.selfieImage);
      var j := Judge(v, s, id, row, idCard, selfie, w);
      JudgedRegistry(v, s, id, row, idCard, selfie, w);
      if j.Judged? && Committed(j.row, sub, w).Some? {
        JudgedRow(v, s, id, row, idCard, selfie, w);
        RowKeepsHashesUnique(s.persons, id, Committed(j.row, sub, w).value);
      }
      forall p | p in s'.persons && s'.persons[p].kycStatus == APPROVED
        ensures HasFace(s'.registry, p) <==> p !in s'.erased
      {
        HasFaceExtends(s.registry, Face(id, selfie), p);
      }
    }
  }

  lemma ErasedFaces(registry: seq<Face>, subject: string, id: string)
    ensures HasFace(WithoutSubject(registry, subject), id) <==> HasFace(registry, id) && id != subject
  {
  }

  lemma KeptWasRegistered(registry: seq<Face>, subject: string, j: nat) returns (k: nat)
    requires j < |WithoutSubject(registry, subject)|
    ensures k < |registry| && registry[k] == WithoutSubject(registry, subject)[j]
  {
    var f := WithoutSubject(registry, subject)[j];
    assert f in WithoutSubject(registry, subject);
    k :| 0 <= k < |registry| && registry[k] == f;
  }

  /** The first face is unlike every face kept from the rest. */
  lemma FirstStaysApart(v: Services, registry: seq<Face>, subject: string, j: nat)
    requires registry != [] && Apart(v, registry) && j < |WithoutSubject(registry[1..], subject)|
    ensures var g := WithoutSubject(registry[1..], subject)[j];
      v.similarity(registry[0].image, g.image) < v.threshold && v.similarity(g.image, registry[0].image) < v.threshold
  {
    var k := KeptWasRegistered(registry[1..], subject, j);
    assert registry[k + 1] == registry[1..][k];
  }

  lemma ConsKeepsApart(v: Services, f: Face, rest: seq<Face>)
    requires Apart(v, rest)
    requires forall j :: 0 <= j < |rest| ==>
      v.similarity(f.image, rest[j].image) < v.threshold && v.similarity(rest[j].image, f.image) < v.threshold
    ensures Apart(v, [f] + rest)
  {
  }

  lemma {:induction false} ErasingKeepsApart(v: Services, registry: seq<Face>, subject: string)
    requires Apart(v, registry)
    ensures Apart(v, WithoutSubject(registry, subject))
  {
    if registry != [] {
      var kept := WithoutSubject(registry[1..], subject);
      TailStaysApart(v, registry);
      ErasingKeepsApart(v, registry[1..], subject);
      if registry[0].subject != subject {
        forall j | 0 <= j < |kept|
          ensures v.similarity(registry[0].image, kept[j].image) < v.threshold
          ensures v.similarity(kept[j].image, registry[0].image) < v.threshold
        {
          FirstStaysApart(v, registry, subject, j);
        }
        ConsKeepsApart(v, registry[0], kept);
      }
    }
  }

  lemma TailStaysApart(v: Services, registry: seq<Face>)
    requires registry != [] && Apart(v, registry)
    ensures Apart(v, registry[1..])
  {
    var rest := registry[1..];
    forall i, j | 0 <= i < |rest| && 0 <= j < |rest| && i != j
      ensures v.similarity(rest[i].image, rest[j].image) < v.threshold
    {
      assert rest[i] == registry[i + 1] && rest[j] == registry[j + 1];
    }
  }

  lemma DeleteKeepsInv(v: Services, s: State, id: string, e: Erasure)
    requires Inv(v, s)
    ensures Inv(v, DeleteStep(s, id, e))
  {
    if id in s.persons {
      var s' := DeleteStep(s, id, e);
      assert RowOk(id, s.persons[id]);
      ErasingKeepsApart(v, s.registry, id);
      forall p | p in s'.persons && s'.persons[p].kycStatus == APPROVED
        ensures HasFace(s'.registry, p) <==> p !in s'.erased
      {
        ErasedFaces(s.registry, id, p);
      }
    }
  }

  // ---------------------------------------------------------------- whole runs

  lemma {:induction false} RunKeepsInv(v: Services, actions: seq<Action>)
    requires Symmetric(v)
    ensures Inv(v, Run(v, EMPTY, actions))
  {
    if actions != [] {
      var before := Run(v, EMPTY, actions[..|actions| - 1]);
      RunKeepsInv(v, actions[..|actions| - 1]);
      match actions[|actions| - 1] {
        case Submit(sub, w) => SubmitKeepsInv(v, before, sub, w);
        case Delete(id, e) => DeleteKeepsInv(v, before, id, e);
      }
    }
  }

  // ---------------------------------------------------------------- which faces were taken and not replaced

  /** A submission that gets as far as the registry and has its face stored there, heard or unheard. */
  predicate StoresFace(v: Services, s: State, sub: Submission, w: Answers) {
    && Starts(s, sub, w)
    && !HeldByAnother(s.persons, v.sha256(StripDataUrlPrefix(sub.idCardImage)), Subject(sub))
    && w.liveness.Passed? && w.comparison.Passed?
    && w.recognitionOk && !Known(v, s.registry, StripDataUrlPrefix(sub.selfieImage)) && !w.adding.NotAdded?
  }

  predicate AddsFace(v: Services, s: State, a: Action, id: string) {
    a.Submit? && Subject(a.submission) == id && StoresFace(v, s, a.submission, a.answers)
  }

  /** A deletion that has the person's faces erased and then does not remove the row. */
  predicate TakesFace(s: State, a: Action, id: string) {
    && a.Delete? && a.userId == id && id in s.persons && Truthy(s.persons[id].faceEmbeddingRef)
    && a.erasure.facesErased && !(a.erasure.replied && a.erasure.rowRemoved)
  }

  ghost predicate AddsFaceAt(v: Services, actions: seq<Action>, i: nat, id: string)
    requires i < |actions|
  {
    AddsFace(v, Run(v, EMPTY, actions[..i]), actions[i], id)
  }

  ghost predicate TakesFaceAt(v: Services, actions: seq<Action>, i: nat, id: string)
    requires i < |actions|
  {
    TakesFace(Run(v, EMPTY, actions[..i]), actions[i], id)
  }

  /** From operation i on, no submission of the person has a face stored. */
  ghost predicate NoFaceAddedSince(v: Services, actions: seq<Action>, i: nat, id: string) {
    forall j :: i < j < |actions| ==> !AddsFaceAt(v, actions, j, id)
  }

  /** An interrupted deletion took the person's faces, and no submission since then has had one stored. */
  ghost predicate FaceTaken(v: Services, actions: seq<Action>, id: string) {
    exists i :: 0 <= i < |actions| && TakesFaceAt(v, actions, i, id) && NoFaceAddedSince(v, actions, i, id)
  }

  lemma SubmissionErases(v: Services, s: State, sub: Submission, w: Answers, id: string)
    ensures id in SubmitStep(v, s, sub, w).erased <==>
      id in s.erased && !(Subject(sub) == id && StoresFace(v, s, sub, w))
  {
  }

  lemma DeletionErases(s: State, userId: string, e: Erasure, id: string)
    ensures id in DeleteStep(s, userId, e).erased <==> id in s.erased || TakesFace(s, Delete(userId, e), id)
  {
  }

  lemma StepErases(v: Services, s: State, a: Action, id: string)
    ensures id in Step(v, s, a).erased <==> TakesFace(s, a, id) || (id in s.erased && !AddsFace(v, s, a, id))
  {
    match a
    case Submit(sub, w) => SubmissionErases(v, s, sub, w, id);
    case Delete(userId, e) => DeletionErases(s, userId, e, id);
  }

  lemma SamePrefix(v: Services, actions: seq<Action>, i: nat, id: string)
    requires i < |actions| - 1
    ensures AddsFaceAt(v, actions[..|actions| - 1], i, id) == AddsFaceAt(v, actions, i, id)
    ensures TakesFaceAt(v, actions[..|actions| - 1], i, id) == TakesFaceAt(v, actions, i, id)
  {
    assert actions[..|actions| - 1][..i] == actions[..i];
  }

  lemma NoFaceAddedBefore(v: Services, actions: seq<Action>, i: nat, id: string)
    requires i < |actions| - 1 && NoFaceAddedSince(v, actions, i, id)
    ensures NoFaceAddedSince(v, actions[..|actions| - 1], i, id) && !AddsFaceAt(v, actions, |actions| - 1, id)
  {
    var before := actions[..|actions| - 1];
    forall j | i < j < |before| ensures !AddsFaceAt(v, before, j, id) {
      SamePrefix(v, actions, j, id);
    }
  }

  lemma NoFaceAddedAfter(v: Services, actions: seq<Action>, i: nat, id: string)
    requires i < |actions| - 1
    requires NoFaceAddedSince(v, actions[..|actions| - 1], i, id) && !AddsFaceAt(v, actions, |actions| - 1, id)
    ensures NoFaceAddedSince(v, actions, i, id)
  {
    forall j | i < j < |actions| ensures !AddsFaceAt(v, actions, j, id) {
      if j < |actions| - 1 {
        SamePrefix(v, actions, j, id);
      }
    }
  }

  lemma NoFaceAddedExtends(v: Services, actions: seq<Action>, i: nat, id: string)
    requires i < |actions| - 1
    ensures var n := |actions| - 1;
      NoFaceAddedSince(v, actions, i, id) <==>
        NoFaceAddedSince(v, actions[..n], i, id) && !AddsFaceAt(v, actions, n, id)
  {
    if NoFaceAddedSince(v, actions, i, id) {
      NoFaceAddedBefore(v, actions, i, id);
    } else if NoFaceAddedSince(v, actions[..|actions| - 1], i, id) && !AddsFaceAt(v, actions, |actions| - 1, id) {
      NoFaceAddedAfter(v, actions, i, id);
    }
  }

  lemma FaceTakenExtends(v: Services, actions: seq<Action>, id: string)
    requires actions != []
    ensures var n := |actions| - 1;
      FaceTaken(v, actions, id) <==>
        TakesFaceAt(v, actions, n, id) || (FaceTaken(v, actions[..n], id) && !AddsFaceAt(v, actions, n, id))
  {
    var n := |actions| - 1;
    forall i | 0 <= i < n
      ensures TakesFaceAt(v, actions[..n], i, id) == TakesFaceAt(v, actions, i, id)
      ensures NoFaceAddedSince(v, actions, i, id) <==>
        NoFaceAddedSince(v, actions[..n], i, id) && !AddsFaceAt(v, actions, n, id)
    {
      SamePrefix(v, actions, i, id);
      NoFaceAddedExtends(v, actions, i, id);
    }
    assert NoFaceAddedSince(v, actions, n, id);
  }

  lemma {:induction false} ErasedIffFaceTaken(v: Services, actions: seq<Action>, id: string)
    ensures id in Run(v, EMPTY, actions).erased <==> FaceTaken(v, actions, id)
  {
    if actions != [] {
      var n := |actions| - 1;
      ErasedIffFaceTaken(v, actions[..n], id);
      StepErases(v, Run(v, EMPTY, actions[..n]), actions[n], id);
      FaceTakenExtends(v, actions, id);
    }
  }

  /**
    * Whatever the layers, the chain, the registry and the database answer: no two persons hold one
    * document, only APPROVED and REJECTED are ever committed, an approval has a document and a
    * reference under the person's own id, and the registered faces are pairwise different. An approved
    * person has a face in the registry exactly when no interrupted deletion took it.
    */
  lemma OnePersonOneIdentity(v: Services, actions: seq<Action>)
    requires Symmetric(v)
    ensures var s := Run(v, EMPTY, actions);
      && UniqueHashes(s.persons)
      && Apart(v, s.registry)
      && (forall id :: id in s.persons ==> s.persons[id].kycStatus == APPROVED || s.persons[id].kycStatus == REJECTED)
      && (forall id :: id in s.persons && s.persons[id].kycStatus == APPROVED ==>
            && s.persons[id].personIdHash.Some?
            && s.persons[id].faceEmbeddingRef == Some(id)
            && (HasFace(s.registry, id) <==> !FaceTaken(v, actions, id)))
  {
    RunKeepsInv(v, actions);
    var s := Run(v, EMPTY, actions);
    forall id | id in s.persons ensures RowOk(id, s.persons[id]) && (id in s.erased <==> FaceTaken(v, actions, id)) {
      ErasedIffFaceTaken(v, actions, id);
    }
  }

  /** Everything that has to go well for a submission to end in a committed approval. */
  predicate EveryLayerPasses(v: Services, s: State, sub: Submission, w: Answers) {
    && Starts(s, sub, w)
    && !HeldByAnother(s.persons, v.sha256(StripDataUrlPrefix(sub.idCardImage)), Subject(sub))
    && w.liveness.Passed? && w.comparison.Passed?
    && w.recognitionOk && !Known(v, s.registry, StripDataUrlPrefix(sub.selfieImage)) && w.adding.Added?
    && w.saveOk && w.commitOk && !w.chain.WalletNotSaved? && (Truthy(sub.authUserId) ==> w.linkOk)
  }

  /** A layer says no, no layer before it breaks, and the database keeps the verdict. */
  predicate LayerRejects(v: Services, s: State, sub: Submission, w: Answers) {
    && Starts(s, sub, w) && w.saveOk && w.commitOk
    && (HeldByAnother(s.persons, v.sha256(StripDataUrlPrefix(sub.idCardImage)), Subject(sub)) ||
        w.liveness.NotPassed? ||
        (w.liveness.Passed? && w.comparison.NotPassed?) ||
        (w.liveness.Passed? && w.comparison.Passed? && w.recognitionOk &&
         Known(v, s.registry, StripDataUrlPrefix(sub.selfieImage))))
  }

  lemma PassingApproves(v: Services, s: State, sub: Submission, w: Answers)
    requires EveryLayerPasses(v, s, sub, w)
    ensures var s', id := SubmitStep(v, s, sub, w), Subject(sub);
      && id in s'.persons && s'.persons[id].kycStatus == APPROVED
      && s'.persons[id].personIdHash == Some(v.sha256(StripDataUrlPrefix(sub.idCardImage)))
      && s'.registry == s.registry + [Face(id, StripDataUrlPrefix(sub.selfieImage))]
    ensures !LayerRejects(v, s, sub, w)
  {
  }

  lemma RejectingRejects(v: Services, s: State, sub: Submission, w: Answers)
    requires LayerRejects(v, s, sub, w)
    ensures var s', id := SubmitStep(v, s, sub, w), Subject(sub);
      id in s'.persons && s'.persons[id].kycStatus == REJECTED && s'.registry == s.registry
  {
  }

  lemma OtherwiseNothingCommits(v: Services, s: State, sub: Submission, w: Answers)
    requires !EveryLayerPasses(v, s, sub, w) && !LayerRejects(v, s, sub, w)
    ensures SubmitStep(v, s, sub, w).persons == s.persons
  {
  }

  /** For anyone, approved before or not: the person is approved afterwards exactly when every layer passes and
      the database keeps it, or when they were approved and no layer says no. A new approval has the submitted
      document's hash and registers the submitted face. */
  lemma ApprovalNeedsEveryLayer(v: Services, s: State, sub: Submission, w: Answers)
    ensures var s', id := SubmitStep(v, s, sub, w), Subject(sub);
      && (id in s'.persons && s'.persons[id].kycStatus == APPROVED <==>
           || EveryLayerPasses(v, s, sub, w)
           || (id in s.persons && s.persons[id].kycStatus == APPROVED && !LayerRejects(v, s, sub, w)))
      && (EveryLayerPasses(v, s, sub, w) ==>
           && s'.persons[id].personIdHash == Some(v.sha256(StripDataUrlPrefix(sub.idCardImage)))
           && s'.registry == s.registry + [Face(id, StripDataUrlPrefix(sub.selfieImage))])
      && (!EveryLayerPasses(v, s, sub, w) && !LayerRejects(v, s, sub, w) ==> s'.persons == s.persons)
  {
    if EveryLayerPasses(v, s, sub, w) {
      PassingApproves(v, s, sub, w);
    } else if LayerRejects(v, s, sub, w) {
      RejectingRejects(v, s, sub, w);
    } else {
      OtherwiseNothingCommits(v, s, sub, w);
    }
  }

  // ---------------------------------------------------------------- what a submission stores

  function RowBefore(s: State, sub: Submission): Row {
    if Truthy(sub.userId) && sub.userId.value in s.persons then s.persons[sub.userId.value] else NEW_ROW
  }

  /** An approval holds the document's hash and the person's own id as reference; wallet and attestation are those
      of the chain if it answered, and as before if not. */
  function ApprovedRow(v: Services, s: State, sub: Submission, w: Answers): Row {
    var before := RowBefore(s, sub);
    Row(Some(v.sha256(StripDataUrlPrefix(sub.idCardImage))), APPROVED, Some(Subject(sub)),
        if w.chain.Minted? then Some(w.chain.wallet) else before.aaWalletAddress,
        if w.chain.Minted? then Some(w.chain.txHash) else before.kycAttestationTxHash)
  }

  /** A rejection changes the status and, unless the document is somebody else's, the hash. */
  function RejectedRow(v: Services, s: State, sub: Submission): Row {
    var before, idHash := RowBefore(s, sub), v.sha256(StripDataUrlPrefix(sub.idCardImage));
    Row(if HeldByAnother(s.persons, idHash, Subject(sub)) then before.personIdHash else Some(idHash), REJECTED,
        before.faceEmbeddingRef, before.aaWalletAddress, before.kycAttestationTxHash)
  }

  /** Rows and faces after a submission, in its inputs alone. */
  ghost predicate Stored(v: Services, s: State, s': State, sub: Submission, w: Answers) {
    && s'.persons == (if EveryLayerPasses(v, s, sub, w) then s.persons[Subject(sub) := ApprovedRow(v, s, sub, w)]
                      else if LayerRejects(v, s, sub, w) then s.persons[Subject(sub) := RejectedRow(v, s, sub)]
                      else s.persons)
    && s'.registry == (if StoresFace(v, s, sub, w)
                       then s.registry + [Face(Subject(sub), StripDataUrlPrefix(sub.selfieImage))] else s.registry)
  }

  lemma ApprovalIsStored(v: Services, s: State, sub: Submission, w: Answers)
    requires EveryLayerPasses(v, s, sub, w)
    ensures SubmitStep(v, s, sub, w).persons == s.persons[Subject(sub) := ApprovedRow(v, s, sub, w)]
  {
  }

  lemma RejectionIsStored(v: Services, s: State, sub: Submission, w: Answers)
    requires LayerRejects(v, s, sub, w)
    ensures SubmitStep(v, s, sub, w).persons == s.persons[Subject(sub) := RejectedRow(v, s, sub)]
  {
  }

  lemma FaceIsStored(v: Services, s: State, sub: Submission, w: Answers)
    ensures SubmitStep(v, s, sub, w).registry ==
      if StoresFace(v, s, sub, w) then s.registry + [Face(Subject(sub), StripDataUrlPrefix(sub.selfieImage))] else s.registry
  {
  }

  lemma SubmissionStores(v: Services, s: State, sub: Submission, w: Answers)
    ensures Stored(v, s, SubmitStep(v, s, sub, w), sub, w)
  {
    FaceIsStored(v, s, sub, w);
    if EveryLayerPasses(v, s, sub, w) {
      ApprovalIsStored(v, s, sub, w);
    } else if LayerRejects(v, s, sub, w) {
      RejectionIsStored(v, s, sub, w);
    } else {
      OtherwiseNothingCommits(v, s, sub, w);
    }
  }

  // ---------------------------------------------------------------- the one way an answer is not kept

  /** The caller is told APPROVED: every layer passes and nothing throws. A wallet that cannot be saved is swallowed,
      and the link of the auth user is the only statement after it that would notice. */
  predicate AnsweredApproved(v: Services, s: State, sub: Submission, w: Answers) {
    && Starts(s, sub, w)
    && !HeldByAnother(s.persons, v.sha256(StripDataUrlPrefix(sub.idCardImage)), Subject(sub))
    && w.liveness.Passed? && w.comparison.Passed?
    && w.recognitionOk && !Known(v, s.registry, StripDataUrlPrefix(sub.selfieImage)) && w.adding.Added?
    && w.saveOk && w.commitOk && (Truthy(sub.authUserId) ==> !w.chain.WalletNotSaved? && w.linkOk)
  }

  /** An answer APPROVED is kept exactly when the wallet was not left unsaved; if it is not kept no row changes,
      and the face is registered all the same. */
  lemma AnswerKeptIff(v: Services, s: State, sub: Submission, w: Answers)
    requires AnsweredApproved(v, s, sub, w)
    ensures EveryLayerPasses(v, s, sub, w) <==> !w.chain.WalletNotSaved?
    ensures !w.chain.WalletNotSaved? ==>
      Subject(sub) in SubmitStep(v, s, sub, w).persons &&
      SubmitStep(v, s, sub, w).persons[Subject(sub)].kycStatus == APPROVED
    ensures w.chain.WalletNotSaved? ==> SubmitStep(v, s, sub, w).persons == s.persons
    ensures SubmitStep(v, s, sub, w).registry == s.registry + [Face(Subject(sub), StripDataUrlPrefix(sub.selfieImage))]
  {
  }

  /** It happens: a first submission is answered APPROVED, there is no row, and the face is registered. */
  lemma ApprovalCanVanish(v: Services, id: string, idCard: string, selfie: string)
    requires id != ""
    ensures var sub, w := Submission(None, id, idCard, selfie, true, None), ALL_PASS.(chain := WalletNotSaved);
      && AnsweredApproved(v, EMPTY, sub, w)
      && SubmitStep(v, EMPTY, sub, w) == State(map[], [Face(id, StripDataUrlPrefix(selfie))], {})
  {
  }

  // ---------------------------------------------------------------- the one way an approval loses its face

  ghost predicate ApprovedHaveFaces(s: State) {
    forall id :: id in s.persons && s.persons[id].kycStatus == APPROVED ==> HasFace(s.registry, id)
  }

  lemma SubmissionsKeepFaces(v: Services, s: State, sub: Submission, w: Answers)
    requires Symmetric(v) && Inv(v, s) && ApprovedHaveFaces(s)
    ensures ApprovedHaveFaces(SubmitStep(v, s, sub, w))
  {
    SubmitKeepsInv(v, s, sub, w);
    var s' := SubmitStep(v, s, sub, w);
    forall p | p in s'.persons && s'.persons[p].kycStatus == APPROVED ensures HasFace(s'.registry, p) {
      if Starts(s, sub, w) {
        var id := Subject(sub);
        var row := if Truthy(sub.userId) then s.persons[id] else NEW_ROW;
        var idCard, selfie := StripDataUrlPrefix(sub.idCardImage), StripDataUrlPrefix(sub.selfieImage);
        JudgedRegistry(v, s, id, row, idCard, selfie, w);
        HasFaceExtends(s.registry, Face(id, selfie), p);
      }
    }
  }

  /** A deletion breaks the rule exactly when it erases an approved person's faces and then leaves the row. */
  lemma DeletionKeepsFacesIff(v: Services, s: State, id: string, e: Erasure)
    requires Inv(v, s) && ApprovedHaveFaces(s)
    ensures ApprovedHaveFaces(DeleteStep(s, id, e)) <==>
      !(id in s.persons && s.persons[id].kycStatus == APPROVED && e.facesErased && !(e.replied && e.rowRemoved))
  {
    var s' := DeleteStep(s, id, e);
    if id in s.persons {
      assert RowOk(id, s.persons[id]);
      forall p | p in s'.persons && s'.persons[p].kycStatus == APPROVED
        ensures HasFace(s'.registry, p) <==> !(p == id && e.facesErased)
      {
        ErasedFaces(s.registry, id, p);
      }
    }
  }

  /** It happens: approved, then deleted from the registry, then the row's removal fails. */
  lemma ApprovalCanLoseItsFace(v: Services, id: string, idCard: string, selfie: string)
    requires id != ""
    ensures var sub := Submission(None, id, idCard, selfie, true, None);
      var s := DeleteStep(SubmitStep(v, EMPTY, sub, ALL_PASS), id, Erasure(true, true, false));
      id in s.persons && s.persons[id].kycStatus == APPROVED && !HasFace(s.registry, id)
  {
    var s := SubmitStep(v, EMPTY, Submission(None, id, idCard, selfie, true, None), ALL_PASS);
    assert s.persons[id].kycStatus == APPROVED && s.registry == [Face(id, StripDataUrlPrefix(selfie))];
  }

  /** The registry does not roll back: after an unheard registration, a retry with a matching selfie is rejected
      if every layer answers. */
  lemma UnheardFaceBlocksRetry(v: Services, s: State, sub: Submission, w: Answers, retry: Submission, w': Answers)
    requires Starts(s, sub, w)
    requires SubmitStep(v, s, sub, w).persons == s.persons && SubmitStep(v, s, sub, w).registry != s.registry
    requires v.similarity(StripDataUrlPrefix(retry.selfieImage), StripDataUrlPrefix(sub.selfieImage)) >= v.threshold
    requires Starts(s, retry, w') && !w'.liveness.Broken? && !w'.comparison.Broken? && w'.recognitionOk
    requires w'.saveOk && w'.commitOk
    ensures var s' := SubmitStep(v, SubmitStep(v, s, sub, w), retry, w');
      Subject(retry) in s'.persons && s'.persons[Subject(retry)].kycStatus == REJECTED
  {
    var between := SubmitStep(v, s, sub, w);
    SubmissionAddsOneFace(v, s, sub, w);
    LastFaceIsKnown(v, s.registry, Face(Subject(sub), StripDataUrlPrefix(sub.selfieImage)),
                    StripDataUrlPrefix(retry.selfieImage));
    assert Starts(between, retry, w');
    RejectingRejects(v, between, retry, w');
  }

  lemma SubmissionAddsOneFace(v: Services, s: State, sub: Submission, w: Answers)
    ensures var r := SubmitStep(v, s, sub, w).registry;
      r == s.registry || r == s.registry + [Face(Subject(sub), StripDataUrlPrefix(sub.selfieImage))]
  {
  }

  lemma LastFaceIsKnown(v: Services, registry: seq<Face>, f: Face, selfie: string)
    requires v.similarity(selfie, f.image) >= v.threshold
    ensures Known(v, registry + [f], selfie)
  {
    assert (registry + [f])[|registry|] == f;
  }

  /** A removed person leaves a face behind exactly when one was registered under their id and either the
      registry did not drop it or the row held no reference to ask for. */
  lemma RemovalLeavesFaceIff(v: Services, s: State, id: string, e: Erasure)
    requires Inv(v, s) && id in s.persons && id !in DeleteStep(s, id, e).persons
    ensures HasFace(DeleteStep(s, id, e).registry, id) <==>
      HasFace(s.registry, id) && (!e.facesErased || !Truthy(s.persons[id].faceEmbeddingRef))
  {
    assert RowOk(id, s.persons[id]);
    ErasedFaces(s.registry, id, id);
  }

  /** The subject's faces are gone and every other face is there as often as before. */
  ghost predicate FacesDropped(before: seq<Face>, after: seq<Face>, subject: string) {
    forall f: Face :: multiset(after)[f] == if f.subject == subject then 0 else multiset(before)[f]
  }

  lemma {:induction false} WithoutSubjectDrops(registry: seq<Face>, subject: string)
    ensures FacesDropped(registry, WithoutSubject(registry, subject), subject)
  {
    if registry != [] {
      WithoutSubjectDrops(registry[1..], subject);
      assert registry == [registry[0]] + registry[1..];
    }
  }

  // ---------------------------------------------------------------- the service

  class Person {
    const id: string
    var personIdHash: Option<string>
    var kycStatus: KycStatus
    var faceEmbeddingRef: Option<string>
    var aaWalletAddress: Option<string>
    var kycAttestationTxHash: Option<string>

    constructor (id: string, row: Row)
      ensures this.id == id && ToRow() == row
    {
      this.id := id;
      personIdHash, kycStatus, faceEmbeddingRef := row.personIdHash, row.kycStatus, row.faceEmbeddingRef;
      aaWalletAddress, kycAttestationTxHash := row.aaWalletAddress, row.kycAttestationTxHash;
    }

    function ToRow(): Row
      reads this
    {
      Row(personIdHash, kycStatus, faceEmbeddingRef, aaWalletAddress, kycAttestationTxHash)
    }
  }

  class IdentityService {
    const services: Services
    var persons: map<string, Row>
    var registry: seq<Face>
    ghost var erased: set<string>

    constructor (services: Services)
      ensures this.services == services && View() == EMPTY
    {
      this.services := services;
      persons, registry, erased := map[], [], {};
    }

    ghost function View(): State
      reads this
    {
      State(persons, registry, erased)
    }

    /** Layer 4; None when a call to the registry throws. */
    method DeduplicateFace(selfie: string, personId: string, w: Answers) returns (duplicateFound: Option<bool>)
      modifies this`registry, this`erased
      ensures duplicateFound == if !w.recognitionOk then None
                                else if Known(services, old(registry), selfie) then Some(true)
                                else if w.adding.Added? then Some(false) else None
      ensures w.recognitionOk && !Known(services, old(registry), selfie) && !w.adding.NotAdded? ==>
        registry == old(registry) + [Face(personId, selfie)] && erased == old(erased) - {personId}
      ensures !w.recognitionOk || Known(services, old(registry), selfie) || w.adding.NotAdded? ==>
        registry == old(registry) && erased == old(erased)
    {
      if !w.recognitionOk { return None; }
      if Known(services, registry, selfie) { return Some(true); }
      if w.adding.NotAdded? { return None; }
      registry, erased := registry + [Face(personId, selfie)], erased - {personId};
      duplicateFound := if w.adding.Added? then Some(false) else None;
    }

    /** `findOne` by hash; at most one row has it, and it may be the person's own. */
    method FindDuplicate(idHash: string, id: string) returns (duplicate: bool)
      requires UniqueHashes(persons)
      ensures duplicate <==> HeldByAnother(persons, idHash, id)
    {
      var holders := set other | other in persons && persons[other].personIdHash == Some(idHash);
      duplicate := false;
      if holders != {} {
        var found :| found in holders;
        duplicate := found != id;
      }
      assert forall other :: other in persons && persons[other].personIdHash == Some(idHash) ==> other in holders;
    }

    /** The four layers, moving the person's status along; false when one of them throws. */
    method Layers(person: Person, idCard: string, selfie: string, w: Answers) returns (finished: bool)
      requires UniqueHashes(persons)
      modifies person, this`registry, this`erased
      ensures var j := Judge(services, old(View()), person.id, old(person.ToRow()), idCard, selfie, w);
        && finished == j.Judged? && (finished ==> person.ToRow() == j.row)
        && registry == j.registry
        && erased == if registry == old(registry) then old(erased) else old(erased) - {person.id}
    {
      var idHash := (services.sha256)(idCard);
      var duplicate := FindDuplicate(idHash, person.id);
      if duplicate {
        person.kycStatus := REJECTED;
        return true;
      }
      person.personIdHash := Some(idHash);
      person.kycStatus := ID_VERIFIED;
      if w.liveness.Broken? { return false; }
      if w.liveness.NotPassed? {
        person.kycStatus := REJECTED;
        return true;
      }
      person.kycStatus := LIVENESS_PASSED;
      if w.comparison.Broken? { return false; }
      if w.comparison.NotPassed? {
        person.kycStatus := REJECTED;
        return true;
      }
      person.kycStatus := FACE_MATCHED;
      var duplicateFound := DeduplicateFace(selfie, person.id, w);
      if duplicateFound.None? { return false; }
      if duplicateFound.value {
        person.kycStatus := REJECTED;
        return true;
      }
      person.faceEmbeddingRef := Some(person.id);
      person.kycStatus := APPROVED;
      finished := true;
    }

    /** What follows the verdict inside the transaction; None when the transaction does not commit. */
    method Finish(person: Person, sub: Submission, w: Answers) returns (row: Option<Row>, reply: Reply)
      modifies person
      ensures row == Committed(old(person.ToRow()), sub, w)
      ensures if reply.Status? then reply.status == old(person.kycStatus) else reply.ServerError?
      ensures row.Some? ==> reply.Status?
      ensures reply.Status? ==> (row.None? <==> reply.status == APPROVED && w.chain.WalletNotSaved?)
      ensures reply.Status? <==> (w.saveOk && w.commitOk &&
        (old(person.kycStatus) == APPROVED && Truthy(sub.authUserId) ==> !w.chain.WalletNotSaved? && w.linkOk))
    {
      var status := person.kycStatus;
      if !w.saveOk { return None, ServerError; }
      row := Some(person.ToRow());
      if status == APPROVED {
        match w.chain {
          case Minted(wallet, txHash) =>
            person.aaWalletAddress := Some(wallet);
            person.kycAttestationTxHash := Some(txHash);
            row := Some(person.ToRow());
          case ChainFailed =>
          case WalletNotSaved =>   // swallowed, but the transaction can only roll back
            row := None;
        }
        if Truthy(sub.authUserId) && (row.None? || !w.linkOk) { return None, ServerError; }
      }
      if !w.commitOk { return None, ServerError; }
      reply := Status(status);
    }

    method SubmitKyc(sub: Submission, w: Answers) returns (reply: Reply)
      requires UniqueHashes(persons) && (Truthy(sub.userId) || (sub.newId != "" && sub.newId !in persons))
      modifies this
      ensures View() == SubmitStep(services, old(View()), sub, w)
      ensures reply.BadRequest? <==> !sub.consent
      ensures reply.NotFound? <==> sub.consent && Truthy(sub.userId) && sub.userId.value !in old(persons)
      ensures reply == Status(APPROVED) <==> AnsweredApproved(services, old(View()), sub, w)
      ensures reply == Status(REJECTED) <==> LayerRejects(services, old(View()), sub, w)
      ensures reply.Status? ==> reply.status == APPROVED || reply.status == REJECTED
      ensures !reply.Deleted?
      ensures Stored(services, old(View()), View(), sub, w)
      ensures !reply.Status? ==> persons == old(persons)
      ensures reply.Status? && !(reply.status == APPROVED && w.chain.WalletNotSaved?) ==>
        Subject(sub) in persons && persons[Subject(sub)].kycStatus == reply.status
      ensures reply == Status(APPROVED) && w.chain.WalletNotSaved? ==>
        && persons == old(persons)
        && registry == old(registry) + [Face(Subject(sub), StripDataUrlPrefix(sub.selfieImage))]
    {
      SubmissionStores(services, View(), sub, w);
      if !sub.consent { return BadRequest; }
      var idCard, selfie := StripDataUrlPrefix(sub.idCardImage), StripDataUrlPrefix(sub.selfieImage);
      var person: Person;
      if Truthy(sub.userId) {
        if sub.userId.value !in persons { return NotFound; }
        person := new Person(sub.userId.value, persons[sub.userId.value]);
      } else {
        if !w.insertOk { return ServerError; }
        person := new Person(sub.newId, NEW_ROW);
      }
      var finished := Layers(person, idCard, selfie, w);
      if !finished { return ServerError; }
      var row;
      row, reply := Finish(person, sub, w);
      if row.Some? {
        persons := persons[person.id := row.value];
      }
    }

    method DeleteUserData(userId: string, e: Erasure) returns (reply: Reply)
      modifies this
      ensures View() == DeleteStep(old(View()), userId, e)
      ensures reply.NotFound? <==> userId !in old(persons)
      ensures reply.Deleted? <==>
        && userId in old(persons) && e.rowRemoved && (Truthy(old(persons)[userId].faceEmbeddingRef) ==> e.replied)
      ensures persons == if reply.Deleted? then old(persons) - {userId} else old(persons)
      ensures userId in old(persons) && Truthy(old(persons)[userId].faceEmbeddingRef) && e.facesErased ==>
        FacesDropped(old(registry), registry, old(persons)[userId].faceEmbeddingRef.value)
      ensures userId !in old(persons) || !Truthy(old(persons)[userId].faceEmbeddingRef) || !e.facesErased ==>
        registry == old(registry)
      ensures reply.Deleted? && Inv(services, old(View())) ==>
        (HasFace(registry, userId) <==>
           HasFace(old(registry), userId) && (!e.facesErased || !Truthy(old(persons)[userId].faceEmbeddingRef)))
    {
      ghost var before := View();
      if userId !in persons { return NotFound; }
      var person := persons[userId];
      if Truthy(person.faceEmbeddingRef) {
        if e.facesErased {
          WithoutSubjectDrops(registry, person.faceEmbeddingRef.value);
          registry := WithoutSubject(registry, person.faceEmbeddingRef.value);
          if !e.replied || !e.rowRemoved {
            erased := erased + {userId};
          }
        }
        if !e.replied { return ServerError; }
      }
      if !e.rowRemoved { return ServerError; }
      persons := persons - {userId};
      if Inv(services, before) {
        RemovalLeavesFaceIff(services, before, userId, e);
      }
      reply := Deleted;
    }
  }
}
