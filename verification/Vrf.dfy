/** The VRF consumer contract: one request record per request id, written once by the request and once by the fulfilment. */
module Vrf {
  import Numerals

  type Address = string

  datatype RequestResult = RequestResult(fulfilled: bool, randomWord: nat)

  datatype Storage = Storage(requests: map<nat, RequestResult>, lastRequestId: nat)

  /** Solidity mappings read zero where nothing was written. */
  function ResultOf(s: Storage, requestId: nat): RequestResult {
    if requestId in s.requests then s.requests[requestId] else RequestResult(false, 0)
  }

  function Request(s: Storage, requestId: nat): Storage {
    Storage(s.requests[requestId := RequestResult(false, 0)], requestId)
  }

  function Fulfil(s: Storage, requestId: nat, word: nat): Storage {
    if ResultOf(s, requestId).fulfilled then s
    else s.(requests := s.requests[requestId := RequestResult(true, word)])
  }

  /** A fulfilled word stays, provided the coordinator does not hand out its id again. */
  ghost predicate WordsKept(s: Storage, s': Storage) {
    forall id :: ResultOf(s, id).fulfilled ==> ResultOf(s', id) == ResultOf(s, id)
  }

  lemma RequestKeepsWordsIffFresh(s: Storage, requestId: nat)
    ensures WordsKept(s, Request(s, requestId)) <==> !ResultOf(s, requestId).fulfilled
  {
    assert !ResultOf(Request(s, requestId), requestId).fulfilled;
  }

  /** What the coordinator and the owner do to the contract. */
  datatype Call = Requested(id: nat) | Fulfilled(id: nat, word: nat)

  function Apply(s: Storage, c: Call): Storage {
    match c
    case Requested(id) => Request(s, id)
    case Fulfilled(id, word) => Fulfil(s, id, word)
  }

  function Run(s: Storage, calls: seq<Call>): Storage {
    if calls == [] then s else Apply(Run(s, calls[..|calls| - 1]), calls[|calls| - 1])
  }

  /** No request of the sequence brings an id that is fulfilled at that time. */
  ghost predicate BringsFreshIds(s: Storage, calls: seq<Call>) {
    forall i :: 0 <= i < |calls| && calls[i].Requested? ==> !ResultOf(Run(s, calls[..i]), calls[i].id).fulfilled
  }

  /** Once a poll has returned a word, every later poll of that id returns the same word. */
  lemma {:induction false} PolledWordIsFinal(s: Storage, calls: seq<Call>, id: nat)
    requires BringsFreshIds(s, calls) && ResultOf(s, id).fulfilled
    ensures ResultOf(Run(s, calls), id) == ResultOf(s, id)
  {
    if calls != [] {
      var n := |calls| - 1;
      forall i | 0 <= i < n && calls[..n][i].Requested?
        ensures !ResultOf(Run(s, calls[..n][..i]), calls[..n][i].id).fulfilled
      {
        assert calls[..n][..i] == calls[..i];
      }
      PolledWordIsFinal(s, calls[..n], id);
      assert calls[n].Requested? ==> !ResultOf(Run(s, calls[..n]), calls[n].id).fulfilled;
    }
  }

  /** A word found at the end of any sequence of calls, and not there at its start, is that of a fulfilment under its id. */
  lemma {:induction false} WordWasFulfilled(s: Storage, calls: seq<Call>, id: nat)
    requires !ResultOf(s, id).fulfilled && ResultOf(Run(s, calls), id).fulfilled
    ensures Fulfilled(id, ResultOf(Run(s, calls), id).randomWord) in calls
  {
    var n := |calls| - 1;
    var before := Run(s, calls[..n]);
    if ResultOf(before, id).fulfilled {
      WordWasFulfilled(s, calls[..n], id);
    }
    assert calls[n] in calls;
  }

  class BlockTicVRF {
    const coordinator: Address
    const owner: Address
    var requests: map<nat, RequestResult>
    var lastRequestId: nat

    constructor (coordinator: Address, sender: Address)
      ensures this.coordinator == coordinator && owner == sender
      ensures View() == Storage(map[], 0)
    {
      this.coordinator, owner := coordinator, sender;
      requests, lastRequestId := map[], 0;
    }

    function View(): Storage
      reads this
    {
      Storage(requests, lastRequestId)
    }

    /** `issued` is the id the coordinator returns; a false result is a revert. */
    method RequestRandomWords(sender: Address, issued: nat) returns (ok: bool)
      modifies this
      ensures ok <==> sender == owner
      ensures View() == if ok then Request(old(View()), issued) else old(View())
      ensures ok ==> requests == old(requests)[issued := RequestResult(false, 0)] && lastRequestId == issued
    {
      ok := sender == owner;
      if ok {
        requests := requests[issued := RequestResult(false, 0)];
        lastRequestId := issued;
      }
    }

    method RawFulfillRandomWords(sender: Address, requestId: nat, randomWords: seq<nat>) returns (ok: bool)
      modifies this
      ensures ok <==> sender == coordinator && !ResultOf(old(View()), requestId).fulfilled && |randomWords| > 0
      ensures View() == if ok then Fulfil(old(View()), requestId, randomWords[0]) else old(View())
      ensures ok ==> requests == old(requests)[requestId := RequestResult(true, randomWords[0])]
      ensures lastRequestId == old(lastRequestId) && (!ok ==> requests == old(requests))
      ensures WordsKept(old(View()), View())
    {
      if sender != coordinator { return false; }
      if requestId in requests && requests[requestId].fulfilled { return false; }
      if |randomWords| == 0 { return false; }
      requests := requests[requestId := RequestResult(true, randomWords[0])];
      ok := true;
    }

    method GetRequestResult(requestId: nat) returns (fulfilled: bool, randomWord: nat)
      ensures RequestResult(fulfilled, randomWord) == ResultOf(View(), requestId)
      ensures fulfilled ==> requestId in requests && requests[requestId] == RequestResult(true, randomWord)
      ensures !fulfilled ==> requestId in requests ==> !requests[requestId].fulfilled
    {
      if requestId in requests {
        fulfilled, randomWord := requests[requestId].fulfilled, requests[requestId].randomWord;
      } else {
        fulfilled, randomWord := false, 0;
      }
    }
  }

  // ---------------------------------------------------------------- the stored seed

  const WORD_DIGITS: nat := 64

  predicate IsWord(w: nat) {
    w < Numerals.Pow(16, WORD_DIGITS)
  }

  lemma ZeroIsWord()
    ensures IsWord(0)
  {
    Numerals.PowPositive(16, WORD_DIGITS);
  }

  /** `0x${randomWord.toString(16).padStart(64, '0')}` */
  function SeedHex(word: nat): string {
    "0x" + Numerals.PadStart(Numerals.InBase(16, word), WORD_DIGITS)
  }

  function ParseSeed(seed: string): nat {
    if |seed| < 2 then 0 else Numerals.Parse(16, seed[2..])
  }

  /** Seeds have one width and stand for exactly one word. */
  lemma SeedRoundTrip(word: nat)
    ensures ParseSeed(SeedHex(word)) == word
    ensures IsWord(word) ==> |SeedHex(word)| == WORD_DIGITS + 2
  {
    var digits := Numerals.InBase(16, word);
    assert SeedHex(word)[2..] == Numerals.PadStart(digits, WORD_DIGITS);
    Numerals.ParseInBase(16, word);
    if |digits| < WORD_DIGITS {
      Numerals.ParsePadded(16, WORD_DIGITS - |digits|, digits);
    }
    if IsWord(word) {
      Numerals.LengthInBase(16, word, WORD_DIGITS);
    }
  }
}
