# BlockTic: a verified model of the ticketing core

BlockTic is a ticketing backend. Fans register for a lottery, winners pay through ECPay, a paid ticket
becomes a soulbound ERC-1155 token, and the gate admits a holder by a rotating QR code, optionally with a
face check, or by government id. This project models the parts that carry state, concurrency or arithmetic
and proves what they promise, for every input and every interleaving.

`dafny verify dfyconfig.toml` checks all of it.

## How the model is laid out

| files | what they model |
|---|---|
| `Ordering`, `Numerals`, `Options` | the comparator sort of JavaScript, number formatting and parsing, optional values |
| `LotterySpec`, `LotteryDraw`, `LotteryRuns`, `LotteryHistory`, `LotteryProofs`, `Vrf` | what a draw means; the draw on shared entry objects; draws and registrations interleaved; what rows and results owe to the operations of a run; the recorded transaction hashes; the randomness contract |
| `Sbt` | the token contract over balances and approvals |
| `Admission`, `AdmissionSafety`, `AdmissionLedger`, `AdmissionNonces`, `AdmissionHistory`, `EntryStats`, `BoxOffice`, `GateAccounts` | one machine of tickets, token ledger, QR nonces, gate attempts and gate logs; its invariants; what a ticket owes to the operations of a run; the services written as they run; what the gate logs tell |
| `Seats`, `SeatRuns`, `SeatHistory`, `SeatMap` | the scan for neighbouring seats; allocation transactions over row locks; what a transaction chooses from; the nested seat map |
| `PercentEncoding`, `Ecpay`, `EcpayText`, `EcpayCoverage` | the encoding; signing, the callback check and the payment form; the text that is hashed; what a signature covers |
| `Quantizer` | INT8 quantisation per channel, over exact reals |
| `Identity` | the four identity checks, the database transaction around them and the face registry beside it |

Where several callers run at once the model is a machine: a `State`, an `Action` for every operation that is
awaited on its own, and `Run`, which applies any sequence of actions; an action that is not due leaves the
state alone. Theorems speak of `Run` over every sequence, so they hold for every interleaving. Services and
contracts that update their fields are classes whose methods are proved against the same step functions.

SHA-256, keccak256, number printing and face similarity are parameters. Clocks, generated ids, nonces, VRF
words, answers of remote services and database failures are parameters of the actions.

Five results say where the code does not do what one might expect, each with an input and the exact condition:

- With no attempt in flight, "USED iff exactly one admission log" holds for a ticket if and only if the attempt
  that let it in did not crash before, or fail in, writing its log (`AdmissionSafety.UsedIffLogged`,
  `AdmissionSafety.LostIffWriteFailed`). A run in which it fails is `AdmissionSafety.UsedWithoutLog`.
- A nonce passes twice in a run if and only if SET NX somewhere meets a nonce that has passed and whose key is no
  longer there (`AdmissionNonces.NoncePassesTwiceIff`). Attempts that take less than 60 s from their freshness
  check to SET NX never let that happen (`AdmissionNonces.NonceNeverPassesTwice`); for every delay of 60 s or more
  there is a run in which it does (`AdmissionNonces.SlowAttemptPassesTwice`).
- An approved person is without a registered face if and only if some deletion in the run erased it without
  removing the row and no submission since then has had one stored (`Identity.OnePersonOneIdentity`, step by step
  `Identity.DeletionKeepsFacesIff`). A run in which that happens is `Identity.ApprovalCanLoseItsFace`.
- A submission answered APPROVED is committed if and only if the wallet was not left unsaved; otherwise no row
  changes and the face stays registered (`Identity.AnswerKeptIff`; when the answer is APPROVED is stated by
  `Identity.IdentityService.SubmitKyc`). An input for which it is not committed is `Identity.ApprovalCanVanish`.
  A retry with a matching selfie is then rejected (`Identity.UnheardFaceBlocksRetry`).
- Parameters are joined before they are encoded, so an ampersand in a value reads as the end of a parameter and
  different parameters can have one signature (`EcpayCoverage.AmpersandReadsAsTwo`,
  `EcpayCoverage.SignaturesCollide`). Exactly what a signature covers, for all parameters, is
  `EcpayCoverage.SignatureCoversFields`; different parameters collide only if some value or name holds an
  ampersand, or a name an equals sign (`EcpayCoverage.SignatureCoversParameters`).

The comments of `src/ticketing/ecpay.util.ts` announce eight replacements of special characters. Seven of
them look for escapes that `encodeURIComponent` never writes: lower-case digits, or characters it leaves
alone. Only the space changes (`PercentEncoding.RewriteIsOnePass`); the model follows the code.

## Assumptions

- `capturePayment`, `mintTicket`, `refundTicket`, `handleEcpayCallback` and `releaseSeat` are one step each,
  although the code reads, checks and saves separately.
- FOR UPDATE SKIP LOCKED does what PostgreSQL documents: a transaction sees and locks only AVAILABLE rows
  nobody else holds, and keeps them locked until it ends.
- keccak256 separates the strings hashed in one draw. `localeCompare` on hex strings and on lower-case ASCII
  names, and ORDER BY row, are lexicographic by character.
- The VRF coordinator issues fresh ids and fulfils issued ids with 256-bit words.
- Generated ids and QR nonces are new. Only issued tokens carry a valid signature. Clocks agree, count whole
  seconds and do not run backwards; Redis drops a key when its time is over and not before.
- The inherited contract code is OpenZeppelin 5.3; nobody sends as the zero address.
- Face similarity is symmetric, recognition returns the best match, and status 400 means an empty collection.
- Characters are Unicode scalar values, so strings with lone surrogates (on which `encodeURIComponent`
  throws) do not occur.

## Model

| member | source | states |
|---|---|---|
| `Ordering.SortIgnoresArrivalOrder` | src/lottery/lottery.service.ts:239 | under different keys a sort by key gives one listing, whatever order the elements arrive in |
| `Ordering.SortIsStable` | src/ticketing/ecpay.util.ts:21-22 | under any key the elements that share it keep the order in which they arrived |
| `LotterySpec.PoolKeyInjective` | src/lottery/lottery.service.ts:210 | `zoneId:groupSize` names one zone and one size, also when zone ids hold colons |
| `LotterySpec.PackedInjective` | src/lottery/lottery.service.ts:231-236 | the packed seed, pool key and id are recovered from the concatenation, for seeds and ids of fixed width |
| `LotterySpec.OtherPoolsDoNotMatter` | src/lottery/lottery.service.ts:105-107 | adding or removing entries of other pools changes no verdict |
| `LotterySpec.QuotaIsMet` | src/lottery/lottery.service.ts:242-249 | each pool of n has exactly max(1, ceil(n/2)) winners |
| `LotterySpec.RankIsPosition` | src/lottery/lottery.service.ts:229-249 | a position in the sorted pool is the number of entries with a smaller key |
| `LotterySpec.VerdictMeans` | src/lottery/lottery.service.ts:224-250 | from entries and hash alone: WON for the first of a zone and size by the hash of seed, zone, size and id, and for everyone whom less than half of them stand before |
| `LotteryDraw.ListOrderDoesNotMatter` | src/lottery/lottery.service.ts:81-107 | every permutation of the entry list gives the same verdicts |
| `LotteryDraw.GroupIntoPools` | src/lottery/lottery.service.ts:205-216 | each pool is the subsequence of the list with that key, and every entry has its pool |
| `LotteryDraw.SelectWinners` | src/lottery/lottery.service.ts:224-250 | writes WON on exactly the entries with fewer smaller keys in the pool than its quota, LOST on the others |
| `LotteryDraw.SortedPoolKeys` | src/lottery/lottery.service.ts:104 | lists every pool key once, in ascending order |
| `LotteryDraw.DrawStatuses` | src/lottery/lottery.service.ts:99-109 | the in-place loops leave each fetched entry WON or LOST as its hash stands among those of its zone and size, and the filter returns exactly the winners, in list order |
| `LotteryRuns.RunKeepsInvariant` | src/lottery/lottery.service.ts:38-155 | all interleavings of registrations, draws and VRF answers keep rows, draws in flight, results and outcomes consistent |
| `LotteryRuns.OneCommitPerEvent` | src/lottery/lottery.service.ts:112-134 | of any number of concurrent draws of an event at most one commits |
| `LotteryRuns.StoredDrawReproduces` | src/lottery/lottery.service.ts:93-134 | the stored seed is the fulfilled word of the stored request id, and recomputing from it over the non-PENDING entries gives every stored status |
| `LotteryRuns.NothingIsTakenBack` | src/lottery/lottery.service.ts:112-155 | no later step changes a decided status, a stored seed, a stored request id or a fulfilled word |
| `LotteryRuns.StoredWinnersMeetQuota` | src/lottery/lottery.service.ts:242-249 | in the stored rows of a drawn event each pool has exactly its quota of WON |
| `LotteryRuns.OneEntryPerApplicant` | src/lottery/lottery.service.ts:43-66 | one entry per user and event, despite the gap between the check and the insert |
| `LotteryRuns.CommitDecides` | src/lottery/lottery.service.ts:119-133 | one commit decides exactly the list its call holds, by the seed it stores |
| `LotteryHistory.CommitDecidesAllFetched` | src/lottery/lottery.service.ts:80-134 | over runs: after the commit of a call the decided rows of the event are exactly all rows the event had when that call fetched its list |
| `LotteryHistory.EveryCommitDecidesAllFetched` | src/lottery/lottery.service.ts:80-134 | every commit of a run has such a fetch before it, by the same call and for the same event |
| `LotteryHistory.DrawAloneCommits` | src/lottery/lottery.service.ts:80-134 | an uninterrupted draw of an undrawn event stores the request id and the seed of its word, gives every row of the event its verdict among all of them, and changes no other row |
| `LotteryHistory.SeedWasBrought` | src/lottery/lottery.service.ts:93-124 | in every run the seed of a stored result is the word that some fulfilment brought under the stored request id |
| `LotteryHistory.StoredStatusesMean` | src/lottery/lottery.service.ts:224-250 | in every run each decided row stands where the hash of the stored seed puts it among the decided rows of its zone and size |
| `LotteryHistory.RowsWereRegistered` | src/lottery/lottery.service.ts:38-68 | every stored entry has the event, user, zone and group size of a registration, saved under its id by the same call |
| `LotteryHistory.RegistrationAloneStores` | src/lottery/lottery.service.ts:38-68 | an uninterrupted registration stores one PENDING row with what was registered, unless the user is registered for the event |
| `LotteryProofs.RowHashIsTheResults` | src/lottery/lottery.service.ts:141-155 | however many draws run, a transaction hash on a row is that of its event's result, and some draw recorded it |
| `Vrf.RequestKeepsWordsIffFresh` | contracts/BlockTicVRF.sol:84-85 | a request keeps all fulfilled words if and only if its id was not fulfilled before |
| `Vrf.BlockTicVRF.RawFulfillRandomWords` | contracts/BlockTicVRF.sol:93-102 | only the coordinator, once per id, with a word; stores the first word under that id as fulfilled, changes nothing else, and never changes a fulfilled word |
| `Vrf.WordWasFulfilled` | contracts/BlockTicVRF.sol:93-102 | over any sequence of requests and fulfilments, a word that was not there at the start is that of some fulfilment under its id |
| `Vrf.PolledWordIsFinal` | contracts/BlockTicVRF.sol:84-110 | once a poll has returned a word, every later poll of that id returns it, through any sequence of requests with fresh ids and fulfilments |
| `Vrf.SeedRoundTrip` | src/lottery/lottery.service.ts:97 | the padded hex seed parses back to its word and has 66 characters for every 256-bit word |
| `Sbt.SupplyIsMintedMinusBurned` | contracts/BlockTicSBT.sol:29-58 | in every call sequence, per id, the balances of all accounts add up to minted minus burned |
| `Sbt.HoldersApproveNobody` | contracts/BlockTicSBT.sol:19-22 | an account that did not deploy the contract and was never named as new owner has no approval set |
| `Sbt.HoldersLoseOnlyByBurn` | contracts/BlockTicSBT.sol:29-58 | the balance of an account that did not deploy the contract and was never named as new owner falls only by a burn of the owner, by its amount |
| `Sbt.MintOneEffect` | contracts/BlockTicSBT.sol:46-48 | one token is minted iff the account is not zero and does not overflow; then its balance grows by one and no other changes |
| `Sbt.BurnOneEffect` | contracts/BlockTicSBT.sol:56-58 | one token is burned iff the balance is positive; then it falls by one and no other changes |
| `Sbt.BlockTicSBT.SetApprovalForAll` | contracts/BlockTicSBT.sol:19-22 | succeeds iff the owner names a non-zero operator; then that operator is approved or not as asked, and no other approval changes |
| `Sbt.BlockTicSBT.SafeBatchTransferFrom` | contracts/BlockTicSBT.sol:37-43 | between two accounts succeeds iff the owner calls with equal lengths and approval and the sums per token are covered; then every balance moves by the amounts beside its id, else none |
| `Sbt.MoveAllIff` | contracts/BlockTicSBT.sol:37-43 | a batch between two accounts, moved item by item, goes through iff the sum per token is held by the one and fits the other |
| `Sbt.BlockTicSBT.MintBatch` | contracts/BlockTicSBT.sol:50-54 | succeeds iff the owner mints to a non-zero account with equal lengths and room for the sums; adds the amounts beside each id, or nothing |
| `Sbt.BlockTicSBT.SafeTransferFrom` | contracts/BlockTicSBT.sol:29-35 | succeeds iff the owner calls, is approved or the holder, no account is zero, the amount is held and fits; then it moves exactly the amount between the two accounts |
| `Sbt.BlockTicSBT.Mint` | contracts/BlockTicSBT.sol:46-48 | succeeds iff the owner mints to a non-zero account that does not overflow; adds the amount there and nothing elsewhere |
| `Sbt.BlockTicSBT.Burn` | contracts/BlockTicSBT.sol:56-58 | succeeds iff the owner burns no more than is held; takes the amount there and nothing elsewhere |
| `AdmissionSafety.StepKeepsSafe` | src/gate-verification/gate-verification.service.ts:94-272 | each awaited operation of any attempt, and each ticketing operation, keeps the safety invariant |
| `AdmissionSafety.AtMostOneAdmissionLog` | src/gate-verification/gate-verification.service.ts:159-176 | in every interleaving a ticket has at most one SUCCESS or FALLBACK log |
| `AdmissionSafety.TicketsOnlyMoveForward` | src/ticketing/ticketing.service.ts:89-201 | USED and REFUNDED are absorbing, owner and event never change, an assigned token stays assigned |
| `AdmissionSafety.AdmittedOrRefunded` | src/ticketing/ticketing.service.ts:154-201 | no ticket is both admitted and refunded, at whatever times |
| `AdmissionSafety.UsedIffLogged` | src/gate-verification/gate-verification.service.ts:159-176 | with no attempt in flight a ticket is USED iff it has exactly one admission log or the write of that log failed, never both; so USED iff exactly one log holds iff that write did not fail |
| `AdmissionSafety.LostIffWriteFailed` | src/gate-verification/gate-verification.service.ts:303-322 | an admission log is lost iff somewhere in the run the attempt that let the ticket in crashed before, or failed in, writing it |
| `AdmissionSafety.UsedWithoutLog` | src/gate-verification/gate-verification.service.ts:229-240 | a run that ends with a USED ticket, no attempt in flight and no admission log |
| `AdmissionHistory.PaymentCameFirst` | src/ticketing/ticketing.service.ts:89-108 | a ticket that is PAID, MINTED or USED, or has a token, was captured by ECPay earlier in the run, while it was preauthorized |
| `AdmissionHistory.TicketsAreEarned` | src/ticketing/ticketing.service.ts:57-252 | a ticket's order columns are those of its preauthorization, its trade number came in a callback, its token was minted to the stored wallet, and its refund was confirmed by ECPay and asked for by its owner or by nobody in particular |
| `AdmissionHistory.TokenIdsCollideIff` | src/ticketing/ticketing.service.ts:296-301 | token ids lie in [1000, 1000001000), never meet the identity token, and are shared iff the digests agree modulo 1000000000 |
| `AdmissionHistory.KycTokensCountMints` | src/identity/identity.service.ts:161-179 | whatever happens to tickets, an account holds as many identity tokens as were minted to it |
| `AdmissionLedger.BalanceCountsTickets` | src/ticketing/ticketing.service.ts:112-201 | the balance of each wallet and ticket token is the number of MINTED or USED tickets carrying the pair plus the refunded ones whose burn failed, colliding ids included |
| `AdmissionLedger.RefundNeverLacksBalance` | src/ticketing/ticketing.service.ts:183-193 | the burn of a refund always finds its token |
| `AdmissionLedger.OwnershipRefusesOnlyRefunded` | src/gate-verification/gate-verification.service.ts:330-349 | the ownership check refuses an attempt only if the ticket has meanwhile been refunded and burned, so never a MINTED one |
| `AdmissionNonces.NonceNeverPassesTwice` | src/gate-verification/gate-verification.service.ts:110-121 | if attempts take less than 60 s from freshness check to SET NX no nonce passes the replay step twice |
| `AdmissionNonces.NoncePassesTwiceIff` | src/gate-verification/gate-verification.service.ts:116-121 | in any run a nonce passes twice iff SET NX somewhere meets a nonce that has passed and whose key has expired |
| `AdmissionNonces.SlowAttemptPassesTwice` | src/gate-verification/gate-verification.service.ts:103-121 | for every delay of 60 s or more a run exists, with one second boundary between parsing and freshness check, in which one nonce passes twice |
| `EntryStats.StatsMatchTickets` | src/gate-verification/gate-verification.service.ts:276-299 | with no attempt in flight success plus fallback is the number of USED tickets of the event less those whose admission log could not be written |
| `EntryStats.StatsAlwaysAddUp` | src/gate-verification/gate-verification.service.ts:276-299 | total is success plus failed plus fallback, and the sum over modes without offline, at any moment |
| `BoxOffice.VerifyAloneIsARun` | src/gate-verification/gate-verification.service.ts:94-186 | an uninterrupted call is one of the runs the theorems speak of |
| `BoxOffice.FallbackAloneIsARun` | src/gate-verification/gate-verification.service.ts:204-271 | so is an uninterrupted fallback |
| `BoxOffice.BoxOffice.MintTicket` | src/ticketing/ticketing.service.ts:112-148 | exactly when it succeeds; then one token of the derived id goes to the wallet and the row holds the pair and is MINTED; otherwise tickets and ledger stay |
| `BoxOffice.BoxOffice.Preauthorize` | src/ticketing/ticketing.service.ts:57-83 | adds exactly one PREAUTHORIZED ticket with the order's columns, and returns a form with its trade number and amount that passes the callback's check |
| `BoxOffice.BoxOffice.CapturePayment` | src/ticketing/ticketing.service.ts:89-108 | succeeds iff the ticket is PREAUTHORIZED and ECPay confirms; then it is PAID and nothing else changes, otherwise nothing does |
| `BoxOffice.BoxOffice.RefundTicket` | src/ticketing/ticketing.service.ts:154-201 | succeeds iff the ticket is PREAUTHORIZED, PAID or MINTED, the requester (if given) owns it and the payment is voided; then it is REFUNDED and its token burned or, if that fails, recorded as left over; otherwise tickets and ledger stay |
| `BoxOffice.BoxOffice.HandleEcpayCallback` | src/ticketing/ticketing.service.ts:207-252 | the three replies; exactly the body's non-empty trade number is stored, on the ticket found, for an accepted body |
| `BoxOffice.BoxOffice.VerifyEntry` | src/gate-verification/gate-verification.service.ts:94-186 | without interruption, from the inputs alone: the answer in every case (401, 409, 400, failure or admission), the one log with its event, mode and result that every scan past the nonce leaves, refused ones included, the nonce key, and that exactly an admitted ticket becomes USED |
| `BoxOffice.BoxOffice.ConditionalUse` | src/gate-verification/gate-verification.service.ts:159-173 | affects a row iff the ticket is PAID or MINTED at that moment |
| `BoxOffice.BoxOffice.FallbackVerify` | src/gate-verification/gate-verification.service.ts:204-271 | admits iff the person holds a MINTED or PAID ticket of the event, MINTED ones first, provided the log is stored; what is logged when it admits and when it refuses |
| `BoxOffice.BoxOffice.FindTicket` | src/gate-verification/gate-verification.service.ts:205-221 | returns a fitting ticket, or nothing when there is none |
| `BoxOffice.BoxOffice.GetEntryStats` | src/gate-verification/gate-verification.service.ts:276-299 | each of the eight figures is the number of the event's log entries of that result or mode |
| `EntryStats.CountIsNumber` | src/gate-verification/gate-verification.service.ts:276-299 | counting from the front gives the number of positions that hold a matching entry |
| `GateAccounts.EveryAttemptIsAccountedFor` | src/gate-verification/gate-verification.service.ts:94-322 | in every interleaving: logs, attempts under way and attempts dropped by a crash, a failed write or a silent face service add up to the scans past the nonce and the fallbacks |
| `GateAccounts.LogsNameTheirTicket` | src/gate-verification/gate-verification.service.ts:94-322 | in every interleaving a log names a ticket and that ticket's event, except that of a fallback which found none, and its mode fits its result |
| `GateAccounts.FreshQrAdmits` | src/gate-verification/gate-verification.service.ts:70-186 | a QR code just issued admits its own ticket, if it may enter, when scanned within 60 s and checked no later than that, and changes nothing after |
| `Seats.FirstRunIsLeastBlock` | src/seat-allocation/seat-allocation.service.ts:211-235 | the scan finds nothing iff no row has that many consecutively numbered seats on offer; otherwise the block least by row and first number |
| `Seats.LeastBlockUnique` | src/seat-allocation/seat-allocation.service.ts:211-235 | that block is unique |
| `Seats.FindConsecutiveSeats` | src/seat-allocation/seat-allocation.service.ts:211-235 | the loop and its shortcut for one seat both return that block, seat by seat |
| `Seats.AllocateSeats` | src/seat-allocation/seat-allocation.service.ts:61-90 | of the locked rows exactly the least block is marked ALLOCATED and returned, or none when there is no block |
| `SeatRuns.StepKeepsInv` | src/seat-allocation/seat-allocation.service.ts:44-106 | each lock, scan, commit, abort and release keeps locks, blocks, ownership and grants consistent |
| `SeatRuns.SeatsAreHeldOnce` | src/seat-allocation/seat-allocation.service.ts:44-106 | in every interleaving no seat is in two live allocations, a seat is AVAILABLE iff nobody holds it, and each grant was groupSize consecutive seats of one row of its zone |
| `SeatRuns.ChooseTakesLeastBlock` | src/seat-allocation/seat-allocation.service.ts:60-81 | in any run a scan aborts iff the rows it locked hold no block, and otherwise chooses the least one |
| `SeatHistory.SelectOpensIff` | src/seat-allocation/seat-allocation.service.ts:49-58 | a query opens its transaction iff it lists exactly the free seats of the zone, in order, and then holds them all |
| `SeatHistory.ScanSeesAllFree` | src/seat-allocation/seat-allocation.service.ts:44-81 | in any run a scan aborts iff the free seats of the zone, as they were when its transaction opened, hold no block of the size; otherwise it chooses the least one of them |
| `SeatHistory.LocksEndWithTransactions` | src/seat-allocation/seat-allocation.service.ts:44-58 | in every run a seat is locked exactly by the open transaction that lists it, so none that has ended holds a lock |
| `SeatHistory.GrantIsWhatWasAsked` | src/seat-allocation/seat-allocation.service.ts:40-105 | a commit grants the chosen block under the event, zone and size its transaction asked for, and exactly those seats become ALLOCATED |
| `SeatRuns.CountsOverRuns` | src/seat-allocation/seat-allocation.service.ts:85-90 | the seats of an event stay; a commit of g seats lowers the available ones by g, a release raises them by one, nothing else changes them |
| `SeatMap.ZoneTotals` | src/seat-allocation/seat-allocation.service.ts:156-161 | the sums over a zone's rows are the numbers of its seats and of its available seats |
| `SeatMap.RowsAreTrue` | src/seat-allocation/seat-allocation.service.ts:134-150 | a zone's entry has every row with a seat of the zone once, in the order of the query, with the true numbers of its seats |
| `SeatMap.GroupByZone` | src/seat-allocation/seat-allocation.service.ts:140-150 | each zone maps to its rows in query order; zones are listed once, in the order in which they first turn up |
| `SeatMap.GetSeatMap` | src/seat-allocation/seat-allocation.service.ts:112-173 | not found iff the event has no seats; otherwise every zone once, in order of first appearance, with its true rows and totals, and grand totals equal to the flat counts |
| `PercentEncoding.ReplacementRespectsEscapes` | src/ticketing/ecpay.util.ts:31-38 | no replacement matches across an escape boundary |
| `PercentEncoding.RewriteIsOnePass` | src/ticketing/ecpay.util.ts:30-38 | for every string the eight replacements equal one pass in which only a space changes, to a plus |
| `PercentEncoding.EncodingRoundTrip` | src/ticketing/ecpay.util.ts:30-38 | decoding the rewritten text gives the input back |
| `PercentEncoding.LowerCaseForgetsOnlyCase` | src/ticketing/ecpay.util.ts:30-41 | what is hashed agrees for two texts iff they agree up to the case of ASCII letters |
| `Ecpay.SignatureIgnoresOrder` | src/ticketing/ecpay.util.ts:21-24 | for names distinct ignoring case the signature does not depend on the order of the properties |
| `Ecpay.SignatureIgnoresNumberType` | src/ticketing/ecpay.util.ts:23 | numbers and their strings sign alike |
| `Ecpay.AcceptedIffSigned` | src/ticketing/ticketing.service.ts:207-222 | a body with the parameters as strings in any order is accepted iff it carries their signature |
| `Ecpay.SignedFormIsAccepted` | src/ticketing/ticketing.service.ts:207-222 | whatever order the fields of a signed form come back in, the check passes |
| `Ecpay.Stringify` | src/ticketing/ticketing.service.ts:340-343 | the loop lists every parameter once, as a string |
| `Ecpay.BuildEcpayFormData` | src/ticketing/ticketing.service.ts:311-345 | the form holds each of the eleven fields with its value, the signature and the action; without the action every listing of it is accepted |
| `EcpayText.WhatIsSigned` | src/ticketing/ecpay.util.ts:15-45 | for all parameters: the signature is SHA-256 of the secrets around the lines in the order of their lower-case names (same names as they came), put in lower case and spelled character by character; decoding gives that text back |
| `EcpayText.HashedCharacters` | src/ticketing/ecpay.util.ts:30-41 | nothing is ever hashed but lower-case letters, digits, nine marks, plus and percent |
| `EcpayText.LowerCaseMayComeFirst` | src/ticketing/ecpay.util.ts:30-41 | encoding, eight replacements and then lower case give the same as lower case first and then one pass with lower-case escapes |
| `EcpayCoverage.JoinInjective` | src/ticketing/ecpay.util.ts:24 | non-empty lines without ampersands are recovered from their join |
| `EcpayCoverage.SignatureCoversFields` | src/ticketing/ecpay.util.ts:21-41 | for all parameters: signed texts are equal iff the sorted `key=value` lines fall into the same fields between ampersands, up to letter case |
| `EcpayCoverage.AmpersandReadsAsTwo` | src/ticketing/ecpay.util.ts:23-27 | a value with an ampersand signs like the two parameters it reads as, for all names and values in order |
| `EcpayCoverage.SignaturesCollide` | src/ticketing/ecpay.util.ts:23-27 | a concrete pair of different parameters with one signature, whatever the secrets |
| `EcpayCoverage.SignatureCoversParameters` | src/ticketing/ecpay.util.ts:21-41 | for all parameters: lists with equal signed texts hold the same names and values up to letter case, unless one of them holds an ampersand, or an equals sign in a name |
| `EcpayCoverage.SignatureCoversSecrets` | src/ticketing/ecpay.util.ts:27 | secrets of equal lengths give equal signed texts only if they agree up to letter case |
| `Quantizer.RoundIsNearestEven` | scripts/quantize_arcface.py:107 | rounding gives the nearest integer, the even one of two |
| `Quantizer.ScaleIsTrue` | scripts/quantize_arcface.py:103-105 | 127 steps reach exactly the largest absolute weight, or 0.00000001 where no weight is that large |
| `Quantizer.WithinHalfStep` | scripts/quantize_arcface.py:103-107 | clipping changes nothing, integers lie in [-127, 127], a weight is within scale / 2 of its dequantised value |
| `Quantizer.DotOfNear` | scripts/quantize_arcface.py:168-169 | weights within e give dot products within e times the sum of the absolute inputs |
| `Quantizer.RestoredNear` | scripts/quantize_arcface.py:165-169 | every dot product with the dequantised channel is within (scale / 2) times that sum of the exact one |
| `Quantizer.QuantizingTwice` | scripts/quantize_arcface.py:103-107 | a dequantised channel has the same scale and the same integers, whether the largest weight or the floor sets the scale |
| `Quantizer.ExtremeIsExact` | scripts/quantize_arcface.py:103-107 | the weight that sets the scale takes the integer 127 or -127 and is reproduced exactly |
| `Quantizer.SignsAreAlike` | scripts/quantize_arcface.py:103-107 | negating a channel negates its integers and keeps its scale |
| `Quantizer.QuantizeLayers` | scripts/quantize_arcface.py:98-112 | vectors are kept without scales; every channel of every other layer gets the scale whose 127 steps are the largest absolute weight or 1e-8 and the nearest integers, and meets range, error and dot-product bounds |
| `Identity.OnePersonOneIdentity` | src/identity/identity.service.ts:91-195 | in every run: hashes distinct, only APPROVED and REJECTED committed, approval has a hash and a reference to the person's own id, faces pairwise below the threshold, and an approved person has a face iff no deletion took it without removing the row, or a submission has had one stored since |
| `Identity.ErasedIffFaceTaken` | src/identity/identity.service.ts:221-236 | a person is recorded as erased iff some deletion in the run erased the face without removing the row and no submission since has had one stored |
| `Identity.SubmitKeepsInv` | src/identity/identity.service.ts:91-195 | one submission keeps all of that, whatever the layers, the chain, the registry and the database answer |
| `Identity.ApprovalNeedsEveryLayer` | src/identity/identity.service.ts:111-179 | for anyone, approved before or not: approved afterwards iff all four layers pass and the database keeps it, or approved before and no layer says no; a new approval has the submitted hash and face; if neither, nothing is committed |
| `Identity.SubmissionStores` | src/identity/identity.service.ts:91-195 | for anyone: the row after a submission column by column (hash, status, reference, wallet, attestation), when it changes, and the one face it may add |
| `Identity.SubmissionsKeepFaces` | src/identity/identity.service.ts:361-424 | a submission never leaves an approved person without a face |
| `Identity.DeletionKeepsFacesIff` | src/identity/identity.service.ts:221-236 | a deletion leaves an approved person without a face iff it erases the face and then does not remove the row |
| `Identity.ApprovalCanLoseItsFace` | src/identity/identity.service.ts:221-236 | a run in which that happens |
| `Identity.UnheardFaceBlocksRetry` | src/identity/identity.service.ts:361-424 | after a submission that registered a face and committed nothing, a retry with a matching selfie is rejected |
| `Identity.RemovalLeavesFaceIff` | src/identity/identity.service.ts:221-236 | a removed person leaves a face behind iff one was registered and the registry did not drop it or the row held no reference |
| `Identity.PrefixIsStripped` | src/identity/identity.service.ts:245-251 | an image hashes and compares alike with and without its data URL prefix |
| `Identity.IdentityService.Layers` | src/identity/identity.service.ts:111-159 | the four layers, status by status on the person object, give the verdict and the registry of the step |
| `Identity.AnswerKeptIff` | src/identity/identity.service.ts:159-179 | an answer APPROVED is committed iff the wallet was not left unsaved; the face is registered either way |
| `Identity.ApprovalCanVanish` | src/identity/identity.service.ts:159-179 | a first submission that is answered APPROVED and leaves a registered face and no row |
| `Identity.IdentityService.SubmitKyc` | src/identity/identity.service.ts:79-196 | from the inputs: the rows and faces it leaves, column by column; exactly when the reply is APPROVED, REJECTED, bad request or not found; and a committed row that agrees with the reply, except when APPROVED is answered although the wallet save failed |
| `Identity.IdentityService.DeleteUserData` | src/identity/identity.service.ts:221-236 | from the inputs: exactly when the row is removed and reported so, which faces go and that all others stay, and exactly when a reported deletion leaves the face |

## Left out

- Controllers, DTO validation, guards, configuration, queries that only read, pagination and notifications.
- Retries, timeouts and message formats of CompreFace, Rekognition, ECPay DoAction, ethers and Redis; their outcomes are parameters.
- Lost updates inside the ticketing operations and `releaseSeat`, which are assumed atomic; so is a mint whose transaction succeeds although the call fails.
- Concurrent draws of different events reading each other's `lastRequestId`: nothing is claimed about their request ids differing.
- Concurrent identity submissions; only sequential runs are modelled.
- `Ticket.seatId` and the release of a seat inside a refund; seat states SOLD and USED are never assigned by the code.
- Column types: a gate log names its ticket in a uuid column, so the log of a fallback attempt that finds no ticket, which names it `unknown`, can in fact never be stored; the model also admits runs that store it.
- The person found by government id in the fallback check, and the difference between `Person.id` and `Ticket.userId`: the user id is a parameter.
- The wording of errors, including the two reasons an allocation is refused.
- Float32 rounding, FP16, RMSE, timing and cosine similarity of the quantisation script.
- The ERC-1155 receiver acceptance check, events, token URIs and gas.
- The seed bytes, event number and wallet list that are written to the draw event on chain.
- BoxOffice.BoxOffice.VerifyEntry: the token signature is not modelled; a token is a nonce that was issued, with its time of issue.
- BoxOffice.BoxOffice.MintTicket: `sbtTokenId` is kept as a number, not as the string that is parsed back.
- Ecpay.SignatureIgnoresOrder: lower case is modelled for ASCII letters only, which is exact for ASCII parameter names.
- SeatRuns.SeatsAreHeldOnce: live allocations are history; the database does not store allocation ids.
- Identity.IdentityService.SubmitKyc: the link written to the auth user is a success or failure, without its content.
