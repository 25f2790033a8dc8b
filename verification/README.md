# Axe in Dafny

A model of the algorithms in Axe that spend money, discriminate wire formats or walk unbounded
data, with proofs about every run and every input. `dafny verify dfyconfig.toml` checks it.

| files | models |
|---|---|
| `Pipeline.dfy`, `PipelineRuns.dfy`, `PipelineVerdicts.dfy`, `PipelineLimits.dfy` | the pipelined deposit sender, all interleavings of its jobs with the chain, and when it sends or refuses |
| `Mempool.dfy`, `Probing.dfy`, `RobustSender.dfy` | the robust transaction sender against a lossy network |
| `RobustSenderBroadcast.dfy`, `RobustSenderOutcomes.dfy`, `RobustSenderHistory.dfy`, `RobustSenderSafety.dfy`, `RobustSenderLimits.dfy` | what its broadcasts, turns and whole sends do, and which of its promises hold |
| `Bytes.dfy`, `Abi.dfy`, `Payload.dfy`, `PayloadRoundTrips.dfy` | the ABI tuple encoding and the payload classifier |
| `SpendPolicy.dfy` | the spend caps with their persisted ledger |
| `CreateAddress.dfy` | the RLP preimage of a CREATE address |
| `Calendar.dfy`, `LogScan.dfy`, `UrlScrub.dfy`, `Retry.dfy`, `Pagination.dfy`, `Digits.dfy`, `Deposit.dfy` | the smaller algorithms |

Code that updates state is a class or a method with loops, proved against functions on values;
the whole-run theorems are about those functions. What the network, the clock and the disk do is
a parameter: a record of answers, a tape of contacts, or a step the environment may take.

## What is found out about the code

- **The pipelined sender never clamps its gas counters.** Nonces are distinct 64-bit numbers and
  one deposit costs less than 2^192, so all gas together fits 256 bits; the gas budget therefore
  holds for every cap, 2^256 - 1 included. The wallet floor holds although the balances a
  broadcast checks can be stale: mining only frees what it spends. The funding check itself is
  exact precisely when both balances are below 2^256 - 1 (`FundingCheckExact`).
- **At-most-once sending does not hold for every pool.** `broadcast_raw` offers the bytes to every
  endpoint and prefers a "nonce held" rejection over a transport failure. If one endpoint rejects,
  the blocking transaction then expires, and a second endpoint takes the bytes but loses its
  reply, the sender abandons a live envelope and both can be mined, contrary to the comment at
  `src/evm.rs:603-609`. The same happens with one endpoint when doubled fees do not clear the
  pool's minimum over the fees they replace, for example with a zero priority fee. These two
  conditions are exact (`AtMostOnceExactly`). For any pool the promise holds in runs where no pass
  over the endpoints loses a reply after hearing one (`AtMostOnce`).
- **Governance command 3 can be taken for a hub frame** (`HubFrameCollision` gives one). A
  proposal decodes as itself exactly when its eta is sane, its target is not offset-like, and for
  command 3 no string is readable at the offset its target spells (`GovernanceDecodesExactly`). A
  known selector with undecodable arguments in the call data turns the whole decoding into an
  error, and nothing else does (`MalformedInnerCall`).
- **The lifetime spend cap** is honoured in every run, torn writes and kills included, exactly when
  it is below 2^64 - 1.
- **Timestamps** print correctly exactly when they are not negative.

## Assumptions of the models

- Pipelined sender: deposits carry no native value, nobody else spends from the wallet (credits
  are allowed), a mined deposit pays at most gas limit times maximum fee, filling keeps the nonce
  it is given, and each balance answered is the chain's at some moment while the lock is held.
  `StaleBalanceUnsafe` shows that the last one is necessary.
- Robust sender: all endpoints front one mempool with one slot per nonce; a pooled transaction is
  replaced only by strictly more and at least ten percent more on both fees; a submission takes
  effect before its call returns or never; for the at-most-once theorems every by-hash lookup is
  answered by some endpoint. `LateArrivalUnsafe` and `UnansweredLookupUnsafe` show that the last
  two are necessary. Foreign transactions of the wallet, drops, mining, lost replies and wrong
  nonce reports are unrestricted. Nonces are unbounded numbers.
- Classifier: the embedded function database has no selector 0x00000000; encodings are shorter
  than 2^256 bytes; the ABI decoder reads a dynamic field at its offset without checking padding.
- Spend policy: one server at a time; a failed write leaves the file as it was or unreadable; runs
  hand back at most what they reserved.

## Model

| member | source | states |
|---|---|---|
| Pipeline.PipelinedSender.CheckFunding | src/evm/pipeline.rs:188-218 | the first of budget, native and token refusals, over the current reservations |
| Pipeline.PipelinedSender.Reserve | src/evm/pipeline.rs:220-224 | adds one deposit's gas and tokens to the reservations and nothing else |
| Pipeline.PipelinedSender.Release | src/evm/pipeline.rs:226-231 | takes a deposit's gas and tokens out again and books what it paid |
| Pipeline.PipelinedSender.Prepare | src/evm/pipeline.rs:116-144 | nonce, fill, budget, balances, funding and deadline in order; only the fetched nonce and a budget stop survive a refusal |
| Pipeline.PipelinedSender.Broadcast | src/evm/pipeline.rs:73-114 | the state after a refusal, an uncertain and a delivered broadcast; the lock-free flag equals "a stop reason is set" on exit |
| Pipeline.PipelinedSender.Settle | src/evm/pipeline.rs:43-71 | a receipt releases the reservation; a timeout stops the sender and keeps it |
| Pipeline.GasFits | src/evm/pipeline.rs:91-129 | the 256-bit product of a 64-bit gas limit and a 128-bit fee never overflows |
| PipelineRuns.RefusedCommit | src/evm/pipeline.rs:81-88 | a broadcast that is not sent reserves nothing |
| PipelineRuns.FundedCommit | src/evm/pipeline.rs:89-95 | a reservation that passes the check clamps nothing and is covered by the balances read |
| PipelineVerdicts.CommitExactly | src/evm/pipeline.rs:73-144 | a commit succeeds if and only if the sender is not stopped, nonce, fill and balances are there, the deposit is funded over unbounded integers and the quote is current; each refusal has its own exact condition; the sender stops if and only if spent gas plus this cost passes the cap |
| PipelineVerdicts.SendsExactly | src/evm/pipeline.rs:73-144 | the same in every reachable state, where no sum clamps: a deposit goes on the wire exactly then |
| PipelineVerdicts.BudgetIsTerminal | src/evm/pipeline.rs:129-137 | in every run, nothing is broadcast after the budget is exhausted |
| PipelineRuns.GasNeverClamps | src/evm/pipeline.rs:107-136 | distinct 64-bit nonces keep the gas of all deposits together within 256 bits |
| PipelineRuns.NextKeeps | src/evm/pipeline.rs:43-144 | every step of every interleaving keeps ledger, floor, snapshot, budget, nonce and flag invariants |
| PipelineRuns.WalletFloor | src/evm/pipeline.rs:204-216 | in every run the wallet holds its reserve plus all unmined reservations, and every token balance covers its unmined deposits |
| PipelineRuns.GasWithinBudget | src/evm/pipeline.rs:129-203 | in every run all gas paid is within spent plus reserved, which is within the budget |
| PipelineRuns.ReservationsAreExact | src/evm/pipeline.rs:220-231 | in every run the counters are the exact sums over unsettled and settled deposits |
| PipelineRuns.NonceDiscipline | src/evm/pipeline.rs:96-112 | broadcast nonces are the fetched starting nonce and its successors; a lost or timed-out deposit or the last nonce stops the sender; the flag agrees |
| PipelineRuns.FetchedOnce | src/evm/pipeline.rs:121-124 | the starting nonce is fetched once and never replaced in any run |
| PipelineRuns.StopIsTerminal | src/evm/pipeline.rs:77-80 | once stopped, no run broadcasts anything more |
| PipelineLimits.StaleBalanceUnsafe | src/evm/pipeline.rs:164-184 | a balance from before a settled deposit lets the next commit break the wallet floor |
| PipelineRuns.FundingCheckExact | src/evm/pipeline.rs:197-215 | the saturating funding check is the exact one if and only if both balances are below 2^256 - 1 |
| RobustSender.BroadcastRaw | src/evm.rs:298-325 | the endpoint loop with retries of whatever reads as transient: accepted if any endpoint accepts, else the first telling rejection, else the first error |
| RobustSenderBroadcast.AttemptExactly | src/evm.rs:306-317 | one pass offers the bytes to every endpoint; it succeeds if and only if some endpoint is heard to take them, and otherwise has each endpoint's own error in order |
| RobustSenderBroadcast.BroadcastExactly | src/evm.rs:298-325 | the passes end at the first that succeeds or whose reported error is not transient, or with the last one; the reported error is the first telling one, else the first |
| RobustSenderSafety.PickPrefersTelling | src/evm.rs:317-321 | when every endpoint rejects, the first nonce or landed rejection is the one reported |
| RobustSenderSafety.PickFallsBack | src/evm.rs:317-321 | without such a rejection the first error is reported |
| Probing.ScanAll | src/evm.rs:670-713 | finds the hash at the first position whose probe is answered and whose transaction is there by then, and nothing exactly when there is no such position |
| Probing.ScanFindsFirst | src/evm.rs:670-677 | that for the specification, over everything the environment did up to each position |
| Probing.WaitReceiptAny | src/evm.rs:682-701 | returns the hash at the first (poll, hash) position whose probe is answered and whose transaction is mined by then; gives up exactly when there is none |
| Probing.AwaitFindsFirst | src/evm.rs:682-701 | that for the specification, with the world the wait ends in |
| RobustSender.ReactTo | src/evm.rs:581-656 | the arms after a broadcast: confirm, look up, back off, fail, replace; `TurnExactly` says which and with what new state |
| RobustSenderOutcomes.TurnExactly | src/evm.rs:555-656 | after an accepted broadcast, or a landed one with a known hash, the turn ends with the first receipt that shows and otherwise goes on to a replacement; the whole new state in every other case |
| RobustSender.TakeTurn | src/evm.rs:559-656 | one pass of the loop: fill, record, broadcast, react |
| RobustSender.SendTxRobust | src/evm.rs:525-665 | the send loop computes the specified outcome, world and recorded hashes for every tape |
| RobustSenderOutcomes.OutcomeExactly | src/evm.rs:525-665 | no receipt if and only if every turn went on and three rounds timed out or sixteen turns were used; nonce held if and only if six replies said so; a failed broadcast only for an error that tells nothing; a failed fill only without a quote |
| RobustSenderOutcomes.FillExactly | src/evm.rs:498-567 | in every run, a fill made anew keeps the gas and fees the request fixes; the first keeps its nonce, a later one takes the nonce the rejection named; the quote supplies the rest |
| RobustSenderHistory.ReplacementChain | src/evm.rs:498-656 | in every run, each envelope has the nonce and gas limit of the last fresh fill and fees of exactly min(2^k times that fill's, 2^128 - 1), k being the turns in between |
| RobustSenderHistory.NextRung | src/evm.rs:639-648 | in every run, a signing that is no fresh fill is the previous one with doubled fees |
| RobustSenderHistory.SignedIsRecorded | src/evm.rs:569-579 | in every run, the recorded hashes are exactly those of the envelopes signed |
| RobustSenderSafety.RaisedIsPower | src/evm.rs:443-461 | k saturating doublings are multiplication by 2^k, capped at 2^128 - 1 |
| RobustSenderSafety.EverySendIsRecorded | src/evm.rs:569-579 | whatever of ours is pooled or mined was recorded, and a receipt is for a recorded, mined hash, with any number of endpoints |
| RobustSenderSafety.HeldMeansForeign | src/evm.rs:603-610 | a "nonce held" reply is never about our own earlier envelope, and then nothing of ours is alive |
| RobustSenderSafety.HeldAttempt | src/evm.rs:306-321 | the same for a whole pass over the endpoints that loses no reply after hearing one |
| RobustSenderSafety.NothingFound | src/evm.rs:583-599 | a complete lookup that finds nothing proves every recorded envelope dead |
| RobustSenderSafety.TurnKeeps | src/evm.rs:555-657 | one iteration keeps: everything of ours alive was signed at the current nonce |
| RobustSenderSafety.AtMostOnce | src/evm.rs:476-494 | at most one envelope of a send is ever mined, however the network goes on |
| RobustSenderSafety.PositiveFeesReplace | src/evm.rs:433-436 | positive fees below a quarter of the 128-bit maximum clear every replacement they need |
| RobustSenderSafety.OrdinaryFeesSendOnce | src/evm.rs:476-494 | with one endpoint and positive fees up to a quarter of the 128-bit maximum, at most one envelope is ever mined |
| RobustSenderLimits.TwoEndpointsUnsafe | src/evm.rs:306-321 | with two or more endpoints some run mines two envelopes |
| RobustSenderLimits.FirstReplacementUnsafe | src/evm.rs:610-631 | fees whose doubling does not outbid them make some run mine two envelopes |
| RobustSenderLimits.SecondReplacementUnsafe | src/evm.rs:610-656 | likewise when only the second doubling fails to outbid |
| RobustSenderLimits.UnansweredLookupUnsafe | src/evm.rs:583-598 | when no endpoint answers the by-hash lookup, a lost reply can still lead to two mined envelopes |
| RobustSenderLimits.LateArrivalUnsafe | src/evm.rs:298-325 | when the bytes of a timed-out attempt arrive after the nonce was given up, two envelopes can be mined |
| RobustSenderLimits.AtMostOnceExactly | src/evm.rs:476-657 | no run mines two envelopes if and only if there is one endpoint and all fees replace themselves |
| Abi.RoundTrip | src/commands/decode.rs:503-506 | decoding the encoding of any tuple of words and byte strings gives the tuple |
| Payload.MessageTypeIsWord | src/commands/decode.rs:490-497 | the message type is the first word, if it fits 64 bits |
| Payload.GovernanceIsByWords | src/commands/decode.rs:754-819 | the byte tests recognise exactly the payloads with the stated head words |
| PayloadRoundTrips.ItsIsNotGovernance | src/commands/decode.rs:754-775 | no canonical ITS message is taken for a governance proposal |
| PayloadRoundTrips.ItsRoundTrip | src/commands/decode.rs:150-192 | every canonical ITS message of types 0, 1, 3, 4, 5, 6 decodes to its name and fields, each under its own type and label |
| PayloadRoundTrips.FieldsTyped | src/commands/decode.rs:596-676 | each message type's definition fits its fields |
| PayloadRoundTrips.GovernanceRoundTrip | src/commands/decode.rs:748-809 | a canonical proposal is parsed back, call data included, exactly when eta is sane and target not offset-like |
| PayloadRoundTrips.ProposalAsHubFrame | src/commands/decode.rs:155-160 | command 3 parses as a hub frame exactly when a string is readable at the target's offset |
| PayloadRoundTrips.GovernanceDecodesExactly | src/commands/decode.rs:150-172 | the exact condition under which a canonical proposal is reported as itself, under the name of its command |
| PayloadRoundTrips.MalformedInnerCall | src/commands/decode.rs:164-171 | decoding a canonical proposal is an error exactly when it is recognised and its inner call undecodable |
| PayloadRoundTrips.TakenForHubFrame | src/commands/decode.rs:155-160 | a command-3 proposal with a readable string at its target's offset is reported as a hub frame |
| PayloadRoundTrips.HubFrameCollision | src/commands/decode.rs:155-172 | a concrete sane proposal that is reported as a hub frame |
| PayloadRoundTrips.RealTargetsDecode | src/commands/decode.rs:746-752 | a target past the end of the payload always decodes |
| PayloadRoundTrips.GovernanceIsSound | src/commands/decode.rs:754-819 | whatever is recognised agrees byte for byte with the proposal's encoding up to the end of the call data |
| PayloadRoundTrips.CallExactly | src/commands/decode.rs:150-153 | a payload is reported as a call if and only if its selector is known and its arguments readable; known but unreadable is an error |
| PayloadRoundTrips.TextExactly | src/commands/decode.rs:178-187 | a payload is reported as text if and only if it is non-empty, printable throughout and no known call |
| PayloadRoundTrips.UnrecognisedExactly | src/commands/decode.rs:150-192 | nothing is recognised if and only if no format takes the bytes |
| SpendPolicy.Policy.Persistent | src/mcp/policy.rs:142-151 | a start reads the ledger, a missing one as zero, and refuses an unreadable one |
| SpendPolicy.Policy.WriteCount | src/mcp/policy.rs:260-277 | writes the count when there is a ledger and says whether that worked |
| SpendPolicy.Policy.Reserve | src/mcp/policy.rs:183-210 | admits, or refuses with the source's violation and an unchanged count |
| SpendPolicy.ReserveExactly | src/mcp/policy.rs:183-210 | admitted if and only if within the per-run cap, within the lifetime cap and written where there is a ledger; every violation and state after it under its own condition |
| SpendPolicy.Policy.Release | src/mcp/policy.rs:213-219 | hands back, keeping the lower count even if the write fails |
| SpendPolicy.ReleaseExactly | src/mcp/policy.rs:213-219 | the count in memory falls by the amount, not below zero, whatever becomes of the write |
| SpendPolicy.NextKeeps | src/mcp/policy.rs:183-219 | every reserve, release, failed write, kill and restart keeps admitted, in memory, on disk and cap in order |
| SpendPolicy.LedgerBoundsSpending | src/mcp/policy.rs:1-9 | over any run, in whatever state it ends, admitted <= cap; admitted <= in memory <= on disk <= cap where those exist |
| SpendPolicy.EveryAdmissionFits | src/mcp/policy.rs:184-189 | in every run, no single admission passes the per-run cap |
| SpendPolicy.CountIsExact | src/mcp/policy.rs:183-219 | while no write fails and nothing is killed, both counts are the initial one plus what was admitted and not handed back |
| SpendPolicy.CapHonouredExactly | src/mcp/policy.rs:192-201 | the lifetime cap is honoured in every run if and only if it is below 2^64 - 1 |
| CreateAddress.StripZeros | src/evm.rs:1109-1115 | the stripping loop leaves the minimal big-endian nonce |
| CreateAddress.EncodeNonce | src/evm.rs:1103-1118 | the three nonce cases are the RLP string of the minimal nonce |
| CreateAddress.ComputePreimage | src/evm.rs:1093-1135 | the bytes built are the RLP list of sender and nonce, and the long-list branch is never taken |
| CreateAddress.PreimageDecodes | src/evm.rs:1092-1135 | the preimage decodes to the pair it was built from |
| CreateAddress.OnlyPreimagesDecode | src/evm.rs:1092-1135 | a strict decoder accepts nothing but preimages, so they are minimal and unique |
| Calendar.SplitYear | src/commands/decode_sol_activity.rs:439-452 | the year loop ends in the year containing the day |
| Calendar.SplitMonth | src/commands/decode_sol_activity.rs:453-465 | the month loop always breaks, in the month containing the day |
| Calendar.TimestampFields | src/commands/decode_sol_activity.rs:432-465 | the fields are the date and minute of the timestamp if and only if it is not negative |
| Calendar.FormatTimestamp | src/commands/decode_sol_activity.rs:432-475 | the zero-padded text reads back as the timestamp's minute if and only if it is not negative; up to the year 9999 it has sixteen characters with fixed separators |
| Calendar.PrintedReadsBack | src/commands/decode_sol_activity.rs:467-474 | the printed text determines its fields |
| Calendar.PrintedLayout | src/commands/decode_sol_activity.rs:467-474 | up to the year 9999 every part of the text has its full width |
| Calendar.YearStep | src/commands/decode_sol_activity.rs:442-446 | the closed-form year starts differ by the leap rule's year length |
| Calendar.MonthStep | src/commands/decode_sol_activity.rs:453-457 | the closed-form month starts differ by the table's month lengths |
| Calendar.FieldsMonotone | src/commands/decode_sol_activity.rs:467-474 | fields are monotone in the timestamp and determined by it |
| LogScan.FindContractCallApproved | src/evm/legacy_gateway.rs:53-83 | windows of at most 100 blocks tile the range downward; no hit means no log in range is the approval wanted; a hit is one, and the first of the newest window that has any |
| LogScan.FirstOfIsFirst | src/evm/legacy_gateway.rs:64-77 | the log taken from a window is one that matches, and no earlier one does |
| UrlScrub.ScrubUrls | src/ui.rs:234-254 | the loop computes the specified redaction and always advances |
| UrlScrub.NoUrlSurvives | src/ui.rs:227-230 | nothing in the output starts a URL, seams included |
| UrlScrub.ScrubIsIdempotent | src/ui.rs:234-254 | scrubbing twice is scrubbing once |
| UrlScrub.TextIsKept | src/ui.rs:227-233 | text before the first URL is kept, the URL replaced, and scrubbing goes on behind it |
| UrlScrub.ScrubReplacesExactlyUrls | src/ui.rs:227-254 | every input is cut into URL-free text and whole URLs, and the output is that cutting with each URL replaced |
| UrlScrub.SecretsDoNotShow | src/ui.rs:227-233 | the output does not depend on what a URL contains |
| UrlScrub.UrlEndsAt | src/ui.rs:239-246 | a URL reaches up to the first blank, quote, closing bracket, comma, semicolon or angle bracket, and no further |
| Retry.RetryAsync | src/retry.rs:77-107 | a linear search for the first final answer within the attempts |
| Retry.RetryWithFallback | src/retry.rs:125-180 | a linear search in (endpoint, attempt) order, with the nominal time slept |
| Retry.BackoffSchedule | src/retry.rs:31-62 | backoff doubles from 4 s, is monotone, capped at 64 s, and never overflows |
| Retry.JitterKeepsOrder | src/retry.rs:36-62 | jittered sleeps stay within 3.2 to 76.8 s and, before the cap, a later retry always waits longer |
| Retry.ExhaustedEndpointSleeps | src/retry.rs:26-29 | an exhausted endpoint costs 124 s |
| Pagination.RegisteredChains | src/its_hub.rs:29-51 | the whole registry once, in order, after floor(n/100) + 1 queries, or the first failed query's error |
| Deposit.DepositReadsBack | src/commands/propose.rs:565-578 | the displayed figure reads back as the original micro-units |
| Deposit.DepositExactly | src/commands/propose.rs:565-578 | digits of at most 128 bits in a micro denomination are shown as that number of micro-units before the unit; anything else is shown verbatim |
| Deposit.Decimals | src/commands/propose.rs:570-577 | one to six decimals, no trailing zero, worth exactly the remainder |
| Deposit.DisplaysDiffer | src/commands/propose.rs:562-578 | different amounts are displayed differently |

## Left out

- RPC and HTTP clients, signing, keccak and key derivation: hashes are injective labels and answers are environment choices.
- Classifying errors by their text (`src/evm.rs:340-410`, `src/retry.rs:217-236`): outcomes are enumerated instead.
- Endpoint rotation (`src/evm.rs:161-169`): all endpoints of the model front the same mempool, so the order has no effect.
- The embedded ABI database and argument decoding of known calls: a parameter of the classifier.
- Lossy conversion of invalid UTF-8 in decoded strings: strings are their bytes.
- Printing, nested decoding and the printer-only fallback patterns of `src/commands/decode.rs`.
- Wall-clock timing: sleeps accumulated by the retry loops are nominal, and jitter is a real factor without rounding.
- Case folding of the chain allowlist (`src/mcp/policy.rs:165-174`) and the caps' description: easy members.
- Several servers sharing one spend ledger: outside what the code controls.
- Deposit.DepositReadsBack: upper-casing of the unit is modelled for ASCII letters only; the figure does not depend on it.
- Commands, configuration, state files and balance probes: glue without hard properties.
