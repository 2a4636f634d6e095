# Verified model of the mining pool's core

The pool credits RandomX shares, turns credits into cumulative vouchers for an ERC-20 token, and pays
Monero to whoever burns that token. This project models the parts of it whose correctness is a
statement about whole runs rather than about one call, and proves those statements in Dafny.
`dafny verify dfyconfig.toml` checks everything.

## What is modelled

- **Redemption payouts.** `Stamp` (the 16-bit id stamp and the wallet-history scan), `PayoutMath`
  (pro-rata pricing and backing), `RedemptionStore` (the Redis scripts and the id poller),
  `PayoutProtocol` (contract, wallet, Redis, poller and consumer as one transition system in which every
  await of `drain_once` is a step and both processes may stop between any two),
  `PayoutSafety`, `PayoutLedger` and `FlagSafety` (what holds over its runs), `PayoutLimits` and `LedgerLimits`
  (that it holds exactly then).
- **Mint solvency.** `Voucher` (what may be signed against a cache that loses keys) and `Mint` (rates,
  share crediting, fee swaps, claims on chain, over every run).
- **Share acceptance.** `JobStore`, `Vardiff`, `Targets` and `Session`.
- **Fast structures against simple ones.** `Hashrate` (24-bucket ring against the full share log) and
  `RateLimiter` (evicting limiter against one that never forgets).
- **Quorums.** `Quorum` (network difficulty and block committee).
- `Prelude` holds options, minima and sums over finite maps.

Where the source updates an object in place, the model is a class whose methods are proved against a
function on the object's value; the theorems over runs are about those functions. Redis scripts and
locked sections are single steps. f64 values are reals with the source's rounding and flooring written
out. The network, clocks, randomness and hash functions are parameters or arbitrary inputs.

## Main results

1. `PayoutLimits.AtMostOnceIff`: the pool pays every redemption at most once, over every run — Redis lost or
   coming back with any other contents, crashes between any two awaits, transfers executed long after their
   caller stopped, foreign transfers — **if and only if** Redis is never lost, or the settings let nothing be paid
   at all, or all of these hold:
   wallet replies are complete; a payout leaves the 4320-block scan window only after it is flagged on chain;
   with the marker configured, none leaves it between the reading of its flag and the scan; and no request
   is still unanswered at the next scan of its own id. (Without the marker nothing is ever flagged, so the second
   condition then says that no payout leaves the window.) The safe half is `PayoutSafety.NeverPaidTwice` and
   `PayoutSafety.ClaimedOnce`; the unsafe half is four reachable double payments.
2. `LedgerLimits.LedgerKeptIff`: after Redis was lost, or fell back to an older copy, the running total of owed
   amounts stays exact and the cursor gapless in every state reached, **if and only if** nothing the consumer,
   its fetched entries or the poller are in the middle of is harmful; `HarmlessWhenLost` spells the condition out,
   and three kinds of harm are shown to be reachable. While the ledger holds, all computed payouts
   together fit the wallet.
3. `FlagSafety.NeverFalselyFlagsIff`: the dual of result 1. Whatever is flagged on chain was paid by a mined transfer
   of its own or dead-lettered, over every run, **if and only if** there is no marker, or replies show as mined
   only what is and an id's stamp is on no mined transfer in scope but its own.
4. `PayoutLedger.PricingNeverOverflows`: the overflow branch is dead in every run, wipes included.
5. `Mint.MintCovered`: through key expiry, wipes, voucher replay, cut-off requests and failed chain reads,
   nothing is signed or minted beyond what was credited, nor beyond the raw value of the credited shares.
   `Mint.RestoredIff` says exactly what a miner gets back by replaying a voucher after a loss.
6. `JobStore.AcceptedExactlyOnce`: an exact characterisation of when a submission is accepted, over every
   orderly run, from which no (job, nonce) pair is accepted twice; dropping fresh ids, heights or the clock
   from the promises each gives a replay.
7. `Vardiff.ControllerComesToRest` and `Vardiff.RestsIff`: a miner of any hash rate brings the controller to
   rest, and exactly where.
8. `Session.CreditsWithinUpstream`, and `Session.ConsistentIff` with `ToldIsHonoured`: exactly when a miner is judged
   at the difficulty it was last told.
9. `Hashrate.WindowedHashrate.Read`, `RateLimiter.EvictionUnobservable`, `RateLimiter.AdmissionBounded`, and the
   quorum theorems.

## Assumptions of the payout theorems

One consumer is live at a time and the per-transfer cap is constant. A JSON-RPC error reply to `transfer`
means nothing was broadcast. A dropped transaction stays dropped and there are no reorganisations. A Redis
command takes effect during its call or not at all. A stream entry may be delivered again until it is
acknowledged. Everything else in results 1 to 3 is a field of `PayoutProtocol.Config` or a condition on the state,
and is shown necessary there.

## Where code and comments disagree

The model follows the code in each case.

- crates/redemption-watcher/src/payouts.rs:656-657 says a payout whose confirmation wait timed out is marked
  on a later drain. The entry is acknowledged at lines 680-682, so only a re-enqueue after a Redis loss looks
  at it again. Once it is older than the scan window nothing recognises it: `AgedPayoutPaysTwice`.
- crates/pool-core/src/store.rs:80-81 says losing the fee counter would mint fees again. The swap delta is
  computed against the on-chain watermark, so nothing is minted until new accruals pass it:
  `SwapNeverPassesAccrual`.
- contracts/src/MiningPoolToken.sol:56-57 says a redemption is marked when its payout is broadcast; the
  consumer marks it only after it is mined.
- crates/stratum-proxy/src/session.rs:318-319 and 559-560 say that submits are judged at the number served with the
  job. A second login on the same job sends a retargeted number while the first one stays noted:
  `SecondLoginMisjudges`.

- crates/pool-core/src/store.rs:18-21 and 195-196 say that a miner whose balance was evicted is only under-served until
  they restore, and that a replay cannot clobber credit accrued since. The replay takes a maximum: what was credited
  between the loss and the replay is swallowed as far as the voucher covers it, and what was unsigned at the loss
  does not come back: `RestoredIff`, `SwallowedIsRefused`.

## Model

| member | source | states |
|---|---|---|
| Stamp.StampIsLargest | crates/pool-core/src/redemption.rs:25-44 | the stamped amount is the largest value not above the payout that carries the id; it is positive and less than 65536 below the payout |
| Stamp.SameResidueApart | crates/pool-core/src/redemption.rs:46-50 | two values with one stamp are equal or at least 65536 apart |
| Stamp.PushHits | crates/redemption-watcher/src/payouts.rs:726-748 | one pass appends exactly the hits of its list, in order |
| Stamp.StampMatchInResult | crates/redemption-watcher/src/payouts.rs:720-755 | the three passes return no match, the single hit, or ambiguity, as the hit list of the whole history says |
| Stamp.HitsInExact | crates/redemption-watcher/src/payouts.rs:729-748 | a transfer is reported if and only if it is in scope, positive and carries the stamp |
| Stamp.ScanExactIff | crates/redemption-watcher/src/payouts.rs:720-755 | with all paid ids in one span of 65536 and none paid twice, the scan matches exactly when a transfer of that redemption is in view, matches that one and is never ambiguous, if and only if no transfer in view that pays nobody carries the stamp |
| Stamp.StampIsOwner | crates/pool-core/src/redemption.rs:46-50 | within a span a stamp names exactly its redemption |
| RedemptionStore.Store.EnqueueRedemption | crates/pool-core/src/store.rs:231-275 | inserts once: records state and amount, adds to both totals and the stream, and changes nothing for a known id |
| RedemptionStore.Store.TryMarkInFlight | crates/pool-core/src/store.rs:300-319 | claims if and only if the id is pending, and then moves only that id to in-flight |
| RedemptionStore.Store.MarkRedemptionSent | crates/pool-core/src/store.rs:325-354 | settles once; debits the recorded amount exactly when the id was pending or in flight |
| RedemptionStore.Store.PollPage | crates/redemption-watcher/src/events.rs:104-122 | enqueues the page's ids in order up to the first amount that does not fit and leaves the cursor there |
| RedemptionStore.Store.PollTick | crates/redemption-watcher/src/events.rs:84-125 | the whole store after a tick: the page after the cursor is polled, and the number of new ids is returned |
| RedemptionStore.PolledCovers | crates/redemption-watcher/src/events.rs:104-122 | polling leaves no gap behind the cursor, keeps earlier records and adds exactly the ids of the page |
| RedemptionStore.PolledEnqueues | crates/redemption-watcher/src/events.rs:104-122 | each new id is pending, with its burned amount, and on the stream |
| RedemptionStore.PolledCounts | crates/redemption-watcher/src/events.rs:104-122 | each new id is counted once, however often it is polled |
| RedemptionStore.PolledCounted | crates/redemption-watcher/src/events.rs:104-122 | polling keeps the total exact |
| RedemptionStore.LastFittingStops | crates/redemption-watcher/src/events.rs:176-182 | the poller stops exactly before the first id whose amount does not fit 63 bits |
| RedemptionStore.ClaimCounted | crates/pool-core/src/store.rs:239-249 | enqueuing keeps the total equal to the sum of the undebited amounts |
| RedemptionStore.MarkSentCounted | crates/pool-core/src/store.rs:327-342 | settling keeps the total exact and debits an id at most once ever |
| RedemptionStore.SetStateCounted | crates/redemption-watcher/src/payouts.rs:343-372 | a raw state write keeps the total exact if and only if it does not reopen an id that is not owed |
| RedemptionStore.NeverUnderCounts | crates/pool-core/src/store.rs:356-368 | the reported total is at least the sum of all pending, in-flight and paused amounts; each of them is recorded and at most the total |
| PayoutMath.PayoutWithinPremium | crates/redemption-watcher/src/payouts.rs:483-499 | a payout is at most the burned amount plus the premium |
| PayoutMath.CoveredNeverOverflows | crates/redemption-watcher/src/payouts.rs:496-514 | if the pending total covers the entry, the 128-bit overflow branch is not taken |
| PayoutMath.CappedNeverOverflows | crates/redemption-watcher/src/payouts.rs:496-514 | nor is it for a 64-bit amount under a 32-bit premium, whatever is pending |
| PayoutMath.PayoutsFitWallet | crates/redemption-watcher/src/payouts.rs:465-499 | all covered redemptions priced at one snapshot sum to at most the balance and at most the capped issued value |
| PayoutMath.FullyBackedPaysExactly | crates/redemption-watcher/src/payouts.rs:488-499 | without premium and fully backed, the payout before stamping is the burned amount |
| PayoutMath.SettlementKeepsBacking | crates/redemption-watcher/src/payouts.rs:465-572 | one settlement, stamped down or unpaid, does not lower balance over backed tokens |
| PayoutMath.BackingNeverFalls | crates/redemption-watcher/src/payouts.rs:465-572 | neither does any sequence of settlements |
| PayoutMath.DilutesIff | crates/redemption-watcher/src/payouts.rs:465-499 | a payment lowers balance over backed tokens if and only if it exceeds the share computed against what is backed |
| PayoutMath.UnderCountDilutes | crates/redemption-watcher/src/payouts.rs:465-499 | for every under-counted denominator: it does if the payout exceeds that share by a stamp unit, and does not if the payout does not exceed it |
| PayoutSafety.CleanScan | crates/redemption-watcher/src/payouts.rs:385-420 | a complete scan without a match of everything in scope, with no request for the id unanswered, means no open transfer pays the redemption |
| PayoutSafety.PricedIsStamped | crates/redemption-watcher/src/payouts.rs:568-572 | whatever the snapshot, a transfer the consumer asks for is positive and carries its id |
| PayoutSafety.StepKeepsWipeInv | crates/redemption-watcher/src/payouts.rs:343-690 | every step, wipes included, keeps: at most one open transfer per id, all payouts stamped, every live payout in scan scope or flagged, and what the consumer has established about its entry |
| PayoutSafety.NeverPaidTwice | crates/redemption-watcher/src/payouts.rs:360-690 | under the trusted conditions no state of any run, with late executions and any contents coming back in Redis, has two open transfers for one redemption |
| PayoutSafety.WorkStates | crates/redemption-watcher/src/payouts.rs:343-690 | no step of a pass returns an id to pending, except rolling back the consumer's own claim |
| PayoutSafety.StepKeepsCasInv | crates/pool-core/src/store.rs:300-354 | without wipes every step keeps: a redemption with a request that was not refused is never free to be claimed |
| PayoutSafety.WentOutStays | crates/redemption-watcher/src/payouts.rs:585-650 | a transfer that went out stays in the wallet's history over the rest of the run |
| PayoutSafety.ClaimedOnce | crates/redemption-watcher/src/payouts.rs:422-439 | without wipes, with no marker and no trust in wallet replies: at most one unrefused request per id, and after a transfer went out its id is never pending again |
| PayoutLedger.WritesKeepCounted | crates/redemption-watcher/src/payouts.rs:343-690 | every write of the consumer, raw ones included, keeps the total exact and appends at most one new debit |
| PayoutLedger.WellFormedAt | crates/redemption-watcher/src/payouts.rs:318-342 | in every run whose stream holds burned amounts, everything fetched, worked on or polled is about a burn on chain, below the cap once past the check |
| PayoutLedger.InitLedger | crates/redemption-watcher/src/payouts.rs:343-690 | the ledger is in order from the start |
| PayoutLedger.StepKeepsLedger | crates/redemption-watcher/src/payouts.rs:343-690 | every step without a loss keeps the ledger: exact total, amounts matching burns, no gap behind the cursor, and nothing harmful under way |
| PayoutLedger.TotalsNeverUnderCount | crates/pool-core/src/store.rs:231-368 | from a harmless beginning, in every state until the next loss: all unpaid records have their amounts in an exact total, no id is debited twice and no burn behind the cursor was skipped |
| PayoutLedger.PricingNeverOverflows | crates/redemption-watcher/src/payouts.rs:496-514 | the overflow branch is unreachable in every run, whatever happens to Redis and whatever the snapshot says |
| PayoutLedger.OutstandingFitsWallet | crates/redemption-watcher/src/payouts.rs:465-499 | from a harmless beginning, in every state, paying all outstanding redemptions at one snapshot stays within wallet and cap |
| PayoutLimits.LateTransferPaysTwice | crates/redemption-watcher/src/payouts.rs:585-592 | if a request may be unanswered at the next scan of its id, a state with two live transfers for one id is reachable |
| PayoutLimits.EmptyReplyPaysTwice | crates/redemption-watcher/src/payouts.rs:170-180 | if a reply without a result is read as an empty history, such a state is reachable |
| PayoutLimits.AgedPayoutPaysTwice | crates/redemption-watcher/src/payouts.rs:650-682 | if an unflagged payout may leave the scan window, such a state is reachable |
| PayoutLimits.AgedMidCheckPaysTwice | crates/redemption-watcher/src/payouts.rs:360-395 | if a payout may leave the window between the reading of its flag and the scan, such a state is reachable |
| PayoutLimits.NothingAskedAt | crates/redemption-watcher/src/payouts.rs:483-514 | where no amount below the cap is worth a stamp unit, nothing is ever asked of the wallet |
| PayoutLimits.AtMostOnceIff | crates/redemption-watcher/src/payouts.rs:360-690 | at-most-once over all runs holds if and only if Redis is never lost, or nothing can be paid, or all the conditions hold; for every start id, cap and premium |
| LedgerLimits.HarmBreaks | crates/redemption-watcher/src/payouts.rs:343-690 | from every state with something harmful under way a state is reached in which the ledger fails; a fetched entry comes up by the pass going on to its end |
| LedgerLimits.LedgerKeptIff | crates/redemption-watcher/src/payouts.rs:343-690 | from a store in order, the ledger holds in every state reached without a further loss if and only if nothing under way is harmful |
| LedgerLimits.HarmlessWhenLost | crates/redemption-watcher/src/payouts.rs:343-690 | the condition for an empty store: which consumer points, fetched entries and poller points are harmless |
| LedgerLimits.AtRestIsHarmless | crates/redemption-watcher/src/payouts.rs:343-690 | with nothing under way every store in order is a harmless beginning |
| LedgerLimits.LostMidPass | crates/redemption-watcher/src/payouts.rs:447-464 | a loss between claim and rollback reaches a harmful state |
| LedgerLimits.LostMidPage | crates/redemption-watcher/src/events.rs:104-122 | a loss between enqueuing an id and moving the cursor reaches a harmful state |
| LedgerLimits.LostWithBatch | crates/redemption-watcher/src/payouts.rs:343-353 | a loss with an over-cap entry fetched reaches a harmful state |
| LedgerLimits.UnpolledBurnDilutes | crates/redemption-watcher/src/payouts.rs:465-466 | with the ledger in order and no loss, a burn not yet polled is missing from the denominator, and a settlement lowers the backing |
| FlagSafety.MatchIsPaid | crates/redemption-watcher/src/payouts.rs:395-411 | a single confirmed match, with true replies and stamps of its own, is a mined transfer of that redemption |
| FlagSafety.SpanIsOwn | crates/pool-core/src/redemption.rs:46-50 | inside one span of 65536 ids, with no lookalike, an id's stamp is its own |
| FlagSafety.RunKeepsFlags | crates/redemption-watcher/src/payouts.rs:395-682 | every step keeps all flags true and what the consumer knows of the transfer it is about to flag |
| FlagSafety.InventedTransferFlags | crates/redemption-watcher/src/payouts.rs:395-411 | a reply that shows a transfer the wallet never made leads to a false flag |
| FlagSafety.LookalikeFlags | crates/redemption-watcher/src/payouts.rs:395-411 | so does a transfer that pays nobody and carries the stamp |
| FlagSafety.NeverFalselyFlagsIff | crates/redemption-watcher/src/payouts.rs:648-682 | no flag is ever false, over every run, if and only if there is no marker or both are excluded |
| Voucher.DecideExact | crates/pool-core/src/voucher.rs:49-67 | a voucher is signed exactly for a positive slice of what is earned beyond both watermarks, stacked on the higher one |
| Voucher.SlicesCompose | crates/pool-core/src/voucher.rs:49-67 | two slices issued in turn are worth one for their sum |
| Voucher.RestoreMerges | crates/pool-core/src/store.rs:199-222 | replaying vouchers is idempotent, commutes, and equals restoring the larger |
| Voucher.Service.Credit | crates/accountant/src/lib.rs:16-45 | adds the floored credit to the miner and, only if that is positive, the floored fee to the pool |
| Voucher.Service.IssueVoucher | crates/voucher-signer/src/lib.rs:162-215 | the decision, the raised watermark and the signed set; a failed chain read counts as zero; never beyond what is earned |
| Voucher.Service.RestoreVoucher | crates/voucher-signer/src/lib.rs:227-265 | succeeds if and only if this pool signed that cumulative, and then only raises |
| Voucher.Service.Available | crates/voucher-signer/src/lib.rs:143-160 | positive if and only if a voucher for everything would be signed, and then exactly its slice |
| Mint.RatesFitRaw | crates/pool-core/src/pps.rs:40-49 | miner rate, fee and buffer are non-negative and come out of one raw credit |
| Mint.ShareWorth | crates/accountant/src/lib.rs:22-44 | the two floored parts of a share are together worth at most its raw value |
| Mint.MintableFeeIsLargest | crates/redemption-watcher/src/fee_swap.rs:295-303 | a mint keeps the reserve if and only if it is within the computed bound |
| Mint.SwapNeverPassesAccrual | crates/redemption-watcher/src/fee_swap.rs:312-326 | a swap never passes the counter nor the caps, and is zero exactly when nothing is accrued beyond the watermark or a cap is zero |
| Mint.StepKeepsSolvent | crates/voucher-signer/src/lib.rs:162-265 | credit, expiry, wipe, issue, replay, fee tick and claim each keep every signed and claimed cumulative within what was credited |
| Mint.MintCovered | crates/redemption-watcher/src/fee_swap.rs:121-180 | in every state of every run: signed and claimed at most credited, and all tokens minted at most the raw value of the credited shares |
| Mint.ClaimsMintLargest | contracts/src/MiningPoolToken.sol:143-162 | any sequence of vouchers mints exactly the largest cumulative beyond the starting watermark |
| Mint.LosslessPaysInFull | crates/voucher-signer/src/lib.rs:162-215 | without loss, asking for everything gets exactly everything credited, or is refused because the watermark or the chain already stands there |
| Mint.UndisturbedSignsInFull | crates/voucher-signer/src/lib.rs:162-215 | if moreover no request is cut off before its signature, it is refused if and only if all of it is already signed or claimed |
| Mint.CutIssueStrands | crates/voucher-signer/src/lib.rs:188-205 | a request cut off between watermark and signature signs nothing and makes the next one be refused, whatever the chain says |
| Mint.RestoredIff | crates/pool-core/src/store.rs:192-222 | after a loss and some credit, replaying a voucher leaves missing what was unsigned at the loss and what the voucher covers of the later credit; it brings everything back if and only if all was signed and nothing was credited in between |
| Mint.SwallowedIsRefused | crates/voucher-signer/src/lib.rs:227-265 | while no more was credited since than the voucher is worth, asking after the replay is refused |
| JobStore.Jobs.PublishJob | crates/stratum-proxy/src/jobs.rs:117-136 | supersedes the last job, appends the new one and drops the oldest beyond the ring size |
| JobStore.Jobs.RecordSubmission | crates/stratum-proxy/src/jobs.rs:148-184 | unknown, stale (nonces dropped), duplicate or accepted (nonce recorded), with the whole new ring |
| JobStore.StaleForGood | crates/stratum-proxy/src/jobs.rs:165-179 | a stale entry stays stale under later clocks and higher heights |
| JobStore.AcceptsIffNew | crates/stratum-proxy/src/jobs.rs:148-184 | with exact nonce sets a submission is accepted exactly when its job is present and not stale and the pair is new |
| JobStore.AcceptedExactlyOnce | crates/stratum-proxy/src/jobs.rs:117-184 | over every orderly run no pair was accepted twice, and the next submission is accepted exactly when present, not stale and new |
| JobStore.LowerIdempotent | crates/stratum-proxy/src/jobs.rs:148-157 | lower-casing a nonce twice is lower-casing it once |
| JobStore.HeightDropReplays | crates/stratum-proxy/src/jobs.rs:165-179 | if the current height may fall or go missing within the grace window, a run replays an accepted nonce, for every such family of jobs |
| JobStore.ClockBackReplays | crates/stratum-proxy/src/jobs.rs:165-179 | if the clock may run back, a run does |
| JobStore.ReusedIdReplays | crates/stratum-proxy/src/jobs.rs:117-136 | if a job id may come back after a ring of others, a run does |
| Vardiff.Controller.constructor | crates/stratum-proxy/src/vardiff.rs:44-62 | starts at the initial difficulty or the floor, uncapped, with an empty window, whatever the step factors |
| Vardiff.Controller.SetUpstreamCap | crates/stratum-proxy/src/vardiff.rs:71-80 | the new state; from here on the difficulty is within its bounds |
| Vardiff.Controller.RecordShare | crates/stratum-proxy/src/vardiff.rs:82-95 | the new window, in which every interval was recorded at the present difficulty |
| Vardiff.Controller.RetargetNow | crates/stratum-proxy/src/vardiff.rs:114-169 | the new state; bounds and unmixed window are kept |
| Vardiff.MoveApproaches | crates/stratum-proxy/src/vardiff.rs:137-169 | a decision stays in bounds and step factors, approaches the bounded wish without crossing, and rests exactly when settled, there, or when a factor rounds to nothing |
| Vardiff.RetargetBounded | crates/stratum-proxy/src/vardiff.rs:122-169 | after the first cap: bounds and gain/drop factors hold, and the window is emptied exactly when the difficulty moves |
| Vardiff.RetargetInRange | crates/stratum-proxy/src/vardiff.rs:122-169 | whatever the step factors, a retarget ends inside the bounds |
| Vardiff.RoundIsSteadyStep | crates/stratum-proxy/src/vardiff.rs:82-169 | a full window from a steady miner of any hash rate, clipped intervals included, makes the controller take exactly the steady step |
| Vardiff.StepApproachesGoal | crates/stratum-proxy/src/vardiff.rs:122-169 | that step stays between the present difficulty and the rounded, clamped ideal, and is strictly nearer when it moves |
| Vardiff.Converges | crates/stratum-proxy/src/vardiff.rs:122-169 | a steady miner's difficulty reaches a fixpoint within as many changes as its distance to the goal, never leaving the stretch to it |
| Vardiff.ControllerComesToRest | crates/stratum-proxy/src/vardiff.rs:122-169 | the same of the controller itself over every run of full-window retargets, whatever the clock readings |
| Vardiff.RestsIff | crates/stratum-proxy/src/vardiff.rs:122-169 | a difficulty is a fixpoint if and only if it is in the dead-band, at the bounded wish, or short of it by a step that rounds to nothing |
| Vardiff.RetargetRestsIff | crates/stratum-proxy/src/vardiff.rs:122-169 | the same of any retarget, in terms of its window and gap |
| Vardiff.RestsInBandOrAtBound | crates/stratum-proxy/src/vardiff.rs:122-169 | so above a small difficulty a fixpoint is inside the dead-band or at a bound |
| Targets.HexRoundTrip | crates/pool-core/src/stratum.rs:11-42 | decoding undoes encoding |
| Targets.LeRoundTrip | crates/pool-core/src/stratum.rs:11-42 | little-endian bytes carry their value |
| Targets.TargetRoundTrip | crates/pool-core/src/stratum.rs:11-30 | the decoded target is a difficulty at least the encoded one, with the same target, and the largest 64-bit one with it |
| Targets.MeetsIsAntitone | crates/randomx-verify/src/lib.rs:32-40 | a hash that meets a difficulty meets every lower one |
| Targets.AdvertisedIsEnough | crates/pool-core/src/stratum.rs:11-30 | a hash found against the advertised target meets the recorded difficulty |
| Targets.ToldMeetsIff | crates/randomx-verify/src/lib.rs:32-40 | all hashes good for a told target meet a judging difficulty if and only if that is at most what the target says |
| Session.MinerSession.ServeJob | crates/stratum-proxy/src/session.rs:555-575 | caps, retargets and notes the offer, in that order |
| Session.MinerSession.Login | crates/stratum-proxy/src/session.rs:304-337 | the whole new session state, with or without a current job |
| Session.MinerSession.PushJob | crates/stratum-proxy/src/session.rs:555-575 | the new state; a session not logged in is left alone |
| Session.MinerSession.Submit | crates/stratum-proxy/src/session.rs:356-537 | the new state and the reply: judged and credited at the difficulty noted for the job, or the floor |
| Session.OutcomeIsJudged | crates/stratum-proxy/src/share.rs:36-85 | full verification and the spot-check path both accept only on the hash they stand on, and refuse or err without one |
| Session.CheckDiffWithinJob | crates/stratum-proxy/src/session.rs:258-271 | whatever the ring of offers forgot, the judging difficulty is between the floor and the upstream difficulty of the job as noted, and exactly when it is within that of the job as it is now |
| Session.CreditsWithinUpstream | crates/stratum-proxy/src/session.rs:418-488 | in every run every credit is within those bounds and its hash meets it; it is forwarded exactly when the hash meets upstream difficulty; unless the job's id was issued again with a lower one, and the floor permitting, such a hash is always credited and forwarded |
| Session.ReissueMisjudges | crates/stratum-proxy/src/session.rs:418-425 | if it was, a hash that meets upstream difficulty is turned down |
| Session.ToldIsAcceptedIff | crates/stratum-proxy/src/session.rs:418-488 | all hashes good for the target last told for a job are accepted if and only if the judging difficulty is at most what that target says |
| Session.ConsistentIff | crates/stratum-proxy/src/session.rs:312-322 | over a session the notes agree with what the miner was last told if and only if no event sent a noted job again at another difficulty |
| Session.FreshSendsTellOnce | crates/stratum-proxy/src/session.rs:562-566 | a session that never sends a noted job again is such a session |
| Session.ServeIsLast | crates/stratum-proxy/src/session.rs:312-322 | a served job is the last one, told at the current difficulty under its own cap |
| Session.SubmitKeepsLast | crates/stratum-proxy/src/session.rs:356-537 | no submission changes that |
| Session.ResendTellsOnceIff | crates/stratum-proxy/src/session.rs:312-322 | sending the last job again is harmless if and only if the retarget rests |
| Session.ToldIsHonoured | crates/stratum-proxy/src/session.rs:418-488 | in such a session every share good for the told target is credited, at the told difficulty while the job is noted and at the floor after |
| Session.SecondLoginMisjudges | crates/stratum-proxy/src/session.rs:304-337 | the failing input: two logins 100 s apart on one job, told 14000, judged at 20000 |
| Hashrate.BucketsMatchLog | crates/pool-core/src/metrics.rs:95-103 | bucketing displaces a share by less than one bucket and counts it once |
| Hashrate.OverwrittenIsOld | crates/pool-core/src/metrics.rs:95-103 | an overwritten bucket started at least a window ago |
| Hashrate.RingRoll | crates/pool-core/src/metrics.rs:95-103 | advancing the head and writing is appending a bucket over the oldest |
| Hashrate.RingMatchesLog | crates/pool-core/src/metrics.rs:82-118 | the ring's total lies between the log of the last 115 s and of the last 120 s |
| Hashrate.WindowedHashrate.Observe | crates/pool-core/src/metrics.rs:95-103 | keeps the ring in step with the log |
| Hashrate.WindowedHashrate.Read | crates/pool-core/src/metrics.rs:105-118 | the total counts every share of the last 115 s and none older than 120 s |
| RateLimiter.CircuitLimiter.AllowRequest | crates/crossroads-oracle/src/server.rs:103-121 | the answer and the new buckets, sweep included |
| RateLimiter.RefillComposes | crates/crossroads-oracle/src/server.rs:63-67 | refilling in two goes is refilling in one |
| RateLimiter.EvictionUnobservable | crates/crossroads-oracle/src/server.rs:103-121 | for every request sequence the evicting limiter gives the answers of the one that never forgets |
| RateLimiter.AdmissionBounded | crates/crossroads-oracle/src/server.rs:59-121 | within a span T at most rate*(1+T) requests per circuit and globalRate*(1+T) in all are admitted |
| Quorum.DecideQuorum | crates/pps-rate/src/lib.rs:221-260 | returns the one backed difficulty at the highest height with a backed one, or says why there is none |
| Quorum.VerdictUnique | crates/pps-rate/src/lib.rs:221-260 | the verdict depends only on the multiset of samples |
| Quorum.AnswerIsHonest | crates/pps-rate/src/lib.rs:221-260 | with fewer liars than the quorum the answer was reported by an honest node |
| Quorum.NeverAmbiguous | crates/pps-rate/src/lib.rs:249-253 | nor can they make honest nodes on one chain look split |
| Quorum.AgreeingHonestDecide | crates/pps-rate/src/lib.rs:221-260 | nor keep a quorum of agreeing honest nodes from being heard |
| Quorum.QuorumOfLiarsDictates | crates/pps-rate/src/lib.rs:221-260 | a full quorum of liars above every honest height dictates the answer |
| Quorum.QuorumTip | crates/crossroads-oracle/src/source.rs:22-28 | none exactly when too few answered, else the largest height that at least a quorum reaches |
| Quorum.QuorumHash | crates/crossroads-oracle/src/source.rs:32-41 | a most frequent hash with its count if that meets the quorum, none exactly when no hash does |
| Quorum.AgreedUnique | crates/crossroads-oracle/src/source.rs:32-41 | if twice the quorum exceeds the votes, at most one answer is possible |
| Quorum.TieWithin | crates/crossroads-oracle/src/source.rs:32-41 | otherwise, for every committee size, some votes leave two |
| Quorum.FetchConfirmed | crates/crossroads-oracle/src/source.rs:100-139 | confirms if and only if a quorum of tips is deep enough, a quorum holds the block final where asked, and a quorum agrees on a hash; each refusal has its exact condition |
| Quorum.ConfirmedHashIsHonest | crates/crossroads-oracle/src/source.rs:127-129 | with fewer liars than the quorum the confirmed hash was returned by an honest member |

## Left out

- Sockets, TLS, Tor, HTTP, JSON and CBOR decoding, HashVault and monerod clients: their results are inputs.
- RandomX, keccak, ECDSA, EIP-712 and key derivation: an abstract hash and an unforgeable set of signed vouchers.
- Redis stream parsing (XAUTOCLAIM, XREADGROUP): any unacknowledged entry may be handed out.
- Lua doubles and 64-bit overflow inside Redis, and `block_number + min_confirmations` overflow: integers are unbounded there.
- f64 rounding error in difficulty, rate, fee and limiter arithmetic: reals are exact.
- Liveness of payouts: a crash between the enqueue script and its stream append loses the entry, and the model allows that.
- PayoutLimits.AtMostOnceIff: takes a page size of at least one; with none the poller does nothing.
- PayoutMath.BackingNeverFalls: ignores the network fee, which the pool pays on top of the stamped amount, and takes denominators that cover what is backed; `UnpolledBurnDilutes` shows that a burn the poller has not reached is not covered.
- LedgerLimits.LedgerKeptIff: where an over-cap entry was fetched with a pass that has its scan before it, takes it that some reply to that scan is not ambiguous; otherwise the pass breaks off and drops the entry.
- PayoutLedger.WellFormedAt: takes it that stream entries tell burned amounts, also in a copy of Redis that comes back.
- Vardiff.Controller.RetargetNow: step factors in the wrong order are excluded, because the source panics on them.
- Voucher.Service.Credit: does not model the per-miner metrics written beside the balances.
- Mint.MintCovered: takes the rate and the fee of a share from one publish, and does not model the DEX quote and gas checks of the fee tick.
- The 8-byte branch of the target decoder is decoded but no property is claimed of it: nothing the pool prints uses it.
- The random choice of shares to verify in full: it is an input of `Submit`.
- `pick_weighted` and node health scores: they choose whom to ask, not what is concluded.
- `single_active`, `self_fund`, `plan_topup`, `reconnect_delay`, `effective_pool_fee`, configuration, binaries and the operator API: small policies that would add easy members.
