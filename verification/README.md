# Verified model of the Mugle mining pool

A Dafny model of the parts of the pool where a mistake loses shares or money, with proofs of what
those parts keep. `dafny verify dfyconfig.toml` checks all of it.

| file | models |
|---|---|
| `Consensus.dfy` | graph weight, difficulty and the packing of proof nonces (`consensus.rs`) |
| `Stratum.dfy`, `StratumLaws.dfy`, `StratumSafety.dfy`, `StratumPool.dfy`, `StratumExamples.dfy` | the stratum main loop: a state machine over workers, job, duplicate map and job versions; what each step achieves, in literal terms; its invariants; the `Worker` and `Pool` objects that update those fields in place; concrete runs (`worker.rs`, `pool.rs`) |
| `Ledger.dfy`, `LedgerLaws.dfy`, `LedgerSafety.dfy`, `LedgerServices.dfy`, `LedgerExamples.dfy` | balances, payments, pool blocks and credits under services that fail part of the way: state machine, what each step achieves, invariants, session and payment objects, two concrete runs (`payments.py`, `paymentMaker.py`, `poolblockUnlocker.py`, `tidyWallet.py`, `pool_utxo.py`, `database.py`) |
| `WorkerShares.dfy`, `ShareAggr.dfy`, `SharePipeline.dfy` | share messages, their cache, commit passes and rows (`shareAggr.py`, `worker_shares.py`) |
| `PoolStats.dfy`, `PoolStatsService.dfy` | statistics records, running totals and their rebuild (`poolstats.py`, `pool_stats.py`) |
| `Payout.dfy`, `PayoutMap.dfy` | share values and the payout map of a block (`pool.py`) |
| `ReportedSizes.dfy` | what sizes in stratum reports do to payout maps |
| `Credits.dfy` | share credits, reward estimates and grouping of rate rows in the web API (`utils.ts`) |
| `Basics.dfy`, `Sums.dfy` | optional values, powers of two, finite sums |

Each protocol is a datatype state with a `Step` function, an `IsRun` predicate over finite runs whose
events come in any order and carry every failure point, and an invariant kept by every step. The objects
that the program mutates are classes; each method's `ensures` ties the object's new view to the
specification function of the step, so what is proved about runs holds of those methods. Iteration over
hash maps and dictionaries picks elements in an arbitrary order. Fields marked as history record what
happened and are read by no step.

## Where the code does not do what one would expect

These are results of the model; the code is modelled as it is.

* `cancel_tx_slate` marks a payment expired before it has looked up the balance row, and does not roll
  back when it fails after that. A later cancellation in the same tidy session commits the mark without
  the refund. Balances equal credits less non-expired payments exactly in the runs where this does not
  happen (`LedgerSafety.NonExpiredIdentity`, `LedgerExamples.StrayMarkLosesARefund`).
* A posted or confirmed payment can still be refunded exactly while it is on the list of the running
  cancellation pass, that is when it was posted after the pass had listed it as sent
  (`LedgerSafety.PostedCanBeRefundedIff`, `LedgerExamples.ListedPaymentPostedThenRefunded`).
* `credit_worker` commits in the middle of a block's payment when it creates a row. A failure after that
  leaves the block paid with only a prefix of its entries credited
  (`LedgerSafety.MissingRowAllowsPartialPayment`). Payment is all or nothing exactly when every user of the
  payout map already has a row (`LedgerSafety.PayBlockAtomicIff`).
* A commit pass that dies inside a height can have stored part of it and keeps it cached, so those shares are
  stored again later (`ShareAggr.ConservedIffNoneStoredTwice`, `ShareAggr.DyingPassStoresTwice`).
* `Pool_stats.get_by_height(0)` answers the highest record, so a rebuild from height 1 builds on that one
  (`PoolStats.RebuildFromOneIsTrue`). Records begin at the height of the first stored block plus the
  configured averaging range, so there is a record 1 to be marked dirty only when that sum is 0
  (`PoolStats.RebuildFromOneCountsTwice`) or 1 (`PoolStats.RebuildOfSeedIsTrue`).
* `get_share_scale` has no value for exactly the sizes that the stratum pool refuses
  (`ReportedSizes.RefusedSizesHaveNoScale`). The pool tallies a duplicate before it checks the size, so a
  report can hold such a size (`StratumExamples.SizeThirtyIsReported`). A share of a refused size enters the
  tally exactly when its proof has been seen before (`StratumSafety.RefusedSizeIsTalliedIff`), and in every
  run only as rejected (`StratumSafety.RefusedSizesAreOnlyRejected`). Once such a report's message is
  committed, the payout map of every window over that height raises an exception, although the entry has no
  valid share (`ReportedSizes.DuplicateStopsPayouts`, `PayoutMap.CalculateBlockPayoutMap`).
* A share is verified under the low byte of its size and booked under the whole size. The two agree exactly
  for sizes below 256 (`StratumExamples.CheckedAsBookedIff`, `StratumExamples.LargeSizeIsReported`); one valid
  share booked under size 285 outweighs its window (`ReportedSizes.LargeSizeTakesTheReward`).
* A message whose handler dies between two sizes is delivered again, and what the first try had merged is
  booked twice (`SharePipeline.RedeliveredIsBookedOnceIff`).
* The height prefix of a job id comes off exactly when the server's id is below the height, and a good
  share at height zero makes the remainder panic (`StratumSafety.JobIdRoundTrip`,
  `StratumExamples.PanicAtHeightZero`).
* `Worker_shares.get_by_height(h, r)` covers r + 2 heights (`Payout.WindowSums`).
* The "difficulty below 1" exit of the share check cannot be taken
  (`StratumSafety.BelowOneIsDead`,
  `Consensus.UnscaledDifficultyThreshold`).

## Model

| member | source | states |
|---|---|---|
| Consensus.GraphWeightFits | stratum/src/pool/consensus.rs:39-50 | for proof sizes 24 to 63 neither the expiry height nor the weight leaves 64 bits |
| Consensus.GraphWeightNeverIncreases | stratum/src/pool/consensus.rs:39-50 | for a fixed size, weight never grows with height |
| Consensus.GraphWeightZero | stratum/src/pool/consensus.rs:41-49 | weight is zero exactly from expiry plus (size - 1) weeks on |
| Consensus.FreshGraphWeight | stratum/src/pool/consensus.rs:39-50 | a graph of 31 + k bits weighs 2^(8+k) * (31+k) below height 2^k * 524160 |
| Consensus.ExpiringGraphWeight | stratum/src/pool/consensus.rs:44-49 | from that height on it loses one bit at once and one more each 10080 blocks |
| Consensus.SmallGraphWeight | stratum/src/pool/consensus.rs:39-50 | the weight of graphs of 24 to 31 bits at every height, with expiry at 524160 |
| Consensus.ShiftFitsU128 | stratum/src/pool/consensus.rs:141 | a 64-bit scale shifted by 64 fits 128 bits |
| Consensus.UnscaledDifficultyThreshold | stratum/src/pool/consensus.rs:140-143 | for 1 <= d < 2^64 the unscaled difficulty reaches d exactly when max(1, hash) * d <= 2^64, and it is never below 1 |
| Consensus.DifficultyThreshold | stratum/src/pool/consensus.rs:164-172 | a difficulty d >= 2 is reached exactly when max(1, hash) * d is at most 2^64 times the scale: the chain's factor for size 29, else the graph weight |
| Consensus.DifficultyNeverIncreasesWithHeight | stratum/src/pool/consensus.rs:164-172 | for every size but the secondary one, difficulty never grows with height |
| Consensus.DifficultyRewardsSmallHashes | stratum/src/pool/consensus.rs:140-143 | at any scale a smaller hash never gives a smaller difficulty |
| Consensus.BitVec.constructor | stratum/src/pool/consensus.rs:190-194 | enough zero bytes for the bits asked for |
| Consensus.BitVec.SetBitAt | stratum/src/pool/consensus.rs:196-198 | the byte vector becomes SetBit of the old one |
| Consensus.MaskIsShift | stratum/src/pool/consensus.rs:197 | the mask of a bit is 1 shifted by its position in the byte |
| Consensus.SetBitChangesOneBit | stratum/src/pool/consensus.rs:196-198 | the bit at the position is set and no other bit changes |
| Consensus.PackNonces | stratum/src/pool/consensus.rs:146-155 | all writes are in bounds, and bit n * edge_bits + b is set exactly when bit b of nonce n is |
| Consensus.UnpackAfterPack | stratum/src/pool/consensus.rs:146-155 | reading a packing back gives each nonce modulo 2^edge_bits |
| Consensus.PackingUnique | stratum/src/pool/consensus.rs:146-155 | the bit conditions determine the bytes |
| Consensus.PackingInjective | stratum/src/pool/consensus.rs:146-155 | two full proofs with in-range nonces never share a packing |
| StratumPool.Worker.constructor | stratum/src/pool/worker.rs:106-130 | a new worker is NewWorker with the listener's difficulty |
| StratumPool.Worker.SendResponse | stratum/src/pool/worker.rs:201-226 | the oldest unanswered id is answered ("0" if none), in place as in Respond |
| StratumPool.Worker.SendJob | stratum/src/pool/worker.rs:260-290 | flags cleared, a requested job answered, a failed write marks the worker |
| StratumPool.Worker.ResetWorkerShares | stratum/src/pool/worker.rs:171-176 | a fresh tally labelled with height and difficulty |
| StratumPool.Worker.AddShares | stratum/src/pool/worker.rs:179-198 | exactly the counts given are added to exactly that size |
| StratumPool.Worker.GetShares | stratum/src/pool/worker.rs:325-337 | hands over all pending shares and leaves none |
| StratumPool.Worker.DoLogin | stratum/src/pool/worker.rs:340-456 | which logins resolve to a user id, and that a refused one marks the worker |
| StratumPool.Worker.LogInRequest | stratum/src/pool/worker.rs:519-572 | the login branch equals LogIn: repeated, malformed, refused and accepted logins |
| StratumPool.Worker.ProcessMessages | stratum/src/pool/worker.rs:491-621 | handling a message equals HandleMessage for every message that does not panic |
| StratumPool.Worker.BookShare | stratum/src/pool/pool.rs:319-435 | one status counter moves and the tally follows where the exit tallies |
| StratumPool.Pool.constructor | stratum/src/pool/pool.rs:141-153 | no job, no workers, empty maps |
| StratumPool.Pool.AcceptWorker | stratum/src/pool/pool.rs:70-72 | the worker map gains the new worker under its uuid |
| StratumPool.Pool.ProcessWorkerMessages | stratum/src/pool/pool.rs:237-259 | both passes, in any map order, equal the specification's rehash |
| StratumPool.Pool.SendJobs | stratum/src/pool/pool.rs:261-277 | each authenticated worker that needs a job reports, resets and is sent it, whatever the order |
| StratumPool.Pool.AcceptNewJob | stratum/src/pool/pool.rs:279-299 | job, broadcast, duplicate map and versions equal the specification's step |
| StratumPool.Pool.BroadcastJob | stratum/src/pool/pool.rs:450-471 | each authenticated worker reports, is sent the job and resets, whatever the order |
| StratumPool.Pool.ClassifyShare | stratum/src/pool/pool.rs:310-436 | the exit taken is the first test in the specified order that fails |
| StratumPool.Pool.CheckShare | stratum/src/pool/pool.rs:310-436 | one share changes duplicates, worker and upstream list as JudgeShare does |
| StratumPool.Pool.ProcessShares | stratum/src/pool/pool.rs:304-448 | draining all workers, in the map's order, equals the specification for that order |
| StratumPool.Pool.CleanWorkers | stratum/src/pool/pool.rs:474-492 | exactly the workers in error are dropped; the result is how many remain |
| StratumSafety.StepKeeps | stratum/src/pool/pool.rs:156-213 | every step of the main loop keeps the invariant over workers, keys, duplicates, versions and forwarded shares |
| StratumSafety.RunKeeps | stratum/src/pool/pool.rs:156-213 | the invariant holds in every state of every run |
| StratumLaws.EventsAreOperations | stratum/src/pool/pool.rs:156-213 | in a run each event is the operation the laws below describe, and a pool that has panicked does nothing more |
| StratumLaws.ConnectingOutcome | stratum/src/pool/pool.rs:70-72 | a connection adds one worker, nobody yet, at the pool's difficulty |
| StratumLaws.RequestOutcome | stratum/src/pool/worker.rs:517-605 | what each request but a login does: which are answered, with which id, and which field changes |
| StratumLaws.LoginOutcome | stratum/src/pool/worker.rs:519-572 | which logins are accepted, as which user, what starts afresh, and that each is answered |
| StratumLaws.ReadingOutcome | stratum/src/pool/pool.rs:237-259 | each worker has one message handled and is filed under its user and connection, with an empty tally if the user changed |
| StratumLaws.OfferOutcome | stratum/src/pool/pool.rs:261-277 | exactly the logged-in workers that need a job have their tally reported, a new one begun and their targets set, and are sent the job |
| StratumLaws.NewJobOutcome | stratum/src/pool/pool.rs:450-471 | under a new pre_pow exactly the logged-in workers have that done |
| StratumLaws.NewJobTables | stratum/src/pool/pool.rs:279-299 | the job id becomes height * 1000 + id, and proofs and versions are forgotten exactly when the height changes |
| StratumLaws.CleaningOutcome | stratum/src/pool/pool.rs:474-492 | a worker stays, as it is, exactly when it is not in error |
| StratumLaws.ShareMovesStatus | stratum/src/pool/pool.rs:312-421 | exactly one counter moves: accepted iff all checks pass, the worker's difficulty included; stale iff only the height is wrong; else rejected |
| StratumLaws.ShareMovesTally | stratum/src/pool/pool.rs:312-421 | the tally of the share's size moves likewise, unless a new proof has a refused size or length |
| StratumLaws.ShareIsAnswered | stratum/src/pool/pool.rs:312-421 | every share but one for an unknown job is answered with the oldest id, its proof is remembered, and no other worker changes |
| StratumLaws.ShareIsSent | stratum/src/pool/pool.rs:422-436 | exactly one entry goes upstream, under job id modulo height, iff the share is accepted above height zero and meets the job's difficulty |
| StratumLaws.WorkersAreSent | stratum/src/pool/pool.rs:304-448 | a share pass sends exactly the strong shares of all workers, in order |
| StratumLaws.RunSendsStrongShares | stratum/src/pool/pool.rs:304-448 | in every run upstream has got exactly the strong shares of all share passes |
| StratumLaws.DrainingOutcome | stratum/src/pool/pool.rs:304-448 | after a share pass that did not panic nobody has shares pending and each was judged once, in order |
| StratumLaws.LabelsAreThePoolDifficulty | stratum/src/pool/pool.rs:450-471 | in every run the pool's difficulty is constant and labels every open tally of a logged-in worker and every report |
| StratumSafety.ResponsesAreFifo | stratum/src/pool/worker.rs:201-290 | ids answered are always a prefix of ids received, and at least one id is queued for each pending share and requested job |
| StratumSafety.AcceptedAtMostOnce | stratum/src/pool/pool.rs:304-448 | between two clears no proof is accepted twice, across workers and orders, and accepted proofs do not outnumber the duplicate map |
| StratumSafety.ForwardedSharesAreVerified | stratum/src/pool/pool.rs:350-436 | a share sent upstream was verified against the latest pre_pow issued at its height under its job id, and carries the server's id exactly when that id is below the height |
| StratumSafety.JobIdRoundTrip | stratum/src/pool/pool.rs:286 | height * 1000 + id modulo height is id exactly when id < height |
| StratumSafety.TalliesAreConserved | stratum/src/pool/pool.rs:261-299 | since login, per size and verdict, reports plus the open tally equal everything tallied |
| StratumSafety.StatusMatchesTallies | stratum/src/pool/pool.rs:317-421 | accepted and stale counters equal their tallies over all sizes, and the three counters add up to the shares judged |
| StratumSafety.ReportsAreOfOneHeight | stratum/src/pool/pool.rs:450-471 | every accepted unit in a report is a share of the height the report is labelled with |
| StratumSafety.DrainJudgesEachShare | stratum/src/pool/pool.rs:304-448 | draining a worker judges each of its pending shares once, in order, unless the pool halts |
| StratumSafety.RefusedSizeIsTalliedIff | stratum/src/pool/pool.rs:312-333 | a share of a size that is refused changes the tally exactly when its proof has been seen before, and then adds one rejected share under that size |
| StratumSafety.RefusedSizesAreOnlyRejected | stratum/src/pool/pool.rs:312-421 | in every run, reports and open tallies hold no accepted and no stale share under a refused size |
| StratumSafety.BelowOneIsDead | stratum/src/pool/pool.rs:405-410 | no share takes the exit for a difficulty below 1 |
| StratumSafety.RehashRekeys | stratum/src/pool/pool.rs:249-258 | given distinct connections, re-filing loses and duplicates no worker and keys every worker by its uuid |
| StratumSafety.RehashOrderIrrelevant | stratum/src/pool/pool.rs:249-258 | the order of re-filing does not matter |
| StratumSafety.HarmlessRunsNeverHalt | stratum/src/pool/pool.rs:156-213 | with positive job heights and submits that carry parameters neither panic of the main loop's own steps occurs |
| StratumExamples.PanicAtHeightZero | stratum/src/pool/pool.rs:425-428 | for every oracle that lets one proof through, a run in which a job at height zero and a good share end the main loop |
| StratumExamples.SizeThirtyIsReported | stratum/src/pool/pool.rs:312-322 | for every oracle, a run in which a report with a share of size 30 goes out |
| StratumExamples.CheckedAsBookedIff | stratum/src/pool/pool.rs:363-421 | a good share was verified under the low byte of its size and is accepted under the whole size; the two agree exactly below 256 |
| StratumExamples.LargeSizeIsReported | stratum/src/pool/pool.rs:363-421 | for every oracle that takes a proof of size 29, a run in which a report counts it as accepted under size 285 |
| LedgerServices.DbSession.CreateDataObj | mugle-py/muglebase/dbaccess/database.py:79-89 | success commits everything pending with the new row, failure drops it all and raises |
| LedgerServices.DbSession.CreditWorker | mugle-py/muglebase/model/pool_utxo.py:99-106 | equals CreditWorker, with its commit in the middle and each point of failure |
| LedgerServices.DbSession.PayBlock | mugle-py/services/paymentMaker.py:71-93 | committed contents equal PayBlock for every pattern of failures; nothing is left pending |
| LedgerServices.DbSession.UnlockPoolBlocks | mugle-py/services/poolblockUnlocker.py:65-96 | each new block gets the state of the first branch that applies, others stay |
| LedgerLaws.UnlockingOutcome | mugle-py/services/poolblockUnlocker.py:65-96 | for a new block: expired iff below the expiry depth, orphan iff not and the node has another nonce, unlocked iff not, nonce equal and deep enough, else new; all other blocks and tables stay |
| LedgerLaws.FindingOutcome | mugle-py/services/shareAggr.py:99-113 | a reported block is on file as new, and a second report of its height changes nothing |
| LedgerServices.PaymentService.GetTxSlate | mugle-py/muglelib/payments.py:92-162 | equals IssueSlate for every outcome; reports success exactly when a slate is handed out |
| LedgerServices.PaymentService.AtomicSend | mugle-py/muglelib/payments.py:302-395 | equals SendAtomically for every outcome |
| LedgerServices.PaymentService.GetByAddress | mugle-py/muglebase/model/pool_payment.py:92-98 | the first payment filed under the id, else the first filed under http:// and the id, else none |
| LedgerServices.PaymentService.SubmitTxSlate | mugle-py/muglelib/payments.py:201-235 | equals SubmitSlate for every outcome |
| LedgerServices.PaymentService.ConfirmTx | mugle-py/services/tidyWallet.py:65-97 | a payment is confirmed afterwards iff it was, or it was posted and the outcome at its place among the posted ones is on-chain; nothing else changes; the pass is a possible sequence of steps |
| LedgerServices.PaymentService.ConfirmOne | mugle-py/services/tidyWallet.py:82-97 | from any state in between, one listed payment is one confirmation step |
| LedgerServices.PaymentService.CancelTxSlate | mugle-py/muglelib/payments.py:167-196 | equals CancelSlate, run on a session whose pending contents keep the mark when it fails half-way |
| LedgerServices.PaymentService.CancelExpiredTx | mugle-py/services/tidyWallet.py:36-54 | the loop lists exactly the sent payments and is a possible sequence of one cancellation step for each, going on after failures; marks stay pending in the session |
| LedgerServices.PaymentService.CancelStep | mugle-py/services/tidyWallet.py:43-54 | from any state in between, one listed payment is one possible cancellation step, whatever the wallet answers truthfully |
| LedgerLaws.EventsAreOperations | mugle-py/muglelib/payments.py:92-395 | in a run each event is the operation the laws here describe |
| LedgerLaws.IssuingOutcome | mugle-py/muglelib/payments.py:92-162 | with a balance of at least 1000000000 and no failure before the commit the balance becomes minus the fee and a sent payment, else no table changes; when the slate is known and locked |
| LedgerLaws.SendingOutcome | mugle-py/muglelib/payments.py:329-395 | likewise for an atomic send and a posted payment |
| LedgerLaws.PaymentFound | mugle-py/muglebase/model/pool_payment.py:92-98 | which payment an id leads to |
| LedgerLaws.SubmittingOutcome | mugle-py/muglelib/payments.py:214-228 | the payment found is posted and its user's failures cleared exactly when the slate was finalized and committed |
| LedgerLaws.ConfirmingOutcome | mugle-py/services/tidyWallet.py:82-97 | the next listed payment is confirmed exactly when it is on the chain and the commit succeeds |
| LedgerLaws.CancellingOutcome | mugle-py/muglelib/payments.py:187-195 | a completed cancellation expires its payment and those marked before, and gives back amount and fee; no other outcome changes a table |
| LedgerLaws.CancellingLeaves | mugle-py/muglelib/payments.py:176-196 | what stays marked in the session, and when the slate is cancelled in the wallet |
| LedgerSafety.StepKeeps | mugle-py/muglelib/payments.py:92-395 | every ledger step, with failures at any point, keeps the invariant |
| LedgerSafety.RunKeeps | mugle-py/muglelib/payments.py:92-395 | the invariant holds in every state of every run |
| LedgerSafety.BalancesAddUp | mugle-py/muglelib/payments.py:129-149 | a balance is credits received minus (amount + fee) of all payments not refunded, and total_amount is the sum over all payments, expired ones included |
| LedgerSafety.NonExpiredIdentity | mugle-py/muglelib/payments.py:187-195 | balances equal credits minus non-expired payments exactly in the runs where no completed cancellation commits marks of a half-failed one |
| LedgerSafety.LiabilityIsTheTotal | mugle-py/muglebase/model/pool_utxo.py:134-139 | liability is all credits given less all payments not refunded |
| LedgerSafety.RefundedOnce | mugle-py/muglelib/payments.py:187-193 | no payment is refunded twice, and a refunded payment is expired in every later state |
| LedgerSafety.ExpiredForEver | mugle-py/muglelib/payments.py:201-225 | an expired payment is never posted or confirmed again |
| LedgerSafety.PostedCanBeRefundedIff | mugle-py/services/tidyWallet.py:36-54 | in every state that keeps the invariant, some continuation refunds a posted or confirmed payment exactly when the payment is on the cancellation list |
| LedgerSafety.PostedIsNotRefunded | mugle-py/muglelib/payments.py:187-193 | a posted payment that is neither listed nor marked stays posted or confirmed and is never refunded |
| LedgerSafety.BalanceFloor | mugle-py/muglelib/payments.py:145-149 | no balance falls below minus the largest fee charged to its user |
| LedgerSafety.BlocksArePaidOnce | mugle-py/services/paymentMaker.py:71-93 | a block has one credits record exactly when it is paid, nobody got more from it than that record says, and it was unlocked with the node's nonce inside the depth window |
| LedgerSafety.PayBlockOutcome | mugle-py/services/paymentMaker.py:71-93 | however a round ends the block is untouched, or paid with one record and a prefix of it credited |
| LedgerSafety.PayBlockComplete | mugle-py/services/paymentMaker.py:71-89 | a round without failures credits every entry in full |
| LedgerSafety.PayBlockAtomicIff | mugle-py/muglebase/model/pool_utxo.py:99-106 | a round pays all entries or leaves no trace, wherever it fails, exactly when every user of the payout map already has a row |
| LedgerSafety.MissingRowAllowsPartialPayment | mugle-py/muglebase/model/pool_utxo.py:99-106 | a failure after the row of the first user without one is created leaves the block paid and only the entries before that user credited |
| LedgerExamples.StrayMarkLosesARefund | mugle-py/muglelib/payments.py:187-195 | a concrete run in which a payment ends expired but never refunded |
| LedgerExamples.ListedPaymentPostedThenRefunded | mugle-py/services/tidyWallet.py:41-54 | a concrete run in which a payment posted while on the list is refunded |
| WorkerShares.WorkerSharesRow.Add | mugle-py/muglebase/model/worker_shares.py:75-91 | the row's entries become AddShares of the old ones |
| WorkerShares.AddSharesCounts | mugle-py/muglebase/model/worker_shares.py:75-91 | exactly the given shares are added to exactly that size, and a row keeps one entry per size |
| WorkerShares.LatestHeight | mugle-py/muglebase/model/worker_shares.py:102-105 | the greatest height of any row |
| WorkerShares.BetweenIsAFilter | mugle-py/muglebase/model/worker_shares.py:114-120 | the range query returns exactly the rows with heights in its bounds |
| WorkerShares.UniqueRowHoldsCount | mugle-py/muglebase/model/worker_shares.py:51-67 | with unique rows the count of a height, user and size is the one entry of that one row |
| SharePipeline.Aggregator.AddWorkerShares | mugle-py/services/shareAggr.py:119-177 | a message extends the run the object is at by one merge for each size it reports, or for the first of them when the handler dies; it is acknowledged exactly when all are merged |
| SharePipeline.MessageIsWeighted | mugle-py/services/shareAggr.py:140-147 | a message is booked as count times difficulty, for its height and payee (worker 0 pays to user 1) only |
| SharePipeline.RedeliveredIsBookedOnceIff | mugle-py/services/shareAggr.py:140-177 | a message delivered again after its handler died is booked once exactly when the first try had booked none of these shares |
| SharePipeline.Aggregator.MergeIn | mugle-py/services/shareAggr.py:163-170 | the nested dictionary update equals Merge |
| SharePipeline.Aggregator.FindOrCreate | mugle-py/services/shareAggr.py:362-373 | the user's row exists afterwards, and creating it commits all that is pending |
| SharePipeline.Aggregator.StoreSizes | mugle-py/services/shareAggr.py:375-382 | the sizes of a user reach the user's row, each once, all of them or as many as can be stored |
| SharePipeline.Aggregator.CommitHeight | mugle-py/services/shareAggr.py:353-387 | a height is stored and leaves the cache, or the pass dies with all of it still cached: what was pending is committed, or rolled back to the row created last |
| SharePipeline.Aggregator.FillRows | mugle-py/services/shareAggr.py:389-401 | the loop equals Fill from above the latest row, up to the bound or to where it dies |
| SharePipeline.Aggregator.CommitPass | mugle-py/services/shareAggr.py:343-406 | a pass, finished or dying anywhere, extends the run the object is at; without a limit it finishes; a finished one leaves nothing old cached and the latest row at chain_height - max_lag - 1 or above |
| SharePipeline.AggregatorConserves | mugle-py/services/shareAggr.py:332-411 | after any messages and passes an aggregator has unique rows, and rows plus cache equal what it handled plus what its dying passes stored |
| ShareAggr.StepConserves | mugle-py/services/shareAggr.py:140-177 | rows plus cache less what was handled grow by exactly what a dying pass stores |
| ShareAggr.RunConserves | mugle-py/services/shareAggr.py:332-411 | in every run rows plus cache equal everything handled plus what passes stored that died, for every height, user, size and kind, with late messages |
| ShareAggr.ConservedIffNoneStoredTwice | mugle-py/services/shareAggr.py:402-406 | rows plus cache equal the messages exactly when no pass of the run died after storing any of these shares |
| ShareAggr.DyingPassStoresTwice | mugle-py/services/shareAggr.py:402-406 | for any shares, a run of three steps whose rows hold them twice |
| ShareAggr.CommittedIsOrderIndependent | mugle-py/services/shareAggr.py:349-387 | runs that handled the same messages in any order agree on every committed count |
| ShareAggr.CommitOrderIrrelevant | mugle-py/services/shareAggr.py:361-382 | the order of users and sizes within a height does not matter |
| ShareAggr.KeyOrderIrrelevant | mugle-py/services/shareAggr.py:352-387 | two heights can be committed in either order |
| ShareAggr.RowsStayUnique | mugle-py/services/shareAggr.py:361-400 | in every reachable state a height and user have at most one row, and a row one entry per size |
| ShareAggr.EntriesHaveDifficultyOne | mugle-py/services/shareAggr.py:375-382 | every stored entry has difficulty 1 |
| ShareAggr.FillerReaches | mugle-py/services/shareAggr.py:388-401 | after filling, the latest row is at the bound less one or above, unless there was no row and the node is not below the bound |
| ShareAggr.FillShape | mugle-py/services/shareAggr.py:393-401 | fillers are one empty row of the pool user for each missing height at the top |
| ShareAggr.FillCounts | mugle-py/services/shareAggr.py:395-401 | fillers add no counts |
| ShareAggr.EarlierGapsStay | mugle-py/services/shareAggr.py:389-393 | a missing height below the latest row is not filled |
| PoolStatsService.StatsTable.CalculateRecord | mugle-py/muglelib/poolstats.py:70-122 | equals Calculate, failing where an assertion fails |
| PoolStatsService.StatsTable.CountRow | mugle-py/muglelib/poolstats.py:88-95 | the per-size loop over one row, in any order |
| PoolStatsService.StatsTable.Recalculate | mugle-py/muglelib/poolstats.py:133-151 | the loop equals Rebuild up to the last but one share height, each record committed; with no rows it fails unchanged |
| PoolStatsService.StatsTable.Extend | mugle-py/services/poolStats.py:81-93 | the forward run equals Rebuild above the highest record, committed up to the last tenth height or height within ten of the chain; a failure leaves the committed part |
| PoolStats.CountsAreSums | mugle-py/muglelib/poolstats.py:85-95 | a size has an entry exactly when some row has it, and the entry sums the rows |
| PoolStats.CountsAddUp | mugle-py/muglelib/poolstats.py:83-97 | per-size counts, all kinds together, add up to shares processed |
| PoolStats.CalculateIsTrue | mugle-py/muglelib/poolstats.py:97-112 | a record has true totals exactly when the record it builds on leads to them |
| PoolStats.PreviousIsTrueMeans | mugle-py/muglebase/model/pool_stats.py:77-81 | from height 2 on that is: the previous record exists and its totals are true |
| PoolStats.RebuildIsTrue | mugle-py/muglelib/poolstats.py:133-151 | all records of the rebuilt range are the true prefix sums exactly when the record before the range was |
| PoolStats.RebuildIsClean | mugle-py/muglelib/poolstats.py:149 | after a rebuild its range has no gap and no dirty record |
| PoolStats.RebuildKeeps | mugle-py/muglelib/poolstats.py:137-151 | records outside the range stay |
| PoolStats.RebuildSucceeds | mugle-py/muglelib/poolstats.py:73-75 | a rebuild succeeds exactly when the record before it exists and no chain block is missing |
| PoolStats.WindowNeedsItsEnds | mugle-py/muglelib/poolstats.py:40-50 | a window of two or more rows needs the chain blocks of its lowest and highest heights |
| PoolStats.RebuildStops | mugle-py/muglelib/poolstats.py:137-151 | a failed rebuild has done exactly the heights below the first that cannot be calculated |
| PoolStats.RebuildEqualsForwardRun | mugle-py/muglelib/poolstats.py:133-151 | from height 2 on a rebuild gives the records a first forward run would |
| PoolStats.RebuildFromOneReadsTheHighest | mugle-py/muglebase/model/pool_stats.py:78-79 | a rebuild from height 1 adds the shares of height 1 to the total of the highest record |
| PoolStats.RebuildFromOneIsTrue | mugle-py/muglebase/model/pool_stats.py:78-79 | with a seed at height 0, when a rebuild from height 1, which reads the highest record, gives true records |
| PoolStats.RebuildOfSeedIsTrue | mugle-py/muglebase/model/pool_stats.py:78-79 | with a seed at height 1, a rebuild from height 1 gives true records exactly when nothing has been counted at all |
| PoolStats.ForwardFromSeed | mugle-py/muglelib/poolstats.py:166-182 | in a pool whose records begin at height 0 the forward run from the seed record counts seven shares |
| PoolStats.RebuildFromOneCountsTwice | mugle-py/muglebase/model/pool_stats.py:78-79 | and the rebuild from its record 1, marked dirty, counts them twice |
| Payout.GetShareCounts | mugle-py/muglelib/pool.py:141-154 | the loop equals ShareCounts of the queried rows |
| Payout.ShareCountsAreSums | mugle-py/muglelib/pool.py:141-154 | which users and sizes have an entry, and that it sums their valid shares |
| Payout.WindowSums | mugle-py/muglebase/model/worker_shares.py:118-120 | range r at height h sums the heights h-r-1 to h |
| Payout.ScaledWindow | mugle-py/muglelib/pool.py:157-161 | every size has a scale exactly when every entry in the window is 29 or at least 31 |
| Payout.ScalesBySize | mugle-py/muglelib/pool.py:157-161 | 29 is worth max(29, factor), 31 is worth 7936, 32 is worth 16384, and each size from 31 on determines the next |
| Payout.CalculateWorkerSharesValue | mugle-py/muglelib/pool.py:177-186 | the weighted sum of a user's shares, or a type error when a size has no scale |
| Payout.CalculateTotalShareValue | mugle-py/muglelib/pool.py:164-174 | the sum of all users' values, in any order, or the type error |
| PayoutMap.CalculateBlockPayoutMap | mugle-py/muglelib/pool.py:204-280 | nothing for a block that is not unlocked, an exception, or the payout map, in any order of users |
| ReportedSizes.UnscaledForEver | mugle-py/muglelib/pool.py:157-185 | once a message with a size that has no scale is committed, whatever its counts, no later event gives the windows over its height a payout map |
| ReportedSizes.DuplicateStopsPayouts | logstash/sharefilter.conf:12 | for every oracle, a stratum run with a report without a valid share whose message, once committed, does that |
| ReportedSizes.RefusedSizesHaveNoScale | mugle-py/muglelib/pool.py:157-161 | the sizes that the share check refuses are exactly those without a share scale |
| ReportedSizes.ScaleIsGraphWeight | stratum/src/pool/consensus.rs:39-50 | from size 31 on the share scale is the graph weight before expiry |
| ReportedSizes.LargeSizeTakesTheReward | mugle-py/muglelib/pool.py:157-161 | a user with one valid share of size 285 is paid all but two units of the net reward and nobody else is paid, as long as all others' value times the reward is below 2^262 * 285 |
| PayoutMap.PaidInAllSplits | mugle-py/muglelib/pool.py:231-275 | the map pays the fee plus all payments, also when the admin has shares |
| PayoutMap.AdminIsPaidTheFee | mugle-py/muglelib/pool.py:231-232 | the admin receives reward * fee on top of what the admin's own shares earn |
| PayoutMap.UsersArePaidTheRest | mugle-py/muglelib/pool.py:263-265 | every other user receives the floor of the user's part of reward * (1 - fee) |
| PayoutMap.UsersShareTheRest | mugle-py/muglelib/pool.py:259-275 | all payments for shares sum to at most reward * (1 - fee) and fall short by less than one per earner |
| PayoutMap.PaysTheReward | mugle-py/muglelib/pool.py:231-275 | with a fee rate in [0,1] and share value the map pays at most the reward and falls short by less than one unit for each user with value |
| PayoutMap.PaysOnlyTheFee | mugle-py/muglelib/pool.py:264-268 | without share value only the fee is paid |
| PayoutMap.MoreValueEarnsNoLess | mugle-py/muglelib/pool.py:263-265 | within a map more value never earns less |
| PayoutMap.GainingValueEarnsNoLess | mugle-py/muglelib/pool.py:263-265 | gaining value while others keep theirs never earns less |
| PayoutMap.DominantValueTakesTheReward | mugle-py/muglelib/pool.py:259-275 | a user worth more than all others' value times the reward is paid all but two units of it, the others nothing |
| PayoutMap.SplittingKeepsValue | mugle-py/muglelib/pool.py:164-186 | shares divided over accounts are worth what they were, and the total stays |
| PayoutMap.SplittingNeverPays | mugle-py/muglelib/pool.py:259-275 | k accounts of a user who is not the admin are never paid more than the user, and lose less than k units |
| Credits.AggregateFromUserStats | mugle-js/api/code/src/utils.ts:103-119 | c29 and c31 are the weighted sums over the rows of those sizes |
| Credits.AggregateFromPoolShares | mugle-js/api/code/src/utils.ts:122-145 | c29 and c31 are the weighted sums over the records that have those counts |
| Credits.CreditsWeighAsPayouts | mugle-js/api/code/src/utils.ts:111-115 | credits weigh sizes 29 and 31 as payouts do |
| Credits.UsersTotalTheHeights | mugle-js/api/code/src/utils.ts:103-145 | over all users, credits equal the credits of the heights the shares were counted under |
| Credits.UserCreditsMakeThePool | mugle-js/api/code/src/utils.ts:103-145 | when the records count the same rows, users' credits add up to the pool's |
| Credits.MissingRecordsShortThePool | mugle-js/api/code/src/utils.ts:130-142 | missing records make users' credits exceed the pool's by the credit of those heights |
| Credits.EstimatesShareTheReward | mugle-js/api/code/src/routes/workerRoutes.ts:255-261 | floored estimates sum to at most the reward and fall short by less than one for each user with credit |
| Credits.BlockEstimates | mugle-js/api/code/src/routes/workerRoutes.ts:228-262 | the same for the estimates computed from one table of rows and the records built from it |
| Credits.MergeBlocks | mugle-js/api/code/src/utils.ts:33-60 | the loop equals Merged |
| Credits.MergedGroups | mugle-js/api/code/src/utils.ts:33-60 | each height comes out once, with all its rates in input order and the columns of its first row |
| Credits.GroupsKeepEveryRate | mugle-js/api/code/src/utils.ts:33-60 | no rate is lost or made up |

## Left out

- Integer widths of counters, heights and job ids: unbounded here. `height * 1000 + id` and the status
  counters wrap at 64 bits in the program; the shifts and products of `consensus.rs` are shown to fit.
- Consensus.PackNonces: takes sizes up to 63; the share check models the narrowing of edge_bits to a byte as a remainder by 256.
- StratumLaws.ShareMovesStatus: hashes and difficulties are taken as 64-bit words, which they are in the program.
- Header construction, Cuckoo verification and Blake2b: functions of an `Oracle` parameter.
- Worker uuids are pairs of user id and connection id, not text; connection ids are assumed fresh.
- StratumPool.Worker.DoLogin: look-ups in redis are parameters, and the login text is reduced to how many fields it has and which ids it resolves to.
- StratumSafety.ResponsesAreFifo: answers are matched to requests by order, as the code does, not by method.
- StratumPool.Pool.ProcessWorkerMessages: after a submit without parameters has panicked, the workers already read in that pass are not described; the pool has halted.
- Text of replies and log lines, rate limiting, banning, and reconnection to the upstream server, whose job may change at any step.
- Step order: the main loop's fixed order is not used; all statements hold for steps in any order.
- Payment timestamps, `last_try`, `last_success`, `tx_data`, re-posting of transactions and confirmation counts.
- LedgerSafety.RunKeeps: assumes fresh slate ids (unknown to the wallet, not the address of an earlier payment, not a web address), a wallet that finalizes only locked slates that are not cancelled, one tidy process and one payment maker at a time; a payment's issue and a wallet lock are one step with respect to the tidy process, as its timeout provides.
- LedgerServices.DbSession.PayBlock: amounts are natural numbers; the fee entry of a payout map, a float in the program, is taken as rounded by the database.
- PayoutMap.CalculateBlockPayoutMap: exact reals instead of floats; the look-up of the admin's user name and the cached estimate are parameters or left out.
- Credits.EstimatesShareTheReward: exact reals instead of floats; the caching of weights is not modelled.
- SharePipeline.Aggregator.CommitPass: redis expiry of cached heights, timestamps and rig data are not modelled; rows keep the difficulty 1 that the cache gives them.
- PoolStats.RebuildIsTrue: share counts, shares processed and the two running totals; active miners, timestamps and graph rates are left out except for the chain blocks their calculation demands. The seed record is the base height of the totals.
- LedgerServices.PaymentService.CancelExpiredTx: no other process commits between two payments of one call; CancelStep is the contract for one payment from any state, and the runs of `Ledger` put other steps in between.
- LedgerServices.PaymentService.ConfirmTx: likewise, with ConfirmOne.
- StratumSafety.HarmlessRunsNeverHalt: the panics on upstream messages without parameters, error or result (`server.rs`) are not modelled.
- PoolStatsService.StatsTable.Extend: one pass over the heights that are ready; polling and sleeping are left out.
- `workerstats.py`, `RigDataCommitScheduler`, the manual credit and cancel tools, routing, authentication and the user interface.
