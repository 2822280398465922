# NeutronX off-chain core: model and proofs

A Dafny 4.11 model of the parts of NeutronX that decide about money, with proofs of what they promise:

- the greedy order-book matcher, both fillers' decisions and the parameter search built on them
  (`Matcher`, `OrderBook`, `Strategy`, `Suggest`);
- the auction price, the suggested sweep, fill sizing and the fallback's output floors (`Auction`), and an order sold
  chunk by chunk through the reactor's gates (`Settlement`);
- decimal printing and parsing (`Decimal`);
- the stake configuration: the worst-case floor on the flat table and on the editable form, the validator and its rules
  in plain numbers, and the economic guarantee of an accepted form
  (`StakeTable`, `StakeForm`, `StakeValidator`, `StakeRules`, `StakeSafety`);
- the cross-chain HTLC fill: the table and its guarded updates, the protocol as a step system over two
  chains, two watchers and a relayer, rows that share an escrow
  (`CrossChainStore`, `CrossChainProtocol`, `CrossChainSafety`, `CrossChainOutcomes`, `CrossChainSharing`), who locks
  the source slot and what the factory holds back, what each step writes and which quotes can be completed
  (`CrossChainLocks`, `CrossChainReserve`, `CrossChainProgress`), and a filler that crashes and resumes
  (`FillerSession`);
- log indexing: the block scanner with its checkpoint, rescans of the source chain, the fill indexer, its overlapping
  callbacks, and the stake-registration indexer (`ScanLoop`, `SrcReplay`, `FillIndexer`, `FillOverlap`,
  `RegistrationIndexer`);
- the register-then-execute loop of a filler, and several fillers racing for one order (`Executors`, `FillRace`).

`dafny verify dfyconfig.toml` checks everything. `Arith` and `Wrappers` hold shared arithmetic and `Option`.

## How it is modelled

BigInt division truncates toward zero. Most operands are non-negative by their domain; where they need not be
(`StakeTable`, `StakeForm`) `Arith.TruncDiv` is used. JavaScript numbers read from form fields are `JsNumber`:
NaN, an infinity or a real.

Loops and objects of the source are loops and classes here: each method's contract equates its result, or the new
field values, with a function, and the lemmas are about that function. Asynchronous code is a step system: a step
is what runs between two awaits that matter, a run is any sequence of steps, and a step that a contract or the
service would reject changes nothing. Crashes, restarts, failed calls, re-read logs and overlapping callbacks are
steps like any other.

Hashes, signatures and CREATE2 addresses (EIP-1014) are datatype constructors, so they are injective. The contracts
are environment: a source escrow pays the filler up to t1 and the swapper after it, a destination escrow pays the
recipient up to its expiry and the filler after it, the reactor checks a chunk's size, its share of the minimum and,
when it completes the order, the whole minimum, the auction keeps one registration per filler and order, and one
CREATE2 salt is deployed once. The swapper signs fill terms only for a row whose destination escrow the watcher
verified, and never a later deadline than the row's. Clocks of the two chains drift apart by at most `skew` seconds.
Accounts have what a transaction costs them: tokens, allowances, stakes and bonds.

Results worth knowing before changing the code:

- The comment above `estimateAuctionPrice` says the reference point is the last fill's block, but orders list their
  fills newest first (`backend/src/services/orderService.ts:286-288`), so the last list entry is the oldest fill. That
  is the right one: `EstimateNeverUnder` shows the estimate then equals the on-chain price, because cursor resets leave
  no trace in it.
- A completed order has paid its minimum (`CompletedPaysTheMinimum`), because the reactor refuses the completing chunk
  until the total does. So rounding can leave an order that no later fill can complete: in the suggested sweep that is
  exactly when more is still owed than the rest earns at the current price (`CompletableIff`). One unit of margin above
  the floor for each earlier fill is always enough (`MarginCompletes`); `HalfSoldIsStuck` is an order stuck after one.
  The same holds of any order while the price covers its own rate (`CompletableAtRateIff`); below it, several chunks can
  complete what one cannot (`SplitCompletesWhereOneCannot`).
- `requiredMinOutput` is reported as 0 when nothing is left to route even if output is still owed (`RequiredIsExact`).
- One pair of escrows is safe for the swapper exactly while the gap t2 - t1 covers the clock skew (`GapMustCoverSkew`);
  the gap fixed by the quote is the one that counts, because later steps can only widen it (`QuotedGapProtects`), and
  what it leaves beyond the skew is time the swapper surely has to claim (`LegStaysOpen`).
- A gap does not help two rows that name the same destination escrow. Rows of one hashlock can come to do so
  (`RowsCanShareIff` says exactly when), and then one payout stands against two withdrawals (`SharedEscrowPaysOnce`).
  Rows with distinct hashlocks have distinct escrows that pay at least what was withdrawn
  (`DistinctHashlocksPayInFull`).
- A revealed row can still become `claimed` exactly while its destination escrow is open and t2 not past, or a mined
  claim for it is in the relayer's memory (`ClaimableIffNotStranded`); otherwise it stays `revealed` for good.
- Anyone can lock an authorized row's source slot with the row's public signature (`AnyoneCanLockIff`), and the filler
  takes any existing escrow for its own: its withdrawal then pays the other account, its destination escrow is claimed
  with the published secret, and the row stays `authorized` for good (`OtherLockIsPaid`, `RevealPaysTheOther`,
  `OthersLockStrands`). Waiting for `src_locked` is the exact check: the row can come to show it exactly when the
  withdrawal pays the row's own filler (`LockShowsIff`, `RevealPaysIff`).
- A relayer that stops between a mined claim and its recording leaves the row `revealed` for good
  (`ForgettingStrandsMinedClaim`).
- From nothing, an order and a quote can be carried to `claimed`, both legs paid, exactly when both deadlines are ahead
  and the amount is positive and within the order (`QuoteCompletesIff`).
- Cancelled locks give their whole amount back, so the clamp in `restoreRemaining` never takes effect
  (`CancelGivesBackAll`).
- After any crash a resume completes exactly when the secret is stored, the row signed for and unclaimed, and the margin
  left or waived (`ResumeRevealsIff`).
- A filler that stops between sending tokens and deploying the destination escrow sends the tokens again on resume
  (`CrashBeforeDeployPaysTwice`, `TransfersAccountedFor`).
- A development restart with a large lag, or on another chain, skips blocks (`ResolveSkipsNothingIff`,
  `RewindSkipsTheGap`).
- However a log of fills, cancellations and fallbacks is handled, the orders end the same exactly when no order is both
  filled in part and cancelled or reported by the fallback (`MixedLogConvergesIff`); seeing an old fill again turns a
  cancelled order active (`ReplayRevivesCancelled`).
- When fill callbacks overlap, an order's status is right exactly when the read behind the last update came after the
  insert that completed the order (`StatusIsRightIff`); two callbacks can leave a complete order active
  (`OverlappingUpdatesLoseFilled`).
- The stake form's validator lets negative multipliers and thresholds pass; a positive floor protects nevertheless
  (`AcceptedFormIsSafe`).
- An executor that remembers a registration can still fill, while nobody else does, exactly when it serves: in time,
  live and large enough on chain, not below the order's minimum unless it is all that is left, and paying the floors
  (`CanStillFillIff`). One recovered from an older, smaller amount, or used by a fill not seen confirmed, is refused at
  every block.
- The comment in `filler/CoWFiller/src/strategy/strategy.ts:58-61` says a full match always clears the minimum. It does
  not: a CoW decision clears the reactor's size gate exactly when it takes all that remains or its capacity reaches the
  minimum; a whale's always does (`CappedDecisionClears`, `CowMatchCanMissTheMinimum`). `register` does not check the
  minimum, so such a decision is staked and then refused (`UndersizedIsRegisteredAndStuck`).
- A restarted executor recovers that it is registered, not for how much (`RestartRecovers`).
- An expired order is dropped from an executor's memory without a release being sent (`DropIsAccountedFor`).

## Model

| member | source | states |
|---|---|---|
| Matcher.Match | filler/CoWFiller/src/matching/matcher.ts:18-52 | the loop returns null exactly when nothing pays, else the amount, rounded profit and visited levels of the greedy allocation |
| Matcher.GreedyIsOptimal | filler/CoWFiller/src/matching/matcher.ts:16-43 | exchange argument: no allocation within level sizes and available input has a higher exact profit |
| Matcher.GreedyTakesWhatPays | filler/CoWFiller/src/matching/matcher.ts:29-43 | the greedy walk sells min(available, depth priced above the auction) |
| Matcher.MoreInputEarnsAtMost | filler/CoWFiller/src/matching/matcher.ts:16-43 | extra input earns at most the best margin left in the book |
| Matcher.RoundingError | filler/CoWFiller/src/matching/matcher.ts:33-34 | per-level floors move the profit by less than one unit a level and never below zero |
| Matcher.MatchIsBest | filler/CoWFiller/src/matching/matcher.ts:18-52 | on a descending book the answer is null iff nothing pays, its amount is maximal, its profit non-negative and within matchedLevels of an optimal exact profit |
| Matcher.LevelsAreNeeded | filler/CoWFiller/src/matching/matcher.ts:40-42 | the visited levels cover the amount sold; they are the fewest that do iff the last of them has a size |
| OrderBook.InvertAt | filler/CoWFiller/src/orderbook/liveOrderbook.ts:66-74 | inversion fails exactly on a zero-priced ask and otherwise maps level by level |
| OrderBook.InvertedBookIsDescending | filler/CoWFiller/src/orderbook/liveOrderbook.ts:61-75 | asks cheapest first become bids best first, the order the matcher needs |
| OrderBook.InvertedBidIsBacked | filler/CoWFiller/src/orderbook/liveOrderbook.ts:70-73 | selling any part of an inverted bid yields no more output token than the ask offers |
| OrderBook.InvertedBidIsTight | filler/CoWFiller/src/orderbook/liveOrderbook.ts:70-73 | an inverted bid's price and size are the exact quotients rounded down, and together offer the whole ask but for one unit of either |
| Strategy.CowFillsOnlyFullMatches | filler/CoWFiller/src/strategy/strategy.ts:48-77 | the filler takes all its inventory and the order allow iff the profitable depth covers it, and which reason it gives otherwise |
| Strategy.FillersStayWithinMeans | filler/WhaleFiller/src/strategy/strategy.ts:40-88 | a decision to fill costs at most half the output balance at the current price, stays within the order and five blocks of the deadline; the whale's also meets the minimum and its spread |
| Strategy.WhaleTakesIff | filler/WhaleFiller/src/strategy/strategy.ts:16-88 | the whale takes an order iff five blocks are left, the pair is supported, the price is at most 99.9% of the start price with its premium, and what it can afford is positive and meets the minimum; it then takes all of that |
| Strategy.CapacityIsExact | filler/WhaleFiller/src/strategy/strategy.ts:61-62 | the capacity is the most input whose price half the output balance covers |
| Strategy.CappedDecisionClears | filler/WhaleFiller/src/strategy/strategy.ts:66-71 | capped by any remainder, a whale's decision always passes the reactor's size gate, a CoW decision iff it takes the rest or its capacity reaches the minimum |
| Strategy.CowMatchCanMissTheMinimum | filler/CoWFiller/src/strategy/strategy.ts:56-62 | a full match the reactor refuses for its size |
| Strategy.MinFillOnlyGates | filler/WhaleFiller/src/strategy/strategy.ts:57-71 | raising minFillBps never raises what either filler quotes |
| Strategy.CoverageIsAntitone | backend/src/services/fillerSim.ts:74-98 | coverage over any set of fillers is at most 100% and non-increasing in minFillBps; what coverage is, CoverageIsShareOfSum says |
| Strategy.CoverageIsShareOfSum | backend/src/services/fillerSim.ts:74-98 | coverage is floor(10000 * min(input, sum of what each filler quotes) / input), and complete iff the quotes add up to the order |
| Strategy.OneMoreFiller | backend/src/services/fillerSim.ts:75-76 | from no fill for no fillers, a further filler raises the total by its quote, up to what is left of the order |
| Strategy.CoverageIgnoresOrder | backend/src/services/fillerSim.ts:75-76 | the order in which fillers are registered does not matter |
| Suggest.ProbeOpensThePriceGate | backend/src/routes/suggest.ts:70-86 | at the probe the whale's price gates pass iff the floor price is large enough for its premium, so only size decides |
| Suggest.CoverageIsOffered | backend/src/routes/suggest.ts:70-89 | at the probe coverage is the share of the order that the fillers' offers add up to, an offer being min(capacity, input) where the price and size gates pass and the bids absorb it, else 0 |
| Suggest.BoundaryIsBest | backend/src/routes/suggest.ts:91-98 | on falling coverage the boundary found is the largest candidate on target, or the smallest when none is |
| Suggest.CoverageCache.CoverageAt | backend/src/routes/suggest.ts:74-89 | the memo answers what simulating would and simulates each candidate once |
| Suggest.CoverageCache.Search | backend/src/routes/suggest.ts:91-96 | binary search stops at the boundary with both sides simulated, in at most Log2(n) + 1 simulations, Log2(n) being the largest k with 2^k <= n |
| Suggest.CoverageCache.Choose | backend/src/routes/suggest.ts:91-100 | the chosen candidate is the best, its coverage read adds no simulation, and meetsTarget is exact |
| Suggest.ProjectionsFall | backend/src/routes/suggest.ts:74-89 | simulating any fillers gives coverage that falls along the candidates |
| Suggest.SuggestMinFill | backend/src/routes/suggest.ts:70-100 | end to end: the best shipped candidate for any fillers and order, in at most four simulations; the projected coverage is the share of the order that the offers at that minimum add up to |
| Suggest.FourSimulationsSuffice | backend/src/routes/suggest.ts:12 | the shipped candidates ascend and need at most four simulations |
| Auction.ResetsDoNotMoveThePrice | contract/src/libs/DecayCursorLib.sol:23-41 | the price after any cursor resets depends on the first fill's block only |
| Auction.EstimateNeverUnder | filler/CoWFiller/src/fill/partialFill.ts:149-157 | the estimate is never below the on-chain price, whatever fills the list misses, and equals it once the oldest fill is listed last with its block number |
| Auction.DecayFitsTheWindow | backend/src/routes/suggest.ts:66-68 | the clamped decay never takes the price below the floor within the window, and it is at most 2^32 - 1 |
| Auction.MinOutputIsFloor | backend/src/routes/suggest.ts:64 | the suggested minimum is the most output the floor price promises for the whole input |
| Auction.SweepKeepsTheFloor | backend/src/routes/suggest.ts:62-68 | every fill at every block of the window is priced at or above the floor exactly when the start price is |
| Auction.SweepReachesTheFloor | backend/src/routes/suggest.ts:66 | an unclamped sweep ends less than the window length above the floor |
| Auction.AnySplitPaysTheMinimum | backend/src/routes/suggest.ts:62-68 | the sweep alone, before the reactor's completing gate: n chunks at any blocks of the window pay at least minOutput - (n - 1) |
| Auction.ChunkClearsItsFloor | filler/CoWFiller/src/cli/actions.ts:141-145 | a chunk priced at or above the floor provides its pro-rata minimum |
| Auction.FillIsLeastAdmissible | filler/CoWFiller/src/fill/partialFill.ts:169-181 | the submitted size passes the reactor's size gates and is the least that reaches the request |
| Auction.RequiredIsExact | backend/src/watcher/fallbackWatcher.ts:155-189 | the reported bar is the least leg payment clearing both gates, iff something is left to route or nothing is owed |
| Auction.OwedIsBounded | backend/src/watcher/fallbackWatcher.ts:158-173 | when every fill met its own floor, what is owed exceeds the pro-rata floor by at most one unit a fill |
| Auction.OwedCanExceedProRata | backend/src/watcher/fallbackWatcher.ts:170-173 | the excess does occur |
| Settlement.LedgerTracksSales | contract/src/PartialFillReactor.sol:161-223 | what is left, what was paid and the cursor follow from the list of accepted sales, priced as the chain prices them |
| Settlement.CompletingChunkIff | contract/src/PartialFillReactor.sol:161-223 | for every order and history the chunk taking the rest is accepted iff it is in time and its output reaches the bar the fallback check reports |
| Settlement.OneChunkNowOrNever | contract/src/PartialFillReactor.sol:161-223 | for every order, one chunk can take the rest at some later block iff it can now |
| Settlement.SweepChunkIff | backend/src/routes/suggest.ts:62-68 | in the suggested sweep a chunk of admissible size is refused only when it completes the order and does not pay what is still owed |
| Settlement.MarginCompletes | contract/src/PartialFillReactor.sol:220-223 | in the sweep a margin over the floor worth one unit for each earlier fill always completes the order |
| Settlement.CompletionNeedsPotential | contract/src/PartialFillReactor.sol:187-223 | for every order, what one chunk cannot pay for now no later chunks can pay for |
| Settlement.CompletableIff | contract/src/PartialFillReactor.sol:220-223 | in the sweep some later chunks complete the order iff what is still owed is at most what the rest earns at the current price |
| Settlement.HalfSoldIsStuck | contract/src/PartialFillReactor.sol:220-223 | an order of the sweep that no later chunks complete after its first half is sold |
| Settlement.CompletableAtRateIff | contract/src/PartialFillReactor.sol:187-223 | any order whose price covers minOutput over inputAmount: some later chunks complete it iff what is owed is at most what the rest earns now |
| Settlement.SplitCompletesWhereOneCannot | contract/src/PartialFillReactor.sol:195-223 | below that rate two chunks complete an order that one chunk does not |
| Decimal.HumanRawRoundTrip | filler/CoWFiller/src/cli/format.ts:18-23 | toRaw(humanRaw(x, d), d) = x, printed without trailing zeros |
| Decimal.HumanRawIsInjective | filler/CoWFiller/src/cli/format.ts:18-23 | no two amounts print alike |
| Decimal.ReadsFloor | filler/CoWFiller/src/orderbook/liveOrderbook.ts:36-40 | whole.frac is read as floor(its value * 10^decimals) for all digits, however many follow the dot, and a string without a dot as its value * 10^decimals |
| Decimal.ReadsIff | filler/CoWFiller/src/orderbook/liveOrderbook.ts:36-40 | a string is refused iff the part before its first dot, or the first `decimals` characters behind it, hold a character that is not a digit; anything later is ignored |
| Decimal.Ratio | filler/CoWFiller/src/cli/format.ts:30-37 | the long division prints floor(num * 10^p / den) read at p digits, trimmed |
| Decimal.PriceHuman | filler/CoWFiller/src/cli/format.ts:41-43 | the same for a contract price at six digits |
| StakeTable.LastNonHonest | backend/src/routes/stakeConfig.ts:114-118 | the walk back finds the last bucket refunding under 100%, or none |
| StakeTable.LowestOverTimes | backend/src/routes/stakeConfig.ts:122-129 | the inner loop keeps the first lowest edge over the multipliers |
| StakeTable.WorstCaseKappa | backend/src/routes/stakeConfig.ts:105-132 | null exactly on a mis-shaped table, else the shortcut's cell of the row-major table |
| Arith.TruncDivIsTowardsZero | backend/src/routes/stakeConfig.ts:122-129 | the quotient behind every edge is BigInt's: what is left is smaller than the divisor and has the dividend's sign |
| StakeTable.LaterBucketIsWorse | backend/src/routes/stakeConfig.ts:120-127 | a smaller penalty at a larger fill never has the larger floor quotient |
| StakeTable.ShortcutIsExhaustive | backend/src/routes/stakeConfig.ts:101-132 | one bucket per row gives the minimum over all sizes, times and buckets, and the named cell attains it |
| StakeTable.UndeterredRowIsNamed | backend/src/routes/stakeConfig.ts:114-118 | the first row without a deterrent makes the answer zero and is the row named |
| StakeForm.EditsKeepShape | frontend/src/pages/StakeConfig.tsx:737-783 | every sequence of bucket and in-range cell edits keeps the S-1, T-1, S x R shape |
| StakeForm.CellEdited | frontend/src/pages/StakeConfig.tsx:781-783 | editing cell (s, r) sets that cell and leaves every other cell and column |
| StakeForm.InputEdited | frontend/src/pages/StakeConfig.tsx:778-780 | editing input i of a column sets it and leaves the rest of the form |
| StakeForm.BucketAdded | frontend/src/pages/StakeConfig.tsx:737-771 | a new bucket has a blank threshold and repeats its neighbour's rate and refund row, multiplier, or last cell of each row, 10000 without one; all else stays |
| StakeForm.BucketRemoved | frontend/src/pages/StakeConfig.tsx:748-777 | removing drops the last bucket from exactly the columns it shows in; the last size or time bucket stays |
| StakeForm.RemoveUndoesAdd | frontend/src/pages/StakeConfig.tsx:737-777 | removing a bucket undoes adding one, on all three axes |
| StakeForm.RefundTableRoundTrip | frontend/src/pages/StakeConfig.tsx:700-713 | submitting the form shown for a configuration gives its refund table back iff that table is S x R |
| StakeForm.FlatCell | frontend/src/pages/StakeConfig.tsx:795 | flattening puts cell (s, r) at s * R + r |
| StakeForm.LastNonHonestForm | frontend/src/pages/StakeConfig.tsx:561-567 | the form's walk back: unreadable cell, honest row, or the bucket |
| StakeForm.WorstCaseKappaForm | frontend/src/pages/StakeConfig.tsx:552-581 | the form's loops, including null and throwing cases, compute the scan of the form |
| StakeForm.FormAnswerIsTableAnswer | frontend/src/pages/StakeConfig.tsx:552-581 | on a whole-number form the nested computation is the shortcut of the table it shows |
| StakeForm.RepresentationsAgree | frontend/src/pages/StakeConfig.tsx:789-797 | a form of the right shape and the flat configuration its submission converts to hold the same table and the same worst case |
| StakeForm.ShownConfigAgrees | frontend/src/pages/StakeConfig.tsx:700-713 | the form showing a well-shaped configuration submits it again and has its worst case |
| StakeValidator.FirstOutOfOrder | frontend/src/pages/StakeConfig.tsx:635-652 | the order loops report the first position out of strict order, if any |
| StakeValidator.RateIssues | frontend/src/pages/StakeConfig.tsx:655-662 | exactly the readable rates outside the bounds, once limits are loaded |
| StakeValidator.RowIssues | frontend/src/pages/StakeConfig.tsx:666-676 | exactly the cells above the ceiling, the drops, and a wrong end of one row, skipping unreadable cells |
| StakeValidator.ValidateForm | frontend/src/pages/StakeConfig.tsx:589-698 | the messages are exactly the violated invariants, the floor only when nothing else is wrong |
| StakeValidator.ConsistencyDecided | frontend/src/pages/StakeConfig.tsx:603-676 | no message but the floor's iff every other invariant holds |
| StakeRules.ConsistentIsPlain | frontend/src/pages/StakeConfig.tsx:589-676 | those invariants in plain numbers, both ways: whole numbers but for sizes, S - 1, T - 1 and S x R, at most 16 buckets until the limit is known, strict orders, rates in bounds, rows climbing from at least 0 to exactly the ceiling |
| StakeRules.LessIsOrder | frontend/src/pages/StakeConfig.tsx:635-676 | the comparisons order the reals between the two infinities and are false on what is not a number |
| StakeRules.BlankIsRefused | frontend/src/pages/StakeConfig.tsx:591 | a blank refund cell counts as 0 in the floor and on submit, and is never accepted |
| StakeValidator.FloorIsComputed | frontend/src/pages/StakeConfig.tsx:681-684 | when the other invariants hold the floor computation neither throws nor gives up |
| StakeValidator.AddingKeepsRefundsAndRates | frontend/src/pages/StakeConfig.tsx:737-771 | a copied bucket never introduces a refund or rate message |
| StakeSafety.Bucket | frontend/src/pages/StakeConfig.tsx:23-27 | the first threshold the fill is strictly below, else the last bucket |
| StakeSafety.FloorProtects | frontend/src/pages/StakeConfig.tsx:545-581 | at every edge up to the computed floor no fill in a bucket under 100% gains more than it forfeits, if that floor is positive or nothing is negative |
| StakeSafety.AcceptedFormIsSafe | frontend/src/pages/StakeConfig.tsx:589-698 | a form without messages, limits loaded, never lets partial fill and abandon profit up to a positive floor, at any size, time and fill, whatever the signs of its multipliers and thresholds |
| StakeSafety.LowFloorIsExploitable | frontend/src/pages/StakeConfig.tsx:681-694 | when the floor is below the minimum some fill profits at the minimum edge, also when the stake at that cell is negative |
| StakeSafety.FloorGateIsExact | frontend/src/pages/StakeConfig.tsx:678-695 | with the rest in order, no floor message iff every row passes a check of its own signs; where no multiplier is negative or fills reach every deterring row, that is a deterrent in every row and no fill that profits at the minimum edge |
| CrossChainStore.Shortened | backend/src/services/crosschainService.ts:278-284 | a new deadline is taken iff absent, unchanged, or an earlier whole second still ahead; it is returned as given |
| CrossChainStore.FillTable.Quote | backend/src/services/crosschainService.ts:234-249 | a quote is appended, or rejected with the reason of the first failing check |
| CrossChainStore.FillTable.Authorize | backend/src/services/crosschainService.ts:264-300 | one atomic authorization: status, deadline and signature checks, then one row changes |
| CrossChainStore.FillTable.Update | backend/src/services/crosschainService.ts:307-353 | each guarded update changes exactly the rows matching key and guard, and which fields it sets: quoted rows are funded, authorized ones of the filler locked, locked ones revealed, revealed ones claimed, authorized or locked ones slashed |
| CrossChainStore.UpdateEvolves | backend/src/services/crosschainService.ts:307-353 | an update keeps the evidence consistent with the status and moves the row only forward |
| CrossChainStore.RecordIsIdempotent | backend/src/services/crosschainService.ts:307-353 | recording the same observation again changes nothing |
| CrossChainStore.QuoteKeepsUnique | backend/src/services/crosschainService.ts:72 | one row per order and hashlock |
| CrossChainSafety.StepKeepsInv | backend/src/chain/escrowDstWatcher.ts:130-225 | every step of service, contracts, watchers and relayer keeps the protocol invariant and only moves forward |
| CrossChainSafety.RunKeepsInv | backend/src/services/crosschainService.ts:234-353 | so does every run |
| CrossChainSafety.CreatedStep | backend/src/chain/escrowDstWatcher.ts:130-167 | a row becomes dst_funded only for a genuine escrow with the committed recipient, token, amount and expiry |
| CrossChainSafety.FilledStep | backend/src/chain/escrowSrcWatcher.ts:129-145 | a row becomes src_locked only with its own clone, filled by its own filler |
| CrossChainSafety.RelayRecordStep | backend/src/services/crosschainService.ts:338-343 | a row becomes claimed only when its destination escrow paid under that transaction |
| CrossChainOutcomes.EveryRowIsOk | backend/src/services/crosschainService.ts:234-353 | every row of every run: signed order, t1 < t2, t1 within deadlineBase, stored signature for exactly its terms, verified escrows, evidence matching status |
| CrossChainOutcomes.RowsOnlyMoveForward | backend/src/services/crosschainService.ts:13-21 | rank never falls, t1 never grows, t2 and evidence stay, the gap never shrinks |
| CrossChainOutcomes.StepFollowsDiagram | backend/src/services/crosschainService.ts:13-21 | a step moves a row along at most one arrow, so no merely authorized row is slashed; t1 moves only with the signature |
| CrossChainOutcomes.FinalRowsStay | backend/src/services/crosschainService.ts:338-352 | claimed and slashed rows never change, so a claim is recorded at most once |
| CrossChainOutcomes.RevealFindsEscrowOpen | contract/src/crosschain/EscrowSrc.sol:157-167 | at every accepted withdrawal the row's destination escrow is unexpired, not refunded and paid or claimable with that secret, if the gap covers the skew |
| CrossChainOutcomes.GapMustCoverSkew | contract/src/crosschain/EscrowDst.sol:121-150 | while a pair of escrows is open a run giving both legs to the filler exists iff the skew exceeds the gap |
| CrossChainOutcomes.LegStaysOpen | contract/src/crosschain/EscrowSrc.sol:157-167 | after a withdrawal the leg stays paid or claimable in every continuation whose destination clock advances by at most t2 - t1 - skew |
| CrossChainOutcomes.QuotedGapProtects | backend/src/services/crosschainService.ts:239-284 | a quoted gap that covers the skew holds in every continuation: any accepted withdrawal of the row's source escrow finds its destination escrow paid or claimable, and no row of another hashlock names that escrow |
| CrossChainOutcomes.MinedClaimIsRecorded | backend/src/chain/escrowDstWatcher.ts:209-219 | a mined relay claim takes its row to claimed with that transaction, whatever happened in between |
| CrossChainOutcomes.ClaimsAgree | backend/src/chain/escrowDstWatcher.ts:199-224 | overlapping passes never mine two claims for one row |
| CrossChainOutcomes.StrandedForever | backend/src/chain/escrowDstWatcher.ts:202-219 | a revealed row whose escrow is settled or expired, without a mined claim left to record, stays revealed in every continuation |
| CrossChainOutcomes.ClaimableIffNotStranded | backend/src/chain/escrowDstWatcher.ts:173-225 | some run claims a revealed row iff a mined claim for it is in memory, or its escrow is open and t2 not past |
| CrossChainSharing.RowsCanShareIff | backend/src/chain/escrowDstWatcher.ts:138-166 | two quoted rows can come to name one escrow iff hashlock, t2, swapper, token and chain agree and t2 is ahead or an escrow covering each exists |
| CrossChainSharing.SharedEscrowPaysOnce | backend/src/services/crosschainService.ts:72 | for every amount and gap a run withdraws two fills of one swapper against one payout |
| CrossChainSharing.DistinctHashlocksPayInFull | backend/src/chain/escrowDstWatcher.ts:138-166 | withdrawn rows of distinct hashlocks with paid or claimable legs name distinct escrows worth at least what was withdrawn |
| CrossChainProgress.QuoteWrites | backend/src/services/crosschainService.ts:234-249 | a quote is appended, with nothing recorded yet, iff the order is signed, t1 < t2, t1 is within deadlineBase and the key is new; else nothing changes |
| CrossChainProgress.CreationWrites | backend/src/chain/escrowDstWatcher.ts:130-167 | a creation log funds a quoted row with its escrow iff that escrow is deployed on the order's chain with the committed recipient, token, amount and expiry; else nothing changes |
| CrossChainProgress.SignatureWrites | backend/src/services/crosschainService.ts:264-300 | a submitted signature authorizes a funded row for the signed deadline iff the swapper gave it for the row's terms and the deadline is the row's or an earlier whole second ahead; else nothing changes |
| CrossChainProgress.LockLogWrites | backend/src/chain/escrowSrcWatcher.ts:129-145 | a lock log takes the authorized row of its key and filler to src_locked with the clone's address; without such a row nothing changes |
| CrossChainProgress.EscrowLogWrites | backend/src/chain/escrowSrcWatcher.ts:147-165 | in every reached state a withdrawal logged by a locked row's own escrow records its secret and reveals the row, a cancellation slashes it, every other field and row staying; any other log, emitter or status changes nothing |
| CrossChainProgress.ClaimWrites | backend/src/services/crosschainService.ts:338-343 | a recorded claim takes the revealed row it was read from to claimed with its transaction, and nothing else |
| CrossChainProgress.LockSettles | contract/src/crosschain/EscrowSrc.sol:157-206 | an open source escrow is withdrawn iff with its secret up to t1 and cancelled iff after t1, and what each does |
| CrossChainProgress.LegSettles | contract/src/crosschain/EscrowDst.sol:121-150 | an open destination escrow is claimed iff with its secret up to its expiry and refunded iff after it, what each does, and that it is never deployed twice |
| CrossChainProgress.QuotedCompletesIff | backend/src/services/crosschainService.ts:234-353 | in every reached state some run takes a quoted row, of an order with nothing reserved and before an escrow fits it, to claimed with the source paid to its filler and the destination to the swapper, iff t1 and t2 are ahead and its amount is positive and within the order |
| CrossChainProgress.QuoteCompletesIff | backend/src/services/crosschainService.ts:177-353 | the same from nothing, for every order and every quote the service takes |
| CrossChainProgress.ForgettingStrandsMinedClaim | backend/src/chain/escrowDstWatcher.ts:202-219 | a relayer that crashes or gives up between a mined claim and its recording leaves the row revealed in every continuation, unless another mined claim for it is in memory |
| CrossChainReserve.ReservedIsWhatLocksHold | contract/src/crosschain/EscrowSrcFactory.sol:268-275 | in every run what the factory holds back of an order is the sum of its locks that are open or paid, never more than its input |
| CrossChainReserve.CancelGivesBackAll | contract/src/crosschain/EscrowSrcFactory.sol:321-335 | a cancelled lock gives its whole amount back; the clamp at the order's total never takes effect |
| CrossChainReserve.LockPaysTheSecretUntilT1 | contract/src/crosschain/EscrowSrc.sol:157-206 | in every run a source escrow has paid its filler only if its secret is logged, and its swapper only after t1 |
| CrossChainLocks.AnyoneCanLockIff | contract/src/crosschain/EscrowSrcFactory.sol:247-299 | any account can lock an authorized row's slot with its stored signature iff the slot is free, t1 is ahead and the order still has the amount; the escrow then pays that account |
| CrossChainLocks.OthersLockStrands | backend/src/services/crosschainService.ts:317-324 | an authorized row whose slot another account took stays authorized in every continuation |
| CrossChainLocks.LockShowsIff | backend/src/chain/escrowSrcWatcher.ts:129-145 | once the slot of an authorized row is taken, the row can come to show it locked iff its own filler holds it |
| CrossChainLocks.RevealPaysTheOther | contract/src/crosschain/EscrowSrc.sol:157-167 | against another's lock the withdrawal pays the other and the secret claims the destination escrow, while the row stays authorized |
| CrossChainLocks.ShownLockIsOwn | backend/src/services/crosschainService.ts:317-324 | in every run a row at or past src_locked is locked by its own filler |
| FillerSession.SecretStore.SaveSecret | filler/CoWFiller/src/fill/secretStore.ts:23-27 | the file afterwards holds what could be read plus this entry |
| FillerSession.SecretStore.LoadSecret | filler/CoWFiller/src/fill/secretStore.ts:14-31 | the stored secret, or null when absent or unreadable |
| FillerSession.ProposalIsAccepted | filler/CoWFiller/src/fill/crossChainFill.ts:120-139 | there is a proposal iff the share of what remains does not round to zero and the deadline is ahead; it is that share, the earlier of the deadline and five minutes, and a gap of 120 seconds, and the service never refuses it |
| FillerSession.CrashSafety | filler/CoWFiller/src/fill/crossChainFill.ts:105-204 | over every crash and resume, with others locking the slot at any time: tokens move only after the secret is stored, one deployment, at most one own fillSlot behind it, each withdraw with the source locked and the margin left unless forced, paying this filler if the row showed the lock; progress is ResumeRevealsIff and StartedRevealsIff |
| FillerSession.ResumeRevealsIff | filler/CoWFiller/src/fill/crossChainFill.ts:152-204 | from every reachable world a fresh resume whose transactions go through withdraws exactly once more iff the secret is stored, the row signed for and not claimed, and the margin left or waived; it deploys and locks what is missing, and is paid unless another filler holds the lock |
| FillerSession.StartedRevealsIff | filler/CoWFiller/src/fill/crossChainFill.ts:105-204 | undisturbed, the first process sends, deploys and locks once and withdraws its own lock, iff the signed deadline leaves the margin or it is waived |
| FillerSession.StoppedIsSilent | filler/CoWFiller/src/fill/crossChainFill.ts:174-204 | a process that crashed or got an error has no further effect |
| FillerSession.RevealPaysIff | filler/CoWFiller/src/fill/crossChainFill.ts:199-204 | a withdrawal about to be sent pays this filler iff the row shows the lock or can come to show it |
| FillerSession.OtherLockIsPaid | filler/CoWFiller/src/fill/crossChainFill.ts:256-261 | another filler that locks the slot first is paid by this filler's own withdrawal |
| FillerSession.TransfersAccountedFor | filler/CoWFiller/src/fill/crossChainFill.ts:207-242 | tokens are sent once per deployment plus once per process that stopped, or stands, between transfer and deployment |
| FillerSession.CrashBeforeDeployPaysTwice | filler/CoWFiller/src/fill/crossChainFill.ts:221-239 | a crash there makes the resumed process send them again |
| FillerSession.ProtocolRowsFollow | filler/CoWFiller/src/fill/crossChainFill.ts:190-202 | the row the filler polls and the slot behind it move as the protocol's do, so its snapshot of t1 stays current and the row is locked only behind its own filler's escrow |
| ScanLoop.ResolveSkipsNothingIff | backend/src/db/checkpoint.ts:60-115 | the resolved start is not past the stored checkpoint iff the tip is not ahead, or the chain is the same and the lag acceptable |
| ScanLoop.QueryFilterChunked | backend/src/db/checkpoint.ts:120-135 | chunked queries return exactly the logs of one query over the whole range, in order |
| ScanLoop.QueryJoins | backend/src/db/checkpoint.ts:129-133 | two adjacent ranges read in turn are one range |
| ScanLoop.QueryIsTheRange | backend/src/db/checkpoint.ts:120-135 | a query returns one stretch of the chain's log: all logs of its blocks, in order, and no others |
| ScanLoop.Watcher.Boot | backend/src/chain/escrowDstWatcher.ts:70-85 | boot resolves and stores the checkpoint with the chain's fingerprint and sets the floor there; from where, BootWrites says |
| ScanLoop.Watcher.OnBlock | backend/src/chain/escrowDstWatcher.ts:118-121 | a block event raises latestSeen and, when none runs, starts a drain whose first window ends at the highest block heard of |
| ScanLoop.Watcher.OnLogs | backend/src/chain/escrowDstWatcher.ts:95-110 | a handled window advances lastBlock, a failed query ends the drain |
| ScanLoop.Watcher.OnSaved | backend/src/chain/escrowDstWatcher.ts:106-111 | a saved checkpoint goes on to the next window, a failed write ends the drain |
| ScanLoop.Coverage | backend/src/chain/escrowDstWatcher.ts:87-121 | from any consistent state every continuation that keeps the backlog keeps coverage |
| ScanLoop.CoverageFromScratch | backend/src/chain/escrowDstWatcher.ts:87-121 | every block after the first checkpoint up to lastBlock was handled, and the stored checkpoint never passes that; from every state it can be in, hearing of any block gets all blocks up to it handled and stored once queries and writes succeed |
| ScanLoop.BlockIsHandled | backend/src/chain/escrowDstWatcher.ts:87-121 | an idle, booted scanner that hears of a block past lastBlock reads one window from thirty blocks back, the floor or zero up to the highest block heard of, counts it, stores it and is idle again |
| ScanLoop.EveryBlockIsHandled | backend/src/chain/escrowDstWatcher.ts:87-121 | the same from any phase of a drain: with three good answers to come, every block up to this one is handled and stored |
| ScanLoop.BootWrites | backend/src/db/checkpoint.ts:60-115 | a boot starts from the stored block unless the fingerprints differ, the tip is behind or the lag not acceptable, and from the tip otherwise; the stored fingerprint is then this chain's |
| ScanLoop.RestartResumes | backend/src/db/checkpoint.ts:60-115 | once a process booted on a chain, every later restart on it with an acceptable lag resumes from the stored checkpoint |
| ScanLoop.DrainCatchesUp | backend/src/chain/escrowDstWatcher.ts:92-115 | a drain ending without an error has lastBlock at or past latestSeen |
| ScanLoop.ProcessRun | backend/src/chain/escrowDstWatcher.ts:87-116 | within a process lastBlock never falls and blocks below the floor are never queried |
| ScanLoop.RewindSkipsTheGap | backend/src/db/checkpoint.ts:103-113 | a restart that does not keep the backlog leaves the gap unhandled for the life of the process |
| SrcReplay.SeeIsRowwise | backend/src/chain/escrowSrcWatcher.ts:147-165 | looking a row up by its escrow touches exactly the row whose key made that escrow |
| SrcReplay.Absorbs | backend/src/services/crosschainService.ts:317-353 | repeats, and a creation seen again after the settlement, change nothing |
| SrcReplay.RescanIsOnePass | backend/src/chain/escrowSrcWatcher.ts:75-121 | any gap-free overlapping windows, creations first in each, give the table of one in-order pass; what that pass makes of a row, PassShows says |
| SrcReplay.PassShows | backend/src/chain/escrowSrcWatcher.ts:75-165 | an authorized row shows after a pass what the log holds for it: nothing without its own filler's lock; with it the clone and src_locked, with a withdrawal its secret and revealed, with a cancellation slashed |
| SrcReplay.WatcherEqualsOnePass | backend/src/chain/escrowSrcWatcher.ts:54-127 | scanner and handlers together: through failures, crashes and steady restarts the table is that of one in-order pass from the first checkpoint, which includes everything up to lastBlock; what a row then shows, WatcherShows says |
| SrcReplay.WatcherShows | backend/src/chain/escrowSrcWatcher.ts:54-165 | after whatever a steady watcher went through an authorized row shows exactly that, and no lock logged up to lastBlock is missed |
| SrcReplay.ReapplyingIsNoOp | backend/src/chain/escrowSrcWatcher.ts:75-78 | handling a window again is a no-op |
| FillIndexer.Indexer.HandlePartialFill | backend/src/indexer/eventIndexer.ts:16-62 | a fill of a known order is inserted unless its id is known, and the status derived from the sum; one of an unknown order changes nothing |
| FillIndexer.Indexer.HandleNonceInvalidated | backend/src/indexer/eventIndexer.ts:67-78 | afterwards cancelled is what was, and every order of that swapper and nonce that is neither filled nor expired; other orders, other fields and all fills stay |
| FillIndexer.Indexer.HandleFallbackExecuted | backend/src/indexer/eventIndexer.ts:80-91 | afterwards filled is what was, and this order if known, whatever its fills add up to; other orders, other fields and all fills stay |
| FillIndexer.TotalOfMultiset | backend/src/indexer/eventIndexer.ts:39-46 | the sum depends on the rows, not on their order |
| FillIndexer.FillsConverge | backend/src/indexer/eventIndexer.ts:16-62 | any order and duplicates of the same fills give the same tables, filled iff the fills reach the input |
| FillIndexer.MixedLogConvergesIff | backend/src/indexer/eventIndexer.ts:16-91 | every way of handling a log of fills, cancellations and fallbacks, duplicates included, ends in the same orders iff none is both filled in part and cancelled or reported by the fallback; where each order then ends |
| FillIndexer.ReplayRevivesCancelled | backend/src/indexer/eventIndexer.ts:67-78 | a replayed fill makes a cancelled, partly filled order active |
| FillOverlap.StatusIsRightIff | backend/src/indexer/eventIndexer.ts:22-57 | in every interleaving of handlers, failures and other events: the status of a last update agrees with the fills iff the read behind it came after the insert that completed the order, or none did |
| FillOverlap.AloneIsHandle | backend/src/indexer/eventIndexer.ts:16-62 | a handler that nothing comes between has the effect of the sequential one |
| FillOverlap.FailedIsSilent | backend/src/indexer/eventIndexer.ts:121-131 | a handler whose query failed writes nothing more |
| FillOverlap.OverlappingUpdatesLoseFilled | backend/src/indexer/eventIndexer.ts:121-131 | two callbacks at the last two fills of any order can both finish and leave it active |
| RegistrationIndexer.Registrations.OnBlock | backend/src/indexer/registrationIndexer.ts:120-144 | one undisturbed callback folds the five families of its window in turn |
| RegistrationIndexer.BatchIsOrdered | backend/src/indexer/registrationIndexer.ts:131-137 | in a grouped batch all registrations come first |
| RegistrationIndexer.HandleSettles | backend/src/indexer/registrationIndexer.ts:46-99 | handling an entry after its registration writes it for good |
| RegistrationIndexer.RunKeepsInv | backend/src/indexer/registrationIndexer.ts:120-144 | in every run everything up to lastBlock and up to the checkpoint is settled, though both may move back |
| RegistrationIndexer.GroupedBatchesEqualLogOrder | backend/src/indexer/registrationIndexer.ts:120-144 | batches by family, replays, overlapping passes, failures and restarts end in the table of log order, whose rows show exactly what the log says of them |
| RegistrationIndexer.CallbackCatchesUp | backend/src/indexer/registrationIndexer.ts:120-144 | in every reached state an undisturbed callback past lastBlock ends with its block counted and stored, everything up to it settled and the other callbacks as they were |
| RegistrationIndexer.RecoveryCatchesUp | backend/src/indexer/registrationIndexer.ts:120-144 | so does one started again after a failure, or from the checkpoint after a restart |
| RegistrationIndexer.SomeRunCatchesUp | backend/src/indexer/registrationIndexer.ts:101-144 | from the first start one such callback gives the table of log order |
| Executors.Executor.Watch | filler/CoWFiller/src/execution/executor.ts:80-84 | a first watch adds the order, a second changes nothing |
| Executors.Executor.TryFill | filler/CoWFiller/src/execution/executor.ts:107-199 | memory and transactions after one order is handled, every throwing call included; other orders untouched |
| Executors.Executor.OnBlock | filler/CoWFiller/src/execution/executor.ts:86-105 | every watched order is handled once and on its own, and no other changes; registered stays within watching |
| Executors.DropIsAccountedFor | filler/CoWFiller/src/execution/executor.ts:92-136 | a registered order leaves memory only executed, released, or expired (then nothing is sent) |
| Executors.LeavesMemoryIff | filler/CoWFiller/src/execution/executor.ts:86-199 | a watched order leaves memory iff expired, or read with nothing remaining, registered and cancelled, or executed and confirmed; a call that throws leaves it watched |
| Executors.SendsIff | filler/CoWFiller/src/execution/executor.ts:107-199 | at most one transaction a block, and exactly when a release, a registration or an execution goes out and for which amount |
| Executors.StaysInMemory | filler/CoWFiller/src/execution/executor.ts:110-117 | what stays watched is the order as last fetched, with the registration it had |
| Executors.RegistrationIsRemembered | filler/CoWFiller/src/execution/executor.ts:154-170 | a registration sent is remembered iff it was confirmed or the chain already had it |
| Executors.LostRaceReleases | filler/CoWFiller/src/execution/executor.ts:128-136 | filled by others or cancelled: a release is sent iff the executor holds a registration |
| Executors.RegistersWithinBounds | filler/CoWFiller/src/execution/executor.ts:141-172 | a registration starts only near the deadline and for the lesser of the wanted and the remaining amount |
| FillRace.RaceConserves | filler/CoWFiller/src/execution/executor.ts:174-198 | on stale reads, restarts and unseen confirmations: executed plus others plus remaining is the order, whose ledger is that of the accepted sales; an executor fills it at most once, within its registration in memory and on chain |
| FillRace.MemoryFollowsReactor | contract/src/PartialFillReactor.sol:146-223 | a sent fill counts iff it is within a live registration, in time, of admissible size and paying its floors, and leaves memory iff that is also confirmed |
| FillRace.CanStillFillIff | filler/CoWFiller/src/execution/executor.ts:96-191 | an executor remembering a registration can still fill, nobody else filling, iff the contracts take what it would send at the first block it can act |
| FillRace.UndersizedIsRegisteredAndStuck | contract/src/PartialFillReactor.sol:98-113 | a decision below the minimum and below what remains is registered, and refused as long as nobody else fills |
| FillRace.SmallDecisionIsStuck | contract/src/PartialFillReactor.sol:98-113 | from the start of any order, a run of one executor leads there with every decision below the minimum, as the CoW filler's can be |
| FillRace.RestartRecovers | filler/CoWFiller/src/execution/executor.ts:158-171 | after a restart an executor finds it is registered and remembers a registration again, for what it wants now rather than for what the chain holds it to |
| FillRace.LosingReleases | filler/CoWFiller/src/execution/executor.ts:128-131 | when others buy all that is left, the next callback gives the registration back on chain and forgets the order, nothing of its own sold |
| FillRace.ClosedSellsNothing | contract/src/PartialFillReactor.sol:146-223 | once cancelled or handed to the fallback nothing more of an order is sold in any continuation |

## Left out

- The Solidity contracts: only the guards listed above, as environment.
- HTTP routes, Postgres, RPC, timers, file writes and logging: table and map state, parameters and steps.
- The read and the write of `setFillSwapperSig` are one step; its update has no status guard of its own.
- A relay pass reads row and escrow in one step, and the per-relayer queue that orders its transactions is not modelled; claims may land in any order.
- Handlers that throw are swallowed by the source and the log is then lost; here handlers succeed (`SrcReplay`, `FillIndexer`, `RegistrationIndexer`; in `FillOverlap` any query may fail), and orders a registration refers to exist.
- The source lookup by hashlock returns some matching row; which one it prefers is not modelled.
- Torn or concurrent writes of the secret file; a file that cannot be read counts as empty.
- `createIntent`, order hashing, domain separators and address case folding: identifiers are compared as they are.
- `sizeThresholds` and `minCollateral` conversions between wei and ether, and IEEE rounding of form numbers: form fields hold reals.
- Precision of `Number` above 2^53 when a kappa is converted: kappa stays an integer.
- `rateToContract`, `contractToHumanRate`, market rates, human price strings and console output.
- Text that BigInt reads although it is not all digits (signs, hexadecimal, spaces) counts as refused in toRaw; negative raw amounts.
- `fetchDepth` caching and choosing between the live and the static book.
- A chunk size below 1 in `queryFilterChunked`, with which the source would not terminate.
- The WhaleFiller copies of crossChainFill, partialFill, executor, format and secretStore: one model serves both.
- Interleavings inside one executor's `tryFill`, and callbacks of one executor that overlap.
- Approvals, funding, stake previews and revert explanations in `fill`: only its sizing and price are modelled.
- Admin sessions, the filler registry, token directory, pagination and all rendering.
- Statuses written outside the fill indexer (expiry, the cancel route, the fallback watcher): an order may start with any status.
- Fee-on-transfer output tokens: the reactor credits what it charges.
- What an executor's inventory and order book make of an order is an answer of the outside in `FillRace`, within the checks both strategies make first; the backend may list any fills.
