# Pearl settlement: a verified model

Seven state machines of the Pearl OTC desk and its bridge, and the two arithmetic and parsing cores they rest on,
modelled in Dafny and proved over whole runs. Where the source updates an object step by step, a class with the same
fields and loops is proved equal to a specification function, and the run-level results are proved about that
function.

- **Pearl indexer** (`PearlChain`, `PearlMoves`, `PearlPolling`, `WatchedAddresses`, `PgWatchedAddresses`,
  `FundingIndex`, `PearlIndexer`, `MemoryIndexer`, `FundingVerdicts`, `MemoryVerdicts`, `FundingScanner`,
  `PgFundingScanner`). The block table is a stack of blocks against a source that may switch chains between any two
  answers. The live rows are always one linked block per height, through failures and restarts; the SQL observation
  index equals a full rescan of them exactly when no live output pays two watches; which verdict an output gets and
  when it is spent is said exactly; confirmations are chain depth; and polling converges to a fixed source chain in a
  number of polls that is given exactly. Without a database nothing is detached, and it is said exactly when the index
  is right about a chain.
- **Bridge** (`BridgeExits`, `IgraPoller`, `BridgeRuns`, `BridgeMoves`, `BridgeReconciliation`, `BridgeService`,
  `Quorum`). A poller that may crash after any log replays to one in-order fold, exactly on logs whose requests come
  first; beside the applier it is said exactly when it gets stuck. Which exit a spend matches is said exactly.
  Statuses only move forward, txids are write-once and belong to one exit over every interleaving, the applier never
  trips the store's conflict error, and it is said exactly when the reserve moves by just the amounts released. Quorum
  approval is characterised both ways, and two quorums must intersect exactly above half.
- **USDC escrow events** (`Sorting`, `UsdcEvents`, `UsdcEventStore`, `UsdcEventOrder`). The incremental cache equals
  sorting and folding all events from scratch, whatever the batches, order and repeats, and each field of it is what
  the last event to report it said.
- **Settlement worker** (`TradeStates`, `Settlement`, `SettlementRuns`, `SettlementMoves`). The state an iteration
  leaves each trade in is said of what it saw. At most one PRL release is prepared per trade, and a release and a
  refund only if a Base escrow once seen deposited is seen empty later, in every mix of worker iterations and
  transitions by other actors; when a refund is prepared again, and how often, is given exactly.
- **Order book and prefund escrow** (`Orders`, `OtcService`, `OrderRuns`, `OrderMoves`, `OrderLinks`, `PrefundRuns`,
  `PrefundMoves`). When each call takes effect is said exactly, and no refund is prepared before its lock time. Fills
  conserve grains over every run of all calls on fresh order ids, sweeps exactly when each is balanced, and it is said
  exactly when a taker's quote has its order's price.
- **Signer boundary** (`SignerBoundary`, `SignerPolicy`, `SignerOverlap`). A call is let through exactly when the
  policy and the escrow's outputs allow it. Request records and audit trail agree over every run of failures and
  retries, and over runs of overlapping calls exactly when no call of the key is overtaken.
- **Tapscript signature counter** (`TapScript`, `TapScriptSpending`, BIP 342 "Rules for signature opcodes"). The
  scanner counts exactly the signature opcodes of every compiled script, hence each leaf's required signers; and run
  on the stack machine of BIP 342 each leaf is spent by exactly those signers, a refund leaf from its lock time on.
- **Decimal amounts and quotes** (`Amounts`, `Quotes`). Round trips, the exact difference of the two parsers, and the
  rounding bounds of partial fills.

SQL tables are maps, stable ids and hashes are the tuples they are made of, and instants are numbers. Calls into code
outside the model are parameters that may answer anything: the block source, the log node and its order of answers,
the crash points, the signer, the funding observer, and the checks a request must pass before the modelled part
(`admitted`). `Wrappers` holds the shared result types and ASCII lower-casing.

Results about runs take these facts of the outside as given: a block names its own hash and a chain has no output
twice; watches, and the trades a run starts from, have distinct ids; a log has one request per exit, no txid shared by
two exits, and its blocks and log indexes rise. Every other condition stands in the row it belongs to.

Properties that hold only under a condition are proved with the exact condition, and a lemma gives an input on which
they fail:

- the index is a full rescan: `PearlIndexer.RescanIff`, `LostEntry`; without a database `MemoryIndexer.RescanIff`
- the source chain is adopted: `SettlesIff`
- a block that spends an observed output marks it spent, without a database: `BlockSpends`
- the reserve moves by the amounts released: `ReserveExactIff`, `TwoSpendsOfOneExit`
- replaying a log changes nothing, every run leaves a fold: `AbsorbedIff`, `RequestsFirstIff`, `EveryRunFoldsIff`,
  `EarlyLifecycleBreaksReplay`
- a poll beside the applier completes: `AttemptIff`, `SpendBlocksIff`, `SpendBlocksLog`
- an escrow event reaches the cache: `IngestThrowsIff`, `ReportedAgain`, `ForeignEventStarvesOthers`
- release and refund exclude each other: `BothPreparedIff`, `ReleaseExcludesRefund`, `BothPrepared`
- a refund is prepared once: `RefundPreparedIff`, `RefundBound`, `RefundPreparedTwice`, `RefundPreparedFiveTimes`
- a linked quote has its order's price: `StepPricedIff`, `LinkedPricesIff`, `RepeatedAskIff`
- a sweep conserves: `SweepKeepsIff`, `PrefundConservesIff`, `SweepLoses`
- a signer record agrees with its trail: `AgreesIff`, `OvertakenOverwrites`
- formatting and parsing back: `ParseFormat`, which throws with no decimals

Where the code and its comments disagree the model follows the code:

- packages/pearl-sdk/src/otc.ts:24 calls a funded prefund order matchable; `assertOrderFillable`
  (services/otc-api/src/trade-service.ts:3090-3104) looks at status, expiry and amounts alone (`FillIgnoresPrefund`),
  so an order can be quoted and filled before its funding is seen (`UnfundedOrderIsFilled`).
- services/otc-api/src/trade-service.ts:668 calls a sweep idempotent per trade; a second sweep for a trade throws
  (services/otc-api/src/repository.ts:812-814).

## Model

| member | source | states |
|---|---|---|
| PearlChain.PgBlockSink.SaveBlock | services/pearl-indexer/src/postgres-sink.ts:33-92 | The transaction computes the specified step on every table that keeps the live-height index: a duplicate, a reorg that detaches only the parent height, a unique-index failure that changes nothing, or an insert |
| PearlChain.PgBlockSink.LoadNextHeight | services/pearl-indexer/src/postgres-sink.ts:98-118 | A restart resumes at the stored height or at the lowest detached height nothing replaced, whichever is lower |
| PearlChain.LiveAtIs | services/pearl-indexer/src/postgres-sink.ts:53-59 | At every height, the parent query finds exactly the block the live chain has there |
| PearlChain.SaveStepIs | services/pearl-indexer/src/postgres-sink.ts:33-92 | On a table that stands for a chain, the transaction never takes its duplicate branch at the next height: it inserts or detaches the top |
| PearlChain.SaveRefines | services/pearl-indexer/src/postgres-sink.ts:33-92 | The table refines a stack of blocks: one saved block is pushed if it names the top, else the top is popped; nothing is skipped and the unique index never fails |
| PearlChain.RestartResumes | services/pearl-indexer/src/postgres-sink.ts:98-118 | A height is the resuming height if and only if it is the one after the live chain |
| PearlMoves.SaveIff | services/pearl-indexer/src/postgres-sink.ts:33-92 | Whatever the table holds: the answer is duplicate exactly where the live block is there, reorg exactly where the live block below is another than it names, failed exactly where another live block has the height, saved otherwise; and the rows and next height each answer leaves |
| WatchedAddresses.ClassifyFunding | services/pearl-indexer/src/funding-scanner.ts:174-201 | Unknown exactly where amount or deadline is missing, late exactly past the deadline, on time exactly for the expected amount before it, underpaid and overpaid only below and above it; never `duplicate` or `reorged` |
| FundingIndex.RecordedAdds | services/pearl-indexer/src/watched-address-repository.ts:472-495 | Recording an observation adds exactly its entry to a watch's live observations, also over a detached one |
| FundingIndex.RecordOneAdds | services/pearl-indexer/src/funding-scanner.ts:95-107 | Recording one output for one watch adds exactly that entry, unless the watch has the output live, and keeps at most one live observation per watch that is not a duplicate |
| FundingIndex.RecordOutputsAdds | services/pearl-indexer/src/funding-scanner.ts:90-109 | Scanning a block's outputs adds exactly the outputs that pay an active watch which does not have them live, with the block's hash, height and amounts |
| FundingIndex.RecordSpendsKeep | services/pearl-indexer/src/funding-scanner.ts:135-165 | Recording spends neither adds nor removes an indexed output |
| FundingIndex.DetachDrops | services/pearl-indexer/src/watched-address-repository.ts:557-574 | Detaching a block removes exactly the entries of that block; its live observations stay as detached and reorged, and no other observation changes |
| FundingIndex.AdvanceSets | services/pearl-indexer/src/watched-address-repository.ts:536-555 | After confirmations advance to a tip, every open observation counts tip less its height plus one, and its status is that count against the requirement |
| PearlPolling.ScanKeepsInv | services/pearl-indexer/src/funding-scanner.ts:70-126 | One saved block: the chain moves as a stack, and any store whose scan and detach keep a property of it and the live chain keeps it, in the saved and in the reorg branch |
| PearlPolling.PollFromKeepsInv | services/pearl-indexer/src/block-poller.ts:81-126 | A poll keeps chain and store, whatever chain each height was answered from, and reports what it did: every height from the first up to the reported one was indexed, which is the tip unless a block was detached, and then that block's height, from which the next poll starts |
| PearlPolling.StepKeepsInv | services/pearl-indexer/src/block-poller.ts:81-126 | So do a poll, a failed poll and a restart, and the poller's own height stays the one after the chain |
| PearlPolling.RunKeeps | services/pearl-indexer/src/block-poller.ts:81-126 | Over every run of polls, chain switches, failures and restarts: one linked live block per height, `next_height` equal to the poller's own, and the store right for the live chain |
| PearlPolling.ExtendsIffPrefix | services/pearl-indexer/src/postgres-sink.ts:53-66 | The poller extends its chain if and only if that chain is a prefix of the source's |
| PearlPolling.PollCatchesUp | services/pearl-indexer/src/block-poller.ts:93-126 | On a prefix of the source one poll indexes the rest of it |
| PearlPolling.PollPops | services/pearl-indexer/src/block-poller.ts:98-113 | Off the source chain one poll pops exactly the top block, which is not on the source chain |
| PearlPolling.Converges | services/pearl-indexer/src/block-poller.ts:81-126 | Against a fixed longer source chain, polling is done after exactly one poll per live block above the common prefix and one more; each reorg poll starts one height lower and pops no block of the source chain |
| PearlPolling.SettlesIff | services/pearl-indexer/src/block-poller.ts:81-126 | Polled often enough, a fixed source chain becomes the live chain if it is longer than the live one; if it is not, nothing ever changes, so a reorg to a shorter chain is found only when that chain grows |
| PgWatchedAddresses.PgRecordWatchesIs | services/pearl-indexer/src/watched-address-repository.ts:267-304 | The SQL store keeps one row per outpoint: of the watches an output pays only the first gets it, and the others are handed its row |
| PgWatchedAddresses.PgOutputsAdd | services/pearl-indexer/src/funding-scanner.ts:90-109 | Scanning a block's outputs adds exactly one entry for each output that pays a watch, its first watch's, also over detached rows |
| PgWatchedAddresses.PgSpendsKeep | services/pearl-indexer/src/watched-address-repository.ts:328-356 | Recording spends neither adds nor removes an indexed output, also a spend recorded again |
| PgWatchedAddresses.PgDetachDrops | services/pearl-indexer/src/watched-address-repository.ts:381-390 | Detaching a block removes exactly the entries of that block |
| PgWatchedAddresses.PgAdvanceSets | services/pearl-indexer/src/watched-address-repository.ts:358-379 | After confirmations advance to a tip, every open row counts tip less its height plus one, and its status is that count against its own watch's requirement |
| PearlIndexer.PgKeeps | services/pearl-indexer/src/main.ts:32-46 | Saving and detaching over the SQL watch store keep one entry for each output of the live chain that pays a watch, its first watch's |
| PearlIndexer.RescanIff | services/pearl-indexer/src/watched-address-repository.ts:267-304 | That index is the full rescan of the live chain if and only if no live output pays two watches, which one active watch per address ensures; otherwise a later watch of the shared address has lost its entry |
| PearlIndexer.RunKeepsIndex | services/pearl-indexer/src/main.ts:32-46 | Over every run of the SQL service, with chain switches, failures and restarts: one linked live block per height, `next_height` equal to the poller's own, the index as above, and a full rescan of the live chain exactly when no live output pays two watches |
| PearlIndexer.ScanSetsDepths | services/pearl-indexer/src/watched-address-repository.ts:358-379 | After every saved block, each pending or confirmed row of the SQL store counts the live blocks from its own to the tip, and is confirmed if and only if that reaches its watch's requirement |
| FundingVerdicts.SavedOutput | services/pearl-indexer/src/funding-scanner.ts:90-109 | Whenever a block is saved on the live chain, an output that pays a watched address belongs to the first active watch of the network with that address. It is a duplicate if and only if that watch had a live row before the block or an earlier output of the block went to it; otherwise unknown, late, underpaid, overpaid or on time, each if and only if terms, deadline and amount say so. It is spent if and only if the block spends it, else confirmed if and only if one confirmation is enough |
| FundingVerdicts.SavedRow | services/pearl-indexer/src/funding-scanner.ts:110-126 | No other outpoint gets a row, and every other row keeps owner, block, amount and verdict: it is spent afterwards if and only if it was, or it is live and an input of the block spends it; a detached row stays detached; an open one has its depth below the block |
| FundingVerdicts.SpendsKept | services/pearl-indexer/src/funding-scanner.ts:135-165 | A spend is stored if and only if it was, or an input of the block spends a live row in that transaction; the stored one is the first |
| FundingVerdicts.DetachedRows | services/pearl-indexer/src/watched-address-repository.ts:381-390 | On a reorg exactly the live rows of the detached block become detached with the verdict reorged, and nothing else changes |
| MemoryIndexer.SavingIndexes | services/pearl-indexer/src/block-poller.ts:224-231 | Without a database every block is saved: the index gains exactly the outputs the block pays to a watch and no saved block paid before |
| MemoryIndexer.RunIndexes | services/pearl-indexer/src/main.ts:47-61 | While that process lives, whatever chain the source switches to: one block of each height is saved, none is dropped, and the index holds for each watch and output the entry of the first saved block that pays it |
| MemoryIndexer.RescanIff | services/pearl-indexer/src/block-poller.ts:224-231 | That index is the full rescan of a source chain if and only if every saved block that brought an entry is on the chain and every block of it that pays a watch was saved; a reorg that replaces such a block is never repaired |
| MemoryIndexer.OneChainIsRescan | services/pearl-indexer/src/block-poller.ts:224-231 | In particular while the source keeps to one chain |
| MemoryIndexer.SavingSetsDepths | services/pearl-indexer/src/watched-address-repository.ts:536-555 | After every saved block, each pending or confirmed observation counts the saved blocks from its own to the last, and is confirmed if and only if that reaches its watch's requirement |
| MemoryVerdicts.ScannedOutput | services/pearl-indexer/src/funding-scanner.ts:95-109 | Without a database, an output that pays a watch which does not have it live brings the watch an observation: a duplicate if and only if the watch had a live observation before the block or an earlier output of the block pays it, and otherwise with the verdict that terms, deadline and amount call for |
| MemoryVerdicts.BlockSpends | services/pearl-indexer/src/watched-address-repository.ts:508-534 | The inputs of a block mark an observation spent if and only if its watch is the first to hold the outpoint and an input spends it in a transaction the watch has no spend of; so an output paid again after a reorg is not marked by the transaction that spent it before |
| MemoryVerdicts.BlockRecords | services/pearl-indexer/src/watched-address-repository.ts:508-534 | A spend is on record for a watch after the inputs if and only if it was, or an input makes it of an outpoint the watch is the first to hold |
| FundingScanner.MemoryWatchedAddressRepository.FindActiveByAddress | services/pearl-indexer/src/watched-address-repository.ts:466-470 | The active watches of a network and address, in order |
| FundingScanner.MemoryWatchedAddressRepository.RecordObservation | services/pearl-indexer/src/watched-address-repository.ts:472-495 | The observation list after recording is the specified one, and the stored observation is returned |
| FundingScanner.MemoryWatchedAddressRepository.FindObservedOutpoint | services/pearl-indexer/src/watched-address-repository.ts:497-506 | The first watch with a live observation of the outpoint |
| FundingScanner.MemoryWatchedAddressRepository.RecordSpend | services/pearl-indexer/src/watched-address-repository.ts:508-534 | The spend is recorded once, returned as stored, and the observation marked spent; an outpoint nobody observed throws and changes nothing |
| FundingScanner.MemoryWatchedAddressRepository.AdvanceConfirmations | services/pearl-indexer/src/watched-address-repository.ts:536-555 | Every watch's list is advanced, and nothing else changes |
| FundingScanner.MemoryWatchedAddressRepository.DetachObservationsForBlock | services/pearl-indexer/src/watched-address-repository.ts:557-574 | Every live observation of the block is detached, and nothing else changes |
| FundingScanner.FundingScannerSink.SaveBlock | services/pearl-indexer/src/funding-scanner.ts:70-126 | The sink computes the specified step over both stores |
| FundingScanner.FundingScannerSink.RecordBlockOutputs | services/pearl-indexer/src/funding-scanner.ts:90-109 | The loop over outputs and watches computes the specified scan |
| FundingScanner.FundingScannerSink.ScanSpends | services/pearl-indexer/src/funding-scanner.ts:135-165 | The loop over inputs computes the specified spends |
| FundingScanner.PearlBlockPoller.PollOnce | services/pearl-indexer/src/block-poller.ts:81-126 | The loop over heights computes the specified poll |
| PgFundingScanner.PgWatchedAddressRepository.RecordObservation | services/pearl-indexer/src/watched-address-repository.ts:267-304 | The rows become the specified ones, and the row stored for the outpoint is returned, which is live |
| PgFundingScanner.PgWatchedAddressRepository.FindObservedOutpoint | services/pearl-indexer/src/watched-address-repository.ts:306-326 | The live row of the outpoint, if it has one |
| PgFundingScanner.PgWatchedAddressRepository.RecordSpend | services/pearl-indexer/src/watched-address-repository.ts:328-356 | The spend is stored once and returned as stored; the live row is marked spent either way |
| PgFundingScanner.PgWatchedAddressRepository.AdvanceConfirmations | services/pearl-indexer/src/watched-address-repository.ts:358-379 | Updating the rows that the WHERE clause selects gives every row its specified depth and status, and the rows selected and counted are exactly those that change |
| PgFundingScanner.PgWatchedAddressRepository.DetachObservationsForBlock | services/pearl-indexer/src/watched-address-repository.ts:381-390 | Updating the block's live rows gives the specified rows, and the rows selected and counted are exactly those that change |
| PgFundingScanner.FundingScannerSink.SaveBlock | services/pearl-indexer/src/funding-scanner.ts:70-126 | The sink over the SQL tables computes the specified step |
| PgFundingScanner.FundingScannerSink.RecordBlockOutputs | services/pearl-indexer/src/funding-scanner.ts:90-109 | The loop over outputs and watches computes the specified scan of the SQL rows |
| PgFundingScanner.PearlBlockPoller.PollOnce | services/pearl-indexer/src/block-poller.ts:81-126 | The loop over heights computes the specified poll of the SQL service |
| BridgeExits.UpsertKeepsLedger | services/bridge-service/src/repository.ts:61-71 | An upsert that does not throw keeps ids, burns and release txids each with one exit, except exactly when it gives an exit an empty release txid that another exit has |
| BridgeExits.EventKeepsLedger | services/bridge-service/src/igra-events.ts:95-122 | So does an Igra event, and every exit only moves forward: terminal statuses are absorbing, processed never returns to pending, a release txid is write-once |
| BridgeExits.MatchedExit | services/bridge-service/src/reserve-spend-matcher.ts:10-88 | A match names a candidate exit of the spend's amount and recipient whose release txid the spend may write |
| BridgeExits.ApplySpendKeepsLedger | services/bridge-service/src/reserve-spend-applier.ts:20-86 | One turn of the applier never trips the store's conflict error and keeps the ledger |
| BridgeExits.ApplierNeverThrows | services/bridge-service/src/reserve-spend-applier.ts:20-86 | Neither does the whole loop, for every list of spends |
| BridgeExits.LedgerSafety | services/bridge-service/src/repository.ts:214-253 | Over every interleaving of Igra events and applier runs: ids, burns and release txids belong to one exit, terminal statuses are absorbing, processed never returns to pending, and a release txid and its block are write-once |
| BridgeMoves.SameTxidIff | services/bridge-service/src/repository.ts:255-259 | Two transaction ids are normalised to one text if and only if they differ at most in case and in the 0x of a 32-byte id |
| BridgeMoves.MatchIff | services/bridge-service/src/reserve-spend-matcher.ts:10-88 | Every verdict on a reserve spend if and only if: matched needs exactly one payable exit of the amount and recipient, and the txid free for it; duplicate one that it is not free for; recipient or amount mismatch none that fits but one of the amount, or of the recipient; unknown the rest, also where two exits fit |
| BridgeMoves.EventMoves | services/bridge-service/src/igra-events.ts:95-122 | An event changes the exit it is about and no other: a request its burn, amount and recipient, a processed event status and a missing txid, a refund the status, and no event a closed status or a txid; a request of an unknown exit appends it, pending |
| BridgeMoves.EventThrowsIff | services/bridge-service/src/repository.ts:214-231 | An event throws if and only if it lacks an id, recipient or txid it needs, or the burn or txid it reports belongs to another exit |
| BridgeMoves.SpendMoves | services/bridge-service/src/reserve-spend-applier.ts:25-84 | A spend that may pay an exit releases it with its txid and height unless the exit has them, and changes no other exit; any other spend changes nothing |
| BridgeReconciliation.UnknownStaysUnknown | services/bridge-service/src/reconciliation.ts:164-196 | Applying spends never turns an unknown reserve spend into a known one, nor moves a known one to another exit |
| BridgeReconciliation.KnownStaysKnownIff | services/bridge-service/src/reconciliation.ts:164-196 | After any applied spends, none with an empty txid, a spend is known exactly when it was known before and its exit and txid clash with no granted pair; pairs are granted first come first served, as the exits stand before the call, and two clash when they share exactly one of exit and txid |
| BridgeReconciliation.PendingMoves | services/bridge-service/src/reconciliation.ts:59-120 | The pending exits' total falls by exactly the amounts of the exits moved to released |
| BridgeReconciliation.ReserveAvailableMoves | services/bridge-service/src/reconciliation.ts:59-120 | Applying spends raises the available reserve by at least the requested amounts of the exits it moves to released, and by exactly those if and only if every known spend of positive amount stays known |
| BridgeReconciliation.ReserveExactIff | services/bridge-service/src/reconciliation.ts:59-120 | In terms of the ledger before the call, and with no empty txid applied: the rise is exact if and only if no known spend of positive amount clashes with a granted pair |
| BridgeReconciliation.OneToOneIsExact | services/bridge-service/src/reconciliation.ts:59-120 | In particular, with no empty txid applied, it is exact where the matched txids and exits correspond one to one |
| BridgeReconciliation.RunKeepsTxids | services/bridge-service/src/repository.ts:214-231 | Every run of the ledger in which no applied spend has an empty txid keeps the txid conditions the accounting needs |
| BridgeReconciliation.TwoSpendsOfOneExit | services/bridge-service/src/reserve-spend-matcher.ts:10-88 | Where pairs clash the rise is too high: two spends of one pending exit raise the reserve by twice the amount moved |
| IgraPoller.AbsorbedIff | services/bridge-service/src/igra-events.ts:95-122 | Over any log with one request per exit and no shared txid, applying a log again changes nothing if and only if it is no lifecycle event that came before its exit's request, or one of its kind came after that request |
| IgraPoller.RequestsFirstIff | services/bridge-service/src/igra-events.ts:95-122 | So replaying any log on any later fold changes nothing if and only if no lifecycle event comes before its exit's request |
| IgraPoller.Absorbs | services/bridge-service/src/igra-events.ts:95-122 | On such a log, applying a log again, at any later point of the fold, changes nothing |
| IgraPoller.Advances | services/bridge-service/src/igra-events.ts:95-122 | The next log in order moves the exits to the next fold and never throws |
| IgraPoller.LogKeepsInv | services/bridge-service/src/igra-poller.ts:104-118 | Saving and applying one log, replayed or new, keeps events and exits a prefix of the log and its fold |
| IgraPoller.ProcessKeepsInv | services/bridge-service/src/igra-poller.ts:104-118 | Processing any stretch of the log from at or before the fold, crash or not, leaves a fold again |
| IgraPoller.PollKeepsInv | services/bridge-service/src/igra-poller.ts:86-131 | So does a whole poll, whatever order the node answers in |
| IgraPoller.RunEqualsFold | services/bridge-service/src/igra-poller.ts:86-131 | Over every run, with crashes anywhere before the checkpoint and any change of safe tip between tries, on a log in which no lifecycle event comes before its exit's request: the exits are one in-order fold of a prefix of the log, the event store is a prefix at most one longer, and the completed ranges tile the blocks up to the checkpoint |
| IgraPoller.EveryRunFoldsIff | services/bridge-service/src/igra-poller.ts:86-131 | Over a log with one request per exit, no shared txid and one id per log: every run from the start, wherever it crashes, leaves a fold of a prefix of the log, if and only if no lifecycle event comes before its exit's request |
| IgraPoller.EarlyLifecycleBreaksReplay | services/bridge-service/src/igra-poller.ts:86-131 | A run of two polls, the first crashing between its last log and the checkpoint, on a log whose lifecycle event comes before its request: the exits it ends with are no fold of any prefix of the log |
| BridgeRuns.LogAppliesIff | services/bridge-service/src/repository.ts:214-231 | With poller and applier over one store, a log of an orderly log throws if and only if it reports a release txid that another exit than its own has, its own being requested before |
| BridgeRuns.ProcessIff | services/bridge-service/src/igra-poller.ts:104-118 | A try without a crash gets through a stretch of logs if and only if none of them is blocked so; no try blocks or frees a log |
| BridgeRuns.AttemptIff | services/bridge-service/src/igra-poller.ts:86-131 | Over every run of polls and spends, an attempt that does not crash aborts if and only if a log it asks for is blocked |
| BridgeRuns.StuckForever | services/bridge-service/src/igra-poller.ts:86-131 | A blocked log that is not yet passed stays blocked, and the checkpoint never passes it, whatever is polled or applied later |
| BridgeRuns.SpendBlocksIff | services/bridge-service/src/reserve-spend-applier.ts:13-89 | A log is blocked if and only if an earlier spend was matched to another exit that had no txid, and gave it the log's |
| BridgeRuns.SpendBlocksLog | services/bridge-service/src/reserve-spend-applier.ts:13-89 | Such a run: two requests, a spend of the one under the txid the log reports for the other, and the attempt that aborts |
| BridgeRuns.RunKeepsMixedInv | services/bridge-service/src/igra-poller.ts:86-131 | Over every run of polls and spends each exit has the id, burn, amount and recipient of a request in the log, and every request below the checkpoint has its exit |
| BridgeMoves.ExitHistory | services/bridge-service/src/reserve-spend-applier.ts:13-89 | Over every such run an exit is released only if a spend was applied that pays its requested amount to its recipient, processed or refunded only if the log says so, never anything but pending else, and its txid is one the log reports for it or that of such a spend |
| BridgeMoves.PollRange | services/bridge-service/src/igra-poller.ts:86-131 | A poll asks from the checkpoint or the start block up to the last safe block, but for at most the allowed range; completed it moves the checkpoint to the block after, and otherwise leaves it |
| BridgeMoves.AppliesInOrder | services/bridge-service/src/igra-poller.ts:204-210 | Whatever order the node answers in, logs are applied by block and then by log index |
| BridgeMoves.SavesOnce | services/bridge-service/src/repository.ts:50-55 | An event is stored unless one with its transaction hash, in any case, and log index is; no stored event changes |
| BridgeService.InMemoryBridgeStateRepository.SaveIgraEvent | services/bridge-service/src/repository.ts:50-55 | An event is stored once under its id |
| BridgeService.InMemoryBridgeStateRepository.UpsertExitRequest | services/bridge-service/src/repository.ts:61-71 | The exits become the specified upsert, or stay as they are where it throws; the saved exit is returned with whether it is new |
| BridgeService.InMemoryBridgeStateRepository.FindExitRequest | services/bridge-service/src/repository.ts:73-75 | The exit with the id, if there is one |
| BridgeService.ApplyMatch | services/bridge-service/src/reserve-spend-applier.ts:25-84 | One turn of the loop computes the specified application |
| BridgeService.ApplyReserveSpendMatches | services/bridge-service/src/reserve-spend-applier.ts:13-89 | The loop computes the specified applications and reports each spend's match against the exits of its turn |
| BridgeService.IgraBridgeEventPoller.PollOnce | services/bridge-service/src/igra-poller.ts:86-131 | The poller computes the specified poll, crash by crash |
| BridgeService.IgraBridgeEventPoller.ApplyIgraBridgeEvent | services/bridge-service/src/igra-events.ts:95-122 | The exits become the specified ones, or stay as they are where it throws |
| Quorum.EvaluateBridgeAttestationQuorum | services/bridge-service/src/attestations.ts:110-161 | The loop returns the verdict that depends only on which attestations were received |
| Quorum.StatusMeans | services/bridge-service/src/attestations.ts:110-150 | Manual review if and only if the policy or an attestation is at fault; approval if and only if policy and attestations are clean, the event is final, and at least the required number of distinct authorised relayers attested this id and hash; the relayers named are exactly those |
| Quorum.PolicyOkIff | services/bridge-service/src/attestations.ts:199-211 | The policy has no blocker if and only if its relayers are distinct and its requirement is whole, positive and within the set |
| Quorum.PermutationKeepsVerdict | services/bridge-service/src/attestations.ts:110-161 | Status, relayers and blockers are unchanged by permuting the attestations |
| Quorum.QuorumsIntersect | services/bridge-service/src/attestations.ts:110-161 | With twice the requirement above the relayer count, approvals of one event id with two hashes share a relayer who attested both |
| Quorum.DisjointQuorums | services/bridge-service/src/attestations.ts:110-161 | With twice the requirement within the relayer count, two approvals with no relayer in common exist |
| Quorum.BlockersAre | services/bridge-service/src/attestations.ts:110-207 | A verdict names each blocker if and only if the policy, the finality of the event or the attestations call for it: an unknown relayer, one that attests another id or another hash, one that attests twice |
| UsdcEvents.NormalizeUsdcEscrowTradeEvents | packages/usdc-escrow-client/src/events.ts:36-44 | The loop over the sorted events computes the specified states, or throws where the fold does |
| UsdcEvents.StatesSplit | packages/usdc-escrow-client/src/events.ts:36-44 | Folding all events folds each trade's own events, and throws if and only if one trade's fold does |
| UsdcEvents.FoldsIff | packages/usdc-escrow-client/src/events.ts:46-52 | One trade's events fold without throwing if and only if they share network, chain and contract |
| UsdcEvents.FieldsAreLatest | packages/usdc-escrow-client/src/events.ts:54-111 | Every field of a folded state, from network to transaction hashes, is what the last event that reports it said |
| UsdcEventStore.NormalizeSplits | packages/usdc-escrow-client/src/events.ts:36-44 | Normalising throws if and only if some trade has two homes, and otherwise gives each trade the fold of its own sorted events |
| UsdcEventStore.IngestThrowsIff | packages/usdc-escrow-client/src/events.ts:123-145 | Ingesting throws if and only if a trade of the batch's new events has two homes among all stored events |
| UsdcEventStore.IngestKeepsCache | packages/usdc-escrow-client/src/events.ts:123-145 | A batch that brings no trade a second home keeps the cache equal to the fold of all stored events |
| UsdcEventStore.CacheIsFold | packages/usdc-escrow-client/src/events.ts:123-145 | Over every run of batches in which no trade has two homes, nothing throws and the cache is the fold of the first event of each id |
| UsdcEventStore.OrderIndependent | packages/usdc-escrow-client/src/events.ts:119-145 | However the same events are split into batches, reordered or repeated, the cached states are the same, as long as no trade has two homes and no two different events share an id, or a place in the order of one trade |
| UsdcEventStore.ReportedAgain | packages/usdc-escrow-client/src/events.ts:125-131 | An id already stored is never updated: a later report with more confirmations or another block changes nothing |
| UsdcEventStore.ForeignEventStarvesOthers | packages/usdc-escrow-client/src/events.ts:133-140 | An event from another contract stops the batch: the next trade's event is stored but its state is never folded, also not when it is ingested again |
| UsdcEventStore.InMemoryUsdcEscrowEventRepository.IngestEvents | packages/usdc-escrow-client/src/events.ts:123-145 | The method computes the specified ingest, including the state it leaves where it throws |
| UsdcEventOrder.NormalizedIsLatest | packages/usdc-escrow-client/src/events.ts:36-117 | Normalising gives a state to each trade with an event. Status and source event are those of an event that no other of the trade follows by block, then log index, then creation before deposit before the rest; every other field was last said by some event in that order, and is absent if none says it |
| UsdcEventOrder.CachedIsLatest | packages/usdc-escrow-client/src/events.ts:119-145 | Over every run of batches without a second home the cached state of each trade is the latest of its stored events in that order, and every reported event is stored once |
| UsdcEventOrder.IngestReturns | packages/usdc-escrow-client/src/events.ts:133-145 | A batch returns the cached states of exactly the trades it brought a new event of |
| TradeStates.TerminalStates | packages/pearl-sdk/src/otc.ts:251-253 | The terminal states are the five with no way out |
| TradeStates.AllowedIffEntered | packages/pearl-sdk/src/otc.ts:216-239 | A transition is allowed if and only if the table turned around lets its target be entered from its source |
| TradeStates.CommittedIsClosed | packages/pearl-sdk/src/otc.ts:216-239 | From a state on the release or refund side no chain of allowed transitions reaches the state a release is decided from, and from every other state one does |
| Settlement.Decisions | services/settlement-worker/src/decision-engine.ts:110-172 | For every snapshot, exactly when a PRL release, a PRL refund or a USDC release is prepared and when a trade is marked released: no branch before them narrows these conditions further |
| Settlement.DepositIsPaid | services/settlement-worker/src/settlement-loop.ts:93-171 | The Base status is `deposited` only if the trade's last event is a deposit of the expected amount and its events report the agreed fee, expiry, buyer and seller |
| Settlement.BaseStatusIff | services/settlement-worker/src/settlement-loop.ts:93-171 | Each Base status if and only if: none without events, and one of the five of the last event exactly where its events name the agreed escrow, parties, amounts and expiry, else stale |
| SettlementRuns.InMemorySettlementDecisionRepository.SaveDecision | services/settlement-worker/src/decision-engine.ts:83-93 | A decision is created once per idempotency key |
| SettlementRuns.InMemorySettlementWorkerTradeSource.ApplyTradeState | services/settlement-worker/src/settlement-loop.ts:187-194 | The first trade with the id takes the state, and no other changes |
| SettlementRuns.SettlementWorker.RunIteration | services/settlement-worker/src/settlement-loop.ts:28-66 | The loop computes the specified iteration, and makes one decision for each trade listed |
| SettlementRuns.SettlementWorker.ExecuteDecision | services/settlement-worker/src/settlement-loop.ts:68-91 | A decision's transition and preparation are the specified ones |
| SettlementRuns.WorkThroughKeepsInv | services/settlement-worker/src/settlement-loop.ts:38-58 | An iteration touches only the trades it listed and prepares at most one action at the signer for each, on what it observed of it |
| SettlementRuns.ApplyKeepsInv | services/settlement-worker/src/settlement-loop.ts:28-66 | Every iteration, outside transition and change of authorisation keeps the run invariant |
| SettlementRuns.AtMostOneRelease | services/settlement-worker/src/decision-engine.ts:110-172 | Over every run, a trade's PRL release is prepared at most once and on confirmed PRL and deposited USDC, a USDC release only on a confirmed PRL release, and no decision is prepared twice |
| SettlementRuns.PreparedFrom | services/settlement-worker/src/settlement-loop.ts:38-58 | Two preparations of one trade come from two iterations in order, each on what that iteration observed |
| SettlementRuns.ReleaseExcludesRefund | services/settlement-worker/src/decision-engine.ts:110-231 | Over every run, no trade has both a PRL release and a PRL refund prepared, as long as its Base escrow, once seen deposited, is not seen empty later |
| SettlementRuns.BothPreparedIff | services/settlement-worker/src/decision-engine.ts:110-172 | Over every run, both are prepared for a trade if and only if at some event after its release was prepared an iteration finds a refund due, as below |
| SettlementRuns.BothPrepared | services/settlement-worker/src/decision-engine.ts:155-166 | A Base status that falls from deposited to cancelled has the refund prepared after the release |
| SettlementRuns.RefundPreparedIff | services/settlement-worker/src/decision-engine.ts:155-166 | After every run, an event prepares a trade's refund if and only if it is an iteration and the trade is in no review or final state, is seen funded in time with an empty Base escrow once refunds are open, and no refund was prepared before in this state on this observation |
| SettlementRuns.RefundBound | services/settlement-worker/src/decision-engine.ts:100-108 | Over every run a trade's refunds are at most one, plus four for each distinct funded-and-empty observation of it, one for each state a further refund can be prepared in |
| SettlementRuns.RefundPreparedTwice | services/settlement-worker/src/decision-engine.ts:155-166 | A refund, unlike a release, is prepared again by the same iteration on an unchanged observation: preparing it changed the trade's state, which is part of the decision's key |
| SettlementRuns.RefundPreparedFiveTimes | services/settlement-worker/src/decision-engine.ts:100-108 | The bound is reached: one observation, five refunds of one trade |
| SettlementMoves.DecideIs | services/settlement-worker/src/decision-engine.ts:110-231 | On every trade still listed, each of the six decisions is taken if and only if it is due, said of state, observation, deadlines and authorisation alone |
| SettlementMoves.IterationMoves | services/settlement-worker/src/settlement-loop.ts:68-91 | After every run, an iteration leaves each trade released if both legs were seen released, refunded if the PRL was seen refunded, in manual review if state or observation needs it, release or refund pending if that is due, in each case unless it was decided before on this state and observation, and otherwise as it was |
| SettlementMoves.IterationPrepares | services/settlement-worker/src/settlement-loop.ts:68-91 | And it adds a PRL release, a PRL refund or a USDC release of the trade to the prepared actions if and only if that is due and was not decided before on this state and observation |
| Amounts.ParseIs | packages/pearl-sdk/src/amounts.ts:19-37 | Accepted are exactly, white space around them aside, digits with at most one dot after the first and few enough decimals, and what they are worth |
| Amounts.ParseFormat | packages/pearl-sdk/src/amounts.ts:19-47 | Parsing a formatted count gives the count back for every count and every decimals of at least 1; with no decimals it always throws |
| Amounts.FormatParse | packages/pearl-sdk/src/amounts.ts:19-47 | With at least one decimal, formatting a parsed amount gives the canonical spelling: no leading zeros and every decimal written |
| Amounts.ParsersDiffer | services/otc-api/src/repository.ts:3049-3055 | The repository's parser and the SDK's agree wherever both accept; only outer white space is accepted by the SDK alone, only a second dot by the repository alone |
| Amounts.RepoParseFormat | services/otc-api/src/repository.ts:3049-3062 | With at least one decimal, the repository reads back every amount it writes |
| Amounts.ValueToGrainsFloors | services/pearl-indexer/src/block-poller.ts:159-168 | On plain decimal text of any precision the indexer rounds down to whole grains |
| Amounts.ValueToGrainsAgrees | services/pearl-indexer/src/block-poller.ts:159-168 | On untrimmed input the SDK accepts at 8 decimals, the indexer counts the same grains |
| Quotes.QuoteReadsBack | services/otc-api/src/trade-service.ts:3755-3772 | A quote exists if and only if both inputs parse; its amounts read back as the floor of amount times price and the floor of the fee share, no fee is taken in PRL, the price stands as given, and the fee is at most the charge for a fee of at most 10000 bps |
| Quotes.SplitFills | services/otc-api/src/quote-engine.ts:16-29 | Quoting a whole in k parts never charges more USDC and falls short by fewer than k micros; the fees never exceed the whole's and fall short by at most 2k-2 micros for a fee of at most 10000 bps |
| Quotes.SplitBoundIsTight | services/otc-api/src/quote-engine.ts:16-29 | The first bound is reached for every k up to one PRL in grains |
| OrderRuns.FillNeverThrows | services/otc-api/src/trade-service.ts:3090-3104 | A fill that passes `assertOrderFillable` is always reserved, though the two use different parsers; the remainder falls by exactly the fill, and the status written is filled if and only if nothing remains |
| OrderRuns.QuoteKeeps | services/otc-api/src/trade-service.ts:1552-1578 | A new request id makes one new quote, at the price and amount asked, and leaves the others; a used one gives back the quote it made and changes nothing if the request is the same, and throws if it is not |
| OrderRuns.AcceptKeepsFills | services/otc-api/src/trade-service.ts:1588-1686 | Accepting a quote fills its order by exactly the trade's amount, and a quote with a trade is never filled again |
| OrderRuns.PrefundTouchesNothing | services/otc-api/src/trade-service.ts:851-990 | No prefund call changes an order's amount or remainder |
| OrderRuns.FillsConserve | services/otc-api/src/repository.ts:301-307 | Over every run of all order calls in which new orders have fresh ids, what remains of an order and the trades filled from it add up to its amount in grains, each quote is filled at most once, and an order is open, partially filled or filled exactly as its remainder says until something closes it |
| OrderMoves.CreatedIff | services/otc-api/src/trade-service.ts:572-643 | An order is created if and only if it is admitted, its amounts are positive and only a seller prefunds; it is stored open, whole and unfunded, with its texts trimmed |
| OrderMoves.AskedIff | services/otc-api/src/trade-service.ts:1547-1578 | A new request is quoted if and only if it is admitted and its amount and the price can be read; the quote charges that amount at that price and expires after the time a quote is good for |
| OrderMoves.TakenIff | services/otc-api/src/trade-service.ts:992-1026 | A new take is quoted at the order's price and linked to order and taker if and only if the order is open, not expired, not the taker's own and has the amount left, which is at least its minimum; the buyer's addresses are the maker's on a buying order and the taker's on a selling one |
| OrderMoves.AcceptedIff | services/otc-api/src/trade-service.ts:1588-1686 | A quote gets a trade if and only if the call is new and admitted, the quote has not expired and has no trade, and the order it is linked to can still be filled by its amount; the trade takes exactly that off the order, and any other call changes nothing |
| OrderMoves.AnsweredIff | services/otc-api/src/trade-service.ts:1588-1612 | A call is answered without an error if and only if that holds or it repeats an accepted one, quote and details alike |
| OrderLinks.UsedAsk | services/otc-api/src/trade-service.ts:992-1026 | An ask under a used request id succeeds if and only if the order can be taken and the request equals the stored one, and then only moves the link |
| OrderLinks.RepeatedAskIff | services/otc-api/src/trade-service.ts:992-1026 | After taking one order, a second ask under the same request id moves the quote if and only if the second order can be taken by that taker and both make the same request: same side and amount, same taker addresses on selling orders, same maker addresses on buying ones; the quote keeps the first order's price, and any other second ask throws |
| OrderLinks.StepPricedIff | services/otc-api/src/trade-service.ts:992-1026 | One call, creating orders under fresh ids only, keeps every linked quote at its order's price if and only if it takes no order under a used request id whose quote has another price |
| OrderLinks.LinkedPricesIff | services/otc-api/src/trade-service.ts:992-1026 | So all along a run with fresh order ids every linked quote has its order's price if and only if no call of it does that |
| OrderLinks.LinkedPrices | services/otc-api/src/trade-service.ts:992-1026 | In particular over every run with fresh order ids in which no request id is asked for two orders, nor at the desk price before it is asked for an order |
| PrefundRuns.SweepKeepsPrefund | services/otc-api/src/trade-service.ts:851-892 | A sweep with the stored order and a fresh id moves exactly its grains from that order's remainder to its sweeps, touches no other order, and a refused one changes nothing |
| PrefundRuns.CurrentOrderNeverFailsLate | services/otc-api/src/trade-service.ts:873-891 | With the stored order, a refused sweep has written nothing |
| PrefundRuns.ObserverKeepsPrefund | services/otc-api/src/trade-service.ts:932-990 | The funding observer keeps conservation and the meaning of the states |
| PrefundRuns.CutoffKeepsPrefund | services/otc-api/src/trade-service.ts:906-930 | So does the cutoff |
| PrefundRuns.FundedCoversOrder | services/otc-api/src/trade-service.ts:943-977 | The observer funds an order only on a confirmed, unspent, allocated funding, and with at least the order's amount if and only if the reported amount is not the empty text |
| PrefundRuns.CutoffClosesOrder | services/otc-api/src/trade-service.ts:893-930 | After the cutoff a listed order past its lock time cannot be filled, is otherwise unchanged, and its maker can still request the refund |
| PrefundRuns.RefundKeepsPrefund | services/otc-api/src/trade-service.ts:768-826 | So do a refund request and its completion |
| PrefundRuns.FillIgnoresPrefund | services/otc-api/src/trade-service.ts:3090-3104 | Whether an order can be filled, and what the fill leaves, depends on its status, expiry, remainder and minimum alone, in every prefund state |
| PrefundRuns.UnfundedOrderIsFilled | services/otc-api/src/trade-service.ts:3090-3104 | For every positive amount, every price that parses and every quote lifetime above zero, a run in which an order that declares prefunding is quoted and filled whole while its funding is still pending |
| PrefundRuns.SweepKeepsIff | services/otc-api/src/trade-service.ts:851-892 | Any sweep call, accepted or not, keeps conservation if and only if it is balanced: the row written and the one it overwrites are of one order, and the remainder passed in is the stored one with the overwritten grains put back, or, where the stored order is not sweepable, the row is replaced by an equal one |
| PrefundRuns.PrefundConservesIff | services/otc-api/src/trade-service.ts:851-892 | All along a run with fresh order ids, funded grains are the remainder plus the swept grains; funded means nothing swept, partially swept strictly between, fully swept nothing left, refund pending and refunded something left; if and only if every sweep call of the run is balanced |
| PrefundRuns.PrefundConserves | services/otc-api/src/trade-service.ts:851-892 | In particular where every sweep is initiated with the stored order and under a fresh id |
| PrefundRuns.SweepConservesIff | services/otc-api/src/trade-service.ts:863-891 | After any accepted sweep every order's sum holds if and only if the sweep was balanced |
| PrefundRuns.SweepLoses | services/otc-api/src/repository.ts:829-830 | By how much an accepted sweep puts each order's sum out: the grains overwritten, and for its own order also how far the remainder passed in is behind the stored one |
| PrefundMoves.StepMoves | services/otc-api/src/trade-service.ts:768-990 | Every call of the order book changes a stored order's prefund fields, status and remainder in one of seven ways, each under its own condition on the call and the order: refund asked, refund seen, funded, lapsed, swept, cut off, filled |
| PrefundMoves.BecomesIff | services/otc-api/src/trade-service.ts:768-826 | At an event an order becomes refund pending if and only if its refund is asked for and prepared at or after its lock time, from funded or partially swept with grains left; and likewise when it becomes refunded, funded, lapsed, cancelled and expired |
| PrefundMoves.RefundsWait | services/otc-api/src/trade-service.ts:780-785 | In every run with fresh order ids, an order that is refund pending or refunded was asked for its refund at or after its lock time, while it held funds |
| PrefundMoves.FundsAreProved | services/otc-api/src/trade-service.ts:943-977 | In every such run, an order that holds funds was funded by a confirmed, unspent funding reserved for it and not reported as less than its amount, and has kept that outpoint and those grains |
| PrefundRuns.SweepIs | services/otc-api/src/trade-service.ts:851-892 | When a sweep is accepted, when its row is written, with which input and status, and what it leaves of the order |
| OtcService.InMemoryOtcRepository.ReserveOrderFill | services/otc-api/src/repository.ts:726-746 | The order becomes the specified one, or stays where it throws |
| OtcService.InMemoryOtcRepository.SaveOrderSweep | services/otc-api/src/repository.ts:811-832 | A sweep is stored unless its trade has one |
| OtcService.OtcTradeService.AcceptQuote | services/otc-api/src/trade-service.ts:1588-1693 | The method computes the specified acceptance; it throws where that does, having changed nothing, and where the deposit watch cannot be registered, having saved trade and fill |
| OtcService.OtcTradeService.InitiateOrderSweep | services/otc-api/src/trade-service.ts:851-892 | The method computes the specified sweep, including what it leaves where it throws |
| OtcService.OtcTradeService.RunPrefundFundingObserverIteration | services/otc-api/src/trade-service.ts:932-990 | The loop over the listed orders computes the specified observations |
| OtcService.OtcTradeService.RunPrefundCltvCutoffIteration | services/otc-api/src/trade-service.ts:906-930 | The loop over the listed orders computes the specified cutoffs |
| OtcService.OtcTradeService.RequestPrefundRefund | services/otc-api/src/trade-service.ts:768-816 | The order becomes refund pending exactly where the checks pass |
| SignerBoundary.CallKeepsLedger | packages/pearl-escrow/src/signer-boundary.ts:105-167 | One call, whatever the signer does, keeps every audit trail in step with its record |
| SignerBoundary.RunKeepsLedger | packages/pearl-escrow/src/signer-boundary.ts:105-167 | Over every run of calls, signer failures and interruptions, a key's audit trail is one requested, then one failed for each failed attempt, then at most one signed, as its record says, and its fee is within its cap |
| SignerBoundary.AuditsAgree | packages/pearl-escrow/src/signer-boundary.ts:105-167 | So each key has exactly one requested audit, signed and failed audits make up its attempts, and it is signed if and only if it has a signed audit, of which there is one |
| SignerBoundary.SignedIsFinal | packages/pearl-escrow/src/signer-boundary.ts:138-140 | Once signed, a record and its audit trail never change, whatever is called later |
| SignerPolicy.RejectedIff | packages/pearl-escrow/src/signer-boundary.ts:105-137 | A call is rejected, and then changes nothing, if and only if the policy is paused, incomplete or does not allow its key, the template is unexpected or malformed, the escrow has not exactly the one output of the action to the destination, or the fee is negative or above the release cap for a release and the refund cap for a refund |
| SignerPolicy.CallEnds | packages/pearl-escrow/src/signer-boundary.ts:138-167 | An allowed call signs if and only if the record is not signed yet and the answer fits the request in trade, action, key, signer and well-formed transaction; how every other answer ends, and the record each leaves |
| SignerPolicy.RecordFrom | packages/pearl-escrow/src/signer-boundary.ts:105-137 | Over every run of calls each record is the request of some call of it that was allowed so |
| SignerPolicy.LastAuditTells | packages/pearl-escrow/src/signer-boundary.ts:138-167 | Over every run the last audit of a key has the record's status, with the transaction id of a signed record and the error of a failed one |
| SignerBoundary.InMemoryPearlSignerRequestRepository.SaveRequest | packages/pearl-escrow/src/signer-boundary.ts:173-183 | A request is stored once per key, and the stored record is returned |
| SignerBoundary.PearlSignerBoundary.RequestSignature | packages/pearl-escrow/src/signer-boundary.ts:105-167 | The method computes the specified call, including what a failed or interrupted one leaves |
| SignerOverlap.AloneIsSignStep | packages/pearl-escrow/src/signer-boundary.ts:105-167 | Beginning a call and answering it with nothing in between is the call above |
| SignerOverlap.StepKeepsInv | packages/pearl-escrow/src/signer-boundary.ts:105-167 | One beginning or answer: a key's record and trail agree afterwards if and only if they did before and the answer was not overtaken by another of the key since its call began; once they disagree they stay so |
| SignerOverlap.AgreesIff | packages/pearl-escrow/src/signer-boundary.ts:105-167 | Over every run of calls that overlap in any way, a key's audit trail is the one its record describes if and only if no answered call of the key was overtaken |
| SignerOverlap.SignedStays | packages/pearl-escrow/src/signer-boundary.ts:138-166 | A signed record changes under no beginning and under no answer that is not overtaken |
| SignerOverlap.OvertakenOverwrites | packages/pearl-escrow/src/signer-boundary.ts:155-166 | For every accepted request: a call that began before another was signed, and is refused after it, leaves the record failed and without its signature |
| SignerPolicy.OverlappingRecordFrom | packages/pearl-escrow/src/signer-boundary.ts:105-137 | Over every run of overlapping calls too, each record is the request of a call of it that was allowed |
| TapScript.CountScriptSigOpcodes | packages/pearl-escrow/src/script-path-signing.ts:205-240 | The loop ends on every script and returns the specified count, or throws where a two- or four-byte length is missing |
| TapScript.ScanSkipsPush | packages/pearl-escrow/src/script-path-signing.ts:217-236 | The scanner steps over a push of any size, whatever bytes it holds |
| TapScript.ScanCompiled | packages/pearl-escrow/src/script-path-signing.ts:205-240 | Scanning a compiled list of opcodes and pushes counts its CHECKSIG and CHECKSIGADD opcodes and nothing inside its pushes |
| TapScript.ScriptNumberReads | packages/pearl-script/src/p2tr.ts:186-189 | A lock time's script number reads back, is not negative and is short |
| TapScript.AssertDistinctSignerPubkeys | packages/pearl-script/src/p2tr.ts:131-141 | The check passes if and only if no two signers share a key |
| TapScript.MultisigLeavesCount | packages/pearl-script/src/p2tr.ts:85-90 | For all keys, nonces of 1 to 80 bytes and lock times, each trade escrow leaf counts its required signers |
| TapScript.PrefundLeavesCount | packages/pearl-script/src/p2tr-prefund.ts:75-115 | So does each prefund escrow leaf, in both modes |
| TapScript.AssertScriptPathWitnessComplete | packages/pearl-escrow/src/script-path-signing.ts:184-203 | The check passes if and only if the witness has a signature of 64 or 65 bytes for each signature opcode of its script |
| TapScript.LeafWitness | packages/pearl-escrow/src/script-path-signing.ts:184-203 | A leaf's witness passes if and only if it holds exactly one well-sized signature for each required signer |
| TapScriptSpending.CompiledRuns | packages/pearl-script/src/p2tr.ts:154-200 | On the stack machine of BIP 342 a compiled script runs as its list of opcodes and pushes, for every push of up to four length bytes |
| TapScriptSpending.MultisigSpend | packages/pearl-script/src/p2tr.ts:60-129 | The leaves of a trade escrow exist if and only if the keys differ, the lock time is positive and the nonce has 1 to 80 bytes. For every witness and transaction, each leaf is spent if and only if the witness is one signature of each of its signers, in reverse order: two of buyer, seller and arbiter, or the seller alone once the lock time of the transaction has reached the leaf's |
| TapScriptSpending.PrefundSpend | packages/pearl-script/src/p2tr-prefund.ts:60-136 | Likewise for a prefund escrow: swept exactly by operator and arbiter in automatic mode and by maker and operator in manual mode, refunded exactly by the maker from the lock time on; there is an arbiter if and only if the mode is automatic |
| Sorting.SortSorts | packages/usdc-escrow-client/src/events.ts:169-175 | Sorting orders the list and keeps every member as often as it occurs |
| Sorting.SortOfStrict | services/bridge-service/src/igra-poller.ts:204-210 | Lists with the same members and distinct keys sort to one list |
| Sorting.FilterSort | packages/usdc-escrow-client/src/events.ts:133-137 | Because the sort is stable, one trade's events are ordered among all events as they are alone |

## Left out

- HTTP servers and clients, RPC, database drivers, JSON-file stores, configuration, web pages, notifications, referral
  points and admin views: plumbing or easy members.
- Registering and closing watches during a run: the list of watches is fixed, with any number per address. The SQL
  query for an address's watches has no order; here it is that of the list, and does not change between queries.
- MemoryIndexer.RunIndexes: a process whose call fails ends and loses all it knows, so runs are those of one living
  process.
- `FundingScannerSink` and `PearlBlockPoller` occur twice, once for each pairing of stores that main.ts builds: a
  class here names the stores it writes to, and the source's interfaces for them have no counterpart.
- A poll and a run of the applier that overlap: each is one step of a run of the bridge.
- Funding metadata parsing (services/pearl-indexer/src/funding-scanner.ts:293-310): a watch carries the parsed amount
  and deadlines.
- Classification of spends (services/pearl-indexer/src/funding-scanner.ts:203-277): the index does not depend on it.
- Rolling back spends when the spending block detaches: the code only detaches funding observations, so `spent` does
  not mean spent on the live chain.
- Atomicity between the inner block save and the scan: one saved block is one step.
- Match counts and log messages of the scanner and event counts of the pollers; an empty indexed hash on a reorg,
  which a table of hashes does not have.
- Timestamps and metadata of exits, observations, decisions, requests and trades.
- ABI decoding and the contract-address check of Igra logs: runs start from decoded events; the order of
  `listExitRequests`, which is by timestamp, is the insertion order here.
- Lower-casing beyond ASCII.
- Equating the available reserve with the on-chain balance: spent outputs stay counted.
- Deposit rows and blockers of the reconciliation snapshot: they do not enter the reserve sums.
- Quorum.EvaluateBridgeAttestationQuorum: the two result lists are sets, without their sorting, and a requirement that
  is not a number or infinite is not modelled; like every other invalid one it leads to manual review.
- Event ids of the escrow client are tuples; a transaction hash or trade key that holds a colon is not modelled.
- Concurrent iterations of the settlement worker, and a trade moved by another actor between listing and deciding: an
  iteration is one step of a run. Writes of the SQL trade source, which does not check the transition table.
- Distinct sweep inputs: every sweep records the original funding outpoint. Sweep signing and status updates, which
  change no amount.
- The order of orders listed by prefund state, which is by update time: the iterations take any list of ids.
- Base units that are not decimal text: prefund amounts are the numbers `BigInt` reads, and the empty amount is kept
  apart.
- Quote statuses other than active: no modelled call writes one.
- Concurrent requests inside one call of the order book, and the SQL order repository.
- SignerBoundary.RunKeepsLedger: calls follow each other; `SignerOverlap` interleaves them at the signer's answer.
  Saving a request with its audit, and updating one with its audit, are each one step in both: a store that fails
  between its own two writes is not modelled. Error texts of mismatched responses are one text.
- Amounts.ValueToGrainsAgrees: text input only; the number branch goes through floating-point `toFixed`, and the
  hexadecimal, octal and binary literals `BigInt` also reads are not modelled.
- Elliptic curves, PSBTs, Taproot trees and addresses: keys are 32 bytes. bitcoinjs-lib is not part of this model; its
  push encoding is stated as minimal pushes, and its script numbers as minimal little-endian ones, on which no count
  depends.
- TapScriptSpending.MultisigSpend: the stack machine has the opcodes the leaves use and no others. Whether a signature
  is right is a parameter, a lock time is encoded as above however large it is, and sequence locks, the control block
  and the limits on script and witness size are not modelled.
