# Coinquery: verified models

Dafny models of the parts of coinquery whose correctness is hardest to see from the code, with
proofs of what they promise. `dafny verify dfyconfig.toml` checks everything.

| group | modules | source |
|---|---|---|
| CashAddr codec | `GF32`, `Register`, `Checksum`, `BitGroups`, `CashAddr`, `CashAddrInverse`, `CashAddrBurst`, `CashAddrVectors` | `V2/pkg/cashaddr/cashaddr.go` |
| Ethereum block queue | `DecimalOrder`, `BlockQueues`, `BlockQueueRuns`, `BlockQueueProgress`, `BlockQueueOrder`, `BlockQueueExact`, `BlockQueueEager`, `BlockQueueLosses`, `BlockQueueCallers` | `block-queue.ts` |
| Ethereum scanner | `BlockTables`, `ScanPass`, `ScanContents`, `ScanRecords`, `ScanReorganisation`, `ScanOutcome`, `ScanCompletion`, `ScanEveryPass` | `monitor-logic.ts`, `database-functions.ts`, `ethereum-explorer.ts` |
| Block service | `BlockServices` | `service.ts` |
| UTXO indexer | `IndexerStages`, `Indexer`, `IndexerRuns`, `IndexerTip` | `V2/cmd/indexer/main.go` |
| Block validator | `BlockValidator`, `ValidatorRuns`, `ValidatorProgress` | `V2/cmd/blockvalidator/main.go` |
| Amounts and fees | `Amounts`, `TxParts`, `TxValues` | `V2/internal/convert/convert.go`, `V2/pkg/api/insight/helpers.go` |
| Address discovery | `GapScan` | `V2/internal/xpubutil/xpub_util.go` |

`Options`, `Arithmetic` and `Indexes` are shared.

Code that updates variables in loops is modelled by methods and classes, each proved equal to a
specification function; what the code promises is then proved of those functions. Concurrent code
is modelled as a transition system: every step of a goroutine or promise, and every rendezvous on
an unbuffered channel, is an event, and the theorems quantify over all runs. Time, the network, the
node and the operator appear as parameters or events: response order, retries, node heights, worker
order and the stored service state are arbitrary.

## What turned out not to hold

Where a promise fails, a lemma gives an input and another lemma the exact condition.

- The queue promises batches "in consecutive order", but picks the oldest request by string order
  and ignores request 0. With the sample configuration, blocks 4 to 8 can come before block 3
  (`SampleConfigIsRisky`). All runs are in order exactly when no index at which a batch can begin can
  be overtaken: q can be, if q is 0 and a full batch fits into the range, or if a request r sorts
  before q and a full batch fits between them (`OrderedIffNotRisky`; the predicate is `Risky`). Equal
  digit counts at both ends of a range that does not start at 0 are always enough (`SafeDelivers`).
- An answer without a block drops its index for good, and the queue then runs dry without it
  (`LostDropsIndex`, `LostForGood`). Every index is accounted for exactly when no such answer came
  (`PresentIffNoLoss`, `EmptyBatchMeansDoneOrLost`); the source in use throws instead.
- Callers that wait at the same time all receive the same batch (`TwoCallersShare`). No block is received
  twice exactly when no two callers wait at once (`ReceivedOnceIff`), which callers that take turns never
  do (`TakingTurns`).
- The block service sorts the two ends of a range as strings, so a range such as 9 to 10 is handed
  over upside down (`NineTenIsReversed`, `SortedRangeAscendsIff`).
- A failed insert of transactions is never made good by a later scan, since the block hashes are
  already stored (`FailedSaveSticks`). A batch leaves the tables consistent exactly when no transaction
  to be inserted occurs twice in it or is stored under a block that it does not replace
  (`ScannedWholeIff`); a whole pass does exactly when each such transaction is in one block of the
  range only and, if stored, is stored under an index handed out in the same batch or before
  (`PassCompletesIff`, `PassMirrorsIff`; over all runs `EveryPassCompletesIff`). A reorganisation that
  moves a transaction to an earlier block can so lose it (`ReorganisationLosesTransaction`).
- The pass after a completed one can still write if the tip had fallen below the index the first one
  started from; `NextPassQuietIff` says exactly when.
- The validator compares transaction counts, so a valid block holds the node's transactions only if it
  holds no others (`ValidCanDiffer`, `ValidHoldsIff`).
- A repair after a transaction count mismatch inserts transactions under their place among the
  missing ones, which is their own index only if no stored transaction precedes a missing one
  (`RepairMisplaces`, `RepairIndexesRightIff`); surplus stored transactions stay (`RepairCovers`).
- The validator's watermark can pass a block that still awaits repair, exactly in jobs of three or
  more blocks that are longer than the offset (`WatermarkPassesRepair`, `WatermarkSafeIff`).
- The validator waits for ever if the chain ends one below its start block, and panics if it ends lower
  still (`EmptyRangeWaits`, `GenerateBlockHeights`).
- The indexer's initial sync returns with nothing inserted if there is no fetcher or no writer
  (`NoWorkersNoSync`, `AlwaysSyncsIff`).
- Printing an amount through float64 and reading it back is exact up to 6710886400000001 satoshis
  and no further (`FirstInexact`, `ExactUpToIff`).
- Reading an amount accepts the empty string and a sign after the dot (`OddNumeralsAccepted`,
  `ToSatoshiAcceptsIff`) and panics on nine or more decimals (`ToSatoshiPanicsIff`).
- The batched address scan can find more than a scan with gap limit 20 (`FindsMore`,
  `ScansDifferIff`), and misses a used address exactly when an unused batch precedes it
  (`FindsAllIff`).
- The address decoder panics on some strings with fewer than eight symbols (`PanicExample`,
  `PanicsIff`), refuses addresses that the encoder makes for hashes of other accepted sizes than 20
  bytes (`AddressRoundTrip`), and accepts version bytes that the encoder never writes
  (`AddressCanonicalIff`). The encoder gives hashes of 52 bytes one version byte for both types
  (`PackedHolds`).

## Model

| member | source | states |
|---|---|---|
| `GF32.RemainderUnique` | V2/pkg/cashaddr/cashaddr.go:112-121 | over GF(32), at most one polynomial of degree below 8 is the remainder modulo a monic polynomial of degree 8 |
| `Register.AdvanceDivides` | V2/pkg/cashaddr/cashaddr.go:146-167 | one round keeps "polynomial read so far = quotient times generator + register" |
| `Register.AdvanceLinear` | V2/pkg/cashaddr/cashaddr.go:169-204 | a round is linear in register and symbol together |
| `Register.RunLinear` | V2/pkg/cashaddr/cashaddr.go:144-205 | so is reading a whole list of symbols |
| `Register.RunZeros` | V2/pkg/cashaddr/cashaddr.go:144-205 | reading zeros turns a register into zero only if it was zero |
| `Register.RunSuffix` | V2/pkg/cashaddr/cashaddr.go:105-109 | eight symbols are added to what eight zeros would leave |
| `Register.BurstSeparates` | V2/pkg/cashaddr/cashaddr.go:121-126 | lists that differ, but only inside eight consecutive positions, leave different registers, at any length |
| `Checksum.XorIf` | V2/pkg/cashaddr/cashaddr.go:176-180 | the conditional xor is the masked one |
| `Checksum.Round` | V2/pkg/cashaddr/cashaddr.go:169-204 | one loop body is one packed step |
| `Checksum.PolyMod` | V2/pkg/cashaddr/cashaddr.go:110-215 | the loop returns the packed register with its lowest bit flipped |
| `Checksum.StepAdvances` | V2/pkg/cashaddr/cashaddr.go:169-204 | the shift-and-xor step on 40 bits, with its five constants, is multiplication by x, addition of the symbol and reduction by the generator on coefficients |
| `Checksum.FoldRuns` | V2/pkg/cashaddr/cashaddr.go:144-205 | the packed loop runs the coefficient register |
| `Checksum.FoldIsRemainder` | V2/pkg/cashaddr/cashaddr.go:110-215 | PolyMod(v) xor 1 unpacks to the remainder of x^n + v0 x^(n-1) + ... modulo the generator, for every list of symbols |
| `Checksum.ExpandPrefix` | V2/pkg/cashaddr/cashaddr.go:230-238 | low five bits of each byte, then a zero |
| `Checksum.VerifyChecksum` | V2/pkg/cashaddr/cashaddr.go:243-245 | accepts exactly the lists whose packed register is 1 |
| `Checksum.CreateChecksum` | V2/pkg/cashaddr/cashaddr.go:250-262 | returns the groups of what PolyMod finds for eight appended zeros |
| `Checksum.ChecksumSymbols` | V2/pkg/cashaddr/cashaddr.go:256-261 | the checksum consists of 5-bit symbols |
| `Checksum.CompletionUnique` | V2/pkg/cashaddr/cashaddr.go:250-262 | a list followed by eight symbols is accepted exactly when those are the completion PolyMod gives |
| `Checksum.ChecksumUnique` | V2/pkg/cashaddr/cashaddr.go:230-262 | of all 8-symbol suffixes exactly the created checksum verifies, for every prefix and payload |
| `Checksum.CodewordsApart` | V2/pkg/cashaddr/cashaddr.go:121-245 | two accepted lists of equal length that differ only inside eight consecutive positions are equal |
| `Checksum.BurstDetected` | V2/pkg/cashaddr/cashaddr.go:121-245 | two equally long payloads that verify under one prefix and differ only inside eight consecutive positions are equal |
| `BitGroups.Convert` | V2/pkg/cashaddr/cashaddr.go:648-667 | the masked accumulator loop, for any values; on values that fit their groups it regroups the bit string, with the error cases, for any two group sizes |
| `BitGroups.ConvertBits` | V2/pkg/cashaddr/cashaddr.go:642-673 | the same on bytes |
| `BitGroups.LoopRegroups` | V2/pkg/cashaddr/cashaddr.go:648-667 | why the accumulator loop regroups the bit string |
| `BitGroups.BytesSurvive` | V2/pkg/cashaddr/cashaddr.go:642-673 | 8-to-5 with padding then 5-to-8 without returns every byte string |
| `BitGroups.SymbolsCanonical` | V2/pkg/cashaddr/cashaddr.go:661-667 | every 5-bit string that 5-to-8 without padding accepts is the encoding of its result |
| `BitGroups.BytesRoundTrip` | V2/pkg/cashaddr/cashaddr.go:642-673 | at byte level: every byte string survives 8-to-5 and back |
| `BitGroups.SymbolsRoundTrip` | V2/pkg/cashaddr/cashaddr.go:661-667 | at byte level: 5-bit symbols that decode are the encoding of what they decode to |
| `BitGroups.FiveBytes` | V2/pkg/cashaddr/cashaddr.go:648-656 | any five bytes and the eight symbols cut from them, highest bits first, are the same bits |
| `CashAddr.CharsetDecodes` | V2/pkg/cashaddr/cashaddr.go:83-96 | the decoding table inverts the character set |
| `CashAddr.CharsetDecodesUpper` | V2/pkg/cashaddr/cashaddr.go:83-96 | also for upper-case letters |
| `CashAddr.Encode` | V2/pkg/cashaddr/cashaddr.go:267-277 | payload and checksum in the character set; a payload value of 32 or more panics |
| `CashAddr.FlawlessIsClean` | V2/pkg/cashaddr/cashaddr.go:286-320 | the scan finds no flaw exactly in strings of letters up to a separator that is not first, and letters and digits after it |
| `CashAddr.Scan` | V2/pkg/cashaddr/cashaddr.go:283-330 | accepts exactly the well-formed strings and otherwise reports the first flaw in reading order |
| `CashAddr.FirstFlawDecides` | V2/pkg/cashaddr/cashaddr.go:286-330 | the first character out of place decides which error is reported, and without one the missing separator or the mixed case |
| `CashAddr.LowerPrefix` | V2/pkg/cashaddr/cashaddr.go:332-336 | lower-cases the prefix |
| `CashAddr.RestValues` | V2/pkg/cashaddr/cashaddr.go:338-349 | maps characters to symbols, or refuses exactly if one is not in the character set |
| `CashAddr.Check` | V2/pkg/cashaddr/cashaddr.go:351-356 | refuses a wrong checksum, drops the last eight symbols, panics if there are fewer |
| `CashAddr.DecodeCashAddress` | V2/pkg/cashaddr/cashaddr.go:282-357 | which strings decode, to what, and with which of the errors |
| `CashAddr.EncodedDecodes` | V2/pkg/cashaddr/cashaddr.go:267-357 | prefix, separator and encoded payload decode to prefix and payload, in lower and in upper case |
| `CashAddr.PackAddressData` | V2/pkg/cashaddr/cashaddr.go:675-699 | version byte and hash as symbols, with the refused types and sizes |
| `CashAddr.PackedAcceptsIff` | V2/pkg/cashaddr/cashaddr.go:675-688 | packed are exactly hashes of 20, 24, ..., 52 bytes for the two types |
| `CashAddr.PackedHolds` | V2/pkg/cashaddr/cashaddr.go:681-699 | the packed symbols hold the hash after a version byte of 8 times the type plus the size, which is 8 for both types at 52 bytes |
| `CashAddr.CheckEncodeCashAddress` | V2/pkg/cashaddr/cashaddr.go:359-366 | the address text, or the empty string for refused input |
| `CashAddr.CheckDecodeCashAddress` | V2/pkg/cashaddr/cashaddr.go:369-388 | hash, prefix and type, or the error |
| `CashAddr.AddressRoundTrip` | V2/pkg/cashaddr/cashaddr.go:359-388 | for every hash the encoder accepts and every lower-case prefix: 20 bytes come back exactly, from the upper-case form too; other sizes are refused |
| `CashAddrInverse.CodewordIff` | V2/pkg/cashaddr/cashaddr.go:230-262 | a list of symbols verifies exactly when its last eight are the completion of the others |
| `CashAddrInverse.PanicsIff` | V2/pkg/cashaddr/cashaddr.go:351-356 | exactly which strings make the decoder panic |
| `CashAddrInverse.LongNeverPanics` | V2/pkg/cashaddr/cashaddr.go:356 | eight or more symbols after the separator never do |
| `CashAddrInverse.SevenPanicIff` | V2/pkg/cashaddr/cashaddr.go:351-356 | seven symbols under a prefix do exactly when a zero and they complete the prefix |
| `CashAddrInverse.PanickingAddressIff` | V2/pkg/cashaddr/cashaddr.go:351-356 | under which prefixes such an address exists |
| `CashAddrInverse.PanicExample` | V2/pkg/cashaddr/cashaddr.go:356 | c:qvdy2z3 does |
| `CashAddrInverse.CharOfValue` | V2/pkg/cashaddr/cashaddr.go:83-96 | the character set inverts the decoding table, up to case |
| `CashAddrInverse.DecodedIsEncoded` | V2/pkg/cashaddr/cashaddr.go:267-357 | every string that decodes is, in lower case, what the encoder writes for its prefix and payload |
| `CashAddrInverse.AddressCanonicalIff` | V2/pkg/cashaddr/cashaddr.go:359-388 | an address that decodes is, in lower case, what the encoder makes of the result exactly when its version byte is 0x00 or 0x08 |
| `CashAddrInverse.DecodeOutcomes` | V2/pkg/cashaddr/cashaddr.go:338-356 | a well-formed string is refused for a foreign character, else for not ending in its checksum, else decoded if it has eight symbols |
| `CashAddrInverse.AddressOutcome` | V2/pkg/cashaddr/cashaddr.go:376-388 | a payload that encodes some bytes is an address exactly if these are 21; the type is P2SH exactly for version byte 8 |
| `CashAddrInverse.PaddingRefusedIff` | V2/pkg/cashaddr/cashaddr.go:369-375 | the padding is refused exactly if the payload encodes no bytes at all |
| `CashAddrInverse.ErrorsPass` | V2/pkg/cashaddr/cashaddr.go:369-373 | errors and panics of the decoder are those of the address |
| `CashAddrBurst.CoveredInjective` | V2/pkg/cashaddr/cashaddr.go:230-357 | the symbols under the checksum determine the address text, separator included, up to case |
| `CashAddrBurst.StringBurstDetected` | V2/pkg/cashaddr/cashaddr.go:121-357 | two strings of equal length that both decode and differ only within eight consecutive characters, wherever those lie, decode to the same and are identical up to case, and altogether unless the first character is among them |
| `CashAddrVectors.AlphabetDecodes` | V2/pkg/cashaddr/cashaddr_test.go:50-57 | the valid string whose payload is every symbol once decodes to 0, 1, ..., 31 |
| `CashAddrVectors.AddressKnown` | V2/pkg/cashaddr/cashaddr_test.go:124-134 | the second example of the CashAddr specification: the hash is written as its published address and read back from it |
| `DecimalOrder.SameDigits` | services/minotaur-eth-monitor/modules/common/src/block-queue.ts:168 | on equally many digits string order is numeric order |
| `DecimalOrder.BeforeIs` | services/minotaur-eth-monitor/modules/common/src/block-queue.ts:168 | the string order of any two numbers as arithmetic on leading digits |
| `DecimalOrder.LexMinLeast` | services/minotaur-eth-monitor/modules/common/src/block-queue.ts:168 | sort()[0] is least in string order |
| `BlockQueues.BlockQueue.constructor` | services/minotaur-eth-monitor/modules/common/src/block-queue.ts:48-58 | an empty queue at the start index |
| `BlockQueues.BlockQueue.RemoveRequest` | services/minotaur-eth-monitor/modules/common/src/block-queue.ts:80-82 | drops exactly that request |
| `BlockQueues.BlockQueue.RemoveBlocks` | services/minotaur-eth-monitor/modules/common/src/block-queue.ts:84-86 | drops exactly the released blocks |
| `BlockQueues.BlockQueue.AddRequest` | services/minotaur-eth-monitor/modules/common/src/block-queue.ts:133-137 | appends a request |
| `BlockQueues.BlockQueue.FillWithNewRequests` | services/minotaur-eth-monitor/modules/common/src/block-queue.ts:140-161 | requests the next indices up to the three limits |
| `BlockQueues.BlockQueue.GetConsecutiveBlocks` | services/minotaur-eth-monitor/modules/common/src/block-queue.ts:164-183 | the consecutive stretch from the oldest ready block, or nothing if an older request is found |
| `BlockQueues.BlockQueue.OnResponse` | services/minotaur-eth-monitor/modules/common/src/block-queue.ts:88-114 | new state, released batch and rejected listeners, for a block and for none |
| `BlockQueues.BlockQueue.ReleaseBlocks` | services/minotaur-eth-monitor/modules/common/src/block-queue.ts:194-198 | removes the batch and refills |
| `BlockQueues.BlockQueue.GetBlocks` | services/minotaur-eth-monitor/modules/common/src/block-queue.ts:204-215 | new state and the batch, or a waiting listener |
| `BlockQueueRuns.FilledKeeps` | services/minotaur-eth-monitor/modules/common/src/block-queue.ts:140-161 | refilling keeps conservation and bounds |
| `BlockQueueRuns.ArrivedKeeps` | services/minotaur-eth-monitor/modules/common/src/block-queue.ts:88-100 | so does an arriving block |
| `BlockQueueRuns.ReleasedKeeps` | services/minotaur-eth-monitor/modules/common/src/block-queue.ts:84-86 | and releasing a batch taken from the ready blocks |
| `BlockQueueRuns.CalledKeeps` | services/minotaur-eth-monitor/modules/common/src/block-queue.ts:204-215 | getBlocks keeps the whole invariant |
| `BlockQueueRuns.RespondedKeeps` | services/minotaur-eth-monitor/modules/common/src/block-queue.ts:88-114 | so does a response |
| `BlockQueueRuns.ReachableInv` | services/minotaur-eth-monitor/modules/common/src/block-queue.ts:80-215 | in every reachable state each index requested so far is in flight, ready or delivered, once in all; blockIndex stays within highest; at most maxBlockRequests in flight and at most 100 in flight or ready; a waiting listener implies a request in flight |
| `BlockQueueRuns.LostDropsIndex` | services/minotaur-eth-monitor/modules/common/src/block-queue.ts:91-98 | after an answer without a block its index counts as requested but is not in flight, ready or delivered |
| `BlockQueueOrder.EmptyBatchMeansDone` | services/minotaur-eth-monitor/modules/common/src/block-queue.ts:140-215 | an empty batch goes only to a caller, and only when every index of the range has been delivered once |
| `BlockQueueOrder.SafeDelivers` | services/minotaur-eth-monitor/modules/common/src/block-queue.ts:88-202 | in a safe range every run, with any response order and retries, delivers start, start + 1, ... |
| `BlockQueueProgress.AlwaysEnabled` | services/minotaur-eth-monitor/modules/common/src/block-queue.ts:88-215 | in every reachable state a call or an answer can come |
| `BlockQueueProgress.EventRank` | services/minotaur-eth-monitor/modules/common/src/block-queue.ts:88-215 | until the queue runs dry every event but a failed request decreases a rank |
| `BlockQueueProgress.BoundedRun` | services/minotaur-eth-monitor/modules/common/src/block-queue.ts:116-215 | so calls and answers are bounded however often requests fail |
| `BlockQueueProgress.CanRunDry` | services/minotaur-eth-monitor/modules/common/src/block-queue.ts:88-215 | from every reachable state the queue can go on to run dry |
| `BlockQueueExact.PushOne` | services/minotaur-eth-monitor/modules/common/src/block-queue.ts:88-183 | a later block that arrives while the index due is in flight completes a batch out of order, or nothing is handed out |
| `BlockQueueExact.HeadArrives` | services/minotaur-eth-monitor/modules/common/src/block-queue.ts:88-114 | when the block due arrives last, exactly it and the ready blocks after it are handed out |
| `BlockQueueExact.ReachWaiting` | services/minotaur-eth-monitor/modules/common/src/block-queue.ts:88-215 | every index that batches of allowed sizes lead to is waited for in some run, unless a run is out of order before |
| `BlockQueueExact.RiskyMisorders` | services/minotaur-eth-monitor/modules/common/src/block-queue.ts:163-183 | a risky setup has a run that delivers out of order |
| `BlockQueueExact.WrongStartIsRisky` | services/minotaur-eth-monitor/modules/common/src/block-queue.ts:163-183 | a full batch that does not begin with the index due needs a risky setup |
| `BlockQueueExact.KeepsPace` | services/minotaur-eth-monitor/modules/common/src/block-queue.ts:88-215 | in a setup that is not risky every run is in order and hands out batches of the usual sizes |
| `BlockQueueExact.SampleConfigIsRisky` | services/minotaur-eth-monitor/modules/common/src/block-queue.ts:164-183 | the sample configuration of the repository, reading blocks 3 to 10, is risky |
| `BlockQueueEager.EagerMisorders` | services/minotaur-eth-monitor/modules/common/src/block-queue.ts:163-215 | a risky setup whose callers never wait (minSize of 0 or less) has a run out of order |
| `BlockQueueEager.EagerRuns` | services/minotaur-eth-monitor/modules/common/src/block-queue.ts:88-215 | if such a setup is not risky, every run is in order |
| `BlockQueueEager.OrderedIffNotRisky` | services/minotaur-eth-monitor/modules/common/src/block-queue.ts:88-215 | for every range, all batch sizes and any number of requests in flight: all runs are in order if and only if the setup is not risky |
| `BlockQueueLosses.EachOnceOrLost` | services/minotaur-eth-monitor/modules/common/src/block-queue.ts:88-215 | with answers that bring no block, each index requested is in flight, ready, delivered or lost, once in all; bounds and wakeup hold still |
| `BlockQueueLosses.LostForGood` | services/minotaur-eth-monitor/modules/common/src/block-queue.ts:91-98 | a lost index is never in flight, ready or delivered again, whatever follows |
| `BlockQueueLosses.PresentIffNoLoss` | services/minotaur-eth-monitor/modules/common/src/block-queue.ts:88-114 | every index requested is accounted for if and only if no answer was without its block |
| `BlockQueueLosses.EmptyBatchMeansDoneOrLost` | services/minotaur-eth-monitor/modules/common/src/block-queue.ts:140-215 | an empty batch means that every index of the range was delivered once or lost, and so all delivered if and only if none was lost |
| `BlockQueueLosses.MissingTurnsAway` | services/minotaur-eth-monitor/modules/common/src/block-queue.ts:89-113 | an answer without a block rejects exactly the callers that wait, and the queue then asks for as much as it may |
| `BlockQueueCallers.OpenHolds` | services/minotaur-eth-monitor/modules/common/src/block-queue.ts:88-215 | conservation and wakeup hold however many callers wait |
| `BlockQueueCallers.TakingTurns` | services/minotaur-eth-monitor/modules/common/src/block-queue.ts:204-215 | callers that take turns never wait together |
| `BlockQueueCallers.BothReceive` | services/minotaur-eth-monitor/modules/common/src/block-queue.ts:101-110 | two waiting callers can always go on to receive the same block |
| `BlockQueueCallers.ReceivedOnceIff` | services/minotaur-eth-monitor/modules/common/src/block-queue.ts:101-110 | no block is received twice, now or from answers still due, if and only if no two callers have waited at the same time |
| `BlockQueueCallers.TwoCallersShare` | services/minotaur-eth-monitor/modules/common/src/block-queue.ts:107-109 | two callers at the start of any range receive a block twice |
| `BlockTables.Monitor.CompareBlockHashes` | services/minotaur-eth-monitor/modules/common/src/monitor-logic.ts:60-82 | the status of every block of the batch |
| `BlockTables.MappedBack` | services/minotaur-eth-monitor/modules/common/src/monitor-logic.ts:84-88 | mapBlocks finds the bundle a row came from |
| `BlockTables.Monitor.DeleteFullBlocks` | services/minotaur-eth-monitor/modules/common/src/database-functions.ts:238-257 | the deletes in their order remove blocks, their transactions, and the receipts, contracts and logs of those transactions |
| `BlockTables.DeletedIs` | services/minotaur-eth-monitor/modules/common/src/database-functions.ts:238-257 | table by table, exactly the rows of the deleted blocks and of their transactions go and every other row stays as it is |
| `BlockTables.Monitor.SaveBlocks` | services/minotaur-eth-monitor/modules/ethereum/src/ethereum-explorer.ts:108-123 | inserts blocks whose index is free |
| `BlockTables.Monitor.SaveTransactions` | services/minotaur-eth-monitor/modules/ethereum/src/ethereum-explorer.ts:153-170 | inserts all transactions, or none if one breaks the key |
| `BlockTables.Monitor.SaveFullBlocks` | services/minotaur-eth-monitor/modules/ethereum/src/ethereum-explorer.ts:199-225 | the settled outcome of the inserts of blocks, addresses, transactions and logs, which `ScannedLogs` and `ScannedAddresses` say row by row |
| `BlockTables.Monitor.Classify` | services/minotaur-eth-monitor/modules/common/src/monitor-logic.ts:154-164 | the new and the replaced bundles of a batch |
| `BlockTables.Monitor.ScanBlocks` | services/minotaur-eth-monitor/modules/common/src/monitor-logic.ts:105-200 | tables, stored index and outcome after one batch |
| `ScanPass.PickedIs` | services/minotaur-eth-monitor/modules/common/src/monitor-logic.ts:157-164 | the bundles picked for a status are those of the batch that have it |
| `ScanPass.ScannedBlocks` | services/minotaur-eth-monitor/modules/common/src/monitor-logic.ts:154-182 | a batch brings its own indices in line with the node and leaves the others alone |
| `ScanPass.QuietIff` | services/minotaur-eth-monitor/modules/common/src/monitor-logic.ts:157-191 | a batch writes nothing if and only if the table already agrees with it |
| `ScanPass.ReachableGenuine` | services/minotaur-eth-monitor/modules/common/src/block-queue.ts:88-202 | every ready or delivered block is what the source returned for its index |
| `ScanPass.PassReconciles` | services/minotaur-eth-monitor/modules/common/src/monitor-logic.ts:37-200 | a pass that runs to the empty batch leaves the block table equal to the node on the whole range and unchanged elsewhere, for every run of the queue |
| `ScanPass.MonitorReconciles` | services/minotaur-eth-monitor/modules/common/src/monitor-logic.ts:37-58 | in terms of the stored index: the range brought in line with the node reaches from minConfirmations below it, but not below 0, up to the tip |
| `ScanPass.SecondPassQuiet` | services/minotaur-eth-monitor/modules/common/src/monitor-logic.ts:105-200 | a later run within that range on the same chain writes nothing |
| `ScanContents.DeletedWhole` | services/minotaur-eth-monitor/modules/common/src/database-functions.ts:238-257 | deleting leaves no transaction without block, no receipt, log or created contract without transaction, and nothing missing of the blocks kept |
| `ScanContents.ScannedWhole` | services/minotaur-eth-monitor/modules/common/src/monitor-logic.ts:154-182 | a batch whose save succeeds keeps the tables consistent |
| `ScanContents.ScannedWholeIff` | services/minotaur-eth-monitor/modules/common/src/monitor-logic.ts:154-182 | scanning a batch into consistent tables leaves them consistent if and only if no transaction to be inserted occurs twice in it or is stored under a block that it does not replace |
| `ScanContents.PassWholeIff` | services/minotaur-eth-monitor/modules/common/src/monitor-logic.ts:105-200 | a pass leaves consistent tables consistent if and only if it completes |
| `ScanContents.PassMirrorsTransactions` | services/minotaur-eth-monitor/modules/common/src/monitor-logic.ts:105-200 | after a pass that completes the transactions stored for each block of the range are exactly the node's, and nothing hangs in the air |
| `ScanContents.FailedSaveSticks` | services/minotaur-eth-monitor/modules/common/src/monitor-logic.ts:178-182 | after a failed save, scanning the batch again writes nothing and its transactions stay missing |
| `ScanContents.SaveFailsIff` | services/minotaur-eth-monitor/modules/ethereum/src/ethereum-explorer.ts:153-170 | a save fails exactly when a transaction occurs twice or is stored under a block not being replaced |
| `ScanRecords.ScannedLogs` | services/minotaur-eth-monitor/modules/ethereum/src/ethereum-explorer.ts:199-225 | after a batch, saved or not, the log table has the logs of the blocks that the batch brings and, of those it had, all but those of replaced blocks |
| `ScanRecords.ScannedAddresses` | services/minotaur-eth-monitor/modules/ethereum/src/ethereum-explorer.ts:199-225 | the address table keeps what it had and gets the senders and receivers of the blocks brought |
| `ScanRecords.ScannedRecorded` | services/minotaur-eth-monitor/modules/common/src/monitor-logic.ts:154-182 | a batch that goes through leaves the logs and addresses of every stored block as the block has them |
| `ScanRecords.PassRecorded` | services/minotaur-eth-monitor/modules/common/src/monitor-logic.ts:105-200 | so does a pass that completes |
| `ScanReorganisation.FirstBatchFails` | services/minotaur-eth-monitor/modules/ethereum/src/ethereum-explorer.ts:153-170 | a transaction that moved to an earlier block makes the save of that block fail |
| `ScanReorganisation.OneByOne` | services/minotaur-eth-monitor/modules/common/src/block-queue.ts:88-215 | a run of the queue with its default configuration that hands out blocks 10 and 11 one by one and runs dry |
| `ScanReorganisation.ReorganisationLosesTransaction` | services/minotaur-eth-monitor/modules/common/src/monitor-logic.ts:105-200 | from consistent tables and over the batches of that run: after a reorganisation one pass fails, the next completes, and the moved transaction is nowhere while all hashes agree; further passes change nothing |
| `ScanOutcome.PassEndsAtTip` | services/minotaur-eth-monitor/modules/common/src/monitor-logic.ts:192-199 | wherever delivery is ordered, a pass stores the node's height |
| `ScanOutcome.RunQuietIff` | services/minotaur-eth-monitor/modules/common/src/monitor-logic.ts:105-200 | a run to the empty batch writes nothing if and only if the table agrees with the node on all of its range |
| `ScanOutcome.NextPassQuietIff` | services/minotaur-eth-monitor/modules/common/src/monitor-logic.ts:37-58 | the pass started from the stored index, with the tip unmoved, writes nothing if and only if the table agreed with the node on what it goes back below the first start |
| `ScanOutcome.NextPassQuiet` | services/minotaur-eth-monitor/modules/common/src/monitor-logic.ts:37-58 | so it writes nothing, finished or not, unless the tip had fallen below the index the first pass started from |
| `ScanCompletion.LastFitsIff` | services/minotaur-eth-monitor/modules/common/src/monitor-logic.ts:154-182 | midway through a pass one more batch goes through if and only if it fits what was handed out, the node's blocks and the tables at the start |
| `ScanCompletion.PassCompletesIff` | services/minotaur-eth-monitor/modules/common/src/monitor-logic.ts:105-200 | a pass completes if and only if each transaction to be saved is in one block only and, if stored, under an index handed out no later than its block |
| `ScanCompletion.PassMirrorsIff` | services/minotaur-eth-monitor/modules/common/src/monitor-logic.ts:105-200 | under exactly that condition a pass to the empty batch leaves consistent tables, with the node's transactions, logs and addresses for each block of the range |
| `ScanEveryPass.OrderedPassCompletes` | services/minotaur-eth-monitor/modules/common/src/monitor-logic.ts:105-200 | wherever delivery is ordered, every pass completes if such transactions are stored under their block's index or an earlier one of the range |
| `ScanEveryPass.EndsWhereItMay` | services/minotaur-eth-monitor/modules/common/src/block-queue.ts:88-215 | in ordered runs batches end only where the sizes allow |
| `ScanEveryPass.EndsThere` | services/minotaur-eth-monitor/modules/common/src/block-queue.ts:88-215 | and wherever they allow, in some run |
| `ScanEveryPass.EveryPassCompletesIff` | services/minotaur-eth-monitor/modules/common/src/monitor-logic.ts:105-200 | every pass completes if and only if each transaction to be saved is in one block of the range and, if stored, under an index that no run hands out after that block |
| `BlockServices.GetTruncatedBatchSize` | services/minotaur-eth-monitor/modules/common/src/service.ts:128-140 | never past the bound, 0 exactly at or beyond it or for a batch size below 1, and shorter than asked for only if it ends at the bound |
| `BlockServices.SortedRangeAscendsIff` | services/minotaur-eth-monitor/modules/common/src/service.ts:188-215 | when the string sort leaves a range the right way round, negative ends included |
| `BlockServices.NineTenIsReversed` | services/minotaur-eth-monitor/modules/common/src/service.ts:212-215 | blocks 9 and 10 become the range 10 to 9 |
| `BlockServices.HandedSpansTileIff` | services/minotaur-eth-monitor/modules/common/src/service.ts:204-217 | the range handed over spans exactly the batch under that condition and is upside down otherwise |
| `BlockServices.TilesWalk` | services/minotaur-eth-monitor/modules/common/src/service.ts:218-220 | the batches visit each index on the way once, in order |
| `BlockServices.BlockServiceAction` | services/minotaur-eth-monitor/modules/common/src/service.ts:199-225 | one batch: refusal, end, failure, or range, next index and the rest of the state the action returned |
| `BlockServices.InnerServiceLoop` | services/minotaur-eth-monitor/modules/common/src/service.ts:67-97 | for any stored states and actions along the way: the batches are full-sized, each begins where the last ended and goes the way its own turn says; what is stored and why the loop ended |
| `BlockServices.WithinBound` | services/minotaur-eth-monitor/modules/common/src/service.ts:128-140 | no batch goes past the bound of its turn |
| `BlockServices.RunToBound` | services/minotaur-eth-monitor/modules/common/src/service.ts:67-227 | undisturbed, the loop covers [b0, endBlock) upwards and (floor, b0] downwards, with 0 for a missing floor, each index once, and stops exactly there after at most as many turns as indices |
| `IndexerStages.SetStartBlock` | V2/cmd/indexer/main.go:164-179 | the last block in the database or 0 when syncing to the tip, else as told |
| `IndexerStages.SetEndBlock` | V2/cmd/indexer/main.go:183-195 | the node's height when syncing to the tip, else as told but not before the start |
| `IndexerStages.NextBatch` | V2/cmd/indexer/main.go:354-362 | the heights of a batch, cut off at endBlock |
| `IndexerStages.ProcessBlockHeights` | V2/cmd/indexer/main.go:325-370 | for any node heights read on the way the batches concatenate to a gap-free run from startBlock; up to endBlock if the readings never drop; it ends if they are bounded; the height is read again exactly before batches after whose first height no more than batchSize are left |
| `IndexerStages.TipReadLast` | V2/cmd/indexer/main.go:348-352 | a sync to the tip reads the height once more just before its last batch, and stops with nothing left up to that reading |
| `IndexerStages.Orderer.constructor` | V2/cmd/indexer/main.go:419-420 | an empty store at startBlock |
| `IndexerStages.Orderer.SortStore` | V2/cmd/indexer/main.go:425-427 | sorts, given that no slot is nil |
| `IndexerStages.Orderer.EmitDue` | V2/cmd/indexer/main.go:429-445 | sends the stretch that is due and keeps the rest without nil slots |
| `IndexerStages.Orderer.Absorb` | V2/cmd/indexer/main.go:422-446 | one batch in, the due blocks out |
| `IndexerStages.OrderBlock` | V2/cmd/indexer/main.go:416-447 | what goes out is a gap-free ascending run, and for every arrival order of a complete run it is all of it |
| `IndexerRuns.LifecycleKept` | V2/cmd/indexer/main.go:210-236 | stages close in order |
| `IndexerRuns.ProducingKept` | V2/cmd/indexer/main.go:348-369 | heights are handed out up to one point without gap; with a steady node that point ends up just past endBlock |
| `IndexerRuns.OrderingKept` | V2/cmd/indexer/main.go:372-447 | each height handed out is with a fetcher, in the store or emitted, once in all |
| `IndexerRuns.WrittenKept` | V2/cmd/indexer/main.go:449-489 | each transaction sent is with a writer or inserted, once in all |
| `IndexerRuns.RowsRightKept` | V2/cmd/indexer/main.go:453-484 | rows carry the transaction's own index and its block's id |
| `IndexerRuns.InvKept` | V2/cmd/indexer/main.go:199-237 | every event keeps the whole invariant |
| `IndexerRuns.NeverStuck` | V2/cmd/indexer/main.go:199-237 | with a fetcher and a writer no state short of completion is stuck |
| `IndexerRuns.RankDecreases` | V2/cmd/indexer/main.go:325-489 | every step decreases a lexicographic rank |
| `IndexerRuns.CompletedSynced` | V2/cmd/indexer/main.go:228-236 | completion means that everything handed out is in the database |
| `IndexerRuns.InitialSyncWorks` | V2/cmd/indexer/main.go:199-237 | at every point of every run: not stuck, rank decreased, and on completion every block and every transaction of [startBlock, endBlock] inserted exactly once, with own index and block id |
| `IndexerRuns.NoWorkersNoSync` | V2/cmd/indexer/main.go:212-236 | without fetchers or without writers a run completes with nothing inserted |
| `IndexerRuns.AlwaysSyncsIff` | V2/cmd/indexer/main.go:199-237 | every completed sync reaches endBlock if and only if there is a fetcher and a writer |
| `IndexerTip.SyncEndsAtTip` | V2/cmd/indexer/main.go:199-237 | over whole runs: the final endBlock is the height read for the last batch, when no more than batchSize + 1 heights were left, and with a node that never drops everything up to it is inserted |
| `IndexerTip.EndsAsTold` | V2/cmd/indexer/main.go:183-195 | without syncTip endBlock never changes |
| `BlockValidator.GenerateBlockHeights` | V2/cmd/blockvalidator/main.go:160-189 | the heights from start to end, all of which fit into the channel, or a panic exactly if the end is more than one below the start |
| `BlockValidator.Drain` | V2/cmd/blockvalidator/main.go:245-256 | sends on what is available in order |
| `BlockValidator.OrderResults` | V2/cmd/blockvalidator/main.go:236-258 | what is sent on counts up from startBlock without a gap, and for every arrival order of a complete run it is all of it |
| `BlockValidator.CheckResult` | V2/cmd/blockvalidator/main.go:261-307 | valid exactly on equal hashes and equal transaction counts; on unequal hashes all positions are to be repaired, in order; else just those of the missing transactions, in order |
| `BlockValidator.ValidHoldsIff` | V2/cmd/blockvalidator/main.go:275-305 | a block found valid holds exactly the node's transactions if and only if it holds none besides |
| `BlockValidator.ValidCanDiffer` | V2/cmd/blockvalidator/main.go:275-305 | an example that passes with another transaction |
| `BlockValidator.RepairIndexesRightIff` | V2/cmd/blockvalidator/main.go:268-329 | repaired transactions get their own index if and only if the hashes differ or no stored one precedes a missing one |
| `BlockValidator.RepairMisplaces` | V2/cmd/blockvalidator/main.go:289-329 | an example |
| `BlockValidator.RepairCovers` | V2/cmd/blockvalidator/main.go:268-329 | after a repair every transaction of the node's block is stored, and nothing else if and only if nothing else was; on unequal hashes the repair inserts all, else none that is there |
| `BlockValidator.CountedIs` | V2/cmd/blockvalidator/main.go:370-389 | the tally after n calls in closed form |
| `BlockValidator.Counter.constructor` | V2/cmd/blockvalidator/main.go:160-189 | a fresh counter for [startBlock, endBlock] |
| `BlockValidator.Counter.BlockValidated` | V2/cmd/blockvalidator/main.go:370-389 | counter, watermark and number of closes after a call |
| `ValidatorRuns.OnceKept` | V2/cmd/blockvalidator/main.go:236-389 | every step, retries included, keeps each height in one place |
| `ValidatorRuns.RunConserves` | V2/cmd/blockvalidator/main.go:236-389 | in every state validated + awaiting repair + not yet checked = totalBlocks; each height is counted at most once; doneChan is closed at most once, exactly when nothing is pending and every height is counted |
| `ValidatorRuns.WatermarkBehaves` | V2/cmd/blockvalidator/main.go:374-382 | the watermark never decreases, every height up to it has been checked, and at completion it is max(startBlock, endBlock + 1 - max(offset, 1)) |
| `ValidatorRuns.ChainValidates` | V2/cmd/blockvalidator/main.go:160-189 | a chain of completed runs with tips that do not drop validates every height from first start to last tip |
| `ValidatorRuns.WatermarkPassesRepair` | V2/cmd/blockvalidator/main.go:374-382 | mid-run the watermark can be past a block awaiting repair |
| `ValidatorRuns.WatermarkSafe` | V2/cmd/blockvalidator/main.go:374-382 | in jobs of at most two blocks, or no more than the offset, it never is |
| `ValidatorRuns.WatermarkSafeIff` | V2/cmd/blockvalidator/main.go:374-382 | over all runs of a job that condition is exact |
| `ValidatorRuns.EmptyRangeWaits` | V2/cmd/blockvalidator/main.go:149-189 | with an empty range nothing ever happens and doneChan stays open |
| `ValidatorProgress.AlwaysEnabled` | V2/cmd/blockvalidator/main.go:191-367 | until doneChan is closed some event other than a failed repair can happen |
| `ValidatorProgress.EventRank` | V2/cmd/blockvalidator/main.go:191-367 | every event but a failed repair decreases a rank, which a failed repair raises by one |
| `ValidatorProgress.BoundedRun` | V2/cmd/blockvalidator/main.go:191-367 | a run has at most four events per block and two more per failed repair |
| `ValidatorProgress.CanFinish` | V2/cmd/blockvalidator/main.go:370-389 | every run can go on until doneChan is closed |
| `Amounts.SignedIs` | V2/internal/convert/convert.go:38 | a signed value is read if it is an int64 and refused otherwise |
| `Amounts.ToSatoshiExact` | V2/internal/convert/convert.go:26-44 | a decimal numeral with up to eight decimals is read exactly, or refused if out of int64 |
| `Amounts.ToSatoshiWhole` | V2/internal/convert/convert.go:32-33 | a numeral without dot counts whole coins |
| `Amounts.DenotedIsRead` | V2/internal/convert/convert.go:26-44 | a signed numeral with at most eight characters after its dot is read as what it is worth |
| `Amounts.ToSatoshiAcceptsIff` | V2/internal/convert/convert.go:26-44 | nothing else is read |
| `Amounts.OddNumeralsAccepted` | V2/internal/convert/convert.go:29-38 | the empty string, a lone dot or sign, and a sign after the dot are read |
| `Amounts.ToSatoshiPanicsIff` | V2/internal/convert/convert.go:34-36 | it panics exactly on strings whose first dot is followed by nine characters without another dot |
| `Amounts.FixedRoundTrip` | V2/internal/convert/convert.go:26-44 | an amount printed with eight decimals is read back |
| `Amounts.PrintedRoundTrip` | V2/internal/convert/convert.go:26-49 | amounts up to 6710886400000001, so all below 2^52, survive float64, "%.8f" and back, for every nearest float64 |
| `Amounts.FirstInexact` | V2/internal/convert/convert.go:46-49 | the next amount comes back one satoshi short |
| `Amounts.ExactUpToIff` | V2/internal/convert/convert.go:26-49 | the bound is exact |
| `TxParts.SortForgetsOrder` | V2/pkg/api/insight/helpers.go:78-84 | sorting numbered parts gives one list whatever order they came in |
| `TxValues.CollectTx` | V2/pkg/api/insight/helpers.go:56-124 | the select loop, sorts and fee, with int64 wrap-around; the first amount that cannot be read decides between error and panic |
| `TxValues.SummaryForgetsOrder` | V2/pkg/api/insight/helpers.go:60-84 | any two interleavings give the same transaction |
| `TxValues.ExactForEveryOrder` | V2/pkg/api/insight/helpers.go:56-124 | for every interleaving valueOut is the exact sum of the outputs, valueIn of the inputs, and the fee their difference; both are missing exactly if the only input has a coinbase script; the parts come out by number |
| `TxValues.PrintedReads` | V2/pkg/api/insight/helpers.go:191-197 | the value an output is sent with is read back as its amount |
| `GapScan.CollectOutput` | V2/internal/xpubutil/xpub_util.go:116-130 | the used indices of a batch are added, and whether there was one |
| `GapScan.DeriveAddresses` | V2/internal/xpubutil/xpub_util.go:60-147 | the addresses of exactly the used indices with no unused batch before them, in ascending order whatever the worker order; it ends if finitely many are used |
| `GapScan.FindsAllOfGapLimit` | V2/internal/xpubutil/xpub_util.go:73-135 | nothing a one-at-a-time scan with gap limit 20 finds is missed |
| `GapScan.FindsAllIff` | V2/internal/xpubutil/xpub_util.go:132-134 | all used addresses are found if and only if no unused batch precedes a used one |
| `GapScan.FindsMore` | V2/internal/xpubutil/xpub_util.go:73-135 | an example beyond the gap limit |
| `GapScan.ScansDifferIff` | V2/internal/xpubutil/xpub_util.go:73-135 | the batched scan and the scan with gap limit 20 differ exactly when the first gap does not begin a batch and an index after it, in the batch in which it ends, has been used |
| `GapScan.NoGapNoDifference` | V2/internal/xpubutil/xpub_util.go:73-135 | without a gap both find every used address |
| `GapScan.ScanOneByOne` | V2/internal/xpubutil/xpub_util.go:73-135 | the reference as a loop: one address at a time until twenty in a row are unused |

## Left out

- EveryPassCompletesIff: is for ranges in which delivery is ordered and a minSize of at most maxSize; for a larger minSize there is OrderedPassCompletes, and PassCompletesIff is for any run.
- CashAddr: detection of 4, 5 or 6 scattered errors, which needs a search of the field.
- Convert: integers are unbounded, which agrees with 64-bit arithmetic as long as the two group sizes add up to at most 64; a target size of 0, on which the loop does not end.
- Strings are lists of characters up to 255, one per byte; there is no UTF-8 decoding.
- BlockQueueRuns: callers take turns and every answer brings a block; BlockQueueCallers and BlockQueueLosses each drop one of the two, not both at once.
- BlockTables: the rows of compareBlockHashes come in batch order (the query leaves it open, and no result depends on it); log contents beyond one row for each transaction hash; failures other than a key conflict.
- PassReconciles, SecondPassQuiet: the chain is fixed during a pass and a block request returns the block at that index.
- BlockServices: someone else changing the stored block index while the loop runs; the older blockServiceOld.
- Indexer: fatal errors and doneChan end the process or the goroutine and are not events; syncToTip and mempool handling; the database's own handling of duplicate inserts. A batch size of 0 would never advance and is excluded.
- ValidatorRuns: fetchers and readers are one pool from which results arrive in any order, of which there is at least one each, and the outcome of a check is an arbitrary flag of the event.
- TxValues: goroutine behaviour after an error; address normalisation; the other fields of the transaction. Totals that overflow int64 wrap in CollectTx; ExactForEveryOrder is for totals that fit.
- Amounts: timestamps; negative amounts are read but not printed.
- GapScan: key derivation and address encoding are a parameter.
- HTTP handlers, RPC and ZMQ clients, JSON, SQL function bodies, Merkle tries, pagination and deployment code.
