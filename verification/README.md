# Trinetra: verified models of the core algorithms

Trinetra is a network scanner. Most of it moves packets and HTTP bodies about, but a few files
hold algorithms and protocols whose correctness is not obvious. This project models them and
proves what they promise. Run `dafny verify dfyconfig.toml` to check all of it.

| files | what they model |
|---|---|
| `AddressRanges`, `Bits` | merging address ranges and splitting them into CIDR blocks, for 32 and 128 bits |
| `EditDistance` | the three-row optimal-string-alignment distance with its early cut-off, and the substring matcher |
| `HtmlTags`, `AsnRows`, `AsnPages` | the tag finders, the batch table parser and the incremental row scanner, and what both find on written pages |
| `ReactorShard`, `ReactorWorker` | what one epoll worker does to the operations of its shard |
| `ReactorExchange`, `ReactorOutcome` | how an operation ends, told by what happens to it, over every run |
| `ReactorProtocol`, `ReactorRuns`, `ReactorShutdown`, `ReactorSystem` | one shard, then all shards, under every interleaving of workers, submitters, cancellers and shutdown calls |
| `HistoryStore` | the LRU of target histories together with its store of 40-point tails |
| `LinearAlgebra`, `Cholesky`, `Covariance` | covariance, Cholesky factor, triangular solves and the squared Mahalanobis distance, over the reals |
| `FlowTable`, `DedupCache`, `NetCapture`, `CaptureHistory`, `CaptureFindings` | the passive SYN/QUIC/DNS correlator, its expiry, its duplicate cache, and which packets it reports |
| `DnsName`, `DnsMessage`, `DnsWriter` | DNS names (sections 3.1 and 4.1.4 of RFC 1035), the record walk, and messages as servers write them |
| `Dechunk` | decoding of chunked bodies (section 7.1 of RFC 9112) |
| `Checksum` | the Internet checksum (RFC 1071) |

Where the original works step by step, the model does too: a `method` with the same loop, or a
`class` with the same fields, is proved equal to a function, and the theorems are about that
function or about runs of it. Kernel answers, clock readings, TLS results and scheduling are
inputs, so each theorem holds for all of them.

Findings about the code:

- The header of the reactor promises one completion for every submitted operation. A worker
  whose `epoll_wait` fails leaves without telling anybody, and operations queued after that stay
  pending until somebody calls `shutdown` (`ReactorShutdown.StrandingRun`, `StrandedForever`). Without
  a shutdown call an operation can be stranded if and only if a wait has failed
  (`ReactorShutdown.StrandsIff`). From every state shutdown can complete, and then every operation
  has been completed exactly once (`ReactorShutdown.ShutdownCompletes`).
- A shutdown call guarantees at its return that nothing is pending if and only if no shutdown call
  was made before it: a later call returns at once (`ReactorSystem.ReturnGuaranteesIff`, with the
  early return in `ReactorSystem.LaterReturnTooEarly`).
- The two name walkers of the DNS code agree on the next position exactly when the skipped name
  does not run past the buffer (`DnsName.SameNextIff`); on the one byte 5 they differ
  (`DnsName.NextDiffers`).
- The record counter of a DNS message has 16 bits while the two counts together may exceed them. A
  record too many is then returned exactly when one follows that fits (`DnsMessage.ParseExactIff`,
  with an input in `DnsMessage.SurplusRead`); messages of up to 65535 bytes are not affected.
- A mid-session segment and its reply are filed under one flow exactly when their ports differ or
  their addresses agree (`NetCapture.GuessFlowSymmetric`); two hosts that both use port 179 show
  the other case (`NetCapture.GuessFlowDiffers`).
- The checksum of a buffer of odd length is that of RFC 1071 on a little-endian machine; on a
  big-endian one only if the last byte is zero (`Checksum.OddLengthIff`). For even lengths the stored
  bytes do not depend on the machine (`Checksum.BytesIndependentOfOrder`).
- The history store stays within its sizes exactly when the number of targets is not zero
  (`HistoryStore.ConfiguredSizesIff`). Both stores of the program are built with 4096, so this does
  not happen there.

## Model

| member | source | states |
|---|---|---|
| AddressRanges.PrefixFormsAgree | discover.cpp:512-522 | the shifted-mask and the host-mask way to expand a prefix give the same range, at every width, base and length |
| AddressRanges.V4PrefixIsBlock | discover.cpp:512-516 | an expanded IPv4 prefix is the one aligned block of its length that holds the base address |
| AddressRanges.V6PrefixIsBlock | discover.cpp:518-522 | the same for IPv6 |
| AddressRanges.SortByLo | discover.cpp:569 | the sorted list is ordered by first address and is a permutation of the input |
| AddressRanges.MergeV4 | discover.cpp:555-566 | the output is sorted, leaves a gap between neighbours and holds exactly the input's addresses |
| AddressRanges.WrappedJoin | discover.cpp:574 | the guard against `hi + 1` wrapping joins exactly the ranges that touch |
| AddressRanges.MergeV6 | discover.cpp:568-580 | the same for 128 bits, despite the wrap-around of `hi + 1` |
| AddressRanges.NormalFormUnique | discover.cpp:555-580 | two gapped sorted lists with the same addresses are the same list |
| AddressRanges.MergeCanonical | discover.cpp:555-580 | two inputs merge to the same output if and only if they denote the same addresses |
| AddressRanges.GreedyValid | discover.cpp:582-648 | the emitted blocks are aligned, disjoint, ascending and inside the range |
| AddressRanges.GreedyCovers | discover.cpp:582-648 | every address of the range is in an emitted block |
| AddressRanges.GreedyMaximal | discover.cpp:582-648 | every CIDR block inside the range lies inside one emitted block |
| AddressRanges.GreedyAllMinimal | discover.cpp:582-648 | no other set of CIDR blocks with the same union has fewer members |
| AddressRanges.AlignV4IsLowestBit | discover.cpp:588 | `cur & (~cur + 1)` is the largest power of two that divides a non-zero address |
| AddressRanges.SizeV4IsTaken | discover.cpp:588-591 | the block size taken, and its prefix length, are those of the greedy split |
| AddressRanges.CtzHalvesCorrect | discover.cpp:546-549 | the two-word trailing-zero count is that of the whole word |
| AddressRanges.FloorLog2HalvesCorrect | discover.cpp:550-553 | the two-word logarithm is that of the whole word |
| AddressRanges.TakeV6IsTaken | discover.cpp:618-626 | the 128-bit step takes the greedy block although `end - cur + 1` may wrap for the full range |
| AddressRanges.EmitV4 | discover.cpp:582-609 | the loop emits the greedy split, and as sample the second address of each block, or its only one |
| AddressRanges.EmitV6 | discover.cpp:611-648 | the same for 128 bits, ranges that end at the last address included |
| AddressRanges.CompressV4 | discover.cpp:2325-2328 | merge then emit prints disjoint ascending blocks covering exactly the collected addresses, as few as possible |
| AddressRanges.CompressV6 | discover.cpp:2329-2332 | the same for IPv6 |
| EditDistance.DistIsCheapest | discover.cpp:336-338 | the recurrence gives the cost of the cheapest script of insertions, deletions, replacements and swaps of neighbours |
| EditDistance.DistAtLeastLengthGap | discover.cpp:326 | the length difference is a lower bound, so the early return is sound |
| EditDistance.NextRowAtLeast | discover.cpp:334-342 | a lower bound on a whole row carries to every entry of the next row, swaps included |
| EditDistance.RowBoundsResult | discover.cpp:342 | a row minimum above the limit rules out rescue by a later transposition |
| EditDistance.EditDistance | discover.cpp:324-349 | for strings up to 64 the result is within the limit exactly when the true distance is, and then equal to it; for every limit |
| EditDistance.FillRow | discover.cpp:333-341 | a row filled from its two predecessors holds the distances of all prefixes, and the returned minimum is attained |
| EditDistance.CellIsLeast | discover.cpp:360-361 | each cell is the least distance to a substring ending there |
| EditDistance.ApproxSub | discover.cpp:351-367 | for patterns of 1 to 64 the result is the least distance to any substring of the text, also when it stops early |
| HtmlTags.FindOpenTag | discover.cpp:1873-1884 | the first opening tag of that name from the position on, or none; `AsnPages.TagsSpelledOut` says letter by letter what a tag is |
| HtmlTags.FindCloseTag | discover.cpp:1886-1896 | the first closing tag, one at the very end of the text included |
| AsnRows.AsnRowStream.FeedChunk | discover.cpp:2018-2063 | one chunk advances the scan by its specification; the result tells whether the carry is within its cap |
| AsnRows.AsnRowStream.LookAhead | discover.cpp:2024-2048 | the next row, body start, body end or end of the usable text |
| AsnRows.AsnRowStream.FinishPage | discover.cpp:2065-2077 | the rows of the page, the unfinished last row included |
| AsnRows.RunSplit | discover.cpp:2018-2063 | scanning a text equals scanning a prefix and then feeding the rest, wherever it is cut |
| AsnRows.FeedAllIsFeedOnce | discover.cpp:2018-2063 | feeding chunks one by one ends in the state of feeding their concatenation, carry included |
| AsnRows.ChunkIndependence | discover.cpp:2004-2078 | two chunkings of one document give the same rows |
| AsnRows.ParseAsnRows | discover.cpp:1987-2002 | the batch loop gives the rows of the specification |
| AsnRows.StreamMatchesBatch | discover.cpp:1987-2078 | on well-formed pages the incremental scanner and the batch parser give the same rows |
| AsnPages.TagsSpelledOut | discover.cpp:1863-1896 | a tag is `<` or `</`, its letters in either case, and one of `>`, blank, tab, CR, LF and `/`; a closing tag may also end the text |
| AsnPages.ScopeOfPage | discover.cpp:1987-1993 | on a written page the scope is the first table body, or the whole page when it has none |
| AsnPages.BatchRowsOfPage | discover.cpp:1987-2002 | on a page written from text, rows and bodies the batch rows are exactly the parsed texts of the rows of the first body, or of the page, in order, up to 200000 |
| AsnPages.WrittenIsWellFormed | discover.cpp:2004-2078 | written pages without stray closing tags are well formed |
| AsnPages.StreamRowsOfPage | discover.cpp:2004-2078 | so are the streamed rows, whatever the chunks |
| ReactorShard.FinishSound | async_io.cpp:787-821 | finishing removes the operation from the table, the deadlines, epoll and the open sockets, and keeps all of them exact |
| ReactorShard.SetDeadlineSound | async_io.cpp:387-396 | after a new deadline the deadlines again hold exactly one entry for each live operation |
| ReactorShard.AttachSound | async_io.cpp:461-464 | filing a new socket keeps table, deadlines and sockets exact |
| ReactorShard.SendGood | async_io.cpp:689-719 | whatever the kernel answers, sending ends sound and coherent, with something left to send or a later stage |
| ReactorShard.RecvGood | async_io.cpp:721-775 | whatever the kernel answers, receiving ends sound, within the cap and with a fitting outcome |
| ReactorShard.ReceivedBytes | async_io.cpp:737-774 | the stored bytes are exactly those delivered, in order, cut at the cap |
| ReactorShard.HandshakeGood | async_io.cpp:672-687 | the same for the TLS step |
| ReactorShard.ConnectedGood | async_io.cpp:629-670 | the same for a completed connect, plain or TLS |
| ReactorShard.AdvanceGood | async_io.cpp:577-627 | an event changes its own operation only, never backwards, and keeps the shard sound; `ReactorExchange.AdvanceShows` says where it leads |
| ReactorShard.BeginConnectGood | async_io.cpp:428-471 | starting an operation keeps the shard sound if the new descriptor is not open already |
| ReactorShard.FinishAllGood | async_io.cpp:378-385 | cancelling any operations finishes all of them, touches no other and loses nothing |
| ReactorShard.SweptGood | async_io.cpp:541-575 | after a sweep exactly the overdue operations have ended, and no passed deadline is left |
| ReactorWorker.Shard.Finish | async_io.cpp:787-821 | the fields after finish; a second finish changes nothing |
| ReactorWorker.Shard.SetDeadline | async_io.cpp:387-396 | the old entry is replaced |
| ReactorWorker.Shard.Arm | async_io.cpp:473-496 | the descriptor is watched for writing or for reading, or the operation ends by its stage |
| ReactorWorker.Shard.StepSending | async_io.cpp:689-719 | the send loop, for every list of kernel answers |
| ReactorWorker.Shard.StepRecv | async_io.cpp:721-775 | the receive loop, for every list of kernel answers |
| ReactorWorker.Shard.StepTlsHandshake | async_io.cpp:672-687 | the handshake step |
| ReactorWorker.Shard.StepConnecting | async_io.cpp:629-670 | the step after a connect |
| ReactorWorker.Shard.Advance | async_io.cpp:577-627 | the reaction to an event, which `ReactorOutcome.ExchangeSucceeds` and `RunShows` follow to its end |
| ReactorWorker.Shard.BeginConnect | async_io.cpp:428-471 | the start of an operation |
| ReactorWorker.Shard.ProcessCancellations | async_io.cpp:378-385 | exactly the registered operations whose cancel was requested end |
| ReactorWorker.Shard.SweepTimeouts | async_io.cpp:541-575 | the loop collects exactly the overdue operations and erases exactly the passed deadlines |
| ReactorExchange.SendShows | async_io.cpp:689-719 | after any list of answers an operation has sent the sum of the writes; it goes on to receive when that is everything, waits when the next write would block, and fails otherwise |
| ReactorExchange.RecvShows | async_io.cpp:721-775 | after any list of answers it holds what arrived, cut at the cap; it succeeds at the cap or when the peer closes, waits when the next read would block, and times out only without data |
| ReactorExchange.ConnectedShows | async_io.cpp:629-670 | a completed connect fails on a socket error, goes on to send when plain, and to the handshake over TLS |
| ReactorExchange.AdvanceShows | async_io.cpp:577-627 | an event leads every operation to the next phase: stage, bytes, deadline, outcome and what its socket is watched for |
| ReactorExchange.BeginShows | async_io.cpp:428-471 | starting leads to the first phase: cancelled, failed, in progress or connected at once |
| ReactorExchange.ExpireShows | async_io.cpp:554-574 | a passed deadline ends each phase with its own result and keeps the bytes |
| ReactorExchange.StopShows | async_io.cpp:378-385 | a cancel ends any unfinished phase as cancelled and keeps the bytes |
| ReactorProtocol.StepKeeps | async_io.cpp:312-539 | every atomic step of every thread keeps the invariant of the shard |
| ReactorRuns.LeftBecause | async_io.cpp:500-508 | the worker leaves its loop only after a shutdown call or a failed wait |
| ReactorRuns.WakeUpsNotLost | async_io.cpp:312-385 | in every reachable state queued work has a worker that will look at it, or a shutdown call that has still to take it, unless a wait has failed; requested cancels and a stop have a wake-up written, owed or being acted on |
| ReactorRuns.IdleMeansDone | async_io.cpp:498-527 | a waiting worker with no wake-up written or owed has an empty queue and no cancel to process |
| ReactorRuns.WorkerNeverStuck | async_io.cpp:498-539 | in every reachable state the worker has a next step until it is gone |
| ReactorRuns.CompletedOnce | async_io.cpp:787-809 | an operation has been completed once if it has a result and not at all otherwise; no race completes it twice |
| ReactorRuns.SocketClosedOnce | async_io.cpp:787-821 | an owned socket stays open until its operation finishes and has then been closed exactly once |
| ReactorRuns.NothingPendingAfterShutdown | async_io.cpp:319-360 | once shutdown and all submit calls have returned, every operation is completed and no socket or deadline is left |
| ReactorRuns.EventReachesItsOwner | async_io.cpp:508-521 | no event of one epoll_wait reaches an operation that was given the descriptor later |
| ReactorRuns.RunAdvances | async_io.cpp:541-821 | between any two moments stages only advance, bytes only accumulate and finished operations never change |
| ReactorRuns.OutcomesMatch | async_io.cpp:541-775 | SUCCESS means all was sent, TIMEOUT no data, TLS_FAILED a TLS operation that sent nothing; nothing exceeds payload or cap |
| ReactorRuns.ShardConsistent | async_io.hpp:130-139 | after every step the table owns its descriptors, the deadlines are exact and nothing leaks |
| ReactorOutcome.StepShows | async_io.cpp:312-539 | a step of any thread takes an operation to the next phase if it concerns it, and nowhere otherwise |
| ReactorOutcome.RunShows | async_io.cpp:312-821 | at every moment of every run, stage, deadline, bytes, outcome and interest of every operation are those that its own history of answers, time-outs and cancels leads to |
| ReactorOutcome.ExchangeSucceeds | async_io.cpp:428-775 | plain or TLS, connected at once or later: when the writes take everything and the peer closes after delivering d, over any number of events, the operation ends in SUCCESS, has sent everything and holds d cut at its cap |
| ReactorOutcome.CancelledOnlyIfAsked | async_io.cpp:378-385 | CANCELLED comes only from a cancel, or from the end of the worker or the shard |
| ReactorOutcome.SweepTimesOut | async_io.cpp:541-575 | an overdue operation ends by its stage: CONNECT_FAILED, TLS_FAILED, SEND_FAILED, TIMEOUT or, with data, SUCCESS |
| ReactorOutcome.WatchedForItsStage | async_io.cpp:470-718 | in every reachable state every socket is watched: a connect and a plain send for writing, a plain receive for reading |
| ReactorOutcome.SamplesAreLast | async_io.cpp:637-640 | the latency samples of a shard are those of its last 32 completed connects, in order |
| ReactorShutdown.StrandedForever | async_io.cpp:501-507 | an operation queued for a departed worker stays pending until a shutdown call |
| ReactorShutdown.StrandingRun | async_io.cpp:501-507 | a run in which a failed wait strands an operation whose submit call has returned |
| ReactorShutdown.StrandsIff | async_io.cpp:501-507 | without a shutdown call, ordinary steps can strand an operation if and only if a wait has failed |
| ReactorShutdown.StopMeasure | async_io.cpp:498-539 | once stop is set every step of the worker brings it nearer to its end, and no other step takes it away |
| ReactorShutdown.ShutdownCompletes | async_io.hpp:123-125 | every reachable run can go on until shutdown has returned, all calls have returned and every operation has been completed exactly once |
| ReactorShutdown.FirstOrAgain | async_io.cpp:319-320 | a shutdown call is the first one, or finds the flag set and changes nothing |
| ReactorShutdown.PhaseSettlesIff | async_io.cpp:319-340 | a phase of shutdown guarantees that nothing is pending if and only if it is the last |
| ReactorShutdown.LaterCallIff | async_io.cpp:319-340 | a later call guarantees it at its return if and only if the first call had finished with the shard |
| ReactorSystem.ActKeeps | async_io.cpp:319-367 | every action on any shard, and every step of shutdown across them, keeps the invariant of the whole reactor |
| ReactorSystem.ShardsKeepTheirInvariants | async_io.hpp:112-114 | an operation belongs to one shard only and no descriptor is open in two |
| ReactorSystem.NothingPendingAnywhere | async_io.cpp:319-360 | when the first shutdown call has returned, every operation on every shard is completed exactly once and nothing is open |
| ReactorSystem.FirstOrLater | async_io.cpp:319-320 | at any moment a shutdown call is the first or finds that one was made before |
| ReactorSystem.LaterReturnTooEarly | async_io.cpp:319-320 | for any number of shards, a history in which a later call returns while an operation is pending |
| ReactorSystem.ReturnGuaranteesIff | async_io.cpp:319-360 | a shutdown call guarantees at its return that nothing is pending anywhere if and only if no shutdown call was made before it |
| HistoryStore.TargetHistoryStore.GetTarget | anomaly_analysis.cpp:225-256 | get, with admission, eviction and revival of a tail, as a step of the store |
| HistoryStore.TargetHistoryStore.SnapshotBeforeEvict | anomaly_analysis.cpp:264-286 | the tail is stored, the oldest tail making room |
| HistoryStore.TargetHistoryStore.Push | anomaly_analysis.cpp:131-135 | a history within its cap becomes the last scores, up to the cap, of itself followed by the new one |
| HistoryStore.ScoresCapped | anomaly_analysis.cpp:131-135 | no history ever exceeds its cap |
| HistoryStore.PushIsLast | anomaly_analysis.cpp:131-135 | a push keeps the newest scores |
| HistoryStore.NeverEvictedHistory | anomaly_analysis.cpp:131-256 | over every run in which a target is never evicted, its history is the last scores of its own requests, up to the cap, in order |
| HistoryStore.EvictionKeepsTail | anomaly_analysis.cpp:242-286 | an evicted target leaves the last 40 points of the history it had |
| HistoryStore.ResumedHistory | anomaly_analysis.cpp:225-256 | a target that comes back holds the last scores of what it was handed followed by those of its requests since |
| HistoryStore.EvictedHistory | anomaly_analysis.cpp:131-286 | after an eviction that is the last 40 points it had held, if they are still summarised, followed by the scores pushed since |
| HistoryStore.RecencyDistinct | anomaly_analysis.cpp:225-256 | the recency list holds each requested key once |
| HistoryStore.RecencyOrder | anomaly_analysis.cpp:225-256 | keys are ordered by their last request |
| HistoryStore.ListStepIsTouch | anomaly_analysis.cpp:225-286 | one get moves the two lists as touching one longer LRU list would |
| HistoryStore.RunHolds | anomaly_analysis.cpp:225-286 | over every run lists, maps and stored scores are those of the request history |
| HistoryStore.TwoTiersAreOneStack | anomaly_analysis.cpp:218-295 | summaries followed by residents are the most recently requested keys in order, without a key in both |
| HistoryStore.ReadmissionStart | anomaly_analysis.cpp:234-241 | a re-admitted key starts with the last 40 scores it held |
| HistoryStore.TierBounds | anomaly_analysis.cpp:242-250 | neither tier exceeds its size |
| HistoryStore.TierBoundsReached | anomaly_analysis.cpp:242-286 | both bounds are attained |
| HistoryStore.ConfiguredSizesIff | anomaly_analysis.cpp:221-250 | for all constructor arguments, the stored sizes are never exceeded if and only if the number of targets is positive |
| LinearAlgebra.QuadIsDoubleSum | anomaly_analysis.cpp:442-443 | the form used in the proofs is the double sum over the matrix |
| Cholesky.QuadIsSquare | anomaly_analysis.cpp:401-417 | a factored matrix turns its form into a sum of squares |
| Cholesky.FactoredIsPositive | anomaly_analysis.cpp:401-417 | only positive definite matrices can be factored |
| Cholesky.FailedPivot | anomaly_analysis.cpp:409 | a pivot that is not positive proves the matrix not positive definite |
| Cholesky.Factor | anomaly_analysis.cpp:401-417 | succeeds if and only if the matrix is positive definite, and then L times its transpose is the matrix |
| Cholesky.Forward | anomaly_analysis.cpp:422-426 | solves the lower triangular system |
| Cholesky.Backward | anomaly_analysis.cpp:427-432 | solves the transposed system |
| Cholesky.SolveCorrect | anomaly_analysis.cpp:419-434 | the two solves together give A x = b |
| Cholesky.Solve | anomaly_analysis.cpp:419-434 | the returned vector solves the system of every matrix that L factors |
| Cholesky.DistanceIsSquare | anomaly_analysis.cpp:442-444 | the squared distance is a sum of squares, so the clamp at zero changes nothing |
| Cholesky.MahalanobisSq | anomaly_analysis.cpp:436-446 | fails exactly when the covariance is not positive definite, else returns the squared distance |
| Covariance.CovarianceMatrix | anomaly_analysis.cpp:375-399 | the loops compute the ridged sample covariance, or the identity for fewer than two rows |
| Covariance.MeanVector | anomaly_analysis.cpp:363-373 | each mean, times the number of rows, is the sum of its column |
| Covariance.CovarianceOfPairs | anomaly_analysis.cpp:375-399 | without the mean: an entry less its ridge, times 2 n (n - 1), is the sum over all pairs of rows of the products of their differences |
| Covariance.CovarianceSymmetric | anomaly_analysis.cpp:391-397 | the result is symmetric |
| Covariance.CovariancePositive | anomaly_analysis.cpp:375-399 | with a positive ridge the result is positive definite, for all data |
| Covariance.FeatureDistance | anomaly_analysis.cpp:958-962 | covariance then distance never fails and is never clamped |
| FlowTable.RememberFlow | net_capture.cpp:348-366 | a request refreshes its entry or adds one |
| FlowTable.TakeFlow | net_capture.cpp:372-392 | a reply removes the first entry it answers |
| FlowTable.RemoveExpired | net_capture.cpp:627-632 | exactly the entries older than the timeout go |
| FlowTable.RunRepresents | net_capture.cpp:346-422 | over every history the table holds each flow once, and exactly the flows whose own history leaves them waiting |
| FlowTable.HitIff | net_capture.cpp:372-376 | a reply takes an entry exactly when its flow is waiting with the wanted sequence number |
| FlowTable.LiveIff | net_capture.cpp:346-632 | a flow waits if and only if one of its requests was neither renewed nor answered nor found too old since |
| FlowTable.MatchSound | net_capture.cpp:370-395 | every match has an earlier request of that flow that waited without interruption and was never too old at a sweep |
| FlowTable.MatchesSeparated | net_capture.cpp:388-389 | a request justifies at most one match |
| FlowTable.Conservation | net_capture.cpp:346-632 | requests are refreshed, matched, expired or waiting, and add up exactly |
| DedupCache.Mark | net_capture.cpp:586-621 | whether a finding repeats, and the cache afterwards |
| DedupCache.Clean | net_capture.cpp:647-653 | exactly the entries older than twice the window go |
| DedupCache.RunAgrees | net_capture.cpp:586-653 | the cache holds the last sighting of every key unless that is older than twice the window |
| DedupCache.SuppressedIff | net_capture.cpp:586-653 | a finding is suppressed exactly when the unbounded history has the same key within the window, whatever was swept |
| NetCapture.Acknowledged | net_capture.cpp:376 | the one sequence number that an acknowledgement answers, modulo 2^32 (section 3.5 of RFC 9293) |
| NetCapture.GuessFlowSymmetric | net_capture.cpp:126-131 | both directions of a session get one flow if and only if the ports differ or the addresses agree; `CaptureFindings.MidSessionReported` says which end responds |
| NetCapture.GuessFlowDiffers | net_capture.cpp:444-454 | two hosts that both use port 179 get two flows |
| NetCapture.Capture.constructor | net_capture.cpp:198 | a new capture is empty |
| NetCapture.Capture.HandleTcp | net_capture.cpp:329-458 | the effect of a segment on tables, cache, counters and findings |
| NetCapture.Capture.HandleUdp | net_capture.cpp:460-479 | which handler a datagram goes to |
| NetCapture.Capture.HandleQuic | net_capture.cpp:481-529 | long-header packets to the QUIC port wait, packets from it answer |
| NetCapture.Capture.HandleDns | net_capture.cpp:531-584 | queries to the DNS port wait, responses from it answer |
| NetCapture.Capture.DedupeAndMark | net_capture.cpp:586-621 | the duplicate check with its counter |
| NetCapture.Capture.SweepExpired | net_capture.cpp:623-654 | the sweep of the three tables and the cache, with its counters |
| CaptureHistory.RunTracks | net_capture.cpp:329-654 | over every history tables and counters are those of one tracker for each protocol |
| CaptureHistory.PendingIsLive | net_capture.cpp:346-368 | pending 5-tuples are unique and are exactly those still waiting |
| CaptureHistory.RequestsConserved | net_capture.cpp:346-646 | SYNs, QUIC packets and DNS queries seen are matched, expired, waiting or refreshed, exactly |
| CaptureHistory.FindingsConserved | net_capture.cpp:370-457 | every match is reported or counted as a duplicate |
| CaptureHistory.RunReports | net_capture.cpp:329-654 | the findings are exactly those of the unbounded history; tables, expiry and eviction are invisible |
| CaptureHistory.SynAckSound | net_capture.cpp:370-395 | every SYN-ACK finding has an earlier SYN of the reversed tuple with ack = seq + 1 modulo 2^32 that no sweep found too old |
| CaptureHistory.ResetSound | net_capture.cpp:397-422 | every closed finding was asked for and has an earlier SYN of the reversed tuple that no sweep found too old |
| CaptureHistory.QuicSound | net_capture.cpp:481-529 | every QUIC finding has an earlier long-header datagram to the QUIC port on the reversed path |
| CaptureHistory.DnsSound | net_capture.cpp:531-584 | every DNS finding is a response with an earlier query to the DNS port on the reversed path |
| CaptureHistory.AnsweredOnce | net_capture.cpp:370-422 | two answers to one flow are separated by a new request, for all three protocols |
| CaptureFindings.SynAckReportedIff | net_capture.cpp:346-395 | a SYN-ACK is reported, or counted as a repetition, if and only if it acknowledges the sequence number of a SYN of the reversed tuple that no later packet repeated or answered and no sweep found too old |
| CaptureFindings.ResetReportedIff | net_capture.cpp:397-422 | a reset likewise, if and only if closed ports are asked for and such a SYN waits |
| CaptureFindings.QuicReportedIff | net_capture.cpp:481-529 | a datagram from the QUIC port likewise, if and only if a long-header datagram of the reversed tuple waits |
| CaptureFindings.DnsReportedIff | net_capture.cpp:531-584 | a DNS response likewise, if and only if a query of the reversed tuple waits |
| CaptureFindings.MidSessionReported | net_capture.cpp:126-131 | every mid-session segment is reported with its two endpoints; the responder has the one port below 1024, else the smaller port, else it is the receiver |
| CaptureFindings.OthersSilent | net_capture.cpp:329-584 | sweeps, requests and packets that are neither requests nor replies report nothing |
| CaptureFindings.ReportedUnlessRecent | net_capture.cpp:586-621 | a finding is added exactly when no earlier packet amounted to the same one within the window |
| CaptureFindings.CountersAreTallies | net_capture.cpp:346-584 | each of fourteen counters is the number of the events it is named for |
| CaptureFindings.TracePackets | net_capture.cpp:669-680 | the history of the loop holds exactly the received packets, in order |
| CaptureHistory.RunCapture | net_capture.cpp:656-680 | the capture loop with its interleaved sweeps returns exactly the findings of the history |
| DnsName.EncodeName | dns_enum.cpp:62-76 | the encoding is appended to what is there |
| DnsName.EncodeIsWire | dns_enum.cpp:62-76 | the labels between the dots are written each with its length and cut to 63 bytes, with or without a final dot; an empty label inside is written too |
| DnsName.DecodeName | dns_enum.cpp:124-148 | the loop with jumps, hops and bounds terminates on all bytes and gives the specified name and position |
| DnsName.SkipName | dns_enum.cpp:114-122 | the skipping loop gives the specified position |
| DnsName.NextIsSkip | dns_enum.cpp:114-148 | the next position after decoding arbitrary bytes, in terms of skipping |
| DnsName.SameNextIff | dns_enum.cpp:114-148 | the two next positions agree if and only if the skip stays in the buffer or starts beyond it |
| DnsName.NextDiffers | dns_enum.cpp:114-148 | on the one byte 5, decoding stays at 0 and skipping goes to 6 |
| DnsName.DecodeAnyName | dns_enum.cpp:124-148 | a well-formed name with up to 128 jumps decodes to its labels, and skipping agrees |
| DnsName.CompressedSuffix | dns_enum.cpp:132-139 | labels followed by a pointer decode to the labels followed by the pointed-to name |
| DnsName.WireIsName | dns_enum.cpp:62-148 | a wire form is a well-formed name at any offset |
| DnsName.DecodeEncode | dns_enum.cpp:62-148 | decoding an encoded name at any offset of any message returns it, and both walkers stop at its end |
| DnsName.SelfPointer | dns_enum.cpp:132-139 | a pointer to itself ends after its hops, names nothing and leaves the walk behind it |
| DnsMessage.ParseMessage | dns_enum.cpp:325-369 | the record walk over arbitrary bytes, 16-bit counters included |
| DnsMessage.ParseInOrder | dns_enum.cpp:325-369 | the records lie in order, disjoint and inside the buffer |
| DnsMessage.ParseAnySize | dns_enum.cpp:341-367 | on a well-formed message of any size the wanted IN records come first, then what the wrapping counter reads on |
| DnsMessage.ParseExactIff | dns_enum.cpp:341-367 | exactly the wanted records are returned if and only if nothing surplus is read |
| DnsMessage.SurplusRead | dns_enum.cpp:341-343 | a message whose two counts make 65536: a record too many is returned |
| DnsMessage.ParseWellFormed | dns_enum.cpp:325-369 | on a well-formed message exactly the IN records of the wanted sections are returned, with the authority section for all messages of up to 65535 bytes |
| DnsWriter.ReadPut16 | dns_enum.cpp:325-369 | reading two bytes inverts writing a number by division and remainder |
| DnsWriter.ReadPut32 | dns_enum.cpp:352 | so does reading the four bytes of a time to live |
| DnsWriter.OwnerStands | dns_enum.cpp:124-148 | labels ended by a zero byte, or by the bytes of a pointer to the first question, stand for the name they should |
| DnsWriter.WrittenIsWellFormed | dns_enum.cpp:325-369 | a message written byte by byte from its counts, questions and records is well formed |
| DnsWriter.ParseWrite | dns_enum.cpp:325-369 | parsing a written message returns exactly its wanted IN records, in order, with their own owner, type, time to live and data, as long as the wanted counts stay below 65536 |
| Dechunk.DechunkBody | control.cpp:2049-2100 | the loop decodes by its specification |
| Dechunk.SpellsIff | control.cpp:2049-2100 | the size read from digits, in either case, is the number they spell in base 16 |
| Dechunk.DecodeTruncated | control.cpp:2049-2100 | on a truncation at any byte exactly the body bytes received are returned |
| Dechunk.DecodeEncode | control.cpp:2049-2100 | decoding inverts chunked encoding, extensions and trailers allowed |
| Dechunk.SplitRoundTrip | control.cpp:2049-2100 | every split of a body into non-empty chunks decodes to the body, and every truncation to a prefix of it |
| Checksum.IcmpChecksum | icmp_ping.hpp:67-75 | the loops terminate and compute the complement of the folded 32-bit sum, an odd last byte included |
| Checksum.FoldResidue | icmp_ping.hpp:73 | folding preserves the sum modulo 65535 and distinguishes zero |
| Checksum.ChecksumVerifies | icmp_ping.hpp:243-244 | for every buffer of any length, with its checksum written into its zeroed field the buffer sums to 0 |
| Checksum.BytesIndependentOfOrder | icmp_ping.hpp:67-75 | for even lengths that cannot wrap, the two stored bytes are the same on machines of either byte order |
| Checksum.OddLengthIff | icmp_ping.hpp:72 | an odd last byte counts as if a zero byte followed it if and only if the machine is little-endian or the byte is zero |
| Checksum.UnboundedSumIff | icmp_ping.hpp:70-74 | the result is the checksum of the unbounded sum exactly when the sum does not wrap, or wraps a multiple of 65535 times and leaves a non-zero sum |
| Checksum.WrapChangesResult | icmp_ping.hpp:70-74 | a buffer of 131076 bytes whose checksum is not that of its unbounded sum |
| Checksum.TcpChecksumVerifies | icmp_ping.hpp:1065-1079 | and for the pseudo header with the TCP header |

## Left out

- Sockets, epoll, eventfd, OpenSSL, clocks and threads are not modelled themselves: their answers are inputs, and atomic steps are sequentially consistent.
- ReactorShard.BeginConnectGood: the retry loop for a fixed source port only delays the descriptor; the model takes the final outcome.
- The adaptive connect budget, the other time-out lengths and `next_wait_ms`: deadlines may be any times, so no theorem depends on them.
- Submitting one `Operation` twice, and `run_blocking`, the wrapper that waits for one operation.
- ReactorRuns.CompletedOnce: says at most once; that completion always comes holds only up to a failed wait, as listed above.
- ReactorProtocol.StepKeeps: choosing a shard number and storing it in the operation is one step, as is emptying the wake counter; no other thread can tell the difference.
- ReactorWorker.Shard.SweepTimeouts: passed deadlines are taken in any order, where the code takes the earliest first.
- Concurrent use of an evicted history through an old shared pointer: a history is a value in the store.
- HistoryStore.TargetHistoryStore.Push: models the score history; the other capped histories are the same code.
- IEEE rounding: the linear algebra is over the reals and the square root is a parameter with its defining property.
- The score weights, signature thresholds, robust statistics and printed analysis around the distance.
- AsnRows.StreamMatchesBatch: cells of a row are parsed by a parameter; pages over the row cap, with unfinished closing tags or with table bodies inside rows are excluded, because chunk boundaries or the cap change the result there.
- Dechunk.DecodeEncode: sizes are plain hexadecimal numerals without bound; signs, a 0x prefix, leading blanks and overflow of `strtoul` are not modelled.
- DnsMessage.ParseMessage: record data is kept as its position and length; rendering it is formatting.
- Decoding of Ethernet, IP, TCP and UDP headers: the capture handlers take decoded headers.
- CaptureHistory.RunReports: requires clock readings that do not decrease, which the steady clock promises.
- Text forms of addresses: blocks are pairs of a number and a prefix length.
- Parsing of registry files, line reassembly, fuzzy name scoring and the five nearest suggestions: easy next to the members above.
- `extract_header` and `collect_all_headers`: two copies of one scan, so their agreement is an easy member.
- The scanner engine, version probes, signature matching, ARP, traceroute and terminal output.
