# Compact-filter sync, wallet scanning and reporting, verified

A Dafny model of the parts of the BIP 157/158 conformance suite that carry its logic: the patched
Wasabi client that downloads compact filters from many peers, the simulated peer that serves them,
the wallet recorders of the adapters, the filter-guided scanner, the fixture chains and the
bookkeeping of results. `dafny verify dfyconfig.toml` checks all of it.

## Layout

- `Digests`, `Tracking`, `SyncState`, `Peers`: the client as the patches have it. `RequestTracker`,
  `FilterHeaderChain` and `FilterSynchronizationState` are classes with the source's fields and loops;
  each method is proved against a function on values (`Tracker`, `Shared`, `Peer`).
- `Behavior`: the per-connection handlers as a class, proved against the same functions.
- `Protocol`, `Runs`, `SyncTheorems`, `Tiling`: the client and any number of peers as a state machine.
  Messages are arbitrary; checking an answer and reporting it are two steps, between which other peers
  may act. The invariant and what follows for all runs.
- `Requests`, `Reader`, `Reactions`: what a peer that asks is given, what the reader of the channel gets, and what one
  message does, each pinned down without the functions that the methods are proved against.
- `PeerServer`: the simulated peer with all its per-height faults.
- `EndToEnd`, `HonestRuns`: client and honest peers together, step by step and over whole runs.
- `Holding`, `Workload`, `Completion`, `Handlers`: the download finishes. Every range that is out is held by some
  peer; every answer uses up work; somebody is always asked while something is missing. First for all
  interleavings of steps, then for the calls that the client makes: ticks, received messages, reads.
- `HeaderRounds`: how many requests the filter headers take.
- `FaultEffects`, `FaultRuns`: what each fault of the simulated peer does to the client, as if-and-only-ifs for
  one answer, and over whole runs with any mix of faulty servers.
- `Recorder`, `Adapter`, `Watchers`: the match recorders, for one script and for many.
- `Scanner`, `Rescans`: the filter-guided scan, and watches that are added again.
- `Fixture`, `WholeRun`: the fixture builders, and the way from the first request to the matches.
- `Report`, `Score`: `upsert`, the initial report, and `Summarize`.

## Assumptions

- Hashes are ideal: a digest is the term that was hashed (`Digests`). Collision freedom is thus part of
  the model and not an axiom; the sizes of hashes are not.
- The header rule is that of the second patch: the previous header is zero only at height 0, where the
  first patch has height 1.
- `FilterHeaderChain` is known only through its `AppendTip` check and its indexer. It starts non-empty,
  linked, and not above the block-header chain, and has no other writer.
- The filter library is a pair of functions, `build` and `matches`. The scanner results assume what
  BIP 158 demands of them: a filter matches every output script and every spent script of its block,
  unless the script is empty or starts with OP_RETURN.
- Heights are natural numbers. Every filter start that is handed out is at most `LastHeight + 1 + 24 * 400`, and
  the skip-ahead loop computes none beyond `LastHeight + 1 + 25 * 400` (`SyncTheorems.FilterTrackerBounds`); a header
  start that is handed out is `LastHeight + 1`, and the loop skips at most once, by 1100
  (`SyncTheorems.HeaderRangesSerialized`). So unsigned 32-bit heights do not wrap while the tip is below the maximum
  by as much.
- The clock is a parameter: one reading for each attempt to hand out a range.
- The genesis block is a parameter: one coinbase transaction that does not pay the watched script.

## Model

| member | source | states |
|---|---|---|
| `SyncTheorems.InOrderDelivery` | nix/patches/wasabi/0001-p2p-compact-filter-provider.patch:910-923 | over every run of any number of peers (assign, answer, report, disconnect, stale release, clear pending, new blocks, reads), with any messages: the channel has carried exactly one filter per height, in order, from the first missing height to `LastHeight`, and the client's own filter-header chain commits to the bytes of each of them |
| `SyncTheorems.EmittedFold` | nix/patches/wasabi/0001-p2p-compact-filter-provider.patch:469-547 | the hashes of the emitted filters fold from the header below the first of them to the header at the last processed height |
| `SyncTheorems.OneHeaderCommitsToAll` | nix/patches/wasabi/0001-p2p-compact-filter-provider.patch:469-547 | two runs from the same start, with any peers and interleavings, that agree on the one filter header at the last processed height have emitted the same filters, byte for byte |
| `SyncTheorems.HeaderChainLinked` | nix/patches/wasabi/0001-p2p-compact-filter-provider.patch:802-834 | over every run: the filter-header chain only grows, has no gaps, every header hashes a filter hash onto the header below it, and the branch that logs a failed append is never taken, although validating and appending are separate steps |
| `SyncTheorems.HeadersWereSent` | nix/patches/wasabi/0001-p2p-compact-filter-provider.patch:753-800 | every header added in a run hashes a filter hash that some peer sent in a cfheaders message of that run |
| `SyncTheorems.HeaderRangesSerialized` | nix/patches/wasabi/0001-p2p-compact-filter-provider.patch:680-727 | in every reachable state at most one header range is out, it starts right above the chain, the skip-ahead loop skips at most that one, and a validated answer that comes second leaves the chain as it is |
| `SyncTheorems.FilterTrackerBounds` | nix/patches/wasabi/0001-p2p-compact-filter-provider.patch:1122-1142 | in every reachable state no range is both out and finished, every tracked start is at most `LastHeight + 1 + 24 * 400`, the next range is never left among the finished ones, and the skip-ahead loop stops within the lookahead |
| `SyncTheorems.NoWedge` | nix/patches/wasabi/0001-p2p-compact-filter-provider.patch:862-908 | in every reachable state with headers above `LastHeight` and nobody fetching the next range, a peer that asks is given exactly that range |
| `Requests.FirstUntakenIsAsked` | nix/patches/wasabi/0001-p2p-compact-filter-provider.patch:862-908 | several peers download at once: in every reachable state a live peer without a filter range is given the first range of the grid of 400 that nobody is fetching and no answer waits for, clipped at the header tip and recorded with its time; a range whose holder has been silent longest, and for too long, counts as free |
| `Requests.NothingToAsk` | nix/patches/wasabi/0001-p2p-compact-filter-provider.patch:1122-1142 | a peer that asks is turned away only when all 25 ranges of the lookahead are taken |
| `Requests.NextHeadersAreAsked` | nix/patches/wasabi/0001-p2p-compact-filter-provider.patch:680-727 | in every reachable state a live peer without a header range is given the headers right above the chain, 1100 of them or as many as there are blocks, exactly if there are any and nobody else is at it |
| `Requests.ForgottenIsAsked` | nix/patches/wasabi/0001-p2p-compact-filter-provider.patch:993-1002 | after a detected reorganisation only ranges that somebody is fetching are taken, so what was forgotten is asked for again |
| `Reader.ReadsAreEmitted` | nix/patches/wasabi/0001-p2p-compact-filter-provider.patch:855-860 | over every run the batches that reads have returned, joined in order, followed by what still waits in the channel, are exactly what was emitted; so the reader gets each height once, in order |
| `Reader.ReadsCatchUp` | nix/patches/wasabi/0001-p2p-compact-filter-provider.patch:855-860 | as many reads as there are batches return them all, oldest first, and leave the channel empty |
| `Reader.CallReadsAreEmitted` | nix/patches/wasabi/0001-p2p-compact-filter-provider.patch:855-860 | the same over every sequence of ticks, messages and reads |
| `Reactions.HeadersAcceptedIff` | nix/patches/wasabi/0001-p2p-compact-filter-provider.patch:368-430 | an answer whose stop block is known is accepted exactly if it has hashes, reaches from the assigned start to that block and declares the filter header the client has below; otherwise the peer is invalid and what it held is free |
| `Reactions.UnknownStopIgnored` | nix/patches/wasabi/0001-p2p-compact-filter-provider.patch:368-430 | an answer for a block that is not known is ignored, unless it is empty |
| `Reactions.FilterArrivesExactly` | nix/patches/wasabi/0001-p2p-compact-filter-provider.patch:432-467 | a filter is collected until the one for the stop block comes or the range is full; then the batch is accepted exactly if every filter parses and the header chain commits to it at its height, and otherwise the peer is invalid |
| `Reactions.OthersIgnored` | nix/patches/wasabi/0001-p2p-compact-filter-provider.patch:347-366 | messages nobody has asked for, of another kind or filter type, or of a peer that is done for, change nothing |
| `Reactions.ZeroOnlyBelowGenesis` | nix/patches/wasabi/0002-anchor-height-one-to-genesis-filter-header.patch:27-41 | the header below a height is the stored one, zero below the genesis block and only there |
| `Reactions.DrainStopsAtGap` | nix/patches/wasabi/0001-p2p-compact-filter-provider.patch:802-834 | a refused header drops its range, appends nothing of it and leaves what waits behind it |
| `Protocol.StepKeeps` | nix/patches/wasabi/0001-p2p-compact-filter-provider.patch:642-735 | every single step keeps the invariant that the results above rest on, and takes back no header, height or emitted filter |
| `Protocol.DrainKeeps` | nix/patches/wasabi/0001-p2p-compact-filter-provider.patch:1004-1039 | draining finished ranges keeps the emitted filters gap-free and committed to, and ends with nothing that could still be emitted, also for short batches |
| `Protocol.CheckedHeadersLink` | nix/patches/wasabi/0001-p2p-compact-filter-provider.patch:753-800 | whatever a peer answers, headers that pass the check continue the chain where the peer was asked to |
| `Protocol.CheckedFiltersCommitted` | nix/patches/wasabi/0001-p2p-compact-filter-provider.patch:469-547 | whatever a peer sends, each filter of a batch that passes the check is committed to by the header chain at its height |
| `Tiling.RangesTile` | nix/patches/wasabi/0001-p2p-compact-filter-provider.patch:862-908 | while the header tip stays and reported batches are full: the ranges handed out in a run are tiles of 400 heights from the initial height on, their starts cover a prefix without gaps, and `LastHeight` is the end of a tile |
| `Tiling.StartTiled` | nix/patches/wasabi/0001-p2p-compact-filter-provider.patch:660-678 | a client that starts with nothing in flight is in a state from which ranges tile |
| `Tiling.TilesPartition` | nix/patches/wasabi/0001-p2p-compact-filter-provider.patch:862-908 | two different tiles have no height in common, and the first `count` tiles cover every height up to their end |
| `Behavior.CompactFilterBehavior.OnMessageReceived` | nix/patches/wasabi/0001-p2p-compact-filter-provider.patch:347-366 | the handler, statement by statement, has exactly the effect on the shared state and on the peer that the step functions describe; an invalid or closed peer, another message or another filter type has no effect |
| `Behavior.CompactFilterBehavior.HandleFilterHeaderMessage` | nix/patches/wasabi/0001-p2p-compact-filter-provider.patch:368-430 | all branches of the cfheaders handler: empty batch, unknown stop block, wrong start, failed check, success and the sync that follows |
| `Behavior.CompactFilterBehavior.HandleFilterMessage` | nix/patches/wasabi/0001-p2p-compact-filter-provider.patch:432-467 | filters are collected up to the stop hash or the count; then the batch is checked and reported, or the peer is invalid and loses its ranges |
| `Behavior.CompactFilterBehavior.ValidateFilters` | nix/patches/wasabi/0001-p2p-compact-filter-provider.patch:469-547 | accepts a batch exactly if it is not empty and at every height the filter parses, the block is known and the hash matches the client's header chain; the result carries the peer's block hash |
| `Behavior.CompactFilterBehavior.Detach` | nix/patches/wasabi/0001-p2p-compact-filter-provider.patch:300-306 | a closed connection gives back both ranges and what was collected |
| `Behavior.HandlerIsRun` | nix/patches/wasabi/0001-p2p-compact-filter-provider.patch:347-366 | handling one message is a run of the step relation, so all results about runs hold of the handlers |
| `SyncState.FilterSynchronizationState.TryAssignHeaderRange` | nix/patches/wasabi/0001-p2p-compact-filter-provider.patch:680-727 | refines the assignment step for headers, which `Requests.NextHeadersAreAsked` pins down: release one stale range, find the next start, demand its predecessor header, clip at the block tip |
| `SyncState.FilterSynchronizationState.TryAssignFilterRange` | nix/patches/wasabi/0001-p2p-compact-filter-provider.patch:862-908 | refines the assignment step for filters, clipped at the filter-header tip |
| `SyncState.FilterSynchronizationState.OnHeaderCompleted` | nix/patches/wasabi/0001-p2p-compact-filter-provider.patch:729-740 | refines reporting a header range and draining into the chain, including the early return on a failed append |
| `SyncState.FilterSynchronizationState.OnFilterRangeCompleted` | nix/patches/wasabi/0001-p2p-compact-filter-provider.patch:910-923 | refines reporting a filter range and draining into the channel |
| `SyncState.FilterSynchronizationState.ValidateFilterHeaders` | nix/patches/wasabi/0001-p2p-compact-filter-provider.patch:753-800 | the derived headers if the declared previous header is the client's own and all blocks are known, otherwise nothing |
| `SyncState.FilterSynchronizationState.GetNextFilterBatch` | nix/patches/wasabi/0001-p2p-compact-filter-provider.patch:855-860 | a read takes the oldest batch out of the channel and returns it |
| `SyncState.FilterSynchronizationState.ClearPendingState` | nix/patches/wasabi/0001-p2p-compact-filter-provider.patch:993-1002 | what a detected reorganisation does here: finished ranges of both kinds are forgotten, and nothing else changes |
| `SyncState.FilterHeaderChain.AppendTip` | nix/patches/wasabi/0001-p2p-compact-filter-provider.patch:1195-1204 | an empty chain takes any header, otherwise exactly the one above the tip is appended; an older one is ignored, one beyond a gap is refused, both without a change |
| `Tracking.RequestTracker.TryGetNextRangeStartHeight` | nix/patches/wasabi/0001-p2p-compact-filter-provider.patch:1122-1142 | the skip-ahead loop ends, and returns what `NextStartIsFree` describes |
| `Tracking.Tracker.NextStartIsFree` | nix/patches/wasabi/0001-p2p-compact-filter-provider.patch:1122-1142 | the start handed out is the first above `LastHeight`, in steps of the range size, that is neither out nor finished; none is handed out only if all `maxLookaheadRanges` of them are taken |
| `Tracking.RequestTracker.GetOldestStaleAssignment` | nix/patches/wasabi/0001-p2p-compact-filter-provider.patch:1148-1160 | the assignment that has been out longest, if it has been out longer than the timeout |
| `Tracking.SkipsBounded` | nix/patches/wasabi/0001-p2p-compact-filter-provider.patch:1122-1142 | tracked starts within the lookahead leave a free start within it |
| `PeerServer.Server.HeadersResponse` | peerlab/server.go:364-381 | the page starts above the first locator that the fixture has, whatever unknown ones come before it, and at the genesis block if there is none |
| `PeerServer.PageEnds` | peerlab/server.go:364-381 | a page ends at the block with the stop hash, and otherwise when it is full or at the tip |
| `PeerServer.HeaderLinksIff` | peerlab/server.go:364-381 | a served header links to the block below exactly if the scenario does not corrupt it, and is otherwise the header of the block |
| `PeerServer.StartsAboveFirstKnown` | peerlab/server.go:457-471 | the search through the locators goes on to the first one that is known |
| `PeerServer.Server.CFHeadersResponse` | peerlab/server.go:383-415 | an error exactly for an unknown stop hash or a start above it; otherwise the previous header and up to 2000 hashes, field by field, with every fault of a scenario |
| `PeerServer.Server.CFiltersResponse` | peerlab/server.go:417-437 | one message per height of the range, with every fault; the unknown stop hash is an error |
| `PeerServer.Server.CFCheckptResponse` | peerlab/server.go:439-455 | exactly the headers at the multiples of 1000 up to the stop height, which are as many as were allocated, so that adding one never fails; none for an unknown stop hash |
| `PeerServer.CheckpointsAgree` | peerlab/server.go:383-455 | folding the hashes of the cfheaders answer from one checkpoint gives exactly the next checkpoint |
| `PeerServer.CFHeadersReachStop` | peerlab/server.go:383-415 | an honest cfheaders answer leads from its previous header to the header at the stop height |
| `PeerServer.PagingComplete` | peerlab/server.go:364-381 | asking again with the last hash received until a page is empty returns exactly the chain above the first locator, in pages of at most 2000, non-empty but for the last, and `ceil(remaining / 2000)` of them besides it |
| `PeerServer.DownloadComplete` | peerlab/server.go:364-381 | the same for a download that begins with any list of locators: it returns exactly the headers above the first locator that is known, or the whole chain |
| `PeerServer.HashesDiffer` | chainlab/fixture.go:163-192 | the blocks of a linked fixture have pairwise different hashes |
| `Digests.CorruptHash` | peerlab/server.go:549-552 | a corrupted hash differs from the original |
| `Digests.CorruptBytes` | peerlab/server.go:554-561 | corrupted filter bytes differ from the original, also when it is empty |
| `EndToEnd.HonestHeadersAccepted` | nix/patches/wasabi/0002-anchor-height-one-to-genesis-filter-header.patch:27-41 | an honest cfheaders answer to an assigned range, also to the one that starts at height 1, is complete (1100 is below the cap) and accepted, and gives the fixture's headers |
| `EndToEnd.HonestFilterAccepted` | nix/patches/wasabi/0001-p2p-compact-filter-provider.patch:432-467 | honest cfilters are collected to the end of the range, no earlier and no later, and the batch is accepted |
| `HonestRuns.HonestSync` | nix/patches/wasabi/0002-anchor-height-one-to-genesis-filter-header.patch:27-41 | for every fixture and every interleaving with honest peers: the header chain is the fixture's, the emitted filters are the fixture's in order, and no peer is found invalid |
| `Workload.AnswersBounded` | nix/patches/wasabi/0001-p2p-compact-filter-provider.patch:680-740 | over any honest run, with closed connections, stale ranges and cleared pending state: the accepted answers and the work left are together at most the work there was plus 401 for every disturbance; so the honest answers run out |
| `Completion.StepProgress` | nix/patches/wasabi/0001-p2p-compact-filter-provider.patch:549-600 | no step of a live handler leaves something missing without a peer that has been asked for it or a handler about to ask |
| `Completion.CalmRunsComplete` | nix/patches/wasabi/0001-p2p-compact-filter-provider.patch:549-600 | after any honest run let a live peer ask, and from there on let every live handler that reports also ask: however the critical sections of any number of handlers interleave, whenever every range asked for has been answered the client has all filter headers of the fixture and all its filters emitted |
| `Handlers.CallIsRun` | nix/patches/wasabi/0001-p2p-compact-filter-provider.patch:347-366 | every tick, handshake, read and honestly answered message of a live peer is an honest run with the same outcome, in which a received message is one answer |
| `Handlers.CallsComplete` | nix/patches/wasabi/0001-p2p-compact-filter-provider.patch:311-366 | the client finishes: once a live peer has asked, every sequence of the client's own calls, with any number of honest peers answering in any order, leaves it complete whenever no peer has an unanswered request; and the number of answers is bounded |
| `Handlers.NeverStuck` | nix/patches/wasabi/0001-p2p-compact-filter-provider.patch:311-366 | from every state that an honest run leads to, one tick of one live peer is enough: the answers to what is asked then, each at the same time, lead to the end |
| `HeaderRounds.HeaderAnswersExact` | nix/patches/wasabi/0001-p2p-compact-filter-provider.patch:680-727 | n missing filter headers take exactly ceil(n / 1100) cfheaders answers, with any number of honest peers in any interleaving, as long as no header range is given up |
| `WholeRun.FromGenesisToMatches` | adapters/wasabi/WasabiP2pClient.cs:274-314 | for every built fixture, every honest partial sync and every sequence of the client's calls from there that starts with a live peer asking: whenever no peer has an unanswered request and the channel has been read, scanning the filters that the reads returned finds exactly the two wallet transactions of the fixture |
| `FaultEffects.CorruptionPropagates` | peerlab/server.go:404-413 | headers derived from served hashes are honest at a height if and only if no hash up to it was corrupted |
| `FaultEffects.FaultyHeadersOutcome` | nix/patches/wasabi/0001-p2p-compact-filter-provider.patch:368-430 | under any faults a cfheaders answer is accepted if and only if it is not empty and declares the header the client has below the range; otherwise the peer loses its ranges |
| `FaultEffects.HonestTipOutcome` | peerlab/server.go:383-415 | a client with the right header below the range accepts the answer if and only if the scenario neither empties it nor corrupts the previous header that it declares |
| `FaultEffects.AcceptedAnswerEffect` | nix/patches/wasabi/0001-p2p-compact-filter-provider.patch:753-800 | after an accepted answer the client's headers are honest below the first corrupted height and wrong at every height from it on |
| `FaultEffects.FilterFitsIff` | nix/patches/wasabi/0001-p2p-compact-filter-provider.patch:492-544 | a served filter fits if and only if neither its hash was corrupted in the headers nor its bytes are corrupted now |
| `FaultEffects.BatchAcceptedIff` | nix/patches/wasabi/0001-p2p-compact-filter-provider.patch:469-547 | a served range is accepted if and only if none of its heights was corrupted in either way; an accepted filter has the right block hash if and only if the peer put it there, since it is not compared |
| `FaultEffects.FaultyRangeOutcome` | nix/patches/wasabi/0001-p2p-compact-filter-provider.patch:432-467 | a whole range, served with any faults and received message by message, is reported if and only if none of its heights was corrupted; otherwise the peer is invalid and both its ranges are free again |
| `FaultRuns.FaultyRunsEmitRight` | nix/patches/wasabi/0001-p2p-compact-filter-provider.patch:469-547 | over every run in which filter headers come from servers of one fixture, each with any faults, and filters from anywhere: every emitted filter has the fixture's bytes, and every filter header up to `LastHeight` is the fixture's |
| `FaultRuns.WrongTipIff` | nix/patches/wasabi/0001-p2p-compact-filter-provider.patch:753-800 | in such a run the last filter header is wrong exactly if some header above the start hashes a corrupted filter hash |
| `FaultRuns.WrongTipIsFinal` | nix/patches/wasabi/0001-p2p-compact-filter-provider.patch:753-800 | once the last filter header is wrong, no server of the fixture, honest or faulty, ever extends the chain again, and `LastHeight` stays below its tip |
| `Adapter.AdapterState.RecordBlock` | adapters/wasabi/AdapterState.cs:104-149 | the nested loops have exactly the effect of the single-script recorder on the script's outpoints and on the shared matches |
| `Adapter.AdapterState.AddWatch` | adapters/wasabi/AdapterState.cs:73-80 | the watch has the new request and script with its cursor at the start height, also if it was there before; known outpoints and matches stay, and other watches are unchanged |
| `Adapter.AdapterState.Matches` | adapters/wasabi/AdapterState.cs:151-160 | the query answers with exactly the matches in the height range, all of them in order if all are in it |
| `Adapter.AdapterState.MarkScanned` | adapters/wasabi/AdapterState.cs:92-101 | the cursor of a known watch moves to the larger height; an unknown script has no effect |
| `Adapter.AdapterState.AddMatchNoLock` | adapters/wasabi/AdapterState.cs:162-169 | a match is added once |
| `Recorder.RecordedIff` | adapters/wasabi/AdapterState.cs:104-149 | closed form of one pass: the matches are the paying outputs and the inputs that spend an outpoint paid by then |
| `Recorder.OnePassIff` | adapters/neutrino/main.go:386-423 | one pass finds all paying outputs and all inputs that spend one if and only if no spend comes before its funding output |
| `Recorder.TwoPasses` | adapters/neutrino/main.go:386-423 | two full passes, each in any order of blocks, find all of them |
| `Recorder.ThirdPass` | adapters/neutrino/main.go:425-432 | every scan after that leaves the list of matches as it is |
| `Recorder.RescanAddsNothing` | adapters/wasabi/AdapterState.cs:162-169 | recording what is already known changes nothing, down to the order of the matches |
| `Recorder.RecordKeepsDistinct` | adapters/neutrino/main.go:425-432 | no match is listed twice |
| `Watchers.MultiRecorder.RecordBlock` | adapters/nakamoto/src/main.rs:510-570 | the loop over transactions and scripts, in whatever order the hash map lists the scripts, has exactly the effect of its visits in that order; a script that does not parse is skipped |
| `Watchers.NonInterference` | adapters/nakamoto/src/main.rs:510-586 | however visits for different scripts interleave, the matches tagged with one script are, in order, those of the recorder that looks for it alone |
| `Watchers.NakamotoAnswers` | adapters/nakamoto/src/main.rs:393-409 | with a fixed watch set, the query for a script and height range answers with what the single recorder finds there, for every order of scripts in every block |
| `Watchers.SharedIsUnion` | adapters/kyoto/src/main.rs:469-542 | without the script in the key, the shared list is exactly the union of the single recorders' matches |
| `Watchers.OutpointsApart` | adapters/kyoto/src/main.rs:482-500 | the known outpoints of one script are those of its single recorder |
| `Scanner.WasabiP2pClient.ScanWatch` | adapters/wasabi/WasabiP2pClient.cs:274-314 | the batch loop has exactly the effect of looking at the fetched filters in order and then moving the cursor; an empty batch has no effect |
| `Scanner.UntouchedAddsNothing` | adapters/wasabi/WasabiP2pClient.cs:290-296 | a block that neither pays the script nor spends a payment to it leaves the recorder as it is, so skipping it is safe |
| `Scanner.FullScanFinds` | adapters/wasabi/AdapterState.cs:104-149 | recording a stretch of blocks one by one finds exactly the paying outputs and the inputs that spend an outpoint paid by then |
| `Scanner.ScanIsDelivered` | adapters/wasabi/WasabiP2pClient.cs:274-314 | a filter-guided scan of a stretch of heights records exactly what recording all blocks delivered in it would |
| `Scanner.OnlyHitsAreFetched` | adapters/wasabi/WasabiP2pClient.cs:287-300 | only blocks of the heights to look at whose filter matches make a difference to a scan |
| `Scanner.ScanCompleteIff` | adapters/wasabi/WasabiP2pClient.cs:298-311 | a scan finds what a full scan finds if and only if every block with a match in it is delivered |
| `Scanner.ScansKeep` | adapters/wasabi/WasabiP2pClient.cs:262-314 | over any sequence of scans and of watches for scripts not watched before, with batches of any size, a growing store and other blocks delivered in each scan, every watch knows what recording the blocks gives that were delivered in the scan that covered them, and the matches are the union of that |
| `Scanner.ScansAgreeWithFullScan` | adapters/wasabi/WasabiP2pClient.cs:262-314 | after any such sequence every match is one that a full scan finds; a watch has all matches of its full scan if every block with one of them was delivered in the scan that covered it, and, if no other watch is for the same script, only if |
| `Scanner.LostForGood` | adapters/wasabi/WasabiP2pClient.cs:286-313 | once a block with a match has been passed over, no later scans bring it back for that watch, whatever is delivered then, unless the watch is added again |
| `Rescans.RescansFind` | adapters/wasabi/AdapterState.cs:73-80 | with watches that may be added again between scans: a watch has all matches of its full scan if every block with one of them was delivered in a scan since it was last added, and every match is a real one |
| `Rescans.StepsCover` | adapters/wasabi/WasabiP2pClient.cs:262-314 | from any state that covers what was scanned, any such sequence leads to one |
| `Rescans.RescanFindsLost` | adapters/wasabi/AdapterState.cs:73-80 | the concrete wallet that has lost its match finds it after the watch is added again |
| `Scanner.UndeliveredBlockIsLost` | adapters/wasabi/WasabiP2pClient.cs:298-313 | a concrete wallet that scans twice: the one block with a match is not delivered in the first scan and would be in the second, but the cursor is past it and the match stays missing |
| `Scanner.FoundByTwin` | adapters/wasabi/AdapterState.cs:73-80 | watches are kept by the text of the script: a concrete wallet with one script under two spellings, in which the second watch finds the match that the first has lost |
| `Scanner.QueryIsForScriptIff` | adapters/wasabi/AdapterState.cs:151-160 | the answer to a query is about its script if and only if no watch for another script has a match in the height range |
| `Scanner.QueryAnswersForAnotherScript` | adapters/wasabi/AdapterState.cs:151-160 | a concrete wallet in which the query for one script answers with a match of another |
| `Fixture.MineBlock` | chainlab/fixture.go:206-249 | the block with the first nonce that meets the target, or an error exactly if none below the largest does |
| `Fixture.FixtureBlocks` | chainlab/fixture.go:206-249 | every block of a fixture above the genesis block starts with a coinbase, commits to the block below and by its merkle root to its transactions, and is ten minutes later |
| `Fixture.BuildWalletFixture` | chainlab/fixture.go:51-157 | three linked blocks with linked filter headers and the two wallet transactions, which are where the expected matches say; or the height that cannot be mined |
| `Fixture.BuildLongWalletFixture` | chainlab/fixture.go:163-192 | a linked chain of exactly the target height with the same two wallet transactions; errors for a target below the tip and for a height that cannot be mined, and for nothing else |
| `Fixture.FixturesAgree` | chainlab/fixture.go:39-50 | fixtures are deterministic, and a longer one extends every shorter one |
| `Fixture.StuckForGood` | chainlab/fixture.go:241-249 | a height that cannot be mined is in no fixture |
| `Fixture.FixtureChainOk` | chainlab/fixture.go:118-131 | the scripts given to the filters besides the outputs include every script that the block spends |
| `Fixture.FixtureScan` | chainlab/fixture.go:138-157 | for every length, recording the fixture from height 0 or 1 on gives exactly the expected matches, in order |
| `WholeRun.WasabiFindsExpected` | chainlab/fixture.go:138-157 | a wallet that has scanned past height 2, with blocks 1 and 2 delivered in turn, has exactly the expected matches |
| `WholeRun.NakamotoFindsExpected` | chainlab/fixture.go:138-157 | the recorder for many scripts answers for the watched one with exactly the expected matches, in order |
| `Report.ReportBuilder.Upsert` | harness/runner.go:2115-2127 | the loop with its index of positions has exactly the effect of replacing known IDs in place and appending the others |
| `Report.UpsertedIds` | harness/runner.go:2115-2127 | no ID is lost or moved; new ones are appended in order, once for each time they come |
| `Report.UniqueIff` | harness/runner.go:2115-2127 | IDs stay unique if and only if no new ID comes twice in one call |
| `Report.NewIdTwice` | harness/runner.go:2121-2126 | a concrete call that leaves an ID in the report twice |
| `Report.LastWriteWins` | harness/runner.go:2115-2127 | what is found under an ID is the last replacement with it, and otherwise what was there |
| `Report.ReportIntegrity` | harness/runner.go:2115-2127 | over any sequence of calls whose new IDs are distinct in each call: IDs stay unique, none is lost, the last write wins |
| `Report.CatalogAsSkipped` | harness/runner.go:422-442 | every catalogued scenario and then the adapter scenario, in order, skipped and with the evidence text that says why; IDs are unique if and only if the catalogue's are and lack the adapter scenario's |
| `Score.Summarize` | score/score.go:54-73 | red exactly if a Must result failed or is unsupported, green exactly if every Must and Should result passed or was skipped, orange otherwise; the slice is sorted by ID, results with the same ID keeping their order |
| `Score.LessIff` | score/score.go:65-67 | the order of IDs is byte-wise lexicographic |
| `Score.ColorIsUnique` | score/score.go:54-63 | exactly one colour fits, whatever the order of the results |
| `Score.StableSortIsUnique` | score/score.go:65-67 | a stable sort has only one possible outcome |
| `Score.SummaryOrderFree` | score/score.go:54-73 | with unique IDs the whole summary does not depend on the order of the results |

## Left out

- Behavior.CompactFilterBehavior.ValidateFilters: does not promise that an emitted filter carries the block hash of its height, because the code copies the peer's value; `FaultEffects.BatchAcceptedIff` says exactly when it does.
- Behavior.CompactFilterBehavior.OnMessageReceived: the handlers of one connection run one at a time; handlers of different connections interleave between checking and reporting.
- SyncState.FilterSynchronizationState.GetNextFilterBatch: an empty channel gives nothing instead of waiting.
- SyncTheorems.NoWedge: needs that nobody is fetching the next range; a peer that stays connected and silent holds it until it is stale.
- Tiling.RangesTile: needs a fixed header tip and full batches, because tip growth, short answers and a clipped last range make ranges that overlap others or start off the grid.
- Handlers.CallsComplete: that peers do answer, and that a tick comes, is up to them and the clock; a connection that closes, or a new block, needs one more tick, from whose state the statement holds again.
- Scanner.ScansAgreeWithFullScan: a script is watched once; `Rescans` has watches that are added again between scans, where matches found before may make up for a block lost since, so only one direction holds.
- Rescans.RescansFind: a watch that is added again while a scan of it is under way, so that the scan moves the cursor that was just reset, is not part of this model.
- Scanner.WasabiP2pClient.ScanWatch: the filter store is a sequence of consecutive filters and a fetch is the stretch from the cursor; its code is not part of this model. The snapshot of a watch is a value, whose entry in the outpoint table exists.
- Fixture.BuildLongWalletFixture: a target of 2^32 - 1 is excluded, because the unsigned loop counter never exceeds it; errors of the filter library do not occur.
- Watchers.MultiRecorder.RecordBlock: match keys and outpoints are compared as tuples instead of formatted strings.
- Reorganisations: a detected one is the step that clears finished ranges; `IsReorg`, whose unsigned `start - 100 + 1` wraps for low tips, and the rewinding of chains are not modelled.
- Golomb-Rice coding, SipHash, SHA-256, merkle trees and proof of work: replaced by the functions and terms above.
- Block corruption, delays, transcripts, addresses and sockets of the simulated peer.
- Seed nodes, the RPC filter provider and the wiring in the first patch.
- HTTP handlers, JSON models, command lines, environments, the scenario catalogue and the per-scenario runners.
