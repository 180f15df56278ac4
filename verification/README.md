# hypercerts-relay: a verified model of its core

This project models, in Dafny, the parts of the repository that carry its promises, and
proves those promises for every input, every schedule or every run.

- **The replay client** (`jetstream/`): a consumer asks for the events after a cursor. The
  engine pages the sealed archive up to a pinned tip, cuts over to the live websocket tail,
  and goes back to the archive when the server calls its live cursor too old. The main
  theorem (`Engine.ReplayEngine.Run`): against a server that loses no rows and pages on
  work-unit boundaries, and a live endpoint without gaps, what the consumer is given is
  exactly the matching events of `(afterSeq, h]`, once each, in ascending order, across any
  number of pages, reconnects and re-backfills, and `h` is no choice of the engine's: it is the
  last number its last tail heard. With arbitrary page boundaries there is still no gap. With an
  arbitrary server the run still ends, nothing moves backwards, what is handed over is item by
  item what the pages and sessions held, and each way to end has its exact cause. That such
  servers exist is not left open: the archive's own planner is modelled (`Planner`) and proved
  to be one, for every archive, filter, density threshold and page cap, while the archive
  grows. `EndToEnd.ReplayArchive` puts the two together; of the server it asks only that the
  block filter is one-sided, that is, that it never rules out a block with a matching row; a run
  with a lasting connection reaches the end of the log.
  `BlockIndex` derives the filter's promise from how segments are sealed, and says exactly which rows
  it is not true for. `EndToEnd.ReplaySealedArchive` is the result without it: any number of
  runs over a sealed archive, each resuming from the cursor the crashed one before it saved,
  deliver together the list of one uninterrupted run.
- **The download pipeline**: framer, decode pool and reassembler as a step system, the block
  fetch pool in front of it as another, their product at the framer both share, and the
  framer's own loops; together they refine the sequential download the engine is proved with.
- **Segment fetching**: striped, resumable range requests that return one file generation or
  nothing, with the request budget and the retry schedule; a server that keeps bringing a part
  at a time, or replaces the file once, is served from to the end.
- **Yield safety and client lifecycle**: the run goroutine and the flusher goroutine share one
  consumer; runs of one client exclude each other and are ended by close.
- **The event fan-out and its persisters** (`events/`, `splitter/`): the crossover from
  playback to the live broadcast, and the chunked ring buffer as a refinement of a plain log.
- **The subscribeRepos frame codec**: the bytes of every frame against section 3 of RFC 8949,
  round trips, unknown fields and truncated input.
- **The administration journal** (`administration/server/`): compare-and-swap transitions by
  the API, one worker and crash recovery.

## How the model is built

Code that updates fields in place is a class whose methods are proved against
specification functions on values (`Matcher`, `Consumer`, `Batcher`, `LiveConsumer`,
`ReplayEngine`, `Fetcher`, `Framer`, `MemPersister`, `EventRingBuffer`, `OperationStore`,
`Worker`, `SegmentWalk`). Code whose difficulty is concurrency is a step system: a state, an `Enabled`
predicate, an `Apply` function, and `Runs`/`Final` over every sequence of enabled steps
(`Pipeline`, `BlockFetch`, `DownloadSystem`, `YieldSafety`, `Lifecycle`, `Fanout`, `Journal`).
Codecs and calculations are functions with lemmas.

The outside world is a parameter. A server is a function from the number of the call and the
request to the reply, a dialer from the number of the attempt and the wire cursor to a
session, a consumer a function from the number of the yield to its answer, a context a
function that says which channel operation loses to cancellation. Theorems quantify over
these functions; what a well-behaved one promises is a predicate on it (`HonestServer`,
`TidyServer`, `Steady`, `DialConforms`, `Willing`, `TruthfulServer`, `Obliging`), and each of
them is shown to hold of a concrete server (`Planner.Server`, `EndToEnd.Endpoint`,
`SegmentFetch.RangeServer`).

| file | contents |
|---|---|
| `event_log.dfy`, `matcher.dfy`, `delivery.dfy` | the log and exact delivery; the row filter; consumer and batcher |
| `live_tail.dfy`, `archive.dfy`, `sweep.dfy`, `engine.dfy`, `resume.dfy` | the replay engine, bottom up |
| `planner.dfy`, `block_index.dfy`, `end_to_end.dfy` | the archive's planner and its index, and the engine run against them |
| `framing.dfy`, `block_fetch.dfy`, `pipeline.dfy`, `download_system.dfy`, `download_refinement.dfy` | from plan entries to in-order results |
| `content_range.dfy`, `segment_fetch.dfy`, `backoff.dfy` | range requests and retries |
| `yield_safety.dfy`, `lifecycle.dfy` | threads around one consumer; runs of one client |
| `fanout.dfy`, `persisters.dfy` | the event manager and its logs |
| `cbor.dfy`, `event_frames.dfy` | the frame codec |
| `journal.dfy` | the operation journal |

## Where the code does not do what one would expect

- The comment on `retryBackoff` says its guard is equivalent to comparing the shifted base
  with the cap. It is not: `Backoff.EarlyCap` gives exactly when it jumps to the cap early,
  `Backoff.EarlyCapHappens` an instance. The bound and the monotonicity hold regardless.
- `Subscribe` with a cursor beyond the log can deliver events at or before the cursor, because
  the live copy does not look at it. `Fanout.ServedExactlyUpToBound` gives the exact bound.
- An event persisted between the first playback and joining the broadcast waits for the next
  event to be written: `Fanout.LateEventWaits`. A subscriber at rest is incomplete exactly when
  it is still waiting for its first live event with a wanted one in the log:
  `Fanout.RestingExactly`.
- A Retry-After number of seconds is multiplied in 64 bits and can wrap to a short wait, and a
  negative one to a positive wait: `Backoff.DeltaHonoured` gives exactly which numbers are
  honoured, `Backoff.DeltaWraps` one of each sign that is not.
- The client lets a commit without a collection through its collection filter; the index that
  selects blocks does not know such a row, so the planner's "no false negatives" does not hold
  for it. `BlockIndex.LostExactly` gives exactly when a block with a wanted row is not selected,
  `BlockIndex.HiddenExactly` which rows cause it, `BlockIndex.BareCommitIsLost` an instance.
  For rows of known kinds whose commits carry a collection the contract holds:
  `BlockIndex.OneSided`.
- The planner accepts block ranges that overlap or go backwards, so "each listed block once,
  ascending" holds exactly for ascending disjoint ranges: `Framing.BlocksAscendExactly`, with
  `Framing.OverlapRepeats` as an accepted reply that repeats a block.
- A sync event with an empty, present `blocks` comes back with it absent, and this is the only
  difference a round trip makes: `EventFrames.FrameRoundTripExact`.
- A ring buffer answers a cursor like the full log exactly when nothing after the cursor has
  been evicted: `Persisters.EventRingBuffer.PlaybackRefines`.

## Model

| member | source | states |
|---|---|---|
| `EventLog.ExactIffWindow` | jetstream/client.go:46-54 | a delivery is exact for a range if and only if it is the one list of matching log events of that range in ascending order; ties the set-style and the list-style reading of "every event once, in order" |
| `EventLog.ExactConcat` | jetstream/client_core.go:456-477 | exact deliveries of adjacent ranges concatenate to an exact delivery of the whole: no gap and no repeat at the seam |
| `EventLog.ExactPrefix` | jetstream/client.go:46-54 | every prefix of an exact delivery is exact up to its own last sequence number |
| `RowMatcher.Matcher.constructor` | jetstream/filter.go:41-72 | the built sets and prefixes represent the request's filters, wildcards split off |
| `RowMatcher.Matcher.WantsSeq` | jetstream/filter.go:162-176 | the sequence window: above the floor unless it is zero, and at most the upper bound if there is one |
| `RowMatcher.Matcher.Wants` | jetstream/filter.go:89-130 | for every event the matcher's maps and prefixes decide the same as the request's own filter list, including the account-level and collection-less bypasses |
| `RowMatcher.Matcher.SetAfterSeq` | jetstream/filter.go:158-160 | only the floor moves |
| `RowMatcher.ResolvedDecides` | jetstream/filter.go:59-70 | some filter entry matches a collection if and only if the resolved sets do |
| `Delivery.Transform` | jetstream/engine.go:144-165 | chunking a block into batches keeps every event in order; each batch has 1 to size events |
| `Delivery.Consumer.Emit` | jetstream/engine.go:189-211 | a yield happens only while no earlier answer was to stop; the items seen grow by exactly that yield |
| `Delivery.Consumer.EmitBlock` | jetstream/engine.go:166-187 | a block is handed over batch by batch, the batches as they are; what was handed over is a prefix of it, all of it unless refused |
| `Delivery.Batcher.Add` | jetstream/batcher.go:63-74 | an accepted event joins the ledger in order; a batch goes out when it is full and not before; inert once stopped |
| `Delivery.Batcher.FlushLocked` | jetstream/batcher.go:110-127 | a flush is one call with the whole buffer, or none if it is empty; nothing accepted is dropped or reordered |
| `Delivery.Batcher.Flush` | jetstream/batcher.go:104-108 | the same for the timer's flush |
| `Delivery.Batcher.EmitError` | jetstream/batcher.go:82-100 | an error never overtakes events accepted before it: the buffer goes out first, then the error, and nothing after a stop |
| `Delivery.Batcher.EmitBlock` | jetstream/client_core.go:431-454 | the fast path keeps the ledger in order because nothing is buffered |
| `LiveTail.LiveConsumer.constructor` | jetstream/live.go:137-185 | the deduplication floor is the seeded last sequence number |
| `LiveTail.LiveConsumer.Deliver` | jetstream/live.go:307-319 | frames at or below the last sequence number are dropped, others advance it, and exactly the wanted ones are accepted |
| `LiveTail.LiveConsumer.OnData` | jetstream/live.go:307-319 | one data frame moves the mark as the session function says, hands on exactly the wanted event, and keeps the delivery sound, and exact in a gapless session |
| `LiveTail.LiveConsumer.OnOther` | jetstream/live.go:259-306 | a frame that is not an event moves nothing; a malformed one is handed on as an error |
| `LiveTail.LiveConsumer.RunSession` | jetstream/live.go:252-321 | one session reads every frame up to a terminal one: the last number heard and the items handed on are exactly those of its readable frames, a prefix of them after a stop; strictly increasing events above the floor for any server, and for a gapless one exactly the matching events up to the new last number |
| `LiveTail.LiveConsumer.Attempt` | jetstream/live.go:187-245 | one connection attempt asks on from what was heard, runs its session, and reports a transient end before the next |
| `LiveTail.LiveConsumer.Run` | jetstream/live.go:187-245 | across any number of attempts: each asks on from what was heard before, the last number and the items handed on are exactly those of all the sessions, and it stops only when refused for good, stopped by the consumer or cancelled |
| `LiveTail.TailHeard` | jetstream/live.go:307-319 | the last number of a tail is at least that of every data frame before a terminal one, in every session |
| `LiveTail.CaughtFrame` | jetstream/live.go:307-319 | one frame of a gapless session keeps the delivery exact, duplicates and out-of-range frames included |
| `Archive.PlanFromOutput` | jetstream/planner.go:153-176 | a reply is accepted exactly when 0 <= plannedThroughSeq <= sealedTipSeq and every segment in it is well-formed, and its numbers and blocks become the plan |
| `Archive.PageExact` | jetstream/client_core.go:456-477 | a page that misses nothing and ends on work-unit boundaries delivers exactly the matching events of its range |
| `Archive.PageCovers` | jetstream/client_core.go:456-477 | with arbitrary boundaries it still misses none |
| `Archive.SelectRows` | jetstream/downloader.go:683-698 | the rows kept before decoding are the wanted ones, in order |
| `Archive.AddRows` | jetstream/client_core.go:414-427 | the per-event path accepts the kept rows in order whatever timer flushes happen in between |
| `Archive.EmitResult` | jetstream/client_core.go:413-454 | on either path a result's valid rows come first and its error after them; both paths accept the same items |
| `Archive.Download` | jetstream/downloader.go:184-233 | a page accepts its blocks' items in plan order, exactly those before the block it was cancelled at, all of them otherwise; a prefix if the consumer stopped |
| `DownloadRefinement.PipelineRefinesPage` | jetstream/downloader.go:184-233 | for every plan, decoder and schedule of framer, workers and reassembler the items emitted are a prefix of the sequential page, and all of it unless cancelled |
| `DownloadRefinement.EmittingDelivers` | jetstream/downloader.go:615-644 | emitting in order the frames that hold something delivers the page up to there |
| `Archive.DeliverPage` | jetstream/client_core.go:542-561 | for a consumer that never stops the yields flatten to the page's items and every batch has 1 to size events |
| `Archive.PathsAgree` | jetstream/client_core.go:413-454 | the fast path refines the per-event path: same flattened yields, errors in position |
| `Sweep.TilesBound` | jetstream/client_core.go:478-532 | pages that tile a range below a pinned tip number at most tip - start |
| `Sweep.HonestBounds` | jetstream/client_core.go:478-532 | no page of an honest server reaches past the pinned tip or the caller's upper bound |
| `Sweep.SweepPage` | jetstream/client_core.go:478-532 | one more page, whole or cut short, keeps the sweep's delivery exact up to some point, the page's end if whole |
| `Sweep.SweepPageCovers` | jetstream/client_core.go:478-532 | one more whole page leaves no gap |
| `Engine.PageStep` | jetstream/client_core.go:478-532 | the sweep's invariant across one page: tiling, the page bound, exactness and the done predicate |
| `Engine.ServerPage` | jetstream/client_core.go:478-532 | each page a sweep asks for inherits what its server promises for such calls, ends where the next may start, and is pinned where no unit straddles |
| `Engine.SweepingPage` | jetstream/client_core.go:478-532 | the two together, for a page answered by the server |
| `Engine.ReplayEngine.SweepOnePage` | jetstream/client_core.go:497-514 | downloading one answered page hands on exactly its items and carries the sweep's promises across it |
| `Engine.ReplayEngine.SweepSealedArchive` | jetstream/client_core.go:478-532 | ends for every sequence of replies within max(1, tip - start) pages; the pages are the server's answers to consecutive calls and their items are what is handed on; done, cancelled and failed each have their exact cause; done means the pages tile (start, tip] and nothing is missing; a server that answers the sweep's own calls and a willing consumer always get there |
| `Engine.ReplayEngine.TailLiveFromCutover` | jetstream/client_core.go:721-749 | resumes at or after the cutover, at the last number heard, hands on exactly the sessions' items, and delivers exactly from the cutover |
| `Engine.ReplayEngine.RunCycle` | jetstream/client_core.go:600-662 | one sweep, cutover and tail extend the delivery from the cursor; the items handed on are those of the pages, the sessions and the error it ended with; it goes again exactly when the endpoint called its cursor too old, fails exactly when a plan failed or the endpoint refused the request, and a steady server's cycle always reaches its tail |
| `Engine.Report` | jetstream/client_core.go:600-689 | a failure is handed to the consumer after everything else, unless it has stopped |
| `Engine.SentBackSnoc` | jetstream/client_core.go:634-702 | every cycle but the last swept to the tip its opening call was told, tailed from there, resumed at the last number heard, and was sent back by a cursor that was too old |
| `Engine.CyclesSnoc` | jetstream/client_core.go:690-702 | cursor <= cutover <= resume in every cycle, each cycle starting where the last one resumed, and fewer than five cycles in a row without progress |
| `Engine.ReplayedCut` | jetstream/client_core.go:600-612 | a sweep cut short leaves the whole delivery exact up to some point |
| `Engine.ReplayedSweep` | jetstream/client_core.go:629-632 | a completed sweep carries the delivery to the higher of tip and cursor |
| `Engine.ReplayedTail` | jetstream/client_core.go:632-646 | the live tail carries it on from the cutover |
| `Engine.ReplayEngine.RunBackfillThenLive` | jetstream/client_core.go:582-709 | the run ends for every server; delivery is exact (or gapless) from afterSeq, and item by item what the pages and sessions of all cycles hand on, then the error it ended with; it goes back to the archive exactly when sent back; at most five stalls in a row; it ends with a rejected request only if the endpoint refused it, with a failed plan only if a call was unusable, and a steady server is followed to the tail and what that heard |
| `Engine.ReplayEngine.RunBackfillOnly` | jetstream/client_core.go:542-561 | a dump is an exact (or gapless) delivery from afterSeq, with or without an upper bound, and item by item what its pages hold; a steady server is dumped to its tip, and it fails exactly when a plan does |
| `Engine.ReplayEngine.RunLiveOnly` | jetstream/client_core.go:279-347 | a live tail is exact from its saved cursor, or from the tip of its last connection without one, up to the last number heard, and hands on exactly the sessions' items; ascending and above the cursor for any server; it fails exactly when refused for good |
| `Engine.ReplayEngine.Run` | jetstream/client_core.go:245-275 | in all three configurations every later iteration on one client gives the same guarantees, whatever floor, stall count and progress an earlier one left |
| `Planner.Stop` | jetstream/internal/manifest/plan.go:196-264 | a page ends before the first unit past its cap, and holds no more units than the cap |
| `Planner.TipIsHighest` | jetstream/internal/manifest/plan.go:145-174 | the tip is the highest sealed number, or the upper bound if that comes first |
| `Planner.Frugal` | jetstream/internal/manifest/plan.go:196-264 | a row is shipped only with a block that window and filter select, or with a segment whose selected blocks reach the density threshold |
| `Planner.TruncatedPage` | jetstream/internal/manifest/plan.go:186-264 | a truncated page ends past its cursor and below the tip, also with an upper bound inside a unit |
| `Planner.ThroughIsCut` | jetstream/internal/manifest/plan.go:176-184 | its end separates units: the next page, under any bound a sweep sends, ships nothing at or below it, whichever way segments switch between whole and block mode |
| `Planner.SealIsGrid` | jetstream/internal/manifest/plan.go:145-174 | no unit straddles the sealed tip |
| `Planner.PlannerIsHonest` | jetstream/internal/manifest/plan.go:105-108 | with a block filter that loses nothing, every call's plan loses no matching row and stays below its bound |
| `Planner.PlannerIsTidy` | jetstream/internal/manifest/plan.go:108-266 | every page of a sweep keeps to the units' boundaries |
| `Planner.PlannerIsSteady` | jetstream/internal/manifest/plan.go:108-266 | every call of a sweep gets a usable answer that advances or finishes, while the archive grows |
| `BlockIndex.SegmentWalk.InternCollection` | jetstream/segment/seal.go:251-267 | a name gets one id for good; a block's ids stay exactly those of its names, and it is refused only when 32 bits cannot number it |
| `BlockIndex.SegmentWalk.IndexEventCollection` | jetstream/segment/seal.go:277-290 | a row is indexed under its collection and its marker name, if it has them, and nothing else |
| `BlockIndex.SegmentWalk.AddBlock` | jetstream/segment/seal.go:327-412 | a block's sequence range, DIDs and collection ids are those of its rows, earlier blocks stay described as the table grows, and it is refused only when 32 bits cannot number the blocks or the names |
| `BlockIndex.SegmentWalk.Walk` | jetstream/segment/seal.go:307-412 | the walk succeeds exactly when blocks and names fit 32 bits, and has then indexed the blocks before the first empty one |
| `BlockIndex.Filled` | jetstream/segment/seal.go:427-430 | a bloom filter has exactly the bits of what was added, in whatever order, and lets all of it through |
| `BlockIndex.BlockBlooms` | jetstream/segment/seal.go:436-461 | every block's filter has exactly the bits of its DIDs, at the capacity the largest block needs |
| `BlockIndex.Seal` | jetstream/segment/seal.go:307-461 | sealing succeeds exactly when blocks and names fit 32 bits; the table holds exactly the names of the rows, each block's ids are exactly those of its names, and both kinds of filter have exactly the bits of the DIDs |
| `BlockIndex.CollectionCandidates` | jetstream/internal/manifest/plan.go:379-418 | the ids included, the marker ids and the flags sort the table by the request's kinds, names and namespaces |
| `BlockIndex.EmptyExactly` | jetstream/internal/manifest/plan.go:375-377 | a segment is skipped exactly when no name of its table is wanted |
| `BlockIndex.BlockHasAnyCandidate` | jetstream/internal/manifest/plan.go:453-468 | true exactly for a block with a wanted name, or one nothing is known of |
| `BlockIndex.SelectPlanBlocks` | jetstream/internal/manifest/plan.go:294-325 | the blocks in the window that the index selects, all of them, ascending; leaving early changes nothing |
| `BlockIndex.HiddenExactly` | jetstream/filter.go:110-121 | a row the client wants is found by its names unless it is a commit without a collection, of an unknown kind, or named like a marker |
| `BlockIndex.LostExactly` | jetstream/internal/manifest/plan.go:105-107 | a block with a wanted row is not selected if and only if kinds or collections are asked for and no row of it is found by its names |
| `BlockIndex.OneSided` | jetstream/internal/manifest/plan.go:105-107 | no false negatives for known kinds and commits with a collection, whatever blooms or block summaries are missing |
| `BlockIndex.BareCommitIsLost` | jetstream/filter.go:117-120 | a commit without a collection passes the client's filter and its block is not selected |
| `BlockIndex.SealedArchiveQualifies` | jetstream/internal/manifest/plan.go:293-468 | an archive sealed from such rows meets all the planner's theorems ask for, for every request |
| `EndToEnd.ReplayConforms` | jetstream/live.go:252-321 | any initial part of a replay from a cursor is gapless |
| `EndToEnd.EndpointConforms` | jetstream/live.go:252-321 | an endpoint that replays the log from the cursor, breaking off and refusing old cursors at will, is gapless |
| `EndToEnd.ReplayArchive` | jetstream/client_core.go:582-709 | for every archive, filter, page cap, connection and consumer: exactly the matching events of (afterSeq, h]; for a consumer that never stops h is at least every number sealed at the start, the run goes back to the archive only when sent back, h is the last number its last tail heard, and the end of the log if no cursor was too old and one connection lasted |
| `EndToEnd.HeardTheEnd` | jetstream/client_core.go:582-709 | a run whose endpoint finds no cursor too old and keeps one connection up has reached the end of the log |
| `EndToEnd.NeverSentBack` | jetstream/client_core.go:634-702 | a run whose first endpoint finds no cursor too old has one cycle |
| `EndToEnd.LastingSession` | jetstream/live.go:252-321 | a tail with one connection that lasts has heard the end of the log |
| `Resume.LastCursor` | jetstream/client.go:46-54 | the highest sequence number of a batch, zero for an empty one |
| `Resume.ExactAtEveryMoment` | jetstream/client.go:46-54 | after every yield the consumer holds exactly the matching events up to some point |
| `Resume.LastCursorIsHorizon` | jetstream/client.go:46-54 | that point is the last batch's cursor |
| `Resume.SaveCursor` | jetstream/client.go:46-54 | a consumer that saves each batch's cursor has, whenever it stops, saved exactly how far it got, failures in between included |
| `Resume.CrashAndResume` | jetstream/client.go:46-54 | cutting a run after any batch and starting afresh after its last cursor gives the list of an uninterrupted run |
| `EndToEnd.ReplayWithCrashes` | jetstream/client.go:46-54 | any number of engine runs over a growing archive, each cut after any yield and resumed from the saved cursor: together exactly the list of one uninterrupted run up to that cursor, and as far as one run left alone gets if the last one is |
| `EndToEnd.ReplaySealedArchive` | jetstream/internal/manifest/plan.go:105-107 | the same with the planner's own index as the block filter, for rows of known kinds whose commits carry a collection |
| `Framing.PlanEntryFromSegment` | jetstream/planner.go:178-223 | accepts exactly the well-formed segments, and narrowing changes no index or range |
| `Framing.BlockListMembers` | jetstream/downloader.go:483-509 | the blocks listed are exactly those inside some range |
| `Framing.BlocksAscendExactly` | jetstream/downloader.go:483-509 | they ascend without repetition if and only if the ranges ascend disjointly |
| `Framing.OverlapRepeats` | jetstream/planner.go:204-217 | overlapping ranges pass validation and list a block twice |
| `Framing.EnqueueEntryBlocks` | jetstream/downloader.go:483-509 | one token, job and future per listed block in order, also for ranges ending at the 32-bit maximum; a cancelled entry stopped at the first channel operation that lost, with exactly the operations before it done |
| `Framing.EntryJobs` | jetstream/downloader.go:339-367 | an entry dispatches its good prefix, then exactly one error if a block failed, then nothing |
| `Framing.Framer.FrameBlocks` | jetstream/downloader.go:339-367 | consuming futures dispatches just that and gives one token back per future, drained or not; it gives up only at a result that came too late or a job that was not taken |
| `Framing.Framer.FrameWholeSegment` | jetstream/downloader.go:308-324 | a whole file is sliced the same way; a header error is the entry's only job |
| `Framing.Framer.RunFramer` | jetstream/downloader.go:250-303 | the plan's jobs are the entries' jobs in order; a prefix of them under cancellation, and only then |
| `Framing.OthersUnaffected` | jetstream/downloader.go:283-302 | changing one entry's outcome changes its own jobs and no other entry's |
| `BlockFetch.PoolSize` | jetstream/downloader.go:379-381 | the smaller of 64 and twice the concurrency, never empty for a positive one |
| `BlockFetch.StepInv` | jetstream/downloader.go:424-509 | tokens count the blocks under way and never exceed twice the pool |
| `BlockFetch.RequestedOnceInOrder` | jetstream/downloader.go:424-509 | in every schedule, cancelled or not, each block is requested once, in plan order, fetched blocks not yet consumed stay within twice the pool, and the schedule has at most six steps a block |
| `BlockFetch.NoDeadlock` | jetstream/downloader.go:424-509 | coordinator, workers and framer never all block before everyone has left, cancelled or not |
| `BlockFetch.DrainedMeansAllRequested` | jetstream/downloader.go:424-509 | an uncancelled run that has ended requested and consumed every block and all tokens are back |
| `Pipeline.InFlightWindow` | jetstream/downloader.go:240-242 | the larger of 4 and twice the concurrency |
| `Pipeline.StepInv` | jetstream/downloader.go:184-277 | every step keeps the window, the channel bounds and the reorder buffer right, and strictly reduces the work left |
| `Pipeline.NoDeadlock` | jetstream/downloader.go:250-277 | until the reassembler is done some stage can step, cancelled or not |
| `Pipeline.DownloadInOrder` | jetstream/downloader.go:558-644 | for every interleaving, cancellation included: results are a prefix of plan order without repetition, the frames dispatched and not released are exactly [next, seq), at most the window of them, the run is bounded, and an uncancelled finish emitted everything |
| `Pipeline.RefusalIsFinal` | jetstream/downloader.go:615-644 | in every run, the frame the consumer refused is the last one emitted and everything is cancelled from there on |
| `Pipeline.CancelledExactly` | jetstream/downloader.go:615-644 | a run is cancelled exactly when the caller cancelled it or an emitted frame was refused |
| `DownloadSystem.StepInv` | jetstream/downloader.go:339-367 | every step of the joined system keeps both halves' invariants and their agreement on what the framer has taken and dispatched, and is progress |
| `DownloadSystem.CanStep` | jetstream/downloader.go:250-367 | until everyone has left someone can move, the framer's waits for a future and for the decode window included |
| `DownloadSystem.DownloadMakesProgress` | jetstream/downloader.go:184-509 | for every schedule of coordinator, fetch workers, framer, decode workers and reassembler, cancellation and refusals included: no deadlock, a bound on its length, plan-order results and requests, and all of both at an uncancelled end |
| `DownloadSystem.RefinesPipeline` | jetstream/downloader.go:250-367 | the decode half of every run of the joined system is a run of the pipeline alone |
| `DownloadSystem.RefusalIsFinal` | jetstream/downloader.go:615-644 | a refusal ends the whole download: nothing is emitted after it and the fetch pool is cancelled too |
| `DownloadSystem.CancelledExactly` | jetstream/downloader.go:184-233 | both pools are cancelled together, by the caller or by a refusal and for no other reason |
| `Pipeline.AllReleased` | jetstream/downloader.go:615-644 | an uncancelled finish released every frame |
| `ContentRange.Parse` | jetstream/segmentfetch.go:645-673 | an accepted header names a consistent range |
| `ContentRange.ParseRendered` | jetstream/segmentfetch.go:645-673 | every consistent range within 64 bits, rendered, is read back |
| `ContentRange.ParseExactly` | jetstream/segmentfetch.go:645-673 | a header is accepted exactly when it spells out, around its first dash and slash, three numbers that make a consistent range |
| `ContentRange.DigitsExactly` | jetstream/segmentfetch.go:645-673 | exactly the non-empty strings of digits are numbers |
| `SegmentFetch.ReadFull` | jetstream/segmentfetch.go:306-325 | reads as much as there is into its place and touches nothing else |
| `SegmentFetch.Outcome` | jetstream/segmentfetch.go:292-325 | what one range response comes to, by status, validator and length: complete, worth retrying, changed or refused |
| `SegmentFetch.OfferOutcome` | jetstream/segmentfetch.go:292-325 | a server that offers a file in chunks never fails for good, and brings at least a chunk or what is missing |
| `SegmentFetch.Fetcher.ReadRangeInto` | jetstream/segmentfetch.go:292-325 | against any server: one request, bytes kept only from a partial response under the expected validator, and the outcome that response comes to; from a truthful one they are the generation's |
| `SegmentFetch.Fetcher.FetchRemainderResumable` | jetstream/segmentfetch.go:247-287 | against any server: each request starts after every byte already received; at most attempts * ceil(missing / partSize) requests, exactly one when a single attempt is allowed; it gives up only after a refusal or after as many requests in a row as there are attempts that each brought less than a part; a server that brings a part or what is missing each time is served from to the end; from a truthful server success means the whole generation |
| `SegmentFetch.DrySpell` | jetstream/segmentfetch.go:247-287 | exactly the last so many requests brought less than a part each |
| `SegmentFetch.RefundBound` | jetstream/segmentfetch.go:247-287 | refunds happen only after a part's worth of new bytes, so there are fewer than ceil(missing / partSize) |
| `SegmentFetch.BudgetBound` | jetstream/segmentfetch.go:247-287 | spent and refunded attempts never exceed the request bound |
| `SegmentFetch.Fetcher.FetchPartAttempts` | jetstream/segmentfetch.go:336-391 | against any server the budget holds, retries happen exactly after transient outcomes and the last outcome is the verdict; the rest of the buffer is left alone; from a truthful one the part holds its bytes of the generation |
| `SegmentFetch.Fetcher.ReadFullBody` | jetstream/segmentfetch.go:528-547 | a complete body is one generation |
| `SegmentFetch.WholeVerdict` | jetstream/segmentfetch.go:430-450 | what one plain response comes to, by status, length and whether it ended cleanly |
| `SegmentFetch.Fetcher.FetchWholeFallback` | jetstream/segmentfetch.go:400-450 | against any server the budget holds and retries happen exactly after transient outcomes; a truthful one's download is one generation |
| `SegmentFetch.Fetcher.ProbeWithRetry` | jetstream/segmentfetch.go:467-492 | against any server the probe is sent again exactly after a retryable answer while the budget lasts |
| `SegmentFetch.Fetcher.ReadProbeBody` | jetstream/segmentfetch.go:185-202 | the probe's part, filled up if short, is the first part of the probe's generation; against any server it costs fewer requests than the attempts |
| `SegmentFetch.Fetcher.FetchStripe` | jetstream/segmentfetch.go:223-228 | a part writes its own bytes and no others, and a server that offers the file in parts fills it |
| `SegmentFetch.Fetcher.FetchStripes` | jetstream/segmentfetch.go:218-233 | in whatever order parts finish they cover the rest of the file exactly, within attempts * ceil(rest / partSize) requests of any server |
| `SegmentFetch.Fetcher.FetchRest` | jetstream/segmentfetch.go:207-233 | one stream or stripes: either way the rest of the generation, within attempts * ceil(largest file / partSize) requests of any server, and without fail from a server that offers it |
| `SegmentFetch.RangeServerQualifies` | jetstream/segmentfetch.go:125-233 | a server of one file that honours ranges and If-Range, however short it breaks off its answers, is truthful and offers that file |
| `SegmentFetch.ReplacedServerQualifies` | jetstream/segmentfetch.go:109-123 | so is one whose file is replaced after any number of requests, before the change and after it |
| `SegmentFetch.Fetcher.FetchRanged` | jetstream/segmentfetch.go:160-233 | the probe's part and the rest are one generation; a change on the way is reported as such |
| `SegmentFetch.Fetcher.FetchSegmentGeneration` | jetstream/segmentfetch.go:125-233 | bytes returned are one generation of the file; against any server the requests stay within twice the attempts plus attempts * ceil(largest file / partSize) |
| `SegmentFetch.Fetcher.FetchSegment` | jetstream/segmentfetch.go:109-123 | whatever mix of short reads, full responses and retries: returned bytes are one single generation, byte for byte; a server that offers the file, or replaces it once and offers the new one, is always served from; no server gets more requests than the generation attempts times the bound of one |
| `Backoff.ParseRetryAfter` | jetstream/segmentfetch.go:608-626 | the headers' wait, RateLimit-Reset before Retry-After, lies between zero and the cap, unchanged inside it |
| `Backoff.HeadersRead` | jetstream/segmentfetch.go:608-626 | a reset other than zero comes before Retry-After, a date counts from now, and without either there is no wish |
| `Backoff.DeltaHonoured` | jetstream/segmentfetch.go:616-620 | for every 64-bit number of seconds, negative ones included: it is clamped as it should be exactly when its product does not wrap across a clamp |
| `Backoff.DeltaWraps` | jetstream/segmentfetch.go:616-620 | a number of seconds whose wait wraps to a fraction of one, and a negative one that is waited for |
| `Backoff.ScheduleBounded` | jetstream/segmentfetch.go:627-643 | each scheduled delay is base * 2^(attempt-1) or the cap, and no shift overflows |
| `Backoff.DelayBounded` | jetstream/segmentfetch.go:628-643 | every delay lies between zero and the cap, header or not |
| `Backoff.DelayHonours` | jetstream/segmentfetch.go:628-643 | the delay is the longer of the server's wish and the schedule |
| `Backoff.DelayNonDecreasing` | jetstream/segmentfetch.go:628-643 | delays never shrink from one attempt to the next |
| `Backoff.EarlyCap` | jetstream/segmentfetch.go:628-643 | for every base and attempt: exactly when the schedule is at the cap although the shifted base is below it |
| `Backoff.EarlyCapHappens` | jetstream/segmentfetch.go:628-643 | a base and attempt for which it does |
| `YieldSafety.StepInv` | jetstream/batcher.go:63-127 | every step of either thread keeps the mutex, the empty buffer during sweeps, the consumer's discipline and the delivery order; after a stop nothing more is delivered |
| `YieldSafety.YieldsAreSerialized` | jetstream/engine.go:115-213 | in every two-thread run yields never overlap, only the last answer may be to stop, the buffer is empty during sweeps and never full, and delivery is acceptance order with nothing lost before a stop |
| `YieldSafety.NoYieldAfterRefusal` | jetstream/engine.go:166-211 | after a refusal neither thread yields again |
| `YieldSafety.NothingAfterReturn` | jetstream/client_core.go:363-392 | once the run has returned no thread can step, and an unstopped run delivered all it accepted |
| `YieldSafety.FlushedAll` | jetstream/batcher.go:104-127 | a timer flush that succeeded has handed over everything accepted so far |
| `YieldSafety.NothingForgotten` | jetstream/client_core.go:363-454 | every event and error the run goroutine asked for is delivered, buffered or still in its hands, in that order; a run that returned unstopped delivered all of them, a stopped one a prefix |
| `Lifecycle.OneRunAtATime` | jetstream/engine.go:90-113 | at most one run of a client is active; a rejected one never is |
| `Lifecycle.Admitted` | jetstream/engine.go:90-113 | a run becomes active exactly when the client is open and no other run is, and is rejected exactly when another one is |
| `Lifecycle.CloseIsFinal` | jetstream/engine.go:215-228 | after a close no run becomes active, and once every close has returned a run still active has been cancelled |
| `Lifecycle.OpenUndisturbed` | jetstream/engine.go:90-113 | only a close cancels a run that is still active |
| `Fanout.StepInv` | events/events.go:338-437 | the live channel is a contiguous run of the log that joins up with what playback has read |
| `Fanout.StepDelivered` | events/events.go:338-437 | what the subscriber was sent is the wanted part of the log read so far |
| `Fanout.SubscribeExact` | events/events.go:338-437 | with writers running, through both playbacks, live copy, overflow and close: the channel carries a prefix of the events after the cursor, in order and once each, and all of them once nothing is in flight |
| `Fanout.CutOffExactly` | events/events.go:70-120 | a subscriber is cut off exactly by a broadcast that finds 16384 events waiting |
| `Fanout.FutureCursorDelivers` | events/events.go:338-437 | every cursor above the bound has a schedule that delivers an event at or before it |
| `Fanout.ServedExactlyUpToBound` | events/events.go:338-437 | a cursor is served correctly in every schedule if and only if it is at most the bound |
| `Fanout.LateEventWaits` | events/events.go:395-407 | an event persisted before the join stays undelivered until another is broadcast |
| `Fanout.RestingExactly` | events/events.go:395-437 | a subscriber at rest has everything after its cursor, except exactly when it waits for its first live event with a wanted one in the log |
| `Fanout.ComesToRest` | events/events.go:338-437 | without further writes and closes every schedule ends: each step is progress towards rest, so its length is bounded |
| `Fanout.RestIsReached` | events/events.go:338-437 | and every run can be continued to rest without them |
| `Fanout.PlaybackRealised` | events/events.go:369-395 | handing on the log up to a point past its start is a run of the subscription: writers' steps, reads and the end of the playback |
| `Persisters.MemPersister.Persist` | events/persist.go:38-61 | numbers events consecutively and appends |
| `Persisters.MemPersister.Playback` | events/persist.go:63-80 | plays exactly the events after the cursor |
| `Persisters.AppendToLast` | splitter/ringbuf.go:44-65 | filling the last chunk keeps a suffix of everything persisted |
| `Persisters.AppendChunk` | splitter/ringbuf.go:44-65 | so does opening a chunk once the last one is full |
| `Persisters.DropFirst` | splitter/ringbuf.go:44-65 | so does dropping the oldest chunk |
| `Persisters.EventRingBuffer.Persist` | splitter/ringbuf.go:44-65 | keeps a suffix of the log in full chunks but the last, at most the maximum many, evicting only at the maximum |
| `Persisters.EventRingBuffer.ChunksHeld` | splitter/ringbuf.go:44-65 | holds min(ceil(N / chunkSize), max) chunks, none empty |
| `Persisters.EventRingBuffer.ScanBack` | splitter/ringbuf.go:95-106 | the backward scan stops behind the last chunk that lies entirely before the cursor |
| `Persisters.SkippedAreOld` | splitter/ringbuf.go:95-106 | chunks skipped by the backward scan hold nothing after the cursor |
| `Persisters.EventRingBuffer.PlaybackRound` | splitter/ringbuf.go:89-132 | with writers going on, one round calls back exactly the retained events after the cursor plus those found up to the first look at the newest chunk that finds nothing more, in order |
| `Persisters.EventRingBuffer.Playback` | splitter/ringbuf.go:71-87 | with writers and eviction going on, one to ten rounds call back exactly what the log held after the cursor, up to a point past where the last round began, and up to just there if it ended before the tenth, unless something after the cursor was evicted; then it realises the first playback of a subscription |
| `Persisters.Continue` | splitter/ringbuf.go:71-87 | going on from the last event called back misses and repeats nothing |
| `Persisters.EventRingBuffer.PlaybackRefines` | splitter/ringbuf.go:71-132 | the ring answers like the whole log if and only if nothing after the cursor was evicted |
| `Cbor.HeadRoundTrip` | events/cbor_gen.go:21-87 | every major type and 64-bit argument is read back, and exactly its bytes are consumed |
| `Cbor.HeadCanonical` | events/cbor_gen.go:89-176 | a head is accepted only in its shortest form: it is the encoding of what was read |
| `Cbor.HeadOnWire` | events/cbor_gen.go:21-87 | by literals of RFC 8949: major type in the upper three bits, the argument or its width in the lower five, then the argument's bytes by position |
| `Cbor.BigEndianAt` | events/cbor_gen.go:21-87 | byte i of a k-byte argument is n / 256^(k-1-i) mod 256 |
| `Cbor.NegativeArgExact` | events/cbor_gen.go:21-87 | the two's complement argument of a negative number is right down to the minimum |
| `Cbor.IntRoundTrip` | events/cbor_gen.go:89-176 | int64 round-trips over its whole range |
| `Cbor.ValueRoundTrip` | api/atproto/cbor_gen.go:938-1075 | text, numbers, booleans and byte strings within their limits round-trip |
| `Cbor.ValueOnWire` | api/atproto/cbor_gen.go:938-1075 | text is major type 3, byte strings 2, integers 0 and 1, and true, false and null are single bytes |
| `Cbor.NameOnWire` | events/cbor_gen.go:21-87 | a short name is 0x60 plus its length, then its letters |
| `Cbor.FieldsRoundTrip` | api/atproto/cbor_gen.go:1076-1208 | a list of named fields is read back field by field |
| `Cbor.StructRoundTrip` | api/atproto/cbor_gen.go:1076-1208 | a struct is read back as the assignment of its fields and leaves the bytes after it |
| `Cbor.StructOnWire` | events/cbor_gen.go:21-87 | a struct is 0xA0 plus the number of fields, then names and values in turn |
| `Cbor.ForwardCompatible` | api/atproto/cbor_gen.go:1076-1208 | fields the struct does not have, wherever they stand, change nothing about the others |
| `Cbor.TruncatedRefused` | api/atproto/cbor_gen.go:1076-1208 | no proper prefix of a written struct reads as a struct |
| `Cbor.UnmarshalStruct` | api/atproto/cbor_gen.go:1076-1208 | the generated reading loop computes the decoder of the round trip, for every input |
| `Cbor.MarshalStruct` | api/atproto/cbor_gen.go:938-1075 | the generated writer succeeds exactly within the limits and writes the encoding of the round trip |
| `EventFrames.HeaderDecodes` | events/cbor_gen.go:89-176 | a header's op and type survive |
| `EventFrames.RebuildsBody` | api/atproto/cbor_gen.go:938-1880 | each kind of event is rebuilt from its decoded fields |
| `EventFrames.FrameRoundTrip` | events/events.go:212-302 | serializing succeeds exactly within the limits, and deserializing gives the event back and the bytes after the frame untouched |
| `EventFrames.FrameRoundTripExact` | events/events.go:212-302 | identity exactly when no present-but-empty byte string is sent |
| `EventFrames.FrameTruncated` | events/events.go:246-302 | a frame cut short anywhere is refused |
| `EventFrames.UnknownHeader` | events/events.go:246-302 | an unknown operation is refused, and a message of an unknown type is passed over with its type |
| `EventFrames.FieldOnWire` | api/atproto/cbor_gen.go:938-1075 | a field is its key and its value as RFC 8949 writes them |
| `EventFrames.FrameOnWire` | events/events.go:212-244 | the bytes of all five kinds of frame: header, then each field's key in literal bytes and its value, in the order of the schema |
| `EventFrames.InfoFrameBytes` | events/events.go:212-244 | one frame written out in its 21 bytes |
| `Journal.StepInv` | administration/server/store.ts:158-224 | every step keeps trails paths, the table equal to the replay of its audit trail, and the worker's bookkeeping, and undoes no ended operation, actor, command or audit row |
| `Journal.TrailIsAPath` | administration/server/store.ts:198-224 | in every interleaving an operation's audit actions are a path of the transition graph ending in its state, and the audit trail alone determines the table |
| `Journal.EndedForGood` | administration/server/app.ts:118-137 | an applied or canceled operation never changes again and no apply of it ever starts |
| `Journal.OneApplyAtATime` | administration/server/worker.ts:26-67 | at most one operation is applying while a process is up, and it is the one the worker holds |
| `Journal.OperationStore.Request` | administration/server/store.ts:158-176 | idempotent by id; a conflict exactly when actor or command differ |
| `Journal.OperationStore.Transition` | administration/server/store.ts:198-224 | writes row and audit entry together, only from an expected state, and says which happened |
| `Journal.OperationStore.Act` | administration/server/app.ts:118-137 | cancel and retry succeed exactly when the operation moved |
| `Journal.Worker.RecoverAll` | administration/server/worker.ts:12-25 | startup leaves no operation applying and takes only recovery steps |
| `Journal.Worker.Start` | administration/server/worker.ts:26-42 | claims the requested operation first in line, and only when no tick is at work |
| `Journal.Worker.FindOldest` | administration/server/worker.ts:30-35 | finds the requested operation created first, ties broken by id, if there is any |
| `Journal.Worker.OnProgress` | administration/server/worker.ts:44-48 | a progress callback, however late, is a transition that only an applying operation takes |
| `Journal.Worker.Finish` | administration/server/worker.ts:49-67 | a success stores the outcome as applied; statuses from 500 on and 422 leave the operation incomplete and any other failure failed, with its error; one audit row, and the worker is free |

## Left out

- HTTP, websocket, TLS, ping/pong, zstd and dictionary negotiation: replies, sessions and read errors are arbitrary values of the server and dialer functions.
- Segment file format, decompression, record decoding and CIDs: a block is its list of rows plus an error for those that do not decode.
- Archive.Download: takes blocks one after another; DownloadRefinement.PipelineRefinesPage carries it over to the concurrent pipeline. Timer flushes inside a page are modelled at row boundaries.
- Planner.PlannerIsHonest: takes the block filter as one-sided; BlockIndex.SealedArchiveQualifies derives it for sealed segments.
- BlockIndex.SegmentWalk.Walk: event counts per collection, timestamps and the footer's byte layout are left out, as is the compaction rewrite, which indexes with the same step.
- BlockIndex.Filled: a bloom filter is its set of bits under arbitrary hash positions; its size and false positive rate do not matter to what it may lose.
- Resume.CrashAndResume: takes the two deliveries as given; EndToEnd.ReplayWithCrashes runs the engine for them.
- BlockFetch.NoDeadlock: the pool alone; DownloadSystem.DownloadMakesProgress adds the framer's wait for the decode window.
- Planner.PlannerIsTidy: the archive's segments are fixed once sealed; compaction rewriting them under a sweep is not modelled, and the wire entries list single blocks where the source coalesces neighbours.
- SegmentFetch.Fetcher.FetchStripes: parts finish in any order but their requests do not interleave; they write disjoint parts of the buffer.
- Live reconnect timing (`nextBackoff`, `sleep`) and prefetch depth: they affect time and memory, not what is delivered.
- Framing.Framer.RunFramer: takes each entry's fetched file or futures as given; the prefetcher that produces whole files ahead of framing is not modelled.
- Cancelling a cursor subscriber during its first playback, the slow-consumer timer and its error frame: an overflow is modelled as the end of the live channel.
- Subscriber filters and several subscribers at once: Fanout follows one accept-all subscriber.
- Persisters.EventRingBuffer.constructor: needs a positive chunk size and chunk count, as the code's callers give it.
- The commit and labels messages, link fields and the CBOR library's way of skipping unknown values: skipping is an arbitrary function, and it is never reached by frames this code wrote.
- Cbor.MarshalStruct: takes fields named in the schema, as the generated code writes them.
- Administration sessions, OAuth, service calls, profiles, pagination cursors and database failures: applying an operation has an arbitrary outcome.
- `Stats` beyond the sweep's page count, tip, progress and residual gap.
- Everything under `api/` other than the five message codecs, and the `splitter`, `models`, `util`, `xrpc` and `scripts` packages.
