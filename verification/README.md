# MetalWatch, modelled and proved in Dafny

MetalWatch is a hardware-monitoring server with agents on the monitored hosts. This project models the parts of it that
carry state, protocols or algorithms, and proves what they keep over every input, every interleaving and every run.

- **Routes** (`IndexHeap`, `MeshGraph`, `MeshFingerprint`, `ProbeRoute`, `Dijkstra`, `MeshEngine`). Link probes are
  folded into an undirected graph; an indexed heap with decrease-key drives the search for shortest routes; paths are
  rebuilt from predecessors; a version counts changes of the topology. Proved: the heap order together with the position
  map being an exact inverse; distances that are least over all walks and finite exactly for reachable nodes; route
  entries that are exactly the simple cheapest paths within the hop limit, priced field by field from the probes; costs
  that depend on nothing but the cheapest probe of each pair; fingerprints whose bytes tell the probes apart.
- **Time series** (`ByteCodec`, `StreamCodec`, `ChunkCodec`, `ChunkFormat`, `Buckets`, `ChunkTable`, `Archives`,
  `TimeSeries`). Chunks are compressed byte streams, rewritten hour by hour on every write. Proved: every encoded chunk
  decodes to what was encoded, and its bytes are those of the documented layout; after any run of writes and prunes
  there is one row per series and hour, and a read gives exactly the last value written to each time stamp of its metric
  and labels from the pruning horizon on; pruning takes nothing at or after its cutoff and leaves nothing an hour older;
  windows partition the points they group.
- **Receipt** (`Ingest`). Reports pass a 24-hour window and a batch record kept for 25 hours. Proved: no batch reaches
  the pipeline twice in any interleaving of receipt, replay, pruning and passing time, exactly when clock lead and
  handler stall together stay within one hour.
- **Store and forward** (`Spool`, `Session`, `SessionSteps`, `SessionRuns`). The agent queues reports under byte-ordered
  keys and two goroutines share one stream under a lock. Proved: key order is time order; purge, trim, peek and drain
  keep exactly what they should, also when transactions fail; in every interleaving, transaction by transaction, there
  is one send at a time, no report is lost silently, removal follows a successful send, and without storage errors
  nothing is sent twice; an undisturbed drain empties the spool, and the stream is given up exactly after a failure.
- **Task pool** (`TaskPool`). Proved: the concurrency limit, one task per target, no task inside a backoff window, a
  call that gets on as soon as the window is over, and a delay that is exactly the documented one as long as doubling
  cannot overflow.
- **Inventory** (`Inventory`, `InventoryReports`, `ChangeNews`, `InventoryService`). Proved: which changes are reported
  in which round of every history, each exactly once, and that they tell the parts' own fields; the fingerprint shortcut
  reports what full comparison would; the parts in service are those of the latest snapshot; a kind of change of a part
  is announced once as long as its alert stays open.
- **Alarms** (`AlarmEngine`, `AlertTable`, `AlertRules`, `HostRules`, `Alerting`, `AlertRecords`). Proved: when a key
  starts firing, fires again and recovers, over every run of the engine; a warning never starts on a sample that leaves
  its critical alarm firing; one firing row per key under any interleaving of statements; engine and table agree after
  every evaluation and notifications alternate; rules do not depend on the order in which maps are walked; which rules
  meet which samples, and what rows and notifications say, are told from thresholds, labels and values themselves.

Integers are unbounded in the model; where the program's 64-bit arithmetic wraps (time stamp deltas, backoff doubling,
purge cutoffs, hop counts) the wrap is written out. Costs, sample values and means are exact reals; values inside chunks
are 64-bit patterns. Times are integers in the unit each table or clock uses. Each SQL statement and each spool
transaction is one atomic step. SHA-1 and FNV hashes stand for what they are fed.

Every lemma is proved by its own body: Dafny's automatic induction is switched off wherever it would apply, with
`{:induction false}`.

Where the program and its own comments differ, the model follows the program:

- `backend/internal/engine/alarm_engine.go:128` and `:266` speak of `recoverN` consecutive samples below the threshold;
  a true sample while firing does not restart the count. `AlarmEngines.RecoveryIsConsecutiveOnlyForOne` shows that
  consecutive samples are needed exactly when one is enough, and `AlarmEngines.RecoversAtNthFalse` states what holds
  instead.
- `backend/internal/task/pool.go:156` promises base * 2^(n - threshold) capped at the maximum; for maxima above 2^62
  nanoseconds the doubling can overflow. `TaskPool.DelaysExactUpToHalfRange` gives the exact range that serves every
  base, and `TaskPool.DelaysExactWhenLastDoublingFits` the exact condition for one base and maximum.
- `agent/internal/spool/spool.go:160` promises to delete entries older than the cutoff; a cutoff before 1970 is compared
  as a large unsigned number. `Spools.PurgeExactFromEpochOn` gives the exact condition.

## Model

| member | source | states |
|---|---|---|
| IndexHeaps.RootIsLeast | backend/internal/engine/mesh_engine.go:292-300 | in heap order the item at the root is no farther than any other |
| IndexHeaps.LiftStep | backend/internal/engine/mesh_engine.go:317-326 | swapping an item with its parent moves the only possible violation of the heap order up to the parent |
| IndexHeaps.SinkStep | backend/internal/engine/mesh_engine.go:328-345 | swapping an item with its nearer child moves the only possible violation down to that child |
| IndexHeaps.IndexHeap.Push | backend/internal/engine/mesh_engine.go:286-290 | a new node joins the queued distances; order and exact inverse index are kept |
| IndexHeaps.IndexHeap.Pop | backend/internal/engine/mesh_engine.go:292-300 | returns a queued node of minimal distance and removes exactly it |
| IndexHeaps.IndexHeap.Update | backend/internal/engine/mesh_engine.go:302-309 | lowers one node's distance and nothing else; an unknown node changes nothing |
| IndexHeaps.IndexHeap.Swap | backend/internal/engine/mesh_engine.go:311-315 | exchanges two items and keeps the position map the exact inverse of the item list |
| IndexHeaps.IndexHeap.BubbleUp | backend/internal/engine/mesh_engine.go:317-326 | restores the heap order from a violation upwards, with the same contents |
| IndexHeaps.IndexHeap.BubbleDown | backend/internal/engine/mesh_engine.go:328-345 | restores the heap order from a violation downwards, with the same contents |
| MeshGraph.CheapestDecides | backend/internal/engine/mesh_engine.go:74-89 | two probe lists in which each usable probe has a no dearer counterpart in the other give the same cost for every pair |
| MeshGraph.PermutationKeepsBest | backend/internal/engine/mesh_engine.go:74-89 | reordering the probes changes no link cost |
| MeshGraph.SwapKeepsBest | backend/internal/engine/mesh_engine.go:99-104 | reporting a link from its other end changes no link cost |
| MeshGraph.DuplicateKeepsBest | backend/internal/engine/mesh_engine.go:85-88 | another probe of a measured pair that is no cheaper changes no link cost |
| MeshGraph.BuildGraph | backend/internal/engine/mesh_engine.go:74-97 | the graph has, at both ends, exactly one edge for every pair measured by a usable probe, at the least cost any of its probes gives; every edge ends at a named node |
| ProbeRoutes.PathHasRoute | backend/internal/engine/mesh_engine.go:65-97 | a path of links is a route over probes whose summed RTT, loss and hop prices are exactly the path's cost |
| ProbeRoutes.RouteIsPath | backend/internal/engine/mesh_engine.go:65-97 | any route over usable probes is a path of links that costs no more |
| ProbeRoutes.DearerByFields | backend/internal/engine/mesh_engine.go:65-71 | a millisecond more on a probe makes every route over it dearer by one, a thousandth more loss by the loss penalty |
| Dijkstra.WalkIsNoShorter | backend/internal/engine/mesh_engine.go:130-137 | once no edge can be relaxed, no walk from a node is shorter than the difference of the distances |
| Dijkstra.TreeIsShortest | backend/internal/engine/mesh_engine.go:106-148 | a relaxed predecessor tree holds the least lengths over all walks from the source |
| Dijkstra.TreeIsExact | backend/internal/engine/mesh_engine.go:106-148 | finite distances are exactly those of nodes some walk reaches |
| Dijkstra.Search | backend/internal/engine/mesh_engine.go:108-148 | ends on every graph; predecessors form a tree with exact distances and hop counts; distance is finite exactly for reachable nodes; with non-negative weights it is the least walk length; every reached node leaves the heap exactly once |
| Dijkstra.RelaxEdges | backend/internal/engine/mesh_engine.go:130-145 | after the inner loop all edges out of finished nodes are relaxed and the heap holds exactly the pending nodes |
| MeshRoutes.RebuildPath | backend/internal/engine/mesh_engine.go:150-168 | ends and returns the tree path from source to destination, or nothing when the destination has no predecessor |
| MeshRoutes.TreePathCost | backend/internal/engine/mesh_engine.go:150-168 | the rebuilt path runs along measured links and its cost is the distance of its end |
| MeshRoutes.TreePathIsSimple | backend/internal/engine/mesh_engine.go:150-168 | the rebuilt path repeats no node |
| MeshRoutes.SearchGivesChoice | backend/internal/engine/mesh_engine.go:186-207 | the search determines one simple path for exactly the reachable nodes other than the source, a cheapest one when no link is negative |
| MeshRoutes.MeshEngine.constructor | backend/internal/engine/mesh_engine.go:48-57 | a zero loss penalty becomes 1, a zero hop factor 10; other values are kept |
| MeshRoutes.MeshEngine.RouteTo | backend/internal/engine/mesh_engine.go:189-207 | the entry of one destination, or none for the source, unreachable nodes and nodes past the hop limit |
| MeshRoutes.MeshEngine.Compute | backend/internal/engine/mesh_engine.go:180-223 | entries are strictly sorted, each names its path, next hop and hop count, and its cost is the summed RTT, loss and hop prices of a route of probes along the path, with no other route cheaper; a destination is missing exactly when nothing reaches it or its path is past the hop limit; the version is the number of fingerprint changes so far |
| MeshRoutes.TableTellsRoutes | backend/internal/engine/mesh_engine.go:180-223 | the table for the best link costs tells the cheapest routes over the probes themselves, field by field |
| MeshRoutes.OneLinkTable | backend/internal/engine/mesh_engine.go:65-71 | the table over one link holds that link alone; without RTT and loss it costs the hop factor |
| MeshRoutes.LinkCostMoves | backend/internal/engine/mesh_engine.go:65-71 | the table's cost over a link rises by one for a millisecond more and by the loss penalty for a thousandth more loss |
| MeshRoutes.CostsAreDetermined | backend/internal/engine/mesh_engine.go:74-97 | two tables for the same link costs agree on the cost of every destination and, without a hop limit, on the destinations |
| MeshRoutes.CheapestProbesDecideRoutes | backend/internal/engine/mesh_engine.go:74-104 | two computations on probe lists of which each has, for every usable probe of the other, one of the same pair that is no dearer, give the same cost for every common destination and, without a hop limit, the same destinations |
| MeshRoutes.SameProbesSameRoutes | backend/internal/engine/mesh_engine.go:74-104 | reordering the probes, turning one around or adding a duplicate that is no cheaper changes no route cost |
| MeshRoutes.HopCountIsExact | backend/internal/engine/mesh_engine.go:196-199 | the 32-bit hop count is exact for graphs of at most 2^32 nodes |
| MeshFingerprints.ComputeFingerprint | backend/internal/engine/mesh_engine.go:225-265 | feeds the hash the probes in a fixed order, field by field with a zero byte after each, RTT in whole milliseconds and loss in millionths |
| MeshFingerprints.FramesTellRecords | backend/internal/engine/mesh_engine.go:250-263 | the bytes fed to the hash are equal only for equal records, as long as no agent name contains a zero byte |
| MeshFingerprints.EqualFingerprintsAreAlike | backend/internal/engine/mesh_engine.go:225-265 | with equal fingerprints each probe of one list has its like in the other: same agents, whole milliseconds, millionths of loss and kind of link |
| MeshFingerprints.ProbeChangesShow | backend/internal/engine/mesh_engine.go:239-263 | a single probe's fingerprint changes exactly when one of these does |
| MeshFingerprints.FingerprintIgnoresOrder | backend/internal/engine/mesh_engine.go:225-265 | the fingerprint does not depend on the order of the probes |
| MeshFingerprints.SameVersionMeansNoChange | backend/internal/engine/mesh_engine.go:211-216 | two calls get the same version exactly when no call after the first up to the second brought another fingerprint |
| ByteCodec.UvarintRoundTrip | backend/internal/adapter/tsdb/encode.go:45-48 | a varint followed by anything is read back with its value and length |
| ByteCodec.XorRoundTrip | backend/internal/adapter/tsdb/encode.go:127-187 | an XOR record followed by anything is read back as the value it was made from |
| ByteCodec.SignificantBytes | backend/internal/adapter/tsdb/encode.go:133-147 | a non-zero difference has a significant byte between its leading and trailing zero bytes, which lose nothing |
| ByteCodec.AppendXor | backend/internal/adapter/tsdb/encode.go:127-155 | appends exactly the record of the value after its predecessor and leaves the value as next predecessor |
| ByteCodec.ReadXor | backend/internal/adapter/tsdb/encode.go:157-187 | reads one record at the cursor and moves the cursor to where the rest starts, or fails |
| StreamCodec.StreamRoundTrip | backend/internal/adapter/tsdb/encode.go:47-63 | a stream of self-delimiting records, each relative to the value before, is read back whole whatever follows it |
| ChunkCodec.DeltaCancels | backend/internal/adapter/tsdb/encode.go:46-50 | zigzag deltas give back every 64-bit time stamp, also when the difference wraps |
| ChunkCodec.EncodeChunk | backend/internal/adapter/tsdb/encode.go:37-64 | writes version, times and values in the layout the decoder expects; unequal aggregate columns are cut to the shortest |
| ChunkCodec.DecodeChunk | backend/internal/adapter/tsdb/encode.go:66-125 | reads the given number of rows or reports a bad chunk |
| ChunkCodec.ChunkRoundTrip | backend/internal/adapter/tsdb/encode.go:37-125 | decoding an encoded chunk with its point count gives back exactly its time stamps and bit patterns, in both encodings |
| ChunkFormat.UvarintTells | backend/internal/adapter/tsdb/encode.go:45-48 | a varint is base 128, least significant group first, high bit set on all bytes but the last, and no longer than needed |
| ChunkFormat.TakenIsVarint | backend/internal/adapter/tsdb/encode.go:79-83 | reading a varint takes exactly one of at most ten groups that fits into 64 bits, with its value, and leaves the rest; any longer or larger one is refused |
| ChunkFormat.NothingTaken | backend/internal/adapter/tsdb/encode.go:79-83 | where no varint begins nothing is read |
| ChunkFormat.DeltaTells | backend/internal/adapter/tsdb/encode.go:46-50 | a time stamp is written as twice its difference to the one before, or twice the complement plus one when it is negative |
| ChunkFormat.XorTells | backend/internal/adapter/tsdb/encode.go:127-128 | the difference of two values is their bit-by-bit exclusive or, most significant byte first |
| ChunkFormat.UnchangedTells | backend/internal/adapter/tsdb/encode.go:129-132 | a value equal to the one before it is the single byte zero |
| ChunkFormat.ChangeTells | backend/internal/adapter/tsdb/encode.go:133-155 | a changed value is a one, the number of leading zero bytes, the number of bytes kept, and those bytes, neither end of which is zero |
| ChunkFormat.RowTells | backend/internal/adapter/tsdb/encode.go:58-63 | an aggregate row is the record of its average followed by that of its maximum |
| ChunkFormat.LayoutTells | backend/internal/adapter/tsdb/encode.go:21-64 | a chunk is version 1, the first time stamp, the differences, the first values in little-endian order, and the records of the others |
| Buckets.WindowsPartition | backend/internal/adapter/tsdb/tsdb.go:590-611 | the listed windows hold every point exactly once |
| Buckets.WindowHoldsFromEpochOn | backend/internal/adapter/tsdb/tsdb.go:593-599 | with Go's truncating remainder a point lies within the bounds of its window if and only if it is not before the epoch or on the window's start |
| Buckets.GroupWindows | backend/internal/adapter/tsdb/tsdb.go:590-611 | windows in increasing aligned order, each with exactly its own points in the order they came |
| Buckets.MeanTells | backend/internal/adapter/tsdb/tsdb.go:314-321 | a point's value counts in the mean by one over the number of points, and the mean of equal values is that value |
| Buckets.Downsample | backend/internal/adapter/tsdb/tsdb.go:294-323 | strictly increasing aligned buckets covering every point, each with the exact mean of its members |
| Buckets.MeanBelowMax | backend/internal/adapter/tsdb/tsdb.go:416-446 | an average never exceeds a maximum of the same points |
| Buckets.AggregateBuckets | backend/internal/adapter/tsdb/tsdb.go:416-446 | strictly increasing buckets with exact mean and attained maximum, mean at most maximum |
| ChunkTable.OverlayByWindow | backend/internal/adapter/tsdb/tsdb.go:666-682 | writing a window's points shows in that window only, and there as writing all points would |
| ChunkTable.OverlapsInHour | backend/internal/adapter/tsdb/tsdb.go:613-641 | the rows overlapping an hour are the series' one row of that hour, if it has one |
| ChunkTable.EncodedHolds | backend/internal/adapter/tsdb/tsdb.go:686-700 | a row encoded from time-ordered points of one hour decodes to them and stays within its hour |
| ChunkTable.GoodTableStored | backend/internal/adapter/tsdb/tsdb.go:643-664 | updating the replaced row or inserting one keeps one row per series and hour, each holding its points |
| Archives.RecordedSeries | backend/internal/adapter/tsdb/tsdb.go:117-146 | recording samples one by one is, per series, recording that series' points in their order |
| Archives.EveryRecordIsByName | backend/internal/adapter/tsdb/tsdb.go:117-146 | after a batch, the series of a sample's metric, labels and raw tier shows at its time stamp the value of the batch's last such sample; slots no sample names stay as they were |
| Archives.SeriesByName | backend/internal/adapter/tsdb/tsdb.go:138-156 | two samples go to the same series if and only if metric and labels are equal |
| Archives.WriteKeepsFaithful | backend/internal/adapter/tsdb/tsdb.go:666-701 | if the chunks agreed with the plain record of everything written, they agree with it after a batch |
| Archives.WriteKeepsCovers | backend/internal/adapter/tsdb/tsdb.go:703-721 | last_ts keeps bounding every stored time stamp of its series |
| Archives.WriteKeepsCurrent | backend/internal/adapter/tsdb/tsdb.go:703-721 | last_value stays the value last written at last_ts |
| Archives.ReadNext | backend/internal/adapter/tsdb/tsdb.go:265-287 | reading one more row adds exactly its hour's points in range, still in time order |
| Archives.ReadsWritten | backend/internal/adapter/tsdb/tsdb.go:256-287 | what a read returns are exactly the points written in range from the pruning horizon on, in time order |
| Archives.RangeIsCovered | backend/internal/adapter/tsdb/tsdb.go:258-261 | every stored time stamp of a range lies in a row the range query selects |
| Archives.ExpiredIsOld | backend/internal/adapter/tsdb/tsdb.go:529-530 | every point of a row deleted by its own end is of the tier and older than the cutoff |
| Archives.DeadIsOld | backend/internal/adapter/tsdb/tsdb.go:537-538 | every point of a series dropped by its last_ts is of the tier and older than the cutoff |
| Archives.SurvivorIsRecent | backend/internal/adapter/tsdb/tsdb.go:529-530 | every point of a surviving row is less than an hour older than the cutoff |
| Archives.PruneIsRight | backend/internal/adapter/tsdb/tsdb.go:529-530 | deleting a tier's expired rows keeps every point at or after the cutoff and all other tiers, and leaves only recent points |
| TimeSeries.Store.constructor | backend/internal/adapter/tsdb/tsdb.go:52-59 | raw points are kept seven days unless a positive number is given, aggregates as long as given but no shorter than raw points |
| TimeSeries.Store.MergeRawChunk | backend/internal/adapter/tsdb/tsdb.go:666-701 | the hour's points become the old ones overlaid with the new ones; every other hour is untouched |
| TimeSeries.Store.StoreChunk | backend/internal/adapter/tsdb/tsdb.go:643-664 | updates the first replaced row and deletes the others, or inserts a row |
| TimeSeries.Store.UpsertSeries | backend/internal/adapter/tsdb/tsdb.go:703-721 | moves the series' last point forward; the new value wins a tie |
| TimeSeries.Store.Write | backend/internal/adapter/tsdb/tsdb.go:115-167 | after any batch the store agrees with the plain last-write-wins record, extended by the batch: a sample not replaced by a later one of its metric, labels and time is held under the series of that metric, those labels and the raw tier, and nothing else changes |
| TimeSeries.Store.ReadPoints | backend/internal/adapter/tsdb/tsdb.go:256-287 | strictly sorted points that are exactly what is stored in the range, hence from the pruning horizon on exactly what was last written under that series key |
| TimeSeries.Store.DeleteExpiredChunks | backend/internal/adapter/tsdb/tsdb.go:529-535 | the first statement deletes exactly the expired rows of a tier: nothing at or after the cutoff goes, nothing an hour older stays, and the store still agrees with the plain record |
| TimeSeries.Store.DeleteExpiredSeries | backend/internal/adapter/tsdb/tsdb.go:537-543 | the second statement, whatever was written in between, deletes exactly the expired series with their rows, which hold old points only |
| TimeSeries.Store.Prune | backend/internal/adapter/tsdb/tsdb.go:518-544 | applies both tiers' cutoffs; raw points at or after theirs stay, none an hour older does |
| Ingest.OnceWithinAnHour | backend/api/agent/stream_server.go:206-227 | with clock lead and handler stall within an hour no batch is ingested twice in any run of receipts, pruning and time |
| Ingest.ReplayIsIngestedTwice | backend/internal/adapter/tsdb/tsdb.go:546-548 | beyond that hour a concrete run ingests a batch twice |
| Ingest.OnceExactlyWithinAnHour | backend/api/agent/stream_server.go:206-227 | at-most-once ingestion over every run holds if and only if clock lead plus handler stall is at most one hour |
| Ingest.SamplesOfKnownSensors | backend/api/agent/stream_server.go:229-245 | the samples are exactly those of sensors with an allowed metric |
| Ingest.SampleTells | backend/api/agent/stream_server.go:229-245 | a known sensor gives one sample of its own metric and value at the report's time, labelled with host id, host name and mode, and with its device if it names one; an unknown one gives none |
| Ingest.SensorsInOrder | backend/api/agent/stream_server.go:231-245 | samples stand in the order of their sensors |
| Ingest.HandlingIsReceiveThenMark | backend/api/agent/stream_server.go:206-269 | an uninterrupted handler run is its two steps of the interleaved model |
| Ingest.StreamServer.SeenBatch | backend/internal/adapter/tsdb/tsdb.go:169-181 | reports a recorded batch and records a new one with the time in seconds |
| Ingest.StreamServer.PruneDedup | backend/internal/adapter/tsdb/tsdb.go:546-548 | drops exactly the batch records older than 25 hours |
| Ingest.StreamServer.HandleMetrics | backend/api/agent/stream_server.go:206-269 | a report in the window and not seen before is evaluated, marks host and token, and reaches the pipeline with its samples and the up sample; any other changes nothing more than the batch record |
| Spools.BigEndianOrder | agent/internal/spool/spool.go:191-196 | numbers of equal width compare as their big-endian bytes do, ties being decided by what follows |
| Spools.KeyOrder | agent/internal/spool/spool.go:191-196 | the byte order of keys is the order of time, then sequence number, and keys are unique |
| Spools.CutoffOrder | agent/internal/spool/spool.go:160-167 | a 16-byte key is below the 8-byte cutoff exactly when its time is |
| Spools.PutInOrder | agent/internal/spool/spool.go:61-83 | storing under a fresh key keeps the order and adds exactly the entry |
| Spools.PeekFindsPrefix | agent/internal/spool/spool.go:108-142 | what peek finds is a prefix of what it leaves, and no decodable entry is lost |
| Spools.PeekTells | agent/internal/spool/spool.go:108-142 | peek finds the first n decodable values or all there are, keeps every decodable entry, and deletes an undecodable one exactly when fewer than n decodable ones stand before it |
| Spools.AckPrefix | agent/internal/spool/spool.go:144-158 | acknowledging the first entries drops exactly them |
| Spools.ExpiredIsExact | agent/internal/spool/spool.go:160-176 | the loop's stopping point separates exactly the entries older than the cutoff |
| Spools.PurgeExactFromEpochOn | agent/internal/spool/spool.go:160-176 | purge removes exactly the entries older than the cutoff if and only if the cutoff is not before the epoch or the spool is empty |
| Spools.Spool.Enqueue | agent/internal/spool/spool.go:61-83 | queues the report under its time, or the present time when it has none, with the next sequence number |
| Spools.Spool.Trim | agent/internal/spool/spool.go:85-106 | keeps exactly the newest entries; the length becomes the lesser of the old length and the capacity |
| Spools.Spool.Peek | agent/internal/spool/spool.go:108-142 | returns the oldest decodable entries in key order and deletes the undecodable ones met in a second transaction; when either fails nothing is deleted |
| Spools.Spool.Ack | agent/internal/spool/spool.go:144-158 | deletes exactly the entries under the given keys |
| Spools.Spool.Purge | agent/internal/spool/spool.go:160-176 | deletes exactly the entries with a time below the cutoff |
| Sessions.Drain | agent/internal/grpcstream/session.go:187-216 | without a stream or a spool a no-op; otherwise what left the spool was sent and what was not is still there, in order; everything sent is acknowledged unless a transaction failed; when neither sends nor transactions fail all is sent and the spool is empty |
| Sessions.ReplayBatch | agent/internal/grpcstream/session.go:193-215 | at most 100 reports are sent until a failure, all 100 or all there are without one, and what went through is acknowledged; storage errors end it |
| SessionSteps.SendSentOnce | agent/internal/grpcstream/session.go:202-211 | a successful send of the next entry keeps every report sent at most once and outside the spool once acknowledged |
| SessionSteps.AckRemovesSent | agent/internal/grpcstream/session.go:203-214 | an acknowledgement removes only entries whose reports were sent |
| SessionSteps.StepKeeps | agent/internal/grpcstream/session.go:117-274 | every step of either goroutine, each storage transaction being one, keeps lock, spool, report and history invariants |
| SessionSteps.OneSendAtATime | agent/internal/grpcstream/session.go:63-66 | in every interleaving at most one send is in progress, and only on a live stream |
| SessionSteps.EveryReportIsAccountedFor | agent/internal/grpcstream/session.go:233-264 | in every interleaving each collected report was sent, is in hand, is in the spool, or was dropped by age, capacity, corruption or a failed write |
| SessionSteps.NoReportIsSentTwice | agent/internal/grpcstream/session.go:180-216 | without storage errors no report is sent successfully twice |
| SessionSteps.RemovedOnlyAfterSend | agent/internal/grpcstream/session.go:202-214 | in every interleaving drain takes a report out of the spool only after its send succeeded: acknowledging removes sent ones, and deleting what could not be decoded removes none |
| SessionSteps.CutsAreExact | agent/internal/grpcstream/session.go:252-264 | in every interleaving a purge takes exactly the entries older than its cutoff and a trim exactly the oldest ones beyond the capacity |
| SessionSteps.FatesAreDeserved | agent/internal/grpcstream/session.go:252-264 | in every interleaving a report recorded as purged was older than the cutoff, as trimmed beyond the capacity, as corrupted unreadable, as not stored after a failed write |
| SessionSteps.SendsCanReturn | agent/internal/grpcstream/session.go:202-211 | a send under way always has a report to be done with, so no interleaving gets stuck there |
| SessionRuns.UndisturbedDrainEmpties | agent/internal/grpcstream/session.go:180-216 | from any state, a drain that nothing disturbs sends the whole backlog in order and leaves the spool empty |
| SessionRuns.OnlineReportIsSent | agent/internal/grpcstream/session.go:233-264 | a report collected while online goes out behind the whole backlog |
| SessionRuns.OfflineReportIsStored | agent/internal/grpcstream/session.go:233-264 | a report collected while offline is stored under its time, and exactly what is too old or too much is dropped |
| SessionRuns.StreamIsGivenUpOnFailure | agent/internal/grpcstream/session.go:117-178 | in every interleaving the session gives its stream up exactly when it ended, or a send or storage operation of its own failed, since it last closed one; then it sends nothing until it has closed it |
| TaskPool.BackoffDelay | backend/internal/task/pool.go:156-164 | the loop's delay, with 64-bit wrap; base times a power of two, capped, whenever the last doubling fits |
| TaskPool.DelaysExactUpToHalfRange | backend/internal/task/pool.go:156-164 | the delay is the capped power for every base and failure count if and only if the maximum is at most 2^62 |
| TaskPool.DelaysExactWhenLastDoublingFits | backend/internal/task/pool.go:156-164 | for a given base and maximum the delay is the capped power for every failure count if and only if the doubling that reaches the maximum stays below 2^63 |
| TaskPool.Pool.constructor | backend/internal/task/pool.go:55-85 | concurrency, timeout, threshold, base and maximum get their defaults when not positive |
| TaskPool.Pool.CheckBackoff | backend/internal/task/pool.go:119-133 | refuses a target exactly while it has a window whose end the clock has not passed, with the time left; otherwise the target has no window afterwards |
| TaskPool.Pool.RecordResult | backend/internal/task/pool.go:135-168 | counts consecutive failures, opens a window from the threshold on, and forgets both on success |
| TaskPool.Pool.LockFor | backend/internal/task/pool.go:170-179 | one lock per target, created once and shared by no other target |
| TaskPool.StepKeeps | backend/internal/task/pool.go:87-117 | every step of concurrent calls keeps slots, locks, windows and failure counts consistent |
| TaskPool.AtMostConcurrencyRun | backend/internal/task/pool.go:93-99 | in every interleaving at most the configured number of tasks run |
| TaskPool.OneTaskPerTarget | backend/internal/task/pool.go:101-104 | in every interleaving no two running tasks share a target |
| TaskPool.NoTaskWhileBlocked | backend/internal/task/pool.go:106-115 | in every interleaving a task runs only after the last backoff window of its target has ended, and none is open while it runs |
| TaskPool.TriedOnceWindowEnds | backend/internal/task/pool.go:119-133 | in every interleaving a look at the backoff lets a call on exactly when its target's last window is over, and the window is then forgotten |
| TaskPool.UndisturbedCallRuns | backend/internal/task/pool.go:87-117 | with a free slot, a free target and no open window a call runs its task, its outcome is recorded, and slot and lock are free again |
| TaskPool.ConsecutiveFailuresBlock | backend/internal/task/pool.go:149-167 | in every interleaving the n-th consecutive failure blocks the target exactly from the threshold on, for exactly the capped power |
| Inventory.SameFingerprint | backend/internal/service/inventory.go:358-381 | equal fingerprints mean the same part keys with the same serial, firmware and capacity |
| Inventory.PartOrderIsIrrelevant | backend/internal/service/inventory.go:358-381 | the fingerprint does not depend on the order in which parts are listed |
| Inventory.UpsertedRow | backend/internal/adapter/component.go:38-66 | after the upsert a snapshot part's row has its attributes, is seen now and is in service; other rows are untouched |
| Inventory.TextDiffersWithField | backend/internal/service/inventory.go:278-293 | compared as text, two capacities differ exactly when they differ |
| Inventory.InServiceIsLatest | backend/internal/service/inventory.go:46-207 | after every history the parts in service are exactly those of the latest snapshot |
| Inventory.ShortcutChangesNothing | backend/internal/service/inventory.go:96-122 | over every history, skipping the comparison when the fingerprint is unchanged leaves rows, snapshots and change events as comparing always would |
| Inventory.ReportsAreExact | backend/internal/service/inventory.go:124-207 | over every history each round reports a removal exactly once at the second round of an absence, an addition exactly once at a first appearance after the baseline, and each watched field that differs from the round before exactly once |
| InventoryReports.ChangesTellTruth | backend/internal/service/inventory.go:124-207 | over every history each change on record tells of parts as the snapshots of its round and the rounds before list them, with their own names, serial numbers, firmware and capacities |
| InventoryReports.FieldsAreReported | backend/internal/service/inventory.go:268-293 | between two snapshots that list a part, a change of its serial, firmware or capacity is on record exactly once if and only if that field differs, with the two parts' own values as old and new |
| InventoryReports.NothingElseIsModified | backend/internal/service/inventory.go:154-173 | no other field, and no part that one of the two snapshots lacks, is ever reported modified |
| InventoryReports.AdditionsAreReported | backend/internal/service/inventory.go:124-152 | a part's addition is on record once, at the first snapshot after the baseline that lists it, and at no other |
| InventoryReports.RemovalsAreReported | backend/internal/service/inventory.go:175-207 | a part's removal is on record once, at the second snapshot in a row that lacks it, and at no other |
| InventoryReports.LatestTells | backend/internal/adapter/asset.go:45-59 | the latest snapshot of a mode is the newest, the later-stored one on a tie |
| InventoryReports.SnapshotsTell | backend/internal/service/inventory.go:96-122 | every round leaves one snapshot, its parts kept exactly when the fingerprint is new |
| InventoryServices.InventoryService.LatestFingerprint | backend/internal/adapter/asset.go:45-59 | the fingerprint of the newest snapshot of the mode, the later-stored one on a tie |
| InventoryServices.InventoryService.UpsertBatch | backend/internal/adapter/component.go:38-66 | inserts or refreshes one row per part |
| InventoryServices.InventoryService.HasChangeSince | backend/internal/adapter/asset.go:92-102 | whether a change of this kind is on record for the part since a time |
| InventoryServices.InventoryService.ConfirmRemovals | backend/internal/service/inventory.go:175-207 | marks the parts missing for the first time, and records and announces, once, those missing again |
| InventoryServices.InventoryService.Diff | backend/internal/service/inventory.go:124-173 | records and announces additions, confirmed removals and modifications, in this order |
| InventoryServices.InventoryService.RecordChange | backend/internal/service/inventory.go:209-257 | opens or refreshes the alert of this kind of change, records the change, and notifies only when the alert is new |
| InventoryServices.InventoryService.IngestSnapshot | backend/internal/service/inventory.go:45-122 | a baseline at first, the removal check alone when the fingerprint is unchanged, otherwise the full comparison; the payload is kept only when the fingerprint is new; every change is announced as it is recorded |
| ChangeNews.AnnouncedOnce | backend/internal/service/inventory.go:226-254 | over any list of changes a key's alert fires exactly if it did before or a change carries it, and exactly one notification is sent if it came to fire, none otherwise |
| ChangeNews.AlertKeysTell | backend/internal/service/inventory.go:226-229 | alert keys are equal if and only if host, part and kind of change are, as long as category and slot contain no colon |
| ChangeNews.NewsTells | backend/internal/service/inventory.go:214-249 | a change that no open alert covers adds an informational alert row naming host, part and change, and one notification of it |
| AlarmEngines.StartsAfterStretch | backend/internal/engine/alarm_engine.go:231-252 | over every run of the engine, firing starts exactly when the key does not fire, its parent does not fire at that moment, and the condition has held at each of the key's evaluations for the rule's duration |
| AlarmEngines.RepeatsAreSpaced | backend/internal/engine/alarm_engine.go:254-263 | over every run of the engine, a firing is repeated exactly when the condition holds while the key fires and the suppress window has passed since it last fired |
| AlarmEngines.RecoversAtNthFalse | backend/internal/engine/alarm_engine.go:266-281 | over every run of the engine, recovery comes exactly at the n-th false evaluation since firing started, and only while firing |
| AlarmEngines.RecoveryIsConsecutiveOnlyForOne | backend/internal/engine/alarm_engine.go:254-279 | recovery always ends n false evaluations in a row if and only if n is one |
| AlarmEngines.KeysRunIndependently | backend/internal/engine/alarm_engine.go:206-217 | each key's state is that of its own evaluations, whatever happens to other keys |
| AlarmEngines.KeysTellApart | backend/internal/engine/alarm_engine.go:206-212 | keys are equal if and only if rule, host and object are, as long as rule ids contain no @ and hosts no slash |
| AlarmEngines.VerdictIsOwn | backend/internal/engine/alarm_engine.go:201-294 | what the engine decides at an evaluation, and hence its event, is what the key's own run calls for |
| AlarmEngines.ReportsTell | backend/internal/engine/alarm_engine.go:231-294 | each verdict gives its one event, with state, message, rule, host, object and time, or none: a start or repeat is silenced exactly inside a maintenance window of all hosts or this host, and a firing held back is reported as suppressed |
| AlarmEngines.EvaluationsAreMatches | backend/internal/engine/alarm_engine.go:183-199 | a rule is evaluated on a sample of the batch if and only if it is enabled, of the sample's metric, and of its host or of all hosts; as often as the two occur |
| AlarmEngines.SamplesInOrder | backend/internal/engine/alarm_engine.go:183-199 | samples are evaluated in the order of the batch |
| AlarmEngines.NoChildStartsUnderFiringParent | backend/internal/engine/alarm_engine.go:173-247 | for sorted rules with distinct ids, a rule whose parent's id comes first never starts on a sample after which the parent fires, whatever the state before |
| AlarmEngines.ParentSilencesWhenFirst | backend/internal/engine/alarm_engine.go:178-247 | that holds for all states, samples and rule lists if and only if the parent's id comes before the child's |
| AlarmEngines.RuleOrderIsIrrelevant | backend/internal/engine/alarm_engine.go:178-181 | rules with distinct ids are processed in the same order however they are given |
| AlarmEngines.SortRules | backend/internal/engine/alarm_engine.go:296-302 | the in-place sort gives the insertion order of the ids |
| AlarmEngines.SortedRulesAreSorted | backend/internal/engine/alarm_engine.go:296-302 | that order is ascending |
| AlarmEngines.SortedRulesPermute | backend/internal/engine/alarm_engine.go:296-302 | and has the same rules as often |
| AlarmEngines.AlarmEngine.InMaintenanceNow | backend/internal/engine/alarm_engine.go:164-171 | whether any window covers the time and host |
| AlarmEngines.AlarmEngine.EvalRule | backend/internal/engine/alarm_engine.go:201-294 | one evaluation changes its key's state alone and reports firing, muted, suppressed or recovered accordingly |
| AlarmEngines.AlarmEngine.Process | backend/internal/engine/alarm_engine.go:173-199 | evaluates exactly the pairs of a sample and an enabled rule of its metric and of its host or all hosts, in id order per sample, and returns the events in that order; states and events stay those of the whole run so far |
| AlertTable.KeysOnce | backend/internal/adapter/threshold.go:154-156 | a sound table has at most one firing row per key |
| AlertTable.CloseSplits | backend/internal/adapter/threshold.go:219-249 | closing rows takes exactly the hit keys out of the firing ones |
| AlertTable.CreatedMinusResolved | backend/internal/adapter/threshold.go:161-249 | in every interleaving of statements, per key, calls that reported a creation minus rows closed is the number of firing rows, zero or one |
| AlertTable.Alerts.UpsertFiring | backend/internal/adapter/threshold.go:161-217 | creates a row exactly when the key has none, otherwise refreshes that row's time, value, title and detail; every other row stays; the id is that of the key's one firing row |
| AlertTable.UndisturbedUpsert | backend/internal/adapter/threshold.go:161-217 | the statements of a call that nothing disturbs refresh the key's row, or create it and report so |
| AlertTable.Alerts.Resolve | backend/internal/adapter/threshold.go:219-231 | closes the key's firing row at the given time, says whether there was one, and leaves every other row as it was |
| AlertTable.Alerts.ResolveByHost | backend/internal/adapter/threshold.go:233-249 | closes exactly the firing rows of the host at the given time and counts them; rows of other hosts stay |
| AlertTable.Alerts.Touch | backend/internal/adapter/threshold.go:251-257 | gives the key's firing row the new time and value and leaves every other row as it was |
| AlertTable.Alerts.InsertSilenced | backend/internal/adapter/threshold.go:259-269 | adds a silenced row that takes no key |
| AlertRules.RuleIdsDiffer | backend/internal/service/alerting.go:176-223 | a rule id tells whether it came from a template or an override, which one, and which level |
| AlertRules.FiledIdsDiffer | backend/internal/service/alerting.go:169-234 | the rules filed for a metric or a host's metric have distinct ids |
| AlertRules.BuildRuleSet | backend/internal/service/alerting.go:169-234 | every metric and host lists exactly the rules of its templates or overrides, in order, and every rule has its metadata |
| AlertRules.RulesFor | backend/internal/service/alerting.go:236-252 | a metric the host overrides is ruled by its overrides alone, any other by the templates; ids are distinct |
| AlertRules.SameRulesSorted | backend/internal/service/alerting.go:236-252 | whatever order the maps are walked in, the engine sees the same rules in the same order |
| AlertRules.RulesHaveMetas | backend/internal/service/alerting.go:304-308 | every rule that applies to a host has metadata with its own metric and threshold |
| AlertRules.ParentsApplyAndComeFirst | backend/internal/service/alerting.go:173-223 | a rule with a parent applies to a host together with that parent, the critical rule of the same metric, whose id comes first |
| HostRules.RulesAreTold | backend/internal/service/alerting.go:169-252 | which rules a host has: for each template level whose metric the host does not override, and each of its overrides, the rule that a sample breaches exactly by the template's operator and threshold, with its duration, level and parent |
| HostRules.MetasAreTold | backend/internal/service/alerting.go:169-234 | an alert of such a rule will carry the template's or override's title, category, metric, operator and threshold |
| Alerting.TableChange | backend/internal/service/alerting.go:304-348 | how one evaluation changes which keys have a firing row |
| Alerting.EnteredFollows | backend/internal/service/alerting.go:304-348 | a key with a firing row keeps firing in the engine |
| Alerting.EnteredCovers | backend/internal/service/alerting.go:311-347 | every key that fires in the engine keeps having a firing row, exactly unless firing starts inside a maintenance window |
| Alerting.ToldNext | backend/internal/service/alerting.go:319-337 | notifications about a key keep alternating and the last one keeps saying whether it has a firing row |
| AlertRecords.SpacesAre | backend/internal/service/alerting.go:381 | white space is exactly Go's Unicode white space |
| AlertRecords.TrimSpaceIsInner | backend/internal/service/alerting.go:356 | trimming takes the white space off both ends and nothing else |
| AlertRecords.ObjectTells | backend/internal/service/alerting.go:376-386 | a sample's object is the trimmed text of the first of device, slot, array, chip and rail that is not blank |
| AlertRecords.LastValueTells | backend/internal/service/alerting.go:292-309 | an alert's value is that of the batch's last sample of its metric and object |
| AlertRecords.NoValue | backend/internal/service/alerting.go:292-309 | and zero when the batch has none |
| AlertRecords.HandlingTells | backend/internal/service/alerting.go:304-373 | what one event adds: a firing row and a notification for a new firing, a silenced row for a muted one, a notification for a recovery that closes a row, otherwise nothing; with the host, level, category, metric, object, value and threshold spelt out |
| AlertRecords.HeldBackAddsNothing | backend/internal/service/alerting.go:338-342 | an evaluation held back by its parent or the suppress window opens no row, closes none and notifies nobody |
| Alerting.BatchKeeps | backend/internal/service/alerting.go:281-349 | over every batch notifications alternate, rows follow the engine, and cover it when no firing starts inside a maintenance window |
| Alerting.AlertService.ReloadRules | backend/internal/service/alerting.go:254-272 | replaces the rules; what fires keeps firing |
| Alerting.AlertService.Evaluate | backend/internal/service/alerting.go:281-349 | rows, with title and detail, and notifications are those of the engine's events in order, for exactly the host's rules; engine and table keep agreeing |
| Alerting.AlertService.EngineAndTableAgree | backend/internal/service/alerting.go:281-349 | between evaluations a key fires in the engine if and only if it has a firing row; notifications alternate |
| Alerting.AlertService.CriticalSilencesWarning | backend/internal/service/alerting.go:176-193 | on no sample does a warning start whose critical alarm fires once the sample has been evaluated |
| Alerting.AlertService.RecoversAtThird | backend/internal/engine/alarm_engine.go:128-134 | over every run of the service an alarm recovers exactly at the third false evaluation since it started firing |

## Left out

- Routes: paths under cost ties are not determined, since the graph is filled in map order; only costs are compared.
  Rounding and NaN costs are not modelled.
- MeshFingerprints.ComputeFingerprint: the FNV hash stands for the bytes it is fed, so collisions are not modelled.
- ByteCodec.ReadXor: the wrap-around of `lead+sig` on bytes that no encoder wrote is not modelled, because decoding is
  claimed for encoder output only.
- ChunkCodec.DecodeChunk: inherits that limit on bytes that no encoder wrote.
- Time series: roll-up and aggregate chunks, label matching and query defaults, corrupt chunks that a later write passes
  over, and retention beyond 106751 days, where the duration overflows.
- TimeSeries.Store.Write: requires time stamps in the non-negative 64-bit millisecond range: before the epoch a point
  does not lie in its own window, exactly as `Buckets.WindowHoldsFromEpochOn` says.
- TimeSeries.Store.ReadPoints: reads raw chunks; the aggregate tier has none without roll-up.
- TimeSeries.Store.Prune: both tiers' statements are applied, but without roll-up only raw points are there to be
  pruned.
- Ingest: storage errors of the de-duplication statement (the handler then ingests without it), reports without time
  stamp or batch id, sub-millisecond parts of the clock, and the JSON channel, which has the same steps.
- Spools.Spool.Enqueue: the sequence counter's wrap after 2^64 entries, and failing serialisation.
- Sessions: connection set-up, heartbeats' contents, downlink commands and reconnect backoff.
- TaskPool: what a collection job does, how it heeds its timeout, panics, and the status counts.
- Inventory.ReportsAreExact: assumes strictly increasing seconds, distinct part keys in a snapshot and one collection
  mode, as snapshots of one agent have them; equal seconds would defeat the `last_seen_at` comparison.
- InventoryServices.InventoryService.RecordChange: the change's links to its snapshot and alert row are not modelled,
  nor are storage errors half way through a round.
- Inventory: building the part list from the wire format.
- AlertTable: acknowledgement, delivery state, listing and trend queries; storage errors other than the unique index.
- Alerting.AlertService.Evaluate: how numbers are written in a title is a parameter and the detail column is a record
  instead of its JSON text; asynchronous delivery that may drop notifications, deletion of hosts, restarts that empty
  the engine, and offline and inventory alerts, which use other keys.
- Transport, authentication, storage engines, migrations, schedules, fan control, the frontend and packaging.
