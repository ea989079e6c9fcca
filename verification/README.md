# FastClone: a verified model

FastClone copies directory trees between machines, and FastCheck compares them. This project models, in Dafny,
the parts of both where correctness is hardest to see by reading, and proves what they promise.

**Link selection** (`Matching`, `LinkOrder`, `LinkGreedy`, `LinkSelection`, `LinkCosts`, `LinkTies`,
`LinkPlans`). Auxiliary connections are a matching between client and server network cards. Kuhn's algorithm is
proved to count the maximum matching of whatever is not blocked, and the best-first greedy that uses it as an
oracle to return the matching of the full size whose ranks are lexicographically least. `LinkCosts` says what
the plans are in the three numbers a link is judged by, without the ranking, and `LinkTies` what ties do.

**Binary delta** (`Ints`, `DeltaArith`, `Checksum`, `Signatures`, `DeltaPlan`, `BlockIndex`, `SlidingWindow`,
`DeltaPlanner`, `DeltaRebuild`, `DeltaComplete`, `DeltaStop`). `DeltaPlan` is the simple form: recompute the
checksum of every window and search all blocks. The rolling checksum, the counting-sort bucket index, the
in-memory planner, the streaming planner over a sliding window and the streaming signer are each proved equal to
it, in fixed-width arithmetic. `DeltaRebuild` says what a plan is worth, `DeltaComplete` that it misses nothing
it could have copied, and `DeltaStop` when it is given up.

**Disk IO driver** (`IoState`, `IoProtocol`, `IoFairness`, `IoProgress`, `CompletionList`, `DiskIoDriver`,
`SequentialReader`, `PulledReads`). `IoState` has one function per critical section. `DiskIoDriver` and
`CompletionList` are the objects, with the intrusive doubly linked list on the heap, and each method is proved
to do what its function says. `IoProtocol` lets submitters, scheduler, backend, cancellation and two-step
releases interleave in any order and proves the invariant over every run, `IoFairness` fairness and order, and
`IoProgress` that all work gets done. The completion lists are an object of their own inside the driver.
`PulledReads` puts the sequential reader under the streaming planner.

**Concurrent pipelines** (`Multiplicity`, `DirWalk`, `ComparePhase`, `ComparePipeline`, `HashPairing`,
`HashGates`, `HashDuplicates`, `HashWedges`). Workers and the main loop are state machines whose steps
interleave freely; each is proved to give what the sequential loop gives, to end, and not to get stuck. Waits
are the guards of steps. `HashDuplicates` says what one response too many does to a session, and `HashWedges`
has two that it stops.

**Wire** (`Codec`, `Frames`, `SignatureCodec`, `DeltaSession`). Framing under partial writes and reads, the
block-signature response, and a delta session from the server's file to the client's.

What the rest of the program contributes is a parameter: XXH3 is any function on byte sequences, and its
streaming state is the bytes fed so far; the reachability matrix and the same-subnet test are arbitrary; the
backend finishes each operation once, in any order, with any completion for it; local probes, which files can be
read, and both sides' hashes are arbitrary functions; sockets write and read any positive part of what is asked.

Where the code does not keep a promise for all inputs, the model follows the code, a lemma gives the input, and
the promise is proved under the exact condition:

- `FastClone/net_topology.cpp:953-957` calls the cost vector of the links lexicographically minimal. With the
  tie-break of the ranking counted in it is (`SelectionIsLexLeast`). Of family, subnet and round-trip time alone
  it is if no two links between different NICs cost the same (`NoTiesLeast`), and need not be otherwise
  (`TieWitness`); for two NICs on each side `SquareLeastIff` has the exact condition. What always holds is that
  no link could be followed by a cheaper one by whoever makes the same links before it (`ChosenIsCheapest`).
- Plans tile the new file if and only if every run of missing blocks is below 2^32 bytes and the block
  count was not truncated (`TilesIff`); for all old files at once, if and only if the new file is below 2^32
  bytes (`AlwaysTilesIff`). A file of 2^32 bytes is lost otherwise (`FourGiBRunIsLost`).
- A frame survives the wire if and only if its payload is at most 2^30 bytes (`FrameRoundTrip`).
- The early-stop test is exact for an old file if and only if a hundred times its length is below 2^64
  (`ProjectionExactIff`); for every longer one some new size is refused wrongly (`WrappedEvidence`). The
  comment at `FastClone/delta.cpp:377-379` says 2^57 bytes, which is below that bound. The benefit test has
  the same bound on the new file (`BenefitExactIff`).
- `FastClone/delta.h:202-203` gives the window room for one chunk and one block. Every old file and source of
  given sizes keeps to it if and only if the chunk is one byte or the file at most a byte longer than a block
  (`SizesKeepRoomIff`); for one old file it is enough that its first two windows match nothing
  (`ChunkPlusBlockIsKeptIff`, with a run in `RunsOutOfRoom`). What always holds is two chunks and a block,
  exclusive (`RoomOfBounds`).
- The signer's byte counter is 64 bits, so it accepts exactly the byte counts equal to the announced size
  modulo 2^64 (`Finish`).
- A cancelled read makes the sequential reader report no bytes without a failure before the end of the
  file. `next` refills before it waits and not while it waits: when the chunk it waits for was refused or
  cancelled and the file is not submitted to its end, it loops for ever. `Next` says exactly when, in `spins`;
  `RefusedSpins` and `CancelledSpins` are runs of both kinds.
- Entries flushed into the compare pipeline after its last worker has left stay queued (`LateStaysQueued`,
  with a run in `LateFlushIsStuck`). Once all have left, everything flushed was handed over if and only if
  there was no such flush (`StopDrainsIff`).
- The check engine means to ignore a duplicate hash response (`FastCheck/check_engine.cpp:618`). It does so
  if and only if the path is not awaited any more (`DuplicateIsIgnoredIff`); otherwise it counts one request
  too many as answered, and the session never ends (`NeverFinishes`). The loop receives only before the end
  of the manifest or with something in flight (`FastCheck/check_engine.cpp:711-727`), so one more answer does
  no harm if and only if its path is not awaited, or the manifest is done, nothing is in flight and no request
  is left to send, which would open the loop again (`HarmlessIff`, `DuplicateInSession`). The harm is of two
  kinds (`HowItHalts`): the counter wraps to 2^64 - 1 (`OneFileWedge`), or it is zero while an answer is still
  to come, which is then never received (`TwoFileWedge`). With one response per request no pairing is lost
  (`NoPairingIsLost`).


## Model

| member | source | states |
|---|---|---|
| `Matching.SearchFailed` | FastClone/net_topology.cpp:1007-1019 | when every reachable open server has been visited and is matched to a visited client, no augmenting path exists: the visited set is closed |
| `Matching.FreeServerFound` | FastClone/net_topology.cpp:1013-1016 | reaching an unmatched server grows the matching by one client and keeps every earlier client matched |
| `Matching.PartnerMoved` | FastClone/net_topology.cpp:1013-1016 | re-routing a matched client frees its server for the new one; nobody loses a partner |
| `Matching.Kuhn.ClearVisited` | FastClone/net_topology.cpp:1031 | between searches every server is unvisited again |
| `Matching.Kuhn.Augment` | FastClone/net_topology.cpp:1007-1019 | success matches exactly one more client; failure leaves the matching as it was and a closed, fully matched visited set; it terminates because visited strictly grows |
| `Matching.NoLargerMatching` | FastClone/net_topology.cpp:1021-1037 | the servers visited by failed searches form a cover: no matching of the open graph is larger |
| `Matching.PartnersAtMost` | FastClone/net_topology.cpp:1021-1037 | a matching has no more edges than matched servers |
| `Matching.PairsMatch` | FastClone/net_topology.cpp:1021-1037 | the partner table is a matching of the open graph of its own size |
| `Matching.MatchingFound` | FastClone/net_topology.cpp:1021-1037 | there is a matching of exactly the size counted |
| `Matching.MaxMatching` | FastClone/net_topology.cpp:1021-1037 | the count is the true maximum cardinality of the bipartite graph without the blocked vertices, for every adjacency and every blocked set |
| `LinkOrder.StrLessIsOrder` | FastClone/net_topology.cpp:912-913 | string order is a strict total order |
| `LinkOrder.StrLessMeaning` | FastClone/net_topology.cpp:912-913 | the first character in which two names differ decides, and a proper prefix comes first |
| `LinkOrder.BetterIsOrder` | FastClone/net_topology.cpp:907-916 | the edge ranking is a strict total order, so the ranking does not depend on enumeration |
| `LinkCosts.CheaperIsBetter` | FastClone/net_topology.cpp:907-910 | a link that is cheaper in family, subnet and round-trip time, in that order, ranks before: the ranking only breaks ties beyond these three |
| `LinkOrder.Sort` | FastClone/net_topology.cpp:961-966 | the ranked list is strictly ascending and holds exactly the given edges |
| `LinkOrder.PrecedesTransitive` | FastClone/net_topology.cpp:953-957 | preceding, the cost order on sets of edges, is transitive |
| `LinkOrder.FirstDifference` | FastClone/net_topology.cpp:953-957 | two different ranked lists of one length first differ somewhere |
| `LinkOrder.PrecedesIsLexicographic` | FastClone/net_topology.cpp:953-957 | on ranked lists of one length, one set precedes the other if and only if its list is lexicographically smaller rank by rank |
| `LinkGreedy.SkipClash` | FastClone/net_topology.cpp:1057-1059 | an edge at a used NIC is in no full matching that contains the picks, and passing over it keeps the greedy invariant |
| `LinkGreedy.SkipRefused` | FastClone/net_topology.cpp:1069-1072 | an edge the guard refuses is in no full matching that contains the picks, and skipping it keeps the greedy invariant |
| `LinkGreedy.Commit` | FastClone/net_topology.cpp:1060-1068 | committing an edge the guard accepts keeps a full matching reachable and the picks first among all that agree so far (the exchange step) |
| `LinkGreedy.Begin` | FastClone/net_topology.cpp:1039-1050 | at the start a full matching of size min(budget, maximum) is reachable |
| `LinkGreedy.Finish` | FastClone/net_topology.cpp:1051-1074 | when the ranked edges or the places are used up, the picks are a full matching that precedes every other |
| `LinkSelection.CollectBest` | FastClone/net_topology.cpp:918-951 | the map keeps, for each pair of NICs, the best of all offered cells that avoid the primary NICs on both sides |
| `LinkSelection.ImprovedMatching` | FastClone/net_topology.cpp:918-951 | replacing every edge by the best of its NIC pair keeps a matching, of the same size |
| `LinkSelection.ImprovedPrecedes` | FastClone/net_topology.cpp:918-951 | and never makes it rank later |
| `LinkSelection.AssignIds` | FastClone/net_topology.cpp:968-989 | the NICs get distinct ids below their number, in the order of their names |
| `LinkSelection.BuildGraph` | FastClone/net_topology.cpp:993-998 | each row of the adjacency table is the servers of that client's edges, in the order of the ranked edges, and the table holds exactly the numbered edges |
| `LinkSelection.OracleMeaning` | FastClone/net_topology.cpp:1021-1037 | the matching count on ids is the largest number of links with free NICs |
| `LinkSelection.TryEdge` | FastClone/net_topology.cpp:1051-1073 | one turn of the loop: an edge is committed if and only if some full matching contains the picks and the edge |
| `LinkSelection.SelectEdges` | FastClone/net_topology.cpp:1039-1074 | the guarded greedy returns the promised selection over the ranked edges |
| `LinkSelection.SelectionAmongAll` | FastClone/net_topology.cpp:953-957 | optimal among the best edges per NIC pair is optimal among all offered cells |
| `LinkSelection.SelectionIsLexLeast` | FastClone/net_topology.cpp:953-957 | no ranked selection of that size has a lexicographically smaller rank vector |
| `LinkPlans.FindPrimaryGroup` | FastClone/net_topology.cpp:876-882 | the NIC group of the first endpoint with the primary key, or the key itself |
| `LinkPlans.SelectAutoLinks` | FastClone/net_topology.cpp:835-1075 | the plans are cheapest links: NIC-disjoint and clear of the primary, together with it at most maxConnections and fewer only if no more can be made, in ascending order of the three numbers, each the cheapest between its NICs, and none followed by a cheaper one in any other selection that shares the links before it; they are also the ranked picks of the best selection |
| `LinkCosts.SelectionIsMatching` | FastClone/net_topology.cpp:918-951 | links that could be made together are a matching of the offered edges, and the other way round by PicksSelectable |
| `LinkCosts.NothingBefore` | FastClone/net_topology.cpp:953-957 | a selection of the same size that has the first k picks has nothing else that ranks before the next pick |
| `LinkCosts.ChosenIsCheapest` | FastClone/net_topology.cpp:884-1074 | the ranked picks of a best selection are cheapest links, said in the three numbers |
| `LinkCosts.ServerKeyTells` | FastClone/net_topology.cpp:841-843 | two server keys are the same if and only if host and port are |
| `LinkCosts.NicMeaning` | FastClone/net_topology.cpp:844-859 | when two addresses count as one NIC: the same interface or group where known, else the same address, or host and port |
| `LinkTies.NoTiesLeast` | FastClone/net_topology.cpp:953-957 | if no two links between different NICs cost the same, no selection of that size has lexicographically smaller costs |
| `LinkTies.OneLinkLeast` | FastClone/net_topology.cpp:953-957 | a single link costs least, ties or not |
| `LinkTies.SquareLeastIff` | FastClone/net_topology.cpp:953-957 | with two NICs on each side, all links reachable and equal in family and subnet, the costs of the two links are lexicographically least if and only if no link that ties with the first is left out whose opposite is shorter |
| `LinkTies.TiesThatHurt` | FastClone/net_topology.cpp:953-957 | whenever the first NIC reaches both servers in the same time, and the second the first server faster than the second but not faster than the first NIC, the costs are not least |
| `LinkTies.TieWitness` | FastClone/net_topology.cpp:953-957 | round-trip times of 1, 1, 3 and 5: links of 1 and 5 are made where links of 1 and 3 could be |
| `DeltaArith.Isqrt64` | FastClone/delta.cpp:152-174 | the exact floor square root for every 64-bit value; every intermediate value fits 64 bits |
| `DeltaArith.RootIsUnique` | FastClone/delta.cpp:152-174 | only one number is the floor square root |
| `DeltaArith.ChooseBlockSize` | FastClone/delta.cpp:176-186 | a multiple of 1024 between 2048 and 131072, below the upper limit not shorter than the root of the file size, above the lower limit less than 1024 longer than it |
| `DeltaArith.BalancedSizeIsUnique` | FastClone/delta.cpp:176-186 | only one number has these properties |
| `DeltaArith.StrongLenMeaning` | FastClone/delta.cpp:188-196 | 8, 12 or 16 bytes: more than 8 exactly from 2^16 + 1 blocks on, 16 from 2^22 + 1 |
| `DeltaArith.PrefixIsLeast` | FastClone/delta.cpp:356-370 | the prefix before the first early-stop check is the least that is a MiB, 256 blocks and five hundredths of the old file, cut to 256 MiB |
| `DeltaArith.Mul64Exact` | FastClone/delta.cpp:34-44 | the portable 64x64 product has the exact 128-bit value: no carry is lost |
| `DeltaArith.LessEqualIsOrder` | FastClone/delta.cpp:48-50 | comparing high and low words is comparing values |
| `DeltaArith.ProjectionExactIff` | FastClone/delta.cpp:372-384 | for an old length the early-stop test is the test over unbounded integers, for all evidence a scan can produce and every new size, if and only if a hundred times the length is below 2^64 |
| `DeltaArith.ProjectionIsExact` | FastClone/delta.cpp:372-384 | the two sides of the test, when neither factor wraps |
| `DeltaArith.WrappedEvidence` | FastClone/delta.cpp:372-384 | for every longer old file one matched byte out of one scanned is refused for some new size, though the projection is above the threshold |
| `DeltaArith.ProjectionWraps` | FastClone/delta.cpp:372-384 | an instance: an old file of 2^62 bytes is refused on any evidence |
| `DeltaArith.BenefitExactIff` | FastClone/delta.cpp:552-556 | for a new file the benefit test is the exact ratio, for every download, if and only if a hundred times the file is below 2^64 |
| `Checksum.AccumulateByte` | FastClone/delta.cpp:121-135 | one byte keeps the two 32-bit accumulators equal to the sums modulo 2^32 |
| `Checksum.WeakInit` | FastClone/delta.cpp:121-135 | the checksum is the byte sum and the weighted sum, each modulo 2^16 |
| `Checksum.WeakValue` | FastClone/delta.h:66-74 | one 32-bit number: the weighted sum in the upper half, the byte sum in the lower |
| `Checksum.RolledSums` | FastClone/delta.cpp:137-146 | dropping the first byte and adding a last changes the two sums by the rolled amounts |
| `Checksum.RollIsShift` | FastClone/delta.cpp:137-146 | rolling is recomputing on the shifted window, under 32-bit wrap-around, for every window length |
| `Signatures.GenerateSignatures` | FastClone/delta.cpp:209-228 | the signature set of the buffer: the balanced block size, and block by block the weak and strong checksum of its bytes, the last block short |
| `DeltaComplete.SignatureMeaning` | FastClone/delta.cpp:176-228 | the signature set of a file below 2^42 bytes, value by value: file size, balanced block size, as many blocks as it takes, strong length for that many, and the two checksums of each full block |
| `Signatures.SigsStable` | FastClone/delta.cpp:286-340 | signatures of complete blocks do not change as more bytes arrive |
| `Signatures.BlockFinished` | FastClone/delta.cpp:286-340 | the bytes accumulated for a finished block are that block of the file |
| `Signatures.PartArrived` | FastClone/delta.cpp:286-340 | a part of a block keeps the state of the arriving block |
| `Signatures.BlockArrived` | FastClone/delta.cpp:286-340 | a finished block extends the signatures by the right entry and starts the next |
| `Signatures.BytesPastTheEnd` | FastClone/delta.cpp:286-340 | bytes past the announced size change no signature |
| `Signatures.WholeFileSigned` | FastClone/delta.cpp:342-354 | with exactly the announced bytes every block is signed |
| `Signatures.StreamingSigner.Consume` | FastClone/delta.cpp:286-340 | a segment cut at block boundaries |
| `Signatures.StreamingSigner.Update` | FastClone/delta.cpp:286-340 | feeding a segment appends it to what was fed and keeps the signer exact |
| `Signatures.StreamingSigner.Finish` | FastClone/delta.cpp:342-354 | succeeds exactly when the 64-bit byte counter equals the announced size, and then gives the one-shot signature set and the whole-file hash |
| `Signatures.SignPieces` | FastClone/delta.cpp:251-354 | the same for every way of cutting the file into segments |
| `DeltaPlan.SearchFindsHighest` | FastClone/delta.cpp:456-478 | the naive search finds the eligible block of highest index, and none only if there is none |
| `BlockIndex.CountBuckets` | FastClone/delta.cpp:409-418 | the counts are the numbers of full blocks per bucket |
| `BlockIndex.PrefixSums` | FastClone/delta.cpp:419-421 | prefix sums turn counts into bucket starts |
| `BlockIndex.FillEntries` | FastClone/delta.cpp:422-435 | every full block lands once in its bucket, by descending index |
| `BlockIndex.BuildIndex` | FastClone/delta.cpp:405-435 | the bucket index is valid: each bucket holds exactly its full blocks, highest first |
| `BlockIndex.AllCandidates` | FastClone/delta.cpp:456-478 | every block with the wanted weak checksum is in the probed bucket |
| `BlockIndex.NextEntry` | FastClone/delta.cpp:456-478 | one step of the bucket loop is one step of the naive search |
| `BlockIndex.ProbeBucket` | FastClone/delta.cpp:449-478 | probing the bucket is the naive search over all blocks, counters included |
| `SlidingWindow.ByteSource.Read` | FastClone/delta.h:205-209 | the next bytes, as many as the pace of the source allows, none only at the end; every short-read pattern is a pace |
| `SlidingWindow.LoadBounds` | FastClone/delta.cpp:93-110 | loading reaches the goal, keeps what is there, and takes less than a chunk beyond it |
| `SlidingWindow.Window.Refill` | FastClone/delta.cpp:98-108 | one refill makes room for at least a chunk and keeps what the read delivers |
| `SlidingWindow.Window.Advance` | FastClone/delta.cpp:69-77 | drops the consumed prefix only once it has grown to a chunk |
| `SlidingWindow.Window.LoadTo` | FastClone/delta.cpp:93-110 | loads up to the goal or the end of the file; base, size and largest size of the buffer are the function of the read lengths |
| `SlidingWindow.Window.View` | FastClone/delta.cpp:80-83 | the bytes of the old file at the cursor, read only when loaded |
| `SlidingWindow.Window.ByteAt` | FastClone/delta.cpp:87-90 | one byte of the old file, read only when loaded |
| `DeltaPlanner.EmitPlan` | FastClone/delta.cpp:507-549 | copies and coalesced misses of the matched table |
| `DeltaPlanner.RolledWindow` | FastClone/delta.cpp:491-492 | the rolled checksum is that of the next window |
| `DeltaPlanner.MiddleTurn` | FastClone/delta.cpp:448-503 | one turn of the fast loop is one step of the naive scan |
| `DeltaPlanner.LastTurn` | FastClone/delta.cpp:448-505 | and the last turn ends where the naive scan ends |
| `DeltaPlanner.ScanMemory` | FastClone/delta.cpp:444-505 | the rolling, indexed scan is the naive scan |
| `DeltaPlanner.BuildPlan` | FastClone/delta.cpp:386-550 | the fast planner gives the naive plan, field by field, statistics included |
| `DeltaPlanner.WindowBytes` | FastClone/delta.cpp:618-637 | after compaction the window at the cursor is served |
| `DeltaPlanner.NextWeak` | FastClone/delta.cpp:654-670 | the next checksum through the window is that of the next position |
| `DeltaPlanner.ScanStream` | FastClone/delta.cpp:612-680 | the streaming scan is the naive scan, and captures every match with its bytes |
| `DeltaPlanner.BuildPlanStreaming` | FastClone/delta.cpp:558-721 | the streaming planner gives the same plan as the in-memory one for every short-read pattern, captures each match once with the right bytes, and its buffer takes the room that the read lengths determine, always below two chunks and a block |
| `DeltaPlanner.RoomOfBounds` | FastClone/delta.cpp:612-680 | for every source and old file the buffer stays below two chunks and a block, and below the file and a chunk |
| `DeltaPlanner.ChunkPlusBlockIsKeptIff` | FastClone/delta.h:198-203 | over an old file whose first two windows match nothing, the room of one chunk and one block is kept by every source if and only if the chunk is one byte or the file at most a byte longer than a block |
| `DeltaPlanner.RunsOutOfRoom` | FastClone/delta.h:198-203 | a run of the streaming planner whose buffer is larger, for every other such file |
| `DeltaPlanner.SizesKeepRoomIff` | FastClone/delta.h:198-203 | by sizes alone: every signature set, old file, option and source of these sizes keeps to that room if and only if the chunk is one byte or the file at most a byte longer than a block |
| `DeltaRebuild.ScanResult` | FastClone/delta.cpp:444-505 | every match is genuine: equal weak and truncated strong checksums, sources disjoint and inside the old file, each block matched once |
| `DeltaRebuild.EmittedParts` | FastClone/delta.cpp:520-549 | copies and misses are the matched and missing spans in order, the misses narrowed to 32 bits |
| `DeltaRebuild.NarrowingLoses` | FastClone/delta.cpp:525-532 | narrowing keeps a list of runs if and only if each is below 2^32 |
| `DeltaRebuild.TilesIff` | FastClone/delta.cpp:386-550 | copies and misses tile the new file without gap or overlap if and only if every miss run is below 2^32 bytes and the block count was not truncated |
| `DeltaRebuild.AlwaysTilesIff` | FastClone/delta.cpp:209-550 | for a signed new file: every plan that is not stopped early tiles it, for all old files and options, if and only if the file is below 2^32 bytes |
| `DeltaRebuild.DownloadBalance` | FastClone/delta.cpp:525-548 | bytes to download plus bytes matched make the new file |
| `DeltaRebuild.BenefitMeaning` | FastClone/delta.cpp:552-556 | for new files below 2^64 / 100 bytes the benefit test refuses early-stopped plans, and others exactly when at most 35 hundredths were matched |
| `DeltaRebuild.TilingRebuilds` | FastClone/delta.cpp:520-549 | carrying out a tiling of right copies and misses gives the file, whatever was there before |
| `DeltaRebuild.PlanRebuilds` | FastClone/delta.cpp:386-550 | without checksum collision, copying from the old file and filling from the new rebuilds the new file |
| `DeltaRebuild.DeltaRoundTrip` | FastClone/delta.cpp:209-550 | sign, plan, carry out: the new file, its tiling, and the download balance |
| `DeltaRebuild.SmallRoundTrip` | FastClone/delta.cpp:209-550 | the same for every new file below 2^32 bytes, whatever matches |
| `DeltaComplete.NothingOverlooked` | FastClone/delta.cpp:444-505 | a plan that is not stopped early overlooks nothing: no window of the old file outside the copied ones has the checksums of a full block that is not copied |
| `DeltaComplete.SomeLeft` | FastClone/delta.cpp:456-478 | in a file planned against itself, a block with the checksums of the next window is still unmatched, however blocks repeat or collide |
| `DeltaComplete.OwnPlan` | FastClone/delta.cpp:209-550 | an unchanged file downloads its short last block and nothing else; below 2^64 / 100 bytes its plan is never stopped early |
| `DeltaComplete.MissesApart` | FastClone/delta.cpp:525-548 | the operations are the two kinds of a sequence of stretches of which no two neighbours are both missing: neighbouring missing blocks are one miss |
| `DeltaStop.ScanStops` | FastClone/delta.cpp:495-503 | a scan stops at the first state it looks at that is at most 35 hundredths of the way, and is otherwise the scan that never stops; it looks when it has reached the prefix, and then every 4 MiB |
| `DeltaStop.StopMeaning` | FastClone/delta.cpp:386-517 | a plan is stopped early if and only if its scan looks at such a state, and downloads the whole file then; otherwise it is the plan made without early stop |
| `DeltaStop.ProbeCounts` | FastClone/delta.cpp:456-478 | a probe counts the candidates down to the one it finds, and computes the strong checksum if and only if one of them is unmatched |
| `DeltaStop.StatsAddUp` | FastClone/delta.cpp:444-505 | candidates, strong checksums and matched bytes of a scan are the sums over its windows |
| `DeltaStop.PlanStats` | FastClone/delta.cpp:507-512 | and these are the statistics of the plan |
| `DeltaRebuild.NothingMatched` | FastClone/delta.cpp:520-549 | with nothing matched the plan is one narrowed miss |
| `DeltaRebuild.FourGiBRunIsLost` | FastClone/delta.cpp:525-532 | a file of 2^32 bytes with nothing matched yields a miss of length 0: the tiling does need the bound |
| `IoState.PopIsFifo` | FastClone/disk_io_driver.cpp:82-93 | a pop takes the oldest of its priority and leaves the other priority alone; a large operation goes only when there is no small one |
| `IoState.PushIsFifo` | FastClone/disk_io_driver.cpp:47-61 | an accepted operation goes to the back of its priority |
| `IoState.FairRuns` | FastClone/disk_io_driver.cpp:179-198 | under contention at most 2*readWeight reads, or writeWeight writes, run in a row; zero weights count as one |
| `IoState.RoundIsWeighted` | FastClone/disk_io_driver.cpp:179-198 | under contention the picks come in rounds of readWeight reads and then writeWeight writes, zero counting as one |
| `IoState.FileSplit` | FastClone/disk_io_driver.cpp:333-353 | a completion list is one file's part and the rest |
| `IoState.FilesApart` | FastClone/disk_io_driver.cpp:333-353 | taking out one file's completions leaves every other file's unchanged |
| `IoProtocol.SubmitKeeps` | FastClone/disk_io_driver.cpp:34-79 | submitting keeps the invariant: each accepted operation is queued and counted |
| `IoProtocol.HandOverKeeps` | FastClone/disk_io_driver.cpp:166-306 | picking, handing to the backend, finishing, settling, cancelling and stopping only move operations between places |
| `IoProtocol.CompleteAccounts` | FastClone/disk_io_driver.cpp:115-125 | one delivery takes one from the counter of its file |
| `IoProtocol.CompleteReleases` | FastClone/disk_io_driver.cpp:108-128 | the last delivery of a registered file runs its release; no other does |
| `IoProtocol.CompleteKeeps` | FastClone/disk_io_driver.cpp:95-129 | delivering a completion keeps the invariant |
| `IoProtocol.DeliveryKeeps` | FastClone/disk_io_driver.cpp:220-232 | reaped, refused and cancelled operations are all delivered through the same settlement |
| `IoProtocol.CleanupKeeps` | FastClone/disk_io_driver.cpp:425-472 | draining and both steps of a release keep the invariant |
| `IoProtocol.StepKeeps` | FastClone/disk_io_driver.cpp:34-472 | every step of every thread keeps the invariant |
| `IoProtocol.RunKeeps` | FastClone/disk_io_driver.h:169-215 | the invariant holds in every state of every run |
| `IoProtocol.EachOpInOnePlace` | FastClone/disk_io_driver.h:204-214 | an accepted operation is in exactly one of queue, hand-over, backend, reaped, being cancelled, or finished; the outstanding counter of a file is the number not finished |
| `IoProtocol.EachCompletionOnce` | FastClone/disk_io_driver.h:92-97 | every finished operation has one completion of its own, which is pending, was drained, or was dropped by a release |
| `IoProtocol.NoEarlyDrop` | FastClone/disk_io_driver.h:92-97 | no completion is dropped before the last outstanding one of its file is enqueued, nor for a file that was not released, in every interleaving of the two-step release |
| `IoProtocol.ReleaseCompletes` | FastClone/disk_io_driver.h:207-210 | once a released file has nothing outstanding and the release has run, no completion, counter or deferred release of it remains |
| `IoProtocol.FlightStaysBounded` | FastClone/disk_io_driver.cpp:171-173 | what is past the queues never exceeds maxInFlight |
| `IoProtocol.PicksFollow` | FastClone/disk_io_driver.cpp:166-212 | nothing between two picks changes the credits, so the picks of any run form the stretches fairness is about |
| `IoProgress.RestMeansDone` | FastClone/disk_io_driver.cpp:166-301 | in every reachable state in which nothing can be picked, handed over, reaped, delivered, settled or flushed, every accepted operation is finished, no outstanding counter is left and nothing is in flight |
| `IoProgress.StepLowers` | FastClone/disk_io_driver.cpp:166-301 | each of these steps lowers the work left, and of all steps a submission alone raises it |
| `IoProgress.WorkIsBounded` | FastClone/disk_io_driver.cpp:166-301 | in every run at most five such steps are taken for each operation accepted |
| `IoProgress.AcceptedMeaning` | FastClone/disk_io_driver.cpp:34-72 | a batch is accepted up to the first request whose queue has reached its limit, and no queue grows beyond it |
| `IoProgress.QueuesStayBounded` | FastClone/disk_io_driver.cpp:34-72 | in every state of every run the queues are within their limits |
| `IoProgress.HowTheyEnd` | FastClone/disk_io_driver.cpp:213-231 | an operation the backend refuses ends with Error, a flushed one with Cancelled, both for that operation and with nothing transferred |
| `IoFairness.RunIsFair` | FastClone/disk_io_driver.cpp:166-212 | in every stretch of every run in which both queues are nonempty at each pick, at most 2*readWeight picks in a row take a read, or writeWeight a write |
| `IoFairness.PickQueues` | FastClone/disk_io_driver.cpp:82-93 | a pick takes the operation it hands over off the front of its kind and priority |
| `IoFairness.StepInOrder` | FastClone/disk_io_driver.cpp:34-212 | every step keeps what was accepted the same as what was picked and what is queued, in order |
| `IoFairness.RunIsFifo` | FastClone/disk_io_driver.cpp:34-212 | in every state of every run the operations of one kind and priority picked so far are a prefix of those accepted, and unless the driver was cancelled the rest is in the queue, in order |
| `CompletionList.ContentsOfFile` | FastClone/disk_io_driver.h:185-196 | filtering nodes by file is filtering completions by file |
| `CompletionList.WithoutFirst` | FastClone/disk_io_driver.cpp:144-164 | unlinking a file's first node takes it off that file's list and no other |
| `CompletionList.CompletionQueue.PerFileView` | FastClone/disk_io_driver.h:189-199 | the per-file lists are the order filtered by file, there is one exactly for files with completions, and the count is the backlog |
| `CompletionList.CompletionQueue.OrderLink` | FastClone/disk_io_driver.cpp:132-142 | appends a node to the doubly linked order |
| `CompletionList.CompletionQueue.OrderUnlink` | FastClone/disk_io_driver.cpp:144-164 | takes a node out of the order wherever it is; a node that is not linked changes nothing |
| `CompletionList.CompletionQueue.Push` | FastClone/disk_io_driver.cpp:95-101 | a completion goes to the end of the order and of its file's list |
| `CompletionList.CompletionQueue.PopHead` | FastClone/disk_io_driver.cpp:313-328 | the head of the order is the head of its file's list |
| `CompletionList.CompletionQueue.DrainAll` | FastClone/disk_io_driver.cpp:310-331 | all completions in enqueue order |
| `CompletionList.CompletionQueue.DrainFile` | FastClone/disk_io_driver.cpp:333-353 | one file's completions in enqueue order; the others stay as they are and where they are |
| `CompletionList.CompletionQueue.ReleaseFileLocked` | FastClone/disk_io_driver.cpp:452-463 | drops one file's completions and nothing else |
| `DiskIoDriver.AcceptedUpTo` | FastClone/disk_io_driver.cpp:47-62 | stopping at the first full queue accepts exactly the longest prefix that finds room |
| `DiskIoDriver.MergedCounts` | FastClone/disk_io_driver.cpp:63-68 | counting a batch apart and merging is counting in place |
| `DiskIoDriver.DiskIoDriver.MergeOutstanding` | FastClone/disk_io_driver.cpp:63-68 | the merge loop adds the batch's counts per file |
| `DiskIoDriver.DiskIoDriver.Submit` | FastClone/disk_io_driver.cpp:34-79 | does to the fields what the submit action does to the state, and hands back the rest of the batch |
| `DiskIoDriver.DiskIoDriver.PopPreferSmall` | FastClone/disk_io_driver.cpp:82-93 | the loop finds the first small operation, or takes the front |
| `DiskIoDriver.DiskIoDriver.ChooseDirection` | FastClone/disk_io_driver.cpp:174-187 | which queue, and the refilled credits |
| `DiskIoDriver.DiskIoDriver.Pick` | FastClone/disk_io_driver.cpp:166-212 | does what the pick action does, exactly when it is enabled |
| `DiskIoDriver.DiskIoDriver.SettleFile` | FastClone/disk_io_driver.cpp:115-125 | one operation less outstanding; says whether a deferred release is due |
| `DiskIoDriver.DiskIoDriver.EnqueueCompletion` | FastClone/disk_io_driver.cpp:95-129 | does what one delivery does to the state, through the linked lists |
| `DiskIoDriver.DiskIoDriver.DrainCompletions` | FastClone/disk_io_driver.cpp:310-331 | delivers everything in enqueue order |
| `DiskIoDriver.DiskIoDriver.DrainCompletionsForFile` | FastClone/disk_io_driver.cpp:333-353 | delivers one file's completions in enqueue order |
| `DiskIoDriver.DiskIoDriver.BeginCancel` | FastClone/disk_io_driver.cpp:391-401 | takes over both queues once |
| `DiskIoDriver.DiskIoDriver.Flush` | FastClone/disk_io_driver.cpp:402-417 | one Cancelled completion per operation taken, in queue order |
| `DiskIoDriver.DiskIoDriver.DecideRelease` | FastClone/disk_io_driver.cpp:425-439 | release at once, or register for the last delivery |
| `DiskIoDriver.DiskIoDriver.ActRelease` | FastClone/disk_io_driver.cpp:440-443 | the second step drops the file's completions |
| `SequentialReader.FileReads.Submit` | FastClone/disk_io_driver.cpp:573-576 | accepts the prefix of a batch of reads of this file that the driver has room for at that submission, also none; every cut of every submission is a room |
| `SequentialReader.FileReads.Drain` | FastClone/disk_io_driver.cpp:607-613 | completions come in any order and any groups, after any number of timed-out waits |
| `SequentialReader.ChainBounds` | FastClone/disk_io_driver.cpp:555-569 | consecutive chunks rise strictly and stay inside the file |
| `SequentialReader.GrowTracked` | FastClone/disk_io_driver.cpp:573-576 | however much of a batch is accepted, every chunk planned is in flight or has arrived, never both |
| `SequentialReader.MoveTracked` | FastClone/disk_io_driver.cpp:614-619 | an arriving chunk moves from in flight to arrived |
| `SequentialReader.TakeTracked` | FastClone/disk_io_driver.cpp:591-604 | the next chunk is the first of the plan |
| `SequentialReader.SequentialReader.Refill` | FastClone/disk_io_driver.cpp:550-577 | never more than readAhead operations in flight, every chunk before nextSubmit in flight, arrived or handed on, and where the driver has room, readAhead in flight or the file submitted to its end |
| `SequentialReader.SequentialReader.Absorb` | FastClone/disk_io_driver.cpp:614-619 | files completions by offset, none lost or doubled |
| `SequentialReader.SequentialReader.AwaitNext` | FastClone/disk_io_driver.cpp:590-624 | ends with the next chunk at hand if and only if it was submitted and not cancelled before; otherwise with nothing in flight, and spinning if and only if the file is not submitted to its end |
| `SequentialReader.SequentialReader.TakeNext` | FastClone/disk_io_driver.cpp:591-605 | a full read extends what was handed on by exactly the next bytes of the file |
| `SequentialReader.SequentialReader.Next` | FastClone/disk_io_driver.cpp:579-625 | the outcome is that of the operation at the next offset, for every completion order and every cut submission: its bytes, a failure for an error or early end, no bytes for a cancelled chunk and after it; and exactly when the call does not end |
| `SequentialReader.SequentialReader.Pull` | FastClone/disk_io_driver.cpp:627-647 | the next bytes of the file in order; fewer than asked for only at the end, after a failure, after a cancelled chunk, or when the call does not end |
| `SequentialReader.RefusedSpins` | FastClone/disk_io_driver.cpp:579-625 | a driver that refuses the first submission: for every file that is not empty the first call loops for ever |
| `SequentialReader.CancelledSpins` | FastClone/disk_io_driver.cpp:579-625 | a driver cancelled with one read under way: for every file longer than a chunk the first call brings no bytes and no failure before the end, and the second loops for ever |
| `PulledReads.PullAll` | FastClone/disk_io_driver.cpp:627-647 | pulling pieces of any sizes, one after the other, gives the file cut into those pieces; after a failed or cancelled read, or in a call that does not end, what was read before it, cut into those pieces |
| `PulledReads.PlanOverReader` | FastClone/delta.cpp:558-721 | the requests of the streaming planner over a file, put to the reader, get the same answers up to the place where a read fails, a chunk is cancelled or a call does not end; if none does, all of them, and the plan is that of the file |
| `PulledReads.SameReads` | FastClone/delta.h:205-209 | the reader is the byte source of the streaming planner: asked for the same sizes it delivers what a plain source over the same bytes does, whatever order completions come in |
| `DirWalk.StepKeeps` | FastClone/parallel_dir_walk.h:93-153 | every step of every worker keeps the invariant |
| `DirWalk.LeavingMeansComplete` | FastClone/parallel_dir_walk.h:58-61 | when any worker leaves, no callback having thrown and done being unset, the processed directories are those of the sequential walk, once each |
| `DirWalk.CountIsExact` | FastClone/parallel_dir_walk.h:120-150 | activeDirs is always the total of the batches in hand, so it returns to zero even when callbacks throw, and no directory is processed twice |
| `DirWalk.StepDecreases` | FastClone/parallel_dir_walk.h:93-153 | every step lowers the measure of unprocessed directories |
| `DirWalk.SomeoneCanStep` | FastClone/parallel_dir_walk.h:101-111 | until all workers have left some worker can step: the termination predicate cannot wedge |
| `DirWalk.RunsAreShort` | FastClone/parallel_dir_walk.h:93-153 | every run ends within a bound given by the size of the tree |
| `DirWalk.WorkQueue.Claim` | FastClone/parallel_dir_walk.h:112-117 | pops up to a batch from the back |
| `DirWalk.WorkQueue.GiveBack` | FastClone/parallel_dir_walk.h:138-146 | pushes the children unless the batch failed, and returns the directories in hand |
| `ComparePhase.RepresentationsAgree` | FastClone/compare_phase.cpp:16-29 | an instant written as Unix nanoseconds or as Windows ticks compares as the same instant |
| `ComparePhase.ToleranceIsSymmetric` | FastClone/compare_phase.cpp:16-29 | the tolerance does not depend on the side |
| `ComparePhase.VerdictMeaning` | FastClone/compare_phase.cpp:55-90 | what Missing, Diff and Same mean, in every mode |
| `ComparePhase.FastDecision` | FastClone/compare_phase.cpp:16-90 | in Fast mode files of one size are the same without a hash if and only if their times agree: at most 2 ms apart as instants where both make sense as Unix nanoseconds or Windows ticks, else as raw numbers |
| `ComparePhase.StricterIsFiner` | FastClone/compare_phase.cpp:55-90 | a stricter mode never calls files the same that a laxer one tells apart |
| `ComparePipeline.StepKeeps` | FastClone/compare_pipeline.cpp:24-171 | every step of caller and workers keeps the invariant |
| `ComparePipeline.EachEntryInOnePlace` | FastClone/compare_pipeline.cpp:24-68 | each entry is in exactly one of buffer, tasks, a batch, results, drained; InFlight counts the first four |
| `ComparePipeline.DrainedAreJudged` | FastClone/compare_pipeline.cpp:141-150 | each drained item carries the decision on its own probe |
| `ComparePipeline.PendingIsExact` | FastClone/compare_pipeline.cpp:75-81 | the lock-free count is exact when no worker is between pushing and counting |
| `ComparePipeline.CapIsKept` | FastClone/compare_pipeline.cpp:111-132 | a claim before the stop leaves the workers at work within a positive cap |
| `ComparePipeline.StopDrainsIff` | FastClone/compare_pipeline.cpp:83-99 | once every worker has left, every entry that was flushed is in the results or drained if and only if nothing was flushed after the last of them left |
| `ComparePipeline.LateStaysQueued` | FastClone/compare_pipeline.cpp:31-43 | and what is flushed after that is queued in every later state |
| `ComparePipeline.LateFlushIsStuck` | FastClone/compare_pipeline.cpp:31-43 | such a run |
| `ComparePipeline.StepWorks` | FastClone/compare_pipeline.cpp:101-171 | each worker step lowers the work left, and only Flush adds to it |
| `ComparePipeline.SomeoneCanStep` | FastClone/compare_pipeline.cpp:111-131 | with a task queued or after the stop some worker can step |
| `ComparePipeline.Pipeline.Enqueue` | FastClone/compare_pipeline.cpp:24-29 | buffered and counted as issued |
| `ComparePipeline.Pipeline.Flush` | FastClone/compare_pipeline.cpp:31-43 | the buffer moves to the end of the tasks |
| `ComparePipeline.Pipeline.Drain` | FastClone/compare_pipeline.cpp:45-62 | the results move to the end of out |
| `ComparePipeline.Pipeline.Claim` | FastClone/compare_pipeline.cpp:132-139 | a batch from the front, and a slot |
| `ComparePipeline.Pipeline.ProbeBatch` | FastClone/compare_pipeline.cpp:140-150 | each entry of the batch once, judged on its probe |
| `ComparePipeline.Pipeline.Publish` | FastClone/compare_pipeline.cpp:151-158 | the items go to the end of the results |
| `ComparePipeline.Pipeline.CountIn` | FastClone/compare_pipeline.cpp:159 | the items are counted after they are pushed |
| `ComparePipeline.Pipeline.FreeSlot` | FastClone/compare_pipeline.cpp:164-168 | the slot is given back |
| `ComparePipeline.Pipeline.WorkerTurn` | FastClone/compare_pipeline.cpp:132-168 | one turn of a worker: a batch of tasks becomes as many judged results, in order, and the slot is free again |
| `HashPairing.SendKeeps` | FastCheck/check_engine.cpp:413-426 | sending a request and queuing the local task together keeps the pairing of a path |
| `HashPairing.ResponseKeeps` | FastCheck/check_engine.cpp:614-641 | a response is paired or put aside |
| `HashPairing.StoreKeeps` | FastCheck/check_engine.cpp:302-316 | a stored local hash is announced later |
| `HashPairing.ReadyKeeps` | FastCheck/check_engine.cpp:451-480 | an announced local hash is paired if the server hash is there, else left to the response |
| `HashPairing.StepKeeps` | FastCheck/check_engine.cpp:239-316 | every step of main loop, workers and server keeps the invariant |
| `HashPairing.NoPairingIsLost` | FastCheck/check_engine.cpp:393-426 | until a local read fails, inFlight is the number of awaited files without a server hash, and an awaited file with one still has its local hash queued, running or about to be announced |
| `HashPairing.RecordedOnce` | FastCheck/check_engine.cpp:338-407 | each manifest file is in one stage, and recorded at most once, with its sequential verdict, read failures or not |
| `HashPairing.ReportIsSequential` | FastCheck/check_engine.cpp:698-780 | when the loop ends by its own condition the report is that of the sequential comparison, for every interleaving |
| `HashPairing.CompleteIff` | FastCheck/check_engine.cpp:698-833 | a session that can do no more has ended with the whole report if and only if every file whose hash is needed can be read; otherwise a failed read is noted |
| `HashPairing.SomethingCanHappen` | FastCheck/check_engine.cpp:698-780 | until then, or until a read fails, some step can be taken, whatever the window and the cap |
| `HashPairing.ReceiveHasFrame` | FastCheck/check_engine.cpp:721-744 | the loop receives only when a frame is on its way |
| `HashPairing.RunsAreShort` | FastCheck/check_engine.cpp:698-780 | every run takes at most 13 steps a manifest file and one more, however often it tunes in between |
| `HashGates.WindowIsKept` | FastCheck/check_engine.cpp:431-446 | until a local read fails no more requests are without a response than the widest window so far |
| `HashGates.BacklogIsKept` | FastCheck/check_engine.cpp:431-446 | the backlog of the hash workers stays within four times the cap, and one for each worker |
| `HashPairing.HandledIsResponded` | FastCheck/check_engine.cpp:614-641 | the handler does what the response step does, then pumps unless a read failed |
| `HashPairing.Engine.SendHashRequest` | FastCheck/check_engine.cpp:413-426 | does to the variables what the send step does |
| `HashPairing.Engine.Pump` | FastCheck/check_engine.cpp:431-446 | sends while both gates are open |
| `HashPairing.Engine.FinalizePaired` | FastCheck/check_engine.cpp:393-407 | records once and forgets the path; a failed read is noted and its path kept |
| `HashPairing.Engine.HandleHashResponse` | FastCheck/check_engine.cpp:614-641 | pairs or puts aside, with the counter wrapping, the window retuned in between, and no pump after a failed read |
| `HashPairing.Engine.DrainReady` | FastCheck/check_engine.cpp:451-480 | does what the ready steps do, over the whole queue or up to a pairing after which a read has failed |
| `HashDuplicates.DuplicateIsIgnoredIff` | FastCheck/check_engine.cpp:614-620 | a second response that the loop receives leaves the count of open requests right if and only if its path is not awaited any more |
| `HashDuplicates.DuplicateUnderflows` | FastCheck/check_engine.cpp:614-620 | received with nothing in flight, which takes an open manifest, it takes the 64-bit counter to 2^64 - 1, on which the loop does not end and pump does not send |
| `HashDuplicates.PendingStep` | FastCheck/check_engine.cpp:698-780 | every step that does not receive it leaves one answer too many on the wire beside a sound session |
| `HashDuplicates.ReceiptCounts` | FastCheck/check_engine.cpp:614-641 | receiving it while its path is awaited leaves a session that is sound but for one request too many counted as answered |
| `HashDuplicates.ShortStep` | FastCheck/check_engine.cpp:698-780 | and every later step leaves it so |
| `HashDuplicates.NeverFinishes` | FastCheck/check_engine.cpp:698-780 | so that no continuation ever meets the condition of the loop |
| `HashDuplicates.HowItHalts` | FastCheck/check_engine.cpp:711-744 | it halts either with the counter at 2^64 - 1 and nothing awaited, or with one answer on the wire that the loop never receives |
| `HashDuplicates.HarmlessIff` | FastCheck/check_engine.cpp:698-780 | with one answer too many on the wire, every continuation that halts has ended properly if and only if its path is not awaited, or the manifest is done, nothing is in flight and no request is left to send |
| `HashDuplicates.DuplicateInSession` | FastCheck/check_engine.cpp:698-780 | the same for one more answer put on the wire in any state of any run |
| `HashWedges.OneFileRun` | FastCheck/check_engine.cpp:698-744 | a run in which the only file is requested and answered while the manifest is open |
| `HashWedges.OneFileWedge` | FastCheck/check_engine.cpp:711-744 | its answer comes once more: the file is recorded, nothing is left to do, and the loop waits with its counter at 2^64 - 1 |
| `HashWedges.TwoFileRun` | FastCheck/check_engine.cpp:698-744 | a run in which two files are requested, one is answered and the manifest is done |
| `HashWedges.TwoFileWedge` | FastCheck/check_engine.cpp:711-744 | its answer comes once more: the counter is zero when the second answer comes, and that is never received |
| `Codec.NumberRoundTrip` | FastClone/protocol.cpp:282-330 | a number in range is read back |
| `Codec.BytesRoundTrip` | FastClone/protocol.cpp:282-330 | every byte string of that length is the encoding of exactly one number |
| `Codec.LowestFirst` | FastClone/protocol.cpp:282-310 | the bytes of a number, lowest first |
| `Codec.ReadsString` | FastClone/protocol.cpp:336-350 | a string is read back, whatever is around it |
| `Codec.AppendU32` | FastClone/protocol.cpp:287-292 | four bytes, lowest first |
| `Codec.AppendU64` | FastClone/protocol.cpp:294-298 | eight bytes, lowest first |
| `Codec.AppendString` | FastClone/protocol.cpp:336-342 | a 16-bit length and the bytes; longer strings are refused |
| `Codec.ReadU32` | FastClone/protocol.cpp:312-320 | the number at the cursor, or an error when bytes are missing |
| `Codec.ReadU64` | FastClone/protocol.cpp:322-330 | the number at the cursor, or an error when bytes are missing |
| `Codec.ReadString` | FastClone/protocol.cpp:344-350 | the string at the cursor, or an error when bytes are missing |
| `Frames.EncodeHeader` | FastClone/protocol.cpp:52-76 | the nine header bytes; an unknown type is refused |
| `Frames.KnownAreTypes` | FastClone/protocol.cpp:179-215 | the known types are those of the protocol, one by one |
| `Frames.HeaderLayout` | FastClone/protocol.cpp:64-75 | the nine bytes: type, stream and length, lowest byte first |
| `Frames.AppendEncodedFrame` | FastClone/protocol.cpp:83-98 | header and payload |
| `Frames.Consume` | FastClone/win_socket.cpp:537-545 | what was sent leaves the front of the pending buffers |
| `Frames.SendBuffersAll` | FastClone/win_socket.cpp:511-546 | every byte of the buffers, in order, for every pattern of partial writes; a failed write leaves a prefix |
| `Frames.SendFrameBatch` | FastClone/protocol.cpp:116-140 | the wire carries the concatenation of the encoded frames; an unknown type stops before its chunk |
| `Frames.RecvAll` | FastClone/win_socket.cpp:550-565 | exactly the bytes asked for, for every pattern of partial reads |
| `Frames.RecvFrame` | FastClone/protocol.cpp:239-280 | the frame at the position of the stream, or an error |
| `Frames.FrameRoundTrip` | FastClone/protocol.cpp:239-280 | a frame survives if and only if its type is one of the protocol and its payload at most 2^30 bytes |
| `Frames.FramesRoundTrip` | FastClone/protocol.cpp:116-140 | a list of such frames comes back as it was |
| `Frames.RecvFrames` | FastClone/protocol.cpp:239-280 | repeated receiving gives the frames of the stream |
| `Frames.Transfer` | FastClone/protocol.cpp:116-280 | what one end sends is what the other receives |
| `SignatureCodec.EncodeBlockSigResponse` | FastClone/protocol_codec.cpp:280-301 | the payload, or the error for a bad strong length, block count or path |
| `SignatureCodec.DecodeBlockSigResponse` | FastClone/protocol_codec.cpp:303-339 | the response in the payload, or the error |
| `SignatureCodec.ResponseRoundTrip` | FastClone/protocol_codec.cpp:280-339 | a response comes back with the strong bytes past strongLen zeroed |
| `SignatureCodec.PayloadLayout` | FastClone/protocol_codec.cpp:288-296 | where path, file hash, file size, block size, block count and strong length lie in the payload |
| `SignatureCodec.EntryLayout` | FastClone/protocol_codec.cpp:297-300 | where the two checksums of each block lie behind them |
| `SignatureCodec.SameSearch` | FastClone/delta.cpp:471-472 | the search for a block does not see those bytes |
| `SignatureCodec.SamePlan` | FastClone/delta.cpp:386-550 | for every old file the plan from the decoded set is the plan from the original |
| `DeltaSession.PlanOverTheWire` | FastClone/protocol_codec.cpp:280-339 | signing, encoding, sending, receiving, decoding and planning give the plan of the new file's signatures |
| `DeltaSession.RebuildsOverTheWire` | FastClone/protocol_codec.cpp:280-339 | and carrying it out rebuilds the new file |

## Left out

- Platform IO backends, sockets beyond the send and receive loops, file-system enumeration, command line, reports: foreign calls and I/O.
- NIC probing and the parsing behind the same-subnet test: parameters of the link selection.
- XXH3 internals: a parameter.
- Condition variables, timeouts, memory ordering and diagnostics counters: waits are guards of steps; per-file wait states are not part of the model.
- Atomicity: one step is one critical section; the relaxed counters of the compare pipeline and of the hash workers are steps of their own.
- The Windows paths of the socket loops: same loops over another call; the POSIX paths are modelled.
- FastClone/sync_engine_server.cpp, transfer tuning, the link scheduler, read gate and hash cache: orchestration, clamps and lookups.
- AIMD step functions: window and worker cap take any value of at least one at any time.
- Interrupts and disconnects in the check engine: they end a session before its report is complete. After a failed local read the original drains once more and stops; the model lets any further step happen, which covers that.
- The flat round-trip codecs other than the block-signature response: easy members.
- LinkTies.NoTiesLeast: one direction; with more than two NICs on a side a tie may or may not cost anything, depending on the links around it.
- IoProgress.RestMeansDone: after the stop the original's scheduler may leave operations with the backend, whose shutdown then ends them; here they can still be reaped.
- IoProtocol.SubmitKeeps: assumes the contract of releaseFile, that no operation is submitted for a released file.
- HashPairing.ReportIsSequential: assumes distinct manifest paths and one response per request (what one more does is HashDuplicates.HarmlessIff); the compare pipeline appears as the entries in it, since its own theorems say that it loses and judges none wrongly. Its cap on entries, beyond which no manifest frame is received, is part of that: the loop may take its next frame at any time.
- HashDuplicates.HarmlessIff: for sessions whose local files can all be read; a failed read ends a session before its report is complete, whatever else is received. One answer too many at a time.
- SequentialReader.SequentialReader.Next: assumes that only finitely many waits time out; where the original loops for ever the model returns with `spins` set. Pull passes it on.
- SequentialReader.FileReads.Drain: other files' operations in the shared driver show only in how much of a batch is accepted.
- PulledReads.SameReads: for runs without a failed or cancelled read and without a call that does not end; PullAll says what the others deliver.
- PulledReads.PlanOverReader: the planner runs over a plain source and its requests are then put to the reader; that the planner sees the same file either way follows from equal answers to equal requests. What the planner does with a source that stops early is not part of this model.
- CompletionList.CompletionQueue.ReleaseFileLocked: the wait state that the original marks dead and erases in the same section is not part of the model.
- DiskIoDriver.DiskIoDriver.ActRelease: likewise without the wait state.
- ComparePhase.NormalizeMtime: times are integers; in the fallback for times that do not normalize, the original's 64-bit subtraction is undefined for differences of 2^63 and more.
- DeltaPlanner.BuildPlan: old files are shorter than 2^64 - 2^33 bytes, so that no sum of a cursor with blocks or a stride wraps, and statistics are unbounded integers.
- DeltaPlanner.BuildPlanStreaming: the same bound on the old file.
- DeltaRebuild.BenefitMeaning: for new files below 2^64 / 100 bytes; BenefitExactIff shows that the test is wrong for some download beyond that.
- DeltaRebuild.DeltaRoundTrip: like SmallRoundTrip, assumes no collision of weak and truncated strong checksum, and a plan that was not stopped early.
- LinkSelection.SelectAutoLinks: the early returns for an empty budget are the same empty selection; rows of the matrix are as long as the code reads them.
- DiskIoDriver.DiskIoDriver.SettleFile: a stored count of zero would wrap in the original; counts are proved positive.
