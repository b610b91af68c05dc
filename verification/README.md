# mcpmem: state machines, ranking and lookup, verified

A Dafny model of the parts of mcpmem, a memory and search server, where something can go
wrong between two steps or in the middle of a loop. One module per component:

- `Serving`: snapshot publication. Workers commit generations of chunk rows while stores
  read a generation, load rows and compare-and-set the publish mark; a profile registry
  gates what may be served. Every SQL statement or transaction is one action, and any
  number of stores interleave.
- `Taxonomy`: the three taxonomy snapshots, adopted kind by kind and swapped together.
- `Ranking`, `Fusion`, `Mmr`: the one-pass best-chunk scan, reciprocal rank fusion with
  its centrality boost, and greedy maximal marginal relevance.
- `NameCache`, `AttachmentFence`: the two-way name cache, and the fence that keeps a hit
  from resolving to a later file with the same id.
- `Login`: authorize, callback and consent, as what happens under one hold of the store lock.
- `SearchGate`, `Extractor`, `WebhookWorkers`, `HandleRegistry`: the counting gate, the
  extractor's turn, scan and sleep loop, the recency queue of workers, and the two
  registries that keep one live handle per project.
- `EditDistance`, `LineReader`, `PublicUrl`: the rolling-row edit distance, the capped line
  reader, URL normalisation with the discovery lookup.
- `Waitlist`: refused users, their expiry, eviction and promotion.
- `Wrappers`, `Owners`, `Integers`: shared types and 64-bit saturation.

Tables are maps. Protocols are functions from a state and an action to a state, an action
whose guard fails changes nothing, and the theorems are about the state after every
sequence of actions. Objects that update their fields are classes whose methods are proved
against functions of the old state. Distances and scores are reals. Clocks, random tokens,
provider answers, file opens and failing queries are parameters of the actions.

`dafny verify dfyconfig.toml` checks the project.

## Where the code does less than it seems to

Each failure is a lemma, and beside it stands a lemma with the exact condition under which
the property does hold.

- Dead-lettering an entity or relation removes its rows without opening a generation
  (crates/mcpmem-core/src/jobs.rs:411-443), so a snapshot's stamp stays current while its
  rows are stale: `Serving.DeadLetterGoesUnnoticed`. Stamps are exact if and only if there
  was no such loss: `Serving.ReconciledSnapshotIsItsGeneration`. Taxonomy kinds share the
  gap.
- `load_managed_snapshot` does not look again after loading its rows:
  `Serving.LoadMayTear`, in a state that runs reach: `Serving.LoadingIsReachable`. What it
  installs is exact if no generation opened between its two
  reads, and otherwise only if the generations opened with the same rows:
  `Serving.LoadIsExactIff`. A candidate's taxonomy snapshots are in the same position:
  `Taxonomy.CandidateMayTear`, `Taxonomy.LoadIsUntornIff`.
- A taxonomy pass that is refused half way has already marked earlier kinds as published:
  `Taxonomy.MarkedButNotServed`. A marked kind is served if and only if its pass reaches
  the swap, which only an error, an invalid scan of a candidate or a refused mark prevents: `Taxonomy.MarkedIsServedIffSwapped`.
- The registries promise one live handle per project file. Across a `drop_project` there
  are two exactly when a caller kept one: `HandleRegistry.SecondHandleAcrossADrop`.
- Cache invalidation runs outside the connection lock and can part the two name maps:
  `NameCache.RacingInvalidationBreaksThePair`. They stay inverse in every race unless the
  lookup found its pair cached, the invalidation is of that pair's name, and the two
  overlap: `NameCache.RaceIsSafeIff`. Loading
  makes the maps inverse if and only if live names are distinct, which the schema does not
  demand.
- The creation times of a snapshot are read after its rows and after the publish mark
  (src/vector_store.rs:905-923), so the fence can let a later file through:
  `AttachmentFence.TornBuildFools`. So it can for a hit that is resolved after the next
  snapshot was installed: `AttachmentFence.CarriedHitIsFooled`. A build is safe for a hit of
  its own or of an earlier snapshot if and only if the hit's file is not deleted before the
  creation times are read: `AttachmentFence.BuildIsSafeIff`. The fence also needs creation
  times that differ: `AttachmentFence.SharedCreationTimeFools`. What it shows in every
  case: `AttachmentFence.FenceIsExact`.
- Two refusals in one microsecond can cost the newcomer its place on a full waitlist:
  `Waitlist.TieMayDropTheNewest`. An entry is sure to stay if and only if it has not
  expired and fewer than 25 others are at least as recent: `Waitlist.RefusalKeepsIff`.
- Revoking a principal removes its pending logins from the store but not from the hands of
  callbacks. Each code minted for the human afterwards is of a login that a callback held
  named, or of one that an exchange named since: `Login.CodesAfterRevocation`. If no login
  is taken after the revocation, a code can still be minted if and only if a callback held a
  login that named the human or had an exchange in flight; and if no exchange names the
  human, if and only if the former: `Login.RevocationHoldsIff`.
- Similarity is neither symmetric nor bounded by one: `EditDistance.SimilarityIsLopsided`.
  It is symmetric if and only if the overlaps agree, and its trigram half keeps its weight
  if and only if the overlap is at most half of the trigrams, so whenever none repeats on
  the left: `EditDistance.SimilarityIsSymmetricIff`, `EditDistance.SimilarityIsBoundedIf`.

Two findings that are not failures: the early exit of `levenshtein` never fires, and the
centrality boost outweighs both rankings together for every row whose places, each counted
with the non-negative weight of its ranking, come to at most one
(`Fusion.BoostOutweighsRanks`). With the default weights that is every row that neither
ranking repeats.

## Model

| member | source | states |
|---|---|---|
| `Serving.RunInv` | src/vector_store.rs:820-924 | Every action of every store, worker and the registry keeps: rows match the history of their generation up to losses, what a store holds is faithful if its generation is still durable, and only activated profiles are installed. |
| `Serving.ReconciledSnapshotIsItsGeneration` | src/vector_store.rs:862-924 | In every interleaving a reconciled snapshot stamped g holds rows of generation g, and exactly all of them if and only if no owner was dead-lettered out of g before the read. |
| `Serving.SnapshotIsTheGenerationRead` | src/vector_store.rs:820-924 | However installed, a snapshot in any run holds the rows of the generation durable when they were read, exactly without losses; so it is what its stamp says if no generation opened between its reads, and otherwise if and only if both generations opened with the same rows. |
| `Serving.CurrentStampMeansCurrentRows` | src/vector_store.rs:878-900 | A snapshot on the durable generation equals the table if and only if nothing was lost since it was read, which is what lets a reconcile skip it. |
| `Serving.LosslessRunsAreExact` | crates/mcpmem-core/src/jobs.rs:452-622 | In runs without such dead letters every reconciled stamp names exactly the rows served, and a current stamp means the current table. |
| `Serving.DeadLetterGoesUnnoticed` | crates/mcpmem-core/src/jobs.rs:411-443 | A run after which a removed entity is still served and the next reconcile finds nothing to do. |
| `Serving.LoadMayTear` | src/vector_store.rs:820-853 | From every state between the two reads of a load, a commit of other rows is installed under the old stamp and differs from the stamped generation. |
| `Serving.LoadingIsReachable` | src/vector_store.rs:820-853 | A load does stand between its two reads in a run in which another store serves. |
| `Serving.LoadIsExactIff` | src/vector_store.rs:820-853 | Whatever the others do between the two reads: the load is exact, up to losses, if the generation is still durable at the second, and without losses if and only if the generation then durable opened with the same rows. |
| `Serving.ActivationHasACause` | crates/mcpmem-core/src/jobs.rs:327-361 | A profile that is activated was activated at some step of the run, by a store that held its scan and passed the registry's conditions. |
| `Serving.OnlyActivatedProfilesAreServed` | src/vector_store.rs:862-924 | Behind every installed snapshot lies an activation, at a moment when one generation of its profile was durable, published and fully scanned: a candidate is never visible. |
| `Serving.ServingIsReachable` | src/vector_store.rs:862-924 | A rebuild from nothing does end in an activated, served snapshot. |
| `Serving.OneRebuildPerFingerprint` | src/vector_store.rs:1293-1317 | Over every run at most one adoption starts a rebuild for a fingerprint. |
| `Serving.RepeatedAdoptionIsIdle` | src/vector_store.rs:1293-1317 | While all calls ask for one fingerprint and a rebuild into it has begun, every further call changes nothing and is not refused, whatever is activated or fails. |
| `Serving.AbandonedProfileNeverReturns` | crates/mcpmem-core/src/jobs.rs:262-313 | A store that moved on from a fingerprint refuses it in every later state. |
| `Taxonomy.RunInv` | src/vector_store.rs:940-1004 | Commits, dead jobs, registry changes and every step of a pass keep each snapshot faithful to the generation its rows were read from, and the pass in step with what is served. |
| `Taxonomy.AdoptedSnapshotIsItsGeneration` | src/vector_store.rs:940-1004 | In every interleaving the served snapshots belong to one profile and their own kinds; each is exact for the generation it was read from if and only if nothing was lost, a marked one for its stamp; a candidate's for its stamp too if no generation opened between its reads. |
| `Taxonomy.OnlyFullPassesSwap` | src/vector_store.rs:940-1004 | If what is served has changed over a run, one step of the run put it there: the swap of a full pass for one profile, or the reset when there is no profile. |
| `Taxonomy.MarkedButNotServed` | src/vector_store.rs:371-384 | From every state in which a second kind advances during the pass, the first kind ends published and not served. |
| `Taxonomy.MarkedIsServedIffSwapped` | src/vector_store.rs:975-1004 | Over every run from a mark to the end of its pass the kind is served if and only if the pass ends in its swap, that is, unless it ends in an error, an invalid scan of a candidate or a refused mark; then everything served is as before and nothing carries the new stamp. |
| `Taxonomy.CandidateMayTear` | src/vector_store.rs:975-1004 | At every kind, a commit of other rows between a candidate's two reads is served under the old stamp when the pass reaches its swap, and differs from the stamped generation. |
| `Taxonomy.LoadIsUntornIff` | src/vector_store.rs:961-980 | The rows loaded are as many generations after the stamp as there were commits of their profile and kind between the two reads. |
| `Ranking.StableSortIsStable` | src/vector_store.rs:669 | The sort is the stable one: ascending, a permutation, and ties in their first order. |
| `Ranking.OnePassIsSortThenFirst` | src/vector_store.rs:653-671 | On a grouped scan the sorted slots of the one pass are the full stable sort reduced to each owner's first hit, ties included. |
| `Ranking.LoadOrderGroups` | src/vector_store.rs:196-200 | Rows in load order scan to hits grouped by owner, whatever the filter drops. |
| `Ranking.RankChunks` | src/vector_store.rs:576-672 | The indexed one-pass loop returns the dimension error or exactly the specified list, in both modes, with the type and relation tables asked anew at each row. |
| `Ranking.OnePassIsNearest` | src/vector_store.rs:653-668 | Every hit has a slot of its owner that is at least as near. |
| `Ranking.OmittedOwnersAreNoNearer` | src/vector_store.rs:550-575 | Results are distinct owners in ascending order; an owner left out is no nearer than any returned one, and only when the list is full. |
| `Ranking.BestOwnersExtendNearestChunks` | src/vector_store.rs:550-575 | The owners among the k nearest chunks lead the k best owners, so one long file cannot crowd out others. |
| `Ranking.AggregateOwners` | src/vector_store.rs:693-718 | One row per owner with its first hit, sorted and truncated; on ascending hits the order is kept. |
| `Ranking.AggregatingBestChunksKeepsRows` | src/vector_store.rs:693-718 | Aggregating the best-chunk search keeps its rows one for one. |
| `Fusion.Fuse` | src/vector_actions.rs:577-607 | The keys are exactly the union of the two lists, and each entry's scores are the shares of its places. |
| `Fusion.Rank` | src/vector_actions.rs:577-635 | The rows are each owner once, in descending order, with vector score plus text score plus boost as total. |
| `Fusion.VectorRankingIsDistinct` | src/vector_actions.rs:548-557 | The vector list names no owner twice, being the aggregated best-chunk search. |
| `Fusion.ShareOfRanked` | src/vector_actions.rs:591-606 | In a list without repeats the share at rank r is weight / (60 + r). |
| `Fusion.Dominance` | src/vector_actions.rs:577-607 | With non-negative weights, standing no lower wherever the other stands means no smaller total before the boost, and a greater one where a positive weight tells them apart. |
| `Fusion.CountedDominance` | src/vector_actions.rs:577-607 | With repeats allowed: an owner that every prefix of both lists names at least as often has at least the total before the boost. |
| `Fusion.RepeatedMatchOvertakes` | src/vector_actions.rs:597-607 | A repeated text match overtakes the owner above it, so dominance needs lists without repeats. |
| `Fusion.BoostRange` | src/vector_actions.rs:616-629 | The boost is in [0, 0.1), positive exactly for entities with a neighbour, then at least 1/60, and ordered by degree. |
| `Fusion.BoostOutweighsRanks` | src/vector_actions.rs:616-635 | With non-negative weights, every connected entity ends no lower than every row without a boost whose places, counted with their weights, come to at most one; repeats are allowed. |
| `Fusion.BoostOutweighsDefaults` | src/vector_actions.rs:616-635 | With non-negative weights that add up to at most one, so for every row without a boost that neither ranking repeats. |
| `Fusion.TopRows` | src/vector_actions.rs:637-695 | The first topK rows that still resolve, in order, or all of them when there are fewer. |
| `Mmr.Best` | src/vector_actions.rs:951-963 | The inner loop finds the first candidate of greatest score. |
| `Mmr.Select` | src/vector_actions.rs:948-967 | min(topK, candidates) picks that form a permutation of the pool with the rest, each greedy at its step, with scores that never rise. |
| `Mmr.ScoresNeverRise` | src/vector_actions.rs:948-967 | For every similarity and every lambda in [0, 1], a greedy selection reports non-increasing scores. |
| `Mmr.PureRelevanceIsNearest` | src/vector_actions.rs:948-967 | At lambda 1 the picks are the nearest candidates in order of distance. |
| `Mmr.PureDiversityIsLeastAlike` | src/vector_actions.rs:948-967 | At lambda 0 each later pick is least like those before it. |
| `Mmr.SwapRemoveMoves` | src/vector_actions.rs:964-965 | Taking a candidate out by swapping loses and invents none. |
| `NameCache.Cache.Load` | src/vector_store.rs:432-453 | The loaded maps are inverse to each other if and only if the live names are distinct. |
| `NameCache.Cache.CacheEntityName` | src/vector_store.rs:485-498 | The pairs of the id and of the name are replaced by the new pair in both maps, and nothing else changes. |
| `NameCache.Cache.ForgetEntityName` | src/vector_store.rs:500-504 | Exactly the pair of the name goes, from both maps. |
| `NameCache.Cache.EntityByName` | src/vector_store.rs:455-483 | The reply is what the table holds, and the cache follows it. |
| `NameCache.Cache.EntityById` | src/vector_store.rs:506-527 | The reply is what the table holds; a dead id loses its pair. |
| `NameCache.Cache.InvalidateEntityCache` | src/vector_store.rs:1556-1560 | Exactly the named pairs go. |
| `NameCache.Cache.Serve` | src/vector_store.rs:455-527 | Through any sequence of queries against arbitrarily changing tables, the maps stay inverse and every reply is true of its own table. |
| `NameCache.TieSteps` | src/vector_store.rs:485-498 | The two insertions with their conditional removals keep the maps inverse and make one pair out of at most two. |
| `NameCache.LookupsRepairTheCache` | src/vector_store.rs:506-527 | Looking up ids in a settled table makes the cache right for all of them, whatever it held. |
| `NameCache.RaceIsSafeIff` | src/vector_store.rs:485-504 | For any inverse maps, any lookup, any invalidated name and every schedule of their map operations, the maps end inverse unless the pair looked up was cached, its name is the one invalidated, and the two were under way together. |
| `NameCache.CachedPairRace` | src/vector_store.rs:485-504 | For a cached pair and an invalidation of its name, inverse if and only if the two do not overlap; if they do, exactly the id is missing. |
| `NameCache.LookupAloneTies` | src/vector_store.rs:485-498 | The map operations of a lookup left alone are those of caching a name. |
| `NameCache.RacingInvalidationBreaksThePair` | src/vector_store.rs:1556-1560 | Every cached pair has a schedule that leaves its name without its id. |
| `AttachmentFence.RunInv` | crates/mcpmem-core/src/attachments.rs:916-967 | Uploads, extraction, indexing, dead letters, deletes and the three steps of a build keep vectors with their live file, stamps true to the files seen with them, and a lost file lost. |
| `AttachmentFence.HitsResolveToTheirIncarnation` | src/vector_store.rs:1391-1476 | A hit found at any moment of a run in which creation times differ, resolved at its end with the snapshot then installed, the same or a later one: each of the three paths shows the hit's own file exactly while it is showable if that was there when the stamps were read, nothing without a stamp, and otherwise exactly the other file stamped. |
| `AttachmentFence.FenceIsExact` | src/vector_store.rs:1417-1426 | After every run, whatever the creation times: a file is shown if and only if the id was stamped and the file there is showable and was created when the stamped one was. |
| `AttachmentFence.MarkedRowsAreLive` | src/vector_store.rs:905-909 | When a mark succeeds every loaded row is still live, so only what follows can spoil a build. |
| `AttachmentFence.BuildIsSafeIff` | src/vector_store.rs:905-923 | Whatever happens before the creation times are read, a live file is seen as itself if and only if it is not deleted first, for rows of the build and for hits of earlier snapshots alike. |
| `AttachmentFence.CarriedHitIsFooled` | src/vector_store.rs:1421-1426 | From every shown hit, deleting its file and indexing another under its id before an undisturbed next build makes the carried hit show the other file. |
| `AttachmentFence.SharedCreationTimeFools` | src/vector_store.rs:255-274 | Deleting a shown file and reusing its id with the same creation time makes the hit resolve to the new file. |
| `AttachmentFence.TornBuildFools` | src/vector_store.rs:905-923 | From every marked build, deleting a shown file and uploading, extracting and indexing another under its id before the stamp read makes the hit show the other file. |
| `Login.RunInv` | src/oauth_routes.rs:1223-1347 | Every action keeps: no row in two places, rows are what was authorized narrowed by their one exchange, codes carry what was learned. |
| `Login.ReachableInv` | src/oauth_routes.rs:950-1067 | The same from an empty store on. |
| `Login.EachRowIsInOnePlace` | src/oauth_routes.rs:1223-1347 | A login is in the store, in one callback's hands, or gone; one whose code was minted is gone. |
| `Login.PutBackNeverConflicts` | src/oauth_routes.rs:1223-1347 | A row that goes back finds its key free. |
| `Login.OneExchangePerLogin` | src/oauth_routes.rs:1223-1347 | No run holds two successful exchanges of one login. |
| `Login.NamedRowNeverChanges` | src/oauth_routes.rs:1223-1347 | A row that names its human is, at any later time, gone or the same, scopes included. |
| `Login.CodesAreEarned` | src/oauth_routes.rs:1589-1643 | At most one code per login, for the human its exchange named, with scopes both asked for and held. |
| `Login.CodesAfterRevocation` | crates/mcpmem-oauth/src/store.rs:646-664 | Over every run, each code minted for a human after the revocation is of a login a callback held named at that moment, or of one that an exchange of the human named since. |
| `Login.RevocationHoldsIff` | crates/mcpmem-oauth/src/store.rs:646-664 | Without a login taken after the revocation, some run mints a code for the human if and only if a callback held a login that named the human or had an exchange in flight; without an exchange that names the human, if and only if the former. |
| `Login.RefusedDecisionChangesNothing` | crates/mcpmem-oauth/src/consent.rs:335-362 | A decision that is not accepted leaves store, hands and codes as they were. |
| `Login.FailedCallbackRoundTrip` | src/oauth_routes.rs:1223-1347 | A callback whose exchange fails leaves the login as it found it. |
| `Login.Offered` | crates/mcpmem-oauth/src/consent.rs:110-120 | Exactly the scopes asked for and held, each once, in the order of the request. |
| `Login.Granted` | crates/mcpmem-oauth/src/consent.rs:266-316 | Exactly the offered scopes that were approved, in the offered order. |
| `SearchGate.GateHolds` | src/code_vec.rs:49-80 | In every run, panics and spurious wake-ups included, free plus held permits is the cap, and while anyone sleeps every free permit has a wake-up on its way. |
| `SearchGate.NeverStuck` | src/code_vec.rs:61-80 | A sleeping thread always leaves another that can act. |
| `SearchGate.SearchesAreBounded` | src/code_vec.rs:36-80 | On every machine and in every run at most 64 searches run at once, there is room for eight, and no thread sleeps while nothing can happen. |
| `SearchGate.DrainingEnds` | src/code_vec.rs:61-80 | Without new arrivals every run is over after a bounded number of actions. |
| `SearchGate.DrainedIsEmpty` | src/code_vec.rs:61-80 | It is over only when everyone was served and all permits are free. |
| `Extractor.WaitDuration` | src/runtime.rs:765-775 | No wait if and only if the deadline has come; otherwise positive, at most 30 s, never past the deadline, and shorter than 30 s only to meet it. |
| `Extractor.NextDue` | src/runtime.rs:738-762 | The fold finds the earliest deadline among the graphs that could be read. |
| `Extractor.RunInv` | src/runtime.rs:864-958 | Every action keeps each announced job covered by the scan to come, a permit, or the alarm. |
| `Extractor.NoLostWake` | src/runtime.rs:864-958 | A sleep ends by the deadline its scan found and within 30 s; without a stored permit it ends by the deadline of every announced job in a readable graph, whenever announced. |
| `Extractor.DueGraphIsServed` | src/runtime.rs:777-812 | Once a scan has seen a due job there is no sleep before its graph's turn, and fewer than N turns go to others, as long as the job stays, the graphs can be listed and this one can be read; otherwise the loop may sleep, for 30 s at most. |
| `Extractor.OwedRun` | src/workspace.rs:672-693 | Turns taken plus the cursor's remaining distance never exceed the distance at the start plus the graphs registered since. |
| `WebhookWorkers.WorkspaceWebhookWorkers.WorkerFor` | src/runtime.rs:115-137 | The new map, queue and audit set, the worker returned, and a flag exactly on an id's first use. |
| `WebhookWorkers.CacheIsTheMostRecent` | src/runtime.rs:115-137 | After every run the queue is the 32 ids used last, least recent first and each once, the workers are theirs, and the audited ids are all ids used. |
| `WebhookWorkers.StepAgrees` | src/runtime.rs:115-137 | One call keeps map and queue in agreement and evicts only the front of a full queue. |
| `WebhookWorkers.WindowMoves` | src/runtime.rs:115-137 | Sliding the window of recent ids is the same as recomputing it from the whole history. |
| `WebhookWorkers.WorkersBelongToTheirIds` | src/runtime.rs:121-131 | A cached worker was made by a call for its own id, and no two ids share one. |
| `HandleRegistry.Registry.Resolve` | src/code_registry.rs:106-138 | The answer and the new state in every case: bad name, not initialised, reuse, failed open, open. |
| `HandleRegistry.Registry.DropProject` | src/code_registry.rs:146-153 | The project leaves the weak map and the warm set. |
| `HandleRegistry.RunInv` | src/code_registry.rs:106-153 | Every resolve, copy, release, eviction and drop keeps living handles canonical. |
| `HandleRegistry.OneLiveHandlePerProject` | src/code_registry.rs:106-153 | In every run two living handles of a project opened since its last drop are one, warm handles are canonical, and the warm set keeps its bound. |
| `HandleRegistry.ResolveIsCanonical` | src/code_registry.rs:116-138 | Resolving returns the living handle and opens none, or opens because none lives. |
| `HandleRegistry.PinnedHandleIsReturned` | src/code_registry.rs:9-16 | A handle somebody holds answers every later resolve until a drop, however many projects pass through the LRU. |
| `HandleRegistry.RecentlyResolvedStaysWarm` | src/code_registry.rs:36-38 | A project stays warm while fewer than `bound` others were resolved since and it was not dropped. |
| `HandleRegistry.DropForgets` | src/code_registry.rs:140-153 | After a drop only callers keep handles open, and the next resolve opens a new one. |
| `HandleRegistry.SecondHandleAcrossADrop` | src/code_registry.rs:140-153 | A second living handle exists after a drop and a resolve exactly when a caller held one. |
| `HandleRegistry.VectorsStandOnCode` | src/code_vec_registry.rs:79-121 | In every interleaving both registries keep their invariants, with bounds 16 and 8, and a vector index opens only on a project whose code database was opened earlier in the run; a drop may fall between the two locked steps. |
| `EditDistance.Levenshtein` | src/taxonomy.rs:113-140 | The rolling-row loop computes the recursive distance for all strings, and its early exit never fires. |
| `EditDistance.EqualCharacters` | src/taxonomy.rs:124-131 | On equal characters the diagonal is the minimum of the three. |
| `EditDistance.DistanceIsAMetric` | src/taxonomy.rs:113-140 | Zero exactly on equal strings, symmetric, triangle inequality, between the length difference and the longer length. |
| `EditDistance.DistanceIsLeastEdits` | src/taxonomy.rs:113-140 | The distance is the least number of single-character edits. |
| `EditDistance.LevenshteinTermRange` | src/taxonomy.rs:94-101 | The Levenshtein term of the similarity lies in [0, 0.3], is 0.3 exactly on equal non-empty strings, and is symmetric. |
| `EditDistance.SimilarityIsLopsided` | src/taxonomy.rs:81-101 | Two strings on which similarity is asymmetric and exceeds one. |
| `EditDistance.SimilarityIsSymmetricIff` | src/taxonomy.rs:81-101 | Similarity is symmetric if and only if the two overlaps agree, so whenever neither string repeats a trigram. |
| `EditDistance.SimilarityIsBoundedIf` | src/taxonomy.rs:81-101 | The trigram term is at most 0.7 if and only if the overlap is at most half of the trigrams, so whenever the left string repeats none; similarity is then in [0, 1]. |
| `LineReader.ReadLineCapped` | src/server.rs:171-217 | However the stream is cut, the outcome is that of the whole stream, and an accepted line leaves exactly the bytes after it. |
| `LineReader.ReadAll` | src/server.rs:812-856 | Repeated reads give the outcomes of splitting the whole stream. |
| `LineReader.SplitLosesNothing` | src/server.rs:161-217 | The accepted lines put together are the stream up to where reading stopped, all of it exactly at the end of input; each is within the cap with one newline at most, at its end. |
| `PublicUrl.PartsNormalize` | src/config.rs:130-163 | A URL of acceptable parts becomes https, the host in lower case and the path as it stands. |
| `PublicUrl.AcceptedHasParts` | src/config.rs:130-163 | What is accepted is made of acceptable parts. |
| `PublicUrl.NormalizeIsIdempotent` | src/config.rs:122-163 | Normalising a normalised URL changes nothing. |
| `PublicUrl.NormalFormsDecide` | src/config.rs:122-130 | Two accepted URLs have equal normal forms if and only if their hosts agree up to case and their paths up to trailing slashes. |
| `PublicUrl.DiscoveryAcceptsOne` | src/oauth_routes.rs:750-772 | The resource lookup accepts exactly one suffix (section 3.1 of RFC 9728), the issuer lookup exactly its path or nothing (section 3.1 of RFC 8414). |
| `Waitlist.PrincipalsStore.RecordWaitlist` | src/runtime_principals.rs:167-178 | The upsert followed by expiry and trimming, as one relation between old and new table. |
| `Waitlist.PrincipalsStore.Evict` | src/runtime_principals.rs:283-318 | Exactly the expired go, then down to 25 with no victim more recent than a survivor. |
| `Waitlist.PrincipalsStore.Approve` | src/runtime_principals.rs:239-281 | Both tables and the answer in all three cases. |
| `Waitlist.PrincipalsStore.DismissWaitlist` | src/runtime_principals.rs:221-234 | Exactly the entry goes, and the answer says whether it was there. |
| `Waitlist.OldestEntry` | src/runtime_principals.rs:305-313 | An entry no more recent than any other. |
| `Waitlist.RefusalLeavesOrder` | src/runtime_principals.rs:167-178 | Under a clock that never runs backwards, a refusal leaves at most 25 entries, first seen before last seen, none expired, others unchanged, victims no more recent than survivors. |
| `Waitlist.NewestStaysIff` | src/runtime_principals.rs:167-178 | With a strictly increasing clock the entry just recorded stays if and only if its first sighting is within the time to live. |
| `Waitlist.TieMayDropTheNewest` | src/runtime_principals.rs:301-314 | Without a strict clock a full list of ties may be left without the newcomer. |
| `Waitlist.SureToStayIff` | src/runtime_principals.rs:301-314 | Trimming keeps an entry, however ties are broken, if and only if fewer than 25 others are at least as recent. |
| `Waitlist.RefusalKeepsIff` | src/runtime_principals.rs:167-178 | Under any clock a refusal is sure to leave an entry in place if and only if it has not expired and fewer than 25 unexpired others are at least as recent. |
| `Waitlist.RunsStayOrderly` | src/runtime_principals.rs:167-318 | Every state of every run is within the cap and orderly. |
| `Waitlist.FirstSightingStands` | src/runtime_principals.rs:163-178 | Repeated refusals never move the first sighting of an entry that stays. |
| `Waitlist.ApprovalConserves` | src/runtime_principals.rs:239-281 | Approval moves exactly one key, keeping its name, if and only if it is listed and no principal; otherwise neither table changes. |

## Left out

- SQL text, connection handling, HTTP, TLS, tracing, argument and configuration parsing, JSON rendering: input and output.
- The HNSW index, embedding providers, the distance and cosine functions: any real-valued function stands for them.
- Floating-point rounding, NaN and infinities: distances, scores and weights are reals.
- `suggest_strings` and the rest of taxonomy.rs: a filter and a sort over the similarity, easy members.
- `rebuild_graph_cache`: the degrees it feeds to the boost are a parameter; it covers only relations inside one batch of ids.
- `repos.rs`, code indexing, watchers, the webhook delivery itself, the admin UI.
- Login: request validation before a row is made (client, redirect, PKCE) is the guard of one action; the upstream protocol is three possible answers; token issue after the code is minted is not modelled.
- Serving: the checks inside `verify_vectors_current` are a parameter of the full-scan and activation actions; job leases, retries and revisions appear only as commits and dead letters.
- Taxonomy: `taxonomy_scan_invalid` is a parameter of the generation read.
- AttachmentFence: indexing commits a file's own text; the lease fencing that ensures it is not modelled. The generation a mark compares with is read together with the rows, which allows more builds than the source does.
- NameCache: the name hash column is taken to agree with the name.
- HandleRegistry: `Weak::upgrade` and strong counts are what callers and warm slots hold; init is one action although the source sets two cells.
- LineReader: I/O errors of the underlying stream end the connection and are not outcomes; UTF-8 validity is any predicate on bytes.
- Waitlist: storage faults and the error classification of a duplicate key; direct administration of principals is one action that may do anything to their table.
- PublicUrl: strings are sequences of characters, so lengths in bytes play no part.
- Extractor: the loop without a wake handle, which no constructor makes; what a turn does to the jobs of its own graph is arbitrary.
- WebhookWorkers: the polling that follows `worker_for`, and the audit it triggers.
