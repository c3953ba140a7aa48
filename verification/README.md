# Proofs about the lakehouse pipelines and services

This project models the parts of the repository whose correctness is a matter of state, order or
interleaving, and proves what they promise for every input, every order and every run. Each module
stands for one component. Code that works in place is a class or a method with loops, proved against
a specification; protocols between processes are state machines whose steps may interleave, lose
replies and stop anywhere. Run `dafny verify dfyconfig.toml`.

## The components

**Knowledge-graph fold** (`Kg*.dfy` and `DescriptionCap.dfy`, for `runners/kg/adapter.py`). Shard graphs
are folded into shared dictionaries, aliases are built from suffix groups and a person-name rule,
aliased entities are merged in place, and the relations are collapsed to weighted edges. `max` ties and
dictionary and set orders are arbitrary, so every theorem holds for each choice. `slug`, `is_junk`,
`norm_type` and the other text helpers are uninterpreted functions.

- No alias chain ever closes, so `resolve` always ends at the one id nothing aliases.
- The comment at adapter.py:296-297 says a base form and all its variants collapse into one entity.
  That is so for every group exactly when no entity loses in two groups (`GroupsCollapseIff`). A middle
  form mentioned less than both its base and its own variant splits them (`MiddleFormSplits`);
  "bank", "banken" and "bankenna" are three such forms (`ThreeForms`).
- The help text at adapter.py:500-501 says the union of shards equals a single-run graph. For any two
  lists of items that assert the same, every fold of the one equals every fold of the other exactly
  when what either could borrow at adapter.py:243, and no item records, is sure to be borrowed in both
  (`FoldsAgreeIff`); that can be read off the lists without folding them. So the work dirs, in every
  order, fold to the graph that merges their equal nodes and edges exactly when each order is `Settled`
  with it (`UnionIsOneGraphIff`). Edges whose sources all resolve are enough. A bare edge beside a keyed
  one of the same two nodes is not (`BareBesideKeyedDisagrees`), nor are two work dirs of one bare edge
  and one sourced node in their two orders (`TwoShardsDisagree`).
- In closed form: the orders of the work dirs and the orders of all their items in one graph agree
  exactly when the input is `Steady` (`FoldIsOrderFreeIff`): each pair an edge borrows for is recorded
  in every chunk of its source anyway, or its source has one chunk to lend, given by a node, never
  passed on to a pair that lacks it, and there before some borrowing edge of the pair in every order of
  the work dirs. Steady work dirs also fold to their merged graph (`SteadyUnionIsOneGraph`).
- adapter.py:260-261 hands the two names out in edge order to ids in sorted order. An entity keeps a
  name that is not its own exactly when no node carries it and the first edge to touch it was swapped
  by the sort (`FoldNames`). That takes a node whose `entity_id` differs from its key
  (`RenamedNodeLosesItsName`): when the ends of edges are nodes under their own names, every name is
  the entity's own (`NamesAreOwn`).
- End to end: for some fold of the work dirs and some alias map of the rules the tables hold a row for
  each un-aliased entity, each mention under its representative and no other, and the edges of the
  merged rows (`BuildKnowledgeGraph`); so every source id that stands for a known chunk reaches them
  (`NodeReachesTables`, `EdgeReachesTables`).
- Self-loops are dropped only when something was merged (`LoopsSurviveIff`).
- The docstring at adapter.py:120-124 says a description is cut inside a word only when that word
  exceeds the budget. The code looks at the back half of its budget, one less than the limit, only
  (`CutsBetweenWordsIff`), so a word that fits the budget can be cut (`FittingWordIsCut`).

**Model registration against the janitor** (`ModelJanitor.dfy`). A timed protocol of training runs,
concurrent publishers and janitor sweeps. `scripts/model_artifact_janitor.py:18-20` promises that a
referenced token is never deleted. It holds in every interleaving under three
timing rules, and for every TTL above the gap no fewer of them suffice (`RulesSufficeIff`): commits
follow the last byte within the TTL less the sweep's gap, a token is not rewritten once its bytes have
passed the TTL, and a sweep fixes its cutoff soon after it has read the registry. However many runs race
to create the registry, all that do not fail publish (`RacersAllPublish`).

**Derived columns** (`BlobColumn.dfy`, `ScanColumn.dfy`, `AppendStage.dfy`). The three shapes of the
resumable engine and its driver, with kills at every point. `packages/ratch/core/driver.py:14-17`
promises that re-running a killed stage converges with no duplicates.

- Blob shape: the run that finishes has attached the right value to every row, within one pass plus a
  batch for each kill, with either overwrite flag. A sidecar outlives a run killed between attach and
  cleanup. Resuming from it is right, whatever is to be computed, exactly when it holds none of the
  rows (`ResumeIsRightForAllIff`), and an overwrite with another function or other payloads then
  finishes with the values of the killed run, right exactly where they agree (`RebuildAfterKill`).
- Null-fill shape: each value is NULL or its own row's. A re-ingest between a fill's read and its
  merge leaves a stale value (`OverlappingReingestLeavesStaleValue`). A merge can be trusted exactly
  when every row it hits still has the input that was read (`MergeIsRightIff`), and a whole history of
  re-ingests, fills and kills exactly when no merge in it is stale (`HistoryIsRightIff`).
- Append shape: a finished run is complete exactly when it starts with no key that has part of its
  rows. driver.py:425 cuts the result stream anew before it appends, so a kill can leave such a key.
  After any runs, further runs can complete the output exactly when none of them stopped inside a key
  (`CanEndCompleteIff`). Whatever happens they can, exactly when all rows of the source fit one batch or
  every key that derives any derives the same number, which divides the batch size (`NeverStuckIff`).

**Transactional outbox** (`Outbox.dfy`). Publishers, redeliveries, the relay ("list, ingest, drop", as
`services/common/outbox.py:10-13` describes it) and crashes. No run id is lost, and nothing starves.
The guarantee is per run id, not per event body: no body is lost exactly when each id has one
(`NoBodyIsLostIff`). An event whose run id has a slash is staged under a name the relay's listing does
not show at all (`StagedIsListedIff`).

**Speaker-turn batching** (`PaddingCost.dfy`, `Voiceprint.dfy`). Length-sorted batches partition the
turns and each row comes back to its own turn. Sorting leaves the least padding, over all lists of n
turns, exactly when the batch size divides n or there is one short batch (`SortedIsBestIff`): with a
left-over batch the docstring's "minimising" is not met, because the short batch holds the longest
turns. Any two different lengths show it.

**Per-subject state** (`Base64Url.dfy`, `UserState.dfy`). Unpadded base64url (RFC 4648 section 5,
padding per section 3.2) round-trips, keys are injective and never hold Dapr's separator, and the
string-keyed store refines a map from (subject, document). A row edited by hand disturbs one owner at
most, and one copied from another owner is caught exactly when it crosses subjects. The docstring at
`services/common/user_state.py:62-67` says a record that cannot be served is never reported as absent;
an emptied row is, and only that (`EditedRowIsContained`), so the next save takes its place
(`EmptiedRowIsOverwritten`).

**Column lineage** (`ColumnLineage.dfy`). Building a facet and parsing it are inverse up to
normalisation, in both directions, and re-emitting any foreign facet keeps what was parsed from it. The
parser's edges are exactly what the JSON says (`EdgesAreSaid`); any transformation can mask, where the
docstring at `services/lineage/models.py:94-97` names the first.

**Relationship tuples** (`TupleStore.dfy`). Writes, deletes and revokes on an all-or-nothing store that
can apply a write and lose the reply, with other clients at work: what they do, before which request, and
what becomes of each request, is fixed beforehand and arbitrary, so each contract is exact for all of it. A retried write came in
whole at one moment or not at all, and a call adds or takes away tuples of its batch alone. The docstrings
at `services/common/fga.py:467` and `:718` promise every tuple. When no page is empty and none repeats a
tuple, a read is complete exactly when there are at most a hundred pages (`ReadsAllIff`), and a revoke with
nobody else at work leaves nothing exactly then; a longer listing is cut short (`LongListingIsCutShort`).

**Runner jobs** (`JobRuns.dfy`). Submit, attach or resubmit under one id by any number of callers. A caller
raises for one of five reasons, and an earlier job's end is none of them (`RaisedBecause`). The verdict
it hears is that of the instance it began to poll exactly when no delete took effect in between
(`VerdictIsOwnIff`), so it can raise although its own run succeeded (`OwnSuccessCanBeReportedFailed`).

**Topic tree** (`TopicTree.dfy`). Flattening the tree gives back the path counts.

**Maintenance policies** (`Segments.dfy`, `ObjectIds.dfy`, `MaintenancePolicies.dfy`). The resolver against an
order-free answer; the listing order decides nothing exactly when no two different records tie. A
namespace record is bound to the dataset's bucket exactly when it does not match by logical id
(`BoundToTheBucketIff`).

**Warehouse registry** (`WarehouseRegistry.dfy`). The cache against fresh scans. The time to live runs
from the end of the listing and is the filling call's: a lookup skips its own listing exactly when the
last call to fill its entry has not run out, whatever it asks for itself (`SkipsRegistryIff`). So one
that asks for zero can be answered from the cache (`TheFillersTtlCounts`), where the docstring at
`services/common/warehouse_registry.py:157-160` says it re-reads.

## Model

| member | source | states |
|---|---|---|
| KgAliasBuild.IndexByLower | runners/kg/adapter.py:285-285 | the index maps each lower-cased name to some entity bearing it, for every dictionary order |
| KgWhich.FirstBaseIs | runners/kg/adapter.py:290-293 | the base form is that of the first of the six suffixes that leads to a known name of four letters or more |
| KgAliasBuild.SuffixParent | runners/kg/adapter.py:290-299 | the first suffix that leads to a known non-person base decides an entity's group, and no other does |
| KgAliasBuild.SuffixGroupsLoop | runners/kg/adapter.py:286-299 | the groups are exactly each base form with all entities whose first matching suffix leads to it |
| KgAliasBuild.MostMentioned | runners/kg/adapter.py:301-301 | a group's winner is a member no other outnumbers in mentions, whichever tie is taken |
| KgAliasBuild.ElectLoop | runners/kg/adapter.py:300-304 | after all groups, an id is aliased by the loop exactly if it lost in some group, to that group's winner |
| KgAliasBuild.PersonTarget | runners/kg/adapter.py:313-318 | a one-word person is aliased only to the single longer person name that contains the word |
| KgAliasBuild.PersonLoop | runners/kg/adapter.py:305-318 | the person rule adds its aliases and changes none of the group rule's |
| KgAliasBuild.BuildAliases | runners/kg/adapter.py:284-318 | for every iteration order and tie, the dictionary built is an alias map of the declarative rules |
| KgWhich.FormAliasSays | runners/kg/adapter.py:286-304 | anything but a person is aliased to a form of the same base, by one of the six suffixes, that has at least as many chunks |
| KgWhich.PersonAliasSays | runners/kg/adapter.py:305-318 | a person is aliased if and only if exactly one person of more words has its one word in the name, and to that one |
| KgAlias.ResolveLoop | runners/kg/adapter.py:320-325 | the loop returns the end of the chain of an id |
| KgAlias.ResolveIsTheOnlyEnd | runners/kg/adapter.py:320-325 | the seen guard never stops the loop, and the id reached is the only un-aliased one reachable |
| KgAlias.AliasAcyclic | runners/kg/adapter.py:284-318 | overlapping groups, tied counts and overwritten aliases never make a cycle |
| KgAlias.ResolveSound | runners/kg/adapter.py:284-325 | every id resolves to a known, un-aliased id of the same kind, never a less mentioned one when it is no person |
| KgAlias.LosingTwiceSplits | runners/kg/adapter.py:300-304 | an id that loses in two groups leaves one of the two in separate pieces |
| KgAlias.GroupsCollapseIff | runners/kg/adapter.py:296-304 | every group collapses into one entity if and only if no id loses in two groups |
| KgAlias.MiddleFormSplits | runners/kg/adapter.py:296-304 | a variant of a variant leaves its forms in two entities or more when the middle one is mentioned less than both others, whichever alias stays |
| KgAlias.ThreeForms | runners/kg/adapter.py:290-299 | "bank", "banken" and "bankenna" are such forms, in any snapshot of those three names |
| KgFold.EdgeStepSound | runners/kg/adapter.py:230-263 | an edge, borrowed chunk included, keeps canonical order, unique keys and resolved references |
| KgFold.FoldSound | runners/kg/adapter.py:170-263 | folding any graphs keeps relation rows canonical, unique per pair and chunk, mentioned by both ends and known in the metadata |
| KgFold.RunConcat | runners/kg/adapter.py:170-263 | folding one list of items after another is folding their concatenation |
| KgFold.FoldNames | runners/kg/adapter.py:210-263 | the entities are those some item touches, and an entity's name is its own unless only edges name it and the first was swapped by sorting |
| KgFold.NamesAreOwn | runners/kg/adapter.py:210-263 | when every edge end is the id of a kept node, each entity bears its own name |
| KgWhich.LastNodeNames | runners/kg/adapter.py:210-214 | the last node of an entity names it |
| KgWhich.FirstEdgeNames | runners/kg/adapter.py:260-261 | an entity without a node is named by the first edge that touches it, the lower id after the source and the other after the target |
| KgWhich.FirstTypeStays | runners/kg/adapter.py:215-227 | the first node with a concrete type types its entity for good |
| KgWhich.RowsComeOfEdges | runners/kg/adapter.py:230-259 | each row is of a kept edge of its pair, with that edge's description, under a chunk of its own or a borrowed one |
| KgWhich.EntityHasOrigin | runners/kg/adapter.py:210-234 | each entity is the slug of some node's or edge end's cleaned name that is neither empty nor junk |
| KgWhich.NodeGivesEntity | runners/kg/adapter.py:210-214 | every such node gives an entity |
| KgWhich.EdgeGivesEntities | runners/kg/adapter.py:230-263 | an edge whose ends are both such gives two |
| KgWhich.DocIs | runners/kg/adapter.py:257-257 | a row's document is what comes before the first colon of its chunk |
| KgFoldOrder.HarmlessFold | runners/kg/adapter.py:170-263 | when borrowing is harmless a fold yields exactly what the items assert: ids, chunks, relation keys and concrete types |
| KgFoldOrder.ResolvedEdgesAreHarmless | runners/kg/adapter.py:243-243 | edges whose source ids resolve to a chunk never borrow |
| KgShardOrder.FoldIsOrderFreeIff | runners/kg/adapter.py:170-263 | every order of the work dirs, and every order of all their items in one graph, give one result if and only if the input is steady |
| KgShardOrder.SteadyFold | runners/kg/adapter.py:170-263 | a steady input folds, in every order, to what its items assert and the only chunk each borrowing pair can have |
| KgShardOrder.HarmlessShards | runners/kg/adapter.py:170-263 | when every borrow is recorded anyway, all orders of the work dirs and the one graph give what the items assert |
| KgShardOrder.RecordedIffTriggered | runners/kg/adapter.py:243-249 | a pair with one chunk to borrow has it recorded if and only if one of its edges comes after its source is handed the chunk |
| KgShardOrder.OwnNodeTriggers | runners/kg/adapter.py:210-249 | in every order of the work dirs an edge finds the chunks that the node of its source has in the same graph |
| KgShardOrder.OneGraphIsAShard | runners/kg/adapter.py:500-501 | shards with one chunk dictionary, put into one graph in any order, are what the code folds for a single work dir |
| KgShardOrder.TwoShardsDisagree | runners/kg/adapter.py:243-249 | one work dir with a bare edge and one with a sourced node relate the pair in one order and not in the other |
| KgUnion.FoldsAgreeIff | runners/kg/adapter.py:170-263 | lists of items that assert the same fold alike, whatever is borrowed, if and only if what either could borrow unrecorded both are sure to |
| KgUnion.UnionIsOneGraphIff | runners/kg/adapter.py:498-502 | the work dirs, in every order, fold to what the graph merging them folds to, if and only if each order is settled with it |
| KgUnion.SteadyUnionIsOneGraph | runners/kg/adapter.py:498-502 | steady work dirs fold, in every order, to what their merged graph folds to |
| KgUnion.ResolvedUnionIsOneGraph | runners/kg/adapter.py:498-502 | so do work dirs whose edges all have sources that resolve |
| KgUnion.BareBesideKeyedDisagrees | runners/kg/adapter.py:243-249 | a bare edge and a keyed one of the same nodes in two work dirs do not fold to the graph that merges them |
| KgMerge.RemappedRows | runners/kg/adapter.py:336-347 | remapped rows are loop-free, unique and exactly the keys of the originals with both ends resolved |
| KgMerge.RemapRels | runners/kg/adapter.py:337-347 | the loop computes the remapped rows |
| KgMerge.AliasMapRepresents | runners/kg/adapter.py:284-334 | every entity of a graph has a surviving representative under an alias map |
| KgMerge.MentionsConserved | runners/kg/adapter.py:327-335 | survivors are the un-aliased ids, and each one's chunks are exactly those of all ids resolving to it |
| KgMerge.MergeSound | runners/kg/adapter.py:327-349 | merging keeps canonical order, unique keys and resolved references |
| KgMerge.LoopsSurviveIff | runners/kg/adapter.py:336-349 | a self-loop survives the merge if and only if nothing merged and one was there |
| KgTables.PairRowCount | runners/kg/adapter.py:375-396 | a pair has as many rows as distinct chunks |
| KgTables.WeightsCountRows | runners/kg/adapter.py:375-396 | edge weights sum to the number of relation rows |
| KgTables.CollapseEdges | runners/kg/adapter.py:368-396 | one edge for each pair, weighing its distinct chunks, with the first of the longest descriptions |
| KgTables.TablesHoldTogether | runners/kg/adapter.py:399-457 | all foreign keys of the four tables resolve, and the weights add up to the rows |
| KgAdapter.Adapter.FoldNode | runners/kg/adapter.py:210-228 | one node changes the dictionaries as the fold step says |
| KgAdapter.Adapter.FoldEdge | runners/kg/adapter.py:230-263 | one edge changes the dictionaries as the fold step says |
| KgAdapter.Adapter.FoldGraphml | runners/kg/adapter.py:170-263 | the loops over all work dirs are a fold of all their items in order |
| KgAdapter.Adapter.AbsorbLosers | runners/kg/adapter.py:327-335 | popping losers in any order leaves the merged names, types and chunk sets |
| KgAdapter.Adapter.MergeAliases | runners/kg/adapter.py:266-349 | the dictionaries and rows end as the graph merged along some alias map of the rules |
| KgAdapter.AbsorbOne | runners/kg/adapter.py:328-335 | one absorbed loser moves its own chunks to its representative and nothing else |
| KgAdapter.AbsorbedAll | runners/kg/adapter.py:327-349 | when every loser is absorbed the state is the merged graph |
| KgAdapter.Adapter.ApplyTypeOverrides | runners/kg/adapter.py:352-365 | the loop leaves each surviving entity its correction or its own type, adds no entity, and keeps the graph sound |
| KgAdapter.RenamedNodeLosesItsName | runners/kg/adapter.py:230-263 | a node whose entity_id is not its key leaves its entity under another name, in every run, when the other end of its edge sorts first |
| KgAdapter.Adapter.BuildTables | runners/kg/adapter.py:399-457 | the four tables list exactly the entities, chunks, mentions and edges of the graph |
| KgAdapter.Adapter.BuildKnowledgeGraph | runners/kg/adapter.py:514-530 | from any work dirs: for some fold of them and alias map of the rules, a row for each un-aliased entity under its correction or folded type, each mention under its representative and no other, and the edges of the merged rows; all foreign keys resolve |
| KgSource.FoldsAsSpelled | runners/kg/adapter.py:188-205 | work dirs fold exactly like those with empty dictionaries in which each source id a dictionary knows is replaced by its key |
| KgSource.PlainNodeGains | runners/kg/adapter.py:195-205 | with an empty dictionary a kept node gives its entity exactly the non-empty source ids that are metadata keys |
| KgSource.NodeReachesTables | runners/kg/adapter.py:170-457 | the chunk a node's source id stands for is a mention of the entity the node resolves to, which has a row |
| KgSource.EdgeReachesTables | runners/kg/adapter.py:170-457 | so for an edge at both ends, and unless those were merged there is a weighted edge between them |
| DescriptionCap.CapIsBounded | runners/kg/adapter.py:117-130 | a capped description is within the limit, and unchanged when it fits |
| DescriptionCap.CapIsIdempotent | runners/kg/adapter.py:117-130 | capping a capped description changes nothing |
| DescriptionCap.CutsBetweenWordsIff | runners/kg/adapter.py:120-130 | a text over the limit is cut between words if and only if a space lies in the back half of the budget or the budget ends a word |
| DescriptionCap.FittingWordIsCut | runners/kg/adapter.py:120-124 | for every limit of four or more, some text is cut inside a word although no word is longer than limit - 1 |
| ModelJanitor.StepKeeps | scripts/model_artifact_janitor.py:152-197 | every step that keeps the timing rules keeps the invariant |
| ModelJanitor.ListedIsDoomed | scripts/model_artifact_janitor.py:171-189 | a token listed as old and unreferenced can no longer be committed within the rules |
| ModelJanitor.ReferencedArtifactsSurvive | scripts/model_artifact_janitor.py:152-197 | in every interleaving within the rules a referenced token has all its artifacts |
| ModelJanitor.RulesSufficeIff | scripts/model_artifact_janitor.py:152-197 | for every TTL above the gap, all runs that keep a set of the rules are safe if and only if it is all three |
| ModelJanitor.LateCommitLosesBytes | scripts/ray_train_job.py:476-509 | for every TTL, a commit a TTL after its last byte can end referenced and deleted |
| ModelJanitor.StaleRetryLosesBytes | scripts/ray_train_job.py:353-382 | for every TTL above the gap, a retry of a token whose bytes passed the TTL can end referenced and deleted |
| ModelJanitor.SlowSweepLosesBytes | scripts/model_artifact_janitor.py:171-178 | for every TTL above the gap, a sweep that fixes its cutoff a TTL after reading the registry can delete what was published meanwhile |
| ModelJanitor.EachPublishHasItsVersion | scripts/ray_train_job.py:385-442 | racing creates and appends lose no commit, and the version returned is the publisher's own |
| ModelJanitor.ProbeDecides | scripts/ray_train_job.py:418-424 | the probe alone decides whether a run creates or appends |
| ModelJanitor.FailedStays | scripts/ray_train_job.py:385-442 | a run that has failed publishes nothing |
| ModelJanitor.UnreadableDeletesNothing | scripts/model_artifact_janitor.py:171-175 | in every execution a sweep that could not read the registry deletes nothing |
| ModelJanitor.FailedByItself | scripts/ray_train_job.py:385-442 | in every execution a run has failed only if it took its own failing step |
| ModelJanitor.ProbedGoesOn | scripts/ray_train_job.py:385-442 | who has probed and not failed has published or can go on; going on publishes it at the end, but for losing the first create, which makes it an appender |
| ModelJanitor.CommitsAreRuns | scripts/ray_train_job.py:385-442 | there are always as many commits as runs that have published |
| ModelJanitor.RacersAllPublish | scripts/ray_train_job.py:385-442 | any number of runs that race to create and append without failing all end published, with as many commits as runs |
| ModelJanitor.ArtifactBase.DeleteDir | scripts/model_artifact_janitor.py:190-196 | the token loses all its objects, or the call fails and it keeps those the failure left; no other token loses any |
| ModelJanitor.SweepListed | scripts/model_artifact_janitor.py:171-197 | every listed token is in exactly one report list; with a readable registry and deletion on, exactly the old, unreferenced tokens are deleted or reported as not, else nothing |
| BlobColumn.ResumeIsRightForAllIff | packages/ratch/core/engine.py:54-76 | resuming gives the right column, whatever is computed, if and only if the sidecar holds none of the rows |
| BlobColumn.LoadAppend | packages/ratch/core/engine.py:54-72 | loading appended lines is loading both parts, the later winning |
| BlobColumn.NewIdsCount | packages/ratch/core/engine.py:66-72 | lines for rows the sidecar lacks add as many ids |
| BlobColumn.Dataset.Extend | packages/ratch/core/engine.py:66-72 | a kill leaves a prefix of the new lines, whole |
| BlobColumn.Dataset.ComputePass | packages/ratch/core/engine.py:207-227 | the pass ends with the right value for every row, or killed with right lines only |
| BlobColumn.Dataset.Build | packages/ratch/core/engine.py:192-256 | both passes and the cleanup leave the derived column, or a state to resume from |
| BlobColumn.Dataset.Upsert | packages/ratch/core/engine.py:167-256 | a run that is not killed ends with f(payload) at every row id |
| BlobColumn.Dataset.Rerun | packages/ratch/core/engine.py:167-256 | each run, killed or not and with either overwrite flag, keeps the bound on rows computed |
| BlobColumn.Dataset.RunToTheEnd | packages/ratch/core/engine.py:167-256 | over all runs, overwriting or not, finished means right, with at most one pass plus a batch for each kill computed |
| BlobColumn.Dataset.RebuildAfterKill | packages/ratch/core/engine.py:192-256 | a run killed after the attach, then one that overwrites with another function or other payloads and ends, leave the old values, right if and only if they agree everywhere |
| ScanColumn.MergeIsRightIff | packages/ratch/core/engine.py:150-164 | for every compute and every table of the given inputs a merge keeps values right, if and only if each row it hits still has the input that was read |
| ScanColumn.HistoryIsRightIff | packages/ratch/core/engine.py:140-164 | a history keeps every value NULL or its own row's, whatever compute is, if and only if no merge hits a row whose input changed since its fill read it |
| ScanColumn.StepKeepsConsistent | packages/ratch/core/engine.py:140-164 | every step of a disciplined run keeps each value NULL or its own row's |
| ScanColumn.ValuesAreNullOrTheirOwn | packages/ratch/core/driver.py:228-261 | so over all interleavings of re-ingests, killed fills and completed fills |
| ScanColumn.OverlappingReingestLeavesStaleValue | packages/ratch/ingest/ingest.py:328-353 | a re-ingest inside a fill leaves the old input's value on the new row |
| ScanColumn.ChunkTable.WriteChunks | packages/ratch/ingest/ingest.py:328-353 | incoming documents are replaced, untouched ones keep their rows, a kill leaves the incoming ones empty |
| ScanColumn.ChunkTable.FillNull | packages/ratch/core/engine.py:140-164 | a fill not killed leaves no admitted NULL and changes no other row |
| ScanColumn.PendingIs | packages/ratch/core/driver.py:228-261 | a fill reads exactly the NULL rows of the documents its gate admits, with their inputs |
| ScanColumn.ExecuteMore | packages/ratch/core/engine.py:140-164 | a history goes on by exactly the steps possible where it has led |
| ScanColumn.RebuildAndEnd | packages/ratch/core/engine.py:79-137 | a rebuild gives every row the value of its input and leaves the fills alone, the end of a fill changes no row |
| ScanColumn.ChunkTable.UpsertScanColumn | packages/ratch/core/engine.py:79-137 | fill and rebuild alike end with the value of every row; a rebuild writes all rows, a fill the NULL ones; a killed overwrite leaves no column |
| AppendStage.Output.RunStage | packages/ratch/core/driver.py:373-431 | a run killed after so many appends has appended so many batches of the pending keys' rows in some order, one that is not killed all of them; whole keys when no append can divide one |
| AppendStage.ConvergesIff | packages/ratch/core/driver.py:373-431 | a finished run has every derived row exactly once if and only if no key began with part of its rows |
| AppendStage.RerunAddsNothing | packages/ratch/core/driver.py:14-17 | running a finished stage again changes nothing |
| AppendStage.RunToTheEnd | packages/ratch/core/driver.py:14-17 | when no append can divide a key, the first run that is not killed finishes, and leaves each row exactly once |
| AppendStage.PartStays | packages/ratch/core/driver.py:373-431 | a key that has rows keeps just those through all later runs |
| AppendStage.CanEndCompleteIff | packages/ratch/core/driver.py:373-431 | after any runs, cut and killed anywhere, further runs can complete the output if and only if none stopped inside the rows of a key |
| AppendStage.NeverStuckIff | packages/ratch/core/driver.py:14-17 | every sequence of runs can still end complete if and only if the source's rows fit one batch or its keys have equal shares of a batch |
| AppendStage.SomeKeyIsDivided | packages/ratch/core/driver.py:424-431 | for every other source some order of its keys has the rows of one across the end of the first batch |
| AppendStage.KilledInsideAKey | packages/ratch/core/driver.py:424-431 | a run over a source with a key of more rows than a batch, killed after the first batch, leaves an output no further runs complete |
| Outbox.StagedIsListedIff | services/common/outbox.py:34-78 | a staged event is listed, under its own run id whatever the prefix, if and only if the id has no slash |
| Outbox.NoRunIsLost | services/common/outbox.py:127-173 | over all interleavings and crashes, each run id ever staged is still staged, acknowledged or ingested |
| Outbox.TickDelivers | services/common/outbox.py:97-124 | an undisturbed tick delivers the body of each object listed, takes those away and no other |
| Outbox.AbandonedIsRelayed | services/common/outbox.py:127-173 | an event whose publisher failed or crashed stays staged and is delivered by the next tick that lists it, also after the relay stops half-way |
| Outbox.PublishedIsDropped | services/common/outbox.py:127-173 | a publisher nothing stops has its event acknowledged and leaves nothing staged |
| Outbox.RestagedBodyCanBeLost | services/common/outbox.py:34-48 | a redelivery with another body can have it dropped by the first publisher, and then crash |
| Outbox.BodiesSurvive | services/common/outbox.py:127-173 | with one body for each run id, every body is still staged or delivered itself |
| Outbox.NoBodyIsLostIff | services/common/outbox.py:127-173 | over all runs that stage the given bodies none is lost, if and only if each run id has one |
| Outbox.TickAdvances | services/common/outbox.py:97-124 | a tick that does not list an object takes a full limit from in front of it |
| Outbox.NothingStarves | services/common/outbox.py:63-124 | an object with p older ones is listed by tick p / limit + 1, whatever arrives meanwhile |
| PaddingCost.SortedIsCheapest | runners/voiceprint/voiceprint.py:116-126 | no split into full batches carries less padding than the sorted one |
| PaddingCost.ChunkCost | runners/voiceprint/voiceprint.py:125-126 | batches cut from the front of the sorted order cost one full batch for every size-th length |
| PaddingCost.LeftoverCounterexample | runners/voiceprint/voiceprint.py:116-126 | for every size, number of left-over slices and two lengths, a list of those lengths costs the sorted split r times their difference more than another split |
| PaddingCost.SortedIsBestIff | runners/voiceprint/voiceprint.py:116-126 | sorting is cheapest for all lists of n slices of at least any given length, if and only if no batch is short or there is one batch |
| Voiceprint.RoundIsNearest | runners/voiceprint/voiceprint.py:111-112 | rounding gives the nearest integer, the even one at a half |
| Voiceprint.SampleIsNearest | runners/voiceprint/voiceprint.py:111-112 | a point in time falls on its nearest sample |
| Voiceprint.SliceSamples | runners/voiceprint/voiceprint.py:107-113 | sample j of a turn's slice is sample lo + j of the recording, lo being the rounded start or zero, up to the rounded end or the recording's |
| Voiceprint.KeptIff | runners/voiceprint/voiceprint.py:147-157 | a turn is kept if and only if its clamped span has the samples of the minimum duration, or of a tenth of a second if longer |
| Voiceprint.SortedIndicesSort | runners/voiceprint/voiceprint.py:125-125 | the order is by length, and by index among equal lengths |
| Voiceprint.BatchesPartitionTheTurns | runners/voiceprint/voiceprint.py:116-126 | the batches hold every index exactly once, none empty, none over size |
| Voiceprint.DurationSortingIsBest | runners/voiceprint/voiceprint.py:116-126 | for lengths in any order, the batches carry the least padding of all splits when size divides the count |
| Voiceprint.Scatter | runners/voiceprint/voiceprint.py:165-167 | rows land at the indices of their batch and nowhere else |
| Voiceprint.EmbedBatches | runners/voiceprint/voiceprint.py:162-167 | row i is the row of slice i, embedded with the batch that holds it |
| Voiceprint.EmbedTurnSlices | runners/voiceprint/voiceprint.py:129-168 | kept turns are those long enough once clamped, in order, vector i is turn i's, and a batch size below one fails only if something is kept |
| Voiceprint.RowWiseVectors | runners/voiceprint/voiceprint.py:139-146 | with an encoder padding cannot touch, vector i depends on slice i alone |
| Base64Url.EncodedIsSymbols | services/common/user_state.py:90-97 | an encoded subject holds only A-Z a-z 0-9 - and _ |
| Base64Url.RoundTrip | services/common/user_state.py:90-102 | decoding an encoded subject gives it back |
| Base64Url.ReencodesIff | services/common/user_state.py:100-102 | text decodes if and only if its length is not 1 modulo 4, and encodes back to itself if and only if its left-over bits are zero |
| UserState.KeysNeverHoldTheSeparator | services/common/user_state.py:105-120 | no key holds Dapr's separator, so only a blank subject is refused |
| UserState.SeparatorIs | services/common/user_state.py:114-119 | the separator guarded against is two bars in a row |
| UserState.KeysAreInjective | services/common/user_state.py:105-120 | two owners never share a key |
| UserState.ReadIsLookup | services/common/user_state.py:166-197 | reading is the lookup in the map of documents, so the owner-mismatch branch is unreachable |
| UserState.WriteIsUpdate | services/common/user_state.py:199-216 | writing a row updates one document and no other |
| UserState.DropIsRemoval | services/common/user_state.py:218-221 | dropping a row removes one document and no other |
| UserState.EditedRowIsContained | services/common/user_state.py:166-197 | after any edit of one row every other owner still reads its own document, and the one whose row it is reads absent if and only if the row is empty |
| UserState.EmptiedRowIsOverwritten | services/common/user_state.py:175-177 | a document whose row was emptied reads as never written, and the next save stands in its place |
| UserState.CopiedRowIsCaughtIff | services/common/user_state.py:178-197 | one owner's row copied over another's is refused if and only if the subjects differ, and within a subject is served as the other document |
| UserState.UserStateStore.Get | services/common/user_state.py:166-197 | get answers from the map of documents, and any failure to reach the store is unavailable, never absent |
| UserState.UserStateStore.Put | services/common/user_state.py:199-216 | put updates its document, or leaves the map alone when the request never arrived |
| UserState.UserStateStore.Delete | services/common/user_state.py:218-221 | delete removes its document, or leaves the map alone when the request never arrived |
| ColumnLineage.BuildFacet | services/common/openlineage.py:126-154 | the loop builds the facet of the well-formed edges grouped by output field |
| ColumnLineage.NoEdgesNoFacet | services/common/openlineage.py:151-154 | the facet is empty if and only if no edge is well-formed, else it carries producer, schema and fields |
| ColumnLineage.ColumnEdges | services/lineage/models.py:88-137 | the nested loops return, in order, exactly the edges the JSON says, for any JSON |
| ColumnLineage.EdgesAreSaid | services/lineage/models.py:98-137 | an edge masks if and only if any transformation at any place does or the deprecated type begins with MASK; kind and description are the first transformation's, else the deprecated ones |
| ColumnLineage.FalsyIs | services/lineage/models.py:110-134 | what counts as missing is null, false, zero and the empty text, list and object |
| ColumnLineage.ParseOfBuild | services/lineage/models.py:88-137 | parsing a built facet gives exactly the well-formed edges, normalised, in order within each output field |
| ColumnLineage.BuildOfParse | services/common/openlineage.py:126-154 | building again from the parsed edges gives the identical facet |
| ColumnLineage.ForeignFacetReemits | services/lineage/models.py:88-137 | re-emitting what was parsed from any facet and parsing that gives the same edges in the same order |
| ColumnLineage.GroupsKeepOrder | services/common/openlineage.py:137-150 | grouping keeps the order of the edges into each output field |
| ColumnLineage.IntoIs | services/common/openlineage.py:137-150 | the edges into an output field are those of that field, each as often as it comes |
| ColumnLineage.GroupsOfFlat | services/common/openlineage.py:137-150 | edges that come grouped are grouped to what they were |
| TupleStore.DoWrite | services/common/fga.py:208-227 | flaky requests alone are tried again, up to the attempts and the time; beside what others do, the batch has landed whole at one moment or not at all, and is all there on success |
| TupleStore.RepeatsIff | services/common/fga.py:559-623 | a batch repeats a tuple, and is refused whole, if and only if it has fewer tuples than entries |
| TupleStore.GrownTwice | services/common/fga.py:559-623 | two calls after one another add no more than both batches, and what the first brought in stays unless others remove it |
| TupleStore.WriteTuples | services/common/fga.py:559-623 | the store is between what others made of it and that plus the batch; a batch without repeats succeeds if and only if its last request was answered, and then each tuple is there unless others removed it; alone, exactly old plus the batch |
| TupleStore.WriteOneByOne | services/common/fga.py:593-610 | nothing but the batch is added; it returns if and only if the last request was answered, and then each tuple landed or was there already, unless others removed it |
| TupleStore.DeleteTuples | services/common/fga.py:675-707 | nothing but the batch is taken away; it returns if and only if the last request was answered, and then each tuple is gone unless others added it; alone, exactly old less the batch |
| TupleStore.ReadObjectTuples | services/common/fga.py:459-497 | a read returns if and only if some pass within attempts and time has no failing page, and then holds the tuples of the first hundred pages |
| TupleStore.WhatIsLeft | services/common/fga.py:710-747 | other objects' tuples are as others left them, and when nobody adds to the object none is left if and only if others removed all that was not read |
| TupleStore.RevokeObjectTuples | services/common/fga.py:710-747 | no other object's tuple is touched; returning, none of the object's is left if and only if others removed the unread ones; alone, if and only if there are at most a hundred pages |
| TupleStore.ReadsAllIff | services/common/fga.py:459-497 | pages that are not empty and share no tuple are read whole if and only if they are at most a hundred |
| TupleStore.LongListingIsCutShort | services/common/fga.py:459-497 | a listing of one object with more pages than that is read short |
| JobRuns.AwaitSuccess | packages/ratch/core/jobs.py:199-222 | the first poll that ends the wait decides: a terminal status, or the fourth error in a row |
| JobRuns.GivesUpIff | packages/ratch/core/jobs.py:201-211 | the wait gives up at the fourth error in a row |
| JobRuns.StepKeeps | packages/ratch/core/jobs.py:169-222 | every step of every caller keeps the invariant |
| JobRuns.NeverTwoLive | packages/ratch/core/jobs.py:169-196 | however many callers and lost replies, never two live jobs under the id |
| JobRuns.ReturnMeansThisWork | packages/ratch/core/jobs.py:117-137 | a normal return stands for a succeeded run that was live at the call's submit step or started after |
| JobRuns.RaisedBecause | packages/ratch/core/jobs.py:169-222 | over every run, a caller raises only for an unheard reply of its submission, another caller's change of the listing meanwhile, its deadline, too many poll errors, or a failed or stopped instance |
| JobRuns.GivesUpAtFourth | packages/ratch/core/jobs.py:201-211 | over every run, a failed poll ends a caller's wait if and only if it is its fourth in a row |
| JobRuns.UnheardSubmissionAttaches | packages/ratch/core/jobs.py:175-187 | a submission whose reply is lost attaches to the job it started, and starts no second one |
| JobRuns.DeadlineEndsPolling | packages/ratch/core/jobs.py:200-222 | a caller that polls, and no other, raises at its deadline |
| JobRuns.UndisturbedCall | packages/ratch/core/jobs.py:169-196 | an undisturbed caller whose replies arrive ends up polling the live instance or a new one, whatever the end of the one listed |
| JobRuns.VerdictIsOwnIff | packages/ratch/core/jobs.py:169-222 | in every run, the end a caller hears is that of the instance it began to poll if and only if no delete took effect meanwhile, and then it returns if and only if that instance succeeded |
| JobRuns.OwnSuccessCanBeReportedFailed | packages/ratch/core/jobs.py:169-222 | another caller's resubmission between two polls can make a caller whose run succeeded raise |
| TopicTree.SizeIsRowCount | packages/ratch/features/topic_tree.py:79-83 | the leaf values add up to the number of chunks |
| TopicTree.FlattenRecoversCounts | packages/ratch/features/topic_tree.py:48-76 | the leaf value at a path is the number of chunks with that path, zero where there is none |
| TopicTree.ShapeOfTree | packages/ratch/features/topic_tree.py:63-76 | siblings have distinct names and come largest first, and every leaf lies at the depth of the layers |
| TopicTree.SplitByHead | packages/ratch/features/topic_tree.py:71-73 | splitting by the first label keeps every path with its count, in any order of the counter |
| TopicTree.BySizeSorts | packages/ratch/features/topic_tree.py:75-75 | the sort permutes the children to largest first |
| TopicTree.Subtree | packages/ratch/features/topic_tree.py:63-76 | the recursion builds the tree of the paths counted |
| TopicTree.Nest | packages/ratch/features/topic_tree.py:48-60 | every chunk is one path of the tree, NULL labels in the noise bucket |
| TopicTree.NullsAreNoise | packages/ratch/features/topic_tree.py:55-59 | a NULL label is the noise label on the path, every other label itself |
| Segments.SplitOfJoin | services/common/fga.py:122-150 | splitting joined segments gives them back |
| Segments.JoinOfSplit | services/common/fga.py:122-150 | joining the segments of an id gives it back |
| ObjectIds.IterateDrops | services/common/fga.py:135-149 | climbing k times drops the last k non-empty segments |
| ObjectIds.ParentsAreIteratesIff | services/common/maintenance_policies.py:164-167 | the resolver's parent set is what climbing reaches if and only if the id is empty or has no empty segment |
| MaintenancePolicies.ResolvePolicy | services/common/maintenance_policies.py:132-193 | the loop with its early return gives the answer of the three tiers |
| MaintenancePolicies.Tiers | services/common/maintenance_policies.py:132-193 | table beats the deepest namespace beats the only project claim, and overlapping project claims give none |
| MaintenancePolicies.LongestPathGoverns | services/common/maintenance_policies.py:174-180 | no matching namespace record has a longer path, trailing slashes aside, than the one that governs |
| MaintenancePolicies.GovernsByPath | services/common/maintenance_policies.py:168-178 | a table record governs by its path that dataset alone, a namespace record all that lie segments below |
| MaintenancePolicies.GovernsById | services/common/maintenance_policies.py:164-178 | by its id a namespace record governs exactly the tables below that id |
| MaintenancePolicies.GovernsByBucket | services/common/maintenance_policies.py:181-193 | a project record alone governs exactly the datasets of the buckets it lists |
| MaintenancePolicies.FirstSegmentIs | services/common/maintenance_policies.py:163-163 | the bucket is the path up to its first slash |
| MaintenancePolicies.SameDataset | services/common/maintenance_policies.py:162-163 | scheme and trailing slashes make no difference to which dataset is meant |
| MaintenancePolicies.OrderFreeIff | services/common/maintenance_policies.py:168-193 | the answer is the same for every order of the records if and only if no two different records tie in the deciding tier |
| MaintenancePolicies.MatchesStayInTheBucket | services/common/maintenance_policies.py:143-146 | path and project matches are in the dataset's bucket |
| MaintenancePolicies.IdsCrossBuckets | services/common/maintenance_policies.py:174-180 | a match by logical id governs whatever bucket the record's path names |
| MaintenancePolicies.BoundToTheBucketIff | services/common/maintenance_policies.py:143-180 | a namespace record governs, under any path, datasets of that path's bucket alone if and only if it does not match by logical id |
| WarehouseRegistry.ScanListing | services/common/warehouse_registry.py:101-131 | the loop and the minimum give the scan's answer |
| WarehouseRegistry.ScanIsOrderFree | services/common/warehouse_registry.py:101-131 | the answer does not depend on the listing's order |
| WarehouseRegistry.ScanAnswersFromItsClass | services/common/warehouse_registry.py:101-131 | a scan answers with the root of an active warehouse of the project and class, the lowest id of those that match |
| WarehouseRegistry.Resolver.ResolveRoot | services/common/warehouse_registry.py:81-132 | one lookup answers and changes the cache as the step says |
| WarehouseRegistry.AnswersAreRecentScans | services/common/warehouse_registry.py:81-132 | every answer is a scan's for the same project and class whose time to live has not run out, and None is always fresh |
| WarehouseRegistry.AnswersKeepToTheirClass | services/common/warehouse_registry.py:44-48 | work and gold lookups never answer for each other, whatever is cached |
| WarehouseRegistry.SkipsRegistryIff | services/common/warehouse_registry.py:81-132 | a lookup skips its own listing if and only if the last lookup that filled its entry has not run out, and then answers as that one did |
| WarehouseRegistry.ZeroTtlIsAlwaysFresh | services/common/warehouse_registry.py:154-161 | when every earlier lookup asked for zero, a lookup reads the registry and its answer is fresh |
| WarehouseRegistry.TheFillersTtlCounts | services/common/warehouse_registry.py:154-161 | for any time to live, a later lookup asking for zero can be answered from the entry with what is no longer so |

## Left out

- KgAdapter.Adapter.BuildTables: the four tables are sets of rows; the row order and the display columns are not modelled.
- KgSource.FoldsAsSpelled: the empty text is no metadata key, which every key's colons see to (adapter.py:163).
- KgAdapter.Adapter.FoldNode: parsing graphml, splitting and stripping the source-id string and the text helpers (`clean_name`, `is_junk`, `norm_type`, `clean_desc`) are uninterpreted, one branch deep each; nothing is assumed of `slug`, so two names may share an id.
- KgShardOrder.FoldIsOrderFreeIff: the one graph keeps equal nodes and edges of different work dirs apart, resolves each item by its own work dir's chunk dictionary, and takes edges in any order, where networkx lists them by their earlier end; with one dictionary that graph is a work dir (`OneGraphIsAShard`), and `KgUnion` is about the graph that merges equal items, in the order it has.
- KgUnion.UnionIsOneGraphIff: the single-run graph comes from LightRAG, which is not part of this model; it is taken to hold each node and each edge of the work dirs once, with the sources of them all, and a concrete type when one of them has one.
- ModelJanitor.ReferencedArtifactsSurvive: the blessed version's tokens are among the latest version's, because the registry only appends; the listing of one token's objects and the registry read are each one step.
- ModelJanitor.SweepListed: begins after the guard that refuses overlapping registry and artifact trees.
- BlobColumn.Dataset.Build: the attach pass is one atomic step; the checkpoint file that Lance keeps for it (engine.py:249-256) is not modelled.
- BlobColumn.Dataset.Upsert: the distributed form (driver.py:307-370) computes the same per-batch pairs on actors and is not modelled apart; sidecar values are assumed to survive JSON.
- ScanColumn.HistoryIsRightIff: histories are those possible under a compute without NULLs; when compute yields NULL a fill may read a row again, and a stale merge of a NULL does no harm.
- ScanColumn.ValuesAreNullOrTheirOwn: assumes unique chunk keys; the blob-table branch that refuses a partly filled column is not modelled.
- AppendStage.ConvergesIff: assumes unique source keys, and rows of one key that come one after the other in the result stream.
- Outbox.NothingStarves: an object that is staged again loses its place, and the bound starts anew.
- Voiceprint.EmbedTurnSlices: times are real numbers, so floating-point rounding of `start * sample_rate` is not modelled; models and vectors are uninterpreted.
- DescriptionCap.CapIsIdempotent: all white space is taken to be spaces, and limits start at two.
- Base64Url.ReencodesIff: text with characters outside the alphabet, which the decoder skips, is not modelled.
- UserState.ReadIsLookup: subjects are their UTF-8 bytes, blankness is an arbitrary predicate, and a record is assumed to survive its JSON form.
- ColumnLineage.ParseOfBuild: the recognised keys are an enumeration and column names are the keys of `fields`; `str()` of what is no string is uninterpreted.
- TupleStore.RevokeObjectTuples: the pages are those of the moment the call begins, and reads are asked apart from writes.
- JobRuns.ReturnMeansThisWork: the in-process path, the entrypoint and environment of a job, and the wording of failures are not modelled.
- TopicTree.Nest: a real label spelled like the noise label shares its bucket, as in the source; writing the table is not modelled.
- MaintenancePolicies.ResolvePolicy: the delimiter is one character; reading, writing and state stamps of records are not modelled.
- WarehouseRegistry.AnswersAreRecentScans: reading one listing is one step; the environment override of the time to live is an argument.
- Lance, S3, Ray, OpenFGA and Dapr themselves: only atomic commits and appends, refusal of a taken id, deletion of ended jobs and all-or-nothing tuple writes are used.
- Service entry points, authentication, metrics, tracing, index planning, model inference and the frontend: wiring, or members one branch deep.
