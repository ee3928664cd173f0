# Verified model of the memory service

The service keeps facts that were extracted from conversation turns and hands them back as a short cited
context. This project models its two stateful cores in Dafny and proves what they promise.

**The store** is five tables held in memory: turns, memories, entities, mentions and edges, with the
generated key column, the uniqueness of entities and edges, and the `CASCADE` and `SET NULL` actions of the
schema. `Lifecycle` defines three requests on it, ingesting a turn, deleting a session and deleting a user,
as one transition system; the choices Postgres makes (row order among equal stamps, the row a `LIMIT 1`
returns, the uuids drawn) are part of the event, so a theorem over all runs covers all of them. `Store` is
the imperative form: a class whose fields are the tables and whose methods follow the handlers loop by
loop, each proved to carry out a legal event. `Additions` says what a turn adds to the tables in terms of
what was said. `Invariants`, `Graph`, `Supersession`, `Chains`, `Frames` and `Folding` prove properties of
every reachable state; `Concurrency` interleaves ingest transactions step by step under advisory locks with
an arbitrary hash and proves serializability, and `Histories` that every concurrent history is a run of the
store, so that what holds of runs holds of it.

**Recall** is a pipeline: pool the hits, fuse them by weighted reciprocal rank (`Fusion`, `Ranking`), gate
on evidence, and fill three tiers under a token budget (`Assembler`, `Budget`, `Rendering`). `Queries` and
`Recall` join the two halves: what the queries return, and what finally reaches the caller, stays in the
caller's scope and is cited by live turns. `Promises` says in terms of rows, texts and numbers when a recall
shows something, and that every line of it states a row as it stands now. `Isolation` proves end to end that
no request concerning other scopes changes what recall returns in this one.

Around them, `Taxonomy` proves the key sound and `Transcript` the round trip of a turn through flat text
and the regular expression that takes the user's lines out of it. `Witnesses` holds concrete runs in which
the conditions of theorems fail, with what happens then.

How the files build on each other: `Text`, `Taxonomy`, `Tables`; then `Reconciler`, `Groups`;
then `Lifecycle`, `Invariants`, `Supersession`, `Chains`, `Graph`, `Additions`, `Frames`, `Folding`,
`Concurrency`, `Histories`, `Store`, `Witnesses`; beside them `Fusion`, `Ranking`, `Assembler`, `Budget`,
`Rendering`; on top `Queries`, `Recall`, `Promises`, `Isolation`; and `Transcript` by itself.

## Conditions that are part of the results

* `created_at` is the start of the transaction, so stamps may tie or run backwards. Results that need
  increasing stamps say so (`IncreasingStamps`). Without them a recompute may reactivate a superseded row,
  exactly when such a row bears the greatest stamp of its group (`RecomputeReactivatesIff`);
  `SupersededRowReturns` is a run in which it does. Over whole runs, ties or not, superseded rows stay
  inactive and none is superseded twice if and only if no session delete activates a row that a row of
  another session supersedes (`RunTidyIff`); supersession then forms disjoint chains (`RunChains`).
* `same_subject` links are complete in every state of a run if and only if each session delete restores only
  rows that are linked already to every row of their subject that is active afterwards (`RunLinkedIff`).
  Restoring an earlier row in the ordinary way breaks them as soon as its subject got another fact while
  it was inactive; no tie is needed (`RestoredRowUnlinked`).
* Multiplicity belongs to the predicate, grouping to the string `subject::predicate`. "One active row" is
  therefore stated for groups whose candidates were all single-valued (`SingleValued`), and for every
  single-valued predicate of a subject that no subject of the run extends or is extended by. Extending is
  being the other subject followed by `::other`, or by `::other:` and at most 43 characters that
  normalisation leaves alone. With predicates that normalisation yields (`IsNormalIff`) two subjects can have
  one key exactly when one of them extends the other (`KeysClashIff`), and each such pair has a run with two
  active rows in the group of a single-valued predicate (`ClashSplits`).
* A session delete recomputes exactly one active row per affected group whatever the multiplicity, so
  coexisting facts do not survive it as active rows.

Where the code and its own documentation disagree, the model follows the code:

* The header of `reconciler.py` says that a repeated object inserts a refresh row; the code skips it.
* `list_stable_facts` and its siblings fall back to an older stamp for a deleted source turn; that fallback
  is never taken (`AnswersStayInScope`).
* The project's documentation says every retrieval is parameterized by scope. The entity hop and the edge
  hop are not; that they stay in scope is an invariant of the reachable states, proved here.
* `assembler.py` describes unused budget as flowing to the next tier. Tier 2 keeps its own cap, only tier 3
  gets the rest, and `_fit_lines` counts earlier lines twice. It shows as many lines as a single count
  would if and only if the last of these still fits when the others count twice (`DoubleCountingStopsIff`).
* The same file drops a hit that repeats a stable fact on the ground that it is already there. It is shown
  if and only if the first fact it repeats still fits tier 1 (`DroppedIsShownIff`, `DroppedUnseen`).
* `normalize_predicate` reads as idempotent. It is, unless its cut to 48 characters leaves white space at
  the end, which ordinary blanks cannot cause (`CutLeavesSpaceAt` is an input that does).
* The gate asks whether any structured memory matched. It asks this of the fused hits, one for each row, so a
  strong full-text hit goes unseen when the vector index found the same memory weakly (`SignalDisplaced`).
* A blank user message that is not the last one makes the extractor take the next line for the user's, and
  so does a line of an answer that reads like a user's (`RoundTripIff`, `QuoteIntrudes`). A closing
  parenthesis in a user's name loses or distorts what that user says (`SingleLinesIff`).
* `routes_admin.py` drops the entities of the deleted session's own scope only. Those of a user that only the
  session mentioned stay, are found by name and open the gate (`LeftUnmentionedIff`, `LeftBehindOpensGate`).

## Model

| member | source | states |
|---|---|---|
| Taxonomy.NormalizeIdempotentIff | src/memory_service/extraction/taxonomy.py:148-162 | normalising twice is normalising once, if and only if the cut to 48 characters does not leave white space at the end |
| Taxonomy.NormalizeIdempotent | src/memory_service/extraction/taxonomy.py:148-162 | idempotence for every string whose only white space is the blank |
| Taxonomy.CutLeavesSpaceAt | src/memory_service/extraction/taxonomy.py:148-162 | the exception occurs: 47 letters, a tab and a letter normalise differently the second time |
| Taxonomy.IsNormalIff | src/memory_service/extraction/taxonomy.py:148-162 | the values of normalisation are exactly the indexed predicates and `other:` with at most 48 lower-case characters that hold no blank or dash, are no name, and end in white space only if cut |
| Taxonomy.ManyValuedIff | src/memory_service/extraction/taxonomy.py:165-175 | which predicates are many-valued: the nineteen listed, and no other string |
| Taxonomy.KeysClashIff | src/memory_service/db/migrations/001_init.sql:71-72 | two different subjects can have one key, with predicates that normalisation yields, if and only if one of them extends the other |
| Taxonomy.KeyInjective | src/memory_service/extraction/models.py:28-29 | with normalised predicates, one key means one subject and one predicate, or subjects that extend each other |
| Taxonomy.ExtendsClashes | src/memory_service/extraction/taxonomy.py:165-175 | where one subject extends the other, the clash can be one of a single-valued with a many-valued predicate |
| Taxonomy.ExtensionHasSeparator | src/memory_service/extraction/models.py:28-29 | a subject without `::` extends no other |
| Taxonomy.KeyCollision | src/memory_service/db/migrations/001_init.sql:71-72 | two candidates of different multiplicity with one key, one predicate being normalised from raw text |
| Reconciler.DecideFollowsPolicy | src/memory_service/services/reconciler.py:58-134 | whatever order ties are fetched in: insert unless an active row has the object, replace all active rows of a single-valued key, only the mentioned or else the latest ones for a correction, none otherwise, and supersede the latest of those replaced |
| Reconciler.DecideMeaning | src/memory_service/services/reconciler.py:58-134 | in terms of rows and texts: a candidate is inserted if and only if no active row has its object up to case and surrounding white space; it replaces active rows only, all of them if it is single-valued, none if it is many-valued and no correction; it supersedes a latest of those replaced |
| Reconciler.CorrectionReplaces | src/memory_service/services/reconciler.py:110-129 | a correction of a many-valued predicate replaces exactly the active rows whose object occurs in its quote up to case, or if there are none one latest active row |
| Groups.PruneMakesSound | src/memory_service/repo/memory_repo.py:429-451 | after any deletion and recompute a non-empty group has exactly one active row and its links stay inside |
| Groups.WriteKeepsSound | src/memory_service/services/reconciler.py:84-134 | a reconciled write keeps an active row, pairwise different active objects, and links inside the group |
| Groups.RecomputeReactivatesIff | src/memory_service/repo/memory_repo.py:440-451 | every pick leaves superseded rows inactive if and only if no superseded row is a latest row of the group |
| Groups.PruneTidyIff | src/memory_service/repo/memory_repo.py:429-451 | a deletion and recompute keep superseded rows inactive if and only if no surviving row supersedes the row picked |
| Supersession.RunTidyIff | src/memory_service/repo/memory_repo.py:429-451 | over every run, whatever the stamps: at every point links stay inside the group, superseded rows are inactive and none is superseded twice, if and only if no session delete activates a row that a row of another session supersedes |
| Supersession.RunOrdered | src/memory_service/db/migrations/001_init.sql:80 | in every reachable state the `supersedes` links of a group follow an order of its rows, so they form no cycle |
| Chains.ChainLinks | src/memory_service/db/migrations/001_init.sql:80 | following `supersedes` from a row gives a finite chain of live rows |
| Chains.ChainsDisjoint | src/memory_service/services/reconciler.py:88-129 | chains from different heads share no row |
| Chains.ChainsCover | src/memory_service/services/reconciler.py:88-129 | every row lies on the chain of some head |
| Chains.RunChains | src/memory_service/services/reconciler.py:88-129 | over every run with tied stamps too, as long as no session delete activates a row that a row of another session supersedes: each row of a group is on the chain of exactly one head, no chain meets a row twice, and active rows are heads |
| Chains.StampedChains | src/memory_service/services/reconciler.py:88-129 | increasing stamps rule such a delete out, and then stamps decrease along chains |
| Lifecycle.StepOnGroup | src/memory_service/api/routes_turns.py:74-113 | one pass of the loop changes its own group only, by a decision that follows the policy, row by row |
| Additions.LinkEntitiesAdds | src/memory_service/api/routes_turns.py:115-126 | the inner loop links the memory to an entity of the name (up to case), kind and scope of each mention with a name, adds no other link, and changes entities in the case of their names only |
| Additions.IngestAdds | src/memory_service/api/routes_turns.py:61-156 | an ingest adds its turn; every new row holds one of its candidates field by field and is linked to each entity it names; every new mention is such a link; the new edges are exactly those that join two new rows (0.7) or a new row with an active row of its scope and subject (0.5), both ways; all else stays but for `active` |
| Invariants.DropSessionOnGroup | src/memory_service/api/routes_admin.py:42-54 | deleting a session prunes and recomputes the groups it wrote to and touches no other group |
| Invariants.DropUserOnGroup | src/memory_service/api/routes_admin.py:59-75 | deleting a user empties the groups of the user's scope and touches no other group |
| Invariants.RunConsistent | src/memory_service/api/routes_turns.py:61-156 | in every reachable state each memory names a live source turn of its scope and session, keys are generated from subject and predicate, and every group is sound |
| Invariants.ActiveRows | src/memory_service/services/reconciler.py:84-134 | over every run: a non-empty group has an active row, active objects differ pairwise, and a group with single-valued candidates only has exactly one |
| Invariants.SingleValuedByPredicate | src/memory_service/extraction/taxonomy.py:165-175 | over every run with normalised predicates whose subjects do not extend this one nor the other way round, the group of a single-valued predicate has at most one active row |
| Invariants.SupersessionChains | src/memory_service/services/reconciler.py:88-129 | over every run with increasing stamps, links go to live, older, inactive rows, no row is superseded twice, and in single-valued groups the latest row is the active one and links go to the row just before, with another object |
| Invariants.SupersedesInGroup | src/memory_service/db/migrations/001_init.sql:80 | in every reachable state `supersedes` names a live row of the same scope and key |
| Graph.InsertedAreNew | src/memory_service/api/routes_turns.py:93-113 | the ids collected by the loop are exactly the new rows; old rows change in `active` only, and only to false |
| Graph.RunGraphSound | src/memory_service/repo/memory_repo.py:281-337 | in every reachable state edges are irreflexive, symmetric, live, within one scope and weighted by relation, mentions stay in scope and entities are unique |
| Graph.ScopeClosed | src/memory_service/db/migrations/001_init.sql:134-153 | in every reachable state edges, mentions, `supersedes` and `source_turn` all stay inside one scope |
| Graph.DropSessionLinkedIff | src/memory_service/api/routes_admin.py:42-54 | where links between active rows of one subject are complete, a session delete keeps them so if and only if every row it restores is linked already to every row of its scope and subject that is active afterwards |
| Graph.RunLinkedIff | src/memory_service/api/routes_turns.py:128-156 | over every run: any two active rows of one scope and subject are linked both ways at every point if and only if each session delete restores linked rows only |
| Graph.RunSubjectsLinked | src/memory_service/api/routes_turns.py:128-156 | in particular they are linked as long as no recompute reactivates a row |
| Frames.IngestFrame | src/memory_service/api/routes_turns.py:61-156 | an ingest leaves the rows of every other scope, in all five tables, exactly as they were |
| Frames.DropUserFrame | src/memory_service/api/routes_admin.py:59-75 | deleting a user leaves nothing of the user's scope and every other scope exactly as it was |
| Frames.DropSessionScopeFrame | src/memory_service/api/routes_admin.py:42-54 | a scope in which the session left nothing is unchanged in all five tables |
| Frames.UserDeleted | src/memory_service/api/routes_admin.py:59-75 | the same for a user deleted after any run |
| Frames.SessionDeleted | src/memory_service/api/routes_admin.py:30-56 | after any run, deleting a session removes exactly its memories and turns and all of its own scope, and leaves groups it did not write to unchanged field by field |
| Frames.LeftUnmentionedIff | src/memory_service/api/routes_admin.py:42-54 | a session delete leaves exactly those entities without a mention that lie outside its own scope and were mentioned by its memories only |
| Folding.StepPresent | src/memory_service/services/reconciler.py:87-118 | a candidate inserts if and only if no active row of its group has its object; afterwards one has |
| Folding.LastCandidateWins | src/memory_service/api/routes_turns.py:74-113 | after the loop every active row of a single-valued key has the object of the last candidate for it |
| Folding.SecondIngestIdle | src/memory_service/api/routes_turns.py:74-156 | ingesting the candidates of a coherent turn again, in any later transaction, adds its turn and nothing else |
| Concurrency.SameOnAgreeing | src/memory_service/services/reconciler.py:137-142 | a transaction does the same on any table that agrees on the groups it has locked |
| Concurrency.Serializable | src/memory_service/api/routes_turns.py:61-111 | for every hash and schedule, aborts included, the committed table is that of the committed transactions run one after another in commit order, and that serial run is legal |
| Concurrency.NoSplitActiveRow | src/memory_service/services/reconciler.py:137-154 | no interleaving splits the active row of a single-valued group or leaves equal active objects |
| Histories.ConcurrentIsRun | src/memory_service/api/routes_turns.py:61-111 | from every reachable state, every schedule commits the memories table of a serial run of requests, those of the committed transactions in commit order, each of which adds its turn and leaves earlier turns as they were |
| Histories.ConcurrentRowsSound | src/memory_service/api/routes_turns.py:94-111 | after every schedule keys are generated, each source turn is an earlier turn of the scope and session of the row or that of a committed transaction of this scope and session, and groups are sound |
| Histories.ConcurrentSingleValued | src/memory_service/services/reconciler.py:137-154 | no schedule gives the group of a single-valued predicate two active rows, under the condition on subjects |
| Witnesses.SupersededRowReturns | src/memory_service/repo/memory_repo.py:440-451 | a run with equal stamps after which a superseded row is active and an active row of its subject is not linked to it |
| Witnesses.RestoredRowUnlinked | src/memory_service/repo/memory_repo.py:429-451 | a run with increasing stamps after which two active rows of one subject are not linked, because a session delete restored one of them |
| Witnesses.ClashSplits | src/memory_service/db/migrations/001_init.sql:71-72 | for every two subjects of which one extends the other, a run that leaves two active rows in the group of a single-valued predicate |
| Store.Sort | src/memory_service/services/reconciler.py:74-82 | the fetched ids are the rows of the group, each once, newest first |
| Store.Reconcile | src/memory_service/services/reconciler.py:58-134 | the branches and early returns compute the decision that is proved to follow the policy |
| Store.Store.constructor | src/memory_service/db/migrations/001_init.sql:20-153 | the tables start empty |
| Store.Store.ApplyDecision | src/memory_service/services/reconciler.py:145-154 | row by row: no row is added or lost, nothing but `active` changes, and a row is active afterwards if and only if it was and is not named |
| Store.Store.ReconcileAndInsert | src/memory_service/api/routes_turns.py:78-113 | reconcile, update and insert are one step of the transition system on memories; the row inserted is active and holds the candidate field by field |
| Store.Store.UpsertEntity | src/memory_service/repo/memory_repo.py:281-301 | returns the conflicting entity if there is one, with its name replaced and its kind kept, else a new one; all other entities stay |
| Store.Store.LinkMentions | src/memory_service/api/routes_turns.py:115-126 | the inner loop links the memory to an entity for each mention with a name, and adds no other link |
| Store.Store.IngestCandidate | src/memory_service/api/routes_turns.py:74-126 | one pass of the loop is one legal step on the whole store; if it inserts, the new row is linked to every entity the candidate names, and there are no other new links |
| Store.Store.CandidateLoop | src/memory_service/api/routes_turns.py:74-126 | the loop is the fold of its steps, with the inserted ids and subjects in parallel |
| Store.Store.InsertEdge | src/memory_service/repo/memory_repo.py:319-337 | adds the edge unless it is a loop or already there |
| Store.Store.LinkPeers | src/memory_service/api/routes_turns.py:138-156 | links a row with each of its peers both ways |
| Store.Store.LinkInserted | src/memory_service/api/routes_turns.py:128-156 | the nested loops, one direction at a time, add exactly the edges among new rows and between new rows and active rows of the same subject |
| Store.Store.IngestTurn | src/memory_service/api/routes_turns.py:61-156 | the handler carries out a legal ingest event with the given candidates in order, and adds what `Additions.IngestAdds` says |
| Tables.RemovalKeepsReferences | src/memory_service/db/migrations/001_init.sql:134-149 | after each of the three kinds of delete every reference still names a live row, if it did before |
| Store.Store.RemoveMemories | src/memory_service/db/migrations/001_init.sql:134-149 | row by row: the dead memories and the mentions and edges that name them are gone, a `supersedes` that named one is null, every other reference and field is kept |
| Store.Store.RemoveTurns | src/memory_service/db/migrations/001_init.sql:77 | row by row: every memory stays, a `source_turn` that named a dead turn is null, every other reference and field is kept |
| Store.Store.RemoveEntities | src/memory_service/db/migrations/001_init.sql:134-136 | row by row: the dead entities and the mentions that name them are gone, all else is kept |
| Store.Store.RecomputeActive | src/memory_service/repo/memory_repo.py:429-451 | clears the group and sets one row with the greatest stamp |
| Store.Store.RecomputeAll | src/memory_service/api/routes_admin.py:53-54 | the loop over affected groups is one simultaneous recompute with valid picks |
| Store.Store.RemoveSession | src/memory_service/api/routes_admin.py:42-54 | the handler carries out a legal session delete |
| Store.Store.RemoveUser | src/memory_service/api/routes_admin.py:59-75 | the handler carries out a legal user delete |
| Fusion.GroupBySource | src/memory_service/services/fusion.py:78-87 | hits are grouped by source, sources in the order first seen, hits in pool order |
| Fusion.BucketsMeaning | src/memory_service/services/fusion.py:78-87 | each source has one bucket, holding exactly its hits in pool order |
| Fusion.RrfFuse | src/memory_service/services/fusion.py:45-75 | the two accumulating dictionaries and the final sort compute the fused list characterised by `FusionMeaning`, and no score in it is below a later one |
| Fusion.BestMeaning | src/memory_service/services/fusion.py:60-70 | the hit kept for a key is its first occurrence in a heaviest source |
| Fusion.SortMeaning | src/memory_service/services/fusion.py:71-75 | sorting sorts and permutes |
| Fusion.SortStable | src/memory_service/services/recall.py:203-208 | sorting is stable: the elements that tie with any given one keep their order |
| Fusion.MemoryFirstThenFilter | src/memory_service/services/recall.py:203-211 | the memory-first stable re-sort and then picking a kind is picking that kind from the fused list |
| Ranking.TotalIsScore | src/memory_service/services/fusion.py:58-66 | the accumulated score is the sum over all occurrences of weight over k + rank + 1 |
| Ranking.ScoreOrderFree | src/memory_service/services/fusion.py:45-75 | scores do not depend on the order of the sources |
| Ranking.FusionMeaning | src/memory_service/services/fusion.py:45-75 | each key that occurs is listed exactly once, with its sum and its best occurrence, and no score is below a later one |
| Ranking.SourceAdds | src/memory_service/services/fusion.py:32-66 | a source that lists a hit once, at rank r, adds its weight (1.5, 1.4, 1.1, 1.0, 0.9 or 0.7) over k + r + 1 to the score |
| Ranking.RankedOrder | src/memory_service/services/recall.py:203-208 | after the re-sort no turn stands before a memory, and within a kind no score is below a later one |
| Ranking.ShownSource | src/memory_service/services/fusion.py:32-70 | of a turn found twice the hit of the vector index is shown; of a memory that found through an entity, else by the vector index, else by its words, else by a hop |
| Ranking.HasMemorySignal | src/memory_service/services/recall.py:42-50 | true exactly if some hit is memory evidence |
| Ranking.HasTurnSignal | src/memory_service/services/recall.py:53-59 | true exactly if some hit is turn evidence |
| Ranking.GateIgnoresHops | src/memory_service/services/recall.py:161-227 | two pools that differ in edge-hop hits only open the same tiers |
| Ranking.GraphForcesSignal | src/memory_service/services/recall.py:138-159 | a hit found through an entity survives fusion as the hit shown and is always memory evidence |
| Ranking.SignalIsHeaviest | src/memory_service/services/recall.py:199-224 | what passes for evidence is a pooled hit that no hit on the same row from a heavier source displaces |
| Ranking.HeaviestIsSignal | src/memory_service/services/recall.py:199-224 | a row all of whose heaviest hits are evidence passes for evidence |
| Ranking.SignalDisplaced | src/memory_service/services/fusion.py:60-70 | a full-text hit on a memory, alone evidence if it is strong, is none beside a weak vector hit on the same memory |
| Assembler.LongestPrefix | src/memory_service/services/assembler.py:228-250 | what is shown is exactly the longest prefix whose last line passes the test, earlier lines counting once or twice |
| Assembler.SpentWithinRoom | src/memory_service/services/assembler.py:228-250 | a tier never accounts for more than its room |
| Assembler.FitLines | src/memory_service/services/assembler.py:211-253 | the loop with its shared counter shows that prefix, with one citation per line, and adds header and lines to the tokens used |
| Assembler.FitFacts | src/memory_service/services/assembler.py:255-273 | the same for tier 1, where each line counts once |
| Assembler.DropRepeats | src/memory_service/services/assembler.py:277-281 | the hits kept are those characterised by `NoRepeats` |
| Assembler.Assemble | src/memory_service/services/assembler.py:188-297 | the imperative assembly yields the context and citations the budget lemmas are about |
| Budget.ContextBound | src/memory_service/services/assembler.py:188-297 | for all inputs a non-empty context has at most 4 * max_tokens - 2 characters, so its own token count is below the budget |
| Budget.PlanWithinBudget | src/memory_service/services/assembler.py:33-46 | tiers 1 and 2 stay within their caps and all tiers within max_tokens |
| Budget.TiersAreLongest | src/memory_service/services/assembler.py:228-293 | each open tier shows the longest prefix that fits the room the earlier tiers left |
| Budget.TwoFifthsEach | src/memory_service/services/assembler.py:33-46 | facts and memories each spend at most two fifths of the budget |
| Budget.EmptyIff | src/memory_service/services/assembler.py:188-297 | the context is empty if and only if each tier is closed, has nothing to show, or its first line and heading do not fit: into two fifths of the budget for facts and for memories, into all of it for turns |
| Budget.DoubleCountingStopsIff | src/memory_service/services/assembler.py:228-250 | counting earlier lines twice shows no more lines than counting them once, and as many if and only if the last of these fits under the double count |
| Budget.DoubleCountingStopsEarly | src/memory_service/services/assembler.py:228-250 | three short lines of which it shows two |
| Budget.NoRepeats | src/memory_service/services/assembler.py:275-281 | tier 2 draws on exactly the hits whose text is no stable fact's value, or on all if tier 1 is closed |
| Budget.DroppedIsShownIff | src/memory_service/services/assembler.py:277-281 | the text of a hit dropped from tier 2 is shown in tier 1 if and only if the first fact it repeats fits there |
| Budget.DroppedUnseen | src/memory_service/services/assembler.py:277-281 | a context that is empty because its only hit repeats a fact there is no room for |
| Budget.OneCitationPerLine | src/memory_service/services/assembler.py:237-250 | if facts have source turns there is one citation for each line, in line order, each of its own line |
| Rendering.ContextLines | src/memory_service/services/assembler.py:110-297 | the context is made of the lines shown under the headings of their tiers and of nothing else; each line is the current value of its own fact or memory, followed by the value it replaced if that is asked for, or quotes the turn; the lines stand in the context one after the other, in the order of the citations, and each citation has the turn, score and snippet of its line |
| Rendering.KeptInOrder | src/memory_service/services/assembler.py:275-281 | the hits kept for tier 2 are, in the order in which they came, exactly those that repeat no stable fact, or all if tier 1 is closed |
| Queries.AnswersStayInScope | src/memory_service/repo/memory_repo.py:130-162 | in every reachable state the entity hop, the edge hop and the join with the superseded row stay in the scope they start from, and the date of a superseded row is that of the turn that superseded it |
| Queries.NeighbourInScope | src/memory_service/repo/memory_repo.py:361-399 | one hop over edges of a sound graph stays in the scope of its seeds |
| Queries.MentioningInScope | src/memory_service/repo/memory_repo.py:147-162 | rows that mention an entity of a scope are of that scope |
| Queries.OthersChangeNoAnswer | src/memory_service/repo/memory_repo.py:31-192 | after any run, no request concerning other scopes changes which entities a name lookup or which rows a query of this scope returns, nor their contents |
| Recall.DistinctOnce | src/memory_service/repo/memory_repo.py:163-170 | after deduplication no memory is listed twice |
| Recall.MemoriesMentioning | src/memory_service/repo/memory_repo.py:163-192 | the loop with its `seen` set keeps each row once, in the order first seen |
| Recall.MaxWeight | src/memory_service/repo/memory_repo.py:361-399 | the aggregate is the greatest weight of an edge from a seed, and is 0.7 exactly if a co-extraction edge leads there, else 0.5 |
| Recall.MemoriesViaEdges | src/memory_service/services/recall.py:161-197 | each neighbour becomes an edge-hop hit with that weight as its score |
| Recall.Rank | src/memory_service/services/recall.py:199-211 | grouping, fusing, re-sorting and splitting by kind gives the fused lists without the re-sort |
| Recall.OpenGate | src/memory_service/services/recall.py:213-227 | the signal scans over the split lists open the gate of the pool: facts if and only if the query is about the user and has an entity, memory evidence or an open-ended intent, hits if and only if it has an entity, memory evidence, or turn evidence while not open-ended about the user |
| Recall.GateOfBase | src/memory_service/services/recall.py:161-227 | the gate is that of the pool before the edge hop |
| Recall.FusedFromPool | src/memory_service/services/fusion.py:45-75 | nothing is shown that was not pooled |
| Recall.CitationsResolvable | src/memory_service/services/assembler.py:237-250 | there is one citation per line, and each names a live turn of the caller's scope |
| Recall.EmptyOverWrong | src/memory_service/services/assembler.py:55-107 | facts are shown only to queries about the user with an entity, memory evidence or an open-ended intent, hits only on an entity or evidence, and without lines context and citations are empty |
| Recall.NothingFoundNothingShown | src/memory_service/services/recall.py:213-261 | for a query without an entity, an open-ended intent and a retrieved hit that is evidence from a heaviest source, context and citations are empty, whatever facts and neighbours the database returns |
| Promises.GateIff | src/memory_service/services/assembler.py:55-107 | the same if-and-only-if of the material of a recall, with a named entity of the scope spelled out, and evidence as a hit that clears the floor of its source |
| Promises.SomethingFoundSomethingShown | src/memory_service/services/recall.py:213-261 | the converse: unless the query is open-ended about the user, a turn that the vector index found at or above its floor, or only the words at or above theirs, makes a context that is not empty if turns fit into the budget at all |
| Promises.MaterialIsCurrent | src/memory_service/repo/memory_repo.py:31-192 | what may be shown is active rows of the caller's scope with their own values and the value each replaced, facts moreover no events and of confidence 0.5 at least, and turns of the scope; the facts are those the query returned, and no row that was retrieved, mentions a named entity or is a neighbour is lost |
| Promises.ContextSays | src/memory_service/services/recall.py:62-261 | each line of the context states an active row of the caller's scope or quotes a retrieved turn of it, and the n-th citation names the source turn of that row or that turn |
| Promises.SeedsIff | src/memory_service/services/recall.py:161-171 | the edge hop starts from the rows of the first eight memory hits |
| Promises.HopIff | src/memory_service/repo/memory_repo.py:361-399 | a row is a neighbour if and only if it is active, no start of the hop, and an edge leads to it from a start |
| Promises.FusedDescends | src/memory_service/services/recall.py:199-211 | the hits of a kind come in descending order of their scores |
| Recall.Recall | src/memory_service/services/recall.py:62-261 | the whole pipeline on a reachable store: within the budget, one citation per line, every citation a live turn of the caller's scope |
| Isolation.OthersChangeNoRecall | src/memory_service/services/recall.py:62-261 | after any run, no request concerning other scopes changes what the database may answer to a recall in this scope, nor the facts, hits and gate made of the answers, hence neither context nor citations |
| Isolation.LeftBehindOpensGate | src/memory_service/repo/memory_repo.py:108-127 | an entity that only a deleted session mentioned is still found by its name and opens tier 2 |
| Transcript.FlattenMessages | src/memory_service/repo/turn_repo.py:23-32 | the loop prints the lines the round trip is about |
| Transcript.RoundTripIff | src/memory_service/extraction/rule_extractor.py:94-115 | parsing the printed turn gives exactly the stripped user messages in order, if and only if each is a single line, none but the last message is blank, and no line inside of what others say starts a match |
| Transcript.RoundTrip | src/memory_service/extraction/rule_extractor.py:112-115 | in particular when all messages are single lines and every user message has content |
| Transcript.SingleLinesIff | src/memory_service/extraction/rule_extractor.py:94-115 | when all messages and names are single lines, the round trip succeeds if and only if none but the last message is a blank one of the user and no user name has a closing parenthesis |
| Transcript.LostAndQuoted | src/memory_service/extraction/rule_extractor.py:94-115 | with longer messages it can succeed by coincidence: a line lost to a name is quoted by an answer |
| Transcript.BlankSwallows | src/memory_service/extraction/rule_extractor.py:94 | a blank user message yields the first line of the next message instead, whoever wrote it |
| Transcript.QuoteIntrudes | src/memory_service/extraction/rule_extractor.py:94-115 | an answer that quotes the user on a line of its own breaks the round trip |
| Transcript.MatchIsRead | src/memory_service/extraction/rule_extractor.py:94 | a match is a reading of the expression part by part: the word, the optional name in parentheses, the colon, white space, the rest of a line |
| Transcript.ReadIsMatch | src/memory_service/extraction/rule_extractor.py:94 | whatever can be read so is a match, and of all readings the one with the most white space before the body is taken |
| Transcript.RolesDiffer | src/memory_service/repo/turn_repo.py:23-32 | no two roles print the same |

## Left out

- Transcript.RoundTripIff: asks that names are single lines, those of users without a closing parenthesis, and that a line `user(` in what others say is closed within the message; without it a match may run across messages, and failures may cancel out (`LostAndQuoted`). `SingleLinesIff` covers such user names where messages are single lines.
- Taxonomy.AliasOf: its table is data, of which nothing is proved but that its targets are indexed.
- Text.Lower: lowers ASCII letters only; Unicode case folding is not modelled.
- Assembler.Tokens: the count of four characters to a token; byte-pair counts are not subadditive, so the bound on the context is not claimed for them.
- Assembler.HitCitation: scores are exact; their rounding to four digits is not modelled.
- Recall.Recall: starts from the answers of the retrievers and queries, as any rows that satisfy the WHERE clauses; ORDER BY, LIMIT, text search, vectors and the query analyzer are not modelled, and all reads are taken on one state of the store.
- Concurrency.Serializable: covers the memories table; turns, entities, mentions and edges of concurrent ingests, row-lock waits and deadlocks are not modelled, and a session delete, which takes no advisory lock, is not among the concurrent requests.
- Ranking.FusionMeaning: scores are exact rationals, not floating-point numbers.
- Reconciler.Candidate: whether the quote contains a correction marker is an arbitrary truth value, and candidates are arbitrary; the language model, the pattern bank and the clamping of confidence are not modelled.
- Tables.Memory: `updated_at` is identified with `created_at`, as no request rewrites the columns its trigger watches; embeddings and search vectors are left out.
- Tables.Turn: the text of a turn is modelled in `Transcript` only; metadata and embeddings are left out.
- Store.Uuid4: any unused id.
- Date formatting is an arbitrary function of the time, and a missing date an absent option.
- The order of equal elements within sets that the code reads in table order (peers, affected groups) is arbitrary.
- Listing and searching endpoints, authentication, payload limits, migrations, configuration and logging.
