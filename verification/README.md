# Verified model of low-context-inference

A Dafny model of the parts of the context proxy that decide something: what a client's
history may add to the stored conversation, which messages reach the model under a token
budget, how stored turns are chunked for memory, who is let through, and what is captured
from a streamed answer. Every theorem is about all inputs, and the ones about protocols are
about all runs and interleavings. `dafny verify dfyconfig.toml` checks the whole project.
Nothing was executed.

Where the source loops or updates state, the model has a method or a class that does the
same, proved against a specification function; the laws are lemmas about that function.

| part | files |
|---|---|
| messages, equivalence, compaction summaries | `Messages.dfy` |
| the reconciliation decision and its laws | `Reconciliation.dfy`, `ReconciliationLaws.dfy` |
| the store, concurrent requests, whole sessions | `ConversationStore.dfy`, `RequestProtocol.dfy`, `Sessions.dfy` |
| segmentation, request separation, fallback planner | `Segmentation.dfy`, `Planner.dfy`, `SegmentationLaws.dfy` |
| diversity selection | `Mmr.dfy`, `Ordering.dfy` |
| the context engine | `Candidates.dfy`, `CandidateLists.dfy`, `ContextEngine.dfy`, `ContextAssembly.dfy`, `RetrievalLaws.dfy`, `AssemblyLaws.dfy` |
| incremental chunking | `Chunking.dfy` |
| rate limiter, client quota, circuit breaker | `RateLimiter.dfy`, `ClientQuota.dfy`, `QuotaRuns.dfy`, `CircuitBreaker.dfy` |
| streaming capture | `Capture.dfy` |

## Main results

- The reconciliation decision, made by bounded backward scans, is exactly the one justified
  by a scan-free definition (`DecisionCharacterised`). It is idempotent in every accepting
  mode, and a reply is committed exactly under a stated condition.
- Any interleaving of any number of identical requests stores the history once and one reply.
  A whole session, also after a client compacted its history and with a client that prunes what
  it sends, loses and repeats nothing.
- The newest-first engine and the drop-oldest planner keep the same context; a plan's
  estimate is exact and within budget; every candidate is selected once or dropped with one reason.
  No instruction is ever dropped, nothing retrieved crosses conversations, and which retrieved items
  compete for the budget is stated on the items themselves (`SurvivorsExactly`, `ItemAccounted`).
- Incremental chunking from a watermark is chunking from scratch, after every run.
- Over every run of the circuit breaker, a failed probe shuts everyone out for the reset time unless a
  success is recorded, and a success lets everyone through until a whole threshold of failures follows.
- Cutting a message into interleaved stream fragments and rebuilding it is the identity.

## Promises that hold only under a condition

In each case the model follows the code, and the exact condition is proved.

- A half-open circuit is documented to let exactly one caller through until its probe resolves
  (resilience.py:33-39). Any attempt granted before the circuit opened clears the flag when it
  ends, so this holds if and only if nothing else is under way (`ProbeExclusiveExactly`). Every
  fresh circuit reaches a state where it fails (`PromiseFails`).
- Rotating conversation ids is documented not to mint quota, because the client's bucket
  aggregates its traffic (ratelimit.py:12-13). That bucket can be evicted or forgotten, and at equal
  clock readings the least recently active bucket can be the client's own. A client on its own is held
  to its quota if and only if ttl times rate is at least burst and max_identities exceeds burst, or the
  number of conversation names (`SoloExactly`). When no two requests share a reading, and others make at
  most m requests between two of its own, 2m+2 places are enough and fewer are not (`ApartExactly`).
  When requests may share a reading and others ask too, no number is enough (`NeverShared`). In the runs
  at one reading the evicted bucket is the client's, whose key Python's dictionary saw first and `min` returns.
- Idle buckets are dropped to bound memory (ratelimit.py:15-22). This can change a decision
  if and only if ttl times rate is below burst (`SweepInvisibleExactly`).
- Equivalence of messages is not symmetric (`EquivalentNotSymmetric`); the exact condition is
  `EquivalentSymmetricExactly`.
- A compaction followed by more than 128 new messages is a conflict (`CompactionRecognisedInWindow`).
- A reply equivalent to the last stored message is not stored after a compaction
  (`ReplyCommittedExactly`).
- A payload that fits is not always sent in its own order (`NothingLostWhenItFits`).

## Where code and documentation disagree

- engine.py:5-7 lists deduplication before supersession filtering; the code filters superseded
  and foreign candidates first, so a rejected block never hides a duplicate of it.
- capture.py:153-154 speaks of unknown fields of the first fragment only; the code keeps the first value
  of each key from any fragment.
- config.py:122-125 says that rotating conversation ids gives fresh buckets; the code also charges
  the client's own bucket, with the effect stated above.
- The production store reports the shorter length on a conflict, not the divergent position
  (`Store.ReconcileProjected`).

## Model

| member | source | states |
|---|---|---|
| `Messages.ReadText` | src/context_proxy/conversation/reconciliation.py:17-29 | the part-collecting loop computes the recursive reading of a content value, and gives nothing as soon as one part is not text |
| `Messages.TextExactly` | src/context_proxy/conversation/reconciliation.py:17-29 | a content reads as a text if and only if it is that string, or a list of text parts whose texts, one after another, make it up |
| `Messages.CanonicalExactly` | src/context_proxy/conversation/reconciliation.py:32-40 | two messages have the same canonical form if and only if they differ only in reasoning fields and in how text is split into parts |
| `Messages.CanonicalIdempotent` | src/context_proxy/conversation/reconciliation.py:32-40 | canonicalising twice changes nothing, and a message and its canonical form are equivalent both ways |
| `Messages.EquivalentExactly` | src/context_proxy/conversation/reconciliation.py:43-60 | on the raw messages: a sent message stands for a stored one if and only if they differ only in the three reasoning fields and in how text is split, or the sent one is the stored tool result with the same non-empty call id and the pruning marker for content |
| `Messages.EquivalentSameCall` | src/context_proxy/conversation/reconciliation.py:43-60 | equivalent messages have the same tool call id |
| `Messages.EquivalentReflexive` | src/context_proxy/conversation/reconciliation.py:43-60 | every message is equivalent to itself |
| `Messages.EquivalentTransitive` | src/context_proxy/conversation/reconciliation.py:43-60 | equivalence composes, also through a pruned tool result |
| `Messages.EquivalentSymmetricExactly` | src/context_proxy/conversation/reconciliation.py:50-58 | an equivalent pair is equivalent the other way round if and only if the two differ only in reasoning fields and text splitting, or the stored content is itself the pruning marker; both cases spelled out on the raw messages |
| `Messages.EquivalentNotSymmetric` | src/context_proxy/conversation/reconciliation.py:50-58 | for every other tool output, the full result accepts the pruned one and not the reverse |
| `Messages.ContainsExactly` | src/context_proxy/conversation/reconciliation.py:84-89 | the substring test used to spot a summary holds exactly when the text splits around the searched part |
| `Messages.SummaryExactly` | src/context_proxy/conversation/reconciliation.py:63-89 | a message is a summary if and only if its summary flag is true, its mode is compaction in any case, its metadata carries one of the two flags, or its text holds the wrapper sentence and both summary tags |
| `Reconciliation.PrefixLen` | src/context_proxy/conversation/reconciliation.py:92-99 | the length of the longest common prefix: everything before it is equivalent, and it cannot be extended |
| `Reconciliation.ComputePrefixLen` | src/context_proxy/conversation/reconciliation.py:92-99 | the forward loop finds that length |
| `Reconciliation.Run` | src/context_proxy/conversation/reconciliation.py:133-135 | the longest block of equivalent messages that ends at two given positions and stays above a floor |
| `Reconciliation.ComputeRun` | src/context_proxy/conversation/reconciliation.py:133-135 | the backward loop finds that block's length |
| `Reconciliation.ScanFrom` | src/context_proxy/conversation/reconciliation.py:116-138 | scanning backwards finds the latest position that matches the last stored message, with its longest block, or proves there is none in the window |
| `Reconciliation.AnchorUnique` | src/context_proxy/conversation/reconciliation.py:116-138 | whatever satisfies the definition of an anchor is the one the scan returns |
| `Reconciliation.ComputeAnchor` | src/context_proxy/conversation/reconciliation.py:116-138 | the two nested loops over at most 128 trailing messages compute the anchor |
| `Reconciliation.ComputeSuffixMatch` | src/context_proxy/conversation/reconciliation.py:102-113 | the suffix loop computes the match of the whole sent history with the end of the store |
| `Reconciliation.ReconcileProjection` | src/context_proxy/conversation/reconciliation.py:141-177 | the branch-and-return decision, run on the loops above, computes the decision function that the laws below are about |
| `ReconciliationLaws.DecisionCharacterised` | src/context_proxy/conversation/reconciliation.py:141-177 | an outcome is decided if and only if it is justified by a definition that mentions no scan: which prefix, suffix or summary-bearing gap the sent history projects; a conflict means no accepting outcome is justified, so at most one ever is |
| `ReconciliationLaws.DecidedAccepted` | src/context_proxy/conversation/reconciliation.py:141-177 | soundness: every accepting decision has a pointwise witness that the unappended part repeats what is stored |
| `ReconciliationLaws.AcceptedDecides` | src/context_proxy/conversation/reconciliation.py:141-177 | completeness: whatever can be justified is what the code decides |
| `ReconciliationLaws.ForkNeverAppends` | src/context_proxy/conversation/reconciliation.py:141-177 | a history that shares a non-empty prefix, then differs inside both and holds no summary never adds anything |
| `ReconciliationLaws.CompactionRecognisedInWindow` | src/context_proxy/conversation/reconciliation.py:116-168 | prefix, gap with a summary, preserved block, new tail: decided as compacted with the append point at the first new message when the tail has at most 128 messages, and as a conflict when it has more |
| `ReconciliationLaws.AnchorMoves` | src/context_proxy/conversation/reconciliation.py:116-168 | after the new tail is stored, the same anchor is found again, now reaching to the end of the sent history, also with one unrelated message added |
| `ReconciliationLaws.ReplayAppendsNothing` | src/context_proxy/conversation/reconciliation.py:92-177 | idempotence in every accepting mode: sending an accepted history again is accepted again and adds nothing |
| `ReconciliationLaws.ReplayAnchored` | src/context_proxy/conversation/reconciliation.py:141-177 | which outcome the replay of a compacted or truncated-and-extended history gets |
| `ReconciliationLaws.ReplyCommittedExactly` | src/context_proxy/api/routes.py:204-209 | reconciling the accepted history with the reply added appends exactly the reply if the pair is committable, and nothing otherwise; committable is decided by the inbound outcome and by whether the last stored message already matches the reply |
| `ReconciliationLaws.MatchingEndAppendsNothing` | src/context_proxy/conversation/reconciliation.py:116-177 | when both histories end alike, only a plain extension of the store appends anything |
| `ConversationStore.Store.constructor` | src/context_proxy/conversation/store.py:104-116 | a new conversation is empty and its numbering invariant holds |
| `ConversationStore.Store.InsertMessages` | src/context_proxy/conversation/store.py:198-235 | appends exactly the given messages after the old rows, which stay as they are; the new rows carry the next consecutive numbers and the rows stay numbered from 0 without gaps |
| `ConversationStore.Store.AppendMessages` | src/context_proxy/conversation/store.py:126-146 | the same for a plain append |
| `ConversationStore.Store.ReconcileHistory` | src/context_proxy/conversation/store.py:148-187 | the store becomes the old one plus the decided new tail and the numbers of exactly the new rows are reported; it reports a divergence if and only if the decision is a conflict, then at the first position where the histories differ, with both messages there, and nothing is written |
| `ConversationStore.Store.ReconcileProjected` | src/context_proxy/conversation/projection_store.py:17-53 | the production override writes the same and rejects the same, but the index it reports is the shorter length, which is never the first divergence, and one of the two reported messages is always missing |
| `ConversationStore.ConflictInsideBoth` | src/context_proxy/conversation/reconciliation.py:141-177 | a conflict always diverges strictly inside both histories and leaves the store alone |
| `ConversationStore.ChatCompletion` | src/context_proxy/api/routes.py:109-126 | a request is served if and only if its history is no conflict, and afterwards the store holds the old rows, the new tail, and the reply exactly when it is committable |
| `RequestProtocol.StoredOnlyGrows` | src/context_proxy/api/routes.py:185-229 | over every interleaving of any requests, stored messages are never changed, removed or reordered |
| `RequestProtocol.CanEnd` | src/context_proxy/api/routes.py:109-229 | a request under way can always end on its own, without a reply or after a failed inbound transaction, leaving the store and all other requests as they are |
| `RequestProtocol.IdenticalRequests` | src/context_proxy/api/routes.py:109-126 | any number of requests with the same history, in any interleaving of their inbound and reply transactions, starting from a store equivalent to a prefix of it: none is rejected, and the store ends with the history's tail once followed by the first reply only |
| `RequestProtocol.LaterTransactions` | src/context_proxy/api/routes.py:185-229 | once one reply is stored, both transactions of every other such request leave the store unchanged |
| `Sessions.CompactedGoesOn` | src/context_proxy/conversation/reconciliation.py:141-177 | after a compaction, further distinguishable messages are appended exactly, and the client's history still leads to the end of the store |
| `Sessions.CompactedReprojects` | src/context_proxy/conversation/reconciliation.py:50-58 | after a compaction the client may prune or split anew every message it sends outside the gap that holds the summary, and its history still leads to the end of the store |
| `Sessions.TurnServed` | src/context_proxy/api/routes.py:204-209 | one turn, in full or after a compaction, with or without new messages and in whatever equivalent form the earlier ones are sent, stores exactly its new messages and its reply |
| `Sessions.SessionKeepsEverything` | src/context_proxy/api/routes.py:204-209 | over any number of turns the store holds every message said exactly once, in order and as first said, although the client no longer sends the compacted part and may re-project everything else in every turn |
| `Sessions.CompactionLeads` | src/context_proxy/conversation/reconciliation.py:156-168 | a recognised compaction puts the client in a position from which such sessions start |
| `Mmr.MaxSimilarityTo` | src/context_proxy/context/mmr.py:62 | the largest similarity to what is already selected: an upper bound of all of them that one of them attains |
| `Mmr.MaxSimilarityIs` | src/context_proxy/context/mmr.py:62 | no selected item is more similar, and one is exactly as similar |
| `Mmr.TradeOffDecides` | src/context_proxy/context/mmr.py:62-66 | one item precedes another if and only if lambda times its score less 1 - lambda times its similarity to the most similar selected item is larger, or equal with a better score, or equal in both with a smaller key |
| `Mmr.DiversityWins` | src/context_proxy/context/mmr.py:62-66 | with lambda below 1, of two equally scored items the one whose every similarity to the selection is below some similarity of the other comes first |
| `Mmr.RelevanceWins` | src/context_proxy/context/mmr.py:62-66 | with lambda above 0, of two items equally similar to everything selected the better scored one comes first |
| `Ordering.LessExactly` | src/context_proxy/context/mmr.py:64 | string order: a proper prefix comes first, otherwise the first differing character decides |
| `Mmr.FindBest` | src/context_proxy/context/mmr.py:61-67 | one pass finds the item that precedes all others by trade-off, then score, then key |
| `Mmr.Without` | src/context_proxy/context/mmr.py:69 | removing the pick keeps exactly the items with another key, and the list gets shorter |
| `Mmr.SelectRest` | src/context_proxy/context/mmr.py:57-71 | the loop after the first pick yields the picks defined on the set of remaining items, each dropping whatever shares its key |
| `Mmr.Select` | src/context_proxy/context/mmr.py:53-71 | the selection is the best-scored item followed by the picks of the loop, empty when the limit is not positive; for distinct keys, in any input order, it is the greedy sequence defined on the set of candidates |
| `Mmr.SelectionIsGreedy` | src/context_proxy/context/mmr.py:53-71 | for distinct keys, dropping by key and dropping the pick are the same, so the selection is the greedy sequence |
| `Mmr.SelectionSize` | src/context_proxy/context/mmr.py:53-71 | as many picks as the limit and the input allow, all distinct and all from the input |
| `Mmr.OrderIndependent` | src/context_proxy/context/mmr.py:53-71 | permuting the input does not change the selection |
| `Mmr.GreedyPrefix` | src/context_proxy/context/mmr.py:53-71 | a larger limit only adds picks at the end |
| `Mmr.PureRelevance` | src/context_proxy/context/mmr.py:53-71 | with lambda 1 the picks are the best items by descending score then key, in that order, and everything not picked comes after them |
| `Segmentation.SegmentMessages` | src/context_proxy/context/planner.py:71-122 | the loop with its open turn and its prefill computes the segmentation function |
| `Segmentation.SegmentFaithful` | src/context_proxy/context/planner.py:71-122 | segmentation keeps the instructions and the other messages, each in order; every unit is of one kind and priced by its messages; the turns are the other messages split before every user message |
| `SegmentationLaws.UnitShape` | src/context_proxy/context/planner.py:71-122 | every unit is priced by its messages and is one system or developer message, or a user message followed by neither user nor instruction messages, or a non-empty run of such other messages |
| `SegmentationLaws.LastTurn` | src/context_proxy/context/planner.py:71-122 | the units of a payload are the units of what precedes its last user message, then the instructions given after it one by one, then that interaction |
| `SegmentationLaws.BeforeAnyUser` | src/context_proxy/context/planner.py:71-122 | without a user message the units follow the messages in order and no two neighbours hold other messages than instructions |
| `SegmentationLaws.SplitExactly` | src/context_proxy/context/planner.py:71-122 | the instructions are the messages at exactly the positions whose role is system or developer, in order, and the ordinary messages those at all other positions |
| `SegmentationLaws.PriceExactly` | src/context_proxy/context/tokens.py:84-85 | the price of a list of messages is the sum of the prices of its messages |
| `Segmentation.KindsSplit` | src/context_proxy/context/planner.py:71-122 | instruction units carry exactly the instruction messages and the other units the rest |
| `Segmentation.SeparateCurrentRequest` | src/context_proxy/context/engine.py:74-107 | the two backward scans compute the separation function |
| `Segmentation.SeparateKeeps` | src/context_proxy/context/engine.py:74-107 | history and request together are a permutation of the payload |
| `Segmentation.RequestShape` | src/context_proxy/context/engine.py:74-107 | there is a request if and only if there is a user message; it starts with the last one and does not end with an instruction |
| `SegmentationLaws.SeparateExactly` | src/context_proxy/context/engine.py:74-107 | without a user message everything is history; otherwise the payload is before, request and trailing instructions, the request starts at the last user message and does not end with an instruction, and the history is before followed by the trailing instructions |
| `Planner.FitFrom` | src/context_proxy/context/planner.py:166-179 | where the longest suffix of prices within a cap begins |
| `Planner.FitFromUnique` | src/context_proxy/context/planner.py:166-179 | only one start leaves a maximal fitting suffix |
| `Planner.TrimKeepsSuffix` | src/context_proxy/context/planner.py:169-177 | dropping the oldest non-instruction units while over budget keeps all instructions and the longest suffix of the other units that fits beside them |
| `Planner.DropOldest` | src/context_proxy/context/planner.py:166-179 | the pass that clears slots while lowering the running total computes that trimming |
| `Planner.PlanContext` | src/context_proxy/context/planner.py:125-215 | the fallback planner computes the plan function; its second overflow guard is never reached |
| `Planner.PlanPricedExactly` | src/context_proxy/context/planner.py:125-215 | a plan's estimate is the cost of the messages it emits, leaves tools and reserve free within the budget, and dropped plus emitted tokens are all tokens |
| `SegmentationLaws.PlanExactly` | src/context_proxy/context/planner.py:125-215 | a plan sends the instructions of everything before some cut, all units after it unchanged, and the request; it counts the other units before the cut as dropped, and the cut is the first at which what is kept fits |
| `AssemblyLaws.PlanSendsInstructions` | src/context_proxy/context/planner.py:166-179 | every system and developer message of the history is in every plan, as often as it occurs |
| `Candidates.DecimalInjective` | src/context_proxy/context/engine.py:264 | decimal numerals of different numbers differ |
| `Candidates.KeysInjective` | src/context_proxy/context/engine.py:264-312 | different units, and different pinned messages, get different keys |
| `Candidates.KeysApart` | src/context_proxy/context/engine.py:264-312 | the reserved keys of units, pinned messages, request and tools never coincide |
| `ContextEngine.FuseCandidates` | src/context_proxy/context/engine.py:246-324 | units, request, tools, pinned and retrieved items become candidates in this order, one each |
| `ContextEngine.Filter` | src/context_proxy/context/engine.py:329-368 | a filtering pass keeps exactly what passes, in order, and records exactly the rest with its reason |
| `ContextEngine.Deduplicate` | src/context_proxy/context/engine.py:371-403 | the pass with its two sets of seen texts keeps and records exactly what the set-free definition of a duplicate says |
| `ContextAssembly.KeptExactly` | src/context_proxy/context/engine.py:371-403 | a candidate stays if and only if it is raw, has no text to compare, or repeats neither raw text nor a retrieval block listed before it |
| `RetrievalLaws.SurvivorsExactly` | src/context_proxy/context/engine.py:218-230 | what competes for the budget is every raw candidate and, in retrieval order, the blocks of exactly the items that are from the named conversation, are no superseded memory, and whose text, when there is one, is said by no interaction, content text of the history, request or pinned message, and by no relevant item listed before |
| `RetrievalLaws.OwnConversationOnly` | src/context_proxy/context/engine.py:347-368 | with a conversation named, every memory or chunk selected carries that conversation, is not superseded, and is the block of a retrieved item: one user message with its provenance line, at its own price |
| `RetrievalLaws.ItemAccounted` | src/context_proxy/context/engine.py:329-478 | for proper ids, a ready plan records every superseded, foreign or repeating item with that reason, in this order of precedence, and every other item is selected as its block or recorded as over budget or not selected |
| `RetrievalLaws.TurnAccounted` | src/context_proxy/context/engine.py:437-452 | for proper ids, every interaction of the history is in a ready plan with its messages and its price, or recorded as over budget |
| `ContextAssembly.DuplicatesGone` | src/context_proxy/context/engine.py:371-403 | no two kept retrieval blocks say the same |
| `ContextEngine.Classify` | src/context_proxy/context/engine.py:414-428 | the classification loop splits the candidates into mandatory, recent and retrieval ones, in order |
| `ContextEngine.KeepNewest` | src/context_proxy/context/engine.py:437-446 | taking whole units from the newest end until one does not fit gives the longest suffix that fits |
| `ContextEngine.PickRetrieved` | src/context_proxy/context/engine.py:454-478 | for any ids, the picked blocks are the packed diversity ranking, and the records are those of packing followed by those of the final pass over what was neither picked nor recorded |
| `ContextEngine.PackRanked` | src/context_proxy/context/engine.py:464-472 | whole blocks in rank order under the cap, and a record for exactly those that did not fit when their turn came |
| `RetrievalLaws.PackedInRankOrder` | src/context_proxy/context/engine.py:464-472 | each ranked block is packed exactly when it fits beside what was packed before it, and what was packed stays |
| `RetrievalLaws.NothingElseFits` | src/context_proxy/context/engine.py:464-472 | no ranked block that was left out fits beside the picked ones within what remains and the retrieval budget |
| `RetrievalLaws.RankedSize` | src/context_proxy/context/engine.py:454-463 | when keys differ and tokens remain, as many blocks are ranked as the item limit and the candidates allow, none twice |
| `ContextEngine.DropsExplained` | src/context_proxy/context/engine.py:454-478 | when keys differ and are new, every block that is not picked is recorded once, as over budget if it was ranked and as not selected if it was not, and nothing else changes |
| `ContextEngine.PickedFromRetrieval` | src/context_proxy/context/engine.py:454-472 | picked blocks are retrieval candidates within the item limit and the token cap, each at most once when keys differ |
| `ContextEngine.RenderOrderIs` | src/context_proxy/context/engine.py:480-495 | the sorted head with the request taken out renders as instructions, pinned messages, blocks, recent turns, request |
| `ContextAssembly.FusedDistinct` | src/context_proxy/context/engine.py:246-324 | fused candidates have pairwise different keys |
| `ContextAssembly.FusedSound` | src/context_proxy/context/candidates.py:267-324 | every fused candidate is priced by what it renders, and no retrieved block renders as an instruction |
| `ContextAssembly.SurvivorsAccount` | src/context_proxy/context/engine.py:218-230 | after the three rejecting stages every fused candidate is either alive or recorded, never both |
| `ContextAssembly.SelectionAccounts` | src/context_proxy/context/engine.py:407-504 | after allocation every candidate other than the tools is either in the order exactly once or recorded exactly once |
| `ContextAssembly.Allocate` | src/context_proxy/context/engine.py:407-504 | overflow exactly when the mandatory part exceeds the budget; otherwise mandatory candidates, the longest window of recent units, and the packed ranking of the retrieval candidates in what is left, with every record |
| `ContextAssembly.MakePlan` | src/context_proxy/context/engine.py:508-546 | renders the ordered candidates, with both structural guards kept |
| `ContextAssembly.Build` | src/context_proxy/context/engine.py:201-242 | it overflows if and only if instructions, request, pinned messages and tools exceed the budget; otherwise the message list is exactly instructions, pinned, blocks, recent window, request; the estimate is the cost of that list plus tools and within the budget; the blocks are the packed ranking of what survived, within both caps, each the one user message, with provenance line, of a retrieved item whose conversation is the named one and which is no superseded memory; neither guard of the rendering step fires; when retrieval ids are distinct and unreserved, every candidate is selected once or dropped with its one reason |
| `AssemblyLaws.EngineAgreesWithPlanner` | src/context_proxy/context/engine.py:407-504 | with nothing pinned or retrieved, the planner with budget B+R and reserve R overflows exactly when the engine with budget B does, with the required tokens differing by R; otherwise both keep the same context at the same price, and the engine's output is the planner's with the history's instructions moved stably to the front |
| `AssemblyLaws.InstructionsSent` | src/context_proxy/context/engine.py:414-428 | every system and developer message of the history is in every ready plan, as often as it occurs |
| `AssemblyLaws.NothingLostWhenItFits` | src/context_proxy/context/engine.py:480-495 | a payload that fits is emitted as a permutation of itself, and as itself if and only if no instruction follows the request and instructions come first before it |
| `AssemblyLaws.SplitUnchanged` | src/context_proxy/context/engine.py:480-495 | moving instructions to the front changes nothing if and only if they are there already |
| `Chunking.UnitsConcat` | src/context_proxy/memory/service.py:134-142 | rows before a user row can be split on their own |
| `Chunking.VisibleExactly` | src/context_proxy/memory/service.py:121-131 | the rows considered are exactly those whose role is not system |
| `Chunking.UnitsExactly` | src/context_proxy/memory/service.py:134-142 | the units are the only way to cut the rows so that every piece but the first starts with a user row and no other row of a piece is one |
| `Chunking.SettledGrows` | src/context_proxy/memory/service.py:134-142 | units that are settled stay as they are whatever rows follow |
| `Chunking.Boundary` | src/context_proxy/memory/service.py:112-120 | the last user row at or before the watermark, or the start |
| `Chunking.PassRefines` | src/context_proxy/memory/service.py:91-167 | one incremental pass after any further rows gives the table and watermark of chunking everything from scratch; the watermark does not go back, and it is where the last unit settled in the window ends |
| `Chunking.RunRefines` | src/context_proxy/memory/service.py:91-167 | after every run of appends and passes that ends with a pass, the table is that of splitting all non-system rows before user rows and leaving out the last unit; the spans are ordered and disjoint |
| `Chunking.RunChunks` | src/context_proxy/memory/service.py:91-167 | after every run of appends and passes that ends with a pass: the rows other than system rows are cut before every user row, each piece but the last is a chunk with its own rows, starting at its first row's number, there are no other chunks, and the watermark is the number of the last row of the last chunk |
| `Chunking.RunMonotone` | src/context_proxy/memory/service.py:91-167 | over every run the watermark never goes back and no chunk is lost or changed |
| `Chunking.ChunkService.constructor` | src/context_proxy/memory/service.py:91-110 | starts with no rows, no chunks and no watermark |
| `Chunking.ChunkService.AppendMessage` | src/context_proxy/conversation/store.py:198-235 | one more numbered row; the index does not change |
| `Chunking.ChunkService.ChunkNewTurns` | src/context_proxy/memory/service.py:91-167 | the locked pass performs the pass function, ends in the from-scratch table, counts the chunks it created, and the settled end it returns is always the stored watermark |
| `Chunking.InsertChunks` | src/context_proxy/memory/service.py:301-327 | inserting by start number adds only what is missing, never changes a chunk, and counts the additions |
| `Chunking.GroupTurns` | src/context_proxy/memory/service.py:134-142 | the grouping loop cuts the rows before every user row and nowhere else, without losing or reordering any |
| `RateLimiter.ConsumedKeepsBounds` | src/context_proxy/observability/ratelimit.py:100-138 | every access keeps both tables on the same keys, at most max_identities of them, with tokens between 0 and burst; right after it no bucket has been idle beyond one and a half lifetimes |
| `RateLimiter.RunSane` | src/context_proxy/observability/ratelimit.py:100-138 | those bounds hold after every run of accesses |
| `RateLimiter.GrantedExactly` | src/context_proxy/observability/ratelimit.py:122-138 | an access is granted if and only if the bucket holds a whole token, where a missing bucket, or one a due sweep finds idle beyond its lifetime, is full, and any other has gained rate times the time since its last use, up to burst; the level after it and the time are recorded, and every other bucket is unchanged or gone |
| `RateLimiter.KeysShared` | src/context_proxy/observability/ratelimit.py:95-98 | keys are at most two characters longer than max_identity_chars; two clients, or two conversations, share a bucket if and only if their names agree up to that many characters, and a client never shares one with a conversation |
| `RateLimiter.AccessPays` | src/context_proxy/observability/ratelimit.py:122-138 | a bucket that is not removed pays one token for every grant and never gains from an access |
| `RateLimiter.GrantsBounded` | src/context_proxy/observability/ratelimit.py:122-138 | a bucket not removed during a window grants at most burst plus rate times its length |
| `ClientQuota.QuotaKept` | src/context_proxy/observability/ratelimit.py:12-13 | at different readings, whatever conversation ids are sent, a client is allowed at most burst plus rate times the elapsed time, if buckets refill within their lifetime and the table has two places more than twice the requests others make between two of its own |
| `ClientQuota.SoloKept` | src/context_proxy/observability/ratelimit.py:12-13 | at any readings, equal ones included, a client on its own is held to that quota whatever conversation ids it rotates through, if buckets refill within their lifetime and the table has more places than a burst has tokens, or more than there are names |
| `ClientQuota.SafeExactly` | src/context_proxy/observability/ratelimit.py:111-120 | whichever of equally cold buckets is evicted, the client's bucket survives another bucket's access if and only if that bucket is there already or fewer than max_identities - 1 others were used at or after the client's last reading |
| `ClientQuota.ClientStaysExactly` | src/context_proxy/observability/ratelimit.py:111-120 | after a request at a new reading that reaches its conversation's bucket, the client's own bucket is still there if and only if the table has at least two places |
| `QuotaRuns.SweepMintsQuota` | src/context_proxy/observability/ratelimit.py:100-109 | with ttl times rate below burst, a run of a fresh limiter at different readings in which one client exceeds its quota: its bucket is forgotten before it has refilled |
| `QuotaRuns.EvictionMintsQuota` | src/context_proxy/observability/ratelimit.py:111-120 | with fewer than 2m+2 places, a run of a fresh limiter at different readings, with m requests of others between two of a client's, in which that client exceeds its quota: the least recently used order evicts its bucket every time |
| `QuotaRuns.TiesMintQuota` | src/context_proxy/observability/ratelimit.py:111-120 | with no more places than tokens in a burst, a run of a fresh limiter at one reading in which a client on its own exceeds its quota: its conversations fill the table until its own bucket goes |
| `QuotaRuns.CrowdMintsQuota` | src/context_proxy/observability/ratelimit.py:111-120 | for every table size, a run of a fresh limiter at one reading, with one other request between two of a client's, in which that client exceeds its quota |
| `QuotaRuns.ApartExactly` | src/context_proxy/observability/ratelimit.py:6-13 | at different readings, every client that asks again before more than m requests of others is held to its quota if and only if the table has at least 2m+2 places and ttl times rate is at least burst |
| `QuotaRuns.SoloExactly` | src/context_proxy/observability/ratelimit.py:6-13 | at any readings, a client on its own is held to its quota if and only if ttl times rate is at least burst and the table has more places than a burst has tokens, or more than there are conversation names |
| `QuotaRuns.NeverShared` | src/context_proxy/observability/ratelimit.py:6-13 | at any readings, with others asking in between, no table size holds every client to its quota |
| `QuotaRuns.EnoughNames` | src/context_proxy/observability/ratelimit.py:95-98 | there are at least ten to the power of max_identity_chars names that truncation keeps apart |
| `RateLimiter.RetryAfterSuffices` | src/context_proxy/observability/ratelimit.py:140-146 | the advice is at least one second; for a bucket below a token it refills one, and one second less does not overshoot it; for any other bucket it is one second |
| `RateLimiter.SameDecisions` | src/context_proxy/observability/ratelimit.py:86-109 | when a bucket refills within its lifetime, a sweeping table and a table that forgets nothing decide every sequence of requests alike |
| `RateLimiter.SweepShows` | src/context_proxy/observability/ratelimit.py:86-109 | otherwise some sequence of requests by one client is decided differently |
| `RateLimiter.SweepInvisibleExactly` | src/context_proxy/observability/ratelimit.py:86-109 | expiry never changes a decision while the table has room if and only if ttl times rate is at least burst |
| `RateLimiter.AdmissionExactly` | src/context_proxy/observability/ratelimit.py:150-182 | the client is refused if and only if its bucket, counted from the table before, holds less than a token; a named, non-empty conversation is charged exactly when the client was not refused, and refused only with less than a token; no other bucket is charged |
| `RateLimiter.AdmittedWithRoom` | src/context_proxy/observability/ratelimit.py:150-182 | while the table has room, admission is a function of the table and the request |
| `RateLimiter.NewLimiter` | src/context_proxy/observability/ratelimit.py:59-91 | out-of-range settings are rejected, all others give an empty table |
| `RateLimiter.Limiter.constructor` | src/context_proxy/observability/ratelimit.py:77-91 | the accepted settings with an empty table, last swept now |
| `RateLimiter.Limiter.ExpireStale` | src/context_proxy/observability/ratelimit.py:100-109 | removes exactly the buckets idle beyond the lifetime from both tables |
| `RateLimiter.Limiter.MakeRoom` | src/context_proxy/observability/ratelimit.py:111-120 | evicts only while at capacity and only buckets no more recently used than any that stay, until there is room |
| `RateLimiter.Limiter.ConsumeToken` | src/context_proxy/observability/ratelimit.py:122-138 | performs one access step: sweep when due, room for a new key, refill, grant if a token is there; the bounds are kept |
| `RateLimiter.Limiter.AdmitRequest` | src/context_proxy/observability/ratelimit.py:150-182 | performs one admission step over both buckets, with the scope and waiting time of a refusal; the bounds are kept |
| `CircuitBreaker.NewCircuit` | src/context_proxy/providers/resilience.py:41-57 | a threshold below one is rejected, any other gives a closed circuit |
| `CircuitBreaker.Circuit.constructor` | src/context_proxy/providers/resilience.py:50-57 | a closed circuit without failures or a reserved probe |
| `CircuitBreaker.Circuit.Transition` | src/context_proxy/providers/resilience.py:70-79 | the whole new state for each target mode; half-opening keeps the probe flag |
| `CircuitBreaker.Circuit.CurrentState` | src/context_proxy/providers/resilience.py:64-68 | an open circuit half-opens once the reset time has passed, nothing else changes |
| `CircuitBreaker.Circuit.AllowAttempt` | src/context_proxy/providers/resilience.py:81-96 | performs the grant step of the model the run theorems are about |
| `CircuitBreaker.Circuit.RecordSuccess` | src/context_proxy/providers/resilience.py:98-103 | performs the success step: closed, no failures, no reserved probe |
| `CircuitBreaker.Circuit.RecordFailure` | src/context_proxy/providers/resilience.py:105-115 | performs the failure step: one more failure and no reserved probe; a half-open circuit, and a closed one that reaches the threshold, opens at this reading, any other keeps its mode and opening time |
| `CircuitBreaker.Circuit.ReleaseProbe` | src/context_proxy/providers/resilience.py:117-128 | performs the release step and changes only the flag |
| `CircuitBreaker.StartsInvariant` | src/context_proxy/providers/resilience.py:41-57 | a fresh circuit with nothing under way satisfies the invariant |
| `CircuitBreaker.StepKeepsInvariant` | src/context_proxy/providers/resilience.py:59-128 | every step of any attempt keeps: a reserved probe means half-open with its granted attempt still unrecorded, the counter is the trailing run of recorded failures, and closed means that run is below the threshold |
| `CircuitBreaker.EveryRunKeepsInvariant` | src/context_proxy/providers/llm.py:144-213 | that invariant holds over every interleaving of attempts |
| `CircuitBreaker.NoGrantUntilRecord` | src/context_proxy/providers/resilience.py:81-96 | after a half-open grant nobody is granted until some attempt records or releases |
| `CircuitBreaker.IdleIsGranted` | src/context_proxy/providers/resilience.py:81-96 | with nothing under way, an attempt is refused if and only if the circuit is open and not yet due, so the circuit is never pinned half-open |
| `CircuitBreaker.OpenRefuses` | src/context_proxy/providers/resilience.py:64-96 | over every run, an open circuit grants nothing before its reset time has passed, unless a success is recorded |
| `CircuitBreaker.ProbeFailureReopens` | src/context_proxy/providers/resilience.py:105-115 | over every run after a failure recorded half-open at t, no attempt is granted at a reading before t plus the reset time, unless a success is recorded |
| `CircuitBreaker.ThresholdOpens` | src/context_proxy/providers/resilience.py:105-115 | the same after the failure that completes the threshold of a closed circuit |
| `CircuitBreaker.SuccessCloses` | src/context_proxy/providers/resilience.py:98-103 | over every run after a success recorded in any state, every attempt is granted until a whole threshold of failures has been recorded |
| `CircuitBreaker.ClosedGrants` | src/context_proxy/providers/resilience.py:81-115 | a closed circuit grants every attempt until the failures so far and the recorded ones reach the threshold |
| `CircuitBreaker.AttemptIsRun` | src/context_proxy/providers/llm.py:118-213 | a guarded request is the run ask, record, finish of the protocol, or a refused ask; a lost answer leaves mode, failures and opening time as the grant left them and releases the probe |
| `CircuitBreaker.BackoffDoubles` | src/context_proxy/providers/resilience.py:154 | the bound on a pause starts at the base and doubles with every try until it reaches the cap |
| `CircuitBreaker.ProbeExclusiveExactly` | src/context_proxy/providers/resilience.py:33-39 | the documented promise that only the probe is let through until it resolves, over all runs whose readings do not go back, holds if and only if nothing else is under way when the probe is granted |
| `CircuitBreaker.StaleAttemptAdmitsAnother` | src/context_proxy/providers/llm.py:209-213 | with another attempt under way, its finishing releases the flag and a second caller is let through, at any reading |
| `CircuitBreaker.PromiseFails` | src/context_proxy/providers/resilience.py:33-39 | for every threshold and reset time, a run of a fresh circuit whose readings do not go back and that ends in a half-open grant which is not exclusive: an attempt granted before the circuit opened is still sending |
| `CircuitBreaker.WithRetries` | src/context_proxy/providers/resilience.py:131-157 | at most one try plus the retries; every try but the last was a connect failure; a connect failure is returned only when the retries are used up; every pause is within its doubling, capped bound |
| `CircuitBreaker.ResilientSend` | src/context_proxy/providers/llm.py:118-213 | refused without a try exactly when the circuit does not allow it; otherwise the last answer decides whether success, failure or neither is recorded, and the reservation is released in every case |
| `Capture.BufferHoldsResponse` | src/context_proxy/capture.py:74-87 | over any chunks the buffer stays within the limit, overflows if and only if the whole response exceeds it, and otherwise holds exactly the concatenated response |
| `Capture.SlotsByIndex` | src/context_proxy/capture.py:146-173 | what is collected for a tool-call index depends only on that index's fragments, however they are interleaved |
| `Capture.HeardByStream` | src/context_proxy/capture.py:125-175 | everything collected is the stream-by-stream reading of the deltas: last role, concatenated content, refusal and each reasoning field |
| `Capture.MetadataIsLast` | src/context_proxy/capture.py:125-175 | usage, model and finish reason are each the last one present among the payloads, and absent when none is |
| `Capture.RoleIsLast` | src/context_proxy/capture.py:136-137 | the role is the last one given |
| `Capture.SlotIsLast` | src/context_proxy/capture.py:146-173 | the id and the type of a tool call are the last ones given for its index |
| `Capture.ExtraIsFirst` | src/context_proxy/capture.py:146-173 | an unknown field of a tool call keeps the first value given for it |
| `Capture.CallsExactly` | src/context_proxy/capture.py:177-224 | for any deltas, the message's tool calls are, in index order, those of exactly the indices for which some id was given, and each has an id |
| `Capture.DeltasExactly` | src/context_proxy/capture.py:125-135 | every payload with a choice contributes one delta in order: its delta, else its message, else nothing said |
| `Capture.CuttingRebuilt` | src/context_proxy/capture.py:125-224 | round trip: however a sendable message is cut into deltas, interleaved across calls and in order within each text, the message rebuilt from them is the original |
| `Capture.WholeIsCutting` | src/context_proxy/capture.py:125-224 | every sendable message has a cutting, so the round trip is never empty |
| `Capture.AbsorbedInGoes` | src/context_proxy/capture.py:125-175 | absorbing payloads in two goes is absorbing them all at once, so a second finalize reads the response twice over |
| `Capture.ResponseRebuilt` | src/context_proxy/capture.py:89-112 | a response whose payloads cut a message is captured as that message |
| `Capture.AssistantCapture.constructor` | src/context_proxy/capture.py:60-72 | an empty buffer that has not overflowed and nothing collected |
| `Capture.AssistantCapture.Feed` | src/context_proxy/capture.py:74-87 | one chunk is added, or the capture overflows and stays as it is |
| `Capture.AssistantCapture.AbsorbPayload` | src/context_proxy/capture.py:125-175 | performs the absorb step that the laws are about, with usage, model and finish reason |
| `Capture.AssistantCapture.HearReasoning` | src/context_proxy/capture.py:142-145 | each reasoning field that is present and non-empty is added under its own name |
| `Capture.AssistantCapture.HearFragments` | src/context_proxy/capture.py:146-173 | performs the fragment steps in order |
| `Capture.AssistantCapture.Finalize` | src/context_proxy/capture.py:89-112 | nothing when overflowed, and nothing changes; otherwise every payload of the decoded buffer is absorbed on top of what was heard before, and the message of all that is returned, or nothing when no payload had a choice |
| `Capture.PassThrough` | src/context_proxy/capture.py:255-280 | the chunks are forwarded unchanged in every case; a message and its metadata are handed on exactly when the stream completed within the limit, and then depend only on the whole response, not on the chunking |

## Left out

- SQL, connection pools and row locks: each locked transaction or locked method is one step. Tool-call, tool-result and media projections of a stored message are not modelled.
- Why a persistence call fails: a request whose inbound transaction fails is a step of the request protocol and goes on without the store (routes.py:122-126).
- UTF-8, event-stream (section 9.2 of the WHATWG HTML standard) and JSON decoding in `finalize`: an arbitrary function from the captured bytes to payloads stands for them.
- Python's equality of `True` and `1` inside JSON values: JSON values of different types are different here.
- Token counting (tokens.py): every theorem holds for any cost of a message, with the cost of a list the sum over its messages and the price of the tools a given number.
- Canonical texts, fingerprints, cosine similarity and relevance scores: arbitrary functions and real numbers, without float rounding or NaN.
- Hybrid retrieval, supersession queries, embeddings and vector indexing in memory/service.py: mostly database filters.
- HTTP routing, header filtering, payload validation, conversation identity, redaction, metrics, logging and start-up: they would only add easy members.
- Rationale, debug view and diagnostics of a context plan; `reset`, `retry_after`, `identity_count` and `allow` of the limiter, which only call what is modelled.
- Threads below the lock level. Clock readings are taken to be non-decreasing in the order in which the limiter's lock is taken.
- The order in which Python's `min` breaks ties between equally cold buckets: any coldest bucket may be evicted, and all laws hold for every choice.
- The distribution of the retry jitter: only its bounds are stated.
- ContextAssembly.Build: that every candidate is selected once or dropped with one reason is stated for retrieval ids that are distinct and differ from the reserved keys; otherwise the source's dictionaries merge entries, and the blocks and records are stated as what the passes compute.
- Mmr.SelectionSize: size and order independence of the selection are stated for distinct keys, which mmr.py:49 demands of its callers.
- QuotaRuns.ApartExactly: the failing run needs m+1 names that truncation keeps apart, and that of `NeverShared` needs max_identities of them; by `EnoughNames` this is no restriction up to ten to the power of max_identity_chars.
- Capture.CuttingRebuilt: message texts are strings and tool-call indices natural numbers; provider values of other types are not modelled.
- Chunking.ChunkService.AppendMessage: rows are numbered by position, which is what the store's numbering gives.
- Sessions.SessionKeepsEverything: after a compaction it asks that the gap with the summary is sent unchanged, that the new messages of a turn are at most 128 and none is equivalent to the last stored message, and that the reply does not repeat the message before it; `ReplyCommittedExactly` and `CompactionRecognisedInWindow` show what happens otherwise.
