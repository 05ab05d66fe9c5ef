# Nukara backend: verified model

This project models the parts of the Nukara backend that hold state, and proves what they promise over all inputs and
all runs. One module per component:

| file | models |
|---|---|
| `Sanitizer.dfy` | the streaming removal of think blocks, tags and boundary tokens from a reply (`sanitize.go`) |
| `Split.dfy` | cutting a reply into message segments (`split.go`) |
| `Activation.dfy` | depth-limited spreading activation over the memory graph (`recall.go`) |
| `Chains.dfy` | recall chains as connected components (`recall.go`) |
| `Similarity.dfy` | node similarity and the merge of two nodes (`similarity.go`) |
| `NodeStore.dfy`, `Ingest.dfy` | the node store and merge-or-create ingestion (`temporal_memory_graph.go`, `service.go`) |
| `Pipeline.dfy` | the message aggregator with its two timers and the per-conversation queues (`ws_chat_aggregate.go`, `ws_chat_queue.go`) |
| `Timers.dfy` | the two timers of a buffer over whole runs: when they rest, how often they expire, what flushes come of them |
| `Frames.dfy` | the WebSocket frame readers and writers of both sides and the text reader (`nanobot_ws.go`, `ws_conn.go`) |
| `PersonaText.dfy`, `Persona.dfy` | persona text and the decide, apply and replay cycle (`store.go`, `persona_decision.go`, `runner.go`) |
| `PersonaFields.dfy` | which field of the record each stored fact ends up in, over whole runs |
| `Scheduler.dfy` | the choice of a trigger and the gate for proactive messages over the log (`scheduler.go`, `store.go`) |
| `Spacing.dfy` | how far apart the scheduler's triggers stay over whole runs (`scheduler.go`) |
| `ConversationStore.dfy` | the in-memory conversation store (`store.go`) |
| `Text.dfy`, `Arithmetic.dfy` | the string operations and two integer functions they share |
| `Sorting.dfy`, `Folds.dfy` | sort.Slice, and when the order of a fold does not matter |

The shape is the same throughout. A method or class does what the Go function does, step by step, and is proved to
compute a specification function or to take a step of a state machine; lemmas then say what the source promises about
that function or about every run of that machine. Concurrency is modelled as interleaved atomic steps: one event per
critical section, timer expiry or channel operation, in any order.

Conventions. A `char` stands for one byte in `Sanitizer.dfy` (all markers are ASCII) and for one rune elsewhere.
Scores and weights are reals. Times are integers, and 0 is Go's zero time where the source tests for it. Fresh ids,
clock readings, masks, random draws, zone offsets and Unicode tables are parameters. `Sane` tables are those in which
spaces and the four persona delimiters are spaces, punctuation or symbols after lowering, which is true of Go's.

## Results that are not what one expects

* Persona replay is not always a no-op. Coverage also holds in the reverse direction (an item that contains the field's
  whole text counts as covered), and a later patch can take that away; a repeated segment in a field is also lost when
  the field is rewritten. `Persona.ReplayCanChangeTheBot` gives an input and `Persona.ReplayIsNoOp` the exact condition,
  on the record and the contents alone.
* The boundary token reaches the user exactly when nothing between the tokens of a reply is visible and the limit leaves
  room for the token (`Split.BoundaryIsSentIff`); the explicit split then comes out empty and the text is cut like any
  other.
* mergeNode alone is order-free for ValidFrom only if the candidates agree on having one
  (`Similarity.MergeOrderDoesNotMatter`); through the store it is order-free whenever every merge succeeds
  (`Ingest.StoredOrderDoesNotMatter`), and a merge fails exactly for a longer blank summary (`Ingest.MergeSucceeds`).
* Creating a node under an id that is already stored loses the evidence of the stored one (`Ingest.CreateConservesIff`).
* Looking at ten logs is enough to space all eight triggers by their own cooldowns, under every general cooldown, as
  long as the checks of a user are made in one time zone (`Spacing.OneZoneApart`). The zone is that of the bot whose
  conversation was dated last, and a change of zone can break the spacing: `Spacing.ZoneChangeBreaks` is a day in the
  program's own zones, with the default configuration, on which two personal moments are 7 h 50 min apart instead of 8
  h, for every general cooldown up to ten minutes.
* If the local times are left entirely free from one check to the next, `Spacing.LookBackSuffices` gives the exact
  bound for each trigger: the three-hour triggers and worry always, personal moments from forty minutes on, and the
  others when eleven general cooldowns cover their own; the default of four hours is enough for all
  (`Spacing.ProgramTriggersApart`). All guards of `detectTrigger` are in the model (silence, hours, minutes, draws,
  enabled types), but in this equivalence the zone offset of a check is any number. The sufficient half therefore
  holds for the program as it is; that less is not enough is shown for free offsets, and for the program's zones only
  by the day above.
* The back-off counts from the oldest of the last ten messages, not from the newest. A reply therefore leaves the
  count as it was, as long as it pushes no older message out of the ten (`Scheduler.ReplyKeepsCount`); the count is
  right exactly when the ten messages hold no reply or as many proactive messages before the first reply as after the
  last (`Scheduler.UnansweredRightIff`).
* When a merge compares two titles or summaries it counts the spaces around them, and the store trims what it keeps. A
  padded text can therefore replace one that shows more (`Ingest.MergeFills`).
* Opcodes above 15 are truncated to four bits on the wire (`Frames.OpcodeSurvives`).

## Model

| member | source | states |
|---|---|---|
| `Sanitizer.ChunkInvariance` | Nukara_Backend/internal/agentx/postprocess/sanitize.go:33-95 | For every state, pushing d1 and then d2 emits what pushing d1 + d2 emits and leaves the same think flag and carry |
| `Sanitizer.CutsDoNotMatter` | Nukara_Backend/internal/agentx/postprocess/sanitize.go:33-95 | Two ways of cutting one stream give the same output and the same final state |
| `Sanitizer.ScanSplit` | Nukara_Backend/internal/agentx/postprocess/sanitize.go:42-94 | Scanning a text is scanning any prefix of it and then going on from what that prefix held back |
| `Sanitizer.RunRefinesReference` | Nukara_Backend/internal/agentx/postprocess/sanitize.go:37-94 | Over every run the output is the text left by a symbol-by-symbol tokenizer minus exactly the carry; the carry is a proper marker prefix, an unterminated tag, or the tail of an open think block |
| `Sanitizer.ThinkIsHidden` | Nukara_Backend/internal/agentx/postprocess/sanitize.go:43-56 | What that tokenizer hides: from `<think>` on everything up to and with the first `</think>` behind it, or all that follows if there is none |
| `Sanitizer.TagIsHidden` | Nukara_Backend/internal/agentx/postprocess/sanitize.go:76-88 | From each of the six tags on everything up to and with the first `]`, or all that follows; of `<<<MSG>>>` its nine symbols |
| `Sanitizer.OthersAreShown` | Nukara_Backend/internal/agentx/postprocess/sanitize.go:58-74 | Every symbol at which none of the eight markers starts is shown |
| `Sanitizer.RunEmitsAllItCan` | Nukara_Backend/internal/agentx/postprocess/sanitize.go:37-94 | The output of a run is a prefix of the visible text under every continuation, and some continuation shows nothing more: neither too much nor too little is held back |
| `Sanitizer.EmittedStaysVisible` | Nukara_Backend/internal/agentx/postprocess/sanitize.go:59-74 | What has been emitted stays visible whatever input follows |
| `Sanitizer.HeldBackCanVanish` | Nukara_Backend/internal/agentx/postprocess/sanitize.go:61-68 | For every input there is a continuation after which nothing that was held back becomes visible |
| `Sanitizer.ProgramRuns` | Nukara_Backend/internal/agentx/postprocess/sanitize.go:13-22 | All of this holds for the marker table of the program; inside a think block at most 7 symbols are carried |
| `Sanitizer.GrammarSeparated` | Nukara_Backend/internal/agentx/postprocess/sanitize.go:13-22 | No marker of the table starts or lies inside an occurrence of another at any offset, the fact all cut arguments rest on |
| `Sanitizer.MarkersDoNotNest` | Nukara_Backend/internal/agentx/postprocess/sanitize.go:13-22 | Two marker occurrences in a text of which one covers the other are the same occurrence of the same marker |
| `Sanitizer.FindFirstMarker` | Nukara_Backend/internal/agentx/postprocess/sanitize.go:116-130 | The running best over the table is the leftmost marker occurrence, and -1 exactly if there is none |
| `Sanitizer.LongestPrefixSuffix` | Nukara_Backend/internal/agentx/postprocess/sanitize.go:132-150 | The loop returns the longest suffix of the text that is a proper prefix of some marker |
| `Sanitizer.ConsumeToken` | Nukara_Backend/internal/agentx/postprocess/sanitize.go:76-92 | The switch on a marker either keeps the text from the marker on or goes on behind the token, as the scan specification does |
| `Sanitizer.HoldBack` | Nukara_Backend/internal/agentx/postprocess/sanitize.go:60-68 | Without a complete marker the text is cut exactly before its longest pending marker prefix |
| `Sanitizer.Loop` | Nukara_Backend/internal/agentx/postprocess/sanitize.go:40-94 | The loop over the input computes the output, the mode and the cut of the scan specification |
| `Sanitizer.StreamSanitizer.Push` | Nukara_Backend/internal/agentx/postprocess/sanitize.go:33-95 | The method changes inThink and carry and returns the output as the state machine of the chunk theorems says |
| `Split.SegmentsSendable` | Nukara_Backend/internal/agentx/postprocess/split.go:7-37 | Without `<<<MSG>>>` every segment is non-empty, trimmed, free of `<<<MSG>>>`, has one of 。！？.!? or a line break at most at its end, and at most maxRunes runes, or 180 if maxRunes is not positive |
| `Split.SegmentsConserve` | Nukara_Backend/internal/agentx/postprocess/split.go:7-37 | Without the boundary token the non-space runes of the segments, concatenated, are those of the text |
| `Split.MessageStays` | Nukara_Backend/internal/agentx/postprocess/split.go:7-37 | The converse: every text that meets these five conditions is sent as one segment, as it stands |
| `Split.ChunksAre` | Nukara_Backend/internal/agentx/postprocess/split.go:75-93 | The sentences of a text concatenate to it, and each but perhaps the last ends at the first of 。！？.!? and line break in it |
| `Split.CutAtIs` | Nukara_Backend/internal/agentx/postprocess/split.go:110-118 | A window is cut behind the last of its fifteen pauses in the second half, and at its end exactly if that half has none |
| `Split.LongCutsAre` | Nukara_Backend/internal/agentx/postprocess/split.go:95-123 | The pieces of a long text concatenate to it; each but the last, which fits, is as long as that cut of what is left |
| `Split.SegmentsAreCuts` | Nukara_Backend/internal/agentx/postprocess/split.go:19-36 | Without the token the segments are: nothing of a blank text; of several visible sentences each, cut if too long; of a single one the text, cut only if too long |
| `Split.ResplitSegments` | Nukara_Backend/internal/agentx/postprocess/split.go:7-37 | Splitting a segment again returns just that segment |
| `Split.ExplicitSegments` | Nukara_Backend/internal/agentx/postprocess/split.go:47-53 | With the token and some visible part, every segment is a non-empty, trimmed part of the text without the token, and the visible runes outside the tokens are kept in order |
| `Split.ExplicitAre` | Nukara_Backend/internal/agentx/postprocess/split.go:47-53 | A text with the token is cut at its tokens and nowhere else: the token-free parts that give the text with the token between them, of which the visible ones are sent, trimmed |
| `Split.BoundaryIsSentIff` | Nukara_Backend/internal/agentx/postprocess/split.go:7-37 | For every text and limit: some segment contains `<<<MSG>>>` if and only if the trimmed text does, nothing between its occurrences is visible, and the limit (180 if not positive) is at least 9 |
| `Split.LoneBoundaryIsSent` | Nukara_Backend/internal/agentx/postprocess/split.go:16-18 | The input that shows it: the token alone is sent as it stands under every limit of nine or more |
| `Split.PartsConcat` | Nukara_Backend/internal/agentx/postprocess/split.go:51 | Splitting on the token loses exactly the tokens |
| `Split.SplitBySentence` | Nukara_Backend/internal/agentx/postprocess/split.go:75-93 | The buffer loop yields the trimmed, non-empty stretches that end after each terminator |
| `Split.FindCut` | Nukara_Backend/internal/agentx/postprocess/split.go:110-118 | The inner loop finds the last pause in the second half of the window, or its end |
| `Split.SplitLongByMaxRunes` | Nukara_Backend/internal/agentx/postprocess/split.go:95-123 | The cutting loop always advances and yields the trimmed cuts of its specification |
| `Split.CompactSegments` | Nukara_Backend/internal/agentx/postprocess/split.go:125-134 | The loop keeps exactly the non-blank segments, trimmed |
| `Split.SplitSegmentsLoop` | Nukara_Backend/internal/agentx/postprocess/split.go:7-37 | The method computes the function that the segment theorems are about, on all branches |
| `Activation.Activate` | Nukara_Backend/internal/agentx/memorygraph/recall.go:128-167 | The queue loop terminates; an id is activated exactly if a route of at most maxDepth hops leads to it from a seed through known nodes, at its shortest hop distance, with its own score plus the largest energy over all shortest routes |
| `Activation.BuildActivationSet` | Nukara_Backend/internal/agentx/memorygraph/recall.go:99-185 | With the defaults applied, every returned entry is exact, ids are distinct, and no reached node is missing unless the limit is full; if any two scores are equal or more than 1e-9 apart, the entries are in comparator order and every activated entry that was cut ranks behind all that were kept |
| `Activation.SameRoutes` | Nukara_Backend/internal/agentx/memorygraph/recall.go:109-136 | All graphs that describe one call have the same routes with the same energies, so the specification of the call is unambiguous |
| `Activation.EnergyIs` | Nukara_Backend/internal/agentx/memorygraph/recall.go:135-164 | The energy of a route from its links alone: 1.35 times the product of 0.58 * max(weight, 0.35) over its links, plus the bonus of every node on the way times those factors of the links behind it |
| `Activation.HeavierDeliversMore` | Nukara_Backend/internal/agentx/memorygraph/recall.go:164 | From positive energy and to equal bonuses a heavier link delivers strictly more once it is heavier than 0.35; links up to 0.35 deliver the same |
| `Activation.RouteMeans` | Nukara_Backend/internal/agentx/memorygraph/recall.go:159-165 | A route begins at a seed, and each of its links is one of those of the id before it and leads to a known node |
| `Activation.ExactIs` | Nukara_Backend/internal/agentx/memorygraph/recall.go:147-155 | An exact entry is at depth 0 and marked as a seed exactly if its node is a seed; its depth is the least number of links to it, and its score its own plus the most that a route of so many links delivers |
| `Activation.GraphMeans` | Nukara_Backend/internal/agentx/memorygraph/recall.go:109-136 | For every call: ids are adjacent with a weight exactly if an edge of that weight, with blank or active status, joins them in either direction; known exactly if not blank and recorded, by the last record; seeds exactly if listed |
| `Activation.RankMeans` | Nukara_Backend/internal/agentx/memorygraph/recall.go:172-180 | An entry comes first if it scores more by over 1e-9, within that if its node occurred later, and then if its id is smaller |
| `Activation.PopDecreases` | Nukara_Backend/internal/agentx/memorygraph/recall.go:137-166 | Replacing the head of the queue by its neighbours one level deeper lowers the measure, though nodes may be expanded again at equal depth |
| `Activation.AllAccounted` | Nukara_Backend/internal/agentx/memorygraph/recall.go:144-147 | With an empty queue every route within the limit was processed or is beaten by a strictly shorter one |
| `Activation.DoneReached` | Nukara_Backend/internal/agentx/memorygraph/recall.go:137-167 | The loop invariant with an empty queue gives exactly the reached nodes |
| `Activation.DoneExact` | Nukara_Backend/internal/agentx/memorygraph/recall.go:148-155 | The loop invariant with an empty queue gives shortest depths and maximal scores |
| `Activation.Expand` | Nukara_Backend/internal/agentx/memorygraph/recall.go:159-166 | The inner loop queues one entry per adjacent known node and misses no route that extends the current one |
| `Activation.BuildAdjacency` | Nukara_Backend/internal/agentx/memorygraph/recall.go:267-278 | A node is adjacent to another, with a weight, exactly if an active edge joins them in either direction |
| `Activation.IndexNodes` | Nukara_Backend/internal/agentx/memorygraph/recall.go:109-121 | The index holds, for each non-blank id, the last record of nodes followed by seeds |
| `Activation.SortAndCut` | Nukara_Backend/internal/agentx/memorygraph/recall.go:168-184 | The result lists the smaller of the limit and the number of entries, each once; where the comparator is an order, it is sorted and what is cut ranks last |
| `Activation.RankIsWeak` | Nukara_Backend/internal/agentx/memorygraph/recall.go:172-180 | Scores that are equal or more than 1e-9 apart make the comparator a strict weak order |
| `Activation.ExactIsUnique` | Nukara_Backend/internal/agentx/memorygraph/recall.go:148-155 | A node has only one exact entry: depth, score and reason are determined by the graph |
| `Sorting.SortSlice` | Nukara_Backend/internal/agentx/memorygraph/recall.go:172-180 | A sort returns a permutation, and a sorted one if its comparator is a strict weak order on the elements |
| `Chains.BuildRecallChains` | Nukara_Backend/internal/agentx/memorygraph/recall.go:187-259 | The chains partition the activated ids into the connected components of the active follows edges among them; each timeline ascends and, for distinct nodes, each anchor scores highest in its component; if no two anchors have different scores within 1e-9, the chains are in comparator order |
| `Chains.ChainsAreComponents` | Nukara_Backend/internal/agentx/memorygraph/recall.go:197-223 | Two ids are in one chain exactly if a way over edges of type follows and blank or active status, between activated ids, leads from one to the other; an id is in some chain exactly if it is activated |
| `Chains.TimelineRuns` | Nukara_Backend/internal/agentx/memorygraph/recall.go:235-239 | Every timeline has distinct ids, in the order of occurrence and then of update |
| `Chains.TimelineHolds` | Nukara_Backend/internal/agentx/memorygraph/recall.go:224-229 | It holds exactly the activated nodes whose ids are in the chain |
| `Chains.AnchorHolds` | Nukara_Backend/internal/agentx/memorygraph/recall.go:225-234 | Its anchor is one of them and none of them scores higher |
| `Chains.OrderMeans` | Nukara_Backend/internal/agentx/memorygraph/recall.go:248-258 | Of two chains in order the first is not shorter; if equally long its anchor scores more by over 1e-9, or within that its anchor occurred no earlier |
| `Chains.CollectChains` | Nukara_Backend/internal/agentx/memorygraph/recall.go:197-247 | The loop over the activated items yields those chains |
| `Chains.CollectComponent` | Nukara_Backend/internal/agentx/memorygraph/recall.go:280-297 | The search returns, without repetition, exactly the ids connected to the start |
| `Chains.BuildChainAdjacency` | Nukara_Backend/internal/agentx/memorygraph/recall.go:197-213 | Two ids are adjacent exactly if an active follows edge joins them and both are activated |
| `Chains.Overlap` | Nukara_Backend/internal/agentx/memorygraph/recall.go:216-223 | Two chains that share a node are the same component, so the visited set makes them disjoint |
| `Chains.PickAnchor` | Nukara_Backend/internal/agentx/memorygraph/recall.go:225-234 | For an item that is the recorded entry of its id the anchor is a node of the component with the maximal score |
| `Chains.SortByOccurred` | Nukara_Backend/internal/agentx/memorygraph/ingest.go:217-224 | The timeline is an ascending permutation of its nodes |
| `Similarity.DiceLaws` | Nukara_Backend/internal/agentx/memorygraph/similarity.go:73-100 | The coefficient is symmetric, lies in [0, 1], is 0 exactly when the texts share no rune, and for non-empty texts is 1 exactly when their rune multisets are equal |
| `Similarity.SimilarityLaws` | Nukara_Backend/internal/agentx/memorygraph/similarity.go:37-56 | nodeSimilarity is symmetric, lies in [0, 1], is 1 exactly for nodes of one kind with a common merge key or texts that are permutations of each other, and 0 exactly for nodes of different kinds or with neither a common key nor a common rune |
| `Similarity.SimilarityTextIs` | Nukara_Backend/internal/agentx/memorygraph/similarity.go:58-71 | Under sane tables the texts compared are the lowered runes of the title and then of the summary, without spaces, punctuation and symbols |
| `Similarity.MergesIff` | Nukara_Backend/internal/agentx/memorygraph/similarity.go:26 | A similarity of 0.72 or more means, and is implied by, one kind together with a common merge key or 72 percent of paired runes; so no merge crosses a type or two different categories |
| `Similarity.MatchIsMaximal` | Nukara_Backend/internal/agentx/memorygraph/similarity.go:16-35 | The match is an eligible node than which no eligible node is more similar; there is none exactly if no node is eligible |
| `Similarity.FindBestSimilarityNode` | Nukara_Backend/internal/agentx/memorygraph/similarity.go:16-35 | The loop returns the first of the most similar eligible nodes |
| `Similarity.DiceCoefficient` | Nukara_Backend/internal/agentx/memorygraph/similarity.go:73-100 | The loops over the frequency maps compute the multiset definition of the coefficient |
| `Similarity.RuneFrequency` | Nukara_Backend/internal/agentx/memorygraph/similarity.go:102-108 | The map counts each rune of the text and holds no other |
| `Similarity.MergeOrderDoesNotMatter` | Nukara_Backend/internal/agentx/memorygraph/similarity.go:110-151 | Folding mergeNode over a list of candidates gives the same times, weights and evidence in every order if and only if all candidates have a ValidFrom or none has |
| `Similarity.MergesCommute` | Nukara_Backend/internal/agentx/memorygraph/similarity.go:118-135 | Two merges in either order agree on all measures but ValidFrom, and on ValidFrom exactly if both candidates have one or neither has |
| `Similarity.MergeEntitiesLaws` | Nukara_Backend/internal/agentx/memorygraph/similarity.go:153-169 | The left entities stay in front, the keys are those of both sides, no key is added twice, and merging again adds nothing |
| `Similarity.MergedEntities` | Nukara_Backend/internal/agentx/memorygraph/similarity.go:153-169 | Behind the left entities stand exactly those of the right whose trimmed id and name neither a left one nor an earlier right one has |
| `Similarity.MergeEntitiesLoop` | Nukara_Backend/internal/agentx/memorygraph/similarity.go:153-169 | The loops with the seen set compute the entity merge of the laws |
| `Similarity.MergeNodeSteps` | Nukara_Backend/internal/agentx/memorygraph/similarity.go:110-151 | The field-by-field updates compute the merge that the order theorems are about |
| `NodeStore.TotalUpdate` | Nukara_Backend/internal/store/temporal_memory_graph.go:198 | Writing a node changes the total evidence by its evidence minus that of the node it replaces |
| `NodeStore.PutIsSound` | Nukara_Backend/internal/store/temporal_memory_graph.go:144-200 | Every stored node stays trimmed, complete, counted at least once and dated |
| `NodeStore.UpdatedIs` | Nukara_Backend/internal/store/temporal_memory_graph.go:144-200 | An update is stored exactly if id, user, bot, type and summary are visible; every text is trimmed, a blank status is active, a count is at least one, and a missing time is that of the node under the id or else that of the call |
| `NodeStore.CreatedFields` | Nukara_Backend/internal/store/temporal_memory_graph.go:103-142 | The same for a creation, under its own or a new id, with the two readings of the clock told apart |
| `NodeStore.ListingMeans` | Nukara_Backend/internal/store/temporal_memory_graph.go:202-256 | A listing: stored nodes of the user and bot that pass the filter, distinct and the most recent first, at most `limit` or 20; and any other such node is missing only because the limit is full of nodes at least as recent |
| `NodeStore.Store.UpdateMemoryNode` | Nukara_Backend/internal/store/temporal_memory_graph.go:144-200 | The map gains exactly the normalised node, or nothing on an error |
| `NodeStore.Store.CreateMemoryNode` | Nukara_Backend/internal/store/temporal_memory_graph.go:103-142 | The map gains the node under its own or a new id, or nothing on an error |
| `NodeStore.Store.ListMemoryNodes` | Nukara_Backend/internal/store/temporal_memory_graph.go:212-256 | The listing holds selected stored nodes once each, the most recent first, and leaves one out only if the limit is filled by nodes at least as recent |
| `NodeStore.CutIsListing` | Nukara_Backend/internal/store/temporal_memory_graph.go:246-254 | Cutting the complete sorted selection at the limit loses only nodes that are not more recent than any kept one |
| `Ingest.RunConserves` | Nukara_Backend/internal/agentx/memorygraph/service.go:180-193 | Over every run on fresh ids, also up to an error, the total evidence rises by exactly the sum of max(count, 1), no id is lost, and only the candidates' ids are added |
| `Ingest.UpsertConserves` | Nukara_Backend/internal/agentx/memorygraph/service.go:195-202 | One upsert conserves evidence, loses no id, changes at most one node, and stores the fact under the candidate's user, bot and type, with the longer of the texts, trimmed, and all of the candidate's entities; an error changes nothing |
| `Ingest.FactsRemain` | Nukara_Backend/internal/agentx/memorygraph/service.go:180-202 | A persisted fact is found at the end of the run as returned, or as a later version with the same identity, no less evidence or weight, its entities in front of any others, and every label it had |
| `Ingest.EntitiesRemain` | Nukara_Backend/internal/agentx/memorygraph/service.go:180-202 | Over every run on fresh ids, each entity of each persisted candidate is found, by its trimmed id and name, in the node that holds its fact at the end |
| `Ingest.FoundIsBest` | Nukara_Backend/internal/agentx/memorygraph/service.go:195-197 | An upsert merges exactly from a similarity of 0.72 on, into a stored active node of the same user, bot and type, than which no such node is more similar unless 128 others are at least as recent |
| `Ingest.MergeFills` | Nukara_Backend/internal/agentx/memorygraph/service.go:197-199 | A stored merge takes the longer of two titles and of two summaries, trimmed, fills blank source, label and merge key, joins the entities and keeps session, turn and status |
| `Ingest.CreateConservesIff` | Nukara_Backend/internal/store/temporal_memory_graph.go:103-142 | A creation adds the candidate's evidence exactly if its id is not yet stored |
| `Ingest.StoredOrderDoesNotMatter` | Nukara_Backend/internal/agentx/memorygraph/service.go:195-202 | Candidates merged through the store one by one, in any two orders in which every merge succeeds, leave the same measures, even without ValidFrom, because UpdateMemoryNode restores the stored date |
| `Ingest.VisibleMergesSucceed` | Nukara_Backend/internal/store/temporal_memory_graph.go:158-160 | With visible summaries every merge of a sequence succeeds |
| `Folds.FoldPermutation` | Nukara_Backend/internal/agentx/memorygraph/similarity.go:110-151 | Steps that commute from every fit state give the same result over every permutation |
| `Ingest.MergeSucceeds` | Nukara_Backend/internal/store/temporal_memory_graph.go:158-160 | Storing a merge fails exactly if the candidate's summary is blank and longer than the stored one |
| `Ingest.MergeStored` | Nukara_Backend/internal/store/temporal_memory_graph.go:171-184 | Storing a merge keeps id, owner, type and creation time and applies the candidate's measures |
| `Ingest.Service.UpsertMemoryFact` | Nukara_Backend/internal/agentx/memorygraph/service.go:195-202 | The store goes through one step of the merge-or-create relation |
| `Ingest.Service.PersistNodesWithMerge` | Nukara_Backend/internal/agentx/memorygraph/service.go:180-193 | The store goes through a run of such steps, stopping at the first error, and conserves the evidence |
| `Pipeline.RunKeepsInv` | Nukara_Backend/internal/api/ws_chat_aggregate.go:52-138 | Every interleaving of adds, timer expiries, stale flushes, size-cap flushes, closes, sends and receives keeps the whole invariant |
| `Pipeline.InvKept` | Nukara_Backend/internal/api/ws_chat_aggregate.go:52-138 | Each single critical section or channel operation keeps it |
| `Pipeline.Conservation` | Nukara_Backend/internal/api/ws_chat_aggregate.go:52-138 | In every reachable state a message id was added as often as it occurs in sent turns plus open, detached, waiting and dropped buffers |
| `Pipeline.DrainedMeansDelivered` | Nukara_Backend/internal/api/ws_chat_aggregate.go:93-138 | Once nothing is open, detached or waiting, each message of non-blank prompts has been sent exactly as often as it was added |
| `Pipeline.RunBlocks` | Nukara_Backend/internal/api/ws_chat_aggregate.go:52-104 | In every run the buffers of a conversation are, one after the other, the messages added to it, none twice and none missing, with their ids and prompts, the user of the first, the context of the last and the times of both |
| `Pipeline.RunTells` | Nukara_Backend/internal/api/ws_chat_aggregate.go:120-138 | In every run each turn sent goes out for the user and conversation of one such buffer, with all its ids and its last context, and its text holds the trimmed text of every message of the buffer, in order; a single message is the text |
| `Pipeline.TurnsAreBlocks` | Nukara_Backend/internal/api/ws_chat_aggregate.go:52-138 | The history of a conversation is the concatenation of its buffers in creation order, of 1 to 10 messages, at most 9 while open; each turn carries the ids of one whole buffer; a buffer is dropped exactly if it is one blank message |
| `Pipeline.TenthCloses` | Nukara_Backend/internal/api/ws_chat_aggregate.go:62-68 | A message closes its buffer exactly if nine are in it already |
| `Pipeline.CloseAllDetaches` | Nukara_Backend/internal/api/ws_chat_aggregate.go:106-118 | closeAll leaves no buffer open, and each that was is on its way to be flushed |
| `Pipeline.DroppedIffSingleBlank` | Nukara_Backend/internal/api/ws_chat_aggregate.go:124-127 | A formatted prompt is blank exactly for no message or a single blank one |
| `Pipeline.FormatHolds` | Nukara_Backend/internal/api/ws_chat_aggregate.go:140-154 | Of two or more messages the text holds, in order and without overlap, the header with their number, and for each message its number and its trimmed text |
| `Pipeline.FormatIs` | Nukara_Backend/internal/api/ws_chat_aggregate.go:148-153 | It holds nothing else: the header and the numbered lines, joined, without the spaces at the end |
| `Pipeline.DigitsDenote` | Nukara_Backend/internal/api/ws_chat_aggregate.go:149-151 | The digits written for a number read back as that number, without leading zeros |
| `Pipeline.FlushDeadline` | Nukara_Backend/internal/api/ws_chat_aggregate.go:62-71 | Past the earlier of last message + 3000 ms and first message + 8000 ms a flush of an open buffer is pending |
| `Pipeline.FireIsDue` | Nukara_Backend/internal/api/ws_chat_aggregate.go:70-88 | And not before: in every run the soft timer of a buffer can fire only 3000 ms after its last message and the hard one only 8000 ms after its first |
| `Timers.FiresAreFew` | Nukara_Backend/internal/api/ws_chat_aggregate.go:70-88 | In every run the hard timer of a buffer expires at most once, and the soft one at most once for each message of the buffer, once fewer while it still runs |
| `Timers.FlushesAreFires` | Nukara_Backend/internal/api/ws_chat_aggregate.go:83-104 | In every run the flushes of a conversation, done and pending, are as many as the timers of its buffers that have expired |
| `Timers.FlushedIsQuiet` | Nukara_Backend/internal/api/ws_chat_aggregate.go:62-66 | In every run no timer of a buffer that is full, or that flushBuffer has had, can expire any more |
| `Pipeline.PendingFlushDetaches` | Nukara_Backend/internal/api/ws_chat_aggregate.go:83-104 | From there at most two enabled steps detach the buffer |
| `Pipeline.ProcessedIsPrefix` | Nukara_Backend/internal/api/ws_chat_queue.go:35-56 | For each key the processed turns are a prefix of the turns sent, and at most 33 (the 32 of the channel and the one in work) are outstanding |
| `Pipeline.SendWaits` | Nukara_Backend/internal/api/ws_chat_queue.go:35-49 | A send waits exactly while the channel of its user and conversation holds 32 turns |
| `Pipeline.RunnerServesOne` | Nukara_Backend/internal/api/ws_chat_queue.go:35-47 | Every turn that a runner has, had or works on is of the one user and conversation of its key |
| `Pipeline.SenderCanProceed` | Nukara_Backend/internal/api/ws_chat_queue.go:49-56 | A sender blocked on a full channel is enabled after at most two steps of the runner |
| `Pipeline.RunnerStays` | Nukara_Backend/internal/api/ws_chat_queue.go:38-47 | A runner is never replaced and what it has processed only grows |
| `Pipeline.FormatAggregatedPrompt` | Nukara_Backend/internal/api/ws_chat_aggregate.go:140-154 | The builder loop yields the header, the numbered trimmed lines and nothing else |
| `Pipeline.TakeAll` | Nukara_Backend/internal/api/ws_chat_aggregate.go:107-112 | The loop of closeAll empties the map and collects every buffer |
| `Pipeline.MessageAggregator.Add` | Nukara_Backend/internal/api/ws_chat_aggregate.go:52-91 | The method takes exactly the add step of the state machine and keeps the invariant |
| `Pipeline.MessageAggregator.Flush` | Nukara_Backend/internal/api/ws_chat_aggregate.go:93-104 | The same for flush, including a stale one |
| `Pipeline.MessageAggregator.CloseAll` | Nukara_Backend/internal/api/ws_chat_aggregate.go:106-118 | The same for closeAll |
| `Pipeline.MessageAggregator.FlushBuffer` | Nukara_Backend/internal/api/ws_chat_aggregate.go:120-138 | The same for flushBuffer and the runner lookup of enqueue |
| `Pipeline.MessageAggregator.Send` | Nukara_Backend/internal/api/ws_chat_queue.go:49 | The same for the channel send |
| `Frames.ClientToServer` | Nukara_Backend/internal/agent/nanobot_ws.go:353-397 | readFrame on a client frame and any suffix returns the payload up to 4 MiB and leaves the suffix; a larger one is refused as too large (sections 5.2 and 5.3 of RFC 6455) |
| `Frames.ServerToClient` | Nukara_Backend/internal/api/ws_conn.go:188-221 | readServerFrame on a server frame and any suffix returns the payload and leaves the suffix, under the same limit |
| `Frames.OpcodeSurvives` | Nukara_Backend/internal/api/ws_conn.go:143 | In both directions the opcode arrives exactly if it is below 16 |
| `Frames.ClientFrameIs` | Nukara_Backend/internal/agent/nanobot_ws.go:364-391 | Bytes are the client frame of a payload if and only if they are, byte by byte and bit by bit: opcode with the final bit, the length with the mask bit in its shortest form, highest byte first, the mask, and each payload byte with the bits flipped in which mask[i % 4] has a 1 (sections 5.2 and 5.3 of RFC 6455) |
| `Frames.WireIsRead` | Nukara_Backend/internal/api/ws_conn.go:136-186 | readFrame returns the payload of any such bytes up to 4194304, whoever wrote them, and leaves what follows |
| `Frames.ServerFrameIs` | Nukara_Backend/internal/api/ws_conn.go:193-212 | A server frame is that header without the mask bit and the payload as it is |
| `Frames.ClientReadsMasked` | Nukara_Backend/internal/agent/nanobot_ws.go:331-347 | readServerFrame also reads masked frames and unmasks them |
| `Frames.FragmentIsRefused` | Nukara_Backend/internal/api/ws_conn.go:181-183 | A frame without the final bit is refused exactly if its opcode is 0, 1 or 2, and read otherwise |
| `Frames.HugeIsRefused` | Nukara_Backend/internal/api/ws_conn.go:164-166 | A 64-bit length with its highest bit set, negative to the program, is refused by both readers |
| `Frames.OthersAreUnsupported` | Nukara_Backend/internal/api/ws_conn.go:114-115 | A frame with an opcode other than 0, 1, 2, 8, 9 and 10 ends the reading with an error and writes nothing |
| `Frames.HeaderRoundTrip` | Nukara_Backend/internal/api/ws_conn.go:136-159 | The header is read back whole in all three length encodings (section 5.2 of RFC 6455) |
| `Frames.TruncatedIsEof` | Nukara_Backend/internal/api/ws_conn.go:136-176 | Every proper prefix of a client frame ends in an end of stream |
| `Frames.ServerRefusesServerFrames` | Nukara_Backend/internal/api/ws_conn.go:161-163 | A frame of the server itself is refused as unmasked |
| `Frames.StreamIsRead` | Nukara_Backend/internal/api/ws_conn.go:93-118 | On any stream of supported client frames successive reads return the text payloads in order up to the first close, and the bytes written are one pong per ping, in order, then the close reply |
| `Frames.MaskedTwice` | Nukara_Backend/internal/api/ws_conn.go:177-179 | Masking twice with one mask gives the payload back |
| `Frames.XorIs` | Nukara_Backend/internal/api/ws_conn.go:177-179 | Each of the eight bits of a ^ b is 1 exactly if a and b differ in it |
| `Frames.BigEndianRoundTrip` | Nukara_Backend/internal/api/ws_conn.go:147-159 | Reading a big-endian number of k bytes undoes writing it |
| `Frames.XorInPlace` | Nukara_Backend/internal/api/ws_conn.go:177-179 | The in-place loop masks the array |
| `Frames.XorCopy` | Nukara_Backend/internal/agent/nanobot_ws.go:386-390 | The copy loop of the writer yields the masked payload |
| `Frames.BuildHeader` | Nukara_Backend/internal/agent/nanobot_ws.go:364-381 | The appended bytes are the header in all three encodings, with or without the mask bit |
| `Frames.Connection.ReadFrame` | Nukara_Backend/internal/api/ws_conn.go:136-186 | The method consumes exactly what the decoder of the round trips consumes and returns its frame or error |
| `Frames.Connection.ReadServerFrame` | Nukara_Backend/internal/agent/nanobot_ws.go:303-350 | The same for the client's reader |
| `Frames.Connection.WriteFrame` | Nukara_Backend/internal/api/ws_conn.go:188-221 | The method appends exactly one server frame, or nothing if the payload is too large |
| `Frames.Connection.WriteClientFrame` | Nukara_Backend/internal/agent/nanobot_ws.go:353-397 | The method appends exactly one masked client frame if connected |
| `Frames.Connection.NextText` | Nukara_Backend/internal/api/ws_conn.go:93-118 | The reading loop consumes, answers and returns what the stream theorem is about |
| `PersonaText.SplitJoin` | Nukara_Backend/internal/store/store.go:1055-1073 | Splitting a join of distinct, trimmed, non-empty, delimiter-free parts returns the parts |
| `PersonaText.FieldsAre` | Nukara_Backend/internal/store/store.go:1060-1073 | A text is cut at the first |, ；, ; or line break, and an empty stretch is no field |
| `PersonaText.JoinAppends` | Nukara_Backend/internal/store/store.go:1057 | A further segment is joined with ； |
| `PersonaText.AppendSegments` | Nukara_Backend/internal/store/store.go:1055-1058 | With delimiter-free additions the earlier segments stay in front in order and every addition becomes a segment |
| `PersonaText.AppendIdempotent` | Nukara_Backend/internal/store/store.go:1055-1058 | Appending the same delimiter-free additions again changes nothing |
| `PersonaText.AppendTwice` | Nukara_Backend/internal/store/store.go:1055-1058 | Appending a1 and then a2 is appending a1 ++ a2 |
| `PersonaText.DedupLoop` | Nukara_Backend/internal/store/store.go:1038-1053 | The loop with the seen set keeps the trimmed, non-empty first occurrences in order |
| `Persona.ReplayIsNoOp` | Nukara_Backend/internal/agentx/subtasks/runner.go:194-245 | For delimiter-free contents and every synchronised record: running the items again applies nothing, and leaves the whole record unchanged, if and only if every eligible content has letters and those of a text field are related to the letters the field will end up with, which are computed from the record and the contents alone |
| `Persona.RunEndsWith` | Nukara_Backend/internal/agentx/subtasks/runner.go:201-234 | The letters of a text field after a run: canonical from the first item that applies, and from there on each unrelated fact appends its normal form |
| `Persona.PatchGrows` | Nukara_Backend/internal/store/store.go:714-738 | A patch appends the normal form of its fact to the canonical letters of its own field and leaves the canonical letters of every other text field |
| `Persona.ReplayWhenSettled` | Nukara_Backend/internal/agentx/subtasks/runner.go:194-245 | For contents with delimiters too: replay applies nothing exactly if every fact at risk after its turn is covered at the end of the first run |
| `Persona.ReplayCanChangeTheBot` | Nukara_Backend/internal/agentx/subtasks/persona_decision.go:121 | Replay is not a no-op in general: identity x with the facts xyz and q is changed by the second run |
| `PersonaFields.RunHolds` | Nukara_Backend/internal/agentx/subtasks/runner.go:194-245 | After every run of delimiter-free facts each of the five fields holds exactly what it held before and the trimmed contents of the items that were stored and name it as their category, whatever else the run stores |
| `PersonaFields.FactEndsUp` | Nukara_Backend/internal/agentx/subtasks/persona_decision.go:20-87 | A stable fact of one of the five categories, a user fact only for taboos_and_preferences, that its field does not cover when its turn comes is at the end a segment of the field that its category names |
| `PersonaFields.RunCounts` | Nukara_Backend/internal/agentx/subtasks/runner.go:201-234 | A run reports as many patches as it stores items, raises the version by that number, and leaves the prompt |
| `PersonaFields.StepHolds` | Nukara_Backend/internal/agentx/subtasks/persona_decision.go:54-87 | One item adds its trimmed content to the field of its category and nothing to any other |
| `PersonaFields.StepChangesIff` | Nukara_Backend/internal/agentx/subtasks/persona_decision.go:31-48 | An item that is not stable, of no category, a user fact of another category than taboos_and_preferences, or whose letters contain or are contained in those of its field leaves the record unchanged; every other one is applied |
| `Persona.AnchorSurvivesPatch` | Nukara_Backend/internal/store/store.go:714-738 | A fact whose letters are in a field stays covered after a patch to any field |
| `Persona.AppliedIsCovered` | Nukara_Backend/internal/agentx/subtasks/persona_decision.go:97-125 | A fact that a patch was applied for is covered at once |
| `Persona.NothingAppliedIff` | Nukara_Backend/internal/agentx/subtasks/runner.go:201-234 | A run applies nothing exactly if no item applies to the starting record, and then returns that record |
| `Persona.SyncIdempotent` | Nukara_Backend/internal/store/store.go:56-89 | Synchronising a record twice is synchronising it once |
| `Persona.SyncIs` | Nukara_Backend/internal/store/store.go:56-89 | Which field mirrors which: a blank identity, style or life context is filled from its older forms, and these then repeat it; taboos, prompt and version stay |
| `Persona.PatchedIs` | Nukara_Backend/internal/store/store.go:714-738 | Each text of a patch joins its own field, a visible prompt replaces the old one, and the version goes up by one, to 1 if it was negative |
| `Persona.StoredStaysSynced` | Nukara_Backend/internal/store/store.go:714-738 | A record after any patch is already synchronised |
| `Persona.NormalizeLoop` | Nukara_Backend/internal/agentx/subtasks/persona_decision.go:127-136 | The builder loop keeps exactly the lowered runes that are not dropped |
| `Persona.LettersAre` | Nukara_Backend/internal/agentx/subtasks/persona_decision.go:127-136 | The normal form is, rune by rune, the lowered rune, or nothing for a space, punctuation or symbol |
| `Persona.CoversLoop` | Nukara_Backend/internal/agentx/subtasks/persona_decision.go:97-125 | The loop finds a related non-empty haystack exactly if there is one |
| `Persona.BotRecord.ApplyBotPersonaPatch` | Nukara_Backend/internal/store/store.go:714-738 | For every patch the stored record becomes the patched, synchronised one with the next version |
| `Persona.BotRecord.ApplyPersonaDecisions` | Nukara_Backend/internal/agentx/subtasks/runner.go:194-245 | The loop leaves the record and the number of patches that the replay theorems are about |
| `Scheduler.RunSpaced` | Nukara_Backend/internal/api/scheduler.go:118-149 | Over every run of checks a user's consecutive logs are at least the general cooldown apart |
| `Scheduler.RunApart` | Nukara_Backend/internal/api/scheduler.go:189-197 | For any table, two logs of one trigger are at least its cooldown apart whenever eleven general cooldowns cover it |
| `Spacing.OneZoneApart` | Nukara_Backend/internal/api/scheduler.go:189-197 | For every general cooldown and every run whose checks of a user are made in one zone, each trigger of the program is spaced by its own cooldown, though only ten logs are looked at |
| `Spacing.ZoneRound` | Nukara_Backend/internal/api/scheduler.go:202-272 | In one zone ten other messages never fit between two that are too close: the hours of a trigger leave no room for cares between shares, nor for ten others within one care window |
| `Spacing.SameDay` | Nukara_Backend/internal/api/scheduler.go:207-216 | Two times in the daily hours of a trigger that are closer than the time it is closed fall into the same window, and so does everything between them |
| `Spacing.ZoneChangeBreaks` | Nukara_Backend/internal/api/scheduler.go:134-137 | For every cooldown up to ten minutes a run of sent checks in the zones of Shanghai and New York, with the default configuration, has two personal moments less than eight hours apart |
| `Spacing.LookBackSuffices` | Nukara_Backend/internal/api/scheduler.go:189-197 | With free local times, for every cooldown c and trigger t: all runs space t by its own cooldown if and only if t is a three-hour trigger or worry, or t is the personal moment and 3c >= 2 h, or 11c covers the cooldown of t |
| `Spacing.CoveredApart` | Nukara_Backend/internal/api/scheduler.go:189-197 | The sufficient half, over all runs and whatever the zones |
| `Spacing.SpanNeeded` | Nukara_Backend/internal/api/scheduler.go:189-197 | If t is not covered, a run of twelve sent checks with the default configuration has two logs of t too close; it holds no worry, keeps the silence threshold and detects each trigger in its hours |
| `Spacing.WorryRound` | Nukara_Backend/internal/api/scheduler.go:223-229 | Worry messages are eight hours apart under every cooldown: each follows three hours of silence, which the message before it has broken |
| `Spacing.RoundLasts` | Nukara_Backend/internal/api/scheduler.go:54-63 | From forty minutes on, ten messages of other triggers take at least max(11c, 3c + 6 h) |
| `Spacing.CountLasts` | Nukara_Backend/internal/api/scheduler.go:189-197 | Among eleven checks the occurrences of a trigger take its cooldown each but for the first |
| `Spacing.RunIsChain` | Nukara_Backend/internal/api/scheduler.go:118-200 | Every run of the program's checks gives a sequence of sent checks that keeps both cooldowns, detects table triggers only and sees each message it sent in the date of the latest conversation |
| `Spacing.ProgramTriggersApart` | Nukara_Backend/internal/api/scheduler.go:54-63 | With free local times, all triggers are spaced over all runs if and only if eleven general cooldowns last 20 hours |
| `Scheduler.RunBacksOff` | Nukara_Backend/internal/api/scheduler.go:154-174 | Over every run, a message sent while n >= 2 messages are counted as unanswered follows every earlier message of the user by at least the cooldown times 2^(n-1) |
| `Scheduler.LogsWereWelcome` | Nukara_Backend/internal/api/scheduler.go:118-187 | Over every run each log comes from a check of its user that had messages enabled, a conversation and a bot, whose local minute of day lay outside the do-not-disturb span, and that was no nudge to a user online nor a share within three minutes of a message of a user online |
| `Scheduler.CheckLogsIff` | Nukara_Backend/internal/api/scheduler.go:118-200 | A check logs its trigger if and only if all of this holds, the general, backed-off and own cooldowns have passed and the message goes out; else the log stays as it is |
| `Scheduler.DetectedIs` | Nukara_Backend/internal/api/scheduler.go:202-272 | Which of the eight triggers a check detects, on the local minute of the day, the silence, the draws, the trend and the enabled types, in plain numbers |
| `Scheduler.UnansweredRightIff` | Nukara_Backend/internal/api/scheduler.go:157-166 | The scan counts the proactive messages since the last reply if and only if there is no reply among the listed messages, or as many proactive ones stand before the first reply as after the last |
| `Scheduler.ReplyKeepsCount` | Nukara_Backend/internal/api/scheduler.go:159-166 | A reply that joins the listed messages, and pushes none out, leaves the count unchanged although nothing is unanswered then |
| `Scheduler.DetectedGuards` | Nukara_Backend/internal/api/scheduler.go:202-272 | A detected trigger means that its hours have come or, for worry, that three hours have passed in silence |
| `Scheduler.WindowsDivideTheDay` | Nukara_Backend/internal/api/scheduler.go:416-428 | A do-not-disturb window and the one with its ends exchanged divide the day; equal ends leave no window |
| `Scheduler.ProactiveScheduler.DetectTrigger` | Nukara_Backend/internal/api/scheduler.go:202-272 | The loop over the care windows and the branches after it choose the trigger that all theorems are about |
| `Scheduler.ProactiveScheduler.CountUnanswered` | Nukara_Backend/internal/api/scheduler.go:157-166 | The loop counts the proactive messages before the first reply |
| `Scheduler.Store.ListProactiveLogs` | Nukara_Backend/internal/store/store.go:905-922 | The loop returns the first `limit` logs of the user, newest first |
| `Scheduler.ProactiveScheduler.ProcessUser` | Nukara_Backend/internal/api/scheduler.go:118-200 | The log grows by exactly the step of the spacing theorems |
| `ConversationStore.RunSound` | Nukara_Backend/internal/store/store.go:538-572 | After every run the id map and the per-user lists hold the same conversations, each once, with at most one per user and bot |
| `ConversationStore.RunShows` | Nukara_Backend/internal/store/store.go:816-855 | After every run UnreadCount is the number of bot messages saved since the last mark-read, the preview and time are those of the last message, and the stored messages are exactly the accepted ones in order |
| `ConversationStore.LogGrows` | Nukara_Backend/internal/store/store.go:844 | The log of a conversation only grows at its end |
| `ConversationStore.SavedIsLogged` | Nukara_Backend/internal/store/store.go:837-844 | Over every run a saved message is in the log as it came, at the place where the log ended, with the time of the call, its own or the new id, and its content type filled in |
| `ConversationStore.PreviewIs` | Nukara_Backend/internal/store/store.go:1010-1021 | The preview of a message is its text, a mark for an image, and a pin with the name of a location |
| `ConversationStore.CreatedIs` | Nukara_Backend/internal/store/store.go:558-569 | A new conversation is empty, read and dated at its creation, stands last in the list of its user, and touches no other |
| `ConversationStore.ListingIsSuffix` | Nukara_Backend/internal/store/store.go:802-814 | ListMessages returns, for the owner only, the last `limit` accepted messages or all of them |
| `ConversationStore.SavedStaysDated` | Nukara_Backend/internal/store/store.go:844-851 | While the clock does not go back, a conversation stays dated no earlier than any message saved in it, over the rest of every run |
| `ConversationStore.LatestIsDated` | Nukara_Backend/internal/store/store.go:740-752 | However equal dates are ordered, the first conversation listed is dated no earlier than any message saved for the user, which is what the silence guard of the scheduler rests on |
| `ConversationStore.FindBotExact` | Nukara_Backend/internal/store/store.go:754-765 | A lookup by bot finds the user's conversation with it exactly if there is one |
| `ConversationStore.CreatedIsEnsured` | Nukara_Backend/internal/store/store.go:767-790 | After a bot is created, ensuring its conversation finds the one created and changes nothing |
| `ConversationStore.Store.ListConversations` | Nukara_Backend/internal/store/store.go:740-752 | The listing is a permutation of the user's conversations, latest date first |
| `ConversationStore.Store.FindConversationByBot` | Nukara_Backend/internal/store/store.go:754-765 | The loop returns the first conversation of the user with the bot |
| `ConversationStore.Store.CreateBot` | Nukara_Backend/internal/store/store.go:558-569 | The conversation maps take exactly the create step |
| `ConversationStore.Store.EnsureConversation` | Nukara_Backend/internal/store/store.go:767-790 | The maps take exactly the ensure step, and the found or new conversation is returned |
| `ConversationStore.Store.SaveMessage` | Nukara_Backend/internal/store/store.go:828-855 | The maps take exactly the save step, or none for a conversation of another user |
| `ConversationStore.Store.MarkConversationRead` | Nukara_Backend/internal/store/store.go:816-826 | The maps take exactly the mark-read step |
| `ConversationStore.Store.ListMessages` | Nukara_Backend/internal/store/store.go:802-814 | The method returns the listing of the suffix theorem |

## Left out

- Persona.ReplayWhenSettled: for contents that hold delimiters the condition follows the first run; such a content is split into segments by a later patch to any field.
- Persona.BotRecord.ApplyPersonaDecisions: change events, failing writes and `selfCognitionUpdater` are not modelled; the record read at the start is taken to be synchronised, as every store reader makes it.
- Activation.BuildActivationSet: when two scores differ by no more than the tolerance of 1e-9 the comparator is not transitive, and neither the order nor which entries the limit cuts is stated.
- Activation.SortAndCut: nothing but a permutation and a cut is stated in that case.
- Chains.BuildRecallChains: the order of the chains is not stated in that case; the two labels of a chain are not modelled.
- Chains.PickAnchor: for an item that is not the recorded entry of its id, which needs two activated items with one id, nothing is stated; the activation set never contains such items.
- NodeStore.Store.ListMemoryNodes: which of several nodes with equal times come first is left open, as the source iterates over a map.
- Ingest.MergeStored: the times of a node are not before Go's zero time.
- Scheduler.ProactiveScheduler.ProcessUser: reading the stores that fill a Situation is not modelled, nor are the parsing of the do-not-disturb times and the choice of the zone from a bot's life context; the messages listed, the date of the latest conversation and the emotion trend are inputs, durations do not overflow.
- Spacing.OneZoneApart: a message is taken to be logged within an hour after its check, and the offset of the zone to stay the same, so a change to or from summer time counts as a change of zone.
- Spacing.LookBackSuffices: a message is taken to be logged within an hour after it is saved; push delivery, which lies between the two, gives up after 12 seconds.
- Pipeline.MessageAggregator.Send: a send is one step that needs a free slot; no order is stated between two turns of one conversation, since detached buffers are enqueued outside the aggregator's lock.
- Pipeline.FlushDeadline: a timer that is due is allowed to fire at any later step; how soon the runtime does is not modelled.
- Nil receivers, logging, the fields that are only passed through (avatars, system context, session bodies, sequence numbers), and invalid UTF-8.
- `SanitizeVisible`, `StripSegmentProtocol`, `splitByPause`, seed selection and merging, score formulas, card wording, risk cues: single-pass or single-branch code.
- Floating-point rounding.
- Random masks, sockets, deadlines and write errors below the frame layer; fragmented frames beyond their refusal.
- HTTP handlers, SQL and Redis mirrors, mail and push delivery, model clients, JSON, the web and iOS clients.
- The manual test endpoint that logs a proactive message without a cooldown check.
