# Verified model of the speculative-decoding swarm

A large language model is cut into blocks of layers held by machines joined in a ring. A coordinator
drafts tokens, sends them round the ring in overlapping chunks, and commits what the model agrees with.
Every machine keeps a key/value cache it rewinds on its own, from the start position of each chunk it
receives. This project models the protocol, the caches, the drafters, the sampler and the wire format,
and proves that none of the speed-ups changes the answer: whatever the schedule, drafts, depths and
chunk sizes, the committed text is the model's own greedy decode (or, when sampling, has the model's own
probability).

## How it is put together

- **The reference.** `TargetModel` is an abstract stack of layers: how a row is projected to a key/value,
  how a query attends to a multiset of them, and the causal or sliding mask are its only ingredients. The
  next token after a text is recomputed from scratch. `Decode` is the plain greedy loop over that, and
  `StopRule` says which part of a run is the answer (up to the first end-of-sequence token, capped).
- **Caches.** `KvCache` has both rollback disciplines, crop-and-append and write-in-place, and proves each
  equal to recomputation. `Masks` proves the bucketed and gathered reads equal to a full masked read;
  `FastVerify`, `BatchVerify` and `TreeBlocks` update real arrays in place.
- **The ring.** `Ring` is a chain of stages with FIFO links. `Drain`, what the ring gives once it has run dry, is not
  changed by any stage step; so a reply is fixed when its message is sent, with all stale work ahead of it
  already counted in. `CropRing` and `ServeRing` put the two kinds of node on it, `Pipeline` is the
  coordinator's bookkeeping, `CommitLog` what a run commits reply by reply and where it stops, and `RingSystem`
  the whole as a state machine with arbitrary interleaving.
- **Coordinators.** `CgCoordinator` (fixed K, with the drafts of `Drafters`; `CgRun` is its run as a function and
  `StudyOrder` the order of a study), `NgramPipe` (chunks of varying length),
  `SpecPipe` (asynchronous draft, prefill kept in flight, resume after a death; its settings in `PipeConfig`), `SpecDec` (adaptive K),
  `TreeCoordinator` (one drafted tree per round) and `SampledPipe` (sampling, over the ring by `SampledRing`) are imperative, with
  loops over the variables the originals keep.
- **Around them.** `BestFirst`, `EagleTree` and `LockstepTrees` draft trees; `NgramDrafter` is the n-gram
  index; `PlanRepair` allocates layers; `Wire` is the codec and framing.

## Where the code and its comments differ

The model follows the code. These are consequences of it.

- `ngram_draft` says it looks for the most recent earlier occurrence; it never looks at the first n - 1
  start positions. It does what it says exactly when there is no earlier occurrence or the latest one
  starts at n - 1 or later (`NgramPipe.NgramDraft`, `NgramPipe.FindableWhenLate`,
  `NgramPipe.EarlyRecurrenceMissed`).
- The n-gram index is said to be rebuilt from a divergence point and to need a margin of about
  2 * depth * K. It is never rebuilt, and depth * K suffices, as long as no text outgrows the draft
  window; once texts do, the index keeps nothing wrong exactly when the margin is at least the window,
  so that it keeps nothing (`PipeConfig.WindowSettles`, `PipeConfig.WindowSlides`,
  `SpecPipe.CoordinatePipe`). `max_cand` of 0 weighs all occurrences rather than none.
- A resumed generation is said to go on as if nothing had happened. With a context window its budget
  is computed anew from a text that already holds the resumed tokens, which also count as output: they are
  charged twice, and the healed answer can be shorter than the uninterrupted one's. It is the same
  for every target exactly under `PipeConfig.BudgetKept` (`PipeConfig.ResumeFaithful`,
  `PipeConfig.ResumeChargedTwice`).
- The clamp is said never to let prompt and generation exceed the window. Its floor of 16 tokens does,
  exactly when fewer than 16 are left (`PipeConfig.ClampKeeps`); the speculation on top of the budget
  can too (`PipeConfig.SpeculationKeeps`).
- The sampler's fallback for an empty residual cannot be reached with exact arithmetic (`SpecSample.ResidualIsDist`).
- Best-first drafting with a depth limit of 0 still returns depth-1 nodes: it behaves as 1
  (`EagleTree.ProposeTree`).
- The fixed-K run only looks at the last token of what a reply commits, so an end-of-sequence token before
  it is passed over (`CgRun.TakenStops`, `CgRun.EosPassedOver`), as its comment says; the answer is recovered
  by cutting afterwards (`CgCoordinator.RunOne`). The same comment says the output can be max_new + K - 1
  long: that bounds every run with max_new of at least 2 (`CgRun.RunLength`), but with max_new of 1 a
  fully accepted first chunk gives K + 1 tokens (`CgRun.CapOfOneOverrun`).

## Model

| member | source | states |
|---|---|---|
| `Decode.Recompute` | root/glm_swarm_nvfp4.py:210-233 | The no-cache driver returns a greedy continuation that stops exactly at its first end-of-sequence token or at the cap |
| `Decode.GreedyResumes` | shard/phase0/specpipe.py:749-756 | Decoding on from an already greedy prefix gives the same tokens as decoding from the prompt |
| `StopRule.StoppedRunAnswers` | root/glm_swarm_nvfp4_cg.py:145-165 | Any greedy run that went on to the cap or past an end-of-sequence token, however far, gives the one-token-at-a-time answer once cut and capped, trimmed or not |
| `StopRule.AnswersAgree` | shard/phase0/specpipe.py:755-756 | Two token budgets give the same answer if and only if they are equal or the text ends by itself no later than at the smaller one |
| `TargetModel.VerdictsFromOnePass` | root/glm_swarm_nvfp4_cg.py:63-68 | One pass over a text answers every prefix of it: position j of the output is the next token after the first j+1 tokens |
| `KvCache.BlockExact` | root/glm_swarm_nvfp4_kv.py:131-162 | A chunk run on a cache that holds its prefix gives exactly the recomputed rows and leaves the cache holding prefix and chunk, for both rollback disciplines, whatever stale entries lie beyond |
| `KvCache.DisciplinesAgree` | root/glm_swarm_nvfp4_cg.py:24-41 | Crop-and-append and write-in-place give the same output rows on the same prefix |
| `KvCache.PaddingInvisible` | shard/phase0/fastverify.py:145-155 | Rows that only pad a prefill chunk to its fixed shape change neither the real rows nor what the cache holds of them |
| `KvCache.Stage.RunBlock` | root/glm_swarm_nvfp4_kv.py:188-194 | The layers, each cropping and appending its own cache in turn, compute the block function on all caches at once |
| `KvCache.Stage.Handle` | root/glm_swarm_nvfp4_kv.py:213-219 | A message at position 0 empties every layer's cache first; then the block runs on the chunk |
| `Masks.BucketExact` | shard/phase0/fastverify.py:106-110 | Reading any bucket that covers the query under the causal or sliding mask sees exactly the visible keys of the full buffer |
| `Masks.WindowExact` | shard/phase0/fastverify.py:175-202 | The gathered window under its start-free mask sees exactly the visible keys, for every start, window, chunk size and query |
| `Masks.Bucket` | shard/phase0/fastverify.py:106-110 | The bucket covers the need, fits the buffer, and is the smallest that does |
| `FastVerify.FastVerify.Reset` | shard/phase0/fastverify.py:112-114 | Every slot of every layer's buffer is zero again |
| `FastVerify.FastVerify.IndexCopy` | shard/phase0/fastverify.py:71-73 | Writes the chunk's keys at its own positions of one layer's buffer and nothing else |
| `FastVerify.FastVerify.DecodeLayer` | shard/phase0/fastverify.py:71-77 | After the write every query attends exactly the visible keys, whether the layer reads the bucket or its gathered window |
| `FastVerify.FastVerify.Decode` | shard/phase0/fastverify.py:204-231 | A chunk is refused, with nothing written, exactly when it would leave the buffer; otherwise buffers and rows are those of the write-in-place block, through either read path |
| `FastVerify.FastVerify.Prefill` | shard/phase0/fastverify.py:138-155 | The padded prefill writes in place what the block computes on the padded chunk and returns only the real rows; refused cleanly when it does not fit |
| `FastVerify.FastVerify.TreeDecode` | shard/phase0/fastverify.py:281-299 | A malformed tree or one without room is refused before any write; otherwise every node attends the prefix and its own ancestors only, all layers in place |
| `FastVerify.FastVerify.TreeGather` | shard/phase0/fastverify.py:301-309 | Copies the kept scratch slots of every layer to contiguous positions, changing nothing else |
| `BatchVerify.RunTwice` | shard/phase0/batchverify.py:180-189 | Running a block again on the same chunk changes neither caches nor output, so warm-up runs before a graph is captured do no harm |
| `BatchVerify.BatchedFastVerify.Scatter` | shard/phase0/batchverify.py:42-49 | Every stream's keys land at its own positions of its own row, and nothing crosses streams |
| `BatchVerify.BatchedFastVerify.Decode` | shard/phase0/batchverify.py:166-191 | For any batch of divergent starts, each stream's rows and buffers are exactly those of running it alone; the batch is refused untouched exactly when some stream has no room |
| `BatchVerify.BatchedFastVerify.LoadPrefix` | shard/phase0/batchverify.py:125-130 | Seating a stream copies its solo buffers into its row and leaves all other rows as they were |
| `Ring.ProceedKeepsDrain` | root/glm_swarm_nvfp4_kv.py:210-231 | A stage working off a message never changes what the ring ends up with: caches and replies do not depend on the schedule |
| `Ring.SendDrains` | root/glm_swarm_nvfp4_kv.py:210-231 | A message sent adds one reply at the end, computed from the caches as all earlier messages leave them |
| `Ring.SomeStageBusy` | root/glm_swarm_nvfp4_kv.py:210-231 | While a reply is owed and none has arrived, some stage has work |
| `CropRing.PassExact` | root/glm_swarm_nvfp4_kv.py:188-231 | A chunk carried through all crop-and-append stages comes out as the recomputed rows, and every stage's cache then holds the longer text |
| `CropRing.NetOfFaithful` | root/glm_swarm_nvfp4_kv.py:188-217 | Every model with at least one stage has a ring of crop-and-append stages that meets the hypothesis of the ring's theorems |
| `CropRing.SendVerdicts` | root/glm_swarm_nvfp4_cg.py:61-68 | A chunk sent where the caches will hold its prefix is owed the target's verdicts, wherever the stages are in the stream and whatever stale chunks are ahead |
| `GaplessRing.NoChunkStartsPastItsCache` | root/glm_swarm_nvfp4_kv.py:147-152 | In every reachable state, the chunk next to be processed by any stage starts a new prompt or within that stage's caches, so appending leaves no hole |
| `Pipeline.ReadInv` | root/glm_swarm_nvfp4_cg.py:127-156 | Reading a reply (stale, accepted in full or diverging) keeps the bookkeeping true: the first chunks in flight are stale, the rest tile the stream from the committed text |
| `Pipeline.CountAgreed` | root/glm_swarm_nvfp4_cg.py:143-147 | The loop finds the one number that splits the drafts into an agreed part and a first mismatch |
| `CommitLog.CommitsAre` | shard/phase0/specdec.py:110-118 | The equality loop commits the leading drafts that are the target's own tokens and the target's token in place of the first that is not; if all are right, themselves alone or, with a bonus, one token more |
| `CommitLog.CommitUnique` | shard/phase0/specpipe.py:818-827 | Text, drafts and target leave only one commit |
| `CommitLog.StopsInTime` | shard/phase0/specpipe.py:834-835 | A logged run that has stopped was short of its cap before its last reply and, where any token of a reply can end the text, had committed none that does |
| `RingSystem.PipelineLossless` | root/glm_swarm_nvfp4_cg.py:117-156 | In every state of every run, with stages interleaved at will and any drafts, chunk lengths and depth, everything committed is the target's plain greedy decode |
| `RingSystem.CommitsAreFinal` | root/glm_swarm_nvfp4_cg.py:145-156 | Committed text only grows: a later state's output extends every earlier one's |
| `RingSystem.QuietCachesHoldCommitted` | root/glm_swarm_nvfp4_kv.py:147-152 | Whenever the links are empty, every stage's cache holds the keys of the committed text before its last token |
| `RingSystem.NoDeadlock` | root/glm_swarm_nvfp4_cg.py:130-141 | While a chunk is in flight, some stage can step or a reply can be read |
| `RingLink.Link.RecvLogits` | root/glm_swarm_nvfp4_cg.py:63-68 | However busy stages are scheduled, the wait ends with the reply owed next, and the outstanding count goes down by one |
| `RingLink.Link.Prefill` | root/glm_swarm_nvfp4_cg.py:111-111 | A prompt sent at position 0 into a ready ring, whatever an earlier one left there, comes back as its first greedy token |
| `RingLink.Link.DrainReplies` | root/glm_swarm_nvfp4_cg.py:158-160 | Reading every reply still on its way leaves the ring ready for the next prompt |
| `CgCoordinator.RunOne` | root/glm_swarm_nvfp4_cg.py:108-172 | The pipelined run equals the plain answer for every depth, K, ring schedule and draft; every chunk's drafts are what the draft model says of the stream it was cut from; counts satisfy ntok + full = 1 + accepted + valid, waste is at most (depth - 1)(valid - full), replies at most depth(max_new - 1); every draft write slot stays inside the static cache; with a draft model the report is the one its settings fix; the report is the tally of its replies: fresh, stale and committed whole, and the run stops with the first that says so |
| `CgCoordinator.Fill` | root/glm_swarm_nvfp4_cg.py:131-136 | Tops up to exactly depth chunks in flight, each the stream's last token and K drafts of the draft model on that stream |
| `CgCoordinator.Take` | root/glm_swarm_nvfp4_cg.py:138-156 | One reply keeps every loop variable tied to the abstract pipeline, moves the run forward, and rewinds the draft's cache with it |
| `CgCoordinator.Plain` | root/glm_swarm_nvfp4_cg.py:78-84 | The one-token reference gives the answer itself, within the cap and free of end-of-sequence tokens |
| `CgCoordinator.Study` | root/glm_swarm_nvfp4_cg.py:174-189 | In a multi-prompt study over one ring and one draft, the generations are exactly those of the rotation, in its order; every one gives its own prompt's answer, leaves no reply unread and, with a draft model, reports exactly what a solo run would: output and all counts |
| `StudyOrder.OrderAt` | root/glm_swarm_nvfp4_cg.py:175-178 | In pass rep, prompt it meets configuration it + rep first and the others in turn from there, modulo their number: each entry's place in the results is given by pass, prompt and turn |
| `StudyOrder.EveryConfig` | root/glm_swarm_nvfp4_cg.py:177-177 | Wherever a prompt's rotation starts, it goes through each configuration exactly as often as it is listed |
| `CgRun.OneRun` | root/glm_swarm_nvfp4_cg.py:117-172 | Prompt, target, draft model, depth, K and caps fix the whole report: neither the schedule, nor earlier generations, nor whether the draft overwrites or crops can change it |
| `CgRun.ToldMore` | root/glm_swarm_nvfp4_cg.py:138-156 | One more reply read is one more counted, as stale or as fresh, and as full exactly if its chunk was committed whole |
| `CgRun.TakenStops` | root/glm_swarm_nvfp4_cg.py:145-156 | Every fresh reply commits at least one token and at most the chunk's drafts, and stops the run if and only if the cap is then reached or the last token committed ends the text; end tokens before it are passed over |
| `CgRun.EosPassedOver` | root/glm_swarm_nvfp4_cg.py:151-156 | A run in which that happens: its first chunk is accepted whole with an end-of-sequence token in it, and it goes on |
| `CgRun.RunLength` | root/glm_swarm_nvfp4_cg.py:156-157 | A run's length is at most K more than the larger of 1 and max_new - 1, hence at most max_new + K - 1 from max_new 2 on |
| `CgRun.CapOfOneOverrun` | root/glm_swarm_nvfp4_cg.py:200-202 | A run with max_new 1 whose output is K + 1 tokens long |
| `CgCoordinator.CountedStep` | root/glm_swarm_nvfp4_cg.py:138-155 | One fresh reply keeps the token, chunk and waste counts in their relation, counting what a divergence makes stale |
| `DraftCache.ChunkExact` | root/glm_swarm_nvfp4_cg.py:24-41 | A chunk on a cache that holds a text gives the draft's next token after text and chunk, under either rollback discipline |
| `DraftCache.StaticDraft.Prefill` | root/glm_swarm_nvfp4_cg.py:112-114 | The prompt, clamped to the draft's vocabulary, is shown whatever the slots held before |
| `DraftCache.StaticDraft.WarmUp` | root/glm_swarm_nvfp4_cg.py:115-116 | Eight warm-up steps beyond the prompt leave it shown as it was |
| `DraftCache.StaticDraft.DStep` | root/glm_swarm_nvfp4_cg.py:102-106 | A step at a position sees exactly the text before it, out-of-vocabulary tokens fed as 0, whatever stale slots lie beyond |
| `DraftCache.StaticDraft.Rewound` | root/glm_swarm_nvfp4_cg.py:155-155 | Rewinding the static draft takes no work: every shorter text is already what a step there will see |
| `DraftCache.StaticDraft.DraftK` | root/glm_swarm_nvfp4_cg.py:121-126 | K steps propose what the draft model says after the stream, token by token, and leave the cache showing the longer stream |
| `DraftCache.CropDraft.Append` | root/glm_swarm_nvfp4_pipe.py:55-57 | Appending a chunk leaves exactly text and chunk in every layer and answers the draft's next token |
| `DraftCache.CropDraft.CropTo` | root/glm_swarm_nvfp4_pipe.py:96-96 | Cropping leaves exactly the shorter text in every layer |
| `DraftCache.CropDraft.DraftK` | root/glm_swarm_nvfp4_pipe.py:55-73 | K appended steps propose the same function of the stream as the static draft |
| `Drafters.Begin` | root/glm_swarm_nvfp4_cg.py:111-116 | Prefill clamps the prompt to the draft's vocabulary, warm-up steps leave it untouched, and the cache then shows the prompt whatever an earlier prompt left |
| `Drafters.Propose` | root/glm_swarm_nvfp4_cg.py:121-126 | Whichever way its cache is kept, the draft proposes the same function of the stream and stays in step with it |
| `Drafters.Rewind` | root/glm_swarm_nvfp4_pipe.py:92-96 | After a divergence each draft's cache shows exactly the corrected stream before its last token |
| `Drafters.DivergesTo` | root/glm_swarm_nvfp4_cg.py:152-155 | A diverging reply shortens the stream to a prefix of what was sent and the target's token, so the rewound position is always within the draft's cache |
| `SpecDec.TailVerify` | shard/phase0/specdec.py:46-52 | A verify that carries the previous round's rollback leaves the tail holding exactly the text, as an eager crop would |
| `SpecDec.Traverse` | shard/phase0/specdec.py:107-109 | Head and tail together answer the target's next token after every position of the chunk |
| `SpecDec.DraftRound` | shard/phase0/specdec.py:99-106 | K drafts and one feed more: each draft is the draft model's next token after everything before it, and the cache ends on all of them |
| `SpecDec.RollBack` | shard/phase0/specdec.py:122-125 | The head's cache is cropped to the committed length at once, the tail's is right as soon as it applies the announced crop |
| `SpecDec.NextK` | shard/phase0/specdec.py:126-129 | Strictly between its bounds the adapted K is the nearest integer to two past the running acceptance, halves to even; at a bound that is its nearest allowed value |
| `SpecDec.Open` | shard/phase0/specdec.py:83-90 | Fresh caches on head, tail and draft all hold the prompt, and its last verdict is the first token |
| `SpecDec.RoundCommits` | shard/phase0/specdec.py:110-119 | A round commits the agreed drafts and the target's own token, also on full agreement, and stays greedy |
| `SpecDec.Step` | shard/phase0/specdec.py:98-125 | A round drafts the draft model's own greedy tokens on the committed text and commits what the target makes of them, bonus included, every cache following |
| `SpecDec.Generate` | shard/phase0/specdec.py:82-135 | For every draft model, K and adaptation of K the result is the plain answer; its course shows, round by round, how many drafts were asked for and why, what they commit, and that it stops with the first round that reaches the cap or an end token; tokens are 1 + rounds + accepted; the draft's cache ends on the committed text |
| `NgramPipe.NgramDraft` | root/glm_swarm_nvfp4_ngram_pipe.py:17-24 | Returns at most K tokens: those after the latest recurrence of the suffix that starts at n - 1 or later, and none exactly when there is no such recurrence; for n, K >= 1 that is the documented draft if and only if there is no earlier occurrence or one is findable |
| `NgramPipe.FindableWhenLate` | root/glm_swarm_nvfp4_ngram_pipe.py:18-21 | An earlier occurrence is findable if and only if the latest one starts at n - 1 or later |
| `NgramPipe.EarlyRecurrenceMissed` | root/glm_swarm_nvfp4_ngram_pipe.py:21-21 | A text at which the condition fails: the suffix occurred before at position 0 and nothing is proposed |
| `NgramPipe.Fill` | root/glm_swarm_nvfp4_ngram_pipe.py:55-60 | Sends chunks until depth are in flight or one is empty; each holds what the search finds, for K and n, in the stream it was cut from |
| `NgramPipe.Take` | root/glm_swarm_nvfp4_ngram_pipe.py:61-77 | A reply keeps the stream extending the committed text; a fresh one commits exactly what the target makes of its drafts, which are what the search finds in the committed text, and stops the run if and only if the cap is reached or the last token ends the text |
| `NgramPipe.Run` | root/glm_swarm_nvfp4_ngram_pipe.py:47-79 | With variable-length, empty and repeated chunks the run equals the plain answer; its log shows, reply by reply, the drafts searched in the text so far, what they commit, and that it stops with the first reply that meets the stop rule |
| `NgramPipe.OneLog` | root/glm_swarm_nvfp4_ngram_pipe.py:47-79 | Prompt, target, K, n and caps fix the output and every commit of it: neither the depth nor the schedule of the ring can change them |
| `ServeRing.ServeNode.Handle` | shard/phase0/specpipe.py:347-408 | A serving node's in-place handling of resets, padded prefill, decode and refusals is the step function the ring theorems are about |
| `ServeRing.PassExact` | shard/phase0/specpipe.py:372-407 | A chunk through all fixed-buffer nodes comes out as the recomputed rows (the last of them for a prefill), and every node then holds the longer text |
| `ServeRing.SendVerdicts` | shard/phase0/specpipe.py:808-814 | A chunk sent where the buffers will hold its prefix is owed the target's verdicts, stale chunks and padding notwithstanding |
| `ServeRing.SendRows` | shard/phase0/specpipe.py:372-407 | Such a chunk is owed its own recomputed rows, whatever reads them |
| `ServeRing.RowsFromAt` | shard/phase0/specpipe.py:509-529 | Each of those rows is what recomputing the text up to its own position ends in |
| `ServeRing.NetOfFaithful` | shard/phase0/specpipe.py:347-408 | Every model with at least one stage has a ring of fixed-buffer nodes that meets the hypothesis of the ring's theorems |
| `SpecPipe.PrefillChunks` | shard/phase0/specpipe.py:764-783 | Prefill with prefill_depth chunks kept in flight ends with every node holding the prompt and the last reply being the recomputed row at its end |
| `SpecPipe.Prefill` | shard/phase0/specpipe.py:762-786 | In one message or in chunks, every node ends up holding the whole text, the last reply is the recomputed row at its end, and one reply a chunk has been read |
| `SpecPipe.Rebuild` | shard/phase0/specpipe.py:749-786 | A reset and a prefill bring an idle ring, whatever its buffers contain, to hold the resumed text, and answer its next token |
| `SpecPipe.CoordinatePipe` | shard/phase0/specpipe.py:718-858 | The run returns the plain answer to its budget, which is all that was asked for when there is no window or it fits, for every K, depth, prefill chunk and prefill depth, with no draft request pending and the ring idle; on an edge failure it hands back a greedy run that extends what it was given; its course shows every commit and that it stops with the first reply that meets the stop rule; it cannot fail without one while its longest text fits; whatever an index with a suitable margin keeps of one draft query, all later ones repeat, and the index grown over all of them is the from-scratch index of committed text |
| `SpecPipe.Fill` | shard/phase0/specpipe.py:808-813 | Fills up to exactly depth chunks; each holds the channel's reply to a request for exactly the text it extends, and one request is outstanding again after every send |
| `SpecPipe.Take` | shard/phase0/specpipe.py:814-835 | A fresh reply commits what the target makes of the channel's reply for the committed text, and stops the run if and only if the budget is reached or, unless ignored, an end token is among what it commits; a divergence drops the outstanding draft and requests one for the corrected text |
| `SpecPipe.Drain` | shard/phase0/specpipe.py:836-838 | Reading the replies still on their way leaves every link empty |
| `SpecPipe.AsksNext` | shard/phase0/specpipe.py:806-813 | A query for a stream no longer than the committed text and depth * K more keeps all settled parts settled |
| `SpecPipe.AsksSettled` | shard/phase0/specpipe.py:799-832 | For every suitable margin, what the index keeps of any query made, all later queries and the committed text repeat |
| `SpecPipe.AsksIndexed` | shard/phase0/ngram_draft.py:47-52 | With a suitable margin, the index grown over a run's queries files positions of the committed text only, each under the key of that text |
| `SpecPipe.Generate` | shard/phase0/specpipe.py:839-848 | Over any number of edge failures at any operations, each dump is greedy and extends the previous one, and the healed run gives the plain answer to its last budget (to all that was asked for, without a window or when it fits), which is the uninterrupted run's answer if and only if the resumed tokens leave the budget as it was or the text ends by itself within the smaller budget |
| `PipeConfig.ResumeBudget` | shard/phase0/specpipe.py:753-756 | Resumed tokens leave the budget as it was if and only if there is no window, nothing is resumed, the budget asked for fits with them charged twice, or the floor of 16 lands on the full budget |
| `PipeConfig.WholeBudget` | shard/phase0/specpipe.py:755-756 | Without a window, or when it fits with the resumed tokens charged twice, what is asked for is the budget |
| `PipeConfig.ResumeFaithful` | shard/phase0/specpipe.py:749-756 | The healed answer equals the uninterrupted one for every target if and only if the budget is kept |
| `PipeConfig.ResumeAnswers` | shard/phase0/specpipe.py:749-756 | Against one given target they are equal if and only if the budget is kept or the text ends by itself within the smaller budget |
| `PipeConfig.ResumeChargedTwice` | shard/phase0/specpipe.py:755-756 | Window 1000, prompt 100, 800 tokens asked for: the budget is 800 uninterrupted and 484 with 400 tokens resumed, and a target that never stops answers them differently |
| `PipeConfig.ClampKeeps` | shard/phase0/specpipe.py:755-756 | Prompt and budget stay within the window if and only if at least 16 tokens are left in it |
| `PipeConfig.SpeculationKeeps` | shard/phase0/specpipe.py:755-756 | So does the longest text with its drafts, if and only if the floor leaves room for them and either the budget asked for does or depth * K is at most 17 more than what is resumed |
| `SpecPipe.SettledWider` | shard/phase0/ngram_draft.py:47-52 | A margin of at least depth * K keeps every indexed token settled |
| `PipeConfig.WindowSettles` | shard/phase0/specpipe.py:803-807 | Over all pairs of texts up to a length, of which the later keeps all but the last lag tokens of the earlier: what an index keeps of one windowed query the other repeats, for every pair, if and only if the window is never outgrown and the margin covers the lag or every text, or the margin is at least the window |
| `PipeConfig.WindowSlides` | shard/phase0/specpipe.py:803-807 | Two queries at which it fails: the window slides by one and with it every position |
| `Tree.ValidateTree` | shard/phase0/fastverify.py:29-49 | Accepts exactly the parent arrays that form a forest with true root distances, in any node order |
| `Tree.ValidIsForest` | shard/phase0/fastverify.py:36-49 | The local checks (range, no self-parent, depth one more than the parent's, not negative) hold if and only if every parent walk ends at a root after exactly depth steps |
| `Tree.AncestorsByWalk` | shard/phase0/fastverify.py:244-249 | The parent walks fill the matrix with exactly the ancestors of every node |
| `Tree.AncestorsByInheritance` | shard/phase0/tree_spec.py:65-70 | One pass of row inheritance fills the same matrix when parents precede children |
| `TreeVerify.TreeSeenExact` | shard/phase0/fastverify.py:252-273 | Under the tree mask a node sees exactly the keys a query at the end of its own root-to-node text would see, for full and sliding layers |
| `TreeVerify.NodeExact` | shard/phase0/fastverify.py:252-279 | Each node's output row is the recomputed last row of the prefix followed by its root-to-node chain |
| `TreeBlocks.TreeBlockExact` | shard/phase0/fastverify.py:275-309 | Through all layers, every chain's rows are the recomputed rows, and compacting that chain's slots leaves caches that hold exactly its text |
| `TreeBlocks.TreeRunTwice` | shard/phase0/fastverify.py:286-298 | The tree block run again on the same nodes gives the same rows and buffers: warming up a new topology does no harm |
| `TreeBlocks.CompactExact` | shard/phase0/fastverify.py:301-309 | The compacted buffer of one layer is the contiguous cache of prefix and chain |
| `TreeBlocks.EagerGatherAgrees` | shard/phase0/tree.py:71-79 | The list of absolute positions used by the eager gather keeps the same entries in the same order |
| `TreeAccept.AcceptTree` | shard/phase0/tree.py:49-68 | Walks down from the root along children that carry the wanted token, the first of several, and stops where no child does |
| `TreeAccept.Children` | shard/phase0/specpipe.py:1015-1017 | Lists exactly the children of every node, in ascending order |
| `TreeAccept.AcceptedIsGreedy` | shard/phase0/tree.py:49-68 | When each verdict is the target's token after its node's text, the walk commits exactly the next len(kept) greedy tokens, and each kept node's text is the committed text so far |
| `TreeAccept.AcceptedIsLongest` | shard/phase0/tree.py:53-56 | With distinct sibling tokens a node is kept if and only if every step of its chain carries the target's token: the path is the longest matching one |
| `TreeAccept.TreeGreedyWalk` | shard/phase0/tree_spec.py:79-108 | The anchored walk accepts the same path and tokens as the rooted walk of the tree with the anchor as its root |
| `TreeRound.HandleTree` | shard/phase0/specpipe.py:372-384 | A node first compacts the previous round's kept path in place, then verifies the tree; the whole new state and reply are the modelled step |
| `TreeRound.TreePassExact` | shard/phase0/specpipe.py:372-405 | Through all nodes, every chain's rows are the recomputed ones and every node is one compaction away from holding that chain's text |
| `TreeRound.TreeRoundExact` | shard/phase0/specpipe.py:1019-1026 | After a tree pass each node's verdict is the target's next token after committed prefix and chain, and the deferred compaction of any chain leaves every stage holding exactly that text |
| `TreeCoordinator.Round` | shard/phase0/specpipe.py:1010-1029 | A round fails exactly when the tree is malformed or has no room; otherwise it commits the whole walk down the tree by the target's verdicts, stays greedy, keeps the caches one compaction away from the committed text, and stops the run if and only if an end token is among what it commits |
| `TreeCoordinator.CoordinateTreeFast` | shard/phase0/specpipe.py:989-1039 | The finished run is the plain answer for any rooted trees, stopped by the first round that reaches the cap or an end token, and it finishes whenever the trees are forests that fit |
| `SpecSample.ResidualIsDist` | shard/phase0/specsample.py:99-104 | At a rejection the residual has positive mass, is a distribution once scaled, gives every other token its exact share, and never yields the rejected draft |
| `SpecSample.DrawsUnique` | shard/phase0/specsample.py:70-72 | One uniform draw determines the sampled token |
| `SpecSample.Sampler.Sample` | shard/phase0/specsample.py:70-72 | Draws the token whose share of the unit interval the next uniform number falls in, using exactly one number |
| `SpecSample.Sampler.Accept` | shard/phase0/specsample.py:85-107 | Fills the result slot by slot: drafts up to the first rejected slot and a residual token there, or all drafts and a bonus; the argmax of every row when greedy; exactly these draws are used |
| `SpecSample.EqualityLoopRecovers` | shard/phase0/specpipe.py:818-828 | Comparing drafts with the doctored result for equality recovers exactly the sampler's accept point |
| `SampledRun.SlotExact` | shard/phase0/specsample.py:96-105 | Accepting with the draft's probability and otherwise sampling the residual gives each token exactly its target probability in one slot |
| `SampledRun.RunExact` | shard/phase0/specpipe.py:808-832 | A run starts with given tokens if and only if an explicit event over the uniform draws holds, including the draws that stale chunks consume; the drafter may depend on all its earlier queries, dropped ones included |
| `SampledRun.SamplingIsExact` | shard/phase0/specsample.py:85-107 | That event has probability equal to the product of the target's conditional probabilities, for any deterministic drafter, with or without memory, and any pipeline depth |
| `SampledRun.NgramLawful` | shard/phase0/ngram_draft.py:59-113 | The n-gram drafter, whose answers depend on every earlier query, is one of these drafters |
| `SampledPipe.GenerationIsExact` | shard/phase0/specsample.py:78-107 | The same for a generation from its first token on |
| `SampledPipe.ChunkRejected` | shard/phase0/specpipe.py:826-832 | A chunk cut at a rejection commits what the slot-by-slot run produces and goes on with the generator where the stale chunks will leave it |
| `SampledPipe.ChunkAccepted` | shard/phase0/specpipe.py:823-825 | A fully accepted chunk commits its drafts (and the bonus when nothing is in flight) as the slot-by-slot run does |
| `SampledRing.CarriesSend` | shard/phase0/specpipe.py:808-813 | A chunk sent on a text whose part before the last token every node will hold is owed the rows after the text and after each draft, stale chunks ahead of it notwithstanding |
| `SampledRing.LawOfJudges` | shard/phase0/specsample.py:54-69 | Every model, sampler and drafter within one vocabulary define a law, and the sampler judges the model's rows by it |
| `SampledRing.Verify` | shard/phase0/specpipe.py:509-529 | Judging the rows the ring's caches have produced for a chunk, stale or not, gives the doctored result for the target's distributions after the chunk's own text and after each draft |
| `SampledRing.Begin` | shard/phase0/specpipe.py:757-787 | A reset and a prefill, in one message or in chunks of which each costs the tail a draw, leave every node holding the prompt, and the first token is drawn from the target's distribution after it |
| `SampledPipe.FillRing` | shard/phase0/specpipe.py:808-813 | Tops up to exactly depth chunks, each drafted on the stream it extends, and cannot fail without an edge failure while the longest text fits |
| `SampledPipe.DecodePipe` | shard/phase0/specpipe.py:757-838 | The pipelined sampled decode over the ring, with one draft always asked for ahead, dropped after a divergence, and stale chunks drawing from the same generator, commits the slot-by-slot run under any schedule of the nodes; it stops with the first reply that reaches the budget - all that was asked for when there is no window - or, unless ignored, an end token, and leaves the ring idle; an edge failure hands back a run cut short, and none happens by itself while the longest text fits |
| `SampledPipe.DecodeSync` | shard/phase0/specsample.py:85-107 | Over the ring, committing one chunk at a time up to and including the token after the agreed drafts, the bonus when all are accepted, with any number of drafts a chunk, is the slot-by-slot run, stopped by the first chunk that reaches the cap or an end token |
| `BestFirst.BestIsOptimal` | shard/phase0/eagle_draft.py:271-287 | With non-positive log-probabilities the search returns the m best-scoring nodes of the tree up to the depth limit (all of them when fewer), in non-increasing order, parents before children |
| `BestFirst.BestInTurn` | shard/phase0/eagle_draft.py:271-287 | Equally good nodes are drafted in the order in which they became candidates: equally likely children of a node in rank order, children of an earlier node first |
| `BestFirst.PopFrontier` | shard/phase0/eagle_draft.py:278-286 | After every pop each node of the tree not yet taken lies below some candidate that scores at least as high |
| `BestFirst.NodesClosed` | shard/phase0/eagle_draft.py:281-284 | Every ancestor of a drafted node is drafted |
| `EagleTree.EagleDrafter.EnsureCap` | shard/phase0/eagle_draft.py:116-128 | Growing the buffer keeps the committed context |
| `EagleTree.EagleDrafter.Extend` | shard/phase0/eagle_draft.py:139-168 | Appends the projected slots of the new tokens to the committed context, over any scratch left there |
| `EagleTree.EagleDrafter.Expand` | shard/phase0/eagle_draft.py:237-269 | One node's forward attends committed context, its ancestors and itself, at the anchor's position plus its depth, clamped to the longest, and leaves the committed context untouched |
| `EagleTree.ProposeTree` | shard/phase0/eagle_draft.py:215-287 | The heap-driven loop over scratch buffers reports tokens, parents and depths of the best-first search, committed context unchanged; empty without a context or nodes |
| `EagleTree.ReportUnique` | shard/phase0/eagle_draft.py:271-287 | A search has only one report, so equal searches give equal trees |
| `LockstepTrees.ProposeTreeB` | shard/phase0/eagle_draft.py:406-521 | Each fork's tree is its own serial tree, for any mix of finished, degenerate and pending forks, in at most m rounds, all contexts unchanged |
| `LockstepTrees.Advance` | shard/phase0/eagle_draft.py:450-463 | A fork's heap is popped until it waits for an expansion or is finished, in step with its own serial search |
| `LockstepTrees.FeedBack` | shard/phase0/eagle_draft.py:506-517 | The batched answer fed back completes exactly one serial step of that fork |
| `LockstepTrees.RoundsBounded` | shard/phase0/eagle_draft.py:447-465 | A fork still waiting for an expansion means fewer than m rounds have passed |
| `NgramDrafter.FiledExact` | shard/phase0/ngram_draft.py:78-81 | The positions under a key are exactly those whose preceding tokens are that key, oldest first, each once |
| `NgramDrafter.Drafter.Sync` | shard/phase0/ngram_draft.py:70-81 | Indexes all but the last margin tokens and never revisits what is indexed; the table lists exactly what has been filed |
| `NgramDrafter.Drafter.Propose` | shard/phase0/ngram_draft.py:83-113 | Copies on from the occurrence that reaches back furthest among those filed with fewer than max_cand later ones, the latest on ties, the text's last token where the copy ends; that token alone when nothing is to be weighed, and 0 for an empty text; a match is reported exactly when it reaches min_match |
| `NgramDrafter.RecentExact` | shard/phase0/ngram_draft.py:97-97 | The occurrences weighed are exactly those filed under the key with fewer than max_cand later ones, all of them when it is 0 |
| `NgramDrafter.Drafter.Fetch` | shard/phase0/ngram_draft.py:59-64 | Answers the snapshot taken at the request, with exactly the requested number of tokens |
| `NgramDrafter.Weigh` | shard/phase0/ngram_draft.py:95-106 | The backward scan with its early stop finds the occurrence that reaches furthest, the latest on ties, and none exactly when all lie past the end |
| `NgramDrafter.LookBack` | shard/phase0/ngram_draft.py:100-102 | The loop counts exactly the tokens that agree before the two anchors, up to the cap |
| `NgramDrafter.OverlapLongest` | shard/phase0/ngram_draft.py:100-102 | A length up to the cap matches backward if and only if it is no longer than the computed overlap |
| `NgramDrafter.IndexExact` | shard/phase0/ngram_draft.py:70-81 | As long as no query rewrites what earlier ones settled, the grown index is the from-scratch index of the settled text |
| `NgramDrafter.IndexFirst` | shard/phase0/ngram_draft.py:70-81 | Whatever the queries, a position is filed once, by the first query that settles it, under the ng tokens before it there, and nothing else is filed |
| `NgramDrafter.Serve` | shard/phase0/ngram_draft.py:58-64 | Every answer in a run of queries is a function of the queries so far and, when none rewrites what earlier ones settled, the one the from-scratch index gives |
| `NgramDrafter.AnswerIsDraftOf` | shard/phase0/ngram_draft.py:83-113 | Index and text leave only one answer |
| `NgramDrafter.CopiesLongest` | shard/phase0/ngram_draft.py:92-109 | Whatever weighed occurrence matches the text's end for some length, the copied one matches at least as far, and is later or matches further |
| `PlanRepair.Repair` | scripts/plan_from_traces.py:21-31 | Within 200 rounds the sum is 78 if and only if floor * n <= 78 <= cap * n; bounds kept; no single-layer move improves the plan |
| `PlanRepair.StableIsClosest` | scripts/plan_from_traces.py:24-31 | A plan no single-layer move improves is nearest the shares, in squared distance, among all in-bounds plans of its total |
| `PlanRepair.ClampedIsStable` | scripts/plan_from_traces.py:20-20 | Rounding and clamping already gives a plan no single-layer move improves |
| `PlanRepair.Hungriest` | scripts/plan_from_traces.py:24-27 | The stage furthest below its share among those that may grow, the first of several, or none exactly when all are at the cap |
| `PlanRepair.Fullest` | scripts/plan_from_traces.py:28-31 | The stage furthest above its share among those that may shrink, the first of several, or none exactly when all are at the floor |
| `PlanRepair.GrowKeepsStable` | scripts/plan_from_traces.py:24-27 | Growing the hungriest stage keeps the plan one that no single-layer move improves |
| `PlanRepair.ShrinkKeepsStable` | scripts/plan_from_traces.py:28-31 | Shrinking the fullest stage keeps it so too |
| `PlanRepair.FewRounds` | scripts/plan_from_traces.py:18-21 | The rounded shares are never more than 200 layers off |
| `PlanRepair.Plan` | scripts/plan_from_traces.py:17-31 | The plan is in bounds, adds up to 78 exactly when the bounds allow it, and no in-bounds plan of its total is nearer the proportional shares; from the rounded shares it is as many single moves away as are needed, at most 200 |
| `Wire.DecodeEncode` | shard/phase0/wire.py:71-126 | A message decodes to itself, tuples as lists, if and only if no dictionary uses the reserved key and every tensor's type is known |
| `Wire.TensorReads` | shard/phase0/wire.py:104-120 | A tensor's blob is found again by its number and read back with its exact size and shape |
| `Wire.OtherNumbers` | shard/phase0/wire.py:104-108 | A blob's number may count from the end, or be a truth value; any other out of range is an error |
| `Wire.ElementsFront` | shard/phase0/wire.py:109-114 | The elements of a shape are the product of its dimensions, taken from the front |
| `Wire.ElementSizes` | shard/phase0/wire.py:43-47 | The nine element types that travel, and the bytes of each |
| `Wire.NumberBig` | shard/phase0/wire.py:88-90 | A length reads back as itself from its bytes when it fits |
| `Wire.BigAt` | shard/phase0/wire.py:88-90 | Byte i of a length is its digit of weight 256 to the power of the bytes after it: the most significant comes first |
| `Wire.SplitJoined` | shard/phase0/wire.py:89-100 | Blobs laid end to end behind their lengths are split back into the same list |
| `Wire.SplitShort` | shard/phase0/wire.py:94-100 | A last blob cut short is taken as far as it goes; fewer than eight bytes of length are an error |
| `Wire.Pack` | shard/phase0/wire.py:71-91 | Gives four bytes of length, most significant first, the skeleton, and each blob behind eight bytes of its own length at its place, or an error exactly when the skeleton does not fit 32 bits of length or a blob 64 |
| `Wire.Unpack` | shard/phase0/wire.py:94-126 | Reads back any buffer, with the errors of a short, truncated or ill-typed one |
| `Wire.EncodeWellFormed` | shard/phase0/wire.py:71-84 | Whatever is sent has a skeleton JSON can carry: one value a key and no key twice, in every object |
| `Wire.UnpackPack` | shard/phase0/wire.py:71-126 | Unpacking the packed bytes gives the message back if and only if it is sendable |
| `Wire.Edge.Recv` | shard/phase0/wire.py:150-150 | Hands over at least one byte and at most as many as asked for, in order; none only at the end of the stream |
| `Wire.Edge.RecvAll` | shard/phase0/wire.py:147-154 | Returns exactly the next n bytes however the stream is cut, or reports a closed peer exactly when there are fewer |
| `Wire.Edge.SendMsg` | shard/phase0/wire.py:157-160 | Appends one sealed message behind eight bytes of its length, most significant first, or refuses before any byte is sent |
| `Wire.Edge.RecvMsg` | shard/phase0/wire.py:163-178 | At a message boundary, returns the oldest unread message and stays at a boundary; refuses an oversized one with its body, and all that follows, still unread |
| `Wire.Relay` | shard/phase0/wire.py:157-178 | Messages sent one after another are received as that sequence |

## Left out

- Tensor numerics: attention values, experts, quantisation, rotary tables, graph capture and compilation are abstract deterministic functions; floating-point differences between chunk sizes are outside every claim.
- The sampler's filtering: temperature, top-k and top-p are one abstract function from a row of logits to a distribution; a multinomial draw is the inverse of the cumulative sum at one uniform number.
- Sockets, timeouts, retries, relinking and the asynchronous sender: a link is a FIFO queue, an edge failure is a choice at each operation.
- The relay mode in which results travel back up the chain, and the two-connection handshake of the tail.
- An overfull chunk in `SpecPipe` tears the edge when it is sent; in the repository the node that refuses it tears the edge and the coordinator finds out at its next operation.
- The tree coordinator has one message in flight, so its ring is carried as a whole pass rather than as queues.
- The eager tree coordinator, the hybrid and batched drafters around the tree search, the single-chain draft, and the synchronous greedy coordinator: the same arguments with easier invariants.
- Receipts, hash chains, checkpoints and manifests.
- JSON text and authenticated encryption are library functions with an inverse, the former on skeletons whose objects have one value a key; dictionary keys are strings; errors of a hostile skeleton are all one kind.
- A read past everything ever sent is reported as a closed peer; a live edge would block.
- Printing, timing traces, acceptance statistics, the web gateway and the command line.
- The draft of the fixed-K run is always warmed up, as it is when compiled; a study's handling of a prompt that fails is not modelled.
- The n-gram index has anchors of at least one token.
- Values of types the sender's codec refuses are not values of the model's messages.
- Plan inputs: traces and the manifest are replaced by the stages' speeds; the floor is not negative and not above the cap.
- CgCoordinator.RunOne: without a draft cache the oracle may answer anything, so nothing is said of its drafts; draft quality is never claimed.
- BatchVerify.BatchedFastVerify.Decode: the per-stream expert wrapper is not modelled; layers act on one stream's rows at a time.
- SampledRun.SamplingIsExact: the uniform draws are taken as independent by reading the event's probability from its shape.
- A resumed run under sampling, in which a fresh tail draws from the start of the same seed again.
- The tail's draws are taken as its replies are read; it answers in the order chunks arrive, so they fall in the same order.
- SampledPipe.DecodeSync: the repository's synchronous coordinators reset the tail without a temperature, so under them it is greedy; the model runs their commit rule over a sampling tail.
- SpecPipe.Generate: every attempt starts with a fresh draft channel; a draft socket kept across a failure would still hold the reply to the last request, and every later draft would be one request behind, which no answer depends on.
- PipeConfig.SpeculationKeeps: it bounds the longest text a run may send; that some run does send one that long is not shown.
- A study's entries with an oracle in place of a draft model are compared with the plain answer only.
