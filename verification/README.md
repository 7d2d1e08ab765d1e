# Graite: verified models of its hard cores

This project models five parts of Graite in Dafny and proves what they promise:

- **md-convert** (`packages/md-convert`): the converter between markdown trees and editor blocks.
  `Inline*.dfy` model the flat styled runs and the nested phrasing trees (`inline.ts`), `Blocks*.dfy`
  the document trees and blocks (`blocks.ts`); `InlineMeaning` and `BlocksMeaning` say what a reader
  sees of either form.
- **jobs** (`apps/daemon/graite/jobs`): the durable queue (`QueueSpec`, `Queue`, `QueueProofs`), the
  worker's lanes over it (`Worker`, `WorkerProofs`), recurrence arithmetic (`When`, `WhenProofs`) and
  the schedules (`CronSpec`, `Cron`, `CronProofs`).
- **index** (`apps/daemon/graite/index`): the embedding protocol (`EmbedSpec`, `Embedder`,
  `EmbedProofs`, `EmbedProgress`) and the chunker (`ChunkLines`, `ChunkSplit`, `ChunkPage`,
  `ChunkPageProofs`, `ChunkContents`, `ChunkOnce`).
- **agent loop** (`apps/daemon/graite/agent/loop.py`): the bounded tool loop (`AgentLoop`,
  `AgentTranscript`, `AgentIds`).
- **assistant profile** (`apps/daemon/graite/assistant/profile.py`): `Profile`, `ProfileProofs`.

There is one module per file, with the file's name.

Each component is a specification made of functions, the source's loops and classes proved equal to
it (`*Loops.dfy`, the classes `JobQueue`, `Schedules`, `IndexEmbedder`), and lemmas about the
specification. `dafny verify dfyconfig.toml` checks everything.

## How the world outside appears

- Times are integers (microseconds); a clock reading, a row picked by `SELECT`, a model's answer and a
  tool's result are parameters. A `transaction` block, and every stretch without `await`, is one step.
- The worker and the embedder are state machines: a run is a sequence of enabled steps from the empty
  state, in any interleaving, and the main results hold after every run.
- What regular expressions say about a bare line (fence, heading, list item, table row) is given with
  the line; where the pattern itself matters (embeds, profile headings, newline runs) it is written out.
- Serialized text of a raw block is a symbol, equal for equal trees.

## What the code does not do

Results that differ from what the code's comments or tests suggest, each with its exact condition:

- A job whose retry waits keeps its key, so its waiting follow-up can never be promoted: the unique
  index `ux_jobs_key` (schema.sql:118) refuses the claim, and the lane claims nothing until the retry
  is gone (`QueueProofs.ClaimRefusedExactly`, `RetryBlocksLane`, `BlockedLaneReachable`).
- A job that is reaped while it still executes can take in a request that never starts
  (`QueueProofs.ReapLosesRequest`); `WorkerProofs.RequestLostExactly` says at which steps a waiting job is
  lost, and without such a reap no request is (`WorkerProofs.RequestKept`).
- A job cancelled while it is pending and not executing, or one of a kind without a handler, ends without the
  finish hook; every other job has it called once (`BooksAlwaysBalance`, `HookExactlyOnce`).
- A paragraph that holds only an aliased page link loses the alias, an open toggle comes back folded, a
  checked item leaves its ordered list, neighbouring lists of one kind fuse (`BlocksLosses`). The exact
  condition for a tree to come back is `Faithful` (`BlocksRoundTrip.RoundTripExactly`).
- The fixed style order in the header of inline.ts (lines 8-10) is not always that of the result: a
  struck italic text behind an italic one ends up as a strike inside the italic wrapper
  (`InlineOrder.StrikeInsideItalic`). `OrderExactly` says for which items the order holds.
- A weekly rule can run before its start date, in the week of that date (`WhenProofs.StartDateKept`).
- "Each failure doubles the wait" (cron.py:7) holds of `@every` rules; a five-field rule with uneven gaps
  can wait less after one more failure (`CronProofs.UnevenWaitShrinks`, `WaitShrinksExactly`).
- A merged chunk can exceed the maximum: the merge reserves sixteen characters for the heading label,
  and a label longer than these and the room left goes over (`ChunkPageProofs.LongLabelGoesOver`).
- A chunk keeps its old title when its page is renamed and the hash happens to agree, and then stays
  marked with a vector of another text (`EmbedProofs.RenamedPageDrifts`, `RelabelHonestExactly`); a title
  with a newline breaks the hash's promise (`EmbedProofs.NewlineTitleDiffers`, `EqualHashEqualInput`).
- An id the agent loop makes up can repeat one the model chose (`AgentIds.MadeIdCanRepeat`,
  `AssignedIdsDiffer`).
- An indented section heading survives reading a profile and is lost by the next save
  (`ProfileProofs.IndentedHeadingIsLost`); `SavedBodyIsStable` says which bodies are safe.

## Model

| member | source | states |
|---|---|---|
| Inline.EmbedFound | packages/md-convert/src/markdown.ts:118-131 | an embed is found, with its length and name, exactly where the text starts with `![[name]]` for a name of at least one character without brackets and newlines |
| Inline.RunShrinks | packages/md-convert/src/inline.ts:166-183 | why `build` terminates: peeling a style off a run that carries it leaves fewer styles to wrap, and the rest of the atoms has no more |
| InlineProofs.TextOrEmbedsReads | packages/md-convert/src/markdown.ts:121-133 | the nodes made of a text, embeds split out, walk back to runs of its style that merge to that very text |
| InlineProofs.BuildReads | packages/md-convert/src/inline.ts:129-186 | walking a built tree under any wrappers succeeds and yields one run per atom, in order, with the atom's styles united with the wrappers' |
| InlineProofs.RoundTrip | packages/md-convert/src/inline.ts:23-190 | for all inline content `toInline(fromInline(items))` is not null and equals the normal form: newlines split out unstyled, equal neighbours merged, link contents normalised alike, an alias equal to its target dropped |
| InlineMeaning.MergeKeepsReading | packages/md-convert/src/inline.ts:83-95 | merging runs changes nothing that is read: every character with its style set and link, in order |
| InlineMeaning.FlattenKeepsReading | packages/md-convert/src/inline.ts:23-73 | whatever tree is flattened, characters, style sets, links, page links, images and other markup read off items and tree are the same |
| InlineMeaning.FlattenedExactly | packages/md-convert/src/inline.ts:29-73 | a tree can be flattened if and only if at no depth it holds an image, markup without inline form, a titled link, or a link in a link: everything else is refused, and nothing more |
| InlineMeaning.BuildKeepsReading | packages/md-convert/src/inline.ts:101-190 | whatever items a tree is built from, tree and items read the same |
| InlineShape.BuildIsWellNested | packages/md-convert/src/inline.ts:129-186 | in a built tree no wrapper stands inside the same wrapper at any depth, and no two neighbouring siblings are the same wrapper |
| InlineOrder.OrderExactly | packages/md-convert/src/inline.ts:8-10 | for all items: in the rebuilt tree every wrapper stands inside wrappers that come before it in the order strike, italic, bold, at every depth, if and only if no text opens a style before one whose wrapper the text in front of it keeps open, in links too |
| InlineOrder.StrikeInsideItalic | packages/md-convert/src/inline.ts:129-186 | an italic text followed by one that is italic and struck through is rebuilt as a strike inside an italic wrapper, against the order |
| InlineStable.FlattenedIsTidy | packages/md-convert/src/inline.ts:23-95 | a flattened tree without empty texts has no empty run and no two mergeable neighbours, in links too |
| InlineStable.SplitOfNormal | packages/md-convert/src/inline.ts:105-122 | splitting the normal form at newlines gives the same atoms as splitting the items did exactly when no two neighbouring atoms are texts of one style, or an empty unstyled text beside a break; otherwise it gives fewer |
| InlineStable.Idempotent | packages/md-convert/src/inline.ts:23-190 | on trees with non-empty text one trip through the flat form normalises for good: a second one changes nothing |
| InlineCanon.BuildCanonical | packages/md-convert/src/inline.ts:129-186 | a tree built from atoms of which no two neighbours merge is canonical: each wrapper is new, not empty, the first style of its own first leaf and closed only where the style ends; texts hold no newline and no unsplit embed; links are untitled and plain |
| InlineReturn.CanonicalRebuilds | packages/md-convert/src/inline.ts:129-186 | a canonical tree is exactly what `build` makes of its own leaves |
| InlineReturn.StableExactly | packages/md-convert/src/inline.ts:23-190 | a tree can be flattened and comes back as it was if and only if it is canonical, a condition on the tree alone |
| InlineLoops.MergeRuns | packages/md-convert/src/inline.ts:84-95 | the loop that extends the last run in place computes the merged runs |
| InlineLoops.WalkInto | packages/md-convert/src/inline.ts:29-73 | pushes exactly the runs of the nodes after what was there, and fails exactly when some node has no inline form |
| InlineLoops.WalkNodeInto | packages/md-convert/src/inline.ts:31-71 | the same for each kind of node, links with titles or with non-text content refused |
| InlineLoops.PushParts | packages/md-convert/src/inline.ts:115-119 | the parts of a text, a break before each but the first, empty parts left out |
| InlineLoops.SplitHardBreaks | packages/md-convert/src/inline.ts:108-122 | the loop over items computes the atoms |
| InlineLoops.TurnLength | packages/md-convert/src/inline.ts:166-172 | the inner loop finds the longest run of texts with the outer style |
| InlineLoops.BuildTurn | packages/md-convert/src/inline.ts:133-183 | one turn produces the node of a break, link, page link, text or maximal run |
| InlineLoops.BuildTree | packages/md-convert/src/inline.ts:129-186 | the loop over atoms, recursion into runs and links included, computes the tree of the specification |
| BlocksProofs.MergeKeeps | packages/md-convert/src/blocks.ts:1083-1101 | while lists merge, all but the last output node are final and the last may only gain items |
| BlocksProofs.HtmlTrip | packages/md-convert/src/blocks.ts:115-147 | an html node comes back alone, and unchanged exactly when it is the empty marker as written or has no trailing newlines |
| BlocksProofs.HeadingTrip | packages/md-convert/src/blocks.ts:153-157 | a heading comes back alone, and unchanged exactly when its content is stable |
| BlocksProofs.QuoteTrip | packages/md-convert/src/blocks.ts:184-190 | a quote comes back alone, and unchanged exactly when it holds one stable paragraph |
| BlocksProofs.ParagraphTrip | packages/md-convert/src/blocks.ts:159-182 | a paragraph comes back alone, and unchanged exactly under the conditions on sole page links, images and table embeds, or when its content is stable and not empty |
| BlocksProofs.TableTrip | packages/md-convert/src/blocks.ts:839-853 | a table comes back alone, and unchanged exactly with stable cells, one alignment per header cell and no explicit left alignment |
| BlocksRoundTrip.CalloutTrip | packages/md-convert/src/blocks.ts:192-211 | a callout comes back alone, and unchanged exactly with a stable title, a faithful body, and folded if it is a toggle |
| BlocksRoundTrip.ItemTrips | packages/md-convert/src/blocks.ts:715-743 | an item's block turns into a one-item list of the right kind and start that holds the item exactly when the item is faithful, and unchecked if the list is ordered |
| BlocksRoundTrip.FaithfulReturns | packages/md-convert/src/blocks.ts:1067-1101 | merging what faithful nodes became gives back these nodes, starts and check states included |
| BlocksRoundTrip.ReturnedIsFaithful | packages/md-convert/src/blocks.ts:1067-1101 | nodes that merge back to themselves were faithful and did not join the node before |
| BlocksRoundTrip.RoundTripExactly | packages/md-convert/src/blocks.ts:107-1101 | for every document tree, to blocks and back with lists merged gives the same tree if and only if the tree is faithful |
| BlocksMeaning.SavedReads | packages/md-convert/src/blocks.ts:761-1101 | for every tree of blocks, also ones markdown cannot nest: the saved document reads as the blocks do, each block's own content once, in order, and its children after it or inside it |
| BlocksMeaning.MappedReads | packages/md-convert/src/blocks.ts:107-743 | for every document: the blocks read as the document once lone page links and table files, folds, callout kinds, column alignments and empty first paragraphs are settled; nothing else changes |
| BlocksMeaning.TripReads | packages/md-convert/src/blocks.ts:107-1101 | so reading and saving any document, faithful or not, changes nothing that is read but that |
| BlocksMeaning.RawExactly | packages/md-convert/src/blocks.ts:113-139 | a node stays one raw block if and only if the editor has no block for it: content that cannot be flattened, a quote of anything but one paragraph, a loose list, an explicit left alignment, other markup |
| BlocksMeaning.ItemRawExactly | packages/md-convert/src/blocks.ts:715-752 | an item stays raw if and only if it is more than one paragraph that can be flattened and nested lists; otherwise its kind, check and number are the list's and its own |
| BlocksMeaning.ParagraphKinds | packages/md-convert/src/blocks.ts:159-182 | a lone page link, untitled image or table file becomes its own block, and only those; any other paragraph one of text if and only if it can be flattened |
| BlocksLosses.AliasAloneIsLost | packages/md-convert/src/blocks.ts:159-164 | a paragraph with nothing but a page link comes back with the target as its alias |
| BlocksLosses.OpenToggleFolds | packages/md-convert/src/blocks.ts:854-863 | a toggle comes back folded whatever it was |
| BlocksLosses.CheckedOrderedItemChanges | packages/md-convert/src/blocks.ts:738-741 | a checked item among others leaves its ordered list: the items before keep list and start, the item becomes an unordered list, the items after are numbered from one |
| BlocksLosses.NeighboursFuse | packages/md-convert/src/blocks.ts:1088-1095 | two neighbouring faithful lists of one kind come back as one list with the items of both |
| BlocksLoops.MergeListsLoop | packages/md-convert/src/blocks.ts:1084-1101 | the loop that pushes into the open list computes the merged nodes |
| BlocksLoops.NodesToBlocksLoop | packages/md-convert/src/blocks.ts:107-111 | the loop over nodes computes the blocks |
| BlocksLoops.ListBlocks | packages/md-convert/src/blocks.ts:691-713 | a loose list stays one raw block; a tight one becomes its items' blocks, the first numbered one with the start unless it is 1 |
| BlocksLoops.NestedBlocks | packages/md-convert/src/blocks.ts:727-737 | what follows an item's paragraph: lists and empty markers become blocks, anything else refuses the item |
| BlocksLoops.BuildListItem | packages/md-convert/src/blocks.ts:1067-1081 | the item of a block: its paragraph unless empty, then the merged nested nodes |
| When.ParseExactly | apps/daemon/graite/jobs/when.py:40-69 | exactly the texts that spell a valid interval are accepted, as that interval: amount within the unit's limit, time, days and date as the unit demands, the anchor of weeks on the Monday before the date |
| WhenProofs.SlotsExact | apps/daemon/graite/jobs/when.py:119-121 | the days searched are exactly the chosen days of a week from Monday on, each once, in order, at least one |
| WhenProofs.NextRunIsLeast | apps/daemon/graite/jobs/when.py:108-125 | for every valid interval and instant `next_run` succeeds and is the least recurrence strictly later: nothing skipped, and the weekly search over two cycles always finds one |
| WhenProofs.LateTickKeepsRhythm | apps/daemon/graite/jobs/when.py:108-125 | asked at any time between a run and the next, it gives the same next run |
| WhenProofs.StepToNextStop | apps/daemon/graite/jobs/when.py:119-124 | from one stop of the cycle the least later recurrence is the next stop, around the end of the cycle too |
| WhenProofs.FullCycle | apps/daemon/graite/jobs/when.py:108-125 | from a recurrence, as many runs as there are distinct days lead exactly one period further |
| WhenProofs.RunsOnItsDays | apps/daemon/graite/jobs/when.py:60-69 | every run of a daily or weekly rule is at its hour and minute, a weekly rule's on one of its days |
| WhenProofs.StartDateKept | apps/daemon/graite/jobs/when.py:64-66 | a weekly rule never runs before its start date if and only if none of its days falls in that week before the date |
| QueueSpec.AdmittedKeepsUnique | apps/daemon/graite/index/schema.sql:118 | a row the unique index admits leaves active keys unique |
| QueueProofs.EnqueueGivesPending | apps/daemon/graite/jobs/queue.py:103-159 | for every key: a request is refused exactly when its key is empty and in use, or both the key and its follow-up key are running; otherwise it gets a job that is pending under its key or the follow-up key with its payload. A new row is the request's in every field, starting now if it names no start; a fold takes the better priority and the earlier start, except that folding into a waiting follow-up changes nothing; no other row is touched |
| QueueProofs.AtMostTwoActive | apps/daemon/graite/jobs/queue.py:116-184 | under one key at most two jobs are active, at most one runs, and at most one is a follow-up, which is pending |
| QueueProofs.ClaimKeeps | apps/daemon/graite/jobs/queue.py:161-184 | a claim keeps unique keys and that no running key is a follow-up key |
| QueueProofs.ClaimWrites | apps/daemon/graite/jobs/queue.py:161-184 | a claim that is not refused changes only its row: running, one attempt more, locked now, and a follow-up under its base key |
| QueueProofs.FailWrites | apps/daemon/graite/jobs/queue.py:202-221 | a failure changes only its row: while attempts remain it waits half a minute doubled per attempt, and otherwise has failed |
| QueueProofs.ClaimRefusedExactly | apps/daemon/graite/jobs/queue.py:171-179 | a claim is refused exactly when it would promote a follow-up whose base key is still active |
| QueueProofs.RetryBlocksLane | apps/daemon/graite/jobs/queue.py:202-213 | a retried failure with a waiting follow-up leaves a lane whose every later claim is refused |
| QueueProofs.BlockedLaneClaimsNothing | apps/daemon/graite/jobs/queue.py:164-179 | while a blocked follow-up heads the lane, the row picked is that follow-up and its claim is refused |
| QueueProofs.AskingAgainKeepsBlocked | apps/daemon/graite/jobs/queue.py:123-131 | asking for the key again, later and no more urgently, folds into the retry and leaves the lane blocked |
| QueueProofs.BlockedLaneReachable | apps/daemon/graite/jobs/queue.py:103-221 | request, claim, second request and retried failure reach a blocked lane from the empty table |
| QueueProofs.FailKeeps | apps/daemon/graite/jobs/queue.py:202-221 | failing an active job, retried or not, is never refused and keeps the table's invariant |
| QueueProofs.ReleaseKeeps | apps/daemon/graite/jobs/worker.py:154-157 | giving an interrupted job back at shutdown is never refused and keeps the invariant |
| QueueProofs.OthersKeep | apps/daemon/graite/jobs/queue.py:186-277 | reap, recover, complete, cancel, mark and progress keep the invariant |
| QueueProofs.ReapLosesRequest | apps/daemon/graite/jobs/queue.py:261-270 | the shortest such run: a job reaped while it executes takes in a second request, and the first execution then completes the row: the second request never starts |
| Queue.JobQueue.Enqueue | apps/daemon/graite/jobs/queue.py:103-159 | the method's new table and returned id are those of the specification (see EnqueueGivesPending for what they are), or the table is unchanged and the call fails |
| Queue.JobQueue.Claim | apps/daemon/graite/jobs/queue.py:161-184 | claims a due job of the lane's kinds that no other precedes by priority and time, counts the attempt and promotes a follow-up's key; a refused claim changes nothing |
| Queue.JobQueue.Progress | apps/daemon/graite/jobs/queue.py:186-192 | refreshes the lock time of that row only |
| Queue.JobQueue.Complete | apps/daemon/graite/jobs/queue.py:194-200 | the row becomes done, nothing else changes |
| Queue.JobQueue.Fail | apps/daemon/graite/jobs/queue.py:202-221 | back to pending after 30 seconds doubled per attempt while attempts remain, failed otherwise |
| Queue.JobQueue.Cancel | apps/daemon/graite/jobs/queue.py:223-232 | only a pending row becomes cancelled; the old status is returned |
| Queue.JobQueue.MarkCancelled | apps/daemon/graite/jobs/queue.py:234-239 | the row becomes cancelled, nothing else changes |
| Queue.JobQueue.Reap | apps/daemon/graite/jobs/queue.py:261-270 | exactly the running rows locked before the cutoff return to pending; their number is returned |
| Queue.JobQueue.Recover | apps/daemon/graite/jobs/queue.py:272-277 | exactly the running rows return to pending; their number is returned |
| WorkerProofs.StepKeeps | apps/daemon/graite/jobs/worker.py:116-169 | every step of queue and worker keeps the table's invariant and the books of all jobs |
| WorkerProofs.RunKeeps | apps/daemon/graite/jobs/worker.py:83-169 | so does every run of steps |
| WorkerProofs.BooksAlwaysBalance | apps/daemon/graite/jobs/worker.py:137-169 | in every reachable state each claim has exactly one outcome or still executes, attempts stay within the allowance plus forced returns, and the finish hook was called once, with the final status, for every ended job that no step of the run cancelled while it waited or claimed without a handler, and for no other |
| WorkerProofs.HookExactlyOnce | apps/daemon/graite/jobs/worker.py:75-169 | with handlers for all kinds a lane takes, the finish hook is called exactly once, with the final status, for every job that ends, but never for one cancelled at a moment when it was pending and not executing |
| WorkerProofs.TerminalIsFinal | apps/daemon/graite/jobs/worker.py:99-169 | no step changes the status of a done, failed or cancelled job |
| WorkerProofs.TerminalForever | apps/daemon/graite/jobs/worker.py:99-169 | nor does any run |
| WorkerProofs.CancelEndsExecution | apps/daemon/graite/jobs/worker.py:99-157 | a job cancelled while it executes ends as cancelled, and the hook hears exactly that, when its execution is then interrupted, whatever other steps come in between |
| WorkerProofs.InterruptedWaitsAgain | apps/daemon/graite/jobs/worker.py:149-157 | an execution interrupted without a cancel leaves its job pending, as it was otherwise, and the hook silent |
| WorkerProofs.ExecutionsExcludeEachOther | apps/daemon/graite/jobs/worker.py:116-135 | jobs that execute at the same time are different and hold different keys |
| WorkerProofs.RequestLostExactly | apps/daemon/graite/jobs/worker.py:137-169 | in every reachable state a pending job that is neither claimed nor cancelled stops being pending exactly when an execution of it ends for good (it returned, raised permanently or for the last time, or was interrupted by a cancel); it has then ended without another start |
| WorkerProofs.NoRequestLost | apps/daemon/graite/jobs/worker.py:116-169 | in a run that reaps nothing executing, a pending job stays pending until the run claims or cancels it |
| WorkerProofs.RequestKept | apps/daemon/graite/jobs/worker.py:116-169 | from the empty queue, after any such run, a request is accepted, its job is pending at that moment, and after any further such run it still waits unless it was claimed or cancelled |
| CronProofs.FixedGap | apps/daemon/graite/jobs/when.py:130-133 | between neighbouring runs of a minute, hour or day rule lies exactly the period: as many minutes, hours or days as the rule says |
| CronProofs.WaitBounds | apps/daemon/graite/jobs/cron.py:235-239 | the wait after a failure is between two minutes and a day, and a day exactly when the gap doubled per failure reaches it |
| CronProofs.WaitShrinksExactly | apps/daemon/graite/jobs/cron.py:235-239 | for every rule one more failure shortens the wait if and only if the gap between runs has more than halved meanwhile and the doubled gap is still under a day |
| CronProofs.UnevenWaitShrinks | apps/daemon/graite/jobs/cron.py:235-239 | a schedule at midnight and at one waits a day after its first failure and four hours after its second |
| CronProofs.WaitNeverShrinks | apps/daemon/graite/jobs/cron.py:235-239 | one more failure of an `@every` schedule never shortens the wait, whenever the failures happen |
| CronProofs.FinishLooksAhead | apps/daemon/graite/jobs/cron.py:218-247 | after success or failure the next run lies strictly ahead, after success it is the least recurrence, after failure two minutes to a day ahead; success clears the failures, failure adds one, cancellation moves nothing |
| CronProofs.TickSettles | apps/daemon/graite/jobs/cron.py:198-216 | a tick moves each due live row to its first run after the tick and leaves every other row; afterwards no readable live row is due, and ticking again at once changes nothing |
| CronProofs.LateTickSameNext | apps/daemon/graite/jobs/cron.py:198-216 | however late the tick, up to the following run, the row moves on to the same next run |
| Cron.Schedules.Create | apps/daemon/graite/jobs/cron.py:103-142 | the stored row: name cut, next run strictly ahead of now, history of a replaced row kept; an expression that cannot be read stores nothing |
| Cron.Schedules.Update | apps/daemon/graite/jobs/cron.py:144-173 | the whole new row for every mix of arguments: a blank name is ignored, a new expression clears the failures, a new expression or switching on looks ahead from now; errors change nothing |
| Cron.Schedules.Fire | apps/daemon/graite/jobs/cron.py:182-196 | unknown and retired schedules are refused without effect; otherwise a job waits under the schedule's key afterwards, no schedule's waiting job is lost, and a new job is the schedule's: its kind, payload and page, the priority of summaries and a single attempt |
| Cron.Schedules.TickOne | apps/daemon/graite/jobs/cron.py:205-215 | one due row: a job waits for it and the row moves on to its next run, unless the kind is retired |
| Cron.Schedules.Tick | apps/daemon/graite/jobs/cron.py:198-216 | all rows at once: every due live row has a waiting job, every row is as one tick leaves it, exactly the live due rows are returned, and no live row is due afterwards |
| Cron.Schedules.OnJobFinished | apps/daemon/graite/jobs/cron.py:218-247 | only the finished job's row changes. Cancelled: only its status. Succeeded: last run now, no failures, and the next run is the first one after now. Failed: one failure more, and the next run is ahead by the gap doubled per failure, capped at a day |
| Embedder.IndexEmbedder.EnsureTable | apps/daemon/graite/index/embedder.py:85-100 | the right table is left alone and nothing is rebuilt; otherwise the table is there, empty, for the model and size, and every mark is cleared and nothing else about the chunks changes |
| Embedder.IndexEmbedder.Select | apps/daemon/graite/index/embedder.py:168-175 | the pending rows with the smallest ids, in order, up to the limit |
| Embedder.IndexEmbedder.PickBatch | apps/daemon/graite/index/embedder.py:165-188 | pending rows as they read: for each hot root in order the smallest ids the room left allows, then the smallest of the others; never more than the limit, and all of them when fewer |
| Embedder.IndexEmbedder.WriteBack | apps/daemon/graite/index/embedder.py:204-223 | the new index and the count are those of the guarded write, or the transaction fails and changes nothing |
| EmbedProofs.EqualHashEqualInput | apps/daemon/graite/index/chunker.py:70-76 | for all rows with the same hashed text: the model is sent the same exactly when neither text is long enough to be cut or the heads are equally long |
| EmbedProofs.NewlineTitleDiffers | apps/daemon/graite/index/embedder.py:196-199 | with a newline in the title the same hashed text can be sent differently |
| EmbedProofs.StepKeeps | apps/daemon/graite/index/embedder.py:190-223 | reading, table check, write-back and every careful change by the indexer keep the index sound; careful: rows relabelled only for a page of their own title, and inserted either always short enough not to be cut or always under one-line titles |
| EmbedProofs.RunKeeps | apps/daemon/graite/index/embedder.py:190-223 | so does every interleaving of them, with several batches in flight |
| EmbedProofs.MarksAreHonest | apps/daemon/graite/index/embedder.py:190-223 | in every careful run with re-chunking and reused row ids, a chunk marked embedded has a vector of the current model and dimension computed from exactly its own title, headings and text |
| EmbedProofs.WriteHonestExactly | apps/daemon/graite/index/embedder.py:204-221 | a row written back is marked honestly exactly when what the model was sent is what the row holds now |
| EmbedProofs.WrittenLeavesNoOrphans | apps/daemon/graite/index/embedder.py:65-73 | right after a batch is written every vector has its chunk, whatever the indexer did before |
| EmbedProofs.QuietBatchWritesAll | apps/daemon/graite/index/embedder.py:190-223 | a batch nobody disturbs writes and marks all its rows |
| EmbedProofs.WriteExactly | apps/daemon/graite/index/embedder.py:205-222 | a write of a batch, whatever happened meanwhile: it fails exactly when a row that still holds its text finds no table or one of another size; otherwise it marks exactly these rows, gives them their vectors, counts them, and leaves all else as it was |
| EmbedProofs.DeleteLeavesOrphansExactly | apps/daemon/graite/vault/indexer.py:125-132 | deleting rows leaves vectors behind if and only if the table was not known to be there and one of the rows had a vector |
| EmbedProgress.RunStays | apps/daemon/graite/index/embedder.py:85-100 | over any run of reads, probes, answers and writes of one model and size, in any interleaving, every marked chunk keeps its mark and its very vector |
| EmbedProgress.BatchesDrain | apps/daemon/graite/index/embedder.py:190-223 | undisturbed batches of one model and size take exactly their rows off what is pending, at least one each, and leave all marks alone: there are no more batches than pending rows |
| EmbedProofs.RelabelKeepsOwnHashExactly | apps/daemon/graite/vault/indexer.py:152-169 | a row kept for a new chunk stays true to its hash exactly when the new headings join to the same head under the row's old title |
| EmbedProofs.RelabelHonestExactly | apps/daemon/graite/vault/indexer.py:152-169 | a marked row that is honest stays so exactly when the new headings join to the same head as the old ones under the row's own title |
| EmbedProofs.RenamedPageDrifts | apps/daemon/graite/vault/indexer.py:152-169 | a run from the empty index: the page "A" with the heading "B" is embedded and honestly marked, renamed to "A > B" without the heading, hashes the same, and its row stays marked with a vector of another text |
| ChunkLines.TokenizeLoop | apps/daemon/graite/index/chunker.py:107-176 | the index-driven loop computes the blocks of the specification and terminates |
| ChunkLines.TokenizeOrdered | apps/daemon/graite/index/chunker.py:107-176 | block ranges lie inside the body and do not go back; only blocks of one fence share a range |
| ChunkLines.RangesStrictlyIncrease | apps/daemon/graite/index/chunker.py:107-176 | without `graite:` fences the ranges strictly increase and are disjoint |
| ChunkLines.EachTextLineInOneBlock | apps/daemon/graite/index/chunker.py:132-175 | every line that is not blank, not the empty marker and outside fences lies in exactly one block, as that line of it with the same text |
| ChunkLines.KindFitsLines | apps/daemon/graite/index/chunker.py:132-175 | such a line's block is a heading, table, list or paragraph that all its lines fit, and it ends only before a line that does not belong to it |
| ChunkLines.HeadingStands | apps/daemon/graite/index/chunker.py:132-144 | a heading line outside fences is a heading block of its own with its level and text |
| ChunkLines.FencedLineIsCode | apps/daemon/graite/index/chunker.py:115-131 | a line inside an ordinary fence is a line of a code block that starts with the fence, whatever it looks like |
| ChunkLines.GraiteFenceExpands | apps/daemon/graite/index/chunker.py:126-127 | the blocks a `graite:` fence expands to stand on the page one after another |
| ChunkLines.EveryBlockFromLines | apps/daemon/graite/index/chunker.py:107-176 | the converse: every block is whole lines of the page that its kind fits, the lines of a fence that is not empty, or a block a `graite:` fence expands to |
| ChunkSplit.OverlapConserves | apps/daemon/graite/index/chunker.py:212-231 | dropping what each piece took over gives the items back in order; every piece adds one and starts with the last items of the piece before; a piece that does not fit holds at most the carried items and one more, and a new piece starts only where the next item did not fit |
| ChunkSplit.TableSplitConserves | apps/daemon/graite/index/chunker.py:184-199 | an oversized table: the header is its first two lines if the second is a divider and more follow; the pieces are the header and rows, the rows are conserved, each piece adds a row that did not fit before, and one over the maximum has at most two rows |
| ChunkSplit.ListSplitConserves | apps/daemon/graite/index/chunker.py:200-232 | an oversized list or code block: items start at the top-level item lines, or are the lines of code; the pieces are whole items, all conserved, each piece adds one that did not fit before, and one over the maximum holds at most three items or one code line |
| ChunkSplit.ProseSizes | apps/daemon/graite/index/chunker.py:233-243 | a piece of prose fits the maximum or is no longer than the longest sentence with the overlap and two blanks |
| ChunkContents.ProseConserves | apps/daemon/graite/index/chunker.py:233-243 | no sentence of split prose is lost, doubled or moved: the sentences fall into groups in order, one to a piece, a piece holds the end of the piece before and then exactly its group, blanks aside, and a piece ends only where the next sentence did not fit |
| ChunkSplit.PackConserves | apps/daemon/graite/index/chunker.py:246-261 | packing keeps all parts in order, closes a group only when the next part does not fit, and exceeds the target only with a single part |
| ChunkSplit.SplitItemsLoop | apps/daemon/graite/index/chunker.py:191-231 | the loops with carried items compute the pieces of the specification |
| ChunkSplit.PackLoop | apps/daemon/graite/index/chunker.py:246-261 | the packing loop with its running size computes the groups |
| ChunkPage.StackIsOpenHeadings | apps/daemon/graite/index/chunker.py:280-287 | the stack lists exactly the headings that no later heading has closed, outermost first, with strictly increasing levels |
| ChunkPage.SectionsConserve | apps/daemon/graite/index/chunker.py:274-292 | sections hold every block that is no heading, once and in order |
| ChunkPage.SectionPathsAreOpenHeadings | apps/daemon/graite/index/chunker.py:274-292 | a page has exactly one section per heading, in order, each under exactly the headings still open there, after one without a path for what stands before the first heading |
| ChunkPage.SectionsLoop | apps/daemon/graite/index/chunker.py:274-292 | the loop with stack, path and open section computes the sections |
| ChunkPage.ChunksLoop | apps/daemon/graite/index/chunker.py:294-302 | the loop over sections and groups computes the chunks |
| ChunkPage.MergeLoop | apps/daemon/graite/index/chunker.py:304-321 | the pass that grows the previous chunk in place computes the merged chunks |
| ChunkPage.ChunkPageLoop | apps/daemon/graite/index/chunker.py:264-327 | the whole of `chunk_page` computes the chunks of the specification |
| ChunkPageProofs.AbsorbKeeps | apps/daemon/graite/index/chunker.py:316-319 | the text of a merge is the first text, the label and the second text with empty lines between, left out around an empty one; its exact length, range, path and kind |
| ChunkPageProofs.RunHolds | apps/daemon/graite/index/chunker.py:304-321 | a merged run reads as its texts in order with the label of all but the first before them, all under one parent heading, from the first start to the last end; a chunk alone stays as it is |
| ChunkPageProofs.MergedSize | apps/daemon/graite/index/chunker.py:314-317 | a merged text exceeds the maximum by at most what its last label has beyond sixteen characters |
| ChunkPageProofs.LongLabelGoesOver | apps/daemon/graite/index/chunker.py:314-317 | a merge exceeds the maximum if and only if its label is longer than sixteen characters and the room both texts leave below the limit of the merge |
| ChunkPageProofs.PageLosesNothing | apps/daemon/graite/index/chunker.py:294-327 | the packed groups, in order, are partitioned into runs of small siblings, none of which could have gone on, each kept whole in one chunk; exactly chunks without text and heading are dropped, the others stand once and in order, numbered from 0; an empty page with a title has one chunk |
| ChunkPageProofs.PageInOrder | apps/daemon/graite/index/chunker.py:264-327 | the chunks of every page start in page order |
| ChunkOnce.SectionsHoldTheirBlocks | apps/daemon/graite/index/chunker.py:274-292 | every block that is no heading stands in exactly one section, in page order, and under exactly the headings open where it stands |
| ChunkOnce.SectionOnce | apps/daemon/graite/index/chunker.py:179-261 | the groups of a section whose blocks all fit are exactly its blocks, each once and in order |
| ChunkOnce.PageOnce | apps/daemon/graite/index/chunker.py:264-302 | the chunks of a page whose blocks all fit say, before merging, exactly its blocks, each once, in order, under their headings, with their range and kind |
| ChunkOnce.PackedTexts | apps/daemon/graite/index/chunker.py:246-261 | a group of several parts has a text within the target, and a group ends only where the next part would have taken it over |
| ChunkOnce.SectionConserved | apps/daemon/graite/index/chunker.py:179-261 | for every section, oversized blocks included: its groups hold the parts of its blocks, in order, and the parts of each block, without what they take over from the part before, are exactly its lines, or its sentences if it is prose that is cut |
| ChunkOnce.SectionLinesOnce | apps/daemon/graite/index/chunker.py:179-261 | in a section without cut prose every line stands as often and in the order in which the page has it, once what pieces take over is dropped |
| ChunkContents.PageKeepsLines | apps/daemon/graite/index/chunker.py:107-327 | every line a page writes outside headings and `graite:` fences stands whole in some chunk of the page, unless it belongs to prose longer than the maximum |
| ChunkContents.PageKeepsSentences | apps/daemon/graite/index/chunker.py:107-327 | every sentence of prose longer than the maximum is written, blanks aside, in some chunk of the page |
| ChunkContents.PageKeepsHeadings | apps/daemon/graite/index/chunker.py:264-327 | every section's heading path stands over a chunk of the page or was merged into one as its label |
| AgentLoop.CompactionIsLocal | apps/daemon/graite/agent/loop.py:95-133 | compaction leaves every message as it was but older tool results of 1500 characters or more, never the latest four, and changes those only to their shortened form |
| AgentLoop.CompactionIsLeast | apps/daemon/graite/agent/loop.py:95-133 | it shortens the fewest of the oldest results with which the log fits the budget, and all but the latest four if it never fits |
| AgentLoop.CompactResults | apps/daemon/graite/agent/loop.py:95-133 | shortens from the oldest result until the log fits, and tells whether anything changed |
| AgentLoop.BatchIsMaximal | apps/daemon/graite/agent/loop.py:273-280 | a batch holds several calls only when all are parallel-safe, and ends only at four calls, at the end, or beside a call that is not |
| AgentLoop.BatchesHold | apps/daemon/graite/agent/loop.py:271-316 | the batches partition a turn's calls in order, one to four each, side by side only when parallel-safe |
| AgentLoop.RunCalls | apps/daemon/graite/agent/loop.py:271-316 | records exactly one result per call, in order, and stops with the question of a clarification |
| AgentLoop.Run | apps/daemon/graite/agent/loop.py:136-317 | the loop over rounds computes outcome, log, model calls and executions of the specification |
| AgentLoop.ProtocolHolds | apps/daemon/graite/agent/loop.py:154-317 | in every run each model call sees a log where every tool-call turn is followed by exactly its results, same order and ids, and which continues the log before; at most `max_rounds` calls, the last without tools; at most one retry; tools run only for complete replies before the last round, namely all calls of the reply, or those its text spells if it has none, in order, or only the first clarification among them; the turns gained are exactly those executed; each ending is justified by the last reply |
| AgentTranscript.LogTellsTheRun | apps/daemon/graite/agent/loop.py:136-317 | every model call of every run is shown exactly what was said before it: the messages at the start, for each executed round the turn with the reply's text and what each call's tool returned, the retry after the one reply of no use, and the closing request; only older results are shortened, and none without a context size; the run goes on exactly after rounds that asked nothing |
| AgentTranscript.ShownWithinBudget | apps/daemon/graite/agent/loop.py:154-170 | what a round is shown fits the budget, or all results but the latest four are shortened, and no fewer would have done |
| AgentIds.MadeIdCanRepeat | apps/daemon/graite/agent/loop.py:257-260 | a made-up id can equal an id the model gave in the same turn |
| AgentIds.AssignedIdsDiffer | apps/daemon/graite/agent/loop.py:257-260 | the ids of a turn are new and all different if and only if every made-up id it needs is free: not seen before, and not the id an earlier call of the turn came with |
| AgentIds.IdsNeverRepeat | apps/daemon/graite/agent/loop.py:150-260 | over a whole run no two executed calls share an id if and only if that holds of every executed turn, given the ids executed before |
| AgentIds.OwnIdsNeverRepeat | apps/daemon/graite/agent/loop.py:150-260 | so it holds for a model none of whose ids looks made up |
| Profile.SplitSections | apps/daemon/graite/assistant/profile.py:11-27 | the loop over heading matches computes each section's share of the lines, cleaned |
| Profile.JoinSections | apps/daemon/graite/assistant/profile.py:30-37 | the loop computes the parts of the sections that are not blank, spaced by empty lines |
| ProfileProofs.CleanFixes | apps/daemon/graite/assistant/profile.py:27 | cleaning a section changes nothing exactly when it is trimmed and has no three newlines in a row, and cleaning twice is cleaning once |
| ProfileProofs.PlainTextIsKept | apps/daemon/graite/assistant/profile.py:11-27 | text without known headings, unknown headings included, stays verbatim in the section it follows |
| ProfileProofs.SplitLosesOnlyHeadings | apps/daemon/graite/assistant/profile.py:11-27 | for every body, splitting loses no character that is not blank but those of the four sections' headings |
| ProfileProofs.RoundTripInk | apps/daemon/graite/assistant/profile.py:11-37 | saving and reading back loses exactly the known headings inside the texts |
| ProfileProofs.RoundTripExactly | apps/daemon/graite/assistant/profile.py:11-37 | `split_sections(join_sections(s)) == s` if and only if each section is trimmed, without three newlines in a row and without a line that is a known heading |
| ProfileProofs.SavedBodyIsStable | apps/daemon/graite/assistant/profile.py:11-37 | a body once read comes back from saving exactly when no section read from it has a known heading |
| ProfileProofs.IndentedHeadingIsLost | apps/daemon/graite/assistant/profile.py:11-27 | an indented heading is read as text, becomes a heading by stripping, and is gone after the next save |

## Left out

- BlocksMeaning.SavedReads: the number a list starts with is not part of what is read there; ItemTrips and RoundTripExactly cover it.
- ChunkOnce.PageOnce: the merge of small siblings comes after it; PageLosesNothing says what that does.
- InlineProofs.RoundTrip: links and page links keep target, alias and content; `permalink` and `exists` of a page link are constants of the code and not modelled.
- BlocksRoundTrip.RoundTripExactly: covers html, headings, paragraphs, quotes, callouts, dividers, lists, tables and table fences; the `graite:` fences with YAML, code fences, columns, header row counts and the other custom blocks are not modelled.
- BlocksProofs.HtmlTrip: the printed form of a raw block is symbolic, so that printing and parsing agree is not part of it.
- WorkerProofs.StepKeeps: callers' keys never end in the follow-up suffix `:next`, which holds of all keys the source makes itself.
- WorkerProofs.RequestKept: is about safety; that a lane with work is woken and claims is not stated, and is false for a blocked lane.
- Cron.Schedules.Tick: which instants a five-field expression matches is the cron library's; it is taken to give the first match later than an instant. `parse_when`, `sync` and `delete` are not modelled.
- CronProofs.WaitBounds: waits are unbounded integers; the overflow of `timedelta` at large failure counts is not modelled.
- Queue.JobQueue.Fail: error and result texts, `locked_by` and published events are not stored.
- EmbedProofs.MarksAreHonest: equal hashes are taken to mean equal hashed texts; collisions of the hash are not modelled. Relabelling for a page of another title is excluded; what it does is RelabelHonestExactly.
- ChunkContents.PageKeepsSentences: `splitlines` is taken to drop line ends only; that the sentence pattern splits at blanks only is not stated.
- Embedder.IndexEmbedder.PickBatch: hot roots are given; how `touch` ages them and `LIKE` wildcards in paths are not modelled.
- ChunkLines.EachTextLineInOneBlock: what a `graite:` fence expands to is a parameter, nested columns included.
- AgentLoop.ProtocolHolds: tools return; streaming, recovery of calls from prose and the wording of the two added messages are given.
- ProfileProofs.RoundTripExactly: a section missing from the dictionary or None counts as empty, and the result always has all four.
- The remark parser and printer, `phrasingToText`, callout titles as text, and the lifting of embeds and callouts into the tree: library code.
- Objects updated in place (runs, list items, chunks, messages) are sequence elements that are replaced; aliasing between them is not modelled.
- The presence gate, polling, wake-up and grace periods of the worker; `run_pending`'s pauses between batches.
- Search, file operations, proposals, routes, media, voice, downloads and all user interface code: input and output without a protocol of their own.
