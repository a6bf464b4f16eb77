# Verified models of the benchmark and trace tooling

This project models the parts of the repository's tooling that hold real algorithms or protocols, and
proves what they promise for every input and every run:

- **Trace layout** (`SpanLayout`, `GatewayColouring`, `LineChoice`, `LayoutPass`, `SpanForest`, `SpanPasses`, `TracePipeline`):
  spans read from an OTEL trace are hung into a forest by untrusted parent pointers, converted, and laid out on
  numbered lines by a sticky, then first-fit allocator over interval containers searched by bisection;
  `TracePipeline` composes the stages from raw spans to the records written.
- **Load generators** (`RoundBarrier`, `ConversationQueue`, `UserMix`): a sender and a response handler share
  counters, queues and per-client rounds. Each is a transition system whose steps may interleave in any
  order and whose responses may fail at any time; the theorems hold in every state of every run. A class
  per generator performs the same steps on its fields.
- **Line retrieval** (`LineRetrieval`, `LineEvaluation`): redirect chains are resolved with ring detection while
  the values are overwritten in place, and the evaluation asks only what its truncated text can answer.
- **Indexes** (`ReleaseIndex`, `ReleasePage`, `WheelIndex`): commits and pull requests are attributed to releases
  and looked up on a page; nightly wheels are merged into a page over an unbounded history of runs.
- **Answers** (`TextSplit`, `AnswerExtraction`, `MathEqual`): fraction bracing, boxed answers, and the recursive
  answer comparison.
- **Sampling** (`ChatFilter`): the length filter that repeats surviving conversations.

`Prelude` holds shared vocabulary. Imperative code is modelled imperatively and proved against pure
functions; the main theorems are lemmas about those functions and about runs.

Some promises turned out to be false of the code. Each has a concrete input or run and the exact condition:

- *Spans on one line do not overlap.* An instant (trimmed start equal to end) goes to the request's current
  line untested. `SpanLayout.InstantBreaksDisjointness` lays three spans so that two of them overlap;
  `SpanLayout.SeparatedIffNoPiercing` shows that the lines of a pid stay separated if and only if no such
  instant falls strictly inside an interval already stored on its line, and `LayoutPass.PassDisjoint` and
  `TracePipeline.ConvertTrace` promise disjointness under exactly that condition.
- *A trace with gateway spans can be converted.* Conversion reads the child list of every span, which only the
  engine's spans are given, so the first gateway span raises. `TracePipeline.ConvertTrace` fails exactly when
  there is a gateway span or a request without spans. The gateway theorems of `LayoutPass` are therefore about
  `generate_perfetto_span_layout` alone, on gateway spans taken to have been converted without children.
- *The round-barrier benchmark ends.* It ends when all planned requests are done. `RoundBarrier.NeverEnds` gives
  a start after which it cannot; `RoundBarrier.RestSentAllIff` gives the failures that do no harm.
- *The user queue is ordered by start time.* A user that starts after everyone queued is put before the last
  one: `UserMix.QueueLeavesOrder` is such a run, `UserMix.InsertKeepsOrderIff` the exact condition.
- *The mixed workload stops after its duration.* A failed response is never counted as completed, and the
  sender looks at the clock only after sending. `UserMix.NeverStops` reaches a stall from the start;
  `UserMix.SenderGoesOnIff` shows that the sender can go on if and only if fewer responses failed than may
  run in parallel.
- *A commit is found by its hash.* The page takes a query of digits alone for a pull request
  (`ReleasePage.DigitsTakenForPr`, `ReleasePage.CommitQueryIff`), and a seven-character prefix shows the first
  of the commits that share it (`ReleasePage.HashFindsCommitIff`).

Where documentation and code disagree, the code is modelled: the nightly script says its page is ordered by
commit count, but the page is ordered by run, latest first (`WheelIndex.LatestRunFirst`).

## Model
| member | source | states |
|---|---|---|
| `SpanLayout.BisectStartSplits` | scripts/convert_otel_2_perfetto.py:59-59 | on an ordered container the bisection index separates the intervals that start before the query from the others |
| `SpanLayout.OverlapIsScan` | scripts/convert_otel_2_perfetto.py:58-70 | on a separated container the two-neighbour test is true exactly when a scan finds an interval in conflict, for every query, also one that ends before it starts |
| `SpanLayout.OverlapIsIntersection` | scripts/convert_otel_2_perfetto.py:58-70 | with positive lengths that conflict is intersection of half-open intervals |
| `SpanLayout.InsertKeepsOrder` | scripts/convert_otel_2_perfetto.py:72-73 | insertion keeps the container in tuple order |
| `SpanLayout.InsertKeepsSeparated` | scripts/convert_otel_2_perfetto.py:58-73 | inserting a span that passed the conflict test keeps every interval, start and end, at or before the start of each later one, also for backward spans |
| `SpanLayout.InsertReflectsSeparated` | scripts/convert_otel_2_perfetto.py:72-73 | insertion never repairs a container that is not separated |
| `SpanLayout.InsertInstant` | scripts/convert_otel_2_perfetto.py:98-99 | an instant keeps a container separated if and only if it lies inside no stored interval |
| `SpanLayout.FirstFree` | scripts/convert_otel_2_perfetto.py:111-120 | the line chosen is free and every line before it is in conflict; a new one only when all are |
| `SpanLayout.FoundLine` | scripts/convert_otel_2_perfetto.py:95-120 | in terms of the intervals stored: only an instant that follows another span of its request may land on a blocked line; a request leaves its current line only when that one stores a conflict, and then every line before the one taken stores one |
| `SpanLayout.RunSlots` | scripts/convert_otel_2_perfetto.py:104-120 | after any run each line in use has exactly one slot record and no other line has one |
| `SpanLayout.SeparatedIffNoPiercing` | scripts/convert_otel_2_perfetto.py:95-120 | after any run the lines of a pid are separated if and only if no instant of that pid took the untested shortcut into the inside of a stored interval |
| `SpanLayout.NoInstantsSeparated` | scripts/convert_otel_2_perfetto.py:277-308 | without instants on a pid its lines stay separated, across requests and with backward spans |
| `SpanLayout.PlacedStays` | scripts/convert_otel_2_perfetto.py:289-291 | a span stays stored on the line it was given for the rest of the run |
| `SpanLayout.SameLineDisjoint` | scripts/convert_otel_2_perfetto.py:277-308 | unless an instant pierced a stored interval, two positive-length spans of a pid with the same tid do not overlap, across requests, backward spans and harmless instants |
| `SpanLayout.InstantBreaksDisjointness` | scripts/convert_otel_2_perfetto.py:98-99 | three spans of one request, one an instant, of which two overlap on the same line |
| `GatewayColouring.AliveByLines` | scripts/convert_otel_2_perfetto.py:289-291 | counting live spans line by line counts every laid span once |
| `GatewayColouring.LinesCoverAlive` | scripts/convert_otel_2_perfetto.py:95-120 | no instant has more live spans of a pid than the pid has lines |
| `GatewayColouring.OpeningIsPeak` | scripts/convert_otel_2_perfetto.py:111-120 | in start order a line is opened only when every line holds a span alive at the newcomer's start |
| `GatewayColouring.PeakReached` | scripts/convert_otel_2_perfetto.py:294-308 | in start order the number of lines is reached by spans alive at one instant |
| `GatewayColouring.AnyColouringNeedsPeak` | scripts/convert_otel_2_perfetto.py:294-308 | any assignment that keeps overlapping spans apart needs as many lines as spans alive at any instant |
| `LineChoice.StickyIsLast` | scripts/convert_otel_2_perfetto.py:95-101 | the current line of a pid is the line of the latest span of that pid since the request began, and there is none before the first |
| `LineChoice.BlockedIffNotClear` | scripts/convert_otel_2_perfetto.py:58-73 | a line is blocked for a span exactly when an earlier span with that tid is in its way |
| `LineChoice.PlacedGreedily` | scripts/convert_otel_2_perfetto.py:95-120 | every span of a pid that was not pierced gets the tid a greedy choice over earlier spans and tids gives |
| `LayoutPass.SpanLayoutContainer.CheckOverlap` | scripts/convert_otel_2_perfetto.py:58-70 | the early-return form computes the two-neighbour test |
| `LayoutPass.LayoutGraph.FindLine` | scripts/convert_otel_2_perfetto.py:95-120 | the loop returns the allocator's line, opens it with a slot record when new, and makes it current |
| `LayoutPass.SpanLayoutContainer.InsertSpan` | scripts/convert_otel_2_perfetto.py:72-73 | insertion keeps tuple order; it keeps a separated list separated after a passed conflict test, and breaks it for an instant that failed the test |
| `LayoutPass.LayoutGraph.OpenLine` | scripts/convert_otel_2_perfetto.py:116-119 | a new line has a container of its own, is made current and gets its slot record |
| `LayoutPass.LayoutGraph.StoreSpan` | scripts/convert_otel_2_perfetto.py:289-291 | the contents of that line's container change and those of no other |
| `LayoutPass.LayoutGraph.LaySpan` | scripts/convert_otel_2_perfetto.py:281-291 | finding a line and inserting is one allocator step on the whole state |
| `LayoutPass.LayoutGraph.LayRequest` | scripts/convert_otel_2_perfetto.py:278-292 | the state and the tids are those of the run that begins the request and lays its spans in order |
| `LayoutPass.SpanEvent` | scripts/convert_otel_2_perfetto.py:281-308 | the tid the pass gives to any span of any request is the line the run puts it on |
| `LayoutPass.SortRequests` | scripts/convert_otel_2_perfetto.py:269-276 | requests come out in order of their first start and each in order of start; it fails exactly when a request has no span |
| `Prelude.StableSortSorted` | scripts/convert_otel_2_perfetto.py:269-276 | sorting orders by the key |
| `Prelude.StableSortStable` | scripts/convert_otel_2_perfetto.py:269-276 | sorting keeps elements with equal keys in their order |
| `LayoutPass.GenerateLayout` | scripts/convert_otel_2_perfetto.py:268-308 | the pass fails exactly when a request has no span; otherwise it ends in the state of the run over sorted requests and sorted gateway spans, and on every pid that was not pierced spans given the same tid do not overlap and each span has its greedy tid |
| `LayoutPass.PassDisjoint` | scripts/convert_otel_2_perfetto.py:268-308 | over all requests and the gateway, positive-length spans with the same pid and tid are disjoint unless an instant of that pid pierced a stored interval |
| `LayoutPass.PassGreedy` | scripts/convert_otel_2_perfetto.py:279-308 | in spans and tids alone: the first span of a pid in a request gets the lowest tid with nothing in its way; a later one keeps the tid of the previous one if it is an instant or nothing there is in its way, and gets the lowest such tid otherwise |
| `LayoutPass.PassSeparated` | scripts/convert_otel_2_perfetto.py:268-308 | if no input span of a pid is an instant, the pass leaves all its lines separated, gives overlapping spans different tids and every span its greedy tid |
| `LayoutPass.GatewayLinesArePeak` | scripts/convert_otel_2_perfetto.py:294-308 | for gateway spans of positive length, the lines opened equal the largest number of input spans alive at one instant, whatever the engine's spans do |
| `LayoutPass.GatewayLayoutOptimal` | scripts/convert_otel_2_perfetto.py:294-308 | no assignment that keeps overlapping gateway spans apart uses fewer lines |
| `SpanForest.LastWithId` | scripts/convert_otel_2_perfetto.py:173-173 | of spans with the same id the last one is found |
| `SpanForest.BuildIdMap` | scripts/convert_otel_2_perfetto.py:173-173 | the id dictionary maps each id to the last span with it and holds no other id |
| `SpanForest.BuildSpanTree` | scripts/convert_otel_2_perfetto.py:172-195 | in fields of the input: the children of a span are, in input order, the spans that are no request and whose parent id was last borne, in the whole input, by that span; the roots are the request spans in order |
| `SpanForest.ParentIff` | scripts/convert_otel_2_perfetto.py:173-185 | a span hangs below another exactly when it is no request and that one is the last in the whole input with its parent id, whether it comes earlier or later |
| `SpanForest.Chain` | scripts/convert_otel_2_perfetto.py:179-185 | the ancestors of a span below a root are all different |
| `SpanForest.DepthBound` | scripts/convert_otel_2_perfetto.py:225-226 | recursion below a root is never deeper than the input is long, despite cycles elsewhere |
| `SpanForest.PreorderCount` | scripts/convert_otel_2_perfetto.py:395-406 | a walk from a span meets exactly its descendants, once each |
| `SpanForest.ForestCount` | scripts/convert_otel_2_perfetto.py:403-404 | a walk from a list of spans of one level meets a span as often as its ancestor of that level is listed |
| `SpanForest.EmittedExactlyOnce` | scripts/convert_otel_2_perfetto.py:409-423 | walking the laid-out spans in any order emits every span two or more levels below a request once and nothing else |
| `SpanPasses.TraceSpans.Convert` | scripts/convert_otel_2_perfetto.py:198-226 | the recursive pass terminates and performs one conversion per span of the walk, in its order, with the pid handed down |
| `SpanPasses.TraceSpans.ConvertThreads` | scripts/convert_otel_2_perfetto.py:236-252 | each thread converts what hangs below it with its own pid; the spans to lay out are its children |
| `SpanPasses.TraceSpans.ConvertRequests` | scripts/convert_otel_2_perfetto.py:229-252 | all requests together perform exactly the conversions of the forest walk |
| `SpanPasses.TraceSpans.SetTid` | scripts/convert_otel_2_perfetto.py:261-265 | the recursive pass terminates and gives the line to the span and everything below it |
| `SpanPasses.TraceSpans.SetLines` | scripts/convert_otel_2_perfetto.py:280-292 | each laid-out span in turn hands its line down |
| `SpanPasses.LineOfTop` | scripts/convert_otel_2_perfetto.py:261-292 | every emitted span ends on the line of the laid-out span it hangs below |
| `SpanPasses.TraceSpans.GatherOne` | scripts/convert_otel_2_perfetto.py:395-406 | gathering lists the span and its descendants in walk order |
| `SpanPasses.TraceSpans.GatherAll` | scripts/convert_otel_2_perfetto.py:415-417 | the output is the walk of the laid-out spans and holds every span two or more levels below a request once and no other |
| `SpanPasses.TrimPerVisit` | scripts/convert_otel_2_perfetto.py:207-208 | each conversion of a span takes 1000 ns off its end |
| `SpanPasses.VisitedOnce` | scripts/convert_otel_2_perfetto.py:229-252 | each span two or more levels below a request is converted once, no other span is |
| `SpanPasses.TrimmedOnce` | scripts/convert_otel_2_perfetto.py:207-208 | after the pass such a span ends exactly 1000 ns earlier, every other span ends as read |
| `SpanPasses.RecordedOnce` | scripts/convert_otel_2_perfetto.py:205-223 | its record holds its start, trimmed length and the pid of the thread above it; no other span has a record |
| `TracePipeline.LayoutOrderIsIds` | scripts/convert_otel_2_perfetto.py:269-276 | the layout sorts the converted spans exactly as the span ids are sorted, so its tids belong to them |
| `TracePipeline.OrdersHoldTops` | scripts/convert_otel_2_perfetto.py:247-252 | layout and gathering orders both hold every span two levels below a request once |
| `TracePipeline.LaidIsRecord` | scripts/convert_otel_2_perfetto.py:281-288 | what the layout sees of a span is the start, trimmed end and pid of its record |
| `TracePipeline.OutputApart` | scripts/convert_otel_2_perfetto.py:268-292 | records of laid-out spans with the same pid and tid and positive trimmed length do not overlap, unless an instant of that pid pierced a stored interval |
| `TracePipeline.NoInstantTops` | scripts/convert_otel_2_perfetto.py:98-99 | a pid without laid-out spans of trimmed length zero is never pierced |
| `TracePipeline.LayOut` | scripts/convert_otel_2_perfetto.py:268-292 | layout and subtree lines together keep the records, put every span on the line of its top, and fail exactly when a request has no span |
| `TracePipeline.ConvertTrace` | scripts/convert_otel_2_perfetto.py:444-457 | from raw spans to records: fails exactly when there is a gateway span or a request without spans; otherwise each span two or more levels below a request is written once with its start, trimmed length and thread pid, on the line of its top, and tops on one line do not overlap |
| `RoundBarrier.ResolveRounds` | benchmark/hicache/bench_multiturn.py:235-250 | both bounds given are accepted exactly when ordered and at least one; one bound or none gives that value or `num_rounds` twice, accepted exactly when at least one |
| `RoundBarrier.PlanTotals` | benchmark/hicache/bench_multiturn.py:263-267 | `clients_per_round` sums to `total_requests` |
| `RoundBarrier.PlacedStep` | benchmark/hicache/bench_multiturn.py:402-538 | every step keeps each unfinished client's next request in exactly one place |
| `RoundBarrier.CountedStep` | benchmark/hicache/bench_multiturn.py:405-409 | every step keeps the counters equal to what is in flight and what has finished |
| `RoundBarrier.DrawnStep` | benchmark/hicache/bench_multiturn.py:484-486 | every step keeps the sub-questions left equal to those not yet drawn |
| `RoundBarrier.OnLevelsStep` | benchmark/hicache/bench_multiturn.py:518-538 | every step keeps each client at the barrier round or one past it, according to where its request is |
| `RoundBarrier.BarrierCountedStep` | benchmark/hicache/bench_multiturn.py:524-538 | every step keeps the barrier counter equal to the clients that finished the round |
| `RoundBarrier.InvAlways` | benchmark/hicache/bench_multiturn.py:402-538 | all of these hold in every state of every run |
| `RoundBarrier.BarrierHolds` | benchmark/hicache/bench_multiturn.py:518-538 | with the barrier on, a request of round r is ready or in flight only after every client taking part in round r - 1 finished it successfully |
| `RoundBarrier.ParallelBound` | benchmark/hicache/bench_multiturn.py:405-409 | sent minus completed is between zero and the limit in every state |
| `RoundBarrier.SenderSends` | benchmark/hicache/bench_multiturn.py:405-409 | in every state with room and a ready request, one or two steps of the sender alone send the first ready one, without waiting for a response |
| `RoundBarrier.SenderFills` | benchmark/hicache/bench_multiturn.py:402-412 | from the start, before any response, the sender alone brings any number of requests into flight up to the clients and the parallel limit |
| `RoundBarrier.SubQuestionsSuffice` | benchmark/hicache/bench_multiturn.py:292-303 | `sub_question_inputs.pop()` never meets an empty list |
| `RoundBarrier.ReleaseSize` | benchmark/hicache/bench_multiturn.py:524-538 | a release holds exactly the clients that take part in the next round |
| `RoundBarrier.SentBound` | benchmark/hicache/bench_multiturn.py:264-267 | no run sends more than `total_requests` requests, and all are sent exactly when each client is finished or has only its last request open or failed |
| `RoundBarrier.FifoOrder` | benchmark/hicache/bench_multiturn.py:193-205 | under the fifo policy requests are sent in the order in which they became ready, also during a release |
| `RoundBarrier.FailureFreeCompletes` | benchmark/hicache/bench_multiturn.py:402-538 | without failures, when nothing is ready or in flight every client has done all its rounds and exactly `total_requests` completed |
| `RoundBarrier.FailureLosesRounds` | benchmark/hicache/bench_multiturn.py:484-486 | after a failure before the last round of a client, some planned request is never sent |
| `RoundBarrier.FailureBlocksBarrier` | benchmark/hicache/bench_multiturn.py:524-538 | with the barrier on, one failure keeps the barrier at its round forever, and no client gets past the next round; if some client has more rounds the benchmark never sends all requests |
| `RoundBarrier.NeverEnds` | benchmark/hicache/bench_multiturn.py:414-415 | a concrete start, one client whose first response fails, after which no continuation sends all requests |
| `RoundBarrier.RestSentAllIff` | benchmark/hicache/bench_multiturn.py:482-538 | a run at rest has sent everything if and only if each failure hit the last round of its client and, with the barrier, the last round of the benchmark |
| `RoundBarrier.Progress` | benchmark/hicache/bench_multiturn.py:402-538 | while anything is ready, in flight or being handled, some productive step is possible |
| `RoundBarrier.WorkBound` | benchmark/hicache/bench_multiturn.py:402-538 | every run makes at most (clients + 4) times `total_requests` steps besides polling |
| `RoundBarrier.CanComplete` | benchmark/hicache/bench_multiturn.py:402-538 | every run without a failure so far can be continued to exactly `total_requests` completions |
| `RoundBarrier.WorkloadGenerator.constructor` | benchmark/hicache/bench_multiturn.py:264-371 | the generator starts in the initial state, with every client ready for round 0 |
| `RoundBarrier.WorkloadGenerator.SenderCheck` | benchmark/hicache/bench_multiturn.py:405-405 | the sender gets leave to send exactly when fewer than `max_parallel` requests are out |
| `RoundBarrier.WorkloadGenerator.SenderPop` | benchmark/hicache/bench_multiturn.py:197-208 | popping takes the first request under fifo, any under random, none from an empty queue, and sends it |
| `RoundBarrier.WorkloadGenerator.HandlerTake` | benchmark/hicache/bench_multiturn.py:441-482 | a success finishes the client's round, a failure only counts as completed |
| `RoundBarrier.WorkloadGenerator.HandlerRequeue` | benchmark/hicache/bench_multiturn.py:484-538 | the next question is held or readied, the success counted, and a complete round starts a release |
| `RoundBarrier.WorkloadGenerator.HandlerRelease` | benchmark/hicache/bench_multiturn.py:534-538 | held requests become ready one by one, then the barrier moves on |
| `ConversationQueue.SetUpLimit` | benchmark/hicache/bench_serving.py:412-419 | the limit is the number of turns of what is queued, flattened or not |
| `ConversationQueue.SetUpQueues` | benchmark/hicache/bench_serving.py:417-419 | without a shared prefix the conversations are queued as they are; with one, turn j of request i is a conversation of its own behind all turns before it |
| `ConversationQueue.PlacedStep` | benchmark/hicache/bench_serving.py:170-188 | every step keeps each conversation in exactly one of queue, waiting, posted, finished, failed |
| `ConversationQueue.SpokenStep` | benchmark/hicache/bench_serving.py:97-114 | every step keeps the messages alternating and of the length the turn implies |
| `ConversationQueue.PromptLenIsContext` | benchmark/hicache/bench_serving.py:97-114 | the computed `prompt_len` is the token count of all messages sent, earlier answers with their measured length |
| `ConversationQueue.InvAlways` | benchmark/hicache/bench_serving.py:458-491 | these hold in every state of every run, with at most the allowed number of posts |
| `ConversationQueue.RequeueNeverBlocks` | benchmark/hicache/bench_serving.py:184-188 | the bounded queue has room whenever a conversation is put back |
| `ConversationQueue.QueuedTranscript` | benchmark/hicache/bench_serving.py:170-188 | a queued conversation is nowhere else and holds exactly two alternating messages per finished turn |
| `ConversationQueue.TranscriptIs` | benchmark/hicache/bench_serving.py:176-188 | a queued conversation holds its planned prompts, each followed by the text and length of the answer received for it, in order |
| `ConversationQueue.TurnAfterSuccess` | benchmark/hicache/bench_serving.py:176-188 | turn j is dispatched only after exactly j successes and j earlier dispatches of that conversation |
| `ConversationQueue.QueueIsFifo` | benchmark/hicache/bench_serving.py:184-188 | what was taken followed by what is queued is what was queued followed by what was put back, between any two steps of a run |
| `ConversationQueue.LimitBound` | benchmark/hicache/bench_serving.py:261-275 | no run dispatches more turns than the limit |
| `ConversationQueue.TurnsBound` | benchmark/hicache/bench_serving.py:412-419 | for every input, with or without splitting shared prefixes, no run dispatches more turns than the input holds |
| `ConversationQueue.DispatchBound` | benchmark/hicache/bench_serving.py:176-188 | without empty conversations the re-queueing alone already keeps the dispatches within the turns, whatever the limit |
| `ConversationQueue.StepsBound` | benchmark/hicache/bench_serving.py:458-491 | every run ends: it has at most three steps for each turn of the limit |
| `ConversationQueue.StepPossible` | benchmark/hicache/bench_serving.py:396-410 | a run stops only at rest: otherwise a step other than a failure is possible |
| `ConversationQueue.OpensUp` | benchmark/hicache/bench_serving.py:396-410 | from the start, before any answer, any number of turns of different conversations up to the concurrency limit can be outstanding at once |
| `ConversationQueue.FailureFreeCompletes` | benchmark/hicache/bench_serving.py:458-491 | without failures a run at rest has dispatched every turn and finished every conversation with its whole transcript |
| `ConversationQueue.Benchmark.constructor` | benchmark/hicache/bench_serving.py:412-466 | in terms of the input: which conversations are queued, with or without a shared prefix, each without messages |
| `ConversationQueue.Benchmark.GetRequest` | benchmark/hicache/bench_serving.py:261-275 | conversations leave from the front, at most the limit of times |
| `ConversationQueue.Benchmark.PostTurn` | benchmark/hicache/bench_serving.py:97-114 | the prompt joins the messages and the prompt length covers all of them; an empty conversation fails |
| `ConversationQueue.Benchmark.TurnSucceeded` | benchmark/hicache/bench_serving.py:170-188 | the measured length replaces the planned one, the answer is appended, and unfinished conversations go to the end of the queue |
| `ConversationQueue.Benchmark.TurnFailed` | benchmark/hicache/bench_serving.py:189-195 | a failed turn ends its conversation |
| `UserMix.RoundsFor` | benchmark/hicache/bench_mix.py:199-207 | the total is the first bucket whose cumulative ratio exceeds the draw, or the last one |
| `UserMix.InsertKeepsOrderIff` | benchmark/hicache/bench_mix.py:259-267 | insertion keeps an ordered queue ordered if and only if the queue is empty or the new user does not start after the last |
| `UserMix.QueueLeavesOrder` | benchmark/hicache/bench_mix.py:259-267 | a concrete run of two users after which the queue is not ordered by start time |
| `UserMix.ShapeStep` | benchmark/hicache/bench_mix.py:195-276 | every step keeps each user with rounds left in exactly one place and queued users strictly inside their rounds |
| `UserMix.TalliedStep` | benchmark/hicache/bench_mix.py:211-241 | every step keeps the statistics of a round equal to the users that were asked, answered and drawn for it |
| `UserMix.InvAlways` | benchmark/hicache/bench_mix.py:427-480 | these hold along every run from any state where they hold |
| `UserMix.RoundsConserved` | benchmark/hicache/bench_mix.py:229-241 | in every run each round's questions are its answers plus the users still in that round |
| `UserMix.UsersPlaced` | benchmark/hicache/bench_mix.py:229-276 | users with rounds left are queued, in flight, dropped or crashed, once; a queued user has 0 < current_round < total_rounds <= num_rounds |
| `UserMix.UsersGenerated` | benchmark/hicache/bench_mix.py:195-227 | first-round questions and the sum of `user_stats` both equal the users generated |
| `UserMix.SentUser` | benchmark/hicache/bench_mix.py:269-276 | the head of the queue is sent exactly when its start has passed, otherwise a new user; the sender stops when its time has run out |
| `UserMix.NotBeforeStart` | benchmark/hicache/bench_mix.py:269-276 | a user put back is sent again only at the head of the queue and after its start |
| `UserMix.StopsWhenExpired` | benchmark/hicache/bench_mix.py:441-443 | once the sender has seen its time run out nothing is sent in any continuation |
| `UserMix.StalledForever` | benchmark/hicache/bench_mix.py:431-443 | once as many responses failed as may run in parallel, nothing is sent again and the clock is never looked at |
| `UserMix.StallReached` | benchmark/hicache/bench_mix.py:427-480 | the stall is reached from the start: send as many users as may run in parallel and let each response fail |
| `UserMix.NeverStops` | benchmark/hicache/bench_mix.py:427-480 | every workload has a run from its start after which, whatever happens, nothing is sent and the clock is never looked at |
| `UserMix.CanSendAgain` | benchmark/hicache/bench_mix.py:455-480 | with fewer failures, answering what is in flight lets the sender go on |
| `UserMix.SenderGoesOnIff` | benchmark/hicache/bench_mix.py:431-443 | the sender can go on in some continuation if and only if fewer responses failed than may run in parallel |
| `UserMix.Workload.NewUser` | benchmark/hicache/bench_mix.py:195-227 | the draw loop picks the bucket and the new user is counted once in each statistic |
| `UserMix.Workload.SendNext` | benchmark/hicache/bench_mix.py:269-276 | the head of the queue is taken if its time has come, else a user is generated |
| `UserMix.Workload.InsertUser` | benchmark/hicache/bench_mix.py:259-267 | the loop inserts at the position where its index variable stopped |
| `UserMix.Workload.PushUser` | benchmark/hicache/bench_mix.py:229-267 | the answered round is counted and the user goes on to its next round or is finished |
| `LineRetrieval.RepeatIsRing` | benchmark/line_retrieval/gen_data.py:71-74 | a line met twice means that no plain line is ever reached |
| `LineRetrieval.Follow` | benchmark/line_retrieval/gen_data.py:63-74 | following a chain terminates, reports a ring exactly when no plain line is reachable, and otherwise returns the exact path and its end |
| `LineRetrieval.PathUnique` | benchmark/line_retrieval/gen_data.py:63-76 | a line has at most one redirect path |
| `LineRetrieval.BuildLinks` | benchmark/line_retrieval/gen_data.py:56-76 | despite in-place updates every line outside rings ends with the original value of the end of its chain; links are exact paths; the ring set is exact |
| `LineRetrieval.GroupByHops` | benchmark/line_retrieval/gen_data.py:78-83 | the dictionary holds, in order, the lines of each group, and no empty group |
| `LineRetrieval.GroupsPartition` | benchmark/line_retrieval/gen_data.py:78-83 | line i is in group h once if its chain has h - 1 hops, and in no group if it is in a ring |
| `LineEvaluation.OneAnswer` | benchmark/line_retrieval/bench_sglang.py:52-53 | a text with distinct line names gives a reader one answer at most |
| `LineEvaluation.AnswerableResolves` | benchmark/line_retrieval/bench_sglang.py:41-52 | a selected query resolves inside the truncated text to the value at the end of its chain, and to nothing else |
| `LineEvaluation.FourParts` | benchmark/line_retrieval/bench_sglang.py:54-62 | the four parts concatenate to the text, the first three a quarter each |
| `LineEvaluation.Queries` | benchmark/line_retrieval/bench_sglang.py:42-46 | the filter keeps exactly the queries of the group that stand before the source line and whose whole path lies in the text |
| `LineEvaluation.PickQuestion` | benchmark/line_retrieval/bench_sglang.py:36-68 | a question is produced exactly when the group has an answerable query; its label is what a reader of its parts finds |
| `ReleaseIndex.FirstTag` | docs/release_lookup/generate_index.py:79-93 | the first tag of a line that reaches a commit, and none only when no tag does |
| `ReleaseIndex.CommitIndex` | docs/release_lookup/generate_index.py:75-119 | a commit maps on each line to the first tag of that line that reaches it |
| `ReleaseIndex.PrIndex` | docs/release_lookup/generate_index.py:121-126 | a pull request maps on each line to the least tag index among its commits, and to nothing only if none is reached |
| `ReleaseIndex.AncestorsNotLater` | docs/release_lookup/generate_index.py:75-119 | over an ancestry-closed graph an ancestor's index never exceeds its descendant's |
| `ReleaseIndex.Indexer.CollectNew` | docs/release_lookup/generate_index.py:85-93 | the filter keeps each unseen commit once, in order, and marks all as seen |
| `ReleaseIndex.Indexer.RecordChunk` | docs/release_lookup/generate_index.py:105-126 | one chunk records its commits and first pull-request indexes in order |
| `ReleaseIndex.Indexer.RecordTag` | docs/release_lookup/generate_index.py:98-126 | the result does not depend on the chunk size |
| `ReleaseIndex.Indexer.ProcessTagLine` | docs/release_lookup/generate_index.py:75-126 | the loops over a release line compute the line's attribution |
| `ReleaseIndex.ShortenKeys` | docs/release_lookup/generate_index.py:165-180 | the run stops exactly when two commits share a short hash; otherwise each is found under it with its own entry and nothing else is |
| `ReleaseIndex.TagRefRoundTrip` | docs/release_lookup/index.html:281-289 | a compact reference reads back as the line and index it was written from |
| `ReleaseIndex.CompactForm` | docs/release_lookup/generate_index.py:188-198 | an entry of one line is the letter of the line and its decimal index, an entry of both an object |
| `ReleaseIndex.SimplifyRoundTrip` | docs/release_lookup/generate_index.py:188-198 | the page shows exactly an entry's indexes, whichever form was written |
| `ReleasePage.PrefixSearchCommit` | docs/release_lookup/index.html:333-346 | the binary search finds what a scan of the sorted keys for the prefix finds |
| `ReleasePage.FirstIsLeast` | docs/release_lookup/index.html:333-346 | that is the least key with the prefix |
| `ReleasePage.CommitQueryIff` | docs/release_lookup/index.html:373-388 | a query is looked up as a commit exactly when it has 7 to 40 hexadecimal characters, one of them a letter; one of digits alone is taken for a pull request |
| `ReleasePage.NumberQuery` | docs/release_lookup/index.html:380-384 | a number, with or without a hash sign, asks for the pull request of that number |
| `ReleasePage.AddressQuery` | docs/release_lookup/index.html:374-379 | an address with `/pull/` and a number asks for the pull request of that number, whatever follows |
| `ReleasePage.DigitsTakenForPr` | docs/release_lookup/index.html:380-383 | a concrete hash prefix that is looked up as a pull request |
| `ReleasePage.PerformSearch` | docs/release_lookup/index.html:360-410 | the branches of the search show the tags of the entry found |
| `ReleasePage.HashFindsCommitIff` | docs/release_lookup/index.html:395-405 | a hash or prefix finds a commit if and only if no other indexed short hash with that prefix sorts before it; always from eight characters on |
| `ReleasePage.HashShowsFirstReleases` | docs/release_lookup/index.html:395-440 | a hash or prefix that holds a letter, in either case, and if only seven characters long is shared by no commit sorting earlier, shows the first release of each line that contains the commit |
| `ReleasePage.HashNotFoundIff` | docs/release_lookup/index.html:395-405 | a hash is not found exactly when no indexed commit starts with its first eight characters |
| `ReleasePage.PrShowsFirstReleases` | docs/release_lookup/index.html:393-440 | a pull request shows, for each line, the least tag index among its commits |
| `WheelIndex.LinkFilename` | scripts/update_nightly_whl_index.py:95-118 | the file name read back from a link is the one it was made for |
| `WheelIndex.LinkParts` | scripts/update_nightly_whl_index.py:95-97 | read by its quotation marks, a link carries the address of its wheel below its own release, with the file name and its own digest, and the file name as text |
| `WheelIndex.PageRoundTrip` | scripts/update_nightly_whl_index.py:79-87 | reading the written page gives exactly the links written |
| `WheelIndex.PageIsLines` | scripts/update_nightly_whl_index.py:144-150 | the page line by line: document type, title, one link a line, final line break |
| `WheelIndex.MergeWithPage` | scripts/update_nightly_whl_index.py:108-121 | merging with the deduplicated page is merging with everything ever published |
| `WheelIndex.PageOfHistory` | scripts/update_nightly_whl_index.py:79-121 | after any history the page holds the deduplicated links of all runs, latest first |
| `WheelIndex.OneLinkPerFile` | scripts/update_nightly_whl_index.py:108-121 | exactly one link per file name ever built, made by the latest run that built it, and none for other names |
| `WheelIndex.LatestRunFirst` | scripts/update_nightly_whl_index.py:108-121 | a run puts its links first and keeps the remaining old ones in order |
| `WheelIndex.RepeatChangesNothing` | scripts/update_nightly_whl_index.py:79-150 | repeating a run leaves the page text unchanged |
| `WheelIndex.DropRepeats` | scripts/update_nightly_whl_index.py:111-121 | the loop keeps, in order, exactly the links that are the first with their file name and drops links without one |
| `WheelIndex.WheelRepo.UpdateWheelIndex` | scripts/update_nightly_whl_index.py:79-150 | a run replaces the page by the merged one, or fails and leaves it when there is no wheel |
| `TextSplit.JoinSplit` | benchmark/reasoning_benchmark/answer_extraction.py:9-9 | joining undoes splitting |
| `TextSplit.SplitJoin` | benchmark/reasoning_benchmark/answer_extraction.py:9-9 | splitting undoes joining for pieces free of the delimiter |
| `AnswerExtraction.FixFracsIdempotent` | benchmark/reasoning_benchmark/answer_extraction.py:8-37 | fixing fractions twice is fixing them once, for every string |
| `AnswerExtraction.FixFracsSameText` | benchmark/reasoning_benchmark/answer_extraction.py:8-37 | only braces are added, and the surplus of opening braces stays |
| `AnswerExtraction.FixFracsOutcome` | benchmark/reasoning_benchmark/answer_extraction.py:8-37 | with an incomplete fraction the input is returned; otherwise every fraction is followed by a braced argument |
| `AnswerExtraction.FixFracsLoop` | benchmark/reasoning_benchmark/answer_extraction.py:8-37 | the accumulating loop with its early return computes the fixed string |
| `AnswerExtraction.OneFraction` | benchmark/reasoning_benchmark/answer_extraction.py:24-36 | of the two characters behind a fraction each bare one is put in braces of its own; a braced argument is left alone |
| `AnswerExtraction.FracsBraced` | benchmark/reasoning_benchmark/answer_extraction.py:8-37 | the same for a text of any number of fractions, piece by piece |
| `AnswerExtraction.CloseIff` | benchmark/reasoning_benchmark/answer_extraction.py:185-191 | the scan stops at a position exactly when a closing brace follows a balanced text there |
| `AnswerExtraction.BoxedRoundTrip` | benchmark/reasoning_benchmark/answer_extraction.py:182-197 | a balanced answer put into a text is the first one read back, with its closing brace only before a percent sign |
| `AnswerExtraction.BoxedAnywhere` | benchmark/reasoning_benchmark/answer_extraction.py:182-197 | a balanced answer placed anywhere is read back between the answers of what stands before and behind it |
| `AnswerExtraction.AnswerIsBalanced` | benchmark/reasoning_benchmark/answer_extraction.py:182-197 | a piece yields the balanced text before its closing brace, or nothing if there is none |
| `AnswerExtraction.AnswersComeFromText` | benchmark/reasoning_benchmark/answer_extraction.py:182-197 | every answer is a balanced text standing in the input between `boxed{` and its closing brace, or that text with the brace |
| `AnswerExtraction.ExtractBoxedLoop` | benchmark/reasoning_benchmark/answer_extraction.py:182-197 | the nested loops compute the answers of all pieces |
| `MathEqual.CellLength` | benchmark/reasoning_benchmark/eval_utils.py:133-161 | a matrix cell is shorter than the matrix, so the recursion ends |
| `MathEqual.RightSideLength` | benchmark/reasoning_benchmark/eval_utils.py:183-200 | the right side of an assignment is shorter than the whole, so the recursion ends |
| `MathEqual.MatrixLoop` | benchmark/reasoning_benchmark/eval_utils.py:147-173 | the flag is set exactly when the rows match in number, width and every cell |
| `MathEqual.NumbersMonotone` | benchmark/reasoning_benchmark/eval_utils.py:68-87 | numbers accepted under stricter options are accepted under looser ones |
| `MathEqual.Monotone` | benchmark/reasoning_benchmark/eval_utils.py:59-206 | for any parser and symbolic check, what is accepted with an option off is accepted with it on, through nested tuples, matrices and assignments |
| `MathEqual.StrictNumbers` | benchmark/reasoning_benchmark/eval_utils.py:68-87 | with both options off, numbers are accepted exactly when texts or numbers are equal |
| `MathEqual.NumbersExact` | benchmark/reasoning_benchmark/eval_utils.py:68-87 | finite numbers under any options: accepted exactly when texts are the same or the prediction equals, or is within 1e-3 or 1e-9 relative of, the reference or, with percentages, its hundredth or hundredfold |
| `MathEqual.NonFiniteExact` | benchmark/reasoning_benchmark/eval_utils.py:68-87 | infinities match only themselves, not-a-number only its own text |
| `MathEqual.EmptyPrediction` | benchmark/reasoning_benchmark/eval_utils.py:91-92 | an empty prediction matches no other text that is not a number |
| `MathEqual.StripExact` | benchmark/reasoning_benchmark/eval_utils.py:95-96 | stripping takes off exactly the white space around a text |
| `MathEqual.PlainExact` | benchmark/reasoning_benchmark/eval_utils.py:202-206 | texts that are no numbers, tuples, matrices or equations are accepted exactly when they are the same or the symbolic check accepts them |
| `MathEqual.SymbolicAccepted` | benchmark/reasoning_benchmark/eval_utils.py:202-204 | what the symbolic check accepts is accepted, whatever its shape |
| `MathEqual.TupleExact` | benchmark/reasoning_benchmark/eval_utils.py:98-113 | unless the symbolic check accepts the whole, tuples and intervals in any brackets are accepted exactly when they have as many parts and every pair of parts is accepted |
| `MathEqual.MatrixExact` | benchmark/reasoning_benchmark/eval_utils.py:116-175 | unless the symbolic check accepts the whole, matrices of either environment are accepted exactly when rows and cells match in number and every pair of cells is accepted |
| `MathEqual.NonBlankExact` | benchmark/reasoning_benchmark/eval_utils.py:133-146 | matrix lines are stripped one by one and blank ones left out |
| `MathEqual.EquationExact` | benchmark/reasoning_benchmark/eval_utils.py:176-182 | unless the symbolic check accepts the whole, two equations are accepted exactly when it accepts their differences with either sign, or the texts are the same |
| `MathEqual.AssignmentExact` | benchmark/reasoning_benchmark/eval_utils.py:183-191 | unless the symbolic check accepts the whole, `name=value` is accepted exactly when the value is |
| `MathEqual.ReferenceAssignmentExact` | benchmark/reasoning_benchmark/eval_utils.py:192-200 | the same with the assignment on the reference side |
| `MathEqual.LongNameRejected` | benchmark/reasoning_benchmark/eval_utils.py:183-187 | a left side of more than two characters is no name |
| `ChatFilter.Process` | benchmark/hicache/data_processing.py:56-84 | a conversation keeps, in order, exactly its pairs whose token counts keep within the four limits, with their token counts |
| `ChatFilter.FilterChat` | benchmark/hicache/data_processing.py:47-91 | with a pair that passes, exactly the requested number of entries, entry k being survivor k modulo their number, with the token sums over all turns of the output |
| `ChatFilter.KeptSources` | benchmark/hicache/data_processing.py:58-80 | which pairs are kept, through the token counts and the limits |
| `ChatFilter.SurvivorSources` | benchmark/hicache/data_processing.py:81-83 | which conversations survive: those with a pair that passes, in order |

## Left out
- HTTP, streaming, tokenizers, sleeping, wall-clock time and random draws: responses, clock readings and draws are arbitrary inputs of the steps.
- Metrics, percentiles, printing, command lines and log files.
- Trace events, links between spans, thread names, host ids and the JSON attributes read with them, including the errors raised when one is missing; only ids, parents, the request mark, pids and times are kept.
- Conversion of gateway spans, which raises in the code as it stands; the layout takes them as given, without children.
- Message payloads and chat histories in the round-barrier generator; only rounds, queues and counters are modelled.
- The termination test of the two threads against the progress bar in the round-barrier generator; stopping earlier only removes steps, and the bar never counts more requests than were sent.
- A ready-queue policy other than random or fifo, which raises.
- UserMix.Workload.NewUser: takes it that there are at most as many round ratios as rounds, because otherwise the statistics lists are indexed past their end.
- Prompt texts and token sums in the mixed workload's statistics; the request and user counts are modelled.
- Generation of line texts, random redirect targets and few-shot examples; redirects are any targets inside the list.
- Parsing of `git` output and commit messages: what a tag reaches and which pull request a message names are given; tags are identified by their position because their names are unique.
- Trimming of white space around a query and the legacy index format on the lookup page.
- WheelIndex.LinkFilename: file names, release tags and digests are taken to be free of angle brackets and line breaks, as PEP 427 names are.
- The root index of the wheel repository and hashing of files.
- The regular-expression clean-ups around `_fix_fracs`, and sympy: number parsing and symbolic equality are arbitrary functions.
- MathEqual.NumbersMonotone: works on real numbers with infinities and not-a-number, because rounding is not the point.
- `scripts/update_pr_whl_index.py`, which has the same merge.
- GPU kernels, the serving runtime and the model gateway.
