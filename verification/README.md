# A verified model of CrabMeat's agent gateway

CrabMeat sits between chat channels and language models. This project models the parts
of it that have to be right whatever a model, a provider or a network does, and proves
what they promise:

* **The turn.** `TurnLoop` runs one user turn: the checkpoint, the drain of queued
  input, compaction, the request, the reply and its batch of tool calls. `Transcript`
  holds the discipline that providers insist on: every assistant entry with tool calls
  is followed by one result per call, in order, and no result stands alone. The turn is
  specified by a function on its whole state and history (`Course`), the methods compute
  exactly that. `TurnStory` says from the rounds alone how a turn ends, after how many
  iterations and requests, and what it leaves in the transcript; `TurnSafety` proves what
  every course keeps: pairing, budgets and the bound on repeated failures.
* **The output filters.** `LeakFilter` and `SecretPatterns` redact secrets from a
  stream, `Redaction` shows that nothing but the matches is lost, `LeadBuffers` hold its
  beginning back until it is judged, `StreamTurn` and `Layer2` put them together the way
  the gateway does, and `StreamSafety` says what no stream of events can bring to the
  sink and the transcript.
* **The providers.** `ModelSelect` is the failover cascade, `SelectorStory` tells its
  outcome from the providers' events alone, `ArbiterBridge` is the bridge from its push
  stream to a pull generator, `OpenAiDeltas` and `OllamaReader` decode the two wire
  formats, `JsonScan` digs a JSON object out of noise.
* **The engines beside them.** `RateLimiter`, and in `LimiterStory` a limiter that
  forgets nothing and gives the same answers; `Cron` with `Calendar`; `ConfigMerge`, and
  in `MergeStory` what stands at each path; `AuditLog` and `MemoryIndex`. `Text`, `Lines`
  and `Streams` hold what several share.

What the source does step by step on mutable state is a class or a method with loops
here, and each such method is proved against a function of its inputs or of the old
state. What the source promises is then proved about these functions, for all inputs,
all runs, all chunkings and all interleavings.

The outside world is an input. A tool call's fate is an `Outcome`, a round of the turn a
`Round`, a provider's stream a sequence of events, the clock a number, token estimation
a cost per text, JSON.parse a function, the hash any injective function. Integers are
unbounded, as the source's numbers stay far from 2^53. A Dafny character stands for one
UTF-16 code unit of the source's strings.

## Where the code does not do what it or its documentation says

These are stated as lemmas, with the exact condition where there is one.

* The turn reports MAX_ITERATIONS also when the very last round brought the answer
  (`TurnLoop.LimitReportedExactly`).
* The summary branch of the compaction and the final trim cut between entries and can
  part a call from its results (`Transcript.CompactionPairing`,
  `Transcript.SummaryCanSplitAPair`, `Transcript.TrimPairing`). A limit of
  zero, or of one behind a system entry, trims nothing, because a slice from minus zero
  is the whole transcript (`Transcript.TrimMeetsLimit`).
* Window and hard truncation differ at a budget of exactly zero
  (`Transcript.WindowAgreesWithHardTruncate`).
* A refusal detected while a tool call arrives is swallowed and not flushed, as the
  comment says it is (`StreamTurn.ToolResponse`, src/agents/inference.ts:1512-1516).
* The session's own patterns, the canary of src/security/canary.ts among them, are
  checked on a text answer only. The text in front of a tool call is stored without that
  check (`StreamSafety.CallEntryHoldsExtraExactlyWhen`,
  `StreamSafety.CanaryEntersCallEntry`).
* When the serving provider breaks off after some text, the turn counts as answered
  although no message was committed and held-back text is lost
  (`StreamSafety.BrokenOffCountsAsAnswered`).
* The leak filter's guarantee is per flush: text flushed before a tool call and text
  after it can spell a secret together (`LeakFilter.FlushSeam`,
  `LeakFilter.FlushBetweenHalves`).
* A stream error after a clean lead leaves the released text in front of the user
  although the message is not handled (`Layer2.Router.Handle`).
* An error after data is swallowed by the selector, and the bridge then waits for ever
  (`ArbiterBridge.BridgeHangsExactlyWhenServerBreaksOff`).
* A sweep of the rate limiter shows in its own millisecond, exactly when lockouts grow
  and it drops a backoff of just the reset age (`RateLimiter.SweepShowsExactlyWhen`,
  `RateLimiter.SweepShowsInARun`).
* Which call is rescued from a server error depends on the order in which tool-call
  deltas arrived (`OpenAiDeltas.ChunkingIsIrrelevant`,
  `OpenAiDeltas.FirstArrivalNamesTheRescue`).
* The argument sanitizer cuts nothing behind an object that has no noise in front
  (`JsonScan.SanitizeInvertsPrint`).
* Merging is not associative where a middle layer cuts off what the lower one has
  (`ConfigMerge.MergeAssociatesExactlyWhen`,
  `ConfigMerge.DisagreementBreaksAssociativity`).
* The audit hash covers neither the tool's name nor the parameters nor the duration,
  and a ring of one entry restarts from zero (`AuditLog.UnhashedFieldsDoNotShow`,
  `AuditLog.NumbersCountRecords`).
* The first consolidation of a memory index keeps nothing of a file without the
  sentinel, and a file name with a newline can move the sentinel
  (`MemoryIndex.FirstRewriteDiscards`, `MemoryIndex.TailKeptExactlyWhen`).

## Model

| member | source | states |
|---|---|---|
| TurnLoop.OneResultPerCall | src/agents/inference.ts:1974-2358 | whatever becomes of each call (breaker, either limit, bad JSON, plan mode, hook veto, run, throw, denial), a batch of n calls leaves exactly n tool entries with the n ids in call order |
| TurnLoop.BatchIsPaired | src/agents/inference.ts:1940-1972 | call entry and results together are a paired block, on every return path |
| TurnLoop.NeverMoreThanThree | src/agents/inference.ts:2084-2102 | where every attempt was at most the third failure in a row when it was made, no call signature ever had more failures in a row |
| TurnLoop.MoveKeepsCount | src/agents/inference.ts:2084-2102 | one reached call keeps the stored count of every signature equal to its streak of failures and below three whenever the batch goes on |
| TurnLoop.BatchKeepsCount | src/agents/inference.ts:2183-2212 | the same for a whole batch, across plan-mode, returned and thrown failures |
| TurnLoop.ForeseeStep | src/agents/inference.ts:1974-2010 | the outlook of a batch from its i-th call on, by the way that call ends: stubs for itself and the rest, its result and stubs for the rest, or its result and the batch from the next call |
| TurnLoop.Session.PushStubs | src/agents/inference.ts:1964-1972 | one stub for each call from the given index on, in order |
| TurnLoop.Session.RunCall | src/agents/inference.ts:2186-2219 | a reached call pushes its own result, updates the count of its signature only, and says whether the batch stops |
| TurnLoop.Session.HandleCall | src/agents/inference.ts:1974-2356 | one step of the batch loop leaves the batch's outlook unchanged |
| TurnLoop.Session.ProcessToolCalls | src/agents/inference.ts:1913-2359 | the transcript grows by the call entry and the results of the specified batch; error, counts and attempts are the specified ones |
| TurnLoop.Session.Drain | src/agents/inference.ts:946-979 | queued input up to the first kill token becomes user entries; the kill is reported |
| TurnLoop.Session.Compact | src/agents/inference.ts:983-1026 | compaction at most once in a turn, above 80 percent of the budget; it is noted when its summary parts a call from its results |
| TurnLoop.Session.SendWindow | src/agents/inference.ts:1112-1123 | the request is the context window of the current transcript |
| TurnLoop.Session.Begin | src/agents/inference.ts:921-979 | the checkpoint: the breaker or a kill token ends the turn with its error, else the queue is in the transcript |
| TurnLoop.Session.HandleReply | src/agents/inference.ts:1179-1275 | the state and the end after each kind of reply are those of the specified step; which replies end the turn, and how, is `TurnStory.FirstEndDecides` |
| TurnLoop.Session.RunCalls | src/agents/inference.ts:1217-1275 | the call budget is checked before the batch runs; within it the batch's whole effect is the specified one |
| TurnLoop.Session.RunRound | src/agents/inference.ts:920-1276 | one pass through the loop is exactly the specified step, its history included |
| TurnLoop.Session.RunRounds | src/agents/inference.ts:920-1276 | the loop runs the specified steps until one ends it or the iterations are used up |
| TurnLoop.Session.HandleTurn | src/agents/inference.ts:887-1294 | a whole turn: its end, its whole final state and its history (requests, attempts, calls, split) are those of the specified course, with the transcript trimmed and MAX_ITERATIONS reported; what that course is, from the rounds alone, is told by the rows of `TurnStory` below |
| TurnStory.TurnEndsExactlyWhen | src/agents/inference.ts:920-1284 | a turn ends by an answer, a failed reply, a second empty reply, a call over the budget of five per iteration, a batch that a call stopped, or a breaker or kill token, each if and only if the first round that does not go on is of that kind; it runs out of iterations if and only if every round goes on |
| TurnStory.FirstEndDecides | src/agents/inference.ts:920-1276 | the first round that does not go on is the last: its number gives iterations and requests, its kind the end and the error sent; every request shows the reference transcript, and the final transcript is what the rounds wrote |
| TurnStory.RunsOutWhenAllGoOn | src/agents/inference.ts:1278-1284 | if every round goes on, all iterations and as many requests are used and the transcript is what all rounds wrote |
| TurnStory.BatchFailsExactlyWhen | src/agents/inference.ts:2084-2212 | a batch fails exactly when one of its calls stops it: a breaker, a limit, bad JSON, a veto, a denial, or the third failure in a row of its signature over the whole turn |
| TurnStory.BatchTells | src/agents/inference.ts:1940-2356 | each call that was made has a result with its own output, block or error text; from the call that stopped the batch on the others have a stub with the reason |
| TurnStory.KillTokensAre | src/agents/pending-input.ts:124-128 | kill tokens are the four words, blanks around them and the case of letters set aside |
| TurnLoop.RoundReports | src/agents/inference.ts:920-1276 | a round counts once and sends just the errors its end names |
| TurnLoop.LimitReportedExactly | src/agents/inference.ts:1278-1284 | MAX_ITERATIONS is sent exactly when all iterations were used and no error ended the turn, which includes an answer in the last one |
| TurnSafety.RoundKeepsPairs | src/agents/inference.ts:920-1276 | a round keeps the transcript paired, with all requests so far, until a compaction splits a pair; a split stays |
| TurnSafety.RoundKeepsCounts | src/agents/inference.ts:1217-1275 | a round keeps the call budget and the bound on failures, however it ends, and the retry counts whenever the loop goes on |
| TurnSafety.TurnKeepsPairing | src/agents/inference.ts:887-1294 | over a whole turn from a paired transcript: the transcript it builds is paired if and only if no compaction of the turn parted a call from its results, and every request sent before such a compaction is paired |
| TurnSafety.TurnLeavesPaired | src/agents/inference.ts:1287-1294 | without such a compaction the trimmed transcript is paired exactly unless the trim's own cut is in front of a tool result |
| TurnSafety.TurnStaysInBudget | src/agents/inference.ts:1217-1232 | a turn has at most maxToolIterations iterations, no more requests than iterations, and puts at most five times as many calls through its batches |
| TurnSafety.RetriesStopAtThree | src/agents/inference.ts:2084-2102 | at no moment of a turn has any call signature failed more than three times without a success in between |
| TurnSafety.TurnOnlyAppends | src/agents/inference.ts:887-1026 | a turn without compaction only appends to what it was given and the user's message |
| Transcript.PairedAppend | src/agents/inference.ts:1948-1952 | paired transcripts stay paired when appended |
| Transcript.SuffixPaired | src/agents/context.ts:131-132 | a suffix of a paired transcript is paired exactly when it does not begin with a tool result |
| Transcript.CollectUnit | src/agents/context.ts:172-194 | a unit is one entry, or a call entry with all tool entries right behind it, with the sum of their costs |
| Transcript.GroupTranscriptUnits | src/agents/context.ts:169-197 | the grouping loop computes the specified units |
| Transcript.UnitsPartition | src/agents/context.ts:164-168 | the units from any one on, flattened, are the transcript from that unit's start on, and their costs add up to its cost |
| Transcript.UnitShape | src/agents/context.ts:172-194 | a unit is one entry, or a call entry with all tool entries right behind it |
| Transcript.StartIsPaired | src/agents/context.ts:131-133 | in a paired transcript no unit begins with a tool result |
| Transcript.KeptIsLongest | src/agents/context.ts:135-149 | the kept units fit the budget and no longer suffix of units does |
| Transcript.BuildContextWindow | src/agents/context.ts:78-155 | the messages are the prompt and the history of the longest suffix of units within the remaining budget; the total and the truncation flag are right |
| Transcript.WindowIsSound | src/agents/context.ts:125-155 | for a paired transcript: paired messages, total within the budget when the pinned part fits, a suffix of the transcript, flag up exactly when an entry is missing |
| Transcript.KeptIsLongestPaired | src/agents/compaction.ts:230-251 | of a paired transcript exactly the longest paired suffix within the budget is kept, entry by entry |
| Transcript.HistoryIsLongestPaired | src/agents/context.ts:125-155 | the same for the history in a window; a budget that is used up leaves none |
| Transcript.MessagesSayTheSame | src/agents/context.ts:203-230 | each message has its entry's role and content, the calls of an assistant entry and the call id of a result |
| Transcript.HardTruncate | src/agents/compaction.ts:230-251 | the loop keeps the longest suffix of units within the budget |
| Transcript.HardTruncateKeepsPairing | src/agents/compaction.ts:223-229 | hard truncation leaves a paired suffix |
| Transcript.WindowAgreesWithHardTruncate | src/agents/compaction.ts:234-244 | window and hard truncation keep the same entries for a budget, except at a budget of zero with a last unit that costs nothing |
| Transcript.SplitIndex | src/agents/compaction.ts:84-95 | the split loop finds the split that the lemma below describes |
| Transcript.SplitMeetsBudget | src/agents/compaction.ts:79-95 | the entries from the split on fit the budget left beside the summary, and one more entry would not |
| Transcript.SummaryPairing | src/agents/compaction.ts:102-103 | the summary branch keeps pairing exactly when the first kept entry is not a tool result |
| Transcript.CompactHistory | src/agents/compaction.ts:49-204 | the four results of compaction: unchanged when it fits or nothing precedes the split, truncated without a summary, else the summary and the kept entries |
| Transcript.CompactionTells | src/agents/compaction.ts:49-204 | a transcript within the budget stays; of any other the entries behind the cut stay, with 15 percent of the budget and at most 500 tokens set aside for the summary in front, or it is truncated when there is no summary |
| Transcript.CompactionPairing | src/agents/compaction.ts:49-204 | compaction keeps pairing exactly unless its summary splits a pair |
| Transcript.CompactionMeetsBudget | src/agents/compaction.ts:49-251 | the compacted transcript is within the budget exactly unless the summary entry takes more than the kept entries leave |
| Transcript.SummaryCanSplitAPair | src/agents/compaction.ts:79-103 | a transcript of one call over the budget is split between call and result exactly when the result alone fits beside a summary |
| Transcript.TrimMeetsLimit | src/sessions/transcript.ts:25-38 | a longer transcript comes out with exactly the limit's length, but a limit of zero, or of one behind a system entry, trims nothing |
| Transcript.TrimKeepsTheLatest | src/sessions/transcript.ts:25-38 | the latest entries are left in order; a system entry in front stays there and takes a place |
| Transcript.TrimPairing | src/sessions/transcript.ts:25-38 | for every limit, the trim keeps pairing exactly when it trims nothing or its cut is not in front of a tool result |
| LeakFilter.DetectLeaks | src/security/sanitize.ts:139-158 | every leftmost non-overlapping match of every pattern is found, so the list is empty exactly when nothing matches |
| LeakFilter.RedactLeaks | src/security/sanitize.ts:167-185 | the patterns are replaced one after the other, each everywhere; what is left is told by `Redaction.RedactMasks` |
| LeakFilter.RedactRemoves | src/security/sanitize.ts:172-181 | one pass leaves no match of any guarded pattern: later replacements cannot bring an earlier pattern back |
| LeakFilter.RedactKeepsWindow | src/security/sanitize.ts:178-181 | any stretch of the output without brackets that the replacement's word does not spell stood in the input |
| Redaction.ShapeMatches | src/security/sanitize.ts:35-70 | a fixed shape matches where each class holds its character, and then takes every further character of its tail class |
| Redaction.CustomMatches | src/security/sanitize.ts:52-67 | any other pattern matches where its own matcher says, within the text |
| Redaction.ReplaceMasks | src/security/sanitize.ts:178-181 | there are ascending, disjoint matches with no other match beginning between them, and the output is the text between them in order with the mark in place of each |
| Redaction.RedactMasks | src/security/sanitize.ts:167-185 | a text is the redaction of another if and only if it comes from it by masking the matches of each pattern in turn |
| Redaction.HitsAreStarts | src/security/sanitize.ts:139-158 | the detections of a pattern are the starts of just these matches |
| LeakFilter.StreamingLeakBuffer.Feed | src/security/sanitize.ts:215-238 | all but the last 80 characters of the cleaned buffer are emitted, the rest is held; nothing else is lost by `Redaction.FeedLosesNothing` |
| LeakFilter.StreamingLeakBuffer.Flush | src/security/sanitize.ts:241-246 | the cleaned rest is emitted and nothing is held; what a whole stream loses is told by `Redaction.StreamLosesOnlyMatches` |
| Redaction.FeedLosesNothing | src/security/sanitize.ts:215-238 | a feed delivers and holds the buffered text and the chunk with their matches masked, nothing less and nothing more; at most the last 80 characters are held |
| Redaction.StreamLosesOnlyMatches | src/security/sanitize.ts:201-247 | however it is cut into chunks, a stream is delivered whole and in order but for stretches that were matches of some pattern, each with the mark in its place |
| LeakFilter.CleanedSeam | src/security/sanitize.ts:215-238 | replacing held text and chunk by their cleaned form behind the emitted text creates no match, wherever the chunk was cut |
| LeakFilter.NothingGuardedEscapes | src/security/sanitize.ts:201-247 | for every chunking of every text nothing delivered holds a match of a guarded pattern, across chunk, overlap and replacement seams |
| LeakFilter.CleanStreamUnchanged | src/security/sanitize.ts:229-246 | a text no stretch of which sets any pattern off is delivered unchanged, whatever its chunks |
| LeakFilter.ShapesAreLocal | src/security/sanitize.ts:35-70 | with fixed shapes only, a text is clean in all its stretches exactly when it is clean as a whole |
| LeakFilter.FlushSeam | src/security/sanitize.ts:240-246 | two flushed streams can spell a match together exactly where a window straddles the flush |
| LeakFilter.FlushBetweenHalves | src/security/sanitize.ts:240-246 | two harmless halves that fit the overlap come out joined |
| SecretPatterns.NoTableRowEscapes | src/security/sanitize.ts:35-70 | with the gateway's own table no row of a fixed shape reaches the sink, for every chunking |
| SecretPatterns.AnthropicKey | src/security/sanitize.ts:44 | the row's minimal match has a fixed shape without brackets that the overlap covers |
| SecretPatterns.GithubToken | src/security/sanitize.ts:49 | likewise for the server-to-server and refresh tokens |
| SecretPatterns.PrivateKey | src/security/sanitize.ts:68 | likewise for each kind of private-key header |
| SecretPatterns.OpenAiKeyIs | src/security/sanitize.ts:45 | the row's minimal matches are just the texts that the regular expression spells |
| SecretPatterns.PrivateKeyIs | src/security/sanitize.ts:68 | each alternative of the row is one fixed text |
| SecretPatterns.NoKeysDelivered | src/security/sanitize.ts:44-45 | no stretch of what a filter with these rows delivers, however the stream was cut, is an Anthropic or an OpenAI key as the expressions spell them |
| SecretPatterns.NoGithubTokensDelivered | src/security/sanitize.ts:46-49 | likewise for the GitHub tokens |
| SecretPatterns.NoOtherTokensDelivered | src/security/sanitize.ts:50-69 | likewise for the Slack tokens and AWS access keys |
| SecretPatterns.NoTagsDelivered | src/security/sanitize.ts:36-38 | likewise for capability ids and the two tags |
| SecretPatterns.NoKeyHeadersDelivered | src/security/sanitize.ts:68 | likewise for the five private-key headers |
| LeadBuffers.LeadBuffer.Feed | src/agents/refusal-detect.ts:225-242 | nothing before the lead is full, then the whole lead or nothing, then every chunk or nothing |
| LeadBuffers.LeadBuffer.Decide | src/agents/layer2/escalation.ts:100-112 | the decision is made once, on what is held, and a clean lead is handed out |
| LeadBuffers.AfterChunks | src/agents/refusal-detect.ts:225-261 | state and forwarded text after any chunks, by whether the lead has filled and what the detector said of it |
| LeadBuffers.AllOrNothing | src/agents/layer2/escalation.ts:44-61 | the forwarded text is the whole stream or nothing, and the detector's answer on the lead says which |
| LeadBuffers.LeadIsEnough | src/agents/refusal-detect.ts:230-233 | the decision sees a prefix of at least leadBytes characters, or all of the stream |
| LeadBuffers.LeadIsFewestChunks | src/agents/refusal-detect.ts:225-242 | the decision is made on the fewest chunks that together hold leadBytes characters |
| LeadBuffers.VerdictStands | src/agents/refusal-detect.ts:251-261 | a verdict survives every further chunk and forced decision |
| LeadBuffers.BlankEscalates | src/agents/layer2/escalation.ts:26-31 | a blank lead always escalates |
| LeadBuffers.EscalatesExactlyWhen | src/agents/layer2/escalation.ts:22-42 | a response escalates exactly when, trimmed, it is shorter than five characters or holds a marker in any case of letters; the first such marker of the list is named |
| Text.TrimTakesBlanks | src/agents/layer2/escalation.ts:26 | trimming takes blanks away at both ends and stops at the first other characters |
| Layer2.Router.OnEvent | src/agents/layer2/router.ts:95-107 | after each event the sink shows the badge and what the lead buffer has released, and nothing else |
| Layer2.Router.Stream | src/agents/layer2/router.ts:86-111 | after the stream the sink shows all of the response or nothing, by the lead's verdict |
| Layer2.Router.DecideLead | src/agents/layer2/router.ts:132-140 | the forced decision releases a short clean response and keeps an escalated one back |
| Layer2.Router.Handle | src/agents/layer2/router.ts:32-182 | exactly when a message is handled and when it escalates; a handled one sent badge and response and added two entries, an escalated one sent nothing; a stream error after a clean lead is the only other way to leave text |
| Layer2.BlankResponseIsSilent | src/agents/layer2/router.ts:114 | a blank response never shows anything, however long it is |
| Layer2.FailsExactlyWhen | src/agents/layer2/router.ts:95-114 | a stream fails exactly when the call throws, some event is an error, or the text of its tokens is blank |
| Layer2.JudgedExactlyWhen | src/agents/layer2/router.ts:132-140 | the verdict is about the start of the response, of at least 200 characters or all of it, and escalates exactly for fewer than five characters or a marker in it |
| StreamTurn.Turn.OnEvent | src/agents/inference.ts:1476-1759 | each event's whole effect on buffers, sink, answer, reroute flag and transcript; done is sent with each committed message and an error with each error event |
| StreamTurn.SettledText | src/agents/inference.ts:1533-1577 | when the buffers settle the sink has the whole filtered stream or, on a refusal, nothing |
| StreamTurn.TextResponse | src/agents/inference.ts:1533-1645 | a text answer: what the sink got, when it counts as empty, when it is rerouted, and the one message the transcript gets |
| StreamTurn.ToolResponse | src/agents/inference.ts:1502-1531 | the assistant text of the call entry is what the sink got; a refusal is swallowed without a reroute |
| StreamTurn.FailedResponse | src/agents/inference.ts:1738-1759 | a response that fails behind its text: what was sent stays and nothing is committed |
| StreamSafety.NoSecretReachesSinkOrTranscript | src/agents/inference.ts:1476-1759 | for every stream with no text after a flush, however it ends or breaks off, no guarded pattern, however cut into tokens, is in what the sink was sent, in a message the transcript keeps, or in the assistant text of a call entry |
| StreamSafety.NoExtraPatternInMessages | src/agents/inference.ts:1629-1643 | whatever the events, no message that a text answer commits holds a guarded extra pattern of the session |
| StreamSafety.CallEntryHoldsExtraExactlyWhen | src/agents/inference.ts:1502-1531 | a call entry holds a guarded extra pattern exactly when the filtered stream does and was not swallowed as a refusal |
| StreamSafety.CanaryEntersCallEntry | src/security/canary.ts:37-43 | every text that a pattern of the session matches gets into the transcript that way |
| StreamSafety.CommitsExactlyWhen | src/agents/inference.ts:1533-1645 | a text turn commits its one message exactly when the stream came to its end and the text was neither blank nor refused |
| StreamSafety.BrokenOffCountsAsAnswered | src/agents/model-select.ts:175-191 | behind the selector, a stream that breaks off after some text ends as an answered turn with nothing committed and a prefix of the text sent |
| RateLimiter.RateLimiter.Check | src/security/rate-limiter.ts:59-98 | the answer and the key's new entry are the specified ones, other keys are untouched; what these answers are, from the key's history alone, is `LimiterStory.HistoryDecides` |
| RateLimiter.RateLimiter.GetRemaining | src/security/rate-limiter.ts:101-109 | the number left, zero during a lockout |
| RateLimiter.RateLimiter.Cleanup | src/security/rate-limiter.ts:112-135 | each entry is kept, pruned or deleted as specified, in whatever order the keys come |
| RateLimiter.CheckEffect | src/security/rate-limiter.ts:59-98 | a check admits exactly when no lockout lasts and the window has room; it adds its own admission to the recent ones and nothing else |
| RateLimiter.SweepAlike | src/security/rate-limiter.ts:116-129 | what a sweep leaves, even nothing, cannot be told from what it found, at its own instant exactly unless lockouts grow and it drops a backoff of just the reset age, and from the next instant on in any case |
| RateLimiter.SweepIsUnobservable | src/security/rate-limiter.ts:111-135 | a run with sweeps inserted anywhere gives the same answers and lockouts as the run without them, if the clock moves on after a sweep that drops such a backoff |
| RateLimiter.SweepShowsExactlyWhen | src/security/rate-limiter.ts:116-129 | some checks or peeks from a sweep's instant on are answered differently exactly when it drops such a backoff of some key, for a window of positive length |
| RateLimiter.SweepShowsInARun | src/security/rate-limiter.ts:123-125 | whenever lockouts grow and the reset age is neither below the window nor below the first lockout, a run from the empty limiter where the sweep shows |
| RateLimiter.ReachableIsDated | src/security/rate-limiter.ts:59-98 | over every run each lockout carries a start that is not in the future |
| RateLimiter.RemembersRecent | src/security/rate-limiter.ts:83-85 | every admission still in the window is remembered, over every run |
| RateLimiter.AtMostMaxPerWindow | src/security/rate-limiter.ts:83-97 | over every run no key is admitted more than maxAttempts times in any half-open window of windowMs |
| RateLimiter.LockoutsGrowUpToCap | src/security/rate-limiter.ts:49-53 | lockouts do not shrink with their number and never exceed the cap when backoff is on |
| RateLimiter.NothingAdmittedWhileLocked | src/security/rate-limiter.ts:80-81 | while a lockout lasts no sequence of operations admits its key or changes its entry |
| RateLimiter.DenialLocksOut | src/security/rate-limiter.ts:80-94 | after a denial that meets no lockout nothing is admitted until the lockout it starts is over; its length in figures is `LimiterStory.DenialLasts` |
| LimiterStory.DenialLasts | src/security/rate-limiter.ts:49-94 | a denial that meets no lockout, as the k-th in a row, locks the key until lockoutMs later without backoff, and with it until lockoutMs times the multiplier to the power k - 1 later, at most maxLockoutMs, for every k |
| LimiterStory.NothingAdmittedThatLong | src/security/rate-limiter.ts:80-94 | for just so long no sequence of operations, sweeps included, lets the key in |
| LimiterStory.HistoryDecides | src/security/rate-limiter.ts:49-109 | over every run of checks and peeks the answers are those of a limiter that keeps all admissions and lockouts for ever: a check is admitted exactly when no lockout lasts and fewer than maxAttempts admissions are younger than windowMs, a denial is until the end of the lockout it meets or starts, a peek gives the attempts left |
| LimiterStory.SweptHistoryDecides | src/security/rate-limiter.ts:49-135 | and so with sweeps anywhere in the run, as far as they cannot show |
| RateLimiter.RemainingIsExact | src/security/rate-limiter.ts:100-109 | of any number of checks at that instant exactly as many succeed as `remaining` says, for a window of positive length as the configuration demands |
| ModelSelect.SortProvidersByPriority | src/agents/model-select.ts:70-81 | the two bucket loops compute the specified order |
| ModelSelect.SortIsStablePartition | src/agents/model-select.ts:65-81 | the order is a permutation, stable within each bucket, with the favoured bucket first |
| ModelSelect.ChainMembers | src/agents/model-select.ts:104-108 | the chain has exactly the providers that are not tagged uncensored |
| ModelSelect.ModelSelector.CheckAvailable | src/agents/model-select.ts:110-118 | a provider is available without a cooldown or past it, and an expired cooldown is dropped |
| ModelSelect.ModelSelector.FilterAvailable | src/agents/model-select.ts:159 | the available providers in chain order, and just the expired cooldowns dropped |
| ModelSelect.ModelSelector.Stream | src/agents/model-select.ts:175-189 | all but errors is passed on; the last error is remembered |
| ModelSelect.ModelSelector.TryProvider | src/agents/model-select.ts:170-275 | one provider: served, stopped by a model-level error, cascaded, or marked down; which of these, from its events alone, is told by `SelectorStory` |
| ModelSelect.ModelSelector.TryStream | src/agents/model-select.ts:155-276 | what a call forwards, how many providers it tries and which cooldowns it leaves are the specified ones; from the events alone they are told by `SelectorStory` |
| ModelSelect.ModelSelector.TryStreamWithProvider | src/agents/model-select.ts:288-329 | the named provider's events as they are; unknown or cooling ones give one error; any error that is not model-level, a cascadable one too, marks it down |
| ModelSelect.OneErrorOrOneProvider | src/agents/model-select.ts:150-276 | a caller gets one error and nothing else, or no error and all data of one provider, the first in the chain that gave any |
| SelectorStory.PassesAndPutsDown | src/agents/model-select.ts:193-238 | the cascade goes past a provider exactly when it gave no data and was silent or its last error is cascadable or not model-level; it is put down exactly when it gave no data and was silent or its last error is neither |
| SelectorStory.CascadeIsOver | src/agents/model-select.ts:155-276 | if any provider is available, a call is over with exactly one; if none is, one error that is not to be retried comes |
| SelectorStory.CascadeDecides | src/agents/model-select.ts:155-276 | the call tries the providers up to that one and gives its data, or its last error, or for silence one retryable error |
| SelectorStory.CascadePutsDown | src/agents/model-select.ts:212-238 | it sets a cooldown of thirty seconds for each provider up to there that it put down, a silent one always, and touches no other |
| SelectorStory.NamedIsPutDown | src/agents/model-select.ts:288-329 | a named provider is put down exactly when some error that is not model-level came; an unknown or cooling one is not opened; no other cooldown is touched |
| SelectorStory.DataIsPassedOn | src/agents/model-select.ts:175-189 | each event but an error is passed on, in order |
| ModelSelect.ErrorExactlyWhenAllFail | src/agents/model-select.ts:155-276 | an error comes through exactly when none was available or the cascade fails at some provider |
| ModelSelect.CooldownExactly | src/agents/model-select.ts:212-235 | a provider's cooldown is set exactly when it was tried, gave only errors and the last was neither cascadable nor model-level |
| ModelSelect.AvailableExactly | src/agents/model-select.ts:110-118 | a provider is offered exactly when it is in the chain and not cooling |
| ModelSelect.CoolingLasts | src/agents/model-select.ts:110-128 | whatever calls of either kind follow, none that begins before a provider's cooldown is over opens a stream of it or touches the cooldown |
| ModelSelect.NotRetriedWhileCooling | src/agents/model-select.ts:102-128 | a provider that a call marked down is tried by none of the calls that begin within thirty seconds, and is on offer after them exactly from then on |
| SelectorStory.OnlyConsultedArePutDown | src/agents/model-select.ts:155-329 | a call sets no cooldown of a provider whose stream it does not open |
| ArbiterBridge.Bridge.OnEvent | src/agents/arbiter-bridge.ts:41-53 | the callback's atomic step |
| ArbiterBridge.Bridge.Step | src/agents/arbiter-bridge.ts:56-68 | the generator's run up to its next suspension |
| ArbiterBridge.OnlyTheParkedIsWoken | src/agents/arbiter-bridge.ts:29-33 | an event wakes the generator when it is parked and changes nothing else about where it is |
| ArbiterBridge.NoTokenLostNoWakeupLost | src/agents/arbiter-bridge.ts:20-69 | in every interleaving: yielded tokens and queue are the tokens produced; a parked generator is registered, with an empty queue and not done; it ends or throws only after the end |
| ArbiterBridge.AllTokensYielded | src/agents/arbiter-bridge.ts:56-61 | past its loop the generator has yielded every token once, in order |
| ArbiterBridge.EndsIffTerminal | src/agents/arbiter-bridge.ts:56-68 | once the stream is over the generator ends if and only if a terminal event came; if none did it has delivered every token and waits for ever |
| ArbiterBridge.BridgeHangsExactlyWhenServerBreaksOff | src/agents/arbiter-bridge.ts:34-65 | behind the selector it hangs exactly when the serving provider gives data and no done event |
| OpenAiDeltas.OpenAiStream.Accumulate | src/agents/providers/openai.ts:165-184 | one delta: the entry of its index is begun, or given its first id, its first name and more arguments |
| OpenAiDeltas.OpenAiStream.AccumulateAll | src/agents/providers/openai.ts:165-184 | the table holds, for each index seen, the call its deltas mean, in the order of first arrival |
| OpenAiDeltas.OpenAiStream.TakeChunk | src/agents/providers/openai.ts:115-185 | one chunk: its text is passed on and kept, its deltas gathered |
| OpenAiDeltas.OpenAiStream.Flush | src/agents/providers/openai.ts:204-217 | one tool_call event in ascending index order if anything is pending, and the table emptied |
| OpenAiDeltas.OpenAiStream.Stream | src/agents/providers/openai.ts:115-257 | the events of a call, for every stream and every fault |
| OpenAiDeltas.InterleavingIsIrrelevant | src/agents/providers/openai.ts:159-184 | two interleavings with the same deltas for each index flush the same calls |
| OpenAiDeltas.ChunkingIsIrrelevant | src/agents/providers/openai.ts:115-257 | whole streams with the same text and per-index deltas end in the same events, closed or broken, exactly unless a call is rescued and would get another name |
| OpenAiDeltas.FirstArrivalNamesTheRescue | src/agents/providers/openai.ts:292-297 | of two calls under way the one that arrived first names the rescued call |
| OpenAiDeltas.SentIsFlushed | src/agents/providers/openai.ts:159-216 | calls spelled under the indices from zero on, id and name on any of their deltas and repeated or not, come out whole and in order from every interleaving |
| OpenAiDeltas.DoneRepeatsTheTokens | src/agents/providers/openai.ts:118-257 | one terminal event, last; the done text is what the tokens spelled; failure exactly when a fault cannot be rescued, and then no tool calls |
| OpenAiDeltas.TokensSpellTheChunks | src/agents/providers/openai.ts:115-157 | the tokens spell just what the chunks say, none of them empty, whatever else comes and however the stream ends |
| OpenAiDeltas.BestMatch | src/agents/providers/openai.ts:299-320 | the tool sharing most parameter names, the first of equals, none when none shares any |
| OpenAiDeltas.HitsAreShared | src/agents/providers/openai.ts:307-311 | a tool's score is the number of its parameters among the object's keys |
| OpenAiDeltas.OpenAiStream.RescueToolCall | src/agents/providers/openai.ts:269-323 | the rescued call, or none, by status, message, JSON and name |
| OpenAiDeltas.StreamedNameIs | src/agents/providers/openai.ts:292-297 | the name streamed first is the first that a delta of the call that arrived first says; none as long as none does |
| OpenAiDeltas.RefusedCallIsRescued | src/agents/providers/openai.ts:263-323 | a call refused for the noise around its arguments is made with exactly the printed object, under the name streamed first, else that of the tool sharing most parameters, else not at all |
| OllamaReader.OllamaStream.HandleLine | src/agents/providers/ollama.ts:223-285 | one line: skipped, error and stop, or text and tool calls taken |
| OllamaReader.OllamaStream.DrainLines | src/agents/providers/ollama.ts:294-302 | all complete lines of the buffer are handled and the rest is kept |
| OllamaReader.OllamaStream.ReadBody | src/agents/providers/ollama.ts:288-304 | after any chunks, what the complete lines of their concatenation lead to |
| OllamaReader.OllamaStream.Stream | src/agents/providers/ollama.ts:195-329 | the events depend on the concatenated body only: non-blank trimmed lines, the trailing one included, up to the first error |
| OllamaReader.OneTerminalEventLast | src/agents/providers/ollama.ts:195-329 | each call ends with exactly one terminal event, last; a tool_call event only right before done |
| OllamaReader.DoneTextIsTheTokens | src/agents/providers/ollama.ts:242-244 | the full text of done is the concatenation of the tokens |
| OllamaReader.FailsExactlyWhen | src/agents/providers/ollama.ts:195-313 | a call fails exactly when no body came, the connection broke, or a line that was read reports an error or cannot be used |
| OllamaReader.SoundBodyTells | src/agents/providers/ollama.ts:223-329 | if every line is sound: a token for each text, then all calls of all lines in order with name, arguments and id in one event if there are any, then done; or the error of a broken connection |
| OllamaReader.FatalLineTells | src/agents/providers/ollama.ts:223-313 | a line with an error ends the call with it behind the texts before it, and no call is reported |
| OllamaReader.WorthyPiece | src/agents/providers/ollama.ts:295-300 | a piece between newlines is a line unless it is blank, without the blanks around it |
| OllamaReader.CutBodyShowsAPrefix | src/agents/providers/ollama.ts:288-313 | wherever the connection breaks the user has seen a prefix of what the whole body shows |
| OllamaReader.CallIdsAreDistinct | src/agents/providers/ollama.ts:251-263 | the made-up ids of one reply differ, whatever the clock says |
| Lines.SplitInverts | src/agents/providers/ollama.ts:295-297 | splitting at newlines is inverted by joining, and no piece holds a newline |
| Lines.SplitAppend | src/agents/providers/ollama.ts:293-298 | text that arrives later extends only the last piece |
| JsonScan.ScanObject | src/agents/providers/openai.ts:329-351 | the scanner loop finds where the outermost brace closes, if it does |
| JsonScan.ExtractJsonObject | src/agents/providers/openai.ts:325-351 | the first balanced object, or none |
| JsonScan.ExtractInvertsPrint | src/agents/providers/openai.ts:324-351 | out of noise without an opening brace and any tail, exactly the printed object comes out, despite braces, quotes and escapes in its strings |
| JsonScan.SanitizeToolArguments | src/agents/inference.ts:303-355 | trimmed, isolated, kept if it parses, else with its bare backslashes turned |
| JsonScan.ArgumentsParseOrAreRescued | src/agents/inference.ts:303-355 | what a call gets as its arguments parses or has no bare backslash; an object with nothing in front is untouched as long as it parses |
| JsonScan.RescueTurnsBare | src/agents/inference.ts:347-355 | the rescue turns exactly the backslashes behind no other and in front of no quote, backslash, slash or u, and leaves none |
| JsonScan.SanitizeInvertsPrint | src/agents/inference.ts:303-331 | the sanitizer gives the printed object exactly when there is noise in front or nothing but space behind |
| Calendar.YearLength | src/scheduler/cron.ts:145-150 | a year has 365 or 366 days, by the leap rule of ECMA-262, section 21.4.1 |
| Calendar.DateRoundTrip | src/scheduler/cron.ts:148-150 | a day built from year, month and date has that year, month and date |
| Calendar.DayRoundTrip | src/scheduler/cron.ts:148-150 | and every day is built from its own |
| Calendar.DateRecurs | src/scheduler/cron.ts:166-175 | every date but the 29th of February recurs within 366 days |
| Calendar.MonthLengths | src/scheduler/cron.ts:145-150 | the months have 31, 28 or 29, 31, 30, ... days |
| Calendar.WeekDaysFollow | src/scheduler/cron.ts:150 | day zero is 1 January 1970, a Thursday, and each next day is the next week day |
| Calendar.WeekDayOfDate | src/scheduler/cron.ts:150 | hence a closed formula for the week day of a date from year, month and date |
| Cron.ParseField | src/scheduler/cron.ts:38-107 | the field's parts give the specified values or the specified error, range check included |
| Cron.AllValuesUnion | src/scheduler/cron.ts:41-97 | a field's parts parse together or not at all, and then they denote the union of their values |
| Cron.FieldParsesExactlyWhen | src/scheduler/cron.ts:38-107 | a field parses exactly when each part does and denotes values within the field's bounds only, and then it denotes what its parts do; sound parts out of bounds give the range error |
| Cron.FirstWrongPartDecides | src/scheduler/cron.ts:41-97 | otherwise the error is that of the first part that has one |
| Cron.ProgressionMembers | src/scheduler/cron.ts:71-73 | a stepped range holds exactly the terms of its progression |
| Cron.PartDenotes | src/scheduler/cron.ts:41-97 | what a wildcard, a stepped wildcard, a range, a stepped range and a single value denote, and when each is refused |
| Cron.ParsedFieldIsUsable | src/scheduler/cron.ts:99-106 | a parsed field is not empty and stays within its bounds |
| Cron.ParseCron | src/scheduler/cron.ts:123-140 | an expression parses exactly when it has five fields and each of them does, into the values of the five; otherwise the error is that of the count or of the first field that fails |
| Cron.NextCronMatch | src/scheduler/cron.ts:169-184 | the least matching minute strictly after the argument's own, none only if none of the next 366 days' minutes matches |
| Cron.MatchesExactlyWhen | src/scheduler/cron.ts:145-155 | a minute matches exactly when its minute, hour, date, month and week day, the latter by the formula, are among the field's values |
| Cron.EveryMinuteHasDate | src/scheduler/cron.ts:148-150 | every minute is one of a valid date and time |
| Cron.WeeklyMatches | src/scheduler/cron.ts:150 | a schedule for one week day matches just on the dates whose week day by the formula it is |
| Cron.WeeklyIsFoundInAWeek | src/scheduler/cron.ts:169-184 | and its next time is within a week of every moment |
| Cron.CommonDateIsFound | src/scheduler/cron.ts:165-184 | with every week day admitted, a listed date of every year is found from every moment |
| Cron.NeverNullIffCommonDate | src/scheduler/cron.ts:165-184 | with every week day admitted the search never fails if and only if some listed date exists in a common year |
| ConfigMerge.DeduplicateById | src/config/loader.ts:199-217 | the loop with its index of ids computes the specified array |
| ConfigMerge.DedupMeaning | src/config/loader.ts:195-198 | each id once, at its first position with its last item, and all items without id in order |
| MergeStory.DedupKeeps | src/config/loader.ts:199-217 | no item without an id is lost, and of each id the last item stays |
| ConfigMerge.DedupIdempotent | src/config/loader.ts:195-217 | deduplicating twice changes nothing more |
| ConfigMerge.DedupLaw | src/config/loader.ts:181-184 | it does not matter which part of a concatenation is deduplicated first |
| ConfigMerge.NoTraceExactlyWhen | src/config/loader.ts:199-217 | an array in front of another leaves no trace in their union exactly when all its items have ids and the other begins with these ids in this order |
| ConfigMerge.DeepMerge | src/config/loader.ts:172-193 | the loop over the keys computes the specified merge |
| MergeStory.MergedField | src/config/loader.ts:172-193 | each field of a merged object, by what the two layers have under its key |
| MergeStory.UpperValueStands | src/config/loader.ts:185-191 | at every path a value of the upper layer that is no object and no extended array stands |
| MergeStory.UpperArrayExtends | src/config/loader.ts:181-184 | an array of the seven extended keys is put behind the lower layer's and deduplicated |
| MergeStory.LowerValueStands | src/config/loader.ts:172-193 | where the upper layer is silent the lower one's value stands, unless the upper one puts an object over something else on the way |
| ConfigMerge.HiddenExactlyWhen | src/config/loader.ts:172-193 | an object leaves no trace under another exactly when the other has all its keys, hides what is nested in it and begins its extended arrays with the same ids |
| ConfigMerge.MergeAssociatesExactlyWhen | src/config/loader.ts:172-193 | three layers merge to the same value from either end if and only if at no path a middle value of another kind cuts off an array or object of the lower layer that the upper one would not hide |
| ConfigMerge.MergeAssociative | src/config/loader.ts:172-193 | so it does on layers that agree on the kind of value at each path |
| ConfigMerge.DisagreementBreaksAssociativity | src/config/loader.ts:185-189 | three layers where it does not |
| ConfigMerge.EmptyLayer | src/config/loader.ts:296 | the empty layer changes nothing from above, and from below only repeated ids of extended arrays |
| ConfigMerge.LoadCascade | src/config/loader.ts:288-299 | the layers are merged in order; none at all is an error |
| ConfigMerge.CascadeIsRightFold | src/config/loader.ts:295-299 | on agreeing layers it does not matter from which end the cascade is folded |
| AuditLog.Audit.Record | src/security/audit.ts:191-208 | rotation, number, link and hash of the new entry |
| AuditLog.Audit.Verify | src/security/audit.ts:251-265 | valid exactly when every link and hash is right, else the number of the first entry that is not |
| AuditLog.HashedFields | src/security/audit.ts:108-128 | the ten hashed fields, and no others, decide the hash |
| AuditLog.ReachableVerifies | src/security/audit.ts:191-265 | every log that recording can reach verifies and counts without a gap |
| AuditLog.HoldsTheLatest | src/security/audit.ts:191-208 | the ring holds exactly the latest calls, as many as fit, in order and masked |
| AuditLog.BeginsAtGenesis | src/security/audit.ts:193-199 | until an entry has been rotated out the log begins with number zero and the genesis link |
| AuditLog.NumbersCountRecords | src/security/audit.ts:193-199 | the latest number counts all records exactly when the ring has room for two or nothing was rotated out |
| AuditLog.NoSecretInLog | src/security/audit.ts:130-142 | no text parameter in a reachable log holds a match of a guarded pattern |
| AuditLog.LastHashDeterminesLog | src/security/audit.ts:251-265 | two verifying logs of one length and the same last hash agree on each of the ten hashed fields of every entry |
| AuditLog.ReplacementShows | src/security/audit.ts:251-265 | a replaced entry is reported at its place, or at its successor when resealed; it passes exactly when nothing hashed changed or the last entry was sealed anew |
| AuditLog.SingleFieldShows | src/security/audit.ts:251-265 | altering any of the ten hashed fields and not the hash, or the hash alone, makes verification fail at that entry |
| AuditLog.UnhashedFieldsDoNotShow | src/security/audit.ts:108-128 | name, parameters and duration can be rewritten without a trace |
| AuditLog.RemovalShows | src/security/audit.ts:251-265 | removing entries shows exactly when something is left on both sides of the gap |
| MemoryIndex.RunConsolidator | src/memory/cortexdream.ts:208-233 | the new file is the generated part, the sentinel and the old tail |
| MemoryIndex.Describe | src/memory/memdir.ts:76-83 | the description is the first non-blank line, cut at 160 characters |
| MemoryIndex.DescriptionIs | src/memory/memdir.ts:76-85 | it is just the first line that is not blank, cut at 160 characters; there is none when all lines are blank or reading failed |
| MemoryIndex.ScanMemdir | src/memory/memdir.ts:62-97 | one header for each visible markdown file that can be read, in order |
| MemoryIndex.ScanTells | src/memory/memdir.ts:63-94 | one entry after the other, a regular file whose name ends in .md, does not begin with a dot and is not that of the index has a header with its name, date, size and description |
| MemoryIndex.ScanGivesOneLiners | src/memory/memdir.ts:76-95 | dates and descriptions of scanned headers hold no newline |
| MemoryIndex.RowLines | src/memory/memdir.ts:169-176 | a row has the mark on a line of its own exactly when its key holds a sentinel |
| MemoryIndex.RowReads | src/memory/memdir.ts:169-175 | a row names the file, the first ten characters of its date, its size and its description if it has one |
| MemoryIndex.ManifestReads | src/memory/memdir.ts:169-176 | the manifest is the rows, one on a line |
| MemoryIndex.BodyContains | src/memory/cortexdream.ts:213-219 | the generated part holds a sentinel exactly when some key does |
| MemoryIndex.FirstSentinel | src/memory/cortexdream.ts:224-232 | no sentinel straddles the seam: the one written is the first unless the generated part holds one |
| MemoryIndex.TailKeptExactlyWhen | src/memory/cortexdream.ts:221-232 | a rewrite keeps the user's tail exactly when no key holds a sentinel |
| MemoryIndex.TailSurvivesAllRuns | src/memory/cortexdream.ts:221-232 | any number of rewrites keeps the tail as long as no key contains a newline, and above it stands what the last one generated |
| MemoryIndex.RewriteIsIdempotent | src/memory/cortexdream.ts:196-207 | rewriting again with the same headers and time changes nothing, under the same condition |
| MemoryIndex.FirstRewriteDiscards | src/memory/cortexdream.ts:224-230 | of a file without a sentinel nothing is kept |
| MemoryIndex.NewlineKeyBreaksTail | src/memory/memdir.ts:88-89 | keys that break the tail exist |

## Left out

* A veto of the before_turn hook, session resumption and the reroute to a fallback
  provider after a refusal. The fallback's tokens do not pass the leak filter; nothing
  is claimed about them.
* Lifecycle hooks, sinks, the audit log and the persistence of a session are taken not
  to throw in the middle of a turn. The audit, status and cost events are not modelled.
* The limiters, the breaker and the validation that decide a call's outcome: the turn
  loop takes the outcome as given, whatever it is.
* That the latest user message is in the window. The loop does not see to it.
* The wording of the turn's notices to the model and the user is a parameter; which
  notice is given, and about what, is modelled. The errors of the failover code keep
  their kind only.
* Whether an API error is the one about unparsable tool calls is an input of the
  OpenAI stream, as its status and phrase are not modelled.
* Text normalization before matching, and the rescan of base64: a stream is taken as
  already normalized, the rescan is one more free matcher. The JWT, password,
  environment and connection-string patterns have no bounded minimal match and are free
  matchers, so `LeakFilter.NothingGuardedEscapes` does not speak about them.
* The word boundary, greediness beyond a row's tail class and other internals of regular
  expressions: a fixed shape is matched by its minimal form and extended by its tail.
* A provider whose id itself spells a model-level error: the message about its empty
  stream, which holds the id, is taken as not model-level.
* Refusal detection itself, and the configuration that arms it: the detector is any
  function of the lead.
* Layer 2's health check and its message building; the check's answer is an input.
* Splitting a cron field into parts, the shortcuts such as @daily, local time and
  daylight saving: fields arrive split, time is UTC.
* Reading, parsing and validating configuration files, and the secrets taken from the
  environment. A configuration key named `__proto__` is taken as any other, while the
  source's assignment would set the prototype.
* Lower-casing of letters outside ASCII: kill tokens and escalation markers are looked
  for with ASCII letters folded only.
* The JSON grammar's number syntax: a literal is any run of literal characters, so
  every number is one. Deep signature canonicalization is a parameter.
* Token usage, reasoning text and diagnostics of the two providers, message and tool
  conversion, and the classification of their errors, which are inputs.
* Decoding bytes to text: the Ollama reader's chunks arrive decoded. Should an exception
  strike in the middle of a line's tool calls, the calls taken so far are dropped with
  the line; they cannot be observed.
* Persistence of the audit log, its snapshot and its status. The hash is injective by
  assumption.
* Sorting scanned memory files by time and keeping the newest 200: what is proved about
  the index holds for every list of headers. The atomic write is not modelled.
* Concurrency of turns: one turn runs at a time, as the session lock of the source has it.
