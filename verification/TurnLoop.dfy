/**
 One turn of src/agents/inference.ts: processToolCalls and the loop of
 handleTurn. What the outside world does to each call and in each round (breaker,
 limiters, JSON parsing, hooks, tools, the provider) is an input.
 */
module TurnLoop {
  import opened Text
  import opened Streams
  import opened Transcript

  const REPEAT_ERROR_THRESHOLD: nat := 3

  /** How one call fared. `tool` is the validated name, absent before validation. */
  datatype Outcome =
    | BreakerOpen
    | SessionLimited
    | GatewayLimited
    | BadJson
    | PlanBlocked(tool: string, effectClass: string)
    | HookBlocked(tool: string, reason: string)
    | Ran(tool: string, isError: bool, content: string)
    | Threw(validated: Option<string>, message: string)
    | Denied(validated: Option<string>, message: string)

  datatype Job = Job(call: ToolCall, outcome: Outcome)

  /** What the gateway has to say, to the model or to the user. */
  datatype Notice =
    | KilledByUser
    | SessionLimitExceeded
    | GatewayLimitExceeded
    | InvalidJson(tool: string)
    | PlanModeActive(tool: string, effectClass: string)
    | VetoedByHook(tool: string, reason: string)
    | ToolDenied(message: string)
    | PlanModeIgnored(tool: string, count: nat)
    | RetryLoop(validated: Option<string>, count: nat)
    | PleaseRespond

  /** Argument clean-up, the canonical form of arguments and the wording of notices
      are parameters. */
  datatype Env = Env(sanitize: string -> string, canonical: string -> string, wording: Notice -> string)

  type Failures = map<string, nat>

  /** An attempt that counts for the retry guard, by signature. */
  datatype Attempt = Attempt(signature: string, succeeded: bool)

  // ------------------------------------------------------------ specification of a batch

  function Signature(env: Env, tool: string, call: ToolCall): string {
    tool + "|" + env.canonical(call.arguments)
  }

  /** The call as it is stored and run. */
  function Sanitized(env: Env, call: ToolCall): ToolCall {
    call.(arguments := env.sanitize(call.arguments))
  }

  function CallEntry(env: Env, jobs: seq<Job>, assistantText: string): Entry {
    Entry(Assistant, assistantText,
          Some(seq(|jobs|, i requires 0 <= i < |jobs| => Sanitized(env, jobs[i].call))), None)
  }

  function ResultEntry(job: Job, content: string): Entry {
    Entry(Tool, content, None, Some(job.call.id))
  }

  function Stub(env: Env, job: Job, notice: Notice): Entry {
    ResultEntry(job, "Error: " + env.wording(notice))
  }

  function Stubs(env: Env, jobs: seq<Job>, notice: Notice): seq<Entry> {
    seq(|jobs|, i requires 0 <= i < |jobs| => Stub(env, jobs[i], notice))
  }

  function Count(failures: Failures, signature: string): nat {
    if signature in failures then failures[signature] else 0
  }

  predicate Reached(outcome: Outcome) {
    !outcome.BreakerOpen? && !outcome.SessionLimited? && !outcome.GatewayLimited? && !outcome.BadJson?
  }

  /** Why the batch stops in front of a call that is not reached. */
  function ExitNotice(job: Job): Notice
    requires !Reached(job.outcome)
  {
    match job.outcome
    case BreakerOpen => KilledByUser
    case SessionLimited => SessionLimitExceeded
    case GatewayLimited => GatewayLimitExceeded
    case BadJson => InvalidJson(job.call.name)
  }

  /** The name in the signature: validated, else as the model wrote it. */
  function ToolName(job: Job): string
    requires Reached(job.outcome)
  {
    match job.outcome
    case PlanBlocked(tool, _) => tool
    case HookBlocked(tool, _) => tool
    case Ran(tool, _, _) => tool
    case Threw(validated, _) => if validated.Some? then validated.value else job.call.name
    case Denied(validated, _) => if validated.Some? then validated.value else job.call.name
  }

  /** The text of the call's own result. */
  function ResultText(env: Env, job: Job): string
    requires Reached(job.outcome)
  {
    match job.outcome
    case PlanBlocked(tool, effectClass) => env.wording(PlanModeActive(tool, effectClass))
    case HookBlocked(tool, reason) => "Error: " + env.wording(VetoedByHook(tool, reason))
    case Ran(_, _, content) => content
    case Threw(_, message) => "Error: " + message
    case Denied(_, message) => "Error: " + message
  }

  /** A lifecycle veto or a denial ends the batch at once, with this notice. */
  function FatalNotice(outcome: Outcome): Option<Notice> {
    match outcome
    case HookBlocked(tool, reason) => Some(VetoedByHook(tool, reason))
    case Denied(_, message) => Some(ToolDenied(message))
    case _ => None
  }

  /** The retry guard's notice. */
  function BreakNotice(outcome: Outcome, count: nat): Notice {
    match outcome
    case PlanBlocked(tool, _) => PlanModeIgnored(tool, count)
    case Ran(tool, _, _) => RetryLoop(Some(tool), count)
    case Threw(validated, _) => RetryLoop(validated, count)
    case _ => RetryLoop(None, count)
  }

  /** What one reached call does: the attempt it is, the failure counts after it,
      and the notice with which it stops the batch, if it does. */
  datatype Move = Move(attempt: Attempt, failures: Failures, stop: Option<Notice>)

  function NextMove(env: Env, job: Job, failures: Failures): Move
    requires Reached(job.outcome)
  {
    var signature := Signature(env, ToolName(job), Sanitized(env, job.call));
    var succeeded := job.outcome.Ran? && !job.outcome.isError;
    var count := Count(failures, signature) + 1;
    var attempt := Attempt(signature, succeeded);
    if FatalNotice(job.outcome).Some? then Move(attempt, failures, FatalNotice(job.outcome))
    else if succeeded then Move(attempt, failures - {signature}, None)
    else
      Move(attempt, failures[signature := count],
           if count >= REPEAT_ERROR_THRESHOLD then Some(BreakNotice(job.outcome, count)) else None)
  }

  /** Results pushed, error returned, failure counts left, attempts made. */
  datatype Batch = Batch(results: seq<Entry>, error: Option<Notice>, failures: Failures, attempts: seq<Attempt>)

  function Process(env: Env, jobs: seq<Job>, failures: Failures): Batch {
    if jobs == [] then Batch([], None, failures, [])
    else if !Reached(jobs[0].outcome) then
      Batch(Stubs(env, jobs, ExitNotice(jobs[0])), Some(ExitNotice(jobs[0])), failures, [])
    else
      var entry := ResultEntry(jobs[0], ResultText(env, jobs[0]));
      var move := NextMove(env, jobs[0], failures);
      if move.stop.Some? then
        Batch([entry] + Stubs(env, jobs[1..], move.stop.value), move.stop, move.failures, [move.attempt])
      else
        var rest := Process(env, jobs[1..], move.failures);
        Batch([entry] + rest.results, rest.error, rest.failures, [move.attempt] + rest.attempts)
  }

  /** Transcript, answer, counts and attempts when the calls from the i-th on are
      done with, starting from the given ones. */
  function Foresee(env: Env, jobs: seq<Job>, i: nat, t: seq<Entry>, failures: Failures, made: seq<Attempt>): Batch
    requires i <= |jobs|
  {
    var rest := Process(env, jobs[i..], failures);
    Batch(t + rest.results, rest.error, rest.failures, made + rest.attempts)
  }

  lemma ForeseeStep(env: Env, jobs: seq<Job>, i: nat, t: seq<Entry>, failures: Failures, made: seq<Attempt>)
    requires i < |jobs|
    ensures Foresee(env, jobs, i, t, failures, made)
         == if !Reached(jobs[i].outcome) then
              Batch(t + Stubs(env, jobs[i..], ExitNotice(jobs[i])), Some(ExitNotice(jobs[i])), failures, made)
            else
              var entry, move := ResultEntry(jobs[i], ResultText(env, jobs[i])), NextMove(env, jobs[i], failures);
              if move.stop.Some? then
                Batch(t + [entry] + Stubs(env, jobs[i + 1..], move.stop.value), move.stop, move.failures,
                      made + [move.attempt])
              else
                Foresee(env, jobs, i + 1, t + [entry], move.failures, made + [move.attempt])
  {
    assert jobs[i..][0] == jobs[i] && jobs[i..][1..] == jobs[i + 1..];
    if !Reached(jobs[i].outcome) {
      assert made + [] == made;
    } else {
      var entry, move := ResultEntry(jobs[i], ResultText(env, jobs[i])), NextMove(env, jobs[i], failures);
      if move.stop.Some? {
        assert t + ([entry] + Stubs(env, jobs[i + 1..], move.stop.value))
            == t + [entry] + Stubs(env, jobs[i + 1..], move.stop.value);
      } else {
        var rest := Process(env, jobs[i + 1..], move.failures);
        assert t + ([entry] + rest.results) == t + [entry] + rest.results;
        assert made + ([move.attempt] + rest.attempts) == made + [move.attempt] + rest.attempts;
      }
    }
  }

  // ------------------------------------------------------------ properties of a batch

  /** Whatever path the batch takes, there is one result per call, in call order,
      under the call's id. */
  lemma {:induction false} OneResultPerCall(env: Env, jobs: seq<Job>, failures: Failures)
    ensures AnswersAll(Process(env, jobs, failures).results, jobs)
    decreases |jobs|
  {
    if jobs != [] && Reached(jobs[0].outcome) {
      var move := NextMove(env, jobs[0], failures);
      if move.stop.None? {
        OneResultPerCall(env, jobs[1..], move.failures);
        AnswersCons(ResultEntry(jobs[0], ResultText(env, jobs[0])), Process(env, jobs[1..], move.failures).results, jobs);
      } else {
        AnswersCons(ResultEntry(jobs[0], ResultText(env, jobs[0])), Stubs(env, jobs[1..], move.stop.value), jobs);
      }
    }
  }

  predicate AnswersAll(results: seq<Entry>, jobs: seq<Job>) {
    && |results| == |jobs|
    && forall k :: 0 <= k < |jobs| ==>
         results[k].role == Tool && results[k].toolCallId == Some(jobs[k].call.id)
  }

  lemma AnswersCons(first: Entry, rest: seq<Entry>, jobs: seq<Job>)
    requires jobs != [] && AnswersAll(rest, jobs[1..])
    requires first.role == Tool && first.toolCallId == Some(jobs[0].call.id)
    ensures AnswersAll([first] + rest, jobs)
  {
    forall k | 0 < k < |jobs|
      ensures ([first] + rest)[k].role == Tool && ([first] + rest)[k].toolCallId == Some(jobs[k].call.id)
    {
      assert ([first] + rest)[k] == rest[k - 1] && jobs[1..][k - 1] == jobs[k];
    }
  }

  lemma BatchIsPaired(env: Env, jobs: seq<Job>, assistantText: string, failures: Failures)
    ensures WellPaired([CallEntry(env, jobs, assistantText)] + Process(env, jobs, failures).results)
  {
    OneResultPerCall(env, jobs, failures);
    AnsweredIsPaired(env, jobs, assistantText, Process(env, jobs, failures).results);
  }

  lemma AnsweredIsPaired(env: Env, jobs: seq<Job>, assistantText: string, results: seq<Entry>)
    requires AnswersAll(results, jobs)
    ensures WellPaired([CallEntry(env, jobs, assistantText)] + results)
  {
    var block := [CallEntry(env, jobs, assistantText)] + results;
    assert block[1 + |jobs|..] == [];
    assert forall k :: 0 <= k < |jobs| ==> Answers(block, k);
  }

  /** Failures of a signature since its last success. */
  function Streak(attempts: seq<Attempt>, signature: string): nat {
    if attempts == [] then 0
    else
      var last, before := attempts[|attempts| - 1], attempts[..|attempts| - 1];
      if last.signature != signature then Streak(before, signature)
      else if last.succeeded then 0
      else Streak(before, signature) + 1
  }

  /** The retry guard's counts are the streaks, and it would have stopped at three. */
  ghost predicate Tracks(failures: Failures, attempts: seq<Attempt>) {
    forall signature :: Count(failures, signature) == Streak(attempts, signature) < REPEAT_ERROR_THRESHOLD
  }

  /** Each attempt, when it was made, was at most the third failure in a row. */
  predicate Bounded(attempts: seq<Attempt>) {
    attempts == [] ||
    (&& Bounded(attempts[..|attempts| - 1])
     && Streak(attempts, attempts[|attempts| - 1].signature) <= REPEAT_ERROR_THRESHOLD)
  }

  /** So at no moment had any signature failed more than three times in a row. */
  lemma {:induction false} NeverMoreThanThree(attempts: seq<Attempt>, p: nat, signature: string)
    requires Bounded(attempts) && p <= |attempts|
    ensures Streak(attempts[..p], signature) <= REPEAT_ERROR_THRESHOLD
    decreases |attempts|, p
  {
    var front := attempts[..|attempts| - if attempts == [] then 0 else 1];
    if p < |attempts| {
      assert attempts[..p] == front[..p];
      NeverMoreThanThree(front, p, signature);
    } else if attempts != [] {
      assert attempts[..p] == attempts;
      assert front[..|front|] == front;
      NeverMoreThanThree(front, |front|, signature);
    }
  }

  lemma BoundedSnoc(attempts: seq<Attempt>, last: Attempt)
    requires Bounded(attempts) && (!last.succeeded ==> Streak(attempts, last.signature) < REPEAT_ERROR_THRESHOLD)
    ensures Bounded(attempts + [last])
  {
    StreakSnoc(attempts, last, last.signature);
    assert (attempts + [last])[..|attempts|] == attempts;
  }

  lemma StreakSnoc(attempts: seq<Attempt>, last: Attempt, signature: string)
    ensures Streak(attempts + [last], signature)
         == if last.signature != signature then Streak(attempts, signature)
            else if last.succeeded then 0 else Streak(attempts, signature) + 1
  {
    assert (attempts + [last])[..|attempts|] == attempts;
  }

  lemma MoveKeepsCount(env: Env, job: Job, failures: Failures, before: seq<Attempt>)
    requires Reached(job.outcome) && Tracks(failures, before) && Bounded(before)
    ensures var move := NextMove(env, job, failures);
            && Bounded(before + [move.attempt])
            && (move.stop.None? ==> Tracks(move.failures, before + [move.attempt]))
  {
    var move := NextMove(env, job, failures);
    assert Count(failures, move.attempt.signature) == Streak(before, move.attempt.signature);
    BoundedSnoc(before, move.attempt);
    if move.stop.None? {
      forall s ensures Count(move.failures, s) == Streak(before + [move.attempt], s) < REPEAT_ERROR_THRESHOLD {
        StreakSnoc(before, move.attempt, s);
        assert Count(failures, s) == Streak(before, s);
      }
    }
  }

  /** A batch keeps the guard's books: while it succeeds every count stays below
      the threshold, and even a failing batch ends at the third failure. */
  lemma {:induction false} BatchKeepsCount(env: Env, jobs: seq<Job>, failures: Failures, before: seq<Attempt>)
    requires Tracks(failures, before) && Bounded(before)
    ensures var batch := Process(env, jobs, failures);
            && Bounded(before + batch.attempts)
            && (batch.error.None? ==> Tracks(batch.failures, before + batch.attempts))
    decreases |jobs|
  {
    if jobs == [] || !Reached(jobs[0].outcome) {
      assert before + [] == before;
    } else {
      var move := NextMove(env, jobs[0], failures);
      MoveKeepsCount(env, jobs[0], failures, before);
      if move.stop.None? {
        BatchKeepsCount(env, jobs[1..], move.failures, before + [move.attempt]);
        ProcessUnfolds(env, jobs, failures, before);
      }
    }
  }

  lemma ProcessUnfolds(env: Env, jobs: seq<Job>, failures: Failures, before: seq<Attempt>)
    requires jobs != [] && Reached(jobs[0].outcome) && NextMove(env, jobs[0], failures).stop.None?
    ensures var move := NextMove(env, jobs[0], failures);
            var batch, rest := Process(env, jobs, failures), Process(env, jobs[1..], move.failures);
            && before + batch.attempts == before + [move.attempt] + rest.attempts
            && batch.error == rest.error && batch.failures == rest.failures
  {
    var move := NextMove(env, jobs[0], failures);
    Regroup(before, [move.attempt], Process(env, jobs[1..], move.failures).attempts);
  }

  // ------------------------------------------------------------ the rounds of a turn

  /** What the provider's turn came to. */
  datatype Reply = Failed | Answered | Empty | Calls(jobs: seq<Job>, assistantText: string)

  /** One round: the breaker, the queued input, whether a compaction threw or what
      it was given as summary, the rendered system prompt, the assistant messages the
      stream committed, and the reply. */
  datatype Round = Round(
    breakerOpen: bool,
    pending: seq<string>,
    compactionThrew: bool,
    summary: Option<string>,
    systemPrompt: string,
    committed: seq<string>,
    reply: Reply)

  datatype Limits = Limits(cost: Cost, maxTokenBudget: nat, maxIterations: nat,
                           maxTranscriptEntries: nat, canCompact: bool)

  /** The error codes the loop itself sends. */
  datatype Code = CircuitBreakerOpen | EmptyResponse | ToolBudgetExceeded | ToolError | MaxIterations

  /** How the loop was left. */
  datatype End = ByAnswer | ByError(codes: seq<Code>) | ByExhaustion

  const KILL_TOKENS: set<string> := {"--killbot", "/killbot", "--kill", "/kill"}

  /** src/agents/pending-input.ts isControlKillToken. */
  predicate IsKillToken(content: string) {
    ToLower(Trim(content)) in KILL_TOKENS
  }

  function Plain(role: Role, content: string): Entry {
    Entry(role, content, None, None)
  }

  function Plains(role: Role, contents: seq<string>): seq<Entry> {
    seq(|contents|, i requires 0 <= i < |contents| => Plain(role, contents[i]))
  }

  lemma PlainsSnoc(t: seq<Entry>, role: Role, contents: seq<string>, k: nat)
    requires k < |contents|
    ensures t + Plains(role, contents[..k]) + [Plain(role, contents[k])] == t + Plains(role, contents[..k + 1])
  {
  }

  // ------------------------------------------------------------ specification of a turn

  /** The state between two rounds: what is stored, sent and counted, and the history
      of the turn: the attempts made, the calls put through a batch, and how many
      requests had been sent when a compaction parted a call from its results. */
  datatype Flow = Flow(transcript: seq<Entry>, errors: seq<Code>, windows: seq<seq<ChatMessage>>, failures: Failures,
                       iterations: nat, totalToolCalls: nat, compacted: bool, emptyRetried: bool,
                       attempts: seq<Attempt>, processed: nat, split: Option<nat>)

  predicate AnyKill(pending: seq<string>) {
    exists k :: 0 <= k < |pending| && IsKillToken(pending[k])
  }

  /** The queued input up to the first kill token. */
  function BeforeKill(pending: seq<string>): (allowed: seq<string>)
    ensures allowed <= pending && !AnyKill(allowed)
    ensures AnyKill(pending) <==> |allowed| < |pending|
    ensures |allowed| < |pending| ==> IsKillToken(pending[|allowed|])
  {
    if pending == [] || IsKillToken(pending[0]) then []
    else [pending[0]] + BeforeKill(pending[1..])
  }

  lemma KillEndsDrain(pending: seq<string>, k: nat)
    requires k < |pending| && k <= |BeforeKill(pending)|
    ensures if IsKillToken(pending[k]) then AnyKill(pending) && BeforeKill(pending) == pending[..k]
            else k < |BeforeKill(pending)|
  {
    var allowed := BeforeKill(pending);
    assert k < |allowed| ==> allowed[k] == pending[k];
  }

  /** More than 80 percent of the budget, for the first time in the turn. */
  predicate CompactionDue(limits: Limits, s: Flow) {
    !s.compacted && 5 * Sum(limits.cost, s.transcript) > 4 * limits.maxTokenBudget && limits.canCompact
  }

  function AfterCompaction(limits: Limits, s: Flow, round: Round): Flow {
    if !CompactionDue(limits, s) then s
    else if round.compactionThrew then s.(compacted := true)
    else s.(compacted := true,
            transcript := Compacted(limits.cost, s.transcript, limits.maxTokenBudget, round.summary),
            split := if SplitsPair(limits.cost, s.transcript, limits.maxTokenBudget, round.summary)
                     then Some(|s.windows|) else s.split)
  }

  /** What the provider is sent. */
  function Request(limits: Limits, systemPrompt: string, t: seq<Entry>): seq<ChatMessage> {
    [ChatMessage(System, systemPrompt, None, None)]
    + ToMessages(History(limits.cost, t, limits.maxTokenBudget - limits.cost(systemPrompt)))
  }

  predicate Halts(round: Round) {
    round.breakerOpen || AnyKill(round.pending)
  }

  /** The checkpoint: the breaker, and the drain up to a kill token. */
  function Begun(s: Flow, round: Round): Flow {
    var counted := s.(iterations := s.iterations + 1);
    if round.breakerOpen then counted.(errors := s.errors + [CircuitBreakerOpen])
    else
      counted.(transcript := s.transcript + Plains(User, BeforeKill(round.pending)),
               errors := s.errors + if AnyKill(round.pending) then [CircuitBreakerOpen] else [])
  }

  /** Compaction, the request, and the messages the provider's stream commits. */
  function Answering(limits: Limits, s: Flow, round: Round): Flow {
    var ready := AfterCompaction(limits, s, round);
    ready.(windows := ready.windows + [Request(limits, round.systemPrompt, ready.transcript)],
           transcript := ready.transcript + Plains(Assistant, round.committed))
  }

  /** A tool-call reply: the budget, then the batch. */
  function CallsStep(env: Env, limits: Limits, s: Flow, jobs: seq<Job>, assistantText: string): (Flow, Option<End>) {
    var counted := s.(totalToolCalls := s.totalToolCalls + |jobs|);
    if counted.totalToolCalls > 5 * limits.maxIterations then
      (counted.(errors := s.errors + [ToolBudgetExceeded]), Some(ByError([ToolBudgetExceeded])))
    else
      var batch := Process(env, jobs, s.failures);
      var done := counted.(transcript := s.transcript + [CallEntry(env, jobs, assistantText)] + batch.results,
                           failures := batch.failures,
                           attempts := s.attempts + batch.attempts, processed := s.processed + |jobs|);
      if batch.error.Some? then (done.(errors := s.errors + [ToolError]), Some(ByError([ToolError])))
      else (done, None)
  }

  /** What the provider's reply leads to. */
  function ReplyStep(env: Env, limits: Limits, s: Flow, reply: Reply): (Flow, Option<End>) {
    match reply
    case Failed => (s, Some(ByError([])))
    case Answered => (s, Some(ByAnswer))
    case Empty =>
      if s.emptyRetried then (s.(errors := s.errors + [EmptyResponse]), Some(ByError([EmptyResponse])))
      else (s.(emptyRetried := true, transcript := s.transcript + [Plain(User, env.wording(PleaseRespond))]), None)
    case Calls(jobs, assistantText) => CallsStep(env, limits, s, jobs, assistantText)
  }

  /** One round; how the loop ends with it, if it does. */
  function RoundStep(env: Env, limits: Limits, s: Flow, round: Round): (Flow, Option<End>) {
    if Halts(round) then (Begun(s, round), Some(ByError([CircuitBreakerOpen])))
    else ReplyStep(env, limits, Answering(limits, Begun(s, round), round), round.reply)
  }

  type Step = Flow -> (Flow, Option<End>)

  function StepOf(env: Env, limits: Limits, rounds: nat -> Round): Step {
    (s: Flow) => RoundStep(env, limits, s, rounds(s.iterations))
  }

  /** The step says what one round does. */
  ghost predicate Implements(step: Step, env: Env, limits: Limits, rounds: nat -> Round) {
    forall s: Flow {:trigger RoundStep(env, limits, s, rounds(s.iterations))} ::
      step(s) == RoundStep(env, limits, s, rounds(s.iterations))
  }

  lemma StepImplements(env: Env, limits: Limits, rounds: nat -> Round)
    ensures Implements(StepOf(env, limits, rounds), env, limits, rounds)
  {
  }

  /** At most `fuel` rounds; None when all of them went on. */
  function Loop(step: Step, s: Flow, fuel: nat): (Flow, Option<End>)
    decreases fuel
  {
    if fuel == 0 then (s, None)
    else
      var (next, end) := step(s);
      if end.Some? then (next, end) else Loop(step, next, fuel - 1)
  }

  lemma LoopUnfolds(step: Step, s: Flow, fuel: nat)
    requires fuel > 0
    ensures Loop(step, s, fuel) == if step(s).1.Some? then step(s) else Loop(step, step(s).0, fuel - 1)
  {
  }

  /** A turn begins with the user's message and fresh counters. */
  function Opened(t: seq<Entry>, errors: seq<Code>, userContent: string): Flow {
    Flow(t + [Plain(User, userContent)], errors, [], map[], 0, 0, false, false, [], 0, None)
  }

  /** The course of a turn: its last state before the report and the trim, and how the
      loop was left. */
  function Course(env: Env, limits: Limits, t: seq<Entry>, errors: seq<Code>, userContent: string,
                  rounds: nat -> Round): (Flow, Option<End>)
  {
    Loop(StepOf(env, limits, rounds), Opened(t, errors, userContent), limits.maxIterations)
  }

  /** Errors sent so far are kept, and those added are the ones the end names. */
  predicate Reports(before: seq<Code>, after: seq<Code>, end: Option<End>) {
    && after == before + (if end.Some? && end.value.ByError? then end.value.codes else [])
    && (end.Some? ==> !end.value.ByExhaustion?)
  }

  lemma ReplyReports(env: Env, limits: Limits, s: Flow, reply: Reply)
    ensures var (next, end) := ReplyStep(env, limits, s, reply);
            Reports(s.errors, next.errors, end) && next.iterations == s.iterations
  {
    assert s.errors + [] == s.errors;
  }

  lemma BeginReports(s: Flow, round: Round)
    ensures Begun(s, round).errors == s.errors + (if Halts(round) then [CircuitBreakerOpen] else [])
    ensures Begun(s, round).iterations == s.iterations + 1
  {
  }

  lemma AnsweringReports(limits: Limits, s: Flow, round: Round)
    ensures Answering(limits, s, round).errors == s.errors && Answering(limits, s, round).iterations == s.iterations
  {
  }

  lemma RoundReports(env: Env, limits: Limits, s: Flow, round: Round)
    ensures var (next, end) := RoundStep(env, limits, s, round);
            Reports(s.errors, next.errors, end) && next.iterations == s.iterations + 1
  {
    BeginReports(s, round);
    if !Halts(round) {
      AnsweringReports(limits, Begun(s, round), round);
      ReplyReports(env, limits, Answering(limits, Begun(s, round), round), round.reply);
      assert s.errors + [] == s.errors;
    }
  }

  ghost predicate Counting(step: Step) {
    forall s: Flow :: Reports(s.errors, step(s).0.errors, step(s).1) && step(s).0.iterations == s.iterations + 1
  }

  lemma RoundsCount(env: Env, limits: Limits, rounds: nat -> Round)
    ensures Counting(StepOf(env, limits, rounds))
  {
    var step := StepOf(env, limits, rounds);
    forall s: Flow ensures Reports(s.errors, step(s).0.errors, step(s).1) && step(s).0.iterations == s.iterations + 1 {
      RoundReports(env, limits, s, rounds(s.iterations));
    }
  }

  /** The loop runs out exactly when it used up its rounds without an end. */
  lemma {:induction false} LoopReports(step: Step, s: Flow, fuel: nat)
    requires Counting(step)
    ensures var (last, end) := Loop(step, s, fuel);
            && Reports(s.errors, last.errors, end)
            && s.iterations <= last.iterations <= s.iterations + fuel
            && (end.None? ==> last.iterations == s.iterations + fuel)
    decreases fuel
  {
    if fuel == 0 {
      assert s.errors + [] == s.errors;
    } else {
      var (next, end) := step(s);
      assert Reports(s.errors, next.errors, end);
      if end.None? {
        assert next.errors == s.errors;
        LoopReports(step, next, fuel - 1);
      }
    }
  }

  /** What is reported in the end: the limit, when all rounds were used and no error
      ended the turn. */
  function Reported(limits: Limits, last: Flow, ended: Option<End>): seq<Code> {
    last.errors + if last.iterations >= limits.maxIterations && !(ended.Some? && ended.value.ByError?)
                  then [MaxIterations] else []
  }

  /** So the limit is reported when the rounds ran out, and also when the very last
      round brought the answer; every other end reports its own errors and no more. */
  lemma LimitReportedExactly(env: Env, limits: Limits, start: Flow, rounds: nat -> Round)
    requires start.iterations == 0
    ensures var (last, ended) := Loop(StepOf(env, limits, rounds), start, limits.maxIterations);
            && (ended.None? ==> last.iterations == limits.maxIterations)
            && Reported(limits, last, ended) == start.errors +
               match ended
               case None => [MaxIterations]
               case Some(ByError(codes)) => codes
               case Some(_) => if last.iterations == limits.maxIterations then [MaxIterations] else []
  {
    RoundsCount(env, limits, rounds);
    LoopReports(StepOf(env, limits, rounds), start, limits.maxIterations);
    var (last, ended) := Loop(StepOf(env, limits, rounds), start, limits.maxIterations);
    assert start.errors + [] == start.errors && last.errors + [] == last.errors;
  }

  class Session {
    const env: Env
    const limits: Limits
    var transcript: seq<Entry>
    var errors: seq<Code>
    var failures: Failures
    // the counters and flags of one turn
    var iterations: nat
    var totalToolCalls: nat
    var compactedThisTurn: bool
    var emptyRetried: bool
    // what the turn did, for its specification
    ghost var attempts: seq<Attempt>
    ghost var windows: seq<seq<ChatMessage>>
    ghost var processed: nat
    ghost var split: Option<nat>

    constructor (env: Env, limits: Limits, transcript: seq<Entry>)
      ensures this.env == env && this.limits == limits && this.transcript == transcript && errors == []
    {
      this.env, this.limits, this.transcript := env, limits, transcript;
      errors, failures, iterations, totalToolCalls := [], map[], 0, 0;
      compactedThisTurn, emptyRetried := false, false;
      attempts, windows, processed, split := [], [], 0, None;
    }

    /** src/agents/inference.ts earlyExit: one stub for each call from `fromIndex` on. */
    method PushStubs(jobs: seq<Job>, fromIndex: nat, notice: Notice)
      requires fromIndex <= |jobs|
      modifies this`transcript
      ensures transcript == old(transcript) + Stubs(env, jobs[fromIndex..], notice)
    {
      var k := fromIndex;
      while k < |jobs|
        invariant fromIndex <= k <= |jobs|
        invariant transcript == old(transcript) + Stubs(env, jobs[fromIndex..k], notice)
      {
        transcript := transcript + [Stub(env, jobs[k], notice)];
        assert jobs[fromIndex..k + 1] == jobs[fromIndex..k] + [jobs[k]];
        k := k + 1;
      }
      assert jobs[fromIndex..k] == jobs[fromIndex..];
    }

    ghost function Now(): Flow
      reads this
    {
      Flow(transcript, errors, windows, failures, iterations, totalToolCalls, compactedThisTurn, emptyRetried,
           attempts, processed, split)
    }

    /** One reached call: its result, the retry guard's count, the stop if any. */
    method RunCall(job: Job) returns (stop: Option<Notice>)
      requires Reached(job.outcome)
      modifies this`transcript, this`failures, this`attempts
      ensures var move := NextMove(env, job, old(failures));
              && transcript == old(transcript) + [ResultEntry(job, ResultText(env, job))]
              && failures == move.failures && attempts == old(attempts) + [move.attempt] && stop == move.stop
    {
      transcript := transcript + [ResultEntry(job, ResultText(env, job))];
      var signature := Signature(env, ToolName(job), Sanitized(env, job.call));
      var succeeded := job.outcome.Ran? && !job.outcome.isError;
      attempts := attempts + [Attempt(signature, succeeded)];
      stop := FatalNotice(job.outcome);
      if stop.Some? {
        return;
      }
      if succeeded {
        failures := failures - {signature};
      } else {
        var count := Count(failures, signature) + 1;
        failures := failures[signature := count];
        if count >= REPEAT_ERROR_THRESHOLD {
          stop := Some(BreakNotice(job.outcome, count));
        }
      }
    }

    ghost function Outlook(jobs: seq<Job>, i: nat): Batch
      requires i <= |jobs|
      reads this
    {
      Foresee(env, jobs, i, transcript, failures, attempts)
    }

    /** The body of the loop over the calls: the exits in front of the call, or the
        call; an early end also stubs every call behind it. */
    method HandleCall(jobs: seq<Job>, i: nat) returns (error: Option<Notice>)
      requires i < |jobs|
      modifies this`transcript, this`failures, this`attempts
      ensures old(Outlook(jobs, i))
           == if error.Some? then Batch(transcript, error, failures, attempts) else Outlook(jobs, i + 1)
    {
      var job := jobs[i];
      ForeseeStep(env, jobs, i, transcript, failures, attempts);
      if !Reached(job.outcome) {
        PushStubs(jobs, i, ExitNotice(job));
        return Some(ExitNotice(job));
      }
      error := RunCall(job);
      if error.Some? {
        PushStubs(jobs, i + 1, error.value);
      }
    }

    /** src/agents/inference.ts processToolCalls: on every path the transcript grows
        by the call entry and the results of `Process`. */
    method ProcessToolCalls(jobs: seq<Job>, assistantText: string) returns (error: Option<Notice>)
      modifies this`transcript, this`failures, this`attempts
      ensures var batch := Process(env, jobs, old(failures));
              && transcript == old(transcript) + [CallEntry(env, jobs, assistantText)] + batch.results
              && error == batch.error && failures == batch.failures
              && attempts == old(attempts) + batch.attempts
    {
      transcript := transcript + [CallEntry(env, jobs, assistantText)];
      ghost var outlook := Outlook(jobs, 0);
      assert jobs[0..] == jobs;
      for i := 0 to |jobs|
        invariant Outlook(jobs, i) == outlook
      {
        error := HandleCall(jobs, i);
        if error.Some? {
          return;
        }
      }
      error := None;
    }

    // ---------------------------------------------------------- one round

    method AppendPlain(role: Role, content: string)
      modifies this`transcript
      ensures transcript == old(transcript) + [Plain(role, content)]
    {
      transcript := transcript + [Plain(role, content)];
    }

    /** The drain of the pending-input buffer, up to a kill token. */
    method Drain(pending: seq<string>) returns (killed: bool)
      modifies this`transcript
      ensures killed == AnyKill(pending)
      ensures transcript == old(transcript) + Plains(User, BeforeKill(pending))
    {
      for k := 0 to |pending|
        invariant k <= |BeforeKill(pending)|
        invariant transcript == old(transcript) + Plains(User, pending[..k])
      {
        KillEndsDrain(pending, k);
        if IsKillToken(pending[k]) {
          return true;
        }
        PlainsSnoc(old(transcript), User, pending, k);
        AppendPlain(User, pending[k]);
      }
      assert pending[..|pending|] == pending;
      killed := false;
    }

    /** Compaction, at most once in a turn. */
    method Compact(round: Round)
      modifies this`transcript, this`compactedThisTurn, this`split
      ensures Now() == AfterCompaction(limits, old(Now()), round)
    {
      if !compactedThisTurn && 5 * Sum(limits.cost, transcript) > 4 * limits.maxTokenBudget && limits.canCompact {
        compactedThisTurn := true;
        if !round.compactionThrew {
          if SplitsPair(limits.cost, transcript, limits.maxTokenBudget, round.summary) {
            split := Some(|windows|);
          }
          transcript := CompactHistory(limits.cost, transcript, limits.maxTokenBudget, round.summary);
        }
      }
    }

    /** The context window that goes to the provider. */
    method SendWindow(systemPrompt: string)
      modifies this`windows
      ensures windows == old(windows) + [Request(limits, systemPrompt, transcript)]
    {
      var window := BuildContextWindow(limits.cost, systemPrompt, transcript, limits.maxTokenBudget);
      windows := windows + [window.messages];
    }

    /** The checkpoint at the top of the loop's body. */
    method Begin(round: Round) returns (halted: bool)
      modifies this`iterations, this`errors, this`transcript
      ensures halted == Halts(round) && Now() == Begun(old(Now()), round)
    {
      iterations := iterations + 1;
      if round.breakerOpen {
        errors := errors + [CircuitBreakerOpen];
        return true;
      }
      halted := Drain(round.pending);
      assert errors + [] == errors;
      if halted {
        errors := errors + [CircuitBreakerOpen];
      }
    }

    /** Compaction, the request, and the messages the provider's stream commits. */
    method Ask(round: Round)
      modifies this`transcript, this`compactedThisTurn, this`split, this`windows
      ensures Now() == Answering(limits, old(Now()), round)
    {
      Compact(round);
      SendWindow(round.systemPrompt);
      transcript := transcript + Plains(Assistant, round.committed);
    }

    /** What the provider's reply leads to. */
    method HandleReply(reply: Reply) returns (end: Option<End>)
      modifies this`transcript, this`failures, this`attempts, this`totalToolCalls, this`processed, this`errors
      modifies this`emptyRetried
      ensures (Now(), end) == ReplyStep(env, limits, old(Now()), reply)
    {
      match reply {
        case Failed => return Some(ByError([]));
        case Answered => return Some(ByAnswer);
        case Empty =>
          if emptyRetried {
            errors := errors + [EmptyResponse];
            return Some(ByError([EmptyResponse]));
          }
          emptyRetried := true;
          AppendPlain(User, env.wording(PleaseRespond));
          return None;
        case Calls(jobs, assistantText) =>
          end := RunCalls(jobs, assistantText);
      }
    }

    /** The body of the loop. */
    method RunRound(round: Round) returns (end: Option<End>)
      modifies this
      ensures (Now(), end) == RoundStep(env, limits, old(Now()), round)
    {
      var halted := Begin(round);
      if halted {
        return Some(ByError([CircuitBreakerOpen]));
      }
      Ask(round);
      end := HandleReply(round.reply);
    }

    method RunNext(rounds: nat -> Round, ghost step: Step) returns (end: Option<End>)
      requires Implements(step, env, limits, rounds)
      modifies this
      ensures (Now(), end) == step(old(Now())) && iterations == old(iterations) + 1
    {
      RoundReports(env, limits, Now(), rounds(iterations));
      end := RunRound(rounds(iterations));
    }

    /** The tool-call reply: the budget, then the batch. */
    method RunCalls(jobs: seq<Job>, assistantText: string) returns (end: Option<End>)
      modifies this`transcript, this`failures, this`attempts, this`totalToolCalls, this`processed, this`errors
      ensures (Now(), end) == CallsStep(env, limits, old(Now()), jobs, assistantText)
    {
      totalToolCalls := totalToolCalls + |jobs|;
      if totalToolCalls > 5 * limits.maxIterations {
        errors := errors + [ToolBudgetExceeded];
        return Some(ByError([ToolBudgetExceeded]));
      }
      var error := ProcessToolCalls(jobs, assistantText);
      processed := processed + |jobs|;
      if error.Some? {
        errors := errors + [ToolError];
        return Some(ByError([ToolError]));
      }
      return None;
    }

    // ---------------------------------------------------------- the turn

    /** The user's message, and fresh counters. */
    method Open(userContent: string)
      modifies this
      ensures Now() == Opened(old(transcript), old(errors), userContent)
    {
      transcript := transcript + [Plain(User, userContent)];
      failures, iterations, totalToolCalls := map[], 0, 0;
      compactedThisTurn, emptyRetried := false, false;
      attempts, windows, processed, split := [], [], 0, None;
    }

    /** The loop; None when the rounds ran out. */
    method RunRounds(rounds: nat -> Round, ghost step: Step) returns (ended: Option<End>)
      requires iterations == 0 && Implements(step, env, limits, rounds)
      modifies this
      ensures (Now(), ended) == Loop(step, old(Now()), limits.maxIterations)
    {
      ended := None;
      ghost var outlook := Loop(step, Now(), limits.maxIterations - iterations);
      while iterations < limits.maxIterations
        invariant iterations <= limits.maxIterations && ended.None?
        invariant Loop(step, Now(), limits.maxIterations - iterations) == outlook
        decreases limits.maxIterations - iterations
      {
        LoopUnfolds(step, Now(), limits.maxIterations - iterations);
        ended := RunNext(rounds, step);
        if ended.Some? {
          return;
        }
      }
    }

    /** The user's message and the loop. */
    method Converse(userContent: string, rounds: nat -> Round) returns (ended: Option<End>)
      modifies this
      ensures (Now(), ended) == Course(env, limits, old(transcript), old(errors), userContent, rounds)
    {
      Open(userContent);
      StepImplements(env, limits, rounds);
      ended := RunRounds(rounds, StepOf(env, limits, rounds));
    }

    /** handleTurn from the user's message to the trim. `rounds` says what happens
        in each round. All that the turn leaves, and all of its history, is that of
        the specified course; the loop's last transcript is trimmed to the limit. */
    method HandleTurn(userContent: string, rounds: nat -> Round) returns (end: End, untrimmed: seq<Entry>)
      modifies this
      ensures var (last, ended) := Course(env, limits, old(transcript), old(errors), userContent, rounds);
              && end == ended.GetOr(ByExhaustion) && untrimmed == last.transcript
              && Now() == last.(transcript := TrimTranscript(last.transcript, limits.maxTranscriptEntries),
                                errors := Reported(limits, last, ended))
    {
      var ended := Converse(userContent, rounds);
      var hadError := ended.Some? && ended.value.ByError?;
      assert errors + [] == errors;
      if iterations >= limits.maxIterations && !hadError {
        errors := errors + [MaxIterations];
      }
      end := if ended.Some? then ended.value else ByExhaustion;
      untrimmed := transcript;
      if |transcript| > limits.maxTranscriptEntries {
        transcript := TrimTranscript(transcript, limits.maxTranscriptEntries);
      }
    }
  }
}
