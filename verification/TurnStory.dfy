/**
 What a turn comes to, told from its rounds alone: which round ends it and how, what
 each call's result says, and what stands in the transcript.
 */
module TurnStory {
  import opened Text
  import opened Streams
  import opened Transcript
  import opened TurnLoop

  /** The kill tokens are four words, blanks around them and the case of letters aside. */
  lemma KillTokensAre(content: string)
    ensures IsKillToken(content) <==>
            || IsWord(Trim(content), "--killbot") || IsWord(Trim(content), "/killbot")
            || IsWord(Trim(content), "--kill") || IsWord(Trim(content), "/kill")
  {
    var trimmed := Trim(content);
    WordIsLower(trimmed, "--killbot");
    WordIsLower(trimmed, "/killbot");
    WordIsLower(trimmed, "--kill");
    WordIsLower(trimmed, "/kill");
  }

  predicate IsWord(s: string, word: string) {
    |s| == |word| && AlikeAt(s, word, 0)
  }

  lemma WordIsLower(s: string, word: string)
    requires forall k :: 0 <= k < |word| ==> !('A' <= word[k] <= 'Z')
    ensures IsWord(s, word) <==> ToLower(s) == word
  {
    assert ToLower(word) == word;
    if |s| == |word| {
      LowerIsAlike(s, word);
    }
  }

  // ------------------------------------------------------------ the calls of a turn

  function JobsIn(round: Round): seq<Job> {
    if round.reply.Calls? then round.reply.jobs else []
  }

  /** The calls of the first `n` rounds, in order. */
  function JobsBefore(rounds: nat -> Round, n: nat): seq<Job> {
    if n == 0 then [] else JobsBefore(rounds, n - 1) + JobsIn(rounds(n - 1))
  }

  /** The empty replies among the first `n` rounds. */
  function EmptiesBefore(rounds: nat -> Round, n: nat): nat {
    if n == 0 then 0 else EmptiesBefore(rounds, n - 1) + if rounds(n - 1).reply.Empty? then 1 else 0
  }

  /** The name under which the retry guard knows a call, and the arguments it compares. */
  function TagOf(env: Env, job: Job): string {
    var name := match job.outcome
      case PlanBlocked(tool, _) => tool
      case HookBlocked(tool, _) => tool
      case Ran(tool, _, _) => tool
      case Threw(validated, _) => validated.GetOr(job.call.name)
      case Denied(validated, _) => validated.GetOr(job.call.name)
      case _ => job.call.name;
    name + "|" + env.canonical(env.sanitize(job.call.arguments))
  }

  predicate Succeeded(job: Job) {
    job.outcome.Ran? && !job.outcome.isError
  }

  /** How often a call with this tag has failed since it last succeeded. */
  function InARow(env: Env, jobs: seq<Job>, tag: string): nat {
    if jobs == [] then 0
    else
      var last, before := jobs[|jobs| - 1], jobs[..|jobs| - 1];
      if TagOf(env, last) != tag then InARow(env, before, tag)
      else if Succeeded(last) then 0
      else InARow(env, before, tag) + 1
  }

  /** The k-th call stops its batch: it is not reached, is vetoed or denied, or fails
      for the third time in a row. */
  predicate StopsAt(env: Env, jobs: seq<Job>, k: nat)
    requires k < |jobs|
  {
    match jobs[k].outcome
    case BreakerOpen => true
    case SessionLimited => true
    case GatewayLimited => true
    case BadJson => true
    case HookBlocked(_, _) => true
    case Denied(_, _) => true
    case _ => !Succeeded(jobs[k]) && InARow(env, jobs[..k + 1], TagOf(env, jobs[k])) >= 3
  }

  /** None of the calls from the i-th on stops a batch. */
  predicate NoStop(env: Env, jobs: seq<Job>, i: nat) {
    forall k :: i <= k < |jobs| ==> !StopsAt(env, jobs, k)
  }

  ghost predicate Tracking(env: Env, failures: Failures, done: seq<Job>) {
    forall tag :: Count(failures, tag) == InARow(env, done, tag)
  }

  lemma InARowSnoc(env: Env, jobs: seq<Job>, last: Job, tag: string)
    ensures InARow(env, jobs + [last], tag)
         == if TagOf(env, last) != tag then InARow(env, jobs, tag)
            else if Succeeded(last) then 0 else InARow(env, jobs, tag) + 1
  {
    assert (jobs + [last])[..|jobs|] == jobs;
  }

  lemma TagIsSignature(env: Env, job: Job)
    requires Reached(job.outcome)
    ensures Signature(env, ToolName(job), Sanitized(env, job.call)) == TagOf(env, job)
  {
  }

  lemma MoveTracks(env: Env, done: seq<Job>, job: Job, failures: Failures)
    requires Reached(job.outcome) && Tracking(env, failures, done)
    ensures var move := NextMove(env, job, failures);
            && (move.stop.Some? <==> StopsAt(env, done + [job], |done|))
            && (move.stop.None? ==> Tracking(env, move.failures, done + [job]))
  {
    var all, tag := done + [job], TagOf(env, job);
    TagIsSignature(env, job);
    InARowSnoc(env, done, job, tag);
    assert all[..|done| + 1] == all && all[|done|] == job;
    assert Count(failures, tag) == InARow(env, done, tag);
    if NextMove(env, job, failures).stop.None? {
      forall other ensures Count(NextMove(env, job, failures).failures, other) == InARow(env, all, other) {
        InARowSnoc(env, done, job, other);
        assert Count(failures, other) == InARow(env, done, other);
      }
    }
  }

  lemma StopsAtPrefix(env: Env, a: seq<Job>, b: seq<Job>, k: nat)
    requires k < |a|
    ensures StopsAt(env, a + b, k) <==> StopsAt(env, a, k)
  {
    assert (a + b)[..k + 1] == a[..k + 1];
  }

  /** A batch succeeds exactly when none of its calls stops it, seen behind all calls
      of the turn before it. */
  lemma {:induction false} BatchFailsExactlyWhen(env: Env, done: seq<Job>, jobs: seq<Job>, failures: Failures)
    requires Tracking(env, failures, done)
    ensures var batch := Process(env, jobs, failures);
            && (batch.error.None? <==> NoStop(env, done + jobs, |done|))
            && (batch.error.None? ==> Tracking(env, batch.failures, done + jobs))
    decreases |jobs|
  {
    if jobs == [] {
      assert done + jobs == done;
    } else {
      var job, rest := jobs[0], jobs[1..];
      Regroup(done, [job], rest);
      assert jobs == [job] + rest;
      StopsAtPrefix(env, done + [job], rest, |done|);
      assert (done + jobs)[|done|] == job;
      if Reached(job.outcome) {
        MoveTracks(env, done, job, failures);
        if NextMove(env, job, failures).stop.None? {
          BatchFailsExactlyWhen(env, done + [job], rest, NextMove(env, job, failures).failures);
        }
      }
    }
  }

  // ------------------------------------------------------------ what the results say

  /** The entry is the result of the call, with what its own fate has to say. */
  predicate TellsOwn(env: Env, job: Job, entry: Entry) {
    && entry.role == Tool && entry.toolCalls == None && entry.toolCallId == Some(job.call.id)
    && match job.outcome
       case Ran(_, _, content) => entry.content == content
       case PlanBlocked(tool, effectClass) => entry.content == env.wording(PlanModeActive(tool, effectClass))
       case HookBlocked(tool, reason) => entry.content == "Error: " + env.wording(VetoedByHook(tool, reason))
       case Threw(_, message) => entry.content == "Error: " + message
       case Denied(_, message) => entry.content == "Error: " + message
       case _ => false
  }

  /** The entry stands in for the result of a call that was not made. */
  predicate TellsStub(env: Env, job: Job, entry: Entry, notice: Notice) {
    && entry.role == Tool && entry.toolCalls == None && entry.toolCallId == Some(job.call.id)
    && entry.content == "Error: " + env.wording(notice)
  }

  /** Why the batch stopped at its k-th call. */
  predicate Explains(env: Env, jobs: seq<Job>, k: nat, notice: Notice)
    requires k < |jobs|
  {
    var count := InARow(env, jobs[..k + 1], TagOf(env, jobs[k]));
    match jobs[k].outcome
    case BreakerOpen => notice == KilledByUser
    case SessionLimited => notice == SessionLimitExceeded
    case GatewayLimited => notice == GatewayLimitExceeded
    case BadJson => notice == InvalidJson(jobs[k].call.name)
    case HookBlocked(tool, reason) => notice == VetoedByHook(tool, reason)
    case Denied(_, message) => notice == ToolDenied(message)
    case PlanBlocked(tool, _) => notice == PlanModeIgnored(tool, count)
    case Ran(tool, _, _) => notice == RetryLoop(Some(tool), count)
    case Threw(validated, _) => notice == RetryLoop(validated, count)
  }

  /** The result of the k-th call of a batch whose first `stop` calls went through and
      whose next, if there is one, stopped it. */
  predicate ResultTells(env: Env, jobs: seq<Job>, k: nat, stop: nat, entry: Entry, error: Option<Notice>)
    requires k < |jobs|
  {
    if k < stop || (k == stop && !Unreached(jobs[k])) then TellsOwn(env, jobs[k], entry)
    else error.Some? && TellsStub(env, jobs[k], entry, error.value)
  }

  predicate Unreached(job: Job) {
    match job.outcome
    case BreakerOpen => true
    case SessionLimited => true
    case GatewayLimited => true
    case BadJson => true
    case _ => false
  }

  lemma OwnResultTells(env: Env, job: Job)
    requires Reached(job.outcome)
    ensures TellsOwn(env, job, ResultEntry(job, ResultText(env, job)))
  {
  }

  lemma StopIsExplained(env: Env, done: seq<Job>, job: Job, failures: Failures)
    requires Tracking(env, failures, done)
    ensures !Reached(job.outcome) ==> Explains(env, done + [job], |done|, ExitNotice(job))
    ensures Reached(job.outcome) && NextMove(env, job, failures).stop.Some? ==>
              Explains(env, done + [job], |done|, NextMove(env, job, failures).stop.value)
  {
    var all := done + [job];
    assert all[..|done| + 1] == all && all[|done|] == job;
    if Reached(job.outcome) {
      TagIsSignature(env, job);
      InARowSnoc(env, done, job, TagOf(env, job));
      assert Count(failures, TagOf(env, job)) == InARow(env, done, TagOf(env, job));
    }
  }

  lemma ExplainsPrefix(env: Env, a: seq<Job>, b: seq<Job>, k: nat, notice: Notice)
    requires k < |a|
    ensures Explains(env, a + b, k, notice) <==> Explains(env, a, k, notice)
  {
    assert (a + b)[..k + 1] == a[..k + 1];
  }

  /** The results of a batch: each call that was made has its own result, and from the
      call that stopped the batch on every other has a stub that gives the reason. */
  lemma {:induction false} BatchTells(env: Env, done: seq<Job>, jobs: seq<Job>, failures: Failures, stop: nat)
    requires Tracking(env, failures, done) && stop <= |jobs|
    requires NoStop(env, done + jobs[..stop], |done|)
    requires stop < |jobs| ==> StopsAt(env, done + jobs, |done| + stop)
    ensures var batch := Process(env, jobs, failures);
            && |batch.results| == |jobs|
            && (stop == |jobs| <==> batch.error.None?)
            && (stop < |jobs| ==> batch.error.Some? && Explains(env, done + jobs, |done| + stop, batch.error.value))
            && forall k :: 0 <= k < |jobs| ==> ResultTells(env, jobs, k, stop, batch.results[k], batch.error)
    decreases |jobs|
  {
    if jobs != [] {
      var job, rest := jobs[0], jobs[1..];
      if stop == 0 {
        FirstCallStops(env, done, jobs, failures);
        FirstStopIsExplained(env, done, jobs, failures);
      } else {
        FirstCallBehind(env, done, jobs, stop);
        MoveTracks(env, done, job, failures);
        BatchTells(env, done + [job], rest, NextMove(env, job, failures).failures, stop - 1);
        FirstCallPasses(env, jobs, failures, stop);
      }
    }
  }

  lemma FirstCallBehind(env: Env, done: seq<Job>, jobs: seq<Job>, stop: nat)
    requires 0 < stop <= |jobs| && NoStop(env, done + jobs[..stop], |done|)
    ensures var job, rest := jobs[0], jobs[1..];
            && Reached(job.outcome) && !StopsAt(env, done + [job], |done|)
            && done + jobs == (done + [job]) + rest
            && NoStop(env, (done + [job]) + rest[..stop - 1], |done| + 1)
  {
    var job, rest := jobs[0], jobs[1..];
    assert done + jobs[..stop] == (done + [job]) + rest[..stop - 1];
    assert !StopsAt(env, done + jobs[..stop], |done|);
    StopsAtPrefix(env, done + [job], rest[..stop - 1], |done|);
  }

  lemma FirstStopIsExplained(env: Env, done: seq<Job>, jobs: seq<Job>, failures: Failures)
    requires jobs != [] && Tracking(env, failures, done) && StopsAt(env, done + jobs, |done|)
    ensures Process(env, jobs, failures).error.Some?
    ensures Explains(env, done + jobs, |done|, Process(env, jobs, failures).error.value)
  {
    var job, rest := jobs[0], jobs[1..];
    assert done + jobs == (done + [job]) + rest;
    StopsAtPrefix(env, done + [job], rest, |done|);
    StopIsExplained(env, done, job, failures);
    if Reached(job.outcome) {
      MoveTracks(env, done, job, failures);
      ExplainsPrefix(env, done + [job], rest, |done|, NextMove(env, job, failures).stop.value);
    } else {
      ExplainsPrefix(env, done + [job], rest, |done|, ExitNotice(job));
    }
  }

  lemma FirstCallStops(env: Env, done: seq<Job>, jobs: seq<Job>, failures: Failures)
    requires jobs != [] && Tracking(env, failures, done) && StopsAt(env, done + jobs, |done|)
    ensures var batch, job := Process(env, jobs, failures), jobs[0];
            && |batch.results| == |jobs| && batch.error.Some?
            && batch.error == (if Reached(job.outcome) then NextMove(env, job, failures).stop else Some(ExitNotice(job)))
            && forall k :: 0 <= k < |jobs| ==> ResultTells(env, jobs, k, 0, batch.results[k], batch.error)
  {
    var job := jobs[0];
    assert done + jobs == (done + [job]) + jobs[1..];
    StopsAtPrefix(env, done + [job], jobs[1..], |done|);
    if Reached(job.outcome) {
      MoveTracks(env, done, job, failures);
      OwnResultTells(env, job);
    }
  }

  lemma FirstCallPasses(env: Env, jobs: seq<Job>, failures: Failures, stop: nat)
    requires jobs != [] && Reached(jobs[0].outcome) && NextMove(env, jobs[0], failures).stop.None? && stop > 0
    requires var rest := Process(env, jobs[1..], NextMove(env, jobs[0], failures).failures);
             && |rest.results| == |jobs| - 1
             && forall k :: 0 <= k < |jobs| - 1 ==>
                  ResultTells(env, jobs[1..], k, stop - 1, rest.results[k], rest.error)
    ensures var batch := Process(env, jobs, failures);
            && |batch.results| == |jobs|
            && forall k :: 0 <= k < |jobs| ==> ResultTells(env, jobs, k, stop, batch.results[k], batch.error)
  {
    var batch := Process(env, jobs, failures);
    var rest := Process(env, jobs[1..], NextMove(env, jobs[0], failures).failures);
    OwnResultTells(env, jobs[0]);
    forall k | 0 <= k < |jobs| ensures ResultTells(env, jobs, k, stop, batch.results[k], batch.error) {
      if k > 0 {
        assert ResultTells(env, jobs[1..], k - 1, stop - 1, rest.results[k - 1], rest.error);
        assert batch.results[k] == rest.results[k - 1] && jobs[1..][k - 1] == jobs[k];
      }
    }
  }

  // ------------------------------------------------------------ what the transcript holds

  function UserEntries(contents: seq<string>): seq<Entry> {
    seq(|contents|, i requires 0 <= i < |contents| => Entry(User, contents[i], None, None))
  }

  function AssistantEntries(contents: seq<string>): seq<Entry> {
    seq(|contents|, i requires 0 <= i < |contents| => Entry(Assistant, contents[i], None, None))
  }

  /** The assistant entry of a batch. */
  function CallsEntry(env: Env, jobs: seq<Job>, assistantText: string): Entry {
    Entry(Assistant, assistantText, Some(CallsOf(env, jobs)), None)
  }

  function CallsOf(env: Env, jobs: seq<Job>): seq<ToolCall> {
    seq(|jobs|, i requires 0 <= i < |jobs| =>
      ToolCall(jobs[i].call.id, jobs[i].call.name, env.sanitize(jobs[i].call.arguments)))
  }

  /** The results of the n-th round's batch, which come behind those of all earlier
      calls of the turn. */
  function ResultsIn(env: Env, rounds: nat -> Round, n: nat): seq<Entry> {
    var before, all := JobsBefore(rounds, n), JobsBefore(rounds, n + 1);
    var results := Process(env, all, map[]).results;
    if |before| <= |results| then results[|before|..] else []
  }

  /** What the n-th round's reply adds behind the messages of the stream. */
  function ReplyEntries(env: Env, rounds: nat -> Round, n: nat): seq<Entry> {
    match rounds(n).reply
    case Calls(jobs, assistantText) => [CallsEntry(env, jobs, assistantText)] + ResultsIn(env, rounds, n)
    case Empty => [Entry(User, env.wording(PleaseRespond), None, None)]
    case _ => []
  }

  datatype Turn = Turn(env: Env, limits: Limits, opening: seq<Entry>, rounds: nat -> Round)

  /** The transcript after the first `n` rounds, all of which went on. */
  function Written(turn: Turn, n: nat): seq<Entry>
    decreases n, 2
  {
    if n == 0 then turn.opening
    else Asked(turn, n - 1) + AssistantEntries(turn.rounds(n - 1).committed) + ReplyEntries(turn.env, turn.rounds, n - 1)
  }

  /** With the queued input of the n-th round. */
  function Heard(turn: Turn, n: nat): seq<Entry>
    decreases n, 3
  {
    Written(turn, n) + UserEntries(turn.rounds(n).pending)
  }

  /** More than 80 percent of the budget. */
  predicate Full(turn: Turn, n: nat)
    decreases n, 4
  {
    5 * Sum(turn.limits.cost, Heard(turn, n)) > 4 * turn.limits.maxTokenBudget
  }

  /** The n-th round is the one that compacts. */
  predicate Compacts(turn: Turn, n: nat)
    decreases n, 5
  {
    turn.limits.canCompact && Full(turn, n) && forall m :: 0 <= m < n ==> !Full(turn, m)
  }

  /** What the n-th round's request is made from. */
  function Asked(turn: Turn, n: nat): seq<Entry>
    decreases n, 6
  {
    var round := turn.rounds(n);
    if Compacts(turn, n) && !round.compactionThrew
    then Compacted(turn.limits.cost, Heard(turn, n), turn.limits.maxTokenBudget, round.summary)
    else Heard(turn, n)
  }

  /** One of the first `n` rounds found the transcript that full. */
  predicate FullBefore(turn: Turn, n: nat) {
    exists m :: 0 <= m < n && Full(turn, m)
  }

  lemma FullBeforeNext(turn: Turn, n: nat)
    ensures FullBefore(turn, n + 1) <==> FullBefore(turn, n) || Full(turn, n)
  {
    if m :| 0 <= m < n && Full(turn, m) {
      assert 0 <= m < n + 1;
    }
  }

  /** The request itself: the prompt and the history that fits beside it. */
  function Sent(turn: Turn, n: nat): seq<ChatMessage> {
    var cost, prompt := turn.limits.cost, turn.rounds(n).systemPrompt;
    [ChatMessage(System, prompt, None, None)]
    + ToMessages(History(cost, Asked(turn, n), turn.limits.maxTokenBudget - cost(prompt)))
  }

  // ------------------------------------------------------------ how the rounds go on

  predicate Halted(round: Round) {
    round.breakerOpen || exists k :: 0 <= k < |round.pending| && IsKillToken(round.pending[k])
  }

  /** The round does not end the turn: its first empty reply, or a batch within the
      budget that no call stops. */
  predicate GoesOn(turn: Turn, n: nat) {
    var round, before, all := turn.rounds(n), JobsBefore(turn.rounds, n), JobsBefore(turn.rounds, n + 1);
    && !Halted(round)
    && (round.reply.Calls? || round.reply.Empty?)
    && (round.reply.Empty? ==> EmptiesBefore(turn.rounds, n) == 0)
    && (round.reply.Calls? ==> |all| <= 5 * turn.limits.maxIterations && NoStop(turn.env, all, |before|))
  }

  /** The n-th round is the first that ends the turn. */
  predicate EndsAt(turn: Turn, n: nat) {
    n < turn.limits.maxIterations && !GoesOn(turn, n) && forall m :: 0 <= m < n ==> GoesOn(turn, m)
  }

  /** Counters and flags after `n` rounds that went on. */
  ghost predicate Counts(turn: Turn, s: Flow, n: nat) {
    && s.iterations == n && |s.windows| == n
    && s.totalToolCalls == |JobsBefore(turn.rounds, n)|
    && (s.emptyRetried <==> EmptiesBefore(turn.rounds, n) > 0)
    && Tracking(turn.env, s.failures, JobsBefore(turn.rounds, n))
    && NoStop(turn.env, JobsBefore(turn.rounds, n), 0)
  }

  /** Transcript and requests after `n` rounds that went on. */
  ghost predicate Texts(turn: Turn, s: Flow, n: nat) {
    && s.transcript == Written(turn, n) && |s.windows| == n
    && (s.compacted <==> turn.limits.canCompact && FullBefore(turn, n))
    && forall m :: 0 <= m < n ==> s.windows[m] == Sent(turn, m)
  }

  lemma HaltedIsHalts(round: Round)
    ensures Halted(round) == Halts(round)
    ensures !Halted(round) ==> BeforeKill(round.pending) == round.pending
  {
  }

  /** Counters when the n-th request has been answered. */
  lemma AskingCounts(turn: Turn, s: Flow, n: nat)
    requires Counts(turn, s, n) && !Halted(turn.rounds(n))
    ensures var asked := Answering(turn.limits, Begun(s, turn.rounds(n)), turn.rounds(n));
            && asked.iterations == n + 1 && |asked.windows| == n + 1 && asked.errors == s.errors
            && asked.totalToolCalls == s.totalToolCalls && asked.emptyRetried == s.emptyRetried
            && asked.failures == s.failures
  {
    HaltedIsHalts(turn.rounds(n));
    assert s.errors + [] == s.errors;
  }

  /** The step that the n-th round is, by what the round was. */
  lemma RoundCounts(turn: Turn, s: Flow, n: nat)
    requires Counts(turn, s, n)
    ensures var (next, end) := RoundStep(turn.env, turn.limits, s, turn.rounds(n));
            && (GoesOn(turn, n) <==> end.None?) && (GoesOn(turn, n) ==> Counts(turn, next, n + 1))
            && next.iterations == n + 1
            && |next.windows| == (if Halted(turn.rounds(n)) then n else n + 1)
            && (!GoesOn(turn, n) ==> EndIs(turn, n, end))
  {
    var round := turn.rounds(n);
    HaltedIsHalts(round);
    if !Halted(round) {
      AskingCounts(turn, s, n);
      var asked := Answering(turn.limits, Begun(s, round), round);
      var before, jobs := JobsBefore(turn.rounds, n), JobsIn(round);
      if round.reply.Calls? {
        BatchFailsExactlyWhen(turn.env, before, jobs, s.failures);
        NoStopGrows(turn.env, before, jobs);
      } else {
        assert before + jobs == before;
      }
    }
  }

  lemma NoStopGrows(env: Env, before: seq<Job>, jobs: seq<Job>)
    requires NoStop(env, before, 0)
    ensures NoStop(env, before + jobs, 0) <==> NoStop(env, before + jobs, |before|)
  {
    forall k | 0 <= k < |before| ensures !StopsAt(env, before + jobs, k) {
      StopsAtPrefix(env, before, jobs, k);
    }
  }

  /** How the turn ends with its n-th round, by what the round was. */
  predicate EndIs(turn: Turn, n: nat, end: Option<End>) {
    var round := turn.rounds(n);
    if Halted(round) then end == Some(ByError([CircuitBreakerOpen]))
    else
      match round.reply
      case Answered => end == Some(ByAnswer)
      case Failed => end == Some(ByError([]))
      case Empty => end == Some(ByError([EmptyResponse]))
      case Calls(_, _) =>
        if |JobsBefore(turn.rounds, n + 1)| > 5 * turn.limits.maxIterations
        then end == Some(ByError([ToolBudgetExceeded])) else end == Some(ByError([ToolError]))
  }

  // ------------------------------------------------------------ the transcript of one round

  lemma {:induction false} ProcessAppend(env: Env, a: seq<Job>, b: seq<Job>, failures: Failures)
    requires Process(env, a, failures).error.None?
    ensures var first, all := Process(env, a, failures), Process(env, a + b, failures);
            && all.results == first.results + Process(env, b, first.failures).results
            && all.failures == Process(env, b, first.failures).failures
            && |first.results| == |a|
    decreases |a|
  {
    if a == [] {
      assert a + b == b && [] + Process(env, b, failures).results == Process(env, b, failures).results;
    } else {
      var move := NextMove(env, a[0], failures);
      assert (a + b)[0] == a[0] && (a + b)[1..] == a[1..] + b;
      ProcessAppend(env, a[1..], b, move.failures);
      var rest := Process(env, a[1..], move.failures);
      Regroup([ResultEntry(a[0], ResultText(env, a[0]))], rest.results, Process(env, b, rest.failures).results);
    }
  }

  /** The failure counts are those that all calls of the turn so far have left. */
  ghost predicate Carries(turn: Turn, s: Flow, n: nat) {
    s.failures == Process(turn.env, JobsBefore(turn.rounds, n), map[]).failures
  }

  lemma FreshTracks(env: Env)
    ensures Tracking(env, map[], [])
  {
  }

  lemma ResultsFollow(turn: Turn, s: Flow, n: nat)
    requires Counts(turn, s, n) && Carries(turn, s, n)
    ensures var jobs := JobsIn(turn.rounds(n));
            ResultsIn(turn.env, turn.rounds, n) == Process(turn.env, jobs, s.failures).results
    ensures Process(turn.env, JobsBefore(turn.rounds, n + 1), map[]).failures
         == Process(turn.env, JobsIn(turn.rounds(n)), s.failures).failures
  {
    var before, jobs := JobsBefore(turn.rounds, n), JobsIn(turn.rounds(n));
    FreshTracks(turn.env);
    assert [] + before == before;
    BatchFailsExactlyWhen(turn.env, [], before, map[]);
    ProcessAppend(turn.env, before, jobs, map[]);
    BehindPrefix(Process(turn.env, before, map[]).results, Process(turn.env, jobs, s.failures).results);
  }

  lemma BehindPrefix(a: seq<Entry>, b: seq<Entry>)
    ensures |a| <= |a + b| && (a + b)[|a|..] == b
  {
  }

  lemma EntriesArePlains(contents: seq<string>)
    ensures UserEntries(contents) == Plains(User, contents) && AssistantEntries(contents) == Plains(Assistant, contents)
  {
  }

  lemma CallsEntryIs(env: Env, jobs: seq<Job>, assistantText: string)
    ensures CallsEntry(env, jobs, assistantText) == CallEntry(env, jobs, assistantText)
  {
    assert CallsOf(env, jobs) == seq(|jobs|, i requires 0 <= i < |jobs| => Sanitized(env, jobs[i].call));
    assert CallEntry(env, jobs, assistantText).toolCalls.value == CallsOf(env, jobs);
  }

  lemma CompactsWhenDue(turn: Turn, s: Flow, n: nat)
    requires s.compacted <==> turn.limits.canCompact && FullBefore(turn, n)
    requires s.transcript == Heard(turn, n)
    ensures var ready := AfterCompaction(turn.limits, s, turn.rounds(n));
            && ready.transcript == Asked(turn, n) && ready.windows == s.windows
            && (ready.compacted <==> turn.limits.canCompact && FullBefore(turn, n + 1))
  {
    FullBeforeNext(turn, n);
    assert CompactionDue(turn.limits, s) <==> Compacts(turn, n);
  }

  lemma BegunTexts(turn: Turn, s: Flow, n: nat)
    requires s.transcript == Written(turn, n) && !Halted(turn.rounds(n))
    ensures var begun := Begun(s, turn.rounds(n));
            begun.transcript == Heard(turn, n) && begun.windows == s.windows && begun.compacted == s.compacted
  {
    HaltedIsHalts(turn.rounds(n));
    EntriesArePlains(turn.rounds(n).pending);
  }

  /** The state when the n-th request has been answered and its messages committed. */
  ghost predicate AskedTexts(turn: Turn, windows: seq<seq<ChatMessage>>, asked: Flow, n: nat) {
    && asked.transcript == Asked(turn, n) + AssistantEntries(turn.rounds(n).committed)
    && asked.windows == windows + [Sent(turn, n)]
    && (asked.compacted <==> turn.limits.canCompact && FullBefore(turn, n + 1))
  }

  lemma AskingTexts(turn: Turn, s: Flow, n: nat)
    requires Texts(turn, s, n) && !Halted(turn.rounds(n))
    ensures AskedTexts(turn, s.windows, Answering(turn.limits, Begun(s, turn.rounds(n)), turn.rounds(n)), n)
  {
    BegunTexts(turn, s, n);
    AskingFrom(turn, Begun(s, turn.rounds(n)), n);
  }

  lemma AskingFrom(turn: Turn, begun: Flow, n: nat)
    requires begun.transcript == Heard(turn, n)
    requires begun.compacted <==> turn.limits.canCompact && FullBefore(turn, n)
    ensures AskedTexts(turn, begun.windows, Answering(turn.limits, begun, turn.rounds(n)), n)
  {
    EntriesArePlains(turn.rounds(n).committed);
    CompactsWhenDue(turn, begun, n);
  }

  lemma WindowsSnoc(turn: Turn, windows: seq<seq<ChatMessage>>, n: nat)
    requires |windows| == n && forall m :: 0 <= m < n ==> windows[m] == Sent(turn, m)
    ensures forall m :: 0 <= m < n + 1 ==> (windows + [Sent(turn, n)])[m] == Sent(turn, m)
  {
  }

  /** A batch within the budget, or any other reply, adds its own entries. */
  lemma ReplyTexts(turn: Turn, asked: Flow, n: nat)
    requires ResultsIn(turn.env, turn.rounds, n)
          == Process(turn.env, JobsIn(turn.rounds(n)), asked.failures).results
    requires turn.rounds(n).reply.Calls? ==>
               asked.totalToolCalls + |JobsIn(turn.rounds(n))| <= 5 * turn.limits.maxIterations
    requires turn.rounds(n).reply.Empty? ==> !asked.emptyRetried
    ensures var next := ReplyStep(turn.env, turn.limits, asked, turn.rounds(n).reply).0;
            && next.transcript == asked.transcript + ReplyEntries(turn.env, turn.rounds, n)
            && next.windows == asked.windows && next.compacted == asked.compacted
            && (turn.rounds(n).reply.Calls? ==>
                  next.failures == Process(turn.env, JobsIn(turn.rounds(n)), asked.failures).failures)
            && (!turn.rounds(n).reply.Calls? ==> next.failures == asked.failures)
  {
    match turn.rounds(n).reply {
      case Calls(jobs, assistantText) =>
        CallsEntryIs(turn.env, jobs, assistantText);
        Regroup(asked.transcript, [CallsEntry(turn.env, jobs, assistantText)], ResultsIn(turn.env, turn.rounds, n));
      case Empty =>
      case _ =>
        assert asked.transcript + [] == asked.transcript;
    }
  }

  lemma NextTexts(turn: Turn, windows: seq<seq<ChatMessage>>, asked: Flow, next: Flow, n: nat)
    requires |windows| == n && forall m :: 0 <= m < n ==> windows[m] == Sent(turn, m)
    requires AskedTexts(turn, windows, asked, n)
    requires next.transcript == asked.transcript + ReplyEntries(turn.env, turn.rounds, n)
    requires next.windows == asked.windows && next.compacted == asked.compacted
    ensures Texts(turn, next, n + 1)
  {
    WindowsSnoc(turn, windows, n);
  }

  /** A reply that ends the turn without a batch adds nothing. */
  lemma LastReplyTexts(turn: Turn, asked: Flow, n: nat)
    requires turn.rounds(n).reply.Calls? ==>
               asked.totalToolCalls + |JobsIn(turn.rounds(n))| > 5 * turn.limits.maxIterations
    requires turn.rounds(n).reply.Empty? ==> asked.emptyRetried
    ensures var next := ReplyStep(turn.env, turn.limits, asked, turn.rounds(n).reply).0;
            next.transcript == asked.transcript && next.windows == asked.windows
  {
  }

  lemma RoundTexts(turn: Turn, s: Flow, n: nat)
    requires Texts(turn, s, n) && Counts(turn, s, n) && Carries(turn, s, n) && GoesOn(turn, n)
    ensures var next := RoundStep(turn.env, turn.limits, s, turn.rounds(n)).0;
            Texts(turn, next, n + 1) && Carries(turn, next, n + 1)
  {
    var round := turn.rounds(n);
    var asked := Answering(turn.limits, Begun(s, round), round);
    AskingTexts(turn, s, n);
    AskingCounts(turn, s, n);
    ResultsFollow(turn, s, n);
    ReplyTexts(turn, asked, n);
    NoCallsNoFailures(turn.env, s.failures);
    NotHaltedSteps(turn, s, n);
    NextTexts(turn, s.windows, asked, ReplyStep(turn.env, turn.limits, asked, round.reply).0, n);
  }

  lemma NotHaltedSteps(turn: Turn, s: Flow, n: nat)
    requires !Halted(turn.rounds(n))
    ensures var round := turn.rounds(n);
            var asked := Answering(turn.limits, Begun(s, round), round);
            RoundStep(turn.env, turn.limits, s, round) == ReplyStep(turn.env, turn.limits, asked, round.reply)
  {
    HaltedIsHalts(turn.rounds(n));
  }

  lemma NoCallsNoFailures(env: Env, failures: Failures)
    ensures Process(env, [], failures).failures == failures
  {
  }

  /** What the round that ends the turn leaves. */
  predicate Leaves(turn: Turn, n: nat, transcript: seq<Entry>) {
    var round := turn.rounds(n);
    if round.breakerOpen then transcript == Written(turn, n)
    else if Halted(round) then
      forall k :: 0 <= k < |round.pending| && IsKillToken(round.pending[k])
                  && (forall j :: 0 <= j < k ==> !IsKillToken(round.pending[j])) ==>
        transcript == Written(turn, n) + UserEntries(round.pending[..k])
    else
      transcript == Asked(turn, n) + AssistantEntries(round.committed) +
        if round.reply.Calls? && |JobsBefore(turn.rounds, n + 1)| <= 5 * turn.limits.maxIterations
        then ReplyEntries(turn.env, turn.rounds, n) else []
  }

  lemma LastRoundTexts(turn: Turn, s: Flow, n: nat)
    requires Texts(turn, s, n) && Counts(turn, s, n) && Carries(turn, s, n) && !GoesOn(turn, n)
    ensures var last := RoundStep(turn.env, turn.limits, s, turn.rounds(n)).0;
            && Leaves(turn, n, last.transcript)
            && forall m :: 0 <= m < |last.windows| ==> last.windows[m] == Sent(turn, m)
  {
    var round := turn.rounds(n);
    if Halted(round) {
      HaltedIsHalts(round);
      HaltedTexts(turn, s, n);
    } else {
      var asked := Answering(turn.limits, Begun(s, round), round);
      AskingTexts(turn, s, n);
      AskingCounts(turn, s, n);
      ResultsFollow(turn, s, n);
      WindowsSnoc(turn, s.windows, n);
      assert asked.transcript + [] == asked.transcript;
      if round.reply.Calls? && |JobsBefore(turn.rounds, n + 1)| <= 5 * turn.limits.maxIterations {
        ReplyTexts(turn, asked, n);
      } else {
        LastReplyTexts(turn, asked, n);
      }
      NotHaltedSteps(turn, s, n);
    }
  }

  lemma HaltedTexts(turn: Turn, s: Flow, n: nat)
    requires Texts(turn, s, n) && Halted(turn.rounds(n))
    ensures Leaves(turn, n, Begun(s, turn.rounds(n)).transcript)
  {
    var round := turn.rounds(n);
    forall k | 0 <= k < |round.pending| && IsKillToken(round.pending[k])
               && forall j :: 0 <= j < k ==> !IsKillToken(round.pending[j])
      ensures BeforeKill(round.pending) == round.pending[..k]
    {
      FirstKill(round.pending, k);
    }
    forall k | 0 <= k < |round.pending| {
      EntriesArePlains(round.pending[..k]);
    }
  }

  lemma {:induction false} FirstKill(pending: seq<string>, k: nat)
    requires k < |pending| && IsKillToken(pending[k]) && forall j :: 0 <= j < k ==> !IsKillToken(pending[j])
    ensures BeforeKill(pending) == pending[..k]
    decreases k
  {
    if k > 0 {
      FirstKill(pending[1..], k - 1);
      assert pending[..k] == [pending[0]] + pending[1..][..k - 1];
    }
  }

  // ------------------------------------------------------------ the whole turn

  ghost predicate Follows(turn: Turn, s: Flow, n: nat) {
    Counts(turn, s, n) && Texts(turn, s, n) && Carries(turn, s, n)
  }

  function Opening(turn: Turn, errors: seq<Code>): Flow {
    Flow(turn.opening, errors, [], map[], 0, 0, false, false, [], 0, None)
  }

  lemma OpeningFollows(turn: Turn, errors: seq<Code>)
    ensures Follows(turn, Opening(turn, errors), 0)
  {
    FreshTracks(turn.env);
    NoCallsNoFailures(turn.env, map[]);
  }

  function TurnStep(turn: Turn): Step {
    StepOf(turn.env, turn.limits, turn.rounds)
  }

  lemma StepIsRound(turn: Turn, s: Flow, n: nat)
    requires s.iterations == n
    ensures TurnStep(turn)(s) == RoundStep(turn.env, turn.limits, s, turn.rounds(n))
  {
  }

  /** The state after `n` steps. */
  function Iterated(step: Step, s: Flow, n: nat): Flow {
    if n == 0 then s else step(Iterated(step, s, n - 1)).0
  }

  lemma {:induction false} LoopSkips(step: Step, s: Flow, e: nat, fuel: nat)
    requires e <= fuel && forall m :: 0 <= m < e ==> step(Iterated(step, s, m)).1 == None
    ensures Loop(step, s, fuel) == Loop(step, Iterated(step, s, e), fuel - e)
    decreases e
  {
    if e > 0 {
      LoopSkips(step, s, e - 1, fuel);
      LoopUnfolds(step, Iterated(step, s, e - 1), fuel - (e - 1));
    }
  }

  function StateAt(turn: Turn, errors: seq<Code>, n: nat): Flow {
    Iterated(TurnStep(turn), Opening(turn, errors), n)
  }

  /** What every step hands on holds after any number of steps, and none of them ends. */
  lemma {:induction false} IteratedKeeps(step: Step, s: Flow, n: nat, holds: (Flow, nat) -> bool)
    requires holds(s, 0) && forall t, m: nat :: m < n && holds(t, m) ==> HandsOn(step, holds, t, m)
    ensures holds(Iterated(step, s, n), n)
    ensures forall m :: 0 <= m < n ==> step(Iterated(step, s, m)).1 == None
  {
    if n > 0 {
      IteratedKeeps(step, s, n - 1, holds);
      assert HandsOn(step, holds, Iterated(step, s, n - 1), n - 1);
    }
  }

  predicate HandsOn(step: Step, holds: (Flow, nat) -> bool, s: Flow, n: nat) {
    step(s).1 == None && holds(step(s).0, n + 1)
  }

  lemma RoundFollows(turn: Turn, s: Flow, n: nat)
    requires Follows(turn, s, n) && GoesOn(turn, n)
    ensures TurnStep(turn)(s).1 == None && Follows(turn, TurnStep(turn)(s).0, n + 1)
  {
    StepIsRound(turn, s, n);
    RoundCounts(turn, s, n);
    RoundTexts(turn, s, n);
  }

  predicate GoesOnAt(turn: Turn, errors: seq<Code>, n: nat) {
    TurnStep(turn)(StateAt(turn, errors, n)).1 == None
  }

  ghost predicate IsFollows(turn: Turn, holds: (Flow, nat) -> bool) {
    forall s, n: nat :: holds(s, n) <==> Follows(turn, s, n)
  }

  lemma RoundHandsOn(turn: Turn, step: Step, holds: (Flow, nat) -> bool, s: Flow, n: nat)
    requires IsFollows(turn, holds) && step == TurnStep(turn) && GoesOn(turn, n) && holds(s, n)
    ensures HandsOn(step, holds, s, n)
  {
    RoundFollows(turn, s, n);
  }

  lemma RoundsHandOn(turn: Turn, step: Step, holds: (Flow, nat) -> bool, n: nat)
    requires IsFollows(turn, holds) && step == TurnStep(turn)
    requires forall m :: 0 <= m < n ==> GoesOn(turn, m)
    ensures forall s, m: nat :: m < n && holds(s, m) ==> HandsOn(step, holds, s, m)
  {
    forall s: Flow, m: nat | m < n && holds(s, m) ensures HandsOn(step, holds, s, m) {
      RoundHandsOn(turn, step, holds, s, m);
    }
  }

  lemma StateFollows(turn: Turn, errors: seq<Code>, n: nat)
    requires forall m :: 0 <= m < n ==> GoesOn(turn, m)
    ensures Follows(turn, StateAt(turn, errors, n), n)
    ensures forall m :: 0 <= m < n ==> GoesOnAt(turn, errors, m)
  {
    var follows := (s: Flow, m: nat) => Follows(turn, s, m);
    OpeningFollows(turn, errors);
    RoundsHandOn(turn, TurnStep(turn), follows, n);
    IteratedKeeps(TurnStep(turn), Opening(turn, errors), n, follows);
  }

  /** The state in which the e-th round begins, when all before it go on. */
  lemma TurnReaches(turn: Turn, errors: seq<Code>, e: nat)
    requires e <= turn.limits.maxIterations && forall m :: 0 <= m < e ==> GoesOn(turn, m)
    ensures Follows(turn, StateAt(turn, errors, e), e)
    ensures Loop(TurnStep(turn), Opening(turn, errors), turn.limits.maxIterations)
         == Loop(TurnStep(turn), StateAt(turn, errors, e), turn.limits.maxIterations - e)
  {
    StateFollows(turn, errors, e);
    TurnSkips(turn, errors, e);
  }

  lemma TurnSkips(turn: Turn, errors: seq<Code>, e: nat)
    requires e <= turn.limits.maxIterations && forall m :: 0 <= m < e ==> GoesOnAt(turn, errors, m)
    ensures Loop(TurnStep(turn), Opening(turn, errors), turn.limits.maxIterations)
         == Loop(TurnStep(turn), StateAt(turn, errors, e), turn.limits.maxIterations - e)
  {
    forall m | 0 <= m < e ensures TurnStep(turn)(Iterated(TurnStep(turn), Opening(turn, errors), m)).1 == None {
      assert GoesOnAt(turn, errors, m);
    }
    LoopSkips(TurnStep(turn), Opening(turn, errors), e, turn.limits.maxIterations);
  }

  function TurnOf(env: Env, limits: Limits, t: seq<Entry>, userContent: string, rounds: nat -> Round): Turn {
    Turn(env, limits, t + [Entry(User, userContent, None, None)], rounds)
  }

  lemma CourseIsLoop(env: Env, limits: Limits, t: seq<Entry>, errors: seq<Code>, userContent: string,
                     rounds: nat -> Round)
    ensures var turn := TurnOf(env, limits, t, userContent, rounds);
            var course := Course(env, limits, t, errors, userContent, rounds);
            course == Loop(TurnStep(turn), Opening(turn, errors), limits.maxIterations)
  {
  }

  /** The round that ends a turn, told by what happened in it and in the rounds before,
      says how the turn ends, after how many iterations, and with how many requests. */
  lemma FirstEndDecides(env: Env, limits: Limits, t: seq<Entry>, errors: seq<Code>, userContent: string,
                        rounds: nat -> Round, n: nat)
    requires EndsAt(TurnOf(env, limits, t, userContent, rounds), n)
    ensures var (last, ended) := Course(env, limits, t, errors, userContent, rounds);
            var halted := rounds(n).breakerOpen
                          || exists k :: 0 <= k < |rounds(n).pending| && IsKillToken(rounds(n).pending[k]);
            && last.iterations == n + 1 && |last.windows| == (if halted then n else n + 1)
            && (halted ==> ended == Some(ByError([CircuitBreakerOpen])))
            && (!halted && rounds(n).reply == Answered ==> ended == Some(ByAnswer))
            && (!halted && rounds(n).reply == Failed ==> ended == Some(ByError([])))
            && (!halted && rounds(n).reply == Empty ==> ended == Some(ByError([EmptyResponse])))
            && (!halted && rounds(n).reply.Calls? ==>
                  ended == Some(ByError([if |JobsBefore(rounds, n + 1)| > 5 * limits.maxIterations
                                         then ToolBudgetExceeded else ToolError])))
    ensures var turn, last := TurnOf(env, limits, t, userContent, rounds),
                              Course(env, limits, t, errors, userContent, rounds).0;
            Leaves(turn, n, last.transcript)
            && forall m :: 0 <= m < |last.windows| ==> last.windows[m] == Sent(turn, m)
  {
    var turn := TurnOf(env, limits, t, userContent, rounds);
    CourseIsLoop(env, limits, t, errors, userContent, rounds);
    var at := StateAt(turn, errors, n);
    TurnReaches(turn, errors, n);
    LoopUnfolds(TurnStep(turn), at, limits.maxIterations - n);
    StepIsRound(turn, at, n);
    RoundCounts(turn, at, n);
    LastRoundTexts(turn, at, n);
  }

  /** A turn none of whose rounds ends it runs out of iterations. */
  lemma RunsOutWhenAllGoOn(env: Env, limits: Limits, t: seq<Entry>, errors: seq<Code>, userContent: string,
                           rounds: nat -> Round)
    requires forall m :: 0 <= m < limits.maxIterations ==> GoesOn(TurnOf(env, limits, t, userContent, rounds), m)
    ensures var (last, ended) := Course(env, limits, t, errors, userContent, rounds);
            var turn := TurnOf(env, limits, t, userContent, rounds);
            && ended == None && last.iterations == limits.maxIterations == |last.windows|
            && last.transcript == Written(turn, limits.maxIterations)
            && forall m :: 0 <= m < |last.windows| ==> last.windows[m] == Sent(turn, m)
  {
    var turn := TurnOf(env, limits, t, userContent, rounds);
    CourseIsLoop(env, limits, t, errors, userContent, rounds);
    TurnReaches(turn, errors, limits.maxIterations);
  }

  lemma {:induction false} SomeRoundEnds(turn: Turn, n: nat) returns (e: nat)
    requires n < turn.limits.maxIterations && !GoesOn(turn, n)
    ensures EndsAt(turn, e)
    decreases n
  {
    e := n;
    if m :| 0 <= m < n && !GoesOn(turn, m) {
      e := SomeRoundEnds(turn, m);
    }
  }

  /** What can end a turn. */
  datatype Cause = AnAnswer | AFailure | ASecondEmpty | AHalt | TooManyCalls | AStoppedBatch

  predicate HasCause(turn: Turn, n: nat, cause: Cause) {
    var round := turn.rounds(n);
    match cause
    case AHalt => Halted(round)
    case AnAnswer => !Halted(round) && round.reply == Answered
    case AFailure => !Halted(round) && round.reply == Failed
    case ASecondEmpty => !Halted(round) && round.reply == Empty
    case TooManyCalls =>
      !Halted(round) && round.reply.Calls? && |JobsBefore(turn.rounds, n + 1)| > 5 * turn.limits.maxIterations
    case AStoppedBatch =>
      !Halted(round) && round.reply.Calls? && |JobsBefore(turn.rounds, n + 1)| <= 5 * turn.limits.maxIterations
  }

  /** There is a first round that ends the turn, and this is why. */
  ghost predicate EndsBy(turn: Turn, cause: Cause) {
    exists n: nat :: EndsAt(turn, n) && HasCause(turn, n, cause)
  }

  lemma EndsByOne(turn: Turn, cause: Cause, e: nat)
    requires EndsAt(turn, e)
    ensures EndsBy(turn, cause) <==> HasCause(turn, e, cause)
  {
    if n: nat :| EndsAt(turn, n) && HasCause(turn, n, cause) {
      OneEnd(turn, e, n);
    }
  }

  lemma EndTells(turn: Turn, n: nat, end: Option<End>)
    requires EndIs(turn, n, end)
    ensures end != None
    ensures end == Some(ByAnswer) <==> HasCause(turn, n, AnAnswer)
    ensures end == Some(ByError([])) <==> HasCause(turn, n, AFailure)
    ensures end == Some(ByError([EmptyResponse])) <==> HasCause(turn, n, ASecondEmpty)
    ensures end == Some(ByError([CircuitBreakerOpen])) <==> HasCause(turn, n, AHalt)
    ensures end == Some(ByError([ToolBudgetExceeded])) <==> HasCause(turn, n, TooManyCalls)
    ensures end == Some(ByError([ToolError])) <==> HasCause(turn, n, AStoppedBatch)
  {
    assert [EmptyResponse][0] == EmptyResponse && [CircuitBreakerOpen][0] == CircuitBreakerOpen;
    assert [ToolBudgetExceeded][0] == ToolBudgetExceeded && [ToolError][0] == ToolError;
  }

  /** How a turn ends, exactly: with an answer, a failed reply, a second empty one, too
      many calls, a batch that a call stopped or a halt, each when the first round that
      does not go on is of that kind; and by exhaustion when every round goes on. */
  lemma TurnEndsExactlyWhen(env: Env, limits: Limits, t: seq<Entry>, errors: seq<Code>, userContent: string,
                            rounds: nat -> Round)
    ensures var turn, ended := TurnOf(env, limits, t, userContent, rounds),
                               Course(env, limits, t, errors, userContent, rounds).1;
            && (ended == None <==> forall m :: 0 <= m < limits.maxIterations ==> GoesOn(turn, m))
            && (ended == Some(ByAnswer) <==> EndsBy(turn, AnAnswer))
            && (ended == Some(ByError([])) <==> EndsBy(turn, AFailure))
            && (ended == Some(ByError([EmptyResponse])) <==> EndsBy(turn, ASecondEmpty))
            && (ended == Some(ByError([CircuitBreakerOpen])) <==> EndsBy(turn, AHalt))
            && (ended == Some(ByError([ToolBudgetExceeded])) <==> EndsBy(turn, TooManyCalls))
            && (ended == Some(ByError([ToolError])) <==> EndsBy(turn, AStoppedBatch))
  {
    var turn := TurnOf(env, limits, t, userContent, rounds);
    if n :| 0 <= n < limits.maxIterations && !GoesOn(turn, n) {
      var e := SomeRoundEnds(turn, n);
      FirstEndDecides(env, limits, t, errors, userContent, rounds, e);
      EndTells(turn, e, Course(env, limits, t, errors, userContent, rounds).1);
      EndsByOne(turn, AnAnswer, e);
      EndsByOne(turn, AFailure, e);
      EndsByOne(turn, ASecondEmpty, e);
      EndsByOne(turn, AHalt, e);
      EndsByOne(turn, TooManyCalls, e);
      EndsByOne(turn, AStoppedBatch, e);
    } else {
      RunsOutWhenAllGoOn(env, limits, t, errors, userContent, rounds);
      forall cause: Cause ensures !EndsBy(turn, cause) {
      }
    }
  }

  lemma OneEnd(turn: Turn, a: nat, b: nat)
    requires EndsAt(turn, a) && EndsAt(turn, b)
    ensures a == b
  {
    assert a < b ==> GoesOn(turn, a);
    assert b < a ==> GoesOn(turn, b);
  }
}
