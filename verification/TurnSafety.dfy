/**
 What every turn keeps: pairing, budgets and the retry guard, over the whole course
 that TurnLoop specifies and its methods compute.
 */
module TurnSafety {
  import opened Text
  import opened Streams
  import opened Transcript
  import opened TurnLoop

  // ------------------------------------------------------------ pairing of one round

  lemma {:induction false} PlainsArePaired(role: Role, contents: seq<string>)
    requires role != Tool
    ensures WellPaired(Plains(role, contents))
  {
    if contents != [] {
      PlainsArePaired(role, contents[1..]);
      assert Plains(role, contents)[1..] == Plains(role, contents[1..]);
    }
  }

  lemma PlainIsPaired(t: seq<Entry>, content: string)
    requires WellPaired(t)
    ensures WellPaired(t + [Plain(User, content)])
  {
    assert [Plain(User, content)][1..] == [];
    PairedAppend(t, [Plain(User, content)]);
  }

  lemma FreshCounts()
    ensures Tracks(map[], []) && Bounded([])
  {
  }

  /** A summary with a tool result right behind it: no later entry mends that. */
  predicate Orphaned(t: seq<Entry>) {
    |t| >= 2 && t[0].role == System && t[1].role == Tool
  }

  lemma OrphanedIsUnpaired(t: seq<Entry>)
    requires Orphaned(t)
    ensures !WellPaired(t)
  {
    assert Arity(t[0]) == 0 && t[1..][0].role == Tool;
  }

  lemma OrphanedGrows(t: seq<Entry>, more: seq<Entry>)
    requires Orphaned(t)
    ensures Orphaned(t + more)
  {
  }

  /** How many of the requests so far were sent before any split. */
  function BeforeSplit(s: Flow): nat {
    s.split.GetOr(|s.windows|)
  }

  /** The transcript is paired until a compaction splits a pair, and so are all
      requests sent before that; a split stays, as there is no second compaction. */
  predicate PairState(s: Flow) {
    && (if s.split.Some? then s.compacted && Orphaned(s.transcript) else WellPaired(s.transcript))
    && BeforeSplit(s) <= |s.windows|
    && forall i :: 0 <= i < BeforeSplit(s) ==> MessagesPaired(s.windows[i])
  }

  lemma AppendKeepsPairs(s: Flow, entries: seq<Entry>)
    requires PairState(s) && WellPaired(entries)
    ensures PairState(s.(transcript := s.transcript + entries))
  {
    if s.split.Some? {
      OrphanedGrows(s.transcript, entries);
    } else {
      PairedAppend(s.transcript, entries);
    }
  }

  lemma CompactionKeepsPairs(limits: Limits, s: Flow, round: Round)
    requires PairState(s)
    ensures PairState(AfterCompaction(limits, s, round))
  {
    if CompactionDue(limits, s) && !round.compactionThrew {
      CompactionPairing(limits.cost, s.transcript, limits.maxTokenBudget, round.summary);
      SplitLeavesOrphan(limits.cost, s.transcript, limits.maxTokenBudget, round.summary);
    }
  }

  lemma SplitLeavesOrphan(cost: Cost, t: seq<Entry>, tokenBudget: nat, summary: Option<string>)
    ensures SplitsPair(cost, t, tokenBudget, summary) ==> Orphaned(Compacted(cost, t, tokenBudget, summary))
  {
  }

  lemma RequestKeepsPairs(limits: Limits, s: Flow, systemPrompt: string)
    requires PairState(s)
    ensures PairState(s.(windows := s.windows + [Request(limits, systemPrompt, s.transcript)]))
  {
    if s.split.None? {
      RequestIsPaired(limits, systemPrompt, s.transcript);
    }
  }

  lemma RequestIsPaired(limits: Limits, systemPrompt: string, t: seq<Entry>)
    requires WellPaired(t)
    ensures MessagesPaired(Request(limits, systemPrompt, t))
  {
    WindowIsSound(limits.cost, t, limits.cost(systemPrompt), limits.maxTokenBudget);
    var history := ToMessages(History(limits.cost, t, limits.maxTokenBudget - limits.cost(systemPrompt)));
    assert Request(limits, systemPrompt, t)[1..] == history;
  }

  lemma BeginKeepsPairs(s: Flow, round: Round)
    requires PairState(s)
    ensures PairState(Begun(s, round))
  {
    var drained := Plains(User, BeforeKill(round.pending));
    PlainsArePaired(User, BeforeKill(round.pending));
    AppendKeepsPairs(s, drained);
  }

  lemma AskKeepsPairs(limits: Limits, s: Flow, round: Round)
    requires PairState(s)
    ensures PairState(Answering(limits, s, round))
  {
    var ready := AfterCompaction(limits, s, round);
    CompactionKeepsPairs(limits, s, round);
    RequestKeepsPairs(limits, ready, round.systemPrompt);
    var asked := ready.(windows := ready.windows + [Request(limits, round.systemPrompt, ready.transcript)]);
    PlainsArePaired(Assistant, round.committed);
    AppendKeepsPairs(asked, Plains(Assistant, round.committed));
  }

  lemma CallsKeepPairs(env: Env, limits: Limits, s: Flow, jobs: seq<Job>, assistantText: string)
    requires PairState(s)
    ensures PairState(CallsStep(env, limits, s, jobs, assistantText).0)
  {
    var results := Process(env, jobs, s.failures).results;
    BatchIsPaired(env, jobs, assistantText, s.failures);
    AppendKeepsPairs(s, [CallEntry(env, jobs, assistantText)] + results);
    Regroup(s.transcript, [CallEntry(env, jobs, assistantText)], results);
  }

  lemma ReplyKeepsPairs(env: Env, limits: Limits, s: Flow, reply: Reply)
    requires PairState(s)
    ensures PairState(ReplyStep(env, limits, s, reply).0)
  {
    match reply {
      case Calls(jobs, assistantText) => CallsKeepPairs(env, limits, s, jobs, assistantText);
      case Empty =>
        assert [Plain(User, env.wording(PleaseRespond))][1..] == [];
        AppendKeepsPairs(s, [Plain(User, env.wording(PleaseRespond))]);
      case _ =>
    }
  }

  lemma RoundKeepsPairs(env: Env, limits: Limits, s: Flow, round: Round)
    requires PairState(s)
    ensures PairState(RoundStep(env, limits, s, round).0)
  {
    BeginKeepsPairs(s, round);
    if !Halts(round) {
      AskKeepsPairs(limits, Begun(s, round), round);
      ReplyKeepsPairs(env, limits, Answering(limits, Begun(s, round), round), round.reply);
    }
  }

  // ------------------------------------------------------------ counts of one round

  /** Budgets and retry guard, however the round ended. */
  predicate Counted(limits: Limits, s: Flow) {
    Bounded(s.attempts) && s.processed <= 5 * limits.maxIterations && |s.windows| <= s.iterations
  }

  /** What holds besides whenever the loop goes on. */
  ghost predicate Going(limits: Limits, s: Flow) {
    && Counted(limits, s) && Tracks(s.failures, s.attempts)
    && s.processed == s.totalToolCalls <= 5 * limits.maxIterations
  }

  lemma AskKeepsCounts(limits: Limits, s: Flow, round: Round)
    requires Going(limits, s) && !Halts(round)
    ensures Going(limits, Answering(limits, Begun(s, round), round))
  {
  }

  lemma CallsKeepCounts(env: Env, limits: Limits, s: Flow, jobs: seq<Job>, assistantText: string)
    requires Going(limits, s)
    ensures var (next, end) := CallsStep(env, limits, s, jobs, assistantText);
            Counted(limits, next) && (end.None? ==> Going(limits, next))
  {
    BatchKeepsCount(env, jobs, s.failures, s.attempts);
  }

  lemma RoundKeepsCounts(env: Env, limits: Limits, s: Flow, round: Round)
    requires Going(limits, s)
    ensures var (next, end) := RoundStep(env, limits, s, round);
            Counted(limits, next) && (end.None? ==> Going(limits, next))
  {
    if !Halts(round) {
      AskKeepsCounts(limits, s, round);
      var asked := Answering(limits, Begun(s, round), round);
      if round.reply.Calls? {
        CallsKeepCounts(env, limits, asked, round.reply.jobs, round.reply.assistantText);
      }
    }
  }

  /** Nothing is rewritten without a compaction. */
  predicate Unrewritten(opening: seq<Entry>, s: Flow) {
    !s.compacted ==> opening <= s.transcript
  }

  lemma RoundRewritesNothing(env: Env, limits: Limits, opening: seq<Entry>, s: Flow, round: Round)
    requires Unrewritten(opening, s)
    ensures Unrewritten(opening, RoundStep(env, limits, s, round).0)
  {
    assert Unrewritten(opening, Begun(s, round));
    if !Halts(round) {
      var asked := Answering(limits, Begun(s, round), round);
      assert Unrewritten(opening, asked);
      ReplyRewritesNothing(env, limits, opening, asked, round.reply);
    }
  }

  lemma ReplyRewritesNothing(env: Env, limits: Limits, opening: seq<Entry>, s: Flow, reply: Reply)
    requires Unrewritten(opening, s)
    ensures Unrewritten(opening, ReplyStep(env, limits, s, reply).0)
  {
  }

  // ------------------------------------------------------------ the whole course

  /** What holds at the end of every course; `paired` says that it began so. */
  predicate Kept(limits: Limits, opening: seq<Entry>, paired: bool, s: Flow) {
    (paired ==> PairState(s)) && Counted(limits, s) && Unrewritten(opening, s)
  }

  ghost predicate KeptOn(limits: Limits, opening: seq<Entry>, paired: bool, s: Flow) {
    Kept(limits, opening, paired, s) && Going(limits, s)
  }

  ghost predicate Keeping(step: Step, limits: Limits, opening: seq<Entry>, paired: bool) {
    forall s: Flow {:trigger step(s)} :: KeptOn(limits, opening, paired, s) ==>
      Kept(limits, opening, paired, step(s).0) && (step(s).1.None? ==> KeptOn(limits, opening, paired, step(s).0))
  }

  lemma RoundsKeep(env: Env, limits: Limits, opening: seq<Entry>, paired: bool, rounds: nat -> Round)
    ensures Keeping(StepOf(env, limits, rounds), limits, opening, paired)
  {
    var step := StepOf(env, limits, rounds);
    forall s: Flow | KeptOn(limits, opening, paired, s)
      ensures Kept(limits, opening, paired, step(s).0)
      ensures step(s).1.None? ==> KeptOn(limits, opening, paired, step(s).0)
    {
      RoundKeeps(env, limits, opening, paired, s, rounds(s.iterations));
    }
  }

  lemma RoundKeeps(env: Env, limits: Limits, opening: seq<Entry>, paired: bool, s: Flow, round: Round)
    requires KeptOn(limits, opening, paired, s)
    ensures var (next, end) := RoundStep(env, limits, s, round);
            Kept(limits, opening, paired, next) && (end.None? ==> KeptOn(limits, opening, paired, next))
  {
    if paired {
      RoundKeepsPairs(env, limits, s, round);
    }
    RoundKeepsCounts(env, limits, s, round);
    RoundRewritesNothing(env, limits, opening, s, round);
  }

  lemma {:induction false} LoopKeeps(step: Step, limits: Limits, opening: seq<Entry>, paired: bool, s: Flow, fuel: nat)
    requires Keeping(step, limits, opening, paired) && KeptOn(limits, opening, paired, s)
    ensures Kept(limits, opening, paired, Loop(step, s, fuel).0)
    decreases fuel
  {
    if fuel > 0 {
      var (next, end) := step(s);
      assert Kept(limits, opening, paired, next);
      if end.None? {
        LoopKeeps(step, limits, opening, paired, next, fuel - 1);
      }
    }
  }

  lemma OpenedIsKept(limits: Limits, t: seq<Entry>, errors: seq<Code>, userContent: string)
    ensures KeptOn(limits, t + [Plain(User, userContent)], WellPaired(t), Opened(t, errors, userContent))
  {
    if WellPaired(t) {
      PlainIsPaired(t, userContent);
    }
    FreshCounts();
  }

  lemma CourseKeeps(env: Env, limits: Limits, t: seq<Entry>, errors: seq<Code>, userContent: string,
                    rounds: nat -> Round)
    ensures Kept(limits, t + [Plain(User, userContent)], WellPaired(t),
                 Course(env, limits, t, errors, userContent, rounds).0)
  {
    var opening := t + [Plain(User, userContent)];
    OpenedIsKept(limits, t, errors, userContent);
    RoundsKeep(env, limits, opening, WellPaired(t), rounds);
    LoopKeeps(StepOf(env, limits, rounds), limits, opening, WellPaired(t), Opened(t, errors, userContent),
              limits.maxIterations);
  }

  /** Whatever happens in a turn that begins with a paired transcript, the transcript
      it builds is paired if and only if no compaction of the turn parted a call from
      its results, and every request sent before such a compaction is paired. */
  lemma TurnKeepsPairing(env: Env, limits: Limits, t: seq<Entry>, errors: seq<Code>, userContent: string,
                         rounds: nat -> Round)
    requires WellPaired(t)
    ensures var last := Course(env, limits, t, errors, userContent, rounds).0;
            && (WellPaired(last.transcript) <==> last.split.None?)
            && BeforeSplit(last) <= |last.windows|
            && forall i :: 0 <= i < BeforeSplit(last) ==> MessagesPaired(last.windows[i])
  {
    var last := Course(env, limits, t, errors, userContent, rounds).0;
    CourseKeeps(env, limits, t, errors, userContent, rounds);
    if last.split.Some? {
      OrphanedIsUnpaired(last.transcript);
    }
  }

  /** What the turn leaves behind, trimmed to the limit, is paired exactly when
      besides the trim's own cut is not in front of a tool result. */
  lemma TurnLeavesPaired(env: Env, limits: Limits, t: seq<Entry>, errors: seq<Code>, userContent: string,
                         rounds: nat -> Round)
    requires WellPaired(t)
    ensures var last := Course(env, limits, t, errors, userContent, rounds).0;
            var long := last.transcript;
            last.split.None? ==>
              (WellPaired(TrimTranscript(long, limits.maxTranscriptEntries)) <==>
               |long| <= limits.maxTranscriptEntries || TrimsNothing(long, limits.maxTranscriptEntries)
               || long[TrimCut(long, limits.maxTranscriptEntries)].role != Tool)
  {
    var long := Course(env, limits, t, errors, userContent, rounds).0.transcript;
    TurnKeepsPairing(env, limits, t, errors, userContent, rounds);
    if WellPaired(long) && |long| > limits.maxTranscriptEntries {
      TrimPairing(long, limits.maxTranscriptEntries);
    }
  }

  /** No turn puts more than five calls per iteration through its batches, sends more
      requests than it has iterations, or has more iterations than allowed. */
  lemma TurnStaysInBudget(env: Env, limits: Limits, t: seq<Entry>, errors: seq<Code>, userContent: string,
                          rounds: nat -> Round)
    ensures var last := Course(env, limits, t, errors, userContent, rounds).0;
            && last.processed <= 5 * limits.maxIterations
            && |last.windows| <= last.iterations <= limits.maxIterations
  {
    CourseKeeps(env, limits, t, errors, userContent, rounds);
    RoundsCount(env, limits, rounds);
    LoopReports(StepOf(env, limits, rounds), Opened(t, errors, userContent), limits.maxIterations);
  }

  /** At no moment of a turn has a call signature failed more than three times without
      a success of that signature in between. */
  lemma RetriesStopAtThree(env: Env, limits: Limits, t: seq<Entry>, errors: seq<Code>, userContent: string,
                           rounds: nat -> Round, p: nat, signature: string)
    requires p <= |Course(env, limits, t, errors, userContent, rounds).0.attempts|
    ensures var attempts := Course(env, limits, t, errors, userContent, rounds).0.attempts;
            Streak(attempts[..p], signature) <= REPEAT_ERROR_THRESHOLD
  {
    CourseKeeps(env, limits, t, errors, userContent, rounds);
    NeverMoreThanThree(Course(env, limits, t, errors, userContent, rounds).0.attempts, p, signature);
  }

  /** Without a compaction a turn only appends. */
  lemma TurnOnlyAppends(env: Env, limits: Limits, t: seq<Entry>, errors: seq<Code>, userContent: string,
                        rounds: nat -> Round)
    ensures var last := Course(env, limits, t, errors, userContent, rounds).0;
            !last.compacted ==> t + [Plain(User, userContent)] <= last.transcript
  {
    CourseKeeps(env, limits, t, errors, userContent, rounds);
  }
}
