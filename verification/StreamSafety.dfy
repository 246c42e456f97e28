/**
 What no stream can do to the user's sink and to the transcript, and what a stream
 that breaks off leaves behind.
 */
module StreamSafety {
  import opened Text
  import opened Streams
  import opened StreamTurn
  import LeakFilter
  import LeadBuffers
  import ModelSelect

  // ------------------------------------------------------------ nothing guarded gets through

  /** No text after a flush, as every decoder has it: tokens, then tool calls, the end
      or an error. */
  predicate TextComesFirst(events: seq<StreamEvent>) {
    forall i, j :: 0 <= i < j < |events| && Flushes(events[i]) ==> !events[j].Token?
  }

  predicate Flushes(event: StreamEvent) {
    event.ToolCalls? || event.Done?
  }

  predicate AnyFlush(events: seq<StreamEvent>) {
    exists i :: 0 <= i < |events| && Flushes(events[i])
  }

  lemma FlushSnoc(events: seq<StreamEvent>, last: StreamEvent)
    requires TextComesFirst(events + [last])
    ensures TextComesFirst(events) && (AnyFlush(events) ==> !last.Token?)
    ensures AnyFlush(events + [last]) <==> AnyFlush(events) || Flushes(last)
  {
    var all := events + [last];
    assert all[|events|] == last;
    assert forall i :: 0 <= i < |events| ==> all[i] == events[i];
    if i :| 0 <= i < |events| && Flushes(events[i]) {
      assert Flushes(all[i]);
    }
  }

  ghost predicate NoneHolds(p: LeakFilter.Pattern, messages: seq<string>)
    requires p.Shape?
  {
    forall i :: 0 <= i < |messages| ==> !LeakFilter.Occurs(p.classes, messages[i])
  }

  /** The pattern is nowhere a user or a later request could find it. */
  ghost predicate FreeOf(p: LeakFilter.Pattern, s: State)
    requires p.Shape?
  {
    && !LeakFilter.Occurs(p.classes, s.sent) && !LeakFilter.Occurs(p.classes, s.fullResponse)
    && NoneHolds(p, s.committed)
    && (s.result.ToolTurn? ==> !LeakFilter.Occurs(p.classes, s.result.assistantText))
  }

  /** After a flush the buffers are empty and the lead is decided. */
  ghost predicate Flushed(config: Config, s: State) {
    s.leakHeld == "" && (config.refusal.Some? ==> s.lead.decided)
  }

  lemma SettledStays(config: Config, s: State)
    requires Flushed(config, s)
    ensures Settle(config, s) == s
  {
    assert !LeakFilter.Leaky(config.patterns, "");
    assert LeakFilter.Cleaned(config.patterns, "") == "";
  }

  lemma EmptyHasNone(p: LeakFilter.Pattern)
    requires LeakFilter.Guarded(p)
    ensures !LeakFilter.Occurs(p.classes, "")
  {
  }

  /** Cleaning with a list that holds the pattern leaves none of it. */
  lemma CleanedIsFree(ps: seq<LeakFilter.Pattern>, p: LeakFilter.Pattern, text: string)
    requires p in ps && LeakFilter.Guarded(p)
    ensures !LeakFilter.Occurs(p.classes, LeakFilter.Cleaned(ps, text))
  {
    var k :| 0 <= k < |ps| && ps[k] == p;
    forall j: nat ensures !LeakFilter.FitsAt(p.classes, LeakFilter.Cleaned(ps, text), j) {
      LeakFilter.CleanedHasNone(ps, k, text, j);
    }
  }

  lemma PrefixIsFree(classes: seq<set<char>>, a: string, b: string)
    requires !LeakFilter.Occurs(classes, a + b)
    ensures !LeakFilter.Occurs(classes, a)
  {
    forall j: nat ensures !LeakFilter.FitsAt(classes, a, j) {
      if j + |classes| <= |a| {
        LeakFilter.SharedWindow(classes, a + b, a, j);
        assert !LeakFilter.FitsAt(classes, a + b, j);
      }
    }
  }

  /** What has been sent while the text still streams. */
  lemma StreamedIsFree(config: Config, s: State, texts: seq<string>, k: nat)
    requires Streaming(config, s, texts) && k < |config.patterns| && LeakFilter.Guarded(config.patterns[k])
    ensures !LeakFilter.Occurs(config.patterns[k].classes, s.sent)
    ensures s.sent <= LeakFilter.Delivered(config.patterns, texts)
  {
    var ps, start := config.patterns, LeakFilter.Progress("", "");
    var fed := LeakFilter.FedAll(ps, start, texts);
    SentIsPrefix(config, s, texts);
    LeakFilter.FedAllKeepsSafe(ps, k, start, texts);
    PrefixIsFree(ps[k].classes, fed.emitted, fed.held);
    EmptyHasNone(ps[k]);
  }

  /** Either all the filter has let through, or nothing. */
  lemma SentIsPrefix(config: Config, s: State, texts: seq<string>)
    requires Streaming(config, s, texts)
    ensures s.sent == "" || s.sent == LeakFilter.FedAll(config.patterns, LeakFilter.Progress("", ""), texts).emitted
    ensures s.sent <= LeakFilter.Delivered(config.patterns, texts)
  {
    PiecesJoin(config.patterns, texts);
    if config.refusal.Some? {
      LeadBuffers.AfterChunks(config.refusal.value, config.leadBytes, Pieces(config.patterns, texts));
    }
  }

  /** Streaming or flushed, and free of the pattern either way. */
  ghost predicate OnItsWay(config: Config, k: nat, events: seq<StreamEvent>, s: State)
    requires k < |config.patterns| && config.patterns[k].Shape?
  {
    && (if AnyFlush(events) then Flushed(config, s) && FreeOf(config.patterns[k], s)
        else Streaming(config, s, Tokens(events)) && s.committed == [] && !s.result.ToolTurn?)
  }

  lemma SettlingKeepsFree(config: Config, k: nat, events: seq<StreamEvent>, s: State)
    requires k < |config.patterns| && LeakFilter.Guarded(config.patterns[k]) && OnItsWay(config, k, events, s)
    ensures var end := Settle(config, s);
            Flushed(config, end) && FreeOf(config.patterns[k], end) && end.result == s.result
  {
    if AnyFlush(events) {
      SettledStays(config, s);
    } else {
      Settles(config, s, Tokens(events));
      LeakFilter.DeliveredHasNone(config.patterns, k, Tokens(events));
      EmptyHasNone(config.patterns[k]);
    }
  }

  lemma FinishKeepsFree(config: Config, k: nat, s: State)
    requires k < |config.patterns| && LeakFilter.Guarded(config.patterns[k])
    requires Flushed(config, s) && FreeOf(config.patterns[k], s)
    ensures Flushed(config, Finish(config, s)) && FreeOf(config.patterns[k], Finish(config, s))
  {
    var all := config.patterns + config.extraPatterns;
    assert all[k] == config.patterns[k];
    CleanedIsFree(all, config.patterns[k], s.fullResponse);
  }

  lemma StepKeepsFree(config: Config, k: nat, events: seq<StreamEvent>, s: State, last: StreamEvent)
    requires k < |config.patterns| && LeakFilter.Guarded(config.patterns[k]) && OnItsWay(config, k, events, s)
    requires TextComesFirst(events + [last])
    ensures OnItsWay(config, k, events + [last], Step(config, s, last))
  {
    FlushSnoc(events, last);
    TokensSnoc(events, last);
    match last {
      case Token(text) => TokenStreams(config, s, Tokens(events), text);
      case ToolCalls(_) => SettlingKeepsFree(config, k, events, s);
      case Done(_) =>
        SettlingKeepsFree(config, k, events, s);
        FinishKeepsFree(config, k, Settle(config, s));
      case Failure(_) =>
    }
  }

  lemma {:induction false} RunStaysFree(config: Config, k: nat, events: seq<StreamEvent>)
    requires k < |config.patterns| && LeakFilter.Guarded(config.patterns[k]) && TextComesFirst(events)
    ensures OnItsWay(config, k, events, Run(config, events))
  {
    if events == [] {
      AfterTokens(config, []);
      assert TokenEvents([]) == [];
    } else {
      var front, last := events[..|events| - 1], events[|events| - 1];
      assert events == front + [last];
      FlushSnoc(front, last);
      RunStaysFree(config, k, front);
      StepKeepsFree(config, k, front, Run(config, front), last);
    }
  }

  /** End to end, for every stream, however it ends and wherever it breaks off: no
      guarded pattern, however cut into tokens, is in what the sink was sent, in a
      message the transcript keeps, or in the assistant text of a tool-call entry. */
  lemma NoSecretReachesSinkOrTranscript(config: Config, k: nat, events: seq<StreamEvent>)
    requires k < |config.patterns| && LeakFilter.Guarded(config.patterns[k]) && TextComesFirst(events)
    ensures FreeOf(config.patterns[k], Run(config, events))
  {
    var s := Run(config, events);
    RunStaysFree(config, k, events);
    if !AnyFlush(events) {
      StreamedIsFree(config, s, Tokens(events), k);
    }
  }

  // ------------------------------------------------------------ the session's own patterns

  lemma StepCommits(config: Config, s: State, event: StreamEvent)
    ensures Settle(config, s).committed == s.committed
    ensures var end := Step(config, s, event);
            || end.committed == s.committed
            || end.committed == s.committed + [LeakFilter.Cleaned(config.patterns + config.extraPatterns,
                                                                  Settle(config, s).fullResponse)]
  {
  }

  /** No message that a text answer commits holds a guarded extra pattern of the
      session, whatever the events. */
  lemma {:induction false} NoExtraPatternInMessages(config: Config, k: nat, events: seq<StreamEvent>)
    requires k < |config.extraPatterns| && LeakFilter.Guarded(config.extraPatterns[k])
    ensures NoneHolds(config.extraPatterns[k], Run(config, events).committed)
  {
    if events != [] {
      var before, last := Run(config, events[..|events| - 1]), events[|events| - 1];
      NoExtraPatternInMessages(config, k, events[..|events| - 1]);
      var all := config.patterns + config.extraPatterns;
      assert all[|config.patterns| + k] == config.extraPatterns[k];
      CleanedIsFree(all, config.extraPatterns[k], Settle(config, before).fullResponse);
      StepCommits(config, before, last);
    }
  }

  /** But the text in front of a tool call is stored as it was sent, without that
      check: the call entry holds a guarded extra pattern exactly when the filtered
      stream does and was not swallowed as a refusal. */
  lemma CallEntryHoldsExtraExactlyWhen(config: Config, p: LeakFilter.Pattern, texts: seq<string>,
                                       calls: seq<ToolCall>, fullText: string)
    requires LeakFilter.Guarded(p)
    ensures var s := Run(config, TokenEvents(texts) + [ToolCalls(calls)] + [Done(fullText)]);
            && s.result.ToolTurn?
            && (LeakFilter.Occurs(p.classes, s.result.assistantText) <==>
                !Refused(config, texts) && LeakFilter.Occurs(p.classes, LeakFilter.Delivered(config.patterns, texts)))
  {
    ToolResponse(config, texts, calls, fullText);
    EmptyHasNone(p);
  }

  /** Every text that the session's pattern matches, the canary for one, gets into the
      transcript that way, even as a stream of a single token. */
  lemma CanaryEntersCallEntry(p: LeakFilter.Pattern, w: string, calls: seq<ToolCall>)
    requires LeakFilter.Guarded(p) && LeakFilter.Fits(p.classes, w)
    ensures var s := Run(Config([], [p], None, 200), TokenEvents([w]) + [ToolCalls(calls)] + [Done("")]);
            s.result == ToolTurn(calls, w) && LeakFilter.Occurs(p.classes, s.result.assistantText)
  {
    var config := Config([], [p], None, 200);
    ToolResponse(config, [w], calls, "");
    LeakFilter.CleanStreamUnchanged([], [w]);
    assert Join([w]) == w + Join([]);
    assert w[0..0 + |p.classes|] == w;
    assert LeakFilter.FitsAt(p.classes, w, 0);
  }

  // ------------------------------------------------------------ streams that break off

  /** What a stream leaves behind that stops after its tokens: an answered turn. */
  lemma BrokenOffLeaves(config: Config, texts: seq<string>)
    ensures var s := Run(config, TokenEvents(texts));
            && s.result == TextTurn && s.committed == [] && !s.rerouteTriggered
            && s.sent <= LeakFilter.Delivered(config.patterns, texts)
  {
    AfterTokens(config, texts);
    SentIsPrefix(config, Run(config, TokenEvents(texts)), texts);
  }

  function TextStream(texts: seq<string>, done: Option<string>): seq<StreamEvent> {
    if done.Some? then TokenEvents(texts) + [Done(done.value)] else TokenEvents(texts)
  }

  /** A text turn commits its one message exactly when the stream came to its end and
      the text was neither blank nor refused. */
  lemma CommitsExactlyWhen(config: Config, texts: seq<string>, done: Option<string>)
    ensures var s := Run(config, TextStream(texts, done));
            |s.committed| == if done.Some? && !Refused(config, texts)
                                && !IsBlank(LeakFilter.Delivered(config.patterns, texts)) then 1 else 0
  {
    if done.Some? {
      TextResponse(config, texts, done.value);
    } else {
      BrokenOffLeaves(config, texts);
    }
  }

  lemma {:induction false} TokensAreNoErrors(texts: seq<string>)
    ensures ModelSelect.NonErrors(TokenEvents(texts)) == TokenEvents(texts)
  {
    if texts != [] {
      var front := texts[..|texts| - 1];
      TokensAreNoErrors(front);
      assert TokenEvents(texts)[..|texts| - 1] == TokenEvents(front);
    }
  }

  /** Behind the selector: when the provider that serves a request breaks off after
      some text, the error is swallowed and the turn counts as answered, although
      nothing was committed and what the buffers still held is lost. */
  lemma BrokenOffCountsAsAnswered(config: Config, available: seq<ModelSelect.Provider>,
                                  attempts: nat -> ModelSelect.Attempt, texts: seq<string>, error: ProviderError)
    requires available != [] && texts != []
    requires attempts(ModelSelect.Served(available, attempts, 0)).events == TokenEvents(texts) + [Failure(error)]
    ensures var s := Run(config, ModelSelect.Forwarded(available, attempts));
            && s.result == TextTurn && s.committed == [] && !s.rerouteTriggered
            && s.sent <= LeakFilter.Delivered(config.patterns, texts)
  {
    var events := TokenEvents(texts) + [Failure(error)];
    assert events[..|events| - 1] == TokenEvents(texts);
    TokensAreNoErrors(texts);
    assert ModelSelect.NonErrors(events) == TokenEvents(texts) + [];
    assert TokenEvents(texts) + [] == TokenEvents(texts);
    assert TokenEvents(texts)[0] == Token(texts[0]);
    BrokenOffLeaves(config, texts);
  }
}
