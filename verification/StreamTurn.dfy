/**
 The event callback of streamProviderTurn in src/agents/inference.ts: the leak
 filter and, when armed, the refusal lead buffer sit between provider and sink.
 */
module StreamTurn {
  import opened Text
  import opened Streams
  import LeakFilter
  import LeadBuffers

  datatype Config = Config(
    patterns: seq<LeakFilter.Pattern>,
    extraPatterns: seq<LeakFilter.Pattern>,
    refusal: Option<LeadBuffers.Detector>,
    leadBytes: nat)

  datatype TurnResult = TextTurn | ToolTurn(calls: seq<ToolCall>, assistantText: string) | EmptyTurn | ErrorTurn

  /** Everything the callback reads and writes. `sent` is the text in the sink,
      `committed` the assistant messages appended to the transcript. */
  datatype State = State(
    leakHeld: string,
    lead: LeadBuffers.Held,
    fullResponse: string,
    sent: string,
    result: TurnResult,
    rerouteTriggered: bool,
    committed: seq<string>)

  const START := State("", LeadBuffers.FRESH, "", "", TextTurn, false, [])

  // ------------------------------------------------------------ specification

  /** Safe text on its way to the sink. */
  ghost function Forward(config: Config, s: State, safe: string): State {
    if safe == "" then s
    else if config.refusal.None? then s.(fullResponse := s.fullResponse + safe, sent := s.sent + safe)
    else
      var (lead, out) := LeadBuffers.Fed(config.refusal.value, config.leadBytes, s.lead, safe);
      s.(lead := lead, fullResponse := s.fullResponse + out, sent := s.sent + out)
  }

  /** Flush of the leak filter, and the forced decision of an undecided lead. */
  ghost function Settle(config: Config, s: State): State {
    var flushed := Forward(config, s.(leakHeld := ""), LeakFilter.Cleaned(config.patterns, s.leakHeld));
    if config.refusal.None? || flushed.lead.decided then flushed
    else
      var lead := LeadBuffers.Decided(config.refusal.value, flushed.lead);
      var out := if lead.found.None? then flushed.lead.lead else "";
      flushed.(lead := lead, fullResponse := flushed.fullResponse + out, sent := flushed.sent + out)
  }

  /** The end of a text response: empty, handed to the reroute, or committed. */
  ghost function Finish(config: Config, s: State): State {
    if config.refusal.Some? && s.lead.found.Some? then s.(rerouteTriggered := true)
    else if IsBlank(s.fullResponse) then s.(result := EmptyTurn)
    else
      var text := LeakFilter.Cleaned(config.patterns + config.extraPatterns, s.fullResponse);
      s.(fullResponse := text, committed := s.committed + [text])
  }

  ghost function Step(config: Config, s: State, event: StreamEvent): State {
    match event
    case Token(text) =>
      var next := LeakFilter.Cleaned(config.patterns, s.leakHeld + text);
      Forward(config, s.(leakHeld := LeakFilter.OverlapOf(next)), LeakFilter.AllButOverlap(next))
    case ToolCalls(calls) =>
      var settled := Settle(config, s);
      settled.(result := ToolTurn(calls, settled.fullResponse))
    case Done(_) =>
      if s.result.ToolTurn? then s else Finish(config, Settle(config, s))
    case Failure(_) => s.(result := ErrorTurn)
  }

  ghost function Run(config: Config, events: seq<StreamEvent>): State {
    if events == [] then START
    else Step(config, Run(config, events[..|events| - 1]), events[|events| - 1])
  }

  // ------------------------------------------------------------ the callback

  class Turn {
    const config: Config
    const sink: Sink
    var leakBuffer: LeakFilter.StreamingLeakBuffer
    var refusalBuffer: LeadBuffers.LeadBuffer
    var fullResponse: string
    var result: TurnResult
    var rerouteTriggered: bool
    var committed: seq<string>

    ghost predicate Valid()
      reads this, leakBuffer, refusalBuffer, sink
    {
      && leakBuffer.patterns == config.patterns
      && (config.refusal.Some? ==>
            refusalBuffer.detect == config.refusal.value && refusalBuffer.leadBytes == config.leadBytes)
    }

    ghost function Now(): State
      reads this, leakBuffer, refusalBuffer, sink
    {
      State(leakBuffer.buffered, refusalBuffer.State(), fullResponse, Join(sink.tokens),
            result, rerouteTriggered, committed)
    }

    constructor (config: Config, sink: Sink)
      requires sink.tokens == []
      ensures Valid() && Now() == START && this.config == config && this.sink == sink
      ensures fresh(leakBuffer) && fresh(refusalBuffer)
    {
      this.config, this.sink := config, sink;
      fullResponse, result, rerouteTriggered, committed := "", TextTurn, false, [];
      leakBuffer := new LeakFilter.StreamingLeakBuffer(config.patterns);
      refusalBuffer := new LeadBuffers.LeadBuffer(
        if config.refusal.Some? then config.refusal.value else _ => None, config.leadBytes);
    }

    method Send(text: string)
      modifies this`fullResponse, sink`tokens
      ensures fullResponse == old(fullResponse) + text && Join(sink.tokens) == Join(old(sink.tokens)) + text
    {
      if text != "" {
        fullResponse := fullResponse + text;
        JoinSnoc(sink.tokens, text);
        sink.tokens := sink.tokens + [text];
      }
    }

    method ForwardSafe(safe: string)
      requires Valid()
      modifies this`fullResponse, sink`tokens, refusalBuffer
      ensures Valid() && Now() == Forward(config, old(Now()), safe)
    {
      if safe != "" {
        var forSink := safe;
        if config.refusal.Some? {
          forSink := refusalBuffer.Feed(safe);
        }
        Send(forSink);
      }
    }

    method SettleBuffers()
      requires Valid()
      modifies this`fullResponse, sink`tokens, refusalBuffer, leakBuffer
      ensures Valid() && Now() == Settle(config, old(Now()))
    {
      var safe, _ := leakBuffer.Flush();
      ForwardSafe(safe);
      if config.refusal.Some? && !refusalBuffer.decided {
        var refusal, lead := refusalBuffer.Decide();
        if refusal.None? {
          Send(lead);
        }
      }
    }

    /** The end of a text response, its buffers settled. */
    method FinishText()
      requires Valid()
      modifies this`fullResponse, this`result, this`rerouteTriggered, this`committed, sink`dones
      ensures Valid() && Now() == Finish(config, old(Now()))
      ensures sink.dones - old(sink.dones) == |committed| - |old(committed)|
    {
      if config.refusal.Some? && refusalBuffer.found.Some? {
        rerouteTriggered := true;
        return;
      }
      BlankTrims(fullResponse);
      if Trim(fullResponse) == "" {
        result := EmptyTurn;
        return;
      }
      var all := config.patterns + config.extraPatterns;
      var leaks := LeakFilter.DetectLeaks(all, fullResponse);
      if |leaks| > 0 {
        fullResponse := LeakFilter.RedactLeaks(all, fullResponse);
      }
      committed := committed + [fullResponse];
      sink.dones := sink.dones + 1;
    }

    /** The callback given to the provider selector. */
    method OnEvent(event: StreamEvent)
      requires Valid()
      modifies this`fullResponse, this`result, this`rerouteTriggered, this`committed
      modifies sink, refusalBuffer, leakBuffer
      ensures Valid() && Now() == Step(config, old(Now()), event)
      ensures sink.dones - old(sink.dones) == |committed| - |old(committed)|
      ensures sink.errors == old(sink.errors) + if event.Failure? then [event.error.message] else []
    {
      match event {
        case Token(text) =>
          var safe, _ := leakBuffer.Feed(text);
          ForwardSafe(safe);
        case ToolCalls(calls) =>
          SettleBuffers();
          result := ToolTurn(calls, fullResponse);
        case Done(_) =>
          if !result.ToolTurn? {
            SettleBuffers();
            FinishText();
          }
        case Failure(error) =>
          result := ErrorTurn;
          sink.errors := sink.errors + [error.message];
      }
    }
  }

  // ------------------------------------------------------------ what the user sees

  function TokenEvents(texts: seq<string>): seq<StreamEvent> {
    seq(|texts|, i requires 0 <= i < |texts| => Token(texts[i]))
  }

  /** The non-empty pieces the leak filter lets through, flush not included. */
  ghost function Pieces(ps: seq<LeakFilter.Pattern>, texts: seq<string>): seq<string> {
    if texts == [] then []
    else
      var before := texts[..|texts| - 1];
      var held := LeakFilter.FedAll(ps, LeakFilter.Progress("", ""), before).held;
      var safe := LeakFilter.AllButOverlap(LeakFilter.Cleaned(ps, held + texts[|texts| - 1]));
      Pieces(ps, before) + if safe == "" then [] else [safe]
  }

  /** All pieces of a stream, the flushed one last. */
  ghost function AllPieces(ps: seq<LeakFilter.Pattern>, texts: seq<string>): seq<string> {
    var flushed := LeakFilter.Cleaned(ps, LeakFilter.FedAll(ps, LeakFilter.Progress("", ""), texts).held);
    Pieces(ps, texts) + if flushed == "" then [] else [flushed]
  }

  /** The refusal detector's answer for the stream, when it is armed. */
  ghost function Refused(config: Config, texts: seq<string>): bool {
    config.refusal.Some? &&
    config.refusal.value(LeadBuffers.Lead(config.leadBytes, AllPieces(config.patterns, texts))).Some?
  }

  lemma {:induction false} PiecesJoin(ps: seq<LeakFilter.Pattern>, texts: seq<string>)
    ensures Join(Pieces(ps, texts)) == LeakFilter.FedAll(ps, LeakFilter.Progress("", ""), texts).emitted
    ensures Join(AllPieces(ps, texts)) == LeakFilter.Delivered(ps, texts)
  {
    if texts != [] {
      var before, last := texts[..|texts| - 1], texts[|texts| - 1];
      assert texts == before + [last];
      PiecesJoin(ps, before);
      LeakFilter.FedAllSnoc(ps, LeakFilter.Progress("", ""), before, last);
      var held := LeakFilter.FedAll(ps, LeakFilter.Progress("", ""), before).held;
      JoinSnoc(Pieces(ps, before), LeakFilter.AllButOverlap(LeakFilter.Cleaned(ps, held + last)));
      assert Pieces(ps, before) + [] == Pieces(ps, before);
    }
    var flushed := LeakFilter.Cleaned(ps, LeakFilter.FedAll(ps, LeakFilter.Progress("", ""), texts).held);
    JoinSnoc(Pieces(ps, texts), flushed);
    assert Pieces(ps, texts) + [] == Pieces(ps, texts);
  }

  /** Lead state and sent text after some pieces. */
  ghost predicate Passed(config: Config, s: State, pieces: seq<string>) {
    && s.sent == s.fullResponse
    && if config.refusal.None? then s.lead == LeadBuffers.FRESH && s.sent == Join(pieces)
       else (s.lead, s.sent) == LeadBuffers.FedAll(config.refusal.value, config.leadBytes, pieces)
  }

  lemma ForwardPasses(config: Config, s: State, pieces: seq<string>, safe: string)
    requires Passed(config, s, pieces)
    ensures Passed(config, Forward(config, s, safe), pieces + if safe == "" then [] else [safe])
  {
    if safe == "" {
      assert pieces + [] == pieces;
    } else {
      JoinSnoc(pieces, safe);
      if config.refusal.Some? {
        LeadBuffers.FedAllSnoc(config.refusal.value, config.leadBytes, pieces, safe);
      }
    }
  }

  /** The state after any tokens, whatever errors came between them. */
  ghost predicate Streaming(config: Config, s: State, texts: seq<string>) {
    && s.leakHeld == LeakFilter.FedAll(config.patterns, LeakFilter.Progress("", ""), texts).held
    && Passed(config, s, Pieces(config.patterns, texts))
  }

  lemma TokenStreams(config: Config, s: State, before: seq<string>, last: string)
    requires Streaming(config, s, before)
    ensures Streaming(config, Step(config, s, Token(last)), before + [last])
  {
    assert (before + [last])[..|before|] == before;
    LeakFilter.FedAllSnoc(config.patterns, LeakFilter.Progress("", ""), before, last);
    var next := LeakFilter.Cleaned(config.patterns, s.leakHeld + last);
    ForwardPasses(config, s.(leakHeld := LeakFilter.OverlapOf(next)), Pieces(config.patterns, before),
                  LeakFilter.AllButOverlap(next));
  }

  lemma {:induction false} AfterTokens(config: Config, texts: seq<string>)
    ensures var s := Run(config, TokenEvents(texts));
            && Streaming(config, s, texts)
            && s.result == TextTurn && s.committed == [] && !s.rerouteTriggered
  {
    if texts != [] {
      var before, last := texts[..|texts| - 1], texts[|texts| - 1];
      assert texts == before + [last];
      assert TokenEvents(texts)[..|texts| - 1] == TokenEvents(before);
      AfterTokens(config, before);
      TokenStreams(config, Run(config, TokenEvents(before)), before, last);
    }
  }

  /** When the buffers settle, the sink has the whole filtered stream, or, on a
      refusal, nothing at all. */
  lemma Settles(config: Config, s: State, texts: seq<string>)
    requires Streaming(config, s, texts)
    ensures var end := Settle(config, s);
            && end.sent == end.fullResponse && end.leakHeld == ""
            && end.sent == (if Refused(config, texts) then "" else LeakFilter.Delivered(config.patterns, texts))
            && (config.refusal.Some? ==> end.lead.decided && end.lead.found.Some? == Refused(config, texts))
            && end.result == s.result && end.committed == s.committed && end.rerouteTriggered == s.rerouteTriggered
  {
    PiecesJoin(config.patterns, texts);
    var flushed := LeakFilter.Cleaned(config.patterns, s.leakHeld);
    var pieces := AllPieces(config.patterns, texts);
    ForwardPasses(config, s.(leakHeld := ""), Pieces(config.patterns, texts), flushed);
    if config.refusal.Some? {
      LeadBuffers.AllOrNothing(config.refusal.value, config.leadBytes, pieces);
      LeadBuffers.AfterChunks(config.refusal.value, config.leadBytes, pieces);
    }
  }

  lemma SettledText(config: Config, texts: seq<string>)
    ensures var s := Settle(config, Run(config, TokenEvents(texts)));
            && s.sent == s.fullResponse
            && s.sent == (if Refused(config, texts) then "" else LeakFilter.Delivered(config.patterns, texts))
            && (config.refusal.Some? ==> s.lead.decided && s.lead.found.Some? == Refused(config, texts))
            && s.result == TextTurn && s.committed == [] && !s.rerouteTriggered
  {
    AfterTokens(config, texts);
    Settles(config, Run(config, TokenEvents(texts)), texts);
  }

  lemma RunSnoc(config: Config, events: seq<StreamEvent>, last: StreamEvent)
    ensures Run(config, events + [last]) == Step(config, Run(config, events), last)
  {
    assert (events + [last])[..|events|] == events;
  }

  lemma FinishMeans(config: Config, s: State, refused: bool)
    requires s.result == TextTurn && s.committed == [] && !s.rerouteTriggered
    requires refused == (config.refusal.Some? && s.lead.found.Some?)
    ensures var end := Finish(config, s);
            && end.sent == s.sent && end.rerouteTriggered == refused
            && (end.result == EmptyTurn <==> !refused && IsBlank(s.fullResponse))
            && end.committed == if refused || IsBlank(s.fullResponse) then []
                                else [LeakFilter.Cleaned(config.patterns + config.extraPatterns, s.fullResponse)]
  {
  }

  /** A text response. The sink gets the filtered stream or, on a refusal,
      nothing; the transcript gets one filtered message unless it is blank. */
  lemma TextResponse(config: Config, texts: seq<string>, fullText: string)
    ensures var s := Run(config, TokenEvents(texts) + [Done(fullText)]);
            var text := LeakFilter.Delivered(config.patterns, texts);
            var refused := Refused(config, texts);
            && s.sent == (if refused then "" else text)
            && s.rerouteTriggered == refused
            && (s.result == EmptyTurn <==> !refused && IsBlank(text))
            && s.committed == if refused || IsBlank(text) then []
                              else [LeakFilter.Cleaned(config.patterns + config.extraPatterns, text)]
  {
    SettledText(config, texts);
    AfterTokens(config, texts);
    RunSnoc(config, TokenEvents(texts), Done(fullText));
    FinishMeans(config, Settle(config, Run(config, TokenEvents(texts))), Refused(config, texts));
  }

  /** A response that fails behind its text: what was sent stays, nothing is committed. */
  lemma FailedResponse(config: Config, texts: seq<string>, error: ProviderError)
    ensures var before, s := Run(config, TokenEvents(texts)), Run(config, TokenEvents(texts) + [Failure(error)]);
            s.result == ErrorTurn && s.sent == before.sent && s.committed == [] && !s.rerouteTriggered
  {
    AfterTokens(config, texts);
    RunSnoc(config, TokenEvents(texts), Failure(error));
  }

  /** A response that ends in tool calls: the same text went to the sink and is
      the assistant text of the call entry. A detected refusal is swallowed here
      too, although no reroute follows. */
  lemma ToolResponse(config: Config, texts: seq<string>, calls: seq<ToolCall>, fullText: string)
    ensures var s := Run(config, TokenEvents(texts) + [ToolCalls(calls)] + [Done(fullText)]);
            && s.sent == (if Refused(config, texts) then "" else LeakFilter.Delivered(config.patterns, texts))
            && s.result == ToolTurn(calls, s.sent)
            && s.committed == [] && !s.rerouteTriggered
  {
    SettledText(config, texts);
    RunSnoc(config, TokenEvents(texts), ToolCalls(calls));
    RunSnoc(config, TokenEvents(texts) + [ToolCalls(calls)], Done(fullText));
  }
}
