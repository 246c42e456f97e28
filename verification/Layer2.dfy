/** The local-model router of src/agents/layer2/router.ts. */
module Layer2 {
  import opened Text
  import opened Streams
  import opened LeadBuffers

  const LEAD_BYTES: nat := 200

  datatype Config = Config(enabled: bool, showLayerBadge: bool, markers: seq<string>)

  datatype Result = Result(handled: bool, escalated: bool, responseText: Option<string>)

  datatype Line = Line(role: string, content: string)

  function Badge(config: Config): string {
    if config.showLayerBadge then "[L2] " else ""
  }

  function Detect(config: Config): Detector {
    text => DetectEscalation(config.markers, text)
  }

  /** The last error of the stream, or the exception the call threw. */
  function StreamError(events: seq<StreamEvent>, thrown: Option<string>): Option<string> {
    if thrown.Some? then thrown
    else if events == [] then None
    else
      var last := events[|events| - 1];
      if last.Failure? then Some(last.error.message) else StreamError(events[..|events| - 1], None)
  }

  function Response(events: seq<StreamEvent>): string {
    Join(Tokens(events))
  }

  /** The lead filled before the stream ended. */
  predicate LeadFilled(events: seq<StreamEvent>) {
    Fills(LEAD_BYTES, Tokens(events))
  }

  function Judged(config: Config, events: seq<StreamEvent>): Option<string> {
    DetectEscalation(config.markers, Lead(LEAD_BYTES, Tokens(events)))
  }

  predicate Failed(events: seq<StreamEvent>, thrown: Option<string>) {
    StreamError(events, thrown).Some? || IsBlank(Response(events))
  }

  /** What the sink shows of `text`: the badge comes with the first text. */
  function Shown(config: Config, text: string): string {
    if text == "" then "" else Badge(config) + text
  }

  lemma ShownGrows(config: Config, base: string, sent: string, text: string)
    requires text != ""
    ensures base + Shown(config, sent) + (if sent == "" then Badge(config) + text else text)
         == base + Shown(config, sent + text)
  {
    var badge := Badge(config);
    if sent == "" {
      assert sent + text == text;
    } else {
      assert base + (badge + sent) + text == base + (badge + (sent + text));
    }
  }

  lemma StreamErrorSnoc(events: seq<StreamEvent>, last: StreamEvent)
    ensures StreamError(events + [last], None)
         == if last.Failure? then Some(last.error.message) else StreamError(events, None)
  {
    assert (events + [last])[..|events|] == events;
  }

  /** Tokens and error behind one more event. */
  lemma AfterOne(before: seq<StreamEvent>, event: StreamEvent) returns (tokens: seq<string>, error: Option<string>)
    ensures tokens == Tokens(before + [event]) && error == StreamError(before + [event], None)
    ensures tokens == if event.Token? then Tokens(before) + [event.text] else Tokens(before)
    ensures error == if event.Failure? then Some(event.error.message) else StreamError(before, None)
  {
    TokensSnoc(before, event);
    StreamErrorSnoc(before, event);
    tokens, error := Tokens(before + [event]), StreamError(before + [event], None);
  }

  class Router {
    const config: Config
    const sink: Sink
    var transcript: seq<Line>
    /** The (handled, escalated) pairs of the audit records. */
    var audit: seq<(bool, bool)>
    // what the stream's callback closes over
    var responseText: string
    var streamError: Option<string>
    var firstTokenSent: bool
    var leadBuffer: LeadBuffer

    constructor (config: Config, sink: Sink, transcript: seq<Line>)
      ensures this.config == config && this.sink == sink && this.transcript == transcript && audit == []
    {
      this.config, this.sink, this.transcript := config, sink, transcript;
      audit, responseText, streamError, firstTokenSent := [], "", None, false;
      leadBuffer := new LeadBuffer(Detect(config), LEAD_BYTES);
    }

    /** `sent` is the text of this message forwarded so far, `base` the sink before it. */
    method ForwardToSink(text: string, ghost base: string, ghost sent: string)
      requires firstTokenSent == (sent != "")
      requires Join(sink.tokens) == base + Shown(config, sent)
      modifies this`firstTokenSent, sink`tokens
      ensures firstTokenSent == (sent + text != "")
      ensures Join(sink.tokens) == base + Shown(config, sent + text)
      ensures text == "" ==> sink.tokens == old(sink.tokens)
    {
      if text == "" {
        assert sent + text == sent;
        return;
      }
      var sent' := if !firstTokenSent then Badge(config) + text else text;
      JoinSnoc(sink.tokens, sent');
      sink.tokens := sink.tokens + [sent'];
      firstTokenSent := true;
      ShownGrows(config, base, sent, text);
    }

    /** The state of the message after the stream's events so far. */
    ghost predicate After(events: seq<StreamEvent>, base: string)
      reads this, leadBuffer, sink
    {
      Heard(Tokens(events), base) && streamError == StreamError(events, None)
    }

    /** The callback of the model's stream. */
    method OnEvent(event: StreamEvent, ghost before: seq<StreamEvent>, ghost base: string)
      requires After(before, base)
      modifies this`responseText, this`streamError, this`firstTokenSent, leadBuffer, sink`tokens
      ensures After(before + [event], base)
      ensures FedAll(Detect(config), LEAD_BYTES, Tokens(before + [event])).1 == "" ==> sink.tokens == old(sink.tokens)
    {
      ghost var tokens, error := AfterOne(before, event);
      match event {
        case Token(text) =>
          OnToken(text, Tokens(before), base);
          assert Heard(tokens, base);
        case Failure(error) =>
          streamError := Some(error.message);
        case _ =>
      }
    }

    ghost predicate Heard(tokens: seq<string>, base: string)
      reads `responseText, `firstTokenSent, `leadBuffer, leadBuffer, sink`tokens
    {
      var (held, sent) := FedAll(Detect(config), LEAD_BYTES, tokens);
      && leadBuffer.detect == Detect(config) && leadBuffer.leadBytes == LEAD_BYTES
      && leadBuffer.State() == held && responseText == Join(tokens)
      && firstTokenSent == (sent != "") && Join(sink.tokens) == base + Shown(config, sent)
    }

    method OnToken(text: string, ghost before: seq<string>, ghost base: string)
      requires Heard(before, base)
      modifies this`responseText, this`firstTokenSent, leadBuffer, sink`tokens
      ensures Heard(before + [text], base)
      ensures FedAll(Detect(config), LEAD_BYTES, before + [text]).1 == "" ==> sink.tokens == old(sink.tokens)
    {
      responseText := responseText + text;
      JoinSnoc(before, text);
      FedAllSnoc(Detect(config), LEAD_BYTES, before, text);
      var forward := leadBuffer.Feed(text);
      ForwardToSink(forward, base, FedAll(Detect(config), LEAD_BYTES, before).1);
    }

    method ListenOne(event: StreamEvent, ghost before: seq<StreamEvent>, ghost base: string, ghost start: seq<string>)
      requires After(before, base)
      requires FedAll(Detect(config), LEAD_BYTES, Tokens(before)).1 == "" ==> sink.tokens == start
      modifies this`responseText, this`streamError, this`firstTokenSent, leadBuffer, sink`tokens
      ensures After(before + [event], base)
      ensures FedAll(Detect(config), LEAD_BYTES, Tokens(before + [event])).1 == "" ==> sink.tokens == start
    {
      SentGrows(before, event);
      OnEvent(event, before, base);
    }

    method Listen(events: seq<StreamEvent>, ghost base: string)
      requires After([], base)
      modifies this`responseText, this`streamError, this`firstTokenSent, leadBuffer, sink`tokens
      ensures After(events, base)
      ensures FedAll(Detect(config), LEAD_BYTES, Tokens(events)).1 == "" ==> sink.tokens == old(sink.tokens)
    {
      ghost var seen := [];
      for k := 0 to |events|
        invariant seen == events[..k]
        invariant After(seen, base)
        invariant FedAll(Detect(config), LEAD_BYTES, Tokens(seen)).1 == "" ==> sink.tokens == old(sink.tokens)
      {
        ListenOne(events[k], seen, base, old(sink.tokens));
        seen := seen + [events[k]];
      }
      assert seen == events;
    }

    /** The whole stream: the sink shows all of the response if the lead was
        released, and nothing otherwise. */
    method Stream(events: seq<StreamEvent>)
      modifies this`responseText, this`streamError, this`firstTokenSent, this`leadBuffer, sink`tokens
      ensures fresh(leadBuffer) && leadBuffer.detect == Detect(config)
      ensures responseText == Response(events) && streamError == StreamError(events, None)
      ensures leadBuffer.decided == LeadFilled(events)
      ensures LeadFilled(events) ==> leadBuffer.found == Judged(config, events)
      ensures !LeadFilled(events) ==> leadBuffer.lead == responseText
      ensures LeadFilled(events) && Judged(config, events).None? ==>
                leadBuffer.lead == "" && firstTokenSent == (responseText != "")
                && Join(sink.tokens) == Join(old(sink.tokens)) + Shown(config, responseText)
      ensures !(LeadFilled(events) && Judged(config, events).None?) ==>
                !firstTokenSent && sink.tokens == old(sink.tokens)
    {
      responseText, streamError, firstTokenSent := "", None, false;
      leadBuffer := new LeadBuffer(Detect(config), LEAD_BYTES);
      assert Join(sink.tokens) + "" == Join(sink.tokens);
      Listen(events, Join(sink.tokens));
      AfterChunks(Detect(config), LEAD_BYTES, Tokens(events));
    }

    /** The forced decision at the end of the stream, and the short response it
        may still release. */
    method DecideLead(ghost events: seq<StreamEvent>, ghost base: string) returns (matched: Option<string>)
      requires leadBuffer.detect == Detect(config) && leadBuffer.decided == LeadFilled(events)
      requires responseText == Response(events)
      requires LeadFilled(events) ==> leadBuffer.found == Judged(config, events)
      requires !LeadFilled(events) ==> leadBuffer.lead == responseText
      requires if LeadFilled(events) && Judged(config, events).None? then
                 leadBuffer.lead == "" && firstTokenSent == (responseText != "")
                 && Join(sink.tokens) == base + Shown(config, responseText)
               else
                 !firstTokenSent && Join(sink.tokens) == base
      modifies this`firstTokenSent, leadBuffer, sink`tokens
      ensures matched == Judged(config, events)
      ensures matched.None? ==> Join(sink.tokens) == base + Shown(config, responseText)
      ensures matched.Some? ==> sink.tokens == old(sink.tokens)
    {
      LeadIsEnough(LEAD_BYTES, Tokens(events));
      ghost var sent := if leadBuffer.decided then responseText else "";
      assert base + "" == base;
      var found, tailLead := leadBuffer.Decide();
      if found.None? {
        assert sent + tailLead == responseText;
        ForwardToSink(tailLead, base, sent);
      }
      matched := found;
    }

    lemma SentGrows(before: seq<StreamEvent>, event: StreamEvent)
      ensures FedAll(Detect(config), LEAD_BYTES, Tokens(before + [event])).1 == "" ==>
                FedAll(Detect(config), LEAD_BYTES, Tokens(before)).1 == ""
    {
      TokensSnoc(before, event);
      if event.Token? {
        FedAllSnoc(Detect(config), LEAD_BYTES, Tokens(before), event.text);
      }
    }

    /** One message. `events` and `thrown` are what the local model's stream did.
        An escalated message has shown the user nothing, a handled one exactly the
        badge and the response. A stream error after a clean lead was released is
        the one way to leave text behind without handling. */
    method Handle(userContent: string, healthy: bool, events: seq<StreamEvent>, thrown: Option<string>)
      returns (result: Result)
      modifies this, sink`tokens, sink`dones
      ensures result.handled <==>
                config.enabled && healthy && !Failed(events, thrown) && Judged(config, events).None?
      ensures result.escalated <==>
                config.enabled && healthy && !Failed(events, thrown) && Judged(config, events).Some?
      ensures result.handled ==>
                && Join(sink.tokens) == Join(old(sink.tokens))
                                      + ((if config.showLayerBadge then "[L2] " else "") + Response(events))
                && sink.dones == old(sink.dones) + 1
                && transcript == old(transcript) + [Line("user", userContent),
                                                    Line("assistant", result.responseText.GetOr(""))]
                && result.responseText == Some(Trim((if config.showLayerBadge then "[L2] " else "") + Response(events)))
      ensures result.escalated ==> result.responseText == Some(Response(events))
      ensures !result.handled ==> sink.dones == old(sink.dones) && transcript == old(transcript)
      ensures !result.handled ==>
                if config.enabled && healthy && StreamError(events, thrown).Some? && LeadFilled(events)
                   && Judged(config, events).None?
                then Join(sink.tokens) == Join(old(sink.tokens)) + Shown(config, Response(events))
                else sink.tokens == old(sink.tokens)
      ensures audit == old(audit) + if config.enabled then [(result.handled, result.escalated)] else []
    {
      if !config.enabled {
        return Result(false, false, None);
      }
      if !healthy {
        audit := audit + [(false, false)];
        return Result(false, false, None);
      }

      Stream(events);
      if thrown.Some? {
        streamError := thrown;
      }

      BlankTrims(responseText);
      if streamError.Some? || Trim(responseText) == "" {
        if IsBlank(responseText) {
          BlankResponseIsSilent(config, Tokens(events));
        }
        audit := audit + [(false, false)];
        return Result(false, false, None);
      }

      var matched := DecideLead(events, Join(old(sink.tokens)));
      if matched.Some? {
        audit := audit + [(false, true)];
        return Result(false, true, Some(responseText));
      }

      var finalText := Trim(Badge(config) + responseText);
      sink.dones := sink.dones + 1;
      transcript := transcript + [Line("user", userContent), Line("assistant", finalText)];
      audit := audit + [(true, false)];
      return Result(true, false, Some(finalText));
    }
  }

  /** A stream fails exactly when the call throws, some event is an error, or the text of
      its tokens is blank. */
  lemma {:induction false} FailsExactlyWhen(events: seq<StreamEvent>, thrown: Option<string>)
    ensures Failed(events, thrown) <==>
            || thrown.Some? || (exists k :: 0 <= k < |events| && events[k].Failure?)
            || IsBlank(Join(Tokens(events)))
    ensures StreamError(events, thrown).Some? <==>
            thrown.Some? || exists k :: 0 <= k < |events| && events[k].Failure?
  {
    if thrown.None? && events != [] {
      var front, last := events[..|events| - 1], |events| - 1;
      FailsExactlyWhen(front, None);
      if !events[last].Failure? {
        assert forall k :: 0 <= k < last ==> front[k] == events[k];
      }
    }
  }

  /** The verdict is about the start of the response, of at least 200 characters or all of
      it: a configured marker in it escalates, and so do fewer than five characters. */
  lemma JudgedExactlyWhen(config: Config, events: seq<StreamEvent>) returns (lead: string)
    ensures lead <= Join(Tokens(events)) && (|lead| >= 200 || lead == Join(Tokens(events)))
    ensures Judged(config, events).Some? <==>
            |Trim(lead)| < 5 || exists k :: 0 <= k < |config.markers| && Holds(Trim(lead), config.markers[k])
  {
    lead := Lead(LEAD_BYTES, Tokens(events));
    LeadIsEnough(LEAD_BYTES, Tokens(events));
    EscalatesExactlyWhen(config.markers, lead);
  }

  /** A blank response never shows anything, however long it is: the failed-turn
      clause of `Handle` leaves text in the sink for a stream error only. */
  lemma BlankResponseIsSilent(config: Config, chunks: seq<string>)
    requires IsBlank(Join(chunks))
    ensures Detect(config)(Lead(LEAD_BYTES, chunks)).Some?
  {
    LeadIsEnough(LEAD_BYTES, chunks);
    var lead := Lead(LEAD_BYTES, chunks);
    assert forall k :: 0 <= k < |lead| ==> lead[k] == Join(chunks)[k];
    BlankEscalates(config.markers, lead);
  }
}
