/** The newline-delimited reader of src/agents/providers/ollama.ts: whatever way the
    body is cut into chunks, the same lines are handled. */
module OllamaReader {
  import opened Lines
  import opened Text
  import opened Streams

  datatype Call = Call(name: string, arguments: string)

  /** What JSON.parse and the property reads after it make of a line. An absent or
      empty text is the empty string. `thrown` is an exception raised after the text
      was read: a line that is no object, a tool call without a function. */
  datatype Line =
    | Unparseable
    | Parsed(error: string, content: string, calls: seq<Call>, thrown: Option<ProviderError>)

  /** JSON.parse, the clock's stamp when the n-th call is read, and the pattern test
      of the failover code. */
  datatype Context = Context(parse: string -> Line, stamp: nat -> string, modelLevel: string -> bool)

  // ------------------------------------------------------------ one line

  /** What the handled lines have led to; `halted` once an error has been reported. */
  datatype Progress = Progress(events: seq<StreamEvent>, fullText: string, calls: seq<ToolCall>, halted: bool)

  const FRESH := Progress([], "", [], false)

  function Stamped(context: Context, call: Call, position: nat): ToolCall {
    ToolCall("call_" + Decimal(position) + "_" + context.stamp(position), call.name, call.arguments)
  }

  function StampedAll(context: Context, calls: seq<Call>, from: nat): seq<ToolCall> {
    seq(|calls|, k requires 0 <= k < |calls| => Stamped(context, calls[k], from + k))
  }

  function LineError(context: Context, message: string): ProviderError {
    ProviderError("Ollama: " + message, false, true, context.modelLevel("Ollama: " + message))
  }

  function Handle(context: Context, s: Progress, line: string): Progress {
    if s.halted then s
    else
      match context.parse(line)
      case Unparseable => s
      case Parsed(error, content, calls, thrown) =>
        if error != "" then s.(events := s.events + [Failure(LineError(context, error))], halted := true)
        else
          var spoken := if content == "" then s
                        else s.(events := s.events + [Token(content)], fullText := s.fullText + content);
          if thrown.Some? then spoken.(events := spoken.events + [Failure(thrown.value)], halted := true)
          else spoken.(calls := s.calls + StampedAll(context, calls, |s.calls|))
  }

  function HandleAll(context: Context, s: Progress, lines: seq<string>): Progress
    decreases |lines|
  {
    if lines == [] then s else HandleAll(context, Handle(context, s, lines[0]), lines[1..])
  }

  // ------------------------------------------------------------ lines of a text

  /** The non-blank ones, trimmed. */
  function Worthy(pieces: seq<string>): seq<string> {
    if pieces == [] then []
    else (if Trim(pieces[0]) == "" then [] else [Trim(pieces[0])]) + Worthy(pieces[1..])
  }

  /** The lines that are complete, and what has not been ended by a newline yet. */
  function Complete(text: string): seq<string> {
    Worthy(Front(text))
  }

  function Rest(text: string): string {
    Last(text)
  }

  datatype Ending = Closed | Broken(error: ProviderError)

  datatype Response =
    | Unreachable(error: ProviderError)
    | Refused(error: ProviderError)
    | Body(chunks: seq<string>, ending: Ending)

  /** The lines a response body gives: a trailing partial line counts when the body was
      read to its end. */
  function LinesOf(text: string, ending: Ending): seq<string> {
    if ending.Closed? then Worthy(Split(text)) else Complete(text)
  }

  /** The events for a response body. */
  function Report(context: Context, text: string, ending: Ending): seq<StreamEvent> {
    var end := HandleAll(context, FRESH, LinesOf(text, ending));
    end.events + Close(end, ending)
  }

  /** What follows the events of the handled lines. */
  function Close(end: Progress, ending: Ending): seq<StreamEvent> {
    if end.halted then []
    else if ending.Broken? then [Failure(ending.error)]
    else if end.calls == [] then [Done(end.fullText)]
    else [ToolCalls(end.calls), Done(end.fullText)]
  }

  /** The events of one call. */
  function Reply(context: Context, response: Response): seq<StreamEvent> {
    match response
    case Unreachable(error) => [Failure(error)]
    case Refused(error) => [Failure(error)]
    case Body(chunks, ending) => Report(context, Join(chunks), ending)
  }

  // ------------------------------------------------------------ facts about splitting

  lemma {:induction false} WorthyAppend(a: seq<string>, b: seq<string>)
    ensures Worthy(a + b) == Worthy(a) + Worthy(b)
  {
    if a == [] {
      assert a + b == b;
    } else {
      assert (a + b)[1..] == a[1..] + b;
      WorthyAppend(a[1..], b);
    }
  }

  lemma {:induction false} HandleAllAppend(context: Context, s: Progress, a: seq<string>, b: seq<string>)
    ensures HandleAll(context, s, a + b) == HandleAll(context, HandleAll(context, s, a), b)
    decreases |a|
  {
    if a == [] {
      assert a + b == b;
    } else {
      assert (a + b)[1..] == a[1..] + b;
      HandleAllAppend(context, Handle(context, s, a[0]), a[1..], b);
    }
  }

  lemma {:induction false} HaltedStays(context: Context, s: Progress, lines: seq<string>)
    requires s.halted
    ensures HandleAll(context, s, lines) == s
  {
    if lines != [] {
      HaltedStays(context, s, lines[1..]);
    }
  }

  lemma CompleteAppend(a: string, b: string)
    ensures Complete(a + b) == Complete(a) + Complete(Rest(a) + b)
    ensures Rest(a + b) == Rest(Rest(a) + b)
  {
    SplitAppend(a, b);
    FrontOfAppend(Front(a), Split(Rest(a) + b));
    WorthyAppend(Front(a), Front(Rest(a) + b));
  }

  lemma FrontOfAppend<T>(a: seq<T>, b: seq<T>)
    requires b != []
    ensures (a + b)[..|a + b| - 1] == a + b[..|b| - 1] && (a + b)[|a + b| - 1] == b[|b| - 1]
  {
  }

  lemma CompleteHead(text: string, nl: nat)
    requires IndexFrom(text, "\n", 0) == Some(nl)
    ensures var line, rest := Trim(text[..nl]), text[nl + 1..];
            && Complete(text) == (if line == "" then [] else [line]) + Complete(rest)
            && Rest(text) == Rest(rest)
  {
    var pieces, more := Split(text), Split(text[nl + 1..]);
    assert pieces == [text[..nl]] + more;
    assert pieces[..|pieces| - 1] == [text[..nl]] + more[..|more| - 1];
    assert pieces[..|pieces| - 1][1..] == more[..|more| - 1];
  }

  lemma CompleteNone(text: string)
    requires IndexFrom(text, "\n", 0).None?
    ensures Complete(text) == [] && Rest(text) == text
  {
  }

  lemma ClosedLines(text: string)
    ensures Worthy(Split(text)) == Complete(text) + if Trim(Rest(text)) == "" then [] else [Trim(Rest(text))]
  {
    var pieces := Split(text);
    assert pieces == pieces[..|pieces| - 1] + [Rest(text)];
    WorthyAppend(pieces[..|pieces| - 1], [Rest(text)]);
    assert Worthy([Rest(text)]) == (if Trim(Rest(text)) == "" then [] else [Trim(Rest(text))]) + Worthy([]);
  }

  lemma OneLine(context: Context, s: Progress, line: string)
    ensures HandleAll(context, s, [line]) == Handle(context, s, line)
  {
    assert HandleAll(context, Handle(context, s, line), []) == Handle(context, s, line);
  }

  // ------------------------------------------------------------ the reader

  datatype Verdict = Continue | Stop | Throw(error: ProviderError)

  class OllamaStream {
    const context: Context
    var buffer: string
    var fullText: string
    var toolCalls: seq<ToolCall>
    var events: seq<StreamEvent>

    constructor (context: Context)
      ensures this.context == context && buffer == "" && Sofar(false) == FRESH
    {
      this.context := context;
      buffer, fullText, toolCalls, events := "", "", [], [];
    }

    ghost function Sofar(halted: bool): Progress
      reads this
    {
      Progress(events, fullText, toolCalls, halted)
    }

    /** What the state has come to, given what the last step did. */
    ghost function Result(verdict: Verdict): Progress
      reads this
    {
      if verdict.Throw? then Sofar(true).(events := events + [Failure(verdict.error)]) else Sofar(verdict.Stop?)
    }

    method HandleLine(line: string) returns (verdict: Verdict)
      modifies this
      ensures buffer == old(buffer)
      ensures Result(verdict) == Handle(context, old(Sofar(false)), line)
    {
      var chunk := context.parse(line);
      if chunk.Unparseable? {
        return Continue;
      }
      if chunk.error != "" {
        events := events + [Failure(LineError(context, chunk.error))];
        return Stop;
      }
      if chunk.content != "" {
        fullText := fullText + chunk.content;
        events := events + [Token(chunk.content)];
      }
      if chunk.thrown.Some? {
        return Throw(chunk.thrown.value);
      }
      ghost var before := toolCalls;
      for k := 0 to |chunk.calls|
        invariant toolCalls == before + StampedAll(context, chunk.calls, |before|)[..k]
        invariant buffer == old(buffer)
        invariant fullText == old(fullText) + chunk.content
        invariant events == old(events) + if chunk.content == "" then [] else [Token(chunk.content)]
      {
        toolCalls := toolCalls + [Stamped(context, chunk.calls[k], |toolCalls|)];
      }
      return Continue;
    }

    method DrainLines() returns (verdict: Verdict)
      modifies this
      ensures Result(verdict) == HandleAll(context, old(Sofar(false)), Complete(old(buffer)))
      ensures verdict.Continue? ==> buffer == Rest(old(buffer))
    {
      var nl := IndexFrom(buffer, "\n", 0);
      while nl.Some?
        invariant nl == IndexFrom(buffer, "\n", 0)
        invariant HandleAll(context, Sofar(false), Complete(buffer)) ==
                  HandleAll(context, old(Sofar(false)), Complete(old(buffer)))
        invariant Rest(buffer) == Rest(old(buffer))
        decreases |buffer|
      {
        CompleteHead(buffer, nl.value);
        var line := Trim(buffer[..nl.value]);
        buffer := buffer[nl.value + 1..];
        ghost var more := Complete(buffer);
        assert [] + more == more;
        if line != "" {
          HandleAllAppend(context, Sofar(false), [line], more);
          ghost var before := Sofar(false);
          verdict := HandleLine(line);
          OneLine(context, before, line);
          if !verdict.Continue? {
            HaltedStays(context, Result(verdict), more);
            return;
          }
        }
        nl := IndexFrom(buffer, "\n", 0);
      }
      CompleteNone(buffer);
      verdict := Continue;
    }

    /** The read loop; a thrown exception is still to be reported. */
    method ReadBody(chunks: seq<string>) returns (verdict: Verdict)
      requires buffer == "" && Sofar(false) == FRESH
      modifies this
      ensures Result(verdict) == HandleAll(context, FRESH, Complete(Join(chunks)))
      ensures verdict.Continue? ==> buffer == Rest(Join(chunks))
    {
      CompleteNone("");
      for i := 0 to |chunks|
        invariant Sofar(false) == HandleAll(context, FRESH, Complete(Join(chunks[..i])))
        invariant buffer == Rest(Join(chunks[..i]))
      {
        ghost var seen, more := Join(chunks[..i]), Join(chunks[i + 1..]);
        assert chunks[..i + 1] == chunks[..i] + [chunks[i]];
        JoinSnoc(chunks[..i], chunks[i]);
        CompleteAppend(seen, chunks[i]);
        HandleAllAppend(context, FRESH, Complete(seen), Complete(buffer + chunks[i]));
        buffer := buffer + chunks[i];
        verdict := DrainLines();
        if !verdict.Continue? {
          assert chunks == chunks[..i + 1] + chunks[i + 1..];
          JoinAppend(chunks[..i + 1], chunks[i + 1..]);
          CompleteAppend(seen + chunks[i], more);
          HandleAllAppend(context, FRESH, Complete(seen + chunks[i]), Complete(Rest(seen + chunks[i]) + more));
          HaltedStays(context, Result(verdict), Complete(Rest(seen + chunks[i]) + more));
          return;
        }
      }
      assert chunks[..|chunks|] == chunks;
      verdict := Continue;
    }

    method HandleTail() returns (verdict: Verdict)
      modifies this
      ensures var tail := Trim(old(buffer));
              Result(verdict) == HandleAll(context, old(Sofar(false)), if tail == "" then [] else [tail])
    {
      var tail := Trim(buffer);
      verdict := Continue;
      if tail != "" {
        OneLine(context, Sofar(false), tail);
        verdict := HandleLine(tail);
      }
    }

    /** The body of the try block: reading, then the trailing partial line. */
    method Consume(chunks: seq<string>, ending: Ending) returns (verdict: Verdict)
      requires buffer == "" && Sofar(false) == FRESH
      modifies this
      ensures var end := HandleAll(context, FRESH, LinesOf(Join(chunks), ending));
              if end.halted then !verdict.Continue? && Result(verdict) == end
              else Sofar(false) == end && verdict == if ending.Broken? then Throw(ending.error) else Continue
    {
      ghost var text := Join(chunks);
      verdict := ReadBody(chunks);
      ghost var tail := if Trim(Rest(text)) == "" then [] else [Trim(Rest(text))];
      ClosedLines(text);
      HandleAllAppend(context, FRESH, Complete(text), tail);
      if !verdict.Continue? {
        HaltedStays(context, Result(verdict), tail);
        return;
      }
      if ending.Broken? {
        verdict := Throw(ending.error);
        return;
      }
      verdict := HandleTail();
    }

    method Stream(response: Response)
      requires buffer == "" && Sofar(false) == FRESH
      modifies this
      ensures events == Reply(context, response)
    {
      if !response.Body? {
        events := events + [Failure(response.error)];
        return;
      }
      var verdict := Consume(response.chunks, response.ending);
      if verdict.Stop? {
        return;
      }
      if verdict.Throw? {
        events := events + [Failure(verdict.error)];
        return;
      }
      if |toolCalls| > 0 {
        events := events + [ToolCalls(toolCalls)];
      }
      events := events + [Done(fullText)];
    }
  }

  // ------------------------------------------------------------ what every reply is like

  predicate IsTerminal(event: StreamEvent) {
    event.Done? || event.Failure?
  }

  /** While nothing has gone wrong the events are tokens, and they spell the text. */
  predicate Orderly(s: Progress) {
    if s.halted then
      s.events != [] && s.events[|s.events| - 1].Failure? && forall k :: 0 <= k < |s.events| - 1 ==> s.events[k].Token?
    else
      (forall k :: 0 <= k < |s.events| ==> s.events[k].Token?) && Join(Tokens(s.events)) == s.fullText
  }

  lemma HandleKeepsOrder(context: Context, s: Progress, line: string)
    requires Orderly(s)
    ensures Orderly(Handle(context, s, line))
  {
    var chunk := context.parse(line);
    if chunk.Parsed? && !s.halted {
      TokensSnoc(s.events, Token(chunk.content));
      JoinSnoc(Tokens(s.events), chunk.content);
    }
  }

  lemma {:induction false} HandleAllKeepsOrder(context: Context, s: Progress, lines: seq<string>)
    requires Orderly(s)
    ensures Orderly(HandleAll(context, s, lines))
    decreases |lines|
  {
    if lines != [] {
      HandleKeepsOrder(context, s, lines[0]);
      HandleAllKeepsOrder(context, Handle(context, s, lines[0]), lines[1..]);
    }
  }

  /** One terminal event, last; a tool_call event only right before `done`; all other
      events are tokens. */
  predicate WellEnded(events: seq<StreamEvent>) {
    && events != [] && IsTerminal(events[|events| - 1])
    && (forall k :: 0 <= k < |events| - 1 ==> !IsTerminal(events[k]))
    && (forall k :: 0 <= k < |events| - 1 ==>
          events[k].Token? || (k == |events| - 2 && events[k + 1].Done? && events[k].ToolCalls?))
  }

  lemma CloseEndsWell(end: Progress, ending: Ending)
    requires Orderly(end)
    ensures WellEnded(end.events + Close(end, ending))
  {
  }

  lemma EndIsOrderly(context: Context, text: string, ending: Ending)
    ensures Orderly(HandleAll(context, FRESH, LinesOf(text, ending)))
  {
    assert Orderly(FRESH);
    HandleAllKeepsOrder(context, FRESH, LinesOf(text, ending));
  }

  /** Every call ends with exactly one terminal event, which comes last; a tool_call
      event can only come right before `done`; all other events are tokens. */
  lemma OneTerminalEventLast(context: Context, response: Response)
    ensures WellEnded(Reply(context, response))
  {
    match response {
      case Body(chunks, ending) =>
        EndIsOrderly(context, Join(chunks), ending);
        CloseEndsWell(HandleAll(context, FRESH, LinesOf(Join(chunks), ending)), ending);
      case _ =>
    }
  }

  lemma CloseHasNoTokens(end: Progress, ending: Ending)
    ensures Tokens(end.events + Close(end, ending)) == Tokens(end.events)
  {
    var rest := Close(end, ending);
    TokensAppend(end.events, rest);
    assert rest != [] ==> Tokens([rest[|rest| - 1]]) == [];
    assert |rest| == 1 ==> rest == [rest[0]];
    assert |rest| == 2 ==> rest[1..] == [rest[1]];
    assert Tokens(rest) == [];
    assert Tokens(end.events) + [] == Tokens(end.events);
  }

  /** The full text of `done` is the concatenation of the tokens. */
  lemma DoneTextIsTheTokens(context: Context, response: Response)
    ensures var events := Reply(context, response);
            forall k :: 0 <= k < |events| && events[k].Done? ==> events[k].fullText == Join(Tokens(events))
  {
    match response {
      case Body(chunks, ending) =>
        EndIsOrderly(context, Join(chunks), ending);
        CloseRepeatsTokens(HandleAll(context, FRESH, LinesOf(Join(chunks), ending)), ending);
      case _ =>
    }
  }

  lemma CloseRepeatsTokens(end: Progress, ending: Ending)
    requires Orderly(end)
    ensures var events := end.events + Close(end, ending);
            forall k :: 0 <= k < |events| && events[k].Done? ==> events[k].fullText == Join(Tokens(events))
  {
    CloseHasNoTokens(end, ending);
    CloseEndsWell(end, ending);
  }

  /** A line that ends the call early. */
  predicate Fatal(context: Context, line: string) {
    var chunk := context.parse(line);
    chunk.Parsed? && (chunk.error != "" || chunk.thrown.Some?)
  }

  predicate AnyFatal(context: Context, lines: seq<string>) {
    exists k :: 0 <= k < |lines| && Fatal(context, lines[k])
  }

  predicate HasFailure(events: seq<StreamEvent>) {
    exists k :: 0 <= k < |events| && events[k].Failure?
  }

  lemma AnyFatalCons(context: Context, first: string, rest: seq<string>)
    ensures AnyFatal(context, [first] + rest) <==> Fatal(context, first) || AnyFatal(context, rest)
  {
    var all := [first] + rest;
    assert all[0] == first;
    if k :| 0 <= k < |rest| && Fatal(context, rest[k]) {
      assert Fatal(context, all[k + 1]);
    }
    if k :| 0 < k < |all| && Fatal(context, all[k]) {
      assert Fatal(context, rest[k - 1]);
    }
  }

  lemma {:induction false} HaltsExactlyAtFatal(context: Context, s: Progress, lines: seq<string>)
    requires !s.halted
    ensures HandleAll(context, s, lines).halted <==> AnyFatal(context, lines)
    decreases |lines|
  {
    if lines != [] {
      var next := Handle(context, s, lines[0]);
      AnyFatalCons(context, lines[0], lines[1..]);
      assert lines == [lines[0]] + lines[1..];
      if next.halted {
        HaltedStays(context, next, lines[1..]);
      } else {
        HaltsExactlyAtFatal(context, next, lines[1..]);
      }
    }
  }

  /** A call fails exactly when no body came, the connection broke, or some line that
      was read reports an error or cannot be read as a chunk. */
  lemma FailsExactlyWhen(context: Context, response: Response)
    ensures HasFailure(Reply(context, response)) <==>
            || !response.Body?
            || response.ending.Broken?
            || AnyFatal(context, LinesOf(Join(response.chunks), response.ending))
  {
    match response {
      case Body(chunks, ending) =>
        BodyFailsExactlyWhen(context, chunks, ending);
      case _ =>
        assert Reply(context, response)[0].Failure?;
    }
  }

  lemma BodyFailsExactlyWhen(context: Context, chunks: seq<string>, ending: Ending)
    ensures HasFailure(Reply(context, Body(chunks, ending))) <==>
            ending.Broken? || AnyFatal(context, LinesOf(Join(chunks), ending))
  {
    FailureComesLast(context, Body(chunks, ending));
    ReportFailsExactlyWhen(context, Join(chunks), ending);
  }

  lemma FailureComesLast(context: Context, response: Response)
    ensures var events := Reply(context, response);
            EndsInFailure(events) <==> HasFailure(events)
  {
    OneTerminalEventLast(context, response);
    LastIsFailure(Reply(context, response));
  }

  predicate EndsInFailure(events: seq<StreamEvent>) {
    events != [] && events[|events| - 1].Failure?
  }

  lemma LastIsFailure(events: seq<StreamEvent>)
    requires events != [] && forall k :: 0 <= k < |events| - 1 ==> !IsTerminal(events[k])
    ensures EndsInFailure(events) <==> HasFailure(events)
  {
    if k :| 0 <= k < |events| && events[k].Failure? {
      assert IsTerminal(events[k]);
    }
    var last := |events| - 1;
    assert events[last].Failure? ==> HasFailure(events);
  }

  lemma ReportFailsExactlyWhen(context: Context, text: string, ending: Ending)
    ensures var events, lines := Report(context, text, ending), LinesOf(text, ending);
            EndsInFailure(events) <==> ending.Broken? || AnyFatal(context, lines)
  {
    HaltsExactlyAtFatal(context, FRESH, LinesOf(text, ending));
    EndIsOrderly(context, text, ending);
    CloseFails(HandleAll(context, FRESH, LinesOf(text, ending)), ending);
  }

  lemma CloseFails(end: Progress, ending: Ending)
    requires Orderly(end)
    ensures EndsInFailure(end.events + Close(end, ending)) <==> ending.Broken? || end.halted
  {
  }

  // ------------------------------------------------------------ what a reply tells

  /** The texts and the calls that a line brings. */
  function Texts(chunk: Line): seq<StreamEvent> {
    if chunk.Parsed? && chunk.content != "" then [Token(chunk.content)] else []
  }

  function AllTexts(context: Context, lines: seq<string>): seq<StreamEvent> {
    if lines == [] then [] else Texts(context.parse(lines[0])) + AllTexts(context, lines[1..])
  }

  function AllCalls(context: Context, lines: seq<string>): seq<Call> {
    if lines == [] then []
    else (if context.parse(lines[0]).Parsed? then context.parse(lines[0]).calls else []) + AllCalls(context, lines[1..])
  }

  /** The k-th call of a reply: the model's name and arguments, and a made-up id. */
  predicate IsReported(context: Context, reported: ToolCall, call: Call, k: nat) {
    reported == ToolCall("call_" + Decimal(k) + "_" + context.stamp(k), call.name, call.arguments)
  }

  predicate AreReported(context: Context, reported: seq<ToolCall>, calls: seq<Call>) {
    |reported| == |calls| && forall k :: 0 <= k < |calls| ==> IsReported(context, reported[k], calls[k], k)
  }

  lemma {:induction false} HandleAllTells(context: Context, s: Progress, lines: seq<string>)
    requires !s.halted && !AnyFatal(context, lines)
    ensures var end := HandleAll(context, s, lines);
            && !end.halted && end.events == s.events + AllTexts(context, lines)
            && end.calls == s.calls + StampedAll(context, AllCalls(context, lines), |s.calls|)
    decreases |lines|
  {
    if lines != [] {
      var next, chunk := Handle(context, s, lines[0]), context.parse(lines[0]);
      AnyFatalCons(context, lines[0], lines[1..]);
      assert lines == [lines[0]] + lines[1..];
      HandleAllTells(context, next, lines[1..]);
      HandleTells(context, s, lines[0]);
      Regroup(s.events, Texts(chunk), AllTexts(context, lines[1..]));
      StampedAppend(context, if chunk.Parsed? then chunk.calls else [], AllCalls(context, lines[1..]), |s.calls|);
      Regroup(s.calls, next.calls[|s.calls|..], StampedAll(context, AllCalls(context, lines[1..]), |next.calls|));
    }
  }

  lemma HandleTells(context: Context, s: Progress, line: string)
    requires !s.halted && !Fatal(context, line)
    ensures var next, chunk := Handle(context, s, line), context.parse(line);
            && !next.halted && next.events == s.events + Texts(chunk)
            && next.calls == s.calls + StampedAll(context, if chunk.Parsed? then chunk.calls else [], |s.calls|)
  {
  }

  lemma StampedAppend(context: Context, a: seq<Call>, b: seq<Call>, from: nat)
    ensures StampedAll(context, a + b, from) == StampedAll(context, a, from) + StampedAll(context, b, from + |a|)
  {
  }

  /** A call whose lines are all sound: a token for each text, then all calls of all lines
      in one event if there are any, then the end, unless the connection broke. */
  lemma SoundBodyTells(context: Context, chunks: seq<string>, ending: Ending)
    requires !AnyFatal(context, LinesOf(Join(chunks), ending))
    ensures var lines, events := LinesOf(Join(chunks), ending), Reply(context, Body(chunks, ending));
            Tells(context, AllTexts(context, lines), AllCalls(context, lines), ending, events)
  {
    var lines := LinesOf(Join(chunks), ending);
    EndIsOrderly(context, Join(chunks), ending);
    var end := ReadTells(context, lines);
    CloseTells(context, end, AllCalls(context, lines), ending);
  }

  predicate Tells(context: Context, texts: seq<StreamEvent>, calls: seq<Call>, ending: Ending,
                  events: seq<StreamEvent>)
  {
    if ending.Broken? then events == texts + [Failure(ending.error)]
    else if calls == [] then events == texts + [Done(Join(Tokens(texts)))]
    else && |events| == |texts| + 2 && events[..|texts|] == texts
         && events[|texts|].ToolCalls? && AreReported(context, events[|texts|].calls, calls)
         && events[|texts| + 1] == Done(Join(Tokens(texts)))
  }

  lemma ReadTells(context: Context, lines: seq<string>) returns (end: Progress)
    requires !AnyFatal(context, lines)
    ensures end == HandleAll(context, FRESH, lines) && !end.halted && end.events == AllTexts(context, lines)
    ensures AreReported(context, end.calls, AllCalls(context, lines))
  {
    end := HandleAll(context, FRESH, lines);
    HandleAllTells(context, FRESH, lines);
    assert [] + AllTexts(context, lines) == AllTexts(context, lines);
    assert [] + StampedAll(context, AllCalls(context, lines), 0) == StampedAll(context, AllCalls(context, lines), 0);
  }

  lemma CloseTells(context: Context, end: Progress, calls: seq<Call>, ending: Ending)
    requires !end.halted && Orderly(end) && AreReported(context, end.calls, calls)
    ensures Tells(context, end.events, calls, ending, end.events + Close(end, ending))
  {
  }

  /** What a line that ends the call puts last. */
  function LastWords(context: Context, chunk: Line): seq<StreamEvent>
    requires chunk.Parsed?
  {
    if chunk.error != "" then
      var message := "Ollama: " + chunk.error;
      [Failure(ProviderError(message, false, true, context.modelLevel(message)))]
    else Texts(chunk) + if chunk.thrown.Some? then [Failure(chunk.thrown.value)] else []
  }

  /** A call that meets such a line: the texts before it, its own text if the exception
      came after that, and its error; no call of any line is reported. */
  lemma FatalLineTells(context: Context, chunks: seq<string>, ending: Ending, n: nat)
    requires var lines := LinesOf(Join(chunks), ending);
             n < |lines| && Fatal(context, lines[n]) && !AnyFatal(context, lines[..n])
    ensures var lines := LinesOf(Join(chunks), ending);
            Reply(context, Body(chunks, ending)) ==
            AllTexts(context, lines[..n]) + LastWords(context, context.parse(lines[n]))
  {
    var lines := LinesOf(Join(chunks), ending);
    var end := HaltsAt(context, lines, n);
    assert end.events + [] == end.events;
  }

  lemma HaltsAt(context: Context, lines: seq<string>, n: nat) returns (end: Progress)
    requires n < |lines| && Fatal(context, lines[n]) && !AnyFatal(context, lines[..n])
    ensures end == HandleAll(context, FRESH, lines) && end.halted
    ensures end.events == AllTexts(context, lines[..n]) + LastWords(context, context.parse(lines[n]))
  {
    var before := ReadTells(context, lines[..n]);
    end := Handle(context, before, lines[n]);
    FatalTells(context, before, lines[n]);
    OneLine(context, before, lines[n]);
    HandleAllAppend(context, FRESH, lines[..n], [lines[n]]);
    HaltedStays(context, end, lines[n + 1..]);
    HandleAllAppend(context, FRESH, lines[..n] + [lines[n]], lines[n + 1..]);
    assert lines == lines[..n] + [lines[n]] + lines[n + 1..];
  }

  lemma FatalTells(context: Context, s: Progress, line: string)
    requires !s.halted && Fatal(context, line)
    ensures var next := Handle(context, s, line);
            next.halted && next.events == s.events + LastWords(context, context.parse(line))
  {
    var chunk := context.parse(line);
    if chunk.error == "" {
      Regroup(s.events, Texts(chunk), [Failure(chunk.thrown.value)]);
      assert s.events + [] == s.events;
    }
  }

  /** A piece between newlines is a line unless it is blank, without the blanks around it. */
  lemma WorthyPiece(piece: string)
    ensures Worthy([piece]) == if IsBlank(piece) then [] else [Trim(piece)]
  {
    BlankTrims(piece);
    assert [piece][1..] == [];
  }

  // ------------------------------------------------------------ a cut connection

  lemma HandleExtends(context: Context, s: Progress, line: string)
    ensures Tokens(s.events) <= Tokens(Handle(context, s, line).events)
  {
    var next := Handle(context, s, line);
    TokensAppend(s.events, next.events[|s.events|..]);
    assert next.events == s.events + next.events[|s.events|..];
  }

  lemma {:induction false} HandleAllExtends(context: Context, s: Progress, lines: seq<string>)
    ensures Tokens(s.events) <= Tokens(HandleAll(context, s, lines).events)
    decreases |lines|
  {
    if lines != [] {
      HandleExtends(context, s, lines[0]);
      HandleAllExtends(context, Handle(context, s, lines[0]), lines[1..]);
    }
  }

  /** The events after the last handled line carry no text. */
  lemma ReportTokens(context: Context, text: string, ending: Ending)
    ensures Tokens(Report(context, text, ending)) == Tokens(HandleAll(context, FRESH, LinesOf(text, ending)).events)
  {
    CloseHasNoTokens(HandleAll(context, FRESH, LinesOf(text, ending)), ending);
  }

  /** Wherever the connection breaks, the user has seen a prefix of what the whole body
      would have shown: never a token made of half a line. */
  lemma CutBodyShowsAPrefix(context: Context, received: string, missing: string, error: ProviderError)
    ensures Tokens(Report(context, received, Broken(error))) <= Tokens(Report(context, received + missing, Closed))
  {
    ReportTokens(context, received, Broken(error));
    ReportTokens(context, received + missing, Closed);
    var more := MoreLines(received, missing);
    HandleAllAppend(context, FRESH, Complete(received), more);
    HandleAllExtends(context, HandleAll(context, FRESH, Complete(received)), more);
  }

  lemma MoreLines(received: string, missing: string) returns (more: seq<string>)
    ensures Worthy(Split(received + missing)) == Complete(received) + more
  {
    var text := received + missing;
    var tail := if Trim(Rest(text)) == "" then [] else [Trim(Rest(text))];
    CompleteAppend(received, missing);
    ClosedLines(text);
    more := Complete(Rest(received) + missing) + tail;
    Regroup(Complete(received), Complete(Rest(received) + missing), tail);
  }

  // ------------------------------------------------------------ the made-up ids

  predicate IsDigit(c: char) {
    '0' <= c <= '9'
  }

  lemma {:induction false} DecimalIsDigits(n: nat)
    ensures Decimal(n) != "" && forall k :: 0 <= k < |Decimal(n)| ==> IsDigit(Decimal(n)[k])
  {
    if n >= 10 {
      DecimalIsDigits(n / 10);
    }
  }

  lemma {:induction false} DecimalIsInjective(m: nat, n: nat)
    requires Decimal(m) == Decimal(n)
    ensures m == n
  {
    LastDigit(m);
    LastDigit(n);
    DecimalIsDigits(m / 10);
    DecimalIsDigits(n / 10);
    if m >= 10 && n >= 10 {
      DecimalIsInjective(m / 10, n / 10);
    }
    assert m == 10 * (m / 10) + m % 10 && n == 10 * (n / 10) + n % 10;
  }

  lemma LastDigit(n: nat)
    ensures var s := Decimal(n);
            s != "" && s[|s| - 1] as int == '0' as int + n % 10 && s[..|s| - 1] == if n < 10 then "" else Decimal(n / 10)
  {
  }

  lemma MarkDecides(x: string, y: string, mark: char, s: string, t: string)
    requires mark !in x && mark !in y && x + [mark] + s == y + [mark] + t
    ensures x == y
  {
    MarkAt(x, mark, s);
    MarkAt(y, mark, t);
    assert (x + [mark] + s)[..|x|] == x;
    assert (y + [mark] + t)[..|y|] == y;
  }

  lemma AfterPrefix(digits: string, stamp: string)
    ensures ("call_" + digits + "_" + stamp)[5..] == digits + "_" + stamp
  {
  }

  /** Two ids never coincide, whatever the clock says: the position is in front of the
      stamp and closed by an underscore. */
  lemma IdsDiffer(context: Context, a: Call, i: nat, b: Call, j: nat)
    ensures Stamped(context, a, i).id == Stamped(context, b, j).id ==> i == j
  {
    if Stamped(context, a, i).id == Stamped(context, b, j).id {
      AfterPrefix(Decimal(i), context.stamp(i));
      AfterPrefix(Decimal(j), context.stamp(j));
      DecimalIsDigits(i);
      DecimalIsDigits(j);
      MarkDecides(Decimal(i), Decimal(j), '_', context.stamp(i), context.stamp(j));
      DecimalIsInjective(i, j);
    }
  }

  /** Every call carries the id of its own position. */
  predicate Numbered(context: Context, calls: seq<ToolCall>) {
    forall k :: 0 <= k < |calls| ==> calls[k] == Stamped(context, Call(calls[k].name, calls[k].arguments), k)
  }

  lemma {:induction false} HandleAllNumbers(context: Context, s: Progress, lines: seq<string>)
    requires Numbered(context, s.calls)
    ensures Numbered(context, HandleAll(context, s, lines).calls)
    decreases |lines|
  {
    if lines != [] {
      HandleAllNumbers(context, Handle(context, s, lines[0]), lines[1..]);
    }
  }

  /** The calls of one reply can be told apart, so each result can be paired with its
      call. */
  lemma CallIdsAreDistinct(context: Context, response: Response, k: nat)
    requires var events := Reply(context, response);
             k < |events| && events[k].ToolCalls?
    ensures var calls := Reply(context, response)[k].calls;
            forall i, j :: 0 <= i < j < |calls| ==> calls[i].id != calls[j].id
  {
    RepliedCallsAreNumbered(context, response, k);
    NumberedDiffer(context, Reply(context, response)[k].calls);
  }

  lemma RepliedCallsAreNumbered(context: Context, response: Response, k: nat)
    requires k < |Reply(context, response)| && Reply(context, response)[k].ToolCalls?
    ensures Numbered(context, Reply(context, response)[k].calls)
  {
    OneTerminalEventLast(context, response);
    if response.Body? {
      var lines := LinesOf(Join(response.chunks), response.ending);
      assert Orderly(FRESH);
      HandleAllKeepsOrder(context, FRESH, lines);
      HandleAllNumbers(context, FRESH, lines);
      assert Reply(context, response)[k].calls == HandleAll(context, FRESH, lines).calls;
    }
  }

  lemma NumberedDiffer(context: Context, calls: seq<ToolCall>)
    requires Numbered(context, calls)
    ensures forall i, j :: 0 <= i < j < |calls| ==> calls[i].id != calls[j].id
  {
    forall i, j | 0 <= i < j < |calls| ensures calls[i].id != calls[j].id {
      IdsDiffer(context, Call(calls[i].name, calls[i].arguments), i, Call(calls[j].name, calls[j].arguments), j);
    }
  }
}
