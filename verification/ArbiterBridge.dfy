/**
 The bridge of src/agents/arbiter-bridge.ts from a push stream to a pull
 generator. The callback runs whenever the provider emits; the generator runs
 between its suspensions. Each action is atomic, any interleaving can happen.
 */
module ArbiterBridge {
  import opened Text
  import opened Streams
  import ModelSelect

  /** Where the generator is: at the top of its loop, suspended with a value it
      yielded, waiting for a wakeup, past the loop, or over. */
  datatype Phase = Ready | Delivering | Parked | Leaving | Returned | Threw(error: ProviderError)

  /** `registered` says that resolveNext is set; `produced` and `yielded` record the
      tokens that went in and came out. */
  datatype State = State(queue: seq<string>, done: bool, error: Option<ProviderError>, registered: bool,
                         streamEnded: bool, phase: Phase, produced: seq<string>, yielded: seq<string>)

  const START := State([], false, None, false, false, Ready, [], [])

  datatype Action = Emit(event: StreamEvent) | EndStream | Resume | Run

  // ------------------------------------------------------------ the steps

  function Wakeup(s: State): State {
    if s.registered then s.(registered := false, phase := Ready) else s
  }

  /** The callback. Tool calls are ignored. */
  function Emitted(s: State, event: StreamEvent): State {
    match event
    case Token(text) => Wakeup(s.(queue := s.queue + [text], produced := s.produced + [text]))
    case Done(_) => Wakeup(s.(done := true))
    case Failure(error) => Wakeup(s.(error := Some(error), done := true))
    case ToolCalls(_) => s
  }

  /** The generator up to its next suspension. */
  function Ran(s: State): State {
    match s.phase
    case Ready =>
      if s.queue != [] then
        s.(yielded := s.yielded + [s.queue[0]], queue := s.queue[1..], phase := Delivering)
      else if s.done then s.(phase := Leaving)
      else s.(registered := true, phase := Parked)
    case Leaving =>
      if !s.streamEnded then s
      else if s.error.Some? then s.(phase := Threw(s.error.value)) else s.(phase := Returned)
    case _ => s
  }

  /** Nothing is emitted any more once the stream's promise has settled. */
  predicate Possible(s: State, a: Action) {
    a.Emit? ==> !s.streamEnded
  }

  function Act(s: State, a: Action): State {
    match a
    case Emit(event) => Emitted(s, event)
    case EndStream => s.(streamEnded := true)
    case Resume => if s.phase == Delivering then s.(phase := Ready) else s
    case Run => Ran(s)
  }

  class Bridge {
    var queue: seq<string>
    var done: bool
    var error: Option<ProviderError>
    var resolveNext: bool
    var streamEnded: bool
    var phase: Phase
    ghost var produced: seq<string>
    ghost var yielded: seq<string>

    ghost function Now(): State
      reads this
    {
      State(queue, done, error, resolveNext, streamEnded, phase, produced, yielded)
    }

    constructor ()
      ensures Now() == START
    {
      queue, done, error, resolveNext, streamEnded, phase := [], false, None, false, false, Ready;
      produced, yielded := [], [];
    }

    method WakeUp()
      modifies this`resolveNext, this`phase
      ensures Now() == Wakeup(old(Now()))
    {
      if resolveNext {
        resolveNext, phase := false, Ready;
      }
    }

    method OnEvent(event: StreamEvent)
      modifies this
      ensures Now() == Act(old(Now()), Emit(event))
    {
      match event {
        case Token(text) =>
          queue, produced := queue + [text], produced + [text];
          WakeUp();
        case Done(_) =>
          done := true;
          WakeUp();
        case Failure(e) =>
          error, done := Some(e), true;
          WakeUp();
        case ToolCalls(_) =>
      }
    }

    /** One run of the generator; the value it yields, if it yields one. */
    method Step() returns (delta: Option<string>)
      modifies this
      ensures Now() == Act(old(Now()), Run)
      ensures yielded == old(yielded) + if delta.Some? then [delta.value] else []
    {
      delta := None;
      if phase == Ready {
        if |queue| > 0 {
          delta := Some(queue[0]);
          queue, yielded, phase := queue[1..], yielded + [queue[0]], Delivering;
        } else if done {
          phase := Leaving;
        } else {
          resolveNext, phase := true, Parked;
        }
      } else if phase == Leaving && streamEnded {
        phase := if error.Some? then Threw(error.value) else Returned;
      }
    }
  }

  // ------------------------------------------------------------ every interleaving

  function Execute(actions: seq<Action>): State {
    if actions == [] then START else Act(Execute(actions[..|actions| - 1]), actions[|actions| - 1])
  }

  /** No event after the stream has settled. */
  predicate Allowed(actions: seq<Action>) {
    forall k :: 0 <= k < |actions| ==> Possible(Execute(actions[..k]), actions[k])
  }

  /** What holds in every reachable state: no token is lost, doubled or reordered; a
      parked generator is registered for its wakeup and has nothing to do; and past
      the loop everything was over. */
  predicate Inv(s: State) {
    && s.yielded + s.queue == s.produced
    && (s.phase == Parked <==> s.registered)
    && (s.phase == Parked ==> s.queue == [] && !s.done)
    && (s.phase.Leaving? || s.phase.Returned? || s.phase.Threw? ==> s.done)
    && (s.phase.Returned? ==> s.error == None && s.streamEnded)
    && (s.phase.Threw? ==> s.error == Some(s.phase.error) && s.streamEnded)
    && (s.error.Some? ==> s.done)
  }

  /** An event wakes the generator when it is parked, and changes nothing else about where
      it is. */
  lemma OnlyTheParkedIsWoken(s: State, event: StreamEvent)
    requires Inv(s)
    ensures Emitted(s, event).phase == if s.phase == Parked && !event.ToolCalls? then Ready else s.phase
  {
  }

  lemma StepKeepsInv(s: State, a: Action)
    requires Inv(s) && Possible(s, a)
    ensures Inv(Act(s, a))
  {
    match a {
      case Emit(event) =>
        if event.Token? {
          assert s.yielded + (s.queue + [event.text]) == s.produced + [event.text];
        }
      case Run =>
        if s.phase == Ready && s.queue != [] {
          assert s.yielded + [s.queue[0]] + s.queue[1..] == s.yielded + s.queue;
        }
      case _ =>
    }
  }

  lemma {:induction false} NoTokenLostNoWakeupLost(actions: seq<Action>)
    requires Allowed(actions)
    ensures Inv(Execute(actions))
  {
    if actions != [] {
      var before := actions[..|actions| - 1];
      assert forall k :: 0 <= k < |before| ==> before[..k] == actions[..k];
      NoTokenLostNoWakeupLost(before);
      StepKeepsInv(Execute(before), actions[|actions| - 1]);
    }
  }

  // ------------------------------------------------------------ what the actions emitted

  function Events(actions: seq<Action>): seq<StreamEvent> {
    if actions == [] then []
    else
      var last := actions[|actions| - 1];
      Events(actions[..|actions| - 1]) + if last.Emit? then [last.event] else []
  }

  predicate IsTerminal(event: StreamEvent) {
    event.Done? || event.Failure?
  }

  predicate HasTerminal(events: seq<StreamEvent>) {
    exists k :: 0 <= k < |events| && IsTerminal(events[k])
  }

  lemma {:induction false} StateFollowsEvents(actions: seq<Action>)
    ensures Follows(Execute(actions), Events(actions))
  {
    if actions != [] {
      var before, last := actions[..|actions| - 1], actions[|actions| - 1];
      StateFollowsEvents(before);
      StepFollows(Execute(before), Events(before), last);
    }
  }

  predicate Follows(s: State, events: seq<StreamEvent>) {
    s.produced == Tokens(events) && (s.done <==> HasTerminal(events))
  }

  lemma StepFollows(s: State, events: seq<StreamEvent>, a: Action)
    requires Follows(s, events)
    ensures Follows(Act(s, a), events + if a.Emit? then [a.event] else [])
  {
    if a.Emit? {
      TokensSnoc(events, a.event);
      TerminalSnoc(events, a.event);
    } else {
      assert events + [] == events;
    }
  }

  lemma TerminalSnoc(events: seq<StreamEvent>, last: StreamEvent)
    ensures HasTerminal(events + [last]) <==> HasTerminal(events) || IsTerminal(last)
  {
    var all := events + [last];
    assert all[|events|] == last;
    if k :| 0 <= k < |events| && IsTerminal(events[k]) {
      assert IsTerminal(all[k]);
    }
  }

  /** The terminal event comes last, as providers promise. */
  predicate TerminalLast(events: seq<StreamEvent>) {
    forall k :: 0 <= k < |events| - 1 ==> !IsTerminal(events[k])
  }

  /** Past its loop the generator has yielded every token once, in order. */
  lemma {:induction false} AllTokensYielded(actions: seq<Action>)
    requires Allowed(actions) && TerminalLast(Events(actions))
    ensures var s := Execute(actions);
            s.phase.Leaving? || s.phase.Returned? || s.phase.Threw? ==> s.yielded == Tokens(Events(actions)) && s.queue == []
  {
    StateFollowsEvents(actions);
    NoTokenLostNoWakeupLost(actions);
    if actions != [] {
      var before, last := actions[..|actions| - 1], actions[|actions| - 1];
      assert forall k :: 0 <= k < |before| ==> before[..k] == actions[..k];
      NoTokenLostNoWakeupLost(before);
      StateFollowsEvents(before);
      if last.Emit? {
        NoneBeforeLast(Events(before), last.event);
      } else {
        assert Events(actions) == Events(before);
        AllTokensYielded(before);
      }
      LeavingIsEmpty(Execute(before), last);
    }
  }

  lemma NoneBeforeLast(events: seq<StreamEvent>, last: StreamEvent)
    requires TerminalLast(events + [last])
    ensures !HasTerminal(events)
  {
    assert forall k :: 0 <= k < |events| ==> (events + [last])[k] == events[k];
  }

  predicate PastLoop(phase: Phase) {
    phase.Leaving? || phase.Returned? || phase.Threw?
  }

  /** A step that leads past the loop, or is taken there before any new event. */
  lemma LeavingIsEmpty(s: State, a: Action)
    requires Inv(s) && Possible(s, a) && (a.Emit? ==> !s.done)
    requires PastLoop(s.phase) ==> s.queue == [] && s.yielded == s.produced
    ensures var next := Act(s, a);
            PastLoop(next.phase) ==> next.queue == [] && next.yielded == next.produced
  {
    StepKeepsInv(s, a);
    var next := Act(s, a);
    assert next.queue == [] ==> next.yielded + next.queue == next.yielded;
  }

  // ------------------------------------------------------------ progress

  /** Runs the generator, resuming it whenever it yielded, until it cannot go on. */
  function Drained(s: State): State
    decreases |s.queue|, match s.phase case Delivering => 3 case Ready => 2 case Leaving => 1 case _ => 0
  {
    match s.phase
    case Delivering => Drained(Act(s, Resume))
    case Ready => Drained(Ran(s))
    case Leaving => if s.streamEnded then Ran(s) else s
    case _ => s
  }

  lemma {:induction false} DrainedEnd(s: State)
    requires Inv(s) && s.streamEnded
    ensures var end := Drained(s);
            && Inv(end) && end.done == s.done && end.error == s.error
            && (if s.done then end.phase.Returned? || end.phase.Threw? else end.phase == Parked)
            && ((s.phase.Delivering? || s.phase.Ready? || s.phase.Parked?) ==> end.yielded == s.produced)
    decreases |s.queue|, match s.phase case Delivering => 3 case Ready => 2 case Leaving => 1 case _ => 0
  {
    match s.phase {
      case Delivering =>
        StepKeepsInv(s, Resume);
        DrainedEnd(Act(s, Resume));
      case Ready =>
        StepKeepsInv(s, Run);
        if s.queue != [] {
          DrainedEnd(Ran(s));
        } else if s.done {
          assert s.yielded + s.queue == s.yielded;
          StepKeepsInv(Ran(s), Run);
        } else {
          assert s.yielded + s.queue == s.yielded;
        }
      case Leaving =>
        StepKeepsInv(s, Run);
      case _ =>
        assert s.phase == Parked ==> s.yielded + s.queue == s.yielded;
    }
  }

  /** Once the provider's stream is over, the generator comes to its end if and only
      if some terminal event was emitted. If none was, it has delivered every token
      and waits for a wakeup that no one is left to give. */
  lemma EndsIffTerminal(actions: seq<Action>)
    requires Allowed(actions) && Execute(actions).streamEnded
    ensures var end := Drained(Execute(actions));
            && (end.phase.Returned? || end.phase.Threw? <==> HasTerminal(Events(actions)))
            && (!HasTerminal(Events(actions)) ==> end.phase == Parked && end.yielded == Tokens(Events(actions)))
  {
    NoTokenLostNoWakeupLost(actions);
    StateFollowsEvents(actions);
    DrainedEnd(Execute(actions));
  }

  // ------------------------------------------------------------ behind the selector

  predicate HasDone(events: seq<StreamEvent>) {
    exists k :: 0 <= k < |events| && events[k].Done?
  }

  lemma {:induction false} NonErrorsKeepDone(events: seq<StreamEvent>)
    ensures HasDone(ModelSelect.NonErrors(events)) <==> HasDone(events)
  {
    if events != [] {
      var front, last := events[..|events| - 1], events[|events| - 1];
      NonErrorsKeepDone(front);
      var kept := ModelSelect.NonErrors(events);
      if HasDone(events) {
        var k :| 0 <= k < |events| && events[k].Done?;
        if k < |front| {
          assert front[k].Done?;
          var j :| 0 <= j < |ModelSelect.NonErrors(front)| && ModelSelect.NonErrors(front)[j].Done?;
          assert kept[j].Done?;
        } else {
          assert kept[|kept| - 1].Done?;
        }
      }
      if HasDone(kept) {
        var k :| 0 <= k < |kept| && kept[k].Done?;
        if k < |ModelSelect.NonErrors(front)| {
          assert ModelSelect.NonErrors(front)[k].Done?;
          var j :| 0 <= j < |front| && front[j].Done?;
          assert events[j].Done?;
        } else {
          assert events[|events| - 1].Done?;
        }
      }
    }
  }

  /** The serving provider gave data but never said it was done. */
  predicate Broken(attempt: ModelSelect.Attempt) {
    !ModelSelect.Failed(attempt) && !HasDone(attempt.events)
  }

  /** Selector and bridge together. An error that follows data is swallowed by the
      selector, so the bridge never hears of it: the generator hangs exactly when the
      provider that serves the cascade gives data and no done event. */
  lemma BridgeHangsExactlyWhenServerBreaksOff(available: seq<ModelSelect.Provider>,
                                              attempts: nat -> ModelSelect.Attempt, actions: seq<Action>)
    requires Allowed(actions) && Execute(actions).streamEnded
    requires Events(actions) == ModelSelect.Forwarded(available, attempts)
    ensures Drained(Execute(actions)).phase == Parked <==>
            available != [] && Broken(attempts(ModelSelect.Served(available, attempts, 0)))
  {
    EndsIffTerminal(actions);
    var events := Events(actions);
    if available != [] {
      var attempt := attempts(ModelSelect.Served(available, attempts, 0));
      NonErrorsKeepDone(attempt.events);
      ModelSelect.NonErrorsHaveNoFailure(attempt.events);
      if !ModelSelect.Failed(attempt) {
        assert HasTerminal(events) <==> HasDone(events) by {
          if HasTerminal(events) {
            var k :| 0 <= k < |events| && IsTerminal(events[k]);
            assert events[k].Done?;
          }
          if HasDone(events) {
            var k :| 0 <= k < |events| && events[k].Done?;
            assert IsTerminal(events[k]);
          }
        }
      } else {
        assert IsTerminal(events[0]);
      }
    } else {
      assert IsTerminal(events[0]);
    }
  }
}
