/**
 The failover cascade, told from the events of the attempts alone.
 */
module SelectorStory {
  import opened Text
  import opened Streams
  import opened ModelSelect

  /** Something other than an error came from the provider. */
  predicate GaveData(attempt: Attempt) {
    exists k :: 0 <= k < |attempt.events| && !attempt.events[k].Failure?
  }

  /** A provider that gave no data is passed over when it was silent, or when its last
      error is a configuration error or none of the model's own. */
  predicate PassedOver(attempt: Attempt) {
    var n := |attempt.events|;
    && !GaveData(attempt)
    && (n == 0 || attempt.events[n - 1].error.cascadable || !attempt.events[n - 1].error.modelLevel)
  }

  /** It is put down for thirty seconds when it was silent, or when its last error is
      neither a configuration error nor the model's own. */
  predicate PutDown(attempt: Attempt) {
    var n := |attempt.events|;
    && !GaveData(attempt)
    && (n == 0 || (!attempt.events[n - 1].error.cascadable && !attempt.events[n - 1].error.modelLevel))
  }

  /** Passing on everything but errors keeps all data, in order. */
  lemma {:induction false} DataIsPassedOn(a: seq<StreamEvent>, event: StreamEvent, b: seq<StreamEvent>)
    ensures NonErrors([]) == []
    ensures NonErrors(a + [event] + b) == NonErrors(a) + (if event.Failure? then [] else [event]) + NonErrors(b)
    decreases |b|
  {
    if b == [] {
      assert (a + [event] + b)[..|a|] == a && a + [event] + b == a + [event];
      assert NonErrors(a) + (if event.Failure? then [] else [event]) + []
          == NonErrors(a) + (if event.Failure? then [] else [event]);
    } else {
      var front, last := b[..|b| - 1], b[|b| - 1];
      var all := a + [event] + b;
      assert all[..|all| - 1] == a + [event] + front && all[|all| - 1] == last;
      DataIsPassedOn(a, event, front);
      Regroup(NonErrors(a) + (if event.Failure? then [] else [event]), NonErrors(front),
              if last.Failure? then [] else [last]);
    }
  }

  lemma FailedMeansNoData(attempt: Attempt)
    ensures Failed(attempt) <==> !GaveData(attempt)
  {
    NonErrorsHaveNoFailure(attempt.events);
  }

  /** The error of an attempt without data is the last event's; of a silent one an error
      to be retried, neither cascadable nor the model's own. */
  lemma ErrorIsLast(p: Provider, attempt: Attempt)
    requires !GaveData(attempt)
    ensures var n := |attempt.events|;
            if n > 0 then ErrorOf(p, attempt) == attempt.events[n - 1].error
            else ErrorOf(p, attempt)
                 == ProviderError("Provider " + p.id + " returned no events (empty stream).", true, false, false)
  {
    var n := |attempt.events|;
    assert n > 0 ==> attempt.events[n - 1].Failure?;
  }

  lemma PassesAndPutsDown(p: Provider, attempt: Attempt)
    ensures PassedOver(attempt) <==> Failed(attempt) && !StopsAtError(p, attempt)
    ensures PutDown(attempt) <==> MarksDown(p, attempt)
  {
    FailedMeansNoData(attempt);
    if !GaveData(attempt) {
      ErrorIsLast(p, attempt);
    }
  }

  /** The cascade is over with the s-th provider: all before it are passed over, and it
      is not or is the last. */
  predicate EndsWith(available: seq<Provider>, attempts: nat -> Attempt, s: nat) {
    && s < |available| && (forall j :: 0 <= j < s ==> PassedOver(attempts(j)))
    && (s == |available| - 1 || !PassedOver(attempts(s)))
  }

  lemma {:induction false} ServedIsEnd(available: seq<Provider>, attempts: nat -> Attempt, s: nat, i: nat)
    requires EndsWith(available, attempts, s) && i <= s
    ensures Served(available, attempts, i) == s
    decreases s - i
  {
    PassesAndPutsDown(available[i], attempts(i));
    if i < s {
      ServedIsEnd(available, attempts, s, i + 1);
    }
  }

  lemma {:induction false} SomeEnd(available: seq<Provider>, attempts: nat -> Attempt, i: nat) returns (s: nat)
    requires i < |available| && forall j :: 0 <= j < i ==> PassedOver(attempts(j))
    ensures EndsWith(available, attempts, s)
    decreases |available| - i
  {
    s := i;
    if i < |available| - 1 && PassedOver(attempts(i)) {
      s := SomeEnd(available, attempts, i + 1);
    }
  }

  /** What a call gives its caller, and how far it gets: the data of the first provider
      that gives any, or the last error of the one at which the cascade is over. */
  lemma CascadeDecides(available: seq<Provider>, attempts: nat -> Attempt, s: nat)
    requires EndsWith(available, attempts, s)
    ensures var events, n := attempts(s).events, |attempts(s).events|;
            && Tried(available, attempts) == s + 1
            && (GaveData(attempts(s)) ==> Forwarded(available, attempts) == NonErrors(events))
            && (!GaveData(attempts(s)) && n > 0 ==>
                  Forwarded(available, attempts) == [Failure(events[n - 1].error)])
            && (n == 0 ==>
                  Forwarded(available, attempts)
                  == [Failure(ProviderError("Provider " + available[s].id + " returned no events (empty stream).",
                                            true, false, false))])
  {
    ServedIsEnd(available, attempts, s, 0);
    FailedMeansNoData(attempts(s));
    if !GaveData(attempts(s)) {
      ErrorIsLast(available[s], attempts(s));
    }
  }

  /** A call always is over with just one provider, if one is available; else it gives a
      single error that is not to be retried. */
  lemma CascadeIsOver(available: seq<Provider>, attempts: nat -> Attempt)
    ensures available != [] ==> exists s: nat :: EndsWith(available, attempts, s)
    ensures available == [] ==> Tried(available, attempts) == 0
    ensures available == [] ==>
              Forwarded(available, attempts)
              == [Failure(ProviderError("All providers are unavailable", false, false, false))]
    ensures forall s: nat, t: nat :: EndsWith(available, attempts, s) && EndsWith(available, attempts, t) ==> s == t
  {
    if available != [] {
      var s := SomeEnd(available, attempts, 0);
    }
    forall s: nat, t: nat | EndsWith(available, attempts, s) && EndsWith(available, attempts, t) ensures s == t {
      ServedIsEnd(available, attempts, s, 0);
      ServedIsEnd(available, attempts, t, 0);
    }
  }

  /** The cooldowns that a call sets: for thirty seconds, for each provider that it put
      down, and no other is touched. A silent provider is always put down. */
  lemma CascadePutsDown(available: seq<Provider>, attempts: nat -> Attempt, cooldowns: Cooldowns, s: nat, k: nat)
    requires EndsWith(available, attempts, s) && k < |available|
    requires forall i, j :: 0 <= i < j < |available| ==> available[i].id != available[j].id
    ensures var after, id := Marked(available, attempts, cooldowns, Tried(available, attempts)), available[k].id;
            if k <= s && PutDown(attempts(k)) then id in after && after[id] == attempts(k).finishedAt + 30000
            else (id in after <==> id in cooldowns) && (id in cooldowns ==> after[id] == cooldowns[id])
  {
    CascadeDecides(available, attempts, s);
    PassesAndPutsDown(available[k], attempts(k));
    CooldownExactly(available, attempts, cooldowns, s + 1, k);
  }

  lemma CallsOneByOne(setup: Setup, cooldowns: Cooldowns, calls: seq<Call>, call: Call)
    ensures AfterCalls(setup, cooldowns, []) == cooldowns
    ensures AfterCalls(setup, cooldowns, calls + [call])
         == AfterCall(setup, AfterCalls(setup, cooldowns, calls), call)
  {
    assert (calls + [call])[..|calls|] == calls;
  }

  /** A call sets no cooldown of a provider that it does not consult. */
  lemma OnlyConsultedArePutDown(setup: Setup, cooldowns: Cooldowns, call: Call, id: string)
    requires !Consults(setup, cooldowns, call, id)
    ensures var after := AfterCall(setup, cooldowns, call);
            id in after ==> id in cooldowns && after[id] == cooldowns[id]
  {
    if call.AnyProvider? {
      var available := Available(cooldowns, setup.chain, call.now);
      var tried := Tried(available, call.attempts);
      CooldownsOfOthers(available, call.attempts, Pruned(cooldowns, setup.chain, call.now), tried, id);
    }
  }

  /** A call of a named provider puts it down exactly when some error came that is not
      the model's own; it opens no stream of one that is unknown or cooling, and touches
      no other cooldown. */
  lemma NamedIsPutDown(providers: seq<Provider>, cooldowns: Cooldowns, id: string, now: nat, attempt: Attempt,
                       other: string)
    ensures var after := AfterOne(providers, cooldowns, id, now, attempt);
            var known := exists k :: 0 <= k < |providers| && providers[k].id == id;
            var cooling := id in cooldowns && now < cooldowns[id];
            var bad := exists k :: 0 <= k < |attempt.events| && attempt.events[k].Failure?
                                   && !attempt.events[k].error.modelLevel;
            && (!known || cooling ==> after == cooldowns)
            && (known && !cooling && bad ==> id in after && after[id] == attempt.finishedAt + 30000)
            && (known && !cooling && !bad ==> id !in after)
            && (other != id ==> (other in after <==> other in cooldowns)
                                && (other in after ==> after[other] == cooldowns[other]))
  {
  }
}
