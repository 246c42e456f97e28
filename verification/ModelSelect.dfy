/** The failover selector of src/agents/model-select.ts. */
module ModelSelect {
  import opened Text
  import opened Streams

  const COOLDOWN_MS: nat := 30000

  datatype Role = Primary | Backup | Uncensored | Untagged

  /** `loopback` is the host check on the provider's base URL. */
  datatype Provider = Provider(id: string, role: Role, loopback: bool)

  datatype PriorityMode = ConfigOrder | ApiFirst | LocalFirst

  type Cooldowns = map<string, nat>

  /** What one call of a provider's stream did, and when it was over. */
  datatype Attempt = Attempt(events: seq<StreamEvent>, finishedAt: nat)

  // ------------------------------------------------------------ the chain

  function Keep(providers: seq<Provider>, loopback: bool): seq<Provider> {
    if providers == [] then []
    else
      var last := providers[|providers| - 1];
      Keep(providers[..|providers| - 1], loopback) + if last.loopback == loopback then [last] else []
  }

  function Sorted(providers: seq<Provider>, mode: PriorityMode): seq<Provider> {
    match mode
    case ConfigOrder => providers
    case LocalFirst => Keep(providers, true) + Keep(providers, false)
    case ApiFirst => Keep(providers, false) + Keep(providers, true)
  }

  /** src/agents/model-select.ts sortProvidersByPriority. */
  method SortProvidersByPriority(providers: seq<Provider>, mode: PriorityMode) returns (sorted: seq<Provider>)
    ensures sorted == Sorted(providers, mode)
  {
    if mode == ConfigOrder {
      return providers;
    }
    var local, api := [], [];
    for k := 0 to |providers|
      invariant local == Keep(providers[..k], true) && api == Keep(providers[..k], false)
    {
      assert providers[..k + 1][..k] == providers[..k];
      if providers[k].loopback {
        local := local + [providers[k]];
      } else {
        api := api + [providers[k]];
      }
    }
    assert providers[..|providers|] == providers;
    sorted := if mode == LocalFirst then local + api else api + local;
  }

  lemma KeepSnoc(front: seq<Provider>, last: Provider, loopback: bool)
    ensures multiset(Keep(front + [last], loopback)) ==
            multiset(Keep(front, loopback)) + if last.loopback == loopback then multiset{last} else multiset{}
  {
    assert (front + [last])[..|front|] == front;
    assert Keep(front, loopback) + [] == Keep(front, loopback);
  }

  lemma {:induction false} KeepPartitions(providers: seq<Provider>)
    ensures multiset(Keep(providers, true)) + multiset(Keep(providers, false)) == multiset(providers)
  {
    if providers != [] {
      var front := providers[..|providers| - 1];
      var last := providers[|providers| - 1];
      KeepPartitions(front);
      assert providers == front + [last];
      assert multiset(front + [last]) == multiset(front) + multiset{last};
      KeepSnoc(front, last, true);
      KeepSnoc(front, last, false);
    }
  }

  lemma {:induction false} KeepAppend(p: seq<Provider>, q: seq<Provider>, loopback: bool)
    ensures Keep(p + q, loopback) == Keep(p, loopback) + Keep(q, loopback)
    decreases |q|
  {
    if q == [] {
      assert p + q == p;
    } else {
      assert (p + q)[..|p + q| - 1] == p + q[..|q| - 1];
      KeepAppend(p, q[..|q| - 1], loopback);
    }
  }

  lemma {:induction false} KeepKeeps(providers: seq<Provider>, a: bool, b: bool)
    ensures Keep(Keep(providers, a), b) == if a == b then Keep(providers, a) else []
  {
    if providers != [] {
      var front, last := providers[..|providers| - 1], providers[|providers| - 1];
      KeepKeeps(front, a, b);
      if last.loopback == a {
        KeepAppend(Keep(front, a), [last], b);
        assert Keep([last], b) == Keep([], b) + if last.loopback == b then [last] else [];
      } else {
        assert Keep(front, a) + [] == Keep(front, a);
      }
    }
  }

  /** Sorting is a stable partition: no provider is lost or invented, and within the
      local and within the remote ones the configured order stands. */
  lemma SortIsStablePartition(providers: seq<Provider>, mode: PriorityMode)
    ensures multiset(Sorted(providers, mode)) == multiset(providers)
    ensures forall loopback :: Keep(Sorted(providers, mode), loopback) == Keep(providers, loopback)
    ensures mode != ConfigOrder ==>
              var n := |Keep(providers, mode == LocalFirst)|;
              forall k :: 0 <= k < |Sorted(providers, mode)| ==>
                (Sorted(providers, mode)[k].loopback == (mode == LocalFirst) <==> k < n)
  {
    forall loopback ensures Keep(Sorted(providers, mode), loopback) == Keep(providers, loopback) {
      SortKeepsOrder(providers, mode, loopback);
    }
    SortPermutes(providers, mode);
    SortSeparates(providers, mode);
  }

  lemma SortKeepsOrder(providers: seq<Provider>, mode: PriorityMode, loopback: bool)
    ensures Keep(Sorted(providers, mode), loopback) == Keep(providers, loopback)
  {
    match mode {
      case ConfigOrder =>
      case LocalFirst => KeepBoth(providers, true, loopback);
      case ApiFirst => KeepBoth(providers, false, loopback);
    }
  }

  lemma KeepBoth(providers: seq<Provider>, first: bool, loopback: bool)
    ensures Keep(Keep(providers, first) + Keep(providers, !first), loopback) == Keep(providers, loopback)
  {
    calc {
      Keep(Keep(providers, first) + Keep(providers, !first), loopback);
      { KeepAppend(Keep(providers, first), Keep(providers, !first), loopback); }
      Keep(Keep(providers, first), loopback) + Keep(Keep(providers, !first), loopback);
      { KeepKeeps(providers, first, loopback); KeepKeeps(providers, !first, loopback); }
      (if first == loopback then Keep(providers, first) else [])
      + (if !first == loopback then Keep(providers, !first) else []);
      Keep(providers, loopback);
    }
  }

  lemma SortPermutes(providers: seq<Provider>, mode: PriorityMode)
    ensures multiset(Sorted(providers, mode)) == multiset(providers)
  {
    KeepPartitions(providers);
  }

  lemma SortSeparates(providers: seq<Provider>, mode: PriorityMode)
    ensures mode != ConfigOrder ==>
              var n := |Keep(providers, mode == LocalFirst)|;
              forall k :: 0 <= k < |Sorted(providers, mode)| ==>
                (Sorted(providers, mode)[k].loopback == (mode == LocalFirst) <==> k < n)
  {
    KeptAreKept(providers, true);
    KeptAreKept(providers, false);
  }

  lemma {:induction false} KeptAreKept(providers: seq<Provider>, loopback: bool)
    ensures forall k :: 0 <= k < |Keep(providers, loopback)| ==> Keep(providers, loopback)[k].loopback == loopback
  {
    if providers != [] {
      KeptAreKept(providers[..|providers| - 1], loopback);
    }
  }

  function Censored(providers: seq<Provider>): seq<Provider> {
    if providers == [] then []
    else (if providers[0].role != Uncensored then [providers[0]] else []) + Censored(providers[1..])
  }

  function Chain(providers: seq<Provider>, mode: PriorityMode): seq<Provider> {
    Sorted(Censored(providers), mode)
  }

  /** The chain has exactly the providers without the uncensored tag. */
  lemma ChainMembers(providers: seq<Provider>, mode: PriorityMode, p: Provider)
    ensures p in Chain(providers, mode) <==> p in providers && p.role != Uncensored
  {
    CensoredMembers(providers, p);
    SortIsStablePartition(Censored(providers), mode);
    assert p in Chain(providers, mode) <==> p in multiset(Chain(providers, mode));
    assert p in Censored(providers) <==> p in multiset(Censored(providers));
  }

  lemma {:induction false} CensoredMembers(providers: seq<Provider>, p: Provider)
    ensures p in Censored(providers) <==> p in providers && p.role != Uncensored
    decreases |providers|
  {
    if providers != [] {
      CensoredMembers(providers[1..], p);
    }
  }

  // ------------------------------------------------------------ one cascade

  function NonErrors(events: seq<StreamEvent>): seq<StreamEvent> {
    if events == [] then []
    else NonErrors(events[..|events| - 1]) + if events[|events| - 1].Failure? then [] else [events[|events| - 1]]
  }

  function LastFailure(events: seq<StreamEvent>): Option<ProviderError> {
    if events == [] then None
    else if events[|events| - 1].Failure? then Some(events[|events| - 1].error)
    else LastFailure(events[..|events| - 1])
  }

  function EmptyStream(p: Provider): ProviderError {
    ProviderError("Provider " + p.id + " returned no events (empty stream).", true, false, false)
  }

  function ErrorOf(p: Provider, attempt: Attempt): ProviderError {
    LastFailure(attempt.events).GetOr(EmptyStream(p))
  }

  /** Nothing but errors came from the attempt. */
  predicate Failed(attempt: Attempt) {
    NonErrors(attempt.events) == []
  }

  predicate MarksDown(p: Provider, attempt: Attempt) {
    Failed(attempt) && !ErrorOf(p, attempt).cascadable && !ErrorOf(p, attempt).modelLevel
  }

  /** The chain is left at this attempt although it failed. */
  predicate StopsAtError(p: Provider, attempt: Attempt) {
    Failed(attempt) && !ErrorOf(p, attempt).cascadable && ErrorOf(p, attempt).modelLevel
  }

  /** The attempt at which the cascade ends, starting from the i-th. */
  function Served(available: seq<Provider>, attempts: nat -> Attempt, i: nat): (served: nat)
    requires i < |available|
    ensures i <= served < |available|
    decreases |available| - i
  {
    if !Failed(attempts(i)) || StopsAtError(available[i], attempts(i)) || i == |available| - 1 then i
    else Served(available, attempts, i + 1)
  }

  const NONE_AVAILABLE := ProviderError("All providers are unavailable", false, false, false)

  /** Everything a call forwards to its caller. */
  function Forwarded(available: seq<Provider>, attempts: nat -> Attempt): (events: seq<StreamEvent>)
    ensures events != []
  {
    if available == [] then [Failure(NONE_AVAILABLE)]
    else
      var served := Served(available, attempts, 0);
      if Failed(attempts(served)) then [Failure(ErrorOf(available[served], attempts(served)))]
      else NonErrors(attempts(served).events)
  }

  /** The cooldowns once the first `n` attempts are over. */
  function Marked(available: seq<Provider>, attempts: nat -> Attempt, cooldowns: Cooldowns, n: nat): Cooldowns
    requires n <= |available|
  {
    if n == 0 then cooldowns
    else
      var before, p, attempt := Marked(available, attempts, cooldowns, n - 1), available[n - 1], attempts(n - 1);
      if MarksDown(p, attempt) then before[p.id := attempt.finishedAt + COOLDOWN_MS] else before
  }

  function Tried(available: seq<Provider>, attempts: nat -> Attempt): (tried: nat)
    ensures tried <= |available|
  {
    if available == [] then 0 else Served(available, attempts, 0) + 1
  }

  // ------------------------------------------------------------ availability

  predicate IsAvailable(cooldowns: Cooldowns, p: Provider, now: nat) {
    p.id !in cooldowns || now >= cooldowns[p.id]
  }

  function Available(cooldowns: Cooldowns, chain: seq<Provider>, now: nat): seq<Provider> {
    if chain == [] then []
    else (if IsAvailable(cooldowns, chain[0], now) then [chain[0]] else []) + Available(cooldowns, chain[1..], now)
  }

  /** Cooldowns without the expired ones of the chain's providers. */
  function Pruned(cooldowns: Cooldowns, chain: seq<Provider>, now: nat): Cooldowns {
    map id | id in cooldowns && !(now >= cooldowns[id] && exists k :: 0 <= k < |chain| && chain[k].id == id)
      :: cooldowns[id]
  }

  /** The named provider is configured and not cooling. */
  predicate Reachable(providers: seq<Provider>, cooldowns: Cooldowns, id: string, now: nat) {
    && (exists k :: 0 <= k < |providers| && providers[k].id == id)
    && (id in cooldowns ==> now >= cooldowns[id])
  }

  /** The cooldowns after a call of the named provider. */
  function AfterOne(providers: seq<Provider>, cooldowns: Cooldowns, id: string, now: nat, attempt: Attempt): Cooldowns {
    if !Reachable(providers, cooldowns, id, now) then cooldowns
    else if exists k :: 0 <= k < |attempt.events| && attempt.events[k].Failure? && !attempt.events[k].error.modelLevel
    then cooldowns[id := attempt.finishedAt + COOLDOWN_MS]
    else cooldowns - {id}
  }

  // ------------------------------------------------------------ the selector

  class ModelSelector {
    const allProviders: seq<Provider>
    const chainProviders: seq<Provider>
    var cooldowns: Cooldowns

    constructor (providers: seq<Provider>, mode: PriorityMode)
      ensures allProviders == providers && chainProviders == Chain(providers, mode) && cooldowns == map[]
    {
      allProviders := providers;
      chainProviders := Sorted(Censored(providers), mode);
      cooldowns := map[];
    }

    method CheckAvailable(p: Provider, now: nat) returns (available: bool)
      modifies this
      ensures available == IsAvailable(old(cooldowns), p, now)
      ensures cooldowns == if available then old(cooldowns) - {p.id} else old(cooldowns)
    {
      if p.id !in cooldowns {
        assert cooldowns - {p.id} == cooldowns;
        return true;
      }
      if now >= cooldowns[p.id] {
        cooldowns := cooldowns - {p.id};
        return true;
      }
      return false;
    }

    method FilterAvailable(now: nat) returns (available: seq<Provider>)
      modifies this
      ensures available == Available(old(cooldowns), chainProviders, now)
      ensures cooldowns == Pruned(old(cooldowns), chainProviders, now)
    {
      available := [];
      assert chainProviders[0..] == chainProviders;
      for k := 0 to |chainProviders|
        invariant available + Available(old(cooldowns), chainProviders[k..], now)
               == Available(old(cooldowns), chainProviders, now)
        invariant cooldowns == Pruned(old(cooldowns), chainProviders[..k], now)
      {
        var p := chainProviders[k];
        FilterStep(old(cooldowns), chainProviders, k, now, available);
        var isAvailable := CheckAvailable(p, now);
        PrunedSnoc(old(cooldowns), chainProviders, k, now);
        if isAvailable {
          available := available + [p];
        }
      }
      assert chainProviders[..|chainProviders|] == chainProviders;
    }

    method MarkDown(p: Provider, now: nat)
      modifies this
      ensures cooldowns == old(cooldowns)[p.id := now + COOLDOWN_MS]
    {
      cooldowns := cooldowns[p.id := now + COOLDOWN_MS];
    }

    /** One provider of the cascade: its stream's callback, run over its events. */
    method Stream(events: seq<StreamEvent>)
      returns (forwarded: seq<StreamEvent>, succeeded: bool, lastError: Option<ProviderError>)
      ensures forwarded == NonErrors(events) && (succeeded <==> forwarded != []) && lastError == LastFailure(events)
    {
      forwarded, succeeded, lastError := [], false, None;
      for k := 0 to |events|
        invariant forwarded == NonErrors(events[..k]) && (succeeded <==> forwarded != [])
        invariant lastError == LastFailure(events[..k])
      {
        assert events[..k + 1][..k] == events[..k];
        match events[k] {
          case Failure(error) =>
            lastError := Some(error);
          case _ =>
            succeeded := true;
            forwarded := forwarded + [events[k]];
        }
      }
      assert events[..|events|] == events;
    }

    /** One round of the cascade; `next` says that it goes on to the next provider. */
    method TryProvider(provider: Provider, attempt: Attempt, last: bool)
      returns (forwarded: seq<StreamEvent>, next: bool)
      modifies this
      ensures next <==> Failed(attempt) && !StopsAtError(provider, attempt) && !last
      ensures !next ==> forwarded == if Failed(attempt) then [Failure(ErrorOf(provider, attempt))]
                                     else NonErrors(attempt.events)
      ensures cooldowns == if MarksDown(provider, attempt)
                           then old(cooldowns)[provider.id := attempt.finishedAt + COOLDOWN_MS] else old(cooldowns)
    {
      var events, succeeded, lastError := Stream(attempt.events);
      if succeeded {
        return events, false;
      }
      var error := lastError.GetOr(EmptyStream(provider));
      if !error.cascadable {
        if error.modelLevel {
          return [Failure(error)], false;
        }
        MarkDown(provider, attempt.finishedAt);
      }
      return [Failure(error)], !last;
    }

    /** src/agents/model-select.ts tryStream. `attempts` says what the i-th stream
        call of the cascade does. */
    method TryStream(now: nat, attempts: nat -> Attempt) returns (forwarded: seq<StreamEvent>, tried: nat)
      modifies this
      ensures var available := Available(old(cooldowns), chainProviders, now);
              && forwarded == Forwarded(available, attempts)
              && tried == Tried(available, attempts)
              && cooldowns == Marked(available, attempts, Pruned(old(cooldowns), chainProviders, now), tried)
    {
      var available := FilterAvailable(now);
      if |available| == 0 {
        return [Failure(NONE_AVAILABLE)], 0;
      }
      forwarded, tried := Cascade(available, attempts);
    }

    method Cascade(available: seq<Provider>, attempts: nat -> Attempt) returns (forwarded: seq<StreamEvent>, tried: nat)
      requires available != []
      modifies this
      ensures forwarded == Forwarded(available, attempts) && tried == Tried(available, attempts)
      ensures cooldowns == Marked(available, attempts, old(cooldowns), tried)
    {
      var next := true;
      forwarded, tried := [], 0;
      while next
        invariant tried <= |available| && Underway(available, attempts, tried, next, forwarded)
        invariant cooldowns == Marked(available, attempts, old(cooldowns), tried)
        decreases next, |available| - tried
      {
        forwarded, next := TryProvider(available[tried], attempts(tried), tried == |available| - 1);
        CascadeStep(available, attempts, old(cooldowns), tried, next, forwarded);
        tried := tried + 1;
      }
    }

    /** src/agents/model-select.ts tryStreamWithProvider: all events are passed on,
        and every error that is not a model-level one marks the provider down. */
    method TryStreamWithProvider(providerId: string, now: nat, attempt: Attempt) returns (forwarded: seq<StreamEvent>)
      modifies this
      ensures if Reachable(allProviders, old(cooldowns), providerId, now) then forwarded == attempt.events
              else exists e :: forwarded == [Failure(e)]
      ensures cooldowns == AfterOne(allProviders, old(cooldowns), providerId, now, attempt)
    {
      var at := 0;
      while at < |allProviders| && allProviders[at].id != providerId
        invariant at <= |allProviders|
        invariant forall k :: 0 <= k < at ==> allProviders[k].id != providerId
      {
        at := at + 1;
      }
      if at == |allProviders| {
        return [Failure(ProviderError("Fallback provider is not configured", false, false, false))];
      }
      var provider := allProviders[at];
      var available := CheckAvailable(provider, now);
      if !available {
        return [Failure(ProviderError("Fallback provider is in cooldown", true, false, false))];
      }
      forwarded := [];
      for k := 0 to |attempt.events|
        invariant forwarded == attempt.events[..k]
        invariant cooldowns == if exists j :: 0 <= j < k && attempt.events[j].Failure? && !attempt.events[j].error.modelLevel
                               then old(cooldowns)[providerId := attempt.finishedAt + COOLDOWN_MS]
                               else old(cooldowns) - {providerId}
      {
        var event := attempt.events[k];
        if event.Failure? && !event.error.modelLevel {
          MarkDown(provider, attempt.finishedAt);
        }
        forwarded := forwarded + [event];
      }
    }
  }

  /** The loop of the cascade before its i-th round, or after its last. */
  ghost predicate Underway(available: seq<Provider>, attempts: nat -> Attempt, i: nat, next: bool,
                           forwarded: seq<StreamEvent>)
    requires available != [] && i <= |available|
  {
    if next then i < |available| && Served(available, attempts, i) == Served(available, attempts, 0)
    else i == Tried(available, attempts) && forwarded == Forwarded(available, attempts)
  }

  lemma CascadeStep(available: seq<Provider>, attempts: nat -> Attempt, cooldowns: Cooldowns, i: nat, next: bool,
                    forwarded: seq<StreamEvent>)
    requires i < |available| && Underway(available, attempts, i, true, [])
    requires next <==> Failed(attempts(i)) && !StopsAtError(available[i], attempts(i)) && i != |available| - 1
    requires !next ==> forwarded == if Failed(attempts(i)) then [Failure(ErrorOf(available[i], attempts(i)))]
                                    else NonErrors(attempts(i).events)
    ensures Underway(available, attempts, i + 1, next, forwarded)
    ensures Marked(available, attempts, cooldowns, i + 1) ==
            var before := Marked(available, attempts, cooldowns, i);
            if MarksDown(available[i], attempts(i)) then before[available[i].id := attempts(i).finishedAt + COOLDOWN_MS]
            else before
  {
  }

  lemma FilterStep(cooldowns: Cooldowns, chain: seq<Provider>, k: nat, now: nat, available: seq<Provider>)
    requires k < |chain|
    ensures available + Available(cooldowns, chain[k..], now) ==
            (if IsAvailable(cooldowns, chain[k], now) then available + [chain[k]] else available)
            + Available(cooldowns, chain[k + 1..], now)
    ensures IsAvailable(Pruned(cooldowns, chain[..k], now), chain[k], now) == IsAvailable(cooldowns, chain[k], now)
  {
    assert chain[k..][0] == chain[k] && chain[k..][1..] == chain[k + 1..];
    var rest := Available(cooldowns, chain[k + 1..], now);
    Regroup(available, [chain[k]], rest);
    assert [] + rest == rest;
  }

  lemma PrunedSnoc(cooldowns: Cooldowns, chain: seq<Provider>, k: nat, now: nat)
    requires k < |chain|
    ensures Pruned(cooldowns, chain[..k + 1], now)
         == if IsAvailable(cooldowns, chain[k], now) then Pruned(cooldowns, chain[..k], now) - {chain[k].id}
            else Pruned(cooldowns, chain[..k], now)
  {
    var a, b := Pruned(cooldowns, chain[..k + 1], now), Pruned(cooldowns, chain[..k], now);
    forall id | id in cooldowns ensures id in a <==> id in b && !(id == chain[k].id && now >= cooldowns[id]) {
      if j :| 0 <= j < k && chain[..k][j].id == id {
        assert chain[..k + 1][j].id == id;
      }
      assert chain[..k + 1][k] == chain[k];
      if j: int {:trigger chain[..k + 1][j]} :| 0 <= j < |chain[..k + 1]| && chain[..k + 1][j].id == id {
        assert j < k ==> chain[..k][j].id == id;
      }
    }
  }

  // ------------------------------------------------------------ what a call promises

  lemma {:induction false} AllBeforeServedFail(available: seq<Provider>, attempts: nat -> Attempt, i: nat)
    requires i < |available|
    ensures var served := Served(available, attempts, i);
            && (forall j :: i <= j < served ==> Failed(attempts(j)) && !StopsAtError(available[j], attempts(j)))
            && (Failed(attempts(served)) ==> served == |available| - 1 || StopsAtError(available[served], attempts(served)))
    decreases |available| - i
  {
    if Served(available, attempts, i) != i {
      AllBeforeServedFail(available, attempts, i + 1);
    }
  }

  predicate AllFailures(events: seq<StreamEvent>) {
    forall k :: 0 <= k < |events| ==> events[k].Failure?
  }

  lemma {:induction false} NonErrorsHaveNoFailure(events: seq<StreamEvent>)
    ensures forall k :: 0 <= k < |NonErrors(events)| ==> !NonErrors(events)[k].Failure? && NonErrors(events)[k] in events
    ensures NonErrors(events) == [] <==> AllFailures(events)
  {
    if events != [] {
      NonErrorsHaveNoFailure(events[..|events| - 1]);
    }
  }

  /** A caller gets either one error and nothing else, or no error and all events of
      one provider, the first in the chain that gave any. */
  lemma OneErrorOrOneProvider(available: seq<Provider>, attempts: nat -> Attempt)
    ensures var events := Forwarded(available, attempts);
            || (|events| == 1 && events[0].Failure?)
            || (exists s :: 0 <= s < |available| && events == NonErrors(attempts(s).events) && events != []
                  && (forall j :: 0 <= j < s ==> AllFailures(attempts(j).events))
                  && forall k :: 0 <= k < |events| ==> !events[k].Failure?)
  {
    if available != [] {
      var served := Served(available, attempts, 0);
      AllBeforeServedFail(available, attempts, 0);
      forall j | 0 <= j <= served ensures NonErrors(attempts(j).events) == [] <==> AllFailures(attempts(j).events) {
        NonErrorsHaveNoFailure(attempts(j).events);
      }
      NonErrorsHaveNoFailure(attempts(served).events);
    }
  }

  /** The cascade fails at the s-th provider: none so far gave more than errors, and
      it is the last one, or its last error is a model-level one that does not cascade. */
  predicate FailsAt(available: seq<Provider>, attempts: nat -> Attempt, s: nat) {
    && s < |available| && (forall j :: 0 <= j <= s ==> Failed(attempts(j)))
    && (s == |available| - 1 || StopsAtError(available[s], attempts(s)))
  }

  /** An error comes through exactly when no provider was available or the cascade
      fails somewhere. */
  lemma ErrorExactlyWhenAllFail(available: seq<Provider>, attempts: nat -> Attempt)
    ensures Forwarded(available, attempts)[0].Failure? <==>
            available == [] || exists s: nat :: FailsAt(available, attempts, s)
  {
    if available != [] {
      var served := Served(available, attempts, 0);
      AllBeforeServedFail(available, attempts, 0);
      NonErrorsHaveNoFailure(attempts(served).events);
      if Failed(attempts(served)) {
        assert FailsAt(available, attempts, served);
      }
      if s: nat :| FailsAt(available, attempts, s) {
        assert served <= s ==> Failed(attempts(served));
        assert s < served ==> !StopsAtError(available[s], attempts(s));
      }
    }
  }

  /** A cooldown that no tried provider has set is as before. */
  lemma {:induction false} CooldownsOfOthers(available: seq<Provider>, attempts: nat -> Attempt, cooldowns: Cooldowns, n: nat,
                                      id: string)
    requires n <= |available|
    requires forall k :: 0 <= k < n ==> available[k].id != id
    ensures var after := Marked(available, attempts, cooldowns, n);
            (id in after <==> id in cooldowns) && (id in cooldowns ==> after[id] == cooldowns[id])
  {
    if n > 0 {
      CooldownsOfOthers(available, attempts, cooldowns, n - 1, id);
    }
  }

  /** With distinct ids: a provider's cooldown is set by the call exactly when it was
      tried, gave nothing but errors, and its last error was neither cascadable nor
      model-level; otherwise it is as before. */
  lemma {:induction false} CooldownExactly(available: seq<Provider>, attempts: nat -> Attempt, cooldowns: Cooldowns,
                                            n: nat, k: nat)
    requires n <= |available| && k < |available|
    requires forall i, j :: 0 <= i < j < |available| ==> available[i].id != available[j].id
    ensures var after, id := Marked(available, attempts, cooldowns, n), available[k].id;
            if k < n && MarksDown(available[k], attempts(k)) then
              id in after && after[id] == attempts(k).finishedAt + COOLDOWN_MS
            else
              (id in after <==> id in cooldowns) && (id in cooldowns ==> after[id] == cooldowns[id])
  {
    if n <= k {
      CooldownsOfOthers(available, attempts, cooldowns, n, available[k].id);
    } else if k == n - 1 {
      CooldownsOfOthers(available, attempts, cooldowns, n - 1, available[k].id);
    } else {
      CooldownExactly(available, attempts, cooldowns, n - 1, k);
    }
  }

  /** A provider in cooldown is not among the available ones, and every provider
      of the chain is again once its time has come. */
  lemma {:induction false} AvailableExactly(cooldowns: Cooldowns, chain: seq<Provider>, now: nat, p: Provider)
    ensures p in Available(cooldowns, chain, now) <==> p in chain && IsAvailable(cooldowns, p, now)
    decreases |chain|
  {
    if chain != [] {
      AvailableExactly(cooldowns, chain[1..], now, p);
    }
  }

  // ------------------------------------------------------------ across calls

  /** A call of tryStream or of tryStreamWithProvider, and when it began. */
  datatype Call = AnyProvider(now: nat, attempts: nat -> Attempt) | OneProvider(id: string, now: nat, attempt: Attempt)

  /** A selector's configured providers and its chain. */
  datatype Setup = Setup(providers: seq<Provider>, chain: seq<Provider>)

  function AfterCall(setup: Setup, cooldowns: Cooldowns, call: Call): Cooldowns {
    match call
    case AnyProvider(now, attempts) =>
      var available := Available(cooldowns, setup.chain, now);
      Marked(available, attempts, Pruned(cooldowns, setup.chain, now), Tried(available, attempts))
    case OneProvider(id, now, attempt) => AfterOne(setup.providers, cooldowns, id, now, attempt)
  }

  function AfterCalls(setup: Setup, cooldowns: Cooldowns, calls: seq<Call>): Cooldowns {
    if calls == [] then cooldowns
    else AfterCall(setup, AfterCalls(setup, cooldowns, calls[..|calls| - 1]), calls[|calls| - 1])
  }

  /** The call opens a stream of a provider with this id. */
  predicate Consults(setup: Setup, cooldowns: Cooldowns, call: Call, id: string) {
    match call
    case AnyProvider(now, attempts) =>
      var available := Available(cooldowns, setup.chain, now);
      exists k :: 0 <= k < Tried(available, attempts) && available[k].id == id
    case OneProvider(named, now, _) => named == id && Reachable(setup.providers, cooldowns, id, now)
  }

  lemma CoolingStaysOut(setup: Setup, cooldowns: Cooldowns, call: Call, id: string)
    requires id in cooldowns && call.now < cooldowns[id]
    ensures !Consults(setup, cooldowns, call, id)
    ensures var after := AfterCall(setup, cooldowns, call); id in after && after[id] == cooldowns[id]
  {
    if call.AnyProvider? {
      var available := Available(cooldowns, setup.chain, call.now);
      forall k | 0 <= k < |available| ensures available[k].id != id {
        AvailableExactly(cooldowns, setup.chain, call.now, available[k]);
      }
      var pruned := Pruned(cooldowns, setup.chain, call.now);
      assert id in pruned && pruned[id] == cooldowns[id];
      CooldownsOfOthers(available, call.attempts, pruned, Tried(available, call.attempts), id);
    }
  }

  /** Whatever calls follow, of either kind, none of those that begin before a
      provider's cooldown is over opens a stream of it or touches its cooldown. */
  lemma {:induction false} CoolingLasts(setup: Setup, cooldowns: Cooldowns, calls: seq<Call>, id: string)
    requires id in cooldowns && forall i :: 0 <= i < |calls| ==> calls[i].now < cooldowns[id]
    ensures var after := AfterCalls(setup, cooldowns, calls); id in after && after[id] == cooldowns[id]
    ensures forall i :: 0 <= i < |calls| ==>
              !Consults(setup, AfterCalls(setup, cooldowns, calls[..i]), calls[i], id)
  {
    if calls != [] {
      var front, last := calls[..|calls| - 1], calls[|calls| - 1];
      CoolingLasts(setup, cooldowns, front, id);
      CoolingStaysOut(setup, AfterCalls(setup, cooldowns, front), last, id);
      forall i | 0 <= i < |calls| ensures !Consults(setup, AfterCalls(setup, cooldowns, calls[..i]), calls[i], id) {
        if i < |front| {
          assert front[..i] == calls[..i] && front[i] == calls[i];
        } else {
          assert calls[..i] == front;
        }
      }
    }
  }

  /** Across calls: a provider that a call marked down is tried by none of the calls
      that begin within the next thirty seconds, and is on offer again from then on. */
  lemma NotRetriedWhileCooling(setup: Setup, cooldowns: Cooldowns, first: Call, k: nat, calls: seq<Call>, now: nat)
    requires first.AnyProvider?
    requires var available := Available(cooldowns, setup.chain, first.now);
             && (forall i, j :: 0 <= i < j < |available| ==> available[i].id != available[j].id)
             && k < Tried(available, first.attempts) && MarksDown(available[k], first.attempts(k))
             && forall i :: 0 <= i < |calls| ==> calls[i].now < first.attempts(k).finishedAt + COOLDOWN_MS
    ensures var p := Available(cooldowns, setup.chain, first.now)[k];
            var marked := AfterCall(setup, cooldowns, first);
            && (forall i :: 0 <= i < |calls| ==> !Consults(setup, AfterCalls(setup, marked, calls[..i]), calls[i], p.id))
            && (p in Available(AfterCalls(setup, marked, calls), setup.chain, now) <==>
                now >= first.attempts(k).finishedAt + COOLDOWN_MS)
  {
    var available := Available(cooldowns, setup.chain, first.now);
    var p, marked := available[k], AfterCall(setup, cooldowns, first);
    CooldownExactly(available, first.attempts, Pruned(cooldowns, setup.chain, first.now),
                    Tried(available, first.attempts), k);
    CoolingLasts(setup, marked, calls, p.id);
    AvailableExactly(cooldowns, setup.chain, first.now, p);
    AvailableExactly(AfterCalls(setup, marked, calls), setup.chain, now, p);
  }
}
