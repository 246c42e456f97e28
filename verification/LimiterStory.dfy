/**
 A limiter that forgets nothing: it keeps the times of all admissions and of all
 lockouts it has started, and decides from these alone. The real one, which prunes,
 forgives and sweeps, gives the same answers.
 */
module LimiterStory {
  import opened Text
  import opened RateLimiter

  /** When a key was admitted, and when a lockout of it began. */
  datatype History = History(admitted: seq<nat>, lockouts: seq<nat>)

  function CountAfter(times: seq<nat>, start: int): nat {
    if times == [] then 0
    else CountAfter(times[..|times| - 1], start) + if times[|times| - 1] > start then 1 else 0
  }

  /** How many lockouts in a row the last one makes: one more than the one before, unless
      more than lockoutResetMs lie between their beginnings. */
  function InARow(c: Config, lockouts: seq<nat>): nat {
    if lockouts == [] then 0
    else if |lockouts| == 1 then 1
    else
      var last, before := lockouts[|lockouts| - 1], lockouts[|lockouts| - 2];
      if last > before + c.lockoutResetMs then 1 else InARow(c, lockouts[..|lockouts| - 1]) + 1
  }

  /** base * base * ... */
  function Power(base: nat, exponent: nat): nat {
    if exponent == 0 then 1 else Power(base, exponent - 1) * base
  }

  /** The k-th lockout in a row lasts lockoutMs without backoff; with it, lockoutMs times
      the (k-1)-st power of the multiplier, and at most maxLockoutMs. */
  function Lasts(c: Config, k: nat): nat {
    if k == 0 then 0
    else if c.backoffMultiplier <= 1 then c.lockoutMs
    else
      var grown := c.lockoutMs * Power(c.backoffMultiplier, k - 1);
      if grown <= c.maxLockoutMs then grown else c.maxLockoutMs
  }

  function LockedUntil(c: Config, h: History): nat {
    if h.lockouts == [] then 0 else h.lockouts[|h.lockouts| - 1] + Lasts(c, InARow(c, h.lockouts))
  }

  predicate HasCapacity(c: Config, h: History, now: nat) {
    CountAfter(h.admitted, now - c.windowMs) < c.maxAttempts
  }

  /** What a check adds: nothing during a lockout, an admission while there is room, and
      otherwise a lockout. */
  function Noted(c: Config, h: History, now: nat): History {
    if now < LockedUntil(c, h) then h
    else if HasCapacity(c, h, now) then h.(admitted := h.admitted + [now])
    else h.(lockouts := h.lockouts + [now])
  }

  /** What a key has lived through. */
  function Lived(c: Config, ops: seq<Op>, key: string): History {
    if ops == [] then History([], [])
    else
      var h, op := Lived(c, ops[..|ops| - 1], key), ops[|ops| - 1];
      if op.Check? && op.key == key then Noted(c, h, op.now) else h
  }

  /** The answer to a check. */
  function Verdict(c: Config, h: History, now: nat): Answer {
    if now >= LockedUntil(c, h) && HasCapacity(c, h, now) then Allowed
    else Denied(LockedUntil(c, Noted(c, h, now)))
  }

  /** The answer to a peek. */
  function Rest(c: Config, h: History, now: nat): Answer {
    if now < LockedUntil(c, h) || !HasCapacity(c, h, now) then Left(0)
    else Left(c.maxAttempts - CountAfter(h.admitted, now - c.windowMs))
  }

  function Tell(c: Config, before: seq<Op>, op: Op): Answer
    requires !op.Sweep?
  {
    var h := Lived(c, before, op.key);
    if op.Check? then Verdict(c, h, op.now) else Rest(c, h, op.now)
  }

  predicate NoSweeps(ops: seq<Op>) {
    forall i :: 0 <= i < |ops| ==> !ops[i].Sweep?
  }

  function Told(c: Config, ops: seq<Op>): seq<Answer>
    requires NoSweeps(ops)
  {
    if ops == [] then []
    else Told(c, ops[..|ops| - 1]) + [Tell(c, ops[..|ops| - 1], ops[|ops| - 1])]
  }

  // ------------------------------------------------------------ the entry and its history

  lemma {:induction false} PowerIsPow(base: nat, exponent: nat)
    ensures Power(base, exponent) == Pow(base, exponent)
  {
    if exponent > 0 {
      PowerIsPow(base, exponent - 1);
    }
  }

  lemma LastsIsLockoutMs(c: Config, k: nat)
    requires k > 0
    ensures Lasts(c, k) == LockoutMs(c, k)
  {
    PowerIsPow(c.backoffMultiplier, k - 1);
  }

  /** Lockout and backoff of the entry, at any time from `from` on. */
  predicate KeepsLocks(c: Config, e: Entry, h: History, from: nat) {
    var k := InARow(c, h.lockouts);
    && e.lockedUntil == LockedUntil(c, h)
    && (h.lockouts == [] ==> e.consecutiveLockouts == 0)
    && (h.lockouts != [] ==>
          var last := h.lockouts[|h.lockouts| - 1];
          && 0 < last <= from && e.lastLockoutAt == last && k > 0
          && (e.consecutiveLockouts == k || (e.consecutiveLockouts == 0 && from > last + c.lockoutResetMs)))
  }

  lemma LocksOnwards(c: Config, e: Entry, h: History, from: nat, now: nat)
    requires KeepsLocks(c, e, h, from) && from <= now
    ensures KeepsLocks(c, e, h, now)
  {
  }

  lemma NextInARow(c: Config, lockouts: seq<nat>, now: nat)
    ensures InARow(c, lockouts + [now])
         == if lockouts == [] || now > lockouts[|lockouts| - 1] + c.lockoutResetMs then 1
            else InARow(c, lockouts) + 1
  {
    assert (lockouts + [now])[..|lockouts|] == lockouts;
  }

  /** The count that a denial would reach. */
  lemma ForgivenCount(c: Config, e: Entry, h: History, now: nat)
    requires KeepsLocks(c, e, h, now) && now >= e.lockedUntil
    ensures Forgiven(c, e, now).consecutiveLockouts + 1 == InARow(c, h.lockouts + [now])
  {
    NextInARow(c, h.lockouts, now);
  }

  /** One check, given that the admissions in the window are as many. */
  lemma CheckKeepsLocks(c: Config, e: Entry, h: History, now: nat, recent: seq<nat>)
    requires KeepsLocks(c, e, h, now) && now > 0
    requires |recent| == CountAfter(h.admitted, now - c.windowMs)
    ensures var (next, allowed) := CheckedWith(c, e, now, recent);
            && KeepsLocks(c, next, Noted(c, h, now), now)
            && (allowed <==> Noted(c, h, now).admitted == h.admitted + [now])
            && (!allowed ==> Noted(c, h, now).admitted == h.admitted)
            && Verdict(c, h, now) == if allowed then Allowed else Denied(next.lockedUntil)
  {
    if now >= LockedUntil(c, h) {
      ForgivenCount(c, e, h, now);
      if !HasCapacity(c, h, now) {
        LastsIsLockoutMs(c, InARow(c, h.lockouts + [now]));
      }
    }
  }

  // ------------------------------------------------------------ over a run

  predicate Started(ops: seq<Op>) {
    Ordered(ops) && (ops != [] ==> ops[0].now > 0)
  }

  lemma StartedFront(before: seq<Op>, op: Op)
    requires Started(before + [op])
    ensures Started(before) && Latest(before) <= op.now && op.now > 0
  {
    var ops := before + [op];
    OrderedFront(before, op);
    assert ops[|before|] == op;
    assert before != [] ==> ops[0] == before[0];
  }

  lemma LivedSnoc(c: Config, before: seq<Op>, op: Op, key: string)
    ensures var h, next := Lived(c, before, key), Lived(c, before + [op], key);
            next == if op.Check? && op.key == key then Noted(c, h, op.now) else h
  {
    assert (before + [op])[..|before|] == before;
  }

  lemma AfterSnoc(c: Config, before: seq<Op>, op: Op)
    ensures After(c, before + [op]) == Step(c, After(c, before), op)
  {
    assert (before + [op])[..|before|] == before;
  }

  /** The admissions that the entry still sees. */
  function Seen(c: Config, e: Entry, now: nat): nat {
    |Recent(e.timestamps, now - c.windowMs)|
  }

  /** The entry sees all that are young enough, from `from` on. */
  ghost predicate SeesAll(c: Config, e: Entry, h: History, from: nat) {
    forall now: nat {:trigger Seen(c, e, now)} ::
      now >= from ==> Seen(c, e, now) == CountAfter(h.admitted, now - c.windowMs)
  }

  /** Entry and history of a key agree for all time to come. */
  ghost predicate Agree(c: Config, e: Entry, h: History, from: nat) {
    SeesAll(c, e, h, from) && KeepsLocks(c, e, h, from)
  }

  lemma AgreeOnwards(c: Config, e: Entry, h: History, from: nat, now: nat)
    requires Agree(c, e, h, from) && from <= now
    ensures Agree(c, e, h, now)
  {
    LocksOnwards(c, e, h, from, now);
  }

  lemma SeenAfter(c: Config, e: Entry, at: nat, now: nat)
    requires at <= now
    ensures Seen(c, Checked(c, e, at).0, now)
         == Seen(c, e, now) + if Checked(c, e, at).1 && at > now - c.windowMs then 1 else 0
  {
    CheckRemembers(c, e, at, now);
  }

  lemma CountSnoc(times: seq<nat>, last: nat, start: int)
    ensures CountAfter(times + [last], start) == CountAfter(times, start) + if last > start then 1 else 0
  {
    assert (times + [last])[..|times|] == times;
  }

  /** A check keeps entry and history in step, and the entry's answer is the history's. */
  lemma CheckStep(c: Config, e: Entry, h: History, now: nat)
    requires Agree(c, e, h, now) && now > 0
    ensures var (next, allowed) := Checked(c, e, now);
            && Agree(c, next, Noted(c, h, now), now)
            && Verdict(c, h, now) == if allowed then Allowed else Denied(next.lockedUntil)
  {
    assert Seen(c, e, now) == CountAfter(h.admitted, now - c.windowMs);
    CheckKeepsLocks(c, e, h, now, Recent(e.timestamps, now - c.windowMs));
    CheckSees(c, e, h, now);
  }

  lemma CheckSees(c: Config, e: Entry, h: History, now: nat)
    requires SeesAll(c, e, h, now)
    requires Checked(c, e, now).1 <==> Noted(c, h, now).admitted == h.admitted + [now]
    requires !Checked(c, e, now).1 ==> Noted(c, h, now).admitted == h.admitted
    ensures SeesAll(c, Checked(c, e, now).0, Noted(c, h, now), now)
  {
    forall later: nat | later >= now
      ensures Seen(c, Checked(c, e, now).0, later) == CountAfter(Noted(c, h, now).admitted, later - c.windowMs)
    {
      SeenAfter(c, e, now, later);
      CountSnoc(h.admitted, now, later - c.windowMs);
      assert Seen(c, e, later) == CountAfter(h.admitted, later - c.windowMs);
    }
  }

  lemma FreshAgrees(c: Config)
    ensures Agree(c, FRESH, History([], []), 0)
  {
  }

  lemma ReplyToCheck(c: Config, entries: Entries, op: Op)
    requires op.Check?
    ensures var (next, allowed) := Checked(c, Lookup(entries, op.key), op.now);
            Reply(c, entries, op) == [if allowed then Allowed else Denied(next.lockedUntil)]
  {
  }

  lemma EntryAfter(c: Config, before: seq<Op>, op: Op, key: string)
    requires !op.Sweep?
    ensures var e := Lookup(After(c, before), key);
            Lookup(After(c, before + [op]), key)
            == if op.Check? && op.key == key then Checked(c, e, op.now).0 else e
  {
    AfterSnoc(c, before, op);
    LookupAfter(c, After(c, before), op, key);
  }

  lemma LastOp(before: seq<Op>, op: Op)
    ensures Latest(before + [op]) == op.now
  {
  }

  /** What the limiter has for a key, and what the key has lived through. */
  ghost predicate Agrees(c: Config, ops: seq<Op>, key: string, from: nat) {
    Agree(c, Lookup(After(c, ops), key), Lived(c, ops, key), from)
  }

  lemma OpAgrees(c: Config, before: seq<Op>, op: Op, key: string)
    requires !op.Sweep? && op.now > 0 && Agrees(c, before, key, op.now)
    ensures Agrees(c, before + [op], key, op.now)
  {
    EntryAfter(c, before, op, key);
    LivedSnoc(c, before, op, key);
    if op.Check? && op.key == key {
      CheckStep(c, Lookup(After(c, before), key), Lived(c, before, key), op.now);
    }
  }

  lemma {:induction false} RunAgrees(c: Config, ops: seq<Op>, key: string)
    requires Started(ops) && NoSweeps(ops)
    ensures Agrees(c, ops, key, Latest(ops))
  {
    if ops == [] {
      FreshAgrees(c);
    } else {
      var before := ops[..|ops| - 1];
      StartedFront(before, ops[|ops| - 1]);
      assert ops == before + [ops[|ops| - 1]];
      RunAgrees(c, before, key);
      RunAgreesToTheEnd(c, ops, key);
    }
  }

  lemma RunAgreesToTheEnd(c: Config, ops: seq<Op>, key: string)
    requires ops != [] && Started(ops) && !ops[|ops| - 1].Sweep?
    requires Agrees(c, ops[..|ops| - 1], key, Latest(ops[..|ops| - 1]))
    ensures Agrees(c, ops, key, Latest(ops))
  {
    var before, op := ops[..|ops| - 1], ops[|ops| - 1];
    assert ops == before + [op];
    LastOpAgrees(c, before, op, key);
  }

  lemma LastOpAgrees(c: Config, before: seq<Op>, op: Op, key: string)
    requires Started(before + [op]) && !op.Sweep? && Agrees(c, before, key, Latest(before))
    ensures Agrees(c, before, key, op.now)
    ensures Agrees(c, before + [op], key, Latest(before + [op]))
  {
    StartedFront(before, op);
    AgreeOnwards(c, Lookup(After(c, before), key), Lived(c, before, key), Latest(before), op.now);
    OpAgrees(c, before, op, key);
    LastOp(before, op);
  }

  lemma LastAnswerAgrees(c: Config, before: seq<Op>, op: Op)
    requires Started(before + [op]) && NoSweeps(before) && !op.Sweep?
    ensures Answers(c, map[], before + [op]) == Answers(c, map[], before) + [Tell(c, before, op)]
  {
    StartedFront(before, op);
    RunAgrees(c, before, op.key);
    LastOpAgrees(c, before, op, op.key);
    AnswerAgrees(c, before, op);
    AnswersSnoc(c, before, op);
  }

  /** The answer to an operation behind a run. */
  lemma AnswerAgrees(c: Config, before: seq<Op>, op: Op)
    requires !op.Sweep? && op.now > 0 && Agrees(c, before, op.key, op.now)
    ensures Reply(c, After(c, before), op) == [Tell(c, before, op)]
  {
    var e, h := Lookup(After(c, before), op.key), Lived(c, before, op.key);
    if op.Check? {
      CheckStep(c, e, h, op.now);
      ReplyToCheck(c, After(c, before), op);
    } else {
      RestIsRemaining(c, e, h, op.now);
      ReplyToPeek(c, After(c, before), op);
    }
  }

  lemma ReplyToPeek(c: Config, entries: Entries, op: Op)
    requires op.Peek?
    ensures Reply(c, entries, op) == [Left(Remaining(c, Lookup(entries, op.key), op.now))]
  {
  }

  lemma RestIsRemaining(c: Config, e: Entry, h: History, now: nat)
    requires Agree(c, e, h, now)
    ensures Rest(c, h, now) == Left(Remaining(c, e, now))
  {
    assert Seen(c, e, now) == CountAfter(h.admitted, now - c.windowMs);
  }

  lemma {:induction false} ContinueSnoc(c: Config, ops: seq<Op>)
    ensures Continue(c, map[], ops) == After(c, ops)
  {
    if ops != [] {
      var before, op := ops[..|ops| - 1], ops[|ops| - 1];
      assert ops == before + [op];
      ContinueSnoc(c, before);
      ContinueAppend(c, map[], before, op);
    }
  }

  lemma {:induction false} ContinueAppend(c: Config, entries: Entries, before: seq<Op>, op: Op)
    ensures Continue(c, entries, before + [op]) == Step(c, Continue(c, entries, before), op)
    decreases |before|
  {
    if before == [] {
      assert [op][1..] == [];
    } else {
      assert (before + [op])[0] == before[0] && (before + [op])[1..] == before[1..] + [op];
      ContinueAppend(c, Step(c, entries, before[0]), before[1..], op);
    }
  }

  lemma AnswersSnoc(c: Config, before: seq<Op>, op: Op)
    ensures Answers(c, map[], before + [op]) == Answers(c, map[], before) + Reply(c, After(c, before), op)
  {
    AnswersAppend(c, map[], before, [op]);
    ContinueSnoc(c, before);
    LastAnswer(c, After(c, before), op);
  }

  lemma LastAnswer(c: Config, entries: Entries, op: Op)
    ensures Answers(c, entries, [op]) == Reply(c, entries, op)
  {
    assert [op][1..] == [];
    assert Reply(c, entries, op) + [] == Reply(c, entries, op);
  }

  /** Over every run of checks and peeks the limiter answers as its history tells: a
      check is admitted exactly when no lockout lasts and fewer than maxAttempts of the
      key's admissions are younger than windowMs, a denial is until the end of the
      lockout it meets or starts, and a peek gives the attempts left. */
  lemma {:induction false} HistoryDecides(c: Config, ops: seq<Op>)
    requires Started(ops) && NoSweeps(ops)
    ensures Answers(c, map[], ops) == Told(c, ops)
  {
    if ops != [] {
      var before, op := ops[..|ops| - 1], ops[|ops| - 1];
      assert ops == before + [op];
      StartedFront(before, op);
      HistoryDecides(c, before);
      LastAnswerAgrees(c, before, op);
    }
  }

  lemma {:induction false} WithoutSweepsHasNone(ops: seq<Op>)
    ensures NoSweeps(WithoutSweeps(ops))
    decreases |ops|
  {
    if ops != [] {
      WithoutSweepsHasNone(ops[1..]);
    }
  }

  /** No operation comes before `from` or before the one in front of it. */
  predicate Rising(ops: seq<Op>, from: nat)
    decreases |ops|
  {
    ops == [] || (ops[0].now >= from && Rising(ops[1..], ops[0].now))
  }

  lemma {:induction false} TimedRises(c: Config, entries: Entries, ops: seq<Op>, from: nat)
    requires Timed(c, entries, ops, from)
    ensures Rising(ops, from)
    decreases |ops|
  {
    if ops != [] {
      var after, resumes := TimedTail(c, entries, ops, from);
      TimedRises(c, after, ops[1..], resumes);
    }
  }

  lemma {:induction false} RisingIsStarted(ops: seq<Op>, from: nat)
    requires Rising(ops, from) && from > 0
    ensures var calls := WithoutSweeps(ops);
            Started(calls) && forall i :: 0 <= i < |calls| ==> calls[i].now >= from
    decreases |ops|
  {
    if ops != [] {
      var rest := ops[1..];
      RisingIsStarted(rest, ops[0].now);
      if !ops[0].Sweep? {
        ConsStarted(ops[0], WithoutSweeps(rest));
      } else {
        assert [] + WithoutSweeps(rest) == WithoutSweeps(rest);
      }
    }
  }

  lemma TimedTail(c: Config, entries: Entries, ops: seq<Op>, from: nat) returns (after: Entries, resumes: nat)
    requires ops != [] && Timed(c, entries, ops, from)
    ensures resumes >= ops[0].now >= from && Timed(c, after, ops[1..], resumes)
  {
    after, resumes := Step(c, entries, ops[0]), Resumes(c, entries, ops[0]);
  }

  lemma ConsStarted(op: Op, rest: seq<Op>)
    requires Started(rest) && op.now > 0 && forall i :: 0 <= i < |rest| ==> rest[i].now >= op.now
    ensures Started([op] + rest)
    ensures forall i :: 0 <= i < |[op] + rest| ==> ([op] + rest)[i].now >= op.now
  {
    var all := [op] + rest;
    forall i, j | 0 <= i < j < |all| ensures all[i].now <= all[j].now {
      if i > 0 {
        assert all[i] == rest[i - 1] && all[j] == rest[j - 1];
      } else {
        assert all[j] == rest[j - 1];
      }
    }
  }

  /** And so it does with sweeps anywhere in the run, as far as they cannot show. */
  lemma SweptHistoryDecides(c: Config, ops: seq<Op>, from: nat)
    requires from > 0 && Timed(c, map[], ops, from)
    ensures NoSweeps(WithoutSweeps(ops)) && Answers(c, map[], ops) == Told(c, WithoutSweeps(ops))
  {
    SweepIsUnobservable(c, ops, from);
    WithoutSweepsHasNone(ops);
    TimedRises(c, map[], ops, from);
    RisingIsStarted(ops, from);
    HistoryDecides(c, WithoutSweeps(ops));
  }

  /** In figures: a denial that meets no lockout, as the k-th in a row, locks the key
      out for just so long. */
  lemma DenialLasts(c: Config, e: Entry, now: nat)
    requires now >= e.lockedUntil && !Checked(c, e, now).1
    ensures var next := Checked(c, e, now).0;
            var k := next.consecutiveLockouts;
            && k > 0 && next.lastLockoutAt == now
            && (c.backoffMultiplier <= 1 ==> next.lockedUntil == now + c.lockoutMs)
            && (c.backoffMultiplier > 1 ==>
                  var grown := c.lockoutMs * Power(c.backoffMultiplier, k - 1);
                  next.lockedUntil == now + if grown <= c.maxLockoutMs then grown else c.maxLockoutMs)
    ensures Power(c.backoffMultiplier, 0) == 1
    ensures forall k: nat :: Power(c.backoffMultiplier, k + 1) == Power(c.backoffMultiplier, k) * c.backoffMultiplier
  {
    LastsIsLockoutMs(c, Checked(c, e, now).0.consecutiveLockouts);
  }

  /** And for so long no operations whatever, sweeps included, let the key in. */
  lemma NothingAdmittedThatLong(c: Config, entries: Entries, key: string, now: nat, ops: seq<Op>)
    requires var e := Lookup(entries, key); now >= e.lockedUntil && !Checked(c, e, now).1
    requires var k := Checked(c, Lookup(entries, key), now).0.consecutiveLockouts;
             forall i :: 0 <= i < |ops| ==> ops[i].now < now + Lasts(c, k)
    ensures var locked := Step(c, entries, Check(key, now));
            forall i :: 0 <= i < |ops| && ops[i].Check? && ops[i].key == key ==>
              !Checked(c, Lookup(Continue(c, locked, ops[..i]), key), ops[i].now).1
  {
    DenialLasts(c, Lookup(entries, key), now);
    NothingAdmittedWhileLocked(c, Step(c, entries, Check(key, now)), ops, key);
  }
}
