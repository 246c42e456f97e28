/**
 The sliding-window rate limiter of src/security/rate-limiter.ts. The clock is an
 input; it starts above zero and never runs backwards.
 */
module RateLimiter {
  import opened Text

  datatype Config = Config(windowMs: nat, maxAttempts: nat, lockoutMs: nat,
                           backoffMultiplier: nat, maxLockoutMs: nat, lockoutResetMs: nat)

  datatype Entry = Entry(timestamps: seq<nat>, lockedUntil: nat, consecutiveLockouts: nat, lastLockoutAt: nat)

  const FRESH := Entry([], 0, 0, 0)

  type Entries = map<string, Entry>

  // ------------------------------------------------------------ one entry

  function Pow(base: nat, exponent: nat): nat {
    if exponent == 0 then 1 else base * Pow(base, exponent - 1)
  }

  function LockoutMs(c: Config, consecutive: nat): nat {
    if c.backoffMultiplier <= 1 then c.lockoutMs
    else
      var scaled := c.lockoutMs * Pow(c.backoffMultiplier, if consecutive > 0 then consecutive - 1 else 0);
      if scaled < c.maxLockoutMs then scaled else c.maxLockoutMs
  }

  function Recent(timestamps: seq<nat>, windowStart: int): seq<nat> {
    if timestamps == [] then []
    else
      var last := timestamps[|timestamps| - 1];
      Recent(timestamps[..|timestamps| - 1], windowStart) + if last > windowStart then [last] else []
  }

  function Forgiven(c: Config, e: Entry, now: nat): Entry {
    if e.consecutiveLockouts > 0 && e.lastLockoutAt > 0 && now - e.lastLockoutAt > c.lockoutResetMs
       && now >= e.lockedUntil
    then e.(consecutiveLockouts := 0)
    else e
  }

  /** A check, given the admissions that are still in the window. */
  function CheckedWith(c: Config, e: Entry, now: nat, recent: seq<nat>): (Entry, bool) {
    var f := Forgiven(c, e, now);
    if now < f.lockedUntil then (f, false)
    else if |recent| >= c.maxAttempts then
      var k := f.consecutiveLockouts + 1;
      (Entry(recent, now + LockoutMs(c, k), k, now), false)
    else (f.(timestamps := recent + [now]), true)
  }

  function Checked(c: Config, e: Entry, now: nat): (Entry, bool) {
    CheckedWith(c, e, now, Recent(e.timestamps, now - c.windowMs))
  }

  function Remaining(c: Config, e: Entry, now: nat): nat {
    var recent := |Recent(e.timestamps, now - c.windowMs)|;
    if now < e.lockedUntil || recent >= c.maxAttempts then 0 else c.maxAttempts - recent
  }

  /** The entry after a sweep; None when the sweep deletes it. */
  function Swept(c: Config, e: Entry, now: nat): Option<Entry> {
    if now < e.lockedUntil then Some(e)
    else
      var recent := Recent(e.timestamps, now - c.windowMs);
      var backoffStillActive := e.consecutiveLockouts > 0 && now - e.lastLockoutAt < c.lockoutResetMs;
      if recent == [] && !backoffStillActive then None else Some(e.(timestamps := recent))
  }

  // ------------------------------------------------------------ the limiter

  function Lookup(entries: Entries, key: string): Entry {
    if key in entries then entries[key] else FRESH
  }

  function SweptAll(c: Config, entries: Entries, now: nat): Entries {
    map key | key in entries && Swept(c, entries[key], now).Some? :: Swept(c, entries[key], now).value
  }

  class RateLimiter {
    const config: Config
    var entries: Entries

    constructor (config: Config)
      ensures this.config == config && entries == map[]
    {
      this.config := config;
      entries := map[];
    }

    method Check(key: string, now: nat) returns (allowed: bool)
      modifies this
      ensures (Lookup(entries, key), allowed) == Checked(config, Lookup(old(entries), key), now)
      ensures entries.Keys == old(entries).Keys + {key}
      ensures forall other :: other != key ==> Lookup(entries, other) == Lookup(old(entries), other)
    {
      if key !in entries {
        entries := entries[key := FRESH];
      }
      var entry := entries[key];
      if entry.consecutiveLockouts > 0 && entry.lastLockoutAt > 0
         && now - entry.lastLockoutAt > config.lockoutResetMs && now >= entry.lockedUntil {
        entry := entry.(consecutiveLockouts := 0);
        entries := entries[key := entry];
      }
      if now < entry.lockedUntil {
        return false;
      }
      var windowStart := now - config.windowMs;
      entry := entry.(timestamps := Recent(entry.timestamps, windowStart));
      if |entry.timestamps| >= config.maxAttempts {
        entry := entry.(consecutiveLockouts := entry.consecutiveLockouts + 1);
        var lockoutDuration := LockoutMs(config, entry.consecutiveLockouts);
        entry := entry.(lockedUntil := now + lockoutDuration, lastLockoutAt := now);
        entries := entries[key := entry];
        return false;
      }
      entry := entry.(timestamps := entry.timestamps + [now]);
      entries := entries[key := entry];
      return true;
    }

    method GetRemaining(key: string, now: nat) returns (left: nat)
      ensures left == Remaining(config, Lookup(entries, key), now)
    {
      if key !in entries {
        return config.maxAttempts;
      }
      var entry := entries[key];
      if now < entry.lockedUntil {
        return 0;
      }
      var recent := |Recent(entry.timestamps, now - config.windowMs)|;
      left := if config.maxAttempts > recent then config.maxAttempts - recent else 0;
    }

    method Cleanup(now: nat)
      modifies this
      ensures entries == SweptAll(config, old(entries), now)
    {
      var windowStart := now - config.windowMs;
      var keysToDelete: set<string> := {};
      var todo := entries.Keys;
      while todo != {}
        invariant todo <= entries.Keys == old(entries).Keys && keysToDelete !! todo && keysToDelete <= entries.Keys
        invariant forall key :: key in todo ==> entries[key] == old(entries)[key]
        invariant forall key :: key in entries && key !in todo ==>
                    var swept := Swept(config, old(entries)[key], now);
                    if key in keysToDelete then swept.None? else swept == Some(entries[key])
        decreases todo
      {
        var key :| key in todo;
        todo := todo - {key};
        var entry := entries[key];
        if now >= entry.lockedUntil {
          entry := entry.(timestamps := Recent(entry.timestamps, windowStart));
          entries := entries[key := entry];
          var backoffStillActive := entry.consecutiveLockouts > 0 && now - entry.lastLockoutAt < config.lockoutResetMs;
          if entry.timestamps == [] && !backoffStillActive {
            keysToDelete := keysToDelete + {key};
          }
        }
      }
      entries := entries - keysToDelete;
    }
  }

  // ------------------------------------------------------------ runs

  datatype Op = Check(key: string, now: nat) | Peek(key: string, now: nat) | Sweep(now: nat)

  /** What a caller can see: the answer of a check with the end of the lockout it
      meets or starts, or the number of attempts left. */
  datatype Answer = Allowed | Denied(until: nat) | Left(attempts: nat)

  function Step(c: Config, entries: Entries, op: Op): Entries {
    match op
    case Check(key, now) => entries[key := Checked(c, Lookup(entries, key), now).0]
    case Peek(_, _) => entries
    case Sweep(now) => SweptAll(c, entries, now)
  }

  function Reply(c: Config, entries: Entries, op: Op): seq<Answer> {
    match op
    case Check(key, now) =>
      var (e, allowed) := Checked(c, Lookup(entries, key), now);
      [if allowed then Allowed else Denied(e.lockedUntil)]
    case Peek(key, now) => [Left(Remaining(c, Lookup(entries, key), now))]
    case Sweep(_) => []
  }

  function Answers(c: Config, entries: Entries, ops: seq<Op>): seq<Answer>
    decreases |ops|
  {
    if ops == [] then [] else Reply(c, entries, ops[0]) + Answers(c, Step(c, entries, ops[0]), ops[1..])
  }

  function WithoutSweeps(ops: seq<Op>): seq<Op> {
    if ops == [] then []
    else (if ops[0].Sweep? then [] else [ops[0]]) + WithoutSweeps(ops[1..])
  }

  /** Lockouts get longer. */
  predicate Grows(c: Config) {
    c.backoffMultiplier > 1 && 0 < c.lockoutMs < c.maxLockoutMs
  }

  /** The sweep drops a backoff that a check in the same millisecond would still
      count: it is exactly as old as lockoutResetMs, and nothing else keeps it. */
  predicate Drops(c: Config, e: Entry, now: nat) {
    && now >= e.lockedUntil && Recent(e.timestamps, now - c.windowMs) == []
    && e.consecutiveLockouts > 0 && now - e.lastLockoutAt == c.lockoutResetMs
  }

  predicate DropsSome(c: Config, entries: Entries, now: nat) {
    Grows(c) && exists key :: key in entries && Drops(c, entries[key], now)
  }

  /** The clock runs forwards from `from`, and has moved on after a sweep that dropped
      a backoff of just the reset age. */
  predicate Timed(c: Config, entries: Entries, ops: seq<Op>, from: nat)
    decreases |ops|
  {
    ops == [] ||
    (&& ops[0].now >= from
     && Timed(c, Step(c, entries, ops[0]), ops[1..], Resumes(c, entries, ops[0])))
  }

  function Resumes(c: Config, entries: Entries, op: Op): nat {
    if op.Sweep? && DropsSome(c, entries, op.now) then op.now + 1 else op.now
  }

  lemma {:induction false} RecentAgain(timestamps: seq<nat>, early: int, late: int)
    requires early <= late
    ensures Recent(Recent(timestamps, early), late) == Recent(timestamps, late)
  {
    if timestamps != [] {
      var before, last := timestamps[..|timestamps| - 1], timestamps[|timestamps| - 1];
      RecentAgain(before, early, late);
      RecentSnoc(Recent(before, early), last, late);
      assert Recent(before, early) + [] == Recent(before, early);
    }
  }

  lemma RecentSnoc(timestamps: seq<nat>, last: nat, start: int)
    ensures Recent(timestamps + [last], start) == Recent(timestamps, start) + if last > start then [last] else []
  {
    assert (timestamps + [last])[..|timestamps|] == timestamps;
  }

  /** A check admits exactly when no lockout lasts and the window has room, and the
      only thing it adds to the recent admissions is its own. */
  lemma CheckEffect(c: Config, e: Entry, now: nat)
    ensures var (next, allowed) := Checked(c, e, now);
            var recent := Recent(e.timestamps, now - c.windowMs);
            && (allowed <==> now >= e.lockedUntil && |recent| < c.maxAttempts)
            && (now < e.lockedUntil ==> next == e)
            && Recent(next.timestamps, now - c.windowMs) == if allowed && c.windowMs > 0 then recent + [now] else recent
  {
    CheckRemembers(c, e, now, now);
    NothingAdded(Recent(e.timestamps, now - c.windowMs));
    AdmitsExactly(c, e, now);
  }

  lemma AdmitsExactly(c: Config, e: Entry, now: nat)
    ensures var (next, allowed) := Checked(c, e, now);
            && (allowed <==> now >= e.lockedUntil && |Recent(e.timestamps, now - c.windowMs)| < c.maxAttempts)
            && (now < e.lockedUntil ==> next == e)
            && (allowed ==> next.lockedUntil == e.lockedUntil)
  {
  }

  lemma TimestampsAfter(c: Config, e: Entry, now: nat)
    ensures var (next, allowed) := Checked(c, e, now);
            var recent := Recent(e.timestamps, now - c.windowMs);
            next.timestamps == if now < e.lockedUntil then e.timestamps else recent + if allowed then [now] else []
    ensures Checked(c, e, now).1 ==> now >= e.lockedUntil
  {
    NothingAdded(Recent(e.timestamps, now - c.windowMs));
  }

  /** Seen from later on, a check adds its own admission and forgets nothing. */
  lemma CheckRemembers(c: Config, e: Entry, at: nat, now: nat)
    requires at <= now
    ensures Recent(Checked(c, e, at).0.timestamps, now - c.windowMs)
         == Recent(e.timestamps, now - c.windowMs)
            + if Checked(c, e, at).1 && at > now - c.windowMs then [at] else []
  {
    TimestampsAfter(c, e, at);
    RecentOfRecent(e.timestamps, at, Checked(c, e, at).1, at - c.windowMs, now - c.windowMs);
    NothingAdded(Recent(e.timestamps, now - c.windowMs));
  }

  lemma NothingAdded(times: seq<nat>)
    ensures times + [] == times
  {
  }

  lemma RecentOfRecent(times: seq<nat>, at: nat, added: bool, early: int, late: int)
    requires early <= late
    ensures Recent(Recent(times, early) + (if added then [at] else []), late)
         == Recent(times, late) + if added && at > late then [at] else []
  {
    RecentAgain(times, early, late);
    if added {
      RecentSnoc(Recent(times, early), at, late);
    } else {
      NothingAdded(Recent(times, early));
      NothingAdded(Recent(times, late));
    }
  }

  // ------------------------------------------------------------ the sweep is unobservable

  /** The backoff is gone, or will be forgiven by any check from `from` on. */
  predicate Lapsed(c: Config, e: Entry, from: nat) {
    e.consecutiveLockouts == 0
    || (e.lastLockoutAt > 0 && from - e.lastLockoutAt > c.lockoutResetMs && e.lockedUntil <= from)
  }

  /** Lockout and backoff of two entries that no operation from `from` on can tell apart. */
  predicate AlikeLocks(c: Config, a: Entry, b: Entry, from: nat) {
    && (a.lockedUntil == b.lockedUntil || (a.lockedUntil <= from && b.lockedUntil <= from))
    && ((a.consecutiveLockouts == b.consecutiveLockouts && a.lastLockoutAt == b.lastLockoutAt)
        || (Lapsed(c, a, from) && Lapsed(c, b, from))
        || !Grows(c))
  }

  /** Two entries that no operation at or after `from` can tell apart. */
  predicate Alike(c: Config, a: Entry, b: Entry, from: nat) {
    && Recent(a.timestamps, from - c.windowMs) == Recent(b.timestamps, from - c.windowMs)
    && AlikeLocks(c, a, b, from)
  }

  lemma LocksStayAlike(c: Config, a: Entry, b: Entry, now: nat, recent: seq<nat>)
    requires AlikeLocks(c, a, b, now)
    ensures var (x, y) := (CheckedWith(c, a, now, recent), CheckedWith(c, b, now, recent));
            && x.1 == y.1 && AlikeLocks(c, x.0, y.0, now)
            && (!x.1 ==> x.0.lockedUntil == y.0.lockedUntil)
  {
    if !Grows(c) {
      LockoutsAreFlat(c, Forgiven(c, a, now).consecutiveLockouts + 1, Forgiven(c, b, now).consecutiveLockouts + 1);
    }
  }

  /** Unless lockouts grow they all have the same length. */
  lemma LockoutsAreFlat(c: Config, j: nat, k: nat)
    requires !Grows(c) && 1 <= j && 1 <= k
    ensures LockoutMs(c, j) == LockoutMs(c, k)
  {
    if c.backoffMultiplier > 1 && c.lockoutMs > 0 {
      LockoutIsCapped(c, j);
      LockoutIsCapped(c, k);
    }
  }

  lemma LockoutIsCapped(c: Config, k: nat)
    requires c.backoffMultiplier > 1 && c.lockoutMs >= c.maxLockoutMs && 1 <= k
    ensures LockoutMs(c, k) == c.maxLockoutMs
  {
    var p := Pow(c.backoffMultiplier, k - 1);
    PowGrows(c.backoffMultiplier, 0, k - 1);
    assert c.lockoutMs * p >= c.lockoutMs;
  }

  lemma AlikeLater(c: Config, a: Entry, b: Entry, from: nat, now: nat)
    requires Alike(c, a, b, from) && from <= now
    ensures Alike(c, a, b, now)
  {
    RecentLater(a.timestamps, b.timestamps, from - c.windowMs, now - c.windowMs);
    LocksAlikeLater(c, a, b, from, now);
  }

  lemma RecentLater(a: seq<nat>, b: seq<nat>, early: int, late: int)
    requires Recent(a, early) == Recent(b, early) && early <= late
    ensures Recent(a, late) == Recent(b, late)
  {
    RecentAgain(a, early, late);
    RecentAgain(b, early, late);
  }

  lemma LocksAlikeLater(c: Config, a: Entry, b: Entry, from: nat, now: nat)
    requires AlikeLocks(c, a, b, from) && from <= now
    ensures AlikeLocks(c, a, b, now)
  {
  }

  /** Alike entries stay alike. */
  lemma CheckKeepsAlike(c: Config, a: Entry, b: Entry, now: nat)
    requires Alike(c, a, b, now)
    ensures Alike(c, Checked(c, a, now).0, Checked(c, b, now).0, now)
  {
    CheckKeepsLocksAlike(c, a, b, now);
    CheckKeepsRecentAlike(c, a, b, now);
  }

  lemma CheckKeepsLocksAlike(c: Config, a: Entry, b: Entry, now: nat)
    requires Recent(a.timestamps, now - c.windowMs) == Recent(b.timestamps, now - c.windowMs)
    requires AlikeLocks(c, a, b, now)
    ensures Checked(c, a, now).1 == Checked(c, b, now).1
    ensures AlikeLocks(c, Checked(c, a, now).0, Checked(c, b, now).0, now)
  {
    LocksStayAlike(c, a, b, now, Recent(a.timestamps, now - c.windowMs));
  }

  lemma CheckKeepsRecentAlike(c: Config, a: Entry, b: Entry, now: nat)
    requires Recent(a.timestamps, now - c.windowMs) == Recent(b.timestamps, now - c.windowMs)
    requires Checked(c, a, now).1 == Checked(c, b, now).1
    ensures Recent(Checked(c, a, now).0.timestamps, now - c.windowMs)
         == Recent(Checked(c, b, now).0.timestamps, now - c.windowMs)
  {
    CheckRemembers(c, a, now, now);
    CheckRemembers(c, b, now, now);
  }

  /** Alike entries answer alike. */
  lemma AlikeReplies(c: Config, a: Entries, b: Entries, op: Op)
    requires !op.Sweep? && Alike(c, Lookup(a, op.key), Lookup(b, op.key), op.now)
    ensures Reply(c, a, op) == Reply(c, b, op)
  {
    var x, y := Lookup(a, op.key), Lookup(b, op.key);
    LocksStayAlike(c, x, y, op.now, Recent(x.timestamps, op.now - c.windowMs));
  }

  lemma SweepRemembers(c: Config, e: Entry, at: nat, now: nat)
    requires at <= now
    ensures Recent(Swept(c, e, at).GetOr(FRESH).timestamps, now - c.windowMs) == Recent(e.timestamps, now - c.windowMs)
  {
    SweptTimes(c, e, at);
    RecentAgain(e.timestamps, at - c.windowMs, now - c.windowMs);
  }

  lemma SweptTimes(c: Config, e: Entry, at: nat)
    ensures Swept(c, e, at).GetOr(FRESH).timestamps
         == if at < e.lockedUntil then e.timestamps else Recent(e.timestamps, at - c.windowMs)
  {
  }

  /** What a sweep leaves, even nothing, is alike to what it found, from its own
      instant on unless it drops a backoff of just the reset age, and from the next
      instant on in any case. A backoff it drops is one that check would forgive. */
  lemma SweepAlike(c: Config, e: Entry, now: nat)
    requires e.consecutiveLockouts > 0 ==> 0 < e.lastLockoutAt <= now
    ensures Alike(c, Swept(c, e, now).GetOr(FRESH), e, now) <==> !(Grows(c) && Drops(c, e, now))
    ensures Alike(c, Swept(c, e, now).GetOr(FRESH), e, now + 1)
  {
    AlikeByLocks(c, e, now, now);
    AlikeByLocks(c, e, now, now + 1);
    SweepKeepsLocks(c, e, now);
  }

  lemma AlikeByLocks(c: Config, e: Entry, at: nat, from: nat)
    requires at <= from
    ensures var left := Swept(c, e, at).GetOr(FRESH); Alike(c, left, e, from) <==> AlikeLocks(c, left, e, from)
  {
    SweepRemembers(c, e, at, from);
  }

  lemma SweepKeepsLocks(c: Config, e: Entry, now: nat)
    requires e.consecutiveLockouts > 0 ==> 0 < e.lastLockoutAt <= now
    ensures AlikeLocks(c, Swept(c, e, now).GetOr(FRESH), e, now) <==> !(Grows(c) && Drops(c, e, now))
    ensures AlikeLocks(c, Swept(c, e, now).GetOr(FRESH), e, now + 1)
  {
  }

  /** Every lockout carries the time of its last start, which is not in the future. */
  ghost predicate Dated(entries: Entries, now: nat) {
    forall key :: Lookup(entries, key).consecutiveLockouts > 0 ==> 0 < Lookup(entries, key).lastLockoutAt <= now
  }

  ghost predicate AllAlike(c: Config, a: Entries, b: Entries, from: nat) {
    forall key :: Alike(c, Lookup(a, key), Lookup(b, key), from)
  }

  lemma {:induction false} SweepsDoNotShow(c: Config, a: Entries, b: Entries, ops: seq<Op>, from: nat)
    requires from > 0 && Timed(c, a, ops, from) && AllAlike(c, a, b, from) && Dated(a, from)
    ensures Answers(c, a, ops) == Answers(c, b, WithoutSweeps(ops))
    decreases |ops|
  {
    if ops != [] {
      var op, rest := ops[0], ops[1..];
      if op.Sweep? {
        SweepKeepsAlike(c, a, b, from, op.now);
        SweepsDoNotShow(c, Step(c, a, op), b, rest, Resumes(c, a, op));
        assert [] + WithoutSweeps(rest) == WithoutSweeps(rest);
      } else {
        OpKeepsAlike(c, a, b, from, op);
        OpKeepsDated(c, a, from, op);
        SweepsDoNotShow(c, Step(c, a, op), Step(c, b, op), rest, op.now);
        assert WithoutSweeps(ops)[0] == op && WithoutSweeps(ops)[1..] == WithoutSweeps(rest);
      }
    }
  }

  lemma SweepKeepsAlike(c: Config, a: Entries, b: Entries, from: nat, now: nat)
    requires AllAlike(c, a, b, from) && Dated(a, from) && from <= now
    ensures var next := Resumes(c, a, Sweep(now));
            AllAlike(c, SweptAll(c, a, now), b, next) && Dated(SweptAll(c, a, now), now)
  {
    var next := Resumes(c, a, Sweep(now));
    forall key
      ensures Alike(c, Lookup(SweptAll(c, a, now), key), Lookup(b, key), next)
    {
      SweptKeyIsAlike(c, a, key, from, now);
      AlikeLater(c, Lookup(a, key), Lookup(b, key), from, next);
      AlikeTransitive(c, Lookup(SweptAll(c, a, now), key), Lookup(a, key), Lookup(b, key), next);
    }
    SweepKeepsDated(c, a, from, now);
  }

  lemma SweptKeyIsAlike(c: Config, a: Entries, key: string, from: nat, now: nat)
    requires Dated(a, from) && from <= now
    ensures Alike(c, Lookup(SweptAll(c, a, now), key), Lookup(a, key), Resumes(c, a, Sweep(now)))
  {
    SweepAlike(c, Lookup(a, key), now);
    LookupAfter(c, a, Sweep(now), key);
  }

  lemma SweepKeepsDated(c: Config, a: Entries, from: nat, now: nat)
    requires Dated(a, from) && from <= now
    ensures Dated(SweptAll(c, a, now), now)
  {
    forall key | Lookup(SweptAll(c, a, now), key).consecutiveLockouts > 0
      ensures 0 < Lookup(SweptAll(c, a, now), key).lastLockoutAt <= now
    {
      assert Lookup(a, key).consecutiveLockouts > 0;
    }
  }

  lemma OpKeepsAlike(c: Config, a: Entries, b: Entries, from: nat, op: Op)
    requires AllAlike(c, a, b, from) && from <= op.now && !op.Sweep?
    ensures Reply(c, a, op) == Reply(c, b, op)
    ensures AllAlike(c, Step(c, a, op), Step(c, b, op), op.now)
  {
    AlikeLater(c, Lookup(a, op.key), Lookup(b, op.key), from, op.now);
    AlikeReplies(c, a, b, op);
    CheckKeepsAlike(c, Lookup(a, op.key), Lookup(b, op.key), op.now);
    forall key ensures Alike(c, Lookup(Step(c, a, op), key), Lookup(Step(c, b, op), key), op.now) {
      AlikeLater(c, Lookup(a, key), Lookup(b, key), from, op.now);
    }
  }

  lemma OpKeepsDated(c: Config, a: Entries, from: nat, op: Op)
    requires Dated(a, from) && from <= op.now && op.now > 0 && !op.Sweep?
    ensures Dated(Step(c, a, op), op.now)
  {
    forall key | Lookup(Step(c, a, op), key).consecutiveLockouts > 0
      ensures 0 < Lookup(Step(c, a, op), key).lastLockoutAt <= op.now
    {
      assert Lookup(a, key).consecutiveLockouts > 0 ==> 0 < Lookup(a, key).lastLockoutAt <= from;
      assert key != op.key ==> Lookup(Step(c, a, op), key) == Lookup(a, key);
    }
  }

  lemma AlikeTransitive(c: Config, x: Entry, y: Entry, z: Entry, from: nat)
    requires Alike(c, x, y, from) && Alike(c, y, z, from)
    ensures Alike(c, x, z, from)
  {
  }

  /** The background sweep is unobservable: from an empty limiter, a run with sweeps
      inserted anywhere answers every check and peek, and sets every lockout, like
      the run without them, provided the clock moves on after a sweep that drops a
      backoff of just the reset age. */
  lemma SweepIsUnobservable(c: Config, ops: seq<Op>, from: nat)
    requires from > 0 && Timed(c, map[], ops, from)
    ensures Answers(c, map[], ops) == Answers(c, map[], WithoutSweeps(ops))
  {
    SweepsDoNotShow(c, map[], map[], ops, from);
  }

  // ------------------------------------------------------------ when the sweep shows

  /** Checks and peeks with a clock that runs forwards. */
  predicate Calls(ops: seq<Op>, from: nat) {
    ops == [] || (!ops[0].Sweep? && ops[0].now >= from && Calls(ops[1..], ops[0].now))
  }

  lemma {:induction false} CallsAreTimed(c: Config, entries: Entries, ops: seq<Op>, from: nat)
    requires Calls(ops, from)
    ensures Timed(c, entries, ops, from) && WithoutSweeps(ops) == ops
    decreases |ops|
  {
    if ops != [] {
      CallsAreTimed(c, Step(c, entries, ops[0]), ops[1..], ops[0].now);
    }
  }

  function Checks(key: string, now: nat, n: nat): seq<Op> {
    if n == 0 then [] else [Check(key, now)] + Checks(key, now, n - 1)
  }

  lemma {:induction false} ChecksAreCalls(key: string, now: nat, n: nat)
    ensures Calls(Checks(key, now, n), now) && |Checks(key, now, n)| == n
  {
    if n > 0 {
      ChecksAreCalls(key, now, n - 1);
      assert Checks(key, now, n)[1..] == Checks(key, now, n - 1);
    }
  }

  /** An entry that is not locked, whose backoff counts, and that admits `n` more. */
  predicate HasRoom(c: Config, e: Entry, now: nat, n: nat) {
    && now >= e.lockedUntil && Forgiven(c, e, now) == e
    && |Recent(e.timestamps, now - c.windowMs)| + n == c.maxAttempts
  }

  lemma RoomAdmits(c: Config, e: Entry, now: nat, n: nat)
    requires n > 0 && HasRoom(c, e, now, n)
    ensures Checked(c, e, now) == (e.(timestamps := Recent(e.timestamps, now - c.windowMs) + [now]), true)
  {
  }

  lemma RoomShrinks(c: Config, e: Entry, now: nat, n: nat, times: seq<nat>)
    requires c.windowMs > 0 && n > 0 && HasRoom(c, e, now, n)
    requires times == Recent(e.timestamps, now - c.windowMs) + [now]
    ensures HasRoom(c, e.(timestamps := times), now, n - 1)
    ensures NoneLater(e.timestamps, now) ==> NoneLater(times, now)
  {
    var start := now - c.windowMs;
    RecentOfRecent(e.timestamps, now, true, start, start);
    if NoneLater(e.timestamps, now) {
      RecentIsNoLater(e.timestamps, now, start);
    }
  }

  lemma FullLocks(c: Config, entries: Entries, key: string, now: nat)
    requires HasRoom(c, Lookup(entries, key), now, 0)
    ensures var e := Lookup(entries, key);
            var until, k := UntilNext(c, e, now), e.consecutiveLockouts + 1;
            && Reply(c, entries, Check(key, now)) == [Denied(until)]
            && Step(c, entries, Check(key, now))
               == entries[key := Entry(Recent(e.timestamps, now - c.windowMs), until, k, now)]
  {
  }

  /** The end of the next lockout, if it begins now. */
  function UntilNext(c: Config, e: Entry, now: nat): nat {
    now + LockoutMs(c, e.consecutiveLockouts + 1)
  }

  /** One check of a burst that the window has room for. */
  lemma FirstOfBurst(c: Config, entries: Entries, key: string, now: nat, n: nat) returns (next: Entries)
    requires c.windowMs > 0 && n > 0 && HasRoom(c, Lookup(entries, key), now, n)
    ensures Answers(c, entries, Checks(key, now, n + 1)) == [Allowed] + Answers(c, next, Checks(key, now, n))
    ensures Continue(c, entries, Checks(key, now, n + 1)) == Continue(c, next, Checks(key, now, n))
    ensures HasRoom(c, Lookup(next, key), now, n - 1)
    ensures Lookup(next, key).consecutiveLockouts == Lookup(entries, key).consecutiveLockouts
    ensures UntilNext(c, Lookup(next, key), now) == UntilNext(c, Lookup(entries, key), now)
    ensures NoneLater(Lookup(entries, key).timestamps, now) ==> NoneLater(Lookup(next, key).timestamps, now)
  {
    var e := Lookup(entries, key);
    var times := Recent(e.timestamps, now - c.windowMs) + [now];
    next := entries[key := e.(timestamps := times)];
    RoomAdmits(c, e, now, n);
    RoomShrinks(c, e, now, n, times);
    ChecksUnfold(c, entries, key, now, n);
  }

  /** As many checks in one millisecond as the window has room for, and one more: the
      last is denied, for as long as the count of lockouts says. */
  lemma {:induction false} LastCheckLocks(c: Config, entries: Entries, key: string, now: nat, n: nat, until: nat)
    requires c.windowMs > 0 && HasRoom(c, Lookup(entries, key), now, n)
    requires until == UntilNext(c, Lookup(entries, key), now)
    ensures EndsDenied(Answers(c, entries, Checks(key, now, n + 1)), until)
    decreases n
  {
    if n == 0 {
      LastOne(c, entries, key, now);
    } else {
      var next := FirstOfBurst(c, entries, key, now, n);
      LastCheckLocks(c, next, key, now, n - 1, until);
      EndsDeniedToo(Answers(c, next, Checks(key, now, n)), Answers(c, entries, Checks(key, now, n + 1)), until);
    }
  }

  predicate EndsDenied(answers: seq<Answer>, until: nat) {
    answers != [] && answers[|answers| - 1] == Denied(until)
  }

  lemma EndsDeniedToo(rest: seq<Answer>, answers: seq<Answer>, until: nat)
    requires answers == [Allowed] + rest && EndsDenied(rest, until)
    ensures EndsDenied(answers, until)
  {
  }

  lemma LastOne(c: Config, entries: Entries, key: string, now: nat)
    requires HasRoom(c, Lookup(entries, key), now, 0)
    ensures EndsDenied(Answers(c, entries, Checks(key, now, 1)), UntilNext(c, Lookup(entries, key), now))
  {
    ChecksUnfold(c, entries, key, now, 0);
    FullLocks(c, entries, key, now);
  }

  lemma ChecksUnfold(c: Config, entries: Entries, key: string, now: nat, n: nat)
    ensures var ops, next := Checks(key, now, n + 1), Step(c, entries, Check(key, now));
            && Answers(c, entries, ops) == Reply(c, entries, Check(key, now)) + Answers(c, next, Checks(key, now, n))
            && Continue(c, entries, ops) == Continue(c, next, Checks(key, now, n))
  {
    var ops := Checks(key, now, n + 1);
    assert ops[0] == Check(key, now) && ops[1..] == Checks(key, now, n);
  }

  lemma SecondLockoutIsLonger(c: Config, k: nat)
    requires Grows(c) && k > 1
    ensures LockoutMs(c, 1) < LockoutMs(c, k)
  {
    var m := c.backoffMultiplier;
    PowGrows(m, 0, k - 2);
    var p := Pow(m, k - 2);
    assert Pow(m, k - 1) == m * p >= 2 by { assert m * p >= m; }
    assert c.lockoutMs * Pow(m, k - 1) >= c.lockoutMs * 2;
    assert Pow(m, 0) == 1;
  }

  /** Some calls from the instant of the sweep on are answered differently. */
  ghost predicate SweepShows(c: Config, entries: Entries, now: nat) {
    exists ops :: Calls(ops, now) && Answers(c, SweptAll(c, entries, now), ops) != Answers(c, entries, ops)
  }

  /** A sweep can be noticed exactly when lockouts grow and it drops the backoff of
      some key in the very millisecond in which it reaches its reset age. */
  lemma SweepShowsExactlyWhen(c: Config, entries: Entries, now: nat)
    requires c.windowMs > 0 && now > 0 && Dated(entries, now)
    ensures SweepShows(c, entries, now) <==> DropsSome(c, entries, now)
  {
    var swept := SweptAll(c, entries, now);
    if DropsSome(c, entries, now) {
      var key :| key in entries && Drops(c, entries[key], now);
      DropShows(c, entries, now, key);
    } else {
      SweepKeepsAlike(c, entries, entries, now, now);
      forall ops | Calls(ops, now) ensures Answers(c, swept, ops) == Answers(c, entries, ops) {
        CallsAreTimed(c, swept, ops, now);
        SweepsDoNotShow(c, swept, entries, ops, now);
      }
    }
  }

  lemma DropShows(c: Config, entries: Entries, now: nat, key: string)
    requires c.windowMs > 0 && Grows(c) && key in entries && Drops(c, entries[key], now)
    ensures SweepShows(c, entries, now)
    ensures var ops := Checks(key, now, c.maxAttempts + 1);
            Answers(c, SweptAll(c, entries, now), ops) != Answers(c, entries, ops)
  {
    var swept, m := SweptAll(c, entries, now), c.maxAttempts;
    assert Lookup(swept, key) == FRESH;
    LastCheckLocks(c, swept, key, now, m, UntilNext(c, FRESH, now));
    LastCheckLocks(c, entries, key, now, m, UntilNext(c, entries[key], now));
    SecondLockoutIsLonger(c, entries[key].consecutiveLockouts + 1);
    ChecksAreCalls(key, now, m + 1);
  }

  predicate NoneLater(timestamps: seq<nat>, now: int) {
    forall i :: 0 <= i < |timestamps| ==> timestamps[i] <= now
  }

  lemma {:induction false} RecentIsNoLater(timestamps: seq<nat>, now: int, start: int)
    requires NoneLater(timestamps, now)
    ensures NoneLater(Recent(timestamps, start), now)
    ensures now <= start ==> Recent(timestamps, start) == []
  {
    if timestamps != [] {
      RecentIsNoLater(timestamps[..|timestamps| - 1], now, start);
    }
  }

  /** What such a burst of checks leaves. */
  predicate LeftBehind(entries: Entries, key: string, now: nat, until: nat, k: nat) {
    && key in entries && NoneLater(entries[key].timestamps, now)
    && entries[key] == Entry(entries[key].timestamps, until, k, now)
  }

  lemma {:induction false} BurstLeaves(c: Config, entries: Entries, key: string, now: nat, n: nat, until: nat, k: nat)
    requires c.windowMs > 0 && HasRoom(c, Lookup(entries, key), now, n)
    requires NoneLater(Lookup(entries, key).timestamps, now)
    requires until == UntilNext(c, Lookup(entries, key), now) && k == Lookup(entries, key).consecutiveLockouts + 1
    ensures LeftBehind(Continue(c, entries, Checks(key, now, n + 1)), key, now, until, k)
    decreases n
  {
    if n == 0 {
      RecentIsNoLater(Lookup(entries, key).timestamps, now, now - c.windowMs);
      LastOneLeaves(c, entries, key, now);
    } else {
      var next := FirstOfBurst(c, entries, key, now, n);
      BurstLeaves(c, next, key, now, n - 1, until, k);
    }
  }

  lemma LastOneLeaves(c: Config, entries: Entries, key: string, now: nat)
    requires HasRoom(c, Lookup(entries, key), now, 0)
    requires NoneLater(Recent(Lookup(entries, key).timestamps, now - c.windowMs), now)
    ensures var e := Lookup(entries, key);
            LeftBehind(Continue(c, entries, Checks(key, now, 1)), key, now,
                       UntilNext(c, e, now), e.consecutiveLockouts + 1)
  {
    ChecksUnfold(c, entries, key, now, 0);
    FullLocks(c, entries, key, now);
  }

  lemma {:induction false} AnswersAppend(c: Config, entries: Entries, early: seq<Op>, late: seq<Op>)
    ensures Answers(c, entries, early + late)
         == Answers(c, entries, early) + Answers(c, Continue(c, entries, early), late)
    decreases |early|
  {
    if early == [] {
      assert early + late == late;
      assert [] + Answers(c, entries, late) == Answers(c, entries, late);
    } else {
      var rest := early[1..];
      var reply, next := FirstOp(c, entries, early[0], rest, rest + late);
      assert early == [early[0]] + rest;
      Regroup([early[0]], rest, late);
      AnswersAppend(c, next, rest, late);
      Regroup(reply, Answers(c, next, rest), Answers(c, Continue(c, next, rest), late));
    }
  }

  /** What the first operation leaves to the rest, whichever rest follows. */
  lemma FirstOp(c: Config, entries: Entries, op: Op, a: seq<Op>, b: seq<Op>) returns (reply: seq<Answer>, next: Entries)
    ensures Answers(c, entries, [op] + a) == reply + Answers(c, next, a)
    ensures Answers(c, entries, [op] + b) == reply + Answers(c, next, b)
    ensures Continue(c, entries, [op] + a) == Continue(c, next, a)
  {
    reply, next := Reply(c, entries, op), Step(c, entries, op);
    assert ([op] + a)[1..] == a && ([op] + b)[1..] == b;
  }

  lemma {:induction false} ChecksHaveNoSweeps(key: string, now: nat, n: nat, rest: seq<Op>)
    ensures WithoutSweeps(Checks(key, now, n) + rest) == Checks(key, now, n) + WithoutSweeps(rest)
  {
    var ops := Checks(key, now, n) + rest;
    if n == 0 {
      assert ops == rest;
    } else {
      ChecksHaveNoSweeps(key, now, n - 1, rest);
      assert ops[0] == Check(key, now) && ops[1..] == Checks(key, now, n - 1) + rest;
    }
  }

  lemma FirstLockout(c: Config)
    requires Grows(c)
    ensures LockoutMs(c, 1) == c.lockoutMs
  {
    assert Pow(c.backoffMultiplier, 0) == 1;
  }

  lemma BurstIsDroppedLater(c: Config, key: string, now: nat)
    requires Grows(c) && now > 0 && 0 < c.windowMs <= c.lockoutResetMs && c.lockoutMs <= c.lockoutResetMs
    ensures var after := Continue(c, map[], Checks(key, now, c.maxAttempts + 1));
            key in after && Drops(c, after[key], now + c.lockoutResetMs)
  {
    var after := Continue(c, map[], Checks(key, now, c.maxAttempts + 1));
    BurstLeaves(c, map[], key, now, c.maxAttempts, UntilNext(c, FRESH, now), 1);
    FirstLockout(c);
    RecentIsNoLater(after[key].timestamps, now, now + c.lockoutResetMs - c.windowMs);
  }

  /** Runs that start alike differ if their continuations do. */
  lemma ContinueDiffers(c: Config, entries: Entries, early: seq<Op>, a: seq<Op>, b: seq<Op>)
    requires Answers(c, Continue(c, entries, early), a) != Answers(c, Continue(c, entries, early), b)
    ensures Answers(c, entries, early + a) != Answers(c, entries, early + b)
  {
    AnswersAppend(c, entries, early, a);
    AnswersAppend(c, entries, early, b);
    PrefixCancels(Answers(c, entries, early), Answers(c, Continue(c, entries, early), a),
                  Answers(c, Continue(c, entries, early), b));
  }

  lemma PrefixCancels(front: seq<Answer>, a: seq<Answer>, b: seq<Answer>)
    requires a != b
    ensures front + a != front + b
  {
    assert a == (front + a)[|front|..] && b == (front + b)[|front|..];
  }

  lemma AnswersFromSweep(c: Config, entries: Entries, now: nat, ops: seq<Op>)
    ensures Answers(c, entries, [Sweep(now)] + ops) == Answers(c, SweptAll(c, entries, now), ops)
  {
    var all := [Sweep(now)] + ops;
    assert all[0] == Sweep(now) && all[1..] == ops;
  }

  lemma SweepGoes(now: nat, ops: seq<Op>)
    ensures WithoutSweeps([Sweep(now)] + ops) == WithoutSweeps(ops)
  {
    assert ([Sweep(now)] + ops)[0] == Sweep(now) && ([Sweep(now)] + ops)[1..] == ops;
    assert [] + WithoutSweeps(ops) == WithoutSweeps(ops);
  }

  /** A sweep that shows after some operations shows in the whole run. */
  lemma SweepBetween(c: Config, first: seq<Op>, now: nat, second: seq<Op>)
    requires var after := Continue(c, map[], first);
             Answers(c, SweptAll(c, after, now), second) != Answers(c, after, second)
    ensures Answers(c, map[], first + ([Sweep(now)] + second)) != Answers(c, map[], first + second)
  {
    AnswersFromSweep(c, Continue(c, map[], first), now, second);
    ContinueDiffers(c, map[], first, [Sweep(now)] + second, second);
  }

  lemma TwoBursts(key: string, now: nat, late: nat, n: nat)
    ensures var first, second := Checks(key, now, n), Checks(key, late, n);
            WithoutSweeps(first + ([Sweep(late)] + second)) == first + second
  {
    var second := Checks(key, late, n);
    ChecksHaveNoSweeps(key, now, n, [Sweep(late)] + second);
    SweepGoes(late, second);
    ChecksHaveNoSweeps(key, late, n, []);
    assert second + [] == second;
  }

  /** Such runs exist: where lockouts grow and the reset age is neither below the
      window nor below the first lockout, one burst into the lockout, a sweep at the
      reset age, and another burst in the same millisecond. Without the sweep the
      second lockout ends later. */
  lemma SweepShowsInARun(c: Config, key: string, now: nat)
    requires Grows(c) && now > 0 && 0 < c.windowMs <= c.lockoutResetMs && c.lockoutMs <= c.lockoutResetMs
    ensures var late := now + c.lockoutResetMs;
            var first, second := Checks(key, now, c.maxAttempts + 1), Checks(key, late, c.maxAttempts + 1);
            var ops := first + ([Sweep(late)] + second);
            WithoutSweeps(ops) == first + second && Answers(c, map[], ops) != Answers(c, map[], first + second)
  {
    var m, late := c.maxAttempts, now + c.lockoutResetMs;
    var first, second := Checks(key, now, m + 1), Checks(key, late, m + 1);
    TwoBursts(key, now, late, m + 1);
    BurstIsDroppedLater(c, key, now);
    DropShows(c, Continue(c, map[], first), late, key);
    SweepBetween(c, first, late, second);
  }

  // ------------------------------------------------------------ at most maxAttempts per window

  /** The entries after a run from an empty limiter. */
  function After(c: Config, ops: seq<Op>): Entries {
    if ops == [] then map[] else Step(c, After(c, ops[..|ops| - 1]), ops[|ops| - 1])
  }

  /** The time of the operation, if it admits `key`. */
  function Admission(c: Config, entries: Entries, op: Op, key: string): seq<nat> {
    if op.Check? && op.key == key && Checked(c, Lookup(entries, key), op.now).1 then [op.now] else []
  }

  /** The times at which the run admitted `key`. */
  function Admitted(c: Config, ops: seq<Op>, key: string): seq<nat> {
    if ops == [] then []
    else
      var before, op := ops[..|ops| - 1], ops[|ops| - 1];
      Admitted(c, before, key) + Admission(c, After(c, before), op, key)
  }

  predicate Ordered(ops: seq<Op>) {
    forall i, j :: 0 <= i < j < |ops| ==> ops[i].now <= ops[j].now
  }

  /** The times that fall into the half-open window that starts at `start`. */
  function InWindow(times: seq<nat>, start: int, length: nat): seq<nat> {
    if times == [] then []
    else
      var last := times[|times| - 1];
      InWindow(times[..|times| - 1], start, length) + if start <= last < start + length then [last] else []
  }

  /** Reachable entries are dated. */
  lemma {:induction false} ReachableIsDated(c: Config, ops: seq<Op>)
    requires Ordered(ops) && (ops != [] ==> ops[0].now > 0)
    ensures Dated(After(c, ops), Latest(ops))
  {
    if ops != [] {
      var before, op := ops[..|ops| - 1], ops[|ops| - 1];
      assert ops == before + [op];
      OrderedFront(before, op);
      ReachableIsDated(c, before);
      StepKeepsDated(c, After(c, before), Latest(before), op);
    }
  }

  function Latest(ops: seq<Op>): nat {
    if ops == [] then 0 else ops[|ops| - 1].now
  }

  lemma StepKeepsDated(c: Config, a: Entries, from: nat, op: Op)
    requires Dated(a, from) && from <= op.now && op.now > 0
    ensures Dated(Step(c, a, op), op.now)
  {
    if op.Sweep? {
      SweepKeepsDated(c, a, from, op.now);
    } else {
      OpKeepsDated(c, a, from, op);
    }
  }

  /** The limiter remembers every admission that is still in the window. */
  lemma {:induction false} RemembersRecent(c: Config, ops: seq<Op>, key: string, now: nat)
    requires Ordered(ops) && (ops != [] ==> ops[|ops| - 1].now <= now)
    ensures Recent(Lookup(After(c, ops), key).timestamps, now - c.windowMs)
         == Recent(Admitted(c, ops, key), now - c.windowMs)
  {
    if ops != [] {
      var before, op := ops[..|ops| - 1], ops[|ops| - 1];
      RemembersRecent(c, before, key, now);
      StepRemembers(c, After(c, before), Admitted(c, before, key), op, key, now);
    }
  }

  /** One operation keeps the memory of a key in step with its admissions. */
  lemma StepRemembers(c: Config, entries: Entries, admitted: seq<nat>, op: Op, key: string, now: nat)
    requires op.now <= now
    requires Recent(Lookup(entries, key).timestamps, now - c.windowMs) == Recent(admitted, now - c.windowMs)
    ensures Recent(Lookup(Step(c, entries, op), key).timestamps, now - c.windowMs)
         == Recent(admitted + Admission(c, entries, op, key), now - c.windowMs)
  {
    var e := Lookup(entries, key);
    LookupAfter(c, entries, op, key);
    if Admission(c, entries, op, key) == [] {
      assert admitted + [] == admitted;
    } else {
      RecentSnoc(admitted, op.now, now - c.windowMs);
    }
    if op.Check? {
      CheckRemembers(c, e, op.now, now);
    } else if op.Sweep? {
      SweepRemembers(c, e, op.now, now);
    }
  }

  lemma LookupAfter(c: Config, entries: Entries, op: Op, key: string)
    ensures Lookup(Step(c, entries, op), key)
         == if op.Check? && op.key == key then Checked(c, Lookup(entries, key), op.now).0
            else if op.Sweep? then Swept(c, Lookup(entries, key), op.now).GetOr(FRESH)
            else Lookup(entries, key)
  {
  }

  /** A window that contains `now` reaches back less than the sliding window does. */
  lemma {:induction false} WindowIsRecent(times: seq<nat>, start: int, length: nat, now: nat)
    requires start <= now < start + length
    ensures |InWindow(times, start, length)| <= |Recent(times, now - length)|
  {
    if times != [] {
      WindowIsRecent(times[..|times| - 1], start, length, now);
    }
  }

  /** Over every run, sweeps and lockouts included, no key is admitted more than
      maxAttempts times in any half-open window of windowMs. */
  lemma {:induction false} AtMostMaxPerWindow(c: Config, ops: seq<Op>, key: string, start: int)
    requires Ordered(ops)
    ensures |InWindow(Admitted(c, ops, key), start, c.windowMs)| <= c.maxAttempts
  {
    if ops != [] {
      var before, op := ops[..|ops| - 1], ops[|ops| - 1];
      assert ops == before + [op];
      OrderedFront(before, op);
      AtMostMaxPerWindow(c, before, key, start);
      AtMostMaxStep(c, before, op, key, start);
    }
  }

  lemma OrderedFront(before: seq<Op>, op: Op)
    requires Ordered(before + [op])
    ensures Ordered(before) && (before != [] ==> before[|before| - 1].now <= op.now)
  {
    var ops := before + [op];
    assert forall i :: 0 <= i < |before| ==> ops[i] == before[i];
    assert ops[|before|] == op;
  }

  lemma AtMostMaxStep(c: Config, before: seq<Op>, op: Op, key: string, start: int)
    requires Ordered(before) && (before != [] ==> before[|before| - 1].now <= op.now)
    requires |InWindow(Admitted(c, before, key), start, c.windowMs)| <= c.maxAttempts
    ensures |InWindow(Admitted(c, before + [op], key), start, c.windowMs)| <= c.maxAttempts
  {
    RemembersRecent(c, before, key, op.now);
    AdmittedSnoc(c, before, op, key);
    WindowGrowsByAdmission(c, After(c, before), Admitted(c, before, key), op, key, start);
  }

  lemma AdmittedSnoc(c: Config, before: seq<Op>, op: Op, key: string)
    ensures Admitted(c, before + [op], key) == Admitted(c, before, key) + Admission(c, After(c, before), op, key)
  {
    assert (before + [op])[..|before|] == before;
  }

  lemma WindowGrowsByAdmission(c: Config, entries: Entries, admitted: seq<nat>, op: Op, key: string, start: int)
    requires Recent(Lookup(entries, key).timestamps, op.now - c.windowMs) == Recent(admitted, op.now - c.windowMs)
    requires |InWindow(admitted, start, c.windowMs)| <= c.maxAttempts
    ensures |InWindow(admitted + Admission(c, entries, op, key), start, c.windowMs)| <= c.maxAttempts
  {
    if Admission(c, entries, op, key) == [] {
      assert admitted + [] == admitted;
    } else {
      AdmitsExactly(c, Lookup(entries, key), op.now);
      InWindowSnoc(admitted, op.now, start, c.windowMs);
      if start <= op.now < start + c.windowMs {
        WindowIsRecent(admitted, start, c.windowMs, op.now);
      }
    }
  }

  lemma InWindowSnoc(times: seq<nat>, last: nat, start: int, length: nat)
    ensures |InWindow(times + [last], start, length)| ==
            |InWindow(times, start, length)| + if start <= last < start + length then 1 else 0
  {
    assert (times + [last])[..|times|] == times;
  }

  // ------------------------------------------------------------ lockouts

  lemma {:induction false} PowGrows(base: nat, j: nat, k: nat)
    requires base >= 1 && j <= k
    ensures 1 <= Pow(base, j) <= Pow(base, k)
    decreases k
  {
    if k > j {
      PowGrows(base, j, k - 1);
      assert base * Pow(base, k - 1) >= Pow(base, k - 1);
    } else if k > 0 {
      PowGrows(base, k - 1, k - 1);
      assert base * Pow(base, k - 1) >= 1;
    }
  }

  /** Durations do not shrink from one consecutive lockout to a later one, and with
      backoff on they never exceed the cap. */
  lemma LockoutsGrowUpToCap(c: Config, j: nat, k: nat)
    requires 1 <= j <= k
    ensures LockoutMs(c, j) <= LockoutMs(c, k)
    ensures c.backoffMultiplier > 1 ==> LockoutMs(c, k) <= c.maxLockoutMs
    ensures c.backoffMultiplier > 1 && c.lockoutMs <= c.maxLockoutMs ==> LockoutMs(c, 1) == c.lockoutMs
  {
    if c.backoffMultiplier > 1 {
      PowGrows(c.backoffMultiplier, j - 1, k - 1);
      var a, b := Pow(c.backoffMultiplier, j - 1), Pow(c.backoffMultiplier, k - 1);
      assert c.lockoutMs * a <= c.lockoutMs * b;
    }
  }

  /** Entries after more operations on given ones. */
  function Continue(c: Config, entries: Entries, ops: seq<Op>): Entries
    decreases |ops|
  {
    if ops == [] then entries else Continue(c, Step(c, entries, ops[0]), ops[1..])
  }

  /** While a lockout lasts, no sequence of operations admits its key or changes
      anything about its entry: it ends when it was set to end. */
  lemma {:induction false} NothingAdmittedWhileLocked(c: Config, entries: Entries, ops: seq<Op>, key: string)
    requires key in entries
    requires forall i :: 0 <= i < |ops| ==> ops[i].now < entries[key].lockedUntil
    ensures key in Continue(c, entries, ops) && Continue(c, entries, ops)[key] == entries[key]
    ensures forall i :: 0 <= i < |ops| && ops[i].Check? && ops[i].key == key ==>
              !Checked(c, Lookup(Continue(c, entries, ops[..i]), key), ops[i].now).1
    decreases |ops|
  {
    if ops != [] {
      var next, rest := Step(c, entries, ops[0]), ops[1..];
      assert ops[0].now < entries[key].lockedUntil;
      assert next[key] == entries[key];
      NothingAdmittedWhileLocked(c, next, rest, key);
      forall i | 0 <= i < |ops| && ops[i].Check? && ops[i].key == key
        ensures !Checked(c, Lookup(Continue(c, entries, ops[..i]), key), ops[i].now).1
      {
        if i > 0 {
          assert rest[i - 1] == ops[i] && ops[..i][1..] == rest[..i - 1];
        }
      }
    }
  }

  /** A denied check that meets no lockout starts one, and for as long as the number
      of consecutive lockouts asks for no sequence of operations admits its key. */
  lemma DenialLocksOut(c: Config, entries: Entries, key: string, now: nat, ops: seq<Op>)
    requires var e := Lookup(entries, key); now >= e.lockedUntil && !Checked(c, e, now).1
    requires forall i :: 0 <= i < |ops| ==>
               ops[i].now < now + LockoutMs(c, Forgiven(c, Lookup(entries, key), now).consecutiveLockouts + 1)
    ensures var locked := Step(c, entries, Check(key, now));
            && locked[key].lockedUntil
               == now + LockoutMs(c, Forgiven(c, Lookup(entries, key), now).consecutiveLockouts + 1)
            && forall i :: 0 <= i < |ops| && ops[i].Check? && ops[i].key == key ==>
              !Checked(c, Lookup(Continue(c, locked, ops[..i]), key), ops[i].now).1
  {
    NothingAdmittedWhileLocked(c, Step(c, entries, Check(key, now)), ops, key);
  }

  // ------------------------------------------------------------ remaining

  /** How many of `n` checks at the same instant succeed. */
  function Burst(c: Config, e: Entry, now: nat, n: nat): nat
    decreases n
  {
    if n == 0 then 0
    else
      var (next, allowed) := Checked(c, e, now);
      (if allowed then 1 else 0) + Burst(c, next, now, n - 1)
  }

  /** `remaining` is exact: of any number of checks at that instant, exactly so many
      succeed. */
  lemma {:induction false} RemainingIsExact(c: Config, e: Entry, now: nat, n: nat)
    requires c.windowMs > 0
    ensures Burst(c, e, now, n) == if n < Remaining(c, e, now) then n else Remaining(c, e, now)
    decreases n
  {
    if n > 0 {
      RemainingAfterCheck(c, e, now);
      RemainingIsExact(c, Checked(c, e, now).0, now, n - 1);
    }
  }

  /** A check takes one from what remains, if anything does. */
  lemma RemainingAfterCheck(c: Config, e: Entry, now: nat)
    requires c.windowMs > 0
    ensures Checked(c, e, now).1 <==> Remaining(c, e, now) > 0
    ensures Remaining(c, Checked(c, e, now).0, now) == if Checked(c, e, now).1 then Remaining(c, e, now) - 1 else 0
  {
    CheckRemembers(c, e, now, now);
    NothingAdded(Recent(e.timestamps, now - c.windowMs));
    AdmitsExactly(c, e, now);
    LocksOut(c, e, now);
  }

  lemma LocksOut(c: Config, e: Entry, now: nat)
    ensures !Checked(c, e, now).1 ==>
              now < Checked(c, e, now).0.lockedUntil || |Recent(e.timestamps, now - c.windowMs)| >= c.maxAttempts
  {
  }
}
