/**
 The streaming output filter of src/security/sanitize.ts.

 A secret pattern whose minimal match has a fixed length is a `Shape`: one
 character class per position, then a class the match extends over greedily.
 Every other pattern (unbounded values, word boundaries, the base64 rescan) is
 a `Custom` matcher about which nothing is assumed. Text is taken as already
 normalized.
 */
module LeakFilter {
  import opened Text

  const WORD: string := "REDACTED"
  const TOKEN: string := "[" + WORD + "]"
  const OVERLAP: nat := 80

  datatype Pattern =
    | Shape(name: string, classes: seq<set<char>>, tail: set<char>)
    | Custom(name: string, find: (string, nat) -> nat)

  datatype Detection = Detection(name: string, index: nat)

  /** `w` is a minimal match of the classes. */
  predicate Fits(classes: seq<set<char>>, w: string) {
    |w| == |classes| && forall k :: 0 <= k < |w| ==> w[k] in classes[k]
  }

  predicate FitsAt(classes: seq<set<char>>, s: string, i: nat) {
    i + |classes| <= |s| && Fits(classes, s[i..i + |classes|])
  }

  /** Some stretch of `s` is a minimal match. */
  ghost predicate Occurs(classes: seq<set<char>>, s: string) {
    exists j: nat :: FitsAt(classes, s, j)
  }

  /** The patterns the filter can guarantee: a minimal match that straddles the
      80-character overlap is at most 81 long, and no match can use the brackets
      of the replacement text or lie inside its word. */
  ghost predicate Guarded(p: Pattern) {
    && p.Shape?
    && 0 < |p.classes| <= OVERLAP + 1 && !Occurs(p.classes, WORD)
    && forall k :: 0 <= k < |p.classes| ==> '[' !in p.classes[k] && ']' !in p.classes[k]
  }

  function Extend(tail: set<char>, s: string, i: nat): (end: nat)
    requires i <= |s|
    ensures i <= end <= |s|
    decreases |s| - i
  {
    if i < |s| && s[i] in tail then Extend(tail, s, i + 1) else i
  }

  /** Length of the match starting at `i`, zero when there is none. */
  function MatchLen(p: Pattern, s: string, i: nat): (n: nat)
    requires i <= |s|
    ensures i + n <= |s|
  {
    match p
    case Shape(_, classes, tail) =>
      if FitsAt(classes, s, i)
      then Extend(tail, s, i + |classes|) - i
      else 0
    case Custom(_, find) =>
      if find(s, i) <= |s| - i then find(s, i) else 0
  }

  ghost predicate Matches(p: Pattern, s: string) {
    exists i :: 0 <= i < |s| && MatchLen(p, s, i) > 0
  }

  ghost predicate Leaky(ps: seq<Pattern>, s: string) {
    exists k :: 0 <= k < |ps| && Matches(ps[k], s)
  }

  // ---------------------------------------------------------------- detection

  /** All leftmost non-overlapping matches of one pattern from `i` on. */
  function Hits(p: Pattern, s: string, i: nat): seq<Detection>
    requires i <= |s|
    decreases |s| - i
  {
    if i == |s| then []
    else
      var n := MatchLen(p, s, i);
      if n > 0 then [Detection(p.name, i)] + Hits(p, s, i + n) else Hits(p, s, i + 1)
  }

  function AllHits(ps: seq<Pattern>, s: string): seq<Detection> {
    if ps == [] then [] else AllHits(ps[..|ps| - 1], s) + Hits(ps[|ps| - 1], s, 0)
  }

  lemma {:induction false} HitsExist(p: Pattern, s: string, i: nat)
    requires i <= |s|
    ensures Hits(p, s, i) != [] <==> exists j :: i <= j < |s| && MatchLen(p, s, j) > 0
    decreases |s| - i
  {
    if i < |s| && MatchLen(p, s, i) == 0 {
      HitsExist(p, s, i + 1);
    }
  }

  lemma {:induction false} AllHitsExist(ps: seq<Pattern>, s: string)
    ensures AllHits(ps, s) != [] <==> Leaky(ps, s)
  {
    if ps != [] {
      var front := ps[..|ps| - 1];
      AllHitsExist(front, s);
      HitsExist(ps[|ps| - 1], s, 0);
      if Leaky(front, s) {
        var k :| 0 <= k < |front| && Matches(front[k], s);
        assert Matches(ps[k], s);
      }
      if Leaky(ps, s) && !Matches(ps[|ps| - 1], s) {
        var k :| 0 <= k < |ps| && Matches(ps[k], s);
        assert Matches(front[k], s);
      }
    }
  }

  /** src/security/sanitize.ts detectLeaks: every pattern, every match. */
  method DetectLeaks(ps: seq<Pattern>, chunk: string) returns (detections: seq<Detection>)
    ensures detections == AllHits(ps, chunk)
    ensures detections != [] <==> Leaky(ps, chunk)
  {
    detections := [];
    for k := 0 to |ps|
      invariant detections == AllHits(ps[..k], chunk)
    {
      var before := detections;
      var at := 0;
      while at < |chunk|
        invariant at <= |chunk|
        invariant detections + Hits(ps[k], chunk, at) == before + Hits(ps[k], chunk, 0)
      {
        var n := MatchLen(ps[k], chunk, at);
        if n > 0 {
          detections := detections + [Detection(ps[k].name, at)];
          at := at + n;
        } else {
          at := at + 1;
        }
      }
      assert ps[..k + 1][..k] == ps[..k];
    }
    assert ps[..|ps|] == ps;
    AllHitsExist(ps, chunk);
  }

  // ---------------------------------------------------------------- redaction

  /** Global replacement of one pattern, from position `i` on. */
  function Replace(p: Pattern, s: string, i: nat): string
    requires i <= |s|
    decreases |s| - i
  {
    if i == |s| then ""
    else
      var n := MatchLen(p, s, i);
      if n > 0 then TOKEN + Replace(p, s, i + n) else [s[i]] + Replace(p, s, i + 1)
  }

  function Redact(ps: seq<Pattern>, s: string): string {
    if ps == [] then s else Redact(ps[1..], Replace(ps[0], s, 0))
  }

  /** src/security/sanitize.ts redactLeaks: the patterns one after the other. */
  method RedactLeaks(ps: seq<Pattern>, chunk: string) returns (result: string)
    ensures result == Redact(ps, chunk)
  {
    result := chunk;
    for k := 0 to |ps|
      invariant Redact(ps[k..], result) == Redact(ps, chunk)
    {
      assert ps[k..][1..] == ps[k + 1..];
      result := Replace(ps[k], result, 0);
    }
  }

  lemma WindowOfTail(a: string, b: string, k: nat, n: nat)
    requires |a| <= k && k + n <= |a + b|
    ensures (a + b)[k..k + n] == b[k - |a|..k - |a| + n]
  {
  }

  predicate StandsAt(w: string, s: string, j: nat) {
    j + |w| <= |s| && s[j..j + |w|] == w
  }

  /** A window that no part of the replacement text spells. */
  ghost predicate Foreign(w: string) {
    w != "" && '[' !in w && ']' !in w && forall j: nat :: !StandsAt(w, WORD, j)
  }

  /** A window that begins in the replacement text covers one of the brackets or lies
      between them. */
  lemma WindowStartsBehind(head: string, rest: string, k: nat, w: string)
    requires head == TOKEN || (|head| == 1 && k > 0)
    requires k + |w| <= |head + rest| && w != ""
    requires (head + rest)[k..k + |w|] == w
    ensures k >= |head| || '[' in w || ']' in w || (k > 0 && StandsAt(w, WORD, k - 1))
  {
    if k < |head| {
      WindowInBrackets(WORD, rest, k, w);
    }
  }

  lemma WindowInBrackets(word: string, rest: string, k: nat, w: string)
    requires var all := ("[" + word + "]") + rest; k + |w| <= |all| && all[k..k + |w|] == w
    requires k < |word| + 2 && w != ""
    ensures '[' in w || ']' in w || (k > 0 && StandsAt(w, word, k - 1))
  {
    var all := ("[" + word + "]") + rest;
    assert w[0] == all[k];
    if k > 0 && k + |w| > |word| + 1 {
      assert w[|word| + 1 - k] == all[|word| + 1];
    } else if k > 0 {
      assert forall x :: 0 <= x < |w| ==> w[x] == all[k + x] == word[k - 1..][x];
      assert word[k - 1..k - 1 + |w|] == w;
    }
  }

  lemma WindowLiesBehind(head: string, rest: string, k: nat, w: string)
    requires head == TOKEN || (|head| == 1 && k > 0)
    requires k + |w| <= |head + rest| && Foreign(w)
    requires (head + rest)[k..k + |w|] == w
    ensures k >= |head| && k - |head| + |w| <= |rest| && rest[k - |head|..k - |head| + |w|] == w
  {
    WindowStartsBehind(head, rest, k, w);
    WindowOfTail(head, rest, k, |w|);
  }

  /** Up to the first inserted bracket, nothing changes. */
  lemma {:induction false} ReplaceKeepsPrefix(p: Pattern, s: string, i: nat, m: nat)
    requires i <= |s| && m <= |Replace(p, s, i)|
    requires forall x :: 0 <= x < m ==> Replace(p, s, i)[x] != '['
    ensures i + m <= |s| && Replace(p, s, i)[..m] == s[i..i + m]
    decreases m
  {
    if m > 0 {
      var out := Replace(p, s, i);
      assert out[0] != '[';
      var rest := Replace(p, s, i + 1);
      assert out == [s[i]] + rest;
      forall x | 0 <= x < m - 1 ensures rest[x] != '[' {
        assert out[x + 1] == rest[x];
      }
      ReplaceKeepsPrefix(p, s, i + 1, m - 1);
      assert out[..m] == [s[i]] + rest[..m - 1];
      assert s[i..i + m] == [s[i]] + s[i + 1..i + m];
    }
  }

  /** A foreign window of the output stood in the input at a place where the pattern
      did not match. */
  lemma {:induction false} ReplaceKeepsWindow(p: Pattern, s: string, i: nat, k: nat, w: string) returns (j: nat)
    requires i <= |s| && k + |w| <= |Replace(p, s, i)|
    requires Replace(p, s, i)[k..k + |w|] == w && Foreign(w)
    ensures j + |w| <= |s| && s[j..j + |w|] == w && MatchLen(p, s, j) == 0
    decreases |s| - i
  {
    if MatchLen(p, s, i) == 0 && k == 0 {
      WindowInFront(p, s, i, w);
      return i;
    }
    var head, next := ReplaceUnfolds(p, s, i);
    WindowLiesBehind(head, Replace(p, s, next), k, w);
    j := ReplaceKeepsWindow(p, s, next, k - |head|, w);
  }

  lemma WindowInFront(p: Pattern, s: string, i: nat, w: string)
    requires i <= |s| && |w| <= |Replace(p, s, i)| && Replace(p, s, i)[..|w|] == w && '[' !in w
    ensures i + |w| <= |s| && s[i..i + |w|] == w
  {
    assert forall x :: 0 <= x < |w| ==> Replace(p, s, i)[x] == w[x];
    ReplaceKeepsPrefix(p, s, i, |w|);
  }

  lemma ReplaceUnfolds(p: Pattern, s: string, i: nat) returns (head: string, next: nat)
    requires i <= |s| && Replace(p, s, i) != ""
    ensures i < next <= |s| && Replace(p, s, i) == head + Replace(p, s, next)
    ensures if MatchLen(p, s, i) > 0 then head == TOKEN else |head| == 1
  {
    var len := MatchLen(p, s, i);
    head, next := if len > 0 then TOKEN else [s[i]], i + if len > 0 then len else 1;
  }

  lemma {:induction false} ReplaceWithoutMatch(p: Pattern, s: string, i: nat)
    requires i <= |s| && forall j :: i <= j < |s| ==> MatchLen(p, s, j) == 0
    ensures Replace(p, s, i) == s[i..]
    decreases |s| - i
  {
    if i < |s| {
      ReplaceWithoutMatch(p, s, i + 1);
    }
  }

  lemma {:induction false} ReplaceMarks(p: Pattern, s: string, i: nat, j: nat)
    requires i <= j < |s| && MatchLen(p, s, j) > 0
    ensures '[' in Replace(p, s, i)
    decreases |s| - i
  {
    if MatchLen(p, s, i) > 0 {
      assert Replace(p, s, i)[0] == '[';
    } else {
      ReplaceMarks(p, s, i + 1, j);
    }
  }

  lemma {:induction false} RedactKeepsPrefix(ps: seq<Pattern>, s: string, m: nat)
    requires m <= |Redact(ps, s)|
    requires forall x :: 0 <= x < m ==> Redact(ps, s)[x] != '['
    ensures m <= |s| && Redact(ps, s)[..m] == s[..m]
  {
    if ps != [] {
      var once := Replace(ps[0], s, 0);
      RedactKeepsPrefix(ps[1..], once, m);
      forall x | 0 <= x < m ensures once[x] != '[' {
        assert once[..m][x] == Redact(ps, s)[..m][x];
      }
      ReplaceKeepsPrefix(ps[0], s, 0, m);
    }
  }

  lemma {:induction false} RedactKeepsWindow(ps: seq<Pattern>, s: string, k: nat, w: string) returns (j: nat)
    requires k + |w| <= |Redact(ps, s)|
    requires Redact(ps, s)[k..k + |w|] == w && Foreign(w)
    ensures j + |w| <= |s| && s[j..j + |w|] == w
  {
    if ps == [] {
      j := k;
    } else {
      var mid := RedactKeepsWindow(ps[1..], Replace(ps[0], s, 0), k, w);
      j := ReplaceKeepsWindow(ps[0], s, 0, mid, w);
    }
  }

  lemma {:induction false} RedactMarks(ps: seq<Pattern>, s: string)
    requires '[' in s || Leaky(ps, s)
    ensures '[' in Redact(ps, s)
  {
    if ps != [] {
      var p := ps[0];
      if Matches(p, s) {
        var j :| 0 <= j < |s| && MatchLen(p, s, j) > 0;
        ReplaceMarks(p, s, 0, j);
      } else {
        ReplaceWithoutMatch(p, s, 0);
        assert Replace(p, s, 0) == s;
        if Leaky(ps, s) {
          var k :| 0 <= k < |ps| && Matches(ps[k], s);
          assert ps[1..][k - 1] == ps[k];
        }
      }
      RedactMarks(ps[1..], Replace(p, s, 0));
    }
  }

  lemma FittingWindowIsForeign(p: Pattern, w: string)
    requires Guarded(p) && Fits(p.classes, w)
    ensures Foreign(w)
  {
    forall j: nat ensures !StandsAt(w, WORD, j) {
      assert !FitsAt(p.classes, WORD, j);
    }
  }

  /** One pass of redaction removes every guarded pattern of the list: a later
      replacement, whatever it matches, cannot bring an earlier pattern back. */
  lemma {:induction false} RedactRemoves(ps: seq<Pattern>, s: string, k: nat)
    requires k < |ps| && Guarded(ps[k])
    ensures !Occurs(ps[k].classes, Redact(ps, s))
  {
    var p := ps[k];
    var once := Replace(ps[0], s, 0);
    if k > 0 {
      assert ps[1..][k - 1] == p;
      RedactRemoves(ps[1..], once, k - 1);
    } else if Occurs(p.classes, Redact(ps, s)) {
      var at: nat :| FitsAt(p.classes, Redact(ps, s), at);
      var w := Redact(ps, s)[at..at + |p.classes|];
      FittingWindowIsForeign(p, w);
      var mid := RedactKeepsWindow(ps[1..], once, at, w);
      var j := ReplaceKeepsWindow(p, s, 0, mid, w);
      assert false;
    }
  }

  // ------------------------------------------------------------ the streaming buffer

  /** The text that takes the place of the buffered text. */
  ghost function Cleaned(ps: seq<Pattern>, buffered: string): string {
    if Leaky(ps, buffered) then Redact(ps, buffered) else buffered
  }

  function AllButOverlap(s: string): (prefix: string) {
    if |s| > OVERLAP then s[..|s| - OVERLAP] else ""
  }

  function OverlapOf(s: string): (suffix: string) {
    if |s| > OVERLAP then s[|s| - OVERLAP..] else s
  }

  class StreamingLeakBuffer {
    const patterns: seq<Pattern>
    var buffered: string

    constructor (patterns: seq<Pattern>)
      ensures this.patterns == patterns && buffered == ""
    {
      this.patterns := patterns;
      buffered := "";
    }

    method Feed(chunk: string) returns (safe: string, leaks: seq<Detection>)
      modifies this
      ensures safe == AllButOverlap(Cleaned(patterns, old(buffered) + chunk))
      ensures buffered == OverlapOf(Cleaned(patterns, old(buffered) + chunk))
      ensures leaks == AllHits(patterns, old(buffered) + chunk)
    {
      buffered := buffered + chunk;
      leaks := DetectLeaks(patterns, buffered);
      if |leaks| > 0 {
        var redacted := RedactLeaks(patterns, buffered);
        buffered := OverlapOf(redacted);
        safe := AllButOverlap(redacted);
        return;
      }
      if |buffered| > OVERLAP {
        safe := buffered[..|buffered| - OVERLAP];
        buffered := buffered[|buffered| - OVERLAP..];
        return;
      }
      safe := "";
    }

    method Flush() returns (safe: string, leaks: seq<Detection>)
      modifies this
      ensures safe == Cleaned(patterns, old(buffered))
      ensures buffered == ""
      ensures leaks == AllHits(patterns, old(buffered))
    {
      leaks := DetectLeaks(patterns, buffered);
      safe := buffered;
      if |leaks| > 0 {
        safe := RedactLeaks(patterns, buffered);
      }
      buffered := "";
    }
  }

  /** What the sink has received, and what the buffer still holds. */
  datatype Progress = Progress(emitted: string, held: string)

  ghost function Fed(ps: seq<Pattern>, s: Progress, chunk: string): Progress {
    var next := Cleaned(ps, s.held + chunk);
    Progress(s.emitted + AllButOverlap(next), OverlapOf(next))
  }

  ghost function FedAll(ps: seq<Pattern>, s: Progress, chunks: seq<string>): Progress
    decreases |chunks|
  {
    if chunks == [] then s else FedAll(ps, Fed(ps, s, chunks[0]), chunks[1..])
  }

  lemma {:induction false} FedAllSnoc(ps: seq<Pattern>, s: Progress, chunks: seq<string>, last: string)
    ensures FedAll(ps, s, chunks + [last]) == Fed(ps, FedAll(ps, s, chunks), last)
    decreases |chunks|
  {
    if chunks == [] {
      assert FedAll(ps, s, [last]) == FedAll(ps, Fed(ps, s, last), [last][1..]);
    } else {
      assert (chunks + [last])[1..] == chunks[1..] + [last];
      FedAllSnoc(ps, Fed(ps, s, chunks[0]), chunks[1..], last);
    }
  }

  /** Everything one stream delivers: all its chunks, then the flush. */
  ghost function Delivered(ps: seq<Pattern>, chunks: seq<string>): string {
    var end := FedAll(ps, Progress("", ""), chunks);
    end.emitted + Cleaned(ps, end.held)
  }

  /** What every feed keeps. A match to come can reach back over the whole of
      `held` only if nothing was emitted yet, and it cannot if `held` has the
      overlap's length or still shows a bracket of a replacement. */
  ghost predicate Safe(p: Pattern, s: Progress)
    requires p.Shape?
  {
    && !Occurs(p.classes, s.emitted + s.held)
    && (s.emitted == "" || |s.held| == OVERLAP || '[' in s.held)
  }

  /** The step all of it rests on: replacing `held + chunk` by its cleaned form
      behind the emitted text creates no match, wherever the chunk was cut. */
  lemma CleanedSeam(ps: seq<Pattern>, k: nat, s: Progress, chunk: string)
    requires k < |ps| && Guarded(ps[k]) && Safe(ps[k], s)
    ensures !Occurs(ps[k].classes, s.emitted + Cleaned(ps, s.held + chunk))
  {
    var next := Cleaned(ps, s.held + chunk);
    forall j: nat ensures !FitsAt(ps[k].classes, s.emitted + next, j) {
      if j >= |s.emitted| {
        CleanedHasNone(ps, k, s.held + chunk, j - |s.emitted|);
        SuffixWindow(ps[k].classes, s.emitted, next, j);
      } else {
        EmittedEndsSafely(ps, k, s, chunk, j);
      }
    }
  }

  lemma SuffixWindow(classes: seq<set<char>>, a: string, b: string, j: nat)
    requires |a| <= j
    ensures FitsAt(classes, a + b, j) <==> FitsAt(classes, b, j - |a|)
  {
    if j + |classes| <= |a + b| {
      WindowOfTail(a, b, j, |classes|);
    }
  }

  lemma SharedWindow(classes: seq<set<char>>, a: string, b: string, j: nat)
    requires j + |classes| <= |a| && j + |classes| <= |b|
    requires a[..j + |classes|] == b[..j + |classes|]
    ensures FitsAt(classes, a, j) <==> FitsAt(classes, b, j)
  {
    var end := j + |classes|;
    assert a[j..end] == a[..end][j..] && b[j..end] == b[..end][j..];
  }

  lemma CleanedHasNone(ps: seq<Pattern>, k: nat, buf: string, j: nat)
    requires k < |ps| && Guarded(ps[k])
    ensures !FitsAt(ps[k].classes, Cleaned(ps, buf), j)
  {
    if Leaky(ps, buf) {
      RedactRemoves(ps, buf, k);
    } else {
      assert !Matches(ps[k], buf);
      if j < |buf| {
        assert MatchLen(ps[k], buf, j) == 0;
      }
    }
  }

  lemma CleanedKeepsPrefix(ps: seq<Pattern>, buf: string, m: nat)
    requires m <= |Cleaned(ps, buf)| && forall x :: 0 <= x < m ==> Cleaned(ps, buf)[x] != '['
    ensures m <= |buf| && forall x :: 0 <= x < m ==> Cleaned(ps, buf)[x] == buf[x]
  {
    if Leaky(ps, buf) {
      RedactKeepsPrefix(ps, buf, m);
    }
    var next := Cleaned(ps, buf);
    assert next[..m] == buf[..m];
    assert forall x :: 0 <= x < m ==> next[x] == next[..m][x] == buf[..m][x] == buf[x];
  }

  /** A window that starts in the emitted text lies in front of any inserted
      bracket: either it was there before, or it swallows all of `held`. */
  lemma EmittedEndsSafely(ps: seq<Pattern>, k: nat, s: Progress, chunk: string, j: nat)
    requires k < |ps| && Guarded(ps[k]) && Safe(ps[k], s) && j < |s.emitted|
    ensures !FitsAt(ps[k].classes, s.emitted + Cleaned(ps, s.held + chunk), j)
  {
    var p, n := ps[k], |ps[k].classes|;
    var e, buf, next := s.emitted, s.held + chunk, Cleaned(ps, s.held + chunk);
    if FitsAt(p.classes, e + next, j) {
      var w := (e + next)[j..j + n];
      FittingWindowIsForeign(p, w);
      var m := if j + n <= |e| then 0 else j + n - |e|;
      forall x | 0 <= x < m ensures next[x] != '[' {
        assert next[x] == w[|e| + x - j];
      }
      CleanedKeepsPrefix(ps, buf, m);
      if m <= |s.held| {
        SharedWindow(p.classes, e + next, e + s.held, j);
      } else {
        assert forall x :: 0 <= x < |s.held| ==> s.held[x] == w[|e| + x - j];
      }
    }
  }

  lemma FeedKeepsSafe(ps: seq<Pattern>, k: nat, s: Progress, chunk: string)
    requires k < |ps| && Guarded(ps[k]) && Safe(ps[k], s)
    ensures Safe(ps[k], Fed(ps, s, chunk))
  {
    var next := Cleaned(ps, s.held + chunk);
    CleanedSeam(ps, k, s, chunk);
    SplitCovers(next);
    Text.Regroup(s.emitted, AllButOverlap(next), OverlapOf(next));
    if s.emitted != "" {
      CleanedStaysLong(ps, s.held, chunk);
    }
  }

  lemma SplitCovers(s: string)
    ensures AllButOverlap(s) + OverlapOf(s) == s
    ensures |OverlapOf(s)| == OVERLAP || (AllButOverlap(s) == "" && OverlapOf(s) == s)
  {
  }

  /** Cleaning never leaves less than the overlap without leaving a bracket. */
  lemma CleanedStaysLong(ps: seq<Pattern>, held: string, chunk: string)
    requires |held| == OVERLAP || '[' in held
    ensures var next := Cleaned(ps, held + chunk);
            '[' in next || (|next| >= OVERLAP && (|next| == OVERLAP ==> OverlapOf(next) == next))
  {
    if Leaky(ps, held + chunk) {
      RedactMarks(ps, held + chunk);
    }
  }

  lemma {:induction false} FedAllKeepsSafe(ps: seq<Pattern>, k: nat, s: Progress, chunks: seq<string>)
    requires k < |ps| && Guarded(ps[k]) && Safe(ps[k], s)
    ensures Safe(ps[k], FedAll(ps, s, chunks))
    decreases |chunks|
  {
    if chunks != [] {
      FeedKeepsSafe(ps, k, s, chunks[0]);
      FedAllKeepsSafe(ps, k, Fed(ps, s, chunks[0]), chunks[1..]);
    }
  }

  lemma DeliveredHasNone(ps: seq<Pattern>, k: nat, chunks: seq<string>)
    requires k < |ps| && Guarded(ps[k])
    ensures !Occurs(ps[k].classes, Delivered(ps, chunks))
  {
    var start := Progress("", "");
    FedAllKeepsSafe(ps, k, start, chunks);
    var end := FedAll(ps, start, chunks);
    CleanedSeam(ps, k, end, "");
    assert end.held + "" == end.held;
  }

  /** For every chunking of every text, nothing delivered contains a match of a
      guarded pattern, not even across chunk, overlap and replacement seams. */
  lemma NothingGuardedEscapes(ps: seq<Pattern>, k: nat, chunks: seq<string>)
    requires k < |ps| && Guarded(ps[k])
    ensures !Matches(ps[k], Delivered(ps, chunks))
  {
    DeliveredHasNone(ps, k, chunks);
  }

  ghost predicate LeakyPart(ps: seq<Pattern>, s: string, i: nat, j: nat)
    requires i <= j <= |s|
  {
    Leaky(ps, s[i..j])
  }

  /** No stretch of the text sets any pattern off. */
  ghost predicate Clean(ps: seq<Pattern>, s: string) {
    forall i, j :: 0 <= i <= j <= |s| ==> !LeakyPart(ps, s, i, j)
  }

  /** Stretches of a clean text are clean. */
  lemma CleanPart(ps: seq<Pattern>, s: string, i: nat, j: nat)
    requires Clean(ps, s) && i <= j <= |s|
    ensures Clean(ps, s[i..j])
  {
    forall x, y | 0 <= x <= y <= |s[i..j]| ensures !LeakyPart(ps, s[i..j], x, y) {
      SliceOfSlice(s, i, j, x, y);
      assert !LeakyPart(ps, s, i + x, i + y);
    }
  }

  lemma SliceOfSlice(s: string, i: nat, j: nat, x: nat, y: nat)
    requires i <= j <= |s| && x <= y <= j - i
    ensures s[i..j][x..y] == s[i + x..i + y]
  {
    var a, b := s[i..j][x..y], s[i + x..i + y];
    assert |a| == |b| && forall k :: 0 <= k < |a| ==> a[k] == s[i + x + k] == b[k];
  }

  lemma FedPassesClean(ps: seq<Pattern>, s: Progress, chunk: string, rest: string)
    requires Clean(ps, s.held + (chunk + rest))
    ensures var next := Fed(ps, s, chunk);
            next.emitted + next.held == s.emitted + (s.held + chunk) && Clean(ps, next.held + rest)
  {
    var text, buf := s.held + (chunk + rest), s.held + chunk;
    assert buf == text[0..|buf|] && !LeakyPart(ps, text, 0, |buf|);
    var cut := |buf| - |OverlapOf(buf)|;
    CleanPart(ps, text, cut, |text|);
    Text.Regroup(s.held, chunk, rest);
    TailOf(buf, rest, cut);
    SplitCovers(buf);
    Text.Regroup(s.emitted, AllButOverlap(buf), OverlapOf(buf));
  }

  lemma TailOf(a: string, b: string, cut: nat)
    requires cut <= |a|
    ensures (a + b)[cut..|a + b|] == a[cut..] + b
  {
  }

  lemma Regroup(a: string, b: string, c: string, d: string, e: string, rest: string)
    requires a + b == c + (d + e)
    ensures a + (b + rest) == c + (d + (e + rest))
  {
    assert a + (b + rest) == (a + b) + rest;
    assert c + (d + (e + rest)) == (c + (d + e)) + rest;
  }

  lemma {:induction false} FedAllPassesClean(ps: seq<Pattern>, s: Progress, chunks: seq<string>)
    requires Clean(ps, s.held + Join(chunks))
    ensures var end := FedAll(ps, s, chunks);
            end.emitted + end.held == s.emitted + (s.held + Join(chunks)) && !Leaky(ps, end.held)
    decreases |chunks|
  {
    if chunks == [] {
      assert s.held + Join(chunks) == s.held == s.held[0..|s.held|];
      assert !LeakyPart(ps, s.held, 0, |s.held|);
    } else {
      var rest := Join(chunks[1..]);
      var next := Fed(ps, s, chunks[0]);
      FedPassesClean(ps, s, chunks[0], rest);
      FedAllPassesClean(ps, next, chunks[1..]);
      Regroup(next.emitted, next.held, s.emitted, s.held, chunks[0], rest);
    }
  }

  /** A stream that sets nothing off is delivered unchanged, whatever its chunks. */
  lemma CleanStreamUnchanged(ps: seq<Pattern>, chunks: seq<string>)
    requires Clean(ps, Join(chunks))
    ensures Delivered(ps, chunks) == Join(chunks)
  {
    assert "" + Join(chunks) == Join(chunks);
    FedAllPassesClean(ps, Progress("", ""), chunks);
  }

  /** With fixed shapes only, it is enough to look at the whole text once. */
  lemma ShapesAreLocal(ps: seq<Pattern>, s: string)
    requires forall k :: 0 <= k < |ps| ==> Guarded(ps[k])
    ensures Clean(ps, s) <==> !Leaky(ps, s)
  {
    assert s == s[0..|s|] && LeakyPart(ps, s, 0, |s|) == Leaky(ps, s);
    forall i, j | 0 <= i <= j <= |s| && LeakyPart(ps, s, i, j) ensures Leaky(ps, s) {
      var k :| 0 <= k < |ps| && Matches(ps[k], s[i..j]);
      ShapeOfPart(ps[k], s, i, j);
    }
  }

  lemma ShapeOfPart(p: Pattern, s: string, i: nat, j: nat)
    requires Guarded(p) && i <= j <= |s| && Matches(p, s[i..j])
    ensures Matches(p, s)
  {
    var part := s[i..j];
    var at :| 0 <= at < |part| && MatchLen(p, part, at) > 0;
    FitsInPart(p.classes, s, i, j, at);
    assert MatchLen(p, s, i + at) > 0;
  }

  lemma FitsInPart(classes: seq<set<char>>, s: string, i: nat, j: nat, at: nat)
    requires i <= j <= |s| && FitsAt(classes, s[i..j], at)
    ensures FitsAt(classes, s, i + at)
  {
    SliceOfSlice(s, i, j, at, at + |classes|);
  }

  /** The guarantee is per flush: one stream flushed in the middle can spell a
      match across the flush. It appears exactly where a window straddles it. */
  lemma FlushSeam(ps: seq<Pattern>, k: nat, first: seq<string>, second: seq<string>)
    requires k < |ps| && Guarded(ps[k])
    ensures var a, b := Delivered(ps, first), Delivered(ps, second);
            Occurs(ps[k].classes, a + b) <==>
            exists j: nat :: |a| - |ps[k].classes| < j < |a| && FitsAt(ps[k].classes, a + b, j)
  {
    var a, b := Delivered(ps, first), Delivered(ps, second);
    var cs := ps[k].classes;
    DeliveredHasNone(ps, k, first);
    DeliveredHasNone(ps, k, second);
    forall j: nat | FitsAt(cs, a + b, j) ensures |a| - |cs| < j < |a| {
      if j >= |a| {
        SuffixWindow(cs, a, b, j);
      } else if j + |cs| <= |a| {
        SharedWindow(cs, a + b, a, j);
      }
    }
  }

  /** Halves that are harmless alone come out joined when a flush parts them. */
  lemma FlushBetweenHalves(ps: seq<Pattern>, a: string, b: string)
    requires |a| <= OVERLAP && |b| <= OVERLAP && !Leaky(ps, a) && !Leaky(ps, b)
    ensures Delivered(ps, [a]) + Delivered(ps, [b]) == a + b
  {
    assert "" + a == a && "" + b == b;
    assert FedAll(ps, Progress("", ""), [a]) == Progress("", a);
    assert FedAll(ps, Progress("", ""), [b]) == Progress("", b);
  }
}
