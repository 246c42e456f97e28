/**
 What redaction leaves: exactly the text outside the matches, in order, with the mark
 in place of each match. Stated with stretches of the text, not with the functions that
 compute the result.
 */
module Redaction {
  import opened Text
  import opened LeakFilter

  // ------------------------------------------------------------ what a match is

  /** A fixed shape matches where each class holds its character, and then takes every
      further character of its tail class. */
  lemma ShapeMatches(name: string, classes: seq<set<char>>, tail: set<char>, s: string, i: nat)
    requires i <= |s|
    ensures var n := MatchLen(Shape(name, classes, tail), s, i);
            if i + |classes| <= |s| && forall k :: 0 <= k < |classes| ==> s[i + k] in classes[k] then
              && n >= |classes| && (forall k :: i + |classes| <= k < i + n ==> s[k] in tail)
              && (i + n < |s| ==> s[i + n] !in tail)
            else n == 0
  {
    if i + |classes| <= |s| {
      var w := s[i..i + |classes|];
      assert forall k :: 0 <= k < |classes| ==> w[k] == s[i + k];
      TailIsGreedy(tail, s, i + |classes|);
    }
  }

  /** Any other pattern matches where its own matcher says, within the text. */
  lemma CustomMatches(name: string, find: (string, nat) -> nat, s: string, i: nat)
    requires i <= |s|
    ensures MatchLen(Custom(name, find), s, i) == if i + find(s, i) <= |s| then find(s, i) else 0
  {
  }

  lemma {:induction false} TailIsGreedy(tail: set<char>, s: string, i: nat)
    requires i <= |s|
    ensures var end := Extend(tail, s, i);
            (forall k :: i <= k < end ==> s[k] in tail) && (end < |s| ==> s[end] !in tail)
    decreases |s| - i
  {
    if i < |s| && s[i] in tail {
      TailIsGreedy(tail, s, i + 1);
    }
  }

  /** The mark that takes a match's place. */
  lemma MarkIs()
    ensures TOKEN == "[REDACTED]" && |TOKEN| == 10
  {
  }

  // ------------------------------------------------------------ stretches

  datatype Span = Span(start: nat, end: nat)

  /** The matches of the pattern from `from` on, ascending and disjoint: each begins at
      the first place behind the one before where the pattern matches, and is as long as
      the match; in the gaps no match begins. */
  predicate AreMatches(p: Pattern, s: string, spans: seq<Span>, from: nat)
    requires from <= |s|
    decreases |spans|
  {
    if spans == [] then NoneBegins(p, s, from, |s|)
    else
      && from <= spans[0].start < spans[0].end <= |s|
      && NoneBegins(p, s, from, spans[0].start)
      && MatchLen(p, s, spans[0].start) == spans[0].end - spans[0].start
      && AreMatches(p, s, spans[1..], spans[0].end)
  }

  predicate NoneBegins(p: Pattern, s: string, from: nat, until: nat)
    requires until <= |s|
  {
    forall i :: from <= i < until ==> MatchLen(p, s, i) == 0
  }

  predicate Ascending(s: string, spans: seq<Span>, from: nat)
    decreases |spans|
  {
    spans == [] || (from <= spans[0].start <= spans[0].end <= |s| && Ascending(s, spans[1..], spans[0].end))
  }

  /** The gaps in order, with the mark between them. */
  function Masked(s: string, spans: seq<Span>, from: nat): string
    requires from <= |s| && Ascending(s, spans, from)
    decreases |spans|
  {
    if spans == [] then s[from..]
    else s[from..spans[0].start] + (TOKEN + Masked(s, spans[1..], spans[0].end))
  }

  lemma {:induction false} MatchesAscend(p: Pattern, s: string, spans: seq<Span>, from: nat)
    requires from <= |s| && AreMatches(p, s, spans, from)
    ensures Ascending(s, spans, from)
    decreases |spans|
  {
    if spans != [] {
      MatchesAscend(p, s, spans[1..], spans[0].end);
    }
  }

  /** Every text has such matches. */
  lemma {:induction false} MatchesExist(p: Pattern, s: string, from: nat) returns (spans: seq<Span>)
    requires from <= |s|
    ensures AreMatches(p, s, spans, from)
    decreases |s| - from
  {
    if i :| from <= i < |s| && MatchLen(p, s, i) > 0 {
      var first := FirstMatch(p, s, from, i);
      var end := first + MatchLen(p, s, first);
      var rest := MatchesExist(p, s, end);
      spans := [Span(first, end)] + rest;
      assert spans[1..] == rest;
    } else {
      spans := [];
    }
  }

  lemma {:induction false} FirstMatch(p: Pattern, s: string, from: nat, i: nat) returns (first: nat)
    requires from <= i < |s| && MatchLen(p, s, i) > 0
    ensures from <= first <= i && MatchLen(p, s, first) > 0 && NoneBegins(p, s, from, first)
    decreases i
  {
    first := i;
    if j :| from <= j < i && MatchLen(p, s, j) > 0 {
      first := FirstMatch(p, s, from, j);
    }
  }

  lemma {:induction false} ReplaceSkips(p: Pattern, s: string, from: nat, until: nat)
    requires from <= until <= |s| && NoneBegins(p, s, from, until)
    ensures Replace(p, s, from) == s[from..until] + Replace(p, s, until)
    decreases until - from
  {
    if from < until {
      ReplaceSkips(p, s, from + 1, until);
      assert s[from..until] == [s[from]] + s[from + 1..until];
      Text.Regroup([s[from]], s[from + 1..until], Replace(p, s, until));
    } else {
      assert s[from..until] + Replace(p, s, until) == Replace(p, s, until);
    }
  }

  lemma {:induction false} HitsSkip(p: Pattern, s: string, from: nat, until: nat)
    requires from <= until <= |s| && NoneBegins(p, s, from, until)
    ensures Hits(p, s, from) == Hits(p, s, until)
    decreases until - from
  {
    if from < until {
      HitsSkip(p, s, from + 1, until);
    }
  }

  /** Replacing a pattern masks exactly its matches and keeps all other text. */
  lemma {:induction false} ReplaceMasks(p: Pattern, s: string, spans: seq<Span>, from: nat)
    requires from <= |s| && AreMatches(p, s, spans, from)
    ensures Ascending(s, spans, from) && Replace(p, s, from) == Masked(s, spans, from)
    decreases |spans|
  {
    MatchesAscend(p, s, spans, from);
    if spans == [] {
      ReplaceSkips(p, s, from, |s|);
      assert s[from..|s|] == s[from..] && s[from..] + "" == s[from..];
    } else {
      ReplaceMasks(p, s, spans[1..], spans[0].end);
      ReplaceFirst(p, s, spans[0], from);
    }
  }

  lemma ReplaceFirst(p: Pattern, s: string, first: Span, from: nat)
    requires from <= first.start < first.end <= |s| && NoneBegins(p, s, from, first.start)
    requires MatchLen(p, s, first.start) == first.end - first.start
    ensures Replace(p, s, from) == s[from..first.start] + (TOKEN + Replace(p, s, first.end))
  {
    ReplaceSkips(p, s, from, first.start);
  }

  function Starts(name: string, spans: seq<Span>): seq<Detection> {
    if spans == [] then [] else [Detection(name, spans[0].start)] + Starts(name, spans[1..])
  }

  /** And detection reports where they begin. */
  lemma {:induction false} HitsAreStarts(p: Pattern, s: string, spans: seq<Span>, from: nat)
    requires from <= |s| && AreMatches(p, s, spans, from)
    ensures Hits(p, s, from) == Starts(p.name, spans)
    decreases |spans|
  {
    if spans == [] {
      HitsSkip(p, s, from, |s|);
    } else {
      HitsAreStarts(p, s, spans[1..], spans[0].end);
      FirstHit(p, s, spans[0], from);
    }
  }

  lemma FirstHit(p: Pattern, s: string, first: Span, from: nat)
    requires from <= first.start < first.end <= |s| && NoneBegins(p, s, from, first.start)
    requires MatchLen(p, s, first.start) == first.end - first.start
    ensures Hits(p, s, from) == [Detection(p.name, first.start)] + Hits(p, s, first.end)
  {
    HitsSkip(p, s, from, first.start);
  }

  /** `out` is `s` with the matches of the first pattern masked, then those of the
      second in what that gives, and so on. */
  ghost predicate MasksInTurn(ps: seq<Pattern>, s: string, out: string)
    decreases |ps|
  {
    if ps == [] then out == s
    else
      exists spans :: AreMatches(ps[0], s, spans, 0) && Ascending(s, spans, 0)
                      && MasksInTurn(ps[1..], Masked(s, spans, 0), out)
  }

  lemma {:induction false} RedactMasks(ps: seq<Pattern>, s: string, out: string)
    ensures MasksInTurn(ps, s, out) <==> out == Redact(ps, s)
    decreases |ps|
  {
    if ps != [] {
      if spans :| AreMatches(ps[0], s, spans, 0) && Ascending(s, spans, 0)
                  && MasksInTurn(ps[1..], Masked(s, spans, 0), out) {
        ReplaceMasks(ps[0], s, spans, 0);
        RedactMasks(ps[1..], Masked(s, spans, 0), out);
      }
      var spans := MatchesExist(ps[0], s, 0);
      ReplaceMasks(ps[0], s, spans, 0);
      RedactMasks(ps[1..], Masked(s, spans, 0), out);
    }
  }

  // ------------------------------------------------------------ the stream

  lemma CleanedMasks(ps: seq<Pattern>, buffered: string)
    ensures MasksInTurn(ps, buffered, Cleaned(ps, buffered))
  {
    RedactMasks(ps, buffered, Redact(ps, buffered));
    if !Leaky(ps, buffered) {
      NothingToMask(ps, buffered);
    }
  }

  lemma {:induction false} NothingToMask(ps: seq<Pattern>, s: string)
    requires !Leaky(ps, s)
    ensures Redact(ps, s) == s
    decreases |ps|
  {
    if ps != [] {
      assert !Matches(ps[0], s);
      ReplaceWithoutMatch(ps[0], s, 0);
      assert s[0..] == s;
      forall k | 0 <= k < |ps[1..]| ensures !Matches(ps[1..][k], s) {
        assert ps[1..][k] == ps[k + 1];
      }
      NothingToMask(ps[1..], s);
    }
  }

  /** A feed delivers and holds the buffered text and the chunk with their matches
      masked, nothing less and nothing more; at most the last 80 characters are held. */
  lemma FeedLosesNothing(ps: seq<Pattern>, s: Progress, chunk: string)
    ensures var next := Fed(ps, s, chunk);
            exists text :: MasksInTurn(ps, s.held + chunk, text)
                           && next.emitted + next.held == s.emitted + text
                           && |next.held| == if |text| > 80 then 80 else |text|
  {
    var text := Cleaned(ps, s.held + chunk);
    CleanedMasks(ps, s.held + chunk);
    SplitCovers(text);
    Text.Regroup(s.emitted, AllButOverlap(text), OverlapOf(text));
  }

  // ------------------------------------------------------------ what a whole stream loses

  /** Some pattern of the list, in some text, matches just this. */
  ghost predicate IsMatch(ps: seq<Pattern>, m: string) {
    exists k: nat, text: string, at: nat ::
      k < |ps| && at < |text| && 0 < MatchLen(ps[k], text, at) == |m| && text[at..at + |m|] == m
  }

  ghost predicate OneMasked(ps: seq<Pattern>, a: string, b: string) {
    exists x, m, y :: IsMatch(ps, m) && a == x + (m + y) && b == x + (TOKEN + y)
  }

  /** `b` comes from `a` in so many steps of a relation. */
  ghost predicate ComesIn(relates: (string, string) -> bool, a: string, b: string, steps: nat)
    decreases steps
  {
    if steps == 0 then a == b
    else exists mid :: relates(a, mid) && ComesIn(relates, mid, b, steps - 1)
  }

  lemma {:induction false} ComesOn(relates: (string, string) -> bool, a: string, b: string, c: string, steps: nat,
                                   more: nat)
    requires ComesIn(relates, a, b, steps) && ComesIn(relates, b, c, more)
    ensures ComesIn(relates, a, c, steps + more)
    decreases steps
  {
    if steps > 0 {
      var mid :| relates(a, mid) && ComesIn(relates, mid, b, steps - 1);
      ComesOn(relates, mid, b, c, steps - 1, more);
    }
  }

  /** The relation holds inside of a longer text as well. */
  ghost predicate HoldsInside(relates: (string, string) -> bool, front: string, back: string) {
    forall a, b :: relates(a, b) ==> relates(front + a + back, front + b + back)
  }

  lemma {:induction false} ComesInside(relates: (string, string) -> bool, front: string, a: string, b: string,
                                       back: string, steps: nat)
    requires ComesIn(relates, a, b, steps) && HoldsInside(relates, front, back)
    ensures ComesIn(relates, front + a + back, front + b + back, steps)
    decreases steps
  {
    if steps > 0 {
      var mid :| relates(a, mid) && ComesIn(relates, mid, b, steps - 1);
      ComesInside(relates, front, mid, b, back, steps - 1);
      assert relates(front + a + back, front + mid + back);
    }
  }

  ghost function Masking(ps: seq<Pattern>): (string, string) -> bool {
    (a, b) => OneMasked(ps, a, b)
  }

  /** `b` is `a` but for stretches that were matches when the mark took their place. */
  ghost predicate OnlyMasked(ps: seq<Pattern>, a: string, b: string) {
    exists steps: nat :: ComesIn(Masking(ps), a, b, steps)
  }

  lemma Unmasked(ps: seq<Pattern>, a: string)
    ensures OnlyMasked(ps, a, a)
  {
    assert ComesIn(Masking(ps), a, a, 0);
  }

  lemma MaskedTransitive(ps: seq<Pattern>, a: string, b: string, c: string)
    requires OnlyMasked(ps, a, b) && OnlyMasked(ps, b, c)
    ensures OnlyMasked(ps, a, c)
  {
    var steps: nat :| ComesIn(Masking(ps), a, b, steps);
    var more: nat :| ComesIn(Masking(ps), b, c, more);
    ComesOn(Masking(ps), a, b, c, steps, more);
  }

  lemma OneMaskedInside(ps: seq<Pattern>, front: string, a: string, b: string, back: string)
    requires OneMasked(ps, a, b)
    ensures OneMasked(ps, front + a + back, front + b + back)
  {
    var x, m, y :| IsMatch(ps, m) && a == x + (m + y) && b == x + (TOKEN + y);
    assert front + a + back == (front + x) + (m + (y + back));
    assert front + b + back == (front + x) + (TOKEN + (y + back));
  }

  lemma MaskingHoldsInside(ps: seq<Pattern>, front: string, back: string)
    ensures HoldsInside(Masking(ps), front, back)
  {
    forall a, b | Masking(ps)(a, b) ensures Masking(ps)(front + a + back, front + b + back) {
      OneMaskedInside(ps, front, a, b, back);
    }
  }

  lemma OnlyMaskedInside(ps: seq<Pattern>, front: string, a: string, b: string, back: string)
    requires OnlyMasked(ps, a, b)
    ensures OnlyMasked(ps, front + a + back, front + b + back)
  {
    var steps: nat :| ComesIn(Masking(ps), a, b, steps);
    MaskingHoldsInside(ps, front, back);
    ComesInside(Masking(ps), front, a, b, back, steps);
  }

  /** One pattern: its matches, one after the other. */
  lemma {:induction false} ReplaceOnlyMasks(ps: seq<Pattern>, k: nat, s: string, from: nat)
    requires k < |ps| && from <= |s|
    ensures OnlyMasked(ps, s[from..], Replace(ps[k], s, from))
    decreases |s| - from
  {
    if from == |s| {
      Unmasked(ps, "");
      assert s[from..] == "";
    } else {
      var n := MatchLen(ps[k], s, from);
      var next := from + if n > 0 then n else 1;
      ReplaceOnlyMasks(ps, k, s, next);
      if n > 0 {
        MatchGoes(ps, k, s, from, Replace(ps[k], s, next));
      } else {
        CharStays(ps, s, from, Replace(ps[k], s, next));
      }
    }
  }

  lemma CharStays(ps: seq<Pattern>, s: string, from: nat, rest: string)
    requires from < |s| && OnlyMasked(ps, s[from + 1..], rest)
    ensures OnlyMasked(ps, s[from..], [s[from]] + rest)
  {
    BehindOnlyMasked(ps, [s[from]], s[from + 1..], rest);
    assert [s[from]] + s[from + 1..] == s[from..];
  }

  lemma MatchGoes(ps: seq<Pattern>, k: nat, s: string, from: nat, rest: string)
    requires k < |ps| && from < |s| && MatchLen(ps[k], s, from) > 0
    requires OnlyMasked(ps, s[from + MatchLen(ps[k], s, from)..], rest)
    ensures OnlyMasked(ps, s[from..], TOKEN + rest)
  {
    var n := MatchLen(ps[k], s, from);
    var m := s[from..from + n];
    assert IsMatch(ps, m);
    BehindOnlyMasked(ps, m, s[from + n..], rest);
    assert m + s[from + n..] == s[from..];
    MatchMasked(ps, m, rest);
    MaskedTransitive(ps, s[from..], m + rest, TOKEN + rest);
  }

  lemma MatchMasked(ps: seq<Pattern>, m: string, rest: string)
    requires IsMatch(ps, m)
    ensures OnlyMasked(ps, m + rest, TOKEN + rest)
  {
    var a, b := m + rest, TOKEN + rest;
    assert a == "" + (m + rest) && b == "" + (TOKEN + rest);
    assert OneMasked(ps, a, b);
    assert Masking(ps)(a, b) && ComesIn(Masking(ps), b, b, 0);
    assert ComesIn(Masking(ps), a, b, 1);
  }

  lemma {:induction false} RedactOnlyMasks(ps: seq<Pattern>, k: nat, s: string)
    requires k <= |ps|
    ensures OnlyMasked(ps, s, Redact(ps[k..], s))
    decreases |ps| - k
  {
    if k == |ps| {
      Unmasked(ps, s);
    } else {
      assert ps[k..][0] == ps[k] && ps[k..][1..] == ps[k + 1..] && s[0..] == s;
      ReplaceOnlyMasks(ps, k, s, 0);
      RedactOnlyMasks(ps, k + 1, Replace(ps[k], s, 0));
      MaskedTransitive(ps, s, Replace(ps[k], s, 0), Redact(ps[k..], s));
    }
  }

  lemma CleanedOnlyMasks(ps: seq<Pattern>, buffered: string)
    ensures OnlyMasked(ps, buffered, Cleaned(ps, buffered))
  {
    Unmasked(ps, buffered);
    assert ps[0..] == ps;
    RedactOnlyMasks(ps, 0, buffered);
  }

  lemma FedOnlyMasks(ps: seq<Pattern>, s: Progress, chunk: string)
    ensures var next := Fed(ps, s, chunk);
            OnlyMasked(ps, s.emitted + s.held + chunk, next.emitted + next.held)
  {
    var text := Cleaned(ps, s.held + chunk);
    CleanedOnlyMasks(ps, s.held + chunk);
    BehindOnlyMasked(ps, s.emitted, s.held + chunk, text);
    Text.Regroup(s.emitted, s.held, chunk);
    SplitCovers(text);
    Text.Regroup(s.emitted, AllButOverlap(text), OverlapOf(text));
  }

  lemma BehindOnlyMasked(ps: seq<Pattern>, front: string, a: string, b: string)
    requires OnlyMasked(ps, a, b)
    ensures OnlyMasked(ps, front + a, front + b)
  {
    OnlyMaskedInside(ps, front, a, b, "");
    assert front + a + "" == front + a && front + b + "" == front + b;
  }

  lemma BeforeOnlyMasked(ps: seq<Pattern>, a: string, b: string, back: string)
    requires OnlyMasked(ps, a, b)
    ensures OnlyMasked(ps, a + back, b + back)
  {
    OnlyMaskedInside(ps, "", a, b, back);
    assert "" + a + back == a + back && "" + b + back == b + back;
  }

  lemma {:induction false} FedAllOnlyMasks(ps: seq<Pattern>, s: Progress, chunks: seq<string>)
    ensures var end := FedAll(ps, s, chunks);
            OnlyMasked(ps, s.emitted + s.held + Join(chunks), end.emitted + end.held)
    decreases |chunks|
  {
    if chunks == [] {
      Unmasked(ps, s.emitted + s.held);
      assert s.emitted + s.held + "" == s.emitted + s.held;
    } else {
      var next, rest := Fed(ps, s, chunks[0]), Join(chunks[1..]);
      FedOnlyMasks(ps, s, chunks[0]);
      BeforeOnlyMasked(ps, s.emitted + s.held + chunks[0], next.emitted + next.held, rest);
      Text.Regroup(s.emitted + s.held, chunks[0], rest);
      FedAllOnlyMasks(ps, next, chunks[1..]);
      var end := FedAll(ps, s, chunks);
      MaskedTransitive(ps, s.emitted + s.held + Join(chunks), next.emitted + next.held + rest, end.emitted + end.held);
    }
  }

  /** However it is cut into chunks, a stream is delivered whole and in order but for
      stretches that were matches of some pattern, each with the mark in its place. */
  lemma StreamLosesOnlyMatches(ps: seq<Pattern>, chunks: seq<string>)
    ensures OnlyMasked(ps, Join(chunks), Delivered(ps, chunks))
  {
    var end := FedAll(ps, Progress("", ""), chunks);
    FedAllOnlyMasks(ps, Progress("", ""), chunks);
    assert "" + "" + Join(chunks) == Join(chunks);
    CleanedOnlyMasks(ps, end.held);
    BehindOnlyMasked(ps, end.emitted, end.held, Cleaned(ps, end.held));
    MaskedTransitive(ps, Join(chunks), end.emitted + end.held, Delivered(ps, chunks));
  }
}
