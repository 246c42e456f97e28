/**
 The lead buffers of src/agents/refusal-detect.ts and
 src/agents/layer2/escalation.ts. Both hold the start of a stream back until it
 is long enough to be judged; they differ in the detector only.
 */
module LeadBuffers {
  import opened Text

  type Detector = string -> Option<string>

  const MIN_RESPONSE_LENGTH: nat := 5

  /** src/agents/layer2/escalation.ts detectEscalation. */
  function DetectEscalation(markers: seq<string>, responseText: string): Option<string> {
    var trimmed := Trim(responseText);
    if |trimmed| < MIN_RESPONSE_LENGTH then Some("__empty_response")
    else FirstMarker(markers, ToLower(trimmed))
  }

  function FirstMarker(markers: seq<string>, lower: string): Option<string> {
    if markers == [] then None
    else if Includes(lower, ToLower(markers[0])) then Some(markers[0])
    else FirstMarker(markers[1..], lower)
  }

  /** Lead, decision and match of one buffer. */
  datatype Held = Held(lead: string, decided: bool, found: Option<string>)

  const FRESH := Held("", false, None)

  function Decided(detect: Detector, s: Held): Held {
    var found := if s.decided then s.found else detect(s.lead);
    Held(if found.None? then "" else s.lead, true, found)
  }

  class LeadBuffer {
    const detect: Detector
    const leadBytes: nat
    var lead: string
    var decided: bool
    var found: Option<string>

    ghost function State(): Held
      reads this
    {
      Held(lead, decided, found)
    }

    constructor (detect: Detector, leadBytes: nat := 200)
      ensures this.detect == detect && this.leadBytes == leadBytes && State() == FRESH
    {
      this.detect, this.leadBytes := detect, leadBytes;
      lead, decided, found := "", false, None;
    }

    method Feed(chunk: string) returns (forward: string)
      modifies this
      ensures (State(), forward) == Fed(detect, leadBytes, old(State()), chunk)
    {
      if decided {
        return if found.None? then chunk else "";
      }
      lead := lead + chunk;
      if |lead| < leadBytes {
        return "";
      }
      var refused, held := Decide();
      if refused.Some? {
        return "";
      }
      return held;
    }

    method Decide() returns (result: Option<string>, held: string)
      modifies this
      ensures State() == Decided(detect, old(State()))
      ensures result == State().found && held == old(lead)
    {
      if !decided {
        found := detect(lead);
        decided := true;
      }
      held := lead;
      if found.None? {
        lead := "";
      }
      result := found;
    }
  }

  /** New state and forwarded text of one feed. */
  function Fed(detect: Detector, leadBytes: nat, s: Held, chunk: string): (Held, string) {
    if s.decided then (s, if s.found.None? then chunk else "")
    else
      var lead := s.lead + chunk;
      if |lead| < leadBytes then (s.(lead := lead), "")
      else
        var next := Decided(detect, s.(lead := lead));
        (next, if next.found.None? then lead else "")
  }

  function FedAll(detect: Detector, leadBytes: nat, chunks: seq<string>): (Held, string) {
    if chunks == [] then (FRESH, "")
    else
      var (s, out) := FedAll(detect, leadBytes, chunks[..|chunks| - 1]);
      var (next, forward) := Fed(detect, leadBytes, s, chunks[|chunks| - 1]);
      (next, out + forward)
  }

  lemma FedAllSnoc(detect: Detector, leadBytes: nat, chunks: seq<string>, last: string)
    ensures var (s, out) := FedAll(detect, leadBytes, chunks);
            var (next, forward) := Fed(detect, leadBytes, s, last);
            FedAll(detect, leadBytes, chunks + [last]) == (next, out + forward)
  {
    assert (chunks + [last])[..|chunks|] == chunks;
  }

  /** The part of the stream the decision is made on: the shortest run of whole
      chunks that fills the lead, or the whole stream when none does. */
  function Lead(leadBytes: nat, chunks: seq<string>): string {
    if chunks == [] then ""
    else
      var before := chunks[..|chunks| - 1];
      if Fills(leadBytes, before) then Lead(leadBytes, before) else Join(chunks)
  }

  predicate Fills(leadBytes: nat, chunks: seq<string>) {
    chunks != [] && |Join(chunks)| >= leadBytes
  }

  /** The text a caller forwards when it feeds every chunk, then forces a decision
      and, if that is clean, forwards the lead it returns. */
  function Forwarded(detect: Detector, leadBytes: nat, chunks: seq<string>): string {
    var (s, out) := FedAll(detect, leadBytes, chunks);
    var end := Decided(detect, s);
    out + if end.found.None? then s.lead else ""
  }

  function Verdict(detect: Detector, leadBytes: nat, chunks: seq<string>): Option<string> {
    Decided(detect, FedAll(detect, leadBytes, chunks).0).found
  }

  /** State and forwarded text after any chunks, spelled out. */
  lemma {:induction false} AfterChunks(detect: Detector, leadBytes: nat, chunks: seq<string>)
    ensures var (s, out) := FedAll(detect, leadBytes, chunks);
            var verdict := detect(Lead(leadBytes, chunks));
            if Fills(leadBytes, chunks) then
              s.decided && s.found == verdict && out == (if verdict.None? then Join(chunks) else "")
              && s.lead == (if verdict.None? then "" else Lead(leadBytes, chunks))
            else
              s == Held(Join(chunks), false, None) && out == ""
  {
    if chunks != [] {
      var before, last := chunks[..|chunks| - 1], chunks[|chunks| - 1];
      assert chunks == before + [last];
      JoinSnoc(before, last);
      AfterChunks(detect, leadBytes, before);
    }
  }

  /** All or nothing: the forwarded text is the whole stream or none of it, and
      the detector's answer on the lead says which. */
  lemma AllOrNothing(detect: Detector, leadBytes: nat, chunks: seq<string>)
    ensures Verdict(detect, leadBytes, chunks) == detect(Lead(leadBytes, chunks))
    ensures Forwarded(detect, leadBytes, chunks)
         == if Verdict(detect, leadBytes, chunks).None? then Join(chunks) else ""
  {
    AfterChunks(detect, leadBytes, chunks);
    if Fills(leadBytes, chunks) {
      assert Join(chunks) + "" == Join(chunks);
    } else {
      UnfilledLead(leadBytes, chunks);
      assert "" + Join(chunks) == Join(chunks);
    }
  }

  lemma UnfilledLead(leadBytes: nat, chunks: seq<string>)
    requires !Fills(leadBytes, chunks)
    ensures Lead(leadBytes, chunks) == Join(chunks)
  {
    if chunks != [] {
      var before := chunks[..|chunks| - 1];
      JoinSnoc(before, chunks[|chunks| - 1]);
      assert chunks == before + [chunks[|chunks| - 1]];
    }
  }

  /** The decision sees a prefix of the stream of at least `leadBytes` characters,
      or all of it. How much more depends on where the chunks were cut. */
  lemma {:induction false} LeadIsEnough(leadBytes: nat, chunks: seq<string>)
    ensures Lead(leadBytes, chunks) <= Join(chunks)
    ensures |Lead(leadBytes, chunks)| >= leadBytes || Lead(leadBytes, chunks) == Join(chunks)
  {
    if chunks != [] {
      var before, last := chunks[..|chunks| - 1], chunks[|chunks| - 1];
      assert chunks == before + [last];
      JoinSnoc(before, last);
      LeadIsEnough(leadBytes, before);
    }
  }

  lemma {:induction false} LeadStands(leadBytes: nat, chunks: seq<string>, more: seq<string>)
    requires Fills(leadBytes, chunks)
    ensures Fills(leadBytes, chunks + more) && Lead(leadBytes, chunks + more) == Lead(leadBytes, chunks)
  {
    if more == [] {
      assert chunks + more == chunks;
    } else {
      var front, last := more[..|more| - 1], more[|more| - 1];
      assert chunks + more == (chunks + front) + [last];
      LeadStands(leadBytes, chunks, front);
      assert (chunks + more)[..|chunks + more| - 1] == chunks + front;
      JoinSnoc(chunks + front, last);
    }
  }

  /** A verdict, once made, survives every further feed and forced decision. */
  lemma VerdictStands(detect: Detector, leadBytes: nat, chunks: seq<string>, more: seq<string>)
    requires Fills(leadBytes, chunks)
    ensures Fills(leadBytes, chunks + more)
    ensures Verdict(detect, leadBytes, chunks + more) == Verdict(detect, leadBytes, chunks)
    ensures FedAll(detect, leadBytes, chunks + more).0.found == Verdict(detect, leadBytes, chunks)
  {
    LeadStands(leadBytes, chunks, more);
    AfterChunks(detect, leadBytes, chunks);
    AfterChunks(detect, leadBytes, chunks + more);
  }

  /** The marker is somewhere in the text, the case of letters set aside. */
  ghost predicate Holds(text: string, marker: string) {
    exists i: nat :: AlikeAt(text, marker, i)
  }

  lemma {:induction false} FirstMarkerFound(markers: seq<string>, text: string)
    ensures var found := FirstMarker(markers, ToLower(text));
            if found.None? then forall k :: 0 <= k < |markers| ==> !Holds(text, markers[k])
            else exists k :: 0 <= k < |markers| && found.value == markers[k] && Holds(text, markers[k])
                             && forall j :: 0 <= j < k ==> !Holds(text, markers[j])
  {
    if markers != [] {
      LowerIncludes(text, markers[0]);
      FirstMarkerFound(markers[1..], text);
      var found := FirstMarker(markers, ToLower(text));
      if Includes(ToLower(text), ToLower(markers[0])) {
        assert found.value == markers[0] && Holds(text, markers[0]);
      } else if found.Some? {
        var k :| 0 <= k < |markers| - 1 && found.value == markers[1..][k] && Holds(text, markers[1..][k])
                 && forall j :: 0 <= j < k ==> !Holds(text, markers[1..][j]);
        assert markers[1..][k] == markers[k + 1];
        forall j | 0 <= j < k + 1 ensures !Holds(text, markers[j]) {
          assert j > 0 ==> markers[j] == markers[1..][j - 1];
        }
      } else {
        forall k | 0 <= k < |markers| ensures !Holds(text, markers[k]) {
          assert k > 0 ==> markers[k] == markers[1..][k - 1];
        }
      }
    }
  }

  /** A response is escalated exactly when, blanks at its ends aside, it is shorter than
      five characters or holds a configured marker; the first such marker is named. */
  lemma EscalatesExactlyWhen(markers: seq<string>, text: string)
    ensures var found, trimmed := DetectEscalation(markers, text), Trim(text);
            && (found.Some? <==> |trimmed| < 5 || exists k :: 0 <= k < |markers| && Holds(trimmed, markers[k]))
            && (|trimmed| < 5 ==> found == Some("__empty_response"))
            && (|trimmed| >= 5 && found.Some? ==>
                  exists k :: 0 <= k < |markers| && found.value == markers[k] && Holds(trimmed, markers[k])
                              && forall j :: 0 <= j < k ==> !Holds(trimmed, markers[j]))
  {
    FirstMarkerFound(markers, Trim(text));
  }

  /** The first `n` chunks are the fewest that together hold `leadBytes` characters, or all
      chunks when there are no such. */
  predicate FewestThatFill(leadBytes: nat, chunks: seq<string>, n: nat) {
    && n <= |chunks| && (n == |chunks| || (n > 0 && |Join(chunks[..n])| >= leadBytes))
    && forall m :: 0 < m < n ==> |Join(chunks[..m])| < leadBytes
  }

  /** The decision is made on the fewest chunks that fill the lead. */
  lemma {:induction false} LeadIsFewestChunks(leadBytes: nat, chunks: seq<string>, n: nat)
    requires FewestThatFill(leadBytes, chunks, n)
    ensures Lead(leadBytes, chunks) == Join(chunks[..n])
    decreases |chunks|
  {
    if chunks != [] {
      var before := chunks[..|chunks| - 1];
      if n == |chunks| {
        assert chunks[..n] == chunks;
        assert Fills(leadBytes, before) ==> before == chunks[..n - 1];
      } else {
        assert before[..n] == chunks[..n];
        forall m | 0 < m < n ensures |Join(before[..m])| < leadBytes {
          assert before[..m] == chunks[..m];
        }
        JoinAppend(chunks[..n], before[n..]);
        assert before == chunks[..n] + before[n..];
        LeadIsFewestChunks(leadBytes, before, n);
      }
    }
  }

  /** A blank lead always escalates. */
  lemma BlankEscalates(markers: seq<string>, text: string)
    requires IsBlank(text)
    ensures DetectEscalation(markers, text) == Some("__empty_response")
  {
    BlankTrims(text);
  }
}
