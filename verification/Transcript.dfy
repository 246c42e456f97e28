/**
 Transcripts, their atomic units, and everything that shortens them:
 src/agents/context.ts, src/agents/compaction.ts and src/sessions/transcript.ts.

 A provider rejects a conversation in which a tool call lacks its result or a
 result lacks its call; `WellPaired` is that demand.
 */
module Transcript {
  import opened Text
  import opened Streams

  datatype Role = User | Assistant | System | Tool

  datatype Entry = Entry(role: Role, content: string, toolCalls: Option<seq<ToolCall>>, toolCallId: Option<string>)

  /** The token estimate of a content, an arbitrary natural number. */
  type Cost = string -> nat

  /** An assistant entry that carries tool calls. */
  predicate IsCallEntry(e: Entry) {
    e.role == Assistant && e.toolCalls.Some?
  }

  function Arity(e: Entry): nat {
    if IsCallEntry(e) then |e.toolCalls.value| else 0
  }

  /** The (k+1)-st entry of `t` is the result of the k-th call of its first. */
  predicate Answers(t: seq<Entry>, k: nat)
    requires t != [] && k < Arity(t[0])
  {
    k + 1 < |t| && t[k + 1].role == Tool && t[k + 1].toolCallId == Some(t[0].toolCalls.value[k].id)
  }

  /** The entries after the first of `t` are the results of its calls, in order. */
  predicate Answered(t: seq<Entry>)
    requires t != []
  {
    Arity(t[0]) < |t| && forall k :: 0 <= k < Arity(t[0]) ==> Answers(t, k)
  }

  /** Every call has its result, and no result stands alone. */
  predicate WellPaired(t: seq<Entry>) {
    t == [] ||
    (t[0].role != Tool && Answered(t) && WellPaired(t[1 + Arity(t[0])..]))
  }

  lemma {:induction false} PairedAppend(a: seq<Entry>, b: seq<Entry>)
    requires WellPaired(a) && WellPaired(b)
    ensures WellPaired(a + b)
  {
    if a == [] {
      assert a + b == b;
    } else {
      var n := 1 + Arity(a[0]);
      assert (a + b)[n..] == a[n..] + b;
      AnsweredAppend(a, b);
      PairedAppend(a[n..], b);
    }
  }

  lemma AnsweredAppend(a: seq<Entry>, b: seq<Entry>)
    requires a != [] && Answered(a)
    ensures Answered(a + b)
  {
    forall k | 0 <= k < Arity(a[0]) ensures Answers(a + b, k) {
      assert Answers(a, k);
    }
  }

  /** Cutting a paired transcript anywhere leaves a paired suffix exactly when the
      cut is not in front of a result. */
  lemma {:induction false} SuffixPaired(t: seq<Entry>, cut: nat)
    requires WellPaired(t) && cut <= |t|
    ensures WellPaired(t[cut..]) <==> cut == |t| || t[cut].role != Tool
    decreases |t|
  {
    if t != [] && cut > 0 {
      var n := 1 + Arity(t[0]);
      if cut >= n {
        assert t[n..][cut - n..] == t[cut..];
        SuffixPaired(t[n..], cut - n);
      } else {
        assert Answers(t, cut - 1) && t[cut..][0] == t[cut];
      }
    }
  }

  // ------------------------------------------------------------ atomic units

  datatype Unit = Unit(entries: seq<Entry>, totalTokens: nat)

  function Sum(cost: Cost, entries: seq<Entry>): nat {
    if entries == [] then 0 else Sum(cost, entries[..|entries| - 1]) + cost(entries[|entries| - 1].content)
  }

  /** End of the run of tool entries that starts at `i`. */
  function ToolRun(t: seq<Entry>, i: nat): (end: nat)
    requires i <= |t|
    ensures i <= end <= |t|
    ensures forall k :: i <= k < end ==> t[k].role == Tool
    ensures end < |t| ==> t[end].role != Tool
    decreases |t| - i
  {
    if i < |t| && t[i].role == Tool then ToolRun(t, i + 1) else i
  }

  function UnitEnd(t: seq<Entry>, i: nat): (end: nat)
    requires i < |t|
    ensures i < end <= |t|
  {
    if IsCallEntry(t[i]) then ToolRun(t, i + 1) else i + 1
  }

  /** A unit is one entry; a call entry takes all tool entries right behind it along. */
  lemma UnitShape(t: seq<Entry>, i: nat)
    requires i < |t|
    ensures var end := UnitEnd(t, i);
            && (!(t[i].role == Assistant && t[i].toolCalls.Some?) ==> end == i + 1)
            && (t[i].role == Assistant && t[i].toolCalls.Some? ==>
                  && (forall k :: i < k < end ==> t[k].role == Tool)
                  && (end < |t| ==> t[end].role != Tool))
  {
  }

  function UnitsFrom(cost: Cost, t: seq<Entry>, i: nat): seq<Unit>
    requires i <= |t|
    decreases |t| - i
  {
    if i == |t| then []
    else
      var end := UnitEnd(t, i);
      [Unit(t[i..end], Sum(cost, t[i..end]))] + UnitsFrom(cost, t, end)
  }

  function Units(cost: Cost, t: seq<Entry>): seq<Unit> {
    UnitsFrom(cost, t, 0)
  }

  lemma SumSnoc(cost: Cost, t: seq<Entry>, i: nat, j: nat)
    requires i <= j < |t|
    ensures Sum(cost, t[i..j + 1]) == Sum(cost, t[i..j]) + cost(t[j].content)
  {
    assert t[i..j + 1][..j - i] == t[i..j];
  }

  /** One round of the grouping loop: the unit that starts at `i` and its end. */
  method CollectUnit(cost: Cost, transcript: seq<Entry>, i: nat) returns (unit: Unit, j: nat)
    requires i < |transcript|
    ensures j == UnitEnd(transcript, i)
    ensures unit == Unit(transcript[i..j], Sum(cost, transcript[i..j]))
  {
    var entry := transcript[i];
    SumSnoc(cost, transcript, i, i);
    assert transcript[i..i + 1] == [entry];
    var group, tokens := [entry], cost(entry.content);
    j := i + 1;
    if IsCallEntry(entry) {
      while j < |transcript| && transcript[j].role == Tool
        invariant i < j <= |transcript| && ToolRun(transcript, j) == ToolRun(transcript, i + 1)
        invariant group == transcript[i..j] && tokens == Sum(cost, transcript[i..j])
      {
        SumSnoc(cost, transcript, i, j);
        group := group + [transcript[j]];
        tokens := tokens + cost(transcript[j].content);
        j := j + 1;
      }
    }
    unit := Unit(group, tokens);
  }

  /** src/agents/context.ts groupTranscriptUnits. */
  method GroupTranscriptUnits(cost: Cost, transcript: seq<Entry>) returns (units: seq<Unit>)
    ensures units == Units(cost, transcript)
  {
    units := [];
    var i := 0;
    while i < |transcript|
      invariant i <= |transcript|
      invariant units + UnitsFrom(cost, transcript, i) == Units(cost, transcript)
    {
      var unit, j := CollectUnit(cost, transcript, i);
      units := units + [unit];
      i := j;
    }
  }

  /** The entries of units[k..], in order. */
  function Flatten(units: seq<Unit>, k: nat): seq<Entry>
    requires k <= |units|
    decreases |units| - k
  {
    if k == |units| then [] else units[k].entries + Flatten(units, k + 1)
  }

  function Total(units: seq<Unit>, k: nat): nat
    requires k <= |units|
    decreases |units| - k
  {
    if k == |units| then 0 else units[k].totalTokens + Total(units, k + 1)
  }

  /** Index of the entry the k-th of the units from `i` on starts with. */
  function Start(t: seq<Entry>, i: nat, k: nat): (start: nat)
    requires i <= |t|
    ensures i <= start <= |t|
    decreases k
  {
    if k == 0 || i == |t| then i else Start(t, UnitEnd(t, i), k - 1)
  }

  /** Flattening the units from the k-th on gives the transcript from that unit's
      first entry on: units neither drop, repeat nor reorder entries. */
  lemma UnitsPartition(cost: Cost, t: seq<Entry>, i: nat, k: nat)
    requires i <= |t| && k <= |UnitsFrom(cost, t, i)|
    ensures Flatten(UnitsFrom(cost, t, i), k) == t[Start(t, i, k)..]
    ensures k < |UnitsFrom(cost, t, i)| <==> Start(t, i, k) < |t|
    ensures Total(UnitsFrom(cost, t, i), k) == Sum(cost, t[Start(t, i, k)..])
  {
    UnitsFlatten(cost, t, i, k);
    UnitsCost(cost, t, i, k);
  }

  lemma {:induction false} SumAppend(cost: Cost, a: seq<Entry>, b: seq<Entry>)
    ensures Sum(cost, a + b) == Sum(cost, a) + Sum(cost, b)
  {
    if b == [] {
      assert a + b == a;
    } else {
      assert (a + b)[..|a + b| - 1] == a + b[..|b| - 1];
      SumAppend(cost, a, b[..|b| - 1]);
    }
  }

  lemma SumFrom(cost: Cost, t: seq<Entry>, i: nat, j: nat)
    requires i <= j <= |t|
    ensures Sum(cost, t[i..]) == Sum(cost, t[i..j]) + Sum(cost, t[j..])
  {
    assert t[i..] == t[i..j] + t[j..];
    SumAppend(cost, t[i..j], t[j..]);
  }

  lemma SumBack(cost: Cost, t: seq<Entry>, i: nat)
    requires i < |t|
    ensures Sum(cost, t[i..]) == Sum(cost, t[i + 1..]) + cost(t[i].content)
  {
    SumFrom(cost, t, i, i + 1);
    SumSnoc(cost, t, i, i);
    assert t[i..i] == [];
  }

  lemma {:induction false} UnitsCost(cost: Cost, t: seq<Entry>, i: nat, k: nat)
    requires i <= |t| && k <= |UnitsFrom(cost, t, i)|
    ensures Total(UnitsFrom(cost, t, i), k) == Sum(cost, t[Start(t, i, k)..])
    decreases |t| - i
  {
    if i < |t| {
      var end := UnitEnd(t, i);
      var rest := UnitsFrom(cost, t, end);
      var first := Unit(t[i..end], Sum(cost, t[i..end]));
      assert UnitsFrom(cost, t, i) == [first] + rest;
      UnitsCost(cost, t, end, if k == 0 then 0 else k - 1);
      TotalTail(first, rest, if k == 0 then 1 else k);
      SumFrom(cost, t, i, end);
    }
  }

  lemma {:induction false} TotalTail(first: Unit, rest: seq<Unit>, k: nat)
    requires 1 <= k <= |rest| + 1
    ensures Total([first] + rest, k) == Total(rest, k - 1)
    decreases |rest| - k
  {
    if k <= |rest| {
      TotalTail(first, rest, k + 1);
    }
  }

  lemma {:induction false} UnitsFlatten(cost: Cost, t: seq<Entry>, i: nat, k: nat)
    requires i <= |t| && k <= |UnitsFrom(cost, t, i)|
    ensures Flatten(UnitsFrom(cost, t, i), k) == t[Start(t, i, k)..]
    ensures k < |UnitsFrom(cost, t, i)| <==> Start(t, i, k) < |t|
    decreases |t| - i
  {
    if k == 0 {
      AllUnitsFlatten(cost, t, i);
      NoUnitsAtEnd(cost, t, i);
    } else if i < |t| {
      var end, first, rest := FirstUnit(cost, t, i);
      UnitsFlatten(cost, t, end, k - 1);
      FlattenTail(first, rest, k);
      StartBehind(t, i, k);
    }
  }

  lemma {:induction false} AllUnitsFlatten(cost: Cost, t: seq<Entry>, i: nat)
    requires i <= |t|
    ensures Flatten(UnitsFrom(cost, t, i), 0) == t[i..]
    decreases |t| - i
  {
    if i < |t| {
      var end, first, rest := FirstUnit(cost, t, i);
      AllUnitsFlatten(cost, t, end);
      FlattenCons(first, rest);
      assert t[i..end] + t[end..] == t[i..];
    }
  }

  lemma FlattenCons(first: Unit, rest: seq<Unit>)
    ensures Flatten([first] + rest, 0) == first.entries + Flatten(rest, 0)
  {
    FlattenTail(first, rest, 1);
  }

  lemma NoUnitsAtEnd(cost: Cost, t: seq<Entry>, i: nat)
    requires i <= |t|
    ensures UnitsFrom(cost, t, i) == [] <==> i == |t|
  {
  }

  lemma FirstUnit(cost: Cost, t: seq<Entry>, i: nat) returns (end: nat, first: Unit, rest: seq<Unit>)
    requires i < |t|
    ensures end == UnitEnd(t, i) && first.entries == t[i..end]
    ensures UnitsFrom(cost, t, i) == [first] + rest && rest == UnitsFrom(cost, t, end)
  {
    end := UnitEnd(t, i);
    first, rest := Unit(t[i..end], Sum(cost, t[i..end])), UnitsFrom(cost, t, end);
  }

  lemma StartBehind(t: seq<Entry>, i: nat, k: nat)
    requires i < |t| && k > 0
    ensures Start(t, i, k) == Start(t, UnitEnd(t, i), k - 1)
  {
  }

  lemma {:induction false} FlattenTail(first: Unit, rest: seq<Unit>, k: nat)
    requires 1 <= k <= |rest| + 1
    ensures Flatten([first] + rest, k) == Flatten(rest, k - 1)
    decreases |rest| - k
  {
    if k <= |rest| {
      FlattenTail(first, rest, k + 1);
    }
  }

  /** In a paired transcript every unit is paired, so a suffix of units is. */
  lemma {:induction false} StartIsPaired(t: seq<Entry>, i: nat, k: nat)
    requires i <= |t| && WellPaired(t[i..])
    ensures WellPaired(t[Start(t, i, k)..])
    decreases k
  {
    if k > 0 && i < |t| {
      var end := UnitEnd(t, i);
      if IsCallEntry(t[i]) {
        SuffixPaired(t[i..], end - i);
      }
      assert t[i..][end - i..] == t[end..];
      StartIsPaired(t, end, k - 1);
    }
  }

  // ------------------------------------------------------------ suffixes within a budget

  /** First unit of the longest suffix that fits, when the units from `n` on are
      taken and use `used` tokens. */
  function KeepFrom(units: seq<Unit>, budget: int, n: nat, used: nat): (k: nat)
    requires n <= |units|
    ensures k <= n
    decreases n
  {
    if n == 0 || used + units[n - 1].totalTokens > budget then n
    else KeepFrom(units, budget, n - 1, used + units[n - 1].totalTokens)
  }

  function KeptFrom(units: seq<Unit>, budget: int): (k: nat)
    ensures k <= |units|
  {
    KeepFrom(units, budget, |units|, 0)
  }

  /** The kept units fit, unless nothing is kept, and no longer suffix does. */
  lemma {:induction false} KeepIsLongest(units: seq<Unit>, budget: int, n: nat)
    requires n <= |units| && (n == |units| || Total(units, n) <= budget)
    ensures var k := KeepFrom(units, budget, n, Total(units, n));
            && (k == |units| || Total(units, k) <= budget)
            && forall j :: 0 <= j < k ==> Total(units, j) > budget
    decreases n
  {
    if n > 0 {
      if Total(units, n - 1) > budget {
        forall j | 0 <= j < n ensures Total(units, j) > budget {
          TotalGrows(units, j, n - 1);
        }
      } else {
        KeepIsLongest(units, budget, n - 1);
      }
    }
  }

  lemma {:induction false} TotalGrows(units: seq<Unit>, j: nat, k: nat)
    requires j <= k <= |units|
    ensures Total(units, j) >= Total(units, k)
    decreases k - j
  {
    if j < k {
      TotalGrows(units, j + 1, k);
    }
  }

  /** The kept entries are the longest suffix of whole units within the budget. */
  lemma KeptIsLongest(units: seq<Unit>, budget: int)
    ensures var k := KeptFrom(units, budget);
            && (k == |units| || Total(units, k) <= budget)
            && forall j :: 0 <= j < k ==> Total(units, j) > budget
  {
    KeepIsLongest(units, budget, |units|);
  }

  // ------------------------------------------------------------ the context window

  datatype ChatMessage = ChatMessage(role: Role, content: string, toolCalls: Option<seq<ToolCall>>,
                                     toolCallId: Option<string>)

  function ToMessage(e: Entry): ChatMessage {
    if e.role == Tool then ChatMessage(Tool, e.content, None, e.toolCallId)
    else if IsCallEntry(e) then ChatMessage(Assistant, e.content, e.toolCalls, None)
    else ChatMessage(e.role, e.content, None, None)
  }

  function ToMessages(t: seq<Entry>): seq<ChatMessage> {
    seq(|t|, i requires 0 <= i < |t| => ToMessage(t[i]))
  }

  /** The message says what the entry says, under the same role; calls go with an
      assistant's message only, the call's id with a result only. */
  predicate SaysTheSame(m: ChatMessage, e: Entry) {
    && m.role == e.role && m.content == e.content
    && m.toolCalls == (if e.role == Assistant then e.toolCalls else None)
    && m.toolCallId == (if e.role == Tool then e.toolCallId else None)
  }

  lemma MessagesSayTheSame(t: seq<Entry>)
    ensures |ToMessages(t)| == |t| && forall k :: 0 <= k < |t| ==> SaysTheSame(ToMessages(t)[k], t[k])
  {
  }

  function CallCount(m: ChatMessage): nat {
    if m.role == Assistant && m.toolCalls.Some? then |m.toolCalls.value| else 0
  }

  predicate AnsweredBy(ms: seq<ChatMessage>, k: nat)
    requires ms != [] && k < CallCount(ms[0])
  {
    k + 1 < |ms| && ms[k + 1].role == Tool && ms[k + 1].toolCallId == Some(ms[0].toolCalls.value[k].id)
  }

  /** The provider's demand, on the messages it is sent. */
  predicate MessagesPaired(ms: seq<ChatMessage>) {
    ms == [] ||
    (&& ms[0].role != Tool && CallCount(ms[0]) < |ms|
     && (forall k :: 0 <= k < CallCount(ms[0]) ==> AnsweredBy(ms, k))
     && MessagesPaired(ms[1 + CallCount(ms[0])..]))
  }

  lemma {:induction false} MessagesKeepPairing(t: seq<Entry>)
    requires WellPaired(t)
    ensures MessagesPaired(ToMessages(t))
  {
    if t != [] {
      var n := 1 + Arity(t[0]);
      MessagesKeepPairing(t[n..]);
      assert ToMessages(t)[n..] == ToMessages(t[n..]);
      forall k | 0 <= k < Arity(t[0]) ensures AnsweredBy(ToMessages(t), k) {
        assert Answers(t, k);
      }
    }
  }

  datatype Window = Window(messages: seq<ChatMessage>, totalTokens: nat, truncated: bool)

  /** First unit of the history in the window: without budget, none is taken. */
  function HistoryFrom(units: seq<Unit>, budget: int): (k: nat)
    ensures k <= |units|
  {
    if budget <= 0 then |units| else KeptFrom(units, budget)
  }

  function History(cost: Cost, t: seq<Entry>, budget: int): seq<Entry> {
    Flatten(Units(cost, t), HistoryFrom(Units(cost, t), budget))
  }

  /** src/agents/context.ts buildContextWindow, the prompt already rendered. */
  method BuildContextWindow(cost: Cost, systemPrompt: string, transcript: seq<Entry>, maxTokenBudget: nat)
    returns (window: Window)
    ensures var units, budget := Units(cost, transcript), maxTokenBudget - cost(systemPrompt);
            && window.messages == [ChatMessage(System, systemPrompt, None, None)]
                                + ToMessages(History(cost, transcript, budget))
            && window.totalTokens == cost(systemPrompt) + Total(units, HistoryFrom(units, budget))
            && (window.truncated <==> HistoryFrom(units, budget) > 0)
  {
    var systemTokens := cost(systemPrompt);
    var messages := [ChatMessage(System, systemPrompt, None, None)];
    var compactableBudget := maxTokenBudget - systemTokens;
    if compactableBudget <= 0 {
      return Window(messages, systemTokens, transcript != []);
    }

    var units := GroupTranscriptUnits(cost, transcript);
    var historyMessages, historyTokens: nat, u: nat := [], 0, |units|;
    while u > 0
      invariant u <= |units|
      invariant historyMessages == ToMessages(Flatten(units, u)) && historyTokens == Total(units, u)
      invariant KeepFrom(units, compactableBudget, u, historyTokens) == KeptFrom(units, compactableBudget)
    {
      var unit := units[u - 1];
      if historyTokens + unit.totalTokens > compactableBudget {
        return Window(messages + historyMessages, systemTokens + historyTokens, true);
      }
      historyMessages := PrependMessages(unit.entries, historyMessages, Flatten(units, u));
      historyTokens := historyTokens + unit.totalTokens;
      u := u - 1;
    }
    return Window(messages + historyMessages, systemTokens + historyTokens, false);
  }

  /** The inner loop of the window: one unit's messages go in front, last first. */
  method PrependMessages(entries: seq<Entry>, messages: seq<ChatMessage>, ghost behind: seq<Entry>)
    returns (all: seq<ChatMessage>)
    requires messages == ToMessages(behind)
    ensures all == ToMessages(entries + behind)
  {
    all := messages;
    var e := |entries|;
    assert entries[e..] + behind == behind;
    while e > 0
      invariant e <= |entries|
      invariant all == ToMessages(entries[e..] + behind)
    {
      e := e - 1;
      all := [ToMessage(entries[e])] + all;
    }
    assert entries[0..] == entries;
  }

  /** The entries from a unit on are a paired suffix of a paired transcript, and
      all of it only from the first unit on. */
  lemma UnitSuffix(cost: Cost, t: seq<Entry>, k: nat)
    requires WellPaired(t) && k <= |Units(cost, t)|
    ensures var suffix := Flatten(Units(cost, t), k);
            && WellPaired(suffix) && |suffix| <= |t| && suffix == t[|t| - |suffix|..]
            && (k > 0 <==> |suffix| < |t|)
  {
    assert t[0..] == t;
    UnitsPartition(cost, t, 0, k);
    StartIsPaired(t, 0, k);
    if k > 0 {
      StartMoves(t, 0, k);
    }
  }

  /** What the window promises of a paired transcript: paired messages, a total
      within the budget whenever the pinned part fits, a suffix of the transcript,
      and a truncation flag that is up exactly when some entry is missing. */
  lemma WindowIsSound(cost: Cost, t: seq<Entry>, systemTokens: nat, maxTokenBudget: nat)
    requires WellPaired(t)
    ensures var units, budget := Units(cost, t), maxTokenBudget - systemTokens;
            var k, history := HistoryFrom(units, budget), History(cost, t, budget);
            && MessagesPaired(ToMessages(history))
            && (systemTokens <= maxTokenBudget ==> systemTokens + Total(units, k) <= maxTokenBudget)
            && |history| <= |t| && history == t[|t| - |history|..]
            && (k > 0 <==> |history| < |t|)
  {
    var units, budget := Units(cost, t), maxTokenBudget - systemTokens;
    UnitSuffix(cost, t, HistoryFrom(units, budget));
    MessagesKeepPairing(History(cost, t, budget));
    KeptIsLongest(units, budget);
  }

  /** `kept` is the longest paired suffix of `t` whose cost is within the budget. */
  predicate IsLongestPaired(cost: Cost, t: seq<Entry>, budget: int, kept: seq<Entry>) {
    && |kept| <= |t| && kept == t[|t| - |kept|..] && WellPaired(kept)
    && (kept == [] || Sum(cost, kept) <= budget)
    && TooMuchBefore(cost, t, budget, |t| - |kept|)
  }

  predicate TooMuchBefore(cost: Cost, t: seq<Entry>, budget: int, cut: nat)
    requires cut <= |t|
  {
    forall j: nat :: j < cut ==> TooMuchFrom(cost, t, budget, j)
  }

  /** The suffix is not paired or over the budget. */
  predicate TooMuchFrom(cost: Cost, t: seq<Entry>, budget: int, j: nat)
    requires j <= |t|
  {
    WellPaired(t[j..]) ==> Sum(cost, t[j..]) > budget
  }

  /** Nothing but results lies between the starts of two units that follow each other. */
  lemma {:induction false} OnlyResultsInside(t: seq<Entry>, i: nat, k: nat, j: nat)
    requires i <= |t| && Start(t, i, k) < j < Start(t, i, k + 1)
    ensures t[j].role == Tool
    decreases k
  {
    if k == 0 {
      assert Start(t, UnitEnd(t, i), 0) == UnitEnd(t, i);
    } else {
      OnlyResultsInside(t, UnitEnd(t, i), k - 1, j);
    }
  }

  lemma {:induction false} SumGrows(cost: Cost, t: seq<Entry>, i: nat, j: nat)
    requires i <= j <= |t|
    ensures Sum(cost, t[i..]) >= Sum(cost, t[j..])
  {
    SumFrom(cost, t, i, j);
  }

  /** The units kept of a paired transcript are, entry by entry, its longest paired suffix
      within the budget. */
  lemma KeptIsLongestPaired(cost: Cost, t: seq<Entry>, budget: int)
    requires WellPaired(t)
    ensures IsLongestPaired(cost, t, budget, HardTruncated(cost, t, budget))
  {
    var k := KeptFrom(Units(cost, t), budget);
    KeptIsLongest(Units(cost, t), budget);
    var cut := UnitCut(cost, t, k);
    AllEarlierIsOver(cost, t, budget, k);
    LongestFromCut(cost, t, budget, cut);
  }

  lemma AllEarlierIsOver(cost: Cost, t: seq<Entry>, budget: int, k: nat)
    requires WellPaired(t) && k <= |Units(cost, t)|
    requires k > 0 ==> Total(Units(cost, t), k - 1) > budget
    ensures TooMuchBefore(cost, t, budget, Start(t, 0, k))
  {
    forall j: nat | j < Start(t, 0, k) ensures TooMuchFrom(cost, t, budget, j) {
      EarlierIsOver(cost, t, budget, k, j);
    }
  }

  lemma LongestFromCut(cost: Cost, t: seq<Entry>, budget: int, cut: nat)
    requires cut <= |t| && WellPaired(t[cut..]) && (t[cut..] == [] || Sum(cost, t[cut..]) <= budget)
    requires TooMuchBefore(cost, t, budget, cut)
    ensures IsLongestPaired(cost, t, budget, t[cut..])
  {
    assert |t| - |t[cut..]| == cut;
  }

  lemma UnitCut(cost: Cost, t: seq<Entry>, k: nat) returns (cut: nat)
    requires WellPaired(t) && k <= |Units(cost, t)|
    ensures cut == Start(t, 0, k) && cut <= |t|
    ensures Flatten(Units(cost, t), k) == t[cut..] && WellPaired(t[cut..])
    ensures Total(Units(cost, t), k) == Sum(cost, t[cut..])
    ensures k == |Units(cost, t)| ==> t[cut..] == []
  {
    cut := Start(t, 0, k);
    assert t[0..] == t;
    UnitsPartition(cost, t, 0, k);
    StartIsPaired(t, 0, k);
  }

  /** So is the history in a window, but a budget that is used up leaves none. */
  lemma HistoryIsLongestPaired(cost: Cost, t: seq<Entry>, budget: int)
    requires WellPaired(t)
    ensures if budget > 0 then IsLongestPaired(cost, t, budget, History(cost, t, budget))
            else History(cost, t, budget) == []
  {
    KeptIsLongestPaired(cost, t, budget);
  }

  lemma EarlierIsOver(cost: Cost, t: seq<Entry>, budget: int, k: nat, j: nat)
    requires WellPaired(t) && k <= |Units(cost, t)| && j < Start(t, 0, k)
    requires k > 0 ==> Total(Units(cost, t), k - 1) > budget
    ensures TooMuchFrom(cost, t, budget, j)
  {
    var before := UnitCut(cost, t, k - 1);
    if before < j {
      OnlyResultsInside(t, 0, k - 1, j);
      SuffixPaired(t, j);
    } else {
      SumGrows(cost, t, j, before);
    }
  }

  lemma StartMoves(t: seq<Entry>, i: nat, k: nat)
    requires i < |t| && k > 0
    ensures Start(t, i, k) > i
  {
  }

  // ------------------------------------------------------------ hard truncation

  /** src/agents/compaction.ts hardTruncate. */
  method HardTruncate(cost: Cost, transcript: seq<Entry>, tokenBudget: int) returns (kept: seq<Entry>)
    ensures kept == HardTruncated(cost, transcript, tokenBudget)
  {
    var units := GroupTranscriptUnits(cost, transcript);
    var tokens: nat, keepFrom: nat := 0, |units|;
    while keepFrom > 0
      invariant keepFrom <= |units|
      invariant KeepFrom(units, tokenBudget, keepFrom, tokens) == KeptFrom(units, tokenBudget)
    {
      if tokens + units[keepFrom - 1].totalTokens > tokenBudget {
        break;
      }
      tokens := tokens + units[keepFrom - 1].totalTokens;
      keepFrom := keepFrom - 1;
    }
    kept := Flatten(units, keepFrom);
  }

  function HardTruncated(cost: Cost, t: seq<Entry>, budget: int): seq<Entry> {
    Flatten(Units(cost, t), KeptFrom(Units(cost, t), budget))
  }

  /** Hard truncation leaves a suffix and keeps the pairing. */
  lemma HardTruncateKeepsPairing(cost: Cost, t: seq<Entry>, budget: int)
    requires WellPaired(t)
    ensures var kept := HardTruncated(cost, t, budget);
            WellPaired(kept) && |kept| <= |t| && kept == t[|t| - |kept|..]
  {
    UnitSuffix(cost, t, KeptFrom(Units(cost, t), budget));
  }

  /** Window and hard truncation keep the same entries for the same budget, with
      one exception: a budget of exactly zero, which the window treats as no
      budget at all while hard truncation still keeps a last unit that costs nothing. */
  lemma WindowAgreesWithHardTruncate(cost: Cost, t: seq<Entry>, budget: int)
    ensures var units := Units(cost, t);
            History(cost, t, budget) == HardTruncated(cost, t, budget) <==>
            !(budget == 0 && units != [] && units[|units| - 1].totalTokens == 0)
  {
    var units := Units(cost, t);
    var k := KeptFrom(units, budget);
    UnitsPartition(cost, t, 0, k);
    UnitsPartition(cost, t, 0, |units|);
    KeptIsLongest(units, budget);
    if units != [] {
      assert Total(units, |units| - 1) == units[|units| - 1].totalTokens;
    }
  }

  // ------------------------------------------------------------ cuts by entry

  /** The split point of src/agents/compaction.ts compactHistory: entries from here
      on are kept verbatim, `n` entries are still to be looked at. */
  function SplitFrom(cost: Cost, t: seq<Entry>, keepBudget: int, n: nat, keep: nat): (split: nat)
    requires n <= |t|
    ensures split <= n
  {
    if n == 0 || keep + cost(t[n - 1].content) > keepBudget then n
    else SplitFrom(cost, t, keepBudget, n - 1, keep + cost(t[n - 1].content))
  }

  /** The cost of the entries from the n-th on. */
  function CostFrom(cost: Cost, t: seq<Entry>, n: nat): nat
    requires n <= |t|
    decreases |t| - n
  {
    if n == |t| then 0 else cost(t[n].content) + CostFrom(cost, t, n + 1)
  }

  lemma {:induction false} CostFromIsSum(cost: Cost, t: seq<Entry>, n: nat)
    requires n <= |t|
    ensures CostFrom(cost, t, n) == Sum(cost, t[n..])
    decreases |t| - n
  {
    if n < |t| {
      SumBack(cost, t, n);
      CostFromIsSum(cost, t, n + 1);
    }
  }

  lemma {:induction false} SplitIsFarthest(cost: Cost, t: seq<Entry>, keepBudget: int, n: nat)
    requires n <= |t| && (n == |t| || CostFrom(cost, t, n) <= keepBudget)
    ensures var split := SplitFrom(cost, t, keepBudget, n, CostFrom(cost, t, n));
            && (split == |t| || CostFrom(cost, t, split) <= keepBudget)
            && (split > 0 ==> CostFrom(cost, t, split - 1) > keepBudget)
    decreases n
  {
    if n > 0 && CostFrom(cost, t, n - 1) <= keepBudget {
      SplitIsFarthest(cost, t, keepBudget, n - 1);
    }
  }

  /** Where compactHistory splits: the entries from there on fit the budget, and one
      more would not. */
  lemma SplitMeetsBudget(cost: Cost, t: seq<Entry>, keepBudget: int)
    ensures var split := SplitFrom(cost, t, keepBudget, |t|, 0);
            && (split == |t| || Sum(cost, t[split..]) <= keepBudget)
            && (split > 0 ==> Sum(cost, t[split - 1..]) > keepBudget)
  {
    var split := SplitFrom(cost, t, keepBudget, |t|, 0);
    SplitIsFarthest(cost, t, keepBudget, |t|);
    CostFromIsSum(cost, t, split);
    if split > 0 {
      CostFromIsSum(cost, t, split - 1);
    }
  }

  method SplitIndex(cost: Cost, transcript: seq<Entry>, keepBudget: int) returns (splitIndex: nat)
    ensures splitIndex == SplitFrom(cost, transcript, keepBudget, |transcript|, 0)
  {
    var keepTokens: nat, i: nat := 0, |transcript|;
    splitIndex := |transcript|;
    while i > 0
      invariant i <= |transcript| && (i == |transcript| || i == 0 ==> splitIndex == i)
      invariant SplitFrom(cost, transcript, keepBudget, i, keepTokens)
             == SplitFrom(cost, transcript, keepBudget, |transcript|, 0)
    {
      var entryTokens := cost(transcript[i - 1].content);
      if keepTokens + entryTokens > keepBudget {
        return i;
      }
      keepTokens := keepTokens + entryTokens;
      i := i - 1;
      if i == 0 {
        splitIndex := 0;
      }
    }
  }

  function Summarized(summary: string, t: seq<Entry>, split: nat): seq<Entry>
    requires split <= |t|
  {
    [Entry(System, summary, None, None)] + t[split..]
  }

  /** The summary branch cuts between entries, not units: it keeps the pairing
      exactly when the first entry it keeps is not a tool result. */
  lemma SummaryPairing(summary: string, t: seq<Entry>, split: nat)
    requires WellPaired(t) && split <= |t|
    ensures WellPaired(Summarized(summary, t, split)) <==> split == |t| || t[split].role != Tool
  {
    SuffixPaired(t, split);
    assert Summarized(summary, t, split)[1..] == t[split..];
  }

  /** Everything compactHistory returns: the transcript as it is when it fits or
      nothing lies before the split, else the summary or the hard truncation. */
  function Compacted(cost: Cost, t: seq<Entry>, tokenBudget: nat, summary: Option<string>): seq<Entry> {
    var split := SplitFrom(cost, t, KeepBudget(tokenBudget), |t|, 0);
    if Sum(cost, t) <= tokenBudget || split == 0 then t
    else if summary.None? then HardTruncated(cost, t, tokenBudget)
    else Summarized(summary.value, t, split)
  }

  const MAX_SUMMARY_TOKENS: nat := 500

  /** Budget left for kept entries: the summary may take 15 percent, at most 500. */
  function KeepBudget(tokenBudget: nat): nat {
    var share := tokenBudget * 15 / 100;
    tokenBudget - if share < MAX_SUMMARY_TOKENS then share else MAX_SUMMARY_TOKENS
  }

  /** Compaction brings the transcript within the budget, unless the summary entry
      takes more than its share and what is left of the kept entries' share. */
  lemma CompactionMeetsBudget(cost: Cost, t: seq<Entry>, tokenBudget: nat, summary: Option<string>)
    ensures var split := SplitFrom(cost, t, KeepBudget(tokenBudget), |t|, 0);
            Sum(cost, Compacted(cost, t, tokenBudget, summary)) <= tokenBudget <==>
            !(&& Sum(cost, t) > tokenBudget && summary.Some?
              && cost(summary.value) + Sum(cost, t[split..]) > tokenBudget)
  {
    var split := SplitFrom(cost, t, KeepBudget(tokenBudget), |t|, 0);
    SplitMeetsBudget(cost, t, KeepBudget(tokenBudget));
    assert t[0..] == t;
    if summary.None? {
      HardTruncateMeetsBudget(cost, t, tokenBudget);
    } else {
      SumAppend(cost, [Entry(System, summary.value, None, None)], t[split..]);
    }
  }

  lemma HardTruncateMeetsBudget(cost: Cost, t: seq<Entry>, budget: nat)
    ensures Sum(cost, HardTruncated(cost, t, budget)) <= budget
  {
    var units := Units(cost, t);
    KeptIsLongest(units, budget);
    UnitsPartition(cost, t, 0, KeptFrom(units, budget));
  }

  /** The cut of a budget: the entries from it on fit, and one more would not. */
  predicate CutsAt(cost: Cost, t: seq<Entry>, keepBudget: int, split: nat) {
    && split <= |t|
    && (split == |t| || Sum(cost, t[split..]) <= keepBudget)
    && (split > 0 ==> Sum(cost, t[split - 1..]) > keepBudget)
  }

  lemma CutIsUnique(cost: Cost, t: seq<Entry>, keepBudget: int, a: nat, b: nat)
    requires CutsAt(cost, t, keepBudget, a) && CutsAt(cost, t, keepBudget, b)
    ensures a == b
  {
    if a < b {
      SumGrows(cost, t, a, b - 1);
    } else if b < a {
      SumGrows(cost, t, b, a - 1);
    }
  }

  /** What compaction makes of a transcript. One within the budget stays as it is. Of any
      other the entries behind the cut stay, where 15 percent of the budget, but at most
      500 tokens, are set aside for the summary in front of them; without a summary it is
      truncated to the budget. */
  lemma CompactionTells(cost: Cost, t: seq<Entry>, tokenBudget: nat, summary: Option<string>, split: nat)
    requires var share := tokenBudget * 15 / 100;
             CutsAt(cost, t, tokenBudget - (if share < 500 then share else 500), split)
    ensures Sum(cost, t) <= tokenBudget ==> Compacted(cost, t, tokenBudget, summary) == t
    ensures Sum(cost, t) > tokenBudget ==>
              split > 0 && Compacted(cost, t, tokenBudget, summary) ==
                           if summary.None? then HardTruncated(cost, t, tokenBudget)
                           else [Entry(System, summary.value, None, None)] + t[split..]
  {
    SplitMeetsBudget(cost, t, KeepBudget(tokenBudget));
    CutIsUnique(cost, t, KeepBudget(tokenBudget), split, SplitFrom(cost, t, KeepBudget(tokenBudget), |t|, 0));
    assert t[0..] == t;
  }

  /** `summary` is what the summarizing model returned, if it returned. */
  method CompactHistory(cost: Cost, transcript: seq<Entry>, tokenBudget: nat, summary: Option<string>)
    returns (compacted: seq<Entry>)
    ensures compacted == Compacted(cost, transcript, tokenBudget, summary)
  {
    var totalTokens := 0;
    for i := 0 to |transcript|
      invariant totalTokens == Sum(cost, transcript[..i])
    {
      assert transcript[..i + 1][..i] == transcript[..i];
      totalTokens := totalTokens + cost(transcript[i].content);
    }
    assert transcript[..|transcript|] == transcript;
    if totalTokens <= tokenBudget {
      return transcript;
    }
    var splitIndex := SplitIndex(cost, transcript, KeepBudget(tokenBudget));
    if splitIndex == 0 {
      return transcript;
    }
    match summary {
      case None =>
        compacted := HardTruncate(cost, transcript, tokenBudget);
      case Some(text) =>
        compacted := [Entry(System, text, None, None)] + transcript[splitIndex..];
    }
  }

  /** The summary replaced entries up to a cut between a call and its results. */
  predicate SplitsPair(cost: Cost, t: seq<Entry>, tokenBudget: nat, summary: Option<string>) {
    var split := SplitFrom(cost, t, KeepBudget(tokenBudget), |t|, 0);
    Sum(cost, t) > tokenBudget && 0 < split < |t| && summary.Some? && t[split].role == Tool
  }

  /** Compaction keeps a transcript paired unless its summary splits a pair. */
  lemma CompactionPairing(cost: Cost, t: seq<Entry>, tokenBudget: nat, summary: Option<string>)
    requires WellPaired(t)
    ensures WellPaired(Compacted(cost, t, tokenBudget, summary)) <==> !SplitsPair(cost, t, tokenBudget, summary)
  {
    var split := SplitFrom(cost, t, KeepBudget(tokenBudget), |t|, 0);
    HardTruncateKeepsPairing(cost, t, tokenBudget);
    if summary.Some? {
      SummaryPairing(summary.value, t, split);
    }
  }

  /** And such a cut does happen: of one call over the budget the result is kept and
      the call cut off, exactly when the result alone fits beside a summary. */
  lemma SummaryCanSplitAPair(callText: string, resultText: string, id: string, cost: Cost, tokenBudget: nat,
                             summary: string)
    ensures var t := [Entry(Assistant, callText, Some([ToolCall(id, "", "")]), None),
                      Entry(Tool, resultText, None, Some(id))];
            && WellPaired(t)
            && (SplitsPair(cost, t, tokenBudget, Some(summary)) <==>
                cost(callText) + cost(resultText) > tokenBudget && cost(resultText) <= KeepBudget(tokenBudget))
  {
    var call := Entry(Assistant, callText, Some([ToolCall(id, "", "")]), None);
    var t := [call, Entry(Tool, resultText, None, Some(id))];
    assert t[2..] == [] && Arity(t[0]) == 1;
    assert WellPaired(t);
    SumOfTwo(cost, t);
    if Sum(cost, t) > tokenBudget {
      SplitOfTwo(cost, t, tokenBudget);
    }
  }

  lemma SplitOfTwo(cost: Cost, t: seq<Entry>, tokenBudget: nat)
    requires |t| == 2 && Sum(cost, t) > tokenBudget
    ensures SplitFrom(cost, t, KeepBudget(tokenBudget), 2, 0)
         == if cost(t[1].content) > KeepBudget(tokenBudget) then 2 else 1
  {
    SumOfTwo(cost, t);
  }

  lemma SumOfTwo(cost: Cost, t: seq<Entry>)
    requires |t| == 2
    ensures Sum(cost, t) == cost(t[0].content) + cost(t[1].content)
  {
    SumBack(cost, t, 0);
    SumBack(cost, t, 1);
    assert t[0..] == t && t[2..] == [];
  }

  /** src/sessions/transcript.ts trimTranscript. A slice of minus zero is the
      whole transcript, so a limit of one behind a system entry trims nothing. */
  function TrimTranscript(t: seq<Entry>, maxEntries: nat): seq<Entry> {
    if |t| <= maxEntries then t
    else if t[0].role == System then
      [t[0]] + (if maxEntries <= 1 then t[if maxEntries == 1 then 0 else 1..] else t[|t| - (maxEntries - 1)..])
    else if maxEntries == 0 then t
    else t[|t| - maxEntries..]
  }

  /** A transcript over the limit is trimmed to it, except by a limit of zero, and by
      a limit of one behind a system entry: these leave every entry in place. */
  lemma TrimMeetsLimit(t: seq<Entry>, maxEntries: nat)
    requires |t| > maxEntries
    ensures TrimsNothing(t, maxEntries) ==> |TrimTranscript(t, maxEntries)| >= |t|
    ensures !TrimsNothing(t, maxEntries) ==> |TrimTranscript(t, maxEntries)| == maxEntries
  {
  }

  /** What is left is the latest entries; a system entry in front stays there and takes
      one of the places. */
  lemma TrimKeepsTheLatest(t: seq<Entry>, maxEntries: nat)
    ensures |t| <= maxEntries ==> TrimTranscript(t, maxEntries) == t
    ensures |t| > maxEntries && t[0].role != System ==>
              forall k :: 0 <= k < maxEntries ==> TrimTranscript(t, maxEntries)[k] == t[|t| - maxEntries + k]
    ensures |t| > maxEntries > 1 && t[0].role == System ==>
              && TrimTranscript(t, maxEntries)[0] == t[0]
              && forall k :: 0 < k < maxEntries ==> TrimTranscript(t, maxEntries)[k] == t[|t| - maxEntries + k]
    ensures |t| > maxEntries && TrimsNothing(t, maxEntries) ==>
              TrimTranscript(t, maxEntries) == if maxEntries == 0 then t else [t[0]] + t
  {
  }

  predicate TrimsNothing(t: seq<Entry>, maxEntries: nat)
    requires t != []
  {
    maxEntries == 0 || (maxEntries == 1 && t[0].role == System)
  }

  /** Where the trim cuts, when it does. */
  function TrimCut(t: seq<Entry>, maxEntries: nat): (cut: nat)
    requires |t| > maxEntries && !TrimsNothing(t, maxEntries)
    ensures cut < |t|
  {
    if t[0].role == System then |t| - maxEntries + 1 else |t| - maxEntries
  }

  /** The final trim cuts by entry as well: it keeps the pairing exactly when it trims
      nothing or its cut is not in front of a tool result. */
  lemma TrimPairing(t: seq<Entry>, maxEntries: nat)
    requires WellPaired(t) && |t| > maxEntries
    ensures WellPaired(TrimTranscript(t, maxEntries)) <==>
            TrimsNothing(t, maxEntries) || t[TrimCut(t, maxEntries)].role != Tool
  {
    var system := t[0].role == System;
    if TrimsNothing(t, maxEntries) {
      TrimWithoutCut(t, maxEntries);
    } else {
      var cut := TrimCut(t, maxEntries);
      SuffixPaired(t, cut);
      if system {
        assert TrimTranscript(t, maxEntries)[1..] == t[cut..];
      }
    }
  }

  lemma TrimWithoutCut(t: seq<Entry>, maxEntries: nat)
    requires WellPaired(t) && |t| > maxEntries && TrimsNothing(t, maxEntries)
    ensures WellPaired(TrimTranscript(t, maxEntries))
  {
    if maxEntries == 1 {
      assert TrimTranscript(t, 1)[1..] == t;
    } else {
      assert TrimTranscript(t, 0) == t;
    }
  }
}
