/** The streaming loop of src/agents/providers/openai.ts: text deltas are passed on as
    they come, tool-call deltas are gathered by index and flushed when the stream ends;
    one kind of server error is turned back into the tool call it complains about. */
module OpenAiDeltas {
  import JsonScan
  import opened Text
  import opened Streams

  /** One entry of delta.tool_calls. An absent field is the empty string: the source
      treats the two alike. */
  datatype Delta = Delta(index: int, id: string, name: string, arguments: string)

  datatype Chunk = Chunk(content: string, deltas: seq<Delta>)

  // ------------------------------------------------------------ what deltas mean

  /** The subsequence for one index. */
  function Of(deltas: seq<Delta>, index: int): seq<Delta> {
    if deltas == [] then []
    else Of(deltas[..|deltas| - 1], index)
         + if deltas[|deltas| - 1].index == index then [deltas[|deltas| - 1]] else []
  }

  function Ids(deltas: seq<Delta>): seq<string> {
    seq(|deltas|, k requires 0 <= k < |deltas| => deltas[k].id)
  }

  function Names(deltas: seq<Delta>): seq<string> {
    seq(|deltas|, k requires 0 <= k < |deltas| => deltas[k].name)
  }

  function Fragments(deltas: seq<Delta>): seq<string> {
    seq(|deltas|, k requires 0 <= k < |deltas| => deltas[k].arguments)
  }

  function FirstNonEmpty(texts: seq<string>): string {
    if texts == [] then ""
    else if texts[0] != "" then texts[0]
    else FirstNonEmpty(texts[1..])
  }

  /** The call that the deltas of one index spell. */
  function Meant(deltas: seq<Delta>): ToolCall {
    ToolCall(FirstNonEmpty(Ids(deltas)), FirstNonEmpty(Names(deltas)), Join(Fragments(deltas)))
  }

  function Indices(deltas: seq<Delta>): set<int> {
    set k | 0 <= k < |deltas| :: deltas[k].index
  }

  /** What the table of pending calls holds once `deltas` have arrived. */
  ghost predicate Gathered(pending: map<int, ToolCall>, deltas: seq<Delta>) {
    && (forall index :: index in pending <==> Of(deltas, index) != [])
    && (forall index :: index in pending ==> pending[index] == Meant(Of(deltas, index)))
  }

  function Pended(deltas: seq<Delta>): map<int, ToolCall> {
    map index | index in Indices(deltas) :: Meant(Of(deltas, index))
  }

  /** The keys of the table in the order in which they were first set. */
  function Arrivals(deltas: seq<Delta>): seq<int> {
    if deltas == [] then []
    else
      var before, index := Arrivals(deltas[..|deltas| - 1]), deltas[|deltas| - 1].index;
      if index in before then before else before + [index]
  }

  lemma {:induction false} FirstNonEmptySnoc(texts: seq<string>, last: string)
    ensures FirstNonEmpty(texts + [last]) == if FirstNonEmpty(texts) != "" then FirstNonEmpty(texts) else last
  {
    if texts == [] {
    } else {
      assert (texts + [last])[1..] == texts[1..] + [last];
      FirstNonEmptySnoc(texts[1..], last);
    }
  }

  lemma MeantSnoc(deltas: seq<Delta>, d: Delta)
    ensures Meant(deltas + [d]) == ToolCall(
      if Meant(deltas).id != "" then Meant(deltas).id else d.id,
      if Meant(deltas).name != "" then Meant(deltas).name else d.name,
      Meant(deltas).arguments + d.arguments)
  {
    assert Ids(deltas + [d]) == Ids(deltas) + [d.id];
    assert Names(deltas + [d]) == Names(deltas) + [d.name];
    assert Fragments(deltas + [d]) == Fragments(deltas) + [d.arguments];
    FirstNonEmptySnoc(Ids(deltas), d.id);
    FirstNonEmptySnoc(Names(deltas), d.name);
    JoinSnoc(Fragments(deltas), d.arguments);
  }

  lemma OfSnoc(deltas: seq<Delta>, d: Delta, index: int)
    ensures Of(deltas + [d], index) == Of(deltas, index) + if d.index == index then [d] else []
  {
    assert (deltas + [d])[..|deltas|] == deltas;
  }

  lemma IndicesSnoc(deltas: seq<Delta>, d: Delta)
    ensures Indices(deltas + [d]) == Indices(deltas) + {d.index}
  {
    var all := deltas + [d];
    forall index | index in Indices(deltas) + {d.index} ensures index in Indices(all) {
      if index == d.index {
        assert all[|deltas|].index == index;
      } else {
        var k :| 0 <= k < |deltas| && deltas[k].index == index;
        assert all[k].index == index;
      }
    }
  }

  lemma {:induction false} SeenIffSome(deltas: seq<Delta>, index: int)
    ensures index in Indices(deltas) <==> Of(deltas, index) != []
  {
    if deltas != [] {
      var front, d := deltas[..|deltas| - 1], deltas[|deltas| - 1];
      assert deltas == front + [d];
      SeenIffSome(front, index);
      OfSnoc(front, d, index);
      IndicesSnoc(front, d);
    }
  }

  lemma GatherOne(pending: map<int, ToolCall>, deltas: seq<Delta>, d: Delta, call: ToolCall)
    requires Gathered(pending, deltas) && call == Meant(Of(deltas, d.index) + [d])
    ensures Gathered(pending[d.index := call], deltas + [d])
  {
    forall index
      ensures index in pending[d.index := call] <==> Of(deltas + [d], index) != []
      ensures index in pending[d.index := call] ==> pending[d.index := call][index] == Meant(Of(deltas + [d], index))
    {
      OfSnoc(deltas, d, index);
      if index != d.index {
        assert Of(deltas, index) + [] == Of(deltas, index);
      }
    }
  }

  lemma PendedIsGathered(pending: map<int, ToolCall>, deltas: seq<Delta>)
    ensures Gathered(pending, deltas) <==> pending == Pended(deltas)
  {
    forall index ensures index in Pended(deltas) <==> Of(deltas, index) != [] {
      SeenIffSome(deltas, index);
    }
    if Gathered(pending, deltas) {
      forall index ensures index in pending <==> index in Pended(deltas) {
        assert index in pending <==> Of(deltas, index) != [];
      }
    }
  }

  /** What one more delta does to an entry of the table. */
  function Extended(existing: ToolCall, tc: Delta): ToolCall {
    ToolCall(if tc.id != "" && existing.id == "" then tc.id else existing.id,
             if tc.name != "" && existing.name == "" then tc.name else existing.name,
             existing.arguments + tc.arguments)
  }

  lemma ExtendedMeans(pending: map<int, ToolCall>, deltas: seq<Delta>, tc: Delta)
    requires Gathered(pending, deltas)
    ensures Meant(Of(deltas, tc.index) + [tc]) ==
            if tc.index in pending then Extended(pending[tc.index], tc) else ToolCall(tc.id, tc.name, tc.arguments)
  {
    MeantSnoc(Of(deltas, tc.index), tc);
    if tc.index !in pending {
      assert Meant([]) == ToolCall("", "", "");
      assert Of(deltas, tc.index) == [];
    }
  }

  /** The table's next state is its meaning's next state. */
  lemma PendedSnoc(deltas: seq<Delta>, tc: Delta)
    ensures var before := Pended(deltas);
            Pended(deltas + [tc]) == before[tc.index :=
              if tc.index in before then Extended(before[tc.index], tc) else ToolCall(tc.id, tc.name, tc.arguments)]
  {
    var before, call := Pended(deltas), Meant(Of(deltas, tc.index) + [tc]);
    PendedIsGathered(before, deltas);
    ExtendedMeans(before, deltas, tc);
    GatherOne(before, deltas, tc, call);
    PendedIsGathered(before[tc.index := call], deltas + [tc]);
  }

  lemma {:induction false} ArrivalsAreIndices(deltas: seq<Delta>)
    ensures forall index :: index in Arrivals(deltas) <==> index in Indices(deltas)
    ensures deltas != [] ==> Arrivals(deltas) != [] && Arrivals(deltas)[0] == deltas[0].index
  {
    if deltas != [] {
      var front, d := deltas[..|deltas| - 1], deltas[|deltas| - 1];
      assert deltas == front + [d];
      ArrivalsAreIndices(front);
      IndicesSnoc(front, d);
      assert front == [] ==> Indices(front) == {} && Arrivals(front) == [];
    }
  }

  /** Table and arrivals with one more delta taken in. */
  function Entered(pending: map<int, ToolCall>, tc: Delta): map<int, ToolCall> {
    pending[tc.index :=
      if tc.index in pending then Extended(pending[tc.index], tc) else ToolCall(tc.id, tc.name, tc.arguments)]
  }

  function Noted(arrivals: seq<int>, known: bool, index: int): seq<int> {
    if known then arrivals else arrivals + [index]
  }

  lemma TableSnoc(deltas: seq<Delta>, tc: Delta)
    ensures Pended(deltas + [tc]) == Entered(Pended(deltas), tc)
    ensures Arrivals(deltas + [tc]) == Noted(Arrivals(deltas), tc.index in Pended(deltas), tc.index)
  {
    PendedSnoc(deltas, tc);
    ArrivalsSnoc(deltas, tc);
  }

  lemma ArrivalsSnoc(deltas: seq<Delta>, d: Delta)
    ensures Arrivals(deltas + [d]) == if d.index in Pended(deltas) then Arrivals(deltas) else Arrivals(deltas) + [d.index]
  {
    assert (deltas + [d])[..|deltas|] == deltas;
    ArrivalsAreIndices(deltas);
  }

  // ------------------------------------------------------------ flushing

  lemma {:induction false} HasLeast(s: set<int>)
    requires exists x :: x in s
    ensures exists least :: least in s && forall x :: x in s ==> least <= x
    decreases |s|
  {
    var pick :| pick in s;
    if other :| other in s - {pick} {
      HasLeast(s - {pick});
      var low :| low in s - {pick} && forall x :: x in s - {pick} ==> low <= x;
      var least := if low < pick then low else pick;
      assert forall x :: x in s ==> x == pick || x in s - {pick};
      assert least in s && forall x :: x in s ==> least <= x;
    } else {
      assert forall x :: x in s ==> x == pick || x in s - {pick};
    }
  }

  predicate StrictlyAscending(order: seq<int>) {
    forall j, k :: 0 <= j < k < |order| ==> order[j] < order[k]
  }

  /** Sorting the table's entries by index; the keys of a table are distinct. */
  function Ascending(s: set<int>): (order: seq<int>)
    ensures StrictlyAscending(order)
    ensures forall x :: x in order <==> x in s
  {
    if !(exists x :: x in s) then []
    else
      HasLeast(s);
      var least :| least in s && forall x :: x in s ==> least <= x;
      [least] + Ascending(s - {least})
  }

  /** A set has only one ascending listing. */
  lemma {:induction false} AscendingIsUnique(a: seq<int>, b: seq<int>)
    requires StrictlyAscending(a) && StrictlyAscending(b)
    requires forall x :: x in a <==> x in b
    ensures a == b
  {
    assert a != [] ==> a[0] in a;
    assert b != [] ==> b[0] in b;
    if a == [] {
    } else {
      assert a[0] == b[0];
      forall x ensures x in a[1..] <==> x in b[1..] {
        assert x in a[1..] <==> x in a && x != a[0];
        assert x in b[1..] <==> x in b && x != b[0];
      }
      AscendingIsUnique(a[1..], b[1..]);
    }
  }

  /** The calls of the tool_call event. */
  function Flushed(deltas: seq<Delta>): seq<ToolCall> {
    var order := Ascending(Indices(deltas));
    seq(|order|, k requires 0 <= k < |order| => Meant(Of(deltas, order[k])))
  }

  function AllDeltas(chunks: seq<Chunk>): seq<Delta> {
    if chunks == [] then [] else AllDeltas(chunks[..|chunks| - 1]) + chunks[|chunks| - 1].deltas
  }

  function Contents(chunks: seq<Chunk>): seq<string> {
    if chunks == [] then []
    else Contents(chunks[..|chunks| - 1]) + if chunks[|chunks| - 1].content != "" then [chunks[|chunks| - 1].content] else []
  }

  function AsTokens(texts: seq<string>): seq<StreamEvent> {
    seq(|texts|, k requires 0 <= k < |texts| => Token(texts[k]))
  }

  // ------------------------------------------------------------ rescuing a call

  datatype Tool = Tool(name: string, params: seq<string>)

  /** What the stream may throw. `refusesToolCall` says that it is an API error with
      status 500 whose message includes "error parsing tool call". */
  datatype Fault = Fault(error: ProviderError, refusesToolCall: bool)

  /** The request's tools, JSON.parse seen as the keys of the object it reads (None when
      it throws), and the clock's stamp. */
  datatype Context = Context(tools: seq<Tool>, parse: string -> Option<set<string>>, stamp: string)

  function Hits(params: seq<string>, keys: set<string>): nat {
    if params == [] then 0
    else Hits(params[..|params| - 1], keys) + if params[|params| - 1] in keys then 1 else 0
  }

  predicate FitsBest(tools: seq<Tool>, keys: set<string>, best: nat) {
    && best < |tools| && Hits(tools[best].params, keys) > 0
    && (forall j :: best < j < |tools| ==> Hits(tools[j].params, keys) <= Hits(tools[best].params, keys))
    && (forall j :: 0 <= j < best ==> Hits(tools[j].params, keys) < Hits(tools[best].params, keys))
  }

  /** The tool sharing most parameter names with the arguments, the first of equals;
      the empty name if none shares any. */
  method BestMatch(tools: seq<Tool>, keys: set<string>) returns (name: string)
    ensures forall best: nat :: FitsBest(tools, keys, best) ==> name == tools[best].name
    ensures (forall j :: 0 <= j < |tools| ==> Hits(tools[j].params, keys) == 0) ==> name == ""
    ensures name == FittingName(tools, keys)
  {
    var bestScore: nat := 0;
    ghost var at: nat := 0;
    name := "";
    for i := 0 to |tools|
      invariant forall j :: 0 <= j < i ==> Hits(tools[j].params, keys) <= bestScore
      invariant bestScore == 0 ==> name == ""
      invariant bestScore > 0 ==> at < i && name == tools[at].name && Hits(tools[at].params, keys) == bestScore
      invariant bestScore > 0 ==> forall j :: 0 <= j < at ==> Hits(tools[j].params, keys) < bestScore
    {
      var hits := CountHits(tools[i].params, keys);
      if hits > bestScore {
        bestScore := hits;
        name := tools[i].name;
        at := i;
      }
    }
    assert tools[..|tools|] == tools;
  }

  method CountHits(params: seq<string>, keys: set<string>) returns (hits: nat)
    ensures hits == Hits(params, keys)
  {
    hits := 0;
    for i := 0 to |params|
      invariant hits == Hits(params[..i], keys)
    {
      assert params[..i + 1][..i] == params[..i];
      if params[i] in keys {
        hits := hits + 1;
      }
    }
    assert params[..|params|] == params;
  }

  /** The best fit seen from the first `n` tools. */
  function Fit(tools: seq<Tool>, keys: set<string>, n: nat): (best: Option<nat>)
    requires n <= |tools|
    ensures best.Some? ==> best.value < n && FitsBest(tools[..n], keys, best.value)
    ensures best.None? ==> forall j :: 0 <= j < n ==> Hits(tools[j].params, keys) == 0
  {
    if n == 0 then None
    else
      var before := Fit(tools, keys, n - 1);
      var score := if before.Some? then Hits(tools[before.value].params, keys) else 0;
      if Hits(tools[n - 1].params, keys) > score then Some(n - 1) else before
  }

  function FittingName(tools: seq<Tool>, keys: set<string>): string {
    match Fit(tools, keys, |tools|)
    case Some(best) => tools[best].name
    case None => ""
  }

  /** The name that the first call to arrive has been given so far. */
  function FirstPendingName(deltas: seq<Delta>): string {
    if deltas == [] then "" else Meant(Of(deltas, deltas[0].index)).name
  }

  /** The name a rescued call gets; the empty name if there is none to be had. */
  function RescuedName(deltas: seq<Delta>, tools: seq<Tool>, keys: set<string>): string {
    if FirstPendingName(deltas) != "" then FirstPendingName(deltas) else FittingName(tools, keys)
  }

  /** The tool call that an error message gives away, if any. */
  function Rescued(fault: Fault, deltas: seq<Delta>, context: Context): Option<ToolCall> {
    if !fault.refusesToolCall then None
    else
      match JsonScan.Extract(fault.error.message)
      case None => None
      case Some(json) =>
        match context.parse(json)
        case None => None
        case Some(keys) =>
          var name := RescuedName(deltas, context.tools, keys);
          if name == "" then None else Some(ToolCall(RescuedId(context), name, json))
  }

  function RescuedId(context: Context): string {
    "call_rescued_" + context.stamp
  }

  // ------------------------------------------------------------ the stream

  /** The events of one call of `stream`: `chunks` arrive, and then the connection
      closes or something is thrown. */
  function Reply(chunks: seq<Chunk>, fault: Option<Fault>, context: Context): seq<StreamEvent> {
    AsTokens(Contents(chunks)) + Ending(chunks, fault, context)
  }

  /** What follows the tokens. */
  function Ending(chunks: seq<Chunk>, fault: Option<Fault>, context: Context): seq<StreamEvent> {
    var text, deltas := Contents(chunks), AllDeltas(chunks);
    if fault.None? then
      (if deltas == [] then [] else [ToolCalls(Flushed(deltas))]) + [Done(Join(text))]
    else
      match Rescued(fault.value, deltas, context)
      case Some(call) => [ToolCalls([call]), Done(Join(text))]
      case None => [Failure(fault.value.error)]
  }

  lemma ContentsSnoc(chunks: seq<Chunk>, chunk: Chunk)
    ensures Join(Contents(chunks + [chunk])) == Join(Contents(chunks)) + chunk.content
    ensures Contents(chunks + [chunk]) == Contents(chunks) + if chunk.content != "" then [chunk.content] else []
    ensures AllDeltas(chunks + [chunk]) == AllDeltas(chunks) + chunk.deltas
  {
    assert (chunks + [chunk])[..|chunks|] == chunks;
    JoinSnoc(Contents(chunks), chunk.content);
    if chunk.content == "" {
      assert Contents(chunks) + [] == Contents(chunks);
      assert Join(Contents(chunks)) + "" == Join(Contents(chunks));
    }
  }

  function Spoken(chunks: seq<Chunk>): seq<string> {
    seq(|chunks|, k requires 0 <= k < |chunks| => chunks[k].content)
  }

  lemma {:induction false} ContentsAreSpoken(chunks: seq<Chunk>)
    ensures Join(Contents(chunks)) == Join(Spoken(chunks))
    ensures "" !in Contents(chunks)
  {
    if chunks != [] {
      var front, last := chunks[..|chunks| - 1], chunks[|chunks| - 1];
      assert chunks == front + [last];
      ContentsAreSpoken(front);
      ContentsSnoc(front, last);
      JoinSnoc(Spoken(front), last.content);
      assert Spoken(chunks) == Spoken(front) + [last.content];
    }
  }

  lemma {:induction false} DeltasAppend(a: seq<Chunk>, b: seq<Chunk>)
    ensures AllDeltas(a + b) == AllDeltas(a) + AllDeltas(b)
    decreases |b|
  {
    if b == [] {
      assert a + b == a;
    } else {
      var front, last := b[..|b| - 1], b[|b| - 1];
      assert a + b == a + front + [last];
      DeltasAppend(a, front);
      ContentsSnoc(a + front, last);
      ContentsSnoc(front, last);
      assert b == front + [last];
      Regroup(AllDeltas(a), AllDeltas(front), last.deltas);
    }
  }

  lemma {:induction false} TokensOfTokens(texts: seq<string>)
    ensures Tokens(AsTokens(texts)) == texts
  {
    if texts != [] {
      assert AsTokens(texts)[1..] == AsTokens(texts[1..]);
      TokensOfTokens(texts[1..]);
    }
  }

  /** The tokens spell just what the chunks say, none of them empty, whatever else comes
      and however the stream ends. */
  lemma TokensSpellTheChunks(chunks: seq<Chunk>, fault: Option<Fault>, context: Context)
    ensures var tokens := Tokens(Reply(chunks, fault, context));
            Join(tokens) == Join(Spoken(chunks)) && "" !in tokens
  {
    var texts := Contents(chunks);
    var ending := EndingIsSilent(chunks, fault, context);
    ContentsAreSpoken(chunks);
    TokensAppend(AsTokens(texts), ending);
    TokensOfTokens(texts);
    assert texts + [] == texts;
  }

  lemma EndingIsSilent(chunks: seq<Chunk>, fault: Option<Fault>, context: Context) returns (ending: seq<StreamEvent>)
    ensures ending == Ending(chunks, fault, context) && Tokens(ending) == []
  {
    ending := Ending(chunks, fault, context);
    NoTokens(ending);
  }

  lemma NoTokens(events: seq<StreamEvent>)
    requires |events| <= 2 && forall k :: 0 <= k < |events| ==> !events[k].Token?
    ensures Tokens(events) == []
  {
    if events != [] {
      assert events[0] == events[..1][0];
      assert |events| == 2 ==> events[1..][0] == events[1] && events[1..][1..] == [];
    }
  }

  lemma EmptyTable(deltas: seq<Delta>)
    ensures Pended(deltas) == map[] <==> deltas == []
  {
    assert deltas != [] ==> deltas[0].index in Pended(deltas);
  }

  /** The entries of a table in ascending order of their keys. */
  function Entries(pending: map<int, ToolCall>): seq<ToolCall> {
    var order := Ascending(pending.Keys);
    seq(|order|, k requires 0 <= k < |order| => assert order[k] in pending.Keys; pending[order[k]])
  }

  lemma FlushedIsEntries(deltas: seq<Delta>)
    ensures Flushed(deltas) == Entries(Pended(deltas))
  {
    var pending, order := Pended(deltas), Ascending(Indices(deltas));
    assert pending.Keys == Indices(deltas);
    forall k | 0 <= k < |order| ensures pending[order[k]] == Meant(Of(deltas, order[k])) {
      assert order[k] in order;
      PendedAt(deltas, order[k]);
    }
    assert Flushed(deltas) == Entries(pending);
  }

  lemma PendedAt(deltas: seq<Delta>, index: int)
    requires index in Indices(deltas)
    ensures index in Pended(deltas) && Pended(deltas)[index] == Meant(Of(deltas, index))
  {
  }

  method SortEntries(pending: map<int, ToolCall>) returns (toolCalls: seq<ToolCall>)
    ensures toolCalls == Entries(pending)
  {
    var order := Ascending(pending.Keys);
    toolCalls := [];
    for k := 0 to |order|
      invariant toolCalls == Entries(pending)[..k]
    {
      assert order[k] in pending.Keys;
      toolCalls := toolCalls + [pending[order[k]]];
    }
  }

  class OpenAiStream {
    var pending: map<int, ToolCall>
    var arrivals: seq<int>  // the keys of the pending table in the order they were set
    var fullText: string
    var events: seq<StreamEvent>

    constructor ()
      ensures Idle()
    {
      pending, arrivals, fullText, events := map[], [], "", [];
    }

    ghost predicate Idle()
      reads this
    {
      pending == map[] && arrivals == [] && fullText == "" && events == []
    }

    ghost predicate Holds(seen: seq<Delta>)
      reads this
    {
      pending == Pended(seen) && arrivals == Arrivals(seen)
    }

    method Accumulate(tc: Delta)
      modifies this`pending, this`arrivals
      ensures pending == Entered(old(pending), tc)
      ensures arrivals == Noted(old(arrivals), tc.index in old(pending), tc.index)
    {
      if tc.index in pending {
        var existing := pending[tc.index];
        if tc.id != "" && existing.id == "" {
          existing := existing.(id := tc.id);
        }
        if tc.name != "" && existing.name == "" {
          existing := existing.(name := tc.name);
        }
        if tc.arguments != "" {
          existing := existing.(arguments := existing.arguments + tc.arguments);
        }
        assert existing == Extended(pending[tc.index], tc);
        pending := pending[tc.index := existing];
      } else {
        pending := pending[tc.index := ToolCall(tc.id, tc.name, tc.arguments)];
        arrivals := arrivals + [tc.index];
      }
    }

    method AccumulateNext(tc: Delta, ghost seen: seq<Delta>)
      requires Holds(seen)
      modifies this`pending, this`arrivals
      ensures Holds(seen + [tc])
    {
      TableSnoc(seen, tc);
      Accumulate(tc);
    }

    method AccumulateAll(deltas: seq<Delta>, ghost seen: seq<Delta>)
      requires Holds(seen)
      modifies this`pending, this`arrivals
      ensures Holds(seen + deltas)
    {
      ghost var all := seen;
      for i := 0 to |deltas|
        invariant all == seen + deltas[..i]
        invariant Holds(all)
      {
        AccumulateNext(deltas[i], all);
        all := all + [deltas[i]];
        Regroup(seen, deltas[..i], [deltas[i]]);
        assert deltas[..i] + [deltas[i]] == deltas[..i + 1];
      }
      assert deltas[..|deltas|] == deltas;
    }

    method TakeChunk(chunk: Chunk, ghost seen: seq<Delta>)
      requires Holds(seen)
      modifies this
      ensures Holds(seen + chunk.deltas)
      ensures fullText == old(fullText) + chunk.content
      ensures events == old(events) + if chunk.content != "" then [Token(chunk.content)] else []
    {
      if chunk.content != "" {
        fullText := fullText + chunk.content;
        events := events + [Token(chunk.content)];
      }
      AccumulateAll(chunk.deltas, seen);
    }

    method Flush()
      modifies this
      ensures pending == map[] && fullText == old(fullText)
      ensures events == old(events) + if old(pending) == map[] then [] else [ToolCalls(Entries(old(pending)))]
    {
      if |pending| > 0 {
        var toolCalls := SortEntries(pending);
        events := events + [ToolCalls(toolCalls)];
        pending, arrivals := map[], [];
      }
    }

    method RescueToolCall(fault: Fault, context: Context, ghost seen: seq<Delta>) returns (rescued: Option<ToolCall>)
      requires Holds(seen)
      ensures rescued == Rescued(fault, seen, context)
    {
      if !fault.refusesToolCall {
        return None;
      }
      var json := JsonScan.ExtractJsonObject(fault.error.message);
      if json.None? {
        return None;
      }
      var keys := context.parse(json.value);
      if keys.None? {
        return None;
      }
      var name := PendingName(seen);
      if name == "" {
        name := BestMatch(context.tools, keys.value);
      }
      rescued := if name == "" then None else Some(ToolCall(RescuedId(context), name, json.value));
    }

    method PendingName(ghost seen: seq<Delta>) returns (name: string)
      requires Holds(seen)
      ensures name == FirstPendingName(seen)
    {
      EmptyTable(seen);
      ArrivalsAreIndices(seen);
      name := if |pending| > 0 then pending[arrivals[0]].name else "";
    }

    method Read(chunks: seq<Chunk>)
      requires Idle()
      modifies this
      ensures Holds(AllDeltas(chunks))
      ensures fullText == Join(Contents(chunks)) && events == AsTokens(Contents(chunks))
    {
      var i := 0;
      while i < |chunks|
        invariant 0 <= i <= |chunks|
        invariant Holds(AllDeltas(chunks[..i]))
        invariant fullText == Join(Contents(chunks[..i])) && events == AsTokens(Contents(chunks[..i]))
      {
        assert chunks[..i + 1] == chunks[..i] + [chunks[i]];
        ContentsSnoc(chunks[..i], chunks[i]);
        TakeChunk(chunks[i], AllDeltas(chunks[..i]));
        i := i + 1;
      }
      assert chunks[..i] == chunks;
    }

    method Stream(chunks: seq<Chunk>, fault: Option<Fault>, context: Context)
      requires Idle()
      modifies this
      ensures events == Reply(chunks, fault, context)
    {
      Read(chunks);
      if fault.Some? {
        Recover(fault.value, context, chunks);
      } else {
        Close(context, chunks);
      }
    }

    /** What follows an exception. */
    method Recover(fault: Fault, context: Context, ghost chunks: seq<Chunk>)
      requires Holds(AllDeltas(chunks)) && fullText == Join(Contents(chunks))
      modifies this`events
      ensures events == old(events) + Ending(chunks, Some(fault), context)
    {
      var rescued := RescueToolCall(fault, context, AllDeltas(chunks));
      if rescued.Some? {
        events := events + [ToolCalls([rescued.value]), Done(fullText)];
        return;
      }
      events := events + [Failure(fault.error)];
    }

    /** What follows the last chunk. */
    method Close(ghost context: Context, ghost chunks: seq<Chunk>)
      requires Holds(AllDeltas(chunks)) && fullText == Join(Contents(chunks))
      modifies this
      ensures events == old(events) + Ending(chunks, None, context)
    {
      EmptyTable(AllDeltas(chunks));
      FlushedIsEntries(AllDeltas(chunks));
      ghost var before, flushed := events, if pending == map[] then [] else [ToolCalls(Entries(pending))];
      Flush();
      events := events + [Done(fullText)];
      Regroup(before, flushed, [Done(fullText)]);
    }
  }

  // ------------------------------------------------------------ what it is for

  /** How the deltas of different calls are interleaved does not matter. */
  lemma InterleavingIsIrrelevant(a: seq<Delta>, b: seq<Delta>)
    requires forall index :: Of(a, index) == Of(b, index)
    ensures Flushed(a) == Flushed(b) && (a == [] <==> b == [])
  {
    forall index ensures index in Indices(a) <==> index in Indices(b) {
      SeenIffSome(a, index);
      SeenIffSome(b, index);
    }
    assert Indices(a) == Indices(b);
    assert a != [] ==> a[0].index in Indices(b);
    assert b != [] ==> b[0].index in Indices(a);
  }

  /** The keys of the arguments that an error message gives away. */
  function GivenAway(fault: Option<Fault>, context: Context): Option<set<string>> {
    if fault.None? || !fault.value.refusesToolCall then None
    else
      match JsonScan.Extract(fault.value.error.message)
      case None => None
      case Some(json) => context.parse(json)
  }

  /** The same for whole streams: with the same text and, for each index, the same
      deltas, the terminal events are the same however the provider cuts its chunks,
      whether the stream closes or breaks, with one exception: a call is rescued, and
      the index that arrived first bears another name. */
  lemma ChunkingIsIrrelevant(a: seq<Chunk>, b: seq<Chunk>, fault: Option<Fault>, context: Context)
    requires Join(Contents(a)) == Join(Contents(b))
    requires forall index :: Of(AllDeltas(a), index) == Of(AllDeltas(b), index)
    ensures Ending(a, fault, context) == Ending(b, fault, context) <==>
            var keys := GivenAway(fault, context);
            keys.Some? ==> RescuedName(AllDeltas(a), context.tools, keys.value)
                           == RescuedName(AllDeltas(b), context.tools, keys.value)
  {
    InterleavingIsIrrelevant(AllDeltas(a), AllDeltas(b));
    var text, keys := Join(Contents(a)), GivenAway(fault, context);
    EndingIs(a, fault, context);
    EndingIs(b, fault, context);
    if keys.Some? {
      var json := JsonScan.Extract(fault.value.error.message).value;
      var x := RescuedName(AllDeltas(a), context.tools, keys.value);
      var y := RescuedName(AllDeltas(b), context.tools, keys.value);
      AfterRescueTells(x, y, json, fault.value, text, context);
    }
  }

  /** What follows the tokens when the message gives a call away. */
  function AfterRescue(name: string, json: string, fault: Fault, text: string, context: Context): seq<StreamEvent> {
    if name == "" then [Failure(fault.error)]
    else [ToolCalls([ToolCall(RescuedId(context), name, json)]), Done(text)]
  }

  lemma EndingIs(chunks: seq<Chunk>, fault: Option<Fault>, context: Context)
    ensures var text, deltas, keys := Join(Contents(chunks)), AllDeltas(chunks), GivenAway(fault, context);
            Ending(chunks, fault, context) ==
            if fault.None? then (if deltas == [] then [] else [ToolCalls(Flushed(deltas))]) + [Done(text)]
            else if keys.None? then [Failure(fault.value.error)]
            else AfterRescue(RescuedName(deltas, context.tools, keys.value),
                             JsonScan.Extract(fault.value.error.message).value, fault.value, text, context)
  {
  }

  lemma AfterRescueTells(x: string, y: string, json: string, fault: Fault, text: string, context: Context)
    ensures AfterRescue(x, json, fault, text, context) == AfterRescue(y, json, fault, text, context) <==> x == y
  {
    var a, b := AfterRescue(x, json, fault, text, context), AfterRescue(y, json, fault, text, context);
    assert a == b ==> a[0] == b[0];
  }

  /** And it happens: of two calls under way the one that arrived first gives its name
      to the rescued call, so swapping two deltas makes another tool run. */
  lemma FirstArrivalNamesTheRescue(first: string, second: string, fault: Fault, context: Context)
    requires first != second && first != "" && second != "" && GivenAway(Some(fault), context).Some?
    ensures var x, y := Delta(0, "", first, ""), Delta(1, "", second, "");
            && (forall index :: Of([x, y], index) == Of([y, x], index))
            && Ending([Chunk("", [x, y])], Some(fault), context) != Ending([Chunk("", [y, x])], Some(fault), context)
  {
    var x, y := Delta(0, "", first, ""), Delta(1, "", second, "");
    var a, b := [Chunk("", [x, y])], [Chunk("", [y, x])];
    PairIs(x, y);
    PairIs(y, x);
    OneChunk(Chunk("", [x, y]));
    OneChunk(Chunk("", [y, x]));
    MeantSnoc([], x);
    MeantSnoc([], y);
    assert [] + [x] == [x] && [] + [y] == [y];
    ChunkingIsIrrelevant(a, b, Some(fault), context);
  }

  lemma PairIs(x: Delta, y: Delta)
    requires x.index != y.index
    ensures Of([x, y], x.index) == [x] && Of([x, y], y.index) == [y]
    ensures forall index :: index != x.index && index != y.index ==> Of([x, y], index) == []
  {
    forall index
      ensures Of([x, y], index) == if x.index == index then [x] else if y.index == index then [y] else []
    {
      OfPair(x, y, index);
    }
  }

  lemma OfPair(x: Delta, y: Delta, index: int)
    requires x.index != y.index
    ensures Of([x, y], index) == if x.index == index then [x] else if y.index == index then [y] else []
  {
    assert [x, y] == [x] + [y];
    OfSnoc([x], y, index);
    OfOne(x, index);
  }

  lemma OfOne(x: Delta, index: int)
    ensures Of([x], index) == if x.index == index then [x] else []
  {
    assert [] + [x] == [x] && [x][..0] == [];
    assert Of([], index) == [];
  }

  lemma OneChunk(chunk: Chunk)
    ensures AllDeltas([chunk]) == chunk.deltas && Join(Contents([chunk])) == chunk.content
  {
    assert [] + [chunk] == [chunk];
    ContentsSnoc([], chunk);
    assert AllDeltas([]) == [] && Contents([]) == [];
    assert [] + chunk.deltas == chunk.deltas && Join([]) + chunk.content == chunk.content;
  }

  /** The deltas of one index spell a call: fragments of its arguments in order, its id
      and its name each on at least one of them, in whatever order, and on no delta
      another id or name. */
  predicate Spell(deltas: seq<Delta>, call: ToolCall) {
    && Once(Ids(deltas), call.id) && Once(Names(deltas), call.name)
    && Join(Fragments(deltas)) == call.arguments
  }

  predicate Once(texts: seq<string>, text: string) {
    text in texts && forall k :: 0 <= k < |texts| ==> texts[k] == "" || texts[k] == text
  }

  lemma {:induction false} OnceIsFirst(texts: seq<string>, text: string)
    requires Once(texts, text)
    ensures FirstNonEmpty(texts) == text
  {
    if texts[0] == "" && |texts| > 1 {
      assert texts[1..][0] == texts[1];
      OnceIsFirst(texts[1..], text);
    }
  }

  lemma SpeltIsMeant(deltas: seq<Delta>, call: ToolCall)
    requires Spell(deltas, call)
    ensures Meant(deltas) == call && deltas != []
  {
    OnceIsFirst(Ids(deltas), call.id);
    OnceIsFirst(Names(deltas), call.name);
  }

  /** Round trip: the calls that a provider spells under the indices 0, 1, 2, ... come
      out as they were meant, in that order, from every interleaving of their deltas. */
  lemma SentIsFlushed(sent: seq<ToolCall>, deltas: seq<Delta>)
    requires forall i :: 0 <= i < |sent| ==> Spell(Of(deltas, i), sent[i])
    requires forall i :: !(0 <= i < |sent|) ==> Of(deltas, i) == []
    ensures Flushed(deltas) == sent
  {
    var order := Ascending(Indices(deltas));
    var upTo := seq(|sent|, i => i);
    forall x ensures x in upTo <==> x in order {
      SeenIffSome(deltas, x);
      if 0 <= x < |sent| {
        SpeltIsMeant(Of(deltas, x), sent[x]);
        assert upTo[x] == x;
      }
    }
    AscendingIsUnique(order, upTo);
    forall i | 0 <= i < |sent| ensures Flushed(deltas)[i] == sent[i] {
      assert order[i] == i;
      SpeltIsMeant(Of(deltas, i), sent[i]);
    }
  }

  lemma {:induction false} TokensOfTexts(texts: seq<string>, rest: seq<StreamEvent>)
    ensures Tokens(AsTokens(texts) + rest) == texts + Tokens(rest)
  {
    if texts == [] {
      assert AsTokens(texts) + rest == rest;
    } else {
      assert (AsTokens(texts) + rest)[1..] == AsTokens(texts[1..]) + rest;
      TokensOfTexts(texts[1..], rest);
    }
  }

  /** A stream ends with one terminal event, and the text that `done` reports is what
      the tokens spelled. It fails exactly when something is thrown that cannot be
      turned into a call, and then it gives no tool calls at all, however complete
      the gathered ones were. */
  lemma DoneRepeatsTheTokens(chunks: seq<Chunk>, fault: Option<Fault>, context: Context)
    ensures var events := Reply(chunks, fault, context);
            var failed := fault.Some? && Rescued(fault.value, AllDeltas(chunks), context).None?;
            && (!failed ==> events[|events| - 1] == Done(Join(Tokens(events))))
            && (failed ==> events[|events| - 1] == Failure(fault.value.error))
            && (failed ==> forall k :: 0 <= k < |events| - 1 ==> events[k].Token?)
            && (forall k :: 0 <= k < |events| - 1 ==> !events[k].Done? && !events[k].Failure?)
  {
    TailHasNoTokens(Contents(chunks), Ending(chunks, fault, context));
  }

  lemma TailHasNoTokens(text: seq<string>, rest: seq<StreamEvent>)
    requires |rest| == 1 || (|rest| == 2 && rest[0].ToolCalls?)
    requires !rest[|rest| - 1].Token?
    ensures Tokens(AsTokens(text) + rest) == text
  {
    TokensOfTexts(text, rest);
    assert |rest| == 2 ==> rest[1..] == [rest[1]];
    assert Tokens([rest[|rest| - 1]]) == [];
    assert Tokens(rest) == [];
    assert text + [] == text;
  }

  lemma FittingNameIs(tools: seq<Tool>, keys: set<string>, best: nat)
    requires FitsBest(tools, keys, best)
    ensures FittingName(tools, keys) == tools[best].name
  {
    assert tools[..|tools|] == tools;
  }

  /** The delta belongs to the call and says its name. */
  predicate SaysName(deltas: seq<Delta>, index: int, k: nat) {
    k < |deltas| && deltas[k].index == index && deltas[k].name != ""
  }

  /** It is the first to do so. */
  predicate SaysNameFirst(deltas: seq<Delta>, index: int, k: nat) {
    SaysName(deltas, index, k) && forall j: nat :: j < k ==> !SaysName(deltas, index, j)
  }

  /** A call has a name as soon as one of its deltas says one. */
  lemma {:induction false} NamedOnceSaid(deltas: seq<Delta>, index: int)
    ensures Meant(Of(deltas, index)).name != "" <==> exists k: nat :: SaysName(deltas, index, k)
  {
    if deltas != [] {
      var front, d := deltas[..|deltas| - 1], deltas[|deltas| - 1];
      NamedOnceSaid(front, index);
      MeantOfSnoc(front, d, index);
      assert deltas == front + [d];
      assert forall k: nat :: k < |front| ==> (SaysName(front, index, k) <==> SaysName(deltas, index, k));
      assert SaysName(deltas, index, |front|) <==> d.index == index && d.name != "";
    }
  }

  lemma MeantOfSnoc(deltas: seq<Delta>, d: Delta, index: int)
    ensures Meant(Of(deltas + [d], index)).name ==
            if d.index == index && Meant(Of(deltas, index)).name == "" then d.name else Meant(Of(deltas, index)).name
  {
    OfSnoc(deltas, d, index);
    MeantSnoc(Of(deltas, index), d);
    assert Of(deltas, index) + [] == Of(deltas, index);
  }

  lemma {:induction false} FirstNameStays(deltas: seq<Delta>, index: int, k: nat)
    requires SaysNameFirst(deltas, index, k)
    ensures Meant(Of(deltas, index)).name == deltas[k].name
  {
    var front, d := deltas[..|deltas| - 1], deltas[|deltas| - 1];
    assert deltas == front + [d];
    MeantOfSnoc(front, d, index);
    NamedOnceSaid(front, index);
    if k < |front| {
      FirstInFront(deltas, index, k);
      FirstNameStays(front, index, k);
    } else if j: nat :| SaysName(front, index, j) {
      assert SaysName(deltas, index, j);
    }
  }

  lemma FirstInFront(deltas: seq<Delta>, index: int, k: nat)
    requires SaysNameFirst(deltas, index, k) && k < |deltas| - 1
    ensures SaysNameFirst(deltas[..|deltas| - 1], index, k)
  {
    var front := deltas[..|deltas| - 1];
    forall j: nat | j < k ensures !SaysName(front, index, j) {
      assert !SaysName(deltas, index, j);
    }
  }

  /** The name streamed first is the first that a delta of the call that arrived first
      says; there is none as long as none does, and none without deltas. */
  lemma StreamedNameIs(deltas: seq<Delta>)
    ensures deltas == [] ==> FirstPendingName(deltas) == ""
    ensures deltas != [] && (forall k: nat :: !SaysName(deltas, deltas[0].index, k)) ==> FirstPendingName(deltas) == ""
    ensures forall k: nat :: deltas != [] && SaysNameFirst(deltas, deltas[0].index, k) ==>
              FirstPendingName(deltas) == deltas[k].name
  {
    if deltas != [] {
      var index := deltas[0].index;
      NamedOnceSaid(deltas, index);
      forall k: nat | SaysNameFirst(deltas, index, k) ensures FirstPendingName(deltas) == deltas[k].name {
        FirstNameStays(deltas, index, k);
      }
    }
  }

  /** How many of the parameters are among the keys. */
  lemma {:induction false} HitsAreShared(params: seq<string>, keys: set<string>)
    ensures Hits(params, keys) == |set k | 0 <= k < |params| && params[k] in keys|
  {
    var shared := set k | 0 <= k < |params| && params[k] in keys;
    if params == [] {
      assert shared == {};
    } else {
      var front, last := params[..|params| - 1], |params| - 1;
      HitsAreShared(front, keys);
      var before := set k | 0 <= k < |front| && front[k] in keys;
      assert shared == before + if params[last] in keys then {last} else {};
      assert last !in before;
    }
  }

  /** When the server refuses a call because of the text around its arguments, the
      call is made all the same, with exactly the object that was printed into the
      message: under the name streamed first, or else under that of the tool which
      shares most parameters with it. */
  lemma RefusedCallIsRescued(noise: string, v: JsonScan.Value, tail: string, fault: Fault,
                             deltas: seq<Delta>, context: Context)
    requires v.Obj? && JsonScan.Valid(v) && '{' !in noise
    requires fault.refusesToolCall && fault.error.message == noise + JsonScan.Print(v) + tail
    requires context.parse(JsonScan.Print(v)).Some?
    ensures var tools, keys := context.tools, context.parse(JsonScan.Print(v)).value;
            var rescued, streamed := Rescued(fault, deltas, context), FirstPendingName(deltas);
            && (streamed != "" ==>
                  rescued == Some(ToolCall("call_rescued_" + context.stamp, streamed, JsonScan.Print(v))))
            && (streamed == "" ==>
                  && (forall best: nat :: FitsBest(tools, keys, best) && tools[best].name != "" ==>
                        rescued == Some(ToolCall("call_rescued_" + context.stamp, tools[best].name, JsonScan.Print(v))))
                  && ((forall j :: 0 <= j < |tools| ==> Hits(tools[j].params, keys) == 0) ==> rescued == None))
  {
    JsonScan.ExtractInvertsPrint(noise, v, tail);
    var tools, keys := context.tools, context.parse(JsonScan.Print(v)).value;
    forall best: nat | FitsBest(tools, keys, best) ensures FittingName(tools, keys) == tools[best].name {
      FittingNameIs(tools, keys, best);
    }
    if forall j :: 0 <= j < |tools| ==> Hits(tools[j].params, keys) == 0 {
      NoFit(tools, keys);
    }
  }

  lemma NoFit(tools: seq<Tool>, keys: set<string>)
    requires forall j :: 0 <= j < |tools| ==> Hits(tools[j].params, keys) == 0
    ensures FittingName(tools, keys) == ""
  {
    assert tools[..|tools|] == tools;
  }
}
