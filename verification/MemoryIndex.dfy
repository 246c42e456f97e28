/** The memory index of src/memory/cortexdream.ts and src/memory/memdir.ts: the part
    above the sentinel is rewritten, the part below it belongs to the user. */
module MemoryIndex {
  import opened Lines
  import opened Text

  datatype Header = Header(key: string, mtime: string, sizeBytes: nat, description: Option<string>)

  const MARK := "<!-- cortexdream:manifest-end -->"
  const SENTINEL := SentinelOf(MARK)

  function SentinelOf(mark: string): string {
    "\n" + mark + "\n"
  }

  predicate Contains(text: string, mark: string) {
    Includes(text, SentinelOf(mark))
  }

  /** All that the proofs need to know about the mark's wording. */
  predicate Distinctive(mark: string) {
    '\n' !in mark && '(' !in mark && |mark| > 1 && mark[0] == '<' && mark[|mark| - 1] == '>'
  }

  lemma MarkIsDistinctive()
    ensures Distinctive(MARK)
  {
  }

  // ------------------------------------------------------------ the generated part

  function Slice(s: string, n: nat): string {
    if |s| <= n then s else s[..n]
  }

  function Details(h: Header): string {
    " (" + Slice(h.mtime, 10) + ", " + Decimal(h.sizeBytes) + "B)" +
    if h.description.GetOr("") != "" then " \U{2014} " + h.description.value else ""
  }

  function Row(h: Header): string {
    "- " + h.key + Details(h)
  }

  function Rows(headers: seq<Header>): seq<string> {
    seq(|headers|, i requires 0 <= i < |headers| => Row(headers[i]))
  }

  function FormatManifest(headers: seq<Header>): string {
    if headers == [] then "" else Unsplit(Rows(headers))
  }

  const TITLE := "# MEMORY index"
  const ABOUT := "> Auto-generated by " + "cortexDream stub consolidator. "
  const PLANS := "Semantic dedup, reflection, " + "and tier promotion will replace "
  const PLANS_END := "this when the LLM-backed " + "consolidator ships. "
  const PROMISE := "Manual edits below this line " + "are preserved across runs."
  const NOTICE := ABOUT + PLANS + PLANS_END + PROMISE

  function Heading(now: string): string {
    "## Auto-generated manifest (" + now + ")"
  }

  function StubBody(headers: seq<Header>, now: string): string {
    Paragraphs(TITLE, NOTICE, Heading(now), FormatManifest(headers))
  }

  function Paragraphs(title: string, notice: string, heading: string, manifest: string): string {
    title + "\n" + "" + "\n" + notice + "\n" + "" + "\n" + heading + "\n" + "" + "\n" + manifest + "\n"
  }

  /** A row names the file, its date, its size and, if there is one, its description. */
  lemma RowReads(h: Header)
    ensures Row(h) == "- " + h.key + " (" + h.mtime[..if |h.mtime| < 10 then |h.mtime| else 10] + ", "
                      + Decimal(h.sizeBytes) + "B)"
                      + (if h.description.GetOr("") == "" then "" else " \U{2014} " + h.description.value)
  {
    var date := h.mtime[..if |h.mtime| < 10 then |h.mtime| else 10];
    assert Slice(h.mtime, 10) == date;
    Regroup("- " + h.key, " (" + date + ", " + Decimal(h.sizeBytes) + "B)",
            if h.description.GetOr("") == "" then "" else " \U{2014} " + h.description.value);
    Regroup("- " + h.key, " (" + date + ", " + Decimal(h.sizeBytes), "B)");
    Regroup("- " + h.key, " (" + date + ", ", Decimal(h.sizeBytes));
    Regroup("- " + h.key, " (" + date, ", ");
    Regroup("- " + h.key, " (", date);
  }

  /** The manifest is the rows, one on a line. */
  lemma ManifestReads(headers: seq<Header>)
    ensures FormatManifest(headers) ==
            if headers == [] then ""
            else Row(headers[0]) + if |headers| == 1 then "" else "\n" + FormatManifest(headers[1..])
  {
    if headers != [] {
      assert Rows(headers)[1..] == Rows(headers[1..]);
    }
  }

  lemma HeadingReads(now: string)
    ensures Heading(now) == "## Auto-generated manifest (" + now + ")"
  {
  }

  // ------------------------------------------------------------ the rewrite

  /** What follows the first sentinel. */
  function Tail(file: string): string {
    match IndexFrom(file, SENTINEL, 0)
    case Some(at) => file[at + |SENTINEL|..]
    case None => ""
  }

  /** A file that does not exist yet counts as empty. */
  method RunConsolidator(file: Option<string>, headers: seq<Header>, now: string) returns (newEntrypoint: string)
    ensures newEntrypoint == Consolidated(file.GetOr(""), headers, now)
  {
    var existing := file.GetOr("");
    var stubBody := StubBody(headers, now);
    var preservedTail := "";
    var sentinelIdx := IndexFrom(existing, SENTINEL, 0);
    if sentinelIdx.Some? {
      preservedTail := existing[sentinelIdx.value + |SENTINEL|..];
    }
    newEntrypoint := stubBody + SENTINEL + preservedTail;
  }

  function Consolidated(existing: string, headers: seq<Header>, now: string): string {
    StubBody(headers, now) + SENTINEL + Tail(existing)
  }

  // ------------------------------------------------------------ scanning the directory

  /** A directory entry: `stat` is None when it fails, `content` when reading does. */
  datatype Stat = Stat(isFile: bool, mtime: string, size: nat)
  datatype File = File(name: string, stat: Option<Stat>, content: Option<string>)

  predicate EndsWith(s: string, suffix: string) {
    |suffix| <= |s| && s[|s| - |suffix|..] == suffix
  }

  predicate Indexed(file: File) {
    && !(file.name != "" && file.name[0] == '.') && file.name != "MEMORY.md" && EndsWith(file.name, ".md")
    && file.stat.Some? && file.stat.value.isFile
  }

  /** The first piece that is not blank. */
  function FirstLine(pieces: seq<string>): (line: Option<string>)
    ensures line.None? <==> forall k :: 0 <= k < |pieces| ==> Trim(pieces[k]) == ""
    ensures line.Some? ==> line.value in pieces && Trim(line.value) != ""
  {
    if pieces == [] then None
    else if Trim(pieces[0]) != "" then Some(pieces[0])
    else FirstLine(pieces[1..])
  }

  /** At most 160 characters of the first line that is not blank. */
  function Description(content: Option<string>): Option<string> {
    if content.None? then None
    else
      var line := FirstLine(Split(content.value));
      if line.None? then None else Some(Slice(line.value, 160))
  }

  lemma {:induction false} FirstLineIs(pieces: seq<string>, k: nat)
    requires k < |pieces| && !IsBlank(pieces[k]) && forall j :: 0 <= j < k ==> IsBlank(pieces[j])
    ensures FirstLine(pieces) == Some(pieces[k])
  {
    BlankTrims(pieces[0]);
    if k > 0 {
      FirstLineIs(pieces[1..], k - 1);
    }
  }

  /** It is just that; there is none when all lines are blank or reading failed. */
  lemma DescriptionIs(content: string, k: nat)
    requires var lines := Split(content);
             k <= |lines| && (k < |lines| ==> !IsBlank(lines[k])) && forall j :: 0 <= j < k ==> IsBlank(lines[j])
    ensures var lines := Split(content);
            Description(Some(content)) ==
            if k == |lines| then None
            else if |lines[k]| <= 160 then Some(lines[k]) else Some(lines[k][..160])
    ensures Description(None) == None
  {
    var lines := Split(content);
    if k < |lines| {
      FirstLineIs(lines, k);
    } else {
      forall j | 0 <= j < |lines| ensures Trim(lines[j]) == "" {
        BlankTrims(lines[j]);
      }
    }
  }

  method Describe(content: string) returns (description: Option<string>)
    ensures description == Description(Some(content))
  {
    var lines := Split(content);
    assert lines[0..] == lines;
    for k := 0 to |lines|
      invariant FirstLine(lines[k..]) == FirstLine(lines)
    {
      if Trim(lines[k]) != "" {
        return Some(Slice(lines[k], 160));
      }
      assert lines[k..][1..] == lines[k + 1..];
    }
    return None;
  }

  /** A description is a single line. */
  lemma DescriptionIsOneLine(content: Option<string>)
    ensures Description(content).Some? ==> '\n' !in Description(content).value && |Description(content).value| <= 160
  {
    if Description(content).Some? {
      SplitInverts(content.value);
    }
  }

  /** What scanning guarantees about a header, apart from its key: dates come from
      Date.toISOString and descriptions are single lines. */
  predicate OneLine(h: Header) {
    '\n' !in h.mtime && (h.description.Some? ==> '\n' !in h.description.value)
  }

  function HeaderOf(file: File): Header
    requires Indexed(file)
  {
    Header(file.name[..|file.name| - 3], file.stat.value.mtime, file.stat.value.size, Description(file.content))
  }

  function Headers(files: seq<File>): seq<Header> {
    if files == [] then []
    else
      var last := files[|files| - 1];
      Headers(files[..|files| - 1]) + if Indexed(last) then [HeaderOf(last)] else []
  }

  /** A scan takes one entry after the other: a regular file whose name ends in .md, does
      not begin with a dot and is not that of the index itself has a header. */
  lemma {:induction false} ScanTells(a: seq<File>, b: seq<File>, file: File)
    ensures Headers(a + b) == Headers(a) + Headers(b)
    ensures var name, n := file.name, |file.name|;
            var indexed := n >= 3 && name[n - 3..] == ".md" && name[0] != '.' && name != "MEMORY.md"
                           && file.stat.Some? && file.stat.value.isFile;
            Headers([file]) ==
            if !indexed then []
            else [Header(name[..n - 3], file.stat.value.mtime, file.stat.value.size, Description(file.content))]
    decreases |b|
  {
    assert [file][..0] == [];
    if b == [] {
      assert a + b == a;
    } else {
      var front, last := b[..|b| - 1], b[|b| - 1];
      assert (a + b)[..|a + b| - 1] == a + front;
      ScanTells(a, front, file);
      Regroup(Headers(a), Headers(front), if Indexed(last) then [HeaderOf(last)] else []);
    }
  }

  /** The headers of the indexed files, still in directory order. */
  method ScanMemdir(files: seq<File>) returns (headers: seq<Header>)
    ensures headers == Headers(files)
  {
    headers := [];
    for i := 0 to |files|
      invariant headers == Headers(files[..i])
    {
      var file := files[i];
      assert files[..i + 1][..i] == files[..i];
      if !Indexed(file) {
        continue;
      }
      var description := None;
      if file.content.Some? {
        description := Describe(file.content.value);
      }
      headers := headers + [Header(file.name[..|file.name| - 3], file.stat.value.mtime, file.stat.value.size, description)];
    }
    assert files[..|files|] == files;
  }

  /** Apart from the keys, what a scan finds is made of single lines. */
  lemma {:induction false} ScanGivesOneLiners(files: seq<File>)
    requires forall k :: 0 <= k < |files| && files[k].stat.Some? ==> '\n' !in files[k].stat.value.mtime
    ensures forall i :: 0 <= i < |Headers(files)| ==> OneLine(Headers(files)[i])
  {
    if files != [] {
      var front, last := files[..|files| - 1], files[|files| - 1];
      assert forall k :: 0 <= k < |front| ==> front[k] == files[k];
      ScanGivesOneLiners(front);
      DescriptionIsOneLine(last.content);
    }
  }

  // ------------------------------------------------------------ sentinels are lines

  /** The mark stands alone on a line that is neither the first nor the last. */
  predicate InnerMark(pieces: seq<string>, mark: string) {
    exists k :: 0 < k < |pieces| - 1 && pieces[k] == mark
  }

  lemma OccurrenceIsALine(text: string, at: nat, mark: string)
    requires Distinctive(mark)
    requires OccursAt(text, SentinelOf(mark), at)
    ensures InnerMark(Split(text), mark)
  {
    var a, b := text[..at], text[at + |SentinelOf(mark)|..];
    assert text == a + "\n" + (mark + "\n" + b);
    SplitAtNewline(a, mark + "\n" + b);
    SplitHead(mark, b);
    assert Split(text)[|Split(a)|] == mark;
  }

  lemma SentinelBetween(a: string, b: string, mark: string)
    requires Distinctive(mark)
    ensures Contains(a + "\n" + (mark + "\n" + b), mark)
  {
    var text := a + "\n" + (mark + "\n" + b);
    assert text == a + SentinelOf(mark) + b;
    assert text[|a|..|a| + |SentinelOf(mark)|] == SentinelOf(mark);
    assert OccursAt(text, SentinelOf(mark), |a|);
  }

  lemma LineIsAnOccurrence(text: string, k: nat, mark: string)
    requires Distinctive(mark)
    requires 0 < k < |Split(text)| - 1 && Split(text)[k] == mark
    ensures Contains(text, mark)
  {
    var pieces := Split(text);
    SplitInverts(text);
    var before, after := pieces[..k], pieces[k + 1..];
    assert pieces == before + ([mark] + after);
    UnsplitAppend([mark], after);
    UnsplitAppend(before, [mark] + after);
    SentinelBetween(Unsplit(before), Unsplit(after), mark);
  }

  lemma ContainsIsInnerMark(text: string, mark: string)
    requires Distinctive(mark)
    ensures Contains(text, mark) <==> InnerMark(Split(text), mark)
  {
    var at := IndexFrom(text, SentinelOf(mark), 0);
    if at.Some? {
      OccurrenceIsALine(text, at.value, mark);
    }
    if k :| 0 < k < |Split(text)| - 1 && Split(text)[k] == mark {
      LineIsAnOccurrence(text, k, mark);
    }
  }

  // ------------------------------------------------------------ where a sentinel can come from

  /** Text put around a key on its first and last line leaves the inner lines alone. */
  lemma InnerLinesStay(prefix: string, key: string, suffix: string)
    requires '\n' !in prefix && '\n' !in suffix
    ensures var pieces, all := Split(key), Split(prefix + key + suffix);
            && |all| == |pieces|
            && (forall k :: 0 < k < |pieces| - 1 ==> all[k] == pieces[k])
            && prefix <= all[0]
            && EndsWith(all[|all| - 1], suffix)
  {
    SplitPrefix(prefix, key);
    SplitSuffix(prefix + key, suffix);
  }

  lemma DetailsAreOneLine(h: Header)
    requires OneLine(h)
    ensures '\n' !in Details(h) && |Details(h)| >= 2 && Details(h)[1] == '('
  {
    DecimalHasNoNewline(h.sizeBytes);
  }

  lemma {:induction false} DecimalHasNoNewline(n: nat)
    ensures '\n' !in Decimal(n)
  {
    if n >= 10 {
      DecimalHasNoNewline(n / 10);
    }
  }

  lemma FringesAreNotMark(first: string, last: string, h: Header, mark: string)
    requires Distinctive(mark)
    requires "- " <= first && EndsWith(last, Details(h)) && OneLine(h)
    ensures first != mark && last != mark
  {
    DetailsAreOneLine(h);
    assert first[0] == '-' && mark[0] == '<';
    var at := |last| - |Details(h)| + 1;
    assert last[at - 1..][1] == '(';
    assert last[at] == '(';
  }

  /** A row has the mark on a line of its own exactly when its key holds a sentinel. */
  lemma RowLines(h: Header, mark: string)
    requires Distinctive(mark)
    requires OneLine(h)
    ensures mark in Split(Row(h)) <==> Contains(h.key, mark)
  {
    RowSplits(h, mark);
    ContainsIsInnerMark(h.key, mark);
    InnerOnly(Split(Row(h)), Split(h.key), mark);
  }

  /** The same inner lines, and the mark neither the first nor the last. */
  predicate SameInside(all: seq<string>, pieces: seq<string>, mark: string) {
    && |all| == |pieces| > 0 && all[0] != mark && all[|all| - 1] != mark
    && forall k :: 0 < k < |pieces| - 1 ==> all[k] == pieces[k]
  }

  lemma RowSplits(h: Header, mark: string)
    requires Distinctive(mark) && OneLine(h)
    ensures SameInside(Split(Row(h)), Split(h.key), mark)
  {
    DetailsAreOneLine(h);
    InnerLinesStay("- ", h.key, Details(h));
    var all := Split(Row(h));
    FringesAreNotMark(all[0], all[|all| - 1], h, mark);
  }

  lemma InnerOnly(all: seq<string>, pieces: seq<string>, mark: string)
    requires SameInside(all, pieces, mark)
    ensures mark in all <==> InnerMark(pieces, mark)
  {
    if mark in all {
      var k :| 0 <= k < |all| && all[k] == mark;
      assert 0 < k < |all| - 1 && pieces[k] == mark;
    }
  }

  predicate SomeKeyContains(headers: seq<Header>, mark: string) {
    exists i :: 0 <= i < |headers| && Contains(headers[i].key, mark)
  }

  lemma SomeKeyCons(headers: seq<Header>, mark: string)
    requires headers != []
    ensures SomeKeyContains(headers, mark) <==>
            Contains(headers[0].key, mark) || SomeKeyContains(headers[1..], mark)
  {
    if i :| 0 < i < |headers| && Contains(headers[i].key, mark) {
      assert headers[1..][i - 1] == headers[i];
    }
    if i :| 0 <= i < |headers[1..]| && Contains(headers[1..][i].key, mark) {
      assert headers[i + 1] == headers[1..][i];
    }
  }

  lemma ManifestCons(headers: seq<Header>)
    requires |headers| > 1
    ensures Split(FormatManifest(headers)) == Split(Row(headers[0])) + Split(FormatManifest(headers[1..]))
  {
    assert Rows(headers) == [Row(headers[0])] + Rows(headers[1..]);
    UnsplitAppend([Row(headers[0])], Rows(headers[1..]));
    SplitAtNewline(Row(headers[0]), FormatManifest(headers[1..]));
  }

  lemma {:induction false} ManifestLines(headers: seq<Header>, mark: string)
    requires Distinctive(mark)
    requires forall i :: 0 <= i < |headers| ==> OneLine(headers[i])
    ensures mark in Split(FormatManifest(headers)) <==> SomeKeyContains(headers, mark)
  {
    if headers == [] {
      OneLineSplit("");
    } else {
      RowLines(headers[0], mark);
      SomeKeyCons(headers, mark);
      if |headers| == 1 {
        assert FormatManifest(headers) == Row(headers[0]);
      } else {
        ManifestLines(headers[1..], mark);
        ManifestCons(headers);
      }
    }
  }

  lemma AboutIsOneLine()
    ensures '\n' !in ABOUT && |ABOUT| > 0 && ABOUT[0] == '>'
  {
  }

  lemma PlansAreOneLine()
    ensures '\n' !in PLANS
  {
  }

  lemma PlansEndIsOneLine()
    ensures '\n' !in PLANS_END
  {
  }

  lemma PromiseIsOneLine()
    ensures '\n' !in PROMISE
  {
  }

  lemma JoinedIsOneLine(a: string, b: string, c: string, d: string)
    requires '\n' !in a && '\n' !in b && '\n' !in c && '\n' !in d && |a| > 0 && a[0] == '>'
    ensures '\n' !in a + b + c + d && (a + b + c + d)[0] == '>'
  {
  }

  lemma NoticeIsOneLine()
    ensures '\n' !in NOTICE && |NOTICE| > 0 && NOTICE[0] == '>'
  {
    AboutIsOneLine();
    PlansAreOneLine();
    PlansEndIsOneLine();
    PromiseIsOneLine();
    JoinedIsOneLine(ABOUT, PLANS, PLANS_END, PROMISE);
  }

  lemma FixedLines(title: string, notice: string)
    requires '\n' !in title && '\n' !in notice
    ensures Split(title + "\n" + "" + "\n" + notice + "\n" + "") == [title, "", notice, ""]
  {
    OneLineSplit(title);
    OneLineSplit("");
    OneLineSplit(notice);
    SplitAtNewline(title, "");
    SplitAtNewline(title + "\n" + "", notice);
    SplitAtNewline(title + "\n" + "" + "\n" + notice, "");
  }

  lemma ManifestFrame(above: string, manifest: string)
    ensures Split(above + "\n" + "" + "\n" + manifest + "\n") == Split(above) + [""] + Split(manifest) + [""]
  {
    OneLineSplit("");
    SplitAtNewline(above, "");
    SplitAtNewline(above + "\n" + "", manifest);
    var all := above + "\n" + "" + "\n" + manifest;
    SplitAtNewline(all, "");
    assert all + "\n" + "" == all + "\n";
  }

  lemma ParagraphLines(title: string, notice: string, heading: string, manifest: string)
    requires '\n' !in title && '\n' !in notice && '\n' !in heading
    ensures Split(Paragraphs(title, notice, heading, manifest)) ==
            [title, "", notice, "", heading, ""] + Split(manifest) + [""]
  {
    var fixed := title + "\n" + "" + "\n" + notice + "\n" + "";
    FixedLines(title, notice);
    OneLineSplit(heading);
    SplitAtNewline(fixed, heading);
    ManifestFrame(fixed + "\n" + heading, manifest);
    assert [title, "", notice, ""] + [heading] + [""] == [title, "", notice, "", heading, ""];
  }

  /** Inside lines of which only the rows can be the mark. */
  lemma InnerOfFrame(head: seq<string>, rows: seq<string>, mark: string)
    requires head != [] && mark !in head && mark != ""
    ensures InnerMark(head + rows + [""], mark) <==> mark in rows
  {
    var all := head + rows + [""];
    if k :| 0 <= k < |rows| && rows[k] == mark {
      assert all[|head| + k] == mark;
    }
    if k :| 0 < k < |all| - 1 && all[k] == mark {
      assert forall j :: 0 <= j < |head| ==> all[j] == head[j] && head[j] in head;
      assert all[k] == rows[k - |head|];
    }
  }

  /** The generated part holds a sentinel exactly when some key does. */
  lemma BodyContains(headers: seq<Header>, now: string, mark: string)
    requires Distinctive(mark)
    requires '\n' !in now && forall i :: 0 <= i < |headers| ==> OneLine(headers[i])
    ensures Contains(StubBody(headers, now), mark) <==> SomeKeyContains(headers, mark)
  {
    var heading, manifest := Heading(now), FormatManifest(headers);
    HeadingIsOneLine(now);
    NoticeIsOneLine();
    ParagraphLines(TITLE, NOTICE, heading, manifest);
    ManifestLines(headers, mark);
    ContainsIsInnerMark(StubBody(headers, now), mark);
    InnerOfFrame([TITLE, "", NOTICE, "", heading, ""], Split(manifest), mark);
  }

  lemma HeadingIsOneLine(now: string)
    requires '\n' !in now
    ensures '\n' !in Heading(now) && Heading(now)[0] == '#'
    ensures '\n' !in TITLE && TITLE[0] == '#'
  {
  }

  // ------------------------------------------------------------ the user's tail

  /** No sentinel straddles the seam: the one written behind the body is the first
      unless the body holds one itself. */
  lemma FirstSentinel(body: string, tail: string, mark: string)
    requires Distinctive(mark) && body != "" && body[|body| - 1] == '\n'
    ensures IndexFrom(body + SentinelOf(mark) + tail, SentinelOf(mark), 0) == Some(|body|) <==> !Contains(body, mark)
    ensures Contains(body, mark) ==>
              IndexFrom(body + SentinelOf(mark) + tail, SentinelOf(mark), 0) == IndexFrom(body, SentinelOf(mark), 0)
  {
    var sentinel := SentinelOf(mark);
    assert (body + sentinel + tail)[|body|..|body| + |sentinel|] == sentinel;
    forall j: nat | j < |body| ensures OccursAt(body + sentinel + tail, sentinel, j) <==> OccursAt(body, sentinel, j) {
      SeamIsSafe(body, tail, mark, j);
    }
    FirstOfBoth(body + sentinel + tail, body, sentinel);
  }

  /** Texts that agree on where `part` occurs inside the first have the same first
      occurrence, unless there is none before its end. */
  lemma FirstOfBoth(text: string, body: string, part: string)
    requires part != "" && OccursAt(text, part, |body|)
    requires forall j: nat :: j < |body| ==> (OccursAt(text, part, j) <==> OccursAt(body, part, j))
    ensures IndexFrom(text, part, 0) ==
            if IndexFrom(body, part, 0).Some? then IndexFrom(body, part, 0) else Some(|body|)
    ensures IndexFrom(body, part, 0).Some? ==> IndexFrom(body, part, 0).value < |body|
  {
    var inBody := IndexFrom(body, part, 0);
    FirstAt(text, part, if inBody.Some? then inBody.value else |body|);
  }

  lemma SeamIsSafe(body: string, tail: string, mark: string, j: nat)
    requires Distinctive(mark) && body != "" && body[|body| - 1] == '\n' && j < |body|
    ensures OccursAt(body + SentinelOf(mark) + tail, SentinelOf(mark), j) <==> OccursAt(body, SentinelOf(mark), j)
  {
    var sentinel := SentinelOf(mark);
    var text := body + sentinel + tail;
    if j + |sentinel| <= |body| {
      assert text[j..j + |sentinel|] == body[j..j + |sentinel|];
    } else {
      var k := if |body| - j < |sentinel| - 1 then |body| - j else |sentinel| - 2;
      assert text[|body|] == '\n';
      assert text[|body| - 1] == body[|body| - 1];
      assert sentinel[k] == mark[k - 1];
      Mismatch(text, sentinel, j, k);
    }
  }

  lemma Mismatch(text: string, part: string, at: nat, k: nat)
    requires k < |part| && at + k < |text| && text[at + k] != part[k]
    ensures !OccursAt(text, part, at)
  {
    assert at + |part| <= |text| ==> text[at..at + |part|][k] == text[at + k];
  }

  /** What a rewrite can rely on: single-line dates and descriptions. */
  predicate Scanned(headers: seq<Header>, now: string) {
    '\n' !in now && forall i :: 0 <= i < |headers| ==> OneLine(headers[i])
  }

  lemma TailAfter(headers: seq<Header>, now: string, tail: string)
    requires Scanned(headers, now)
    ensures !SomeKeyContains(headers, MARK) ==> Tail(StubBody(headers, now) + SENTINEL + tail) == tail
    ensures SomeKeyContains(headers, MARK) ==> |Tail(StubBody(headers, now) + SENTINEL + tail)| > |tail|
  {
    var body := StubBody(headers, now);
    MarkIsDistinctive();
    FirstSentinel(body, tail, MARK);
    BodyContains(headers, now, MARK);
  }

  /** A rewrite keeps the user's tail exactly when no key holds a sentinel; a key that
      does moves part of the generated text into the tail. */
  lemma TailKeptExactlyWhen(existing: string, headers: seq<Header>, now: string)
    requires Scanned(headers, now)
    ensures Tail(Consolidated(existing, headers, now)) == Tail(existing) <==> !SomeKeyContains(headers, MARK)
    ensures SomeKeyContains(headers, MARK) ==> |Tail(Consolidated(existing, headers, now))| > |Tail(existing)|
  {
    TailAfter(headers, now, Tail(existing));
  }

  datatype Run = Run(headers: seq<Header>, now: string)

  function AfterRuns(existing: string, runs: seq<Run>): string {
    if runs == [] then existing
    else Consolidated(AfterRuns(existing, runs[..|runs| - 1]), runs[|runs| - 1].headers, runs[|runs| - 1].now)
  }

  /** Any number of rewrites preserves what the user wrote below the sentinel, as long
      as no key contains a newline; above it stands what the last one generated. */
  lemma {:induction false} TailSurvivesAllRuns(existing: string, runs: seq<Run>)
    requires forall r :: 0 <= r < |runs| ==> Scanned(runs[r].headers, runs[r].now)
    requires forall r, i :: 0 <= r < |runs| && 0 <= i < |runs[r].headers| ==> '\n' !in runs[r].headers[i].key
    ensures Tail(AfterRuns(existing, runs)) == Tail(existing)
    ensures AfterRuns(existing, runs) ==
            if runs == [] then existing
            else StubBody(runs[|runs| - 1].headers, runs[|runs| - 1].now) + SENTINEL + Tail(existing)
  {
    if runs != [] {
      var front, last := runs[..|runs| - 1], runs[|runs| - 1];
      assert forall r :: 0 <= r < |front| ==> front[r] == runs[r];
      TailSurvivesAllRuns(existing, front);
      SingleLineKeys(last.headers);
      TailKeptExactlyWhen(AfterRuns(existing, front), last.headers, last.now);
    }
  }

  lemma SingleLineKeys(headers: seq<Header>)
    requires forall i :: 0 <= i < |headers| ==> '\n' !in headers[i].key
    ensures !SomeKeyContains(headers, MARK)
  {
    forall i | 0 <= i < |headers| ensures !Contains(headers[i].key, MARK) {
      var key := headers[i].key;
      forall j: nat ensures !OccursAt(key, SENTINEL, j) {
        if j < |key| {
          Mismatch(key, SENTINEL, j, 0);
        }
      }
    }
  }

  /** A rewrite with the same headers at the same time changes nothing more, under the
      same condition. */
  lemma RewriteIsIdempotent(existing: string, headers: seq<Header>, now: string)
    requires Scanned(headers, now)
    ensures var once := Consolidated(existing, headers, now);
            Consolidated(once, headers, now) == once <==> !SomeKeyContains(headers, MARK)
  {
    TailKeptExactlyWhen(existing, headers, now);
    var once := Consolidated(existing, headers, now);
    assert |Consolidated(once, headers, now)| == |StubBody(headers, now)| + |SENTINEL| + |Tail(once)|;
    assert |once| == |StubBody(headers, now)| + |SENTINEL| + |Tail(existing)|;
  }

  /** A first rewrite keeps nothing: of a file without a sentinel no character matters. */
  lemma FirstRewriteDiscards(existing: string, headers: seq<Header>, now: string)
    requires !Contains(existing, MARK)
    ensures Consolidated(existing, headers, now) == Consolidated("", headers, now)
  {
    assert Tail(existing) == "";
    assert IndexFrom("", SENTINEL, 0).None?;
  }

  /** Such keys exist: a file name may contain a newline. */
  lemma NewlineKeyBreaksTail(before: string, after: string, mtime: string, size: nat)
    ensures SomeKeyContains([Header(before + SENTINEL + after, mtime, size, None)], MARK)
  {
    var header := Header(before + SENTINEL + after, mtime, size, None);
    assert header.key[|before|..|before| + |SENTINEL|] == SENTINEL;
    assert OccursAt(header.key, SENTINEL, |before|);
    assert Contains([header][0].key, MARK);
  }
}
