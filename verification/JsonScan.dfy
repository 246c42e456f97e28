/**
 The brace scanners that dig a JSON object out of noise: extractJsonObject of
 src/agents/providers/openai.ts and sanitizeToolArguments of
 src/agents/inference.ts. JSON texts follow RFC 8259, sections 2 to 7.
 */
module JsonScan {
  import opened Text

  // ------------------------------------------------------------ JSON texts

  /** One character of a string, as written. */
  datatype Piece = Raw(c: char) | Escape(c: char) | Unicode(hex: string)

  /** A JSON text with its white space. `Literal` is a number, true, false or null. */
  datatype Value =
    | Literal(text: string)
    | Str(pieces: seq<Piece>)
    | Arr(space: string, items: seq<Value>)
    | Obj(space: string, members: seq<Member>)
    | Padded(before: string, value: Value, after: string)

  datatype Member = Member(before: string, name: seq<Piece>, after: string, value: Value)

  predicate WhiteSpace(s: string) {
    forall k :: 0 <= k < |s| ==> s[k] in " \t\n\r"
  }

  predicate IsHex(c: char) {
    '0' <= c <= '9' || 'a' <= c <= 'f' || 'A' <= c <= 'F'
  }

  predicate IsLiteralChar(c: char) {
    '0' <= c <= '9' || 'a' <= c <= 'z' || c == 'E' || c == '+' || c == '-' || c == '.'
  }

  predicate ValidPiece(p: Piece) {
    match p
    case Raw(c) => c >= ' ' && c != '"' && c != '\\'
    case Escape(c) => c in "\"\\/bfnrt"
    case Unicode(hex) => |hex| == 4 && forall k :: 0 <= k < 4 ==> IsHex(hex[k])
  }

  predicate ValidPieces(ps: seq<Piece>) {
    forall k :: 0 <= k < |ps| ==> ValidPiece(ps[k])
  }

  /** Every JSON text satisfies this for the value it spells. */
  predicate Valid(v: Value) {
    match v
    case Literal(text) => text != "" && forall k :: 0 <= k < |text| ==> IsLiteralChar(text[k])
    case Str(pieces) => ValidPieces(pieces)
    case Arr(space, items) => WhiteSpace(space) && forall k :: 0 <= k < |items| ==> Valid(items[k])
    case Obj(space, members) =>
      WhiteSpace(space) && forall k :: 0 <= k < |members| ==>
        WhiteSpace(members[k].before) && ValidPieces(members[k].name) && WhiteSpace(members[k].after)
        && Valid(members[k].value)
    case Padded(before, value, after) => WhiteSpace(before) && Valid(value) && WhiteSpace(after)
  }

  function PrintPiece(p: Piece): string {
    match p
    case Raw(c) => [c]
    case Escape(c) => ['\\', c]
    case Unicode(hex) => "\\u" + hex
  }

  function PrintPieces(ps: seq<Piece>): string {
    if ps == [] then "" else PrintPiece(ps[0]) + PrintPieces(ps[1..])
  }

  function PrintString(ps: seq<Piece>): string {
    "\"" + PrintPieces(ps) + "\""
  }

  function Print(v: Value): string
    decreases v
  {
    match v
    case Literal(text) => text
    case Str(pieces) => PrintString(pieces)
    case Arr(space, items) => "[" + space + PrintItems(v, 0) + "]"
    case Obj(space, members) => "{" + space + PrintMembers(v, 0) + "}"
    case Padded(before, value, after) => before + Print(value) + after
  }

  function PrintItems(v: Value, k: nat): string
    requires v.Arr? && k <= |v.items|
    decreases v, |v.items| - k
  {
    if k == |v.items| then ""
    else (if k == 0 then "" else ",") + Print(v.items[k]) + PrintItems(v, k + 1)
  }

  function PrintMembers(v: Value, k: nat): string
    requires v.Obj? && k <= |v.members|
    decreases v, |v.members| - k
  {
    if k == |v.members| then ""
    else
      PrintMember(if k == 0 then "" else ",", v.members[k]) + PrintMembers(v, k + 1)
  }

  function PrintMember(comma: string, m: Member): string
    decreases m
  {
    comma + m.before + PrintString(m.name) + m.after + ":" + Print(m.value)
  }

  // ------------------------------------------------------------ how a text is spelled

  function Commas(parts: seq<string>): string {
    if parts == [] then "" else if |parts| == 1 then parts[0] else parts[0] + "," + Commas(parts[1..])
  }

  lemma CommasCons(first: string, rest: seq<string>)
    ensures Commas([first] + rest) == first + ((if rest == [] then "" else ",") + Commas(rest))
  {
    assert ([first] + rest)[1..] == rest;
  }

  /** The pieces of a string, one behind the other: characters as they are, an escape
      behind a backslash, four hexadecimal digits behind a backslash and a u. */
  lemma {:induction false} PiecesSpell(a: seq<Piece>, b: seq<Piece>)
    ensures PrintPieces(a + b) == PrintPieces(a) + PrintPieces(b)
    ensures forall c :: PrintPieces([Raw(c)]) == [c] && PrintPieces([Escape(c)]) == ['\\', c]
    ensures forall hex :: PrintPieces([Unicode(hex)]) == ['\\', 'u'] + hex
  {
    forall p: Piece ensures PrintPieces([p]) == PrintPiece(p) {
      assert [p][1..] == [];
    }
    if a == [] {
      assert a + b == b;
    } else {
      assert (a + b)[1..] == a[1..] + b;
      PiecesSpell(a[1..], b);
    }
  }

  function Printed(items: seq<Value>): seq<string> {
    seq(|items|, k requires 0 <= k < |items| => Print(items[k]))
  }

  function PrintedMembers(members: seq<Member>): seq<string> {
    seq(|members|, k requires 0 <= k < |members| => Spelled(members[k]))
  }

  function Spelled(m: Member): string {
    m.before + "\"" + PrintPieces(m.name) + "\"" + m.after + ":" + Print(m.value)
  }

  lemma MemberSpells(comma: string, m: Member)
    ensures PrintMember(comma, m) == comma + Spelled(m)
  {
    var name, rest := "\"" + PrintPieces(m.name) + "\"", m.after + ":" + Print(m.value);
    assert PrintMember(comma, m) == comma + (m.before + name + rest);
    assert Spelled(m) == m.before + name + rest;
  }

  lemma {:induction false} ItemsSpell(v: Value, k: nat)
    requires v.Arr? && k <= |v.items|
    ensures PrintItems(v, k) == (if 0 < k < |v.items| then "," else "") + Commas(Printed(v.items)[k..])
    decreases |v.items| - k
  {
    if k < |v.items| {
      ItemsSpell(v, k + 1);
      assert Printed(v.items)[k..][1..] == Printed(v.items)[k + 1..];
    }
  }

  lemma {:induction false} MembersSpell(v: Value, k: nat)
    requires v.Obj? && k <= |v.members|
    ensures PrintMembers(v, k) == (if 0 < k < |v.members| then "," else "") + Commas(PrintedMembers(v.members)[k..])
    decreases |v.members| - k
  {
    if k < |v.members| {
      var comma, all := if k == 0 then "" else ",", PrintedMembers(v.members)[k..];
      MembersSpell(v, k + 1);
      MemberSpells(comma, v.members[k]);
      assert all[1..] == PrintedMembers(v.members)[k + 1..];
      Regroup(comma, all[0], PrintMembers(v, k + 1));
      CommasCons(all[0], all[1..]);
      assert all == [all[0]] + all[1..];
    }
  }

  /** How a JSON text spells its value. */
  lemma PrintSpells(v: Value)
    ensures v.Str? ==> Print(v) == "\"" + PrintPieces(v.pieces) + "\""
    ensures v.Arr? ==> Print(v) == "[" + v.space + Commas(Printed(v.items)) + "]"
    ensures v.Obj? ==> Print(v) == "{" + v.space + Commas(PrintedMembers(v.members)) + "}"
    ensures v.Padded? ==> Print(v) == v.before + Print(v.value) + v.after
  {
    match v {
      case Arr(_, _) => ArraySpells(v);
      case Obj(_, _) => ObjectSpells(v);
      case _ =>
    }
  }

  lemma ArraySpells(v: Value)
    requires v.Arr?
    ensures PrintItems(v, 0) == Commas(Printed(v.items))
  {
    ItemsSpell(v, 0);
    assert Printed(v.items)[0..] == Printed(v.items);
  }

  lemma ObjectSpells(v: Value)
    requires v.Obj?
    ensures PrintMembers(v, 0) == Commas(PrintedMembers(v.members))
  {
    MembersSpell(v, 0);
    assert PrintedMembers(v.members)[0..] == PrintedMembers(v.members);
  }

  // ------------------------------------------------------------ the scanner

  /** Brace depth and string state in front of a character. */
  datatype State = State(depth: int, inString: bool, escaped: bool)

  const START := State(0, false, false)

  /** The state after a character; None when it closes the outermost brace. */
  function Next(s: State, ch: char): Option<State> {
    if s.escaped then Some(s.(escaped := false))
    else if ch == '\\' then Some(s.(escaped := true))
    else if ch == '"' then Some(s.(inString := !s.inString))
    else if s.inString then Some(s)
    else if ch == '{' then Some(s.(depth := s.depth + 1))
    else if ch == '}' then if s.depth - 1 == 0 then None else Some(s.(depth := s.depth - 1))
    else Some(s)
  }

  /** Index just behind the closing brace, scanning from `i`. */
  function End(text: string, i: nat, s: State): (end: Option<nat>)
    requires i <= |text|
    ensures end.Some? ==> i < end.value <= |text|
    decreases |text| - i
  {
    if i == |text| then None
    else if Next(s, text[i]).None? then Some(i + 1)
    else End(text, i + 1, Next(s, text[i]).value)
  }

  function Extract(text: string): Option<string> {
    var first := IndexFrom(text, "{", 0);
    if first.None? then None
    else
      var end := End(text, first.value, START);
      if end.None? then None else Some(text[first.value..end.value])
  }

  /** The loop both functions share. */
  method ScanObject(text: string, firstBrace: nat) returns (end: Option<nat>)
    requires firstBrace < |text|
    ensures end == End(text, firstBrace, START)
  {
    var depth, inString, escaped := 0, false, false;
    for i := firstBrace to |text|
      invariant End(text, i, State(depth, inString, escaped)) == End(text, firstBrace, START)
    {
      var ch := text[i];
      if escaped { escaped := false; continue; }
      if ch == '\\' { escaped := true; continue; }
      if ch == '"' { inString := !inString; continue; }
      if inString { continue; }
      if ch == '{' { depth := depth + 1; }
      if ch == '}' {
        depth := depth - 1;
        if depth == 0 {
          return Some(i + 1);
        }
      }
    }
    end := None;
  }

  /** src/agents/providers/openai.ts extractJsonObject. */
  method ExtractJsonObject(text: string) returns (json: Option<string>)
    ensures json == Extract(text)
  {
    var firstBrace := IndexFrom(text, "{", 0);
    if firstBrace.None? {
      return None;
    }
    var end := ScanObject(text, firstBrace.value);
    if end.Some? {
      return Some(text[firstBrace.value..end.value]);
    }
    return None;
  }

  // ------------------------------------------------------------ scanning printed JSON

  /** The state after a whole text; None when the outermost brace closes in it. */
  function Run(s: State, text: string): Option<State>
    decreases |text|
  {
    if text == "" then Some(s)
    else
      var next := Next(s, text[0]);
      if next.None? then None else Run(next.value, text[1..])
  }

  lemma {:induction false} RunAppend(s: State, a: string, b: string)
    requires Run(s, a).Some?
    ensures Run(s, a + b) == Run(Run(s, a).value, b)
    decreases |a|
  {
    if a == "" {
      assert a + b == b;
    } else {
      assert (a + b)[1..] == a[1..] + b;
      RunAppend(Next(s, a[0]).value, a[1..], b);
    }
  }

  /** The text leaves the scanner at the depth where it found it. */
  predicate Neutral(depth: int, text: string) {
    Run(State(depth, false, false), text) == Some(State(depth, false, false))
  }

  lemma NeutralAppend(depth: int, a: string, b: string)
    requires Neutral(depth, a) && Neutral(depth, b)
    ensures Neutral(depth, a + b)
  {
    RunAppend(State(depth, false, false), a, b);
  }

  lemma {:induction false} QuietIsNeutral(depth: int, text: string)
    requires forall k :: 0 <= k < |text| ==> text[k] != '\\' && text[k] != '"' && text[k] != '{' && text[k] != '}'
    ensures Neutral(depth, text)
    decreases |text|
  {
    if text != "" {
      QuietIsNeutral(depth, text[1..]);
    }
  }

  lemma SpaceIsNeutral(depth: int, text: string)
    requires WhiteSpace(text)
    ensures Neutral(depth, text)
  {
    QuietIsNeutral(depth, text);
  }

  lemma CommaIsNeutral(depth: int, text: string)
    requires text == "" || text == "," || text == ":"
    ensures Neutral(depth, text)
  {
    QuietIsNeutral(depth, text);
  }

  lemma {:induction false} HexStaysInString(s: State, hex: string)
    requires s.inString && !s.escaped && forall k :: 0 <= k < |hex| ==> IsHex(hex[k])
    ensures Run(s, hex) == Some(s)
    decreases |hex|
  {
    if hex != "" {
      HexStaysInString(s, hex[1..]);
    }
  }

  lemma PieceStaysInString(s: State, p: Piece)
    requires s.inString && !s.escaped && ValidPiece(p)
    ensures Run(s, PrintPiece(p)) == Some(s)
  {
    match p {
      case Raw(c) =>
        assert [c][1..] == "";
      case Escape(c) =>
        assert ['\\', c][1..] == [c] && [c][1..] == "";
        assert Run(s.(escaped := true), [c]) == Run(s, "");
      case Unicode(hex) =>
        var text := "\\u" + hex;
        assert text[1..] == ['u'] + hex && text[1..][1..] == hex;
        HexStaysInString(s, hex);
    }
  }

  lemma {:induction false} PiecesStayInString(s: State, ps: seq<Piece>)
    requires s.inString && !s.escaped && ValidPieces(ps)
    ensures Run(s, PrintPieces(ps)) == Some(s)
    decreases |ps|
  {
    if ps != [] {
      PieceStaysInString(s, ps[0]);
      PiecesStayInString(s, ps[1..]);
      RunAppend(s, PrintPiece(ps[0]), PrintPieces(ps[1..]));
    }
  }

  /** Quotes, backslashes and braces inside a printed string do not show. */
  lemma StringIsNeutral(depth: int, ps: seq<Piece>)
    requires ValidPieces(ps)
    ensures Neutral(depth, PrintString(ps))
  {
    var out, inside := State(depth, false, false), State(depth, true, false);
    PiecesStayInString(inside, ps);
    RunAppend(inside, PrintPieces(ps), "\"");
    assert Run(inside, "\"") == Run(out, "");
    assert PrintString(ps)[1..] == PrintPieces(ps) + "\"";
  }

  /** Scanning a printed value inside an object leaves the depth as it was. */
  lemma {:induction false} ValueIsNeutral(depth: int, v: Value)
    requires depth >= 1 && Valid(v)
    ensures Neutral(depth, Print(v))
    decreases v
  {
    match v {
      case Literal(text) => QuietIsNeutral(depth, text);
      case Str(pieces) => StringIsNeutral(depth, pieces);
      case Arr(space, items) =>
        QuietIsNeutral(depth, "[");
        QuietIsNeutral(depth, space);
        ItemsAreNeutral(depth, v, 0);
        QuietIsNeutral(depth, "]");
        NeutralAppend(depth, "[", space);
        NeutralAppend(depth, "[" + space, PrintItems(v, 0));
        NeutralAppend(depth, "[" + space + PrintItems(v, 0), "]");
      case Obj(space, members) =>
        BodyIsNeutral(depth + 1, v);
        ObjectRun(depth, v);
      case Padded(before, value, after) =>
        QuietIsNeutral(depth, before);
        ValueIsNeutral(depth, value);
        QuietIsNeutral(depth, after);
        NeutralAppend(depth, before, Print(value));
        NeutralAppend(depth, before + Print(value), after);
    }
  }

  lemma {:induction false} ItemsAreNeutral(depth: int, v: Value, k: nat)
    requires depth >= 1 && v.Arr? && Valid(v) && k <= |v.items|
    ensures Neutral(depth, PrintItems(v, k))
    decreases v, |v.items| - k
  {
    if k < |v.items| {
      var comma := if k == 0 then "" else ",";
      QuietIsNeutral(depth, comma);
      ValueIsNeutral(depth, v.items[k]);
      ItemsAreNeutral(depth, v, k + 1);
      NeutralAppend(depth, comma, Print(v.items[k]));
      NeutralAppend(depth, comma + Print(v.items[k]), PrintItems(v, k + 1));
    }
  }

  lemma {:induction false} MembersAreNeutral(depth: int, v: Value, k: nat)
    requires depth >= 1 && v.Obj? && Valid(v) && k <= |v.members|
    ensures Neutral(depth, PrintMembers(v, k))
    decreases v, |v.members| - k
  {
    if k < |v.members| {
      var m := v.members[k];
      var comma := if k == 0 then "" else ",";
      ValueIsNeutral(depth, m.value);
      MemberIsNeutral(depth, comma, m);
      MembersAreNeutral(depth, v, k + 1);
      NeutralAppend(depth, PrintMember(comma, m), PrintMembers(v, k + 1));
    }
  }

  lemma MemberIsNeutral(depth: int, comma: string, m: Member)
    requires comma == "" || comma == ","
    requires WhiteSpace(m.before) && ValidPieces(m.name) && WhiteSpace(m.after) && Neutral(depth, Print(m.value))
    ensures Neutral(depth, PrintMember(comma, m))
  {
    CommaIsNeutral(depth, comma);
    SpaceIsNeutral(depth, m.before);
    StringIsNeutral(depth, m.name);
    SpaceIsNeutral(depth, m.after);
    CommaIsNeutral(depth, ":");
    SixAreNeutral(depth, comma, m.before, PrintString(m.name), m.after, ":", Print(m.value));
  }

  lemma SixAreNeutral(depth: int, a: string, b: string, c: string, d: string, e: string, f: string)
    requires Neutral(depth, a) && Neutral(depth, b) && Neutral(depth, c) && Neutral(depth, d)
    requires Neutral(depth, e) && Neutral(depth, f)
    ensures Neutral(depth, a + b + c + d + e + f)
  {
    NeutralAppend(depth, a, b);
    NeutralAppend(depth, a + b, c);
    NeutralAppend(depth, a + b + c, d);
    NeutralAppend(depth, a + b + c + d, e);
    NeutralAppend(depth, a + b + c + d + e, f);
  }

  function Body(v: Value): string
    requires v.Obj?
  {
    v.space + PrintMembers(v, 0)
  }

  lemma {:induction false} BodyIsNeutral(depth: int, v: Value)
    requires depth >= 1 && v.Obj? && Valid(v)
    ensures Neutral(depth, Body(v))
    decreases v, |v.members| + 1
  {
    QuietIsNeutral(depth, v.space);
    MembersAreNeutral(depth, v, 0);
    NeutralAppend(depth, v.space, PrintMembers(v, 0));
  }

  /** An object is neutral inside another one. */
  lemma ObjectRun(depth: int, v: Value)
    requires depth >= 1 && v.Obj? && Neutral(depth + 1, Body(v))
    ensures Neutral(depth, Print(v))
  {
    PrintIsBody(v);
    BracesAreNeutral(depth, Body(v));
  }

  lemma PrintIsBody(v: Value)
    requires v.Obj?
    ensures Print(v) == "{" + Body(v) + "}"
  {
    Regroup("{", v.space, PrintMembers(v, 0));
  }

  lemma BracesAreNeutral(depth: int, body: string)
    requires depth >= 1 && Neutral(depth + 1, body)
    ensures Neutral(depth, "{" + body + "}")
  {
    RunAppend(State(depth + 1, false, false), body, "}");
    assert ("{" + body + "}")[1..] == body + "}";
    assert "}"[1..] == "";
  }

  /** Scanning on from `i` over a text that does not close the object. */
  lemma {:induction false} EndSkips(text: string, i: nat, j: nat, s: State)
    requires i <= j <= |text| && Run(s, text[i..j]).Some?
    ensures End(text, i, s) == End(text, j, Run(s, text[i..j]).value)
    decreases j - i
  {
    if i < j {
      assert text[i..j][1..] == text[i + 1..j];
      EndSkips(text, i + 1, j, Next(s, text[i]).value);
    }
  }

  lemma BracesEnd(before: string, body: string, tail: string)
    requires Neutral(1, body)
    ensures End(before + ("{" + body + "}") + tail, |before|, START) == Some(|before| + |body| + 2)
  {
    var text, first, last := before + ("{" + body + "}") + tail, |before|, |before| + |body| + 1;
    assert text[first] == '{' && text[last] == '}';
    assert text[first + 1..last] == body;
    EndSkips(text, first + 1, last, State(1, false, false));
  }

  /** From the opening brace of a printed object the scan ends right behind it,
      whatever follows. */
  lemma ObjectEnds(v: Value, before: string, tail: string)
    requires v.Obj? && Valid(v)
    ensures End(before + Print(v) + tail, |before|, START) == Some(|before| + |Print(v)|)
  {
    PrintIsBody(v);
    BodyIsNeutral(1, v);
    BracesEnd(before, Body(v), tail);
  }

  lemma FirstBrace(noise: string, v: Value, tail: string)
    requires v.Obj? && '{' !in noise
    ensures IndexFrom(noise + Print(v) + tail, "{", 0) == Some(|noise|)
  {
    var text := noise + Print(v) + tail;
    assert text[|noise|] == '{' && OccursAt(text, "{", |noise|);
    forall j | 0 <= j < |noise| ensures !OccursAt(text, "{", j) {
      assert text[j] == noise[j];
    }
    var at := IndexFrom(text, "{", 0);
    assert at.Some? ==> text[at.value] == '{';
  }

  /** Scanning inverts printing: out of any noise without an opening brace and any
      tail whatever, exactly the printed object is extracted. */
  lemma ExtractInvertsPrint(noise: string, v: Value, tail: string)
    requires v.Obj? && Valid(v) && '{' !in noise
    ensures Extract(noise + Print(v) + tail) == Some(Print(v))
  {
    FirstBrace(noise, v, tail);
    ObjectEnds(v, noise, tail);
    assert (noise + Print(v) + tail)[|noise|..|noise| + |Print(v)|] == Print(v);
  }

  // ------------------------------------------------------------ tool-call arguments

  /** The last resort for invalid JSON: bare backslashes become slashes. */
  function Rescue(text: string): string {
    seq(|text|, i requires 0 <= i < |text| =>
      if text[i] == '\\' && !(i > 0 && text[i - 1] == '\\') && !(i + 1 < |text| && text[i + 1] in "\"\\/u")
      then '/' else text[i])
  }

  /** A backslash behind no other and in front of no quote, backslash, slash or u. */
  predicate Bare(text: string, i: nat) {
    && i < |text| && text[i] == '\\' && (i == 0 || text[i - 1] != '\\')
    && (i + 1 == |text| || text[i + 1] !in ['"', '\\', '/', 'u'])
  }

  /** The rescue turns the bare backslashes into slashes and nothing else. It leaves none. */
  lemma RescueTurnsBare(text: string)
    ensures |Rescue(text)| == |text|
    ensures forall i: nat :: i < |text| ==> Rescue(text)[i] == if Bare(text, i) then '/' else text[i]
    ensures forall i: nat :: !Bare(Rescue(text), i)
    ensures Rescue(Rescue(text)) == Rescue(text)
  {
    var rescued := Rescue(text);
    forall i: nat ensures !Bare(rescued, i) {
      if i < |text| && rescued[i] == '\\' {
        assert !Bare(text, i);
        assert i > 0 ==> rescued[i - 1] == if Bare(text, i - 1) then '/' else text[i - 1];
        assert i + 1 < |text| ==> rescued[i + 1] == if Bare(text, i + 1) then '/' else text[i + 1];
      }
    }
    forall i | 0 <= i < |text| ensures Rescue(rescued)[i] == rescued[i] {
      assert !Bare(rescued, i);
    }
  }

  function Isolate(text: string): string {
    if text != "" && text[0] == '{' then text
    else
      var first := IndexFrom(text, "{", 0);
      if first.None? then text
      else
        var end := End(text, first.value, START);
        text[first.value..if end.Some? then end.value else |text|]
  }

  function Sanitize(parses: string -> bool, raw: string): string {
    var text := Isolate(Trim(raw));
    if parses(text) then text else Rescue(text)
  }

  /** What a call gets as its arguments parses or has no bare backslash. Of an object with
      nothing in front it is all, untouched as long as it parses. */
  lemma ArgumentsParseOrAreRescued(parses: string -> bool, raw: string)
    ensures parses(Sanitize(parses, raw)) || forall i: nat :: !Bare(Sanitize(parses, raw), i)
    ensures Trim(raw) != "" && Trim(raw)[0] == '{' ==>
              Sanitize(parses, raw) == if parses(Trim(raw)) then Trim(raw) else Rescue(Trim(raw))
  {
    RescueTurnsBare(Isolate(Trim(raw)));
  }

  /** src/agents/inference.ts sanitizeToolArguments; `parses` is JSON.parse. */
  method SanitizeToolArguments(parses: string -> bool, raw: string) returns (arguments: string)
    ensures arguments == Sanitize(parses, raw)
  {
    var text := IsolateObject(Trim(raw));
    arguments := if parses(text) then text else Rescue(text);
  }

  method IsolateObject(text: string) returns (isolated: string)
    ensures isolated == Isolate(text)
  {
    isolated := text;
    if !(text != "" && text[0] == '{') {
      var firstBrace := IndexFrom(text, "{", 0);
      if firstBrace.Some? {
        var end := ScanObject(text, firstBrace.value);
        isolated := text[firstBrace.value..if end.Some? then end.value else |text|];
      }
    }
  }

  lemma {:induction false} TrimStartAppend(a: string, b: string)
    ensures TrimStart(a + b) == if IsBlank(a) then TrimStart(b) else TrimStart(a) + b
    decreases |a|
  {
    if a == "" {
      assert a + b == b;
    } else if IsSpace(a[0]) {
      assert (a + b)[1..] == a[1..] + b;
      TrimStartAppend(a[1..], b);
      assert IsBlank(a) == IsBlank(a[1..]) by {
        assert forall k :: 1 <= k < |a| ==> a[k] == a[1..][k - 1];
      }
    }
  }

  lemma {:induction false} TrimEndAppend(a: string, b: string)
    ensures TrimEnd(a + b) == if IsBlank(b) then TrimEnd(a) else a + TrimEnd(b)
    decreases |b|
  {
    if b == "" {
      assert a + b == a;
    } else {
      var front := b[..|b| - 1];
      if IsSpace(b[|b| - 1]) {
        assert (a + b)[..|a + b| - 1] == a + front;
        TrimEndAppend(a, front);
        assert IsBlank(b) == IsBlank(front);
      }
    }
  }

  /** Trimming reaches no further than the printed object. */
  lemma TrimAroundObject(noise: string, v: Value, tail: string)
    requires v.Obj?
    ensures Trim(noise + Print(v) + tail)
         == (if IsBlank(noise) then "" else TrimStart(noise)) + Print(v) + (if IsBlank(tail) then "" else TrimEnd(tail))
  {
    PrintIsBody(v);
    TrimAround(noise, Print(v), tail);
  }

  lemma TrimAround(noise: string, p: string, tail: string)
    requires p != "" && !IsSpace(p[0]) && !IsSpace(p[|p| - 1])
    ensures Trim(noise + p + tail)
         == (if IsBlank(noise) then "" else TrimStart(noise)) + p + (if IsBlank(tail) then "" else TrimEnd(tail))
  {
    TrimInFront(noise, p, tail);
    TrimBehind(if IsBlank(noise) then "" else TrimStart(noise), p, tail);
  }

  lemma TrimInFront(noise: string, p: string, tail: string)
    requires p != "" && !IsSpace(p[0])
    ensures TrimStart(noise + p + tail) == (if IsBlank(noise) then "" else TrimStart(noise)) + p + tail
  {
    Regroup(noise, p, tail);
    TrimStartAppend(noise, p + tail);
    if IsBlank(noise) {
      assert "" + p + tail == p + tail;
    } else {
      Regroup(TrimStart(noise), p, tail);
    }
  }

  lemma TrimBehind(head: string, p: string, tail: string)
    requires p != "" && !IsSpace(p[|p| - 1])
    ensures TrimEnd(head + p + tail) == head + p + if IsBlank(tail) then "" else TrimEnd(tail)
  {
    TrimEndAppend(head + p, tail);
    assert (head + p)[|head + p| - 1] == p[|p| - 1];
    assert head + p + "" == head + p;
  }

  lemma {:induction false} TrimStartKeeps(s: string, c: char)
    requires c !in s
    ensures c !in TrimStart(s)
    decreases |s|
  {
    if s != "" && IsSpace(s[0]) {
      TrimStartKeeps(s[1..], c);
    }
  }

  /** Out of the same noise the argument sanitizer gives the same answer as long as
      there is noise. With none in front of the object it cuts nothing, so the
      answer is right exactly when nothing but white space follows. */
  lemma SanitizeInvertsPrint(parses: string -> bool, noise: string, v: Value, tail: string)
    requires v.Obj? && Valid(v) && '{' !in noise && parses(Print(v))
    ensures Sanitize(parses, noise + Print(v) + tail) == Print(v) <==> !IsBlank(noise) || IsBlank(tail)
  {
    if IsBlank(noise) {
      SanitizeBare(parses, noise, v, tail);
    } else {
      SanitizeBehindNoise(parses, noise, v, tail);
    }
  }

  lemma SanitizeBehindNoise(parses: string -> bool, noise: string, v: Value, tail: string)
    requires v.Obj? && Valid(v) && '{' !in noise && parses(Print(v)) && !IsBlank(noise)
    ensures Sanitize(parses, noise + Print(v) + tail) == Print(v)
  {
    TrimAroundObject(noise, v, tail);
    BlankTrims(noise);
    TrimStartKeeps(noise, '{');
    IsolatedBehindNoise(TrimStart(noise), v, if IsBlank(tail) then "" else TrimEnd(tail));
  }

  lemma SanitizeBare(parses: string -> bool, noise: string, v: Value, tail: string)
    requires v.Obj? && parses(Print(v)) && IsBlank(noise)
    ensures Sanitize(parses, noise + Print(v) + tail) == Print(v) <==> IsBlank(tail)
  {
    var rest := if IsBlank(tail) then "" else TrimEnd(tail);
    TrimAroundObject(noise, v, tail);
    assert "" + Print(v) + rest == Print(v) + rest;
    NothingCutInFront(v, rest);
    if !IsBlank(tail) {
      TrimEndNonBlank(tail);
    }
  }

  lemma IsolatedBehindNoise(head: string, v: Value, rest: string)
    requires v.Obj? && Valid(v) && head != "" && '{' !in head
    ensures Isolate(head + Print(v) + rest) == Print(v)
  {
    var text := head + Print(v) + rest;
    assert text[0] == head[0] && text[0] != '{';
    FirstBrace(head, v, rest);
    ObjectEnds(v, head, rest);
    assert text[|head|..|head| + |Print(v)|] == Print(v);
  }

  lemma NothingCutInFront(v: Value, rest: string)
    requires v.Obj?
    ensures Isolate(Print(v) + rest) == Print(v) + rest
    ensures Print(v) + rest == Print(v) <==> rest == ""
    ensures |Rescue(Print(v) + rest)| == |Print(v)| + |rest|
  {
    PrintIsBody(v);
    assert rest != "" ==> |Print(v) + rest| > |Print(v)|;
  }

  lemma {:induction false} TrimEndNonBlank(s: string)
    requires !IsBlank(s)
    ensures TrimEnd(s) != ""
    decreases |s|
  {
    if IsSpace(s[|s| - 1]) {
      TrimEndNonBlank(s[..|s| - 1]);
    }
  }
}
