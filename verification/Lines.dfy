/** Splitting at newlines, as String.prototype.split does it. */
module Lines {
  import opened Text

  /** A text split at its newlines; the last piece is what follows the last one. */
  function Split(text: string): (pieces: seq<string>)
    ensures pieces != []
    decreases |text|
  {
    var nl := IndexFrom(text, "\n", 0);
    if nl.None? then [text] else [text[..nl.value]] + Split(text[nl.value + 1..])
  }

  function Unsplit(pieces: seq<string>): string
    requires pieces != []
  {
    if |pieces| == 1 then pieces[0] else pieces[0] + "\n" + Unsplit(pieces[1..])
  }

  lemma OneLineSplit(text: string)
    requires '\n' !in text
    ensures Split(text) == [text]
  {
    forall j: nat ensures !OccursAt(text, "\n", j) {
      assert j < |text| ==> text[j..j + 1] == [text[j]];
    }
  }

  lemma MarkAt(before: string, mark: char, rest: string)
    requires mark !in before
    ensures IndexFrom(before + [mark] + rest, [mark], 0) == Some(|before|)
  {
    var text := before + [mark] + rest;
    assert text[|before|] == mark && OccursAt(text, [mark], |before|);
    forall j | 0 <= j < |before| ensures !OccursAt(text, [mark], j) {
      assert text[j] == before[j];
    }
    var at := IndexFrom(text, [mark], 0);
    assert at.Some? ==> text[at.value] == mark;
  }

  lemma SplitHead(line: string, rest: string)
    requires '\n' !in line
    ensures Split(line + "\n" + rest) == [line] + Split(rest)
  {
    MarkAt(line, '\n', rest);
    var text := line + "\n" + rest;
    assert text[..|line|] == line && text[|line| + 1..] == rest;
  }

  /** The pieces contain no newline, and with newlines between them they are the text:
      splitting is the inverse of joining. */
  lemma {:induction false} SplitInverts(text: string)
    ensures Unsplit(Split(text)) == text
    ensures forall piece :: piece in Split(text) ==> '\n' !in piece
    decreases |text|
  {
    var nl := IndexFrom(text, "\n", 0);
    if nl.None? {
      forall k | 0 <= k < |text| ensures text[k] != '\n' {
        assert !OccursAt(text, "\n", k);
      }
    } else {
      SplitInverts(text[nl.value + 1..]);
      assert OccursAt(text, "\n", nl.value);
      assert text == text[..nl.value] + "\n" + text[nl.value + 1..];
      forall k | 0 <= k < nl.value ensures text[k] != '\n' {
        assert !OccursAt(text, "\n", k);
      }
    }
  }

  lemma RegroupLine(line: string, rest: string, b: string)
    ensures line + "\n" + rest + b == line + "\n" + (rest + b)
  {
  }

  lemma ConsFront<T>(x: T, s: seq<T>)
    requires s != []
    ensures var all := [x] + s;
            all[..|all| - 1] == [x] + s[..|s| - 1] && all[|all| - 1] == s[|s| - 1]
  {
  }

  function Front(text: string): seq<string> {
    Split(text)[..|Split(text)| - 1]
  }

  function Last(text: string): string {
    Split(text)[|Split(text)| - 1]
  }

  lemma SplitAppendLine(line: string, rest: string, b: string)
    requires '\n' !in line && Split(rest + b) == Front(rest) + Split(Last(rest) + b)
    ensures var a := line + "\n" + rest;
            Split(a + b) == Front(a) + Split(Last(a) + b)
  {
    RegroupLine(line, rest, b);
    SplitHead(line, rest + b);
    SplitHead(line, rest);
    ConsFront(line, Split(rest));
    Regroup([line], Front(rest), Split(Last(rest) + b));
  }

  /** Text that arrives later extends only the last piece. */
  lemma {:induction false} SplitAppend(a: string, b: string)
    ensures Split(a + b) == Front(a) + Split(Last(a) + b)
    decreases |a|
  {
    var nl := IndexFrom(a, "\n", 0);
    LineBefore(a);
    if nl.None? {
      assert [] + Split(a + b) == Split(a + b);
    } else {
      SplitAppend(a[nl.value + 1..], b);
      SplitAppendLine(a[..nl.value], a[nl.value + 1..], b);
    }
  }

  lemma LastPiece(a: string)
    ensures var pieces := Split(a);
            pieces == pieces[..|pieces| - 1] + [pieces[|pieces| - 1]] && '\n' !in pieces[|pieces| - 1]
  {
    SplitInverts(a);
    var pieces := Split(a);
    assert pieces[|pieces| - 1] in pieces;
  }

  /** Splitting distributes over a newline. */
  lemma SplitAtNewline(a: string, b: string)
    ensures Split(a + "\n" + b) == Split(a) + Split(b)
  {
    var pieces := Split(a);
    var front, last := pieces[..|pieces| - 1], pieces[|pieces| - 1];
    LastPiece(a);
    calc {
      Split(a + "\n" + b);
      { Regroup(a, "\n", b); }
      Split(a + ("\n" + b));
      { SplitAppend(a, "\n" + b); }
      front + Split(last + ("\n" + b));
      { Regroup(last, "\n", b); }
      front + Split(last + "\n" + b);
      { SplitHead(last, b); }
      front + ([last] + Split(b));
      { Regroup(front, [last], Split(b)); }
      pieces + Split(b);
    }
  }

  lemma {:induction false} UnsplitAppend(a: seq<string>, b: seq<string>)
    requires a != [] && b != []
    ensures Unsplit(a + b) == Unsplit(a) + "\n" + Unsplit(b)
  {
    assert (a + b)[1..] == a[1..] + b;
    if |a| > 1 {
      UnsplitAppend(a[1..], b);
    }
  }

  /** A prefix without newline goes to the first piece. */
  lemma SplitPrefix(prefix: string, text: string)
    requires '\n' !in prefix
    ensures Split(prefix + text) == Split(text)[0 := prefix + Split(text)[0]]
  {
    var nl := IndexFrom(text, "\n", 0);
    LineBefore(text);
    if nl.None? {
      OneLineSplit(text);
      OneLineSplit(prefix + text);
    } else {
      SplitPrefixLine(prefix, text[..nl.value], text[nl.value + 1..]);
    }
  }

  lemma SplitPrefixLine(prefix: string, line: string, rest: string)
    requires '\n' !in prefix && '\n' !in line
    ensures var text := line + "\n" + rest;
            Split(prefix + text) == Split(text)[0 := prefix + Split(text)[0]]
  {
    SplitHead(line, rest);
    SplitHead(prefix + line, rest);
    RegroupPrefix(prefix, line, rest);
    ReplaceHead(line, Split(rest), prefix + line);
  }

  lemma RegroupPrefix(prefix: string, line: string, rest: string)
    ensures prefix + (line + "\n" + rest) == prefix + line + "\n" + rest
  {
  }

  lemma ReplaceHead<T>(x: T, s: seq<T>, y: T)
    ensures ([x] + s)[0 := y] == [y] + s
  {
  }

  lemma LineBefore(text: string)
    ensures var nl := IndexFrom(text, "\n", 0);
            if nl.None? then '\n' !in text
            else '\n' !in text[..nl.value] && text == text[..nl.value] + "\n" + text[nl.value + 1..]
  {
    var nl := IndexFrom(text, "\n", 0);
    var end := if nl.None? then |text| else nl.value;
    forall k | 0 <= k < end ensures text[k] != '\n' {
      assert !OccursAt(text, "\n", k);
    }
    if nl.Some? {
      assert OccursAt(text, "\n", nl.value);
    }
  }

  /** A suffix without newline goes to the last piece. */
  lemma SplitSuffix(text: string, suffix: string)
    requires '\n' !in suffix
    ensures var pieces := Split(text);
            Split(text + suffix) == pieces[..|pieces| - 1] + [pieces[|pieces| - 1] + suffix]
  {
    SplitAppend(text, suffix);
    LastPiece(text);
    OneLineSplit(Split(text)[|Split(text)| - 1] + suffix);
  }
}
