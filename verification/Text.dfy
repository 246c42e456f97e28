/** String operations of the host language that several components share. */
module Text {
  datatype Option<+T> = None | Some(value: T) {
    function GetOr(default: T): T {
      if Some? then value else default
    }
  }

  /** White space as String.prototype.trim understands it (ECMA-262, section 22.1.3.32). */
  predicate IsSpace(c: char) {
    || '\t' <= c <= '\r' || c == ' ' || c == '\U{A0}' || c == '\U{1680}' || '\U{2000}' <= c <= '\U{200A}'
    || c == '\U{2028}' || c == '\U{2029}' || c == '\U{202F}' || c == '\U{205F}' || c == '\U{3000}' || c == '\U{FEFF}'
  }

  predicate IsBlank(s: string) {
    forall k :: 0 <= k < |s| ==> IsSpace(s[k])
  }

  function TrimStart(s: string): string {
    if s != "" && IsSpace(s[0]) then TrimStart(s[1..]) else s
  }

  function TrimEnd(s: string): string {
    if s != "" && IsSpace(s[|s| - 1]) then TrimEnd(s[..|s| - 1]) else s
  }

  function Trim(s: string): string {
    TrimEnd(TrimStart(s))
  }

  /** Lower-casing of the ASCII letters. */
  function ToLower(s: string): string {
    seq(|s|, i requires 0 <= i < |s| => if 'A' <= s[i] <= 'Z' then s[i] - 'A' + 'a' else s[i])
  }

  /** Trimming takes blanks away at both ends and stops at the first other characters. */
  lemma TrimTakesBlanks(s: string) returns (front: string, back: string)
    ensures s == front + Trim(s) + back && IsBlank(front) && IsBlank(back)
    ensures Trim(s) != "" ==> !IsSpace(Trim(s)[0]) && !IsSpace(Trim(s)[|Trim(s)| - 1])
  {
    front := StartTaken(s);
    back := EndTaken(TrimStart(s));
    Regroup(front, Trim(s), back);
  }

  lemma {:induction false} StartTaken(s: string) returns (front: string)
    ensures s == front + TrimStart(s) && IsBlank(front)
    ensures TrimStart(s) != "" ==> !IsSpace(TrimStart(s)[0])
  {
    front := "";
    if s != "" && IsSpace(s[0]) {
      var more := StartTaken(s[1..]);
      front := [s[0]] + more;
      Regroup([s[0]], more, TrimStart(s));
      assert s == [s[0]] + s[1..];
    }
  }

  lemma {:induction false} EndTaken(s: string) returns (back: string)
    ensures s == TrimEnd(s) + back && IsBlank(back)
    ensures TrimEnd(s) != "" ==> TrimEnd(s)[0] == s[0] && !IsSpace(TrimEnd(s)[|TrimEnd(s)| - 1])
  {
    back := "";
    if s != "" && IsSpace(s[|s| - 1]) {
      var more := EndTaken(s[..|s| - 1]);
      back := more + [s[|s| - 1]];
      Regroup(TrimEnd(s), more, [s[|s| - 1]]);
      assert s == s[..|s| - 1] + [s[|s| - 1]];
    }
  }

  /** The same character, the case of ASCII letters set aside. */
  predicate Alike(a: char, b: char) {
    || a == b
    || ('A' <= a <= 'Z' && b as int == a as int + 32)
    || ('A' <= b <= 'Z' && a as int == b as int + 32)
  }

  predicate AlikeAt(s: string, part: string, i: nat) {
    i + |part| <= |s| && forall k :: 0 <= k < |part| ==> Alike(s[i + k], part[k])
  }

  lemma LowerIsAlike(a: string, b: string)
    requires |a| == |b|
    ensures ToLower(a) == ToLower(b) <==> forall k :: 0 <= k < |a| ==> Alike(a[k], b[k])
  {
    if ToLower(a) == ToLower(b) {
      forall k | 0 <= k < |a| ensures Alike(a[k], b[k]) {
        assert ToLower(a)[k] == ToLower(b)[k];
      }
    }
  }

  lemma LowerOccursAt(s: string, part: string, i: nat)
    ensures OccursAt(ToLower(s), ToLower(part), i) <==> AlikeAt(s, part, i)
  {
    if i + |part| <= |s| {
      LowerIsAlike(s[i..i + |part|], part);
      assert ToLower(s)[i..i + |part|] == ToLower(s[i..i + |part|]);
    }
  }

  /** A text includes another in lower case exactly when it holds it somewhere, the case
      of letters set aside. */
  lemma LowerIncludes(s: string, part: string)
    ensures Includes(ToLower(s), ToLower(part)) <==> exists i: nat :: AlikeAt(s, part, i)
  {
    forall i: nat ensures OccursAt(ToLower(s), ToLower(part), i) <==> AlikeAt(s, part, i) {
      LowerOccursAt(s, part, i);
    }
  }

  predicate OccursAt(s: string, part: string, i: nat) {
    i + |part| <= |s| && s[i..i + |part|] == part
  }

  /** First index at or after `from` where `part` occurs, if any. */
  function IndexFrom(s: string, part: string, from: nat): (at: Option<nat>)
    ensures at.Some? ==> from <= at.value && OccursAt(s, part, at.value)
    ensures at.Some? ==> forall j :: from <= j < at.value ==> !OccursAt(s, part, j)
    ensures at.None? ==> forall j :: from <= j ==> !OccursAt(s, part, j)
    decreases |s| - from
  {
    if from + |part| > |s| then None
    else if OccursAt(s, part, from) then Some(from)
    else IndexFrom(s, part, from + 1)
  }

  lemma FirstAt(s: string, part: string, k: nat)
    requires OccursAt(s, part, k) && forall j: nat :: j < k ==> !OccursAt(s, part, j)
    ensures IndexFrom(s, part, 0) == Some(k)
  {
  }

  predicate Includes(s: string, part: string) {
    IndexFrom(s, part, 0).Some?
  }

  function Decimal(n: nat): string {
    (if n < 10 then "" else Decimal(n / 10)) + ["0123456789"[n % 10]]
  }

  function Join(parts: seq<string>): string {
    if parts == [] then "" else parts[0] + Join(parts[1..])
  }

  /** Concatenation is associative; stated apart so that no other fact is in the way. */
  lemma Regroup<T>(a: seq<T>, b: seq<T>, c: seq<T>)
    ensures a + (b + c) == a + b + c
  {
  }

  lemma {:induction false} JoinSnoc(parts: seq<string>, last: string)
    ensures Join(parts + [last]) == Join(parts) + last
  {
    if parts == [] {
      assert Join([last]) == last + Join([]);
    } else {
      assert (parts + [last])[1..] == parts[1..] + [last];
      JoinSnoc(parts[1..], last);
    }
  }

  lemma {:induction false} JoinAppend(a: seq<string>, b: seq<string>)
    ensures Join(a + b) == Join(a) + Join(b)
  {
    if a == [] {
      assert a + b == b;
    } else {
      assert (a + b)[1..] == a[1..] + b;
      JoinAppend(a[1..], b);
    }
  }

  lemma {:induction false} BlankTrims(s: string)
    ensures TrimStart(s) == "" <==> IsBlank(s)
    ensures Trim(s) == "" <==> IsBlank(s)
  {
    if s != "" && IsSpace(s[0]) {
      BlankTrims(s[1..]);
      assert s == [s[0]] + s[1..];
    } else if s != "" {
      var t := s;
      while IsSpace(t[|t| - 1])
        invariant t != "" && t[0] == s[0] && TrimEnd(t) == TrimEnd(s)
        decreases |t|
      {
        t := t[..|t| - 1];
      }
    }
  }
}
