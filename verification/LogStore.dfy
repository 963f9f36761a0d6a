/** Log search and log capture: src/core/log-store.ts. */
module LogStore {
  import opened Prelude

  // ---------- searching: LIKE with escaped metacharacters ----------

  const ESCAPE := '\\'

  predicate IsMeta(c: char) {
    c == '\\' || c == '%' || c == '_'
  }

  function EscapeOne(c: char): string {
    if IsMeta(c) then [ESCAPE, c] else [c]
  }

  /** `q.replace(/[\\%_]/g, m => '\\' + m)`. */
  function Escape(q: string): string {
    if q == "" then "" else EscapeOne(q[0]) + Escape(q[1..])
  }

  function LikePattern(q: string): string {
    "%" + Escape(q) + "%"
  }

  /** ASCII letters compare without case, as in SQLite's LIKE. */
  function Fold(c: char): char {
    if 'A' <= c <= 'Z' then (c as int + 32) as char else c
  }

  /** SQLite's `s LIKE pattern ESCAPE '\'`. */
  predicate Like(pattern: string, s: string)
    decreases |pattern| + |s|
  {
    if pattern == "" then s == ""
    else if pattern[0] == '%' then Like(pattern[1..], s) || (s != "" && Like(pattern, s[1..]))
    else if pattern[0] == '_' then s != "" && Like(pattern[1..], s[1..])
    else if pattern[0] == ESCAPE then
      |pattern| >= 2 && s != "" && Fold(s[0]) == Fold(pattern[1]) && Like(pattern[2..], s[1..])
    else s != "" && Fold(s[0]) == Fold(pattern[0]) && Like(pattern[1..], s[1..])
  }

  /** `s` begins with `q`, up to the case of ASCII letters. */
  ghost predicate StartsWith(s: string, q: string) {
    |q| <= |s| && forall i :: 0 <= i < |q| ==> Fold(s[i]) == Fold(q[i])
  }

  ghost predicate Contains(s: string, q: string) {
    exists i :: 0 <= i <= |s| && StartsWith(s[i..], q)
  }

  lemma LiteralStep(c: char, pattern: string, s: string)
    ensures Like(EscapeOne(c) + pattern, s) <==> s != "" && Fold(s[0]) == Fold(c) && Like(pattern, s[1..])
  {
    assert (EscapeOne(c) + pattern)[|EscapeOne(c)|..] == pattern;
  }

  /** An escaped text matches itself and nothing else, whatever metacharacters it holds. */
  lemma {:induction false} EscapedIsLiteral(q: string, rest: string, s: string)
    ensures Like(Escape(q) + rest, s) <==> StartsWith(s, q) && Like(rest, s[|q|..])
    decreases |q|
  {
    hide Like, StartsWith, EscapeOne;
    if q == "" {
      assert Escape(q) + rest == rest && s[0..] == s;
      EmptyPrefix(s);
    } else {
      assert Escape(q) + rest == EscapeOne(q[0]) + (Escape(q[1..]) + rest);
      LiteralStep(q[0], Escape(q[1..]) + rest, s);
      if s == "" {
        TooShort(s, q);
      } else {
        EscapedIsLiteral(q[1..], rest, s[1..]);
        HeadAndTail(s, q);
        if |q| <= |s| {
          assert s[1..][|q[1..]|..] == s[|q|..];
        } else {
          TooShort(s, q);
        }
      }
    }
  }

  lemma EmptyPrefix(s: string)
    ensures StartsWith(s, "")
  {
  }

  lemma TooShort(s: string, q: string)
    requires |s| < |q|
    ensures !StartsWith(s, q)
  {
  }

  lemma HeadAndTail(s: string, q: string)
    requires s != "" && q != ""
    ensures StartsWith(s, q) <==> Fold(s[0]) == Fold(q[0]) && StartsWith(s[1..], q[1..])
  {
    if Fold(s[0]) == Fold(q[0]) && StartsWith(s[1..], q[1..]) {
      forall i | 0 <= i < |q| ensures Fold(s[i]) == Fold(q[i]) {
        assert i > 0 ==> s[i] == s[1..][i - 1] && q[i] == q[1..][i - 1];
      }
    }
  }

  lemma {:induction false} PercentMatchesAnySkip(rest: string, s: string)
    ensures Like("%" + rest, s) <==> exists i :: 0 <= i <= |s| && Like(rest, s[i..])
    decreases |s|
  {
    assert ("%" + rest)[1..] == rest && s[0..] == s;
    if s != "" {
      PercentMatchesAnySkip(rest, s[1..]);
      if i :| 0 <= i <= |s[1..]| && Like(rest, s[1..][i..]) {
        assert s[1..][i..] == s[i + 1..];
      }
      if i :| 0 < i <= |s| && Like(rest, s[i..]) {
        assert s[1..][i - 1..] == s[i..];
      }
    }
  }

  lemma AnythingMatchesPercent(s: string)
    ensures Like("%", s)
  {
    PercentMatchesAnySkip("", s);
    assert "%" + "" == "%" && Like("", s[|s|..]);
  }

  /** A search finds exactly the messages that contain the text, for every text, also one made of
      backslashes, percent signs and underscores. */
  lemma SearchIsSubstring(q: string, s: string)
    ensures Like(LikePattern(q), s) <==> Contains(s, q)
  {
    var rest := Escape(q) + "%";
    assert LikePattern(q) == "%" + rest;
    PercentMatchesAnySkip(rest, s);
    forall i | 0 <= i <= |s| ensures Like(rest, s[i..]) <==> StartsWith(s[i..], q) {
      EscapedIsLiteral(q, "%", s[i..]);
      if StartsWith(s[i..], q) {
        AnythingMatchesPercent(s[i..][|q|..]);
      }
    }
  }

  // ---------- capturing: splitting a stream into lines ----------

  predicate IsSpace(c: char) {
    c == ' ' || ('\t' <= c <= '\r') || c == '\U{A0}' || c == '\U{FEFF}' || c == '\U{1680}'
        || ('\U{2000}' <= c <= '\U{200A}')
    || c == '\U{2028}' || c == '\U{2029}' || c == '\U{202F}' || c == '\U{205F}' || c == '\U{3000}'
  }

  predicate Blank(line: string) {
    forall c :: c in line ==> IsSpace(c)
  }

  /** `indexOf('\n')`, the length when there is none. */
  function NewlineAt(text: string): (n: nat)
    ensures n <= |text| && (n < |text| ==> text[n] == '\n') && '\n' !in text[..n]
  {
    if text == "" || text[0] == '\n' then 0 else
      assert text[..NewlineAt(text[1..]) + 1] == [text[0]] + text[1..][..NewlineAt(text[1..])];
      NewlineAt(text[1..]) + 1
  }

  /** The complete lines of a text. */
  function Lines(text: string): seq<string>
    decreases |text|
  {
    var n := NewlineAt(text);
    if n == |text| then [] else [text[..n]] + Lines(text[n + 1..])
  }

  /** What follows its last newline. */
  function Tail(text: string): string
    decreases |text|
  {
    var n := NewlineAt(text);
    if n == |text| then text else Tail(text[n + 1..])
  }

  function NonBlank(lines: seq<string>): seq<string> {
    if lines == [] then [] else (if Blank(lines[0]) then [] else [lines[0]]) + NonBlank(lines[1..])
  }

  function Joined(lines: seq<string>): string {
    if lines == [] then "" else lines[0] + "\n" + Joined(lines[1..])
  }

  lemma TakeLine(text: string)
    requires NewlineAt(text) < |text|
    ensures var line, rest := text[..NewlineAt(text)], text[NewlineAt(text) + 1..];
      NonBlank(Lines(text)) == (if Blank(line) then [] else [line]) + NonBlank(Lines(rest)) && Tail(text) == Tail(rest)
  {
    var line, rest := text[..NewlineAt(text)], text[NewlineAt(text) + 1..];
    assert Lines(text) == [line] + Lines(rest) && ([line] + Lines(rest))[1..] == Lines(rest);
  }

  class LogCapture {
    var buf: string
    var captured: seq<string>

    constructor ()
      ensures buf == "" && captured == []
    {
      buf, captured := "", [];
    }

    method Write(chunk: string)
      modifies this
      ensures captured == old(captured) + NonBlank(Lines(old(buf) + chunk))
      ensures buf == Tail(old(buf) + chunk)
    {
      hide *;
      buf := buf + chunk;
      ghost var text := buf;
      while NewlineAt(buf) < |buf|
        invariant captured + NonBlank(Lines(buf)) == old(captured) + NonBlank(Lines(text))
        invariant Tail(buf) == Tail(text)
        decreases |buf|
      {
        TakeLine(buf);
        var nl := NewlineAt(buf);
        var line := buf[..nl];
        buf := buf[nl + 1..];
        ghost var later := NonBlank(Lines(buf));
        if !Blank(line) {
          assert captured + [line] + later == captured + ([line] + later);
          captured := captured + [line];
        } else {
          assert captured + ([] + later) == captured + later;
        }
      }
      NoLines(buf);
    }
  }

  lemma NoLines(text: string)
    requires NewlineAt(text) == |text|
    ensures NonBlank(Lines(text)) == [] && Tail(text) == text
  {
  }

  lemma CutAt(text: string, n: nat)
    requires n < |text| && text[n] == '\n'
    ensures text == text[..n] + "\n" + text[n + 1..]
  {
  }

  /** The text is its lines and its tail, put together again with newlines. */
  lemma {:induction false} CutKeepsText(text: string)
    ensures Joined(Lines(text)) + Tail(text) == text
    decreases |text|
  {
    var n := NewlineAt(text);
    if n < |text| {
      var line, rest := text[..n], text[n + 1..];
      CutAt(text, n);
      CutKeepsText(rest);
      assert Lines(text) == [line] + Lines(rest) && Tail(text) == Tail(rest);
      hide Lines, Tail, NewlineAt;
      JoinOneMore(line, Lines(rest));
      assert line + "\n" + Joined(Lines(rest)) + Tail(rest) == line + "\n" + (Joined(Lines(rest)) + Tail(rest));
    }
  }

  lemma JoinOneMore(line: string, lines: seq<string>)
    ensures Joined([line] + lines) == line + "\n" + Joined(lines)
  {
    assert ([line] + lines)[1..] == lines;
  }

  /** Neither the lines nor the tail hold a newline. */
  lemma {:induction false} CutAtNewlines(text: string)
    ensures '\n' !in Tail(text) && forall line :: line in Lines(text) ==> '\n' !in line
    decreases |text|
  {
    var n := NewlineAt(text);
    if n < |text| {
      CutAtNewlines(text[n + 1..]);
    } else {
      assert text[..n] == text;
    }
  }

  lemma {:induction false} CutIsUnique(lines: seq<string>, tail: string)
    requires '\n' !in tail && forall line :: line in lines ==> '\n' !in line
    ensures Lines(Joined(lines) + tail) == lines && Tail(Joined(lines) + tail) == tail
  {
    var text := Joined(lines) + tail;
    if lines == [] {
      assert text == tail;
      assert NewlineAt(tail) == |tail|;
    } else {
      var line := lines[0];
      var rest := Joined(lines[1..]) + tail;
      assert text == line + "\n" + rest;
      assert line in lines;
      FirstNewline(line, rest);
      CutIsUnique(lines[1..], tail);
      assert text[|line| + 1..] == rest && text[..|line|] == line;
    }
  }

  lemma {:induction false} FirstNewline(line: string, rest: string)
    requires '\n' !in line
    ensures NewlineAt(line + "\n" + rest) == |line|
  {
    var text := line + "\n" + rest;
    if line != "" {
      assert text[1..] == line[1..] + "\n" + rest;
      FirstNewline(line[1..], rest);
    }
  }

  lemma {:induction false} JoinedConcat(a: seq<string>, b: seq<string>)
    ensures Joined(a + b) == Joined(a) + Joined(b)
  {
    if a == [] {
      assert a + b == b;
    } else {
      assert (a + b)[1..] == a[1..] + b;
      JoinedConcat(a[1..], b);
    }
  }

  /** Splitting can stop after any prefix and go on from its tail. */
  lemma LinesResume(a: string, b: string)
    ensures Lines(a + b) == Lines(a) + Lines(Tail(a) + b) && Tail(a + b) == Tail(Tail(a) + b)
  {
    hide Lines, Tail, Joined;
    var more := Tail(a) + b;
    CutAtNewlines(a);
    CutAtNewlines(more);
    CutKeepsText(a);
    CutKeepsText(more);
    JoinedConcat(Lines(a), Lines(more));
    assert Joined(Lines(a)) + Tail(a) + b == Joined(Lines(a)) + more;
    assert Joined(Lines(a)) + (Joined(Lines(more)) + Tail(more)) == Joined(Lines(a)) + Joined(Lines(more)) + Tail(more);
    CutIsUnique(Lines(a) + Lines(more), Tail(more));
  }

  lemma {:induction false} NonBlankConcat(a: seq<string>, b: seq<string>)
    ensures NonBlank(a + b) == NonBlank(a) + NonBlank(b)
  {
    if a == [] {
      assert a + b == b;
    } else {
      assert (a + b)[1..] == a[1..] + b;
      NonBlankConcat(a[1..], b);
    }
  }

  /** What the capture stream has stored and still holds after some chunks. */
  function Feed(chunks: seq<string>): (seq<string>, string) {
    if chunks == [] then ([], "")
    else
      var (captured, buf) := Feed(chunks[..|chunks| - 1]);
      var text := buf + chunks[|chunks| - 1];
      (captured + NonBlank(Lines(text)), Tail(text))
  }

  function Concat(chunks: seq<string>): string {
    if chunks == [] then "" else Concat(chunks[..|chunks| - 1]) + chunks[|chunks| - 1]
  }

  /** However a text is cut into chunks, the same non-blank lines are captured and the same tail is left as
      when it arrives in one piece. */
  lemma {:induction false} CaptureIsChunkInvariant(chunks: seq<string>)
    ensures Feed(chunks) == (NonBlank(Lines(Concat(chunks))), Tail(Concat(chunks)))
  {
    if chunks != [] {
      var last := |chunks| - 1;
      CaptureIsChunkInvariant(chunks[..last]);
      var text := Concat(chunks[..last]);
      LinesResume(text, chunks[last]);
      NonBlankConcat(Lines(text), Lines(Tail(text) + chunks[last]));
    }
  }
}
