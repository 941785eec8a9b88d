/** The indented text buffer every generated line passes through
    (`source.rs`): text is appended line by line, each line trimmed and
    re-indented to the current depth. */
module SourceBuffer {
  import opened Text

  /** One indentation step, in spaces. */
  const INDENT: nat := 4

  /** Rust's `char::is_whitespace`: the Unicode White_Space property. */
  predicate IsWhitespace(c: char)
  {
    || ('\t' <= c <= '\r')
    || c == ' '
    || c == '\U{85}'
    || c == '\U{A0}'
    || c == '\U{1680}'
    || ('\U{2000}' <= c <= '\U{200A}')
    || c == '\U{2028}' || c == '\U{2029}' || c == '\U{202F}' || c == '\U{205F}'
    || c == '\U{3000}'
  }

  /** `trim_start`: the suffix left after dropping leading whitespace. */
  function TrimStart(s: string): (r: string)
    ensures |r| <= |s|
  {
    if s != [] && IsWhitespace(s[0]) then TrimStart(s[1..]) else s
  }

  /** `trim_end`: the prefix left after dropping trailing whitespace. */
  function TrimEnd(s: string): (r: string)
    ensures |r| <= |s|
  {
    if s != [] && IsWhitespace(s[|s| - 1]) then TrimEnd(s[..|s| - 1]) else s
  }

  /** `str::trim`. */
  function Trim(s: string): string
  {
    TrimEnd(TrimStart(s))
  }

  lemma {:induction false} TrimStartSpec(s: string)
    ensures var r := TrimStart(s);
      && r == s[|s| - |r|..]
      && (forall k :: 0 <= k < |s| - |r| ==> IsWhitespace(s[k]))
      && (r == [] || !IsWhitespace(r[0]))
  {
    if s != [] && IsWhitespace(s[0]) {
      TrimStartSpec(s[1..]);
    }
  }

  lemma {:induction false} TrimEndSpec(s: string)
    ensures var r := TrimEnd(s);
      && r == s[..|r|]
      && (forall k :: |r| <= k < |s| ==> IsWhitespace(s[k]))
      && (r == [] || !IsWhitespace(r[|r| - 1]))
  {
    if s != [] && IsWhitespace(s[|s| - 1]) {
      TrimEndSpec(s[..|s| - 1]);
    }
  }

  /** `Trim` drops only whitespace, from both ends, and keeps none there:
      what is left is the slice starting after the leading whitespace. */
  lemma TrimIsSlice(s: string)
    ensures var r, i := Trim(s), |s| - |TrimStart(s)|;
      && (r == [] || (!IsWhitespace(r[0]) && !IsWhitespace(r[|r| - 1])))
      && i + |r| <= |s| && r == s[i..i + |r|]
      && (forall k :: 0 <= k < i ==> IsWhitespace(s[k]))
      && (forall k :: i + |r| <= k < |s| ==> IsWhitespace(s[k]))
  {
    var t := TrimStart(s);
    var r := TrimEnd(t);
    var i := |s| - |t|;
    TrimStartSpec(s);
    TrimEndSpec(t);
    if r != [] {
      assert r[0] == t[0];
    }
    assert r == s[i..i + |r|];
    forall k | i + |r| <= k < |s| ensures IsWhitespace(s[k]) {
      assert s[k] == t[k - i];
    }
  }

  /** A line is left alone by `Trim` exactly when it has no whitespace at
      either end. */
  lemma TrimFixedIff(s: string)
    ensures Trim(s) == s <==> (s == [] || (!IsWhitespace(s[0]) && !IsWhitespace(s[|s| - 1])))
  {
    TrimIsSlice(s);
  }

  lemma TrimIdempotent(s: string)
    ensures Trim(Trim(s)) == Trim(s)
  {
    TrimIsSlice(s);
    TrimFixedIff(Trim(s));
  }

  /** `str::lines`: the pieces between line feeds, where a final line feed
      does not start another (empty) line. A carriage return before a line
      feed is left on the piece; every piece is trimmed before use, which
      removes it, as `lines` does. */
  function Lines(text: string): seq<string>
    decreases |text|
  {
    if text == [] then []
    else
      var k := IndexOf(text, '\n');
      if k == |text| then [text] else [text[..k]] + Lines(text[k + 1..])
  }

  /** Each line followed by a line feed. */
  function Terminated(lines: seq<string>): string
  {
    if lines == [] then "" else lines[0] + "\n" + Terminated(lines[1..])
  }

  /** `Lines` undoes `Terminated`. */
  lemma {:induction false} LinesOfTerminated(lines: seq<string>)
    requires forall i :: 0 <= i < |lines| ==> '\n' !in lines[i]
    ensures Lines(Terminated(lines)) == lines
  {
    if lines != [] {
      var rest := Terminated(lines[1..]);
      var u := lines[0] + "\n" + rest;
      IndexOfAfterPrefix(lines[0], '\n', rest);
      assert u[..|lines[0]|] == lines[0];
      assert u[|lines[0]| + 1..] == rest;
      LinesOfTerminated(lines[1..]);
      assert lines == [lines[0]] + lines[1..];
    }
  }

  lemma TerminatedCons(line: string, lines: seq<string>)
    ensures Terminated([line] + lines) == line + "\n" + Terminated(lines)
  {
    assert ([line] + lines)[1..] == lines;
  }

  /** `Terminated` undoes `Lines`, up to the line feed that `Lines` lets a
      last line go without. */
  lemma {:induction false} TerminatedOfLines(text: string)
    ensures Terminated(Lines(text)) == if text == [] || text[|text| - 1] == '\n' then text else text + "\n"
    decreases |text|
  {
    if text != [] {
      var k := IndexOf(text, '\n');
      IndexOfSpec(text, '\n');
      if k == |text| {
        assert Lines(text) == [text];
        TerminatedCons(text, []);
      } else {
        var head, tail := text[..k], text[k + 1..];
        assert Lines(text) == [head] + Lines(tail);
        TerminatedCons(head, Lines(tail));
        TerminatedOfLines(tail);
        assert text == head + "\n" + tail;
        if tail != [] {
          assert tail[|tail| - 1] == text[|text| - 1];
        }
      }
    }
  }

  /** One pushed line: the indentation, the trimmed line, a line feed. */
  function RenderLine(indent: nat, line: string): string
  {
    Spaces(indent) + Trim(line) + "\n"
  }

  function RenderLines(indent: nat, lines: seq<string>): string
  {
    if lines == [] then ""
    else RenderLines(indent, lines[..|lines| - 1]) + RenderLine(indent, lines[|lines| - 1])
  }

  lemma {:induction false} RenderLinesAppend(indent: nat, a: seq<string>, b: seq<string>)
    ensures RenderLines(indent, a + b) == RenderLines(indent, a) + RenderLines(indent, b)
    decreases |b|
  {
    if b != [] {
      var b' := b[..|b| - 1];
      assert (a + b)[..|a + b| - 1] == a + b';
      RenderLinesAppend(indent, a, b');
    } else {
      assert a + b == a;
    }
  }

  lemma RenderLinesSnoc(indent: nat, lines: seq<string>, i: nat)
    requires i < |lines|
    ensures RenderLines(indent, lines[..i + 1]) == RenderLines(indent, lines[..i]) + RenderLine(indent, lines[i])
  {
    assert lines[..i + 1][..i] == lines[..i];
  }

  /** What `push_lines(text)` appends at depth `indent`. */
  function Pushed(indent: nat, text: string): string
  {
    RenderLines(indent, Lines(text))
  }

  /** `push_lines("")` appends nothing; `push_lines("\n")` appends one
      line holding only the indentation. */
  lemma PushedEmptyAndNewline(indent: nat)
    ensures Pushed(indent, "") == ""
    ensures Pushed(indent, "\n") == Spaces(indent) + "\n"
  {
    assert Lines("\n") == [""] by {
      assert IndexOf("\n", '\n') == 0;
      assert "\n"[..0] == "" && "\n"[1..] == "";
    }
    assert [""][..0] == [];
  }

  /** A single line already free of surrounding whitespace comes out as
      the indentation, the line and a line feed. */
  lemma PushedSingleLine(indent: nat, line: string)
    requires '\n' !in line
    requires line != [] && !IsWhitespace(line[0]) && !IsWhitespace(line[|line| - 1])
    ensures Pushed(indent, line) == Spaces(indent) + line + "\n"
  {
    TrimFixedIff(line);
    IndexOfSpec(line, '\n');
    assert IndexOf(line, '\n') == |line|;
    assert Lines(line) == [line];
    assert [line][..0] == [];
    assert RenderLines(indent, [line]) == RenderLines(indent, []) + RenderLine(indent, line);
  }

  /** `Source`: the accumulated text and the current depth. */
  class Source {
    var s: string
    var indent: nat

    /** The depth only ever moves in whole steps. */
    ghost predicate Valid()
      reads this
    {
      indent % INDENT == 0
    }

    /** `Source::default()`. */
    constructor ()
      ensures Valid()
      ensures s == "" && indent == 0
    {
      s := "";
      indent := 0;
    }

    /** Appends every line of `text`, trimmed, at the current depth. */
    method PushLines(text: string)
      requires Valid()
      modifies this
      ensures Valid()
      ensures s == old(s) + Pushed(old(indent), text)
      ensures indent == old(indent)
    {
      var lines := Lines(text);
      for i := 0 to |lines|
        invariant s == old(s) + RenderLines(indent, lines[..i])
        invariant indent == old(indent)
      {
        ghost var before := s;
        var line := Trim(lines[i]);
        PushIndent();
        s := s + line;
        Newline();
        assert s == before + Spaces(indent) + line + "\n";
        assert RenderLine(indent, lines[i]) == Spaces(indent) + line + "\n";
        assert s == before + RenderLine(indent, lines[i]);
        RenderLinesSnoc(indent, lines, i);
      }
      assert lines[..|lines|] == lines;
    }

    method PushIndent()
      modifies this
      ensures s == old(s) + Spaces(indent)
      ensures indent == old(indent)
    {
      for k := 0 to indent
        invariant s == old(s) + Spaces(k)
        invariant indent == old(indent)
      {
        s := s + " ";
      }
    }

    method Indent()
      requires Valid()
      modifies this
      ensures Valid()
      ensures indent == old(indent) + INDENT
      ensures s == old(s)
    {
      indent := indent + INDENT;
    }

    /** Steps the depth back, saturating at zero. */
    method Outdent()
      requires Valid()
      modifies this
      ensures Valid()
      ensures indent == if old(indent) >= INDENT then old(indent) - INDENT else 0
      ensures s == old(s)
    {
      indent := if indent >= INDENT then indent - INDENT else 0;
    }

    method Newline()
      modifies this
      ensures s == old(s) + "\n"
      ensures indent == old(indent)
    {
      s := s + "\n";
    }

    /** `as_str`, and equally `Deref` and the conversion into `String`. */
    method AsStr() returns (r: string)
      ensures r == s
    {
      r := s;
    }
  }
}
