/** The text each printing step of the Java emitter appends
    (`print_package`, `print_imports`, `print_class_header`,
    `print_block_start`/`print_block_end`, `print_fields`,
    `print_constructor`, `print_func_signature` and the class printed by
    `finish_one` in `wasmtime_java.rs`), as pure functions of what is
    printed, together with the lines each text reads back as. */
module Emit {
  import opened Wrappers
  import opened Text
  import opened SourceBuffer
  import opened JavaTypes
  import opened JavaDeps
  import opened Aggregate
  import Wit

  // ------------------------------------------------------------------
  // Layout of pushed lines

  /** Each line behind `indent` spaces. */
  function Indented(indent: nat, lines: seq<string>): (r: seq<string>)
    ensures |r| == |lines|
    ensures forall i :: 0 <= i < |lines| ==> r[i] == Spaces(indent) + lines[i]
  {
    if lines == [] then [] else [Spaces(indent) + lines[0]] + Indented(indent, lines[1..])
  }

  /** `text` is exactly `lines`, each ended by a line feed, and splitting
      it into lines gives them back. */
  predicate LaidOut(text: string, lines: seq<string>)
  {
    text == Terminated(lines) && Lines(text) == lines
  }

  /** A line that `push_lines` passes through unchanged: one line, with
      nothing for `trim` to remove. */
  predicate PlainLine(line: string)
  {
    line != [] && '\n' !in line && !IsWhitespace(line[0]) && !IsWhitespace(line[|line| - 1])
  }

  lemma {:induction false} SpacesHoldNoNewline(n: nat)
    ensures '\n' !in Spaces(n)
  {
    if n > 0 {
      SpacesHoldNoNewline(n - 1);
      assert Spaces(n) == Spaces(n - 1) + " ";
    }
  }

  lemma {:induction false} TerminatedAppend(a: seq<string>, b: seq<string>)
    ensures Terminated(a + b) == Terminated(a) + Terminated(b)
  {
    if a == [] {
      assert a + b == b;
    } else {
      assert (a + b)[1..] == a[1..] + b;
      TerminatedAppend(a[1..], b);
    }
  }

  lemma IndentedAppend(indent: nat, a: seq<string>, b: seq<string>)
    ensures Indented(indent, a + b) == Indented(indent, a) + Indented(indent, b)
  {
  }

  /** Lines free of line feeds, laid out, read back as themselves. */
  lemma ReadBack(text: string, lines: seq<string>)
    requires text == Terminated(lines)
    requires forall i :: 0 <= i < |lines| ==> '\n' !in lines[i]
    ensures LaidOut(text, lines)
  {
    LinesOfTerminated(lines);
  }

  lemma IndentedNoNewline(indent: nat, lines: seq<string>)
    requires forall i :: 0 <= i < |lines| ==> '\n' !in lines[i]
    ensures forall i :: 0 <= i < |lines| ==> '\n' !in Indented(indent, lines)[i]
  {
    SpacesHoldNoNewline(indent);
  }

  lemma IndentedPairNoNewline(indent: nat, a: string, b: string)
    requires '\n' !in a && '\n' !in b
    ensures forall i :: 0 <= i < |Indented(indent, [a, b])| ==> '\n' !in Indented(indent, [a, b])[i]
  {
    var pair := [a, b];
    assert forall i :: 0 <= i < |pair| ==> '\n' !in pair[i];
    IndentedNoNewline(indent, pair);
  }

  /** Pushing a plain line writes it once, indented. */
  lemma PushedPlain(indent: nat, line: string)
    requires PlainLine(line)
    ensures Pushed(indent, line) == Terminated(Indented(indent, [line]))
  {
    PushedSingleLine(indent, line);
    TerminatedCons(Spaces(indent) + line, []);
  }

  /** Pushing `"\n"` writes one line holding only the indentation, and
      pushing `""` writes nothing. */
  lemma PushedBlank(indent: nat)
    ensures Pushed(indent, "\n") == Terminated(Indented(indent, [""]))
    ensures Pushed(indent, "") == ""
  {
    PushedEmptyAndNewline(indent);
    assert Spaces(indent) + "" == Spaces(indent);
    TerminatedCons(Spaces(indent), []);
  }

  /** Several texts pushed one after the other. */
  function PushedAll(indent: nat, texts: seq<string>): string
  {
    if texts == [] then "" else PushedAll(indent, texts[..|texts| - 1]) + Pushed(indent, texts[|texts| - 1])
  }

  lemma {:induction false} PushedAllPlain(indent: nat, lines: seq<string>)
    requires forall i :: 0 <= i < |lines| ==> PlainLine(lines[i])
    ensures PushedAll(indent, lines) == Terminated(Indented(indent, lines))
  {
    if lines != [] {
      var init, last := lines[..|lines| - 1], lines[|lines| - 1];
      assert PushedAll(indent, lines) == PushedAll(indent, init) + Pushed(indent, last);
      assert PushedAll(indent, init) == Terminated(Indented(indent, init)) by {
        PushedAllPlain(indent, init);
      }
      assert Pushed(indent, last) == Terminated(Indented(indent, [last])) by {
        PushedPlain(indent, last);
      }
      assert Indented(indent, lines) == Indented(indent, init) + Indented(indent, [last]) by {
        assert lines == init + [last];
        IndentedAppend(indent, init, [last]);
      }
      TerminatedAppend(Indented(indent, init), Indented(indent, [last]));
    }
  }

  lemma {:induction false} RenderLinesPlain(indent: nat, lines: seq<string>)
    requires forall i :: 0 <= i < |lines| ==> PlainLine(lines[i])
    ensures RenderLines(indent, lines) == Terminated(Indented(indent, lines))
  {
    if lines != [] {
      var init, last := lines[..|lines| - 1], lines[|lines| - 1];
      RenderLinesPlain(indent, init);
      RenderLinePlain(indent, last);
      assert Indented(indent, lines) == Indented(indent, init) + Indented(indent, [last]) by {
        assert lines == init + [last];
        IndentedAppend(indent, init, [last]);
      }
      TerminatedAppend(Indented(indent, init), Indented(indent, [last]));
    }
  }

  lemma RenderLinePlain(indent: nat, line: string)
    requires PlainLine(line)
    ensures RenderLine(indent, line) == Terminated(Indented(indent, [line]))
  {
    TrimFixedIff(line);
    TerminatedCons(Spaces(indent) + line, []);
  }

  /** `str::lines` undoes joining with line feeds when the last piece is
      not empty. */
  lemma {:induction false} LinesOfJoin(parts: seq<string>)
    requires forall i :: 0 <= i < |parts| ==> '\n' !in parts[i]
    requires parts == [] || parts[|parts| - 1] != []
    ensures Lines(Join("\n", parts)) == parts
    decreases |parts|
  {
    if |parts| == 1 {
      IndexOfSpec(parts[0], '\n');
      assert IndexOf(parts[0], '\n') == |parts[0]|;
      assert parts == [parts[0]];
    } else if |parts| > 1 {
      var head, rest := parts[0], Join("\n", parts[1..]);
      var s := head + "\n" + rest;
      assert Join("\n", parts) == s;
      IndexOfAfterPrefix(head, '\n', rest);
      assert s[..|head|] == head && s[|head| + 1..] == rest;
      LinesOfJoin(parts[1..]);
      assert parts == [head] + parts[1..];
    }
  }

  /** Pushing plain lines joined by line feeds writes each once, indented. */
  lemma PushedJoinPlain(indent: nat, lines: seq<string>)
    requires forall i :: 0 <= i < |lines| ==> PlainLine(lines[i])
    ensures Pushed(indent, Join("\n", lines)) == Terminated(Indented(indent, lines))
  {
    LinesOfJoin(lines);
    RenderLinesPlain(indent, lines);
  }

  // ------------------------------------------------------------------
  // print_package, print_imports, print_class_header, print_block_*

  function PackageLine(package: string): string
  {
    "package " + package + ";"
  }

  /** `print_package`. */
  function PackageText(indent: nat, package: string): string
  {
    Pushed(indent, PackageLine(package)) + Pushed(indent, "\n")
  }

  /** The package statement, then one blank line. */
  lemma PackageLayout(indent: nat, package: string)
    requires '\n' !in package
    ensures LaidOut(PackageText(indent, package), Indented(indent, [PackageLine(package), ""]))
  {
    PushedPlain(indent, PackageLine(package));
    PushedBlank(indent);
    IndentedAppend(indent, [PackageLine(package)], [""]);
    TerminatedAppend(Indented(indent, [PackageLine(package)]), Indented(indent, [""]));
    IndentedNoNewline(indent, [PackageLine(package), ""]);
    ReadBack(PackageText(indent, package), Indented(indent, [PackageLine(package), ""]));
  }

  function ImportLine(dep: JavaDep): string
  {
    "import " + dep.baseImport + ";"
  }

  function ImportLines(deps: seq<JavaDep>): (r: seq<string>)
    ensures |r| == |deps|
    ensures forall i :: 0 <= i < |deps| ==> r[i] == ImportLine(deps[i])
  {
    if deps == [] then [] else [ImportLine(deps[0])] + ImportLines(deps[1..])
  }

  /** `print_imports` over the dependencies in the order given. */
  function ImportsText(indent: nat, deps: seq<JavaDep>): string
  {
    PushedAll(indent, ImportLines(deps)) + (if deps == [] then "" else Pushed(indent, "\n"))
  }

  /** `print_imports`'s loop followed by its closing blank line writes
      `ImportsText`. */
  lemma ImportsTextSteps(indent: nat, deps: seq<JavaDep>, s0: string, s1: string, s2: string)
    requires s1 == s0 + PushedAll(indent, ImportLines(deps))
    requires deps == [] ==> s2 == s1
    requires deps != [] ==> s2 == s1 + Pushed(indent, "\n")
    ensures s2 == s0 + ImportsText(indent, deps)
  {
  }

  /** One import statement per dependency, in order, then a blank line
      only when there was at least one. */
  lemma ImportsLayout(indent: nat, deps: seq<JavaDep>)
    requires forall i :: 0 <= i < |deps| ==> '\n' !in deps[i].baseImport
    ensures LaidOut(ImportsText(indent, deps),
                    Indented(indent, ImportLines(deps) + (if deps == [] then [] else [""])))
  {
    var lines := ImportLines(deps) + (if deps == [] then [] else [""]);
    ImportsTerminated(indent, deps);
    ImportLinesNoNewline(deps);
    IndentedNoNewline(indent, lines);
    ReadBack(ImportsText(indent, deps), Indented(indent, lines));
  }

  lemma ImportLinesNoNewline(deps: seq<JavaDep>)
    requires forall i :: 0 <= i < |deps| ==> '\n' !in deps[i].baseImport
    ensures var lines := ImportLines(deps) + (if deps == [] then [] else [""]);
      forall i :: 0 <= i < |lines| ==> '\n' !in lines[i]
  {
    var lines := ImportLines(deps) + (if deps == [] then [] else [""]);
    forall i | 0 <= i < |lines| ensures '\n' !in lines[i] {
      if i < |deps| {
        ImportLinePlain(deps[i]);
      }
    }
  }

  lemma ImportsTerminated(indent: nat, deps: seq<JavaDep>)
    requires forall i :: 0 <= i < |deps| ==> '\n' !in deps[i].baseImport
    ensures ImportsText(indent, deps) == Terminated(Indented(indent, ImportLines(deps) + (if deps == [] then [] else [""])))
  {
    var lines := ImportLines(deps);
    forall i | 0 <= i < |lines| ensures PlainLine(lines[i]) {
      ImportLinePlain(deps[i]);
    }
    PushedAllPlain(indent, lines);
    if deps == [] {
      assert lines + [] == lines;
    } else {
      PushedBlank(indent);
      IndentedAppend(indent, lines, [""]);
      TerminatedAppend(Indented(indent, lines), Indented(indent, [""]));
    }
  }

  lemma ImportLinePlain(dep: JavaDep)
    requires '\n' !in dep.baseImport
    ensures PlainLine(ImportLine(dep))
  {
    var l := ImportLine(dep);
    assert l[0] == 'i' && l[|l| - 1] == ';';
  }

  function ClassHeaderLine(className: string): string
  {
    "public class " + className
  }

  /** `print_class_header`. */
  function ClassHeaderText(indent: nat, className: string): string
  {
    Pushed(indent, ClassHeaderLine(className))
  }

  lemma ClassHeaderLayout(indent: nat, className: string)
    requires PlainLine(className)
    ensures LaidOut(ClassHeaderText(indent, className), Indented(indent, [ClassHeaderLine(className)]))
  {
    PushedPlain(indent, ClassHeaderLine(className));
    IndentedNoNewline(indent, [ClassHeaderLine(className)]);
    ReadBack(ClassHeaderText(indent, className), Indented(indent, [ClassHeaderLine(className)]));
  }

  /** `print_block_start` at depth `indent` (the depth then grows by
      `INDENT`). */
  function BlockStartText(indent: nat): string
  {
    Pushed(indent, "{")
  }

  /** `Source::outdent` on a depth. */
  function Outdented(indent: nat): nat
  {
    if indent >= INDENT then indent - INDENT else 0
  }

  /** `print_block_end` entered at depth `indent`: it outdents first. */
  function BlockEndText(indent: nat): string
  {
    Pushed(Outdented(indent), "}") + Pushed(Outdented(indent), "")
  }

  /** A block opens with `{` at the outer depth and closes with `}` at the
      same depth; the closing empty push adds nothing. */
  lemma BlockLayout(indent: nat)
    ensures LaidOut(BlockStartText(indent), Indented(indent, ["{"]))
    ensures LaidOut(BlockEndText(indent + INDENT), Indented(indent, ["}"]))
  {
    PushedPlain(indent, "{");
    PushedPlain(indent, "}");
    PushedBlank(indent);
    IndentedNoNewline(indent, ["{"]);
    IndentedNoNewline(indent, ["}"]);
    ReadBack(BlockStartText(indent), Indented(indent, ["{"]));
    ReadBack(BlockEndText(indent + INDENT), Indented(indent, ["}"]));
  }

  // ------------------------------------------------------------------
  // print_fields, print_constructor

  /** One field declaration; the field's name goes through
      `to_lower_camel_case`. */
  function FieldLine(field: HostField, lowerCamel: string -> string): string
  {
    "private final " + field.javaTy + " " + lowerCamel(field.name) + ";"
  }

  function FieldLines(fields: seq<HostField>, lowerCamel: string -> string): (r: seq<string>)
    ensures |r| == |fields|
    ensures forall i :: 0 <= i < |fields| ==> r[i] == FieldLine(fields[i], lowerCamel)
  {
    if fields == [] then [] else [FieldLine(fields[0], lowerCamel)] + FieldLines(fields[1..], lowerCamel)
  }

  /** `print_fields` over the fields in the order given. */
  function FieldsText(indent: nat, fields: seq<HostField>, lowerCamel: string -> string): string
  {
    PushedAll(indent, FieldLines(fields, lowerCamel))
  }

  /** Names and types that fit on one line. */
  predicate SingleLineFields(fields: seq<HostField>, lowerCamel: string -> string)
  {
    forall i :: 0 <= i < |fields| ==> '\n' !in fields[i].javaTy && '\n' !in lowerCamel(fields[i].name)
  }

  /** Exactly one `private final` declaration per field, whatever its
      origin, in order. */
  lemma FieldsLayout(indent: nat, fields: seq<HostField>, lowerCamel: string -> string)
    requires SingleLineFields(fields, lowerCamel)
    ensures LaidOut(FieldsText(indent, fields, lowerCamel), Indented(indent, FieldLines(fields, lowerCamel)))
    ensures |Lines(FieldsText(indent, fields, lowerCamel))| == |fields|
  {
    var lines := FieldLines(fields, lowerCamel);
    forall i | 0 <= i < |lines| ensures PlainLine(lines[i]) {
      assert lines[i][0] == 'p' && lines[i][|lines[i]| - 1] == ';';
    }
    PushedAllPlain(indent, lines);
    IndentedNoNewline(indent, lines);
    ReadBack(FieldsText(indent, fields, lowerCamel), Indented(indent, lines));
  }

  /** One constructor parameter, e.g. `WasmStore wasmStore`. */
  function ConstructorParam(field: HostField, lowerCamel: string -> string): string
  {
    field.javaTy + " " + lowerCamel(field.name)
  }

  /** One assignment in the constructor body, e.g.
      `this.wasmStore = wasmStore;`. */
  function Assignment(field: HostField, lowerCamel: string -> string): string
  {
    "this." + lowerCamel(field.name) + " = " + lowerCamel(field.name) + ";"
  }

  function Params(fields: seq<HostField>, lowerCamel: string -> string): (r: seq<string>)
    ensures |r| == |fields|
    ensures forall i :: 0 <= i < |fields| ==> r[i] == ConstructorParam(fields[i], lowerCamel)
  {
    if fields == [] then [] else [ConstructorParam(fields[0], lowerCamel)] + Params(fields[1..], lowerCamel)
  }

  function Assignments(fields: seq<HostField>, lowerCamel: string -> string): (r: seq<string>)
    ensures |r| == |fields|
    ensures forall i :: 0 <= i < |fields| ==> r[i] == Assignment(fields[i], lowerCamel)
  {
    if fields == [] then [] else [Assignment(fields[0], lowerCamel)] + Assignments(fields[1..], lowerCamel)
  }

  /** The constructor's signature line over the constructor-origin fields. */
  function ConstructorLine(className: string, fields: seq<HostField>, lowerCamel: string -> string): string
  {
    "public " + className + "(" + Join(", ", Params(ConstructorFields(fields), lowerCamel)) + ")"
  }

  /** `print_constructor` at depth `indent` over the fields in the order
      given. */
  function ConstructorText(indent: nat, className: string, fields: seq<HostField>, lowerCamel: string -> string): string
  {
    Pushed(indent, ConstructorLine(className, fields, lowerCamel))
    + BlockStartText(indent)
    + Pushed(indent + INDENT, Join("\n", Assignments(ConstructorFields(fields), lowerCamel)))
    + BlockEndText(indent + INDENT)
    + Pushed(indent, "\n")
  }

  /** The constructor's parameters and its assignments come from the same
      fields in the same order: the i-th parameter declares the variable
      the i-th assignment stores. */
  lemma ParamsMatchAssignments(fields: seq<HostField>, lowerCamel: string -> string)
    ensures var cf := ConstructorFields(fields);
      var ps, assigns := Params(cf, lowerCamel), Assignments(cf, lowerCamel);
      && |ps| == |assigns| == |cf|
      && forall i :: 0 <= i < |cf| ==>
           var v := lowerCamel(cf[i].name);
           ps[i] == cf[i].javaTy + " " + v && assigns[i] == "this." + v + " = " + v + ";"
  {
  }

  /** The constructor-origin fields fit on one line when all fields do. */
  lemma ConstructorFieldsSingleLine(fields: seq<HostField>, lowerCamel: string -> string)
    requires SingleLineFields(fields, lowerCamel)
    ensures SingleLineFields(ConstructorFields(fields), lowerCamel)
  {
    var cf := ConstructorFields(fields);
    ConstructorFieldsSelects(fields);
    forall i | 0 <= i < |cf| ensures '\n' !in cf[i].javaTy && '\n' !in lowerCamel(cf[i].name) {
      assert cf[i] in cf;
      var k :| 0 <= k < |fields| && fields[k] == cf[i];
    }
  }

  /** The constructor's lines pass through `push_lines` unchanged. */
  lemma ConstructorLinesPlain(className: string, fields: seq<HostField>, lowerCamel: string -> string)
    requires '\n' !in className
    requires SingleLineFields(fields, lowerCamel)
    ensures PlainLine(ConstructorLine(className, fields, lowerCamel))
    ensures SingleLineFields(ConstructorFields(fields), lowerCamel)
  {
    var cf := ConstructorFields(fields);
    ConstructorFieldsSingleLine(fields, lowerCamel);
    ParamsSingleLine(cf, lowerCamel);
    var sig := ConstructorLine(className, fields, lowerCamel);
    assert sig[0] == 'p' && sig[|sig| - 1] == ')';
  }

  lemma ParamsSingleLine(cf: seq<HostField>, lowerCamel: string -> string)
    requires SingleLineFields(cf, lowerCamel)
    ensures '\n' !in Join(", ", Params(cf, lowerCamel))
  {
    JoinNoChar(", ", Params(cf, lowerCamel), '\n');
  }

  lemma AssignmentsPlain(cf: seq<HostField>, lowerCamel: string -> string)
    requires SingleLineFields(cf, lowerCamel)
    ensures var assigns := Assignments(cf, lowerCamel);
      forall i :: 0 <= i < |assigns| ==> PlainLine(assigns[i])
  {
    var assigns := Assignments(cf, lowerCamel);
    forall i | 0 <= i < |assigns| ensures PlainLine(assigns[i]) {
      assert assigns[i][0] == 't' && assigns[i][|assigns[i]| - 1] == ';';
    }
  }

  /** The signature line, `{`, one assignment per constructor-origin
      field one level deeper, `}`, then a blank line. */
  lemma ConstructorLayout(indent: nat, className: string, fields: seq<HostField>, lowerCamel: string -> string)
    requires '\n' !in className
    requires SingleLineFields(fields, lowerCamel)
    ensures LaidOut(ConstructorText(indent, className, fields, lowerCamel),
                    Indented(indent, [ConstructorLine(className, fields, lowerCamel), "{"])
                    + Indented(indent + INDENT, Assignments(ConstructorFields(fields), lowerCamel))
                    + Indented(indent, ["}", ""]))
  {
    var sig := ConstructorLine(className, fields, lowerCamel);
    var cf := ConstructorFields(fields);
    var head, c, tail := Indented(indent, [sig, "{"]), Indented(indent + INDENT, Assignments(cf, lowerCamel)), Indented(indent, ["}", ""]);
    ConstructorTextTerminated(indent, className, fields, lowerCamel);
    ConstructorLinesPlain(className, fields, lowerCamel);
    IndentedPairNoNewline(indent, sig, "{");
    IndentedPairNoNewline(indent, "}", "");
    AssignmentsPushed(indent + INDENT, cf, lowerCamel);
    IndentedNoNewline(indent + INDENT, Assignments(cf, lowerCamel));
    SingleLinesAppend(head, c);
    SingleLinesAppend(head + c, tail);
    ReadBack(ConstructorText(indent, className, fields, lowerCamel), head + c + tail);
  }

  lemma ConstructorTextTerminated(indent: nat, className: string, fields: seq<HostField>, lowerCamel: string -> string)
    requires '\n' !in className
    requires SingleLineFields(fields, lowerCamel)
    ensures ConstructorText(indent, className, fields, lowerCamel)
         == Terminated(Indented(indent, [ConstructorLine(className, fields, lowerCamel), "{"])
                       + Indented(indent + INDENT, Assignments(ConstructorFields(fields), lowerCamel))
                       + Indented(indent, ["}", ""]))
  {
    var sig := ConstructorLine(className, fields, lowerCamel);
    var cf := ConstructorFields(fields);
    ConstructorLinesPlain(className, fields, lowerCamel);
    PushedPlain(indent, sig);
    BlockLayout(indent);
    AssignmentsPushed(indent + INDENT, cf, lowerCamel);
    PushedBlank(indent);
    TextOfFive(ConstructorText(indent, className, fields, lowerCamel), indent, sig,
               Indented(indent + INDENT, Assignments(cf, lowerCamel)),
               Indented(indent, [sig, "{"]), Indented(indent, ["}", ""]));
  }

  lemma AssignmentsPushed(indent: nat, cf: seq<HostField>, lowerCamel: string -> string)
    requires SingleLineFields(cf, lowerCamel)
    ensures Pushed(indent, Join("\n", Assignments(cf, lowerCamel))) == Terminated(Indented(indent, Assignments(cf, lowerCamel)))
    ensures forall i :: 0 <= i < |Assignments(cf, lowerCamel)| ==> '\n' !in Assignments(cf, lowerCamel)[i]
  {
    AssignmentsPlain(cf, lowerCamel);
    PushedJoinPlain(indent, Assignments(cf, lowerCamel));
  }

  /** `print_constructor`'s five pushes, one after the other, write
      `ConstructorText`. */
  lemma ConstructorTextSteps(indent: nat, inner: nat, outer: nat, className: string, fields: seq<HostField>,
                             lowerCamel: string -> string, line: string, assignments: string,
                             s0: string, s1: string, s2: string, s3: string, s4: string, s5: string)
    requires inner == indent + INDENT && outer == Outdented(inner)
    requires line == ConstructorLine(className, fields, lowerCamel)
    requires assignments == Join("\n", Assignments(ConstructorFields(fields), lowerCamel))
    requires s1 == s0 + Pushed(indent, line)
    requires s2 == s1 + BlockStartText(indent)
    requires s3 == s2 + Pushed(inner, assignments)
    requires s4 == s3 + BlockEndText(inner)
    requires s5 == s4 + Pushed(outer, "\n")
    ensures s5 == s0 + ConstructorText(indent, className, fields, lowerCamel)
  {
    assert outer == indent;
    AppendFive(s0, s1, s2, s3, s4, s5, Pushed(indent, line), BlockStartText(indent),
               Pushed(inner, assignments), BlockEndText(inner), Pushed(indent, "\n"));
  }

  /** Five appends in a row append the five pieces joined. */
  lemma AppendFive(s0: string, s1: string, s2: string, s3: string, s4: string, s5: string,
                   a: string, b: string, c: string, d: string, e: string)
    requires s1 == s0 + a && s2 == s1 + b && s3 == s2 + c && s4 == s3 + d && s5 == s4 + e
    ensures s5 == s0 + (a + b + c + d + e)
  {
  }

  lemma TextOfFive(text: string, indent: nat, sig: string, c: seq<string>, head: seq<string>, tail: seq<string>)
    requires head == Indented(indent, [sig, "{"]) && tail == Indented(indent, ["}", ""])
    requires text == Terminated(Indented(indent, [sig])) + Terminated(Indented(indent, ["{"])) + Terminated(c)
                     + Terminated(Indented(indent, ["}"])) + Terminated(Indented(indent, [""]))
    ensures text == Terminated(head + c + tail)
  {
    IndentedAppend(indent, [sig], ["{"]);
    IndentedAppend(indent, ["}"], [""]);
    TerminatedAppend(Indented(indent, [sig]), Indented(indent, ["{"]));
    TerminatedAppend(Indented(indent, ["}"]), Indented(indent, [""]));
    TerminatedAppend(head, c);
    TerminatedAppend(head + c, tail);
  }

  // ------------------------------------------------------------------
  // print_func_signature and the body `import` captures

  /** The results' types mapped left to right, as `collect` does; the
      first unsupported type aborts. */
  function MapTypes(results: seq<(string, Wit.Type)>): (r: Result<seq<JavaType>, GenError>)
    ensures r.Success? ==> |r.value| == |results|
  {
    if results == [] then Success([])
    else
      match FromType(results[0].1)
      case Failure(e) => Failure(e)
      case Success(t) =>
        match MapTypes(results[1..])
        case Failure(e) => Failure(e)
        case Success(ts) => Success([t] + ts)
  }

  /** Mapping succeeds exactly when every type is supported, and then maps
      each one; otherwise it reports the first unsupported type. */
  lemma {:induction false} MapTypesSpec(results: seq<(string, Wit.Type)>)
    ensures MapTypes(results).Success? <==> forall i :: 0 <= i < |results| ==> FromType(results[i].1).Success?
    ensures MapTypes(results).Success? ==>
      forall i :: 0 <= i < |results| ==> MapTypes(results).value[i] == FromType(results[i].1).value
    ensures MapTypes(results).Failure? ==>
      exists i :: 0 <= i < |results| && FromType(results[i].1) == Failure(MapTypes(results).error)
                  && forall j :: 0 <= j < i ==> FromType(results[j].1).Success?
  {
    if results != [] {
      var rest := results[1..];
      MapTypesSpec(rest);
      assert forall i :: 1 <= i < |results| ==> results[i] == rest[i - 1];
      if FromType(results[0].1).Success? && MapTypes(rest).Failure? {
        var i :| 0 <= i < |rest| && FromType(rest[i].1) == Failure(MapTypes(rest).error)
                 && forall j :: 0 <= j < i ==> FromType(rest[j].1).Success?;
        assert results[i + 1] == rest[i];
        forall j | 0 <= j < i + 1 ensures FromType(results[j].1).Success? {
          if j > 0 {
            assert results[j] == rest[j - 1];
          }
        }
      }
    }
  }

  /** The return type `print_func_signature` writes. */
  function ReturnType(results: seq<(string, Wit.Type)>): Result<string, GenError>
  {
    if |results| == 0 then Success("void")
    else if |results| == 1 then
      match FromType(results[0].1)
      case Failure(e) => Failure(e)
      case Success(t) => Success(ForFnReturn(t))
    else
      match MapTypes(results)
      case Failure(e) => Failure(e)
      case Success(ts) => ForTy(ts)
  }

  /** Whether the signature goes through `tuple_ty`, which adds the
      javatuples dependency whether or not the tuple can be built. */
  predicate UsesTuple(results: seq<(string, Wit.Type)>)
  {
    |results| >= 2 && MapTypes(results).Success?
  }

  /** No result is `void`; one result is its primitive keyword; several
      results are a tuple type of their boxed types, read back by
      `ParseTupleType`; failures are unsupported types and more than ten
      results. */
  lemma ReturnTypeCases(results: seq<(string, Wit.Type)>)
    ensures |results| == 0 ==> ReturnType(results) == Success("void")
    ensures |results| == 1 ==>
      && (ReturnType(results).Success? <==> !results[0].1.Handle? && !results[0].1.Id?)
      && (ReturnType(results).Success? ==> ReturnType(results).value == ForFnParam(FromType(results[0].1).value))
      && (ReturnType(results).Failure? ==> FromType(results[0].1) == Failure(ReturnType(results).error))
    ensures |results| >= 2 ==>
      (ReturnType(results).Success? <==>
         |results| <= 10 && forall i :: 0 <= i < |results| ==> !results[i].1.Handle? && !results[i].1.Id?)
    ensures |results| >= 2 && ReturnType(results).Success? ==>
      ParseTupleType(ReturnType(results).value) == Some(MapTypes(results).value)
    ensures |results| > 10 && UsesTuple(results) ==> ReturnType(results) == Failure(TupleTooLong)
  {
    MapTypesSpec(results);
    forall i | 0 <= i < |results| ensures FromType(results[i].1).Success? <==> !results[i].1.Handle? && !results[i].1.Id? {
      FromTypeFailsIff(results[i].1);
    }
    if |results| >= 2 && MapTypes(results).Success? {
      ForTyFailsIff(MapTypes(results).value);
      if |results| <= 10 {
        ForTyRoundTrip(MapTypes(results).value);
      }
    }
  }

  /** Results `(u8, u16, f32)` come back as a `Triplet` of the boxed
      `short`, `int` and `float`: an unsigned type is widened. */
  lemma ReturnTypeOfU8U16F32()
    ensures ReturnType([("", Wit.U8), ("", Wit.U16), ("", Wit.F32)]) == Success("Triplet<Short, Integer, Float>")
  {
    var results := [("", Wit.U8), ("", Wit.U16), ("", Wit.F32)];
    MapTypesOfU8U16F32(results);
    TripletOfShortIntFloat();
  }

  lemma MapTypesOfU8U16F32(results: seq<(string, Wit.Type)>)
    requires results == [("", Wit.U8), ("", Wit.U16), ("", Wit.F32)]
    ensures MapTypes(results) == Success([Short, Int, Float])
  {
    var r2 := results[1..];
    var r3 := r2[1..];
    assert r3 == [("", Wit.F32)] && r3[1..] == [];
    assert [Float] + [] == [Float];
    assert MapTypes(r3) == Success([Float]);
    assert [Int] + [Float] == [Int, Float];
    assert MapTypes(r2) == Success([Int, Float]);
    assert [Short] + [Int, Float] == [Short, Int, Float];
  }

  lemma TripletOfShortIntFloat()
    ensures ForTy([Short, Int, Float]) == Success("Triplet<Short, Integer, Float>")
  {
    var names := BoxedNames([Short, Int, Float]);
    assert names == ["Short", "Integer", "Float"];
    JoinOfShortIntFloat(names);
    TripletLiteral();
    assert TupleOfLength(|[Short, Int, Float]|) == Success(Triplet);
    assert ToStr(Triplet) == "Triplet";
    assert ForTy([Short, Int, Float]) == Success("Triplet" + "<" + Join(", ", names) + ">");
  }

  lemma JoinOfShortIntFloat(names: seq<string>)
    requires names == ["Short", "Integer", "Float"]
    ensures Join(", ", names) == "Short, Integer, Float"
  {
    assert names[1..][1..] == ["Float"];
    assert Join(", ", names[1..]) == "Integer" + ", " + "Float";
    var whole := "Short" + ", " + ("Integer" + ", " + "Float");
    forall i | 0 <= i < |whole| ensures whole[i] == "Short, Integer, Float"[i] {
    }
  }

  lemma TripletLiteral()
    ensures "Triplet" + "<" + "Short, Integer, Float" + ">" == "Triplet<Short, Integer, Float>"
  {
    var whole := "Triplet" + "<" + "Short, Integer, Float" + ">";
    forall i | 0 <= i < |whole| ensures whole[i] == "Triplet<Short, Integer, Float>"[i] {
    }
  }

  /** A return type fits on one line. */
  lemma ReturnTypeSingleLine(results: seq<(string, Wit.Type)>)
    ensures ReturnType(results).Success? ==> '\n' !in ReturnType(results).value
  {
    if |results| >= 2 && MapTypes(results).Success? && |results| <= 10 {
      var ts := MapTypes(results).value;
      var names := BoxedNames(ts);
      forall i | 0 <= i < |names| ensures '\n' !in names[i] {
        assert names[i] == ForTypeParam(ts[i]);
        TypeParamNoNewline(ts[i]);
      }
      JoinNoChar(", ", names, '\n');
      TupleNameNoNewline(TupleOfLength(|ts|).value);
    }
  }

  /** No boxed type name holds a line feed. */
  lemma TypeParamNoNewline(j: JavaType)
    ensures '\n' !in ForTypeParam(j)
  {
  }

  /** No tuple word holds a line feed. */
  lemma TupleNameNoNewline(t: JavaTuple)
    ensures '\n' !in ToStr(t)
  {
  }

  /** `public final <return type> <lowerCamel(name)>()`: the same line for
      every kind of function. */
  function SignatureLine(returnType: string, funcName: string): string
  {
    "public final " + returnType + " " + funcName + "()"
  }

  lemma SignaturePlain(returnType: string, funcName: string)
    requires '\n' !in returnType && '\n' !in funcName
    ensures PlainLine(SignatureLine(returnType, funcName))
  {
    var l := SignatureLine(returnType, funcName);
    assert l[0] == 'p' && l[|l| - 1] == ')';
  }

  /** What `import` captures in its fresh buffer: the signature, then an
      empty block, all at depth 0. */
  function FunctionBodyText(signature: string): string
  {
    Pushed(0, signature) + BlockStartText(0) + BlockEndText(INDENT)
  }

  lemma IndentedZero(lines: seq<string>)
    ensures Indented(0, lines) == lines
  {
    assert Spaces(0) == "";
    assert forall i :: 0 <= i < |lines| ==> Spaces(0) + lines[i] == lines[i];
  }

  /** A captured body is three lines: the signature, `{` and `}`. */
  lemma FunctionBodyLayout(signature: string)
    requires PlainLine(signature)
    ensures LaidOut(FunctionBodyText(signature), [signature, "{", "}"])
  {
    FunctionBodyTerminated(signature);
    ReadBack(FunctionBodyText(signature), [signature, "{", "}"]);
  }

  lemma FunctionBodyTerminated(signature: string)
    requires PlainLine(signature)
    ensures FunctionBodyText(signature) == Terminated([signature, "{", "}"])
  {
    PushedAtZero(signature);
    PushedAtZero("{");
    ClosingAtZero();
    TerminatedThree(signature, "{", "}");
  }

  /** At depth 0 a plain line is written as it is, with a line feed. */
  lemma PushedAtZero(line: string)
    requires PlainLine(line)
    ensures Pushed(0, line) == line + "\n"
  {
    PushedSingleLine(0, line);
    assert Spaces(0) == "";
  }

  /** Closing a block opened at depth 0 writes `}` and a line feed. */
  lemma ClosingAtZero()
    ensures BlockEndText(INDENT) == "}" + "\n"
  {
    assert Outdented(INDENT) == 0;
    PushedAtZero("}");
    PushedEmptyAndNewline(0);
  }

  /** Three lines, each ended by a line feed. */
  lemma TerminatedThree(a: string, b: string, c: string)
    ensures Terminated([a, b, c]) == a + "\n" + (b + "\n") + (c + "\n")
  {
    assert [a, b, c][1..] == [b, c] && [b, c][1..] == [c];
    assert Terminated([c]) == c + "\n";
    assert Terminated([b, c]) == b + "\n" + (c + "\n");
  }

  /** The freestanding bodies as `finish_one` prints them: each pushed
      again at the class's inner depth, then a blank line. */
  function BodiesText(indent: nat, bodies: seq<string>): string
  {
    if bodies == [] then ""
    else BodiesText(indent, bodies[..|bodies| - 1]) + Pushed(indent, bodies[|bodies| - 1]) + Pushed(indent, "\n")
  }

  /** One more body: its lines and then a blank line. */
  lemma BodiesTextNext(indent: nat, bodies: seq<string>, i: nat)
    requires i < |bodies|
    ensures BodiesText(indent, bodies[..i + 1])
         == BodiesText(indent, bodies[..i]) + (Pushed(indent, bodies[i]) + Pushed(indent, "\n"))
  {
    assert bodies[..i + 1][..i] == bodies[..i];
  }

  /** `import`'s three prints into an empty buffer write
      `FunctionBodyText`. */
  lemma FunctionBodySteps(signature: string, s1: string, s2: string, s3: string)
    requires s1 == Pushed(0, signature)
    requires s2 == s1 + BlockStartText(0)
    requires s3 == s2 + BlockEndText(INDENT)
    ensures s3 == FunctionBodyText(signature)
  {
  }

  /** Pushing a captured body again re-indents each of its lines to the
      new depth. */
  lemma ReindentedBody(indent: nat, signature: string)
    requires PlainLine(signature)
    ensures LaidOut(BodiesText(indent, [FunctionBodyText(signature)]), Indented(indent, [signature, "{", "}", ""]))
  {
    ReindentedBodyTerminated(indent, signature);
    BodyBlockSingle(indent, signature);
    ReadBack(BodiesText(indent, [FunctionBodyText(signature)]), Indented(indent, [signature, "{", "}", ""]));
  }

  /** A body's lines and the blank line after it hold no line feed. */
  lemma BodyBlockSingle(indent: nat, signature: string)
    requires '\n' !in signature
    ensures SingleLines(Indented(indent, [signature, "{", "}", ""]))
  {
    var block := [signature, "{", "}", ""];
    assert block[1] == "{" && block[2] == "}" && block[3] == "";
    assert SingleLines(block);
    IndentedNoNewline(indent, block);
  }

  lemma ReindentedBodyTerminated(indent: nat, signature: string)
    requires PlainLine(signature)
    ensures BodiesText(indent, [FunctionBodyText(signature)]) == Terminated(Indented(indent, [signature, "{", "}", ""]))
  {
    var lines := [signature, "{", "}"];
    var body := FunctionBodyText(signature);
    BodiesTextSingle(indent, body);
    RepushedBody(indent, signature);
    PlainBlockLines(signature);
    RenderLinesPlain(indent, lines);
    PushedBlank(indent);
    IndentedAppend(indent, lines, [""]);
    TerminatedAppend(Indented(indent, lines), Indented(indent, [""]));
    assert lines + [""] == [signature, "{", "}", ""];
  }

  /** A body's three lines are plain when its signature is. */
  lemma PlainBlockLines(signature: string)
    requires PlainLine(signature)
    ensures forall i :: 0 <= i < |[signature, "{", "}"]| ==> PlainLine([signature, "{", "}"][i])
  {
  }

  lemma BodiesTextSingle(indent: nat, body: string)
    ensures BodiesText(indent, [body]) == Pushed(indent, body) + Pushed(indent, "\n")
  {
    assert [body][..0] == [];
  }

  lemma RepushedBody(indent: nat, signature: string)
    requires PlainLine(signature)
    ensures Pushed(indent, FunctionBodyText(signature)) == RenderLines(indent, [signature, "{", "}"])
  {
    FunctionBodyLayout(signature);
  }

  // ------------------------------------------------------------------
  // One class, as finish_one prints it, and its path

  /** One class file's text, from a buffer at depth 0: package, imports,
      header and `{`, fields, a blank line, the constructor, each
      freestanding body, and the closing `}`. */
  function ClassText(package: string, deps: seq<JavaDep>, className: string, fields: seq<HostField>,
                     bodies: seq<string>, lowerCamel: string -> string): string
  {
    PackageText(0, package)
    + ImportsText(0, deps)
    + ClassHeaderText(0, className)
    + BlockStartText(0)
    + FieldsText(INDENT, fields, lowerCamel)
    + Pushed(INDENT, "\n")
    + ConstructorText(INDENT, className, fields, lowerCamel)
    + BodiesText(INDENT, bodies)
    + BlockEndText(INDENT)
  }

  /** A class file opens with its package statement, which is never
      empty. */
  lemma ClassTextOpensWithPackage(package: string, deps: seq<JavaDep>, className: string, fields: seq<HostField>,
                                  bodies: seq<string>, lowerCamel: string -> string)
    ensures PackageText(0, package) <= ClassText(package, deps, className, fields, bodies, lowerCamel)
    ensures |PackageText(0, package)| > 0
  {
    assert |PackageText(0, package)| > 0 by {
      PushedBlank(0);
      assert Indented(0, [""]) != [];
      assert |Terminated(Indented(0, [""]))| > 0;
    }
    PrefixOfNine(PackageText(0, package), ImportsText(0, deps), ClassHeaderText(0, className), BlockStartText(0),
                 FieldsText(INDENT, fields, lowerCamel), Pushed(INDENT, "\n"),
                 ConstructorText(INDENT, className, fields, lowerCamel), BodiesText(INDENT, bodies), BlockEndText(INDENT));
  }

  /** The first of nine strings joined is a prefix of the join. */
  lemma PrefixOfNine(a: string, b: string, c: string, d: string, e: string, f: string, g: string, h: string, i: string)
    ensures a <= a + b + c + d + e + f + g + h + i
  {
    var rest := b + c + d + e + f + g + h + i;
    assert a + b + c + d + e + f + g + h + i == a + rest;
    assert (a + rest)[..|a|] == a;
  }

  /** The nine pieces of a class printed one after the other write
      `ClassText`. */
  lemma ClassTextSteps(package: string, deps: seq<JavaDep>, className: string, fields: seq<HostField>,
                       bodies: seq<string>, lowerCamel: string -> string,
                       s0: string, s1: string, s2: string, s3: string, s4: string,
                       s5: string, s6: string, s7: string, s8: string, s9: string)
    requires s1 == s0 + PackageText(0, package)
    requires s2 == s1 + ImportsText(0, deps)
    requires s3 == s2 + ClassHeaderText(0, className)
    requires s4 == s3 + BlockStartText(0)
    requires s5 == s4 + FieldsText(INDENT, fields, lowerCamel)
    requires s6 == s5 + Pushed(INDENT, "\n")
    requires s7 == s6 + ConstructorText(INDENT, className, fields, lowerCamel)
    requires s8 == s7 + BodiesText(INDENT, bodies)
    requires s9 == s8 + BlockEndText(INDENT)
    ensures s9 == s0 + ClassText(package, deps, className, fields, bodies, lowerCamel)
  {
    AppendNine(s0, s1, s2, s3, s4, s5, s6, s7, s8, s9,
               PackageText(0, package), ImportsText(0, deps), ClassHeaderText(0, className), BlockStartText(0),
               FieldsText(INDENT, fields, lowerCamel), Pushed(INDENT, "\n"),
               ConstructorText(INDENT, className, fields, lowerCamel), BodiesText(INDENT, bodies), BlockEndText(INDENT));
  }

  /** Nine appends in a row append the nine pieces joined. */
  lemma AppendNine(s0: string, s1: string, s2: string, s3: string, s4: string,
                   s5: string, s6: string, s7: string, s8: string, s9: string,
                   a: string, b: string, c: string, d: string, e: string,
                   f: string, g: string, h: string, i: string)
    requires s1 == s0 + a && s2 == s1 + b && s3 == s2 + c && s4 == s3 + d && s5 == s4 + e
    requires s6 == s5 + f && s7 == s6 + g && s8 == s7 + h && s9 == s8 + i
    ensures s9 == s0 + (a + b + c + d + e + f + g + h + i)
  {
    AppendFive(s0, s1, s2, s3, s4, s5, a, b, c, d, e);
    AppendFive(s5, s6, s7, s8, s9, s9, f, g, h, i, []);
    assert i + [] == i;
  }

  /** Lines free of line feeds. */
  predicate SingleLines(lines: seq<string>)
  {
    forall i :: 0 <= i < |lines| ==> '\n' !in lines[i]
  }

  /** The bodies `import` captures for the given signatures. */
  function FunctionBodies(signatures: seq<string>): seq<string>
  {
    seq(|signatures|, i requires 0 <= i < |signatures| => FunctionBodyText(signatures[i]))
  }

  /** Each body in the class: its three lines one level in, then a blank
      line. */
  function BodyLines(indent: nat, signatures: seq<string>): seq<string>
  {
    if signatures == [] then []
    else BodyLines(indent, signatures[..|signatures| - 1]) + Indented(indent, [signatures[|signatures| - 1], "{", "}", ""])
  }

  /** The lines of a class whose freestanding functions have the given
      signatures. */
  function ClassLines(package: string, deps: seq<JavaDep>, className: string, fields: seq<HostField>,
                      signatures: seq<string>, lowerCamel: string -> string): seq<string>
  {
    Indented(0, [PackageLine(package), ""])
    + Indented(0, ImportLines(deps) + (if deps == [] then [] else [""]))
    + Indented(0, [ClassHeaderLine(className)])
    + Indented(0, ["{"])
    + Indented(INDENT, FieldLines(fields, lowerCamel))
    + Indented(INDENT, [""])
    + (Indented(INDENT, [ConstructorLine(className, fields, lowerCamel), "{"])
       + Indented(INDENT + INDENT, Assignments(ConstructorFields(fields), lowerCamel))
       + Indented(INDENT, ["}", ""]))
    + BodyLines(INDENT, signatures)
    + Indented(0, ["}"])
  }

  /** What the printing hands each class's names must satisfy for the
      class to read back line by line. */
  predicate PrintableClass(package: string, deps: seq<JavaDep>, className: string, fields: seq<HostField>,
                           signatures: seq<string>, lowerCamel: string -> string)
  {
    && '\n' !in package
    && (forall i :: 0 <= i < |deps| ==> '\n' !in deps[i].baseImport)
    && PlainLine(className)
    && SingleLineFields(fields, lowerCamel)
    && (forall i :: 0 <= i < |signatures| ==> PlainLine(signatures[i]))
  }

  /** A whole class file, line by line: `package p;` and a blank line,
      the imports (and a blank line if any), `public class C`, `{`, one
      field per line one level in, a blank line, the constructor, each
      body with a blank line after it, and `}`. */
  lemma ClassLayout(package: string, deps: seq<JavaDep>, className: string, fields: seq<HostField>,
                    signatures: seq<string>, lowerCamel: string -> string)
    requires PrintableClass(package, deps, className, fields, signatures, lowerCamel)
    ensures LaidOut(ClassText(package, deps, className, fields, FunctionBodies(signatures), lowerCamel),
                    ClassLines(package, deps, className, fields, signatures, lowerCamel))
  {
    ClassTextTerminated(package, deps, className, fields, signatures, lowerCamel);
    ClassLinesSingle(package, deps, className, fields, signatures, lowerCamel);
    ReadBack(ClassText(package, deps, className, fields, FunctionBodies(signatures), lowerCamel),
             ClassLines(package, deps, className, fields, signatures, lowerCamel));
  }

  lemma ClassTextTerminated(package: string, deps: seq<JavaDep>, className: string, fields: seq<HostField>,
                            signatures: seq<string>, lowerCamel: string -> string)
    requires PrintableClass(package, deps, className, fields, signatures, lowerCamel)
    ensures ClassText(package, deps, className, fields, FunctionBodies(signatures), lowerCamel)
         == Terminated(ClassLines(package, deps, className, fields, signatures, lowerCamel))
  {
    var a := Indented(0, [PackageLine(package), ""]);
    var b := Indented(0, ImportLines(deps) + (if deps == [] then [] else [""]));
    var c := Indented(0, [ClassHeaderLine(className)]);
    var d := Indented(0, ["{"]);
    var e := Indented(INDENT, FieldLines(fields, lowerCamel));
    var f := Indented(INDENT, [""]);
    var g := Indented(INDENT, [ConstructorLine(className, fields, lowerCamel), "{"])
             + Indented(INDENT + INDENT, Assignments(ConstructorFields(fields), lowerCamel))
             + Indented(INDENT, ["}", ""]);
    var h := BodyLines(INDENT, signatures);
    var i := Indented(0, ["}"]);
    assert PackageText(0, package) == Terminated(a) by { PackageLayout(0, package); }
    assert ImportsText(0, deps) == Terminated(b) by { ImportsTerminated(0, deps); }
    assert ClassHeaderText(0, className) == Terminated(c) by { ClassHeaderLayout(0, className); }
    assert BlockStartText(0) == Terminated(d) && BlockEndText(0 + INDENT) == Terminated(i) by { BlockLayout(0); }
    assert FieldsText(INDENT, fields, lowerCamel) == Terminated(e) by { FieldsLayout(INDENT, fields, lowerCamel); }
    assert Pushed(INDENT, "\n") == Terminated(f) by { PushedBlank(INDENT); }
    assert ConstructorText(INDENT, className, fields, lowerCamel) == Terminated(g) by {
      ConstructorTextTerminated(INDENT, className, fields, lowerCamel);
    }
    assert BodiesText(INDENT, FunctionBodies(signatures)) == Terminated(h) by {
      BodiesTextLines(INDENT, signatures, FunctionBodies(signatures));
    }
    TerminatedNine(a, b, c, d, e, f, g, h, i);
  }

  /** Laying out nine runs of lines one after the other. */
  lemma TerminatedNine(a: seq<string>, b: seq<string>, c: seq<string>, d: seq<string>, e: seq<string>,
                       f: seq<string>, g: seq<string>, h: seq<string>, i: seq<string>)
    ensures Terminated(a + b + c + d + e + f + g + h + i)
         == Terminated(a) + Terminated(b) + Terminated(c) + Terminated(d) + Terminated(e)
            + Terminated(f) + Terminated(g) + Terminated(h) + Terminated(i)
  {
    TerminatedAppend(a, b);
    TerminatedAppend(a + b, c);
    TerminatedAppend(a + b + c, d);
    TerminatedAppend(a + b + c + d, e);
    TerminatedAppend(a + b + c + d + e, f);
    TerminatedAppend(a + b + c + d + e + f, g);
    TerminatedAppend(a + b + c + d + e + f + g, h);
    TerminatedAppend(a + b + c + d + e + f + g + h, i);
  }

  /** The bodies printed in the class are their lines, one after the
      other. */
  lemma {:induction false} BodiesTextLines(indent: nat, signatures: seq<string>, bodies: seq<string>)
    requires |bodies| == |signatures|
    requires forall i :: 0 <= i < |signatures| ==> PlainLine(signatures[i]) && bodies[i] == FunctionBodyText(signatures[i])
    ensures BodiesText(indent, bodies) == Terminated(BodyLines(indent, signatures))
  {
    if signatures != [] {
      var n := |bodies|;
      var init := BodyLines(indent, signatures[..n - 1]);
      var lines := Indented(indent, [signatures[n - 1], "{", "}", ""]);
      assert BodiesText(indent, bodies[..n - 1]) == Terminated(init) by {
        BodiesTextLines(indent, signatures[..n - 1], bodies[..n - 1]);
      }
      assert BodiesText(indent, [bodies[n - 1]]) == Terminated(lines) by {
        ReindentedBodyTerminated(indent, signatures[n - 1]);
      }
      assert BodyLines(indent, signatures) == init + lines by {
        assert n == |signatures|;
      }
      BodiesTextLast(indent, bodies);
      TerminatedJoin(BodiesText(indent, bodies), BodiesText(indent, bodies[..n - 1]), BodiesText(indent, [bodies[n - 1]]),
                     BodyLines(indent, signatures), init, lines);
    }
  }

  /** Two texts laid out as two runs of lines lay out their join. */
  lemma TerminatedJoin(text: string, a: string, b: string, lines: seq<string>, aLines: seq<string>, bLines: seq<string>)
    requires text == a + b && lines == aLines + bLines
    requires a == Terminated(aLines) && b == Terminated(bLines)
    ensures text == Terminated(lines)
  {
    TerminatedAppend(aLines, bLines);
  }

  /** The last body printed on its own. */
  lemma BodiesTextLast(indent: nat, bodies: seq<string>)
    requires bodies != []
    ensures BodiesText(indent, bodies)
         == BodiesText(indent, bodies[..|bodies| - 1]) + BodiesText(indent, [bodies[|bodies| - 1]])
  {
    BodiesTextSingle(indent, bodies[|bodies| - 1]);
  }

  lemma ClassLinesSingle(package: string, deps: seq<JavaDep>, className: string, fields: seq<HostField>,
                         signatures: seq<string>, lowerCamel: string -> string)
    requires PrintableClass(package, deps, className, fields, signatures, lowerCamel)
    ensures SingleLines(ClassLines(package, deps, className, fields, signatures, lowerCamel))
  {
    PackageLinesSingle(package);
    ImportBlockSingle(0, deps);
    HeaderLinesSingle(className);
    IndentedNoNewline(0, ["{"]);
    IndentedNoNewline(0, ["}"]);
    FieldLinesSingle(fields, lowerCamel);
    IndentedNoNewline(INDENT, FieldLines(fields, lowerCamel));
    IndentedNoNewline(INDENT, [""]);
    ConstructorLinesSingle(className, fields, lowerCamel);
    BodyLinesSingle(INDENT, signatures);
    SingleLinesNine(Indented(0, [PackageLine(package), ""]), Indented(0, ImportLines(deps) + (if deps == [] then [] else [""])),
                    Indented(0, [ClassHeaderLine(className)]), Indented(0, ["{"]),
                    Indented(INDENT, FieldLines(fields, lowerCamel)), Indented(INDENT, [""]),
                    Indented(INDENT, [ConstructorLine(className, fields, lowerCamel), "{"])
                    + Indented(INDENT + INDENT, Assignments(ConstructorFields(fields), lowerCamel))
                    + Indented(INDENT, ["}", ""]),
                    BodyLines(INDENT, signatures), Indented(0, ["}"]));
  }

  /** The package statement and the blank line after it. */
  lemma PackageLinesSingle(package: string)
    requires '\n' !in package
    ensures SingleLines(Indented(0, [PackageLine(package), ""]))
  {
    IndentedNoNewline(0, [PackageLine(package), ""]);
  }

  lemma ImportBlockSingle(indent: nat, deps: seq<JavaDep>)
    requires forall i :: 0 <= i < |deps| ==> '\n' !in deps[i].baseImport
    ensures SingleLines(Indented(indent, ImportLines(deps) + (if deps == [] then [] else [""])))
  {
    var lines := ImportLines(deps) + (if deps == [] then [] else [""]);
    ImportLinesNoNewline(deps);
    IndentedNoNewline(indent, lines);
  }

  lemma HeaderLinesSingle(className: string)
    requires PlainLine(className)
    ensures SingleLines(Indented(0, [ClassHeaderLine(className)]))
  {
    IndentedNoNewline(0, [ClassHeaderLine(className)]);
  }

  /** The constructor's lines hold no line feed. */
  lemma ConstructorLinesSingle(className: string, fields: seq<HostField>, lowerCamel: string -> string)
    requires '\n' !in className
    requires SingleLineFields(fields, lowerCamel)
    ensures SingleLines(Indented(INDENT, [ConstructorLine(className, fields, lowerCamel), "{"])
                        + Indented(INDENT + INDENT, Assignments(ConstructorFields(fields), lowerCamel))
                        + Indented(INDENT, ["}", ""]))
  {
    var cf := ConstructorFields(fields);
    var opening := Indented(INDENT, [ConstructorLine(className, fields, lowerCamel), "{"]);
    var body := Indented(INDENT + INDENT, Assignments(cf, lowerCamel));
    ConstructorLinesPlain(className, fields, lowerCamel);
    IndentedPairNoNewline(INDENT, ConstructorLine(className, fields, lowerCamel), "{");
    AssignmentsPushed(INDENT + INDENT, cf, lowerCamel);
    IndentedNoNewline(INDENT + INDENT, Assignments(cf, lowerCamel));
    IndentedPairNoNewline(INDENT, "}", "");
    SingleLinesAppend(opening, body);
    SingleLinesAppend(opening + body, Indented(INDENT, ["}", ""]));
  }

  /** Nine runs of single lines, one after the other. */
  lemma SingleLinesNine(a: seq<string>, b: seq<string>, c: seq<string>, d: seq<string>, e: seq<string>,
                        f: seq<string>, g: seq<string>, h: seq<string>, i: seq<string>)
    requires SingleLines(a) && SingleLines(b) && SingleLines(c) && SingleLines(d) && SingleLines(e)
    requires SingleLines(f) && SingleLines(g) && SingleLines(h) && SingleLines(i)
    ensures SingleLines(a + b + c + d + e + f + g + h + i)
  {
    SingleLinesAppend(a, b);
    SingleLinesAppend(a + b, c);
    SingleLinesAppend(a + b + c, d);
    SingleLinesAppend(a + b + c + d, e);
    SingleLinesAppend(a + b + c + d + e, f);
    SingleLinesAppend(a + b + c + d + e + f, g);
    SingleLinesAppend(a + b + c + d + e + f + g, h);
    SingleLinesAppend(a + b + c + d + e + f + g + h, i);
  }

  lemma SingleLinesAppend(a: seq<string>, b: seq<string>)
    requires SingleLines(a) && SingleLines(b)
    ensures SingleLines(a + b)
  {
    assert forall k :: |a| <= k < |a + b| ==> (a + b)[k] == b[k - |a|];
  }

  lemma FieldLinesSingle(fields: seq<HostField>, lowerCamel: string -> string)
    requires SingleLineFields(fields, lowerCamel)
    ensures SingleLines(FieldLines(fields, lowerCamel))
  {
  }

  lemma {:induction false} BodyLinesSingle(indent: nat, signatures: seq<string>)
    requires forall i :: 0 <= i < |signatures| ==> PlainLine(signatures[i])
    ensures SingleLines(BodyLines(indent, signatures))
  {
    if signatures != [] {
      var last := signatures[|signatures| - 1];
      BodyLinesSingle(indent, signatures[..|signatures| - 1]);
      BodyBlockSingle(indent, last);
    }
  }

  // ------------------------------------------------------------------
  // The file path: `PathBuf::from`, `push` and `set_extension` on Unix

  /** `PathBuf::push`: a pushed absolute path replaces the path;
      otherwise a `/` goes between the two unless the path is empty or
      already ends in one. */
  function PathPush(dir: string, name: string): string
  {
    if name != [] && name[0] == '/' then name
    else if dir == [] || dir[|dir| - 1] == '/' then dir + name
    else dir + "/" + name
  }

  /** The path without the separators at its end. */
  function TrimTrailingSeparators(p: string): (r: string)
    ensures r <= p
    ensures r == [] || r[|r| - 1] != '/'
    ensures forall i :: |r| <= i < |p| ==> p[i] == '/'
    decreases |p|
  {
    if p != [] && p[|p| - 1] == '/' then TrimTrailingSeparators(p[..|p| - 1]) else p
  }

  /** `Path::set_extension` on a path with no `.` in it: the file name
      is the last run of characters other than `/`. Without one (an
      empty path, or separators only) the path is unchanged; otherwise
      the separators after it are cut and `.` and the extension added. */
  function SetExtension(path: string, ext: string): string
  {
    var p := TrimTrailingSeparators(path);
    if p == [] then path else p + "." + ext
  }

  /** `finish_one`'s file path: the package with each `.` turned into
      `/`, the upper-camel interface name pushed on, the extension set to
      `java`. */
  function FilePath(package: string, ifaceName: string, upperCamel: string -> string): string
  {
    SetExtension(PathPush(ReplaceChar(package, '.', '/'), upperCamel(ifaceName)), "java")
  }

  /** Pushing a name of one component and setting its extension: a
      single separator unless there is no directory or it already ends in
      one, the name, then `.java`. */
  lemma PushedWithExtension(dir: string, name: string)
    requires name != [] && '/' !in name
    ensures var p := SetExtension(PathPush(dir, name), "java");
      && (dir == [] ==> p == name + ".java")
      && (dir != [] && dir[|dir| - 1] == '/' ==> p == dir + name + ".java")
      && (dir != [] && dir[|dir| - 1] != '/' ==> p == dir + "/" + name + ".java")
  {
    var pushed := PathPush(dir, name);
    assert pushed[|pushed| - 1] == name[|name| - 1];
  }

  /** Pushing an empty name adds at most a separator, and setting the
      extension then names the directory's last component instead. */
  lemma PushedEmptyWithExtension(dir: string)
    ensures var t := TrimTrailingSeparators(dir);
      SetExtension(PathPush(dir, []), "java") == if t == [] then PathPush(dir, []) else t + ".java"
  {
    if dir == [] || dir[|dir| - 1] == '/' {
      assert PathPush(dir, []) == dir;
    } else {
      assert PathPush(dir, []) == dir + "/";
      assert (dir + "/")[..|dir + "/"| - 1] == dir;
    }
  }

  /** For a class name of one component, the path is the package's
      directory, a single separator unless there is no directory or it
      already ends in one, the name, and `.java`. */
  lemma FilePathOfName(package: string, ifaceName: string, upperCamel: string -> string)
    requires var name := upperCamel(ifaceName); name != [] && '/' !in name
    ensures var dir, name, p := ReplaceChar(package, '.', '/'), upperCamel(ifaceName), FilePath(package, ifaceName, upperCamel);
      && (dir == [] ==> p == name + ".java")
      && (dir != [] && dir[|dir| - 1] == '/' ==> p == dir + name + ".java")
      && (dir != [] && dir[|dir| - 1] != '/' ==> p == dir + "/" + name + ".java")
  {
    PushedWithExtension(ReplaceChar(package, '.', '/'), upperCamel(ifaceName));
  }

  /** When the class name has no `.`, the one `.` in the path is the
      extension's. */
  lemma FilePathSingleDot(package: string, ifaceName: string, upperCamel: string -> string)
    requires var name := upperCamel(ifaceName); name != [] && '/' !in name && '.' !in name
    ensures var p := FilePath(package, ifaceName, upperCamel);
      && EndsWith(p, ".java")
      && (forall i :: 0 <= i < |p| - 5 ==> p[i] != '.')
  {
    var dir := ReplaceChar(package, '.', '/');
    FilePathOfName(package, ifaceName, upperCamel);
    assert '.' !in dir;
    assert '.' !in PathPush(dir, upperCamel(ifaceName));
  }

  /** With an empty class name nothing is pushed but a separator, and
      `set_extension` then names the package's last directory instead. */
  lemma FilePathOfEmptyName(package: string, ifaceName: string, upperCamel: string -> string)
    requires upperCamel(ifaceName) == []
    ensures var dir, p := ReplaceChar(package, '.', '/'), FilePath(package, ifaceName, upperCamel);
      var t := TrimTrailingSeparators(dir);
      p == if t == [] then PathPush(dir, []) else t + ".java"
  {
    PushedEmptyWithExtension(ReplaceChar(package, '.', '/'));
  }

  /** The usual package: one directory per package component. */
  lemma FilePathOfDottedPackage(ifaceName: string, upperCamel: string -> string)
    requires upperCamel(ifaceName) == "Name"
    ensures FilePath("a.b", ifaceName, upperCamel) == "a/b/Name.java"
  {
    assert ReplaceChar("a.b", '.', '/') == "a/b";
    assert PathPush("a/b", "Name") == "a/b/Name";
    assert TrimTrailingSeparators("a/b/Name") == "a/b/Name";
  }

  /** No package: a relative file, not one under `/`. */
  lemma FilePathOfNoPackage(ifaceName: string, upperCamel: string -> string)
    requires var name := upperCamel(ifaceName); name != [] && '/' !in name
    ensures FilePath("", ifaceName, upperCamel) == upperCamel(ifaceName) + ".java"
  {
    FilePathOfName("", ifaceName, upperCamel);
  }

  /** A package ending in `.`: one separator before the name, not two. */
  lemma FilePathOfTrailingDot(package: string, ifaceName: string, upperCamel: string -> string)
    requires package != [] && package[|package| - 1] == '.'
    requires var name := upperCamel(ifaceName); name != [] && '/' !in name
    ensures FilePath(package, ifaceName, upperCamel) == ReplaceChar(package, '.', '/') + upperCamel(ifaceName) + ".java"
  {
    FilePathOfName(package, ifaceName, upperCamel);
  }

  /** An empty class name: the package's last directory gets the
      extension. */
  lemma FilePathOfNoName(ifaceName: string, upperCamel: string -> string)
    requires upperCamel(ifaceName) == ""
    ensures FilePath("lib", ifaceName, upperCamel) == "lib.java"
  {
    assert ReplaceChar("lib", '.', '/') == "lib";
    assert PathPush("lib", "") == "lib/";
    assert TrimTrailingSeparators("lib/") == "lib";
  }
}
