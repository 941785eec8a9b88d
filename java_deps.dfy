/** The Java libraries the generated code depends on (`java_deps.rs`):
    immutable coordinates, their derived ordering, and the stanza for a
    Maven `pom.xml`. */
module JavaDeps {
  import opened Text
  import opened Sorted

  /** `JavaDep`: the wildcard import and the Maven coordinates. */
  datatype JavaDep = JavaDep(baseImport: string, groupId: string, artifactId: string, version: string)

  /** `JavaDep::def`: a dependency from its four parts, kept as given. */
  function Def(baseImport: string, groupId: string, artifactId: string, version: string): (d: JavaDep)
    ensures d.baseImport == baseImport && d.groupId == groupId
    ensures d.artifactId == artifactId && d.version == version
  {
    JavaDep(baseImport, groupId, artifactId, version)
  }

  /** The tuple types that carry several results. */
  const Javatuples: JavaDep := Def("org.javatuples.*", "org.javatuples", "javatuples", "1.2")

  /** The Java embedding of the wasmtime virtual machine. */
  const Wasmtime: JavaDep := Def("net.bluejekyll.wasmtime.*", "net.bluejekyll", "wasmtime-java", "1.0-SNAPSHOT")

  /** Class names of the wasmtime binding. */
  const WtEngine: string := "WasmEngine"
  const WtStore: string := "WasmStore"
  const WtInstance: string := "WasmInstance"
  const WtFunction: string := "WasmFunction"
  const WtModule: string := "WasmModule"

  /** The fields in declaration order. */
  function Fields(d: JavaDep): seq<string>
  {
    [d.baseImport, d.groupId, d.artifactId, d.version]
  }

  /** Lexicographic order of equally long lists of strings. */
  predicate LexLess(x: seq<string>, y: seq<string>)
  {
    if x == [] || y == [] then false
    else if x[0] != y[0] then StrLess(x[0], y[0])
    else LexLess(x[1..], y[1..])
  }

  /** The derived `Ord`: lexicographic over the fields in declaration
      order, each compared as a `str`. */
  predicate DepLess(a: JavaDep, b: JavaDep)
  {
    LexLess(Fields(a), Fields(b))
  }

  lemma {:induction false} LexLessIsStrict(x: seq<string>, y: seq<string>, z: seq<string>)
    requires IsStrictTotalOrder(StrLess)
    requires |x| == |y| == |z|
    ensures !LexLess(x, x)
    ensures LexLess(x, y) && LexLess(y, z) ==> LexLess(x, z)
    ensures x != y ==> LexLess(x, y) || LexLess(y, x)
  {
    if x != [] {
      LexLessIsStrict(x[1..], y[1..], z[1..]);
      assert x == [x[0]] + x[1..] && y == [y[0]] + y[1..];
    }
  }

  /** The derived ordering is a strict total order whose equality is the
      derived (field-by-field) equality. */
  lemma DepLessIsStrictTotalOrder()
    ensures IsStrictTotalOrder(DepLess)
  {
    StrLessIsStrictTotalOrder();
    forall a, b, c ensures !DepLess(a, a)
      && (DepLess(a, b) && DepLess(b, c) ==> DepLess(a, c))
      && (a != b ==> DepLess(a, b) || DepLess(b, a))
    {
      LexLessIsStrict(Fields(a), Fields(b), Fields(c));
      if a != b {
        assert Fields(a) != Fields(b);
      }
    }
  }

  /** The order in which a `BTreeSet<JavaDep>` hands out its members. */
  ghost function ImportOrder(deps: set<JavaDep>): (r: seq<JavaDep>)
    ensures StrictlySorted(r, DepLess)
    ensures forall d :: d in r <==> d in deps
    ensures |r| == |deps|
  {
    DepLessIsStrictTotalOrder();
    SortedBy(deps, DepLess)
  }

  /** The two predefined dependencies differ, are wildcard imports, and
      `wasmtime` sorts first, since "net." comes before "org.". */
  lemma PredefinedDeps()
    ensures Wasmtime != Javatuples
    ensures EndsWith(Wasmtime.baseImport, ".*") && EndsWith(Javatuples.baseImport, ".*")
    ensures DepLess(Wasmtime, Javatuples) && !DepLess(Javatuples, Wasmtime)
  {
    assert Wasmtime.baseImport[0] == 'n' && Javatuples.baseImport[0] == 'o';
    assert Wasmtime.baseImport[|Wasmtime.baseImport| - 2..] == ".*";
    assert Javatuples.baseImport[|Javatuples.baseImport| - 2..] == ".*";
  }

  /** With both libraries registered the imports come out `wasmtime`
      first, whichever was registered first. */
  lemma ImportOrderOfBoth()
    ensures ImportOrder({Javatuples, Wasmtime}) == [Wasmtime, Javatuples]
    ensures ImportOrder({Wasmtime}) == [Wasmtime]
  {
    DepLessIsStrictTotalOrder();
    PredefinedDeps();
    SortedUnique(ImportOrder({Javatuples, Wasmtime}), [Wasmtime, Javatuples], DepLess);
    SortedUnique(ImportOrder({Wasmtime}), [Wasmtime], DepLess);
  }

  /** The lines of the `<dependency>` stanza: it opens with a line feed and
      ends with the indentation of the next stanza. */
  function PomLines(d: JavaDep): seq<string>
  {
    [ "",
      "        <dependency>",
      "            <groupId>" + d.groupId + "</groupId>",
      "            <artifactId>" + d.artifactId + "</artifactId>",
      "            <version>" + d.version + "</version>",
      "        </dependency>",
      "        " ]
  }

  /** `pom_dep`: the `<dependency>` stanza of this library. */
  function PomDep(d: JavaDep): string
  {
    Join("\n", PomLines(d))
  }

  /** The stanza is one `<dependency>` element holding the group, the
      artifact and the version, each on its own line, in that order. */
  lemma PomDepElements(d: JavaDep)
    requires '\n' !in d.groupId && '\n' !in d.artifactId && '\n' !in d.version
    ensures var lines := Split(PomDep(d), '\n');
      && |lines| == 7
      && lines[1] == "        <dependency>"
      && lines[2] == "            <groupId>" + d.groupId + "</groupId>"
      && lines[3] == "            <artifactId>" + d.artifactId + "</artifactId>"
      && lines[4] == "            <version>" + d.version + "</version>"
      && lines[5] == "        </dependency>"
  {
    PomLinesNoNewline(d);
    SplitJoin(PomLines(d), '\n');
  }

  lemma PomLinesNoNewline(d: JavaDep)
    requires '\n' !in d.groupId && '\n' !in d.artifactId && '\n' !in d.version
    ensures forall i :: 0 <= i < |PomLines(d)| ==> '\n' !in PomLines(d)[i]
  {
    TaggedNoNewline("            <groupId>", d.groupId, "</groupId>");
    TaggedNoNewline("            <artifactId>", d.artifactId, "</artifactId>");
    TaggedNoNewline("            <version>", d.version, "</version>");
  }

  lemma TaggedNoNewline(open: string, value: string, close: string)
    requires '\n' !in open && '\n' !in value && '\n' !in close
    ensures '\n' !in open + value + close
  {
  }
}
