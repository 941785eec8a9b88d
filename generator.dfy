/** The Java emitter's state and its `import` and `finish_one` callbacks
    (`WasmtimeJava` in `wasmtime_java.rs`). */
module WasmtimeJava {
  import opened Wrappers
  import opened Text
  import opened Sorted
  import opened SourceBuffer
  import opened JavaTypes
  import opened JavaDeps
  import opened Aggregate
  import opened Emit
  import Wit

  /** `Files`: each generated file as its path and its text, in the order
      they were pushed. */
  type Files = seq<(string, string)>

  /** The aggregate an interface has so far, or an empty one
      (`entry(..).or_insert_with(HostImports::default)`). */
  function Existing(hostImports: map<string, HostImports>, name: string): (h: HostImports)
    ensures name in hostImports ==> h == hostImports[name]
    ensures name !in hostImports ==> h == Empty
  {
    if name in hostImports then hostImports[name] else Empty
  }

  /** What a successful `import` does to the interface's aggregate: the
      two constructor fields for the instance and the store, then the
      captured body filed by the function's kind. */
  function Registered(h: HostImports, kind: Wit.FunctionKind, body: string, lowerCamel: string -> string): HostImports
  {
    var withInstance := InsertField(h, lowerCamel(WtInstance), WtInstance, Constructor);
    var withStore := InsertField(withInstance, lowerCamel(WtStore), WtStore, Constructor);
    PushFunc(withStore, kind, body)
  }

  /** After `import` the aggregate holds the constructor fields
      `wasmInstance: WasmInstance` and `wasmStore: WasmStore` (their names
      being the lower-camel forms, which differ), no other field changes,
      and the body is at the end of exactly the bucket its kind selects. */
  lemma RegisteredSpec(h: HostImports, kind: Wit.FunctionKind, body: string, lowerCamel: string -> string)
    requires WellKeyed(h)
    requires lowerCamel(WtInstance) != lowerCamel(WtStore)
    ensures var r := Registered(h, kind, body, lowerCamel);
      && WellKeyed(r)
      && lowerCamel(WtInstance) in r.fields
      && r.fields[lowerCamel(WtInstance)] == HostField(lowerCamel(WtInstance), WtInstance, Constructor)
      && lowerCamel(WtStore) in r.fields
      && r.fields[lowerCamel(WtStore)] == HostField(lowerCamel(WtStore), WtStore, Constructor)
      && r.fields.Keys == h.fields.Keys + {lowerCamel(WtInstance), lowerCamel(WtStore)}
      && (forall k :: k in h.fields && k != lowerCamel(WtInstance) && k != lowerCamel(WtStore) ==>
            r.fields[k] == h.fields[k])
      && (kind.Freestanding? ==> r.freestandingFuncs == h.freestandingFuncs + [body] && r.resourceFuncs == h.resourceFuncs)
      && (!kind.Freestanding? ==>
            r.freestandingFuncs == h.freestandingFuncs
            && ResourceBucket(r, kind.resource) == ResourceBucket(h, kind.resource) + [body])
  {
  }

  /** Importing into the same interface again adds a body but no field:
      the two constructor fields are never duplicated. */
  lemma RegisteredTwiceSameFields(h: HostImports, k1: Wit.FunctionKind, b1: string,
                                  k2: Wit.FunctionKind, b2: string, lowerCamel: string -> string)
    ensures Registered(Registered(h, k1, b1, lowerCamel), k2, b2, lowerCamel).fields
         == Registered(h, k1, b1, lowerCamel).fields
  {
  }

  /** `fields.values()` of a `BTreeMap`: the fields ordered by name. */
  method FieldValues(h: HostImports) returns (fields: seq<HostField>)
    ensures fields == SortedFields(h)
  {
    StrLessIsStrictTotalOrder();
    var names := SortedElements(h.fields.Keys, StrLess);
    fields := seq(|names|, i requires 0 <= i < |names| => h.fields[names[i]]);
  }

  /** The texts one after the other. */
  function Concat(texts: seq<string>): string
  {
    if texts == [] then "" else Concat(texts[..|texts| - 1]) + texts[|texts| - 1]
  }

  /** The files pushed while a buffer holding `base` grows by each text
      in turn: one per text, each at `path` holding the whole buffer. */
  function Snapshots(path: string, base: string, texts: seq<string>): (r: Files)
    ensures |r| == |texts|
  {
    if texts == [] then []
    else Snapshots(path, base, texts[..|texts| - 1]) + [(path, base + Concat(texts))]
  }

  lemma ConcatNext(texts: seq<string>, k: nat)
    requires k < |texts|
    ensures Concat(texts[..k + 1]) == Concat(texts[..k]) + texts[k]
  {
    assert texts[..k + 1][..k] == texts[..k];
  }

  lemma SnapshotsNext(path: string, base: string, texts: seq<string>, k: nat)
    requires k < |texts|
    ensures Snapshots(path, base, texts[..k + 1]) == Snapshots(path, base, texts[..k]) + [(path, base + Concat(texts[..k + 1]))]
  {
    assert texts[..k + 1][..k] == texts[..k];
  }

  /** The k-th file is at `path` and holds `base` and the first k + 1
      texts. */
  lemma {:induction false} SnapshotsAt(path: string, base: string, texts: seq<string>)
    ensures forall k :: 0 <= k < |texts| ==>
      Snapshots(path, base, texts)[k] == (path, base + Concat(texts[..k + 1]))
  {
    if texts != [] {
      var prefix := texts[..|texts| - 1];
      SnapshotsAt(path, base, prefix);
      forall k | 0 <= k < |texts|
        ensures Snapshots(path, base, texts)[k] == (path, base + Concat(texts[..k + 1]))
      {
        if k < |prefix| {
          assert texts[..k + 1] == prefix[..k + 1];
        } else {
          assert texts[..k + 1] == texts;
        }
      }
    }
  }

  /** The texts joined so far only grow: fewer texts give a prefix. */
  lemma {:induction false} ConcatPrefix(texts: seq<string>, i: nat, j: nat)
    requires i <= j <= |texts|
    ensures Concat(texts[..i]) <= Concat(texts[..j])
  {
    if i < j {
      ConcatPrefix(texts, i, j - 1);
      ConcatNext(texts, j - 1);
    }
  }

  /** A buffer that grows by the texts keeps the first one right after
      what it held before. */
  lemma FirstTextKept(base: string, texts: seq<string>)
    requires texts != []
    ensures base + texts[0] <= base + Concat(texts)
  {
    ConcatPrefix(texts, 1, |texts|);
    assert texts[..1] == [texts[0]] && texts[..|texts|] == texts;
    assert Concat(texts[..1]) == Concat(texts[..0]) + texts[0];
  }

  /** When the buffer is never cleared, the file pushed after the k-th
      text holds every earlier text before it, so for k > 0 it is longer
      than that text alone whenever the first text is not empty. */
  lemma {:induction false} SnapshotRepeatsEarlier(path: string, base: string, texts: seq<string>, k: nat)
    requires 0 < k < |texts| && texts[0] != []
    ensures Snapshots(path, base, texts)[k].1 == base + Concat(texts[..k]) + texts[k]
    ensures base + texts[0] <= Snapshots(path, base, texts)[k].1
    ensures |Snapshots(path, base, texts)[k].1| > |base| + |texts[k]|
  {
    SnapshotsAt(path, base, texts);
    ConcatNext(texts, k);
    ConcatPrefix(texts, 1, k);
    assert texts[..1] == [texts[0]];
    assert Concat(texts[..1]) == Concat(texts[..0]) + texts[0];
  }

  /** The files of a buffer emptied before each text: one per text, each
      at `path` holding that text alone. */
  function Separately(path: string, texts: seq<string>): (r: Files)
    ensures |r| == |texts|
    ensures forall i :: 0 <= i < |texts| ==> r[i] == (path, texts[i])
  {
    seq(|texts|, i requires 0 <= i < |texts| => (path, texts[i]))
  }

  lemma SeparatelyNext(path: string, texts: seq<string>, k: nat)
    requires k < |texts|
    ensures Separately(path, texts[..k + 1]) == Separately(path, texts[..k]) + [(path, texts[k])]
  {
  }

  /** Iterating a `BTreeSet<JavaDep>`: the dependencies in import order. */
  method ImportsInOrder(deps: set<JavaDep>) returns (r: seq<JavaDep>)
    ensures r == ImportOrder(deps)
    ensures r == [] <==> deps == {}
  {
    DepLessIsStrictTotalOrder();
    r := SortedElements(deps, DepLess);
  }

  class Generator {
    var src: Source
    var javaImports: set<JavaDep>
    var hostImports: map<string, HostImports>
    /** `opts.package`. */
    const package: string
    /** heck's `to_lower_camel_case` and `to_upper_camel_case`. */
    const lowerCamel: string -> string
    const upperCamel: string -> string

    /** Between calls the buffer is well formed and back at depth 0, and
      every aggregate is keyed by its fields' own names. */
    ghost predicate Valid()
      reads this, src
    {
      && src.Valid()
      && src.indent == 0
      && (forall m :: m in hostImports ==> WellKeyed(hostImports[m]))
    }

    /** `WasmtimeJava::opts`: everything else starts empty. */
    constructor (package: string, lowerCamel: string -> string, upperCamel: string -> string)
      ensures Valid() && fresh(src)
      ensures src.s == "" && src.indent == 0
      ensures javaImports == {} && hostImports == map[]
      ensures this.package == package && this.lowerCamel == lowerCamel && this.upperCamel == upperCamel
    {
      this.package := package;
      this.lowerCamel := lowerCamel;
      this.upperCamel := upperCamel;
      src := new Source();
      javaImports := {};
      hostImports := map[];
    }

    /** `print_package`. */
    method PrintPackage()
      requires src.Valid()
      modifies src
      ensures src.Valid() && src.indent == old(src.indent)
      ensures src.s == old(src.s) + PackageText(old(src.indent), package)
    {
      src.PushLines(PackageLine(package));
      src.PushLines("\n");
    }

    /** `print_imports`: the set in its sorted order. */
    method PrintImports()
      requires src.Valid()
      modifies src
      ensures src.Valid() && src.indent == old(src.indent)
      ensures src.s == old(src.s) + ImportsText(old(src.indent), ImportOrder(javaImports))
    {
      var deps := ImportsInOrder(javaImports);
      PrintImportList(deps);
    }

    /** The body of `print_imports` once the set's order is known: one
      import per dependency, then a blank line when there was one. */
    method PrintImportList(deps: seq<JavaDep>)
      requires src.Valid()
      modifies src
      ensures src.Valid() && src.indent == old(src.indent)
      ensures src.s == old(src.s) + ImportsText(old(src.indent), deps)
    {
      ghost var s0 := src.s;
      PushAll(ImportLines(deps));
      ghost var s1 := src.s;
      if deps != [] {
        src.PushLines("\n");
      }
      ImportsTextSteps(old(src.indent), deps, s0, s1, src.s);
    }

    /** The loops of `print_imports` and `print_fields`: each text
      pushed in turn. */
    method PushAll(texts: seq<string>)
      requires src.Valid()
      modifies src
      ensures src.Valid() && src.indent == old(src.indent)
      ensures src.s == old(src.s) + PushedAll(old(src.indent), texts)
    {
      for i := 0 to |texts|
        invariant src.Valid() && src.indent == old(src.indent)
        invariant src.s == old(src.s) + PushedAll(src.indent, texts[..i])
      {
        assert texts[..i + 1][..i] == texts[..i];
        src.PushLines(texts[i]);
      }
      assert texts[..|texts|] == texts;
    }

    /** `print_class_header`. */
    method PrintClassHeader(name: string)
      requires src.Valid()
      modifies src
      ensures src.Valid() && src.indent == old(src.indent)
      ensures src.s == old(src.s) + ClassHeaderText(old(src.indent), upperCamel(name))
    {
      src.PushLines(ClassHeaderLine(upperCamel(name)));
    }

    /** `print_block_start`. */
    method PrintBlockStart()
      requires src.Valid()
      modifies src
      ensures src.Valid() && src.indent == old(src.indent) + INDENT
      ensures src.s == old(src.s) + BlockStartText(old(src.indent))
    {
      src.PushLines("{");
      src.Indent();
    }

    /** `print_block_end`. */
    method PrintBlockEnd()
      requires src.Valid()
      modifies src
      ensures src.Valid() && src.indent == Outdented(old(src.indent))
      ensures src.s == old(src.s) + BlockEndText(old(src.indent))
    {
      src.Outdent();
      src.PushLines("}");
      src.PushLines("");
    }

    /** `tuple_ty`: records the javatuples dependency before building the
      type, so it is recorded even when the build fails. */
    method TupleTy(types: seq<JavaType>) returns (r: Result<string, GenError>)
      modifies this
      ensures javaImports == old(javaImports) + {Javatuples}
      ensures r == ForTy(types)
      ensures src == old(src) && hostImports == old(hostImports)
    {
      javaImports := javaImports + {Javatuples};
      r := ForTy(types);
    }

    /** `print_func_signature`: one line naming the return type and the
      function; a type it cannot map aborts before anything is written. */
    method PrintFuncSignature(func: Wit.Function) returns (r: Outcome<GenError>)
      requires src.Valid()
      modifies this, src
      ensures src == old(src) && hostImports == old(hostImports)
      ensures src.Valid() && src.indent == old(src.indent)
      ensures javaImports == old(javaImports) + (if UsesTuple(func.results) then {Javatuples} else {})
      ensures ReturnType(func.results).Failure? ==>
        r == Fail(ReturnType(func.results).error) && src.s == old(src.s)
      ensures ReturnType(func.results).Success? ==>
        && r == Pass
        && src.s == old(src.s) + Pushed(old(src.indent), SignatureLine(ReturnType(func.results).value, lowerCamel(func.name)))
    {
      var returnValue: string;
      if |func.results| == 0 {
        returnValue := "void";
      } else if |func.results| == 1 {
        var t := FromType(func.results[0].1);
        if t.Failure? {
          return Fail(t.error);
        }
        returnValue := ForFnReturn(t.value);
      } else {
        var types := MapTypes(func.results);
        if types.Failure? {
          return Fail(types.error);
        }
        var tuple := TupleTy(types.value);
        if tuple.Failure? {
          return Fail(tuple.error);
        }
        returnValue := tuple.value;
      }
      src.PushLines(SignatureLine(returnValue, lowerCamel(func.name)));
      r := Pass;
    }

    /** `print_fields`: one declaration per field, by name. */
    method PrintFields(h: HostImports)
      requires src.Valid()
      modifies src
      ensures src.Valid() && src.indent == old(src.indent)
      ensures src.s == old(src.s) + FieldsText(old(src.indent), SortedFields(h), lowerCamel)
    {
      var fields := FieldValues(h);
      PushAll(FieldLines(fields, lowerCamel));
    }

    /** `print_constructor`: parameters and assignments for the
      constructor-origin fields, by name. */
    method PrintConstructor(name: string, h: HostImports)
      requires src.Valid()
      modifies src
      ensures src.Valid() && src.indent == old(src.indent)
      ensures src.s == old(src.s) + ConstructorText(old(src.indent), upperCamel(name), SortedFields(h), lowerCamel)
    {
      var fields := FieldValues(h);
      var cf := ConstructorFields(fields);
      var line := ConstructorLine(upperCamel(name), fields, lowerCamel);
      var assignments := Join("\n", Assignments(cf, lowerCamel));
      ghost var indent, s0 := src.indent, src.s;
      src.PushLines(line);
      ghost var s1 := src.s;
      PrintBlockStart();
      ghost var inner, s2 := src.indent, src.s;
      src.PushLines(assignments);
      ghost var s3 := src.s;
      PrintBlockEnd();
      ghost var outer, s4 := src.indent, src.s;
      src.PushLines("\n");
      ConstructorTextSteps(indent, inner, outer, upperCamel(name), fields, lowerCamel, line, assignments,
                           s0, s1, s2, s3, s4, src.s);
    }

    /** The text of one class as the loop of `finish_one` prints it. */
    ghost function ClassOf(deps: seq<JavaDep>, moduleName: string, h: HostImports): string
    {
      ClassText(package, deps, upperCamel(moduleName), SortedFields(h), h.freestandingFuncs, lowerCamel)
    }

    /** The classes of `order`, each printed from its aggregate. */
    ghost function ClassTexts(deps: seq<JavaDep>, order: seq<string>, all: map<string, HostImports>): (r: seq<string>)
      requires forall i :: 0 <= i < |order| ==> order[i] in all
      ensures |r| == |order|
      ensures forall i :: 0 <= i < |order| ==> r[i] == ClassOf(deps, order[i], all[order[i]])
    {
      seq(|order|, i requires 0 <= i < |order| => ClassOf(deps, order[i], all[order[i]]))
    }

    /** One iteration of the loop in `finish_one`: package, imports,
      header and `{`, fields, a blank line, the constructor, the
      freestanding bodies, `}`. Resource bodies are not printed. */
    method PrintClass(deps: seq<JavaDep>, moduleName: string, h: HostImports)
      requires src.Valid() && src.indent == 0
      modifies src
      ensures src.Valid() && src.indent == 0
      ensures src.s == old(src.s) + ClassOf(deps, moduleName, h)
    {
      ghost var s0 := src.s;
      PrintPackage();
      ghost var s1 := src.s;
      assert src.indent == 0;
      PrintImportList(deps);
      ghost var s2 := src.s;
      assert src.indent == 0;
      PrintClassHeader(moduleName);
      ghost var s3 := src.s;
      assert src.indent == 0;
      PrintBlockStart();
      ghost var s4 := src.s;
      assert src.indent == INDENT;
      PrintFields(h);
      ghost var s5 := src.s;
      assert src.indent == INDENT;
      src.PushLines("\n");
      ghost var s6 := src.s;
      assert src.indent == INDENT;
      PrintConstructor(moduleName, h);
      ghost var s7 := src.s;
      assert src.indent == INDENT;
      PrintBodies(h.freestandingFuncs);
      ghost var s8 := src.s;
      assert src.indent == INDENT;
      PrintBlockEnd();
      ClassTextSteps(package, deps, upperCamel(moduleName), SortedFields(h),
                     h.freestandingFuncs, lowerCamel, s0, s1, s2, s3, s4, s5, s6, s7, s8, src.s);
    }

    /** The loop over `freestanding_funcs`: each body followed by a blank
      line, at the current depth. */
    method PrintBodies(bodies: seq<string>)
      requires src.Valid()
      modifies src
      ensures src.Valid() && src.indent == old(src.indent)
      ensures src.s == old(src.s) + BodiesText(old(src.indent), bodies)
    {
      ghost var indent := src.indent;
      for i := 0 to |bodies|
        invariant src.Valid() && src.indent == indent
        invariant src.s == old(src.s) + BodiesText(indent, bodies[..i])
      {
        ghost var s0 := src.s;
        src.PushLines(bodies[i]);
        ghost var s1 := src.s;
        src.PushLines("\n");
        BodiesTextNext(indent, bodies, i);
        AppendTwo(s0, s1, src.s, Pushed(indent, bodies[i]), Pushed(indent, "\n"));
        AppendTwo(old(src.s), s0, src.s, BodiesText(indent, bodies[..i]), Pushed(indent, bodies[i]) + Pushed(indent, "\n"));
      }
      assert bodies[..|bodies|] == bodies;
    }

    /** `import`: renders the signature and an empty block into a fresh
      buffer, puts the old buffer back, records the wasmtime dependency
      and the two constructor fields, and files the captured body. An
      async function, an unsupported type or too many results abort
      (a panic in the source); then the buffer and the aggregates are as
      before, except that `tuple_ty` may already have recorded
      javatuples. */
    method Import(iface: Wit.Interface, func: Wit.Function) returns (r: Outcome<GenError>)
      requires Valid()
      modifies this
      ensures Valid()
      ensures src == old(src) && src.s == old(src.s) && src.indent == old(src.indent)
      ensures func.isAsync ==>
        r == Fail(AsyncUnsupported) && javaImports == old(javaImports) && hostImports == old(hostImports)
      ensures !func.isAsync && ReturnType(func.results).Failure? ==>
        && r == Fail(ReturnType(func.results).error)
        && hostImports == old(hostImports)
        && javaImports == old(javaImports) + (if UsesTuple(func.results) then {Javatuples} else {})
      ensures !func.isAsync && ReturnType(func.results).Success? ==>
        && r == Pass
        && javaImports == old(javaImports) + {Wasmtime} + (if UsesTuple(func.results) then {Javatuples} else {})
        && hostImports == old(hostImports)[iface.name := Registered(
             Existing(old(hostImports), iface.name), func.kind,
             FunctionBodyText(SignatureLine(ReturnType(func.results).value, lowerCamel(func.name))), lowerCamel)]
    {
      if func.isAsync {
        return Fail(AsyncUnsupported);
      }
      var body;
      r, body := RenderFunction(func);
      if r.Fail? {
        return;
      }
      Record(iface.name, func.kind, body);
    }

    /** The second half of `import`: the wasmtime dependency, the two
      constructor fields and the body are recorded under the interface. */
    method Record(ifaceName: string, kind: Wit.FunctionKind, body: string)
      requires Valid()
      modifies this
      ensures Valid()
      ensures src == old(src) && src.s == old(src.s) && src.indent == old(src.indent)
      ensures javaImports == old(javaImports) + {Wasmtime}
      ensures hostImports == old(hostImports)[ifaceName := Registered(Existing(old(hostImports), ifaceName), kind, body, lowerCamel)]
    {
      var h := Existing(hostImports, ifaceName);
      javaImports := javaImports + {Wasmtime};
      h := InsertField(h, lowerCamel(WtInstance), WtInstance, Constructor);
      h := InsertField(h, lowerCamel(WtStore), WtStore, Constructor);
      h := PushFunc(h, kind, body);
      hostImports := hostImports[ifaceName := h];
    }

    /** The first half of `import`: the signature and an empty block are
      printed into a fresh buffer (`mem::take`), which is then swapped
      back out (`mem::replace`) as the function's body. */
    method RenderFunction(func: Wit.Function) returns (r: Outcome<GenError>, body: string)
      requires src.Valid()
      modifies this
      ensures src == old(src) && src.s == old(src.s) && src.indent == old(src.indent)
      ensures hostImports == old(hostImports)
      ensures javaImports == old(javaImports) + (if UsesTuple(func.results) then {Javatuples} else {})
      ensures ReturnType(func.results).Failure? ==> r == Fail(ReturnType(func.results).error)
      ensures ReturnType(func.results).Success? ==>
        r == Pass && body == FunctionBodyText(SignatureLine(ReturnType(func.results).value, lowerCamel(func.name)))
    {
      var prev := src;
      src := new Source();
      r := PrintFuncSignature(func);
      if r.Fail? {
        src := prev;
        return r, "";
      }
      ghost var signature := SignatureLine(ReturnType(func.results).value, lowerCamel(func.name));
      ghost var s1 := src.s;
      assert s1 == Pushed(0, signature) && src.indent == 0;
      PrintBlockStart();
      ghost var s2 := src.s;
      assert src.indent == INDENT;
      PrintBlockEnd();
      FunctionBodySteps(signature, s1, s2, src.s);
      body := src.s;
      src := prev;
    }

    /** One iteration of `finish_one`'s loop: the next class is printed
      and a file holding the whole buffer is pushed. */
    method PrintAndPush(deps: seq<JavaDep>, moduleName: string, h: HostImports, path: string,
                        ghost base: string, files: Files, ghost texts: seq<string>, k: nat, out: Files)
      returns (next: Files)
      requires k < |texts| && texts[k] == ClassOf(deps, moduleName, h)
      requires src.Valid() && src.indent == 0
      requires src.s == base + Concat(texts[..k])
      requires out == files + Snapshots(path, base, texts[..k])
      modifies src
      ensures src.Valid() && src.indent == 0
      ensures src.s == base + Concat(texts[..k + 1])
      ensures next == files + Snapshots(path, base, texts[..k + 1])
    {
      ghost var before := src.s;
      PrintClass(deps, moduleName, h);
      ConcatNext(texts, k);
      AppendTwo(base, before, src.s, Concat(texts[..k]), texts[k]);
      next := out + [(path, src.s)];
      SnapshotsNext(path, base, texts, k);
      AppendTwo(files, out, next, Snapshots(path, base, texts[..k]), [(path, src.s)]);
    }

    /** `finish_one`: drains every aggregate, in the unspecified order of
      a `HashMap` (recorded in `order`), printing each class after all
      the text already in the buffer, and pushes one file per class at
      the interface's path holding the whole buffer so far. */
    method FinishOne(ifaceName: string, files: Files) returns (out: Files, order: seq<string>)
      requires Valid()
      modifies this, src
      ensures Valid() && src == old(src)
      ensures hostImports == map[] && javaImports == old(javaImports)
      ensures |order| == |old(hostImports)|
      ensures forall m :: m in order <==> m in old(hostImports)
      ensures forall i, j :: 0 <= i < j < |order| ==> order[i] != order[j]
      ensures src.s == old(src.s) + Concat(ClassTexts(ImportOrder(javaImports), order, old(hostImports)))
      ensures out == files + Snapshots(FilePath(package, ifaceName, upperCamel), old(src.s),
                                       ClassTexts(ImportOrder(javaImports), order, old(hostImports)))
    {
      var all := hostImports;
      var deps := ImportsInOrder(javaImports);
      var path := FilePath(package, ifaceName, upperCamel);
      hostImports := map[];
      order := HashMapOrder(all);
      out := PrintAll(deps, order, all, path, files);
    }

    /** The loop of `finish_one`: one class per drained aggregate, each
      followed by a snapshot of the whole buffer. */
    method PrintAll(deps: seq<JavaDep>, order: seq<string>, all: map<string, HostImports>, path: string, files: Files)
        returns (out: Files)
      requires src.Valid() && src.indent == 0
      requires forall i :: 0 <= i < |order| ==> order[i] in all
      modifies src
      ensures src.Valid() && src.indent == 0
      ensures src.s == old(src.s) + Concat(ClassTexts(deps, order, all))
      ensures out == files + Snapshots(path, old(src.s), ClassTexts(deps, order, all))
    {
      ghost var texts := ClassTexts(deps, order, all);
      out := files;
      for k := 0 to |order|
        invariant src.Valid() && src.indent == 0
        invariant src.s == old(src.s) + Concat(texts[..k])
        invariant out == files + Snapshots(path, old(src.s), texts[..k])
      {
        out := PrintAndPush(deps, order[k], all[order[k]], path, old(src.s), files, texts, k, out);
      }
      assert texts[..|order|] == texts;
    }
    /** The second file of one `finish_one` holds the first class as well
      as its own: its text is not the class it was pushed for. */
    lemma FinishOneRepeatsClasses(deps: seq<JavaDep>, order: seq<string>, all: map<string, HostImports>,
                                  path: string, base: string, k: nat)
      requires forall i :: 0 <= i < |order| ==> order[i] in all
      requires 0 < k < |order|
      ensures var texts := ClassTexts(deps, order, all);
        && base + texts[0] <= Snapshots(path, base, texts)[k].1
        && Snapshots(path, base, texts)[k].1 != ClassOf(deps, order[k], all[order[k]])
    {
      var texts := ClassTexts(deps, order, all);
      var h := all[order[0]];
      ClassTextOpensWithPackage(package, deps, upperCamel(order[0]), SortedFields(h), h.freestandingFuncs, lowerCamel);
      assert texts[0] == ClassOf(deps, order[0], h);
      SnapshotRepeatsEarlier(path, base, texts, k);
    }

    /** Two `finish_one` calls in a row: the first leaves its classes in
      the buffer, so every file of the second call starts with the first
      call's first class and is not the class it was pushed for. */
    lemma FinishOneAgainRepeatsClasses(firstDeps: seq<JavaDep>, first: seq<string>, firstAll: map<string, HostImports>,
                                       secondDeps: seq<JavaDep>, second: seq<string>, secondAll: map<string, HostImports>,
                                       path: string, base: string, k: nat)
      requires forall i :: 0 <= i < |first| ==> first[i] in firstAll
      requires forall i :: 0 <= i < |second| ==> second[i] in secondAll
      requires 0 < |first| && k < |second|
      ensures var earlier := ClassTexts(firstDeps, first, firstAll);
              var file := Snapshots(path, base + Concat(earlier), ClassTexts(secondDeps, second, secondAll))[k].1;
        && base + earlier[0] <= file
        && file != ClassOf(secondDeps, second[k], secondAll[second[k]])
    {
      var earlier := ClassTexts(firstDeps, first, firstAll);
      var texts := ClassTexts(secondDeps, second, secondAll);
      var left := base + Concat(earlier);
      var file := Snapshots(path, left, texts)[k].1;
      var h := firstAll[first[0]];
      assert |earlier[0]| > 0 by {
        assert earlier[0] == ClassOf(firstDeps, first[0], h);
        ClassTextOpensWithPackage(package, firstDeps, upperCamel(first[0]), SortedFields(h), h.freestandingFuncs, lowerCamel);
      }
      FirstTextKept(base, earlier);
      assert file == left + Concat(texts[..k + 1]) by { SnapshotsAt(path, left, texts); }
      assert |file| > |texts[k]| by { ConcatNext(texts, k); }
    }

    /** `finish_one` with the buffer taken before each class: every
      aggregate is drained, and each file holds exactly the class it was
      pushed for. */
    method FinishOneFresh(ifaceName: string, files: Files) returns (out: Files, order: seq<string>)
      requires Valid()
      modifies this
      ensures Valid()
      ensures hostImports == map[] && javaImports == old(javaImports)
      ensures |order| == |old(hostImports)|
      ensures forall m :: m in order <==> m in old(hostImports)
      ensures forall i, j :: 0 <= i < j < |order| ==> order[i] != order[j]
      ensures out == files + Separately(FilePath(package, ifaceName, upperCamel),
                                        ClassTexts(ImportOrder(javaImports), order, old(hostImports)))
    {
      var all := hostImports;
      var deps := ImportsInOrder(javaImports);
      var path := FilePath(package, ifaceName, upperCamel);
      hostImports := map[];
      order := HashMapOrder(all);
      out := PrintEachFresh(deps, order, all, path, files);
    }

    /** The corrected loop: each class printed into an empty buffer and
      pushed on its own. */
    method PrintEachFresh(deps: seq<JavaDep>, order: seq<string>, all: map<string, HostImports>, path: string, files: Files)
        returns (out: Files)
      requires forall i :: 0 <= i < |order| ==> order[i] in all
      modifies this
      ensures src.Valid() && src.indent == 0
      ensures hostImports == old(hostImports) && javaImports == old(javaImports)
      ensures out == files + Separately(path, ClassTexts(deps, order, all))
    {
      ghost var texts := ClassTexts(deps, order, all);
      out := files;
      src := new Source();
      for k := 0 to |order|
        invariant src.Valid() && src.indent == 0
        invariant hostImports == old(hostImports) && javaImports == old(javaImports)
        invariant out == files + Separately(path, texts[..k])
      {
        src := new Source();
        PrintClass(deps, order[k], all[order[k]]);
        assert src.s == texts[k];
        var next := out + [(path, src.s)];
        SeparatelyNext(path, texts, k);
        AppendTwo(files, out, next, Separately(path, texts[..k]), [(path, texts[k])]);
        out := next;
      }
      assert texts[..|order|] == texts;
    }
  }

  /** Two appends in a row append the two pieces joined. */
  lemma AppendTwo<T>(s0: seq<T>, s1: seq<T>, s2: seq<T>, a: seq<T>, b: seq<T>)
    requires s1 == s0 + a && s2 == s1 + b
    ensures s2 == s0 + (a + b)
  {
  }

  /** Iterating a `HashMap`: every key once, in an order the program
    cannot predict (any order satisfying the contract may be chosen). */
  method HashMapOrder<V>(m: map<string, V>) returns (order: seq<string>)
    ensures |order| == |m|
    ensures forall k :: k in order <==> k in m
    ensures forall i, j :: 0 <= i < j < |order| ==> order[i] != order[j]
  {
    var remaining := m.Keys;
    order := [];
    while remaining != {}
      invariant forall k :: k in order <==> k in m && k !in remaining
      invariant remaining <= m.Keys
      invariant forall i, j :: 0 <= i < j < |order| ==> order[i] != order[j]
      invariant |remaining| + |order| == |m|
      decreases |remaining|
    {
      var k :| k in remaining;
      order := order + [k];
      remaining := remaining - {k};
    }
  }
}
