# gen-wasmtime-java, modelled in Dafny

This project models the Java binding emitter of `wit-bindgen`: the crate
`gen-wasmtime-java`. For every interface it imports, the emitter writes one
Java class: a `package` line, the `import` lines of the libraries it needs,
`public class <Name>`, one `private final` field per recorded field, a
constructor assigning the constructor fields, and one method stub per
freestanding function. It then records the class as a file at
`<package as a path>/<Interface>.java`.

The model has four parts, as the crate does:

- **The indented text buffer** (`source.rs`), in `source.dfy`.
  - `SourceBuffer.Source` is a class with the text `s` and the depth `indent`.
  - `PushLines` loops over the lines of its input. It appends each one trimmed, re-indented and ended by a line feed.
  - `Pushed(indent, text)` is the specification of one push. The lemmas beside it state what it does to the empty string, a single line feed and a single plain line.
- **Type mapping and tuple rendering** (`ty.rs`), in `ty.dfy`.
  - The type table, the primitive and boxed names, and the `org.javatuples` word for each arity are functions.
  - `ForTy` renders `Word<Boxed, ...>`. A parser (`ParseTupleType`) reads that rendering back, and the round trip is proved, so `ForTy` is injective.
  - Panics are `Failure` values of `Result`.
- **Dependency records** (`java_deps.rs`), in `java_deps.dfy`.
  - `JavaDep` is a datatype. The derived `Ord` is the lexicographic order over its four fields, proved to be a strict total order.
  - `ImportOrder` is the iteration order of a `BTreeSet<JavaDep>`. The iteration itself is the method `Sorted.SortedElements`.
- **The generator** (`wasmtime_java.rs`), in `host_imports.dfy`, `emit.dfy` and `generator.dfy`.
  - `HostImports` is a datatype holding a field map and two body buckets (`Aggregate`).
  - The text each `print_*` method appends is a function in `Emit`. Each is proved to lay out exactly the lines it should (`LaidOut`).
  - `WasmtimeJava.Generator` is a class with `src`, `javaImports: set<JavaDep>` and `hostImports: map<string, HostImports>`.
  - Its `print_*`, `import` and `finish_one` methods change that state. Each ensures ties the new state to those functions.

Two details of the output are easy to get wrong; the model follows the code:

- `U8` maps to `Short`, so a function returning `(u8, u16, f32)` has return type `Triplet<Short, Integer, Float>`.
- The two constructor fields `import` records are named `wasmInstance` and `wasmStore` (`wasmtime_java.rs:401-410`), the lower-camel forms of `WasmInstance` and `WasmStore`. The comment at `wasmtime_java.rs:247` gives the parameters as `WasmStore store, WasmInstance instance`, which the code does not produce.

## Model

| member | source | states |
|---|---|---|
| SourceBuffer.Source.constructor | crates/gen-wasmtime-java/src/source.rs:5-9 | a default buffer holds no text and is at depth 0 |
| SourceBuffer.Source.PushLines | crates/gen-wasmtime-java/src/source.rs:12-20 | the old text stays as a prefix and exactly `Pushed(indent, text)` is appended: every line of the input (split on line feeds, no empty last line), trimmed, after `indent` spaces and before a line feed; the depth is unchanged |
| SourceBuffer.Source.PushIndent | crates/gen-wasmtime-java/src/source.rs:22-24 | appends exactly `indent` spaces |
| SourceBuffer.Source.Indent | crates/gen-wasmtime-java/src/source.rs:26-28 | the depth grows by exactly 4 and stays a multiple of 4; the text is unchanged |
| SourceBuffer.Source.Outdent | crates/gen-wasmtime-java/src/source.rs:30-32 | the depth shrinks by 4 but never below 0, so it undoes `Indent`; the text is unchanged |
| SourceBuffer.Source.Newline | crates/gen-wasmtime-java/src/source.rs:34-36 | appends one line feed |
| SourceBuffer.Source.AsStr | crates/gen-wasmtime-java/src/source.rs:38-54 | `as_str`, `Deref` and the conversion into `String` return exactly the accumulated text |
| SourceBuffer.PushedEmptyAndNewline | crates/gen-wasmtime-java/src/source.rs:12-20 | pushing `""` appends nothing; pushing `"\n"` appends one line holding only the indentation |
| SourceBuffer.PushedSingleLine | crates/gen-wasmtime-java/src/source.rs:12-20 | a line without line feeds or surrounding whitespace is appended as the indentation, the line, a line feed |
| SourceBuffer.RenderLinesAppend | crates/gen-wasmtime-java/src/source.rs:14-19 | pushing lines `a + b` appends what pushing `a` and then `b` appends |
| SourceBuffer.TrimIsSlice | crates/gen-wasmtime-java/src/source.rs:15 | `trim` keeps one contiguous slice, drops only whitespace on either side, and leaves no whitespace at its ends |
| SourceBuffer.TrimFixedIff | crates/gen-wasmtime-java/src/source.rs:15 | a string is unchanged by `trim` iff it is empty or starts and ends with non-whitespace |
| SourceBuffer.TrimIdempotent | crates/gen-wasmtime-java/src/source.rs:15 | trimming twice is trimming once |
| SourceBuffer.LinesOfTerminated | crates/gen-wasmtime-java/src/source.rs:13 | splitting lines that are each ended by a line feed gives back those lines |
| SourceBuffer.TerminatedOfLines | crates/gen-wasmtime-java/src/source.rs:13 | re-joining the lines of a text gives the text back, plus a final line feed if it had none |
| JavaTypes.FromTypeFailsIff | crates/gen-wasmtime-java/src/ty.rs:25-45 | mapping a type fails exactly for `Handle` and `Id`, each with its own error; no type maps to `Boolean` |
| JavaTypes.IntegerMappingHoldsRange | crates/gen-wasmtime-java/src/ty.rs:27-40 | every integer type maps to a Java integral type holding all its values, except `u64`, whose `long` does not; this reads `usize` as 32 bits, a width the source does not state |
| JavaTypes.KeywordsDistinctLowercase | crates/gen-wasmtime-java/src/ty.rs:48-63 | `for_fn_return` equals `for_fn_param`, which gives distinct non-empty lower-case keywords |
| JavaTypes.BoxedNameCapitalised | crates/gen-wasmtime-java/src/ty.rs:65-76 | the boxed name is `Integer` for `Int`, `Character` for `Char`, and otherwise the capitalised keyword |
| JavaTypes.BoxedNamesDistinct | crates/gen-wasmtime-java/src/ty.rs:65-76 | distinct types get distinct boxed names |
| JavaTypes.BoxedNames | crates/gen-wasmtime-java/src/ty.rs:134-138 | one boxed name per type, in the same order |
| JavaTypes.ForTyFailsIff | crates/gen-wasmtime-java/src/ty.rs:117-132 | `for_ty` fails exactly for 0 elements (empty tuple) and for more than 10 (too long) |
| JavaTypes.WordRoundTrip | crates/gen-wasmtime-java/src/ty.rs:94-132 | for 1 to 10 elements there is a tuple word, and it reads back as the element count |
| JavaTypes.TypeListRoundTrip | crates/gen-wasmtime-java/src/ty.rs:134-139 | the `", "`-joined boxed names read back as the original types |
| JavaTypes.ForTyRoundTrip | crates/gen-wasmtime-java/src/ty.rs:117-146 | for 1 to 10 elements `for_ty` succeeds and `Word<list>` reads back as the types, the word agreeing with the length |
| JavaTypes.ForTyInjective | crates/gen-wasmtime-java/src/ty.rs:117-146 | two type lists with the same rendering are equal |
| Emit.TripletOfShortIntFloat | crates/gen-wasmtime-java/src/ty.rs:117-146 | `[Short, Int, Float]` renders `Triplet<Short, Integer, Float>` |
| JavaDeps.Def | crates/gen-wasmtime-java/src/java_deps.rs:25-62 | `def` stores its four arguments and the accessors return them unchanged |
| Text.StrLessIsStrictTotalOrder | crates/gen-wasmtime-java/src/java_deps.rs:16-22 | the derived string order is irreflexive, transitive and total |
| JavaDeps.LexLessIsStrict | crates/gen-wasmtime-java/src/java_deps.rs:16-22 | the field-by-field lexicographic order is irreflexive, transitive and total on equal-length field lists |
| JavaDeps.DepLessIsStrictTotalOrder | crates/gen-wasmtime-java/src/java_deps.rs:16-22 | the derived `Ord` over `(base_import, group_id, artifact_id, version)` is a strict total order |
| JavaDeps.PredefinedDeps | crates/gen-wasmtime-java/src/java_deps.rs:1-8 | `wasmtime` and `javatuples` differ, both import a wildcard `.*`, and `wasmtime` sorts first |
| JavaDeps.ImportOrder | crates/gen-wasmtime-java/src/wasmtime_java.rs:135-138 | a `BTreeSet` yields each element once, strictly ascending |
| JavaDeps.ImportOrderOfBoth | crates/gen-wasmtime-java/src/wasmtime_java.rs:135-138 | with both dependencies the imports are `wasmtime` then `javatuples` |
| Sorted.SortedElements | crates/gen-wasmtime-java/src/wasmtime_java.rs:135 | iterating the set yields `SortedBy`: every element once, strictly ascending |
| JavaDeps.PomDepElements | crates/gen-wasmtime-java/src/java_deps.rs:65-78 | the stanza splits into seven lines whose middle five are `<dependency>`, then `groupId`, `artifactId` and `version` holding the record's values, in that order, then `</dependency>` |
| Aggregate.InsertField | crates/gen-wasmtime-java/src/wasmtime_java.rs:69-78 | afterwards `fields[name]` is `(name, ty, from)`, the keys gain only `name`, and every other field and both buckets are unchanged |
| Aggregate.InsertFieldLastWins | crates/gen-wasmtime-java/src/wasmtime_java.rs:69-78 | inserting the same name twice is inserting the second value once |
| Aggregate.PushFunc | crates/gen-wasmtime-java/src/wasmtime_java.rs:427-436 | the body goes to the end of exactly one bucket, freestanding or the function's resource, and nothing else changes |
| Aggregate.ConstructorFieldsSelects | crates/gen-wasmtime-java/src/wasmtime_java.rs:241-245 | the filter keeps exactly the constructor-origin fields and keeps a name-sorted list sorted |
| Aggregate.SortedFieldsSpec | crates/gen-wasmtime-java/src/wasmtime_java.rs:273 | the map's values come out once each, ordered by name |
| Aggregate.ConstructorFieldsOfClass | crates/gen-wasmtime-java/src/wasmtime_java.rs:241-245 | the constructor takes exactly the class's constructor-origin fields, each once, ordered by name |
| Emit.PackageLayout | crates/gen-wasmtime-java/src/wasmtime_java.rs:127-131 | `print_package` writes `package <p>;` and one blank line at the current depth |
| Emit.ImportsLayout | crates/gen-wasmtime-java/src/wasmtime_java.rs:134-143 | `print_imports` writes one `import <base>;` line per dependency, in set order, and a blank line only if there is one |
| Emit.ClassHeaderLayout | crates/gen-wasmtime-java/src/wasmtime_java.rs:146-150 | the header is the single line `public class <UpperCamel(name)>` |
| Emit.BlockLayout | crates/gen-wasmtime-java/src/wasmtime_java.rs:153-163 | a block opens with `{` at the outer depth and closes with `}` back at the outer depth; the trailing empty push writes nothing |
| Emit.FieldsLayout | crates/gen-wasmtime-java/src/wasmtime_java.rs:272-282 | one `private final <ty> <name>;` line per field, whatever its origin |
| Emit.ParamsMatchAssignments | crates/gen-wasmtime-java/src/wasmtime_java.rs:240-262 | there are as many parameters as assignments, one per constructor-origin field, in the same name order, each `<ty> <v>` against `this.<v> = <v>;` |
| Emit.ConstructorLayout | crates/gen-wasmtime-java/src/wasmtime_java.rs:240-270 | the constructor is its signature, `{`, the assignments one step deeper, `}` and a blank line |
| Emit.MapTypesSpec | crates/gen-wasmtime-java/src/wasmtime_java.rs:186 | mapping the results succeeds iff every type maps; on failure it reports the first failing type |
| Emit.ReturnTypeCases | crates/gen-wasmtime-java/src/wasmtime_java.rs:180-189 | 0 results give `void`; 1 result gives its keyword; 2 or more give the tuple type, failing beyond 10 |
| Emit.ReturnTypeOfU8U16F32 | crates/gen-wasmtime-java/src/wasmtime_java.rs:180-189 | results `(u8, u16, f32)` give `Triplet<Short, Integer, Float>` |
| Emit.ReturnTypeSingleLine | crates/gen-wasmtime-java/src/wasmtime_java.rs:180-189 | a return type never contains a line feed |
| Emit.SignaturePlain | crates/gen-wasmtime-java/src/wasmtime_java.rs:191-197 | the signature `public final <ret> <name>()` is one line with no surrounding whitespace |
| Emit.FunctionBodyLayout | crates/gen-wasmtime-java/src/wasmtime_java.rs:388-392 | a captured body is exactly the lines signature, `{`, `}` at depth 0 |
| Emit.ReindentedBody | crates/gen-wasmtime-java/src/wasmtime_java.rs:464-467 | pushing a captured body again re-indents its lines to the class depth and adds a blank line |
| Emit.ClassTextOpensWithPackage | crates/gen-wasmtime-java/src/wasmtime_java.rs:451 | every class text starts with its non-empty package statement |
| Emit.ClassLayout | crates/gen-wasmtime-java/src/wasmtime_java.rs:449-469 | a whole class reads back as its lines: `package p;`, a blank line, one `import` per dependency and a blank line if any, `public class C`, `{`, one field line per field one level in, a blank line, the constructor's lines, each freestanding body's three lines one level in followed by a blank line, and `}` |
| Emit.TrimTrailingSeparators | crates/gen-wasmtime-java/src/wasmtime_java.rs:475 | the result is a prefix of the path, ends in no `/`, and only `/` was cut |
| Emit.PushedWithExtension | crates/gen-wasmtime-java/src/wasmtime_java.rs:472-475 | pushing a one-component name and setting `java`: `name.java` with no directory, `dir` + `name.java` when `dir` ends in `/`, otherwise `dir/name.java` |
| Emit.PushedEmptyWithExtension | crates/gen-wasmtime-java/src/wasmtime_java.rs:472-475 | pushing an empty name and setting `java` gives the directory's last component with `.java`, its trailing separators cut, or the directory itself when it has none |
| Emit.FilePathOfName | crates/gen-wasmtime-java/src/wasmtime_java.rs:472-475 | the path is the package with dots turned into slashes, a single `/` only when that directory is not empty and does not already end in one, the upper-camel interface name and `.java` |
| Emit.FilePathSingleDot | crates/gen-wasmtime-java/src/wasmtime_java.rs:472-475 | for a class name without `.` the path ends in `.java` and holds no other `.` |
| Emit.FilePathOfEmptyName | crates/gen-wasmtime-java/src/wasmtime_java.rs:472-475 | an empty upper-camel name gives the package's last directory with `.java`, or the bare directory when there is none |
| Emit.FilePathOfDottedPackage | crates/gen-wasmtime-java/src/wasmtime_java.rs:472-475 | package `a.b` and class `Name` give `a/b/Name.java` |
| Emit.FilePathOfNoPackage | crates/gen-wasmtime-java/src/wasmtime_java.rs:472-475 | an empty package gives the relative path `Name.java`, with no leading `/` |
| Emit.FilePathOfTrailingDot | crates/gen-wasmtime-java/src/wasmtime_java.rs:472-475 | a package ending in `.` gives one `/` before the name, not two |
| Emit.FilePathOfNoName | crates/gen-wasmtime-java/src/wasmtime_java.rs:472-475 | package `lib` and an empty class name give `lib.java` |
| WasmtimeJava.Existing | crates/gen-wasmtime-java/src/wasmtime_java.rs:394-397 | the interface's aggregate, or an empty one if it has none |
| WasmtimeJava.RegisteredSpec | crates/gen-wasmtime-java/src/wasmtime_java.rs:399-436 | after `import` the aggregate has the constructor fields `wasmInstance: WasmInstance` and `wasmStore: WasmStore`, no other field changes, and the body ends exactly the bucket its kind selects |
| WasmtimeJava.RegisteredTwiceSameFields | crates/gen-wasmtime-java/src/wasmtime_java.rs:399-410 | a second `import` adds no field: repeated imports create no duplicates |
| WasmtimeJava.FieldValues | crates/gen-wasmtime-java/src/wasmtime_java.rs:273 | iterating the field map yields its values ordered by name |
| WasmtimeJava.ImportsInOrder | crates/gen-wasmtime-java/src/wasmtime_java.rs:135 | iterating `java_imports` yields the set in its sorted order, empty iff the set is |
| WasmtimeJava.HashMapOrder | crates/gen-wasmtime-java/src/wasmtime_java.rs:449 | draining a `HashMap` visits every key exactly once, in some order |
| WasmtimeJava.SnapshotsAt | crates/gen-wasmtime-java/src/wasmtime_java.rs:476-477 | the k-th pushed file holds everything printed up to and including the k-th class |
| WasmtimeJava.SnapshotRepeatsEarlier | crates/gen-wasmtime-java/src/wasmtime_java.rs:451-477 | when the buffer is never cleared, each later file repeats every earlier text before its own |
| WasmtimeJava.FirstTextKept | crates/gen-wasmtime-java/src/wasmtime_java.rs:451-477 | a buffer that grows by several texts holds the first of them right after its old content |
| WasmtimeJava.Generator.constructor | crates/gen-wasmtime-java/src/wasmtime_java.rs:119-124 | `opts` keeps the package and starts with an empty buffer, no imports and no aggregates |
| WasmtimeJava.Generator.PrintPackage | crates/gen-wasmtime-java/src/wasmtime_java.rs:127-131 | appends exactly the package text at the current depth |
| WasmtimeJava.Generator.PrintImports | crates/gen-wasmtime-java/src/wasmtime_java.rs:134-143 | appends the import lines of `java_imports` in sorted order, then a blank line if there are any |
| WasmtimeJava.Generator.PrintImportList | crates/gen-wasmtime-java/src/wasmtime_java.rs:135-142 | appends one import line per dependency given, then a blank line if the list is not empty |
| WasmtimeJava.Generator.PushAll | crates/gen-wasmtime-java/src/wasmtime_java.rs:135-138 | pushes each text in turn |
| WasmtimeJava.Generator.PrintClassHeader | crates/gen-wasmtime-java/src/wasmtime_java.rs:146-150 | appends the class header line |
| WasmtimeJava.Generator.PrintBlockStart | crates/gen-wasmtime-java/src/wasmtime_java.rs:153-156 | appends `{` and steps the depth in by 4 |
| WasmtimeJava.Generator.PrintBlockEnd | crates/gen-wasmtime-java/src/wasmtime_java.rs:159-163 | steps the depth out (saturating) and appends `}` there |
| WasmtimeJava.Generator.TupleTy | crates/gen-wasmtime-java/src/wasmtime_java.rs:165-168 | records `javatuples` whatever the outcome, then returns `for_ty` of the types |
| WasmtimeJava.Generator.PrintFuncSignature | crates/gen-wasmtime-java/src/wasmtime_java.rs:170-197 | appends the same `public final <ret> <lowerCamel(name)>()` line for every kind; `javatuples` is recorded only for 2 or more results; an unmappable type or too many results fail, with nothing appended |
| WasmtimeJava.Generator.PrintFields | crates/gen-wasmtime-java/src/wasmtime_java.rs:272-282 | appends the field lines of the aggregate in name order |
| WasmtimeJava.Generator.PrintConstructor | crates/gen-wasmtime-java/src/wasmtime_java.rs:240-270 | appends exactly the constructor text for the constructor-origin fields |
| WasmtimeJava.Generator.PrintBodies | crates/gen-wasmtime-java/src/wasmtime_java.rs:464-467 | appends each freestanding body then a blank line, in order |
| WasmtimeJava.Generator.PrintClass | crates/gen-wasmtime-java/src/wasmtime_java.rs:451-469 | appends exactly the class text: package, imports, header, `{`, fields, a blank line, constructor, freestanding bodies, `}`; ends at depth 0 |
| WasmtimeJava.Generator.RenderFunction | crates/gen-wasmtime-java/src/wasmtime_java.rs:388-392 | the caller's buffer is untouched, and on success the body is the signature with an empty block |
| WasmtimeJava.Generator.Record | crates/gen-wasmtime-java/src/wasmtime_java.rs:394-436 | records `wasmtime` and updates only the interface's aggregate, to `Registered` of the old one |
| WasmtimeJava.Generator.Import | crates/gen-wasmtime-java/src/wasmtime_java.rs:381-437 | an async function fails and changes nothing; otherwise the buffer is as before, a failed signature changes only the imports, and a success records `wasmtime` and files the body under the interface |
| WasmtimeJava.Generator.PrintAndPush | crates/gen-wasmtime-java/src/wasmtime_java.rs:451-477 | one loop step: the class is appended, and a file holding the whole buffer is pushed |
| WasmtimeJava.Generator.PrintAll | crates/gen-wasmtime-java/src/wasmtime_java.rs:449-478 | the buffer grows by every class in drain order, and one file per class is pushed holding the buffer at that point |
| WasmtimeJava.Generator.FinishOne | crates/gen-wasmtime-java/src/wasmtime_java.rs:445-479 | drains every aggregate (none left, each visited once) and pushes one file per class at the interface's path, holding the whole buffer so far |
| WasmtimeJava.Generator.FinishOneRepeatsClasses | crates/gen-wasmtime-java/src/wasmtime_java.rs:449-477 | from the second class on, a pushed file holds the first class as well and is not its own class alone |
| WasmtimeJava.Generator.FinishOneAgainRepeatsClasses | crates/gen-wasmtime-java/src/wasmtime_java.rs:445-479 | after one `finish_one`, every file the next `finish_one` pushes starts with the first call's first class and is not its own class alone, whatever import list each call holds |
| WasmtimeJava.Generator.FinishOneFresh | crates/gen-wasmtime-java/src/wasmtime_java.rs:445-479 | with the buffer taken before each class, every aggregate is drained and each file holds exactly its own class |
| WasmtimeJava.Generator.PrintEachFresh | crates/gen-wasmtime-java/src/wasmtime_java.rs:449-478 | each class is printed into an empty buffer and pushed alone |

## Left out

- The `type_*` callbacks and `export` (`wasmtime_java.rs:286-377, 439-442`) are left out. Each is only `todo!()`, and nothing in the core calls them.
- `eprintln!` debug output is left out; it is I/O.
- `opts.rs` is not part of this model. The package is a constructor argument of `Generator`.
- The state `WasmtimeJava` never reads or writes is left out: the `needs_*` flags, `host_exports`, `sizes` and `in_import`.
- Commented-out code and the ABI imports are left out.
- `heck`'s `to_lower_camel_case` and `to_upper_camel_case` are opaque function parameters of `Generator`. The model assumes about them only what some lemmas take as hypotheses. `heck` keeps only letters and digits, so its output meets all of them for a name holding at least one letter or digit. A name with none (`_`, `-`) gives `""`, which fails `PlainLine` and the path lemmas' `name != []`; the empty result is covered by `FilePathOfEmptyName` and `FilePathOfNoName`.
  - `RegisteredSpec` requires the two lower-camel field names to differ (true of `wasmInstance` and `wasmStore`).
  - `ClassHeaderLayout` and `ClassLayout` require the upper-camel class name to be one line with no whitespace at either end (`PlainLine`); `ConstructorLayout` requires it to hold no line feed.
  - `FieldsLayout`, `ConstructorLayout` and `ClassLayout` require every field's lower-camel name and Java type to hold no line feed (`SingleLineFields`).
  - `FilePathOfName`, `FilePathOfNoPackage` and `FilePathOfTrailingDot` require the upper-camel interface name to be non-empty and to hold no `/`; `FilePathSingleDot` also requires it to hold no `.`.
- `PathBuf` becomes a string following the Unix rules of `push` and `set_extension`, and `Files` becomes a sequence of (path, text) pairs in push order. `to_string_lossy` changes nothing, as the path is already text.
- FilePath: the model appends `.java` after the last component of the pushed path, whatever that component is. Rust's `set_extension` differs on names `to_upper_camel_case` never produces, as it drops every `.`:
  - a name with a `.` after its first character: Rust replaces what follows the last `.` (`a.b` gives `a.java`), while a single leading `.` (`.h`) gives `.h.java` in both;
  - the name `.`: Rust names the package's last directory (`com/x` gives `com/x.java`), or leaves the path `.` unchanged when the package is empty;
  - the name `..`: Rust leaves the path unchanged.
- IntegerMappingHoldsRange: `usize` is read as the 32-bit size type of the 32-bit virtual machine. `ty.rs:40` maps `Usize` to `Long` and states no width; with a 64-bit `usize` the lemma's exception would be `u64` and `usize` both.
- A captured function body is kept as its text, not as a `Source` value.
- Panics become `Result`/`Outcome` failures.
  - A panic in the source ends the run, so the state after it is not observed.
  - `Import` returns with the caller's buffer restored. Any `javatuples` import recorded before the failure is kept, as in `tuple_ty`.
- Function parameters are left out. The source prints an empty parameter list for every function, so they never reach the output.
- Resource-scoped bodies are stored but never printed; this is faithful to `finish_one`.
- `IsWhitespace` lists the Unicode White_Space code points `trim` uses. `Lines` leaves a `\r` before a line feed in place; trimming then removes it, as `str::lines` would.
- `Generator.FinishOne` computes the import order once per call, not once per class. The set does not change inside the loop, so the text is the same.
- `HashMapOrder` picks some order; the model states nothing about which one `HashMap` uses.

## Findings

| source | as written | input that shows it | evidently intended | confidence | as-written member | corrected member |
|---|---|---|---|---|---|---|
| crates/gen-wasmtime-java/src/wasmtime_java.rs:449-477 | `self.src` is never cleared, so each file pushed holds every class printed before it, and across `finish_one` calls every earlier interface's classes as well | `import` into interface `a`, `finish_one`, `import` into interface `b`, `finish_one`: `b`'s file starts with `a`'s class, so it holds two `package` lines and both classes | each file holds only its own class, i.e. the buffer is taken (`mem::take`) before each class | not executed | WasmtimeJava.Generator.FinishOneAgainRepeatsClasses | WasmtimeJava.Generator.FinishOneFresh |
