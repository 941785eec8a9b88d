/** What the generator gathers for one generated class before printing it
    (`HostImports` and `HostField` in `wasmtime_java.rs`). */
module Aggregate {
  import opened Text
  import opened Sorted
  import Wit

  /** Where a field's value comes from. */
  datatype HostFieldFrom = Constructor | FromFunction(func: Wit.Function)

  datatype HostField = HostField(name: string, javaTy: string, from: HostFieldFrom)

  /** `HostField::is_from_constructor`. */
  predicate IsFromConstructor(f: HostField)
  {
    f.from.Constructor?
  }

  /** `HostImports`: bodies of free functions in call order, bodies of
      resource functions by resource, and the fields by name. A body is
      kept as the text of the buffer it was written into. */
  datatype HostImports = HostImports(
    freestandingFuncs: seq<string>,
    resourceFuncs: map<Wit.ResourceId, seq<string>>,
    fields: map<string, HostField>)

  /** `HostImports::default()`. */
  const Empty: HostImports := HostImports([], map[], map[])

  /** Every field is filed under its own name. */
  ghost predicate WellKeyed(h: HostImports)
  {
    forall k :: k in h.fields ==> h.fields[k].name == k
  }

  /** `HostImports::insert_field`: the field is filed under its name,
      replacing any field of that name; no other field changes. */
  function InsertField(h: HostImports, name: string, javaTy: string, from: HostFieldFrom): (r: HostImports)
    ensures name in r.fields && r.fields[name] == HostField(name, javaTy, from)
    ensures r.fields.Keys == h.fields.Keys + {name}
    ensures forall k :: k in h.fields && k != name ==> r.fields[k] == h.fields[k]
    ensures r.freestandingFuncs == h.freestandingFuncs && r.resourceFuncs == h.resourceFuncs
    ensures WellKeyed(h) ==> WellKeyed(r)
  {
    h.(fields := h.fields[name := HostField(name, javaTy, from)])
  }

  /** Inserting under one name twice leaves only the second insertion. */
  lemma InsertFieldLastWins(h: HostImports, name: string, ty1: string, from1: HostFieldFrom,
                            ty2: string, from2: HostFieldFrom)
    ensures InsertField(InsertField(h, name, ty1, from1), name, ty2, from2) == InsertField(h, name, ty2, from2)
  {
  }

  /** The bucket of one resource's bodies, empty when it has none yet. */
  function ResourceBucket(h: HostImports, resource: Wit.ResourceId): seq<string>
  {
    if resource in h.resourceFuncs then h.resourceFuncs[resource] else []
  }

  /** Files a body in the bucket its function kind selects. */
  function PushFunc(h: HostImports, kind: Wit.FunctionKind, body: string): (r: HostImports)
    ensures r.fields == h.fields
    ensures kind.Freestanding? ==>
      r.freestandingFuncs == h.freestandingFuncs + [body] && r.resourceFuncs == h.resourceFuncs
    ensures !kind.Freestanding? ==>
      && r.freestandingFuncs == h.freestandingFuncs
      && r.resourceFuncs.Keys == h.resourceFuncs.Keys + {kind.resource}
      && ResourceBucket(r, kind.resource) == ResourceBucket(h, kind.resource) + [body]
      && (forall res :: res in h.resourceFuncs && res != kind.resource ==>
            r.resourceFuncs[res] == h.resourceFuncs[res])
  {
    match kind
    case Freestanding => h.(freestandingFuncs := h.freestandingFuncs + [body])
    case Static(resource, _) => h.(resourceFuncs := h.resourceFuncs[resource := ResourceBucket(h, resource) + [body]])
    case Method(resource, _) => h.(resourceFuncs := h.resourceFuncs[resource := ResourceBucket(h, resource) + [body]])
  }

  /** The fields in the order a `BTreeMap<String, _>` hands out its
      values: by name. */
  ghost function SortedFields(h: HostImports): (r: seq<HostField>)
    ensures |r| == |h.fields|
    ensures forall i :: 0 <= i < |r| ==> r[i] == h.fields[FieldNames(h)[i]]
  {
    var names := FieldNames(h);
    seq(|names|, i requires 0 <= i < |names| => h.fields[names[i]])
  }

  /** The keys of the field map in ascending order. */
  ghost function FieldNames(h: HostImports): (r: seq<string>)
    ensures |r| == |h.fields|
    ensures forall k :: k in r <==> k in h.fields
    ensures forall i, j :: 0 <= i < j < |r| ==> StrLess(r[i], r[j])
  {
    StrLessIsStrictTotalOrder();
    SortedBy(h.fields.Keys, StrLess)
  }

  /** The fields a constructor takes, in the order given. */
  function ConstructorFields(fields: seq<HostField>): (r: seq<HostField>)
    ensures |r| <= |fields|
  {
    if fields == [] then []
    else ConstructorFields(fields[..|fields| - 1])
         + (if IsFromConstructor(fields[|fields| - 1]) then [fields[|fields| - 1]] else [])
  }

  predicate NameSorted(fields: seq<HostField>)
  {
    forall i, j :: 0 <= i < j < |fields| ==> StrLess(fields[i].name, fields[j].name)
  }

  /** Filtering keeps exactly the constructor-origin fields, and keeps a
      list sorted by name sorted. */
  lemma {:induction false} ConstructorFieldsSelects(fields: seq<HostField>)
    ensures forall f :: f in ConstructorFields(fields) <==> f in fields && IsFromConstructor(f)
    ensures NameSorted(fields) ==> NameSorted(ConstructorFields(fields))
  {
    if fields != [] {
      var init := fields[..|fields| - 1];
      var last := fields[|fields| - 1];
      ConstructorFieldsSelects(init);
      var cf := ConstructorFields(fields);
      var ci := ConstructorFields(init);
      assert cf == ci + (if IsFromConstructor(last) then [last] else []);
      forall f ensures f in cf <==> f in fields && IsFromConstructor(f) {
        if f in init {
          var k :| 0 <= k < |init| && init[k] == f;
          assert fields[k] == f;
        }
        if f in fields && f != last {
          var k :| 0 <= k < |fields| && fields[k] == f;
          assert init[k] == f;
        }
      }
      if NameSorted(fields) {
        assert NameSorted(init);
        forall i, j | 0 <= i < j < |cf| ensures StrLess(cf[i].name, cf[j].name) {
          if j == |ci| {
            assert cf[i] == ci[i] && ci[i] in ci;
            var k :| 0 <= k < |init| && init[k] == cf[i];
            assert cf[j] == last && fields[k] == cf[i];
          }
        }
      }
    }
  }

  /** The constructor takes exactly the constructor-origin fields of the
      class, each once, ordered by name. */
  lemma ConstructorFieldsOfClass(h: HostImports)
    requires WellKeyed(h)
    ensures var cf := ConstructorFields(SortedFields(h));
      && (forall f :: f in cf <==> f.name in h.fields && h.fields[f.name] == f && IsFromConstructor(f))
      && (forall i, j :: 0 <= i < j < |cf| ==> StrLess(cf[i].name, cf[j].name))
  {
    SortedFieldsSpec(h);
    ConstructorFieldsSelects(SortedFields(h));
  }

  /** The values of a `BTreeMap` keyed by their own names: each field
      once, ordered by name. */
  lemma SortedFieldsSpec(h: HostImports)
    requires WellKeyed(h)
    ensures NameSorted(SortedFields(h))
    ensures forall f :: f in SortedFields(h) <==> f.name in h.fields && h.fields[f.name] == f
  {
    SortedFieldsSorted(h);
    SortedFieldsHas(h);
    SortedFieldsFrom(h);
  }

  lemma SortedFieldsSorted(h: HostImports)
    requires WellKeyed(h)
    ensures NameSorted(SortedFields(h))
  {
    var names := FieldNames(h);
    var fs := SortedFields(h);
    forall i, j | 0 <= i < j < |fs| ensures StrLess(fs[i].name, fs[j].name) {
      assert fs[i].name == names[i] && fs[j].name == names[j];
    }
  }

  lemma SortedFieldsHas(h: HostImports)
    requires WellKeyed(h)
    ensures forall f: HostField :: f.name in h.fields && h.fields[f.name] == f ==> f in SortedFields(h)
  {
    var names := FieldNames(h);
    var fs := SortedFields(h);
    forall f: HostField | f.name in h.fields && h.fields[f.name] == f ensures f in fs {
      var k :| 0 <= k < |names| && names[k] == f.name;
      assert fs[k] == f;
    }
  }

  lemma SortedFieldsFrom(h: HostImports)
    requires WellKeyed(h)
    ensures forall f :: f in SortedFields(h) ==> f.name in h.fields && h.fields[f.name] == f
  {
    var fs := SortedFields(h);
    forall f: HostField | f in fs ensures f.name in h.fields && h.fields[f.name] == f {
      var k :| 0 <= k < |fs| && fs[k] == f;
    }
  }
}
