// The columnLineage facet: the emitters' builder and the consumer's parser (OpenLineage
// ColumnLineageDatasetFacet 1-2-0).

module ColumnLineage {

  datatype Column = Column(text: string)

  // The object keys the facet gives a meaning to, and every column name.
  datatype Key =
    | KProducer | KSchemaUrl | KColumnLineage | KFields | KInputFields | KNamespace | KName | KField
    | KTransformations | KType | KSubtype | KDescription | KMasking
    | KTransformationType | KTransformationDescription | KColumn(column: Column)

  datatype Entry = Entry(key: Key, value: Json)

  // JSON as Python holds it: an object keeps its insertion order, and no key twice.
  datatype Json =
    | Null
    | Bool(flag: bool)
    | Number(n: int)
    | Text(text: string)
    | List(items: seq<Json>)
    | Object(entries: seq<Entry>)

  // str() of anything but a string, and str.upper.
  datatype Python = Python(render: Json -> string, upper: string -> string)

  // What the builder is given for one input-to-output dependency.
  datatype Edge = Edge(out: Column, namespace: string, name: string, field: string, kind: string, subtype: string,
                       masking: bool)

  // What the parser returns for one.
  datatype Parsed = Parsed(out: Column, namespace: string, name: string, field: string, kind: string, subtype: string,
                           description: string, masking: bool)

  datatype Group = Group(out: Column, inputs: seq<Parsed>)

  // The three slots a producer may put a facet in.
  datatype Dataset = Dataset(facets: Json, outputFacets: Json, inputFacets: Json)

  // ---- reading JSON ----

  function Lookup(entries: seq<Entry>, key: Key): Json
  {
    if entries == [] then Null else if entries[0].key == key then entries[0].value else Lookup(entries[1..], key)
  }

  // j.get(key) of an object, Null of anything else
  function Get(j: Json, key: Key): Json
  {
    if j.Object? then Lookup(j.entries, key) else Null
  }

  predicate Truthy(j: Json)
  {
    match j
    case Null => false
    case Bool(b) => b
    case Number(n) => n != 0
    case Text(s) => s != ""
    case List(items) => items != []
    case Object(entries) => entries != []
  }

  function Str(py: Python, j: Json): string
  {
    if j.Text? then j.text else py.render(j)
  }

  // str(j or "")
  function StrOrEmpty(py: Python, j: Json): string
  {
    if Truthy(j) then Str(py, j) else ""
  }

  // ---- the builder ----

  predicate WellFormed(e: Edge)
  {
    e.out.text != "" && e.name != "" && e.field != ""
  }

  // What a well-formed edge says once written and read back.
  function Normal(e: Edge): Parsed
  {
    Parsed(e.out, e.namespace, e.name, e.field, if e.kind == "" then "DIRECT" else e.kind, e.subtype, "", e.masking)
  }

  // The well-formed edges, normalised, in order.
  function Normals(edges: seq<Edge>): seq<Parsed>
  {
    if edges == [] then []
    else
      var n := |edges| - 1;
      Normals(edges[..n]) + if WellFormed(edges[n]) then [Normal(edges[n])] else []
  }

  // grouped.setdefault(p.out, []).append(p)
  function AddTo(groups: seq<Group>, p: Parsed): seq<Group>
  {
    if groups == [] then [Group(p.out, [p])]
    else if groups[0].out == p.out then [Group(p.out, groups[0].inputs + [p])] + groups[1..]
    else [groups[0]] + AddTo(groups[1..], p)
  }

  function Groups(ps: seq<Parsed>): seq<Group>
  {
    if ps == [] then [] else AddTo(Groups(ps[..|ps| - 1]), ps[|ps| - 1])
  }

  function TransformJson(p: Parsed): Json
  {
    Object([Entry(KType, Text(p.kind)), Entry(KSubtype, Text(p.subtype)), Entry(KMasking, Bool(p.masking))])
  }

  function InputJson(p: Parsed): Json
  {
    Object([
      Entry(KNamespace, Text(p.namespace)), Entry(KName, Text(p.name)), Entry(KField, Text(p.field)),
      Entry(KTransformations, List([TransformJson(p)]))])
  }

  function InputsJson(ps: seq<Parsed>): seq<Json>
  {
    seq(|ps|, i requires 0 <= i < |ps| => InputJson(ps[i]))
  }

  function FieldsJson(groups: seq<Group>): seq<Entry>
  {
    if groups == [] then []
    else
      [Entry(KColumn(groups[0].out), Object([Entry(KInputFields, List(InputsJson(groups[0].inputs)))]))]
      + FieldsJson(groups[1..])
  }

  function FacetJson(producer: string, url: string, groups: seq<Group>): Json
  {
    if groups == [] then Object([])
    else Object([Entry(KProducer, Text(producer)), Entry(KSchemaUrl, Text(url)),
                 Entry(KFields, Object(FieldsJson(groups)))])
  }

  // What the builder returns.
  function Facet(producer: string, url: string, edges: seq<Edge>): Json
  {
    FacetJson(producer, url, Groups(Normals(edges)))
  }

  lemma NormalsStep(edges: seq<Edge>, i: nat)
    requires i < |edges|
    ensures Normals(edges[..i + 1])
            == if WellFormed(edges[i]) then Normals(edges[..i]) + [Normal(edges[i])] else Normals(edges[..i])
  {
    assert edges[..i + 1][..i] == edges[..i];
  }

  lemma GroupsStep(ps: seq<Parsed>, p: Parsed)
    ensures Groups(ps + [p]) == AddTo(Groups(ps), p)
  {
    assert (ps + [p])[..|ps|] == ps;
  }

  // Without a well-formed edge the facet is empty, and so has no fields.
  lemma NoEdgesNoFacet(producer: string, url: string, edges: seq<Edge>)
    ensures Facet(producer, url, edges) == Object([]) <==> forall e <- edges :: !WellFormed(e)
    ensures Facet(producer, url, edges) != Object([]) ==>
      && Get(Facet(producer, url, edges), KProducer) == Text(producer)
      && Get(Facet(producer, url, edges), KSchemaUrl) == Text(url)
      && Get(Facet(producer, url, edges), KFields).Object?
  {
    NormalsAre(edges);
    GroupsAre(Normals(edges));
    var ps, groups := Normals(edges), Groups(Normals(edges));
    if groups != [] {
      LookupThree(Entry(KProducer, Text(producer)), Entry(KSchemaUrl, Text(url)),
                  Entry(KFields, Object(FieldsJson(groups))), KProducer);
      LookupThree(Entry(KProducer, Text(producer)), Entry(KSchemaUrl, Text(url)),
                  Entry(KFields, Object(FieldsJson(groups))), KSchemaUrl);
      LookupThree(Entry(KProducer, Text(producer)), Entry(KSchemaUrl, Text(url)),
                  Entry(KFields, Object(FieldsJson(groups))), KFields);
    }
  }

  lemma {:induction false} NormalsAre(edges: seq<Edge>)
    ensures Normals(edges) == [] <==> forall e <- edges :: !WellFormed(e)
    decreases |edges|
  {
    if edges != [] {
      var n := |edges| - 1;
      NormalsAre(edges[..n]);
      assert edges == edges[..n] + [edges[n]];
    }
  }

  lemma GroupsAre(ps: seq<Parsed>)
    ensures Groups(ps) == [] <==> ps == []
  {
    if ps != [] {
      var groups := Groups(ps[..|ps| - 1]);
      assert AddTo(groups, ps[|ps| - 1]) != [];
    }
  }

  // column_lineage_facet
  method BuildFacet(producer: string, url: string, edges: seq<Edge>) returns (facet: Json)
    ensures facet == Facet(producer, url, edges)
  {
    var grouped: seq<Group> := [];
    for i := 0 to |edges|
      invariant grouped == Groups(Normals(edges[..i]))
    {
      var e := edges[i];
      NormalsStep(edges, i);
      if e.out.text == "" || e.name == "" || e.field == "" {
        continue;
      }
      GroupsStep(Normals(edges[..i]), Normal(e));
      grouped := AddTo(grouped, Normal(e));
    }
    assert edges[..|edges|] == edges;
    facet := FacetJson(producer, url, grouped);
  }

  // ---- the parser ----

  // The dictionaries of a list.
  function Objects(items: seq<Json>): seq<Json>
  {
    if items == [] then [] else (if items[0].Object? then [items[0]] else []) + Objects(items[1..])
  }

  predicate AnyMasks(transforms: seq<Json>)
  {
    exists i :: 0 <= i < |transforms| && Truthy(Get(transforms[i], KMasking))
  }

  predicate StartsWithMask(s: string)
  {
    |s| >= 4 && s[0] == 'M' && s[1] == 'A' && s[2] == 'S' && s[3] == 'K'
  }

  function OrElse(s: string, fallback: string): string
  {
    if s == "" then fallback else s
  }

  // One input field, if it names its source column.
  function ParseInput(py: Python, out: Column, oldKind: string, oldText: string, input: Json): seq<Parsed>
  {
    if !input.Object? || !Truthy(Get(input, KName)) || !Truthy(Get(input, KField)) then []
    else
      var listed := Get(input, KTransformations);
      var transforms := if listed.List? then Objects(listed.items) else [];
      var first := if transforms == [] then Object([]) else transforms[0];
      [Parsed(out, StrOrEmpty(py, Get(input, KNamespace)), Str(py, Get(input, KName)), Str(py, Get(input, KField)),
              OrElse(StrOrEmpty(py, Get(first, KType)), oldKind),
              StrOrEmpty(py, Get(first, KSubtype)),
              OrElse(StrOrEmpty(py, Get(first, KDescription)), oldText),
              AnyMasks(transforms) || StartsWithMask(py.upper(oldKind)))]
  }

  function ParseInputs(py: Python, out: Column, oldKind: string, oldText: string, inputs: seq<Json>): seq<Parsed>
  {
    if inputs == [] then []
    else
      var n := |inputs| - 1;
      ParseInputs(py, out, oldKind, oldText, inputs[..n]) + ParseInput(py, out, oldKind, oldText, inputs[n])
  }

  // One output field with its inputs.
  function ParseField(py: Python, entry: Entry): seq<Parsed>
  {
    if !entry.key.KColumn? || entry.key.column.text == "" then []
    else
      var inputs := Get(entry.value, KInputFields);
      if !inputs.List? then []
      else
        ParseInputs(py, entry.key.column, StrOrEmpty(py, Get(entry.value, KTransformationType)),
                    StrOrEmpty(py, Get(entry.value, KTransformationDescription)), inputs.items)
  }

  function ParseFields(py: Python, fields: seq<Entry>): seq<Parsed>
  {
    if fields == [] then [] else ParseField(py, fields[0]) + ParseFields(py, fields[1..])
  }

  // facet("columnLineage"): the first slot holding a dictionary under that name
  function FindFacet(ds: Dataset): Json
  {
    var a, b, c := Get(ds.facets, KColumnLineage), Get(ds.outputFacets, KColumnLineage),
      Get(ds.inputFacets, KColumnLineage);
    if a.Object? then a else if b.Object? then b else if c.Object? then c else Null
  }

  function FieldsOf(ds: Dataset): seq<Entry>
  {
    var fields := Get(FindFacet(ds), KFields);
    if fields.Object? then fields.entries else []
  }

  method FieldEdges(py: Python, entry: Entry) returns (edges: seq<Parsed>)
    ensures edges == ParseField(py, entry)
  {
    edges := [];
    if !entry.key.KColumn? || entry.key.column.text == "" {
      return;
    }
    var inputs := Get(entry.value, KInputFields);
    if !inputs.List? {
      return;
    }
    var oldKind := StrOrEmpty(py, Get(entry.value, KTransformationType));
    var oldText := StrOrEmpty(py, Get(entry.value, KTransformationDescription));
    for j := 0 to |inputs.items|
      invariant edges == ParseInputs(py, entry.key.column, oldKind, oldText, inputs.items[..j])
    {
      assert inputs.items[..j + 1][..j] == inputs.items[..j];
      edges := edges + ParseInput(py, entry.key.column, oldKind, oldText, inputs.items[j]);
    }
    assert inputs.items[..|inputs.items|] == inputs.items;
  }

  // column_edges: in order, and read off the JSON.
  method ColumnEdges(py: Python, ds: Dataset) returns (edges: seq<Parsed>)
    ensures edges == ParseFields(py, FieldsOf(ds))
    ensures forall p :: p in edges <==> SaidByFacet(py, ds, p)
  {
    hide ParseField, FieldsOf, SaidByFacet;
    EdgesAreSaid(py, ds);
    var fields := FieldsOf(ds);
    edges := [];
    for i := 0 to |fields|
      invariant edges + ParseFields(py, fields[i..]) == ParseFields(py, fields)
    {
      assert fields[i..][1..] == fields[i + 1..];
      var more := FieldEdges(py, fields[i]);
      edges := edges + more;
    }
  }

  // ---- what the JSON says ----

  // Python's falsy values are the six empty ones.
  lemma FalsyIs(j: Json)
    ensures !Truthy(j) <==> j in [Null, Bool(false), Number(0), Text(""), List([]), Object([])]
  {
  }

  // An object without repeated keys gives each key its own value, and null for any other.
  lemma {:induction false} LookupIs(entries: seq<Entry>, key: Key)
    requires UniqueKeys(entries)
    ensures forall i :: 0 <= i < |entries| && entries[i].key == key ==> Get(Object(entries), key) == entries[i].value
    ensures (forall i :: 0 <= i < |entries| ==> entries[i].key != key) ==> Get(Object(entries), key) == Null
    decreases |entries|
  {
    if entries != [] {
      LookupIs(entries[1..], key);
      assert forall i :: 1 <= i < |entries| ==> entries[i] == entries[1..][i - 1];
    }
  }

  // The i-th transformation is the first that is a dictionary.
  predicate IsFirst(listed: Json, i: nat)
  {
    listed.List? && i < |listed.items| && listed.items[i].Object?
    && forall k :: 0 <= k < i ==> !listed.items[k].Object?
  }

  // Some transformation, the first or any other, has the masking bit.
  predicate SomeMasks(listed: Json)
  {
    listed.List? && exists i :: 0 <= i < |listed.items| && Masks(listed.items[i])
  }

  predicate Masks(transform: Json)
  {
    transform.Object? && Truthy(Get(transform, KMasking))
  }

  // What comes of a value and its deprecated spelling: the value, unless it is empty.
  predicate Prefers(py: Python, value: Json, deprecated: string, result: string)
  {
    result == if Truthy(value) && Str(py, value) != "" then Str(py, value) else deprecated
  }

  // The first transformation's kind, subtype and description; the deprecated ones where it has none.
  ghost predicate DescribedBy(py: Python, listed: Json, oldKind: string, oldText: string, p: Parsed)
  {
    && (forall i: nat :: IsFirst(listed, i) ==>
          && Prefers(py, Get(listed.items[i], KType), oldKind, p.kind)
          && Prefers(py, Get(listed.items[i], KSubtype), "", p.subtype)
          && Prefers(py, Get(listed.items[i], KDescription), oldText, p.description))
    && ((forall i: nat :: !IsFirst(listed, i)) ==> (p.kind, p.subtype, p.description) == (oldKind, "", oldText))
  }

  // The edge of one input, when it names a source column. It masks when any transformation does, or the
  // deprecated type begins with MASK.
  ghost predicate SaidBy(py: Python, out: Column, oldKind: string, oldText: string, input: Json, p: Parsed)
  {
    && p.out == out && input.Object? && Truthy(Get(input, KName)) && Truthy(Get(input, KField))
    && Prefers(py, Get(input, KNamespace), "", p.namespace)
    && p.name == Str(py, Get(input, KName)) && p.field == Str(py, Get(input, KField))
    && DescribedBy(py, Get(input, KTransformations), oldKind, oldText, p)
    && (p.masking <==> SomeMasks(Get(input, KTransformations)) || "MASK" <= py.upper(oldKind))
  }

  // p is the edge of the j-th input of an output field.
  ghost predicate SaidByInput(py: Python, entry: Entry, j: nat, p: Parsed)
  {
    && entry.key.KColumn? && entry.key.column.text != ""
    && var inputs := Get(entry.value, KInputFields);
    && inputs.List? && j < |inputs.items|
    && SaidBy(py, entry.key.column, StrOrEmpty(py, Get(entry.value, KTransformationType)),
              StrOrEmpty(py, Get(entry.value, KTransformationDescription)), inputs.items[j], p)
  }

  // The facet is the first of the three slots that is a dictionary.
  predicate IsFacet(ds: Dataset, facet: Json)
  {
    var a, b, c := Get(ds.facets, KColumnLineage), Get(ds.outputFacets, KColumnLineage),
      Get(ds.inputFacets, KColumnLineage);
    facet.Object? && (facet == a || (!a.Object? && facet == b) || (!a.Object? && !b.Object? && facet == c))
  }

  ghost predicate SaidByFields(py: Python, fields: seq<Entry>, p: Parsed)
  {
    exists i, j: nat :: 0 <= i < |fields| && SaidByInput(py, fields[i], j, p)
  }

  ghost predicate SaidByFacet(py: Python, ds: Dataset, p: Parsed)
  {
    exists facet ::
      IsFacet(ds, facet) && Get(facet, KFields).Object? && SaidByFields(py, Get(facet, KFields).entries, p)
  }

  lemma {:induction false} ObjectsAre(items: seq<Json>)
    ensures Objects(items) == [] <==> forall i: nat :: !IsFirst(List(items), i)
    ensures forall i: nat :: IsFirst(List(items), i) ==> Objects(items) != [] && Objects(items)[0] == items[i]
    ensures AnyMasks(Objects(items)) <==> SomeMasks(List(items))
    decreases |items|
  {
    if items != [] {
      var rest := items[1..];
      ObjectsAre(rest);
      FirstOfRest(items);
      MasksOfRest(items);
      hide IsFirst, AnyMasks, SomeMasks;
      if !items[0].Object? {
        forall i: nat | IsFirst(List(items), i) ensures Objects(items)[0] == items[i] {
          assert i > 0 && IsFirst(List(rest), i - 1) && rest[i - 1] == items[i];
        }
        if i: nat :| IsFirst(List(rest), i) {
          assert IsFirst(List(items), i + 1);
        }
      }
    }
  }

  lemma FirstOfRest(items: seq<Json>)
    requires items != []
    ensures items[0].Object? ==> IsFirst(List(items), 0) && forall i: nat :: IsFirst(List(items), i) ==> i == 0
    ensures !items[0].Object? ==> forall i: nat :: IsFirst(List(items), i + 1) <==> IsFirst(List(items[1..]), i)
    ensures !items[0].Object? ==> !IsFirst(List(items), 0)
  {
    var rest := items[1..];
    assert forall k :: 0 <= k < |rest| ==> rest[k] == items[k + 1];
    if !items[0].Object? {
      forall i: nat ensures IsFirst(List(items), i + 1) <==> IsFirst(List(rest), i) {
        if IsFirst(List(rest), i) {
          forall k | 0 <= k < i + 1 ensures !items[k].Object? {
            assert k > 0 ==> items[k] == rest[k - 1];
          }
        }
        if IsFirst(List(items), i + 1) {
          forall k | 0 <= k < i ensures !rest[k].Object? {
            assert rest[k] == items[k + 1];
          }
        }
      }
    }
  }

  lemma MasksOfRest(items: seq<Json>)
    requires items != []
    ensures SomeMasks(List(items)) <==> Masks(items[0]) || SomeMasks(List(items[1..]))
    ensures AnyMasks(Objects(items)) <==> Masks(items[0]) || AnyMasks(Objects(items[1..]))
  {
    hide Truthy, Get;
    var rest := items[1..];
    if i :| 0 <= i < |items| && Masks(items[i]) {
      assert i > 0 ==> rest[i - 1] == items[i];
    }
    if i :| 0 <= i < |rest| && Masks(rest[i]) {
      assert items[i + 1] == rest[i];
    }
    if items[0].Object? {
      AnyOfMore(items[0], Objects(rest));
    } else {
      assert Objects(items) == Objects(rest);
    }
  }

  lemma AnyOfMore(first: Json, rest: seq<Json>)
    requires first.Object?
    ensures AnyMasks([first] + rest) <==> Masks(first) || AnyMasks(rest)
  {
    hide Truthy, Get;
    var all := [first] + rest;
    assert all[0] == first;
    if i :| 0 <= i < |rest| && Truthy(Get(rest[i], KMasking)) {
      assert all[i + 1] == rest[i];
    }
    if i :| 0 <= i < |all| && Truthy(Get(all[i], KMasking)) {
      assert i > 0 ==> rest[i - 1] == all[i];
    }
  }

  lemma ParseInputIs(py: Python, out: Column, oldKind: string, oldText: string, input: Json, p: Parsed)
    ensures p in ParseInput(py, out, oldKind, oldText, input) <==> SaidBy(py, out, oldKind, oldText, input, p)
  {
    hide Objects, AnyMasks, SomeMasks, IsFirst, Truthy, Get;
    var listed := Get(input, KTransformations);
    if listed.List? {
      ObjectsAre(listed.items);
      assert List(listed.items) == listed;
    } else {
      NothingListed(listed);
    }
    NothingIn(KType);
    NothingIn(KSubtype);
    NothingIn(KDescription);
    OneFirst(listed);
    MaskIs(py.upper(oldKind));
  }

  lemma MaskIs(text: string)
    ensures StartsWithMask(text) <==> "MASK" <= text
  {
  }

  lemma NothingListed(listed: Json)
    requires !listed.List?
    ensures !AnyMasks([]) && !SomeMasks(listed) && forall i: nat :: !IsFirst(listed, i)
  {
  }

  lemma NothingIn(key: Key)
    ensures !Truthy(Get(Object([]), key))
  {
    assert Get(Object([]), key) == Null;
  }

  lemma OneFirst(listed: Json)
    ensures forall i: nat, j: nat :: IsFirst(listed, i) && IsFirst(listed, j) ==> i == j
  {
  }

  lemma {:induction false} ParseInputsAre(py: Python, out: Column, oldKind: string, oldText: string, inputs: seq<Json>,
                                          p: Parsed)
    ensures p in ParseInputs(py, out, oldKind, oldText, inputs) <==>
      exists j: nat :: j < |inputs| && SaidBy(py, out, oldKind, oldText, inputs[j], p)
    decreases |inputs|
  {
    hide ParseInput, SaidBy;
    if inputs != [] {
      var n := |inputs| - 1;
      ParseInputsAre(py, out, oldKind, oldText, inputs[..n], p);
      ParseInputIs(py, out, oldKind, oldText, inputs[n], p);
      if j: nat :| j < n && SaidBy(py, out, oldKind, oldText, inputs[..n][j], p) {
        assert inputs[j] == inputs[..n][j];
      }
      if j: nat :| j < |inputs| && SaidBy(py, out, oldKind, oldText, inputs[j], p) {
        assert j < n ==> inputs[..n][j] == inputs[j];
      }
    }
  }

  lemma ParseFieldIs(py: Python, entry: Entry, p: Parsed)
    ensures p in ParseField(py, entry) <==> exists j: nat :: SaidByInput(py, entry, j, p)
  {
    hide ParseInputs, DescribedBy, SomeMasks, Prefers;
    var inputs := Get(entry.value, KInputFields);
    var oldKind := StrOrEmpty(py, Get(entry.value, KTransformationType));
    var oldText := StrOrEmpty(py, Get(entry.value, KTransformationDescription));
    if inputs.List? && entry.key.KColumn? && entry.key.column.text != "" {
      ParseInputsAre(py, entry.key.column, oldKind, oldText, inputs.items, p);
      forall j: nat | j < |inputs.items|
        ensures SaidByInput(py, entry, j, p) <==> SaidBy(py, entry.key.column, oldKind, oldText, inputs.items[j], p)
      {
      }
    }
  }

  lemma {:induction false} ParseFieldsAre(py: Python, fields: seq<Entry>, p: Parsed)
    ensures p in ParseFields(py, fields) <==> SaidByFields(py, fields, p)
    decreases |fields|
  {
    hide ParseField, SaidByInput;
    if fields != [] {
      ParseFieldIs(py, fields[0], p);
      ParseFieldsAre(py, fields[1..], p);
      if i, j: nat :| 0 <= i < |fields[1..]| && SaidByInput(py, fields[1..][i], j, p) {
        assert SaidByInput(py, fields[i + 1], j, p);
      }
      if i, j: nat :| 0 <= i < |fields| && SaidByInput(py, fields[i], j, p) {
        assert i > 0 ==> SaidByInput(py, fields[1..][i - 1], j, p);
      }
    }
  }

  // The parser's edges are exactly what the JSON says.
  lemma EdgesAreSaid(py: Python, ds: Dataset)
    ensures forall p :: p in ParseFields(py, FieldsOf(ds)) <==> SaidByFacet(py, ds, p)
  {
    hide ParseFields, SaidByFields, ParseField;
    forall p ensures p in ParseFields(py, FieldsOf(ds)) <==> SaidByFacet(py, ds, p) {
      ParseFieldsAre(py, FieldsOf(ds), p);
      var facet := FindFacet(ds);
      assert forall f :: IsFacet(ds, f) <==> facet.Object? && f == facet;
      assert Get(Null, KFields) == Null;
      if !(facet.Object? && Get(facet, KFields).Object?) {
        NoFields(py, p);
      }
    }
  }

  lemma NoFields(py: Python, p: Parsed)
    ensures !SaidByFields(py, [], p)
  {
  }

  // ---- groups ----

  function Flat(groups: seq<Group>): seq<Parsed>
  {
    if groups == [] then [] else groups[0].inputs + Flat(groups[1..])
  }

  // No output field twice, none without inputs, and each input under its own field.
  predicate Tidy(groups: seq<Group>)
  {
    && (forall i :: 0 <= i < |groups| ==> groups[i].inputs != [] && AllOut(groups[i].inputs, groups[i].out))
    && (forall i, j :: 0 <= i < j < |groups| ==> groups[i].out != groups[j].out)
  }

  predicate AllOut(ps: seq<Parsed>, out: Column)
  {
    forall i :: 0 <= i < |ps| ==> ps[i].out == out
  }

  // The edges into one output field, in order.
  function Into(ps: seq<Parsed>, out: Column): seq<Parsed>
  {
    if ps == [] then []
    else
      var n := |ps| - 1;
      Into(ps[..n], out) + if ps[n].out == out then [ps[n]] else []
  }

  // Just those edges, each as often as it comes.
  lemma {:induction false} IntoIs(ps: seq<Parsed>, out: Column, p: Parsed)
    ensures multiset(Into(ps, out))[p] == if p.out == out then multiset(ps)[p] else 0
    decreases |ps|
  {
    if ps != [] {
      var n := |ps| - 1;
      IntoIs(ps[..n], out, p);
      assert ps == ps[..n] + [ps[n]];
    }
  }

  lemma {:induction false} IntoConcat(xs: seq<Parsed>, ys: seq<Parsed>, out: Column)
    ensures Into(xs + ys, out) == Into(xs, out) + Into(ys, out)
    decreases |ys|
  {
    if ys == [] {
      assert xs + ys == xs;
    } else {
      var n := |ys| - 1;
      assert (xs + ys)[..|xs| + n] == xs + ys[..n];
      IntoConcat(xs, ys[..n], out);
    }
  }

  lemma {:induction false} AddToKeepsTidy(groups: seq<Group>, p: Parsed)
    requires Tidy(groups)
    ensures Tidy(AddTo(groups, p))
    ensures forall i :: 0 <= i < |AddTo(groups, p)| ==>
      AddTo(groups, p)[i].out == p.out || exists j :: 0 <= j < |groups| && groups[j].out == AddTo(groups, p)[i].out
    decreases |groups|
  {
    if groups != [] && groups[0].out != p.out {
      AddToKeepsTidy(groups[1..], p);
    }
  }

  lemma {:induction false} NoneInto(ps: seq<Parsed>, out: Column)
    requires forall i :: 0 <= i < |ps| ==> ps[i].out != out
    ensures Into(ps, out) == []
    decreases |ps|
  {
    if ps != [] {
      NoneInto(ps[..|ps| - 1], out);
    }
  }

  lemma {:induction false} FlatOuts(groups: seq<Group>, out: Column)
    requires forall i :: 0 <= i < |groups| ==> groups[i].out != out && AllOut(groups[i].inputs, groups[i].out)
    ensures forall i :: 0 <= i < |Flat(groups)| ==> Flat(groups)[i].out != out
    decreases |groups|
  {
    if groups != [] {
      FlatOuts(groups[1..], out);
    }
  }

  // Moving p back over edges into other fields.
  lemma MoveBack(xs: seq<Parsed>, ys: seq<Parsed>, p: Parsed, out: Column)
    requires forall i :: 0 <= i < |ys| ==> ys[i].out != p.out
    ensures Into((xs + [p]) + ys, out) == Into((xs + ys) + [p], out)
  {
    hide Into;
    IntoConcat(xs + [p], ys, out);
    IntoConcat(xs, [p], out);
    IntoConcat(xs + ys, [p], out);
    IntoConcat(xs, ys, out);
    if out == p.out {
      NoneInto(ys, out);
    } else {
      NoneInto([p], out);
    }
  }

  lemma FlatOne(g: Group)
    ensures Flat([g]) == g.inputs && Flat([]) == []
  {
    assert [g][1..] == [] && Flat([]) == [];
    assert g.inputs + [] == g.inputs;
  }

  lemma {:induction false} AddToInto(groups: seq<Group>, p: Parsed, out: Column)
    requires Tidy(groups)
    ensures Into(Flat(AddTo(groups, p)), out) == Into(Flat(groups) + [p], out)
    decreases |groups|
  {
    hide Into, AllOut;
    if groups == [] {
      FlatOne(Group(p.out, [p]));
      assert Flat(groups) + [p] == [p];
    } else {
      var head, tail := groups[0], groups[1..];
      assert Flat(groups) == head.inputs + Flat(tail);
      if head.out == p.out {
        var grown := Group(p.out, head.inputs + [p]);
        assert AddTo(groups, p) == [grown] + tail;
        assert ([grown] + tail)[1..] == tail;
        FlatOuts(tail, head.out);
        MoveBack(head.inputs, Flat(tail), p, out);
      } else {
        assert AddTo(groups, p) == [head] + AddTo(tail, p);
        assert ([head] + AddTo(tail, p))[1..] == AddTo(tail, p);
        AddToInto(tail, p, out);
        IntoConcat(head.inputs, Flat(AddTo(tail, p)), out);
        IntoConcat(head.inputs, Flat(tail) + [p], out);
        assert (head.inputs + Flat(tail)) + [p] == head.inputs + (Flat(tail) + [p]);
      }
    }
  }

  lemma {:induction false} AddToCounts(groups: seq<Group>, p: Parsed)
    ensures multiset(Flat(AddTo(groups, p))) == multiset(Flat(groups)) + multiset{p}
    decreases |groups|
  {
    if groups != [] && groups[0].out != p.out {
      AddToCounts(groups[1..], p);
    }
  }

  lemma {:induction false} GroupsTidy(ps: seq<Parsed>)
    ensures Tidy(Groups(ps))
    decreases |ps|
  {
    hide AddTo, Tidy;
    if ps != [] {
      GroupsTidy(ps[..|ps| - 1]);
      AddToKeepsTidy(Groups(ps[..|ps| - 1]), ps[|ps| - 1]);
    } else {
      EmptyTidy();
    }
  }

  lemma EmptyTidy()
    ensures Tidy([])
  {
  }

  // Grouping keeps every edge,
  lemma {:induction false} GroupsKeepAll(ps: seq<Parsed>)
    ensures multiset(Flat(Groups(ps))) == multiset(ps)
    decreases |ps|
  {
    hide AddTo;
    if ps != [] {
      var n := |ps| - 1;
      GroupsKeepAll(ps[..n]);
      AddToCounts(Groups(ps[..n]), ps[n]);
      assert ps == ps[..n] + [ps[n]];
    }
  }

  // and the order of the edges into one field.
  lemma {:induction false} GroupsKeepOrder(ps: seq<Parsed>, out: Column)
    ensures Into(Flat(Groups(ps)), out) == Into(ps, out)
    decreases |ps|
  {
    hide AddTo, Tidy, Flat;
    if ps != [] {
      var n := |ps| - 1;
      var groups := Groups(ps[..n]);
      GroupsKeepOrder(ps[..n], out);
      GroupsTidy(ps[..n]);
      AddToInto(groups, ps[n], out);
      assert ps == ps[..n] + [ps[n]];
      IntoConcat(Flat(groups), [ps[n]], out);
      IntoConcat(ps[..n], [ps[n]], out);
    } else {
      NoGroups();
    }
  }

  lemma NoGroups()
    ensures Flat(Groups([])) == []
  {
  }

  // ---- grouping what is grouped already ----

  lemma {:induction false} AddToLast(groups: seq<Group>, p: Parsed)
    requires Tidy(groups) && groups != [] && groups[|groups| - 1].out == p.out
    ensures AddTo(groups, p) == groups[..|groups| - 1] + [Group(p.out, groups[|groups| - 1].inputs + [p])]
    decreases |groups|
  {
    if |groups| > 1 {
      AddToLast(groups[1..], p);
    }
  }

  lemma {:induction false} AddToNew(groups: seq<Group>, p: Parsed)
    requires forall i :: 0 <= i < |groups| ==> groups[i].out != p.out
    ensures AddTo(groups, p) == groups + [Group(p.out, [p])]
    decreases |groups|
  {
    if groups != [] {
      AddToNew(groups[1..], p);
    }
  }

  lemma {:induction false} FlatConcat(xs: seq<Group>, ys: seq<Group>)
    ensures Flat(xs + ys) == Flat(xs) + Flat(ys)
    decreases |xs|
  {
    if xs == [] {
      assert xs + ys == ys;
    } else {
      assert (xs + ys)[1..] == xs[1..] + ys;
      FlatConcat(xs[1..], ys);
    }
  }

  // The last group, with the first k of its inputs.
  function Part(done: seq<Group>, next: Group, k: nat): seq<Group>
    requires k <= |next.inputs|
  {
    done + [Group(next.out, next.inputs[..k])]
  }

  lemma PartTidy(done: seq<Group>, next: Group, k: nat)
    requires Tidy(done + [next]) && 0 < k <= |next.inputs|
    ensures Tidy(Part(done, next, k)) && Tidy(done)
    ensures next.inputs[k - 1].out == next.out
    ensures forall i :: 0 <= i < |done| ==> done[i].out != next.out
  {
    var whole, part := done + [next], done + [Group(next.out, next.inputs[..k])];
    assert whole[|done|] == next;
    assert forall i :: 0 <= i < |part| ==> part[i].out == whole[i].out;
    assert forall i :: 0 <= i < |done| ==> part[i] == whole[i] == done[i];
  }

  lemma {:induction false} GroupsOfPrefix(done: seq<Group>, next: Group, k: nat)
    requires Tidy(done + [next]) && 0 < k <= |next.inputs|
    requires Groups(Flat(done)) == done
    ensures Groups(Flat(done) + next.inputs[..k]) == Part(done, next, k)
    decreases k
  {
    hide Flat, Groups, Tidy, AddTo;
    var p := next.inputs[k - 1];
    PartTidy(done, next, k);
    if k == 1 {
      assert next.inputs[..1] == [p];
      GroupsStep(Flat(done), p);
      AddToNew(done, p);
    } else {
      GroupsOfPrefix(done, next, k - 1);
      PartTidy(done, next, k - 1);
      var so := Part(done, next, k - 1);
      assert Flat(done) + next.inputs[..k] == (Flat(done) + next.inputs[..k - 1]) + [p];
      GroupsStep(Flat(done) + next.inputs[..k - 1], p);
      AddToLast(so, p);
      assert so[..|done|] == done && next.inputs[..k - 1] + [p] == next.inputs[..k];
    }
  }

  // Edges that come grouped are grouped to what they were.
  lemma {:induction false} GroupsOfFlat(groups: seq<Group>)
    requires Tidy(groups)
    ensures Groups(Flat(groups)) == groups
    decreases |groups|
  {
    hide AddTo;
    if groups != [] {
      var n := |groups| - 1;
      var done, next := groups[..n], groups[n];
      assert groups == done + [next];
      PartTidy(done, next, |next.inputs|);
      GroupsOfFlat(done);
      FlatConcat(done, [next]);
      assert Flat([next]) == next.inputs + [];
      GroupsOfPrefix(done, next, |next.inputs|);
      assert next.inputs[..|next.inputs|] == next.inputs;
      assert Group(next.out, next.inputs) == next;
      assert Flat(groups) == Flat(done) + next.inputs;
    } else {
      NoGroups();
    }
  }

  // ---- printing and parsing ----

  // "".upper() is empty, and str() of something truthy is never empty.
  ghost predicate PythonLaws(py: Python)
  {
    && py.upper("") == ""
    && forall j :: Truthy(j) ==> Str(py, j) != ""
  }

  // An edge as the builder writes it.
  predicate Printable(p: Parsed)
  {
    p.out.text != "" && p.name != "" && p.field != "" && p.kind != "" && p.description == ""
  }

  predicate AllPrintable(ps: seq<Parsed>)
  {
    forall i :: 0 <= i < |ps| ==> Printable(ps[i])
  }

  lemma LookupFirst(e: Entry, rest: seq<Entry>, key: Key)
    ensures Lookup([e] + rest, key) == if e.key == key then e.value else Lookup(rest, key)
  {
    assert ([e] + rest)[1..] == rest;
  }

  lemma LookupOne(a: Entry, key: Key)
    ensures Lookup([a], key) == if a.key == key then a.value else Null
  {
    assert [a][1..] == [];
  }

  lemma LookupThree(a: Entry, b: Entry, c: Entry, key: Key)
    ensures Lookup([a, b, c], key) ==
      if a.key == key then a.value else if b.key == key then b.value else if c.key == key then c.value else Null
  {
    assert [a, b, c] == [a] + [b, c] && [b, c] == [b] + [c];
    LookupFirst(a, [b, c], key);
    LookupFirst(b, [c], key);
    LookupOne(c, key);
  }

  lemma LookupFour(a: Entry, b: Entry, c: Entry, d: Entry, key: Key)
    ensures Lookup([a, b, c, d], key) ==
      if a.key == key then a.value else Lookup([b, c, d], key)
  {
    assert [a, b, c, d] == [a] + [b, c, d];
    LookupFirst(a, [b, c, d], key);
  }

  lemma TransformParts(p: Parsed)
    ensures Get(TransformJson(p), KType) == Text(p.kind) && Get(TransformJson(p), KSubtype) == Text(p.subtype)
    ensures Get(TransformJson(p), KMasking) == Bool(p.masking) && Get(TransformJson(p), KDescription) == Null
  {
    hide Lookup;
    var a, b, c := Entry(KType, Text(p.kind)), Entry(KSubtype, Text(p.subtype)), Entry(KMasking, Bool(p.masking));
    LookupThree(a, b, c, KType);
    LookupThree(a, b, c, KSubtype);
    LookupThree(a, b, c, KMasking);
    LookupThree(a, b, c, KDescription);
  }

  lemma InputParts(p: Parsed)
    ensures Get(InputJson(p), KNamespace) == Text(p.namespace) && Get(InputJson(p), KName) == Text(p.name)
    ensures Get(InputJson(p), KField) == Text(p.field) &&
      Get(InputJson(p), KTransformations) == List([TransformJson(p)])
  {
    hide Lookup;
    var a, b, c, d := Entry(KNamespace, Text(p.namespace)), Entry(KName, Text(p.name)), Entry(KField, Text(p.field)),
      Entry(KTransformations, List([TransformJson(p)]));
    LookupFour(a, b, c, d, KNamespace);
    LookupFour(a, b, c, d, KName);
    LookupFour(a, b, c, d, KField);
    LookupFour(a, b, c, d, KTransformations);
    LookupThree(b, c, d, KName);
    LookupThree(b, c, d, KField);
    LookupThree(b, c, d, KTransformations);
  }

  lemma InputParses(py: Python, p: Parsed)
    requires PythonLaws(py) && Printable(p)
    ensures ParseInput(py, p.out, "", "", InputJson(p)) == [p]
  {
    InputParts(p);
    TransformParts(p);
    assert Objects([TransformJson(p)]) == [TransformJson(p)];
    assert AnyMasks([TransformJson(p)]) <==> Truthy(Get([TransformJson(p)][0], KMasking));
    hide TransformJson, Get, InputJson;
  }

  lemma {:induction false} InputsParse(py: Python, out: Column, ps: seq<Parsed>)
    requires PythonLaws(py) && AllPrintable(ps) && AllOut(ps, out)
    ensures ParseInputs(py, out, "", "", InputsJson(ps)) == ps
    decreases |ps|
  {
    hide ParseInput, InputJson, PythonLaws, Printable;
    if ps != [] {
      var n := |ps| - 1;
      assert InputsJson(ps)[..n] == InputsJson(ps[..n]);
      InputsParse(py, out, ps[..n]);
      InputParses(py, ps[n]);
      assert ps == ps[..n] + [ps[n]];
    }
  }

  lemma FieldParses(py: Python, g: Group)
    requires PythonLaws(py) && AllPrintable(g.inputs) && AllOut(g.inputs, g.out) && g.inputs != []
    ensures ParseField(py, Entry(KColumn(g.out), Object([Entry(KInputFields, List(InputsJson(g.inputs)))]))) == g.inputs
  {
    hide ParseInputs, InputsJson;
    assert Printable(g.inputs[0]) && g.inputs[0].out == g.out;
    InputsParse(py, g.out, g.inputs);
    LookupOne(Entry(KInputFields, List(InputsJson(g.inputs))), KInputFields);
    LookupOne(Entry(KInputFields, List(InputsJson(g.inputs))), KTransformationType);
    LookupOne(Entry(KInputFields, List(InputsJson(g.inputs))), KTransformationDescription);
  }

  lemma {:induction false} FieldsParse(py: Python, groups: seq<Group>)
    requires PythonLaws(py) && Tidy(groups) && AllPrintable(Flat(groups))
    ensures ParseFields(py, FieldsJson(groups)) == Flat(groups)
    decreases |groups|
  {
    hide ParseField, InputsJson, PythonLaws, Printable, AllOut;
    if groups != [] {
      var head, tail := groups[0], groups[1..];
      var flat := Flat(groups);
      assert forall i :: 0 <= i < |head.inputs| ==> flat[i] == head.inputs[i];
      assert forall i :: 0 <= i < |Flat(tail)| ==> flat[|head.inputs| + i] == Flat(tail)[i];
      FieldParses(py, head);
      FieldsParse(py, tail);
      var first := Entry(KColumn(head.out), Object([Entry(KInputFields, List(InputsJson(head.inputs)))]));
      assert FieldsJson(groups)[0] == first && FieldsJson(groups)[1..] == FieldsJson(tail);
    }
  }

  lemma EmptyLookup(key: Key)
    ensures Lookup([], key) == Null
  {
  }

  // The facet, in the slot our own emitters use, is the one the parser finds.
  lemma FacetFound(ds: Dataset, producer: string, url: string, groups: seq<Group>)
    requires Get(ds.facets, KColumnLineage) == FacetJson(producer, url, groups)
    ensures FieldsOf(ds) == FieldsJson(groups)
  {
    hide Lookup;
    LookupThree(Entry(KProducer, Text(producer)), Entry(KSchemaUrl, Text(url)),
                Entry(KFields, Object(FieldsJson(groups))), KFields);
    EmptyLookup(KFields);
  }

  lemma {:induction false} NormalsPrintable(edges: seq<Edge>)
    ensures AllPrintable(Normals(edges))
    decreases |edges|
  {
    if edges != [] {
      NormalsPrintable(edges[..|edges| - 1]);
    }
  }

  lemma SameBag(xs: seq<Parsed>, ys: seq<Parsed>)
    requires multiset(xs) == multiset(ys) && AllPrintable(ys)
    ensures AllPrintable(xs)
  {
    hide Printable;
    forall i | 0 <= i < |xs| ensures Printable(xs[i]) {
      assert xs[i] in multiset(xs) && xs[i] in multiset(ys);
    }
  }

  // What the consumer parses out of a built facet.
  function Reparsed(py: Python, producer: string, url: string, edges: seq<Edge>): seq<Parsed>
  {
    ParseFields(py, FieldsOf(Dataset(Object([Entry(KColumnLineage, Facet(producer, url, edges))]), Null, Null)))
  }

  lemma ReparsedIsFlat(py: Python, producer: string, url: string, edges: seq<Edge>)
    requires PythonLaws(py)
    ensures Reparsed(py, producer, url, edges) == Flat(Groups(Normals(edges)))
    ensures Tidy(Groups(Normals(edges))) && AllPrintable(Flat(Groups(Normals(edges))))
  {
    var ps := Normals(edges);
    var groups := Groups(ps);
    var facet := Facet(producer, url, edges);
    var ds := Dataset(Object([Entry(KColumnLineage, facet)]), Null, Null);
    assert facet == FacetJson(producer, url, groups);
    LookupFirst(Entry(KColumnLineage, facet), [], KColumnLineage);
    assert [Entry(KColumnLineage, facet)] + [] == [Entry(KColumnLineage, facet)];
    hide Normals, Groups, FacetJson, Printable, Tidy, Flat, FieldsOf, ParseFields;
    FacetFound(ds, producer, url, groups);
    GroupsTidy(ps);
    GroupsKeepAll(ps);
    NormalsPrintable(edges);
    SameBag(Flat(groups), ps);
    FieldsParse(py, groups);
  }

  // Parsing what was built gives exactly the well-formed edges, normalised, and keeps the order of
  // the edges into each output field.
  lemma ParseOfBuild(py: Python, producer: string, url: string, edges: seq<Edge>, out: Column)
    requires PythonLaws(py)
    ensures multiset(Reparsed(py, producer, url, edges)) == multiset(Normals(edges))
    ensures Into(Reparsed(py, producer, url, edges), out) == Into(Normals(edges), out)
  {
    hide Reparsed, Flat, Groups, Normals, Into;
    ReparsedIsFlat(py, producer, url, edges);
    GroupsKeepAll(Normals(edges));
    GroupsKeepOrder(Normals(edges), out);
  }

  // A parsed edge, given back to the builder.
  function Again(ps: seq<Parsed>): seq<Edge>
  {
    seq(|ps|, i requires 0 <= i < |ps| =>
      Edge(ps[i].out, ps[i].namespace, ps[i].name, ps[i].field, ps[i].kind, ps[i].subtype, ps[i].masking))
  }

  // What the builder makes of a parsed edge: no description, and DIRECT where no kind was given.
  function Renewed(ps: seq<Parsed>): seq<Parsed>
  {
    seq(|ps|, i requires 0 <= i < |ps| => ps[i].(kind := OrElse(ps[i].kind, "DIRECT"), description := ""))
  }

  predicate AllNamed(ps: seq<Parsed>)
  {
    forall i :: 0 <= i < |ps| ==> ps[i].out.text != "" && ps[i].name != "" && ps[i].field != ""
  }

  lemma {:induction false} NormalsOfAgain(ps: seq<Parsed>)
    requires AllNamed(ps)
    ensures Normals(Again(ps)) == Renewed(ps)
    decreases |ps|
  {
    if ps != [] {
      var n := |ps| - 1;
      assert Again(ps)[..n] == Again(ps[..n]);
      NormalsOfAgain(ps[..n]);
      assert Renewed(ps) == Renewed(ps[..n]) + [Normal(Again(ps)[n])];
    }
  }

  // Building again from what was parsed gives the identical facet.
  lemma BuildOfParse(py: Python, producer: string, url: string, edges: seq<Edge>)
    requires PythonLaws(py)
    ensures Facet(producer, url, Again(Reparsed(py, producer, url, edges))) == Facet(producer, url, edges)
  {
    hide Reparsed, Flat, Groups, Normals, Tidy, Again, AllPrintable, AllNamed, Renewed;
    var groups := Groups(Normals(edges));
    var ps := Flat(groups);
    ReparsedIsFlat(py, producer, url, edges);
    PrintableIsRenewed(ps);
    NormalsOfAgain(ps);
    GroupsOfFlat(groups);
  }

  lemma PrintableIsRenewed(ps: seq<Parsed>)
    requires AllPrintable(ps)
    ensures AllNamed(ps) && Renewed(ps) == ps
  {
  }

  // ---- facets of other producers ----

  predicate UniqueKeys(fields: seq<Entry>)
  {
    forall i, j :: 0 <= i < j < |fields| ==> fields[i].key != fields[j].key
  }

  predicate NamedInto(ps: seq<Parsed>, out: Column)
  {
    forall i :: 0 <= i < |ps| ==> ps[i].out == out && ps[i].name != "" && ps[i].field != ""
  }

  lemma {:induction false} InputsNamed(py: Python, out: Column, oldKind: string, oldText: string, inputs: seq<Json>)
    requires PythonLaws(py)
    ensures NamedInto(ParseInputs(py, out, oldKind, oldText, inputs), out)
    decreases |inputs|
  {
    hide StrOrEmpty, Truthy, Str, Get, Objects, AnyMasks, StartsWithMask, OrElse;
    if inputs != [] {
      InputsNamed(py, out, oldKind, oldText, inputs[..|inputs| - 1]);
    }
  }

  lemma FieldNamed(py: Python, e: Entry)
    requires PythonLaws(py) && ParseField(py, e) != []
    ensures e.key.KColumn? && e.key.column.text != "" && NamedInto(ParseField(py, e), e.key.column)
  {
    hide StrOrEmpty, ParseInputs, NamedInto, PythonLaws;
    if Get(e.value, KInputFields).List? {
      InputsNamed(py, e.key.column, StrOrEmpty(py, Get(e.value, KTransformationType)),
                  StrOrEmpty(py, Get(e.value, KTransformationDescription)), Get(e.value, KInputFields).items);
    }
  }

  // One group for each field that parses to anything.
  function Sections(py: Python, fields: seq<Entry>): seq<Group>
  {
    if fields == [] then []
    else
      var ps := ParseField(py, fields[0]);
      (if ps == [] || !fields[0].key.KColumn? then [] else [Group(fields[0].key.column, Renewed(ps))])
        + Sections(py, fields[1..])
  }

  lemma {:induction false} SectionsFlat(py: Python, fields: seq<Entry>)
    requires PythonLaws(py)
    ensures Flat(Sections(py, fields)) == Renewed(ParseFields(py, fields))
    ensures AllNamed(ParseFields(py, fields))
    decreases |fields|
  {
    hide ParseField, PythonLaws;
    if fields != [] {
      var ps, rest := ParseField(py, fields[0]), ParseFields(py, fields[1..]);
      SectionsFlat(py, fields[1..]);
      assert Renewed(ps + rest) == Renewed(ps) + Renewed(rest);
      if ps != [] {
        FieldNamed(py, fields[0]);
        FlatConcat([Group(fields[0].key.column, Renewed(ps))], Sections(py, fields[1..]));
      } else {
        assert ps + rest == rest;
        assert [] + Sections(py, fields[1..]) == Sections(py, fields[1..]);
      }
    }
  }

  predicate SomeKeyIs(fields: seq<Entry>, out: Column)
  {
    exists i :: 0 <= i < |fields| && fields[i].key == KColumn(out)
  }

  lemma {:induction false} SectionsTidy(py: Python, fields: seq<Entry>)
    requires PythonLaws(py) && UniqueKeys(fields)
    ensures Tidy(Sections(py, fields))
    ensures forall i :: 0 <= i < |Sections(py, fields)| ==> SomeKeyIs(fields, Sections(py, fields)[i].out)
    decreases |fields|
  {
    hide ParseField, PythonLaws;
    if fields != [] {
      var tail := fields[1..];
      SectionsTidy(py, tail);
      forall out | SomeKeyIs(tail, out) ensures SomeKeyIs(fields, out) && KColumn(out) != fields[0].key {
        var i :| 0 <= i < |tail| && tail[i].key == KColumn(out);
        assert fields[i + 1] == tail[i];
      }
      var ps := ParseField(py, fields[0]);
      if ps != [] {
        FieldNamed(py, fields[0]);
        assert fields[0].key == KColumn(fields[0].key.column);
        var head := Group(fields[0].key.column, Renewed(ps));
        assert Sections(py, fields) == [head] + Sections(py, tail);
        assert head.inputs != [] && AllOut(head.inputs, head.out);
        assert SomeKeyIs(fields, head.out);
      } else {
        assert Sections(py, fields) == Sections(py, tail);
      }
    }
  }

  // Whatever another producer sent, malformed parts and deprecated spelling included: emitting again
  // what was parsed, and parsing that, gives the same edges in the same order, with DIRECT where no
  // kind was given and without the descriptions.
  lemma ForeignFacetReemits(py: Python, producer: string, url: string, ds: Dataset)
    requires PythonLaws(py) && UniqueKeys(FieldsOf(ds))
    ensures Reparsed(py, producer, url, Again(ParseFields(py, FieldsOf(ds)))) == Renewed(ParseFields(py, FieldsOf(ds)))
  {
    hide Reparsed, Flat, Groups, Normals, Tidy, Again, AllPrintable, Renewed, ParseFields, FieldsOf, AllNamed,
      UniqueKeys;
    var fields := FieldsOf(ds);
    var ps := ParseFields(py, fields);
    SectionsFlat(py, fields);
    SectionsTidy(py, fields);
    NormalsOfAgain(ps);
    GroupsOfFlat(Sections(py, fields));
    ReparsedIsFlat(py, producer, url, Again(ps));
  }
}
