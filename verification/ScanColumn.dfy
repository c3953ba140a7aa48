// The scan-derived column of a chunk table: re-ingest replaces a document's rows, a fill merges
// values into the NULL rows by key.

module ScanColumn {

  import opened Common

  datatype Doc = Doc(id: int)

  // A chunk key names its document.
  datatype Key = Key(doc: Doc, chunk: int)

  datatype Input = Input(content: int)
  datatype Value = Value(content: int)

  // One row: the scanned columns and the derived one, None being NULL.
  datatype Row = Row(input: Input, value: Option<Value>)

  type Table = map<Key, Row>

  // compute, row by row; it may itself yield NULL.
  type Compute = Input -> Option<Value>

  // Every derived value is NULL or belongs to its own row's present input.
  ghost predicate Consistent(f: Compute, rows: Table)
  {
    forall k <- rows :: rows[k].value.None? || rows[k].value == f(rows[k].input)
  }

  // ---- the durable operations ----

  // table.delete(doc_id IN docs)
  function Delete(rows: Table, docs: set<Doc>): Table
  {
    map k | k in rows && k.doc !in docs :: rows[k]
  }

  // table.add(_align_to_schema(chunks)): the derived column of new rows is NULL.
  function Add(rows: Table, incoming: map<Key, Input>): Table
  {
    rows + map k <- incoming :: Row(incoming[k], None)
  }

  // The media gate of a stage: absent, or the documents whose MIME type it admits.
  datatype Gate = Ungated | Only(docs: set<Doc>) {
    predicate Admits(d: Doc) { Ungated? || d in docs }
  }

  // The rows a fill reads: NULL there, and in an admitted document.
  function Pending(rows: Table, gate: Gate): map<Key, Input>
  {
    map k | k in rows && rows[k].value.None? && gate.Admits(k.doc) :: rows[k].input
  }

  // merge_insert on the key, when matched update: one result batch, computed from what was read.
  function Merge(f: Compute, rows: Table, read: map<Key, Input>, batch: set<Key>): Table
  {
    map k <- rows :: if k in batch && k in read then rows[k].(value := f(read[k])) else rows[k]
  }

  // Dropping and re-adding the column with add_columns.
  function Rebuild(f: Compute, rows: Table): Table
  {
    map k <- rows :: rows[k].(value := f(rows[k].input))
  }

  // ---- fills and re-ingests that interleave ----

  // Fills in progress, each with the rows it read and has not yet merged.
  datatype World = World(rows: Table, fills: map<int, map<Key, Input>>)

  datatype Step =
    | DeleteDocs(docs: set<Doc>)
    | AddRows(incoming: map<Key, Input>)
    | BeginFill(id: int, gate: Gate)
    | MergeBatch(id: int, batch: set<Key>)
    | EndFill(id: int)                         // finished, or killed
    | RebuildAll

  predicate Enabled(w: World, step: Step)
  {
    match step
    case AddRows(incoming) => forall k <- incoming :: k !in w.rows
    case BeginFill(id, _) => id !in w.fills
    case MergeBatch(id, batch) => id in w.fills && batch <= w.fills[id].Keys
    case _ => true
  }

  function Apply(f: Compute, w: World, step: Step): World
    requires Enabled(w, step)
  {
    match step
    case DeleteDocs(docs) => w.(rows := Delete(w.rows, docs))
    case AddRows(incoming) => w.(rows := Add(w.rows, incoming))
    case BeginFill(id, gate) => w.(fills := w.fills[id := Pending(w.rows, gate)])
    case MergeBatch(id, batch) =>
      World(Merge(f, w.rows, w.fills[id], batch), w.fills[id := w.fills[id] - batch])
    case EndFill(id) => w.(fills := w.fills - {id})
    case RebuildAll => w.(rows := Rebuild(f, w.rows))
  }

  // What a merge does to the rows it hits.
  lemma MergeKeepsConsistentIff(f: Compute, rows: Table, read: map<Key, Input>, batch: set<Key>)
    requires Consistent(f, rows) && batch <= read.Keys
    ensures Consistent(f, Merge(f, rows, read, batch))
            <==> forall k <- batch :: k in rows ==> f(read[k]).None? || f(read[k]) == f(rows[k].input)
  {
    var after := Merge(f, rows, read, batch);
    if Consistent(f, after) {
      forall k <- batch | k in rows ensures f(read[k]).None? || f(read[k]) == f(rows[k].input) {
        assert after[k].value.None? || after[k].value == f(after[k].input);
      }
    }
  }

  ghost predicate HasInputs(rows: Table, inputs: map<Key, Input>)
  {
    rows.Keys == inputs.Keys && forall k <- rows :: rows[k].input == inputs[k]
  }

  // Whatever compute is and whatever the table held, the merge is right.
  ghost predicate MergeIsRight(inputs: map<Key, Input>, read: map<Key, Input>, batch: set<Key>)
  {
    forall f: Compute, rows: Table :: HasInputs(rows, inputs) && Consistent(f, rows) ==>
      Consistent(f, Merge(f, rows, read, batch))
  }

  // A merge can be trusted exactly when every row it hits still has the input the fill read there.
  lemma MergeIsRightIff(inputs: map<Key, Input>, read: map<Key, Input>, batch: set<Key>)
    requires batch <= read.Keys
    ensures MergeIsRight(inputs, read, batch) <==> forall k <- batch :: k in inputs ==> inputs[k] == read[k]
  {
    hide Merge, Consistent;
    if forall k <- batch :: k in inputs ==> inputs[k] == read[k] {
      forall f: Compute, rows: Table | HasInputs(rows, inputs) && Consistent(f, rows)
        ensures Consistent(f, Merge(f, rows, read, batch))
      {
        MergeKeepsConsistentIff(f, rows, read, batch);
      }
    }
    if MergeIsRight(inputs, read, batch) {
      forall k <- batch | k in inputs ensures inputs[k] == read[k] {
        var f: Compute := i => if i == read[k] then Some(Value(0)) else Some(Value(1));
        var rows: Table := map j <- inputs :: Row(inputs[j], None);
        assert HasInputs(rows, inputs);
        AllNull(f, rows);
        assert Consistent(f, Merge(f, rows, read, batch));
        MergeKeepsConsistentIff(f, rows, read, batch);
        assert f(read[k]) == f(rows[k].input);
      }
    }
  }

  lemma AllNull(f: Compute, rows: Table)
    requires forall k <- rows :: rows[k].value.None?
    ensures Consistent(f, rows)
  {
  }

  // No re-ingest puts a new input under a key some fill has read and not yet merged.
  predicate Disciplined(w: World, step: Step)
  {
    step.AddRows? ==>
      forall id <- w.fills, k <- w.fills[id] :: k in step.incoming ==> step.incoming[k] == w.fills[id][k]
  }

  ghost predicate Inv(f: Compute, w: World)
  {
    && Consistent(f, w.rows)
    && forall id <- w.fills, k <- w.fills[id] :: k in w.rows ==> w.rows[k].input == w.fills[id][k]
  }

  lemma StepKeepsConsistent(f: Compute, w: World, step: Step)
    requires Inv(f, w) && Enabled(w, step) && Disciplined(w, step)
    ensures Inv(f, Apply(f, w, step))
  {
    match step
    case MergeBatch(id, batch) =>
      forall k <- batch | k in w.rows ensures f(w.fills[id][k]) == f(w.rows[k].input) {
        assert w.rows[k].input == w.fills[id][k];
      }
      MergeKeepsConsistentIff(f, w.rows, w.fills[id], batch);
    case _ =>
  }

  // The world after the steps from the empty table, or None when one of them is not enabled.
  function Execute(f: Compute, steps: seq<Step>): Option<World>
    decreases |steps|
  {
    if steps == [] then Some(World(map[], map[]))
    else
      var before, last := Execute(f, steps[..|steps| - 1]), steps[|steps| - 1];
      if before.None? || !Enabled(before.value, last) then None else Some(Apply(f, before.value, last))
  }

  predicate AllDisciplined(f: Compute, steps: seq<Step>)
    requires Execute(f, steps).Some?
    decreases |steps|
  {
    steps == [] ||
    var n := |steps| - 1;
    AllDisciplined(f, steps[..n]) && Disciplined(Execute(f, steps[..n]).value, steps[n])
  }

  // Whatever is killed or interleaved, each derived value is NULL or its own row's.
  lemma {:induction false} ValuesAreNullOrTheirOwn(f: Compute, steps: seq<Step>)
    requires Execute(f, steps).Some? && AllDisciplined(f, steps)
    ensures Inv(f, Execute(f, steps).value) && Consistent(f, Execute(f, steps).value.rows)
    decreases |steps|
  {
    if steps != [] {
      var n := |steps| - 1;
      ValuesAreNullOrTheirOwn(f, steps[..n]);
      StepKeepsConsistent(f, Execute(f, steps[..n]).value, steps[n]);
    }
  }

  // Without the discipline: a re-ingest between a fill's read and its merge leaves the old
  // input's value on the new row.
  lemma OverlappingReingestLeavesStaleValue(f: Compute, k: Key, old_: Input, new_: Input, id: int)
    requires f(old_).Some? && f(old_) != f(new_)
    ensures var w0 := World(map[k := Row(old_, None)], map[]);
            var w1 := Apply(f, w0, BeginFill(id, Ungated));
            var w2 := Apply(f, w1, DeleteDocs({k.doc}));
            var w3 := Apply(f, w2, AddRows(map[k := new_]));
            && Enabled(w2, AddRows(map[k := new_])) && !Disciplined(w2, AddRows(map[k := new_]))
            && Enabled(w3, MergeBatch(id, {k}))
            && !Consistent(f, Apply(f, w3, MergeBatch(id, {k})).rows)
  {
    var w0 := World(map[k := Row(old_, None)], map[]);
    var w1 := Apply(f, w0, BeginFill(id, Ungated));
    var w2 := Apply(f, w1, DeleteDocs({k.doc}));
    var w3 := Apply(f, w2, AddRows(map[k := new_]));
    assert w1.fills[id][k] == old_ && w3.rows[k] == Row(new_, None);
    assert k in w2.fills[id] && k in map[k := new_];
    var w4 := Apply(f, w3, MergeBatch(id, {k}));
    assert w4.rows[k] == Row(new_, f(old_));
  }

  // ---- exactly which histories can be trusted ----

  // A compute that yields no NULL.
  function Total(g: Input -> Value): Compute
  {
    i => Some(g(i))
  }

  // A merge hits a row whose input is no longer the one its fill read.
  predicate Stale(w: World, step: Step)
    requires Enabled(w, step)
  {
    step.MergeBatch? && exists k <- step.batch :: k in w.rows && w.rows[k].input != w.fills[step.id][k]
  }

  predicate SomeStale(f: Compute, steps: seq<Step>)
    requires Execute(f, steps).Some?
    decreases |steps|
  {
    steps != [] &&
    var n := |steps| - 1;
    SomeStale(f, steps[..n]) || Stale(Execute(f, steps[..n]).value, steps[n])
  }

  // At the start and after every step each value is NULL or its own row's.
  ghost predicate AlwaysConsistent(f: Compute, steps: seq<Step>)
    decreases |steps|
  {
    && Execute(f, steps).Some? && Consistent(f, Execute(f, steps).value.rows)
    && (steps != [] ==> AlwaysConsistent(f, steps[..|steps| - 1]))
  }

  // w and v differ in their values alone, and what is NULL in v is NULL in w, so that fills of w may
  // have read more.
  ghost predicate Fewer(v: World, w: World)
  {
    && v.rows.Keys == w.rows.Keys && v.fills.Keys == w.fills.Keys
    && (forall k <- v.rows :: v.rows[k].input == w.rows[k].input && (v.rows[k].value.None? ==> w.rows[k].value.None?))
    && (forall id <- v.fills, k <- v.fills[id] :: k in w.fills[id] && w.fills[id][k] == v.fills[id][k])
  }

  lemma StepStaysFewer(g: Input -> Value, f: Compute, v: World, w: World, step: Step)
    requires Fewer(v, w) && Enabled(v, step)
    ensures Enabled(w, step) && (Stale(v, step) <==> Stale(w, step))
    ensures Fewer(Apply(Total(g), v, step), Apply(f, w, step))
  {
  }

  // What can happen under some compute without NULLs can happen under every compute, with the same
  // rows read and the same merges stale.
  lemma {:induction false} HistoryOfAll(g: Input -> Value, f: Compute, steps: seq<Step>)
    requires Execute(Total(g), steps).Some?
    ensures Execute(f, steps).Some? && Fewer(Execute(Total(g), steps).value, Execute(f, steps).value)
    ensures SomeStale(Total(g), steps) <==> SomeStale(f, steps)
    decreases |steps|
  {
    hide Total, Enabled, Stale, Fewer, Apply;
    if steps == [] {
      SameIsFewer();
    } else {
      var n := |steps| - 1;
      HistoryOfAll(g, f, steps[..n]);
      StepStaysFewer(g, f, Execute(Total(g), steps[..n]).value, Execute(f, steps[..n]).value, steps[n]);
    }
  }

  lemma SameIsFewer()
    ensures Fewer(World(map[], map[]), World(map[], map[]))
  {
  }

  lemma FreshStepKeeps(f: Compute, w: World, step: Step)
    requires Consistent(f, w.rows) && Enabled(w, step) && !Stale(w, step)
    ensures Consistent(f, Apply(f, w, step).rows)
  {
    if step.MergeBatch? {
      MergeKeepsConsistentIff(f, w.rows, w.fills[step.id], step.batch);
    }
  }

  lemma {:induction false} WithoutStaleMerges(f: Compute, steps: seq<Step>)
    requires Execute(f, steps).Some? && !SomeStale(f, steps)
    ensures AlwaysConsistent(f, steps)
    decreases |steps|
  {
    hide Enabled, Stale, Apply, Consistent;
    if steps == [] {
      assert Consistent(f, map[]) by { AllNull(f, map[]); }
    } else {
      var n := |steps| - 1;
      WithoutStaleMerges(f, steps[..n]);
      FreshStepKeeps(f, Execute(f, steps[..n]).value, steps[n]);
    }
  }

  // A stale merge leaves a wrong value when compute tells the two inputs apart.
  lemma StaleStepBreaks(v: World, step: Step) returns (h: Input -> Value)
    requires Enabled(v, step) && Stale(v, step)
    ensures forall w: World :: Fewer(v, w) && Enabled(w, step) ==>
      !Consistent(Total(h), Apply(Total(h), w, step).rows)
  {
    var k :| k in step.batch && k in v.rows && v.rows[k].input != v.fills[step.id][k];
    var read := v.fills[step.id][k];
    h := i => if i == read then Value(0) else Value(1);
    forall w: World | Fewer(v, w) && Enabled(w, step) ensures !Consistent(Total(h), Apply(Total(h), w, step).rows) {
      var after := Apply(Total(h), w, step);
      assert after.rows[k] == Row(v.rows[k].input, Some(Value(0)));
    }
  }

  lemma {:induction false} StaleMergeBreaks(g: Input -> Value, steps: seq<Step>) returns (h: Input -> Value)
    requires Execute(Total(g), steps).Some? && SomeStale(Total(g), steps)
    ensures !AlwaysConsistent(Total(h), steps)
    decreases |steps|
  {
    hide Enabled, Stale, Apply, Consistent, Total, Fewer;
    var n := |steps| - 1;
    if SomeStale(Total(g), steps[..n]) {
      h := StaleMergeBreaks(g, steps[..n]);
    } else {
      var v := Execute(Total(g), steps[..n]).value;
      h := StaleStepBreaks(v, steps[n]);
      HistoryOfAll(g, Total(h), steps);
      HistoryOfAll(g, Total(h), steps[..n]);
    }
  }

  // A history, of any re-ingests, fills and kills, keeps every value right whatever compute is, exactly
  // when no merge in it is stale.
  lemma HistoryIsRightIff(g: Input -> Value, steps: seq<Step>)
    requires Execute(Total(g), steps).Some?
    ensures (forall f: Compute :: AlwaysConsistent(f, steps)) <==> !SomeStale(Total(g), steps)
  {
    hide Execute, AlwaysConsistent, SomeStale, Total;
    if SomeStale(Total(g), steps) {
      var h := StaleMergeBreaks(g, steps);
    } else {
      forall f: Compute ensures AlwaysConsistent(f, steps) {
        HistoryOfAll(g, f, steps);
        WithoutStaleMerges(f, steps);
      }
    }
  }

  // ---- the table and its methods ----

  class ChunkTable {
    const f: Compute
    var rows: Table
    var hasColumn: bool

    ghost predicate Valid()
      reads this
    {
      Consistent(f, rows) && (!hasColumn ==> forall k <- rows :: rows[k].value.None?)
    }

    constructor (f: Compute)
      ensures this.f == f && rows == map[] && !hasColumn && Valid()
    {
      this.f := f;
      rows, hasColumn := map[], false;
    }

    // _write_chunks_table on an existing table: delete, then append; a kill in between leaves
    // the incoming documents without rows.
    method WriteChunks(incoming: map<Key, Input>, docs: set<Doc>) returns (killed: bool)
      requires Valid() && forall k <- incoming :: k.doc in docs
      modifies this`rows
      ensures Valid()
      ensures forall k: Key :: k.doc !in docs ==>
                (k in rows <==> k in old(rows)) && (k in rows ==> rows[k] == old(rows)[k])
      ensures forall k <- rows :: k.doc in docs ==> !killed && k in incoming && rows[k] == Row(incoming[k], None)
      ensures !killed ==> forall k <- incoming :: k in rows
    {
      rows := Delete(rows, docs);
      killed := *;
      if killed { return; }
      rows := Add(rows, incoming);
    }

    // The fill of engine and driver: read the NULL rows, then merge result batches in any order.
    method FillNull(gate: Gate, batchRows: nat) returns (killed: bool, written: nat)
      requires Valid() && hasColumn && 0 < batchRows
      modifies this`rows
      ensures Valid() && rows.Keys == old(rows).Keys
      ensures forall k <- rows ::
                || rows[k] == old(rows)[k]
                || (old(rows)[k].value.None? && gate.Admits(k.doc) &&
                   rows[k] == old(rows)[k].(value := f(old(rows)[k].input)))
      ensures !killed ==> written == |Pending(old(rows), gate)|
      ensures !killed ==> forall k <- rows :: gate.Admits(k.doc) && old(rows)[k].value.None? ==>
        rows[k].value == f(rows[k].input)
    {
      killed, written := false, 0;
      ghost var before := rows;
      var pending := Pending(rows, gate);
      ghost var done: set<Key> := {};
      assert rows == Merge(f, before, pending, done);
      hide Merge, Pending, Consistent;
      var left := pending.Keys;
      while left != {}
        invariant left <= pending.Keys && done == pending.Keys - left && written == |done|
        invariant rows == Merge(f, before, pending, done)
        decreases left
      {
        var batch := NextBatch(left, batchRows);
        rows := Merge(f, rows, pending, batch);
        MergeTwice(f, before, pending, done, batch);
        MoveBatch(pending.Keys, done, left, batch);
        written := written + |batch|;
        left, done := left - batch, done + batch;
        killed := *;
        if killed { break; }
      }
      if !killed { assert done == pending.Keys; }
      MergedFill(f, before, gate, done);
    }

    // upsert_scan_column. The ungated fill and the rebuild both leave every row with its value.
    method UpsertScanColumn(batchRows: nat, overwrite: bool) returns (killed: bool, written: nat)
      requires Valid() && 0 < batchRows
      modifies this
      ensures Valid() && rows.Keys == old(rows).Keys && forall k <- rows :: rows[k].input == old(rows)[k].input
      ensures !killed && (overwrite || !old(hasColumn)) ==> rows == Rebuild(f, old(rows))
      ensures !killed ==> forall k <- rows :: rows[k].value == f(rows[k].input)
      ensures !killed ==> hasColumn == (rows != map[] || (old(hasColumn) && !overwrite))
      ensures !killed && (overwrite || !old(hasColumn)) ==> written == |rows|
      ensures !killed && !overwrite && old(hasColumn) ==>
                written == |set k | k in old(rows) && old(rows)[k].value.None?|
      ensures killed && overwrite ==> !hasColumn
      ensures killed && !overwrite ==> hasColumn == old(hasColumn)
    {
      killed, written := false, 0;
      if hasColumn && overwrite {
        rows := map k <- rows :: rows[k].(value := None);
        hasColumn := false;
        killed := *;
        if killed { return; }
      }
      if hasColumn {
        ghost var before := rows;
        killed, written := FillNull(Ungated, batchRows);
        assert Pending(before, Ungated).Keys == set k | k in before && before[k].value.None?;
        assert |Pending(before, Ungated)| == |Pending(before, Ungated).Keys|;
        return;
      }
      if rows == map[] {
        return;
      }
      written := |rows|;
      rows := Rebuild(f, rows);
      hasColumn := true;
    }
  }

  // What a fill reads: the NULL rows, of every document without a gate, of the gate's otherwise.
  lemma PendingIs(rows: Table, gate: Gate, k: Key)
    ensures k in Pending(rows, gate) <==>
      k in rows && rows[k].value == None && (gate == Ungated || exists docs :: gate == Only(docs) && k.doc in docs)
    ensures k in Pending(rows, gate) ==> Pending(rows, gate)[k] == rows[k].input
  {
    if gate.Only? {
      assert gate == Only(gate.docs);
    }
  }

  // A history goes on exactly by a step that is possible where it has led.
  lemma ExecuteMore(f: Compute, steps: seq<Step>, step: Step)
    ensures Execute(f, []) == Some(World(map[], map[]))
    ensures Execute(f, steps + [step]) ==
      match Execute(f, steps)
      case None => None
      case Some(w) => if Enabled(w, step) then Some(Apply(f, w, step)) else None
  {
    assert (steps + [step])[..|steps|] == steps;
  }

  // A rebuild gives every row its value, the end of a fill takes away what it read and no row.
  lemma RebuildAndEnd(f: Compute, w: World, id: int)
    ensures var after := Apply(f, w, RebuildAll);
      && after.fills == w.fills && after.rows.Keys == w.rows.Keys
      && forall k <- after.rows :: after.rows[k] == Row(w.rows[k].input, f(w.rows[k].input))
    ensures Apply(f, w, EndFill(id)).rows == w.rows && Apply(f, w, EndFill(id)).fills == w.fills - {id}
  {
  }

  lemma MergeTwice(f: Compute, rows: Table, read: map<Key, Input>, a: set<Key>, b: set<Key>)
    ensures Merge(f, Merge(f, rows, read, a), read, b) == Merge(f, rows, read, a + b)
  {
  }

  lemma MoveBatch(all: set<Key>, done: set<Key>, left: set<Key>, batch: set<Key>)
    requires batch <= left <= all && done == all - left
    ensures left - batch <= all && done + batch == all - (left - batch)
    ensures |done + batch| == |done| + |batch|
  {
  }

  // A table in which some of the pending rows are merged.
  lemma MergedFill(f: Compute, rows: Table, gate: Gate, done: set<Key>)
    requires Consistent(f, rows) && done <= Pending(rows, gate).Keys
    ensures var after := Merge(f, rows, Pending(rows, gate), done);
            && Consistent(f, after) && after.Keys == rows.Keys
            && (forall k <- rows :: k !in done ==> after[k] == rows[k])
            && (forall k <- done :: k in rows && rows[k].value.None? && gate.Admits(k.doc)
                                    && after[k] == rows[k].(value := f(rows[k].input)))
            && (forall k <- rows :: rows[k].value.None? && gate.Admits(k.doc) ==> k in Pending(rows, gate))
  {
  }

  method NextBatch(left: set<Key>, batchRows: nat) returns (batch: set<Key>)
    requires left != {} && 0 < batchRows
    ensures {} < batch <= left && |batch| <= batchRows
  {
    var k :| k in left;
    batch := {k};
    var rest := left - {k};
    var more: bool := *;
    while more && rest != {} && |batch| < batchRows
      invariant {} < batch <= left && |batch| <= batchRows && rest == left - batch
      decreases rest
    {
      k :| k in rest;
      batch, rest := batch + {k}, rest - {k};
      more := *;
    }
  }
}
