// The blob-derived column: compute a value per row id with a JSONL sidecar, then attach all of
// them at once. A run can be killed between any two durable writes and started again.

module BlobColumn {

  import opened Common

  // A Lance row id, stable within a dataset version.
  datatype RowId = RowId(n: int)

  type Lines<V> = seq<(RowId, V)>

  // load(): the sidecar as a dictionary, later lines winning.
  function Load<V>(lines: Lines<V>): map<RowId, V>
  {
    if lines == [] then map[]
    else Load(lines[..|lines| - 1])[lines[|lines| - 1].0 := lines[|lines| - 1].1]
  }

  ghost function Ids<V>(lines: Lines<V>): set<RowId>
  {
    set line <- lines :: line.0
  }

  // What a build over the payloads attaches when the sidecar held `cached` at its start.
  function Attached<P, V>(f: P -> V, payloads: map<RowId, P>, cached: map<RowId, V>): map<RowId, V>
  {
    map id <- payloads :: if id in cached then cached[id] else f(payloads[id])
  }

  function Derived<P, V>(f: P -> V, payloads: map<RowId, P>): map<RowId, V>
  {
    map id <- payloads :: f(payloads[id])
  }

  // A sidecar outlives a run killed between the attach and its cleanup. Whatever is computed next,
  // resuming from it is right exactly when it holds no row of the dataset.
  lemma ResumeIsRightForAllIff<P, V>(payloads: map<RowId, P>, cached: map<RowId, V>, u: V, v: V)
    requires u != v
    ensures (forall f: P -> V :: Attached(f, payloads, cached) == Derived(f, payloads)) <==>
      cached.Keys !! payloads.Keys
  {
    if cached.Keys !! payloads.Keys {
      forall f: P -> V ensures Attached(f, payloads, cached) == Derived(f, payloads) {
        assert forall id <- payloads :: id !in cached;
      }
    } else {
      var id :| id in cached && id in payloads;
      var f: P -> V := (_: P) => if cached[id] == u then v else u;
      assert Attached(f, payloads, cached)[id] != Derived(f, payloads)[id];
    }
  }

  lemma {:induction false} LoadKeys<V>(lines: Lines<V>)
    ensures Load(lines).Keys == Ids(lines)
    decreases |lines|
  {
    if lines != [] {
      LoadKeys(lines[..|lines| - 1]);
      assert lines == lines[..|lines| - 1] + [lines[|lines| - 1]];
    }
  }

  lemma {:induction false} LoadAppend<V>(a: Lines<V>, b: Lines<V>)
    ensures Load(a + b) == Load(a) + Load(b)
    decreases |b|
  {
    if b == [] {
      assert a + b == a;
    } else {
      LoadAppend(a, b[..|b| - 1]);
      assert (a + b)[..|a + b| - 1] == a + b[..|b| - 1];
    }
  }

  // Lines for distinct rows that the sidecar lacks add that many ids.
  lemma {:induction false} NewIdsCount<V>(a: Lines<V>, b: Lines<V>)
    requires forall line <- b :: line.0 !in Ids(a)
    requires forall i, j :: 0 <= i < j < |b| ==> b[i].0 != b[j].0
    ensures |Ids(a + b)| == |Ids(a)| + |b|
    decreases |b|
  {
    if b == [] {
      assert a + b == a;
    } else {
      var rest, last := b[..|b| - 1], b[|b| - 1];
      NewIdsCount(a, rest);
      assert a + b == (a + rest) + [last];
      assert Ids(a + b) == Ids(a + rest) + {last.0};
    }
  }

  // What becomes of a run: it is killed anywhere or nowhere, spared, or killed right after the attach.
  datatype Fate = Any | Spared | KilledBeforeCleanup

  // A dataset with a blob column and the durable state of one derived column. Between two runs the
  // rows and the compute function may change; no run changes them.
  class Dataset<P(!new), V(!new)> {
    var payloads: map<RowId, P>
    var f: P -> V
    var column: Option<map<RowId, V>>
    var sidecar: Lines<V>
    ghost var computed: nat             // rows handed to compute so far, over all runs

    constructor (payloads: map<RowId, P>, f: P -> V)
      ensures this.payloads == payloads && this.f == f
      ensures column.None? && sidecar == [] && computed == 0
    {
      this.payloads, this.f := payloads, f;
      column, sidecar, computed := None, [], 0;
    }

    // compute(_read_blobs(ds, todo)): one value per row, in order.
    method Compute(todo: seq<RowId>) returns (pairs: Lines<V>)
      requires forall id <- todo :: id in payloads
      modifies this`computed
      ensures computed == old(computed) + |todo|
      ensures |pairs| == |todo| && forall i :: 0 <= i < |todo| ==> pairs[i] == (todo[i], f(payloads[todo[i]]))
    {
      var compute, rows := f, payloads;
      pairs := seq(|todo|, i requires 0 <= i < |todo| => (todo[i], compute(rows[todo[i]])));
      computed := computed + |todo|;
    }

    // extend(): whole lines, one after the other; a kill keeps the lines already written.
    method Extend(pairs: Lines<V>, fate: Fate) returns (killed: bool)
      modifies this`sidecar
      ensures !fate.Any? ==> !killed
      ensures exists k :: 0 <= k <= |pairs| && sidecar == old(sidecar) + pairs[..k] && (!killed ==> k == |pairs|)
    {
      for k := 0 to |pairs|
        invariant sidecar == old(sidecar) + pairs[..k]
      {
        killed := *;
        if killed && fate.Any? {
          return;
        }
        sidecar := sidecar + [pairs[k]];
        assert pairs[..k + 1] == pairs[..k] + [pairs[k]];
      }
      assert pairs[..|pairs|] == pairs;
      killed := *;
      killed := killed && fate.Any?;
    }

    // The rows of a batch that have no value yet, in batch order.
    function Todo(batch: seq<RowId>, values: map<RowId, V>): (todo: seq<RowId>)
      ensures forall id :: id in todo <==> id in batch && id !in values
      ensures |todo| <= |batch|
    {
      if batch == [] then []
      else (if batch[0] in values then [] else [batch[0]]) + Todo(batch[1..], values)
    }

    // upsert_blob_column, killed at any point or run to its end. `scan` is what to_batches yields.
    method Upsert(scan: seq<seq<RowId>>, batchRows: nat, overwrite: bool, fate: Fate)
      returns (killed: bool, written: nat)
      requires IsScan(scan, payloads.Keys, batchRows)
      modifies this`column, this`sidecar, this`computed
      ensures fate.Spared? ==> !killed
      ensures fate.KilledBeforeCleanup? && payloads != map[] && (old(column).None? || overwrite) ==>
                killed && column == Some(Attached(f, payloads, Load(old(sidecar)))) && KeepsValues(old(sidecar))
      ensures GoodLines(f, payloads, old(sidecar), sidecar)
      ensures !killed && old(column).Some? && !overwrite ==>
                written == 0 && column == old(column) && sidecar == old(sidecar) && computed == old(computed)
      ensures !killed && payloads == map[] ==> written == 0 && sidecar == old(sidecar) && computed == old(computed)
      ensures !killed && payloads == map[] && (old(column).None? || overwrite) ==> column.None?
      ensures !killed && payloads != map[] && (old(column).None? || overwrite) ==>
                && written == |payloads| && sidecar == []
                && column == Some(Attached(f, payloads, Load(old(sidecar))))
                && computed == old(computed) + |payloads.Keys - Ids(old(sidecar))|
      ensures killed ==>
                && (column.None? || column == Some(Attached(f, payloads, Load(old(sidecar)))))
                && computed - |Ids(sidecar)| <= old(computed) - |Ids(old(sidecar))| + batchRows
    {
      written, killed := 0, false;
      if column.Some? {
        if !overwrite {
          return;
        }
        column := None;
        killed := *;
        killed := killed && fate.Any?;
        if killed { return; }
      }
      if payloads == map[] {
        return;
      }
      killed := Build(scan, batchRows, fate);
      if !killed {
        written := |payloads|;
      }
    }

    // The state between runs of one build: right lines only, the column absent or right, and the
    // rows computed in vain bounded by the kills.
    ghost predicate Resumable(kills: nat, batchRows: nat)
      reads this
    {
      && RightLines(f, payloads, sidecar)
      && (column.None? || column == Some(Derived(f, payloads)))
      && computed <= |Ids(sidecar)| + kills * batchRows
    }

    // One more run, killed or not, with either flag.
    method Rerun(scan: seq<seq<RowId>>, batchRows: nat, overwrite: bool, ghost kills: nat) returns (killed: bool)
      requires payloads != map[] && IsScan(scan, payloads.Keys, batchRows) && Resumable(kills, batchRows)
      modifies this`column, this`sidecar, this`computed
      ensures killed ==> Resumable(kills + 1, batchRows)
      ensures !killed ==> column == Some(Derived(f, payloads))
      ensures computed <= |payloads| + (if killed then kills + 1 else kills) * batchRows
    {
      ghost var before := sidecar;
      RightLinesLoad(f, payloads, before);
      var written;
      killed, written := Upsert(scan, batchRows, overwrite, Any);
      RightLinesCount(f, payloads, before);
      RightLinesCount(f, payloads, sidecar);
      assert (kills + 1) * batchRows == kills * batchRows + batchRows;
    }

    // However often a build is killed and started again, with the overwrite flag or without, the run
    // that finishes has attached the right value to every row, and the rows computed are at most one
    // pass plus a batch per kill.
    method RunToTheEnd(scans: seq<seq<seq<RowId>>>, overwrites: seq<bool>, batchRows: nat)
      returns (finished: bool, kills: nat)
      requires column.None? && sidecar == [] && computed == 0 && payloads != map[]
      requires |overwrites| == |scans| && forall scan <- scans :: IsScan(scan, payloads.Keys, batchRows)
      modifies this`column, this`sidecar, this`computed
      ensures finished ==> column == Some(Derived(f, payloads))
      ensures !finished ==> kills == |scans|
      ensures computed <= |payloads| + kills * batchRows
    {
      finished, kills := false, 0;
      assert Ids(sidecar) == {};
      for i := 0 to |scans|
        invariant kills == i && Resumable(kills, batchRows) && computed <= |payloads| + kills * batchRows
      {
        hide *;
        var killed := Rerun(scans[i], batchRows, overwrites[i], kills);
        if !killed {
          finished := true;
          return;
        }
        kills := kills + 1;
      }
    }

    // The sidecar holds the attached value of every row, beside the ids it held.
    ghost predicate KeepsValues(before: Lines<V>)
      reads this
    {
      && Load(sidecar).Keys == Ids(before) + payloads.Keys
      && forall id <- payloads :: Load(sidecar)[id] == Attached(f, payloads, Load(before))[id]
    }

    // A run killed between the attach and the cleanup, and then an overwrite, under another compute
    // function or over other payloads, that runs to its end: the column it leaves still holds the old
    // function's values of the old payloads.
    method RebuildAfterKill(scan: seq<seq<RowId>>, batchRows: nat, g: P -> V, later: map<RowId, P>)
      requires column.None? && sidecar == [] && payloads != map[] && later.Keys == payloads.Keys
      requires IsScan(scan, payloads.Keys, batchRows)
      modifies this
      ensures f == g && payloads == later && sidecar == []
      ensures column == Some(Derived(old(f), old(payloads)))
      ensures column == Some(Derived(f, payloads)) <==> forall id <- later :: g(later[id]) == old(f)(old(payloads)[id])
    {
      hide GoodLines, IsScan, Load, Ids, Attached, Derived;
      EmptyLoad<V>();
      var killed, written := Upsert(scan, batchRows, false, KilledBeforeCleanup);
      NoneCached(f, payloads);
      assert Load(sidecar) == Derived(f, payloads);
      f, payloads := g, later;
      AllCached(g, later, Load(sidecar));
      killed, written := Upsert(scan, batchRows, true, Spared);
      DerivedAgreeIff(old(f), old(payloads), g, later);
    }

    // Both passes and the cleanup.
    method Build(scan: seq<seq<RowId>>, batchRows: nat, fate: Fate) returns (killed: bool)
      requires IsScan(scan, payloads.Keys, batchRows)
      modifies this`column, this`sidecar, this`computed
      ensures fate.Spared? ==> !killed
      ensures fate.KilledBeforeCleanup? ==>
                killed && column == Some(Attached(f, payloads, Load(old(sidecar)))) && KeepsValues(old(sidecar))
      ensures GoodLines(f, payloads, old(sidecar), sidecar)
      ensures !killed ==>
                && sidecar == [] && column == Some(Attached(f, payloads, Load(old(sidecar))))
                && computed == old(computed) + |payloads.Keys - Ids(old(sidecar))|
      ensures killed ==>
                && (column == old(column) || column == Some(Attached(f, payloads, Load(old(sidecar)))))
                && computed - |Ids(sidecar)| <= old(computed) - |Ids(old(sidecar))| + batchRows
    {
      hide GoodLines, Load, Ids, Attached, IsScan;
      ghost var cached := Load(sidecar);
      var values;
      killed, values := ComputePass(scan, batchRows, fate);
      if killed { return; }
      AttachValues(f, payloads, cached, values);
      // attach_values_by_rowid: one atomic add_columns
      column := Some(map id | id in payloads :: values[id]);
      killed := *;
      killed := fate.KilledBeforeCleanup? || (killed && fate.Any?);
      if killed { return; }
      NoLinesAreGood(f, payloads, old(sidecar));
      sidecar := [];
    }

    // The first pass: a value for every row, cached ones kept, the rest computed and persisted
    // batch by batch.
    method ComputePass(scan: seq<seq<RowId>>, batchRows: nat, fate: Fate)
      returns (killed: bool, values: map<RowId, V>)
      requires IsScan(scan, payloads.Keys, batchRows)
      modifies this`sidecar, this`computed
      ensures !fate.Any? ==> !killed
      ensures GoodLines(f, payloads, old(sidecar), sidecar)
      ensures computed - |Ids(sidecar)| <= old(computed) - |Ids(old(sidecar))| + if killed then batchRows else 0
      ensures !killed ==> computed == old(computed) + |payloads.Keys - Ids(old(sidecar))|
      ensures !killed ==> values == Load(sidecar) && values.Keys == Ids(old(sidecar)) + payloads.Keys
      ensures !killed ==> forall id <- payloads ::
                && id in values
                && values[id] == if id in Load(old(sidecar)) then Load(old(sidecar))[id] else f(payloads[id])
    {
      ghost var before := sidecar;
      values := Load(sidecar);
      killed := false;
      LoadKeys(sidecar);
      for i := 0 to |scan|
        invariant GoodLines(f, payloads, before, sidecar)
        invariant Progress(f, payloads, before, sidecar, values, RowsIn(scan[..i]))
        invariant computed - |Ids(sidecar)| == old(computed) - |Ids(before)|
      {
        RowsInNext(scan, i);
        assert forall id <- scan[i] :: id in RowsIn(scan);
        hide GoodLines, Progress, Ids, Load, RowsIn;
        killed, values := ComputeBatch(scan[i], batchRows, fate, values, before, RowsIn(scan[..i]));
        if killed { return; }
      }
      assert scan[..|scan|] == scan;
    }

    // One scan batch.
    method ComputeBatch(batch: seq<RowId>, batchRows: nat, fate: Fate, values: map<RowId, V>,
                        ghost before: Lines<V>, ghost done: set<RowId>)
      returns (killed: bool, values': map<RowId, V>)
      requires |batch| <= batchRows && (forall id <- batch :: id in payloads) && DistinctRows(batch)
      requires GoodLines(f, payloads, before, sidecar) && Progress(f, payloads, before, sidecar, values, done)
      modifies this`sidecar, this`computed
      ensures !fate.Any? ==> !killed
      ensures GoodLines(f, payloads, before, sidecar)
      ensures killed ==> computed - |Ids(sidecar)| <= old(computed) - |Ids(old(sidecar))| + batchRows
      ensures !killed ==> computed - |Ids(sidecar)| == old(computed) - |Ids(old(sidecar))|
      ensures !killed ==> Progress(f, payloads, before, sidecar, values', done + set id | id in batch)
    {
      killed, values' := false, values;
      var todo := Todo(batch, values);
      ghost var lines := sidecar;
      TodoDistinct(batch, values);
      if todo == [] {
        NothingToDo(f, payloads, before, lines, values, done, batch);
        return;
      }
      var pairs := Compute(todo);
      killed := Extend(pairs, fate);
      ghost var k :| 0 <= k <= |pairs| && sidecar == lines + pairs[..k] && (!killed ==> k == |pairs|);
      assert IsPairs(f, payloads, todo, pairs);
      hide GoodLines, Progress, Ids, Load;
      PersistPairs(f, payloads, before, lines, values, done, todo, pairs, k);
      if killed { return; }
      assert pairs[..|pairs|] == pairs;
      values' := values + Load(pairs);
      AllPersisted(f, payloads, before, lines, values, done, batch, todo, pairs);
    }

    lemma TodoDistinct(batch: seq<RowId>, values: map<RowId, V>)
      requires DistinctRows(batch)
      ensures DistinctRows(Todo(batch, values))
    {
    }
  }

  ghost predicate DistinctRows(rows: seq<RowId>)
  {
    forall i, j :: 0 <= i < j < |rows| ==> rows[i] != rows[j]
  }

  ghost function RowsIn(scan: seq<seq<RowId>>): set<RowId>
  {
    set batch, id | batch in scan && id in batch :: id
  }

  // Every row of the dataset is in some batch, in any order.
  ghost predicate IsScan(scan: seq<seq<RowId>>, rows: set<RowId>, batchRows: nat)
  {
    RowsIn(scan) == rows && forall batch <- scan :: |batch| <= batchRows && DistinctRows(batch)
  }

  lemma RowsInNext(scan: seq<seq<RowId>>, i: nat)
    requires i < |scan|
    ensures RowsIn(scan[..i + 1]) == RowsIn(scan[..i]) + set id | id in scan[i]
  {
    assert scan[..i + 1] == scan[..i] + [scan[i]];
  }

  ghost predicate IsPairs<P, V>(f: P -> V, payloads: map<RowId, P>, todo: seq<RowId>, pairs: Lines<V>)
  {
    && (forall id <- todo :: id in payloads)
    && |pairs| == |todo| && forall i :: 0 <= i < |todo| ==> pairs[i] == (todo[i], f(payloads[todo[i]]))
  }

  // The dictionary after the batches in `done`, the sidecar having started as `before`.
  ghost predicate Progress<P(!new), V(!new)>(f: P -> V, payloads: map<RowId, P>, before: Lines<V>, lines: Lines<V>,
                                             values: map<RowId, V>, done: set<RowId>)
  {
    && before <= lines
    && values == Load(lines)
    && values.Keys == Ids(lines) == Ids(before) + done
    && (forall id <- Load(before) :: id in values && values[id] == Load(before)[id])
    && (forall id <- values :: id !in Load(before) ==> id in payloads && values[id] == f(payloads[id]))
  }

  lemma NothingToDo<P(!new), V(!new)>(f: P -> V, payloads: map<RowId, P>, before: Lines<V>, lines: Lines<V>,
                                      values: map<RowId, V>, done: set<RowId>, batch: seq<RowId>)
    requires Progress(f, payloads, before, lines, values, done) && forall id <- batch :: id in values
    ensures Progress(f, payloads, before, lines, values, done + set id | id in batch)
  {
    assert Ids(before) + (done + set id | id in batch) == Ids(before) + done;
  }

  // Persisting k of the new pairs: good lines, and k more ids than before.
  lemma PersistPairs<P(!new), V(!new)>(f: P -> V, payloads: map<RowId, P>, before: Lines<V>, lines: Lines<V>,
                                       values: map<RowId, V>, done: set<RowId>, todo: seq<RowId>, pairs: Lines<V>,
                                       k: nat)
    requires GoodLines(f, payloads, before, lines) && Progress(f, payloads, before, lines, values, done)
    requires DistinctRows(todo) && (forall id <- todo :: id !in values) && IsPairs(f, payloads, todo, pairs)
    requires k <= |pairs|
    ensures GoodLines(f, payloads, before, lines + pairs[..k])
    ensures |Ids(lines + pairs[..k])| == |Ids(lines)| + k
  {
    NewIdsCount(lines, pairs[..k]);
  }

  lemma {:induction false} PairValues<P(!new), V(!new)>(f: P -> V, payloads: map<RowId, P>, todo: seq<RowId>,
                                                          pairs: Lines<V>)
    requires IsPairs(f, payloads, todo, pairs)
    ensures forall id <- Load(pairs) :: id in payloads && Load(pairs)[id] == f(payloads[id])
    decreases |pairs|
  {
    if pairs != [] {
      PairValues(f, payloads, todo[..|todo| - 1], pairs[..|pairs| - 1]);
    }
  }

  lemma PairIds<P(!new), V(!new)>(f: P -> V, payloads: map<RowId, P>, todo: seq<RowId>, pairs: Lines<V>)
    requires IsPairs(f, payloads, todo, pairs)
    ensures Ids(pairs) == set id | id in todo
  {
    forall id <- todo ensures id in Ids(pairs) {
      var i :| 0 <= i < |todo| && todo[i] == id;
      assert pairs[i] in pairs;
    }
  }

  lemma AllPersisted<P(!new), V(!new)>(f: P -> V, payloads: map<RowId, P>, before: Lines<V>, lines: Lines<V>,
                                       values: map<RowId, V>, done: set<RowId>, batch: seq<RowId>, todo: seq<RowId>,
                                       pairs: Lines<V>)
    requires Progress(f, payloads, before, lines, values, done) && IsPairs(f, payloads, todo, pairs)
    requires forall id :: id in todo <==> id in batch && id !in values
    ensures Progress(f, payloads, before, lines + pairs, values + Load(pairs), done + set id | id in batch)
  {
    hide Load, Ids, IsPairs;
    LoadAppend(lines, pairs);
    LoadKeys(lines + pairs);
    LoadKeys(pairs);
    PairValues(f, payloads, todo, pairs);
    PairIds(f, payloads, todo, pairs);
    var cached, more := Load(before), Load(pairs);
    assert (values + more).Keys == values.Keys + more.Keys;
  }

  lemma AttachValues<P(!new), V(!new)>(f: P -> V, payloads: map<RowId, P>, cached: map<RowId, V>, values: map<RowId, V>)
    requires forall id <- payloads :: id in values && values[id] == if id in cached then cached[id] else f(payloads[id])
    ensures (map id | id in payloads :: values[id]) == Attached(f, payloads, cached)
    ensures forall id <- payloads :: values[id] == Attached(f, payloads, cached)[id]
  {
  }

  lemma EmptyLoad<V>()
    ensures Load<V>([]) == map[] && Ids<V>([]) == {}
  {
  }

  lemma DerivedAgreeIff<P, V>(f: P -> V, payloads: map<RowId, P>, g: P -> V, later: map<RowId, P>)
    requires later.Keys == payloads.Keys
    ensures Derived(f, payloads) == Derived(g, later) <==> forall id <- later :: g(later[id]) == f(payloads[id])
  {
    if Derived(f, payloads) == Derived(g, later) {
      forall id <- later ensures g(later[id]) == f(payloads[id]) {
        assert Derived(f, payloads)[id] == Derived(g, later)[id];
      }
    }
  }

  lemma NoneCached<P, V>(f: P -> V, payloads: map<RowId, P>)
    ensures Attached(f, payloads, map[]) == Derived(f, payloads) && Derived(f, payloads).Keys == payloads.Keys
  {
  }

  // With a value for every row in the sidecar nothing is computed.
  lemma AllCached<P, V>(g: P -> V, payloads: map<RowId, P>, cached: map<RowId, V>)
    requires cached.Keys == payloads.Keys
    ensures Attached(g, payloads, cached) == cached
  {
  }

  lemma NoLinesAreGood<P(!new), V(!new)>(f: P -> V, payloads: map<RowId, P>, before: Lines<V>)
    ensures GoodLines(f, payloads, before, [])
  {
  }

  // The lines after a run are those before it and more, each right for its row; or none.
  ghost predicate GoodLines<P, V>(f: P -> V, payloads: map<RowId, P>, before: Lines<V>, after: Lines<V>)
  {
    after == [] ||
    (before <= after && forall i :: |before| <= i < |after| ==>
       after[i].0 in payloads && after[i].1 == f(payloads[after[i].0]))
  }

  // ---- the lines of one build ----

  ghost predicate RightLines<P(!new), V(!new)>(f: P -> V, payloads: map<RowId, P>, lines: Lines<V>)
  {
    forall line <- lines :: line.0 in payloads && line.1 == f(payloads[line.0])
  }

  lemma {:induction false} RightLinesLoad<P(!new), V(!new)>(f: P -> V, payloads: map<RowId, P>, lines: Lines<V>)
    requires RightLines(f, payloads, lines)
    ensures forall id <- Load(lines) :: id in payloads && Load(lines)[id] == f(payloads[id])
    ensures Attached(f, payloads, Load(lines)) == Derived(f, payloads)
    decreases |lines|
  {
    if lines != [] {
      var n := |lines| - 1;
      assert lines[n] in lines;
      RightLinesLoad(f, payloads, lines[..n]);
    }
  }

  lemma RightLinesCount<P(!new), V(!new)>(f: P -> V, payloads: map<RowId, P>, lines: Lines<V>)
    requires RightLines(f, payloads, lines)
    ensures |Ids(lines)| <= |payloads|
    ensures |payloads.Keys - Ids(lines)| == |payloads| - |Ids(lines)|
  {
    assert Ids(lines) <= payloads.Keys;
    assert payloads.Keys == Ids(lines) + (payloads.Keys - Ids(lines));
  }
}
