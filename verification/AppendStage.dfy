// The append stage: source rows whose keys the output already has are skipped, the rest are
// derived and appended batch by batch.

module AppendStage {

  import opened Common

  datatype Key = Key(id: int)

  // An output row carries the key of the source row it was derived from.
  datatype Out = Out(key: Key, content: int)

  // What one source row derives to.
  type Derive = Key -> seq<Out>

  predicate OwnKeys(f: Derive, keys: set<Key>)
  {
    forall k <- keys, row <- f(k) :: row.key == k
  }

  // The output rows of one key, in table order.
  function Of(rows: seq<Out>, k: Key): seq<Out>
  {
    if rows == [] then []
    else (if rows[0].key == k then [rows[0]] else []) + Of(rows[1..], k)
  }

  // The done set: the keys the output has.
  function KeysOf(rows: seq<Out>): set<Key>
  {
    set row <- rows :: row.key
  }

  lemma {:induction false} OfConcat(a: seq<Out>, b: seq<Out>, k: Key)
    ensures Of(a + b, k) == Of(a, k) + Of(b, k)
    decreases |a|
  {
    if a == [] {
      assert a + b == b;
    } else {
      OfConcat(a[1..], b, k);
      assert (a + b)[1..] == a[1..] + b;
    }
  }

  lemma {:induction false} OfAll(rows: seq<Out>, k: Key)
    ensures (forall row <- rows :: row.key == k) ==> Of(rows, k) == rows
    ensures Of(rows, k) == [] <==> k !in KeysOf(rows)
    decreases |rows|
  {
    if rows != [] {
      OfAll(rows[1..], k);
      assert rows == [rows[0]] + rows[1..];
    }
  }

  // The rows derived from a batch of source rows, key by key.
  function Derived(f: Derive, batch: seq<Key>): seq<Out>
  {
    if batch == [] then [] else f(batch[0]) + Derived(f, batch[1..])
  }

  lemma {:induction false} DerivedOf(f: Derive, batch: seq<Key>, k: Key)
    requires OwnKeys(f, set b | b in batch)
    requires forall i, j :: 0 <= i < j < |batch| ==> batch[i] != batch[j]
    ensures Of(Derived(f, batch), k) == if k in batch then f(k) else []
    decreases |batch|
  {
    if batch != [] {
      var b, rest := batch[0], batch[1..];
      assert b in batch;
      DerivedOf(f, rest, k);
      OfConcat(f(b), Derived(f, rest), k);
      OfAll(f(b), k);
    }
  }

  lemma {:induction false} DerivedConcat(f: Derive, a: seq<Key>, b: seq<Key>)
    ensures Derived(f, a + b) == Derived(f, a) + Derived(f, b)
    decreases |a|
  {
    if a == [] {
      assert a + b == b;
    } else {
      assert (a + b)[1..] == a[1..] + b;
      DerivedConcat(f, a[1..], b);
    }
  }

  lemma OneKey(f: Derive, k: Key)
    ensures Derived(f, [k]) == f(k)
  {
    assert [k][1..] == [] && Derived(f, []) == [];
  }

  // Each pending key once, in any order.
  predicate Lists(order: seq<Key>, pending: set<Key>)
  {
    && (forall i :: 0 <= i < |order| ==> order[i] in pending)
    && (forall k <- pending :: k in order)
    && (forall i, j :: 0 <= i < j < |order| ==> order[i] != order[j])
  }

  method ListKeys(pending: set<Key>) returns (order: seq<Key>)
    ensures Lists(order, pending)
  {
    order := [];
    var left := pending;
    while left != {}
      invariant left <= pending && Lists(order, pending - left)
      decreases left
    {
      var k :| k in left;
      order, left := order + [k], left - {k};
    }
    assert pending - left == pending;
  }

  // The position does not divide the rows of a key.
  predicate BetweenKeys(f: Derive, order: seq<Key>, at: nat)
  {
    exists j :: 0 <= j <= |order| && at == |Derived(f, order[..j])|
  }

  lemma EndsBetweenKeys(f: Derive, order: seq<Key>)
    ensures BetweenKeys(f, order, 0) && BetweenKeys(f, order, |Derived(f, order)|)
  {
    assert order[..|order|] == order && order[..0] == [];
    assert Derived(f, order[..0]) == [];
  }

  // n is some number of times m.
  predicate Multiple(n: nat, m: nat)
    requires 0 < m
  {
    n == 0 || (m <= n && Multiple(n - m, m))
  }

  lemma {:induction false} MultipleSum(a: nat, b: nat, m: nat)
    requires 0 < m && Multiple(a, m) && Multiple(b, m)
    ensures Multiple(a + b, m)
    decreases a
  {
    if a != 0 {
      MultipleSum(a - m, b, m);
    }
  }

  lemma {:induction false} MultiplesApart(a: nat, b: nat, m: nat)
    requires 0 < m && Multiple(a, m) && Multiple(b, m) && a < b
    ensures a + m <= b
    decreases a
  {
    if a != 0 {
      MultiplesApart(a - m, b - m, m);
    }
  }

  lemma {:induction false} MultipleOfShare(at: nat, batchRows: nat, share: nat)
    requires 0 < share && 0 < batchRows && Multiple(batchRows, share) && Multiple(at, batchRows)
    ensures Multiple(at, share)
    decreases at
  {
    if at != 0 {
      MultipleOfShare(at - batchRows, batchRows, share);
      MultipleSum(at - batchRows, batchRows, share);
    }
  }

  // The rows of an append: iter_batches cuts the result stream into batches of this size, but the last.
  type BatchRows = n: nat | 0 < n witness 1

  predicate BetweenBatches(f: Derive, order: seq<Key>, at: nat, batchRows: BatchRows)
  {
    at <= |Derived(f, order)| && (Multiple(at, batchRows) || at == |Derived(f, order)|)
  }

  // One run of the stage: the pending keys in the order in which their rows came, and how many of the
  // rows were appended before the end or a kill.
  datatype Attempt = Attempt(order: seq<Key>, at: nat)

  predicate CanRun(f: Derive, source: set<Key>, rows: seq<Out>, batchRows: BatchRows, a: Attempt)
  {
    Lists(a.order, source - KeysOf(rows)) && BetweenBatches(f, a.order, a.at, batchRows)
  }

  function Appended(f: Derive, rows: seq<Out>, a: Attempt): seq<Out>
    requires a.at <= |Derived(f, a.order)|
  {
    rows + Derived(f, a.order)[..a.at]
  }

  // ---- sources whose keys no append divides ----

  ghost predicate FitsOneBatch(f: Derive, source: set<Key>, batchRows: BatchRows)
  {
    forall order :: Lists(order, source) ==> |Derived(f, order)| <= batchRows
  }

  // Each key derives so many rows or none, and a batch holds the rows of so many keys.
  predicate EqualShares(f: Derive, source: set<Key>, batchRows: BatchRows, share: nat)
  {
    0 < share && Multiple(batchRows, share) && forall k <- source :: f(k) == [] || |f(k)| == share
  }

  ghost predicate Undivided(f: Derive, source: set<Key>, batchRows: BatchRows)
  {
    FitsOneBatch(f, source, batchRows) || exists share :: EqualShares(f, source, batchRows, share)
  }

  lemma {:induction false} SharesAreBetween(f: Derive, order: seq<Key>, share: nat, at: nat)
    requires 0 < share && forall k <- order :: f(k) == [] || |f(k)| == share
    ensures Multiple(|Derived(f, order)|, share)
    ensures Multiple(at, share) && at <= |Derived(f, order)| ==> BetweenKeys(f, order, at)
    decreases |order|
  {
    EndsBetweenKeys(f, order);
    if order != [] {
      var n := |order| - 1;
      assert order == order[..n] + [order[n]];
      DerivedConcat(f, order[..n], [order[n]]);
      OneKey(f, order[n]);
      SharesAreBetween(f, order[..n], share, at);
      var front := |Derived(f, order[..n])|;
      hide Derived;
      if Multiple(at, share) && front < at <= |Derived(f, order)| {
        MultiplesApart(front, at, share);
      } else if BetweenKeys(f, order[..n], at) {
        BetweenFrontKeys(f, order, at);
      }
    }
  }

  lemma BetweenFrontKeys(f: Derive, order: seq<Key>, at: nat)
    requires order != [] && BetweenKeys(f, order[..|order| - 1], at)
    ensures BetweenKeys(f, order, at)
  {
    var n := |order| - 1;
    var j :| 0 <= j <= n && at == |Derived(f, order[..n][..j])|;
    assert order[..n][..j] == order[..j];
  }

  lemma {:induction false} SomeOrder(pending: set<Key>) returns (order: seq<Key>)
    ensures Lists(order, pending)
    decreases pending
  {
    if pending == {} {
      order := [];
    } else {
      var k :| k in pending;
      var rest := SomeOrder(pending - {k});
      order := [k] + rest;
    }
  }

  // Then no append ends inside the rows of a key, whatever is still pending.
  lemma UndividedIsBetween(f: Derive, source: set<Key>, batchRows: BatchRows, pending: set<Key>, order: seq<Key>,
                           at: nat)
    requires Undivided(f, source, batchRows) && pending <= source && Lists(order, pending)
    requires BetweenBatches(f, order, at, batchRows)
    ensures BetweenKeys(f, order, at)
  {
    hide Derived, BetweenKeys;
    EndsBetweenKeys(f, order);
    if share :| EqualShares(f, source, batchRows, share) {
      if Multiple(at, batchRows) {
        MultipleOfShare(at, batchRows, share);
      }
      SharesAreBetween(f, order, share, at);
    } else {
      var rest := SomeOrder(source - pending);
      assert Lists(order + rest, source);
      DerivedConcat(f, order, rest);
      assert |Derived(f, order)| <= batchRows;
    }
  }

  // ---- the stage ----

  // The rows appended after so many appends, of a result stream of this length.
  function RowsAfter(appends: nat, batchRows: BatchRows, length: nat): nat
  {
    if appends == 0 then 0
    else
      var so := RowsAfter(appends - 1, batchRows, length);
      if so + batchRows < length then so + batchRows else length
  }

  class Output {
    var rows: seq<Out>

    constructor ()
      ensures rows == []
    {
      rows := [];
    }

    // run_append_rows_stage over the admitted source keys, each of them once. The result stream is cut
    // into batches anew before it is appended, so a cut can fall inside the rows of one key. A run is
    // killed after so many appends, or not at all.
    method RunStage(f: Derive, source: set<Key>, batchRows: BatchRows, killAfter: Option<nat>) returns (killed: bool)
      requires OwnKeys(f, source)
      modifies this
      ensures killed <==> killAfter.Some?
      ensures exists a: Attempt ::
                && CanRun(f, source, old(rows), batchRows, a) && rows == Appended(f, old(rows), a)
                && var length := |Derived(f, a.order)|;
                   a.at == if killed then RowsAfter(killAfter.value, batchRows, length) else length
      ensures old(rows) <= rows
      ensures forall k: Key :: Of(rows, k) == Of(old(rows), k) || Begun(f, source, old(rows), rows, k)
      ensures Undivided(f, source, batchRows) ==> forall k: Key ::
        Of(rows, k) == Of(old(rows), k) || (Begun(f, source, old(rows), rows, k) && Of(rows, k) == f(k))
      ensures !killed ==> RanToTheEnd(f, source, old(rows), rows)
    {
      hide OwnKeys, KeysOf, Lists, Of, Begun, RanToTheEnd, BetweenKeys, Derived, Undivided;
      killed := killAfter.Some?;
      ghost var before, whole := rows, Undivided(f, source, batchRows);
      var pending := source - KeysOf(rows);
      var order := ListKeys(pending);
      var stream := Derived(f, order);
      var at, appends := 0, 0;
      while at < |stream| && !(killed && appends == killAfter.value)
        invariant BetweenBatches(f, order, at, batchRows) && rows == before + stream[..at]
        invariant at == RowsAfter(appends, batchRows, |stream|) && (killed ==> appends <= killAfter.value)
        decreases |stream| - at
      {
        var cut := if at + batchRows < |stream| then at + batchRows else |stream|;
        rows := rows + stream[at..cut];
        assert stream[..at] + stream[at..cut] == stream[..cut];
        at, appends := cut, appends + 1;
      }
      if killed {
        NothingMore(appends, killAfter.value, batchRows, |stream|);
      }
      ghost var a := Attempt(order, at);
      assert rows == Appended(f, before, a) && CanRun(f, source, before, batchRows, a);
      if whole {
        UndividedIsBetween(f, source, batchRows, pending, order, at);
      }
      forall k: Key
        ensures Of(rows, k) == Of(before, k) || Begun(f, source, before, rows, k)
        ensures whole ==> Of(rows, k) == Of(before, k) || (Begun(f, source, before, rows, k) && Of(rows, k) == f(k))
      {
        WhatIsAppended(f, source, before, order, at, whole, k);
      }
      if !killed {
        assert stream[..at] == stream;
        AllAppended(f, source, before, order);
      }
    }
  }

  // Once all is appended, there is no more to append.
  lemma {:induction false} NothingMore(appends: nat, more: nat, batchRows: BatchRows, length: nat)
    requires appends <= more && (appends == more || RowsAfter(appends, batchRows, length) >= length)
    ensures RowsAfter(more, batchRows, length)
            == if appends == more then RowsAfter(appends, batchRows, length) else length
    decreases more
  {
    if appends < more {
      NothingMore(appends, more - 1, batchRows, length);
    }
  }

  // A key that had no rows and now has the first of its own.
  predicate Begun(f: Derive, source: set<Key>, before: seq<Out>, after: seq<Out>, k: Key)
  {
    k in source && Of(before, k) == [] && Of(after, k) <= f(k)
  }

  lemma WhatIsAppended(f: Derive, source: set<Key>, before: seq<Out>, order: seq<Key>, at: nat, keysWhole: bool, k: Key)
    requires OwnKeys(f, source) && Lists(order, source - KeysOf(before)) && at <= |Derived(f, order)|
    requires keysWhole ==> BetweenKeys(f, order, at)
    ensures var rows := before + Derived(f, order)[..at];
      && (Of(rows, k) == Of(before, k) || Begun(f, source, before, rows, k))
      && (keysWhole ==> Of(rows, k) == Of(before, k) || (Begun(f, source, before, rows, k) && Of(rows, k) == f(k)))
  {
    hide Of, Derived, OwnKeys, Lists, BetweenKeys, KeysOf;
    var stream := Derived(f, order);
    WhichAreListed(f, source, before, order, k);
    OfConcat(before, stream[..at], k);
    OfConcat(stream[..at], stream[at..], k);
    assert stream[..at] + stream[at..] == stream;
    if keysWhole {
      WholeCut(f, source - KeysOf(before), order, at, k);
    }
  }

  lemma WhichAreListed(f: Derive, source: set<Key>, before: seq<Out>, order: seq<Key>, k: Key)
    requires OwnKeys(f, source) && Lists(order, source - KeysOf(before))
    ensures OwnKeys(f, source - KeysOf(before))
    ensures Of(Derived(f, order), k) == if k in source && Of(before, k) == [] then f(k) else []
  {
    hide Of, Derived;
    OfAll(before, k);
    DerivedOf(f, order, k);
  }

  lemma WholeCut(f: Derive, pending: set<Key>, order: seq<Key>, at: nat, k: Key)
    requires OwnKeys(f, pending) && Lists(order, pending) && BetweenKeys(f, order, at) && at <= |Derived(f, order)|
    ensures Of(Derived(f, order)[..at], k) == [] || Of(Derived(f, order)[..at], k) == f(k)
  {
    hide Of, Derived;
    var j :| 0 <= j <= |order| && at == |Derived(f, order[..j])|;
    DerivedConcat(f, order[..j], order[j..]);
    assert order[..j] + order[j..] == order;
    assert Derived(f, order)[..at] == Derived(f, order[..j]);
    DerivedOf(f, order[..j], k);
  }

  lemma AllAppended(f: Derive, source: set<Key>, before: seq<Out>, order: seq<Key>)
    requires OwnKeys(f, source) && Lists(order, source - KeysOf(before))
    ensures RanToTheEnd(f, source, before, before + Derived(f, order))
  {
    forall k: Key
      ensures Of(before + Derived(f, order), k) == if k in source && Of(before, k) == [] then f(k) else Of(before, k)
    {
      OfAll(before, k);
      OfConcat(before, Derived(f, order), k);
      DerivedOf(f, order, k);
    }
  }

  // ---- re-runs ----

  // The output holds each key's derived rows once and in order, or none of them.
  ghost predicate Whole(f: Derive, source: set<Key>, rows: seq<Out>)
  {
    forall k: Key :: Of(rows, k) == [] || (k in source && Of(rows, k) == f(k))
  }

  ghost predicate Complete(f: Derive, source: set<Key>, rows: seq<Out>)
  {
    forall k: Key :: Of(rows, k) == if k in source then f(k) else []
  }

  // The outcome of a run that was not killed.
  ghost predicate RanToTheEnd(f: Derive, source: set<Key>, before: seq<Out>, after: seq<Out>)
  {
    forall k: Key :: Of(after, k) == if k in source && Of(before, k) == [] then f(k) else Of(before, k)
  }

  // A run converges to every derived row exactly once if and only if it did not start from a key
  // with part of its rows: the key diff would take that key for done.
  lemma ConvergesIff(f: Derive, source: set<Key>, before: seq<Out>, after: seq<Out>)
    requires RanToTheEnd(f, source, before, after)
    ensures Complete(f, source, after) <==> Whole(f, source, before)
  {
    if Complete(f, source, after) {
      forall k: Key ensures Of(before, k) == [] || (k in source && Of(before, k) == f(k)) {
        assert Of(after, k) == if k in source then f(k) else [];
      }
    }
  }

  // Running again changes nothing.
  lemma RerunAddsNothing(f: Derive, source: set<Key>, before: seq<Out>, after: seq<Out>, again: seq<Out>)
    requires RanToTheEnd(f, source, before, after) && RanToTheEnd(f, source, after, again) && after <= again
    ensures again == after
  {
    var extra := again[|after|..];
    assert again == after + extra;
    if extra != [] {
      var row := extra[0];
      assert row in extra;
      OfAll(extra, row.key);
      OfConcat(after, extra, row.key);
    }
  }

  // However often the stage is killed, the first run that is not killed leaves each row exactly once,
  // when no append divides the rows of a key.
  method RunToTheEnd(f: Derive, source: set<Key>, batchRows: BatchRows, kills: seq<Option<nat>>)
    returns (out: Output, finished: bool)
    requires OwnKeys(f, source) && Undivided(f, source, batchRows)
    ensures fresh(out) && Whole(f, source, out.rows)
    ensures finished <==> None in kills
    ensures finished ==> Complete(f, source, out.rows)
  {
    hide Undivided;
    out := new Output();
    finished := false;
    for i := 0 to |kills|
      invariant Whole(f, source, out.rows) && None !in kills[..i]
    {
      ghost var before := out.rows;
      var killed := out.RunStage(f, source, batchRows, kills[i]);
      if !killed {
        finished := true;
        ConvergesIff(f, source, before, out.rows);
        return;
      }
    }
  }

  // A key that once has part of its rows keeps that part: whatever runs follow, killed or not, and
  // however their appends are cut.
  method PartStays(out: Output, f: Derive, source: set<Key>, batchRows: BatchRows, kills: seq<Option<nat>>, k: Key)
    requires OwnKeys(f, source) && Of(out.rows, k) != []
    modifies out
    ensures Of(out.rows, k) == old(Of(out.rows, k))
  {
    for i := 0 to |kills|
      invariant Of(out.rows, k) == old(Of(out.rows, k))
    {
      var killed := out.RunStage(f, source, batchRows, kills[i]);
    }
  }

  // ---- over all runs ----

  // The output after these runs from nothing, or None when one of them is none of the stage's.
  function Outcome(f: Derive, source: set<Key>, batchRows: BatchRows, runs: seq<Attempt>): Option<seq<Out>>
    decreases |runs|
  {
    if runs == [] then Some([])
    else
      var n := |runs| - 1;
      var before := Outcome(f, source, batchRows, runs[..n]);
      if before.None? || !CanRun(f, source, before.value, batchRows, runs[n]) then None
      else Some(Appended(f, before.value, runs[n]))
  }

  ghost predicate CanEndComplete(f: Derive, source: set<Key>, batchRows: BatchRows, runs: seq<Attempt>)
  {
    exists more ::
      var end := Outcome(f, source, batchRows, runs + more);
      end.Some? && Complete(f, source, end.value)
  }

  // No run stopped inside the rows of a key.
  predicate KeysStayWhole(f: Derive, runs: seq<Attempt>)
  {
    forall a <- runs :: BetweenKeys(f, a.order, a.at)
  }

  lemma {:induction false} CutInsideAKey(f: Derive, order: seq<Key>, at: nat) returns (k: Key)
    requires OwnKeys(f, set j | j in order) && (forall i, j :: 0 <= i < j < |order| ==> order[i] != order[j])
    requires at <= |Derived(f, order)| && !BetweenKeys(f, order, at)
    ensures k in order && Of(Derived(f, order)[..at], k) != [] && Of(Derived(f, order)[..at], k) != f(k)
    decreases |order|
  {
    EndsBetweenKeys(f, order);
    var first, rest := order[0], order[1..];
    var n := |f(first)|;
    var rows := Derived(f, order)[..at];
    if at < n {
      k := first;
      assert rows == f(first)[..at];
      assert forall row <- rows :: row in f(first);
      OfAll(rows, k);
    } else {
      BetweenLaterKeys(f, order, at - n);
      k := CutInsideAKey(f, rest, at - n);
      assert rows == f(first) + Derived(f, rest)[..at - n];
      OfConcat(f(first), Derived(f, rest)[..at - n], k);
      NoneOf(f, first, k);
    }
  }

  lemma BetweenLaterKeys(f: Derive, order: seq<Key>, at: nat)
    requires order != []
    ensures BetweenKeys(f, order[1..], at) ==> BetweenKeys(f, order, |f(order[0])| + at)
  {
    var rest := order[1..];
    if j :| 0 <= j <= |rest| && at == |Derived(f, rest[..j])| {
      assert order[..j + 1][1..] == rest[..j];
      assert |Derived(f, order[..j + 1])| == |f(order[0])| + at;
    }
  }

  lemma NoneOf(f: Derive, first: Key, k: Key)
    requires OwnKeys(f, {first}) && k != first
    ensures Of(f(first), k) == []
  {
    OfAll(f(first), k);
  }

  // A run keeps every key whole exactly when they were whole before it and it stopped between keys.
  lemma RunKeepsWholeIff(f: Derive, source: set<Key>, batchRows: BatchRows, before: seq<Out>, a: Attempt)
    requires OwnKeys(f, source) && CanRun(f, source, before, batchRows, a)
    ensures Whole(f, source, Appended(f, before, a)) <==>
      Whole(f, source, before) && BetweenKeys(f, a.order, a.at)
  {
    hide Of, Derived, OwnKeys, BetweenKeys, Lists;
    var after, keysWhole := Appended(f, before, a), BetweenKeys(f, a.order, a.at);
    forall k: Key ensures Of(after, k) == Of(before, k) || Begun(f, source, before, after, k) {
      WhatIsAppended(f, source, before, a.order, a.at, keysWhole, k);
    }
    if keysWhole {
      forall k: Key ensures Of(after, k) == Of(before, k) || Of(after, k) == f(k) {
        WhatIsAppended(f, source, before, a.order, a.at, keysWhole, k);
      }
    } else {
      var k := PartLeft(f, source, batchRows, before, a);
    }
  }

  lemma PartLeft(f: Derive, source: set<Key>, batchRows: BatchRows, before: seq<Out>, a: Attempt) returns (k: Key)
    requires OwnKeys(f, source) && CanRun(f, source, before, batchRows, a) && !BetweenKeys(f, a.order, a.at)
    ensures Of(Appended(f, before, a), k) != [] && Of(Appended(f, before, a), k) != f(k)
  {
    k := CutInsideAKey(f, a.order, a.at);
    hide Of, Derived, OwnKeys;
    OfAll(before, k);
    OfConcat(before, Derived(f, a.order)[..a.at], k);
  }

  lemma {:induction false} OutcomeIsWholeIff(f: Derive, source: set<Key>, batchRows: BatchRows, runs: seq<Attempt>)
    requires OwnKeys(f, source) && Outcome(f, source, batchRows, runs).Some?
    ensures Whole(f, source, Outcome(f, source, batchRows, runs).value) <==> KeysStayWhole(f, runs)
    decreases |runs|
  {
    hide OwnKeys, Whole, CanRun, BetweenKeys;
    if runs == [] {
      assert Whole(f, source, []) by { OfNothing(f, source); }
    } else {
      var n := |runs| - 1;
      OutcomeIsWholeIff(f, source, batchRows, runs[..n]);
      RunKeepsWholeIff(f, source, batchRows, Outcome(f, source, batchRows, runs[..n]).value, runs[n]);
      assert runs == runs[..n] + [runs[n]];
    }
  }

  lemma OfNothing(f: Derive, source: set<Key>)
    ensures Whole(f, source, [])
  {
  }

  // From whole keys one run that is not killed completes the output.
  lemma FinishingRun(f: Derive, source: set<Key>, batchRows: BatchRows, rows: seq<Out>) returns (a: Attempt)
    requires OwnKeys(f, source) && Whole(f, source, rows)
    ensures CanRun(f, source, rows, batchRows, a) && Complete(f, source, Appended(f, rows, a))
  {
    var order := SomeOrder(source - KeysOf(rows));
    a := Attempt(order, |Derived(f, order)|);
    hide Whole, Complete, RanToTheEnd, Derived, OwnKeys, Lists;
    assert Derived(f, order)[..a.at] == Derived(f, order);
    AllAppended(f, source, rows, order);
    ConvergesIff(f, source, rows, Appended(f, rows, a));
  }

  lemma {:induction false} FirstRuns(f: Derive, source: set<Key>, batchRows: BatchRows, runs: seq<Attempt>,
                                     more: seq<Attempt>)
    requires Outcome(f, source, batchRows, runs + more).Some?
    ensures Outcome(f, source, batchRows, runs).Some?
    decreases |more|
  {
    if more == [] {
      assert runs + more == runs;
    } else {
      var n := |more| - 1;
      assert (runs + more)[..|runs| + n] == runs + more[..n];
      FirstRuns(f, source, batchRows, runs, more[..n]);
    }
  }

  // After any runs of the stage from nothing, killed wherever, some further runs complete the output
  // exactly when none of them stopped inside the rows of a key.
  lemma CanEndCompleteIff(f: Derive, source: set<Key>, batchRows: BatchRows, runs: seq<Attempt>)
    requires OwnKeys(f, source) && Outcome(f, source, batchRows, runs).Some?
    ensures CanEndComplete(f, source, batchRows, runs) <==> KeysStayWhole(f, runs)
  {
    hide OwnKeys, CanRun, BetweenKeys, Of;
    if CanEndComplete(f, source, batchRows, runs) {
      var more :| Outcome(f, source, batchRows, runs + more).Some?
                  && Complete(f, source, Outcome(f, source, batchRows, runs + more).value);
      OutcomeIsWholeIff(f, source, batchRows, runs + more);
      assert forall a <- runs :: a in runs + more;
    }
    if KeysStayWhole(f, runs) {
      OutcomeIsWholeIff(f, source, batchRows, runs);
      var a := FinishingRun(f, source, batchRows, Outcome(f, source, batchRows, runs).value);
      assert (runs + [a])[..|runs|] == runs;
      assert Outcome(f, source, batchRows, runs + [a]).Some?;
    }
  }

  // A run over the source that stops at a batch's end, inside the rows of a key.
  lemma DividingRun(f: Derive, source: set<Key>, batchRows: BatchRows, a: Attempt)
    requires OwnKeys(f, source) && Lists(a.order, source)
    requires BetweenBatches(f, a.order, a.at, batchRows) && !BetweenKeys(f, a.order, a.at)
    ensures CanRun(f, source, [], batchRows, a) && !CanEndComplete(f, source, batchRows, [a])
  {
    assert KeysOf([]) == {} && source - {} == source;
    assert [a][..0] == [];
    assert Outcome(f, source, batchRows, []) == Some([]);
    hide OwnKeys, BetweenBatches, BetweenKeys, Of;
    CanEndCompleteIff(f, source, batchRows, [a]);
  }

  lemma FirstKeys(f: Derive, order: seq<Key>, i: nat, j: nat)
    requires i <= j <= |order|
    ensures |Derived(f, order[..i])| <= |Derived(f, order[..j])|
  {
    DerivedConcat(f, order[..i], order[i..j]);
    assert order[..i] + order[i..j] == order[..j];
  }

  // A key with more rows than a batch: the run killed after its first batch.
  lemma KilledInsideAKey(f: Derive, source: set<Key>, batchRows: BatchRows, k: Key) returns (a: Attempt)
    requires OwnKeys(f, source) && k in source && |f(k)| > batchRows
    ensures CanRun(f, source, [], batchRows, a) && Appended(f, [], a) == f(k)[..batchRows]
    ensures !CanEndComplete(f, source, batchRows, [a])
  {
    var rest := SomeOrder(source - {k});
    var order := [k] + rest;
    a := Attempt(order, batchRows);
    assert order[1..] == rest && Derived(f, order) == f(k) + Derived(f, rest);
    assert Multiple(batchRows - batchRows, batchRows);
    forall j | 0 <= j <= |order| ensures |Derived(f, order[..j])| != batchRows {
      if j > 0 {
        assert order[..j][0] == k;
      }
    }
    hide OwnKeys, Derived;
    DividingRun(f, source, batchRows, a);
  }

  lemma {:induction false} SomeRows(f: Derive, order: seq<Key>) returns (k: Key)
    requires Derived(f, order) != []
    ensures k in order && f(k) != []
    decreases |order|
  {
    if f(order[0]) != [] {
      k := order[0];
    } else {
      k := SomeRows(f, order[1..]);
    }
  }

  // Two keys of different sizes, one before the end of the first batch and one after it.
  lemma UnevenKeys(f: Derive, source: set<Key>, batchRows: BatchRows, early: seq<Key>, late: seq<Key>)
    returns (x: Key, y: Key)
    requires !Undivided(f, source, batchRows) && forall k <- source :: k in early || k in late
    requires |Derived(f, early)| == batchRows && Derived(f, late) != []
    ensures x in early && y in late && f(x) != [] && f(y) != [] && |f(x)| != |f(y)|
  {
    hide Derived;
    x := SomeRows(f, early);
    y := SomeRows(f, late);
    var share := |f(x)|;
    if k :| k in late && f(k) != [] && |f(k)| != share {
      y := k;
    } else if k :| k in early && f(k) != [] && |f(k)| != share {
      x := k;
    } else {
      EvenKeys(f, source, batchRows, early, late, share);
    }
  }

  lemma EvenKeys(f: Derive, source: set<Key>, batchRows: BatchRows, early: seq<Key>, late: seq<Key>, share: nat)
    requires (forall k <- source :: k in early || k in late) && |Derived(f, early)| == batchRows && 0 < share
    requires forall k :: k in early || k in late ==> f(k) == [] || |f(k)| == share
    ensures Undivided(f, source, batchRows)
  {
    hide Derived;
    SharesAreBetween(f, early, share, 0);
    assert EqualShares(f, source, batchRows, share);
  }

  lemma {:induction false} ListsIff(order: seq<Key>, pending: set<Key>)
    ensures Lists(order, pending) <==> multiset(order) == multiset(pending)
  {
    if Lists(order, pending) {
      OnceEach(order);
      forall k ensures multiset(order)[k] == multiset(pending)[k] {
        assert k in order <==> k in multiset(order);
      }
    }
    if multiset(order) == multiset(pending) {
      forall k ensures k in order <==> k in pending {
        assert k in order <==> k in multiset(order);
        assert k in pending <==> k in multiset(pending);
      }
      forall i, j | 0 <= i < j < |order| ensures order[i] != order[j] {
        assert order == order[..j] + [order[j]] + order[j + 1..];
        assert order[i] in order[..j];
        assert multiset(order)[order[j]] <= 1;
      }
    }
  }

  lemma {:induction false} OnceEach(order: seq<Key>)
    requires forall i, j :: 0 <= i < j < |order| ==> order[i] != order[j]
    ensures forall k :: multiset(order)[k] <= 1
    decreases |order|
  {
    if order != [] {
      var n := |order| - 1;
      assert order == order[..n] + [order[n]];
      OnceEach(order[..n]);
      assert order[n] !in order[..n];
    }
  }

  lemma SplitAt(order: seq<Key>, k: Key) returns (before: seq<Key>, after: seq<Key>)
    requires k in order
    ensures order == before + [k] + after
  {
    var i: nat :| i < |order| && order[i] == k;
    before, after := order[..i], order[i + 1..];
  }

  // The two keys exchanged across the end of the batch: it now divides the rows of one of them.
  lemma Exchanged(f: Derive, front: seq<Key>, x: Key, y: Key, back: seq<Key>, batchRows: BatchRows)
    requires |Derived(f, front)| + |f(x)| == batchRows && f(x) != [] && f(y) != [] && |f(x)| != |f(y)|
    ensures var order := front + [y] + ([x] + back);
      batchRows <= |Derived(f, order)| && !BetweenKeys(f, order, batchRows)
  {
    var order, n := front + [y] + ([x] + back), |front|;
    OneKey(f, x);
    OneKey(f, y);
    hide Derived;
    DerivedConcat(f, front, [y]);
    DerivedConcat(f, front + [y], [x]);
    assert order[..n] == front && order[..n + 1] == front + [y] && order[..n + 2] == front + [y] + [x];
    assert order[..|order|] == order;
    FirstKeys(f, order, n + 2, |order|);
    forall j | 0 <= j <= |order| ensures |Derived(f, order[..j])| != batchRows {
      if j <= n {
        FirstKeys(f, order, j, n);
      } else if j > n + 1 {
        FirstKeys(f, order, n + 2, j);
      }
    }
  }

  // When the source is not undivided, some order of it has a key across the end of the first batch.
  lemma SomeKeyIsDivided(f: Derive, source: set<Key>, batchRows: BatchRows) returns (order: seq<Key>)
    requires !Undivided(f, source, batchRows)
    ensures Lists(order, source) && batchRows <= |Derived(f, order)| && !BetweenKeys(f, order, batchRows)
  {
    order :| Lists(order, source) && |Derived(f, order)| > batchRows;
    if BetweenKeys(f, order, batchRows) {
      var j :| 0 <= j <= |order| && batchRows == |Derived(f, order[..j])|;
      hide Derived, BetweenKeys;
      var early, late := order[..j], order[j..];
      assert order == early + late;
      DerivedConcat(f, early, late);
      var x, y := UnevenKeys(f, source, batchRows, early, late);
      var a, b := SplitAt(early, x);
      var c, d := SplitAt(late, y);
      FrontRows(f, a, x, b);
      Exchanged(f, a + b, x, y, c + d, batchRows);
      ListsIff(order, source);
      order := (a + b) + [y] + ([x] + (c + d));
      ListsIff(order, source);
    }
  }

  lemma FrontRows(f: Derive, a: seq<Key>, x: Key, b: seq<Key>)
    ensures |Derived(f, a + [x] + b)| == |Derived(f, a + b)| + |f(x)|
  {
    OneKey(f, x);
    hide Derived;
    DerivedConcat(f, a, [x]);
    DerivedConcat(f, a + [x], b);
    DerivedConcat(f, a, b);
  }

  ghost predicate NeverStuck(f: Derive, source: set<Key>, batchRows: BatchRows)
  {
    forall runs :: Outcome(f, source, batchRows, runs).Some? ==> CanEndComplete(f, source, batchRows, runs)
  }

  // However the runs are killed, the stage can still converge, exactly when the whole source fits one
  // batch or its keys have equal shares of the batches.
  lemma NeverStuckIff(f: Derive, source: set<Key>, batchRows: BatchRows)
    requires OwnKeys(f, source)
    ensures NeverStuck(f, source, batchRows) <==> Undivided(f, source, batchRows)
  {
    hide OwnKeys, Outcome, CanEndComplete, BetweenKeys, Undivided, BetweenBatches, Derived;
    if Undivided(f, source, batchRows) {
      forall runs: seq<Attempt> | Outcome(f, source, batchRows, runs).Some?
        ensures CanEndComplete(f, source, batchRows, runs)
      {
        RunsStopBetween(f, source, batchRows, runs);
        CanEndCompleteIff(f, source, batchRows, runs);
      }
    } else {
      var order := SomeKeyIsDivided(f, source, batchRows);
      var a := Attempt(order, batchRows);
      FirstBatch(f, order, batchRows);
      DividingRun(f, source, batchRows, a);
      OneRun(f, source, batchRows, a);
    }
  }

  lemma FirstBatch(f: Derive, order: seq<Key>, batchRows: BatchRows)
    requires batchRows <= |Derived(f, order)|
    ensures BetweenBatches(f, order, batchRows, batchRows)
  {
    assert Multiple(batchRows - batchRows, batchRows);
  }

  lemma {:induction false} RunsStopBetween(f: Derive, source: set<Key>, batchRows: BatchRows, runs: seq<Attempt>)
    requires Undivided(f, source, batchRows) && Outcome(f, source, batchRows, runs).Some?
    ensures KeysStayWhole(f, runs)
    decreases |runs|
  {
    hide Undivided, BetweenKeys, BetweenBatches, Lists;
    if runs != [] {
      var n := |runs| - 1;
      RunsStopBetween(f, source, batchRows, runs[..n]);
      var before := Outcome(f, source, batchRows, runs[..n]).value;
      UndividedIsBetween(f, source, batchRows, source - KeysOf(before), runs[n].order, runs[n].at);
      assert runs == runs[..n] + [runs[n]];
    }
  }

  lemma OneRun(f: Derive, source: set<Key>, batchRows: BatchRows, a: Attempt)
    requires CanRun(f, source, [], batchRows, a)
    ensures Outcome(f, source, batchRows, [a]).Some?
  {
    assert [a][..0] == [];
  }
}
