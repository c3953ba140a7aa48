// Relationship tuples on a remote store: writes are transactions, replies get lost, other clients
// are at work.

module TupleStore {

  datatype Name = Name(id: int)

  datatype Tuple = Tuple(user: Name, relation: Name, target: Name)

  // How one request ends. Duplicate and Missing are the store's 400 answers; Invalid is any other
  // permanent answer; Transient covers lost requests and lost replies alike.
  datatype Reply = Done | Duplicate | Missing | Invalid | Transient

  const MAX_REVOKE_PAGES: nat := 100

  function Elems(ts: seq<Tuple>): set<Tuple>
  {
    set t | t in ts
  }

  predicate Repeats(ts: seq<Tuple>)
  {
    exists i, j :: 0 <= i < j < |ts| && ts[i] == ts[j]
  }

  // A batch repeats a tuple exactly when it has fewer tuples than entries.
  lemma {:induction false} RepeatsIff(ts: seq<Tuple>)
    ensures Repeats(ts) <==> |Elems(ts)| < |ts|
    ensures |Elems(ts)| <= |ts|
    decreases |ts|
  {
    if ts != [] {
      var n := |ts| - 1;
      var rest := ts[..n];
      RepeatsIff(rest);
      assert ts == rest + [ts[n]];
      assert Elems(ts) == Elems(rest) + {ts[n]};
      if ts[n] in rest {
        var i :| 0 <= i < n && rest[i] == ts[n];
        assert ts[i] == ts[n];
      }
      assert Repeats(rest) ==> Repeats(ts) by {
        if i, j :| 0 <= i < j < |rest| && rest[i] == rest[j] {
          assert ts[i] == ts[j];
        }
      }
      if !Repeats(rest) && ts[n] !in rest {
        assert forall i, j :: 0 <= i < j < |ts| ==> ts[i] != ts[j] by {
          forall i, j | 0 <= i < j < |ts| ensures ts[i] != ts[j] {
            assert ts[i] == rest[i] && (j < n ==> ts[j] == rest[j]);
          }
        }
      }
    }
  }

  function Flat(pages: seq<seq<Tuple>>): seq<Tuple>
  {
    if pages == [] then [] else Flat(pages[..|pages| - 1]) + pages[|pages| - 1]
  }

  lemma {:induction false} FlatSplit(xs: seq<seq<Tuple>>, ys: seq<seq<Tuple>>)
    ensures Flat(xs + ys) == Flat(xs) + Flat(ys)
    decreases |ys|
  {
    if ys == [] {
      assert xs + ys == xs;
    } else {
      var n := |ys| - 1;
      assert (xs + ys)[..|xs| + n] == xs + ys[..n];
      FlatSplit(xs, ys[..n]);
    }
  }

  // The first pages read, and the pages past the ceiling.
  function Read(pages: seq<seq<Tuple>>): seq<Tuple>
  {
    Flat(if |pages| <= MAX_REVOKE_PAGES then pages else pages[..MAX_REVOKE_PAGES])
  }

  function Unread(pages: seq<seq<Tuple>>): seq<Tuple>
  {
    if |pages| <= MAX_REVOKE_PAGES then [] else Flat(pages[MAX_REVOKE_PAGES..])
  }

  lemma ReadPlusUnread(pages: seq<seq<Tuple>>)
    ensures Read(pages) + Unread(pages) == Flat(pages)
  {
    if |pages| > MAX_REVOKE_PAGES {
      FlatSplit(pages[..MAX_REVOKE_PAGES], pages[MAX_REVOKE_PAGES..]);
      assert pages[..MAX_REVOKE_PAGES] + pages[MAX_REVOKE_PAGES..] == pages;
    }
  }

  // The pages of a listing: none empty, and no tuple on two of them.
  predicate Proper(pages: seq<seq<Tuple>>)
  {
    && (forall i :: 0 <= i < |pages| ==> pages[i] != [])
    && (forall i, j, t :: 0 <= i < j < |pages| && t in pages[i] ==> t !in pages[j])
  }

  lemma {:induction false} OnSomePage(pages: seq<seq<Tuple>>, t: Tuple)
    ensures t in Flat(pages) <==> exists i :: 0 <= i < |pages| && t in pages[i]
    decreases |pages|
  {
    if pages != [] {
      var n := |pages| - 1;
      OnSomePage(pages[..n], t);
      if i :| 0 <= i < |pages| && t in pages[i] {
        assert i < n ==> t in pages[..n][i];
      }
      if i :| 0 <= i < n && t in pages[..n][i] {
        assert t in pages[i];
      }
    }
  }

  // Every tuple is read exactly when there are no more pages than the ceiling.
  lemma ReadsAllIff(pages: seq<seq<Tuple>>)
    requires Proper(pages)
    ensures Elems(Read(pages)) == Elems(Flat(pages)) <==> |pages| <= 100
  {
    hide Flat;
    if |pages| > MAX_REVOKE_PAGES {
      var early, t := pages[..MAX_REVOKE_PAGES], pages[MAX_REVOKE_PAGES][0];
      assert t in pages[MAX_REVOKE_PAGES];
      OnSomePage(pages, t);
      OnSomePage(early, t);
      forall i | 0 <= i < |early| ensures t !in early[i] {
        assert early[i] == pages[i];
      }
      assert t in Elems(Flat(pages)) && t !in Elems(Read(pages));
    }
  }

  // A listing of one page too many, one tuple to a page.
  function LongListing(relation: Name, target: Name): seq<seq<Tuple>>
  {
    seq(MAX_REVOKE_PAGES + 1, i requires 0 <= i <= MAX_REVOKE_PAGES => [Tuple(Name(i), relation, target)])
  }

  lemma LongListingIsCutShort(relation: Name, target: Name)
    ensures Proper(LongListing(relation, target))
    ensures forall t :: t in Flat(LongListing(relation, target)) ==> t.target == target
    ensures Elems(Read(LongListing(relation, target))) < Elems(Flat(LongListing(relation, target)))
  {
    hide Flat;
    var pages := LongListing(relation, target);
    assert forall i :: 0 <= i < |pages| ==> pages[i] == [Tuple(Name(i), relation, target)];
    ReadsAllIff(pages);
    ReadPlusUnread(pages);
    assert Elems(Read(pages) + Unread(pages)) == Elems(Read(pages)) + Elems(Unread(pages));
    forall t | t in Flat(pages) ensures t.target == target {
      OnSomePage(pages, t);
    }
  }

  // ---- other clients ----

  // What other clients do to the store between two requests of ours.
  datatype Change = Change(removed: set<Tuple>, added: set<Tuple>)

  // Before which request of ours they do what: fixed before we begin, and no request of ours alters it.
  type Others = nat -> Change

  function Next(c: Change, tuples: set<Tuple>): set<Tuple>
  {
    tuples - c.removed + c.added
  }

  // What others alone make of the tuples, from one request to another.
  function Drift(others: Others, tuples: set<Tuple>, from: nat, until: nat): set<Tuple>
    requires from <= until
    decreases until
  {
    if from == until then tuples else Next(others(until - 1), Drift(others, tuples, from, until - 1))
  }

  ghost predicate Removed(others: Others, t: Tuple, from: nat, until: nat)
  {
    exists i: nat :: from <= i < until && t in others(i).removed
  }

  ghost predicate Added(others: Others, t: Tuple, from: nat, until: nat)
  {
    exists i: nat :: from <= i < until && t in others(i).added
  }

  ghost predicate Alone(others: Others)
  {
    forall i :: others(i) == Change({}, {})
  }

  lemma {:induction false} AloneNothingDrifts(others: Others, tuples: set<Tuple>, from: nat, until: nat)
    requires Alone(others) && from <= until
    ensures Drift(others, tuples, from, until) == tuples
    ensures forall t :: !Removed(others, t, from, until) && !Added(others, t, from, until)
    decreases until
  {
    if from < until {
      AloneNothingDrifts(others, tuples, from, until - 1);
    }
  }

  lemma {:induction false} DriftSplit(others: Others, tuples: set<Tuple>, from: nat, via: nat, until: nat)
    requires from <= via <= until
    ensures Drift(others, tuples, from, until) == Drift(others, Drift(others, tuples, from, via), via, until)
    decreases until
  {
    if via < until {
      DriftSplit(others, tuples, from, via, until - 1);
    }
  }

  // Others do to each tuple what they do, whatever else is there; and only they take one away or
  // bring one in.
  lemma {:induction false} DriftOf(others: Others, a: set<Tuple>, b: set<Tuple>, from: nat, until: nat, t: Tuple)
    requires from <= until
    ensures (t in a <==> t in b) ==> (t in Drift(others, a, from, until) <==> t in Drift(others, b, from, until))
    ensures t in a && !Removed(others, t, from, until) ==> t in Drift(others, a, from, until)
    ensures t in Drift(others, a, from, until) ==> t in a || Added(others, t, from, until)
    ensures Removed(others, t, from, until) && !Added(others, t, from, until) ==> t !in Drift(others, a, from, until)
    ensures t in Drift(others, a, from, until) ==> t in Drift(others, a + b, from, until)
    ensures t in Drift(others, a - b, from, until) ==> t in Drift(others, a, from, until)
    decreases until
  {
    if from < until {
      DriftOf(others, a, b, from, until - 1, t);
      assert Removed(others, t, from, until - 1) ==> Removed(others, t, from, until);
      assert Added(others, t, from, until - 1) ==> Added(others, t, from, until);
      assert t in others(until - 1).removed ==> Removed(others, t, from, until);
      assert t in others(until - 1).added ==> Added(others, t, from, until);
    }
  }

  // The batch came in, or was taken out, whole at one moment in between.
  ghost predicate LandedOnce(others: Others, before: set<Tuple>, batch: set<Tuple>, from: nat, until: nat,
                             after: set<Tuple>)
  {
    exists i: nat :: from < i <= until && after == Drift(others, Drift(others, before, from, i) + batch, i, until)
  }

  ghost predicate TakenOnce(others: Others, before: set<Tuple>, batch: set<Tuple>, from: nat, until: nat,
                            after: set<Tuple>)
  {
    exists i: nat :: from < i <= until && after == Drift(others, Drift(others, before, from, i) - batch, i, until)
  }

  // Adding and taking away commute with what others do, as far as the batch does not matter.
  lemma DriftOfSum(others: Others, a: set<Tuple>, batch: set<Tuple>, from: nat, until: nat)
    requires from <= until
    ensures var d := Drift(others, a, from, until);
      d <= Drift(others, a + batch, from, until) <= d + batch && d - batch <= Drift(others, a - batch, from, until) <= d
  {
    forall t
      ensures t in Drift(others, a, from, until) ==> t in Drift(others, a + batch, from, until)
      ensures t in Drift(others, a - batch, from, until) ==> t in Drift(others, a, from, until)
      ensures t !in batch ==>
        (t in Drift(others, a + batch, from, until) <==> t in Drift(others, a, from, until)) &&
        (t in Drift(others, a - batch, from, until) <==> t in Drift(others, a, from, until))
    {
      DriftOf(others, a, batch, from, until, t);
      DriftOf(others, a, a + batch, from, until, t);
      DriftOf(others, a, a - batch, from, until, t);
    }
  }

  // What a call of ours can have done, beside what others did meanwhile: only tuples of the batch
  // were added, or only they were taken away.
  ghost predicate Grown(others: Others, before: set<Tuple>, from: nat, after: set<Tuple>, until: nat,
                        batch: set<Tuple>)
  {
    from <= until && Drift(others, before, from, until) <= after <= Drift(others, before, from, until) + batch
  }

  ghost predicate Shrunk(others: Others, before: set<Tuple>, from: nat, after: set<Tuple>, until: nat,
                         batch: set<Tuple>)
  {
    from <= until && Drift(others, before, from, until) - batch <= after <= Drift(others, before, from, until)
  }

  // The batch is in, or out, but for what others undid meanwhile.
  ghost predicate AllIn(others: Others, batch: set<Tuple>, from: nat, after: set<Tuple>, until: nat)
  {
    forall t <- batch :: t in after || Removed(others, t, from, until)
  }

  ghost predicate AllOut(others: Others, batch: set<Tuple>, from: nat, after: set<Tuple>, until: nat)
  {
    forall t <- batch :: t !in after || Added(others, t, from, until)
  }

  lemma LandedIsGrown(others: Others, before: set<Tuple>, batch: set<Tuple>, from: nat, until: nat, after: set<Tuple>)
    requires from <= until
    requires after == Drift(others, before, from, until) || LandedOnce(others, before, batch, from, until, after)
    ensures Grown(others, before, from, after, until, batch)
  {
    hide Drift;
    if i: nat :| from < i <= until && after == Drift(others, Drift(others, before, from, i) + batch, i, until) {
      DriftSplit(others, before, from, i, until);
      DriftOfSum(others, Drift(others, before, from, i), batch, i, until);
    }
  }

  lemma TakenIsShrunk(others: Others, before: set<Tuple>, batch: set<Tuple>, from: nat, until: nat, after: set<Tuple>)
    requires from <= until
    requires after == Drift(others, before, from, until) || TakenOnce(others, before, batch, from, until, after)
    ensures Shrunk(others, before, from, after, until, batch)
  {
    hide Drift;
    if i: nat :| from < i <= until && after == Drift(others, Drift(others, before, from, i) - batch, i, until) {
      DriftSplit(others, before, from, i, until);
      DriftOfSum(others, Drift(others, before, from, i), batch, i, until);
    }
  }

  // One call of ours after another.
  lemma GrownTwice(others: Others, before: set<Tuple>, a: nat, mid: set<Tuple>, b: nat, after: set<Tuple>, c: nat,
                   x: set<Tuple>, y: set<Tuple>)
    requires Grown(others, before, a, mid, b, x) && Grown(others, mid, b, after, c, y)
    ensures Grown(others, before, a, after, c, x + y)
    ensures AllIn(others, x, a, mid, b) ==> AllIn(others, x, a, after, c)
    ensures AllIn(others, y, b, after, c) ==> AllIn(others, y, a, after, c)
  {
    hide Drift;
    var d := Drift(others, before, a, b);
    DriftSplit(others, before, a, b, c);
    DriftOfSum(others, d, mid - d, b, c);
    assert d + (mid - d) == mid;
    forall t <- x | t in mid ensures t in after || Removed(others, t, a, c) {
      DriftOf(others, mid, {}, b, c, t);
      assert Removed(others, t, b, c) ==> Removed(others, t, a, c);
    }
    assert forall t :: Removed(others, t, a, b) || Removed(others, t, b, c) ==> Removed(others, t, a, c);
  }

  lemma ShrunkTwice(others: Others, before: set<Tuple>, a: nat, mid: set<Tuple>, b: nat, after: set<Tuple>, c: nat,
                    x: set<Tuple>, y: set<Tuple>)
    requires Shrunk(others, before, a, mid, b, x) && Shrunk(others, mid, b, after, c, y)
    ensures Shrunk(others, before, a, after, c, x + y)
    ensures AllOut(others, x, a, mid, b) ==> AllOut(others, x, a, after, c)
    ensures AllOut(others, y, b, after, c) ==> AllOut(others, y, a, after, c)
  {
    hide Drift;
    var d := Drift(others, before, a, b);
    DriftSplit(others, before, a, b, c);
    DriftOfSum(others, d, d - mid, b, c);
    assert d - (d - mid) == mid;
    forall t <- x | t !in mid ensures t !in after || Added(others, t, a, c) {
      DriftOf(others, mid, {}, b, c, t);
      assert Added(others, t, b, c) ==> Added(others, t, a, c);
    }
    assert forall t :: Added(others, t, a, b) || Added(others, t, b, c) ==> Added(others, t, a, c);
  }

  // ---- the store ----

  // What becomes of a request: the store answers it, refuses it for good, never sees it, or acts on it
  // and the reply is lost.
  datatype Wire = Served | Refused | Lost | Unheard

  predicate Flaky(w: Wire)
  {
    w == Lost || w == Unheard
  }

  // The server's tuples. Before each request of ours takes effect the others have their turn. What
  // becomes of each request, and after which one the time budget is over, is fixed beforehand too.
  class Store {
    const others: Others
    const wires: nat -> Wire
    const late: nat -> bool
    var tuples: set<Tuple>
    var clock: nat                      // our requests so far

    constructor (others: Others, wires: nat -> Wire, late: nat -> bool, tuples: set<Tuple>)
      ensures this.others == others && this.wires == wires && this.late == late
      ensures this.tuples == tuples && clock == 0
    {
      this.others, this.wires, this.late := others, wires, late;
      this.tuples, clock := tuples, 0;
    }

    // One transaction: none of it lands when one tuple is there, or one is given twice.
    method Write(adds: seq<Tuple>) returns (reply: Reply)
      modifies this
      ensures clock == old(clock) + 1
      ensures var drifted, wire := Next(others(old(clock)), old(tuples)), wires(old(clock));
        var clash := exists t :: t in adds && t in drifted;
        && tuples == (if wire == Lost || wire == Refused || clash || Repeats(adds) then drifted
                      else drifted + Elems(adds))
        && reply == if Flaky(wire) then Transient
                    else if wire == Refused then Invalid
                    else if clash then Duplicate
                    else if Repeats(adds) then Invalid
                    else Done
    {
      var wire := wires(clock);
      clock, tuples := clock + 1, Next(others(clock), tuples);
      if wire == Lost {
        return Transient;
      }
      if wire == Refused {
        return Invalid;
      }
      var clash := exists t :: t in adds && t in tuples;
      if !clash && !Repeats(adds) {
        tuples := tuples + Elems(adds);
        reply := Done;
      } else {
        reply := if clash then Duplicate else Invalid;
      }
      if wire == Unheard {
        reply := Transient;
      }
    }

    method Delete(t: Tuple) returns (reply: Reply)
      modifies this
      ensures clock == old(clock) + 1
      ensures var drifted, wire := Next(others(old(clock)), old(tuples)), wires(old(clock));
        && tuples == (if wire == Lost || wire == Refused then drifted else drifted - {t})
        && reply == if Flaky(wire) then Transient
                    else if wire == Refused then Invalid
                    else if t in drifted then Done
                    else Missing
    {
      var wire := wires(clock);
      clock, tuples := clock + 1, Next(others(clock), tuples);
      if wire == Lost {
        return Transient;
      }
      if wire == Refused {
        return Invalid;
      }
      reply := if t in tuples then Done else Missing;
      tuples := tuples - {t};
      if wire == Unheard {
        reply := Transient;
      }
    }
  }

  // A retried request: only flaky ones before the last, with time left after each, and the last one is
  // flaky too only when the attempts or the time ran out.
  ghost predicate Retried(store: Store, from: nat, until: nat, attempts: int)
  {
    && from < until <= from + (if attempts < 1 then 1 else attempts)
    && (forall i: nat :: from <= i < until - 1 ==> Flaky(store.wires(i)) && !store.late(i))
    && (Flaky(store.wires(until - 1)) ==>
          until == from + (if attempts < 1 then 1 else attempts) || store.late(until - 1))
  }

  // ---- writing ----

  // A request more: whatever landed before it, what lands now is the whole batch.
  lemma OneMoreWrite(others: Others, before: set<Tuple>, from: nat, mid: set<Tuple>, at: nat, batch: set<Tuple>)
    requires from <= at
    requires mid == Drift(others, before, from, at) || LandedOnce(others, before, batch, from, at, mid)
    ensures var after := Next(others(at), mid);
      && (after == Drift(others, before, from, at + 1) || LandedOnce(others, before, batch, from, at + 1, after))
      && after + batch == Drift(others, before, from, at + 1) + batch
      && LandedOnce(others, before, batch, from, at + 1, after + batch)
  {
    LandedIsGrown(others, before, batch, from, at, mid);
    var after, drifted := Next(others(at), mid), Drift(others, before, from, at + 1);
    assert drifted <= after <= drifted + batch;
    assert after + batch == drifted + batch == Drift(others, drifted + batch, at + 1, at + 1);
    if i: nat :| from < i <= at && mid == Drift(others, Drift(others, before, from, i) + batch, i, at) {
      assert after == Drift(others, Drift(others, before, from, i) + batch, i, at + 1);
    }
  }

  // One logical write: transient failures are tried again, within the attempts and the time budget.
  // Beside what others do, the batch came in whole at one moment or not at all.
  method DoWrite(store: Store, batch: seq<Tuple>, attempts: int) returns (reply: Reply)
    modifies store
    ensures Retried(store, old(store.clock), store.clock, attempts)
    ensures var drifted := Drift(store.others, old(store.tuples), old(store.clock), store.clock);
      && (store.tuples == drifted
          || LandedOnce(store.others, old(store.tuples), Elems(batch), old(store.clock), store.clock, store.tuples))
      && (reply == Done ==> store.tuples == drifted + Elems(batch))
    ensures reply == Duplicate ==> exists t :: t in batch && t in store.tuples
    ensures var wire := store.wires(store.clock - 1);
      && (reply == Transient <==> Flaky(wire))
      && (wire == Served && !Repeats(batch) ==> reply == Done || reply == Duplicate)
      && (wire == Refused ==> reply == Invalid)
    ensures reply != Missing
  {
    hide LandedOnce;
    ghost var before, from := store.tuples, store.clock;
    var n := 0;
    reply := Transient;
    var more := true;
    while more
      invariant store.clock == from + n && 0 <= n && (more ==> n < attempts || n == 0)
      invariant more ==> forall i: nat :: from <= i < from + n ==> Flaky(store.wires(i)) && !store.late(i)
      invariant !more ==> Retried(store, from, store.clock, attempts)
      invariant
        || store.tuples == Drift(store.others, before, from, store.clock)
        || LandedOnce(store.others, before, Elems(batch), from, store.clock, store.tuples)
      invariant reply == Done ==> store.tuples == Drift(store.others, before, from, store.clock) + Elems(batch)
      invariant reply == Duplicate ==> exists t :: t in batch && t in store.tuples
      invariant n > 0 ==>
        var wire := store.wires(store.clock - 1);
        && (reply == Transient <==> Flaky(wire))
        && (wire == Served && !Repeats(batch) ==> reply == Done || reply == Duplicate)
        && (wire == Refused ==> reply == Invalid)
      invariant reply != Missing
      decreases more, attempts - n
    {
      OneMoreWrite(store.others, before, from, store.tuples, store.clock, Elems(batch));
      reply := store.Write(batch);
      n := n + 1;
      more := reply == Transient && n < attempts && !store.late(store.clock - 1);
    }
  }

  lemma ElemsOfNext(batch: seq<Tuple>, i: nat)
    requires i < |batch|
    ensures Elems(batch[..i + 1]) == Elems(batch[..i]) + {batch[i]} && Elems([batch[i]]) == {batch[i]}
    ensures Elems(batch[..i + 1]) <= Elems(batch)
  {
    assert batch[..i + 1] == batch[..i] + [batch[i]];
  }

  // The fallback after a duplicate: each tuple on its own, where a duplicate means it is there.
  method WriteOneByOne(store: Store, batch: seq<Tuple>, attempts: int) returns (ok: bool)
    modifies store
    ensures Grown(store.others, old(store.tuples), old(store.clock), store.tuples, store.clock, Elems(batch))
    ensures ok ==> AllIn(store.others, Elems(batch), old(store.clock), store.tuples, store.clock)
    ensures batch != [] ==> old(store.clock) < store.clock
    ensures ok <==> batch == [] || store.wires(store.clock - 1) == Served
  {
    hide LandedOnce;
    ghost var before, from := store.tuples, store.clock;
    for i := 0 to |batch|
      invariant i > 0 ==> from < store.clock && store.wires(store.clock - 1) == Served
      invariant Grown(store.others, before, from, store.tuples, store.clock, Elems(batch[..i]))
      invariant AllIn(store.others, Elems(batch[..i]), from, store.tuples, store.clock)
    {
      ghost var mid, at, item := store.tuples, store.clock, {batch[i]};
      ElemsOfNext(batch, i);
      var reply := DoWrite(store, [batch[i]], attempts);
      LandedIsGrown(store.others, mid, item, at, store.clock, store.tuples);
      GrownTwice(store.others, before, from, mid, at, store.tuples, store.clock, Elems(batch[..i]), item);
      if reply != Done && reply != Duplicate {
        return false;
      }
      assert batch[i] in store.tuples && AllIn(store.others, item, at, store.tuples, store.clock);
    }
    assert batch[..|batch|] == batch;
    ok := true;
  }

  // write_tuples. Whatever others do, tuples of the batch alone were added and none was taken away; and
  // when it returns normally all of them are there, but those that others removed meanwhile.
  method WriteTuples(store: Store, batch: seq<Tuple>, attempts: int) returns (ok: bool)
    modifies store
    ensures Grown(store.others, old(store.tuples), old(store.clock), store.tuples, store.clock, Elems(batch))
    ensures ok ==> AllIn(store.others, Elems(batch), old(store.clock), store.tuples, store.clock)
    ensures old(store.clock) < store.clock
    ensures !Repeats(batch) ==> (ok <==> store.wires(store.clock - 1) == Served)
    ensures ok ==> store.wires(store.clock - 1) == Served
    ensures Alone(store.others) ==> old(store.tuples) <= store.tuples <= old(store.tuples) + Elems(batch)
    ensures Alone(store.others) && ok ==> store.tuples == old(store.tuples) + Elems(batch)
  {
    hide LandedOnce;
    ghost var before, from := store.tuples, store.clock;
    var reply := DoWrite(store, batch, attempts);
    LandedIsGrown(store.others, before, Elems(batch), from, store.clock, store.tuples);
    ok := reply == Done;
    if reply == Duplicate {
      if |batch| > 1 {
        ghost var mid, at := store.tuples, store.clock;
        ok := WriteOneByOne(store, batch, attempts);
        GrownTwice(store.others, before, from, mid, at, store.tuples, store.clock, Elems(batch), Elems(batch));
      } else {
        assert Elems(batch) == {batch[0]};
        ok := true;
      }
    }
    if Alone(store.others) {
      AloneNothingDrifts(store.others, before, from, store.clock);
    }
  }

  // ---- deleting ----

  lemma OneMoreDelete(others: Others, before: set<Tuple>, from: nat, mid: set<Tuple>, at: nat, batch: set<Tuple>)
    requires from <= at
    requires mid == Drift(others, before, from, at) || TakenOnce(others, before, batch, from, at, mid)
    ensures var after := Next(others(at), mid);
      && (after == Drift(others, before, from, at + 1) || TakenOnce(others, before, batch, from, at + 1, after))
      && TakenOnce(others, before, batch, from, at + 1, after - batch)
  {
    TakenIsShrunk(others, before, batch, from, at, mid);
    var after, drifted := Next(others(at), mid), Drift(others, before, from, at + 1);
    assert drifted - batch <= after <= drifted;
    assert after - batch == drifted - batch == Drift(others, drifted - batch, at + 1, at + 1);
    if i: nat :| from < i <= at && mid == Drift(others, Drift(others, before, from, i) - batch, i, at) {
      assert after == Drift(others, Drift(others, before, from, i) - batch, i, at + 1);
    }
  }

  method DeleteOne(store: Store, t: Tuple, attempts: int) returns (reply: Reply)
    modifies store
    ensures Retried(store, old(store.clock), store.clock, attempts)
    ensures
      || store.tuples == Drift(store.others, old(store.tuples), old(store.clock), store.clock)
      || TakenOnce(store.others, old(store.tuples), {t}, old(store.clock), store.clock, store.tuples)
    ensures reply == Done || reply == Missing ==> t !in store.tuples
    ensures reply == Done || reply == Missing <==> store.wires(store.clock - 1) == Served
    ensures reply != Duplicate
  {
    hide TakenOnce;
    ghost var before, from := store.tuples, store.clock;
    var n := 0;
    reply := Transient;
    var more := true;
    while more
      invariant store.clock == from + n && 0 <= n && (more ==> n < attempts || n == 0)
      invariant more ==> forall i: nat :: from <= i < from + n ==> Flaky(store.wires(i)) && !store.late(i)
      invariant !more ==> Retried(store, from, store.clock, attempts)
      invariant
        || store.tuples == Drift(store.others, before, from, store.clock)
        || TakenOnce(store.others, before, {t}, from, store.clock, store.tuples)
      invariant reply == Done || reply == Missing ==> t !in store.tuples
      invariant n > 0 ==> (reply == Done || reply == Missing <==> store.wires(store.clock - 1) == Served)
      invariant reply != Duplicate
      decreases more, attempts - n
    {
      OneMoreDelete(store.others, before, from, store.tuples, store.clock, {t});
      reply := store.Delete(t);
      n := n + 1;
      more := reply == Transient && n < attempts && !store.late(store.clock - 1);
    }
  }

  // delete_tuples: each tuple in its own write, an absent one is no failure. Tuples of the batch alone
  // were taken away and none was added; and when it returns normally none of them is there, but those
  // that others added meanwhile.
  method DeleteTuples(store: Store, batch: seq<Tuple>, attempts: int) returns (ok: bool)
    modifies store
    ensures Shrunk(store.others, old(store.tuples), old(store.clock), store.tuples, store.clock, Elems(batch))
    ensures ok ==> AllOut(store.others, Elems(batch), old(store.clock), store.tuples, store.clock)
    ensures batch != [] ==> old(store.clock) < store.clock
    ensures ok <==> batch == [] || store.wires(store.clock - 1) == Served
    ensures Alone(store.others) ==> old(store.tuples) - Elems(batch) <= store.tuples <= old(store.tuples)
    ensures Alone(store.others) && ok ==> store.tuples == old(store.tuples) - Elems(batch)
  {
    hide TakenOnce, Alone;
    ghost var before, from := store.tuples, store.clock;
    ok := true;
    var i := 0;
    while i < |batch| && ok
      invariant i <= |batch| && (i > 0 ==> from < store.clock)
      invariant ok <==> i == 0 || store.wires(store.clock - 1) == Served
      invariant Shrunk(store.others, before, from, store.tuples, store.clock, Elems(batch[..i]))
      invariant ok ==> AllOut(store.others, Elems(batch[..i]), from, store.tuples, store.clock)
      decreases |batch| - i
    {
      ghost var mid, at, item := store.tuples, store.clock, {batch[i]};
      ElemsOfNext(batch, i);
      var reply := DeleteOne(store, batch[i], attempts);
      TakenIsShrunk(store.others, mid, item, at, store.clock, store.tuples);
      ShrunkTwice(store.others, before, from, mid, at, store.tuples, store.clock, Elems(batch[..i]), item);
      ok := reply == Missing || reply == Done;
      i := i + 1;
    }
    assert ok ==> batch[..i] == batch;
    assert Elems(batch[..i]) <= Elems(batch);
    if Alone(store.others) {
      AloneNothingDrifts(store.others, before, from, store.clock);
    }
  }

  // ---- revoking ----

  // The store pages through the tuples of one object, each tuple on some page.
  predicate Lists(pages: seq<seq<Tuple>>, tuples: set<Tuple>, target: Name)
  {
    Elems(Flat(pages)) == set t | t in tuples && t.target == target
  }

  // One pass asks for the first page, and for each further one up to the ceiling.
  function PagesAsked(pages: seq<seq<Tuple>>): nat
  {
    if |pages| == 0 then 1 else if |pages| <= MAX_REVOKE_PAGES then |pages| else MAX_REVOKE_PAGES
  }

  predicate PassFails(pages: seq<seq<Tuple>>, fails: nat -> bool)
  {
    exists i: nat :: i < PagesAsked(pages) && fails(i)
  }

  // One pass over the pages, to the end or the ceiling. The requests that fail are fixed beforehand.
  method ReadPages(pages: seq<seq<Tuple>>, fails: nat -> bool)
    returns (ok: bool, collected: seq<Tuple>, truncated: bool)
    ensures ok <==> !PassFails(pages, fails)
    ensures ok ==> collected == Read(pages) && (truncated <==> |pages| > MAX_REVOKE_PAGES)
  {
    collected, truncated := [], false;
    var i := 0;
    var token := true;
    while token && i < MAX_REVOKE_PAGES
      invariant i <= MAX_REVOKE_PAGES && (i <= |pages| || (pages == [] && i == 1))
      invariant collected == Flat(pages[..if i <= |pages| then i else 0])
      invariant i > 0 ==> (token <==> i < |pages|)
      invariant i == 0 ==> token
      invariant forall k: nat :: k < i ==> !fails(k)
    {
      if fails(i) {
        return false, [], false;
      }
      if i < |pages| {
        assert pages[..i + 1][..i] == pages[..i];
        collected := collected + pages[i];
      }
      i := i + 1;
      token := i < |pages|;
    }
    truncated := token;
    ok := true;
    assert |pages| <= MAX_REVOKE_PAGES ==> pages[..|pages|] == pages;
  }

  // What becomes of the reads: which page request of which pass fails, and when the time is over.
  datatype Reads = Reads(fails: nat -> nat -> bool, late: nat -> bool)

  // The n-th pass is the first that succeeds, within the attempts and the time.
  predicate ReadAtPass(pages: seq<seq<Tuple>>, attempts: int, asks: Reads, n: nat)
  {
    && (n == 0 || n < attempts) && !PassFails(pages, asks.fails(n))
    && forall m: nat :: m < n ==> PassFails(pages, asks.fails(m)) && !asks.late(m)
  }

  // read_object_tuples: a failed pass starts over.
  method ReadObjectTuples(pages: seq<seq<Tuple>>, attempts: int, asks: Reads)
    returns (ok: bool, collected: seq<Tuple>)
    ensures ok <==> exists n: nat :: ReadAtPass(pages, attempts, asks, n)
    ensures ok ==> collected == Read(pages)
  {
    hide PassFails;
    var n := 0;
    ok, collected := false, [];
    var more := true;
    while more
      invariant 0 <= n && (more ==> n < attempts || n == 0)
      invariant ok ==> n > 0 && collected == Read(pages) && ReadAtPass(pages, attempts, asks, n - 1)
      invariant !ok ==> forall m: nat :: m < n ==> PassFails(pages, asks.fails(m))
      invariant more ==> !ok && forall m: nat :: m < n ==> !asks.late(m)
      invariant !more && !ok ==> n > 0 && (n >= attempts || asks.late(n - 1))
      decreases more, attempts - n
    {
      var truncated: bool;
      ok, collected, truncated := ReadPages(pages, asks.fails(n));
      n := n + 1;
      more := !ok && n < attempts && !asks.late(n - 1);
    }
  }

  // When only what was read is taken away, other objects' tuples are as others left them. And when
  // nobody adds to the object, none of its tuples is left exactly when others removed what was not read.
  lemma WhatIsLeft(others: Others, before: set<Tuple>, from: nat, after: set<Tuple>, until: nat,
                   read: set<Tuple>, unread: set<Tuple>, target: Name)
    requires read + unread == set t | t in before && t.target == target
    requires Shrunk(others, before, from, after, until, read)
    ensures forall t: Tuple :: t.target != target ==> (t in after <==> t in Drift(others, before, from, until))
    ensures AllOut(others, read, from, after, until) ==>
      (forall t :: Added(others, t, from, until) ==> t.target != target) ==>
        ((forall t <- after :: t.target != target) <==>
         forall t <- unread :: t in read || Removed(others, t, from, until))
  {
    hide Drift;
    assert forall t :: t in read || t in unread ==> t in read + unread;
    if AllOut(others, read, from, after, until) && forall t :: Added(others, t, from, until) ==> t.target != target {
      if forall t <- after :: t.target != target {
        forall t <- unread ensures t in read || Removed(others, t, from, until) {
          DriftOf(others, before, {}, from, until, t);
        }
      }
      if forall t <- unread :: t in read || Removed(others, t, from, until) {
        forall t <- after ensures t.target != target {
          DriftOf(others, before, {}, from, until, t);
          assert t in before && t.target == target ==> t in read + unread;
        }
      }
    }
  }

  // revoke_object_tuples. Others' tuples stay theirs. When it returns and nobody has added to the
  // object, none of its tuples is left exactly when others removed every tuple past the page ceiling;
  // with nobody else at work, exactly when there are no more pages than the ceiling.
  method RevokeObjectTuples(store: Store, target: Name, pages: seq<seq<Tuple>>, attempts: int, asks: Reads)
    returns (ok: bool, count: nat)
    requires Lists(pages, store.tuples, target)
    modifies store
    ensures Shrunk(store.others, old(store.tuples), old(store.clock), store.tuples, store.clock, Elems(Read(pages)))
    ensures forall t: Tuple :: t.target != target ==>
      (t in store.tuples <==> t in Drift(store.others, old(store.tuples), old(store.clock), store.clock))
    ensures ok <==> (exists n: nat :: ReadAtPass(pages, attempts, asks, n)) &&
                    (Read(pages) == [] || (old(store.clock) < store.clock && store.wires(store.clock - 1) == Served))
    ensures ok ==> count == |Read(pages)|
    ensures ok ==> AllOut(store.others, Elems(Read(pages)), old(store.clock), store.tuples, store.clock)
    ensures ok && (forall t :: Added(store.others, t, old(store.clock), store.clock) ==> t.target != target) ==>
      ((forall t <- store.tuples :: t.target != target) <==>
       forall t <- Elems(Unread(pages)) :: t in Read(pages) || Removed(store.others, t, old(store.clock), store.clock))
    ensures Alone(store.others) && ok ==> store.tuples == old(store.tuples) - Elems(Read(pages))
    ensures Alone(store.others) && ok && Proper(pages) ==>
      ((forall t <- store.tuples :: t.target != target) <==> |pages| <= 100)
  {
    hide Alone, ReadAtPass;
    ghost var before, from := store.tuples, store.clock;
    count := 0;
    ReadPlusUnread(pages);
    assert Elems(Read(pages) + Unread(pages)) == Elems(Read(pages)) + Elems(Unread(pages));
    var collected: seq<Tuple>;
    ok, collected := ReadObjectTuples(pages, attempts, asks);
    if ok && collected != [] {
      ok := DeleteTuples(store, collected, attempts);
      count := |collected|;
    }
    WhatIsLeft(store.others, before, from, store.tuples, store.clock, Elems(Read(pages)), Elems(Unread(pages)), target);
    if Alone(store.others) {
      AloneNothingDrifts(store.others, before, from, store.clock);
      if Proper(pages) {
        ReadsAllIff(pages);
      }
    }
  }
}
