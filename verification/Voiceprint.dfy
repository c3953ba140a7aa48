// Embedding one recording's speaker turns: clamped slices, length-sorted batches, and the scatter
// of batch rows back to turn order.

module Voiceprint {

  import opened PaddingCost

  datatype Turn = Turn(start: real, end: real)

  datatype Outcome<V> = Embedded(kept: seq<Turn>, vectors: seq<V>) | ValueError

  // _MIN_EMBED_SPAN_S
  const MIN_EMBED_SPAN: real := 0.1

  // round(): nearest integer, halves to the even one.
  function Round(x: real): int
  {
    var low := x.Floor;
    var part := x - low as real;
    if part < 0.5 || (part == 0.5 && low % 2 == 0) then low else low + 1
  }

  lemma RoundIsNearest(x: real, n: int)
    requires -0.5 <= x - n as real <= 0.5
    requires x - n as real == 0.5 || x - n as real == -0.5 ==> n % 2 == 0
    ensures Round(x) == n
  {
    var low := x.Floor;
    assert low as real <= x < low as real + 1.0;
    assert n == low || n == low + 1;
  }

  function Max(a: int, b: int): int { if a < b then b else a }

  function Min(a: int, b: int): int { if a < b then a else b }

  // round(seconds * sample_rate)
  function SampleAt(seconds: real, rate: nat): int
  {
    Round(seconds * rate as real)
  }

  // The sample nearest to a point in time, unless two are equally near.
  lemma SampleIsNearest(seconds: real, rate: nat, n: int)
    requires -0.5 < seconds * rate as real - n as real < 0.5
    ensures SampleAt(seconds, rate) == n
  {
    RoundIsNearest(seconds * rate as real, n);
  }

  // clamped_sample_span
  function SampleSpan(turn: Turn, rate: nat, samples: nat): (int, int)
  {
    (Max(0, SampleAt(turn.start, rate)), Min(samples, SampleAt(turn.end, rate)))
  }

  function MinSamples(minDuration: real, rate: nat): (n: nat)
  {
    var seconds := if minDuration < MIN_EMBED_SPAN then MIN_EMBED_SPAN else minDuration;
    SampleAt(seconds, rate)
  }

  predicate LongEnough(turn: Turn, rate: nat, samples: nat, least: nat)
  {
    var span := SampleSpan(turn, rate, samples);
    span.1 - span.0 >= least
  }

  // The turns long enough to embed, in their own order.
  function Kept(turns: seq<Turn>, rate: nat, samples: nat, least: nat): (kept: seq<Turn>)
    ensures AllLongEnough(kept, rate, samples)
  {
    if turns == [] then []
    else
      var n := |turns| - 1;
      Kept(turns[..n], rate, samples, least) + if LongEnough(turns[n], rate, samples, least) then [turns[n]] else []
  }

  function SliceOf<S>(wav: seq<S>, turn: Turn, rate: nat): seq<S>
    requires LongEnough(turn, rate, |wav|, 0)
  {
    var span := SampleSpan(turn, rate, |wav|);
    wav[span.0..span.1]
  }

  // Sample j of a turn's slice is that many samples after the turn's start, never before the recording;
  // and the slice goes on to the turn's end, never after it.
  lemma SliceSamples<S>(wav: seq<S>, turn: Turn, rate: nat)
    requires LongEnough(turn, rate, |wav|, 0)
    ensures var start, end := SampleAt(turn.start, rate), SampleAt(turn.end, rate);
      var lo, hi := if start < 0 then 0 else start, if end < |wav| then end else |wav|;
      && |SliceOf(wav, turn, rate)| == hi - lo
      && forall j :: 0 <= j < hi - lo ==> SliceOf(wav, turn, rate)[j] == wav[lo + j]
  {
    hide SampleAt;
  }

  // A turn is kept when its slice has at least the samples of the minimum duration, or of a tenth of a
  // second when that is longer.
  lemma {:induction false} KeptIff(turns: seq<Turn>, rate: nat, samples: nat, minDuration: real, turn: Turn)
    ensures turn in Kept(turns, rate, samples, MinSamples(minDuration, rate)) <==>
      turn in turns
      && SampleSpan(turn, rate, samples).1 - SampleSpan(turn, rate, samples).0
         >= SampleAt(if minDuration >= 0.1 then minDuration else 0.1, rate)
    decreases |turns|
  {
    hide SampleAt, SampleSpan;
    if turns != [] {
      var n := |turns| - 1;
      KeptIff(turns[..n], rate, samples, minDuration, turn);
      assert turns == turns[..n] + [turns[n]];
    }
  }

  // ---- the order of the batches ----

  // Every entry is an index below n.
  predicate Within(order: seq<nat>, n: nat)
  {
    forall p :: 0 <= p < |order| ==> order[p] < n
  }

  predicate AllWithin(batches: seq<seq<nat>>, n: nat)
  {
    forall k :: 0 <= k < |batches| ==> Within(batches[k], n)
  }

  // A later index goes after every equal length: sorted() is stable.
  function Place(order: seq<nat>, i: nat, lengths: seq<nat>): (placed: seq<nat>)
    requires i < |lengths| && Within(order, |lengths|)
    ensures Within(placed, |lengths|)
  {
    if order == [] then [i]
    else
      var n := |order| - 1;
      if lengths[order[n]] <= lengths[i] then order + [i] else Place(order[..n], i, lengths) + [order[n]]
  }

  // sorted(range(n), key=lambda i: lengths[i])
  function SortedIndices(lengths: seq<nat>, n: nat): (order: seq<nat>)
    requires n <= |lengths|
    ensures Within(order, |lengths|)
  {
    if n == 0 then [] else Place(SortedIndices(lengths, n - 1), n - 1, lengths)
  }

  // Shorter first, and among equal lengths the lower index first.
  predicate Precedes(i: nat, j: nat, lengths: seq<nat>)
    requires i < |lengths| && j < |lengths|
  {
    lengths[i] < lengths[j] || (lengths[i] == lengths[j] && i < j)
  }

  predicate StablySorted(order: seq<nat>, lengths: seq<nat>)
    requires Within(order, |lengths|)
  {
    forall p, q :: 0 <= p < q < |order| ==> Precedes(order[p], order[q], lengths)
  }

  lemma {:induction false} PlaceWithin(order: seq<nat>, i: nat, lengths: seq<nat>, n: nat)
    requires i < n <= |lengths| && Within(order, n)
    ensures Within(Place(order, i, lengths), n)
    decreases |order|
  {
    if order != [] {
      PlaceWithin(order[..|order| - 1], i, lengths, n);
    }
  }

  // Every entry goes before index j.
  predicate AllPrecede(order: seq<nat>, j: nat, lengths: seq<nat>)
    requires Within(order, |lengths|) && j < |lengths|
  {
    forall p :: 0 <= p < |order| ==> Precedes(order[p], j, lengths)
  }

  lemma {:induction false} PlaceKeepsPreceding(order: seq<nat>, i: nat, lengths: seq<nat>, j: nat)
    requires Within(order, |lengths|) && i < |lengths| && j < |lengths|
    requires AllPrecede(order, j, lengths) && Precedes(i, j, lengths)
    ensures AllPrecede(Place(order, i, lengths), j, lengths)
    decreases |order|
  {
    if order != [] {
      var n := |order| - 1;
      PlaceKeepsPreceding(order[..n], i, lengths, j);
    }
  }

  lemma {:induction false} PlaceKeepsSorted(order: seq<nat>, i: nat, lengths: seq<nat>)
    requires i < |lengths| && Within(order, i) && Within(order, |lengths|)
    requires StablySorted(order, lengths)
    ensures StablySorted(Place(order, i, lengths), lengths)
    decreases |order|
  {
    if order != [] {
      var n := |order| - 1;
      var last := order[n];
      var front := order[..n];
      var placed := if lengths[last] <= lengths[i] then order else Place(front, i, lengths);
      assert lengths[last] > lengths[i] ==> Precedes(i, last, lengths);
      assert lengths[last] <= lengths[i] ==> Precedes(last, i, lengths);
      assert Within(front, i);
      if lengths[last] > lengths[i] {
        assert Place(order, i, lengths) == placed + [last];
        hide *;
        PlaceKeepsSorted(front, i, lengths);
        PlaceKeepsPreceding(front, i, lengths, last);
      } else {
        assert AllPrecede(order, i, lengths);
      }
    }
  }

  lemma {:induction false} PlaceAddsOne(order: seq<nat>, i: nat, lengths: seq<nat>)
    requires i < |lengths| && Within(order, |lengths|)
    ensures multiset(Place(order, i, lengths)) == multiset(order) + multiset{i}
    decreases |order|
  {
    if order != [] {
      var n := |order| - 1;
      assert order == order[..n] + [order[n]];
      PlaceAddsOne(order[..n], i, lengths);
    }
  }

  lemma {:induction false} PlaceLength(order: seq<nat>, i: nat, lengths: seq<nat>)
    requires i < |lengths| && Within(order, |lengths|)
    ensures |Place(order, i, lengths)| == |order| + 1
    decreases |order|
  {
    if order != [] {
      PlaceLength(order[..|order| - 1], i, lengths);
    }
  }

  lemma {:induction false} SortedIndicesSort(lengths: seq<nat>, n: nat)
    requires n <= |lengths|
    ensures Within(SortedIndices(lengths, n), n)
    ensures StablySorted(SortedIndices(lengths, n), lengths)
  {
    if n != 0 {
      var order := SortedIndices(lengths, n - 1);
      assert SortedIndices(lengths, n) == Place(order, n - 1, lengths);
      SortedIndicesSort(lengths, n - 1);
      assert Within(order, n);
      hide *;
      PlaceKeepsSorted(order, n - 1, lengths);
      PlaceWithin(order, n - 1, lengths, n);
    }
  }

  // Exactly the indices 0..n, each once.
  predicate OnceEach(order: seq<nat>, n: nat)
  {
    && Within(order, n)
    && forall i: nat :: i < n ==> multiset(order)[i] == 1
  }

  lemma PlaceOnceMore(order: seq<nat>, i: nat, lengths: seq<nat>)
    requires i < |lengths| && Within(order, |lengths|) && OnceEach(order, i)
    ensures OnceEach(Place(order, i, lengths), i + 1)
  {
    PlaceAddsOne(order, i, lengths);
    assert Within(order, i + 1);
    PlaceWithin(order, i, lengths, i + 1);
    hide *;
  }

  lemma {:induction false} SortedIndicesPermute(lengths: seq<nat>, n: nat)
    requires n <= |lengths|
    ensures OnceEach(SortedIndices(lengths, n), n)
  {
    hide Place, Within;
    if n != 0 {
      SortedIndicesPermute(lengths, n - 1);
      hide OnceEach;
      PlaceOnceMore(SortedIndices(lengths, n - 1), n - 1, lengths);
    } else {
      EmptyOnce();
    }
  }

  lemma EmptyOnce()
    ensures OnceEach([], 0)
  {
  }

  // duration_sorted_batches, past its guard
  function DurationSortedBatches(lengths: seq<nat>, size: nat): seq<seq<nat>>
    requires 0 < size
  {
    Chunks(SortedIndices(lengths, |lengths|), size)
  }

  // The batches partition the indices 0..n, none is empty and none is over size.
  lemma BatchesPartitionTheTurns(lengths: seq<nat>, size: nat)
    requires 0 < size
    ensures OnceEach(Flatten(DurationSortedBatches(lengths, size)), |lengths|)
    ensures forall b <- DurationSortedBatches(lengths, size) :: 0 < |b| <= size
    ensures AllWithin(DurationSortedBatches(lengths, size), |lengths|)
  {
    var order := SortedIndices(lengths, |lengths|);
    SortedIndicesPermute(lengths, |lengths|);
    assert DurationSortedBatches(lengths, size) == Chunks(order, size);
    hide *;
    ChunksPartition(order, size);
    ChunksWithin(order, size, |lengths|);
  }

  lemma {:induction false} ChunksWithin(order: seq<nat>, size: nat, n: nat)
    requires 0 < size && Within(order, n)
    ensures AllWithin(Chunks(order, size), n)
    decreases |order|
  {
    if |order| > size {
      ChunksWithin(order[size..], size, n);
    }
  }

  function LengthsOf(lengths: seq<nat>, batch: seq<nat>): seq<nat>
    requires Within(batch, |lengths|)
  {
    seq(|batch|, p requires 0 <= p < |batch| => lengths[batch[p]])
  }

  function BatchLengths(lengths: seq<nat>, batches: seq<seq<nat>>): seq<seq<nat>>
    requires AllWithin(batches, |lengths|)
  {
    seq(|batches|, k requires 0 <= k < |batches| => LengthsOf(lengths, batches[k]))
  }

  lemma {:induction false} ChunksOfLengths(lengths: seq<nat>, order: seq<nat>, size: nat)
    requires 0 < size && Within(order, |lengths|)
    ensures AllWithin(Chunks(order, size), |lengths|)
    ensures BatchLengths(lengths, Chunks(order, size)) == Chunks(LengthsOf(lengths, order), size)
    decreases |order|
  {
    ChunksWithin(order, size, |lengths|);
    if |order| > size {
      var first, rest := order[..size], order[size..];
      var a := LengthsOf(lengths, order);
      assert a[..size] == LengthsOf(lengths, first);
      assert a[size..] == LengthsOf(lengths, rest);
      ChunksOfLengths(lengths, rest, size);
      assert Chunks(order, size) == [first] + Chunks(rest, size);
      assert BatchLengths(lengths, [first] + Chunks(rest, size))
        == [LengthsOf(lengths, first)] + BatchLengths(lengths, Chunks(rest, size));
    }
  }

  lemma {:induction false} PlaceAddsLength(order: seq<nat>, i: nat, lengths: seq<nat>)
    requires i < |lengths| && Within(order, |lengths|)
    ensures multiset(LengthsOf(lengths, Place(order, i, lengths)))
      == multiset(LengthsOf(lengths, order)) + multiset{lengths[i]}
    decreases |order|
  {
    if order == [] {
      assert LengthsOf(lengths, [i]) == [lengths[i]];
    } else {
      var n := |order| - 1;
      var front, last := order[..n], order[n];
      assert LengthsOf(lengths, order) == LengthsOf(lengths, front) + [lengths[last]];
      if lengths[last] <= lengths[i] {
        assert LengthsOf(lengths, order + [i]) == LengthsOf(lengths, order) + [lengths[i]];
      } else {
        PlaceAddsLength(front, i, lengths);
        var placed := Place(front, i, lengths);
        assert LengthsOf(lengths, placed + [last]) == LengthsOf(lengths, placed) + [lengths[last]];
      }
    }
  }

  lemma {:induction false} SortedLengths(lengths: seq<nat>, n: nat)
    requires n <= |lengths|
    ensures multiset(LengthsOf(lengths, SortedIndices(lengths, n))) == multiset(lengths[..n])
  {
    hide Place, Within;
    if n != 0 {
      SortedLengths(lengths, n - 1);
      PlaceAddsLength(SortedIndices(lengths, n - 1), n - 1, lengths);
      assert lengths[..n] == lengths[..n - 1] + [lengths[n - 1]];
    }
  }

  // Whatever the turns' lengths, batching by duration carries the least padding of all splits into
  // as many batches, when no batch is short.
  lemma DurationSortingIsBest(lengths: seq<nat>, size: nat, batches: seq<seq<nat>>)
    requires 0 < size && |lengths| % size == 0
    requires IsSplit(batches, lengths, size)
    ensures AllWithin(DurationSortedBatches(lengths, size), |lengths|)
    ensures Cost(BatchLengths(lengths, DurationSortedBatches(lengths, size))) <= Cost(batches)
  {
    var n := |lengths|;
    var order := SortedIndices(lengths, n);
    SortedIndicesSort(lengths, n);
    SortedLengths(lengths, n);
    assert lengths[..n] == lengths;
    ChunksOfLengths(lengths, order, size);
    SortedIsBestIff(n, size, 0);
    assert |LengthsOf(lengths, order)| == n && IsSplit(batches, LengthsOf(lengths, order), size);
    assert SortedIsBest(n, size, 0);
  }

  // ---- embedding ----

  function Sizes<S>(slices: seq<seq<S>>): seq<nat>
  {
    seq(|slices|, i requires 0 <= i < |slices| => |slices[i]|)
  }

  function Pick<S>(slices: seq<seq<S>>, batch: seq<nat>): seq<seq<S>>
    requires Within(batch, |slices|)
  {
    seq(|batch|, p requires 0 <= p < |batch| => slices[batch[p]])
  }

  // One row for each slice of a batch. A batch is zero-padded to its longest slice, so a row may
  // depend on that length as well as on its own slice.
  ghost predicate PaddedRows<S(!new), V>(embed: seq<seq<S>> -> seq<V>, row: (seq<S>, nat) -> V)
  {
    forall batch :: |embed(batch)| == |batch|
      && forall p :: 0 <= p < |batch| ==> embed(batch)[p] == row(batch[p], Longest(Sizes(batch)))
  }

  // The length a batch is padded to.
  function PadOf<S>(slices: seq<seq<S>>, batch: seq<nat>): nat
    requires batch != [] && Within(batch, |slices|)
  {
    Longest(Sizes(Pick(slices, batch)))
  }

  // The row of slice i, as embedded with the batch that holds it.
  ghost predicate RowOf<S, V>(v: V, i: nat, slices: seq<seq<S>>, batches: seq<seq<nat>>, row: (seq<S>, nat) -> V)
    requires i < |slices| && AllWithin(batches, |slices|)
  {
    exists k :: 0 <= k < |batches| && i in batches[k] && v == row(slices[i], PadOf(slices, batches[k]))
  }

  // out[batch] = rows
  method Scatter<V>(out: array<V>, batch: seq<nat>, rows: seq<V>)
    requires |rows| == |batch| && Within(batch, out.Length)
    requires forall p, q :: 0 <= p < q < |batch| ==> batch[p] != batch[q]
    modifies out
    ensures forall p :: 0 <= p < |batch| ==> out[batch[p]] == rows[p]
    ensures forall i :: 0 <= i < out.Length && i !in batch ==> out[i] == old(out[i])
  {
    for p := 0 to |batch|
      invariant forall q :: 0 <= q < p ==> out[batch[q]] == rows[q]
      invariant forall i :: 0 <= i < out.Length && i !in batch ==> out[i] == old(out[i])
    {
      out[batch[p]] := rows[p];
    }
  }

  predicate Distinct(batch: seq<nat>)
  {
    forall p, q :: 0 <= p < q < |batch| ==> batch[p] != batch[q]
  }

  lemma BatchesDistinct(lengths: seq<nat>, size: nat)
    requires 0 < size
    ensures forall k :: 0 <= k < |DurationSortedBatches(lengths, size)| ==>
      Distinct(DurationSortedBatches(lengths, size)[k])
  {
    var order := SortedIndices(lengths, |lengths|);
    SortedIndicesSort(lengths, |lengths|);
    assert Distinct(order) by {
      forall p, q | 0 <= p < q < |order| ensures order[p] != order[q] {
        assert Precedes(order[p], order[q], lengths);
      }
    }
    ChunksDistinct(order, size);
  }

  lemma {:induction false} ChunksDistinct(order: seq<nat>, size: nat)
    requires 0 < size && Distinct(order)
    ensures forall k :: 0 <= k < |Chunks(order, size)| ==> Distinct(Chunks(order, size)[k])
    decreases |order|
  {
    if |order| > size {
      ChunksDistinct(order[size..], size);
    }
  }

  // The rows of the first k batches are in place.
  ghost predicate Done<S, V>(rows: seq<V>, k: nat, slices: seq<seq<S>>, batches: seq<seq<nat>>, row: (seq<S>, nat) -> V)
    requires AllWithin(batches, |slices|) && |rows| == |slices| && k <= |batches|
  {
    forall i, j :: 0 <= j < k && 0 <= i < |slices| && i in batches[j] ==> RowOf(rows[i], i, slices, batches, row)
  }

  method EmbedBatch<S(!new), V>(embed: seq<seq<S>> -> seq<V>, ghost row: (seq<S>, nat) -> V, slices: seq<seq<S>>,
      ghost batches: seq<seq<nat>>, ghost k: nat, batch: seq<nat>, out: array<V>)
    requires PaddedRows(embed, row) && AllWithin(batches, |slices|)
    requires k < |batches| && batch == batches[k] && Within(batch, |slices|) && Distinct(batch)
    requires out.Length == |slices| && Done(out[..], k, slices, batches, row)
    modifies out
    ensures Done(out[..], k + 1, slices, batches, row)
  {
    hide RowOf, PadOf, PaddedRows, Done, Pick;
    var rows := embed(Pick(slices, batch));
    RowsOfBatch(embed, row, slices, batch);
    ghost var before := out[..];
    Scatter(out, batch, rows);
    DoneMore(before, out[..], rows, k, slices, batches, row);
  }

  lemma RowsOfBatch<S(!new), V>(embed: seq<seq<S>> -> seq<V>, row: (seq<S>, nat) -> V, slices: seq<seq<S>>,
                                    batch: seq<nat>)
    requires PaddedRows(embed, row) && Within(batch, |slices|)
    ensures |embed(Pick(slices, batch))| == |batch|
    ensures forall p :: 0 <= p < |batch| ==>
      embed(Pick(slices, batch))[p] == row(slices[batch[p]], PadOf(slices, batch))
  {
  }

  lemma DoneMore<S, V>(before: seq<V>, after: seq<V>, rows: seq<V>, k: nat, slices: seq<seq<S>>,
      batches: seq<seq<nat>>, row: (seq<S>, nat) -> V)
    requires AllWithin(batches, |slices|) && |before| == |after| == |slices| && k < |batches|
    requires Done(before, k, slices, batches, row) && |rows| == |batches[k]|
    requires Within(batches[k], |slices|)
    requires forall p :: 0 <= p < |rows| ==> rows[p] == row(slices[batches[k][p]], PadOf(slices, batches[k]))
    requires forall p :: 0 <= p < |rows| ==> after[batches[k][p]] == rows[p]
    requires forall i :: 0 <= i < |slices| && i !in batches[k] ==> after[i] == before[i]
    ensures Done(after, k + 1, slices, batches, row)
  {
    var batch := batches[k];
    hide PadOf;
    forall i, j | 0 <= j < k + 1 && 0 <= i < |slices| && i in batches[j]
      ensures RowOf(after[i], i, slices, batches, row)
    {
      if i in batch {
        var p :| 0 <= p < |batch| && batch[p] == i;
        assert after[i] == row(slices[i], PadOf(slices, batches[k]));
      } else {
        assert RowOf(before[i], i, slices, batches, row);
      }
    }
  }

  // The loop over the batches. Row i is the row of slice i, whatever the order it was embedded in.
  method EmbedBatches<S(!new), V(0)>(embed: seq<seq<S>> -> seq<V>, ghost row: (seq<S>, nat) -> V, slices: seq<seq<S>>,
                                     size: nat)
    returns (out: array<V>)
    requires 0 < size && PaddedRows(embed, row)
    ensures fresh(out) && out.Length == |slices|
    ensures AllWithin(DurationSortedBatches(Sizes(slices), size), |slices|)
    ensures forall i :: 0 <= i < |slices| ==> RowOf(out[i], i, slices, DurationSortedBatches(Sizes(slices), size), row)
  {
    var lengths := Sizes(slices);
    var batches := DurationSortedBatches(lengths, size);
    BatchesPartitionTheTurns(lengths, size);
    BatchesDistinct(lengths, size);
    hide DurationSortedBatches, RowOf, PaddedRows, OnceEach;
    out := new V[|slices|];
    for k := 0 to |batches|
      invariant fresh(out)
      invariant Done(out[..], k, slices, batches, row)
    {
      EmbedBatch(embed, row, slices, batches, k, batches[k], out);
    }
    forall i: nat | i < |slices| ensures RowOf(out[i], i, slices, batches, row) {
      var k := HolderOfIndex(lengths, size, i);
    }
  }

  lemma HolderOfIndex(lengths: seq<nat>, size: nat, i: nat) returns (k: nat)
    requires 0 < size && i < |lengths|
    ensures k < |DurationSortedBatches(lengths, size)| && i in DurationSortedBatches(lengths, size)[k]
  {
    BatchesPartitionTheTurns(lengths, size);
    assert multiset(Flatten(DurationSortedBatches(lengths, size)))[i] == 1;
    hide *;
    k := InSomeBatch(DurationSortedBatches(lengths, size), i);
  }

  function Mapped<V>(norm: V -> V, vectors: seq<V>): seq<V>
  {
    seq(|vectors|, i requires 0 <= i < |vectors| => norm(vectors[i]))
  }

  predicate AllLongEnough(kept: seq<Turn>, rate: nat, samples: nat)
  {
    forall i :: 0 <= i < |kept| ==> LongEnough(kept[i], rate, samples, 0)
  }

  function SlicesOf<S>(wav: seq<S>, kept: seq<Turn>, rate: nat): seq<seq<S>>
    requires AllLongEnough(kept, rate, |wav|)
  {
    seq(|kept|, i requires 0 <= i < |kept| => SliceOf(wav, kept[i], rate))
  }

  // The first loop: the kept turns and their slices, side by side.
  method KeepTurns<S>(wav: seq<S>, turns: seq<Turn>, rate: nat, least: nat)
    returns (kept: seq<Turn>, slices: seq<seq<S>>)
    ensures kept == Kept(turns, rate, |wav|, least)
    ensures slices == SlicesOf(wav, kept, rate)
  {
    hide SampleAt;
    kept, slices := [], [];
    for i := 0 to |turns|
      invariant kept == Kept(turns[..i], rate, |wav|, least)
      invariant slices == SlicesOf(wav, kept, rate)
    {
      var turn := turns[i];
      assert turns[..i + 1][..i] == turns[..i];
      if LongEnough(turn, rate, |wav|, least) {
        kept, slices := kept + [turn], slices + [SliceOf(wav, turn, rate)];
      }
    }
    assert turns[..|turns|] == turns;
  }

  // The turns kept are those long enough once clamped, in order, and vector i is turn i's own,
  // normalized, with the padding of the batch it travelled in. A batch size below one is an error
  // only when there is something to embed.
  method EmbedTurnSlices<S(!new), V(0)>(embed: seq<seq<S>> -> seq<V>, norm: V -> V, ghost row: (seq<S>, nat) -> V,
      wav: seq<S>, turns: seq<Turn>, rate: nat, batchSize: int, minDuration: real)
    returns (r: Outcome<V>, ghost bare: seq<V>)
    requires PaddedRows(embed, row)
    ensures r.ValueError? <==> batchSize < 1 && Kept(turns, rate, |wav|, MinSamples(minDuration, rate)) != []
    ensures r.Embedded? ==>
      && r.kept == Kept(turns, rate, |wav|, MinSamples(minDuration, rate))
      && |r.vectors| == |r.kept| == |bare| && r.vectors == Mapped(norm, bare)
    ensures r.Embedded? && r.kept != [] ==>
      && 0 < batchSize
      && var slices := SlicesOf(wav, r.kept, rate);
      && var batches := DurationSortedBatches(Sizes(slices), batchSize);
      && AllWithin(batches, |slices|)
      && forall i :: 0 <= i < |slices| ==> RowOf(bare[i], i, slices, batches, row)
  {
    hide Kept, LongEnough, AllLongEnough, MinSamples, PaddedRows, DurationSortedBatches, RowOf, AllWithin, Round;
    var kept, slices := KeepTurns(wav, turns, rate, MinSamples(minDuration, rate));
    if kept == [] {
      return Embedded([], []), [];
    }
    if batchSize < 1 {
      return ValueError, [];
    }
    var out := EmbedBatches(embed, row, slices, batchSize);
    bare := out[..];
    r := Embedded(kept, Mapped(norm, out[..]));
  }

  // An encoder the padding cannot touch: every vector is the normalized row of its own slice.
  lemma RowWiseVectors<S(!new), V>(row: (seq<S>, nat) -> V, bare: seq<V>, slices: seq<seq<S>>, size: nat)
    requires 0 < size && |bare| == |slices|
    requires forall slice, p, q :: row(slice, p) == row(slice, q)
    requires AllWithin(DurationSortedBatches(Sizes(slices), size), |slices|)
    requires forall i :: 0 <= i < |slices| ==>
      RowOf(bare[i], i, slices, DurationSortedBatches(Sizes(slices), size), row)
    ensures forall i :: 0 <= i < |slices| ==> bare[i] == row(slices[i], |slices[i]|)
  {
  }
}
