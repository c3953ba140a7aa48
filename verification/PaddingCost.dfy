// Zero-padding of batched slices, each padded to its batch's longest, and when the sorted split
// is the cheapest.

module PaddingCost {

  predicate Ascending(a: seq<nat>)
  {
    forall i, j :: 0 <= i <= j < |a| ==> a[i] <= a[j]
  }

  function Longest(lens: seq<nat>): nat
    requires lens != []
  {
    if |lens| == 1 then lens[0]
    else
      var rest := Longest(lens[1..]);
      if lens[0] <= rest then rest else lens[0]
  }

  lemma {:induction false} LongestIsMax(lens: seq<nat>)
    requires lens != []
    ensures exists i :: 0 <= i < |lens| && lens[i] == Longest(lens)
    ensures forall i :: 0 <= i < |lens| ==> lens[i] <= Longest(lens)
    decreases |lens|
  {
    if |lens| > 1 {
      var tail := lens[1..];
      LongestIsMax(tail);
      var i :| 0 <= i < |tail| && tail[i] == Longest(tail);
      var at := if lens[0] <= Longest(tail) then i + 1 else 0;
      assert 0 <= at < |lens| && lens[at] == Longest(lens);
      assert forall j :: 1 <= j < |lens| ==> lens[j] == tail[j - 1];
    } else {
      assert lens[0] == Longest(lens);
    }
  }

  // Samples in n rows padded to the same length.
  function Padded(n: nat, length: nat): nat
  {
    n * length
  }

  lemma PaddedMono(n: nat, x: nat, y: nat)
    requires x <= y
    ensures Padded(n, x) <= Padded(n, y)
  {
    assert n * y == n * x + n * (y - x);
  }

  // Samples a padded batch carries.
  function BatchCost(lens: seq<nat>): nat
  {
    if lens == [] then 0 else Padded(|lens|, Longest(lens))
  }

  function Cost(batches: seq<seq<nat>>): nat
  {
    if batches == [] then 0 else BatchCost(batches[0]) + Cost(batches[1..])
  }

  function Flatten(batches: seq<seq<nat>>): seq<nat>
  {
    if batches == [] then [] else batches[0] + Flatten(batches[1..])
  }

  lemma FlattenCons(first: seq<nat>, rest: seq<seq<nat>>)
    ensures Flatten([first] + rest) == first + Flatten(rest)
  {
    assert ([first] + rest)[1..] == rest;
  }

  // [order[i : i + size] for i in range(0, len(order), size)]
  function Chunks(order: seq<nat>, size: nat): seq<seq<nat>>
    requires 0 < size
  {
    if order == [] then []
    else if |order| <= size then [order]
    else [order[..size]] + Chunks(order[size..], size)
  }

  lemma {:induction false} ChunksPartition(order: seq<nat>, size: nat)
    requires 0 < size
    ensures Flatten(Chunks(order, size)) == order
    ensures forall b <- Chunks(order, size) :: 0 < |b| <= size
    decreases |order|
  {
    if |order| > size {
      var first, rest := order[..size], order[size..];
      assert Chunks(order, size) == [first] + Chunks(rest, size);
      FlattenCons(first, Chunks(rest, size));
      ChunksPartition(rest, size);
      hide *;
      assert order == first + rest;
    } else if order != [] {
      assert Flatten([order]) == order + [];
    }
  }

  // ---- removing one batch from a sorted list ----

  function Remove(a: seq<nat>, x: nat): (r: seq<nat>)
    requires x in a
    ensures multiset(a) == multiset(r) + multiset{x} && |r| == |a| - 1
  {
    if a[0] == x then
      assert a == [a[0]] + a[1..];
      a[1..]
    else
      assert a == [a[0]] + a[1..];
      [a[0]] + Remove(a[1..], x)
  }

  lemma {:induction false} RemoveKeepsOrder(a: seq<nat>, x: nat)
    requires Ascending(a) && x in a
    ensures Ascending(Remove(a, x))
    ensures forall i :: 0 <= i < |a| - 1 ==> a[i] <= Remove(a, x)[i]
    decreases |a|
  {
    if a[0] != x {
      RemoveKeepsOrder(a[1..], x);
      PutBack(a, Remove(a[1..], x));
    } else {
      assert forall i :: 0 <= i < |a| - 1 ==> a[1..][i] == a[i + 1];
    }
  }

  lemma PutBack(a: seq<nat>, r: seq<nat>)
    requires a != [] && Ascending(a) && Ascending(r) && |r| == |a| - 2
    requires forall i :: 0 <= i < |r| ==> a[1..][i] <= r[i]
    ensures Ascending([a[0]] + r)
    ensures forall i :: 0 <= i < |a| - 1 ==> a[i] <= ([a[0]] + r)[i]
  {
    forall i | 0 <= i < |r| ensures a[0] <= a[i + 1] <= r[i] {
      assert a[1..][i] == a[i + 1];
    }
  }

  lemma {:induction false} RemoveBatch(a: seq<nat>, batch: seq<nat>) returns (rest: seq<nat>)
    requires Ascending(a) && multiset(batch) <= multiset(a)
    ensures Ascending(rest) && multiset(a) == multiset(rest) + multiset(batch)
    ensures |rest| == |a| - |batch|
    ensures forall i :: 0 <= i < |rest| ==> a[i] <= rest[i]
    decreases |batch|
  {
    if batch == [] {
      rest := a;
    } else {
      var x, tail := batch[0], batch[1..];
      assert batch == [x] + tail;
      assert x in multiset(batch) && x in multiset(a);
      RemoveKeepsOrder(a, x);
      var fewer := Remove(a, x);
      Fewer(multiset(a), multiset(fewer), multiset(tail), x);
      hide *;
      rest := RemoveBatch(fewer, tail);
      assert multiset(a) == multiset(rest) + multiset(batch);
      assert forall i :: 0 <= i < |rest| ==> a[i] <= fewer[i];
    }
  }

  lemma Fewer(a: multiset<nat>, fewer: multiset<nat>, tail: multiset<nat>, x: nat)
    requires a == fewer + multiset{x} && multiset{x} + tail <= a
    ensures tail <= fewer
  {
    forall y ensures tail[y] <= fewer[y] {
      assert (multiset{x} + tail)[y] <= a[y];
    }
  }

  // ---- costs of sorted splits ----

  // The cost of the sorted split into k batches, taken batch by batch from the long end.
  function SortedCost(a: seq<nat>, size: nat, k: nat): nat
    requires |a| == Times(k, size) && 0 < size
    decreases k
  {
    if k == 0 then 0
    else
      Padded(size, a[|a| - 1]) + SortedCost(a[..Times(k - 1, size)], size, k - 1)
  }

  // k * size, as a sum.
  function Times(k: nat, size: nat): nat
  {
    if k == 0 then 0 else Times(k - 1, size) + size
  }

  lemma {:induction false} TimesIsProduct(k: nat, size: nat)
    ensures Times(k, size) == k * size
  {
    if k != 0 {
      TimesIsProduct(k - 1, size);
      assert k * size == (k - 1) * size + size;
    }
  }

  lemma {:induction false} LongerCostsMore(a: seq<nat>, b: seq<nat>, size: nat, k: nat)
    requires |a| == |b| == Times(k, size) && 0 < size
    requires forall i :: 0 <= i < |a| ==> a[i] <= b[i]
    ensures SortedCost(a, size, k) <= SortedCost(b, size, k)
    decreases k
  {
    if k != 0 {
      LongerCostsMore(a[..Times(k - 1, size)], b[..Times(k - 1, size)], size, k - 1);
      PaddedMono(size, a[|a| - 1], b[|a| - 1]);
    }
  }

  lemma {:induction false} CostWithout(batches: seq<seq<nat>>, k: nat)
    requires k < |batches|
    ensures Cost(batches) == BatchCost(batches[k]) + Cost(batches[..k] + batches[k + 1..])
    ensures multiset(Flatten(batches)) == multiset(batches[k]) + multiset(Flatten(batches[..k] + batches[k + 1..]))
    decreases k
  {
    var rest := batches[..k] + batches[k + 1..];
    if k == 0 {
      assert rest == batches[1..];
    } else {
      CostWithout(batches[1..], k - 1);
      assert rest[0] == batches[0] && rest[1..] == batches[1..][..k - 1] + batches[1..][k..];
    }
  }

  lemma {:induction false} InSomeBatch(batches: seq<seq<nat>>, x: nat) returns (k: nat)
    requires x in Flatten(batches)
    ensures k < |batches| && x in batches[k]
    decreases |batches|
  {
    if x in batches[0] {
      k := 0;
    } else {
      var j := InSomeBatch(batches[1..], x);
      k := j + 1;
    }
  }

  // No split into batches of this size costs less than the sorted one: the batch with the longest
  // slice costs size times it, and what it leaves behind dominates the shorter end of the list.
  lemma {:induction false} SortedIsCheapest(a: seq<nat>, size: nat, k: nat, batches: seq<seq<nat>>)
    requires |a| == Times(k, size) && 0 < size && Ascending(a)
    requires (forall b <- batches :: |b| == size) && multiset(Flatten(batches)) == multiset(a)
    ensures SortedCost(a, size, k) <= Cost(batches)
    decreases k
  {
    hide Flatten, Cost, Padded, Ascending;
    if k != 0 {
      var shorter := a[..Times(k - 1, size)];
      var top, others, rest := WithoutTopBatch(a, size, k, batches);
      assert SortedCost(a, size, k) == Padded(size, top) + SortedCost(shorter, size, k - 1);
      SortedIsCheapest(rest, size, k - 1, others);
      LongerCostsMore(shorter, rest, size, k - 1);
    }
  }

  // Taking away the batch that holds the longest slice.
  lemma {:induction false} WithoutTopBatch(a: seq<nat>, size: nat, k: nat, batches: seq<seq<nat>>)
    returns (top: nat, others: seq<seq<nat>>, rest: seq<nat>)
    requires |a| == Times(k, size) && 0 < size && Ascending(a) && 0 < k
    requires (forall b <- batches :: |b| == size) && multiset(Flatten(batches)) == multiset(a)
    ensures |a| == Times(k - 1, size) + size && top == a[|a| - 1]
    ensures |rest| == Times(k - 1, size) && Ascending(rest)
    ensures forall i :: 0 <= i < |rest| ==> a[i] <= rest[i]
    ensures forall b <- others :: |b| == size
    ensures multiset(Flatten(others)) == multiset(rest)
    ensures Padded(size, top) + Cost(others) <= Cost(batches)
  {
    top := a[|a| - 1];
    assert |a| == Times(k - 1, size) + size;
    var j := HolderOf(a, batches, top);
    var batch := batches[j];
    others := batches[..j] + batches[j + 1..];
    CostWithout(batches, j);
    assert BatchCost(batch) == Padded(size, Longest(batch));
    hide *;
    assert forall b <- others :: b in batches;
    LongestIsMax(batch);
    PaddedMono(size, top, Longest(batch));
    rest := RemoveBatch(a, batch);
    Cancel(multiset(Flatten(others)), multiset(rest), multiset(batch));
  }

  lemma HolderOf(a: seq<nat>, batches: seq<seq<nat>>, x: nat) returns (j: nat)
    requires multiset(Flatten(batches)) == multiset(a) && x in a
    ensures j < |batches| && x in batches[j]
  {
    assert x in multiset(a);
    assert x in multiset(Flatten(batches));
    j := InSomeBatch(batches, x);
  }

  lemma Cancel(x: multiset<nat>, y: multiset<nat>, z: multiset<nat>)
    requires z + x == y + z
    ensures x == y
  {
    assert x == (z + x) - z;
    assert y == (y + z) - z;
  }

  lemma {:induction false} ConcatCost(xs: seq<seq<nat>>, ys: seq<seq<nat>>)
    ensures Cost(xs + ys) == Cost(xs) + Cost(ys)
    decreases |xs|
  {
    if xs == [] {
      assert xs + ys == ys;
    } else {
      ConcatCost(xs[1..], ys);
      assert (xs + ys)[1..] == xs[1..] + ys;
    }
  }

  // A full batch added at the end is the last chunk.
  lemma {:induction false} LastChunk(front: seq<nat>, last: seq<nat>, size: nat, k: nat)
    requires |front| == Times(k, size) && |last| == size && 0 < size
    ensures Chunks(front + last, size) == Chunks(front, size) + [last]
    decreases k
  {
    if k == 0 {
      assert front + last == last && front == [];
    } else {
      FirstChunk(front + last, size);
      FirstChunk(front, size);
      LastChunk(front[size..], last, size, k - 1);
      hide *;
      SplitFront(front, last, size);
      Regroup([front[..size]], Chunks(front[size..], size), [last]);
    }
  }

  lemma SplitFront(front: seq<nat>, last: seq<nat>, n: nat)
    requires n <= |front|
    ensures (front + last)[..n] == front[..n] && (front + last)[n..] == front[n..] + last
  {
  }

  lemma Regroup(x: seq<seq<nat>>, y: seq<seq<nat>>, z: seq<seq<nat>>)
    ensures x + (y + z) == (x + y) + z
  {
  }

  lemma FirstChunk(order: seq<nat>, size: nat)
    requires 0 < size <= |order|
    ensures Chunks(order, size) == [order[..size]] + Chunks(order[size..], size)
  {
    if |order| == size {
      assert order[..size] == order && order[size..] == [];
    }
  }

  lemma LongestOfAscending(a: seq<nat>)
    requires a != [] && Ascending(a)
    ensures Longest(a) == a[|a| - 1]
  {
    LongestIsMax(a);
    var i :| 0 <= i < |a| && a[i] == Longest(a);
    assert a[i] <= a[|a| - 1];
  }

  lemma AscendingParts(front: seq<nat>, last: seq<nat>)
    requires Ascending(front + last)
    ensures Ascending(front) && Ascending(last)
  {
    var a := front + last;
    assert forall i :: 0 <= i < |front| ==> a[i] == front[i];
    assert forall i :: 0 <= i < |last| ==> a[|front| + i] == last[i];
  }

  lemma SortedCostOfLast(front: seq<nat>, last: seq<nat>, size: nat, k: nat)
    requires |front| == Times(k, size) && |last| == size && 0 < size && Ascending(last)
    ensures SortedCost(front + last, size, k + 1) == SortedCost(front, size, k) + Cost([last])
  {
    var a := front + last;
    LongestOfAscending(last);
    assert Times(k + 1, size) == |a|;
    assert Cost([last]) == BatchCost(last) == Padded(size, last[size - 1]);
    assert SortedCost(a, size, k + 1) == Padded(size, a[|a| - 1]) + SortedCost(a[..|front|], size, k);
    hide *;
    assert a[..|front|] == front && a[|a| - 1] == last[size - 1];
  }

  lemma {:induction false} ChunkCost(a: seq<nat>, size: nat, k: nat)
    requires |a| == Times(k, size) && 0 < size && Ascending(a)
    ensures Cost(Chunks(a, size)) == SortedCost(a, size, k)
    decreases k
  {
    if k == 0 {
      assert a == [] && Chunks(a, size) == [];
      assert Cost([]) == 0 && SortedCost(a, size, k) == 0;
      hide *;
    } else {
      var cut := Times(k - 1, size);
      assert |a| == cut + size;
      hide *;
      var front, last := a[..cut], a[cut..];
      assert a == front + last;
      AscendingParts(front, last);
      SortedCostOfLast(front, last, size, k - 1);
      ChunkCost(front, size, k - 1);
      LastChunk(front, last, size, k - 1);
      ConcatCost(Chunks(front, size), [last]);
    }
  }

  // ---- when the sorted split is the cheapest ----

  // How many batches range(0, n, size) makes.
  function Rounds(n: nat, size: nat): nat
    requires 0 < size
  {
    if n == 0 then 0 else if n <= size then 1 else 1 + Rounds(n - size, size)
  }

  // Another way to put the same slices into as many batches, none over size.
  predicate IsSplit(batches: seq<seq<nat>>, a: seq<nat>, size: nat)
    requires 0 < size
  {
    && |batches| == Rounds(|a|, size)
    && (forall b <- batches :: |b| <= size)
    && multiset(Flatten(batches)) == multiset(a)
  }

  // For all lists of n slices, none shorter than `least`.
  ghost predicate SortedIsBest(n: nat, size: nat, least: nat)
    requires 0 < size
  {
    forall a, batches :: |a| == n && Ascending(a) && AllAtLeast(a, least) && IsSplit(batches, a, size) ==>
      Cost(Chunks(a, size)) <= Cost(batches)
  }

  predicate AllAtLeast(a: seq<nat>, least: nat)
  {
    forall i :: 0 <= i < |a| ==> least <= a[i]
  }

  lemma {:induction false} RoundsOfTimes(k: nat, size: nat, r: nat)
    requires 0 < size && 0 <= r < size
    ensures Rounds(Times(k, size) + r, size) == if r == 0 then k else k + 1
    decreases k
  {
    if k != 0 {
      RoundsOfTimes(k - 1, size, r);
    }
  }

  lemma DivideUp(n: nat, size: nat) returns (k: nat, r: nat)
    requires 0 < size
    ensures r == n % size && n == Times(k, size) + r
  {
    k, r := n / size, n % size;
    TimesIsProduct(k, size);
  }

  lemma {:induction false} FlattenLength(batches: seq<seq<nat>>, size: nat)
    requires forall b <- batches :: |b| <= size
    ensures |Flatten(batches)| <= Times(|batches|, size)
    ensures |Flatten(batches)| == Times(|batches|, size) ==> forall b <- batches :: |b| == size
    decreases |batches|
  {
    if batches != [] {
      FlattenLength(batches[1..], size);
      assert forall b <- batches :: b == batches[0] || b in batches[1..];
    }
  }

  lemma WhenItDivides(a: seq<nat>, size: nat, k: nat, batches: seq<seq<nat>>)
    requires 0 < size && |a| == Times(k, size) && Ascending(a) && IsSplit(batches, a, size)
    ensures Cost(Chunks(a, size)) <= Cost(batches)
  {
    RoundsOfTimes(k, size, 0);
    assert |Flatten(batches)| == |multiset(Flatten(batches))| == |multiset(a)| == |a|;
    FlattenLength(batches, size);
    hide *;
    ChunkCost(a, size, k);
    SortedIsCheapest(a, size, k, batches);
  }

  lemma WhenOneBatch(a: seq<nat>, size: nat, batches: seq<seq<nat>>)
    requires 0 < |a| < size && IsSplit(batches, a, size)
    ensures Cost(Chunks(a, size)) <= Cost(batches)
  {
    var b := batches[0];
    assert batches == [b] && Flatten([]) == [];
    FlattenCons(b, []);
    assert Flatten(batches) == b;
    assert |b| == |multiset(b)| == |multiset(a)| == |a|;
    LongestIsMax(a);
    LongestIsMax(b);
    var i :| 0 <= i < |a| && a[i] == Longest(a);
    assert a[i] in multiset(a) && a[i] in multiset(b);
    PaddedMono(|a|, Longest(a), Longest(b));
    CostOfOne(a);
    CostOfOne(b);
  }

  lemma CostOfOne(batch: seq<nat>)
    ensures Cost([batch]) == BatchCost(batch)
  {
    assert [batch][1..] == [] && Cost([]) == 0;
  }

  function Fill(n: nat, x: nat): seq<nat>
  {
    seq(n, _ => x)
  }

  lemma PaddedSum(m: nat, n: nat, x: nat)
    ensures Padded(m + n, x) == Padded(m, x) + Padded(n, x)
  {
  }

  lemma PaddedGap(n: nat, x: nat, y: nat)
    requires x <= y
    ensures Padded(n, y) == Padded(n, x) + Padded(n, y - x)
  {
    assert n * y == n * x + n * (y - x);
  }

  // Equal lengths need no padding.
  lemma {:induction false} FillCost(n: nat, x: nat, size: nat)
    requires 0 < size
    ensures Cost(Chunks(Fill(n, x), size)) == Padded(n, x)
    decreases n
  {
    var a := Fill(n, x);
    if n > size {
      assert a[..size] == Fill(size, x) && a[size..] == Fill(n - size, x);
      FirstChunk(a, size);
      OneFill(size, x);
      FillCost(n - size, x, size);
      PaddedSum(size, n - size, x);
      hide *;
      ConcatCost([Fill(size, x)], Chunks(Fill(n - size, x), size));
    } else if n > 0 {
      OneFill(n, x);
    }
  }

  lemma OneFill(n: nat, x: nat)
    requires 0 < n
    ensures Cost([Fill(n, x)]) == Padded(n, x)
  {
    var a := Fill(n, x);
    LongestIsMax(a);
    assert Cost([a]) == BatchCost(a);
  }

  // The sorted split puts its short batch at the long end, so it pads the short slices of another
  // batch up to a long one; with the short batch at the short end nothing is padded. Any two
  // lengths show it.
  lemma LeftoverCounterexample(size: nat, k: nat, r: nat, x: nat, y: nat)
    returns (a: seq<nat>, batches: seq<seq<nat>>)
    requires 0 < r < size && 0 < k && x < y
    ensures |a| == Times(k, size) + r && Ascending(a) && AllAtLeast(a, x) && IsSplit(batches, a, size)
    ensures Cost(Chunks(a, size)) == Cost(batches) + Padded(r, y - x) > Cost(batches)
  {
    var m := Times(k, size);
    assert size <= m;
    a := Fill(r, x) + Fill(m, y);
    batches := [Fill(r, x)] + Chunks(Fill(m, y), size);
    RoundsOfTimes(k, size, r);
    RoundsOfTimes(k, size, 0);
    hide *;
    FillThenFill(r, x, m, y);
    SplitWithFirst(Fill(r, x), Fill(m, y), size);
    OneFill(r, x);
    FillCost(m, y, size);
    ConcatCost([Fill(r, x)], Chunks(Fill(m, y), size));
    MixedCost(a, size, r, x, y);
    PaddedSum(r, m, y);
    PaddedGap(r, x, y);
    PaddedMore(r, y - x);
  }

  lemma PaddedMore(n: nat, x: nat)
    requires 0 < n && 0 < x
    ensures 0 < Padded(n, x)
  {
    PaddedMono(n, 1, x);
  }

  lemma FillThenFill(r: nat, x: nat, m: nat, y: nat)
    requires x <= y
    ensures var a := Fill(r, x) + Fill(m, y);
      |Fill(r, x)| == r && |Fill(m, y)| == m && |a| == r + m && Ascending(a) && AllAtLeast(a, x)
  {
  }

  // A split of the rest, with one more batch in front.
  lemma SplitWithFirst(first: seq<nat>, rest: seq<nat>, size: nat)
    requires 0 < size && |first| <= size
    requires Rounds(|first| + |rest|, size) == 1 + Rounds(|rest|, size)
    ensures IsSplit([first] + Chunks(rest, size), first + rest, size)
  {
    hide Flatten, Chunks, Rounds;
    ChunksPartition(rest, size);
    ChunksCount(rest, size);
    FlattenCons(first, Chunks(rest, size));
  }

  lemma {:induction false} ChunksCount(a: seq<nat>, size: nat)
    requires 0 < size
    ensures |Chunks(a, size)| == Rounds(|a|, size)
    decreases |a|
  {
    if |a| > size {
      ChunksCount(a[size..], size);
    }
  }

  // r short slices, then long ones: the long ones fill up the first batch.
  lemma MixedCost(a: seq<nat>, size: nat, r: nat, x: nat, y: nat)
    requires 0 < r < size <= |a| && a == Fill(r, x) + Fill(|a| - r, y) && x < y
    ensures Cost(Chunks(a, size)) == Padded(|a|, y)
  {
    var first, rest := a[..size], a[size..];
    FirstChunk(a, size);
    assert rest == Fill(|a| - size, y);
    assert first[size - 1] == a[size - 1] == y;
    LongestIsMax(first);
    assert Cost([first]) == BatchCost(first) == Padded(size, y);
    hide *;
    FillCost(|a| - size, y, size);
    ConcatCost([first], Chunks(rest, size));
    PaddedSum(size, |a| - size, y);
  }

  // Sorting carries the least padding for every list of n slices exactly when no batch is short,
  // or there is only one, however long the slices must be.
  lemma SortedIsBestIff(n: nat, size: nat, least: nat)
    requires 0 < size
    ensures SortedIsBest(n, size, least) <==> n % size == 0 || n < size
  {
    var k, r := DivideUp(n, size);
    if r == 0 || n < size {
      forall a, batches | |a| == n && Ascending(a) && AllAtLeast(a, least) && IsSplit(batches, a, size)
        ensures Cost(Chunks(a, size)) <= Cost(batches)
      {
        if r == 0 {
          WhenItDivides(a, size, k, batches);
        } else {
          WhenOneBatch(a, size, batches);
        }
      }
    } else {
      var a, batches := LeftoverCounterexample(size, k, r, least, least + 1);
    }
  }
}
