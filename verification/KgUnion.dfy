// When two lists of items fold to one graph, and when the work dirs fold to the merged graph.

module KgUnion {
  import opened KgModel
  import opened KgFold
  import opened KgFoldOrder
  import opened KgAdapter
  import opened KgShardOrder

  // ---- what every fold of these items does ----

  // At some borrowing edge of the pair d is the one chunk that can have reached its source.
  ghost predicate Sure(cx: Context, xs: seq<Item>, p: Pair, d: Chunk)
    decreases |xs|
  {
    xs != [] && (Sure(cx, Front(xs), p, d) || (BorrowsFor(cx, Last(xs), p) && OnlyHanded(cx, Front(xs), p.0, d)))
  }

  ghost predicate OnlyHanded(cx: Context, xs: seq<Item>, e: Eid, d: Chunk)
  {
    Handed(cx, xs, e, d) && forall c :: Handed(cx, xs, e, c) ==> c == d
  }

  // What is held was handed over.
  lemma {:induction false} HeldIsHanded(cx: Context, xs: seq<Item>, st: Graph)
    requires Run(cx, EMPTY, xs, st)
    ensures forall e: Eid, c :: c in st.Mentions(e) ==> Handed(cx, xs, e, c)
    decreases |xs|
  {
    hide Gives, Relates, Context.ItemKeys, Context.Ends, Graph.Sound, Keys, Step;
    if xs != [] {
      var mid := SplitRun(cx, xs, st);
      HeldIsHanded(cx, Front(xs), mid);
      var picked := StepEffect(cx, mid, Last(xs), st);
    }
  }

  // What is recorded is the items' own, or could be borrowed.
  lemma {:induction false} KeyIsTriggered(cx: Context, xs: seq<Item>, st: Graph, p: Pair, d: Chunk)
    requires Run(cx, EMPTY, xs, st) && (p.0, p.1, d) in Keys(st.rels)
    ensures Records(cx, xs, p, d) || Triggered(cx, xs, p, d)
    decreases |xs|
  {
    hide Gives, Relates, Context.ItemKeys, Context.Ends, Graph.Sound, Keys, Step, Handed, Run;
    if xs == [] {
      NothingRecorded(cx, st);
    } else {
      var x := Last(xs);
      assert x in xs && forall y :: y in Front(xs) ==> y in xs;
      var mid := SplitRun(cx, xs, st);
      HeldIsHanded(cx, Front(xs), mid);
      var picked := StepEffect(cx, mid, x, st);
      if (p.0, p.1, d) in Keys(mid.rels) {
        KeyIsTriggered(cx, Front(xs), mid, p, d);
      }
    }
  }

  // What an effect means for one entity and chunk.
  lemma EffectOn(cx: Context, st: Graph, x: Item, st': Graph, picked: set<Chunk>, e: Eid, c: Chunk)
    requires Effect(cx, st, x, st', picked)
    ensures c in st'.Mentions(e) <==>
      c in st.Mentions(e) || Gives(cx, x, e, c) || (c in picked && cx.Borrows(x) && e == cx.Ends(x.edge).1)
  {
    var own := Gives(cx, x, e, c);
  }

  // Who is handed one chunk holds some chunk, that one or another, whatever is picked.
  lemma {:induction false} HandedIsSome(cx: Context, xs: seq<Item>, st: Graph)
    requires Run(cx, EMPTY, xs, st)
    ensures forall e, c :: Handed(cx, xs, e, c) ==> st.Mentions(e) != {}
    decreases |xs|
  {
    hide Gives, Relates, Context.ItemKeys, Context.Ends, Graph.Sound, Graph.Mentions, Keys, Step, Run;
    if xs != [] {
      var x := Last(xs);
      var mid := SplitRun(cx, xs, st);
      HandedIsSome(cx, Front(xs), mid);
      var picked := StepEffect(cx, mid, x, st);
      forall e, c | Handed(cx, xs, e, c) ensures st.Mentions(e) != {} {
        if Handed(cx, Front(xs), e, c) {
          var b :| b in mid.Mentions(e);
          EffectOn(cx, mid, x, st, picked, e, b);
        } else if Gives(cx, x, e, c) {
          EffectOn(cx, mid, x, st, picked, e, c);
        } else {
          var q := cx.Ends(x.edge).0;
          assert Handed(cx, Front(xs), q, c) && mid.Mentions(q) != {};
          var b :| b in picked;
          EffectOn(cx, mid, x, st, picked, e, b);
        }
      }
    }
  }

  lemma {:induction false} SureIsRecorded(cx: Context, xs: seq<Item>, st: Graph, p: Pair, d: Chunk)
    requires Run(cx, EMPTY, xs, st) && Sure(cx, xs, p, d)
    ensures (p.0, p.1, d) in Keys(st.rels)
    decreases |xs|
  {
    hide Gives, Relates, Context.ItemKeys, Context.Ends, Graph.Sound, Graph.Mentions, Keys, Step, Run, Handed;
    var x := Last(xs);
    var mid := SplitRun(cx, xs, st);
    var picked := StepEffect(cx, mid, x, st);
    if Sure(cx, Front(xs), p, d) {
      SureIsRecorded(cx, Front(xs), mid, p, d);
    } else {
      HeldIsHanded(cx, Front(xs), mid);
      HandedIsSome(cx, Front(xs), mid);
      assert BorrowsFor(cx, x, p) && mid.Mentions(p.0) != {};
      var b :| b in mid.Mentions(p.0) && picked == {b};
      assert Handed(cx, Front(xs), p.0, b);
    }
  }

  // ---- two folds: one that borrows d wherever it can, one wherever it must ----

  lemma ChooseStep(cx: Context, st: Graph, x: Item, c: Chunk) returns (st': Graph)
    requires st.Sound(cx.meta) && cx.Borrows(x) && c in st.Mentions(cx.Ends(x.edge).0)
    ensures Step(cx, st, x, st') && st'.Sound(cx.meta) && Effect(cx, st, x, st', {c})
  {
    hide EdgeStep, Graph.Sound, Step, Effect, Context.Ends, Graph.Mentions;
    assert EdgeChunks(cx, st, x, {c});
    var added;
    st', added := EdgeStepExists(cx, st, x, {c});
    BorrowSpreads(cx, st, x, st', {c}, added);
    StepSound(cx, st, x, st');
  }

  lemma AnyStep(cx: Context, st: Graph, x: Item) returns (st': Graph, picked: set<Chunk>)
    requires st.Sound(cx.meta)
    ensures Step(cx, st, x, st') && st'.Sound(cx.meta)
    ensures Picks(cx, st, x, picked) && Effect(cx, st, x, st', picked)
  {
    hide Step, Graph.Sound, Picks, Effect;
    st' := StepExists(cx, st, x);
    picked := StepEffect(cx, st, x, st');
    StepSound(cx, st, x, st');
  }

  lemma {:induction false} PreferringFold(cx: Context, xs: seq<Item>, d: Chunk) returns (st: Graph)
    ensures Run(cx, EMPTY, xs, st) && st.Sound(cx.meta)
    ensures forall e :: Handed(cx, xs, e, d) ==> d in st.Mentions(e)
    ensures forall p: Pair :: Triggered(cx, xs, p, d) ==> (p.0, p.1, d) in Keys(st.rels)
    decreases |xs|
  {
    hide Gives, Relates, Context.Ends, Graph.Sound, Graph.Mentions, Keys, Step, Context.ItemKeys;
    if xs == [] {
      st := EMPTY;
      EmptyIsSound(cx);
    } else {
      var x := Last(xs);
      var mid := PreferringFold(cx, Front(xs), d);
      if cx.Borrows(x) && d in mid.Mentions(cx.Ends(x.edge).0) {
        st := ChooseStep(cx, mid, x, d);
      } else {
        var picked;
        st, picked := AnyStep(cx, mid, x);
      }
      hide Picks;
    }
  }

  // Someone holds a chunk besides d.
  predicate HoldsOther(st: Graph, e: Eid, d: Chunk)
  {
    exists c :: c in st.Mentions(e) && c != d
  }

  lemma {:induction false} AvoidingFold(cx: Context, xs: seq<Item>, d: Chunk) returns (st: Graph)
    ensures Run(cx, EMPTY, xs, st) && st.Sound(cx.meta)
    ensures forall e, c :: Handed(cx, xs, e, c) && c != d ==> HoldsOther(st, e, d)
    ensures forall p: Pair :: (p.0, p.1, d) in Keys(st.rels) ==> Records(cx, xs, p, d) || Sure(cx, xs, p, d)
    decreases |xs|
  {
    hide Gives, Relates, Graph.Sound, Graph.Mentions, Keys, Step, Context.ItemKeys, Context.Ends, Records, Sure, Handed,
      OnlyHanded, HoldsOther, Run, Picks, Effect;
    if xs == [] {
      st := NothingFolded(cx, d);
    } else {
      var mid := AvoidingFold(cx, Front(xs), d);
      st := AvoidingStep(cx, xs, mid, d);
      RunGrows(cx, xs, mid, st);
    }
  }

  lemma NothingFolded(cx: Context, d: Chunk) returns (st: Graph)
    ensures Run(cx, EMPTY, [], st) && st.Sound(cx.meta) && Keys(st.rels) == {}
    ensures forall e, c :: !Handed(cx, [], e, c)
  {
    st := EMPTY;
    EmptyIsSound(cx);
  }

  lemma RunGrows(cx: Context, xs: seq<Item>, mid: Graph, st: Graph)
    requires xs != [] && Run(cx, EMPTY, Front(xs), mid) && Step(cx, mid, Last(xs), st)
    ensures Run(cx, EMPTY, xs, st)
  {
  }

  lemma AvoidingStep(cx: Context, xs: seq<Item>, mid: Graph, d: Chunk) returns (st: Graph)
    requires xs != [] && Run(cx, EMPTY, Front(xs), mid) && mid.Sound(cx.meta)
    requires forall e, c :: Handed(cx, Front(xs), e, c) && c != d ==> HoldsOther(mid, e, d)
    requires forall p: Pair :: (p.0, p.1, d) in Keys(mid.rels) ==>
      Records(cx, Front(xs), p, d) || Sure(cx, Front(xs), p, d)
    ensures Step(cx, mid, Last(xs), st) && st.Sound(cx.meta)
    ensures forall e, c :: Handed(cx, xs, e, c) && c != d ==> HoldsOther(st, e, d)
    ensures forall p: Pair :: (p.0, p.1, d) in Keys(st.rels) ==> Records(cx, xs, p, d) || Sure(cx, xs, p, d)
  {
    hide Gives, Relates, Graph.Sound, Graph.Mentions, Keys, Step, Context.ItemKeys, Context.Ends, Run;
    var x := Last(xs);
    var picked;
    if cx.Borrows(x) && HoldsOther(mid, cx.Ends(x.edge).0, d) {
      var b :| b in mid.Mentions(cx.Ends(x.edge).0) && b != d;
      picked := {b};
      st := ChooseStep(cx, mid, x, b);
    } else {
      st, picked := AnyStep(cx, mid, x);
    }
    HeldIsHanded(cx, Front(xs), mid);
    OthersHeld(cx, xs, mid, st, picked, d);
    assert forall y :: y in Front(xs) ==> y in xs;
    forall p: Pair | (p.0, p.1, d) in Keys(st.rels) ensures Records(cx, xs, p, d) || Sure(cx, xs, p, d) {
      if d in picked && cx.Borrows(x) && p == cx.Ends(x.edge) {
        assert d in mid.Mentions(p.0) && OnlyHanded(cx, Front(xs), p.0, d);
      } else if !Relates(cx, x, (p.0, p.1, d)) {
        assert (p.0, p.1, d) in Keys(mid.rels);
      }
    }
  }

  lemma OthersHeld(cx: Context, xs: seq<Item>, mid: Graph, st: Graph, picked: set<Chunk>, d: Chunk)
    requires xs != [] && Effect(cx, mid, Last(xs), st, picked)
    requires forall e, c :: Handed(cx, Front(xs), e, c) && c != d ==> HoldsOther(mid, e, d)
    requires cx.Borrows(Last(xs)) && HoldsOther(mid, cx.Ends(Last(xs).edge).0, d) ==> exists b :: b != d && b in picked
    ensures forall e, c :: Handed(cx, xs, e, c) && c != d ==> HoldsOther(st, e, d)
  {
    hide Gives, Relates, Graph.Mentions, Keys, Context.ItemKeys, Context.Ends;
    var x := Last(xs);
    forall e, c | Handed(cx, xs, e, c) && c != d ensures HoldsOther(st, e, d) {
      if Handed(cx, Front(xs), e, c) {
        var b :| b in mid.Mentions(e) && b != d;
        EffectOn(cx, mid, x, st, picked, e, b);
      } else if Gives(cx, x, e, c) {
        EffectOn(cx, mid, x, st, picked, e, c);
      } else {
        assert Handed(cx, Front(xs), cx.Ends(x.edge).0, c);
        var b :| b != d && b in picked;
        EffectOn(cx, mid, x, st, picked, e, b);
      }
    }
  }

  // ---- when two lists of items fold to the same graph ----

  ghost predicate FoldsAgree(cx: Context, xs: seq<Item>, ys: seq<Item>)
  {
    forall a, b :: Run(cx, EMPTY, xs, a) && Run(cx, EMPTY, ys, b) ==> GraphFacts(a) == GraphFacts(b)
  }

  // What either list could borrow and does not record, both are sure to.
  ghost predicate Settled(cx: Context, xs: seq<Item>, ys: seq<Item>)
  {
    forall p, d :: (Triggered(cx, xs, p, d) || Triggered(cx, ys, p, d)) && !Records(cx, xs, p, d) ==>
      Sure(cx, xs, p, d) && Sure(cx, ys, p, d)
  }

  // An entity's chunks are what the items say, and what was recorded with it as the target.
  lemma {:induction false} MentionIsSaidOrKeyed(cx: Context, xs: seq<Item>, st: Graph, e: Eid, c: Chunk)
    requires Run(cx, EMPTY, xs, st) && c in st.Mentions(e)
    ensures Says(cx, xs, e, c) || exists s :: (s, e, c) in Keys(st.rels)
    decreases |xs|
  {
    hide Gives, Relates, Context.ItemKeys, Context.Ends, Graph.Sound, Graph.Mentions, Keys, Step, Run;
    if xs == [] {
      NothingHeld(cx, st, e);
    } else {
      var x := Last(xs);
      assert x in xs && forall y :: y in Front(xs) ==> y in xs;
      var mid := SplitRun(cx, xs, st);
      var picked := StepEffect(cx, mid, x, st);
      EffectOn(cx, mid, x, st, picked, e, c);
      if c in mid.Mentions(e) {
        MentionIsSaidOrKeyed(cx, Front(xs), mid, e, c);
        if s :| (s, e, c) in Keys(mid.rels) {
          assert (s, e, c) in Keys(st.rels);
        }
      } else if !Gives(cx, x, e, c) {
        assert (cx.Ends(x.edge).0, e, c) in Keys(st.rels);
      }
    }
  }

  // The target of a recorded pair has the chunk.
  lemma KeyIsMentioned(cx: Context, xs: seq<Item>, st: Graph, k: RelKey)
    requires Run(cx, EMPTY, xs, st) && k in Keys(st.rels)
    ensures k.2 in st.Mentions(k.1)
  {
    hide Run;
    EmptyIsSound(cx);
    FoldSound(cx, EMPTY, xs, st);
    var r :| r in st.rels && Key(r) == k;
    assert st.RowFits(r);
  }

  // All that a fold of these items can hold.
  function Bounds(f: Facts): Facts
  {
    var chunks := set m <- f.mentions :: m.1;
    f.(mentions := set e, c | e in f.ids && c in chunks :: (e, c),
       relKeys := set s, t, c | s in f.ids && t in f.ids && c in chunks :: (s, t, c))
  }

  lemma ItemIsBounded(cx: Context, xs: seq<Item>, x: Item)
    requires x in xs
    ensures Within(ItemFacts(cx, x), Bounds(AllFacts(cx, xs))) && ClosedUnder(cx, Bounds(AllFacts(cx, xs)), x)
  {
    hide Context.ItemKeys, Context.Ends, Context.GoodName, AllFacts;
    AllFactsHas(cx, xs, x);
    var f := AllFacts(cx, xs);
    if x.EdgeItem? && cx.Kept(x) {
      var (s, t) := cx.Ends(x.edge);
      assert s in f.ids && t in f.ids;
      forall c | c in cx.ItemKeys(x) ensures (s, c) in f.mentions && (t, c) in f.mentions {
        assert (s, c) in ItemFacts(cx, x).mentions && (t, c) in ItemFacts(cx, x).mentions;
      }
    }
  }

  // The entities and those with a concrete type do not depend on what is borrowed.
  lemma FoldIds(cx: Context, xs: seq<Item>, st: Graph)
    requires Run(cx, EMPTY, xs, st)
    ensures GraphFacts(st).ids == AllFacts(cx, xs).ids && GraphFacts(st).concrete == AllFacts(cx, xs).concrete
    ensures Within(AllFacts(cx, xs), GraphFacts(st))
  {
    hide AllFacts, ItemFacts, ClosedUnder, Graph.Sound, Run;
    EmptyIsSound(cx);
    RunAdds(cx, EMPTY, xs, st);
    var f := Bounds(AllFacts(cx, xs));
    forall x <- xs ensures Within(ItemFacts(cx, x), f) && ClosedUnder(cx, f, x) {
      ItemIsBounded(cx, xs, x);
    }
    RunStaysWithin(cx, EMPTY, xs, st, f);
  }

  lemma SameKeysSameGraph(cx: Context, xs: seq<Item>, ys: seq<Item>, a: Graph, b: Graph)
    requires AllFacts(cx, xs) == AllFacts(cx, ys) && Run(cx, EMPTY, xs, a) && Run(cx, EMPTY, ys, b)
    requires Keys(a.rels) == Keys(b.rels)
    ensures GraphFacts(a) == GraphFacts(b)
  {
    hide AllFacts, Run, Keys;
    FoldIds(cx, xs, a);
    FoldIds(cx, ys, b);
    MentionsFollow(cx, xs, ys, a, b);
    MentionsFollow(cx, ys, xs, b, a);
  }

  lemma MentionsFollow(cx: Context, xs: seq<Item>, ys: seq<Item>, a: Graph, b: Graph)
    requires AllFacts(cx, xs) == AllFacts(cx, ys) && Run(cx, EMPTY, xs, a) && Run(cx, EMPTY, ys, b)
    requires Keys(a.rels) == Keys(b.rels)
    ensures GraphFacts(a).mentions <= GraphFacts(b).mentions
  {
    hide AllFacts, Run, Keys, Says;
    MentionsAreSaid(cx, xs);
    FoldIds(cx, ys, b);
    forall m | m in GraphFacts(a).mentions ensures m in GraphFacts(b).mentions {
      MentionIsSaidOrKeyed(cx, xs, a, m.0, m.1);
      if s :| (s, m.0, m.1) in Keys(a.rels) {
        KeyIsMentioned(cx, ys, b, (s, m.0, m.1));
      }
    }
  }

  lemma KeysFollow(cx: Context, xs: seq<Item>, ys: seq<Item>, a: Graph, b: Graph)
    requires AllFacts(cx, xs) == AllFacts(cx, ys) && Run(cx, EMPTY, xs, a) && Run(cx, EMPTY, ys, b)
    requires forall p, d :: Triggered(cx, xs, p, d) && !Records(cx, xs, p, d) ==> Sure(cx, ys, p, d)
    ensures Keys(a.rels) <= Keys(b.rels)
  {
    hide AllFacts, Run, Keys, Records, Triggered, Sure;
    MentionsAreSaid(cx, xs);
    FoldIds(cx, ys, b);
    forall k | k in Keys(a.rels) ensures k in Keys(b.rels) {
      var p := (k.0, k.1);
      KeyIsTriggered(cx, xs, a, p, k.2);
      if !Records(cx, xs, p, k.2) {
        SureIsRecorded(cx, ys, b, p, k.2);
      } else {
        assert (p.0, p.1, k.2) in AllFacts(cx, xs).relKeys;
      }
    }
  }

  lemma RecordAlike(cx: Context, xs: seq<Item>, ys: seq<Item>, p: Pair, d: Chunk)
    requires AllFacts(cx, xs) == AllFacts(cx, ys)
    ensures Records(cx, xs, p, d) <==> Records(cx, ys, p, d)
  {
    hide AllFacts, Records;
    MentionsAreSaid(cx, xs);
    MentionsAreSaid(cx, ys);
    assert Records(cx, xs, p, d) <==> (p.0, p.1, d) in AllFacts(cx, xs).relKeys;
  }

  // When all folds agree, what the one list can borrow the other is sure to.
  lemma AgreeingIsSure(cx: Context, xs: seq<Item>, ys: seq<Item>, p: Pair, d: Chunk)
    requires forall a, b :: Run(cx, EMPTY, xs, a) && Run(cx, EMPTY, ys, b) ==> Keys(a.rels) == Keys(b.rels)
    requires Triggered(cx, xs, p, d) && !Records(cx, ys, p, d)
    ensures Sure(cx, ys, p, d)
  {
    hide Run, Keys, Records, Triggered, Sure;
    var a := PreferringFold(cx, xs, d);
    var b := AvoidingFold(cx, ys, d);
  }

  // Every fold of the one list and every fold of the other give one graph exactly when what either
  // could borrow, and no item records, is sure to be borrowed in both. All of that is read off the
  // lists, without folding them.
  lemma FoldsAgreeIff(cx: Context, xs: seq<Item>, ys: seq<Item>)
    requires AllFacts(cx, xs) == AllFacts(cx, ys)
    ensures FoldsAgree(cx, xs, ys) <==> Settled(cx, xs, ys)
  {
    hide AllFacts, Run, Keys, Records, Triggered, Sure;
    forall p, d ensures Records(cx, xs, p, d) <==> Records(cx, ys, p, d) {
      RecordAlike(cx, xs, ys, p, d);
    }
    if Settled(cx, xs, ys) {
      forall a, b | Run(cx, EMPTY, xs, a) && Run(cx, EMPTY, ys, b) ensures GraphFacts(a) == GraphFacts(b) {
        KeysFollow(cx, xs, ys, a, b);
        KeysFollow(cx, ys, xs, b, a);
        SameKeysSameGraph(cx, xs, ys, a, b);
      }
    }
    if FoldsAgree(cx, xs, ys) {
      KeysAlike(cx, xs, ys);
      forall p, d | (Triggered(cx, xs, p, d) || Triggered(cx, ys, p, d)) && !Records(cx, xs, p, d)
        ensures Sure(cx, xs, p, d) && Sure(cx, ys, p, d)
      {
        if Triggered(cx, xs, p, d) {
          AgreeingIsSure(cx, xs, xs, p, d);
          AgreeingIsSure(cx, xs, ys, p, d);
        } else {
          AgreeingIsSure(cx, ys, xs, p, d);
          AgreeingIsSure(cx, ys, ys, p, d);
        }
      }
    }
  }

  lemma KeysAlike(cx: Context, xs: seq<Item>, ys: seq<Item>)
    requires FoldsAgree(cx, xs, ys)
    ensures forall a, b :: Run(cx, EMPTY, xs, a) && Run(cx, EMPTY, ys, b) ==> Keys(a.rels) == Keys(b.rels)
    ensures forall a, b :: Run(cx, EMPTY, ys, a) && Run(cx, EMPTY, xs, b) ==> Keys(a.rels) == Keys(b.rels)
    ensures forall a, b :: Run(cx, EMPTY, xs, a) && Run(cx, EMPTY, xs, b) ==> Keys(a.rels) == Keys(b.rels)
    ensures forall a, b :: Run(cx, EMPTY, ys, a) && Run(cx, EMPTY, ys, b) ==> Keys(a.rels) == Keys(b.rels)
  {
    hide Run, Keys;
    var u := RunExists(cx, EMPTY, xs);
    var v := RunExists(cx, EMPTY, ys);
    forall a | Run(cx, EMPTY, xs, a) ensures Keys(a.rels) == Keys(v.rels) {
      assert GraphFacts(a).relKeys == GraphFacts(v).relKeys;
    }
    forall b | Run(cx, EMPTY, ys, b) ensures Keys(b.rels) == Keys(u.rels) {
      assert GraphFacts(b).relKeys == GraphFacts(u).relKeys;
    }
    assert Keys(u.rels) == Keys(v.rels);
  }

  // ---- the work dirs against the graph that merges them ----

  // The same node, or an edge between the same two nodes: one graph holds it once.
  predicate Same(x: Item, y: Item)
  {
    match (x, y)
    case (NodeItem(_, n), NodeItem(_, m)) => n.name == m.name
    case (EdgeItem(_, g), EdgeItem(_, h)) =>
      (g.src == h.src && g.tgt == h.tgt) || (g.src == h.tgt && g.tgt == h.src)
    case _ => false
  }

  predicate Concrete(cx: Context, x: Item)
  {
    x.NodeItem? && cx.text.nodeType(cx.text.clean(x.node.name), x.node.kind) != Other
  }

  // One item for all that are the same, with the sources of them all.
  ghost predicate Merges(cx: Context, items: seq<Item>, merged: seq<Item>)
  {
    && (forall i, j :: 0 <= i < j < |merged| ==> !Same(merged[i], merged[j]))
    && (forall x :: x in items ==> exists m :: m in merged && Same(x, m))
    && (forall m :: m in merged ==> SomeSame(items, m))
    && (forall m, c :: m in merged ==> (c in cx.ItemKeys(m) <==> SomeKeyed(cx, items, m, c)))
    && (forall m :: m in merged ==> (Concrete(cx, m) <==> SomeConcrete(cx, items, m)))
  }

  ghost predicate SomeSame(items: seq<Item>, m: Item)
  {
    exists x :: x in items && Same(x, m)
  }

  ghost predicate SomeKeyed(cx: Context, items: seq<Item>, m: Item, c: Chunk)
  {
    exists x :: x in items && Same(x, m) && c in cx.ItemKeys(x)
  }

  ghost predicate SomeConcrete(cx: Context, items: seq<Item>, m: Item)
  {
    exists x :: x in items && Same(x, m) && Concrete(cx, x)
  }

  // g is the graph of a single run: the graphs of all work dirs put together, in any order.
  ghost predicate Merged(cx: Context, ws: seq<Shard>, g: Shard)
  {
    g.hasGraph && Merges(cx, Items(ws), Items([g]))
  }

  lemma SameAsserts(cx: Context, x: Item, m: Item)
    requires Same(x, m)
    ensures cx.Kept(x) <==> cx.Kept(m)
    ensures ItemFacts(cx, x).ids == ItemFacts(cx, m).ids
    ensures cx.ItemKeys(x) <= cx.ItemKeys(m) && (Concrete(cx, x) ==> Concrete(cx, m)) ==>
      Within(ItemFacts(cx, x), ItemFacts(cx, m))
  {
    hide Context.KeysOf, Context.GoodName, Context.Id;
  }

  lemma MergedGathers(cx: Context, items: seq<Item>, merged: seq<Item>, m: Item)
    requires Merges(cx, items, merged) && m in merged
    ensures SomeSame(items, m) && (Concrete(cx, m) <==> SomeConcrete(cx, items, m))
    ensures forall c :: c in cx.ItemKeys(m) <==> SomeKeyed(cx, items, m, c)
  {
    hide Same, Concrete, Context.ItemKeys, SomeSame, SomeKeyed, SomeConcrete;
  }

  lemma MergedHas(cx: Context, items: seq<Item>, merged: seq<Item>, x: Item) returns (m: Item)
    requires Merges(cx, items, merged) && x in items
    ensures m in merged && Same(x, m) && cx.ItemKeys(x) <= cx.ItemKeys(m) && (Concrete(cx, x) ==> Concrete(cx, m))
  {
    hide Same, Concrete, Context.ItemKeys;
    m :| m in merged && Same(x, m);
    MergedGathers(cx, items, merged, m);
    forall c <- cx.ItemKeys(x) ensures c in cx.ItemKeys(m) {
      assert SomeKeyed(cx, items, m, c);
    }
    assert Concrete(cx, x) ==> SomeConcrete(cx, items, m);
  }

  // Whatever an item of one side asserts, the items of the other assert.
  lemma MergedAsserts(cx: Context, items: seq<Item>, merged: seq<Item>)
    requires Merges(cx, items, merged)
    ensures AllFacts(cx, items) == AllFacts(cx, merged)
  {
    hide ItemFacts, AllFacts, Same, Concrete, Context.ItemKeys, Merges;
    forall x | x in items ensures Within(ItemFacts(cx, x), AllFacts(cx, merged)) {
      var m := MergedHas(cx, items, merged, x);
      SameAsserts(cx, x, m);
      AllFactsHas(cx, merged, m);
    }
    forall m | m in merged ensures Within(ItemFacts(cx, m), AllFacts(cx, items)) {
      MergedIsSaid(cx, items, merged, m);
    }
    AllWithin(cx, items, AllFacts(cx, merged));
    AllWithin(cx, merged, AllFacts(cx, items));
    WithinBoth(AllFacts(cx, items), AllFacts(cx, merged));
  }

  lemma AllWithin(cx: Context, items: seq<Item>, f: Facts)
    requires forall x :: x in items ==> Within(ItemFacts(cx, x), f)
    ensures Within(AllFacts(cx, items), f)
  {
    hide ItemFacts;
  }

  // What an item that has chunk c, or a concrete type, asserts of it.
  lemma FactsAre(cx: Context, x: Item)
    ensures forall f: (Eid, Chunk) :: f in ItemFacts(cx, x).mentions <==>
      cx.Kept(x) && f.1 in cx.ItemKeys(x) && f.0 in ItemFacts(cx, x).ids
    ensures forall k :: k in ItemFacts(cx, x).relKeys <==>
      cx.Kept(x) && k.2 in cx.ItemKeys(x) && x.EdgeItem? && (k.0, k.1) == cx.Ends(x.edge)
    ensures forall e :: e in ItemFacts(cx, x).concrete <==> e in ItemFacts(cx, x).ids && Concrete(cx, x)
  {
    hide Context.ItemKeys, Context.GoodName, Context.Id;
  }

  lemma MergedIsSaid(cx: Context, items: seq<Item>, merged: seq<Item>, m: Item)
    requires Merges(cx, items, merged) && m in merged
    ensures Within(ItemFacts(cx, m), AllFacts(cx, items))
  {
    hide Same, Concrete, AllFacts, ItemFacts, Context.ItemKeys, Context.Kept, Merges;
    MergedGathers(cx, items, merged, m);
    FactsAre(cx, m);
    var x :| x in items && Same(x, m);
    SaysAsMuch(cx, items, x, m);
    forall c | c in cx.ItemKeys(m) ensures Covers(cx, items, m, c) {
      assert SomeKeyed(cx, items, m, c);
      var y :| y in items && Same(y, m) && c in cx.ItemKeys(y);
      SaysAsMuch(cx, items, y, m);
    }
    if Concrete(cx, m) {
      var y :| y in items && Same(y, m) && Concrete(cx, y);
      SaysAsMuch(cx, items, y, m);
    }
    forall v | v in ItemFacts(cx, m).mentions ensures v in AllFacts(cx, items).mentions {
      assert Covers(cx, items, m, v.1);
    }
    forall k | k in ItemFacts(cx, m).relKeys ensures k in AllFacts(cx, items).relKeys {
      assert Covers(cx, items, m, k.2);
    }
  }

  // What m asserts of c, the items assert.
  predicate Covers(cx: Context, items: seq<Item>, m: Item, c: Chunk)
  {
    && (forall v <- ItemFacts(cx, m).mentions :: v.1 == c ==> v in AllFacts(cx, items).mentions)
    && (forall k <- ItemFacts(cx, m).relKeys :: k.2 == c ==> k in AllFacts(cx, items).relKeys)
  }

  // x asserts what m does, as far as its own sources and type go.
  lemma SaysAsMuch(cx: Context, items: seq<Item>, x: Item, m: Item)
    requires x in items && Same(x, m)
    ensures ItemFacts(cx, m).ids <= AllFacts(cx, items).ids
    ensures forall c <- cx.ItemKeys(x) :: Covers(cx, items, m, c)
    ensures Concrete(cx, x) ==> ItemFacts(cx, m).concrete <= AllFacts(cx, items).concrete
  {
    SameAsserts(cx, x, m);
    SameEnds(cx, x, m);
    hide AllFacts, ItemFacts, Concrete, Context.ItemKeys, Context.Kept, Context.Ends;
    FactsAre(cx, x);
    FactsAre(cx, m);
    AllFactsHas(cx, items, x);
  }

  lemma SameEnds(cx: Context, x: Item, m: Item)
    requires Same(x, m)
    ensures x.EdgeItem? == m.EdgeItem? && (x.EdgeItem? ==> cx.Ends(x.edge) == cx.Ends(m.edge))
  {
    hide Context.Id;
  }

  // The work dirs, in every order, fold to what the one graph folds to, exactly when they are settled.
  lemma UnionIsOneGraphIff(cx: Context, ws: seq<Shard>, g: Shard)
    requires Merged(cx, ws, g)
    ensures (forall vs :: Permuted(vs, ws) ==> FoldsAgree(cx, Items(vs), Items([g]))) <==>
      forall vs :: Permuted(vs, ws) ==> Settled(cx, Items(vs), Items([g]))
  {
    hide Items, AllFacts, Merges, FoldsAgree, Settled;
    MergedAsserts(cx, Items(ws), Items([g]));
    forall vs | Permuted(vs, ws)
      ensures FoldsAgree(cx, Items(vs), Items([g])) <==> Settled(cx, Items(vs), Items([g]))
    {
      PermutedAssert(cx, vs, ws);
      FoldsAgreeIff(cx, Items(vs), Items([g]));
    }
  }

  lemma PermutedAssert(cx: Context, vs: seq<Shard>, ws: seq<Shard>)
    requires Permuted(vs, ws)
    ensures AllFacts(cx, Items(vs)) == AllFacts(cx, Items(ws))
  {
    hide Items, AllFacts;
    assert Arranged(Items(vs), ws);
    ArrangedItems(Items(vs), ws);
    SameFacts(cx, Items(vs), Items(ws));
  }

  // Edges whose sources all resolve settle it.
  lemma ResolvedUnionIsOneGraph(cx: Context, ws: seq<Shard>, g: Shard)
    requires Merged(cx, ws, g) && forall x :: x in Items(ws) && x.EdgeItem? ==> cx.ItemKeys(x) != {}
    ensures FoldsAgree(cx, Items(ws), Items([g]))
  {
    hide Items, AllFacts, Run, GraphFacts, Concrete, Context.ItemKeys, Same, Merges;
    MergedAsserts(cx, Items(ws), Items([g]));
    forall m <- Items([g]) | m.EdgeItem? ensures cx.ItemKeys(m) != {} {
      MergedResolves(cx, Items(ws), Items([g]), m);
    }
    ResolvedEdgesAreHarmless(cx, Items(ws));
    ResolvedEdgesAreHarmless(cx, Items([g]));
    forall a, b | Run(cx, EMPTY, Items(ws), a) && Run(cx, EMPTY, Items([g]), b) ensures GraphFacts(a) == GraphFacts(b) {
      HarmlessFold(cx, Items(ws), a);
      HarmlessFold(cx, Items([g]), b);
    }
  }

  lemma MergedResolves(cx: Context, items: seq<Item>, merged: seq<Item>, m: Item)
    requires Merges(cx, items, merged) && m in merged && m.EdgeItem?
    requires forall x :: x in items && x.EdgeItem? ==> cx.ItemKeys(x) != {}
    ensures cx.ItemKeys(m) != {}
  {
    hide Context.ItemKeys, Concrete, Merges;
    MergedGathers(cx, items, merged, m);
    var x :| x in items && Same(x, m);
    var c :| c in cx.ItemKeys(x);
    assert SomeKeyed(cx, items, m, c);
  }

  // ---- steady work dirs fold to the one graph ----

  // A merged edge that borrows stands for edges that borrow.
  lemma MergedBorrows(cx: Context, items: seq<Item>, merged: seq<Item>, m: Item) returns (x: Item)
    requires Merges(cx, items, merged) && m in merged && cx.Borrows(m)
    ensures x in items && cx.Borrows(x) && cx.Ends(x.edge) == cx.Ends(m.edge)
  {
    hide Merges, Context.ItemKeys, Concrete, Same, Context.Ends, Context.Kept;
    MergedGathers(cx, items, merged, m);
    x :| x in items && Same(x, m);
    SameAsserts(cx, x, m);
    SameEnds(cx, x, m);
    forall c | c in cx.ItemKeys(x) ensures c in cx.ItemKeys(m) {
      assert SomeKeyed(cx, items, m, c);
    }
  }

  // Edges of a pair that is recorded in no chunk borrow, and so does what they are merged into.
  lemma UnrecordedBorrows(cx: Context, items: seq<Item>, merged: seq<Item>, p: Pair) returns (m: Item)
    requires Merges(cx, items, merged) && Borrowed(cx, items, p) && forall c :: !Records(cx, items, p, c)
    ensures m in merged && BorrowsFor(cx, m, p)
  {
    hide Merges, Context.ItemKeys, Concrete, Same, Context.Ends, Context.Kept, Relates;
    var x :| x in items && BorrowsFor(cx, x, p);
    m := MergedHas(cx, items, merged, x);
    SameAsserts(cx, x, m);
    SameEnds(cx, x, m);
    forall c | c in cx.ItemKeys(m) ensures Records(cx, items, p, c) {
      MergedKeyIsRecorded(cx, items, merged, m, p, c);
    }
  }

  lemma MergedKeyIsRecorded(cx: Context, items: seq<Item>, merged: seq<Item>, m: Item, p: Pair, c: Chunk)
    requires Merges(cx, items, merged) && m in merged
    requires m.EdgeItem? && cx.Kept(m) && cx.Ends(m.edge) == p && c in cx.ItemKeys(m)
    ensures Records(cx, items, p, c)
  {
    hide Merges, Context.ItemKeys, Concrete, Same, Context.Ends, Context.Kept, Relates;
    MergedGathers(cx, items, merged, m);
    assert SomeKeyed(cx, items, m, c);
    var y :| y in items && Same(y, m) && c in cx.ItemKeys(y);
    SameAsserts(cx, y, m);
    SameEnds(cx, y, m);
    KeyRelates(cx, y, p, c);
  }

  lemma KeyRelates(cx: Context, y: Item, p: Pair, c: Chunk)
    requires y.EdgeItem? && cx.Kept(y) && cx.Ends(y.edge) == p && c in cx.ItemKeys(y)
    ensures Relates(cx, y, (p.0, p.1, c))
  {
    hide Context.ItemKeys, Context.Ends, Context.Kept;
    EdgeGives(cx, y);
  }

  lemma MergedNodeSays(cx: Context, items: seq<Item>, merged: seq<Item>, e: Eid, c: Chunk) returns (m: Item)
    requires Merges(cx, items, merged) && NodeSays(cx, items, e, c)
    ensures m in merged && m.NodeItem? && Gives(cx, m, e, c)
  {
    hide Merges, Context.ItemKeys, Concrete, ItemFacts, Context.Kept;
    var x :| x in items && x.NodeItem? && Gives(cx, x, e, c);
    m := MergedHas(cx, items, merged, x);
    SameAsserts(cx, x, m);
  }

  lemma SayAlike(cx: Context, items: seq<Item>, merged: seq<Item>)
    requires AllFacts(cx, items) == AllFacts(cx, merged)
    ensures forall e, c :: Says(cx, items, e, c) <==> Says(cx, merged, e, c)
    ensures forall p: Pair, c :: Records(cx, items, p, c) <==> Records(cx, merged, p, c)
  {
    hide AllFacts, Says, Records;
    MentionsAreSaid(cx, items);
    MentionsAreSaid(cx, merged);
    forall e, c ensures Says(cx, items, e, c) <==> Says(cx, merged, e, c) {
      assert Says(cx, items, e, c) <==> (e, c) in AllFacts(cx, items).mentions;
    }
    forall p: Pair, c ensures Records(cx, items, p, c) <==> Records(cx, merged, p, c) {
      RecordAlike(cx, items, merged, p, c);
    }
  }

  lemma LoneStays(cx: Context, items: seq<Item>, merged: seq<Item>, p: Pair, d: Chunk)
    requires Merges(cx, items, merged) && Lone(cx, items, p, d)
    ensures Lone(cx, merged, p, d)
  {
    hide Merges, Says, Gives, Context.ItemKeys, Context.Ends, AllFacts;
    MergedAsserts(cx, items, merged);
    SayAlike(cx, items, merged);
    var m := MergedNodeSays(cx, items, merged, p.0, d);
    if IsSource(cx, merged, p.1) {
      var b :| b in merged && cx.Borrows(b) && cx.Ends(b.edge).0 == p.1;
      var x := MergedBorrows(cx, items, merged, b);
      assert IsSource(cx, items, p.1);
    }
  }

  lemma MergedIsSteady(cx: Context, items: seq<Item>, merged: seq<Item>)
    requires Merges(cx, items, merged) && PairsSteady(cx, items)
    ensures PairsSteady(cx, merged)
    ensures forall p :: Borrowed(cx, merged, p) ==> Borrowed(cx, items, p)
  {
    hide Merges, Says, Records, Lone, Context.ItemKeys, Context.Ends, AllFacts;
    MergedAsserts(cx, items, merged);
    SayAlike(cx, items, merged);
    forall p | Borrowed(cx, merged, p)
      ensures Borrowed(cx, items, p) && (Harmless(cx, merged, p) || exists d :: Lone(cx, merged, p, d))
    {
      var m :| m in merged && BorrowsFor(cx, m, p);
      var x := MergedBorrows(cx, items, merged, m);
      assert BorrowsFor(cx, x, p);
      if !Harmless(cx, items, p) {
        var d :| Lone(cx, items, p, d);
        LoneStays(cx, items, merged, p, d);
      }
    }
  }

  lemma OneGraphIsSteady(cx: Context, ws: seq<Shard>, g: Shard)
    requires Merged(cx, ws, g) && Steady(cx, ws)
    ensures Steady(cx, [g])
  {
    hide Items, Merges, Lone, Borrowed, Records, Triggered, PairsSteady;
    assert Permuted(ws, ws);
    MergedIsSteady(cx, Items(ws), Items([g]));
    forall us | Permuted(us, [g]) ensures AllTriggered(cx, Items([g]), Items(us)) {
      assert |us| == |multiset(us)| == 1 && us[0] in multiset(us);
      assert us == [g];
      forall p, d | Unrecorded(cx, Items([g]), p, d) && Lone(cx, Items([g]), p, d)
        ensures Triggered(cx, Items(us), p, d)
      {
        LoneTriggersAlone(cx, g, p, d);
      }
    }
  }

  lemma LoneTriggersAlone(cx: Context, g: Shard, p: Pair, d: Chunk)
    requires g.hasGraph && Borrowed(cx, Items([g]), p) && Lone(cx, Items([g]), p, d)
    ensures Triggered(cx, Items([g]), p, d)
  {
    hide Items, Gives, Triggered, Context.ItemKeys, Context.Ends;
    OneShard(g);
    var x :| x in Items([g]) && BorrowsFor(cx, x, p);
    var z :| z in Items([g]) && z.NodeItem? && Gives(cx, z, p.0, d);
    OwnNodeTriggers(cx, [g], g, z, x, p, d);
  }

  // Keys that one side comes to by borrowing are keys of the other's outcome.
  lemma OutcomeWithin(cx: Context, xs: seq<Item>, ys: seq<Item>)
    requires AllFacts(cx, xs) == AllFacts(cx, ys)
    requires forall k :: k in LoneKeys(cx, xs) ==> Records(cx, xs, (k.0, k.1), k.2) || k in LoneKeys(cx, ys)
    ensures Within(Outcome(cx, xs), Outcome(cx, ys))
  {
    hide AllFacts, LoneKeys, Records, Says;
    MentionsAreSaid(cx, xs);
    forall k | k in LoneKeys(cx, xs)
      ensures k in Outcome(cx, ys).relKeys && (k.1, k.2) in Outcome(cx, ys).mentions
    {
      if Records(cx, xs, (k.0, k.1), k.2) {
        RecordedIsMentioned(cx, xs, (k.0, k.1), k.2);
      }
    }
  }

  lemma SameOutcome(cx: Context, items: seq<Item>, merged: seq<Item>)
    requires Merges(cx, items, merged) && PairsSteady(cx, items)
    ensures Outcome(cx, items) == Outcome(cx, merged)
  {
    hide Merges, AllFacts, LoneKeys, Records, Says, Borrowed, Outcome;
    MergedAsserts(cx, items, merged);
    SayAlike(cx, items, merged);
    MergedIsSteady(cx, items, merged);
    forall k | k in LoneKeys(cx, items) ensures Records(cx, items, (k.0, k.1), k.2) || k in LoneKeys(cx, merged) {
      LoneKeysAre(cx, items, k);
      LoneKeysAre(cx, merged, k);
      LoneKeyStays(cx, items, merged, (k.0, k.1), k.2);
    }
    forall k | k in LoneKeys(cx, merged) ensures Records(cx, merged, (k.0, k.1), k.2) || k in LoneKeys(cx, items) {
      LoneKeysAre(cx, merged, k);
      LoneKeysAre(cx, items, k);
      LoneSays(cx, merged, (k.0, k.1), k.2);
    }
    OutcomeWithin(cx, items, merged);
    OutcomeWithin(cx, merged, items);
    WithinBoth(Outcome(cx, items), Outcome(cx, merged));
  }

  lemma LoneKeyStays(cx: Context, items: seq<Item>, merged: seq<Item>, p: Pair, d: Chunk)
    requires Merges(cx, items, merged) && Borrowed(cx, items, p) && Lone(cx, items, p, d)
    ensures Records(cx, items, p, d) || (Borrowed(cx, merged, p) && Lone(cx, merged, p, d))
  {
    hide Merges, Records, Says, NodeSays;
    if !Records(cx, items, p, d) {
      forall c ensures !Records(cx, items, p, c) {
        if Records(cx, items, p, c) {
          RecordedIsMentioned(cx, items, p, c);
        }
      }
      var m := UnrecordedBorrows(cx, items, merged, p);
      LoneStays(cx, items, merged, p, d);
    }
  }

  // Steady work dirs fold, in every order, to what the one graph folds to.
  lemma SteadyUnionIsOneGraph(cx: Context, ws: seq<Shard>, g: Shard, vs: seq<Shard>)
    requires Merged(cx, ws, g) && Steady(cx, ws) && Permuted(vs, ws)
    ensures FoldsAgree(cx, Items(vs), Items([g]))
  {
    hide Items, Merges, Steady, Run, GraphFacts, Outcome;
    OneGraphIsSteady(cx, ws, g);
    SteadyPairs(cx, ws);
    SameOutcome(cx, Items(ws), Items([g]));
    assert Permuted([g], [g]) && Arranged(Items([g]), [g]) && Arranged(Items(vs), ws);
    forall a, b | Run(cx, EMPTY, Items(vs), a) && Run(cx, EMPTY, Items([g]), b) ensures GraphFacts(a) == GraphFacts(b) {
      SteadyFold(cx, ws, Items(vs), a);
      SteadyFold(cx, [g], Items([g]), b);
    }
  }

  lemma SteadyPairs(cx: Context, ws: seq<Shard>)
    requires Steady(cx, ws)
    ensures PairsSteady(cx, Items(ws))
  {
  }

  // ---- two work dirs that do not fold to their one graph ----

  // Two linked entities; the first has the chunk c when it is sourced, the edge has d when it is keyed.
  function Linked(x: string, y: string, c: Chunk, d: Chunk, sourced: bool, keyed: bool): Shard
  {
    Shard(true, map[], [Node(x, "", if sourced then [c] else []), Node(y, "", [])],
          [Edge(x, y, "", if keyed then [d] else [])])
  }

  function LinkedItems(x: string, y: string, c: Chunk, d: Chunk, sourced: bool, keyed: bool): (items: seq<Item>)
    ensures |items| == 3
  {
    [NodeItem(map[], Node(x, "", if sourced then [c] else [])), NodeItem(map[], Node(y, "", [])),
     EdgeItem(map[], Edge(x, y, "", if keyed then [d] else []))]
  }

  lemma LinkedFacts(cx: Context, x: string, y: string, c: Chunk, d: Chunk, sourced: bool, keyed: bool)
    requires TwoEntities(cx, x, y, c) && TwoEntities(cx, x, y, d)
    ensures var items := LinkedItems(x, y, c, d, sourced, keyed);
      && Items([Linked(x, y, c, d, sourced, keyed)]) == items
      && cx.ItemKeys(items[0]) == (if sourced then {c} else {}) && cx.ItemKeys(items[1]) == {}
      && cx.ItemKeys(items[2]) == (if keyed then {d} else {})
      && cx.Kept(items[0]) && cx.Kept(items[2]) && cx.Ends(items[2].edge) == (cx.Id(x), cx.Id(y))
  {
    hide Context.KeysOf, Context.GoodName, Items;
    var shard := Linked(x, y, c, d, sourced, keyed);
    OneShard(shard);
    assert NodeItems(shard) + EdgeItems(shard) == LinkedItems(x, y, c, d, sourced, keyed);
    NoTokens(cx);
    OneToken(cx, c);
    OneToken(cx, d);
  }

  lemma NoTokens(cx: Context)
    ensures cx.KeysOf(map[], []) == {}
  {
  }

  // The bare edge of the one work dir borrows the chunk of its source, the keyed edge of the other does
  // not, and in the one graph they are one keyed edge.
  lemma BareBesideKeyedDisagrees(cx: Context, x: string, y: string, c: Chunk, d: Chunk)
    requires TwoEntities(cx, x, y, c) && TwoEntities(cx, x, y, d) && c != d
    ensures var bare, keyed := Linked(x, y, c, d, true, false), Linked(x, y, c, d, false, true);
      var both := Linked(x, y, c, d, true, true);
      Merged(cx, [bare, keyed], both) && !FoldsAgree(cx, Items([bare, keyed]), Items([both]))
  {
    hide Items, AllFacts, FoldsAgree, Merges, LinkedItems, Linked, TwoEntities;
    var bare, keyed := Linked(x, y, c, d, true, false), Linked(x, y, c, d, false, true);
    var xs, ys := LinkedItems(x, y, c, d, true, false), LinkedItems(x, y, c, d, false, true);
    var zs := LinkedItems(x, y, c, d, true, true);
    LinkedFacts(cx, x, y, c, d, true, false);
    LinkedFacts(cx, x, y, c, d, false, true);
    LinkedFacts(cx, x, y, c, d, true, true);
    assert Linked(x, y, c, d, true, true).hasGraph by { LinkedHasGraph(x, y, c, d); }
    ItemsConcat([bare], [keyed]);
    assert [bare] + [keyed] == [bare, keyed];
    LinkedMerge(cx, x, y, c, d);
    MergedAsserts(cx, xs + ys, zs);
    BareTriggers(cx, x, y, c, d);
    NothingBorrowed(cx, zs, (cx.Id(x), cx.Id(y)), c);
    FoldsAgreeIff(cx, xs + ys, zs);
  }

  lemma LinkedHasGraph(x: string, y: string, c: Chunk, d: Chunk)
    ensures Linked(x, y, c, d, true, true).hasGraph
  {
  }

  lemma LinkedMerge(cx: Context, x: string, y: string, c: Chunk, d: Chunk)
    requires TwoEntities(cx, x, y, c) && TwoEntities(cx, x, y, d)
    ensures Merges(cx, LinkedItems(x, y, c, d, true, false) + LinkedItems(x, y, c, d, false, true),
                   LinkedItems(x, y, c, d, true, true))
    ensures forall z :: z in LinkedItems(x, y, c, d, true, true) ==> !cx.Borrows(z)
  {
    hide Context.ItemKeys, Context.Ends, Context.Kept, Merges, Items;
    var xs, ys := LinkedItems(x, y, c, d, true, false), LinkedItems(x, y, c, d, false, true);
    var zs := LinkedItems(x, y, c, d, true, true);
    LinkedFacts(cx, x, y, c, d, true, false);
    LinkedFacts(cx, x, y, c, d, false, true);
    LinkedFacts(cx, x, y, c, d, true, true);
    assert forall z :: z in zs ==> z == zs[0] || z == zs[1] || z == zs[2];
    forall k | 0 <= k < 3 ensures cx.ItemKeys(zs[k]) == cx.ItemKeys(xs[k]) + cx.ItemKeys(ys[k]) {}
    LinkedAreSame(x, y, c, d);
    MergeInStep(cx, xs, ys, zs);
  }

  lemma LinkedAreSame(x: string, y: string, c: Chunk, d: Chunk)
    ensures x != y ==> forall j, k, r, s :: 0 <= j < 3 && 0 <= k < 3 ==>
      (Same(LinkedItems(x, y, c, d, r, s)[j], LinkedItems(x, y, c, d, true, true)[k]) <==> j == k)
  {
  }

  // Two lists of the same items in the same order, merged one by one.
  lemma MergeInStep(cx: Context, xs: seq<Item>, ys: seq<Item>, zs: seq<Item>)
    requires |xs| == |ys| == |zs|
    requires forall j, k :: 0 <= j < |zs| && 0 <= k < |zs| ==>
      (Same(xs[j], zs[k]) <==> j == k) && (Same(ys[j], zs[k]) <==> j == k) && (Same(zs[j], zs[k]) <==> j == k)
    requires forall k :: 0 <= k < |zs| ==>
      && cx.ItemKeys(zs[k]) == cx.ItemKeys(xs[k]) + cx.ItemKeys(ys[k])
      && (Concrete(cx, zs[k]) <==> Concrete(cx, xs[k]) || Concrete(cx, ys[k]))
    ensures Merges(cx, xs + ys, zs)
  {
    hide Same, Concrete, Context.ItemKeys;
    var items := xs + ys;
    forall z | z in items ensures exists k :: 0 <= k < |zs| && (z == xs[k] || z == ys[k]) {
      var i :| 0 <= i < |items| && items[i] == z;
      var k := if i < |xs| then i else i - |xs|;
      assert z == xs[k] || z == ys[k];
    }
    forall k | 0 <= k < |zs|
      ensures SomeSame(items, zs[k]) && (Concrete(cx, zs[k]) <==> SomeConcrete(cx, items, zs[k]))
      ensures forall c :: c in cx.ItemKeys(zs[k]) <==> SomeKeyed(cx, items, zs[k], c)
    {
      OneMerged(cx, xs, ys, zs, k);
    }
    forall x | x in items ensures exists m :: m in zs && Same(x, m) {
      var k :| 0 <= k < |zs| && (x == xs[k] || x == ys[k]);
      assert zs[k] in zs && Same(x, zs[k]);
    }
  }

  lemma OneMerged(cx: Context, xs: seq<Item>, ys: seq<Item>, zs: seq<Item>, k: nat)
    requires |xs| == |ys| == |zs| && k < |zs|
    requires forall z :: z in xs + ys && Same(z, zs[k]) <==> z == xs[k] || z == ys[k]
    requires cx.ItemKeys(zs[k]) == cx.ItemKeys(xs[k]) + cx.ItemKeys(ys[k])
    requires Concrete(cx, zs[k]) <==> Concrete(cx, xs[k]) || Concrete(cx, ys[k])
    ensures SomeSame(xs + ys, zs[k]) && (Concrete(cx, zs[k]) <==> SomeConcrete(cx, xs + ys, zs[k]))
    ensures forall c :: c in cx.ItemKeys(zs[k]) <==> SomeKeyed(cx, xs + ys, zs[k], c)
  {
    hide Same, Concrete, Context.ItemKeys;
    assert xs[k] in xs + ys && Same(xs[k], zs[k]) && ys[k] in xs + ys && Same(ys[k], zs[k]);
  }

  lemma BareTriggers(cx: Context, x: string, y: string, c: Chunk, d: Chunk)
    requires TwoEntities(cx, x, y, c) && TwoEntities(cx, x, y, d) && c != d
    ensures var items, p := LinkedItems(x, y, c, d, true, false) + LinkedItems(x, y, c, d, false, true),
                            (cx.Id(x), cx.Id(y));
      Triggered(cx, items, p, c) && !Records(cx, items, p, c)
  {
    var xs, ys := LinkedItems(x, y, c, d, true, false), LinkedItems(x, y, c, d, false, true);
    var items, p := xs + ys, (cx.Id(x), cx.Id(y));
    LinkedFacts(cx, x, y, c, d, true, false);
    LinkedFacts(cx, x, y, c, d, false, true);
    assert items == [xs[0], xs[1]] + ([xs[2]] + ys);
    FactsAre(cx, xs[0]);
    assert xs[0] in [xs[0], xs[1]] && Gives(cx, xs[0], p.0, c) && xs[2] in [xs[2]] + ys;
    hide Context.ItemKeys, Context.GoodName, ItemFacts, Triggered;
    GivenBefore(cx, [xs[0], xs[1]], [xs[2]] + ys, xs[0], xs[2], p, c);
    forall z | z in items ensures !Relates(cx, z, (p.0, p.1, c)) {
      FactsAre(cx, z);
    }
  }

  lemma {:induction false} NothingBorrowed(cx: Context, xs: seq<Item>, p: Pair, d: Chunk)
    requires forall z :: z in xs ==> !cx.Borrows(z)
    ensures !Sure(cx, xs, p, d)
    decreases |xs|
  {
    hide Context.Borrows, OnlyHanded;
    if xs != [] {
      assert Last(xs) in xs && forall z :: z in Front(xs) ==> z in xs;
      NothingBorrowed(cx, Front(xs), p, d);
    }
  }
}
