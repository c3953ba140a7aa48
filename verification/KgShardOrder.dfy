// When the order of the work dirs, or putting their items in one graph, shows in the folded result.

module KgShardOrder {
  import opened KgModel
  import opened KgFold
  import opened KgFoldOrder
  import opened KgAdapter

  type Pair = (Eid, Eid)

  // ---- what one step does to chunk sets and relation keys ----

  // The item itself says that e mentions c.
  predicate Gives(cx: Context, x: Item, e: Eid, c: Chunk)
  {
    (e, c) in ItemFacts(cx, x).mentions
  }

  // The item itself says that the pair is related in chunk k.2.
  predicate Relates(cx: Context, x: Item, k: RelKey)
  {
    k in ItemFacts(cx, x).relKeys
  }

  predicate BorrowsFor(cx: Context, x: Item, p: Pair)
  {
    cx.Borrows(x) && cx.Ends(x.edge) == p
  }

  // What a step may pick: one chunk of the source when an edge borrows, if there is any.
  ghost predicate Picks(cx: Context, st: Graph, x: Item, picked: set<Chunk>)
  {
    if cx.Borrows(x) then
      var known := st.Mentions(cx.Ends(x.edge).0);
      if known == {} then picked == {} else exists c :: c in known && picked == {c}
    else picked == {}
  }

  ghost predicate Effect(cx: Context, st: Graph, x: Item, st': Graph, picked: set<Chunk>)
  {
    && (forall e: Eid, c :: c in st'.Mentions(e) <==>
          c in st.Mentions(e) || Gives(cx, x, e, c) || (c in picked && cx.Borrows(x) && e == cx.Ends(x.edge).1))
    && (forall k :: k in Keys(st'.rels) <==>
          k in Keys(st.rels) || Relates(cx, x, k)
          || (k.2 in picked && cx.Borrows(x) && (k.0, k.1) == cx.Ends(x.edge)))
  }

  lemma EdgeEffect(cx: Context, st: Graph, x: Item, st': Graph, cks: set<Chunk>, added: seq<Rel>)
    requires st.Sound(cx.meta) && x.EdgeItem? && cx.Kept(x) && EdgeStep(cx, st, x, st', cks, added)
    ensures forall e: Eid, c {:trigger c in st'.Mentions(e)} {:trigger c in st.Mentions(e)} ::
      c in st'.Mentions(e) <==> c in st.Mentions(e) || (c in cks && (e == cx.Ends(x.edge).0 || e == cx.Ends(x.edge).1))
    ensures forall k :: k in Keys(st'.rels) <==> k in Keys(st.rels) || (k.2 in cks && (k.0, k.1) == cx.Ends(x.edge))
  {
    EdgeStepAdds(cx, st, x, st', cks, added);
    forall k: RelKey
      ensures k in Keys(st'.rels) <==> k in Keys(st.rels) || (k.2 in cks && (k.0, k.1) == cx.Ends(x.edge))
    {
      if k in Keys(st'.rels) {
        var r :| r in st'.rels && Key(r) == k;
        assert r in st.rels || r in added;
      }
      if k in Keys(st.rels) {
        var r :| r in st.rels && Key(r) == k;
        assert r in st'.rels;
      }
    }
  }

  lemma SkippedEffect(cx: Context, st: Graph, x: Item)
    requires !cx.Kept(x)
    ensures Picks(cx, st, x, {}) && Effect(cx, st, x, st, {})
  {
    assert forall e, c :: !Gives(cx, x, e, c);
    assert forall k :: !Relates(cx, x, k);
  }

  lemma NodeEffect(cx: Context, st: Graph, x: Item)
    requires x.NodeItem? && cx.Kept(x)
    ensures Picks(cx, st, x, {}) && Effect(cx, st, x, FoldNode(cx, st, x), {})
  {
    assert forall e, c :: Gives(cx, x, e, c) <==> e == cx.Id(x.node.name) && c in cx.ItemKeys(x);
    assert forall k :: !Relates(cx, x, k);
    hide Gives, Relates, Context.ItemKeys, Keys;
    var st' := FoldNode(cx, st, x);
    forall e: Eid, c
      ensures c in st'.Mentions(e) <==> c in st.Mentions(e) || (e == cx.Id(x.node.name) && c in cx.ItemKeys(x))
    {
    }
    assert st'.rels == st.rels;
  }

  lemma EdgeGives(cx: Context, x: Item)
    requires x.EdgeItem? && cx.Kept(x)
    ensures forall e, c :: Gives(cx, x, e, c) <==>
      c in cx.ItemKeys(x) && (e == cx.Ends(x.edge).0 || e == cx.Ends(x.edge).1)
    ensures forall k :: Relates(cx, x, k) <==> k.2 in cx.ItemKeys(x) && (k.0, k.1) == cx.Ends(x.edge)
  {
    hide Context.ItemKeys;
    var keys := cx.ItemKeys(x);
    var (s, t) := cx.Ends(x.edge);
    forall k: RelKey | k.2 in keys && (k.0, k.1) == (s, t) ensures Relates(cx, x, k) {
      assert k == (s, t, k.2);
    }
  }

  lemma ResolvedEdgeEffect(cx: Context, st: Graph, x: Item, st': Graph, added: seq<Rel>)
    requires st.Sound(cx.meta) && x.EdgeItem? && cx.Kept(x) && EdgeStep(cx, st, x, st', cx.ItemKeys(x), added)
    requires !cx.Borrows(x)
    ensures Picks(cx, st, x, {}) && Effect(cx, st, x, st', {})
  {
    hide Gives, Relates, EdgeStep, Graph.Sound, Context.ItemKeys, EdgeRows, Keys, Context.Ends, ItemFacts,
      Graph.Mentions;
    EdgeEffect(cx, st, x, st', cx.ItemKeys(x), added);
    EdgeGives(cx, x);
  }

  lemma BorrowPicks(cx: Context, st: Graph, x: Item, cks: set<Chunk>)
    requires cx.Borrows(x) && EdgeChunks(cx, st, x, cks)
    ensures Picks(cx, st, x, cks) && cks <= st.Mentions(cx.Ends(x.edge).0)
  {
    hide Context.Ends, Graph.Mentions;
  }

  lemma BorrowSpreads(cx: Context, st: Graph, x: Item, st': Graph, cks: set<Chunk>, added: seq<Rel>)
    requires st.Sound(cx.meta) && cx.Borrows(x) && EdgeStep(cx, st, x, st', cks, added)
    requires cks <= st.Mentions(cx.Ends(x.edge).0)
    ensures Effect(cx, st, x, st', cks)
  {
    hide Gives, Relates, EdgeStep, Graph.Sound, EdgeRows, Keys, Context.Ends, ItemFacts, Graph.Mentions;
    EdgeEffect(cx, st, x, st', cks, added);
    EdgeGives(cx, x);
    var (s, t) := cx.Ends(x.edge);
    forall e: Eid, c
      ensures c in st'.Mentions(e) <==> c in st.Mentions(e) || Gives(cx, x, e, c) || (c in cks && e == t)
    {
      assert !Gives(cx, x, e, c);
      assert c in cks ==> c in st.Mentions(s);
      if e != s {
        assert c in st'.Mentions(e) <==> c in st.Mentions(e) || (c in cks && e == t);
      }
    }
    forall k: RelKey
      ensures k in Keys(st'.rels) <==> k in Keys(st.rels) || Relates(cx, x, k) || (k.2 in cks && k.0 == s && k.1 == t)
    {
      assert !Relates(cx, x, k);
    }
  }

  lemma StepEffect(cx: Context, st: Graph, x: Item, st': Graph) returns (picked: set<Chunk>)
    requires st.Sound(cx.meta) && Step(cx, st, x, st')
    ensures Picks(cx, st, x, picked) && Effect(cx, st, x, st', picked)
  {
    hide EdgeStep, Graph.Sound, Picks, Effect, FoldNode, EdgeRows;
    picked := {};
    if !cx.Kept(x) {
      SkippedEffect(cx, st, x);
    } else if x.NodeItem? {
      NodeEffect(cx, st, x);
    } else {
      var cks, added :| EdgeStep(cx, st, x, st', cks, added);
      ChunksTaken(cx, st, x, st', cks, added);
      if cx.Borrows(x) {
        picked := cks;
        BorrowPicks(cx, st, x, cks);
        BorrowSpreads(cx, st, x, st', cks, added);
      } else {
        ResolvedEdgeEffect(cx, st, x, st', added);
      }
    }
  }

  lemma ChunksTaken(cx: Context, st: Graph, x: Item, st': Graph, cks: set<Chunk>, added: seq<Rel>)
    requires x.EdgeItem? && EdgeStep(cx, st, x, st', cks, added)
    ensures EdgeChunks(cx, st, x, cks)
  {
  }

  // ---- what a caller can read off the input ----

  predicate Says(cx: Context, items: seq<Item>, e: Eid, c: Chunk)
  {
    exists x :: x in items && Gives(cx, x, e, c)
  }

  predicate NodeSays(cx: Context, items: seq<Item>, e: Eid, c: Chunk)
  {
    exists x :: x in items && x.NodeItem? && Gives(cx, x, e, c)
  }

  predicate Records(cx: Context, items: seq<Item>, p: Pair, c: Chunk)
  {
    exists x :: x in items && Relates(cx, x, (p.0, p.1, c))
  }

  predicate Borrowed(cx: Context, items: seq<Item>, p: Pair)
  {
    exists x :: x in items && BorrowsFor(cx, x, p)
  }

  // Some edge borrows from e.
  predicate IsSource(cx: Context, items: seq<Item>, e: Eid)
  {
    exists x :: x in items && cx.Borrows(x) && cx.Ends(x.edge).0 == e
  }

  // Every chunk the pair could borrow is recorded for it anyway.
  ghost predicate Harmless(cx: Context, items: seq<Item>, p: Pair)
  {
    forall c :: Says(cx, items, p.0, c) ==> Records(cx, items, p, c)
  }

  // The pair can borrow one chunk only: d is all its source has, a node says so, and nothing
  // borrows d onward that could not have had it anyway.
  ghost predicate Lone(cx: Context, items: seq<Item>, p: Pair, d: Chunk)
  {
    && (forall c :: Says(cx, items, p.0, c) <==> c == d)
    && NodeSays(cx, items, p.0, d)
    && (IsSource(cx, items, p.1) ==> Says(cx, items, p.1, d))
  }

  ghost predicate PairsSteady(cx: Context, items: seq<Item>)
  {
    forall p :: Borrowed(cx, items, p) ==> Harmless(cx, items, p) || exists d :: Lone(cx, items, p, d)
  }

  // e has the chunk d after these items, when no edge from or to e can pick another: an item gives it,
  // or an edge passes it on from a holder.
  predicate Handed(cx: Context, xs: seq<Item>, e: Eid, d: Chunk)
    decreases |xs|
  {
    xs != [] &&
    (|| Handed(cx, Front(xs), e, d)
     || Gives(cx, Last(xs), e, d)
     || (cx.Borrows(Last(xs)) && cx.Ends(Last(xs).edge).1 == e && Handed(cx, Front(xs), cx.Ends(Last(xs).edge).0, d)))
  }

  // Some edge of the pair that borrows comes when its source has the chunk.
  predicate Triggered(cx: Context, xs: seq<Item>, p: Pair, d: Chunk)
    decreases |xs|
  {
    xs != [] && (Triggered(cx, Front(xs), p, d) || (BorrowsFor(cx, Last(xs), p) && Handed(cx, Front(xs), p.0, d)))
  }

  lemma MentionsAreSaid(cx: Context, items: seq<Item>)
    ensures forall e, c :: (e, c) in AllFacts(cx, items).mentions <==> Says(cx, items, e, c)
    ensures forall p: Pair, c :: (p.0, p.1, c) in AllFacts(cx, items).relKeys <==> Records(cx, items, p, c)
  {
    hide ItemFacts;
    forall e, c ensures (e, c) in AllFacts(cx, items).mentions <==> Says(cx, items, e, c) {
      if Says(cx, items, e, c) {
        var x :| x in items && Gives(cx, x, e, c);
        assert (e, c) in ItemFacts(cx, x).mentions;
      }
    }
    forall p: Pair, c ensures (p.0, p.1, c) in AllFacts(cx, items).relKeys <==> Records(cx, items, p, c) {
      if Records(cx, items, p, c) {
        var x :| x in items && Relates(cx, x, (p.0, p.1, c));
        assert (p.0, p.1, c) in ItemFacts(cx, x).relKeys;
      }
    }
  }

  // ---- what a steady input folds to ----

  // The keys that come of borrowing the only chunk there is.
  ghost function LoneKeys(cx: Context, items: seq<Item>): set<RelKey>
  {
    set x, m | x in items && cx.Borrows(x) && m in AllFacts(cx, items).mentions && m.0 == cx.Ends(x.edge).0
               && Lone(cx, items, cx.Ends(x.edge), m.1) :: (cx.Ends(x.edge).0, cx.Ends(x.edge).1, m.1)
  }

  ghost function Outcome(cx: Context, items: seq<Item>): Facts
  {
    var f := AllFacts(cx, items);
    f.(mentions := f.mentions + set k | k in LoneKeys(cx, items) :: (k.1, k.2),
       relKeys := f.relKeys + LoneKeys(cx, items))
  }

  lemma LoneKeysAre(cx: Context, items: seq<Item>, k: RelKey)
    ensures k in LoneKeys(cx, items) <==> Borrowed(cx, items, (k.0, k.1)) && Lone(cx, items, (k.0, k.1), k.2)
  {
    hide AllFacts, Lone;
    MentionsAreSaid(cx, items);
    if Borrowed(cx, items, (k.0, k.1)) && Lone(cx, items, (k.0, k.1), k.2) {
      var x :| x in items && BorrowsFor(cx, x, (k.0, k.1));
      LoneSays(cx, items, (k.0, k.1), k.2);
      assert (k.0, k.2) in AllFacts(cx, items).mentions;
    }
  }

  lemma LoneSays(cx: Context, items: seq<Item>, p: Pair, d: Chunk)
    requires Lone(cx, items, p, d)
    ensures Says(cx, items, p.0, d)
  {
  }

  // A source borrows nothing it was not said to have.
  lemma SourceHoldsWhatIsSaid(cx: Context, items: seq<Item>, e: Eid, c: Chunk)
    requires IsSource(cx, items, e) && (e, c) in Outcome(cx, items).mentions
    ensures Says(cx, items, e, c)
  {
    hide AllFacts, LoneKeys;
    MentionsAreSaid(cx, items);
    if (e, c) !in AllFacts(cx, items).mentions {
      var k :| k in LoneKeys(cx, items) && (k.1, k.2) == (e, c);
      LoneKeysAre(cx, items, k);
    }
  }

  lemma BorrowStays(cx: Context, items: seq<Item>, p: Pair, c: Chunk)
    requires PairsSteady(cx, items) && Borrowed(cx, items, p) && Says(cx, items, p.0, c)
    ensures (p.0, p.1, c) in Outcome(cx, items).relKeys && (p.1, c) in Outcome(cx, items).mentions
  {
    hide AllFacts, LoneKeys, Says, Records, Borrowed;
    MentionsAreSaid(cx, items);
    LoneKeysAre(cx, items, (p.0, p.1, c));
    if Harmless(cx, items, p) {
      RecordedIsMentioned(cx, items, p, c);
    }
  }

  lemma RecordedIsMentioned(cx: Context, items: seq<Item>, p: Pair, c: Chunk)
    requires Records(cx, items, p, c)
    ensures Says(cx, items, p.0, c) && Says(cx, items, p.1, c)
  {
    var x :| x in items && Relates(cx, x, (p.0, p.1, c));
    EdgeGives(cx, x);
    assert Gives(cx, x, p.0, c) && Gives(cx, x, p.1, c);
  }

  lemma OutcomeClosed(cx: Context, items: seq<Item>, x: Item)
    requires PairsSteady(cx, items) && x in items
    ensures ClosedUnder(cx, Outcome(cx, items), x)
  {
    hide AllFacts, LoneKeys, Says, Records;
    if cx.Borrows(x) {
      var f, p := Outcome(cx, items), cx.Ends(x.edge);
      assert BorrowsFor(cx, x, p) && Borrowed(cx, items, p);
      assert IsSource(cx, items, p.0);
      forall m <- f.mentions | m.0 == p.0 ensures (p.0, p.1, m.1) in f.relKeys && (p.1, m.1) in f.mentions {
        SourceHoldsWhatIsSaid(cx, items, p.0, m.1);
        BorrowStays(cx, items, p, m.1);
      }
    }
  }

  predicate AllFrom(xs: seq<Item>, items: seq<Item>)
  {
    forall x :: x in xs ==> x in items
  }

  lemma ItemWithinOutcome(cx: Context, items: seq<Item>, x: Item)
    requires x in items
    ensures Within(ItemFacts(cx, x), Outcome(cx, items))
  {
    hide ItemFacts, AllFacts, LoneKeys;
    AllFactsHas(cx, items, x);
  }

  lemma StaysWithinOutcome(cx: Context, items: seq<Item>, xs: seq<Item>, st: Graph)
    requires PairsSteady(cx, items) && AllFrom(xs, items) && Run(cx, EMPTY, xs, st)
    ensures Within(GraphFacts(st), Outcome(cx, items))
  {
    hide PairsSteady, Outcome, ItemFacts, ClosedUnder, Run;
    forall x | x in xs ensures Within(ItemFacts(cx, x), Outcome(cx, items)) && ClosedUnder(cx, Outcome(cx, items), x) {
      ItemWithinOutcome(cx, items, x);
      OutcomeClosed(cx, items, x);
    }
    RunStaysWithin(cx, EMPTY, xs, st, Outcome(cx, items));
  }

  // Everything said of e is d.
  ghost predicate OnlySaid(cx: Context, items: seq<Item>, e: Eid, d: Chunk)
  {
    forall c :: Says(cx, items, e, c) ==> c == d
  }

  // What could be passed on to a source with one chunk is that chunk.
  lemma FeederHoldsOnly(cx: Context, items: seq<Item>, p: Pair, d: Chunk)
    requires PairsSteady(cx, items) && Borrowed(cx, items, p) && IsSource(cx, items, p.1) && OnlySaid(cx, items, p.1, d)
    ensures OnlySaid(cx, items, p.0, d)
  {
    hide Says, Records, IsSource, Borrowed;
    forall c | Says(cx, items, p.0, c) ensures c == d {
      if Harmless(cx, items, p) {
        RecordedIsMentioned(cx, items, p, c);
      }
    }
  }

  lemma HeldIsSaid(cx: Context, items: seq<Item>, xs: seq<Item>, st: Graph, e: Eid, c: Chunk)
    requires PairsSteady(cx, items) && AllFrom(xs, items) && Run(cx, EMPTY, xs, st)
    requires IsSource(cx, items, e) && c in st.Mentions(e)
    ensures Says(cx, items, e, c)
  {
    hide PairsSteady, Outcome, IsSource, Says, Run, AllFrom;
    StaysWithinOutcome(cx, items, xs, st);
    assert (e, c) in GraphFacts(st).mentions;
    SourceHoldsWhatIsSaid(cx, items, e, c);
  }

  lemma SplitRun(cx: Context, xs: seq<Item>, st: Graph) returns (mid: Graph)
    requires xs != [] && Run(cx, EMPTY, xs, st)
    ensures Run(cx, EMPTY, Front(xs), mid) && Step(cx, mid, Last(xs), st) && mid.Sound(cx.meta)
  {
    hide Step, Graph.Sound;
    mid :| Run(cx, EMPTY, Front(xs), mid) && Step(cx, mid, Last(xs), st);
    EmptyIsSound(cx);
    FoldSound(cx, EMPTY, Front(xs), mid);
  }

  lemma FrontFrom(xs: seq<Item>, items: seq<Item>)
    requires xs != [] && AllFrom(xs, items)
    ensures AllFrom(Front(xs), items) && Last(xs) in items
  {
    assert Last(xs) in xs;
  }

  // In every run, whatever is picked: a source of which one chunk is said has it exactly from when
  // it is handed over.
  lemma {:induction false} HoldersAreHanded(cx: Context, items: seq<Item>, xs: seq<Item>, st: Graph, e: Eid, d: Chunk)
    requires PairsSteady(cx, items) && AllFrom(xs, items) && Run(cx, EMPTY, xs, st)
    requires IsSource(cx, items, e) && OnlySaid(cx, items, e, d)
    ensures st.Mentions(e) == if Handed(cx, xs, e, d) then {d} else {}
    decreases |xs|, 1
  {
    hide PairsSteady, AllFrom, Run, Step, IsSource, OnlySaid, Gives, Graph.Sound, Effect, Context.ItemKeys,
      Context.Ends;
    if xs == [] {
      NothingHeld(cx, st, e);
    } else {
      var x := Last(xs);
      var mid := SplitRun(cx, xs, st);
      FrontFrom(xs, items);
      HoldersAreHanded(cx, items, Front(xs), mid, e, d);
      var picked := StepEffect(cx, mid, x, st);
      HeldIsOnly(cx, items, xs, st, e, d);
      if cx.Borrows(x) && cx.Ends(x.edge).1 == e {
        FeederIsHanded(cx, items, xs, mid, e, d);
      }
      HoldsNext(cx, xs, mid, st, picked, e, d);
    }
  }

  lemma NothingHeld(cx: Context, st: Graph, e: Eid)
    requires Run(cx, EMPTY, [], st)
    ensures st.Mentions(e) == {}
  {
  }

  lemma HeldIsOnly(cx: Context, items: seq<Item>, xs: seq<Item>, st: Graph, e: Eid, d: Chunk)
    requires PairsSteady(cx, items) && AllFrom(xs, items) && Run(cx, EMPTY, xs, st)
    requires IsSource(cx, items, e) && OnlySaid(cx, items, e, d)
    ensures forall c :: c in st.Mentions(e) ==> c == d
  {
    hide PairsSteady, AllFrom, Run, IsSource, Graph.Mentions;
    forall c | c in st.Mentions(e) ensures c == d {
      HeldIsSaid(cx, items, xs, st, e, c);
    }
  }

  lemma FeederIsHanded(cx: Context, items: seq<Item>, xs: seq<Item>, mid: Graph, e: Eid, d: Chunk)
    requires PairsSteady(cx, items) && xs != [] && AllFrom(Front(xs), items) && Last(xs) in items &&
      Run(cx, EMPTY, Front(xs), mid)
    requires IsSource(cx, items, e) && OnlySaid(cx, items, e, d)
    requires cx.Borrows(Last(xs)) && cx.Ends(Last(xs).edge).1 == e
    ensures var q := cx.Ends(Last(xs).edge).0; mid.Mentions(q) == if Handed(cx, Front(xs), q, d) then {d} else {}
    decreases |xs|, 0
  {
    hide PairsSteady, AllFrom, Run, OnlySaid, Handed, Context.ItemKeys, Context.Ends;
    var x := Last(xs);
    var p := cx.Ends(x.edge);
    assert BorrowsFor(cx, x, p) && Borrowed(cx, items, p) && IsSource(cx, items, p.0);
    FeederHoldsOnly(cx, items, p, d);
    HoldersAreHanded(cx, items, Front(xs), mid, p.0, d);
  }

  lemma HoldsNext(cx: Context, xs: seq<Item>, mid: Graph, st: Graph, picked: set<Chunk>, e: Eid, d: Chunk)
    requires xs != [] && Picks(cx, mid, Last(xs), picked) && Effect(cx, mid, Last(xs), st, picked)
    requires mid.Mentions(e) == if Handed(cx, Front(xs), e, d) then {d} else {}
    requires cx.Borrows(Last(xs)) && cx.Ends(Last(xs).edge).1 == e ==>
      var q := cx.Ends(Last(xs).edge).0; mid.Mentions(q) == if Handed(cx, Front(xs), q, d) then {d} else {}
    requires forall c :: c in st.Mentions(e) ==> c == d
    ensures st.Mentions(e) == if Handed(cx, xs, e, d) then {d} else {}
  {
    hide Gives, Relates, Context.Borrows, Context.Ends, Graph.Mentions, Keys;
    var x := Last(xs);
    assert d in st.Mentions(e) <==> Handed(cx, xs, e, d);
  }

  // In every run, whatever is picked: the only chunk a pair can borrow is recorded for it exactly when
  // an edge of the pair comes after its source is handed the chunk.
  lemma {:induction false} RecordedIffTriggered(cx: Context, items: seq<Item>, xs: seq<Item>, st: Graph, p: Pair,
                                                d: Chunk)
    requires PairsSteady(cx, items) && AllFrom(xs, items) && Run(cx, EMPTY, xs, st)
    requires Borrowed(cx, items, p) && Lone(cx, items, p, d) && !Records(cx, items, p, d)
    ensures (p.0, p.1, d) in Keys(st.rels) <==> Triggered(cx, xs, p, d)
    decreases |xs|
  {
    hide PairsSteady, AllFrom, Run, Step, Graph.Sound, Effect, Picks, Context.Borrows, Context.Ends, Relates, Says,
      NodeSays, BorrowsFor, Records, Borrowed, Keys;
    if xs == [] {
      NothingRecorded(cx, st);
    } else {
      var x := Last(xs);
      var mid := SplitRun(cx, xs, st);
      FrontFrom(xs, items);
      RecordedIffTriggered(cx, items, Front(xs), mid, p, d);
      var picked := StepEffect(cx, mid, x, st);
      BorrowedHasSource(cx, items, p);
      HoldersAreHanded(cx, items, Front(xs), mid, p.0, d);
      RecordsNext(cx, items, xs, mid, st, picked, p, d);
    }
  }

  lemma NothingRecorded(cx: Context, st: Graph)
    requires Run(cx, EMPTY, [], st)
    ensures Keys(st.rels) == {}
  {
  }

  lemma BorrowedHasSource(cx: Context, items: seq<Item>, p: Pair)
    requires Borrowed(cx, items, p)
    ensures IsSource(cx, items, p.0)
  {
    hide Context.Borrows, Context.Ends;
  }

  lemma RecordsNext(cx: Context, items: seq<Item>, xs: seq<Item>, mid: Graph, st: Graph, picked: set<Chunk>, p: Pair,
                    d: Chunk)
    requires xs != [] && Last(xs) in items && !Records(cx, items, p, d)
    requires Picks(cx, mid, Last(xs), picked) && Effect(cx, mid, Last(xs), st, picked)
    requires mid.Mentions(p.0) == if Handed(cx, Front(xs), p.0, d) then {d} else {}
    requires (p.0, p.1, d) in Keys(mid.rels) <==> Triggered(cx, Front(xs), p, d)
    ensures (p.0, p.1, d) in Keys(st.rels) <==> Triggered(cx, xs, p, d)
  {
    hide Gives, Relates, Context.Borrows, Context.Ends, Graph.Mentions, Keys, Handed;
    assert !Relates(cx, Last(xs), (p.0, p.1, d));
  }

  // The pairs whose only chunk nothing records: they must be triggered.
  predicate Unrecorded(cx: Context, items: seq<Item>, p: Pair, d: Chunk)
  {
    Borrowed(cx, items, p) && !Records(cx, items, p, d)
  }

  ghost predicate AllTriggered(cx: Context, items: seq<Item>, xs: seq<Item>)
  {
    forall p, d :: Unrecorded(cx, items, p, d) && Lone(cx, items, p, d) ==> Triggered(cx, xs, p, d)
  }

  ghost predicate SameItems(xs: seq<Item>, items: seq<Item>)
  {
    forall x :: x in xs <==> x in items
  }

  lemma TriggeredFold(cx: Context, items: seq<Item>, xs: seq<Item>, st: Graph)
    requires PairsSteady(cx, items) && SameItems(xs, items) && AllTriggered(cx, items, xs) && Run(cx, EMPTY, xs, st)
    ensures GraphFacts(st) == Outcome(cx, items)
  {
    hide PairsSteady, Outcome, AllFacts, Run, Graph.Sound;
    StaysWithinOutcome(cx, items, xs, st);
    EmptyIsSound(cx);
    FoldSound(cx, EMPTY, xs, st);
    RunAdds(cx, EMPTY, xs, st);
    SameFacts(cx, xs, items);
    HasLoneKeys(cx, items, xs, st);
    OutcomeReached(cx, items, st);
    WithinBoth(GraphFacts(st), Outcome(cx, items));
  }

  lemma SameFacts(cx: Context, xs: seq<Item>, items: seq<Item>)
    requires SameItems(xs, items)
    ensures AllFacts(cx, xs) == AllFacts(cx, items) && AllFrom(xs, items)
  {
    hide ItemFacts;
  }

  lemma HasLoneKeys(cx: Context, items: seq<Item>, xs: seq<Item>, st: Graph)
    requires PairsSteady(cx, items) && SameItems(xs, items) && AllTriggered(cx, items, xs) && Run(cx, EMPTY, xs, st)
    requires Within(AllFacts(cx, items), GraphFacts(st))
    ensures LoneKeys(cx, items) <= Keys(st.rels)
  {
    hide PairsSteady, AllFacts, Run, Lone, LoneKeys, Borrowed, Records, Triggered, Keys;
    MentionsAreSaid(cx, items);
    SameFacts(cx, xs, items);
    forall k | k in LoneKeys(cx, items) ensures k in Keys(st.rels) {
      LoneKeysAre(cx, items, k);
      var p := (k.0, k.1);
      if !Records(cx, items, p, k.2) {
        assert Unrecorded(cx, items, p, k.2);
        RecordedIffTriggered(cx, items, xs, st, p, k.2);
      }
    }
  }

  lemma OutcomeReached(cx: Context, items: seq<Item>, st: Graph)
    requires Within(AllFacts(cx, items), GraphFacts(st)) && LoneKeys(cx, items) <= Keys(st.rels) && st.Sound(cx.meta)
    ensures Within(Outcome(cx, items), GraphFacts(st))
  {
    hide AllFacts, LoneKeys;
    forall k | k in LoneKeys(cx, items) ensures (k.1, k.2) in GraphFacts(st).mentions {
      var r :| r in st.rels && Key(r) == k;
      assert st.RowFits(r);
    }
  }

  // ---- the orders there are ----

  function GraphNodes(shard: Shard): seq<Item> { if shard.hasGraph then NodeItems(shard) else [] }

  function GraphEdges(shard: Shard): seq<Item> { if shard.hasGraph then EdgeItems(shard) else [] }

  // All nodes of all work dirs, and all edges.
  function NodesOf(shards: seq<Shard>): seq<Item>
  {
    if shards == [] then [] else NodesOf(shards[..|shards| - 1]) + GraphNodes(shards[|shards| - 1])
  }

  function EdgesOf(shards: seq<Shard>): seq<Item>
  {
    if shards == [] then [] else EdgesOf(shards[..|shards| - 1]) + GraphEdges(shards[|shards| - 1])
  }

  ghost predicate Permuted(vs: seq<Shard>, ws: seq<Shard>)
  {
    multiset(vs) == multiset(ws)
  }

  // All the work dirs' items in one graph, none merged: the nodes in some order, then the edges.
  ghost predicate InOneGraph(ns: seq<Item>, es: seq<Item>, ws: seq<Shard>)
  {
    multiset(ns) == multiset(NodesOf(ws)) && multiset(es) == multiset(EdgesOf(ws))
  }

  // The work dirs in some order, or the one graph.
  ghost predicate Arranged(xs: seq<Item>, ws: seq<Shard>)
  {
    || (exists vs :: Permuted(vs, ws) && xs == Items(vs))
    || (exists ns, es :: InOneGraph(ns, es, ws) && xs == ns + es)
  }

  lemma {:induction false} ItemsConcat(xs: seq<Shard>, ys: seq<Shard>)
    ensures Items(xs + ys) == Items(xs) + Items(ys)
    decreases |ys|
  {
    hide NodeItems, EdgeItems;
    if ys == [] {
      assert xs + ys == xs;
    } else {
      var n := |ys| - 1;
      assert (xs + ys)[..|xs| + n] == xs + ys[..n];
      ItemsConcat(xs, ys[..n]);
    }
  }

  lemma FindShard(ws: seq<Shard>, v: Shard) returns (front: seq<Shard>, back: seq<Shard>)
    requires v in multiset(ws)
    ensures ws == (front + [v]) + back
    ensures multiset(ws) == multiset(front + back) + multiset{v}
  {
    var k :| 0 <= k < |ws| && ws[k] == v;
    front, back := ws[..k], ws[k + 1..];
    assert ws == (front + [v]) + back;
  }

  lemma LastShard(vs: seq<Shard>)
    requires vs != []
    ensures multiset(vs) == multiset(vs[..|vs| - 1]) + multiset{vs[|vs| - 1]}
  {
    assert vs == vs[..|vs| - 1] + [vs[|vs| - 1]];
  }

  lemma CancelShard(a: multiset<Shard>, b: multiset<Shard>, v: Shard)
    requires a + multiset{v} == b + multiset{v}
    ensures a == b
  {
    assert a == (a + multiset{v}) - multiset{v};
    assert b == (b + multiset{v}) - multiset{v};
  }

  lemma ItemsAround(front: seq<Shard>, v: Shard, back: seq<Shard>)
    ensures multiset(Items((front + [v]) + back)) == multiset(Items(front + back)) + multiset(Items([v]))
  {
    hide Items;
    ItemsConcat(front + [v], back);
    ItemsConcat(front, [v]);
    ItemsConcat(front, back);
  }

  lemma {:induction false} ItemsPermuted(vs: seq<Shard>, ws: seq<Shard>)
    requires Permuted(vs, ws)
    ensures multiset(Items(vs)) == multiset(Items(ws))
    decreases |vs|
  {
    hide Items;
    if vs == [] {
      assert |multiset(ws)| == 0;
      assert ws == [];
    } else {
      var n := |vs| - 1;
      var v := vs[n];
      LastShard(vs);
      var front, back := FindShard(ws, v);
      CancelShard(multiset(vs[..n]), multiset(front + back), v);
      ItemsPermuted(vs[..n], front + back);
      ItemsAround(front, v, back);
      ItemsConcat(vs[..n], [v]);
      assert vs == vs[..n] + [v];
    }
  }

  lemma {:induction false} ItemsSplit(ws: seq<Shard>)
    ensures multiset(Items(ws)) == multiset(NodesOf(ws)) + multiset(EdgesOf(ws))
    ensures forall x :: x in NodesOf(ws) ==> x.NodeItem?
    ensures forall x :: x in EdgesOf(ws) ==> x.EdgeItem?
    decreases |ws|
  {
    if ws != [] {
      ItemsSplit(ws[..|ws| - 1]);
    }
  }

  lemma SameBag(xs: seq<Item>, ys: seq<Item>)
    requires multiset(xs) == multiset(ys)
    ensures SameItems(xs, ys)
  {
    forall x ensures x in xs <==> x in ys {
      assert x in xs <==> x in multiset(xs);
      assert x in ys <==> x in multiset(ys);
    }
  }

  lemma ArrangedItems(xs: seq<Item>, ws: seq<Shard>)
    requires Arranged(xs, ws)
    ensures SameItems(xs, Items(ws))
  {
    hide Items, NodesOf, EdgesOf, SameItems;
    if vs :| Permuted(vs, ws) && xs == Items(vs) {
      ItemsPermuted(vs, ws);
      SameBag(xs, Items(ws));
    } else {
      var ns, es :| InOneGraph(ns, es, ws) && xs == ns + es;
      ItemsSplit(ws);
      SameBag(xs, Items(ws));
    }
  }

  // ---- what triggers a pair ----

  lemma {:induction false} GivenIsHanded(cx: Context, xs: seq<Item>, x: Item, e: Eid, d: Chunk)
    requires x in xs && Gives(cx, x, e, d)
    ensures Handed(cx, xs, e, d)
    decreases |xs|
  {
    hide Gives, Context.Borrows;
    if x != Last(xs) {
      assert xs == Front(xs) + [Last(xs)];
      GivenIsHanded(cx, Front(xs), x, e, d);
    }
  }

  lemma {:induction false} HandedStays(cx: Context, xs: seq<Item>, ys: seq<Item>, e: Eid, d: Chunk)
    requires Handed(cx, xs, e, d)
    ensures Handed(cx, xs + ys, e, d)
    decreases |ys|
  {
    if ys == [] {
      assert xs + ys == xs;
    } else {
      HandedStays(cx, xs, Front(ys), e, d);
      assert Front(xs + ys) == xs + Front(ys);
    }
  }

  lemma {:induction false} TriggeredStays(cx: Context, xs: seq<Item>, ys: seq<Item>, p: Pair, d: Chunk)
    requires Triggered(cx, xs, p, d)
    ensures Triggered(cx, xs + ys, p, d)
    decreases |ys|
  {
    if ys == [] {
      assert xs + ys == xs;
    } else {
      TriggeredStays(cx, xs, Front(ys), p, d);
      assert Front(xs + ys) == xs + Front(ys);
    }
  }

  // An item that gives the chunk, and later an edge of the pair that borrows.
  lemma GivenBefore(cx: Context, xs: seq<Item>, ys: seq<Item>, z: Item, x: Item, p: Pair, d: Chunk)
    requires z in xs && Gives(cx, z, p.0, d) && x in ys && BorrowsFor(cx, x, p)
    ensures Triggered(cx, xs + ys, p, d)
  {
    hide Gives, BorrowsFor, Handed;
    var i :| 0 <= i < |ys| && ys[i] == x;
    var before := xs + ys[..i];
    GivenIsHanded(cx, xs, z, p.0, d);
    HandedStays(cx, xs, ys[..i], p.0, d);
    assert Front(before + [x]) == before && Last(before + [x]) == x;
    assert Triggered(cx, before + [x], p, d);
    TriggeredStays(cx, before + [x], ys[i + 1..], p, d);
    assert (before + [x]) + ys[i + 1..] == xs + ys;
  }

  lemma OneGraphTriggers(cx: Context, ws: seq<Shard>, ns: seq<Item>, es: seq<Item>, p: Pair, d: Chunk)
    requires InOneGraph(ns, es, ws) && Borrowed(cx, Items(ws), p) && NodeSays(cx, Items(ws), p.0, d)
    ensures Triggered(cx, ns + es, p, d)
  {
    hide Gives, Items, NodesOf, EdgesOf, Context.ItemKeys, Context.Ends, Handed, Triggered;
    var z :| z in Items(ws) && z.NodeItem? && Gives(cx, z, p.0, d);
    var x :| x in Items(ws) && BorrowsFor(cx, x, p);
    WhichIsWhere(ws, ns, es, z);
    WhichIsWhere(ws, ns, es, x);
    GivenBefore(cx, ns, es, z, x, p, d);
  }

  lemma WhichIsWhere(ws: seq<Shard>, ns: seq<Item>, es: seq<Item>, x: Item)
    requires InOneGraph(ns, es, ws)
    ensures x in ns <==> x in Items(ws) && x.NodeItem?
    ensures x in es <==> x in Items(ws) && x.EdgeItem?
  {
    hide Items, NodesOf, EdgesOf;
    ItemsSplit(ws);
    SameBag(ns, NodesOf(ws));
    SameBag(es, EdgesOf(ws));
    assert x in Items(ws) <==> x in multiset(Items(ws));
    assert x in NodesOf(ws) <==> x in multiset(NodesOf(ws));
    assert x in EdgesOf(ws) <==> x in multiset(EdgesOf(ws));
  }

  lemma OneShard(shard: Shard)
    requires shard.hasGraph
    ensures Items([shard]) == NodeItems(shard) + EdgeItems(shard)
  {
    hide NodeItems, EdgeItems;
    assert [shard][..0] == [];
    assert Items([]) == [];
  }

  // In whatever order the work dirs come, a borrowing edge finds the chunks its source's node has in
  // the edge's own graph.
  lemma OwnNodeTriggers(cx: Context, vs: seq<Shard>, shard: Shard, z: Item, x: Item, p: Pair, d: Chunk)
    requires shard in vs && shard.hasGraph
    requires z in NodeItems(shard) && Gives(cx, z, p.0, d) && x in EdgeItems(shard) && BorrowsFor(cx, x, p)
    ensures Triggered(cx, Items(vs), p, d)
  {
    hide Gives, Context.Borrows, Context.Ends, Handed, Triggered, NodeItems, EdgeItems, Items;
    var before, after := FindShard(vs, shard);
    OneShard(shard);
    ItemsConcat(before + [shard], after);
    ItemsConcat(before, [shard]);
    GivenBefore(cx, Items(before) + NodeItems(shard), EdgeItems(shard), z, x, p, d);
    assert (Items(before) + NodeItems(shard)) + EdgeItems(shard) == Items(before + [shard]);
    TriggeredStays(cx, Items(before + [shard]), Items(after), p, d);
  }

  // ---- two folds that differ ----

  predicate Chosen(cx: Context, x: Item, p: Pair, yes: bool)
  {
    BorrowsFor(cx, x, p) == yes
  }

  // The edges that borrow for the pair, or the others.
  function PairEdges(cx: Context, es: seq<Item>, p: Pair, yes: bool): seq<Item>
  {
    if es == [] then []
    else PairEdges(cx, Front(es), p, yes) + if Chosen(cx, Last(es), p, yes) then [Last(es)] else []
  }

  lemma FrontLast(es: seq<Item>)
    requires es != []
    ensures multiset(es) == multiset(Front(es)) + multiset{Last(es)}
  {
    assert es == Front(es) + [Last(es)];
  }

  lemma {:induction false} PairEdgesSplit(cx: Context, es: seq<Item>, p: Pair)
    ensures multiset(es) == multiset(PairEdges(cx, es, p, true)) + multiset(PairEdges(cx, es, p, false))
    decreases |es|
  {
    hide BorrowsFor;
    if es != [] {
      PairEdgesSplit(cx, Front(es), p);
      FrontLast(es);
    }
  }

  lemma {:induction false} PairEdgesAre(cx: Context, es: seq<Item>, p: Pair, yes: bool)
    ensures forall x :: x in PairEdges(cx, es, p, yes) ==> x in es && Chosen(cx, x, p, yes)
    decreases |es|
  {
    hide Chosen;
    if es != [] {
      PairEdgesAre(cx, Front(es), p, yes);
      assert es == Front(es) + [Last(es)];
    }
  }

  predicate NoneFor(cx: Context, xs: seq<Item>, p: Pair)
  {
    forall x :: x in xs ==> !BorrowsFor(cx, x, p)
  }

  predicate AllFor(cx: Context, xs: seq<Item>, p: Pair)
  {
    forall x :: x in xs ==> BorrowsFor(cx, x, p)
  }

  lemma SplitRunFrom(cx: Context, st: Graph, xs: seq<Item>, st': Graph) returns (mid: Graph)
    requires st.Sound(cx.meta) && xs != [] && Run(cx, st, xs, st')
    ensures Run(cx, st, Front(xs), mid) && Step(cx, mid, Last(xs), st') && mid.Sound(cx.meta)
  {
    hide Step, Graph.Sound;
    mid :| Run(cx, st, Front(xs), mid) && Step(cx, mid, Last(xs), st');
    FoldSound(cx, st, Front(xs), mid);
  }

  lemma FrontHolds(cx: Context, xs: seq<Item>, p: Pair, c: Chunk)
    requires xs != []
    ensures NoneFor(cx, xs, p) ==> NoneFor(cx, Front(xs), p) && !BorrowsFor(cx, Last(xs), p)
    ensures AllFor(cx, xs, p) ==> AllFor(cx, Front(xs), p) && BorrowsFor(cx, Last(xs), p)
    ensures !Records(cx, xs, p, c) ==> !Records(cx, Front(xs), p, c) && !Relates(cx, Last(xs), (p.0, p.1, c))
  {
    hide BorrowsFor, Relates;
    assert Last(xs) in xs;
    assert forall x :: x in Front(xs) ==> x in xs;
  }

  // Without an edge that borrows for the pair, only an item can relate it.
  lemma {:induction false} KeyStaysAway(cx: Context, st: Graph, xs: seq<Item>, st': Graph, p: Pair, d: Chunk)
    requires st.Sound(cx.meta) && Run(cx, st, xs, st')
    requires NoneFor(cx, xs, p) && !Records(cx, xs, p, d) && (p.0, p.1, d) !in Keys(st.rels)
    ensures (p.0, p.1, d) !in Keys(st'.rels)
    decreases |xs|
  {
    hide Step, Graph.Sound, NoneFor, Records, Relates, Gives, Keys, Picks, Context.Ends, Context.ItemKeys,
      Graph.Mentions;
    if xs == [] {
      assert st == st';
    } else {
      var mid := SplitRunFrom(cx, st, xs, st');
      FrontHolds(cx, xs, p, d);
      KeyStaysAway(cx, st, Front(xs), mid, p, d);
      var picked := StepEffect(cx, mid, Last(xs), st');
    }
  }

  // Edges that borrow for a pair whose source lacks d do not relate it in d.
  lemma {:induction false} BorrowsElsewhere(cx: Context, st: Graph, xs: seq<Item>, st': Graph, p: Pair, d: Chunk)
    requires st.Sound(cx.meta) && Run(cx, st, xs, st')
    requires AllFor(cx, xs, p) && d !in st.Mentions(p.0) && (p.0, p.1, d) !in Keys(st.rels)
    ensures d !in st'.Mentions(p.0) && (p.0, p.1, d) !in Keys(st'.rels)
    decreases |xs|
  {
    hide Step, Graph.Sound, AllFor, Keys, Graph.Mentions, Records, Run;
    if xs == [] {
      EmptyRun(cx, st, st');
    } else {
      var mid := SplitRunFrom(cx, st, xs, st');
      FrontHolds(cx, xs, p, d);
      BorrowsElsewhere(cx, st, Front(xs), mid, p, d);
      var picked := StepEffect(cx, mid, Last(xs), st');
      BorrowerGivesNothing(cx, Last(xs), p.0, d, (p.0, p.1, d));
    }
  }

  lemma EmptyRun(cx: Context, st: Graph, st': Graph)
    requires Run(cx, st, [], st')
    ensures st == st'
  {
  }

  lemma BorrowerGivesNothing(cx: Context, x: Item, e: Eid, c: Chunk, k: RelKey)
    requires cx.Borrows(x)
    ensures !Gives(cx, x, e, c) && !Relates(cx, x, k)
  {
    EdgeGives(cx, x);
  }

  // After nodes alone, an entity has what some node says.
  lemma {:induction false} NodesGive(cx: Context, ns: seq<Item>, st: Graph, e: Eid, c: Chunk)
    requires Run(cx, EMPTY, ns, st) && forall x :: x in ns ==> x.NodeItem?
    requires c in st.Mentions(e)
    ensures NodeSays(cx, ns, e, c)
    decreases |ns|
  {
    hide Step, Graph.Sound, Gives, Graph.Mentions, Keys, Relates, Context.ItemKeys;
    if ns == [] {
      NothingHeld(cx, st, e);
    } else {
      var mid := SplitRun(cx, ns, st);
      var picked := StepEffect(cx, mid, Last(ns), st);
      assert Last(ns) in ns;
      if c in mid.Mentions(e) {
        NodesGive(cx, Front(ns), mid, e, c);
      }
    }
  }

  // One step that picks c.
  lemma PickStep(cx: Context, st: Graph, x: Item, c: Chunk) returns (st': Graph)
    requires st.Sound(cx.meta) && cx.Borrows(x) && c in st.Mentions(cx.Ends(x.edge).0)
    ensures Step(cx, st, x, st') && st'.Sound(cx.meta)
    ensures (cx.Ends(x.edge).0, cx.Ends(x.edge).1, c) in Keys(st'.rels)
    ensures forall k :: k in Keys(st'.rels) ==> k in Keys(st.rels) || k.2 == c
    ensures forall e: Eid, b :: b in st.Mentions(e) ==> b in st'.Mentions(e)
    ensures c in st'.Mentions(cx.Ends(x.edge).1)
  {
    hide EdgeStep, Graph.Sound, Keys, Step, Context.Ends;
    var cks := {c};
    var added;
    st', added := EdgeStepExists(cx, st, x, cks);
    EdgeEffect(cx, st, x, st', cks, added);
    StepSound(cx, st, x, st');
  }

  // All edges of the pair pick c.
  lemma {:induction false} AllPick(cx: Context, st: Graph, xs: seq<Item>, p: Pair, c: Chunk) returns (st': Graph)
    requires st.Sound(cx.meta) && AllFor(cx, xs, p) && c in st.Mentions(p.0)
    ensures Run(cx, st, xs, st') && st'.Sound(cx.meta) && c in st'.Mentions(p.0)
    ensures forall k :: k in Keys(st'.rels) ==> k in Keys(st.rels) || k.2 == c
    decreases |xs|
  {
    hide Graph.Sound, AllFor, Keys, Graph.Mentions, Step, Context.ItemKeys, Context.Ends, Records;
    if xs == [] {
      st' := st;
    } else {
      FrontHolds(cx, xs, p, c);
      var mid := AllPick(cx, st, Front(xs), p, c);
      st' := PickStep(cx, mid, Last(xs), c);
    }
  }

  lemma StartSound(cx: Context, xs: seq<Item>) returns (st: Graph)
    ensures Run(cx, EMPTY, xs, st) && st.Sound(cx.meta)
    ensures forall x, e, c :: x in xs && Gives(cx, x, e, c) ==> c in st.Mentions(e)
  {
    hide Graph.Sound, Run, AllFacts;
    st := RunExists(cx, EMPTY, xs);
    EmptyIsSound(cx);
    FoldSound(cx, EMPTY, xs, st);
    RunAdds(cx, EMPTY, xs, st);
    MentionsAreSaid(cx, xs);
    forall x, e, c | x in xs && Gives(cx, x, e, c) ensures c in st.Mentions(e) {
      assert Says(cx, xs, e, c);
      assert (e, c) in GraphFacts(st).mentions;
    }
  }

  lemma SomeWhereElse(xs: seq<Item>, x: Item) returns (others: seq<Item>)
    requires x in xs
    ensures multiset(xs) == multiset(others) + multiset{x}
    ensures forall y :: y in xs && y != x ==> y in others
  {
    others := TakeOut(xs, x);
    forall y | y in xs && y != x ensures y in others {
      assert y in multiset(xs);
      assert y in multiset([x] + others);
    }
  }

  // The pair's edge last, picking d.
  lemma WithKey(cx: Context, ws: seq<Shard>, p: Pair, d: Chunk) returns (xs: seq<Item>, st: Graph)
    requires Borrowed(cx, Items(ws), p) && Says(cx, Items(ws), p.0, d)
    ensures Arranged(xs, ws) && Run(cx, EMPTY, xs, st) && (p.0, p.1, d) in Keys(st.rels)
  {
    hide Items, NodesOf, EdgesOf, Gives, Graph.Sound, Keys, Graph.Mentions, Context.ItemKeys, Context.Ends, Run;
    var ns, es := NodesOf(ws), EdgesOf(ws);
    var x :| x in Items(ws) && BorrowsFor(cx, x, p);
    var z :| z in Items(ws) && Gives(cx, z, p.0, d);
    BorrowerGivesNothing(cx, x, p.0, d, (p.0, p.1, d));
    WhichIsWhere(ws, ns, es, x);
    WhichIsWhere(ws, ns, es, z);
    var others := SomeWhereElse(es, x);
    var before := ns + others;
    assert z in before;
    var mid := StartSound(cx, before);
    st := PickStep(cx, mid, x, d);
    xs := ns + (others + [x]);
    assert xs == before + [x];
    OneMore(cx, before, x, mid, st);
    assert InOneGraph(ns, others + [x], ws);
  }

  lemma OneMore(cx: Context, xs: seq<Item>, x: Item, mid: Graph, st: Graph)
    requires Run(cx, EMPTY, xs, mid) && Step(cx, mid, x, st)
    ensures Run(cx, EMPTY, xs + [x], st)
  {
    hide Step;
    assert Front(xs + [x]) == xs && Last(xs + [x]) == x;
  }

  // The pair's edges first, when no node gives d to the source.
  lemma WithoutKeyEarly(cx: Context, ws: seq<Shard>, p: Pair, d: Chunk) returns (xs: seq<Item>, st: Graph)
    requires !NodeSays(cx, Items(ws), p.0, d) && !Records(cx, Items(ws), p, d)
    ensures Arranged(xs, ws) && Run(cx, EMPTY, xs, st) && (p.0, p.1, d) !in Keys(st.rels)
  {
    hide Items, NodesOf, EdgesOf, Gives, Graph.Sound, Keys, Graph.Mentions, Run, BorrowsFor, Relates, PairEdges;
    var ns, es := NodesOf(ws), EdgesOf(ws);
    var early, late := PairEdges(cx, es, p, true), PairEdges(cx, es, p, false);
    PairEdgesSplit(cx, es, p);
    var a := StartSound(cx, ns);
    NodesLack(cx, ws, a, p, d);
    var b := RunExists(cx, a, early);
    PairEdgesAre(cx, es, p, true);
    BorrowsElsewhere(cx, a, early, b, p, d);
    FoldSound(cx, a, early, b);
    st := RunExists(cx, b, late);
    PairEdgesAre(cx, es, p, false);
    EdgesRecordNot(cx, ws, late, p, d);
    KeyStaysAway(cx, b, late, st, p, d);
    xs := ns + (early + late);
    RunConcat(cx, EMPTY, ns, a, early, b);
    RunConcat(cx, EMPTY, ns + early, b, late, st);
    assert (ns + early) + late == xs;
    assert InOneGraph(ns, early + late, ws);
  }

  lemma NodesLack(cx: Context, ws: seq<Shard>, st: Graph, p: Pair, d: Chunk)
    requires Run(cx, EMPTY, NodesOf(ws), st)
    requires !Records(cx, Items(ws), p, d)
    ensures !NodeSays(cx, Items(ws), p.0, d) ==> d !in st.Mentions(p.0)
    ensures (p.0, p.1, d) !in Keys(st.rels)
  {
    hide Items, NodesOf, EdgesOf, Gives, Relates, Graph.Sound, Keys, Graph.Mentions, Run, Context.ItemKeys;
    var ns := NodesOf(ws);
    forall x | x in ns ensures x.NodeItem? && x in Items(ws) {
      WhichIsWhere(ws, ns, EdgesOf(ws), x);
    }
    if d in st.Mentions(p.0) {
      NodesGive(cx, ns, st, p.0, d);
    }
    EmptyIsSound(cx);
    NoKeysYet(p, d);
    KeyStaysAway(cx, EMPTY, ns, st, p, d);
  }

  lemma NoKeysYet(p: Pair, d: Chunk)
    ensures (p.0, p.1, d) !in Keys(EMPTY.rels)
  {
  }

  lemma EdgesRecordNot(cx: Context, ws: seq<Shard>, es: seq<Item>, p: Pair, d: Chunk)
    requires !Records(cx, Items(ws), p, d) && forall x :: x in es ==> x in EdgesOf(ws)
    ensures !Records(cx, es, p, d)
  {
    hide Items, NodesOf, EdgesOf, Relates;
    forall x | x in es ensures x in Items(ws) {
      WhichIsWhere(ws, NodesOf(ws), EdgesOf(ws), x);
    }
  }

  // The pair's edges last, all picking another chunk.
  lemma WithoutKeyLate(cx: Context, ws: seq<Shard>, p: Pair, d: Chunk, c: Chunk) returns (xs: seq<Item>, st: Graph)
    requires Says(cx, Items(ws), p.0, c) && c != d && !Records(cx, Items(ws), p, d)
    ensures Arranged(xs, ws) && Run(cx, EMPTY, xs, st) && (p.0, p.1, d) !in Keys(st.rels)
  {
    hide Items, NodesOf, EdgesOf, Gives, Graph.Sound, Keys, Graph.Mentions, Run, Relates, PairEdges, Context.ItemKeys,
      Context.Ends;
    var ns, es := NodesOf(ws), EdgesOf(ws);
    var late, early := PairEdges(cx, es, p, true), PairEdges(cx, es, p, false);
    PairEdgesSplit(cx, es, p);
    PairEdgesAre(cx, es, p, true);
    PairEdgesAre(cx, es, p, false);
    var a := StartSound(cx, ns + early);
    SaidEarly(cx, ws, early, p, c);
    EarlyLacks(cx, ws, early, a, p, d);
    st := AllPick(cx, a, late, p, c);
    xs := ns + (early + late);
    RunConcat(cx, EMPTY, ns + early, a, late, st);
    assert (ns + early) + late == xs;
    assert InOneGraph(ns, early + late, ws);
  }

  lemma SaidEarly(cx: Context, ws: seq<Shard>, early: seq<Item>, p: Pair, c: Chunk)
    requires Says(cx, Items(ws), p.0, c) && early == PairEdges(cx, EdgesOf(ws), p, false)
    ensures exists z :: z in NodesOf(ws) + early && Gives(cx, z, p.0, c)
  {
    hide Items, NodesOf, EdgesOf, Gives, PairEdges;
    var z :| z in Items(ws) && Gives(cx, z, p.0, c);
    WhichIsWhere(ws, NodesOf(ws), EdgesOf(ws), z);
    if z.EdgeItem? {
      PairEdgesSplit(cx, EdgesOf(ws), p);
      PairEdgesAre(cx, EdgesOf(ws), p, true);
      assert z in multiset(EdgesOf(ws));
      if z in PairEdges(cx, EdgesOf(ws), p, true) {
        BorrowerGivesNothing(cx, z, p.0, c, (p.0, p.1, c));
      }
    }
    assert z in NodesOf(ws) + early;
  }

  lemma EarlyLacks(cx: Context, ws: seq<Shard>, early: seq<Item>, st: Graph, p: Pair, d: Chunk)
    requires early == PairEdges(cx, EdgesOf(ws), p, false) && Run(cx, EMPTY, NodesOf(ws) + early, st)
    requires !Records(cx, Items(ws), p, d)
    ensures (p.0, p.1, d) !in Keys(st.rels)
  {
    hide Items, NodesOf, EdgesOf, Relates, Graph.Sound, Keys, Run, PairEdges, Context.ItemKeys;
    PairEdgesAre(cx, EdgesOf(ws), p, false);
    forall x | x in NodesOf(ws) + early ensures x in Items(ws) && !BorrowsFor(cx, x, p) {
      WhichIsWhere(ws, NodesOf(ws), EdgesOf(ws), x);
    }
    EmptyIsSound(cx);
    NoKeysYet(p, d);
    KeyStaysAway(cx, EMPTY, NodesOf(ws) + early, st, p, d);
  }

  // Two edges after some nodes: the first picks d, and the second picks it up at the first one's end.
  lemma PickTwice(cx: Context, ns: seq<Item>, x: Item, y: Item, d: Chunk) returns (st: Graph)
    requires cx.Borrows(x) && cx.Borrows(y) && cx.Ends(y.edge).0 == cx.Ends(x.edge).1
    requires exists z :: z in ns && Gives(cx, z, cx.Ends(x.edge).0, d)
    ensures Run(cx, EMPTY, ns + [x] + [y], st) && st.Sound(cx.meta)
    ensures (cx.Ends(y.edge).0, cx.Ends(y.edge).1, d) in Keys(st.rels)
  {
    hide Gives, Graph.Sound, Keys, Graph.Mentions, Context.ItemKeys, Context.Ends, Run;
    var a := StartSound(cx, ns);
    var b := PickStep(cx, a, x, d);
    OneMore(cx, ns, x, a, b);
    st := PickStep(cx, b, y, d);
    OneMore(cx, ns + [x], y, b, st);
  }

  lemma TakeTwo(es: seq<Item>, x: Item, y: Item) returns (others: seq<Item>)
    requires x in es && y in es && x != y
    ensures multiset([x] + [y] + others) == multiset(es)
  {
    var most := SomeWhereElse(es, x);
    others := SomeWhereElse(most, y);
  }

  lemma BorrowerIn(cx: Context, ws: seq<Shard>, p: Pair) returns (x: Item)
    requires Borrowed(cx, Items(ws), p)
    ensures x in EdgesOf(ws) && BorrowsFor(cx, x, p)
  {
    hide Items, NodesOf, EdgesOf, Context.ItemKeys, Context.Ends;
    x :| x in Items(ws) && BorrowsFor(cx, x, p);
    WhichIsWhere(ws, NodesOf(ws), EdgesOf(ws), x);
  }

  lemma GiverIn(cx: Context, ws: seq<Shard>, e: Eid, d: Chunk) returns (z: Item)
    requires NodeSays(cx, Items(ws), e, d)
    ensures z in NodesOf(ws) && Gives(cx, z, e, d)
  {
    hide Items, NodesOf, EdgesOf, Gives;
    z :| z in Items(ws) && z.NodeItem? && Gives(cx, z, e, d);
    WhichIsWhere(ws, NodesOf(ws), EdgesOf(ws), z);
  }

  // The pair's edge first, picking d, then an edge that borrows from its other end.
  lemma WithKeyOnward(cx: Context, ws: seq<Shard>, p: Pair, q: Pair, d: Chunk) returns (xs: seq<Item>, st: Graph)
    requires Borrowed(cx, Items(ws), p) && Borrowed(cx, Items(ws), q) && q.0 == p.1 != p.0
    requires NodeSays(cx, Items(ws), p.0, d)
    ensures Arranged(xs, ws) && Run(cx, EMPTY, xs, st) && (q.0, q.1, d) in Keys(st.rels)
  {
    hide Items, NodesOf, EdgesOf, Gives, Graph.Sound, Keys, Context.ItemKeys, Context.Ends, Run, Borrowed, NodeSays;
    var x := BorrowerIn(cx, ws, p);
    var y := BorrowerIn(cx, ws, q);
    var z := GiverIn(cx, ws, p.0, d);
    var others := TakeTwo(EdgesOf(ws), x, y);
    var early := PickTwice(cx, NodesOf(ws), x, y, d);
    st := RunExists(cx, early, others);
    KeyStays(cx, early, others, st, (q.0, q.1, d));
    RunConcat(cx, EMPTY, NodesOf(ws) + [x] + [y], early, others, st);
    assert NodesOf(ws) + [x] + [y] + others == NodesOf(ws) + ([x] + [y] + others);
    xs := NodesOf(ws) + ([x] + [y] + others);
    assert InOneGraph(NodesOf(ws), [x] + [y] + others, ws);
  }

  lemma KeyStays(cx: Context, st: Graph, xs: seq<Item>, st': Graph, k: RelKey)
    requires st.Sound(cx.meta) && Run(cx, st, xs, st') && k in Keys(st.rels)
    ensures k in Keys(st'.rels)
  {
    hide Run, Graph.Sound, Keys;
    RunAdds(cx, st, xs, st');
  }

  // ---- exactly when the order does not show ----

  // All folds agree: of the work dirs in any order, and of the one graph in any order of its nodes and
  // of its edges, whatever chunks are borrowed.
  ghost predicate OrderFree(cx: Context, ws: seq<Shard>)
  {
    forall xs, ys, a, b ::
      Arranged(xs, ws) && Arranged(ys, ws) && Run(cx, EMPTY, xs, a) && Run(cx, EMPTY, ys, b) ==>
        GraphFacts(a) == GraphFacts(b)
  }

  // What a caller can check: each pair that borrows is harmless or has one chunk to borrow, and in the
  // second case finds it there in every order of the work dirs.
  ghost predicate Steady(cx: Context, ws: seq<Shard>)
  {
    && PairsSteady(cx, Items(ws))
    && forall vs :: Permuted(vs, ws) ==> AllTriggered(cx, Items(ws), Items(vs))
  }

  lemma SteadyFold(cx: Context, ws: seq<Shard>, xs: seq<Item>, st: Graph)
    requires Steady(cx, ws) && Arranged(xs, ws) && Run(cx, EMPTY, xs, st)
    ensures GraphFacts(st) == Outcome(cx, Items(ws))
  {
    hide Items, PairsSteady, Lone, Outcome, GraphFacts, Run, SameItems, InOneGraph, Triggered;
    ArrangedItems(xs, ws);
    if ns, es :| InOneGraph(ns, es, ws) && xs == ns + es {
      forall p, d | Unrecorded(cx, Items(ws), p, d) && Lone(cx, Items(ws), p, d) ensures Triggered(cx, xs, p, d) {
        LoneNode(cx, Items(ws), p, d);
        OneGraphTriggers(cx, ws, ns, es, p, d);
      }
    }
    TriggeredFold(cx, Items(ws), xs, st);
  }

  lemma LoneNode(cx: Context, items: seq<Item>, p: Pair, d: Chunk)
    requires Lone(cx, items, p, d)
    ensures NodeSays(cx, items, p.0, d)
  {
  }

  lemma DifferentKeys(a: Graph, b: Graph, k: RelKey)
    requires k in Keys(a.rels) && k !in Keys(b.rels)
    ensures GraphFacts(a) != GraphFacts(b)
  {
    hide Keys;
  }

  // A pair that is neither harmless nor alone with one chunk.
  lemma UnsteadyPair(cx: Context, ws: seq<Shard>, p: Pair, d: Chunk)
    requires Borrowed(cx, Items(ws), p) && Says(cx, Items(ws), p.0, d) && !Records(cx, Items(ws), p, d)
    requires !Lone(cx, Items(ws), p, d)
    ensures !OrderFree(cx, ws)
  {
    hide Items, Arranged, Run, GraphFacts, Keys, Says, Records, NodeSays;
    var items := Items(ws);
    if exists c :: Says(cx, items, p.0, c) && c != d {
      var c :| Says(cx, items, p.0, c) && c != d;
      var xs, a := WithKey(cx, ws, p, d);
      var ys, b := WithoutKeyLate(cx, ws, p, d, c);
      DifferentKeys(a, b, (p.0, p.1, d));
    } else if !NodeSays(cx, items, p.0, d) {
      var xs, a := WithKey(cx, ws, p, d);
      var ys, b := WithoutKeyEarly(cx, ws, p, d);
      DifferentKeys(a, b, (p.0, p.1, d));
    } else {
      var q := OnwardPair(cx, items, p, d);
      var xs, a := WithKeyOnward(cx, ws, p, q, d);
      var ys, b := WithoutKeyEarly(cx, ws, q, d);
      DifferentKeys(a, b, (q.0, q.1, d));
    }
  }

  lemma OnwardPair(cx: Context, items: seq<Item>, p: Pair, d: Chunk) returns (q: Pair)
    requires !Lone(cx, items, p, d) && NodeSays(cx, items, p.0, d) && Says(cx, items, p.0, d)
    requires forall c :: Says(cx, items, p.0, c) ==> c == d
    ensures Borrowed(cx, items, q) && q.0 == p.1 != p.0
    ensures !NodeSays(cx, items, q.0, d) && !Records(cx, items, q, d)
  {
    hide Gives, Relates, Context.Ends, Context.ItemKeys;
    assert IsSource(cx, items, p.1) && !Says(cx, items, p.1, d);
    var y :| y in items && cx.Borrows(y) && cx.Ends(y.edge).0 == p.1;
    q := cx.Ends(y.edge);
    assert BorrowsFor(cx, y, q);
    if Records(cx, items, q, d) {
      RecordedIsMentioned(cx, items, q, d);
    }
  }

  // A pair that some order of the work dirs does not trigger; the one graph always does.
  lemma UntriggeredPair(cx: Context, ws: seq<Shard>, vs: seq<Shard>, p: Pair, d: Chunk)
    requires PairsSteady(cx, Items(ws)) && Permuted(vs, ws)
    requires Unrecorded(cx, Items(ws), p, d) && Lone(cx, Items(ws), p, d) && !Triggered(cx, Items(vs), p, d)
    ensures !OrderFree(cx, ws)
  {
    hide Items, PairsSteady, Lone, Run, GraphFacts, Keys, Borrowed, Records, NodesOf, EdgesOf, Triggered;
    var items, ns, es := Items(ws), NodesOf(ws), EdgesOf(ws);
    assert InOneGraph(ns, es, ws);
    assert Arranged(ns + es, ws) && Arranged(Items(vs), ws);
    var a := RunExists(cx, EMPTY, ns + es);
    var b := RunExists(cx, EMPTY, Items(vs));
    ArrangedItems(ns + es, ws);
    ArrangedItems(Items(vs), ws);
    SameFacts(cx, ns + es, items);
    SameFacts(cx, Items(vs), items);
    LoneNode(cx, items, p, d);
    OneGraphTriggers(cx, ws, ns, es, p, d);
    RecordedIffTriggered(cx, items, ns + es, a, p, d);
    RecordedIffTriggered(cx, items, Items(vs), b, p, d);
    DifferentKeys(a, b, (p.0, p.1, d));
  }

  // The work dirs in every order, and their items in one graph in every order, fold to one result
  // exactly when the input is steady.
  lemma FoldIsOrderFreeIff(cx: Context, ws: seq<Shard>)
    ensures OrderFree(cx, ws) <==> Steady(cx, ws)
  {
    hide Items, Arranged, Run, GraphFacts, Says, Records, NodeSays, Borrowed, Lone, Triggered;
    if Steady(cx, ws) {
      forall xs, a | Arranged(xs, ws) && Run(cx, EMPTY, xs, a) ensures GraphFacts(a) == Outcome(cx, Items(ws)) {
        SteadyFold(cx, ws, xs, a);
      }
    } else if !PairsSteady(cx, Items(ws)) {
      var p :| Borrowed(cx, Items(ws), p) && !Harmless(cx, Items(ws), p) && !exists d :: Lone(cx, Items(ws), p, d);
      var d :| Says(cx, Items(ws), p.0, d) && !Records(cx, Items(ws), p, d);
      UnsteadyPair(cx, ws, p, d);
    } else {
      var vs :| Permuted(vs, ws) && !AllTriggered(cx, Items(ws), Items(vs));
      var p, d :| Unrecorded(cx, Items(ws), p, d) && Lone(cx, Items(ws), p, d) && !Triggered(cx, Items(vs), p, d);
      UntriggeredPair(cx, ws, vs, p, d);
    }
  }

  // Every edge's source resolving is enough, or every borrow being recorded anyway: the folds give
  // what the items assert.
  lemma HarmlessShards(cx: Context, ws: seq<Shard>, xs: seq<Item>, st: Graph)
    requires BorrowingIsHarmless(cx, Items(ws)) && Arranged(xs, ws) && Run(cx, EMPTY, xs, st)
    ensures GraphFacts(st) == AllFacts(cx, Items(ws))
  {
    hide Items, Arranged, Run, AllFacts, GraphFacts;
    ArrangedItems(xs, ws);
    SameFacts(cx, xs, Items(ws));
    HarmlessFold(cx, xs, st);
  }

  // ---- one dictionary: the one graph is a work dir ----

  ghost predicate OneDictionary(ws: seq<Shard>, md5: map<string, Chunk>)
  {
    forall w :: w in ws ==> w.md5 == md5
  }

  // Shards that share their chunk dictionary: each order of the one graph is what the code folds for a
  // single work dir.
  lemma OneGraphIsAShard(ws: seq<Shard>, md5: map<string, Chunk>, ns: seq<Item>, es: seq<Item>) returns (g: Shard)
    requires OneDictionary(ws, md5) && InOneGraph(ns, es, ws)
    ensures g.hasGraph && g.md5 == md5 && Items([g]) == ns + es
  {
    hide Items, NodesOf, EdgesOf;
    forall x | x in ns || x in es ensures x.md5 == md5 && (x in ns ==> x.NodeItem?) && (x in es ==> x.EdgeItem?) {
      WhichIsWhere(ws, ns, es, x);
      DictionaryOf(ws, md5, x);
    }
    g := Shard(true, md5,
               seq(|ns|, i requires 0 <= i < |ns| => NodeIn(ns[i])),
               seq(|es|, i requires 0 <= i < |es| => EdgeIn(es[i])));
    OneShard(g);
    assert forall i :: 0 <= i < |ns| ==> ns[i] in ns;
    assert forall i :: 0 <= i < |es| ==> es[i] in es;
    assert NodeItems(g) == ns && EdgeItems(g) == es;
  }

  function NodeIn(x: Item): Node { if x.NodeItem? then x.node else Node("", "", []) }

  function EdgeIn(x: Item): Edge { if x.EdgeItem? then x.edge else Edge("", "", "", []) }

  lemma {:induction false} DictionaryOf(ws: seq<Shard>, md5: map<string, Chunk>, x: Item)
    requires OneDictionary(ws, md5) && x in Items(ws)
    ensures x.md5 == md5
    decreases |ws|
  {
    if x in Items(ws[..|ws| - 1]) {
      DictionaryOf(ws[..|ws| - 1], md5, x);
    } else {
      assert ws[|ws| - 1] in ws;
    }
  }

  // ---- two work dirs whose order shows ----

  // Two linked entities, none with a source that resolves,
  function Bare(x: string, y: string): Shard
  {
    Shard(true, map[], [Node(x, "", []), Node(y, "", [])], [Edge(x, y, "", [])])
  }

  // and the first of them again, with one.
  function Sourced(x: string, d: Chunk): Shard
  {
    Shard(true, map[], [Node(x, "", [d])], [])
  }

  function BareItems(x: string, y: string): (items: seq<Item>)
    ensures |items| == 3
  {
    [NodeItem(map[], Node(x, "", [])), NodeItem(map[], Node(y, "", [])), EdgeItem(map[], Edge(x, y, "", []))]
  }

  function SourcedItem(x: string, d: Chunk): Item
  {
    NodeItem(map[], Node(x, "", [d]))
  }

  predicate TwoEntities(cx: Context, x: string, y: string, d: Chunk)
  {
    cx.GoodName(x) && cx.GoodName(y) && cx.Id(x).number < cx.Id(y).number && d != "" && d in cx.meta
  }

  lemma TheirItems(x: string, y: string, d: Chunk)
    ensures Items([Bare(x, y), Sourced(x, d)]) == BareItems(x, y) + [SourcedItem(x, d)]
    ensures Items([Sourced(x, d), Bare(x, y)]) == [SourcedItem(x, d)] + BareItems(x, y)
  {
    hide Items;
    OneShard(Bare(x, y));
    OneShard(Sourced(x, d));
    assert NodeItems(Bare(x, y)) + EdgeItems(Bare(x, y)) == BareItems(x, y);
    assert NodeItems(Sourced(x, d)) + EdgeItems(Sourced(x, d)) == [SourcedItem(x, d)];
    ItemsConcat([Bare(x, y)], [Sourced(x, d)]);
    ItemsConcat([Sourced(x, d)], [Bare(x, y)]);
    assert [Bare(x, y)] + [Sourced(x, d)] == [Bare(x, y), Sourced(x, d)];
    assert [Sourced(x, d)] + [Bare(x, y)] == [Sourced(x, d), Bare(x, y)];
  }

  lemma OneToken(cx: Context, d: Chunk)
    requires d != "" && d in cx.meta
    ensures cx.KeysOf(map[], [d]) == {d}
  {
    var none: map<string, Chunk> := map[];
    assert d in [d] && d !in none;
    assert d in cx.KeysOf(map[], [d]);
  }

  lemma WhatTheyGive(cx: Context, x: string, y: string, d: Chunk)
    requires TwoEntities(cx, x, y, d)
    ensures forall z, e, c :: z in BareItems(x, y) ==> !Gives(cx, z, e, c)
    ensures forall z, k :: z in BareItems(x, y) ==> !Relates(cx, z, k)
    ensures forall e, c :: Gives(cx, SourcedItem(x, d), e, c) <==> e == cx.Id(x) && c == d
    ensures forall k :: !Relates(cx, SourcedItem(x, d), k)
    ensures forall z, p :: z in BareItems(x, y) + [SourcedItem(x, d)] && BorrowsFor(cx, z, p) ==>
      z == BareItems(x, y)[2] && p == (cx.Id(x), cx.Id(y))
    ensures BorrowsFor(cx, BareItems(x, y)[2], (cx.Id(x), cx.Id(y)))
  {
    assert cx.KeysOf(map[], []) == {};
    OneToken(cx, d);
    hide Context.KeysOf, Context.GoodName;
  }

  lemma TheyAreSteady(cx: Context, x: string, y: string, d: Chunk)
    requires TwoEntities(cx, x, y, d)
    ensures var items, p := BareItems(x, y) + [SourcedItem(x, d)], (cx.Id(x), cx.Id(y));
      PairsSteady(cx, items) && Unrecorded(cx, items, p, d) && Lone(cx, items, p, d)
  {
    var items, p := BareItems(x, y) + [SourcedItem(x, d)], (cx.Id(x), cx.Id(y));
    WhatTheyGive(cx, x, y, d);
    hide Gives, Relates, BareItems, Context.GoodName, Context.ItemKeys, Context.Ends;
    forall c ensures Says(cx, items, p.0, c) <==> c == d {
      if c == d {
        assert SourcedItem(x, d) in items && Gives(cx, SourcedItem(x, d), p.0, c);
      }
    }
    assert SourcedItem(x, d).NodeItem? && NodeSays(cx, items, p.0, d);
    assert BareItems(x, y)[2] in items && Borrowed(cx, items, p);
    forall z | z in items && cx.Borrows(z) ensures cx.Ends(z.edge) == p {
      assert BorrowsFor(cx, z, cx.Ends(z.edge));
    }
    assert !IsSource(cx, items, p.1);
    assert Lone(cx, items, p, d);
  }

  // Folded as bare then sourced the pair is never related; as sourced then bare it always is.
  lemma TwoShardsDisagree(cx: Context, x: string, y: string, d: Chunk, a: Graph, b: Graph)
    requires TwoEntities(cx, x, y, d)
    requires Run(cx, EMPTY, Items([Bare(x, y), Sourced(x, d)]), a)
    requires Run(cx, EMPTY, Items([Sourced(x, d), Bare(x, y)]), b)
    ensures (cx.Id(x), cx.Id(y), d) !in Keys(a.rels) && (cx.Id(x), cx.Id(y), d) in Keys(b.rels)
    ensures Permuted([Sourced(x, d), Bare(x, y)], [Bare(x, y), Sourced(x, d)])
  {
    hide Items, Run, Keys, PairsSteady, Lone, Gives, Relates, BorrowsFor, TwoEntities, Borrowed, Records,
      BareItems, SourcedItem, Bare, Sourced;
    var bare, full, p := BareItems(x, y), SourcedItem(x, d), (cx.Id(x), cx.Id(y));
    var items := bare + [full];
    TheirItems(x, y, d);
    TheyAreSteady(cx, x, y, d);
    WhatTheyGive(cx, x, y, d);
    assert SameItems([full] + bare, items);
    SameFacts(cx, [full] + bare, items);
    assert AllFrom(items, items) && Borrowed(cx, items, p) && !Records(cx, items, p, d);
    RecordedIffTriggered(cx, items, items, a, p, d);
    RecordedIffTriggered(cx, items, [full] + bare, b, p, d);
    GivenBefore(cx, [full], bare, full, bare[2], p, d);
    NothingGiven(cx, bare, p, d);
    assert Front(items) == bare && Last(items) == full;
  }

  // Items that give nothing hand nothing over and trigger nothing.
  lemma {:induction false} NothingGiven(cx: Context, xs: seq<Item>, p: Pair, d: Chunk)
    requires forall z, e, c :: z in xs ==> !Gives(cx, z, e, c)
    ensures !Triggered(cx, xs, p, d) && forall e :: !Handed(cx, xs, e, d)
    decreases |xs|
  {
    hide Gives, BorrowsFor, Context.Ends, Context.Borrows;
    if xs != [] {
      assert forall z :: z in Front(xs) ==> z in xs;
      assert Last(xs) in xs;
      NothingGiven(cx, Front(xs), p, d);
    }
  }
}
