// The fold in terms of the facts its items assert: what every step adds, and that nothing else is
// added when borrowing is harmless. Steps and runs always exist, whatever chunk is borrowed, and
// what they add stays.

module KgFoldOrder {
  import opened KgModel
  import opened KgFold

  // What is compared between two folds: entity ids, chunk sets, relation keys, and which
  // entities have a concrete type. (Which concrete type, name or description wins is the
  // first or last one met, so it does depend on the order.)
  datatype Facts = Facts(
    ids: set<Eid>,
    mentions: set<(Eid, Chunk)>,
    relKeys: set<RelKey>,
    concrete: set<Eid>)

  predicate Within(a: Facts, b: Facts)
  {
    a.ids <= b.ids && a.mentions <= b.mentions && a.relKeys <= b.relKeys && a.concrete <= b.concrete
  }

  function GraphFacts(st: Graph): Facts
  {
    Facts(
      st.names.Keys,
      set e, c | e in st.chunks && c in st.chunks[e] :: (e, c),
      Keys(st.rels),
      set e | e in st.types && st.types[e] != Other)
  }

  // What one item asserts by itself.
  function ItemFacts(cx: Context, item: Item): Facts
  {
    if !cx.Kept(item) then Facts({}, {}, {}, {})
    else
      var keys := cx.ItemKeys(item);
      match item
      case NodeItem(_, n) =>
        var e := cx.Id(n.name);
        Facts({e}, set c | c in keys :: (e, c), {},
              if cx.text.nodeType(cx.text.clean(n.name), n.kind) != Other then {e} else {})
      case EdgeItem(_, g) =>
        var (s, t) := cx.Ends(g);
        Facts({s, t}, (set c | c in keys :: (s, c)) + (set c | c in keys :: (t, c)), set c | c in keys :: (s, t, c), {})
  }

  // Everything a collection of items asserts, whatever the order.
  function AllFacts(cx: Context, items: seq<Item>): Facts
  {
    Facts(
      set x, e | x in items && e in ItemFacts(cx, x).ids :: e,
      set x, m | x in items && m in ItemFacts(cx, x).mentions :: m,
      set x, k | x in items && k in ItemFacts(cx, x).relKeys :: k,
      set x, e | x in items && e in ItemFacts(cx, x).concrete :: e)
  }

  // f has everything that borrowing by x could add to a graph inside it.
  predicate ClosedUnder(cx: Context, f: Facts, x: Item)
  {
    cx.Borrows(x) ==>
      var (s, t) := cx.Ends(x.edge);
      forall m <- f.mentions :: m.0 == s ==> (s, t, m.1) in f.relKeys && (t, m.1) in f.mentions
  }

  // ---- one step in terms of facts ----

  lemma NodeStepAdds(cx: Context, st: Graph, x: Item, st': Graph)
    requires x.NodeItem? && cx.Kept(x) && Step(cx, st, x, st')
    ensures Within(GraphFacts(st), GraphFacts(st')) && Within(ItemFacts(cx, x), GraphFacts(st'))
  {
    forall e, c | e in st.chunks && c in st.chunks[e] ensures e in st'.chunks && c in st'.chunks[e] {}
  }

  lemma StepAdds(cx: Context, st: Graph, x: Item, st': Graph)
    requires st.Sound(cx.meta) && Step(cx, st, x, st')
    ensures Within(GraphFacts(st), GraphFacts(st')) && Within(ItemFacts(cx, x), GraphFacts(st'))
  {
    hide Graph.Sound, EdgeStep, GraphFacts, ItemFacts, FoldNode;
    if !cx.Kept(x) {
      NothingKept(cx, st, x);
    } else if x.NodeItem? {
      NodeStepAdds(cx, st, x, st');
    } else {
      var cks, added :| EdgeStep(cx, st, x, st', cks, added);
      EdgeStepAdds(cx, st, x, st', cks, added);
      EdgeItemAdds(cx, st, x, st', cks, added);
    }
  }

  lemma NothingKept(cx: Context, st: Graph, x: Item)
    requires !cx.Kept(x)
    ensures Within(ItemFacts(cx, x), GraphFacts(st))
  {
  }

  lemma EdgeItemAdds(cx: Context, st: Graph, x: Item, st': Graph, cks: set<Chunk>, added: seq<Rel>)
    requires x.EdgeItem? && cx.Kept(x) && EdgeStep(cx, st, x, st', cks, added)
    requires var (s, t) := cx.Ends(x.edge);
             forall c <- cks :: (s, t, c) in Keys(st'.rels) && c in st'.Mentions(s) && c in st'.Mentions(t)
    ensures Within(ItemFacts(cx, x), GraphFacts(st'))
  {
    assert cx.ItemKeys(x) <= cks;
  }

  lemma EdgeStepAdds(cx: Context, st: Graph, x: Item, st': Graph, cks: set<Chunk>, added: seq<Rel>)
    requires st.Sound(cx.meta) && x.EdgeItem? && EdgeStep(cx, st, x, st', cks, added)
    ensures Within(GraphFacts(st), GraphFacts(st'))
    ensures var (s, t) := cx.Ends(x.edge);
            forall c <- cks :: (s, t, c) in Keys(st'.rels) && c in st'.Mentions(s) && c in st'.Mentions(t)
  {
    var (s, t) := cx.Ends(x.edge);
    forall c <- cks ensures (s, t, c) in Keys(st'.rels) && c in st'.Mentions(s) && c in st'.Mentions(t) {
    }
    hide EdgeStep, Keys, Graph.Sound, Graph.Mentions, GraphFacts;
    EdgeStepKeeps(cx, st, x, st', cks, added);
  }

  lemma EdgeStepKeeps(cx: Context, st: Graph, x: Item, st': Graph, cks: set<Chunk>, added: seq<Rel>)
    requires x.EdgeItem? && EdgeStep(cx, st, x, st', cks, added)
    ensures Within(GraphFacts(st), GraphFacts(st'))
  {
    hide EdgeRows, EdgeChunks, Context.Ends;
    forall k <- Keys(st.rels) ensures k in Keys(st'.rels) {
      var r :| r in st.rels && Key(r) == k;
      assert r in st'.rels;
    }
    forall e, c | e in st.chunks && c in st.chunks[e] ensures c in st'.Mentions(e) {}
  }

  lemma StepStaysWithin(cx: Context, st: Graph, x: Item, st': Graph, f: Facts)
    requires Step(cx, st, x, st')
    requires Within(GraphFacts(st), f) && Within(ItemFacts(cx, x), f) && ClosedUnder(cx, f, x)
    ensures Within(GraphFacts(st'), f)
  {
    if cx.Kept(x) {
      if x.EdgeItem? {
        var cks, added :| EdgeStep(cx, st, x, st', cks, added);
        EdgeStepStaysWithin(cx, st, x, st', cks, added, f);
      } else {
        var e := cx.Id(x.node.name);
        forall d, c | d in st'.chunks && c in st'.chunks[d] ensures (d, c) in f.mentions {
          assert c in st.Mentions(d) || (d == e && c in cx.ItemKeys(x));
        }
      }
    }
  }

  lemma EdgeStepStaysWithin(cx: Context, st: Graph, x: Item, st': Graph, cks: set<Chunk>, added: seq<Rel>, f: Facts)
    requires x.EdgeItem? && cx.Kept(x) && EdgeStep(cx, st, x, st', cks, added)
    requires Within(GraphFacts(st), f) && Within(ItemFacts(cx, x), f) && ClosedUnder(cx, f, x)
    ensures Within(GraphFacts(st'), f)
  {
    var (s, t) := cx.Ends(x.edge);
    forall c <- cks ensures (s, t, c) in f.relKeys && (s, c) in f.mentions && (t, c) in f.mentions {
      if c in cx.ItemKeys(x) {
        assert (s, t, c) in ItemFacts(cx, x).relKeys;
      } else {
        assert c in st.Mentions(s);
        assert (s, c) in GraphFacts(st).mentions;
      }
    }
    forall k <- Keys(st'.rels) ensures k in f.relKeys {
      var r :| r in st'.rels && Key(r) == k;
      assert r in st.rels || r in added;
    }
    forall e, c | e in st'.chunks && c in st'.chunks[e] ensures (e, c) in f.mentions {
      assert c in st.Mentions(e) || c in NewChunks(added);
      if c in st.Mentions(e) {
        assert (e, c) in GraphFacts(st).mentions;
      }
    }
  }

  // ---- whole folds ----

  lemma {:induction false} RunAdds(cx: Context, st: Graph, items: seq<Item>, st': Graph)
    requires st.Sound(cx.meta) && Run(cx, st, items, st')
    ensures Within(GraphFacts(st), GraphFacts(st')) && Within(AllFacts(cx, items), GraphFacts(st'))
    decreases |items|
  {
    if items != [] {
      var mid :| Run(cx, st, Front(items), mid) && Step(cx, mid, Last(items), st');
      RunAdds(cx, st, Front(items), mid);
      FoldSound(cx, st, Front(items), mid);
      StepAdds(cx, mid, Last(items), st');
      assert items == Front(items) + [Last(items)];
      assert forall x <- items :: x in Front(items) || x == Last(items);
    }
  }

  lemma {:induction false} RunStaysWithin(cx: Context, st: Graph, items: seq<Item>, st': Graph, f: Facts)
    requires Run(cx, st, items, st') && Within(GraphFacts(st), f)
    requires forall x <- items :: Within(ItemFacts(cx, x), f) && ClosedUnder(cx, f, x)
    ensures Within(GraphFacts(st'), f)
    decreases |items|
  {
    if items != [] {
      var mid :| Run(cx, st, Front(items), mid) && Step(cx, mid, Last(items), st');
      RunStaysWithin(cx, st, Front(items), mid, f);
      assert Last(items) in items;
      StepStaysWithin(cx, mid, Last(items), st', f);
    }
  }

  lemma AllFactsHas(cx: Context, items: seq<Item>, x: Item)
    requires x in items
    ensures Within(ItemFacts(cx, x), AllFacts(cx, items))
  {
  }

  // Whatever an edge could borrow, the items assert for that very pair anyway.
  ghost predicate BorrowingIsHarmless(cx: Context, items: seq<Item>)
  {
    forall x <- items :: cx.Borrows(x) ==>
      var (s, t) := cx.Ends(x.edge);
      forall m <- AllFacts(cx, items).mentions :: m.0 == s ==> (s, t, m.1) in AllFacts(cx, items).relKeys
  }

  lemma HarmlessIsClosed(cx: Context, items: seq<Item>, x: Item)
    requires BorrowingIsHarmless(cx, items) && x in items
    ensures ClosedUnder(cx, AllFacts(cx, items), x)
  {
    if cx.Borrows(x) {
      var f := AllFacts(cx, items);
      var (s, t) := cx.Ends(x.edge);
      forall m <- f.mentions | m.0 == s ensures (s, t, m.1) in f.relKeys && (t, m.1) in f.mentions {
        var y :| y in items && (s, t, m.1) in ItemFacts(cx, y).relKeys;
        assert (t, m.1) in ItemFacts(cx, y).mentions;
      }
    }
  }

  // Then a fold yields exactly what the items assert.
  lemma HarmlessFold(cx: Context, items: seq<Item>, st: Graph)
    requires BorrowingIsHarmless(cx, items) && Run(cx, EMPTY, items, st)
    ensures GraphFacts(st) == AllFacts(cx, items)
  {
    RunAdds(cx, EMPTY, items, st);
    forall x <- items ensures Within(ItemFacts(cx, x), AllFacts(cx, items)) && ClosedUnder(cx, AllFacts(cx, items), x) {
      AllFactsHas(cx, items, x);
      HarmlessIsClosed(cx, items, x);
    }
    RunStaysWithin(cx, EMPTY, items, st, AllFacts(cx, items));
  }

  // ---- every step and every run exists ----

  lemma SomeOrder(cks: set<Chunk>) returns (order: seq<Chunk>)
    ensures forall c :: c in order <==> c in cks
    ensures forall i, j :: 0 <= i < j < |order| ==> order[i] != order[j]
    decreases |cks|
  {
    if cks == {} {
      order := [];
    } else {
      var c :| c in cks;
      var rest := SomeOrder(cks - {c});
      order := [c] + rest;
    }
  }

  lemma RowsExist(st: Graph, s: Eid, t: Eid, desc: string, cks: set<Chunk>) returns (added: seq<Rel>)
    ensures EdgeRows(st, s, t, desc, cks, added)
  {
    var unseen := set c | c in cks && (s, t, c) !in Keys(st.rels);
    var order := SomeOrder(unseen);
    added := seq(|order|, i requires 0 <= i < |order| => Row(s, t, desc, order[i]));
    forall c <- unseen ensures Row(s, t, desc, c) in added {
      var i :| 0 <= i < |order| && order[i] == c;
      assert added[i] == Row(s, t, desc, c);
    }
    forall r <- added ensures r == Row(s, t, desc, r.chunk) && r.chunk in unseen {
      var i :| 0 <= i < |added| && added[i] == r;
      assert order[i] in order;
    }
  }

  function WithMentions(st: Graph, s: Eid, t: Eid, more: set<Chunk>): (chunks: map<Eid, set<Chunk>>)
    ensures chunks.Keys == st.chunks.Keys + {s, t}
    ensures forall e <- chunks :: chunks[e] == if e == s || e == t then st.Mentions(e) + more else st.Mentions(e)
  {
    map e | e in st.chunks.Keys + {s, t} :: if e == s || e == t then st.Mentions(e) + more else st.Mentions(e)
  }

  lemma EdgeStepExists(cx: Context, st: Graph, x: Item, cks: set<Chunk>) returns (st': Graph, added: seq<Rel>)
    requires x.EdgeItem? && cx.Kept(x) && EdgeChunks(cx, st, x, cks)
    ensures Step(cx, st, x, st') && EdgeStep(cx, st, x, st', cks, added)
    ensures st.Sound(cx.meta) ==>
      forall c <- cks :: (cx.Ends(x.edge).0, cx.Ends(x.edge).1, c) in GraphFacts(st').relKeys
  {
    var g := x.edge;
    var (s, t) := cx.Ends(x.edge);
    added := RowsExist(st, s, t, cx.text.describe(g.description), cks);
    st' := Graph(
      SetDefault(SetDefault(st.names, s, cx.text.clean(g.src)), t, cx.text.clean(g.tgt)),
      SetDefault(SetDefault(st.types, s, Other), t, Other),
      WithMentions(st, s, t, NewChunks(added)),
      st.rels + added);
    assert EdgeStep(cx, st, x, st', cks, added) by {
      hide EdgeRows, EdgeChunks, SetDefault, NewChunks;
    }
    if st.Sound(cx.meta) {
      hide EdgeStep, Graph.Sound;
      EdgeStepAdds(cx, st, x, st', cks, added);
    }
  }

  lemma StepExists(cx: Context, st: Graph, x: Item) returns (st': Graph)
    ensures Step(cx, st, x, st')
  {
    if !cx.Kept(x) {
      st' := st;
    } else if x.NodeItem? {
      st' := FoldNode(cx, st, x);
    } else {
      var keys, known := cx.ItemKeys(x), st.Mentions(cx.Ends(x.edge).0);
      if keys != {} || known == {} {
        var st1, added := EdgeStepExists(cx, st, x, keys);
        st' := st1;
      } else {
        var ck :| ck in known;
        var st1, added := EdgeStepExists(cx, st, x, {ck});
        st' := st1;
      }
    }
  }

  lemma {:induction false} RunExists(cx: Context, st: Graph, items: seq<Item>) returns (st': Graph)
    ensures Run(cx, st, items, st')
    decreases |items|
  {
    if items == [] {
      st' := st;
    } else {
      var mid := RunExists(cx, st, Front(items));
      st' := StepExists(cx, mid, Last(items));
    }
  }

  lemma EmptyIsSound(cx: Context)
    ensures EMPTY.Sound(cx.meta)
  {
  }

  lemma WithinBoth(a: Facts, b: Facts)
    requires Within(a, b) && Within(b, a)
    ensures a == b
  {
  }

  lemma TakeOut(late: seq<Item>, x: Item) returns (others: seq<Item>)
    requires x in late
    ensures multiset(late) == multiset([x] + others)
  {
    var k :| 0 <= k < |late| && late[k] == x;
    others := late[..k] + late[k + 1..];
    assert late == late[..k] + [x] + late[k + 1..];
  }

  // The condition the source relies on: every edge names a chunk that resolves.
  lemma ResolvedEdgesAreHarmless(cx: Context, items: seq<Item>)
    requires forall x <- items :: x.EdgeItem? ==> cx.ItemKeys(x) != {}
    ensures BorrowingIsHarmless(cx, items)
  {
  }
}
