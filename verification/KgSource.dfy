// What a work dir's source ids come to: through its chunk dictionary, the fold, the merge and
// into the tables.

module KgSource {
  import opened KgModel
  import opened KgAlias
  import opened KgMerge
  import opened KgTables
  import opened KgAdapter
  import F = KgFold
  import O = KgFoldOrder

  // ---- the chunk dictionary of a work dir ----

  // A source id the dictionary knows stands for the key it maps to, any other for itself.
  function Meaning(md5: map<string, Chunk>, token: string): string
  {
    if token in md5 && token != "" then md5[token] else token
  }

  function Meanings(md5: map<string, Chunk>, tokens: seq<string>): seq<string>
  {
    seq(|tokens|, i requires 0 <= i < |tokens| => Meaning(md5, tokens[i]))
  }

  // The item with its source ids spelled out.
  function Spelled(x: F.Item): F.Item
  {
    match x
    case NodeItem(md5, n) => F.NodeItem(map[], n.(tokens := Meanings(md5, n.tokens)))
    case EdgeItem(md5, e) => F.EdgeItem(map[], e.(tokens := Meanings(md5, e.tokens)))
  }

  function SpelledShard(w: Shard): Shard
  {
    Shard(w.hasGraph, map[],
          seq(|w.nodes|, i requires 0 <= i < |w.nodes| => w.nodes[i].(tokens := Meanings(w.md5, w.nodes[i].tokens))),
          seq(|w.edges|, i requires 0 <= i < |w.edges| => w.edges[i].(tokens := Meanings(w.md5, w.edges[i].tokens))))
  }

  function SpelledShards(ws: seq<Shard>): seq<Shard>
  {
    seq(|ws|, i requires 0 <= i < |ws| => SpelledShard(ws[i]))
  }

  function SpelledItems(xs: seq<F.Item>): seq<F.Item>
  {
    seq(|xs|, i requires 0 <= i < |xs| => Spelled(xs[i]))
  }

  // With nothing to look up, the keys are the source ids that the metadata know.
  lemma PlainKeys(cx: F.Context, tokens: seq<string>, c: Chunk)
    ensures c in cx.KeysOf(map[], tokens) <==> c in tokens && c != "" && c in cx.meta
  {
    var none: map<string, Chunk> := map[];
    assert c !in none;
  }

  // A kept node gives its entity those keys, and nothing else changes hands.
  lemma PlainNodeGains(cx: F.Context, st: Graph, n: F.Node, e: Eid, c: Chunk)
    requires cx.GoodName(n.name)
    ensures c in F.FoldNode(cx, st, F.NodeItem(map[], n)).Mentions(e) <==>
      c in st.Mentions(e) || (e == cx.Id(n.name) && c in n.tokens && c != "" && c in cx.meta)
  {
    PlainKeys(cx, n.tokens, c);
    hide F.Context.KeysOf;
  }

  lemma SpelledKeys(cx: F.Context, md5: map<string, Chunk>, tokens: seq<string>)
    requires "" !in cx.meta
    ensures cx.KeysOf(map[], Meanings(md5, tokens)) == cx.KeysOf(md5, tokens)
  {
    var spelled := Meanings(md5, tokens);
    forall c | c in cx.KeysOf(md5, tokens) ensures c in cx.KeysOf(map[], spelled) {
      var tok :| tok in tokens && tok != "" && c == if tok in md5 then md5[tok] else tok;
      var i :| 0 <= i < |tokens| && tokens[i] == tok;
      assert spelled[i] == c;
      PlainKeys(cx, spelled, c);
    }
    forall c | c in cx.KeysOf(map[], spelled) ensures c in cx.KeysOf(md5, tokens) {
      PlainKeys(cx, spelled, c);
      var i :| 0 <= i < |spelled| && spelled[i] == c;
      assert tokens[i] in tokens;
    }
  }

  lemma SpelledSteps(cx: F.Context, st: Graph, x: F.Item, st': Graph)
    requires "" !in cx.meta
    ensures F.Step(cx, st, x, st') <==> F.Step(cx, st, Spelled(x), st')
  {
    SpelledKeys(cx, x.md5, if x.NodeItem? then x.node.tokens else x.edge.tokens);
    hide F.Context.KeysOf, F.Context.GoodName, F.EdgeRows, F.MentionsGrow, F.Context.Ends;
    var y := Spelled(x);
    assert cx.ItemKeys(x) == cx.ItemKeys(y);
    if x.EdgeItem? {
      forall cks, added ensures F.EdgeStep(cx, st, x, st', cks, added) <==> F.EdgeStep(cx, st, y, st', cks, added) {
        assert x.edge.(tokens := y.edge.tokens) == y.edge && cx.Ends(x.edge) == cx.Ends(y.edge) by {
          SameEnds(cx, x.edge, y.edge.tokens);
        }
      }
    }
  }

  lemma SameEnds(cx: F.Context, e: F.Edge, tokens: seq<string>)
    ensures cx.Ends(e.(tokens := tokens)) == cx.Ends(e)
  {
  }

  lemma {:induction false} SpelledRuns(cx: F.Context, st: Graph, xs: seq<F.Item>, st': Graph)
    requires "" !in cx.meta
    ensures F.Run(cx, st, xs, st') <==> F.Run(cx, st, SpelledItems(xs), st')
    decreases |xs|
  {
    hide F.Step, Spelled;
    if xs != [] {
      var ys := SpelledItems(xs);
      assert F.Front(ys) == SpelledItems(F.Front(xs)) && F.Last(ys) == Spelled(F.Last(xs));
      forall mid ensures F.Run(cx, st, F.Front(xs), mid) <==> F.Run(cx, st, F.Front(ys), mid) {
        SpelledRuns(cx, st, F.Front(xs), mid);
      }
      forall mid ensures F.Step(cx, mid, F.Last(xs), st') <==> F.Step(cx, mid, F.Last(ys), st') {
        SpelledSteps(cx, mid, F.Last(xs), st');
      }
    }
  }

  lemma {:induction false} SpelledAreItems(ws: seq<Shard>)
    ensures Items(SpelledShards(ws)) == SpelledItems(Items(ws))
    decreases |ws|
  {
    if ws != [] {
      var n := |ws| - 1;
      assert SpelledShards(ws)[..n] == SpelledShards(ws[..n]);
      SpelledAreItems(ws[..n]);
      var w := ws[n];
      assert NodeItems(SpelledShard(w)) == SpelledItems(NodeItems(w));
      assert EdgeItems(SpelledShard(w)) == SpelledItems(EdgeItems(w));
    }
  }

  // Work dirs fold, from any state, exactly as those do in which every source id a dictionary knows is
  // spelled out and the dictionaries are empty.
  lemma FoldsAsSpelled(cx: F.Context, st: Graph, ws: seq<Shard>, st': Graph)
    requires "" !in cx.meta
    ensures F.Run(cx, st, Items(ws), st') <==> F.Run(cx, st, Items(SpelledShards(ws)), st')
  {
    hide F.Run, Items, SpelledShards, SpelledItems;
    SpelledAreItems(ws);
    SpelledRuns(cx, st, Items(ws), st');
  }

  // ---- from a source id to a row ----

  // A node's source id reaches the tables: its chunk is a mention of the entity that the node's own
  // resolves to, which has a row.
  lemma NodeReachesTables(cx: F.Context, ws: seq<Shard>, g: Graph, alias: map<Eid, Eid>,
                          corrections: map<Eid, EntityType>, t: Tables, w: Shard, n: F.Node, token: string)
    requires Folded(cx, ws, g, alias) && TablesOf(g, alias, corrections, t)
    requires w in ws && w.hasGraph && n in w.nodes
    requires cx.text.clean(n.name) != "" && !cx.text.isJunk(cx.text.clean(n.name))
    requires token in n.tokens && token != "" && Meaning(w.md5, token) in cx.meta
    ensures var e := Resolve(alias, cx.text.slug(cx.text.clean(n.name)));
      (e, Meaning(w.md5, token)) in t.mentions && HasEntity(t, e) && e !in alias
  {
    hide F.Run, Items, Resolve, EntitiesOf, MentionsOf, Snapshot.AliasMap;
    var x, c := F.NodeItem(w.md5, n), Meaning(w.md5, token);
    var i :| 0 <= i < |w.nodes| && w.nodes[i] == n;
    assert NodeItems(w)[i] == x;
    ItemOfShard(ws, w, x);
    assert c in cx.KeysOf(w.md5, n.tokens);
    assert (cx.Id(n.name), c) in O.ItemFacts(cx, x).mentions;
    SaidIsHeld(cx, Items(ws), g, x);
    MentionReaches(cx, ws, g, alias, corrections, t, cx.Id(n.name), c);
  }

  lemma ItemOfShard(ws: seq<Shard>, w: Shard, x: F.Item)
    requires w in ws && w.hasGraph && (x in NodeItems(w) || x in EdgeItems(w))
    ensures x in Items(ws)
    decreases |ws|
  {
    var n := |ws| - 1;
    if w in ws[..n] {
      ItemOfShard(ws[..n], w, x);
    }
  }

  // What an item says, every fold holds.
  lemma SaidIsHeld(cx: F.Context, xs: seq<F.Item>, g: Graph, x: F.Item)
    requires F.Run(cx, EMPTY, xs, g) && x in xs
    ensures O.Within(O.ItemFacts(cx, x), O.GraphFacts(g)) && g.Sound(cx.meta)
  {
    hide F.Run, O.ItemFacts, O.GraphFacts, O.AllFacts;
    O.EmptyIsSound(cx);
    F.FoldSound(cx, EMPTY, xs, g);
    O.RunAdds(cx, EMPTY, xs, g);
    O.AllFactsHas(cx, xs, x);
  }

  lemma MentionReaches(cx: F.Context, ws: seq<Shard>, g: Graph, alias: map<Eid, Eid>,
                       corrections: map<Eid, EntityType>, t: Tables, e: Eid, c: Chunk)
    requires Folded(cx, ws, g, alias) && TablesOf(g, alias, corrections, t) && g.Sound(cx.meta)
    requires (e, c) in O.GraphFacts(g).mentions
    ensures (Resolve(alias, e), c) in t.mentions && HasEntity(t, Resolve(alias, e)) && Resolve(alias, e) !in alias
  {
    hide F.Run, Items, Resolve, Snapshot.AliasMap, CollapsedFrom, RowOf, HasEntity, Looked, Graph.Sound, Represents;
    FoldedRepresents(cx, ws, g, alias);
    HolderIsNamed(g, cx.meta, e, c);
    RepresentativeIs(g, alias, e);
    assert Mentioned(g, alias, Resolve(alias, e), c);
  }

  // And an edge's source id: both ends' entities mention its chunk, and unless the ends were merged
  // into one there is a weighted edge between them.
  lemma EdgeReachesTables(cx: F.Context, ws: seq<Shard>, g: Graph, alias: map<Eid, Eid>,
                          corrections: map<Eid, EntityType>, t: Tables, w: Shard, edge: F.Edge, token: string)
    requires Folded(cx, ws, g, alias) && TablesOf(g, alias, corrections, t)
    requires w in ws && w.hasGraph && edge in w.edges
    requires cx.text.clean(edge.src) != "" && !cx.text.isJunk(cx.text.clean(edge.src))
    requires cx.text.clean(edge.tgt) != "" && !cx.text.isJunk(cx.text.clean(edge.tgt))
    requires token in edge.tokens && token != "" && Meaning(w.md5, token) in cx.meta
    ensures var a, b := Resolve(alias, cx.text.slug(cx.text.clean(edge.src))),
                        Resolve(alias, cx.text.slug(cx.text.clean(edge.tgt)));
      && (a, Meaning(w.md5, token)) in t.mentions && (b, Meaning(w.md5, token)) in t.mentions
      && (a != b ==> exists row :: row in t.relationships && row.pair == Sorted(a, b))
  {
    hide F.Run, Items, Resolve, EntitiesOf, MentionsOf, Snapshot.AliasMap, Remapped;
    var x, c := F.EdgeItem(w.md5, edge), Meaning(w.md5, token);
    var i :| 0 <= i < |w.edges| && w.edges[i] == edge;
    assert EdgeItems(w)[i] == x;
    ItemOfShard(ws, w, x);
    assert c in cx.KeysOf(w.md5, edge.tokens);
    SaidIsHeld(cx, Items(ws), g, x);
    var (s, u) := cx.Ends(edge);
    assert (s, c) in O.ItemFacts(cx, x).mentions && (u, c) in O.ItemFacts(cx, x).mentions;
    assert (s, u, c) in O.ItemFacts(cx, x).relKeys;
    MentionReaches(cx, ws, g, alias, corrections, t, s, c);
    MentionReaches(cx, ws, g, alias, corrections, t, u, c);
    RowReaches(g, alias, t.relationships, s, u, c);
    SortedAlike(alias, cx.Id(edge.src), cx.Id(edge.tgt));
  }

  lemma SortedAlike(alias: map<Eid, Eid>, a: Eid, b: Eid)
    ensures var (s, u) := Sorted(a, b); {s, u} == {a, b}
    ensures var (s, u) := Sorted(a, b);
      Sorted(Resolve(alias, s), Resolve(alias, u)) == Sorted(Resolve(alias, a), Resolve(alias, b))
  {
    hide Resolve;
  }

  lemma RowReaches(g: Graph, alias: map<Eid, Eid>, edges: seq<Weighted>, s: Eid, u: Eid, c: Chunk)
    requires (s, u, c) in O.GraphFacts(g).relKeys && s.number <= u.number
    requires CollapsedFrom(if alias == map[] then g.rels else Remapped(alias, g.rels), edges)
    ensures Resolve(alias, s) != Resolve(alias, u) ==>
      exists row :: row in edges && row.pair == Sorted(Resolve(alias, s), Resolve(alias, u))
  {
    hide Remapped, Summarises, DistinctPairs;
    var r :| r in g.rels && Key(r) == (s, u, c);
    if Resolve(alias, s) != Resolve(alias, u) {
      if alias == map[] {
        assert Resolve(alias, s) == s && Resolve(alias, u) == u;
        var row :| row in edges && row.pair == PairOf(r);
      } else {
        RemappedRows(alias, g.rels);
        var kept := RemapRow(alias, r);
        assert Key(kept) in Keys(Remapped(alias, g.rels));
        var y :| y in Remapped(alias, g.rels) && Key(y) == Key(kept);
        var row :| row in edges && row.pair == PairOf(y);
      }
    }
  }

  lemma FoldedRepresents(cx: F.Context, ws: seq<Shard>, g: Graph, alias: map<Eid, Eid>)
    requires Folded(cx, ws, g, alias)
    ensures Represents(g, alias)
  {
    hide F.Run, Items, Resolve, Snapshot.AliasMap, Represents;
    var s, win :| AliasedBy(cx, g, s, win, alias);
    AliasMapRepresents(s, win, alias, g);
  }

  lemma HolderIsNamed(g: Graph, meta: set<Chunk>, e: Eid, c: Chunk)
    requires g.Sound(meta) && (e, c) in O.GraphFacts(g).mentions
    ensures e in g.names && c in g.Mentions(e)
  {
  }

  lemma RepresentativeIs(g: Graph, alias: map<Eid, Eid>, e: Eid)
    requires Represents(g, alias) && e in g.names
    ensures Resolve(alias, e) in g.names && Resolve(alias, e) !in alias
  {
  }
}
