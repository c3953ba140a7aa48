// The adapter's shared dictionaries, updated in place: the fold of all work dirs, the merge along
// the aliases, the type overrides and the four tables. Each method is tied to the graph it holds,
// so that what is proved of graphs holds of the dictionaries.

module KgAdapter {
  import opened KgModel
  import opened KgAlias
  import opened KgAliasBuild
  import opened KgMerge
  import opened KgTables
  import F = KgFold

  // One LightRAG work dir; hasGraph says whether its graphml exists.
  datatype Shard = Shard(hasGraph: bool, md5: map<string, Chunk>, nodes: seq<F.Node>, edges: seq<F.Edge>)

  function NodeItems(shard: Shard): seq<F.Item>
  {
    seq(|shard.nodes|, i requires 0 <= i < |shard.nodes| => F.NodeItem(shard.md5, shard.nodes[i]))
  }

  function EdgeItems(shard: Shard): seq<F.Item>
  {
    seq(|shard.edges|, i requires 0 <= i < |shard.edges| => F.EdgeItem(shard.md5, shard.edges[i]))
  }

  // What a run over the work dirs folds, in order.
  function Items(shards: seq<Shard>): seq<F.Item>
  {
    if shards == [] then []
    else
      var last := shards[|shards| - 1];
      Items(shards[..|shards| - 1]) + if last.hasGraph then NodeItems(last) + EdgeItems(last) else []
  }

  class Adapter {
    const cx: F.Context
    var names: map<Eid, string>
    var types: map<Eid, EntityType>
    var chunks: map<Eid, set<Chunk>>
    var rels: seq<Rel>
    var seenRels: set<RelKey>

    function Value(): Graph
      reads this
    {
      Graph(names, types, chunks, rels)
    }

    ghost predicate Valid()
      reads this
    {
      Value().Sound(cx.meta) && seenRels == Keys(rels)
    }

    constructor (cx: F.Context)
      ensures this.cx == cx && Value() == EMPTY && Valid()
    {
      this.cx := cx;
      names, types, chunks, rels, seenRels := map[], map[], map[], [], {};
    }

    method FoldNode(item: F.Item)
      requires Valid() && item.NodeItem? && cx.Kept(item)
      modifies this
      ensures Value() == F.FoldNode(cx, old(Value()), item) && seenRels == old(seenRels)
    {
      var name := cx.text.clean(item.node.name);
      var eid := cx.text.slug(name);
      names := names[eid := name];
      var newType := cx.text.nodeType(name, item.node.kind);
      if eid !in types || types[eid] == Other {
        types := types[eid := newType];
      }
      chunks := chunks[eid := (if eid in chunks then chunks[eid] else {}) + cx.KeysOf(item.md5, item.node.tokens)];
    }

    // keys_of(...) or {next(iter(ent_chunks[s]), "")}, without the empty string.
    method ChunksOfEdge(item: F.Item, s: Eid) returns (cks: set<Chunk>)
      requires item.EdgeItem? && cx.Kept(item) && s == cx.Ends(item.edge).0
      modifies this`chunks
      ensures F.EdgeChunks(cx, old(Value()), item, cks)
      ensures forall e: Eid :: Value().Mentions(e) == old(Value()).Mentions(e)
      ensures old(chunks).Keys <= chunks.Keys <= old(chunks).Keys + {s}
    {
      cks := cx.KeysOf(item.md5, item.edge.tokens);
      if cks == {} {
        if s !in chunks {
          chunks := chunks[s := {}];
        }
        if chunks[s] != {} {
          var ck :| ck in chunks[s];
          cks := {ck};
        }
      }
    }

    method AddRow(s: Eid, t: Eid, desc: string, ck: Chunk)
      modifies this
      ensures rels == old(rels) + [F.Row(s, t, desc, ck)] && seenRels == old(seenRels) + {(s, t, ck)}
      ensures (names, types) == old((names, types))
      ensures F.MentionsGrow(old(Value()), Value(), s, t, {ck})
    {
      seenRels := seenRels + {(s, t, ck)};
      chunks := chunks[s := (if s in chunks then chunks[s] else {}) + {ck}];
      chunks := chunks[t := (if t in chunks then chunks[t] else {}) + {ck}];
      rels := rels + [F.Row(s, t, desc, ck)];
    }

    // for ck in cks: skip what is recorded, record the rest.
    method AddRows(s: Eid, t: Eid, desc: string, cks: set<Chunk>) returns (ghost added: seq<Rel>)
      requires seenRels == Keys(rels)
      modifies this
      ensures (names, types) == old((names, types))
      ensures seenRels == Keys(rels) && rels == old(rels) + added
      ensures F.EdgeRows(old(Value()), s, t, desc, cks, added)
      ensures F.MentionsGrow(old(Value()), Value(), s, t, F.NewChunks(added))
    {
      ghost var before := Value();
      added := [];
      ghost var done: set<Chunk> := {};
      assert F.MentionsGrow(before, Value(), s, t, F.NewChunks(added));
      assert F.EdgeRows(before, s, t, desc, done, added);
      hide F.EdgeRows, F.MentionsGrow, F.NewChunks, F.Row;
      var todo := cks;
      while todo != {}
        invariant todo <= cks && done == cks - todo
        invariant (names, types) == (before.names, before.types)
        invariant seenRels == Keys(rels) && rels == before.rels + added
        invariant F.EdgeRows(before, s, t, desc, done, added)
        invariant F.MentionsGrow(before, Value(), s, t, F.NewChunks(added))
        decreases todo
      {
        var ck :| ck in todo;
        MoveOne(cks, done, todo, ck);
        if (s, t, ck) !in seenRels {
          ghost var mid := Value();
          AddRow(s, t, desc, ck);
          assert Keys(mid.rels + [F.Row(s, t, desc, ck)]) == Keys(mid.rels) + {Key(F.Row(s, t, desc, ck))};
          added := added + [F.Row(s, t, desc, ck)];
        }
        todo, done := todo - {ck}, done + {ck};
      }
      assert done == cks;
    }

    method FoldEdge(item: F.Item)
      requires Valid() && item.EdgeItem? && cx.Kept(item)
      modifies this
      ensures Valid() && F.Step(cx, old(Value()), item, Value())
    {
      hide F.EdgeRows, F.MentionsGrow, F.EdgeChunks, F.NewChunks, F.SetDefault, F.Step, Graph.Sound;
      var srcName, tgtName := cx.text.clean(item.edge.src), cx.text.clean(item.edge.tgt);
      var (s, t) := Sorted(cx.text.slug(srcName), cx.text.slug(tgtName));
      var desc := cx.text.describe(item.edge.description);
      ghost var before := Value();
      var cks := ChunksOfEdge(item, s);
      ghost var mid := Value();
      ghost var added := AddRows(s, t, desc, cks);
      ghost var grown := Value();
      LooksTheSame(before, mid, grown, s, t, desc, cks, added);
      names := F.SetDefault(F.SetDefault(names, s, srcName), t, tgtName);
      types := F.SetDefault(F.SetDefault(types, s, Other), t, Other);
      EdgeIsDone(cx, before, item, grown, Value(), cks, added);
    }

    // The two loops over one graph: all its nodes, then all its edges.
    method FoldItems(items: seq<F.Item>)
      requires Valid()
      modifies this
      ensures Valid() && F.Run(cx, old(Value()), items, Value())
    {
      for i := 0 to |items|
        invariant Valid() && F.Run(cx, old(Value()), items[..i], Value())
      {
        ghost var before := Value();
        var item := items[i];
        if cx.Kept(item) {
          if item.NodeItem? {
            FoldNode(item);
          } else {
            FoldEdge(item);
          }
        }
        assert F.Front(items[..i + 1]) == items[..i] && F.Last(items[..i + 1]) == item;
        F.StepSound(cx, before, item, Value());
      }
      assert items[..|items|] == items;
    }

    method FoldGraphml(workdirs: seq<Shard>)
      requires Valid()
      modifies this
      ensures Valid() && F.Run(cx, old(Value()), Items(workdirs), Value())
    {
      for k := 0 to |workdirs|
        invariant Valid() && F.Run(cx, old(Value()), Items(workdirs[..k]), Value())
      {
        ghost var before := Value();
        var shard := workdirs[k];
        assert workdirs[..k + 1][..k] == workdirs[..k];
        if shard.hasGraph {
          FoldItems(NodeItems(shard));
          ghost var mid := Value();
          FoldItems(EdgeItems(shard));
          F.RunConcat(cx, before, NodeItems(shard), mid, EdgeItems(shard), Value());
          F.RunConcat(cx, old(Value()), Items(workdirs[..k]), before, NodeItems(shard) + EdgeItems(shard), Value());
        } else {
          assert Items(workdirs[..k]) + [] == Items(workdirs[..k]);
        }
      }
      assert workdirs[..|workdirs|] == workdirs;
    }

    // ent_chunks[win] |= ent_chunks.pop(lose, set()), and the loser's name and type go.
    method PopLoser(lose: Eid, win: Eid)
      requires lose != win
      modifies this
      ensures (rels, seenRels) == old((rels, seenRels))
      ensures names == old(names) - {lose} && types == old(types) - {lose}
      ensures chunks.Keys == old(chunks).Keys - {lose} + {win}
      ensures forall r: Eid :: r != lose ==>
                Value().Mentions(r)
                == if r == win then old(Value()).Mentions(r) + old(Value()).Mentions(lose) else old(Value()).Mentions(r)
    {
      var moved := if lose in chunks then chunks[lose] else {};
      chunks := chunks - {lose};
      chunks := chunks[win := (if win in chunks then chunks[win] else {}) + moved];
      names := names - {lose};
      types := types - {lose};
    }

    // One loser; the guard that would skip it never holds.
    method AbsorbLoser(alias: map<Eid, Eid>, lose: Eid, ghost before: Graph, ghost done: set<Eid>) returns (merged: nat)
      requires Represents(before, alias) && Absorbed(before, alias, done, Value()) && done <= alias.Keys
      requires lose in alias && lose !in done
      modifies this
      ensures rels == old(rels) && merged == 1
      ensures Absorbed(before, alias, done + {lose}, Value())
    {
      var win := ResolveLoop(alias, lose);
      ghost var mid := Value();
      assert lose in mid.names && Resolve(alias, lose) in mid.names && Resolve(alias, lose) != lose;
      hide Absorbed, Represents, Resolve;
      merged := 0;
      if win != lose && lose in names {
        PopLoser(lose, win);
        AbsorbOne(before, alias, done, mid, Value(), lose);
        merged := 1;
      }
    }

    // for lose in list(alias), in any order.
    method AbsorbLosers(alias: map<Eid, Eid>) returns (merged: nat)
      requires Represents(Value(), alias) && chunks.Keys <= names.Keys
      modifies this
      ensures merged > 0 <==> alias != map[]
      ensures rels == old(rels) && Absorbed(old(Value()), alias, alias.Keys, Value())
    {
      merged := 0;
      ghost var before := Value();
      ghost var done: set<Eid> := {};
      hide *;
      var todo := alias.Keys;
      while todo != {}
        invariant todo <= alias.Keys && done == alias.Keys - todo && (merged > 0 <==> done != {})
        invariant rels == old(rels) && Absorbed(before, alias, done, Value())
        decreases todo
      {
        var lose :| lose in todo;
        MoveOne(alias.Keys, done, todo, lose);
        var one := AbsorbLoser(alias, lose, before, done);
        merged := merged + one;
        todo, done := todo - {lose}, done + {lose};
      }
      assert done == alias.Keys;
    }

    // The two loops after the alias dictionary is complete.
    method MergeWith(alias: map<Eid, Eid>)
      requires Value().Sound(cx.meta) && Represents(Value(), alias)
      modifies this
      ensures MergedInto(old(Value()), alias, Value())
    {
      ghost var before := Value();
      assert before.chunks.Keys <= before.names.Keys;
      hide Represents, MergedInto, Graph.Sound, Absorbed, Remapped, Resolve;
      var merged := AbsorbLosers(alias);
      ghost var absorbed := Value();
      if merged > 0 {
        rels := RemapRels(alias, rels);
      }
      AbsorbedAll(before, alias, absorbed, Value());
    }

    method MergeAliases() returns (ghost alias: map<Eid, Eid>, ghost s: Snapshot, ghost win: map<Eid, Eid>)
      requires Valid() && TextLaws(cx.text)
      modifies this
      ensures Looked(s, old(Value())) && s.text == cx.text && s.AliasMap(win, alias)
      ensures Represents(old(Value()), alias)
      ensures MergedInto(old(Value()), alias, Value())
      ensures Value().Sound(cx.meta)
    {
      hide Represents, MergedInto, Snapshot.AliasMap, Looked, Graph.Sound, Snapshot.Valid, TextLaws;
      ghost var before := Value();
      var realAlias, byLower := BuildAliases(cx.text, names, types, chunks);
      s := Snapshot(cx.text, names, types, chunks, byLower);
      win :| s.AliasMap(win, realAlias);
      alias := realAlias;
      assert before.Sound(cx.meta);
      SnapshotLooks(s, before, cx.meta);
      AliasMapRepresents(s, win, alias, before);
      MergeWith(realAlias);
      MergeSound(alias, before, Value(), cx.meta);
    }

    // for eid, etype in corrections.items(): corrections for entities that survived, in any order; other
    // ids are ignored.
    method ApplyTypeOverrides(corrections: map<Eid, EntityType>)
      requires Value().Sound(cx.meta)
      modifies this`types
      ensures Value().Sound(cx.meta)
      ensures types.Keys == names.Keys == old(types).Keys
      ensures forall e <- types :: types[e] == if e in corrections then corrections[e] else old(types)[e]
    {
      var todo := corrections.Keys;
      while todo != {}
        invariant types.Keys == names.Keys && todo <= corrections.Keys
        invariant forall e <- types ::
          types[e] == if e in corrections && e !in todo then corrections[e] else old(types)[e]
        decreases todo
      {
        var e :| e in todo;
        if e in names {
          types := types[e := corrections[e]];
        }
        todo := todo - {e};
      }
      assert forall r <- rels :: old(Value()).RowFits(r) ==> Value().RowFits(r);
    }

    method BuildTables(edges: seq<Weighted>) returns (t: Tables)
      requires Value().Sound(cx.meta) && CollapsedFrom(rels, edges)
      ensures BuiltFrom(Value(), edges, t)
    {
      var entities := EntityRows(names, types, chunks);
      var chunkIds := Listing(set e, c | e in names && e in chunks && c in chunks[e] :: c);
      var mentions := Listing(set e, c | e in chunks && c in chunks[e] :: (e, c));
      t := Tables(entities, chunkIds, mentions, edges);
      hide CollapsedFrom;
      assert forall c :: c in t.chunkIds <==> exists e :: e in names && c in Value().Mentions(e);
      assert forall e, c :: (e, c) in t.mentions <==> e in chunks && c in chunks[e];
    }

    // main(): from any work dirs to four tables that hold together, and that say of the folded work
    // dirs what is left of them along an alias map of the rules.
    method BuildKnowledgeGraph(workdirs: seq<Shard>, corrections: map<Eid, EntityType>) returns (t: Tables)
      requires Valid() && Value() == EMPTY && TextLaws(cx.text)
      modifies this
      ensures exists g, alias :: Folded(cx, workdirs, g, alias) && TablesOf(g, alias, corrections, t)
      ensures ForeignKeysResolve(t, cx.meta)
      ensures TotalWeight(t.relationships) == |rels| && DistinctPairs(t.relationships)
    {
      hide TablesOf, MergedInto, Graph.Sound, CollapsedFrom, BuiltFrom, Snapshot.AliasMap, Looked, TextLaws, F.Run;
      FoldGraphml(workdirs);
      ghost var g := Value();
      ghost var alias, s, win := MergeAliases();
      ghost var merged := Value();
      ApplyTypeOverrides(corrections);
      var edges := CollapseEdges(rels);
      t := BuildTables(edges);
      ghost var last := Value();
      TablesHoldTogether(last, cx.meta, edges, t);
      AreTablesOf(g, alias, merged, corrections, last, edges, t, cx.meta);
      assert AliasedBy(cx, g, s, win, alias) && Folded(cx, workdirs, g, alias);
    }
  }

  // g is a fold of the work dirs, and alias an alias map of the rules for it.
  ghost predicate Folded(cx: F.Context, workdirs: seq<Shard>, g: Graph, alias: map<Eid, Eid>)
  {
    F.Run(cx, EMPTY, Items(workdirs), g) && exists s, win :: AliasedBy(cx, g, s, win, alias)
  }

  ghost predicate AliasedBy(cx: F.Context, g: Graph, s: Snapshot, win: map<Eid, Eid>, alias: map<Eid, Eid>)
  {
    Looked(s, g) && s.text == cx.text && s.AliasMap(win, alias)
  }

  // A row for each entity without an alias, corrected or as folded; a mention for each of g's, under
  // the entity's representative; and the edges of g's rows with both ends resolved.
  ghost predicate TablesOf(g: Graph, alias: map<Eid, Eid>, corrections: map<Eid, EntityType>, t: Tables)
  {
    && EntitiesOf(g, alias, corrections, t)
    && MentionsOf(g, alias, t)
    && CollapsedFrom(if alias == map[] then g.rels else Remapped(alias, g.rels), t.relationships)
  }

  ghost predicate EntitiesOf(g: Graph, alias: map<Eid, Eid>, corrections: map<Eid, EntityType>, t: Tables)
  {
    && (forall e :: HasEntity(t, e) <==> e in g.names && e !in alias)
    && |t.entities| == |g.names.Keys - alias.Keys|
    && (forall row <- t.entities :: RowOf(g, alias, corrections, row))
  }

  ghost predicate MentionsOf(g: Graph, alias: map<Eid, Eid>, t: Tables)
  {
    && (forall e, c :: (e, c) in t.mentions <==> Mentioned(g, alias, e, c))
    && (forall c :: c in t.chunkIds <==> Occurs(g, c))
    && Distinct(t.mentions) && Distinct(t.chunkIds)
  }

  ghost predicate Occurs(g: Graph, c: Chunk)
  {
    exists e :: e in g.names && c in g.Mentions(e)
  }

  ghost predicate RowOf(g: Graph, alias: map<Eid, Eid>, corrections: map<Eid, EntityType>, row: EntityRow)
  {
    && row.id in g.names && row.id in g.types
    && row.name == g.names[row.id]
    && row.kind == (if row.id in corrections then corrections[row.id] else g.types[row.id])
    && row.mentionCount == |MergedMentions(g, alias, row.id)|
  }

  // Some id that resolves to e mentions c.
  ghost predicate Mentioned(g: Graph, alias: map<Eid, Eid>, e: Eid, c: Chunk)
  {
    exists x :: x in g.names && Resolve(alias, x) == e && c in g.Mentions(x)
  }

  lemma AreTablesOf(g: Graph, alias: map<Eid, Eid>, h: Graph, corrections: map<Eid, EntityType>, k: Graph,
                    edges: seq<Weighted>, t: Tables, meta: set<Chunk>)
    requires g.Sound(meta) && Represents(g, alias) && MergedInto(g, alias, h)
    requires (k.names, k.chunks, k.rels) == (h.names, h.chunks, h.rels) && k.types.Keys == h.types.Keys
    requires forall e <- k.types :: k.types[e] == if e in corrections then corrections[e] else h.types[e]
    requires CollapsedFrom(k.rels, edges) && BuiltFrom(k, edges, t)
    ensures TablesOf(g, alias, corrections, t)
  {
    hide CollapsedFrom, Graph.Sound, Represents, MergedInto, BuiltFrom, Remapped, EntitiesOf, MentionsOf;
    SoundChunks(g, meta);
    MergedParts(g, alias, h);
    ListedAre(k, edges, t);
    AreEntitiesOf(g, alias, h, corrections, k, edges, t);
    AreMentionsOf(g, alias, h, k, edges, t);
  }

  lemma AreEntitiesOf(g: Graph, alias: map<Eid, Eid>, h: Graph, corrections: map<Eid, EntityType>, k: Graph,
                      edges: seq<Weighted>, t: Tables)
    requires MergedInto(g, alias, h) && (k.names, k.chunks) == (h.names, h.chunks) && k.types.Keys == h.types.Keys
    requires forall e <- k.types :: k.types[e] == if e in corrections then corrections[e] else h.types[e]
    requires BuiltFrom(k, edges, t)
    ensures EntitiesOf(g, alias, corrections, t)
  {
    hide MergedInto, BuiltFrom, HasEntity, RowOf, Graph.Mentions;
    MergedParts(g, alias, h);
    EntitiesAre(k, edges, t);
    forall row <- t.entities ensures RowOf(g, alias, corrections, row) {
      RowIs(g, alias, h, corrections, k, row);
    }
  }

  lemma AreMentionsOf(g: Graph, alias: map<Eid, Eid>, h: Graph, k: Graph, edges: seq<Weighted>, t: Tables)
    requires Represents(g, alias) && MergedInto(g, alias, h) && g.chunks.Keys <= g.names.Keys
    requires (k.names, k.chunks) == (h.names, h.chunks) && BuiltFrom(k, edges, t)
    ensures MentionsOf(g, alias, t)
  {
    hide Represents, MergedInto, BuiltFrom, Distinct, Mentioned, Occurs;
    ListedAre(k, edges, t);
    forall e, c ensures (e, c) in t.mentions <==> Mentioned(g, alias, e, c) {
      MentionIs(g, alias, h, e, c);
    }
    forall c ensures c in t.chunkIds <==> Occurs(g, c) {
      ChunkOfSome(g, alias, h, c);
      assert Occurs(k, c) <==> Occurs(h, c) by { SameOccurs(h, k, c); }
    }
  }

  lemma SameOccurs(h: Graph, k: Graph, c: Chunk)
    requires (k.names, k.chunks) == (h.names, h.chunks)
    ensures Occurs(k, c) <==> Occurs(h, c)
  {
    if e :| e in h.names && c in h.Mentions(e) {
      assert c in k.Mentions(e);
    }
    if e :| e in k.names && c in k.Mentions(e) {
      assert c in h.Mentions(e);
    }
  }

  lemma ListedAre(k: Graph, edges: seq<Weighted>, t: Tables)
    requires BuiltFrom(k, edges, t)
    ensures forall e, c :: (e, c) in t.mentions <==> e in k.chunks && c in k.chunks[e]
    ensures forall c :: c in t.chunkIds <==> Occurs(k, c)
    ensures Distinct(t.mentions) && Distinct(t.chunkIds) && t.relationships == edges
  {
    hide Distinct;
  }

  lemma SoundChunks(g: Graph, meta: set<Chunk>)
    requires g.Sound(meta)
    ensures g.chunks.Keys <= g.names.Keys
  {
  }

  lemma MergedParts(g: Graph, alias: map<Eid, Eid>, h: Graph)
    requires MergedInto(g, alias, h)
    ensures h.names == g.names - alias.Keys && h.types == g.types - alias.Keys && h.chunks.Keys <= h.names.Keys
    ensures h.rels == if alias == map[] then g.rels else Remapped(alias, g.rels)
    ensures h.names.Keys == g.names.Keys - alias.Keys
  {
  }

  lemma EntitiesAre(k: Graph, edges: seq<Weighted>, t: Tables)
    requires BuiltFrom(k, edges, t)
    ensures |t.entities| == |k.names.Keys| && forall e :: HasEntity(t, e) <==> e in k.names
    ensures forall row <- t.entities :: row.id in k.names && row.id in k.types
    ensures forall row <- t.entities ::
              row == EntityRow(row.id, k.names[row.id], k.types[row.id], |k.Mentions(row.id)|)
  {
  }

  lemma RowIs(g: Graph, alias: map<Eid, Eid>, h: Graph, corrections: map<Eid, EntityType>, k: Graph, row: EntityRow)
    requires MergedInto(g, alias, h) && (k.names, k.chunks) == (h.names, h.chunks) && k.types.Keys == h.types.Keys
    requires forall e <- k.types :: k.types[e] == if e in corrections then corrections[e] else h.types[e]
    requires row.id in k.names && row.id in k.types
    requires row == EntityRow(row.id, k.names[row.id], k.types[row.id], |k.Mentions(row.id)|)
    ensures RowOf(g, alias, corrections, row)
  {
    hide MergedMentions, Remapped;
    assert k.Mentions(row.id) == h.Mentions(row.id) == MergedMentions(g, alias, row.id);
  }

  lemma MentionIs(g: Graph, alias: map<Eid, Eid>, h: Graph, e: Eid, c: Chunk)
    requires Represents(g, alias) && MergedInto(g, alias, h) && g.chunks.Keys <= g.names.Keys
    ensures e in h.chunks && c in h.chunks[e] <==> Mentioned(g, alias, e, c)
  {
    hide Resolve, Remapped, MergedInto;
    MergedParts(g, alias, h);
    MentionsConserved(alias, g, h);
    if x :| x in g.names && Resolve(alias, x) == e && c in g.Mentions(x) {
      assert c in h.Mentions(e);
    }
  }

  lemma ChunkOfSome(g: Graph, alias: map<Eid, Eid>, h: Graph, c: Chunk)
    requires Represents(g, alias) && MergedInto(g, alias, h) && g.chunks.Keys <= g.names.Keys
    ensures Occurs(h, c) <==> Occurs(g, c)
  {
    hide Resolve, Remapped, MergedInto;
    MentionsConserved(alias, g, h);
    if e :| e in g.names && c in g.Mentions(e) {
      assert c in h.Mentions(Resolve(alias, e));
    }
  }

  lemma SnapshotLooks(s: Snapshot, g: Graph, meta: set<Chunk>)
    requires s.Valid() && g.Sound(meta) && (s.names, s.types, s.chunks) == (g.names, g.types, g.chunks)
    ensures Looked(s, g)
  {
  }

  // Some list of the elements, each once.
  method Listing<T(==)>(elements: set<T>) returns (list: seq<T>)
    ensures Distinct(list) && |list| == |elements| && forall x :: x in list <==> x in elements
  {
    list := [];
    var todo := elements;
    while todo != {}
      invariant todo <= elements && Distinct(list) && |list| + |todo| == |elements|
      invariant forall x :: x in list <==> x in elements - todo
      decreases todo
    {
      var x :| x in todo;
      assert x !in list;
      list := list + [x];
      todo := todo - {x};
    }
  }

  method EntityRows(names: map<Eid, string>, types: map<Eid, EntityType>, chunks: map<Eid, set<Chunk>>)
    returns (rows: seq<EntityRow>)
    requires types.Keys == names.Keys
    ensures |rows| == |names|
    ensures forall row <- rows ::
              && row.id in names
              && row == EntityRow(row.id, names[row.id], types[row.id],
                                  if row.id in chunks then |chunks[row.id]| else 0)
    ensures forall e <- names :: exists row :: row in rows && row.id == e
  {
    var ids := Listing(names.Keys);
    rows := [];
    for i := 0 to |ids|
      invariant |rows| == i
      invariant forall k :: 0 <= k < i ==>
                  rows[k] == EntityRow(ids[k], names[ids[k]], types[ids[k]],
                                       if ids[k] in chunks then |chunks[ids[k]]| else 0)
    {
      var e := ids[i];
      rows := rows + [EntityRow(e, names[e], types[e], if e in chunks then |chunks[e]| else 0)];
    }
    forall e <- names ensures exists row :: row in rows && row.id == e {
      var k :| 0 <= k < |ids| && ids[k] == e;
      assert rows[k] in rows;
    }
  }

  // c is a mention of r itself or of a loser in `done` that resolves to r.
  ghost predicate Comes(g: Graph, alias: map<Eid, Eid>, done: set<Eid>, r: Eid, c: Chunk)
  {
    c in g.Mentions(r) || exists e :: e in done && Resolve(alias, e) == r && c in g.Mentions(e)
  }

  // g with the losers in `done` folded into their representatives.
  ghost predicate Absorbed(g: Graph, alias: map<Eid, Eid>, done: set<Eid>, h: Graph)
  {
    && h.names == g.names - done
    && h.types == g.types - done
    && h.chunks.Keys <= h.names.Keys
    && forall r <- h.names, c :: c in h.Mentions(r) <==> Comes(g, alias, done, r, c)
  }

  // One iteration: the loser is popped and its chunks join its representative's.
  lemma AbsorbOne(g: Graph, alias: map<Eid, Eid>, done: set<Eid>, h: Graph, k: Graph, lose: Eid)
    requires Represents(g, alias) && Absorbed(g, alias, done, h) && done <= alias.Keys
    requires lose in alias && lose !in done
    requires k.names == h.names - {lose} && k.types == h.types - {lose}
    requires k.chunks.Keys == h.chunks.Keys - {lose} + {Resolve(alias, lose)}
    requires forall r: Eid :: r != lose ==>
               k.Mentions(r) == if r == Resolve(alias, lose) then h.Mentions(r) + h.Mentions(lose) else h.Mentions(r)
    ensures Absorbed(g, alias, done + {lose}, k)
  {
    assert lose in h.names && Resolve(alias, lose) in h.names && Resolve(alias, lose) != lose;
    forall r <- k.names, c ensures c in k.Mentions(r) <==> Comes(g, alias, done + {lose}, r, c) {
    }
  }

  // All losers absorbed, and the rows remapped: the merged graph.
  lemma AbsorbedAll(g: Graph, alias: map<Eid, Eid>, absorbed: Graph, h: Graph)
    requires Represents(g, alias) && Absorbed(g, alias, alias.Keys, absorbed) && g.chunks.Keys <= g.names.Keys
    requires (h.names, h.types, h.chunks) == (absorbed.names, absorbed.types, absorbed.chunks)
    requires h.rels == if alias == map[] then g.rels else Remapped(alias, g.rels)
    ensures MergedInto(g, alias, h)
  {
    forall r <- h.names ensures h.Mentions(r) == MergedMentions(g, alias, r) {
      forall c ensures c in h.Mentions(r) <==> c in MergedMentions(g, alias, r) {
        assert c in h.Mentions(r) <==> Comes(g, alias, alias.Keys, r, c);
        InMerged(g, alias, r, c);
      }
    }
  }

  lemma InMerged(g: Graph, alias: map<Eid, Eid>, r: Eid, c: Chunk)
    requires Represents(g, alias) && g.chunks.Keys <= g.names.Keys && r in g.names && r !in alias
    ensures c in MergedMentions(g, alias, r) <==> Comes(g, alias, alias.Keys, r, c)
  {
    if c in MergedMentions(g, alias, r) {
      var e :| e in g.chunks && Resolve(alias, e) == r && c in g.chunks[e];
      assert e == r || e in alias;
    }
  }

  // A defaultdict read changes no mention.
  lemma LooksTheSame(a: Graph, b: Graph, c: Graph, s: Eid, t: Eid, desc: string, cks: set<Chunk>, added: seq<Rel>)
    requires a.rels == b.rels && a.chunks.Keys <= b.chunks.Keys <= a.chunks.Keys + {s}
    requires forall e: Eid :: b.Mentions(e) == a.Mentions(e)
    requires F.EdgeRows(b, s, t, desc, cks, added) && F.MentionsGrow(b, c, s, t, F.NewChunks(added))
    ensures F.EdgeRows(a, s, t, desc, cks, added) && F.MentionsGrow(a, c, s, t, F.NewChunks(added))
  {
  }

  lemma EdgeIsDone(cx: F.Context, st: Graph, item: F.Item, grown: Graph, st': Graph, cks: set<Chunk>, added: seq<Rel>)
    requires st.Sound(cx.meta) && item.EdgeItem? && cx.Kept(item)
    requires var (s, t) := cx.Ends(item.edge);
             && F.EdgeChunks(cx, st, item, cks)
             && F.EdgeRows(st, s, t, cx.text.describe(item.edge.description), cks, added)
             && F.MentionsGrow(st, grown, s, t, F.NewChunks(added))
             && st'.rels == st.rels + added && st'.chunks == grown.chunks
             && st'.types == F.SetDefault(F.SetDefault(st.types, s, Other), t, Other)
             && st'.names == F.SetDefault(F.SetDefault(st.names, s, cx.text.clean(item.edge.src)),
                                          t, cx.text.clean(item.edge.tgt))
    ensures F.Step(cx, st, item, st') && st'.Sound(cx.meta)
  {
    var (s, t) := cx.Ends(item.edge);
    assert F.MentionsGrow(st, st', s, t, F.NewChunks(added));
    assert F.EdgeStep(cx, st, item, st', cks, added);
    F.StepSound(cx, st, item, st');
  }

  // ---- a node whose entity_id is not its key ----

  // One work dir: the node keyed b has another entity_id x, the node keyed a its own, and an edge leads
  // from b to a.
  function Renamed(a: string, b: string, x: string): Shard
  {
    Shard(true, map[], [F.Node(x, "", []), F.Node(a, "", [])], [F.Edge(b, a, "", [])])
  }

  lemma RenamedItems(a: string, b: string, x: string)
    ensures Items([Renamed(a, b, x)]) ==
      [F.NodeItem(map[], F.Node(x, "", [])), F.NodeItem(map[], F.Node(a, "", [])),
       F.EdgeItem(map[], F.Edge(b, a, "", []))]
  {
    assert [Renamed(a, b, x)][..0] == [];
    assert Items([]) == [];
  }

  // In every run the entity b ends up under a name that is not its own, when a's id sorts first.
  lemma RenamedNodeLosesItsName(cx: F.Context, a: string, b: string, x: string, st: Graph)
    requires cx.GoodName(a) && cx.GoodName(b) && cx.GoodName(x)
    requires cx.Id(a).number < cx.Id(b).number && cx.Id(x) != cx.Id(b)
    requires F.Run(cx, EMPTY, Items([Renamed(a, b, x)]), st)
    ensures cx.Id(b) in st.names && cx.text.slug(st.names[cx.Id(b)]) != cx.Id(b)
  {
    hide F.Run, Items;
    var items := Items([Renamed(a, b, x)]);
    RenamedItems(a, b, x);
    F.FoldNames(cx, items, st, cx.Id(b));
    assert F.Touches(cx, items[2], cx.Id(b));
    assert F.FirstTouch(cx, items, cx.Id(b), 2) && F.Flipped(cx, items[2]);
  }
}
