// _collapse_edges and _build_tables: one weighted edge per pair, and four tables whose foreign
// keys resolve.

module KgTables {
  import opened KgModel

  type Pair = (Eid, Eid)

  function PairOf(r: Rel): Pair { (r.source, r.target) }

  datatype Weighted = Weighted(pair: Pair, description: string, weight: nat, chunk: Chunk, doc: string)

  function PairChunks(rels: seq<Rel>, p: Pair): set<Chunk>
  {
    set r | r in rels && PairOf(r) == p :: r.chunk
  }

  // Rows i of pair p whose description is strictly longer than those before it and no shorter
  // than those after it: the row pair_best keeps.
  ghost predicate FirstLongest(rels: seq<Rel>, p: Pair, i: nat)
  {
    && i < |rels| && PairOf(rels[i]) == p
    && (forall k :: 0 <= k < i && PairOf(rels[k]) == p ==> |rels[k].description| < |rels[i].description|)
    && (forall k :: i < k < |rels| && PairOf(rels[k]) == p ==> |rels[k].description| <= |rels[i].description|)
  }

  // What an edge of the collapsed table says about the chunk rows.
  ghost predicate Summarises(rels: seq<Rel>, w: Weighted)
  {
    && w.weight == |PairChunks(rels, w.pair)|
    && exists i: nat :: FirstLongest(rels, w.pair, i)
         && (w.description, w.chunk, w.doc) == (rels[i].description, rels[i].chunk, rels[i].doc)
  }

  ghost predicate DistinctPairs(edges: seq<Weighted>)
  {
    forall i, j :: 0 <= i < j < |edges| ==> edges[i].pair != edges[j].pair
  }

  ghost predicate CollapsedFrom(rels: seq<Rel>, edges: seq<Weighted>)
  {
    && DistinctPairs(edges)
    && (forall w <- edges :: Summarises(rels, w))
    && (forall r <- rels :: exists w :: w in edges && w.pair == PairOf(r))
  }

  function TotalWeight(edges: seq<Weighted>): nat
  {
    if edges == [] then 0 else edges[0].weight + TotalWeight(edges[1..])
  }

  // ---- the weights count every row once ----

  function RowsOutside(rels: seq<Rel>, p: Pair): (out: seq<Rel>)
    ensures forall r :: r in out <==> r in rels && PairOf(r) != p
    ensures |out| <= |rels|
  {
    if rels == [] then []
    else (if PairOf(rels[0]) == p then [] else [rels[0]]) + RowsOutside(rels[1..], p)
  }

  lemma PairChunksCons(r: Rel, rest: seq<Rel>, p: Pair)
    requires Key(r) !in Keys(rest)
    ensures PairOf(r) == p ==> |PairChunks([r] + rest, p)| == |PairChunks(rest, p)| + 1
    ensures PairOf(r) != p ==> PairChunks([r] + rest, p) == PairChunks(rest, p)
  {
    var rels := [r] + rest;
    if PairOf(r) == p {
      assert PairChunks(rels, p) == PairChunks(rest, p) + {r.chunk};
      forall x <- rest | PairOf(x) == p ensures x.chunk != r.chunk {
        assert Key(x) in Keys(rest);
      }
    } else {
      assert PairChunks(rels, p) == PairChunks(rest, p);
    }
  }

  // Taking out one pair removes as many rows as the pair has chunks.
  lemma {:induction false} PairRowCount(rels: seq<Rel>, p: Pair)
    requires UniqueKeys(rels)
    ensures |RowsOutside(rels, p)| + |PairChunks(rels, p)| == |rels|
    ensures UniqueKeys(RowsOutside(rels, p))
    decreases |rels|
  {
    if rels != [] {
      var r, rest := rels[0], rels[1..];
      assert rels == [r] + rest;
      PairRowCount(rest, p);
      PairChunksCons(r, rest, p);
      hide UniqueKeys, PairChunks;
    }
  }

  lemma OtherPairsStay(rels: seq<Rel>, p: Pair, q: Pair)
    requires p != q
    ensures PairChunks(RowsOutside(rels, p), q) == PairChunks(rels, q)
  {
  }

  // Edge weights sum to the number of relation rows.
  lemma {:induction false} WeightsCountRows(rels: seq<Rel>, edges: seq<Weighted>)
    requires UniqueKeys(rels) && DistinctPairs(edges)
    requires forall w <- edges :: w.weight == |PairChunks(rels, w.pair)|
    requires forall r <- rels :: exists w :: w in edges && w.pair == PairOf(r)
    ensures TotalWeight(edges) == |rels|
    decreases |edges|
  {
    hide RowsOutside, PairChunks, UniqueKeys;
    NoEdgesNoRows(rels, edges);
    if edges != [] {
      var p, rest := edges[0].pair, RowsOutside(rels, edges[0].pair);
      PairRowCount(rels, p);
      forall w <- edges[1..] ensures w.weight == |PairChunks(rest, w.pair)| {
        OtherPairsStay(rels, p, w.pair);
      }
      WeightsCountRows(rest, edges[1..]);
    }
  }

  lemma NoEdgesNoRows(rels: seq<Rel>, edges: seq<Weighted>)
    requires forall r <- rels :: exists w :: w in edges && w.pair == PairOf(r)
    ensures edges == [] ==> rels == []
  {
    if rels != [] {
      assert rels[0] in rels;
      var w :| w in edges && w.pair == PairOf(rels[0]);
    }
  }

  // The weights of a collapsed table.
  lemma CollapsedWeights(rels: seq<Rel>, edges: seq<Weighted>)
    requires UniqueKeys(rels) && CollapsedFrom(rels, edges)
    ensures TotalWeight(edges) == |rels|
  {
    hide UniqueKeys, PairChunks, TotalWeight, FirstLongest;
    WeightsCountRows(rels, edges);
  }

  // ---- the collapse loop ----

  // The dictionaries after some rows; at says which row pair_best holds.
  ghost predicate Gathered(rows: seq<Rel>, pairChunks: map<Pair, set<Chunk>>, pairBest: map<Pair, Rel>,
                           at: map<Pair, nat>)
  {
    && pairChunks.Keys == pairBest.Keys == at.Keys
    && (forall r <- rows :: PairOf(r) in pairChunks)
    && (forall p <- pairChunks :: pairChunks[p] == PairChunks(rows, p))
    && (forall p <- at :: at[p] < |rows| && FirstLongest(rows, p, at[p]) && pairBest[p] == rows[at[p]])
  }

  function Longer(best: map<Pair, Rel>, r: Rel): bool
  {
    PairOf(r) !in best || |r.description| > |best[PairOf(r)].description|
  }

  lemma GatherChunks(rows: seq<Rel>, pairChunks: map<Pair, set<Chunk>>, pairBest: map<Pair, Rel>, at: map<Pair, nat>,
                     r: Rel, p: Pair)
    requires Gathered(rows, pairChunks, pairBest, at)
    ensures PairChunks(rows + [r], p)
            == (if p in pairChunks then pairChunks[p] else {}) + if p == PairOf(r) then {r.chunk} else {}
  {
    assert PairChunks(rows + [r], p) == PairChunks(rows, p) + if p == PairOf(r) then {r.chunk} else {};
    if p !in pairChunks {
      assert PairChunks(rows, p) == {};
    }
  }

  lemma FirstLongestGrows(rows: seq<Rel>, r: Rel, p: Pair, i: nat)
    requires FirstLongest(rows, p, i) && (PairOf(r) == p ==> |r.description| <= |rows[i].description|)
    ensures FirstLongest(rows + [r], p, i)
  {
  }

  lemma NewLongest(rows: seq<Rel>, pairChunks: map<Pair, set<Chunk>>, pairBest: map<Pair, Rel>, at: map<Pair, nat>,
                   r: Rel)
    requires Gathered(rows, pairChunks, pairBest, at) && Longer(pairBest, r)
    ensures FirstLongest(rows + [r], PairOf(r), |rows|)
  {
    forall k | 0 <= k < |rows| && PairOf(rows[k]) == PairOf(r) ensures |rows[k].description| < |r.description| {
      assert rows[k] in rows;
    }
  }

  lemma Gather(rows: seq<Rel>, pairChunks: map<Pair, set<Chunk>>, pairBest: map<Pair, Rel>, at: map<Pair, nat>, r: Rel)
    requires Gathered(rows, pairChunks, pairBest, at)
    ensures var key := PairOf(r);
            Gathered(
              rows + [r],
              pairChunks[key := (if key in pairChunks then pairChunks[key] else {}) + {r.chunk}],
              if Longer(pairBest, r) then pairBest[key := r] else pairBest,
              if Longer(pairBest, r) then at[key := |rows|] else at)
  {
    hide PairChunks, FirstLongest;
    forall p: Pair { GatherChunks(rows, pairChunks, pairBest, at, r, p); }
    forall p <- at | !(p == PairOf(r) && Longer(pairBest, r)) ensures FirstLongest(rows + [r], p, at[p]) {
      FirstLongestGrows(rows, r, p, at[p]);
    }
    if Longer(pairBest, r) {
      NewLongest(rows, pairChunks, pairBest, at, r);
    }
  }

  lemma NothingGathered()
    ensures Gathered([], map[], map[], map[]) && InOrder([], {})
  {
  }

  method CollapseEdges(rels: seq<Rel>) returns (edges: seq<Weighted>)
    ensures CollapsedFrom(rels, edges)
  {
    hide Gathered, CollapsedFrom, InOrder;
    var pairChunks: map<Pair, set<Chunk>> := map[];
    var pairBest: map<Pair, Rel> := map[];
    var order: seq<Pair> := [];          // the dictionary's insertion order
    ghost var at: map<Pair, nat> := map[];
    NothingGathered();
    assert rels[..0] == [] && pairChunks.Keys == {};
    for i := 0 to |rels|
      invariant Gathered(rels[..i], pairChunks, pairBest, at)
      invariant InOrder(order, pairChunks.Keys)
    {
      var r := rels[i];
      var key := PairOf(r);
      CollapseRow(rels[..i], order, pairChunks, pairBest, at, r);
      assert rels[..i + 1] == rels[..i] + [r];
      if key !in pairChunks {
        order := order + [key];
      }
      pairChunks := pairChunks[key := (if key in pairChunks then pairChunks[key] else {}) + {r.chunk}];
      if Longer(pairBest, r) {
        pairBest, at := pairBest[key := r], at[key := |rels[..i]|];
      }
    }
    assert rels[..|rels|] == rels;
    edges := EmitEdges(rels, order, pairChunks, pairBest, at);
  }

  // The final list comprehension.
  method EmitEdges(ghost rels: seq<Rel>, order: seq<Pair>, pairChunks: map<Pair, set<Chunk>>,
                   pairBest: map<Pair, Rel>, ghost at: map<Pair, nat>)
    returns (edges: seq<Weighted>)
    requires Gathered(rels, pairChunks, pairBest, at) && InOrder(order, pairChunks.Keys)
    ensures CollapsedFrom(rels, edges)
  {
    edges := [];
    for j := 0 to |order|
      invariant |edges| == j
      invariant forall k :: 0 <= k < j ==> edges[k].pair == order[k] && Summarises(rels, edges[k])
    {
      hide PairChunks;
      var p := order[j];
      var best := pairBest[p];
      edges := edges + [Weighted(p, best.description, |pairChunks[p]|, best.chunk, best.doc)];
      assert FirstLongest(rels, p, at[p]);
    }
    forall r <- rels ensures exists w :: w in edges && w.pair == PairOf(r) {
      var k :| 0 <= k < |order| && order[k] == PairOf(r);
      assert edges[k] in edges;
    }
  }

  ghost predicate InOrder(order: seq<Pair>, keys: set<Pair>)
  {
    && (forall p :: p in order <==> p in keys)
    && (forall j, k :: 0 <= j < k < |order| ==> order[j] != order[k])
  }

  // One iteration of the loop keeps its invariants.
  lemma CollapseRow(rows: seq<Rel>, order: seq<Pair>, pairChunks: map<Pair, set<Chunk>>, pairBest: map<Pair, Rel>,
                    at: map<Pair, nat>, r: Rel)
    requires Gathered(rows, pairChunks, pairBest, at) && InOrder(order, pairChunks.Keys)
    ensures var key := PairOf(r);
            var chunks' := pairChunks[key := (if key in pairChunks then pairChunks[key] else {}) + {r.chunk}];
            && InOrder(if key !in pairChunks then order + [key] else order, chunks'.Keys)
            && (Longer(pairBest, r) ==> Gathered(rows + [r], chunks', pairBest[key := r], at[key := |rows|]))
            && (!Longer(pairBest, r) ==> Gathered(rows + [r], chunks', pairBest, at))
  {
    hide Gathered;
    Gather(rows, pairChunks, pairBest, at, r);
  }

  // ---- the tables ----

  datatype EntityRow = EntityRow(id: Eid, name: string, kind: EntityType, mentionCount: nat)

  // Row order inside a table is not modelled.
  datatype Tables = Tables(
    entities: seq<EntityRow>,
    chunkIds: seq<Chunk>,
    mentions: seq<(Eid, Chunk)>,
    relationships: seq<Weighted>)

  ghost predicate Distinct<T>(xs: seq<T>)
  {
    forall i, j :: 0 <= i < j < |xs| ==> xs[i] != xs[j]
  }

  ghost predicate BuiltFrom(g: Graph, edges: seq<Weighted>, t: Tables)
  {
    && |t.entities| == |g.names|
    && (forall row <- t.entities ::
          && row.id in g.names && row.id in g.types
          && row == EntityRow(row.id, g.names[row.id], g.types[row.id], |g.Mentions(row.id)|))
    && (forall e <- g.names :: exists row :: row in t.entities && row.id == e)
    && (forall c :: c in t.chunkIds <==> exists e :: e in g.names && c in g.Mentions(e))
    && Distinct(t.chunkIds)
    && (forall e, c :: (e, c) in t.mentions <==> e in g.chunks && c in g.chunks[e])
    && Distinct(t.mentions)
    && t.relationships == edges
  }

  predicate HasEntity(t: Tables, e: Eid)
  {
    exists row <- t.entities :: row.id == e
  }

  // Every id stored in one table is a key of the table it points into.
  predicate ForeignKeysResolve(t: Tables, meta: set<Chunk>)
  {
    && (forall c <- t.chunkIds :: c in meta)
    && (forall m <- t.mentions :: HasEntity(t, m.0) && m.1 in t.chunkIds)
    && (forall w <- t.relationships ::
          && HasEntity(t, w.pair.0) && HasEntity(t, w.pair.1)
          && w.chunk in t.chunkIds
          && (w.pair.0, w.chunk) in t.mentions && (w.pair.1, w.chunk) in t.mentions
          && w.pair.0.number <= w.pair.1.number
          && 0 < w.weight)
  }

  lemma EdgeIsGrounded(g: Graph, meta: set<Chunk>, edges: seq<Weighted>, w: Weighted) returns (r: Rel)
    requires g.Sound(meta) && CollapsedFrom(g.rels, edges) && w in edges
    ensures r in g.rels && PairOf(r) == w.pair && r.chunk == w.chunk && g.RowFits(r) && 0 < w.weight
  {
    var i: nat :| FirstLongest(g.rels, w.pair, i)
      && (w.description, w.chunk, w.doc) == (g.rels[i].description, g.rels[i].chunk, g.rels[i].doc);
    r := g.rels[i];
    assert r.chunk in PairChunks(g.rels, w.pair);
  }

  lemma MentionStored(g: Graph, meta: set<Chunk>, edges: seq<Weighted>, t: Tables, e: Eid, c: Chunk)
    requires g.Sound(meta) && BuiltFrom(g, edges, t) && c in g.Mentions(e)
    ensures e in g.names && c in meta && c in t.chunkIds && (e, c) in t.mentions && HasEntity(t, e)
  {
    hide UniqueKeys, Distinct;
    var row :| row in t.entities && row.id == e;
  }

  lemma EdgeStored(g: Graph, meta: set<Chunk>, edges: seq<Weighted>, t: Tables, w: Weighted)
    requires g.Sound(meta) && CollapsedFrom(g.rels, edges) && BuiltFrom(g, edges, t) && w in edges
    ensures HasEntity(t, w.pair.0) && HasEntity(t, w.pair.1) && w.chunk in t.chunkIds
    ensures (w.pair.0, w.chunk) in t.mentions && (w.pair.1, w.chunk) in t.mentions
    ensures w.pair.0.number <= w.pair.1.number && 0 < w.weight
  {
    hide CollapsedFrom, BuiltFrom, HasEntity;
    var r := EdgeIsGrounded(g, meta, edges, w);
    MentionStored(g, meta, edges, t, r.source, r.chunk);
    MentionStored(g, meta, edges, t, r.target, r.chunk);
  }

  lemma ListedMentions(g: Graph, meta: set<Chunk>, edges: seq<Weighted>, t: Tables)
    requires g.Sound(meta) && BuiltFrom(g, edges, t)
    ensures forall c <- t.chunkIds :: exists e :: c in g.Mentions(e)
    ensures forall m <- t.mentions :: m.1 in g.Mentions(m.0)
    ensures t.relationships == edges
  {
    hide UniqueKeys, Distinct;
    forall m <- t.mentions ensures m.1 in g.Mentions(m.0) {
      assert (m.0, m.1) in t.mentions;
    }
  }

  lemma CollapsedPairs(rels: seq<Rel>, edges: seq<Weighted>)
    requires CollapsedFrom(rels, edges)
    ensures DistinctPairs(edges)
  {
  }

  // The four tables of a sound graph hold together.
  lemma TablesHoldTogether(g: Graph, meta: set<Chunk>, edges: seq<Weighted>, t: Tables)
    requires g.Sound(meta) && CollapsedFrom(g.rels, edges) && BuiltFrom(g, edges, t)
    ensures ForeignKeysResolve(t, meta)
    ensures TotalWeight(t.relationships) == |g.rels| && DistinctPairs(t.relationships)
  {
    hide CollapsedFrom, BuiltFrom, HasEntity, TotalWeight, DistinctPairs;
    CollapsedPairs(g.rels, edges);
    CollapsedWeights(g.rels, edges);
    ListedMentions(g, meta, edges, t);
    forall c <- t.chunkIds ensures c in meta {
      var e :| c in g.Mentions(e);
      MentionStored(g, meta, edges, t, e, c);
    }
    forall m <- t.mentions ensures HasEntity(t, m.0) && m.1 in t.chunkIds {
      MentionStored(g, meta, edges, t, m.0, m.1);
    }
    forall w <- t.relationships
      ensures && HasEntity(t, w.pair.0) && HasEntity(t, w.pair.1)
              && w.chunk in t.chunkIds
              && (w.pair.0, w.chunk) in t.mentions && (w.pair.1, w.chunk) in t.mentions
              && w.pair.0.number <= w.pair.1.number
              && 0 < w.weight
    {
      EdgeStored(g, meta, edges, t, w);
    }
  }
}
