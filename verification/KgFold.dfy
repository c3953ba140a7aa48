// _fold_graphml: shard graphs folded into the shared dictionaries, step by step.

module KgFold {
  import opened KgModel

  // A graph node: entity_id (or the node key), entity_type, and the stripped source_id tokens.
  datatype Node = Node(name: string, kind: string, tokens: seq<string>)

  datatype Edge = Edge(src: string, tgt: string, description: string, tokens: seq<string>)

  // Something to fold, with its shard's chunk-id dictionary.
  datatype Item =
    | NodeItem(md5: map<string, Chunk>, node: Node)
    | EdgeItem(md5: map<string, Chunk>, edge: Edge)

  // What stays fixed during a fold: the string functions and the keys of the chunk metadata.
  datatype Context = Context(text: Text, meta: set<Chunk>) {
    // keys_of
    function KeysOf(md5: map<string, Chunk>, tokens: seq<string>): (keys: set<Chunk>)
      ensures keys <= meta
    {
      set tok | tok in tokens && tok != "" && (if tok in md5 then md5[tok] else tok) in meta ::
        if tok in md5 then md5[tok] else tok
    }

    predicate GoodName(raw: string)
    {
      text.clean(raw) != "" && !text.isJunk(text.clean(raw))
    }

    function Id(raw: string): Eid { text.slug(text.clean(raw)) }

    predicate Kept(item: Item)
    {
      match item
      case NodeItem(_, n) => GoodName(n.name)
      case EdgeItem(_, e) => GoodName(e.src) && GoodName(e.tgt)
    }

    function Ends(e: Edge): (Eid, Eid) { Sorted(Id(e.src), Id(e.tgt)) }

    function ItemKeys(item: Item): set<Chunk>
    {
      match item
      case NodeItem(md5, n) => KeysOf(md5, n.tokens)
      case EdgeItem(md5, e) => KeysOf(md5, e.tokens)
    }

    // An edge none of whose tokens is a known chunk: the fold borrows one from its source.
    predicate Borrows(item: Item)
    {
      item.EdgeItem? && Kept(item) && ItemKeys(item) == {}
    }
  }

  // ---- one step ----

  function TypeOf(st: Graph, e: Eid): EntityType
  {
    if e in st.types then st.types[e] else Other
  }

  function FoldNode(cx: Context, st: Graph, item: Item): Graph
    requires item.NodeItem? && cx.Kept(item)
  {
    var e := cx.Id(item.node.name);
    var name := cx.text.clean(item.node.name);
    st.(
      names := st.names[e := name],
      types := if TypeOf(st, e) == Other then st.types[e := cx.text.nodeType(name, item.node.kind)] else st.types,
      chunks := st.chunks[e := st.Mentions(e) + cx.ItemKeys(item)])
  }

  function SetDefault<V>(m: map<Eid, V>, e: Eid, v: V): map<Eid, V>
  {
    if e in m then m else m[e := v]
  }

  // The chunks an edge is recorded under: its own, or any one of its source's, or none.
  ghost predicate EdgeChunks(cx: Context, st: Graph, item: Item, cks: set<Chunk>)
    requires item.EdgeItem?
  {
    var keys := cx.ItemKeys(item);
    var known := st.Mentions(cx.Ends(item.edge).0);
    if keys != {} then cks == keys
    else if known != {} then exists ck :: ck in known && cks == {ck}
    else cks == {}
  }

  function Row(s: Eid, t: Eid, description: string, ck: Chunk): Rel
  {
    Rel(s, t, description, ck, DocOf(ck))
  }

  // The rows an edge adds, in any order: one for each of cks not recorded for the pair before.
  ghost predicate EdgeRows(st: Graph, s: Eid, t: Eid, description: string, cks: set<Chunk>, added: seq<Rel>)
  {
    && (forall r <- added :: r == Row(s, t, description, r.chunk) && r.chunk in cks && Key(r) !in Keys(st.rels))
    && (forall ck <- cks :: Row(s, t, description, ck) in added || (s, t, ck) in Keys(st.rels))
    && UniqueKeys(added)
  }

  function NewChunks(added: seq<Rel>): set<Chunk>
  {
    set r <- added :: r.chunk
  }

  // chunks' differs from chunks by the new mentions; a read of a missing key may create it empty.
  ghost predicate MentionsGrow(st: Graph, st': Graph, s: Eid, t: Eid, added: set<Chunk>)
  {
    && st.chunks.Keys <= st'.chunks.Keys <= st.chunks.Keys + {s, t}
    && (forall e: Eid :: st'.Mentions(e) == if e == s || e == t then st.Mentions(e) + added else st.Mentions(e))
  }

  // setdefault names the first id of the sorted pair after the edge's source and the second
  // after its target, also when sorting swapped them.
  ghost predicate EdgeStep(cx: Context, st: Graph, item: Item, st': Graph, cks: set<Chunk>, added: seq<Rel>)
    requires item.EdgeItem?
  {
    var edge := item.edge;
    var (s, t) := cx.Ends(edge);
    && EdgeChunks(cx, st, item, cks)
    && EdgeRows(st, s, t, cx.text.describe(edge.description), cks, added)
    && st'.rels == st.rels + added
    && MentionsGrow(st, st', s, t, NewChunks(added))
    && st'.types == SetDefault(SetDefault(st.types, s, Other), t, Other)
    && st'.names == SetDefault(SetDefault(st.names, s, cx.text.clean(edge.src)), t, cx.text.clean(edge.tgt))
  }

  ghost predicate Step(cx: Context, st: Graph, item: Item, st': Graph)
  {
    if !cx.Kept(item) then st' == st
    else if item.NodeItem? then st' == FoldNode(cx, st, item)
    else exists cks, added :: EdgeStep(cx, st, item, st', cks, added)
  }

  function Front(items: seq<Item>): seq<Item>
    requires items != []
  {
    items[..|items| - 1]
  }

  function Last(items: seq<Item>): Item
    requires items != []
  {
    items[|items| - 1]
  }

  // st' is a possible outcome of folding the items in order.
  ghost predicate Run(cx: Context, st: Graph, items: seq<Item>, st': Graph)
    decreases |items|
  {
    if items == [] then st == st'
    else exists mid :: Run(cx, st, Front(items), mid) && Step(cx, mid, Last(items), st')
  }

  lemma {:induction false} RunConcat(cx: Context, a: Graph, xs: seq<Item>, b: Graph, ys: seq<Item>, c: Graph)
    requires Run(cx, a, xs, b) && Run(cx, b, ys, c)
    ensures Run(cx, a, xs + ys, c)
    decreases |ys|
  {
    if ys == [] {
      assert xs + ys == xs;
    } else {
      var mid :| Run(cx, b, Front(ys), mid) && Step(cx, mid, Last(ys), c);
      RunConcat(cx, a, xs, b, Front(ys), mid);
      assert Front(xs + ys) == xs + Front(ys) && Last(xs + ys) == Last(ys);
    }
  }

  // ---- every step keeps the graph sound ----

  lemma EdgeStepSound(cx: Context, st: Graph, item: Item, st': Graph, cks: set<Chunk>, added: seq<Rel>)
    requires st.Sound(cx.meta) && item.EdgeItem? && EdgeStep(cx, st, item, st', cks, added)
    ensures st'.Sound(cx.meta)
  {
    var (s, t) := cx.Ends(item.edge);
    assert cks <= cx.meta;
    forall r <- st'.rels ensures st'.RowFits(r) {
      if r in added {
        assert r.chunk in NewChunks(added);
      } else {
        assert r in st.rels && st.RowFits(r);
      }
    }
    MentionsStayKnown(cx, st, st', s, t, NewChunks(added));
  }

  lemma MentionsStayKnown(cx: Context, st: Graph, st': Graph, s: Eid, t: Eid, more: set<Chunk>)
    requires MentionsGrow(st, st', s, t, more) && more <= cx.meta
    requires forall e <- st.chunks :: st.chunks[e] <= cx.meta
    ensures forall e <- st'.chunks :: st'.chunks[e] <= cx.meta
  {
    forall e <- st'.chunks ensures st'.chunks[e] <= cx.meta {
      assert st'.chunks[e] == st'.Mentions(e);
    }
  }

  lemma StepSound(cx: Context, st: Graph, item: Item, st': Graph)
    requires st.Sound(cx.meta) && Step(cx, st, item, st')
    ensures st'.Sound(cx.meta)
  {
    if cx.Kept(item) {
      if item.EdgeItem? {
        var cks, added :| EdgeStep(cx, st, item, st', cks, added);
        EdgeStepSound(cx, st, item, st', cks, added);
      } else {
        forall r <- st'.rels ensures st'.RowFits(r) {
          assert st.RowFits(r);
        }
      }
    }
  }

  // Any fold, borrowed chunks included, leaves the relation table's keys unique and its foreign
  // keys resolved.
  lemma {:induction false} FoldSound(cx: Context, st: Graph, items: seq<Item>, st': Graph)
    requires st.Sound(cx.meta) && Run(cx, st, items, st')
    ensures st'.Sound(cx.meta)
    decreases |items|
  {
    if items != [] {
      var mid :| Run(cx, st, Front(items), mid) && Step(cx, mid, Last(items), st');
      FoldSound(cx, st, Front(items), mid);
      StepSound(cx, mid, Last(items), st');
    }
  }

  // ---- which entities end up with the wrong name ----

  predicate Touches(cx: Context, item: Item, e: Eid)
  {
    cx.Kept(item) && match item
                     case NodeItem(_, n) => cx.Id(n.name) == e
                     case EdgeItem(_, g) => cx.Id(g.src) == e || cx.Id(g.tgt) == e
  }

  // Sorting the two ids put the target's first.
  predicate Flipped(cx: Context, item: Item)
  {
    item.EdgeItem? && cx.Id(item.edge.tgt).number < cx.Id(item.edge.src).number
  }

  ghost predicate FirstTouch(cx: Context, items: seq<Item>, e: Eid, i: nat)
  {
    i < |items| && Touches(cx, items[i], e) && forall k :: 0 <= k < i ==> !Touches(cx, items[k], e)
  }

  // No node carries e, and the first edge that mentions it lists its two ends in descending order.
  ghost predicate NamedBySwappedEdge(cx: Context, items: seq<Item>, e: Eid)
  {
    && (forall item <- items :: item.NodeItem? ==> !Touches(cx, item, e))
    && (exists i: nat :: FirstTouch(cx, items, e, i) && Flipped(cx, items[i]))
  }

  ghost predicate Touched(cx: Context, items: seq<Item>, e: Eid)
  {
    exists i :: 0 <= i < |items| && Touches(cx, items[i], e)
  }

  // A node names e, an edge leaves a name alone, and the first edge to touch e decides.
  lemma SwappedByFront(cx: Context, items: seq<Item>, e: Eid)
    requires items != []
    ensures NamedBySwappedEdge(cx, items, e) <==>
            if Touches(cx, Last(items), e) && Last(items).NodeItem? then false
            else if Touched(cx, Front(items), e) || !Touches(cx, Last(items), e) then
              NamedBySwappedEdge(cx, Front(items), e)
            else Flipped(cx, Last(items))
  {
    var n, front := |items| - 1, Front(items);
    assert items == front + [Last(items)];
    forall i: nat | i < n ensures FirstTouch(cx, front, e, i) <==> FirstTouch(cx, items, e, i) {
      assert forall k :: 0 <= k <= i ==> items[k] == front[k];
    }
    if Touched(cx, front, e) {
      var i :| 0 <= i < n && Touches(cx, front[i], e);
      assert Touches(cx, items[i], e);
    } else {
      assert forall k :: 0 <= k < n ==> items[k] == front[k];
      assert FirstTouch(cx, items, e, n) <==> Touches(cx, Last(items), e);
    }
  }

  // The name of e across one step.
  lemma StepNames(cx: Context, st: Graph, item: Item, st': Graph, e: Eid)
    requires Step(cx, st, item, st')
    ensures e in st'.names <==> e in st.names || Touches(cx, item, e)
    ensures e in st.names && !(item.NodeItem? && Touches(cx, item, e)) ==> st'.names[e] == st.names[e]
    ensures Touches(cx, item, e) && item.NodeItem? ==> cx.text.slug(st'.names[e]) == e
    ensures Touches(cx, item, e) && item.EdgeItem? && e !in st.names ==>
              (cx.text.slug(st'.names[e]) == e <==> !Flipped(cx, item))
  {
    hide Graph.Mentions, EdgeChunks, EdgeRows, MentionsGrow, Context.ItemKeys;
    if cx.Kept(item) && item.EdgeItem? {
      var cks, added :| EdgeStep(cx, st, item, st', cks, added);
    }
  }

  // After a fold from nothing, the entities are those some item touches, and the name of e has
  // e's own slug unless its name came from an edge whose ends were swapped by sorting.
  lemma {:induction false} FoldNames(cx: Context, items: seq<Item>, st: Graph, e: Eid)
    requires Run(cx, EMPTY, items, st)
    ensures e in st.names <==> Touched(cx, items, e)
    ensures e in st.names ==> (cx.text.slug(st.names[e]) == e <==> !NamedBySwappedEdge(cx, items, e))
    decreases |items|
  {
    if items != [] {
      var mid :| Run(cx, EMPTY, Front(items), mid) && Step(cx, mid, Last(items), st);
      FoldNames(cx, Front(items), mid, e);
      SwappedByFront(cx, items, e);
      StepNames(cx, mid, Last(items), st, e);
    }
  }

  // Each end of an edge that is kept is the id of a node that is kept: so it is when every node's
  // entity_id is its key, because an edge joins nodes of its own graph.
  predicate EndsAreNodes(cx: Context, items: seq<Item>)
  {
    forall x <- items :: x.EdgeItem? && cx.Kept(x) ==>
      && (exists n <- items :: n.NodeItem? && Touches(cx, n, cx.Id(x.edge.src)))
      && (exists n <- items :: n.NodeItem? && Touches(cx, n, cx.Id(x.edge.tgt)))
  }

  // Then every entity bears its own name.
  lemma NamesAreOwn(cx: Context, items: seq<Item>, st: Graph)
    requires Run(cx, EMPTY, items, st) && EndsAreNodes(cx, items)
    ensures forall e <- st.names :: cx.text.slug(st.names[e]) == e
  {
    hide Run;
    forall e <- st.names ensures cx.text.slug(st.names[e]) == e {
      FoldNames(cx, items, st, e);
      forall i: nat | FirstTouch(cx, items, e, i) && Flipped(cx, items[i])
        ensures exists n <- items :: n.NodeItem? && Touches(cx, n, e)
      {
        assert items[i] in items;
      }
    }
  }
}
