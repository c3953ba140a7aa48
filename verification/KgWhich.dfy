// Which name, type and document each entity and row of the fold ends up with.

module KgWhich {
  import opened Common
  import opened KgModel
  import opened KgFold

  // ---- text ----

  // A chunk's document is what comes before its first colon.
  lemma {:induction false} DocIs(doc: string, rest: string)
    requires Free(doc, ':')
    ensures DocOf(doc + ([':'] + rest)) == doc && DocOf(doc) == doc
  {
    if doc != "" {
      var ck := doc + ([':'] + rest);
      assert ck[0] == doc[0] && ck[1..] == doc[1..] + ([':'] + rest);
      assert Free(doc[1..], ':');
      DocIs(doc[1..], rest);
    } else {
      assert (doc + ([':'] + rest))[0] == ':';
    }
  }

  // low without its suffix: the text before it.
  lemma StemIs(stem: string, suffix: string)
    ensures Stem(stem + suffix, suffix) == stem
    ensures forall low :: !EndsWith(low, suffix) ==> Stem(low, suffix) == ""
    ensures EndsWith(stem + suffix, suffix)
  {
    var low := stem + suffix;
    assert low[|low| - |suffix|..] == suffix && low[..|low| - |suffix|] == stem;
  }

  // The k-th of the six suffixes leads from low to a known name of at least four letters.
  predicate Leads(low: string, known: set<string>, k: nat, base: string)
  {
    var suffixes := ["arna", "erna", "orna", "en", "et", "na"];
    k < 6 && low == base + suffixes[k] && |base| >= 4 && base in known
  }

  lemma LeadsIff(low: string, known: set<string>, k: nat, base: string)
    requires k < |SUFFIXES|
    ensures Leads(low, known, k, base) <==>
      Stem(low, SUFFIXES[k]) == base && MIN_BASE <= |base| && base in known
  {
    if Stem(low, SUFFIXES[k]) == base && MIN_BASE <= |base| {
      assert EndsWith(low, SUFFIXES[k]);
      assert low == base + SUFFIXES[k];
    }
    if low == base + SUFFIXES[k] {
      StemIs(base, SUFFIXES[k]);
    }
  }

  // The base form is that of the first suffix that leads to one.
  lemma {:induction false} FirstBaseIs(low: string, known: set<string>, i: nat, base: string)
    requires i <= |SUFFIXES|
    ensures FirstBase(low, known, i) == Some(base) <==>
      exists k: nat ::
        i <= k && Leads(low, known, k, base) && forall j: nat, b :: i <= j < k ==> !Leads(low, known, j, b)
    ensures FirstBase(low, known, i) == None <==> forall k: nat, b :: i <= k ==> !Leads(low, known, k, b)
    decreases |SUFFIXES| - i
  {
    hide Leads, Stem;
    if i < |SUFFIXES| {
      FirstBaseIs(low, known, i + 1, base);
      var stem := Stem(low, SUFFIXES[i]);
      forall b ensures Leads(low, known, i, b) <==> stem == b && MIN_BASE <= |b| && b in known {
        LeadsIff(low, known, i, b);
      }
    } else {
      NoMore(low, known);
    }
  }

  lemma NoMore(low: string, known: set<string>)
    ensures forall k: nat, b :: |SUFFIXES| <= k ==> !Leads(low, known, k, b)
  {
  }

  // ---- what an alias says ----

  // low is base with one of the six suffixes, and base has four letters or more.
  predicate Suffixed(base: string, low: string)
  {
    |base| >= 4 && low in [base + "arna", base + "erna", base + "orna", base + "en", base + "et", base + "na"]
  }

  predicate TypedPerson(s: Snapshot, e: Eid)
  {
    e in s.types && s.types[e] == Person
  }

  function ChunkCount(s: Snapshot, e: Eid): nat
  {
    if e in s.chunks then |s.chunks[e]| else 0
  }

  lemma ParentIsBase(s: Snapshot, e: Eid)
    requires s.Valid() && e in s.names
    ensures s.Parent(e).Some? ==>
      var p := s.Parent(e).value;
      && p in s.names && !TypedPerson(s, p) && !TypedPerson(s, e)
      && Suffixed(s.text.lower(s.names[p]), s.text.lower(s.names[e]))
  {
    if s.Parent(e).Some? {
      var base := FirstBase(s.Low(e), s.byLower.Keys, 0).value;
      FirstBaseIs(s.Low(e), s.byLower.Keys, 0, base);
      var k: nat :| Leads(s.Low(e), s.byLower.Keys, k, base);
      assert Suffixed(base, s.Low(e));
    }
  }

  // In a group: its base form, or that with a suffix.
  predicate FormOf(s: Snapshot, p: Eid, e: Eid)
  {
    && p in s.names && e in s.names && !TypedPerson(s, p) && !TypedPerson(s, e)
    && (e == p || Suffixed(s.text.lower(s.names[p]), s.text.lower(s.names[e])))
  }

  // Anything but a person is aliased to a form of the same base that is mentioned at least as often.
  lemma FormAliasSays(s: Snapshot, win: map<Eid, Eid>, alias: map<Eid, Eid>, e: Eid)
    requires s.Valid() && s.AliasMap(win, alias) && e in alias && !TypedPerson(s, e)
    ensures alias[e] != e && exists p :: FormOf(s, p, e) && FormOf(s, p, alias[e])
    ensures ChunkCount(s, e) <= ChunkCount(s, alias[e])
  {
    hide Snapshot.PersonAlias, Snapshot.SuffixGroups, Snapshot.Sizes, Snapshot.Valid, FormOf, Groups.Valid;
    NotAPerson(s, e);
    var p := LosesIn(s.SuffixGroups(), s.Sizes(), win, alias, e);
    MemberIsForm(s, p, e);
    MemberIsForm(s, p, win[p]);
    SizesAre(s, e);
    SizesAre(s, win[p]);
  }

  lemma LosesIn(g: Groups, size: map<Eid, nat>, win: map<Eid, Eid>, alias: map<Eid, Eid>, e: Eid) returns (p: Eid)
    requires g.Winners(size, win) && g.GroupAlias(win, alias) && e in g.length && e in alias
    ensures p in win && alias[e] == win[p] != e && g.InGroup(p, e) && g.InGroup(p, win[p])
    ensures e in size && win[p] in size ==> size[e] <= size[win[p]]
  {
    hide Groups.InGroup;
    p :| g.Loses(win, p, e) && alias[e] == win[p];
  }

  lemma NotAPerson(s: Snapshot, e: Eid)
    requires s.Valid() && e in s.names && !TypedPerson(s, e)
    ensures e in s.SuffixGroups().length
  {
  }

  lemma SizesAre(s: Snapshot, e: Eid)
    requires e in s.names
    ensures e in s.Sizes() && s.Sizes()[e] == ChunkCount(s, e)
  {
  }

  lemma MemberIsForm(s: Snapshot, p: Eid, e: Eid)
    requires s.Valid() && s.SuffixGroups().InGroup(p, e)
    ensures FormOf(s, p, e)
  {
    var g := s.SuffixGroups();
    var c :| g.IsChild(p, c);
    ParentIsBase(s, c);
    if e != p {
      ParentIsBase(s, e);
    }
  }

  // A person is aliased to the only person of more words whose name has its one word among them.
  lemma PersonAliasSays(s: Snapshot, win: map<Eid, Eid>, alias: map<Eid, Eid>, e: Eid)
    requires s.Valid() && s.AliasMap(win, alias) && e in s.names && TypedPerson(s, e)
    ensures e in alias <==> exists m :: LongerPerson(s, e, m) && forall o :: LongerPerson(s, e, o) ==> o == m
    ensures e in alias ==> LongerPerson(s, e, alias[e])
  {
    hide Snapshot.Valid, Snapshot.AliasMap, Snapshot.OnlyCandidate, LongerPerson;
    PersonRule(s, win, alias, e);
    if |s.text.words(s.Low(e))| == 1 {
      forall m
        ensures s.OnlyCandidate(e, m) <==> LongerPerson(s, e, m) && forall o :: LongerPerson(s, e, o) ==> o == m
      {
        OnlyIsLonger(s, e, m);
      }
    } else {
      forall m | LongerPerson(s, e, m) ensures false {
        LongerThanOneWord(s, e, m);
      }
    }
  }

  lemma PersonRule(s: Snapshot, win: map<Eid, Eid>, alias: map<Eid, Eid>, e: Eid)
    requires s.Valid() && s.AliasMap(win, alias) && e in s.names && TypedPerson(s, e)
    ensures e in alias <==> |s.text.words(s.Low(e))| == 1 && exists m :: s.OnlyCandidate(e, m)
    ensures e in alias ==> s.OnlyCandidate(e, alias[e])
  {
    hide Groups.Winners, Groups.GroupAlias, Snapshot.SuffixGroups, Snapshot.Sizes, Snapshot.Valid;
    hide Snapshot.OnlyCandidate;
    assert s.PersonAlias(alias) && s.IsPerson(e);
  }

  lemma OnlyIsLonger(s: Snapshot, e: Eid, m: Eid)
    requires s.Valid() && e in s.names && |s.text.words(s.Low(e))| == 1
    ensures s.OnlyCandidate(e, m) <==> LongerPerson(s, e, m) && forall o :: LongerPerson(s, e, o) ==> o == m
  {
    hide Snapshot.Valid, Snapshot.Candidate, LongerPerson;
    forall o ensures s.Candidate(e, o) <==> LongerPerson(s, e, o) {
      LongerIsCandidate(s, e, o);
    }
  }

  lemma LongerIsCandidate(s: Snapshot, e: Eid, m: Eid)
    requires s.Valid() && e in s.names && |s.text.words(s.Low(e))| == 1
    ensures s.Candidate(e, m) <==> LongerPerson(s, e, m)
  {
  }

  lemma LongerThanOneWord(s: Snapshot, e: Eid, m: Eid)
    requires LongerPerson(s, e, m)
    ensures e in s.names && |s.text.words(s.Low(e))| == 1
  {
  }

  predicate LongerPerson(s: Snapshot, e: Eid, m: Eid)
  {
    && e in s.names && m in s.names && m != e && TypedPerson(s, m)
    && var own := s.text.words(s.text.lower(s.names[e]));
    && |own| == 1 && 1 < |s.text.words(s.names[m])| && own[0] in s.text.words(s.text.lower(s.names[m]))
  }

  // ---- what a fold leaves of each entity ----

  predicate NodeOf(cx: Context, item: Item, e: Eid)
  {
    item.NodeItem? && Touches(cx, item, e)
  }

  // The last node of an entity names it.
  lemma {:induction false} LastNodeNames(cx: Context, items: seq<Item>, st: Graph, e: Eid, i: nat)
    requires Run(cx, EMPTY, items, st) && i < |items| && NodeOf(cx, items[i], e)
    requires forall k :: i < k < |items| ==> !NodeOf(cx, items[k], e)
    ensures e in st.names && st.names[e] == cx.text.clean(items[i].node.name)
    decreases |items|
  {
    hide Touches;
    var mid :| Run(cx, EMPTY, Front(items), mid) && Step(cx, mid, Last(items), st);
    NameStep(cx, mid, Last(items), st, e);
    if i < |items| - 1 {
      LastNodeNames(cx, Front(items), mid, e, i);
    }
  }

  lemma NameStep(cx: Context, st: Graph, item: Item, st': Graph, e: Eid)
    requires Step(cx, st, item, st')
    ensures NodeOf(cx, item, e) ==> e in st'.names && st'.names[e] == cx.text.clean(item.node.name)
    ensures !NodeOf(cx, item, e) && e in st.names ==> e in st'.names && st'.names[e] == st.names[e]
    ensures Touches(cx, item, e) && item.EdgeItem? && e !in st.names ==>
      e in st'.names
      && st'.names[e] == cx.text.clean(if e == cx.Ends(item.edge).0 then item.edge.src else item.edge.tgt)
    ensures e in st'.names ==> e in st.names || Touches(cx, item, e)
  {
    hide Graph.Mentions, EdgeChunks, EdgeRows, MentionsGrow, Context.ItemKeys;
    if cx.Kept(item) && item.EdgeItem? {
      var cks, added :| EdgeStep(cx, st, item, st', cks, added);
    }
  }

  // Without a node, the first edge does: its source's name for the lower id, its target's for the other.
  lemma {:induction false} FirstEdgeNames(cx: Context, items: seq<Item>, st: Graph, e: Eid, i: nat)
    requires Run(cx, EMPTY, items, st) && FirstTouch(cx, items, e, i) && items[i].EdgeItem?
    requires forall k :: 0 <= k < |items| ==> !NodeOf(cx, items[k], e)
    ensures e in st.names
    ensures st.names[e] == cx.text.clean(if e == cx.Ends(items[i].edge).0 then items[i].edge.src else items[i].edge.tgt)
    decreases |items|
  {
    hide Touches, Context.Ends;
    var mid :| Run(cx, EMPTY, Front(items), mid) && Step(cx, mid, Last(items), st);
    NameStep(cx, mid, Last(items), st, e);
    if i < |items| - 1 {
      FirstEdgeNames(cx, Front(items), mid, e, i);
    } else {
      Unnamed(cx, Front(items), mid, e);
    }
  }

  lemma {:induction false} Unnamed(cx: Context, items: seq<Item>, st: Graph, e: Eid)
    requires Run(cx, EMPTY, items, st) && forall k :: 0 <= k < |items| ==> !Touches(cx, items[k], e)
    ensures e !in st.names
    decreases |items|
  {
    hide Touches;
    if items != [] {
      var mid :| Run(cx, EMPTY, Front(items), mid) && Step(cx, mid, Last(items), st);
      NameStep(cx, mid, Last(items), st, e);
      Unnamed(cx, Front(items), mid, e);
    }
  }

  // The type a node gives its entity.
  function Given(cx: Context, item: Item): EntityType
  {
    if item.NodeItem? then cx.text.nodeType(cx.text.clean(item.node.name), item.node.kind) else Other
  }

  predicate Types(cx: Context, item: Item, e: Eid)
  {
    NodeOf(cx, item, e) && Given(cx, item) != Other
  }

  // The first node with a concrete type types its entity.
  lemma {:induction false} FirstTypeStays(cx: Context, items: seq<Item>, st: Graph, e: Eid, i: nat)
    requires Run(cx, EMPTY, items, st) && i < |items| && Types(cx, items[i], e)
    requires forall k :: 0 <= k < i ==> !Types(cx, items[k], e)
    ensures TypeOf(st, e) == Given(cx, items[i])
    decreases |items|
  {
    hide Touches;
    var mid :| Run(cx, EMPTY, Front(items), mid) && Step(cx, mid, Last(items), st);
    TypeStep(cx, mid, Last(items), st, e);
    if i < |items| - 1 {
      FirstTypeStays(cx, Front(items), mid, e, i);
    } else {
      Untyped(cx, Front(items), mid, e);
    }
  }

  // Without one the entity has the type Other.
  lemma {:induction false} Untyped(cx: Context, items: seq<Item>, st: Graph, e: Eid)
    requires Run(cx, EMPTY, items, st) && forall k :: 0 <= k < |items| ==> !Types(cx, items[k], e)
    ensures TypeOf(st, e) == Other
    decreases |items|
  {
    hide Touches;
    if items != [] {
      var mid :| Run(cx, EMPTY, Front(items), mid) && Step(cx, mid, Last(items), st);
      TypeStep(cx, mid, Last(items), st, e);
      Untyped(cx, Front(items), mid, e);
    }
  }

  lemma TypeStep(cx: Context, st: Graph, item: Item, st': Graph, e: Eid)
    requires Step(cx, st, item, st')
    ensures TypeOf(st', e) == if TypeOf(st, e) == Other && Types(cx, item, e) then Given(cx, item) else TypeOf(st, e)
  {
    hide Graph.Mentions, EdgeChunks, EdgeRows, MentionsGrow, Context.ItemKeys;
    if cx.Kept(item) && item.EdgeItem? {
      var cks, added :| EdgeStep(cx, st, item, st', cks, added);
    }
  }

  // ---- where rows come from ----

  // The row describes the pair as this edge does.
  predicate RowOfEdge(cx: Context, item: Item, r: Rel)
  {
    && item.EdgeItem? && cx.Kept(item) && (r.source, r.target) == cx.Ends(item.edge)
    && r.description == cx.text.describe(item.edge.description)
    && (r.chunk in cx.ItemKeys(item) || cx.ItemKeys(item) == {})
  }

  lemma {:induction false} RowsComeOfEdges(cx: Context, items: seq<Item>, st: Graph)
    requires Run(cx, EMPTY, items, st)
    ensures forall r <- st.rels :: exists x :: x in items && RowOfEdge(cx, x, r)
    decreases |items|
  {
    hide RowOfEdge;
    if items != [] {
      var mid :| Run(cx, EMPTY, Front(items), mid) && Step(cx, mid, Last(items), st);
      RowsComeOfEdges(cx, Front(items), mid);
      RowStep(cx, mid, Last(items), st);
      assert Last(items) in items && forall x :: x in Front(items) ==> x in items;
    }
  }

  lemma RowStep(cx: Context, st: Graph, item: Item, st': Graph)
    requires Step(cx, st, item, st')
    ensures forall r <- st'.rels :: r in st.rels || RowOfEdge(cx, item, r)
  {
    hide Graph.Mentions, MentionsGrow, Context.ItemKeys;
    if cx.Kept(item) && item.EdgeItem? {
      var cks, added :| EdgeStep(cx, st, item, st', cks, added);
      assert forall r: Rel :: r in added ==> r.chunk in cks;
    }
  }

  // An entity is the slug of a name that some node or edge end has, cleaned, and that is neither empty
  // nor junk.
  predicate Origin(cx: Context, raw: string, e: Eid)
  {
    var name := cx.text.clean(raw);
    name != "" && !cx.text.isJunk(name) && cx.text.slug(name) == e
  }

  predicate NamedIn(item: Item, raw: string)
  {
    match item
    case NodeItem(_, n) => raw == n.name
    case EdgeItem(_, g) => raw == g.src || raw == g.tgt
  }

  lemma EntityHasOrigin(cx: Context, items: seq<Item>, st: Graph, e: Eid)
    requires Run(cx, EMPTY, items, st) && e in st.names
    ensures exists x, raw :: x in items && NamedIn(x, raw) && Origin(cx, raw, e)
  {
    hide Run;
    FoldNames(cx, items, st, e);
    var i :| 0 <= i < |items| && Touches(cx, items[i], e);
    var x := items[i];
    var raw := if x.NodeItem? then x.node.name else if cx.Id(x.edge.src) == e then x.edge.src else x.edge.tgt;
    assert x in items && NamedIn(x, raw) && Origin(cx, raw, e);
  }

  // And every node that is neither gives one; an edge does so for both ends or for none.
  lemma NodeGivesEntity(cx: Context, items: seq<Item>, st: Graph, x: Item, e: Eid)
    requires Run(cx, EMPTY, items, st) && x in items && x.NodeItem? && Origin(cx, x.node.name, e)
    ensures e in st.names
  {
    hide Run;
    FoldNames(cx, items, st, e);
    var i :| 0 <= i < |items| && items[i] == x;
    assert Touches(cx, items[i], e);
  }

  lemma EdgeGivesEntities(cx: Context, items: seq<Item>, st: Graph, x: Item, a: Eid, b: Eid)
    requires Run(cx, EMPTY, items, st) && x in items && x.EdgeItem?
    requires Origin(cx, x.edge.src, a) && Origin(cx, x.edge.tgt, b)
    ensures a in st.names && b in st.names
  {
    hide Run;
    FoldNames(cx, items, st, a);
    FoldNames(cx, items, st, b);
    var i :| 0 <= i < |items| && items[i] == x;
    assert Touches(cx, items[i], a) && Touches(cx, items[i], b);
  }
}
