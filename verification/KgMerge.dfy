// The second half of _merge_aliases: what the merged graph is, and what the merge keeps.

module KgMerge {
  import opened KgModel
  import opened KgAlias

  // A row with both ends resolved, back in canonical order.
  function RemapRow(alias: map<Eid, Eid>, r: Rel): Rel
  {
    var (s, t) := Sorted(Resolve(alias, r.source), Resolve(alias, r.target));
    r.(source := s, target := t)
  }

  // The remapping loop: self-loops and repeated keys are skipped.
  function Remapped(alias: map<Eid, Eid>, rows: seq<Rel>): seq<Rel>
    decreases |rows|
  {
    if rows == [] then []
    else
      var n := |rows| - 1;
      var done, r := Remapped(alias, rows[..n]), RemapRow(alias, rows[n]);
      if r.source == r.target || Key(r) in Keys(done) then done else done + [r]
  }

  // Every chunk mentioned by some id that resolves to r.
  function MergedMentions(g: Graph, alias: map<Eid, Eid>, r: Eid): set<Chunk>
  {
    set e, c | e in g.chunks && Resolve(alias, e) == r && c in g.chunks[e] :: c
  }

  // h is g after its aliases are merged away.
  ghost predicate MergedInto(g: Graph, alias: map<Eid, Eid>, h: Graph)
  {
    && h.names == g.names - alias.Keys
    && h.types == g.types - alias.Keys
    && h.chunks.Keys <= h.names.Keys
    && (forall r <- h.names :: h.Mentions(r) == MergedMentions(g, alias, r))
    && h.rels == if alias == map[] then g.rels else Remapped(alias, g.rels)
  }

  predicate IsLoop(r: Rel) { r.source == r.target }

  predicate HasLoop(rows: seq<Rel>)
  {
    exists r <- rows :: IsLoop(r)
  }

  // ---- the remapped rows ----

  lemma {:induction false} RemappedRows(alias: map<Eid, Eid>, rows: seq<Rel>)
    ensures UniqueKeys(Remapped(alias, rows)) && !HasLoop(Remapped(alias, rows))
    ensures forall r <- Remapped(alias, rows) :: exists x :: x in rows && r == RemapRow(alias, x)
    ensures Keys(Remapped(alias, rows))
            == set x | x in rows && !IsLoop(RemapRow(alias, x)) :: Key(RemapRow(alias, x))
    decreases |rows|
  {
    if rows != [] {
      var n := |rows| - 1;
      RemappedRows(alias, rows[..n]);
      assert rows == rows[..n] + [rows[n]];
      var done, r := Remapped(alias, rows[..n]), RemapRow(alias, rows[n]);
      forall y <- Remapped(alias, rows) ensures exists x :: x in rows && y == RemapRow(alias, x) {
        if y in done {
          var x :| x in rows[..n] && y == RemapRow(alias, x);
          assert x in rows;
        } else {
          assert rows[n] in rows;
        }
      }
      assert Keys(done + [r]) == Keys(done) + {Key(r)};
    }
  }

  // ---- what the merge keeps ----

  // s is the snapshot of g that the alias loops looked at.
  ghost predicate Looked(s: Snapshot, g: Graph)
  {
    s.Valid() && s.names == g.names && s.types == g.types && s.chunks == g.chunks
  }

  // Every id resolves to an un-aliased id of the graph.
  ghost predicate Represents(g: Graph, alias: map<Eid, Eid>)
  {
    && alias.Keys <= g.names.Keys
    && (forall e <- g.names :: Resolve(alias, e) in g.names && Resolve(alias, e) !in alias)
    && (forall e <- g.names :: e !in alias ==> Resolve(alias, e) == e)
  }

  lemma AliasMapRepresents(s: Snapshot, win: map<Eid, Eid>, alias: map<Eid, Eid>, g: Graph)
    requires Looked(s, g) && s.AliasMap(win, alias)
    ensures Represents(g, alias)
  {
    forall e <- g.names
      ensures Resolve(alias, e) in g.names && Resolve(alias, e) !in alias && (e !in alias ==> Resolve(alias, e) == e)
    {
      ResolveSound(s, win, alias, e);
    }
  }

  // The survivors are the ids without an alias, every mention moves to the id's representative,
  // and no mention is invented.
  lemma MentionsConserved(alias: map<Eid, Eid>, g: Graph, h: Graph)
    requires Represents(g, alias) && MergedInto(g, alias, h) && g.chunks.Keys <= g.names.Keys
    ensures h.names.Keys == set e | e in g.names && Resolve(alias, e) == e
    ensures forall e <- g.names :: Resolve(alias, e) in h.names && g.Mentions(e) <= h.Mentions(Resolve(alias, e))
    ensures forall r <- h.names, c :: c in h.Mentions(r) <==>
      exists e :: e in g.names && Resolve(alias, e) == r && c in g.Mentions(e)
  {
    hide Resolve, Remapped;
    forall e <- g.names ensures g.Mentions(e) <= h.Mentions(Resolve(alias, e)) {
      assert h.Mentions(Resolve(alias, e)) == MergedMentions(g, alias, Resolve(alias, e));
    }
    forall r <- h.names, c
      ensures c in h.Mentions(r) <==> exists e :: e in g.names && Resolve(alias, e) == r && c in g.Mentions(e)
    {
      assert h.Mentions(r) == MergedMentions(g, alias, r);
    }
  }

  // The merge keeps canonical order, unique keys and resolved foreign keys.
  lemma MergeSound(alias: map<Eid, Eid>, g: Graph, h: Graph, meta: set<Chunk>)
    requires Represents(g, alias) && MergedInto(g, alias, h) && g.Sound(meta)
    ensures h.Sound(meta)
  {
    RemappedRows(alias, g.rels);
    forall e <- h.chunks ensures h.chunks[e] <= meta {
      assert h.Mentions(e) == MergedMentions(g, alias, e);
    }
    forall r <- h.rels ensures h.RowFits(r) {
      if alias == map[] {
        MentionsConserved(alias, g, h);
        assert g.RowFits(r);
      } else {
        var x :| x in g.rels && r == RemapRow(alias, x);
      }
    }
  }

  // Self-loops are dropped only on the path where something merged.
  lemma LoopsSurviveIff(alias: map<Eid, Eid>, g: Graph, h: Graph)
    requires MergedInto(g, alias, h)
    ensures HasLoop(h.rels) <==> alias == map[] && HasLoop(g.rels)
  {
    RemappedRows(alias, g.rels);
  }

  // ---- the loops over the alias dictionary and the rows ----

  method RemapRels(alias: map<Eid, Eid>, rels: seq<Rel>) returns (remapped: seq<Rel>)
    ensures remapped == Remapped(alias, rels)
  {
    remapped := [];
    var seenRels: set<RelKey> := {};
    for i := 0 to |rels|
      invariant remapped == Remapped(alias, rels[..i]) && seenRels == Keys(remapped)
    {
      var r := rels[i];
      var source := ResolveLoop(alias, r.source);
      var target := ResolveLoop(alias, r.target);
      var (s, t) := Sorted(source, target);
      var key := (s, t, r.chunk);
      assert rels[..i + 1][..i] == rels[..i] && rels[..i + 1][i] == r;
      if s == t || key in seenRels {
        continue;
      }
      seenRels := seenRels + {key};
      remapped := remapped + [r.(source := s, target := t)];
    }
    assert rels[..|rels|] == rels;
  }
}
