// The first half of _merge_aliases: the loops that fill the alias dictionary.

module KgAliasBuild {

  import opened Common
  import opened KgModel

  // by_lower = {ent_name[e].lower(): e for e in ent_name}: the last of several wins.
  method IndexByLower(text: Text, names: map<Eid, string>) returns (byLower: map<string, Eid>)
    ensures forall e <- names :: text.lower(names[e]) in byLower
    ensures forall low <- byLower :: byLower[low] in names && text.lower(names[byLower[low]]) == low
  {
    byLower := map[];
    var todo := names.Keys;
    while todo != {}
      invariant todo <= names.Keys
      invariant forall e <- names.Keys - todo :: text.lower(names[e]) in byLower
      invariant forall low <- byLower :: byLower[low] in names && text.lower(names[byLower[low]]) == low
      decreases todo
    {
      var e :| e in todo;
      byLower := byLower[text.lower(names[e]) := e];
      todo := todo - {e};
    }
  }

  // The suffix loop for one entity, with its break.
  method SuffixParent(s: Snapshot, e: Eid) returns (p: Option<Eid>)
    requires s.Valid() && e in s.names
    ensures p == s.Parent(e)
  {
    if s.IsPerson(e) {
      return None;
    }
    var low := s.Low(e);
    for i := 0 to |SUFFIXES|
      invariant FirstBase(low, s.byLower.Keys, i) == FirstBase(low, s.byLower.Keys, 0)
    {
      var base := Stem(low, SUFFIXES[i]);
      if MIN_BASE <= |base| && base in s.byLower {
        var other := s.byLower[base];
        return if other != e && !s.IsPerson(other) then Some(other) else None;
      }
    }
    return None;
  }

  // The suffix groups found among the entities of `seen`. The source keys a group by its base
  // form's lower-cased name; the key here is the entity by_lower holds for that name.
  ghost predicate GroupsSoFar(g: Groups, seen: set<Eid>, groups: map<Eid, set<Eid>>)
  {
    && (forall e <- seen :: e in g.parent ==> g.parent[e] in groups)
    && (forall p <- groups :: exists c :: c in seen && g.IsChild(p, c))
    && (forall p <- groups, e :: e in groups[p] <==> e == p || (e in seen && g.IsChild(p, e)))
  }

  // suffix_groups[base] |= {other, eid}
  function Grouped(groups: map<Eid, set<Eid>>, p: Eid, e: Eid): map<Eid, set<Eid>>
  {
    groups[p := (if p in groups then groups[p] else {}) + {p, e}]
  }

  lemma MoveOne<T>(all: set<T>, seen: set<T>, todo: set<T>, e: T)
    requires todo <= all && seen == all - todo && e in todo
    ensures todo - {e} <= all && seen + {e} == all - (todo - {e})
  {
  }

  // One entity: added to its base form's group, if it has one.
  method AddEntity(s: Snapshot, e: Eid, before: map<Eid, set<Eid>>, ghost g: Groups, ghost seen: set<Eid>)
    returns (groups: map<Eid, set<Eid>>)
    requires s.Valid() && e in s.names && s.Parent(e) == if e in g.parent then Some(g.parent[e]) else None
    requires GroupsSoFar(g, seen, before)
    ensures GroupsSoFar(g, seen + {e}, groups)
  {
    var parent := SuffixParent(s, e);
    groups := if parent.Some? then Grouped(before, parent.value, e) else before;
  }

  method SuffixGroupsLoop(s: Snapshot, ghost g: Groups) returns (groups: map<Eid, set<Eid>>)
    requires s.Valid()
    requires forall e <- s.names :: s.Parent(e) == if e in g.parent then Some(g.parent[e]) else None
    ensures GroupsSoFar(g, s.names.Keys, groups)
  {
    groups := map[];
    ghost var seen: set<Eid> := {};
    assert GroupsSoFar(g, seen, groups);
    hide *;
    var todo := s.names.Keys;
    while todo != {}
      invariant todo <= s.names.Keys && seen == s.names.Keys - todo
      invariant GroupsSoFar(g, seen, groups)
      decreases todo
    {
      var e :| e in todo;
      groups := AddEntity(s, e, groups, g, seen);
      MoveOne(s.names.Keys, seen, todo, e);
      todo, seen := todo - {e}, seen + {e};
    }
    assert seen == s.names.Keys;
  }

  // max(cluster, key=...): any most-mentioned member.
  method MostMentioned(s: Snapshot, cluster: set<Eid>) returns (win: Eid)
    requires cluster != {}
    ensures win in cluster
    ensures forall e <- cluster :: |s.Mentions(e)| <= |s.Mentions(win)|
  {
    win :| win in cluster;
    var todo := cluster - {win};
    while todo != {}
      invariant todo <= cluster && win in cluster - todo
      invariant forall e <- cluster - todo :: |s.Mentions(e)| <= |s.Mentions(win)|
      decreases todo
    {
      var e :| e in todo;
      var onTie: bool := *;
      if |s.Mentions(win)| < |s.Mentions(e)| || (onTie && |s.Mentions(win)| == |s.Mentions(e)|) {
        win := e;
      }
      todo := todo - {e};
    }
  }

  // The aliases after the groups in `done`, in whatever order they came.
  ghost predicate ElectedSoFar(g: Groups, size: map<Eid, nat>, done: set<Eid>, win: map<Eid, Eid>, alias: map<Eid, Eid>)
  {
    && win.Keys == done
    && (forall p <- win :: g.InGroup(p, win[p]))
    && (forall p, e :: p in win && g.InGroup(p, e) && e in size && win[p] in size ==> size[e] <= size[win[p]])
    && (forall e <- alias :: exists p :: g.Loses(win, p, e) && alias[e] == win[p])
    && (forall p, e :: g.Loses(win, p, e) ==> e in alias)
  }

  // for lose in cluster: alias[lose] = win
  function Pointed(before: map<Eid, Eid>, losers: set<Eid>, win: Eid): map<Eid, Eid>
  {
    before + map e | e in losers :: win
  }

  method PointLosers(cluster: set<Eid>, win: Eid, before: map<Eid, Eid>) returns (alias: map<Eid, Eid>)
    ensures alias == Pointed(before, cluster - {win}, win)
  {
    alias := before;
    var todo := cluster;
    while todo != {}
      invariant todo <= cluster
      invariant alias == Pointed(before, cluster - {win} - todo, win)
      decreases todo
    {
      var lose :| lose in todo;
      if lose != win {
        alias := alias[lose := win];
      }
      todo := todo - {lose};
    }
    assert cluster - {win} - todo == cluster - {win};
  }

  // One group: its winner and the aliases of its losers.
  method ElectGroup(s: Snapshot, cluster: set<Eid>, p: Eid, before: map<Eid, Eid>,
                    ghost g: Groups, ghost done: set<Eid>, ghost win: map<Eid, Eid>)
    returns (alias: map<Eid, Eid>, w: Eid)
    requires g.IsBase(p) && p !in done
    requires forall e :: e in cluster <==> g.InGroup(p, e)
    requires ElectedSoFar(g, s.Sizes(), done, win, before)
    ensures ElectedSoFar(g, s.Sizes(), done + {p}, win[p := w], alias)
  {
    assert p in cluster;
    w := MostMentioned(s, cluster);
    alias := PointLosers(cluster, w, before);
    ElectOne(g, s.Sizes(), cluster, done, win, before, p, w, alias);
  }

  method ElectLoop(s: Snapshot, groups: map<Eid, set<Eid>>, ghost g: Groups)
    returns (alias: map<Eid, Eid>, ghost win: map<Eid, Eid>)
    requires forall p <- groups :: g.IsBase(p)
    requires forall p <- groups, e :: e in groups[p] <==> g.InGroup(p, e)
    ensures ElectedSoFar(g, s.Sizes(), groups.Keys, win, alias)
  {
    alias, win := map[], map[];
    ghost var done: set<Eid> := {};
    assert ElectedSoFar(g, s.Sizes(), done, win, alias);
    hide *;
    var todo := groups.Keys;
    while todo != {}
      invariant todo <= groups.Keys && done == groups.Keys - todo
      invariant ElectedSoFar(g, s.Sizes(), done, win, alias)
      decreases todo
    {
      var p :| p in todo;
      var w;
      alias, w := ElectGroup(s, groups[p], p, alias, g, done, win);
      win := win[p := w];
      MoveOne(groups.Keys, done, todo, p);
      todo, done := todo - {p}, done + {p};
    }
    assert done == groups.Keys;
  }

  lemma ElectOne(g: Groups, size: map<Eid, nat>, cluster: set<Eid>, done: set<Eid>, win: map<Eid, Eid>,
                 before: map<Eid, Eid>, p: Eid, w: Eid, alias: map<Eid, Eid>)
    requires p !in done && w in cluster
    requires ElectedSoFar(g, size, done, win, before)
    requires forall e :: e in cluster <==> g.InGroup(p, e)
    requires forall e <- cluster :: e in size && w in size ==> size[e] <= size[w]
    requires alias == Pointed(before, cluster - {w}, w)
    ensures ElectedSoFar(g, size, done + {p}, win[p := w], alias)
  {
    var win' := win[p := w];
    forall q, e | g.Loses(win, q, e) ensures g.Loses(win', q, e) {}
    forall e <- alias ensures exists q :: g.Loses(win', q, e) && alias[e] == win'[q] {
      if e in cluster - {w} {
        assert g.Loses(win', p, e);
      } else {
        var q :| g.Loses(win, q, e) && before[e] == win[q];
        assert g.Loses(win', q, e);
      }
    }
    forall q, e | g.Loses(win', q, e) ensures e in alias {
      if q != p {
        assert g.Loses(win, q, e);
      }
    }
  }

  ghost predicate PersonDone(s: Snapshot, alias: map<Eid, Eid>, e: Eid)
    requires e in s.names
  {
    && (e in alias <==> |s.text.words(s.Low(e))| == 1 && exists m :: s.OnlyCandidate(e, m))
    && (e in alias ==> s.OnlyCandidate(e, alias[e]))
  }

  // The only longer name containing the one-word name of e, if there is exactly one.
  method PersonTarget(s: Snapshot, multi: set<Eid>, e: Eid) returns (target: Option<Eid>)
    requires multi == set m | m in s.names && s.IsPerson(m) && 1 < |s.text.words(s.names[m])|
    requires e in s.names
    ensures target.Some? ==> |s.text.words(s.Low(e))| == 1 && s.OnlyCandidate(e, target.value)
    ensures target.None? ==> |s.text.words(s.Low(e))| == 1 ==> !exists m :: s.OnlyCandidate(e, m)
  {
    var toks := s.text.words(s.Low(e));
    if |toks| != 1 {
      return None;
    }
    var cands := set m | m in multi && toks[0] in s.text.words(s.Low(m)) && m != e;
    assert forall m: Eid :: m in cands <==> s.Candidate(e, m);
    assert forall m: Eid :: s.OnlyCandidate(e, m) ==> cands == {m};
    if |cands| == 1 {
      var m :| m in cands;
      OneElement(cands, m);
      return Some(m);
    }
    return None;
  }

  // The person rule: a one-word person name becomes the longer name containing it.
  method PersonLoop(s: Snapshot, groupAlias: map<Eid, Eid>) returns (alias: map<Eid, Eid>)
    requires forall e <- groupAlias :: e in s.names && !s.IsPerson(e)
    ensures s.PersonAlias(alias)
    ensures alias.Keys <= s.names.Keys
    ensures forall e <- s.names | !s.IsPerson(e) ::
              (e in alias <==> e in groupAlias) && (e in alias ==> alias[e] == groupAlias[e])
  {
    hide Snapshot.OnlyCandidate, Snapshot.Low, Snapshot.PersonAlias, Snapshot.IsPerson;
    var multi := set e | e in s.names && s.IsPerson(e) && 1 < |s.text.words(s.names[e])|;
    alias := groupAlias;
    ghost var people: map<Eid, Eid> := map[];
    var todo := s.names.Keys;
    while todo != {}
      invariant todo <= s.names.Keys
      invariant people.Keys <= s.names.Keys - todo && alias == groupAlias + people
      invariant forall e <- people :: s.IsPerson(e)
      invariant forall e <- s.names.Keys - todo | s.IsPerson(e) :: PersonDone(s, people, e)
      decreases todo
    {
      var e :| e in todo;
      todo := todo - {e};
      if s.IsPerson(e) && e !in alias {
        var target := PersonTarget(s, multi, e);
        if target.Some? {
          alias := alias[e := target.value];
          people := people[e := target.value];
        }
      }
    }
    PeopleAreDone(s, people, alias);
  }

  lemma PeopleAreDone(s: Snapshot, people: map<Eid, Eid>, alias: map<Eid, Eid>)
    requires forall e <- s.names | s.IsPerson(e) :: PersonDone(s, people, e)
    requires forall e <- s.names | s.IsPerson(e) ::
               (e in alias <==> e in people) && (e in alias ==> alias[e] == people[e])
    ensures s.PersonAlias(alias)
  {
    forall e <- s.names | s.IsPerson(e) ensures PersonDone(s, alias, e) {
      assert PersonDone(s, people, e);
    }
  }

  lemma OneElement(ids: set<Eid>, m: Eid)
    requires |ids| == 1 && m in ids
    ensures ids == {m}
  {
    assert |ids - {m}| == 0;
  }

  // The alias dictionary of _merge_aliases, for every iteration order and every tie.
  method BuildAliases(text: Text, names: map<Eid, string>, types: map<Eid, EntityType>, chunks: map<Eid, set<Chunk>>)
    returns (alias: map<Eid, Eid>, byLower: map<string, Eid>)
    requires TextLaws(text)
    ensures Snapshot(text, names, types, chunks, byLower).Valid()
    ensures exists win: map<Eid, Eid> :: Snapshot(text, names, types, chunks, byLower).AliasMap(win, alias)
  {
    byLower := IndexByLower(text, names);
    var snap := Snapshot(text, names, types, chunks, byLower);
    ghost var g := snap.SuffixGroups();
    var groups := SuffixGroupsLoop(snap, g);
    var groupAlias, win := ElectLoop(snap, groups, g);
    AllElected(g, snap.Sizes(), groups, win, groupAlias);
    alias := PersonLoop(snap, groupAlias);
    assert snap.AliasMap(win, alias);
  }

  lemma AllElected(g: Groups, size: map<Eid, nat>, groups: map<Eid, set<Eid>>, win: map<Eid, Eid>, alias: map<Eid, Eid>)
    requires g.Valid() && forall p: Eid :: p in groups <==> g.IsBase(p)
    requires ElectedSoFar(g, size, groups.Keys, win, alias)
    ensures g.Winners(size, win) && g.GroupAlias(win, alias)
    ensures alias.Keys <= g.length.Keys
  {
    forall e <- alias ensures e in g.length {
      var p :| g.Loses(win, p, e) && alias[e] == win[p];
      if e !in g.parent {
        var c :| g.IsChild(e, c);
      }
    }
  }
}
