// resolve() and the shape of the alias map: no cycles however groups overlap, and exactly
// when a whole suffix group ends up in one entity.

module KgAlias {
  import opened Common
  import opened KgModel

  // resolve: follow aliases until an id without one, or until the seen guard fires.
  function ResolveFrom(alias: map<Eid, Eid>, e: Eid, seen: set<Eid>): Eid
    decreases |alias.Keys - seen|
  {
    if e in alias && e !in seen then
      assert alias.Keys - (seen + {e}) == alias.Keys - seen - {e};
      ResolveFrom(alias, alias[e], seen + {e})
    else e
  }

  function Resolve(alias: map<Eid, Eid>, e: Eid): Eid
  {
    ResolveFrom(alias, e, {})
  }

  // The loop of adapter.py.
  method ResolveLoop(alias: map<Eid, Eid>, eid: Eid) returns (r: Eid)
    ensures r == Resolve(alias, eid)
  {
    var seen: set<Eid> := {};
    r := eid;
    while r in alias && r !in seen
      invariant ResolveFrom(alias, r, seen) == Resolve(alias, eid)
      decreases |alias.Keys - seen|
    {
      assert alias.Keys - (seen + {r}) == alias.Keys - seen - {r};
      seen := seen + {r};
      r := alias[r];
    }
  }

  // n steps along the alias map.
  ghost predicate Walk(alias: map<Eid, Eid>, e: Eid, n: nat, r: Eid)
    decreases n
  {
    if n == 0 then e == r else e in alias && Walk(alias, alias[e], n - 1, r)
  }

  // Every alias leads to an id of smaller rank, so there is no cycle.
  ghost predicate Ranked(alias: map<Eid, Eid>, rank: Eid -> nat)
  {
    forall e <- alias :: rank(alias[e]) < rank(e)
  }

  lemma {:induction false} ResolveRanked(alias: map<Eid, Eid>, rank: Eid -> nat, e: Eid, seen: set<Eid>)
    requires Ranked(alias, rank)
    requires forall x <- seen :: rank(e) < rank(x)
    ensures ResolveFrom(alias, e, seen) == Resolve(alias, e)
    ensures Resolve(alias, e) !in alias
    ensures e in alias ==> Resolve(alias, e) == Resolve(alias, alias[e])
    decreases rank(e)
  {
    if e in alias {
      assert e !in seen;
      assert {} + {e} == {e};
      ResolveRanked(alias, rank, alias[e], seen + {e});
      ResolveRanked(alias, rank, alias[e], {e});
    }
  }

  // The guard `eid not in seen` is never what stops the loop, and the id it stops at is the
  // only un-aliased id that can be reached.
  lemma {:induction false} ResolveIsTheOnlyEnd(alias: map<Eid, Eid>, rank: Eid -> nat, e: Eid, n: nat, r: Eid)
    requires Ranked(alias, rank)
    requires Walk(alias, e, n, r) && r !in alias
    ensures r == Resolve(alias, e)
    decreases n
  {
    ResolveRanked(alias, rank, e, {});
    if n > 0 {
      ResolveIsTheOnlyEnd(alias, rank, alias[e], n - 1, r);
    }
  }

  // A set closed under aliasing keeps the representative of its members.
  lemma {:induction false} ResolveKeeps(alias: map<Eid, Eid>, rank: Eid -> nat, e: Eid, closed: iset<Eid>)
    requires Ranked(alias, rank)
    requires forall x <- alias | x in closed :: alias[x] in closed
    requires e in closed
    ensures Resolve(alias, e) in closed
    decreases rank(e)
  {
    ResolveRanked(alias, rank, e, {});
    if e in alias {
      ResolveKeeps(alias, rank, alias[e], closed);
    }
  }

  // ---- suffix groups ----

  ghost predicate LengthsWithin(g: Groups, bound: nat)
  {
    forall e <- g.length :: g.length[e] <= bound
  }

  lemma {:induction false} LengthBound(lengths: map<Eid, nat>, ids: set<Eid>) returns (bound: nat)
    requires ids <= lengths.Keys
    ensures forall e <- ids :: lengths[e] <= bound
    decreases |ids|
  {
    if ids == {} {
      bound := 0;
    } else {
      var e :| e in ids;
      bound := LengthBound(lengths, ids - {e});
      if bound < lengths[e] {
        bound := lengths[e];
      }
    }
  }

  // A chain climbs to shorter base forms, may step once to a sibling, then descends to longer
  // variants, and never climbs again.
  ghost function Rank(g: Groups, alias: map<Eid, Eid>, bound: nat, e: Eid): nat
    requires LengthsWithin(g, bound)
  {
    if e !in alias then 0
    else if e !in g.length then 1
    else if g.IsChild(alias[e], e) then bound + 3 + g.length[e]
    else if g.IsChild(e, alias[e]) then 1 + bound - g.length[e]
    else bound + 2
  }

  lemma GroupRankFalls(g: Groups, win: map<Eid, Eid>, alias: map<Eid, Eid>, bound: nat, e: Eid)
    requires g.Valid() && g.GroupAlias(win, alias) && LengthsWithin(g, bound)
    requires e in alias && e in g.length
    ensures alias[e] in g.length
    ensures Rank(g, alias, bound, alias[e]) < Rank(g, alias, bound, e)
  {
    var p :| g.Loses(win, p, e) && alias[e] == win[p];
    assert g.InGroup(p, win[p]);
  }

  // ---- the whole alias map ----

  lemma RankFalls(s: Snapshot, win: map<Eid, Eid>, alias: map<Eid, Eid>, bound: nat, e: Eid)
    requires s.Valid() && s.AliasMap(win, alias) && LengthsWithin(s.SuffixGroups(), bound)
    requires e in alias
    ensures Rank(s.SuffixGroups(), alias, bound, alias[e]) < Rank(s.SuffixGroups(), alias, bound, e)
  {
    if s.IsPerson(e) {
      assert alias[e] in s.names && s.IsPerson(alias[e]) && alias[e] !in alias;
    } else {
      GroupRankFalls(s.SuffixGroups(), win, alias, bound, e);
    }
  }

  // However groups overlap, mention counts tie and later groups overwrite an alias: no cycle.
  lemma AliasAcyclic(s: Snapshot, win: map<Eid, Eid>, alias: map<Eid, Eid>) returns (rank: Eid -> nat)
    requires s.Valid() && s.AliasMap(win, alias)
    ensures Ranked(alias, rank)
  {
    var g := s.SuffixGroups();
    var bound := LengthBound(g.length, g.length.Keys);
    rank := e => Rank(g, alias, bound, e);
    forall e <- alias ensures rank(alias[e]) < rank(e) {
      RankFalls(s, win, alias, bound, e);
    }
  }

  // Along aliases the mention count never falls, and non-persons stay non-persons.
  lemma {:induction false} ResolveInGroups(g: Groups, size: map<Eid, nat>, win: map<Eid, Eid>,
                                           alias: map<Eid, Eid>, rank: Eid -> nat, e: Eid)
    requires g.Valid() && g.Winners(size, win) && g.GroupAlias(win, alias) && Ranked(alias, rank)
    requires g.length.Keys <= size.Keys && e in g.length
    ensures Resolve(alias, e) in g.length
    ensures size[e] <= size[Resolve(alias, e)]
  {
    var ahead := iset x | x in g.length && size[e] <= size[x];
    forall x <- alias | x in ahead ensures alias[x] in ahead {
      var p :| g.Loses(win, p, x) && alias[x] == win[p];
      assert g.InGroup(p, win[p]);
    }
    ResolveKeeps(alias, rank, e, ahead);
  }

  // What every id resolves to: a known id that nothing aliases, of the same kind (a person stays
  // a person), and never a less mentioned one when it is not a person.
  lemma {:induction false} ResolveSound(s: Snapshot, win: map<Eid, Eid>, alias: map<Eid, Eid>, e: Eid)
    requires s.Valid() && s.AliasMap(win, alias) && e in s.names
    ensures Resolve(alias, e) in s.names.Keys - alias.Keys
    ensures s.IsPerson(Resolve(alias, e)) == s.IsPerson(e)
    ensures !s.IsPerson(e) ==> |s.Mentions(e)| <= |s.Mentions(Resolve(alias, e))|
    ensures e !in alias ==> Resolve(alias, e) == e
    ensures e in alias ==> Resolve(alias, e) == Resolve(alias, alias[e])
  {
    var rank := AliasAcyclic(s, win, alias);
    ResolveRanked(alias, rank, e, {});
    if !s.IsPerson(e) {
      ResolveInGroups(s.SuffixGroups(), s.Sizes(), win, alias, rank, e);
    } else if e in alias {
      assert alias[e] in s.names && s.IsPerson(alias[e]) && alias[e] !in alias;
    }
  }

  // ---- when a whole group becomes one entity ----

  // x is e or one of e's variants, theirs, and so on.
  ghost predicate Under(g: Groups, e: Eid, x: Eid)
    requires g.Valid()
    decreases if x in g.length then g.length[x] else 0
  {
    x == e || (x in g.parent && Under(g, e, g.parent[x]))
  }

  // Aliases enter the variants of e only by electing e in its base form's group.
  lemma NoEntry(g: Groups, win: map<Eid, Eid>, alias: map<Eid, Eid>, e: Eid, x: Eid)
    requires g.Valid() && g.GroupAlias(win, alias)
    requires e in g.parent && g.parent[e] in win && win[g.parent[e]] != e
    requires x in alias && x in g.length && Under(g, e, alias[x])
    ensures Under(g, e, x)
  {
    var p :| g.Loses(win, p, x) && alias[x] == win[p];
    assert g.InGroup(p, win[p]);
  }

  lemma {:induction false} UnderTransitive(g: Groups, e: Eid, c: Eid, x: Eid)
    requires g.Valid() && Under(g, e, c) && Under(g, c, x)
    ensures Under(g, e, x)
    decreases if x in g.length then g.length[x] else 0
  {
    if x != c {
      UnderTransitive(g, e, c, g.parent[x]);
    }
  }

  lemma {:induction false} UnderIsLonger(g: Groups, e: Eid, x: Eid)
    requires g.Valid() && Under(g, e, x) && x in g.length && e in g.length
    ensures g.length[e] <= g.length[x]
    decreases g.length[x]
  {
    if x != e {
      UnderIsLonger(g, e, g.parent[x]);
    }
  }

  // An id that loses twice keeps one of the two aliases; the other group stays in two pieces,
  // because the id separates the two sides of the forest.
  lemma {:induction false} LosingTwiceSplits(g: Groups, size: map<Eid, nat>, win: map<Eid, Eid>,
                                             alias: map<Eid, Eid>, rank: Eid -> nat, e: Eid)
    requires g.Valid() && g.Winners(size, win) && g.GroupAlias(win, alias) && Ranked(alias, rank)
    requires e in g.parent && g.Loses(win, e, e) && g.Loses(win, g.parent[e], e)
    ensures Resolve(alias, win[e]) != Resolve(alias, win[g.parent[e]])
  {
    var c, w := win[e], win[g.parent[e]];
    assert g.InGroup(e, c) && g.InGroup(g.parent[e], w);
    if Under(g, e, w) {
      UnderIsLonger(g, e, g.parent[e]);
      assert false;
    }
    var below := iset x | x in g.length && Under(g, c, x);
    var beside := iset x | x in g.length && !Under(g, e, x);
    forall x <- alias | x in below ensures alias[x] in below {
      var p :| g.Loses(win, p, x) && alias[x] == win[p];
      assert g.InGroup(p, win[p]);
    }
    forall x <- alias | x in beside ensures alias[x] in beside {
      if Under(g, e, alias[x]) { NoEntry(g, win, alias, e, x); }
      var p :| g.Loses(win, p, x) && alias[x] == win[p];
      assert g.InGroup(p, win[p]);
    }
    ResolveKeeps(alias, rank, c, below);
    ResolveKeeps(alias, rank, w, beside);
    assert Under(g, e, c);
    UnderTransitive(g, e, c, Resolve(alias, c));
  }

  ghost predicate GroupsCollapse(g: Groups, alias: map<Eid, Eid>)
  {
    forall p, a, b :: g.InGroup(p, a) && g.InGroup(p, b) ==> Resolve(alias, a) == Resolve(alias, b)
  }

  ghost predicate NobodyLosesTwice(g: Groups, win: map<Eid, Eid>)
  {
    forall p, q, e :: g.Loses(win, p, e) && g.Loses(win, q, e) ==> p == q
  }

  // The source says a base form and all its variants collapse into one entity. That holds for
  // every group exactly when no id loses both in its own group and in its base form's.
  lemma GroupsCollapseIff(g: Groups, size: map<Eid, nat>, win: map<Eid, Eid>, alias: map<Eid, Eid>, rank: Eid -> nat)
    requires g.Valid() && g.Winners(size, win) && g.GroupAlias(win, alias) && Ranked(alias, rank)
    ensures GroupsCollapse(g, alias) <==> NobodyLosesTwice(g, win)
  {
    if NobodyLosesTwice(g, win) {
      forall p, a | g.InGroup(p, a) ensures Resolve(alias, a) == Resolve(alias, win[p]) {
        assert g.Loses(win, p, a) || a == win[p];
        ResolveRanked(alias, rank, a, {});
      }
    } else {
      var p, q, e :| g.Loses(win, p, e) && g.Loses(win, q, e) && p != q;
      assert g.Loses(win, e, e) && g.Loses(win, g.parent[e], e);
      LosingTwiceSplits(g, size, win, alias, rank, e);
      var lost := if alias[e] == win[e] then g.parent[e] else e;
      ResolveRanked(alias, rank, e, {});
      assert g.InGroup(lost, e) && g.InGroup(lost, win[lost]);
    }
  }

  // Whenever b is a variant of a, and c of b, and b is mentioned less than either: b loses in both its
  // groups, and whichever alias it keeps, one of them stays split.
  lemma MiddleFormSplits(s: Snapshot, win: map<Eid, Eid>, alias: map<Eid, Eid>, a: Eid, b: Eid, c: Eid)
    requires s.Valid() && s.AliasMap(win, alias) && {a, b, c} <= s.names.Keys
    requires s.Parent(b) == Some(a) && s.Parent(c) == Some(b)
    requires |s.Mentions(b)| < |s.Mentions(a)| && |s.Mentions(b)| < |s.Mentions(c)|
    ensures !GroupsCollapse(s.SuffixGroups(), alias)
  {
    var rank := AliasAcyclic(s, win, alias);
    var g := s.SuffixGroups();
    assert g.parent[b] == a && g.parent[c] == b && |s.Low(a)| < |s.Low(b)| < |s.Low(c)|;
    hide *;
    MiddleLoses(g, s.Sizes(), win, alias, a, b, c);
    GroupsCollapseIff(g, s.Sizes(), win, alias, rank);
  }

  lemma MiddleLoses(g: Groups, size: map<Eid, nat>, win: map<Eid, Eid>, alias: map<Eid, Eid>, a: Eid, b: Eid, c: Eid)
    requires g.Winners(size, win) && {a, b, c} <= size.Keys && a != b
    requires b in g.parent && g.parent[b] == a && c in g.parent && g.parent[c] == b
    requires size[b] < size[a] && size[b] < size[c]
    ensures !NobodyLosesTwice(g, win)
  {
    assert g.IsChild(a, b) && g.IsChild(b, c);
    assert g.InGroup(a, a) && g.InGroup(a, b) && g.InGroup(b, b) && g.InGroup(b, c);
    assert g.Loses(win, a, b) && g.Loses(win, b, b);
  }

  // Such names: the second is the first with a suffix, and the third the second with another.
  lemma ThreeForms(s: Snapshot, a: Eid, b: Eid, c: Eid)
    requires s.Valid() && s.names.Keys == {a, b, c} && !s.IsPerson(a) && !s.IsPerson(b) && !s.IsPerson(c)
    requires s.Low(a) == "bank" && s.Low(b) == "banken" && s.Low(c) == "bankenna"
    ensures s.Parent(b) == Some(a) && s.Parent(c) == Some(b)
  {
    var known := s.byLower.Keys;
    assert "bank" in known && "banken" in known;
    BankForms(known);
    assert s.Low(s.byLower["bank"]) == "bank" && s.Low(s.byLower["banken"]) == "banken";
    assert |"bank"| == 4 && |"banken"| == 6 && |"bankenna"| == 8;
  }

  lemma BankForms(known: set<string>)
    requires "bank" in known && "banken" in known
    ensures FirstBase("banken", known, 0) == Some("bank")
    ensures FirstBase("bankenna", known, 0) == Some("banken")
  {
    assert "banken"[2..] == "nken" && "banken"[4..] == "en" && "banken"[..4] == "bank";
    assert "nken"[3] != "arna"[3] && "nken"[3] != "erna"[3] && "nken"[3] != "orna"[3];
    assert "bankenna"[4..] == "enna" && "bankenna"[6..] == "na" && "bankenna"[..6] == "banken";
    assert "enna"[1] != "arna"[1] && "enna"[1] != "erna"[1] && "enna"[1] != "orna"[1];
    assert "na"[1] != "en"[1] && "na"[1] != "et"[1];
  }
}
