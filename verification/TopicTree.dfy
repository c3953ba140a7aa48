// The topic hierarchy: per-chunk layer labels folded into a treemap, broadest layer first.

module TopicTree {

  import opened Common

  datatype Label = Label(text: string)

  // One label for each layer.
  type Path = seq<Label>

  datatype Tree = Leaf(name: Label, value: nat) | Branch(name: Label, children: seq<Tree>)

  const NOISE_LABEL: Label := Label("(övrigt)")

  const ROOT: Label := Label("Alla ämnen")

  // Only a NULL falls into the noise bucket.
  function PathOf(row: seq<Option<Label>>): (path: Path)
    ensures |path| == |row|
  {
    seq(|row|, i requires 0 <= i < |row| => if row[i].None? then NOISE_LABEL else row[i].value)
  }

  // A chunk without a topic on a layer is under "(övrigt)" there, and any other under its own, empty or
  // not.
  lemma NullsAreNoise(row: seq<Option<Label>>, i: nat)
    requires i < |row|
    ensures row[i] == None ==> PathOf(row)[i] == Label("(övrigt)")
    ensures forall l :: row[i] == Some(l) ==> PathOf(row)[i] == l
  {
  }

  function PathsOf(rows: seq<seq<Option<Label>>>): seq<Path>
  {
    seq(|rows|, i requires 0 <= i < |rows| => PathOf(rows[i]))
  }

  // ---- trees ----

  // _node_size
  function NodeSize(t: Tree): nat
  {
    match t
    case Leaf(_, value) => value
    case Branch(_, children) => SizeSum(children)
  }

  function SizeSum(children: seq<Tree>): nat
  {
    if children == [] then 0 else NodeSize(children[0]) + SizeSum(children[1..])
  }

  // The leaf value at the end of a path, zero when no leaf is there.
  function ValueAt(t: Tree, path: Path): nat
    decreases t, 0
  {
    match t
    case Leaf(_, value) => if path == [] then value else 0
    case Branch(_, children) => if path == [] then 0 else ValueAmong(children, path)
  }

  function ValueAmong(children: seq<Tree>, path: Path): nat
    requires path != []
    decreases children, 1
  {
    if children == [] then 0
    else if children[0].name == path[0] then ValueAt(children[0], path[1..])
    else ValueAmong(children[1..], path)
  }

  // Every leaf lies n layers down.
  predicate LeavesAt(t: Tree, n: nat)
    decreases t
  {
    match t
    case Leaf(_, _) => n == 0
    case Branch(_, children) => n > 0 && forall i :: 0 <= i < |children| ==> LeavesAt(children[i], n - 1)
  }

  predicate NamesDiffer(children: seq<Tree>)
  {
    forall i, j :: 0 <= i < j < |children| ==> children[i].name != children[j].name
  }

  predicate LargestFirst(children: seq<Tree>)
  {
    forall i, j :: 0 <= i < j < |children| ==> NodeSize(children[i]) >= NodeSize(children[j])
  }

  predicate Named(children: seq<Tree>, name: Label)
  {
    exists i :: 0 <= i < |children| && children[i].name == name
  }

  // Siblings have distinct names and come largest first, at every level.
  predicate Ordered(t: Tree)
    decreases t
  {
    t.Branch? ==>
      && NamesDiffer(t.children) && LargestFirst(t.children)
      && forall i :: 0 <= i < |t.children| ==> Ordered(t.children[i])
  }

  // ---- what a tree stands for ----

  // The rest of the paths under one label.
  function Under(paths: seq<Path>, head: Label): seq<Path>
    requires forall i :: 0 <= i < |paths| ==> paths[i] != []
  {
    if paths == [] then []
    else
      var n := |paths| - 1;
      Under(paths[..n], head) + if paths[n][0] == head then [paths[n][1..]] else []
  }

  predicate AllOf(paths: seq<Path>, n: nat)
  {
    forall i :: 0 <= i < |paths| ==> |paths[i]| == n
  }

  lemma {:induction false} UnderIsShorter(paths: seq<Path>, head: Label, n: nat)
    requires AllOf(paths, n) && 0 < n
    ensures AllOf(Under(paths, head), n - 1)
    decreases |paths|
  {
    if paths != [] {
      UnderIsShorter(paths[..|paths| - 1], head, n);
    }
  }

  // The tree of these paths: one child for each first label there is, largest first.
  ghost predicate TreeOf(t: Tree, paths: seq<Path>, n: nat)
    requires AllOf(paths, n)
    decreases n
  {
    if paths == [] || n == 0 then t.Leaf? && t.value == |paths|
    else
      && t.Branch? && NamesDiffer(t.children) && LargestFirst(t.children)
      && (forall k :: 0 <= k < |paths| ==> Named(t.children, paths[k][0]))
      && (forall i :: 0 <= i < |t.children| ==> ChildOf(t.children[i], paths, n))
  }

  ghost predicate ChildOf(t: Tree, paths: seq<Path>, n: nat)
    requires AllOf(paths, n) && 0 < n
    decreases n, 0
  {
    UnderIsShorter(paths, t.name, n);
    Under(paths, t.name) != [] && TreeOf(t, Under(paths, t.name), n - 1)
  }

  // ---- counting ----

  lemma {:induction false} UnderCounts(paths: seq<Path>, head: Label, rest: Path)
    requires forall i :: 0 <= i < |paths| ==> paths[i] != []
    ensures multiset(Under(paths, head))[rest] == multiset(paths)[[head] + rest]
    decreases |paths|
  {
    if paths != [] {
      var n := |paths| - 1;
      UnderCounts(paths[..n], head, rest);
      assert paths == paths[..n] + [paths[n]];
      assert paths[n] == [paths[n][0]] + paths[n][1..];
      assert ([head] + rest)[1..] == rest;
    }
  }

  // The lengths of the groups of the labels listed.
  function GroupSum(names: seq<Label>, paths: seq<Path>): nat
    requires forall i :: 0 <= i < |paths| ==> paths[i] != []
  {
    if names == [] then 0 else |Under(paths, names[0])| + GroupSum(names[1..], paths)
  }

  // One more path adds to one group only.
  lemma {:induction false} OneGroupGrows(names: seq<Label>, paths: seq<Path>)
    requires paths != [] && forall i :: 0 <= i < |paths| ==> paths[i] != []
    requires forall i, j :: 0 <= i < j < |names| ==> names[i] != names[j]
    ensures GroupSum(names, paths)
            == GroupSum(names, paths[..|paths| - 1]) + if paths[|paths| - 1][0] in names then 1 else 0
    decreases |names|
  {
    if names != [] {
      OneGroupGrows(names[1..], paths);
      assert names == [names[0]] + names[1..];
      assert names[0] !in names[1..];
    }
  }

  lemma {:induction false} GroupsAddUp(names: seq<Label>, paths: seq<Path>)
    requires forall i :: 0 <= i < |paths| ==> paths[i] != [] && paths[i][0] in names
    requires forall i, j :: 0 <= i < j < |names| ==> names[i] != names[j]
    ensures GroupSum(names, paths) == |paths|
    decreases |paths|
  {
    if paths == [] {
      NoGroups(names);
    } else {
      OneGroupGrows(names, paths);
      GroupsAddUp(names, paths[..|paths| - 1]);
    }
  }

  lemma {:induction false} NoGroups(names: seq<Label>)
    ensures GroupSum(names, []) == 0
  {
    if names != [] {
      NoGroups(names[1..]);
    }
  }

  function NamesOf(children: seq<Tree>): seq<Label>
  {
    seq(|children|, i requires 0 <= i < |children| => children[i].name)
  }

  // ---- what every tree keeps ----

  // No chunk is lost or counted twice.
  lemma {:induction false} SizeIsRowCount(t: Tree, paths: seq<Path>, n: nat)
    requires AllOf(paths, n) && TreeOf(t, paths, n)
    ensures NodeSize(t) == |paths|
    decreases n, 1
  {
    if paths != [] && n != 0 {
      var names := NamesOf(t.children);
      forall k | 0 <= k < |paths| ensures paths[k][0] in names {
        var i :| 0 <= i < |t.children| && t.children[i].name == paths[k][0];
        assert names[i] == paths[k][0];
      }
      ChildSizes(t.children, paths, n);
      GroupsAddUp(names, paths);
    }
  }

  lemma {:induction false} ChildSizes(children: seq<Tree>, paths: seq<Path>, n: nat)
    requires AllOf(paths, n) && 0 < n
    requires forall i :: 0 <= i < |children| ==> ChildOf(children[i], paths, n)
    ensures SizeSum(children) == GroupSum(NamesOf(children), paths)
    decreases n, 0, |children|
  {
    if children != [] {
      UnderIsShorter(paths, children[0].name, n);
      assert ChildOf(children[0], paths, n);
      SizeIsRowCount(children[0], Under(paths, children[0].name), n - 1);
      ChildSizes(children[1..], paths, n);
      assert NamesOf(children)[1..] == NamesOf(children[1..]);
    }
  }

  // Flattening the tree gives back the path counts, for paths that were there and any other.
  lemma {:induction false} FlattenRecoversCounts(t: Tree, paths: seq<Path>, n: nat, path: Path)
    requires AllOf(paths, n) && TreeOf(t, paths, n) && |path| == n
    ensures ValueAt(t, path) == multiset(paths)[path]
    decreases n
  {
    if paths == [] {
    } else if n == 0 {
      assert path == [];
      AllEmpty(paths);
    } else {
      var head, rest := path[0], path[1..];
      assert path == [head] + rest;
      UnderCounts(paths, head, rest);
      if Named(t.children, head) {
        var i :| 0 <= i < |t.children| && t.children[i].name == head;
        UnderIsShorter(paths, head, n);
        assert ChildOf(t.children[i], paths, n);
        FlattenRecoversCounts(t.children[i], Under(paths, head), n - 1, rest);
        FoundAmong(t.children, path, i);
      } else {
        NotAmong(t.children, path);
      }
    }
  }

  lemma {:induction false} AllEmpty(paths: seq<Path>)
    requires AllOf(paths, 0)
    ensures multiset(paths)[[]] == |paths|
    decreases |paths|
  {
    if paths != [] {
      var n := |paths| - 1;
      AllEmpty(paths[..n]);
      assert paths == paths[..n] + [paths[n]];
    }
  }

  lemma {:induction false} FoundAmong(children: seq<Tree>, path: Path, i: nat)
    requires i < |children| && path != [] && NamesDiffer(children) && children[i].name == path[0]
    ensures ValueAmong(children, path) == ValueAt(children[i], path[1..])
    decreases |children|
  {
    if i != 0 {
      assert children[0].name != children[i].name;
      FoundAmong(children[1..], path, i - 1);
    }
  }

  lemma {:induction false} NotAmong(children: seq<Tree>, path: Path)
    requires path != [] && !Named(children, path[0])
    ensures ValueAmong(children, path) == 0
    decreases |children|
  {
    if children != [] {
      assert forall i :: 0 <= i < |children| - 1 ==> children[1..][i] == children[i + 1];
      assert !Named(children[1..], path[0]);
      NotAmong(children[1..], path);
    }
  }

  lemma {:induction false} ShapeOfTree(t: Tree, paths: seq<Path>, n: nat)
    requires AllOf(paths, n) && TreeOf(t, paths, n)
    ensures Ordered(t)
    ensures paths != [] ==> LeavesAt(t, n)
    decreases n
  {
    if paths != [] && n != 0 {
      forall i | 0 <= i < |t.children| ensures Ordered(t.children[i]) && LeavesAt(t.children[i], n - 1) {
        UnderIsShorter(paths, t.children[i].name, n);
        assert ChildOf(t.children[i], paths, n);
        ShapeOfTree(t.children[i], Under(paths, t.children[i].name), n - 1);
      }
    }
  }

  // ---- kids.sort(key=_node_size, reverse=True) ----

  // Behind everything at least as large: the sort is stable.
  function Insert(sorted: seq<Tree>, t: Tree): seq<Tree>
  {
    if sorted == [] then [t]
    else
      var n := |sorted| - 1;
      if NodeSize(sorted[n]) >= NodeSize(t) then sorted + [t] else Insert(sorted[..n], t) + [sorted[n]]
  }

  function BySize(kids: seq<Tree>): seq<Tree>
  {
    if kids == [] then [] else Insert(BySize(kids[..|kids| - 1]), kids[|kids| - 1])
  }

  lemma {:induction false} InsertAdds(sorted: seq<Tree>, t: Tree)
    ensures multiset(Insert(sorted, t)) == multiset(sorted) + multiset{t}
    decreases |sorted|
  {
    if sorted != [] {
      var n := |sorted| - 1;
      assert sorted == sorted[..n] + [sorted[n]];
      InsertAdds(sorted[..n], t);
    }
  }

  predicate AllAtLeast(sorted: seq<Tree>, size: nat)
  {
    forall i :: 0 <= i < |sorted| ==> NodeSize(sorted[i]) >= size
  }

  lemma {:induction false} InsertAtLeast(sorted: seq<Tree>, t: Tree, size: nat)
    requires AllAtLeast(sorted, size) && NodeSize(t) >= size
    ensures AllAtLeast(Insert(sorted, t), size)
    decreases |sorted|
  {
    hide NodeSize;
    if sorted != [] {
      InsertAtLeast(sorted[..|sorted| - 1], t, size);
    }
  }

  lemma {:induction false} InsertSorts(sorted: seq<Tree>, t: Tree)
    requires LargestFirst(sorted)
    ensures LargestFirst(Insert(sorted, t))
    decreases |sorted|
  {
    hide NodeSize;
    if sorted != [] {
      var n := |sorted| - 1;
      InsertSorts(sorted[..n], t);
      if NodeSize(sorted[n]) < NodeSize(t) {
        InsertAtLeast(sorted[..n], t, NodeSize(sorted[n]));
      }
    }
  }

  lemma {:induction false} BySizeSorts(kids: seq<Tree>)
    ensures LargestFirst(BySize(kids)) && multiset(BySize(kids)) == multiset(kids)
    decreases |kids|
  {
    hide Insert, NodeSize;
    if kids != [] {
      var n := |kids| - 1;
      BySizeSorts(kids[..n]);
      InsertSorts(BySize(kids[..n]), kids[n]);
      InsertAdds(BySize(kids[..n]), kids[n]);
      assert kids == kids[..n] + [kids[n]];
    }
  }

  // Two entries with one name would be two of that name before the sort.
  lemma {:induction false} NamesSurvive(kids: seq<Tree>, others: seq<Tree>)
    requires NamesDiffer(kids) && multiset(kids) == multiset(others)
    ensures NamesDiffer(others)
  {
    hide NodeSize;
    forall i, j | 0 <= i < j < |others| ensures others[i].name != others[j].name {
      if others[i] == others[j] {
        TwoOf(others, i, j);
        AtMostOnce(kids, others[i]);
        assert false;
      } else {
        assert others[i] in multiset(others) && others[j] in multiset(others);
        assert others[i] in kids && others[j] in kids;
      }
    }
  }

  lemma TwoOf(ts: seq<Tree>, i: nat, j: nat)
    requires i < j < |ts| && ts[i] == ts[j]
    ensures multiset(ts)[ts[i]] >= 2
  {
    assert ts == ts[..j] + ts[j..];
    assert ts[i] in ts[..j] && ts[i] in ts[j..];
  }

  lemma {:induction false} AtMostOnce(ts: seq<Tree>, t: Tree)
    requires NamesDiffer(ts)
    ensures multiset(ts)[t] <= 1
    decreases |ts|
  {
    if ts != [] {
      var n := |ts| - 1;
      AtMostOnce(ts[..n], t);
      assert ts == ts[..n] + [ts[n]];
      if t in ts[..n] {
        var i :| 0 <= i < n && ts[i] == t;
        assert ts[i].name != ts[n].name;
      }
    }
  }

  // ---- building ----

  type Counter = multiset<Path>

  // groups[head], a missing one being empty
  function Group(groups: map<Label, Counter>, head: Label): Counter
  {
    if head in groups then groups[head] else multiset{}
  }

  // Every path counted, except those still to do.
  ghost predicate Split(groups: map<Label, Counter>, counts: Counter, todo: Counter)
  {
    && (forall head, rest :: Group(groups, head)[rest] == if [head] + rest in todo then 0 else counts[[head] + rest])
    && (forall head :: head in groups ==> exists rest :: rest in groups[head])
  }

  // groups[path[0]][path[1:]] += count
  method AddPath(groups: map<Label, Counter>, ghost counts: Counter, ghost todo: Counter, path: Path, count: nat)
    returns (after: map<Label, Counter>)
    requires path != [] && path in todo && count == counts[path] && count > 0
    requires Split(groups, counts, todo)
    ensures Split(after, counts, todo[path := 0])
    ensures path[0] in after && forall head :: head in groups ==> head in after
  {
    var head, rest := path[0], path[1..];
    assert [head] + rest == path;
    var group := Group(groups, head);
    after := groups[head := group[rest := group[rest] + count]];
    assert rest in after[head];
    forall h, r ensures Group(after, h)[r] == if [h] + r in todo[path := 0] then 0 else counts[[h] + r] {
      assert ([h] + r)[0] == h && ([h] + r)[1..] == r;
      assert Group(groups, h)[r] == if [h] + r in todo then 0 else counts[[h] + r];
    }
    forall h | h in after ensures exists r :: r in after[h] {
      if h != head {
        assert h in groups;
      }
    }
  }

  // for path, count in counts.items(): in whatever order
  method SplitByHead(counts: Counter) returns (groups: map<Label, Counter>)
    requires forall path :: path in counts ==> path != []
    ensures Split(groups, counts, multiset{})
    ensures forall path :: path in counts ==> path[0] in groups
  {
    groups := map[];
    var todo := counts;
    while todo != multiset{}
      invariant todo <= counts
      invariant Split(groups, counts, todo)
      invariant forall path :: path in counts && path !in todo ==> path[0] in groups
      invariant forall path :: path in todo ==> todo[path] == counts[path]
      decreases todo
    {
      var path :| path in todo;
      groups := AddPath(groups, counts, todo, path, todo[path]);
      todo := todo[path := 0];
    }
  }

  lemma GroupIsUnder(groups: map<Label, Counter>, counts: Counter, paths: seq<Path>, head: Label)
    requires forall i :: 0 <= i < |paths| ==> paths[i] != []
    requires Split(groups, counts, multiset{}) && multiset(paths) == counts && head in groups
    ensures groups[head] == multiset(Under(paths, head)) && Under(paths, head) != []
  {
    forall rest ensures groups[head][rest] == multiset(Under(paths, head))[rest] {
      UnderCounts(paths, head, rest);
      assert Group(groups, head)[rest] == counts[[head] + rest];
    }
  }

  // _subtree. The paths are a listing of the counter, all n labels long.
  method Subtree(name: Label, counts: Counter, ghost paths: seq<Path>, ghost n: nat) returns (t: Tree)
    requires multiset(paths) == counts && AllOf(paths, n)
    ensures t.name == name && TreeOf(t, paths, n)
    decreases n, 1
  {
    hide Split, Built, Under, NodeSize, ChildOf;
    if forall path :: path in counts ==> |path| == 0 {
      assert paths != [] ==> paths[0] in counts;
      return Leaf(name, |counts|);
    }
    var path :| path in counts && |path| != 0;
    assert n != 0 && paths != [];
    var groups := SplitByHead(counts);
    var kids := Kids(groups, counts, paths, n);
    t := Branch(name, BySize(kids));
    SortedTree(kids, groups.Keys, paths, n, t);
  }

  // [_subtree(head, group) for head, group in groups.items()]
  method Kids(groups: map<Label, Counter>, ghost counts: Counter, ghost paths: seq<Path>, ghost n: nat)
    returns (kids: seq<Tree>)
    requires multiset(paths) == counts && AllOf(paths, n) && 0 < n
    requires Split(groups, counts, multiset{})
    ensures Built(kids, groups.Keys, paths, n)
    decreases n, 0
  {
    hide Split, Built, Under, NodeSize, ChildOf, TreeOf;
    kids := [];
    var todo := groups.Keys;
    ghost var done: set<Label> := {};
    NothingBuilt(paths, n);
    while todo != {}
      invariant done == groups.Keys - todo && todo <= groups.Keys
      invariant Built(kids, done, paths, n)
      decreases todo
    {
      var head :| head in todo;
      GroupIsUnder(groups, counts, paths, head);
      UnderIsShorter(paths, head, n);
      var kid := Subtree(head, groups[head], Under(paths, head), n - 1);
      ChildFrom(kid, paths, n);
      BuiltOneMore(kids, done, paths, n, kid);
      kids := kids + [kid];
      todo, done := todo - {head}, done + {head};
    }
    assert done == groups.Keys;
  }

  lemma ChildFrom(kid: Tree, paths: seq<Path>, n: nat)
    requires AllOf(paths, n) && 0 < n && Under(paths, kid.name) != []
    requires AllOf(Under(paths, kid.name), n - 1) && TreeOf(kid, Under(paths, kid.name), n - 1)
    ensures ChildOf(kid, paths, n)
  {
    hide Under;
  }

  lemma NothingBuilt(paths: seq<Path>, n: nat)
    requires AllOf(paths, n) && 0 < n
    ensures Built([], {}, paths, n)
  {
  }

  // One child for each label done.
  ghost predicate Built(kids: seq<Tree>, done: set<Label>, paths: seq<Path>, n: nat)
    requires AllOf(paths, n) && 0 < n
  {
    && NamesDiffer(kids)
    && (forall i :: 0 <= i < |kids| ==> kids[i].name in done && ChildOf(kids[i], paths, n))
    && (forall head :: head in done ==> Named(kids, head))
  }

  lemma BuiltOneMore(kids: seq<Tree>, done: set<Label>, paths: seq<Path>, n: nat, kid: Tree)
    requires AllOf(paths, n) && 0 < n && Built(kids, done, paths, n)
    requires kid.name !in done && ChildOf(kid, paths, n)
    ensures Built(kids + [kid], done + {kid.name}, paths, n)
  {
    hide ChildOf;
    var more := kids + [kid];
    forall head | head in done + {kid.name} ensures Named(more, head) {
      if head in done {
        assert Named(kids, head);
        var i :| 0 <= i < |kids| && kids[i].name == head;
        assert more[i].name == head;
      } else {
        assert more[|kids|].name == head;
      }
    }
  }

  lemma SortedTree(kids: seq<Tree>, heads: set<Label>, paths: seq<Path>, n: nat, t: Tree)
    requires AllOf(paths, n) && 0 < n && paths != [] && Built(kids, heads, paths, n)
    requires forall k :: 0 <= k < |paths| ==> paths[k][0] in heads
    requires t.Branch? && t.children == BySize(kids)
    ensures TreeOf(t, paths, n)
  {
    hide ChildOf, BySize, NodeSize;
    BySizeSorts(kids);
    NamesSurvive(kids, t.children);
    forall k | 0 <= k < |paths| ensures Named(t.children, paths[k][0]) {
      assert Named(kids, paths[k][0]);
      var i :| 0 <= i < |kids| && kids[i].name == paths[k][0];
      assert kids[i] in multiset(kids) && kids[i] in multiset(t.children);
    }
    forall i | 0 <= i < |t.children| ensures ChildOf(t.children[i], paths, n) {
      assert t.children[i] in multiset(t.children) && t.children[i] in multiset(kids);
    }
  }

  // _nest: every chunk is one path from the root.
  method Nest(rows: seq<seq<Option<Label>>>, ghost layers: nat) returns (t: Tree)
    requires forall i :: 0 <= i < |rows| ==> |rows[i]| == layers
    ensures t.name == ROOT && TreeOf(t, PathsOf(rows), layers)
  {
    var counts: Counter := multiset{};
    for i := 0 to |rows|
      invariant counts == multiset(PathsOf(rows[..i]))
    {
      counts := counts + multiset{PathOf(rows[i])};
      assert PathsOf(rows[..i + 1]) == PathsOf(rows[..i]) + [PathOf(rows[i])];
    }
    assert rows[..|rows|] == rows;
    t := Subtree(ROOT, counts, PathsOf(rows), layers);
  }
}
