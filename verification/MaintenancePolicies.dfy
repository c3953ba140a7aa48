// Which maintenance policy governs a dataset: an exact table record, else the deepest matching
// namespace record, else the one project record that claims the bucket.

module MaintenancePolicies {

  import opened Common
  import opened ObjectIds
  import opened Segments

  datatype Kind = Table | Namespace | Project | Other

  datatype Record = Record(kind: Kind, id: Option<string>, path: string, buckets: Option<seq<string>>, settings: int)

  // The dataset asked about: its bucket-qualified path, its bucket, and its logical parents.
  datatype Query = Query(rel: string, bucket: string, parents: set<string>)

  // ---- text ----

  // s.split("/", 1)[0]
  function FirstSegment(s: string): string
  {
    if s == [] || s[0] == '/' then [] else [s[0]] + FirstSegment(s[1..])
  }

  function RelOf(uri: string): string
  {
    RStrip(if "s3://" <= uri then uri[5..] else uri, '/')
  }

  function QueryFor(uri: string, logicalId: Option<string>, delimiter: char): Query
  {
    Query(RelOf(uri), FirstSegment(RelOf(uri)), if logicalId.None? then {} else Parents(logicalId.value, delimiter))
  }

  function PathOf(r: Record): string
  {
    RStrip(r.path, '/')
  }

  lemma {:induction false} SegmentOfLonger(path: string, tail: string)
    ensures FirstSegment(path + (['/'] + tail)) == FirstSegment(path)
    decreases |path|
  {
    var whole := path + (['/'] + tail);
    if path != [] && path[0] != '/' {
      assert whole[1..] == path[1..] + (['/'] + tail);
      SegmentOfLonger(path[1..], tail);
    }
  }

  // ---- matches ----

  predicate IsTable(r: Record, q: Query)
  {
    r.kind == Table && PathOf(r) != [] && q.rel == PathOf(r)
  }

  predicate ByPath(r: Record, q: Query)
  {
    PathOf(r) != [] && PathOf(r) + ['/'] <= q.rel
  }

  predicate ById(r: Record, q: Query)
  {
    r.id.Some? && r.id.value in q.parents
  }

  predicate IsNamespace(r: Record, q: Query)
  {
    r.kind == Namespace && (ByPath(r, q) || ById(r, q))
  }

  predicate IsProject(r: Record, q: Query)
  {
    r.kind == Project && r.buckets.Some? && q.bucket in r.buckets.value
  }

  function Depth(r: Record): nat
  {
    |PathOf(r)|
  }

  // ---- the answer ----

  function FirstTable(records: seq<Record>, q: Query): Option<Record>
  {
    if records == [] then None
    else if IsTable(records[0], q) then Some(records[0])
    else FirstTable(records[1..], q)
  }

  // The earliest of the deepest.
  function Deepest(records: seq<Record>, q: Query): Option<Record>
  {
    if records == [] then None
    else
      var n := |records| - 1;
      var best := Deepest(records[..n], q);
      if IsNamespace(records[n], q) && (best.None? || Depth(records[n]) > Depth(best.value)) then
        Some(records[n])
      else best
  }

  function Projects(records: seq<Record>, q: Query): seq<Record>
  {
    if records == [] then []
    else
      var n := |records| - 1;
      Projects(records[..n], q) + if IsProject(records[n], q) then [records[n]] else []
  }

  function Answer(records: seq<Record>, q: Query): Option<Record>
  {
    if FirstTable(records, q).Some? then FirstTable(records, q)
    else if Deepest(records, q).Some? then Deepest(records, q)
    else if |Projects(records, q)| == 1 then Some(Projects(records, q)[0])
    else None
  }

  // resolve_policy
  method ResolvePolicy(records: seq<Record>, uri: string, logicalId: Option<string>, delimiter: char)
    returns (r: Option<Record>)
    ensures r == Answer(records, QueryFor(uri, logicalId, delimiter))
  {
    hide IsTable, IsNamespace, IsProject, Depth, QueryFor;
    var q := QueryFor(uri, logicalId, delimiter);
    var best: Option<Record> := None;
    var hits: seq<Record> := [];
    for i := 0 to |records|
      invariant FirstTable(records, q) == FirstTable(records[i..], q)
      invariant best == Deepest(records[..i], q)
      invariant hits == Projects(records[..i], q)
    {
      var record := records[i];
      assert records[i..][1..] == records[i + 1..] && records[..i + 1][..i] == records[..i];
      if IsTable(record, q) {
        return Some(record);
      }
      if IsNamespace(record, q) && (best.None? || Depth(record) > Depth(best.value)) {
        best := Some(record);
      }
      if IsProject(record, q) {
        hits := hits + [record];
      }
    }
    assert records[..|records|] == records && records[|records|..] == [];
    if best.Some? {
      return best;
    }
    r := if |hits| == 1 then Some(hits[0]) else None;
  }

  // ---- what the answer is ----

  lemma {:induction false} FirstTableIs(records: seq<Record>, q: Query)
    ensures FirstTable(records, q).Some? ==>
      FirstTable(records, q).value in records && IsTable(FirstTable(records, q).value, q)
    ensures FirstTable(records, q).None? ==> forall r <- records :: !IsTable(r, q)
    decreases |records|
  {
    hide IsTable;
    if records != [] {
      FirstTableIs(records[1..], q);
      assert records == [records[0]] + records[1..];
    }
  }

  lemma {:induction false} DeepestIs(records: seq<Record>, q: Query)
    ensures Deepest(records, q).Some? ==> IsDeepest(Deepest(records, q).value, records, q)
    ensures Deepest(records, q).None? ==> forall r <- records :: !IsNamespace(r, q)
    decreases |records|
  {
    hide IsNamespace, Depth;
    if records != [] {
      var n := |records| - 1;
      DeepestIs(records[..n], q);
      assert records == records[..n] + [records[n]];
    }
  }

  // The namespace record that governs has the longest path of those that match, trailing slashes aside.
  lemma LongestPathGoverns(records: seq<Record>, q: Query)
    requires (forall r <- records :: !IsTable(r, q)) && exists r <- records :: IsNamespace(r, q)
    ensures Answer(records, q).Some?
    ensures var best := Answer(records, q).value;
      && best in records && IsNamespace(best, q)
      && forall s <- records :: IsNamespace(s, q) ==> |RStrip(s.path, '/')| <= |RStrip(best.path, '/')|
  {
    hide IsTable, IsNamespace, FirstTable, Deepest, Projects, RStrip;
    FirstTableIs(records, q);
    DeepestIs(records, q);
  }

  // No matching namespace record is deeper.
  predicate IsDeepest(r: Record, records: seq<Record>, q: Query)
  {
    r in records && IsNamespace(r, q) && forall s <- records :: IsNamespace(s, q) ==> Depth(s) <= Depth(r)
  }

  lemma {:induction false} ProjectsCount(records: seq<Record>, q: Query, r: Record)
    ensures multiset(Projects(records, q))[r] == if IsProject(r, q) then multiset(records)[r] else 0
    decreases |records|
  {
    hide IsProject;
    if records != [] {
      var n := |records| - 1;
      ProjectsCount(records[..n], q, r);
      assert records == records[..n] + [records[n]];
    }
  }

  // ---- does the order of the records matter? ----

  ghost predicate OrderFree(records: seq<Record>, q: Query)
  {
    forall others :: multiset(others) == multiset(records) ==> Answer(others, q) == Answer(records, q)
  }

  // No two different records tie in the tier that decides.
  ghost predicate Unambiguous(records: seq<Record>, q: Query)
  {
    && (forall r <- records, s <- records :: IsTable(r, q) && IsTable(s, q) ==> r == s)
    && ((forall r <- records :: !IsTable(r, q)) ==>
        forall r <- records, s <- records :: IsDeepest(r, records, q) && IsDeepest(s, records, q) ==> r == s)
  }

  lemma SameMembers(xs: seq<Record>, ys: seq<Record>)
    requires multiset(xs) == multiset(ys)
    ensures forall r :: r in xs <==> r in ys
    ensures |xs| == |ys|
  {
    forall r ensures r in xs <==> r in ys {
      assert r in xs <==> r in multiset(xs);
    }
    assert |xs| == |multiset(xs)| == |multiset(ys)| == |ys|;
  }

  lemma SameProjects(records: seq<Record>, others: seq<Record>, q: Query)
    requires multiset(others) == multiset(records)
    ensures |Projects(others, q)| == |Projects(records, q)|
    ensures |Projects(records, q)| == 1 ==> Projects(others, q)[0] == Projects(records, q)[0]
  {
    hide IsProject, Projects;
    var x, y := Projects(others, q), Projects(records, q);
    forall r ensures multiset(x)[r] == multiset(y)[r] {
      ProjectsCount(others, q, r);
      ProjectsCount(records, q, r);
    }
    assert multiset(x) == multiset(y);
    SameMembers(x, y);
    if |y| == 1 {
      assert x[0] in x;
    }
  }

  lemma UnambiguousIsOrderFree(records: seq<Record>, others: seq<Record>, q: Query)
    requires Unambiguous(records, q) && multiset(others) == multiset(records)
    ensures Answer(others, q) == Answer(records, q)
  {
    hide IsTable, IsNamespace, IsProject, Depth, FirstTable, Deepest, Projects;
    SameMembers(others, records);
    FirstTableIs(others, q);
    FirstTableIs(records, q);
    DeepestIs(others, q);
    DeepestIs(records, q);
    SameProjects(records, others, q);
  }

  // The same records with r first.
  lemma ToFront(records: seq<Record>, r: Record) returns (others: seq<Record>)
    requires r in records
    ensures multiset(others) == multiset(records) && others != [] && others[0] == r
  {
    var i: nat :| i < |records| && records[i] == r;
    others := [r] + (records[..i] + records[i + 1..]);
    assert records == records[..i] + ([r] + records[i + 1..]);
  }

  lemma {:induction false} FirstWins(records: seq<Record>, q: Query)
    requires records != [] && IsDeepest(records[0], records, q)
    ensures Deepest(records, q) == Some(records[0])
    decreases |records|
  {
    hide IsNamespace, Depth;
    var n := |records| - 1;
    assert records == records[..n] + [records[n]];
    if n > 0 {
      FirstWins(records[..n], q);
    } else {
      assert Deepest(records[..0], q) == None;
    }
  }

  lemma TableFirst(records: seq<Record>, q: Query, r: Record)
    requires OrderFree(records, q) && r in records && IsTable(r, q)
    ensures Answer(records, q) == Some(r)
  {
    hide IsTable;
    var others := ToFront(records, r);
    assert FirstTable(others, q) == Some(r);
    assert Answer(others, q) == Answer(records, q);
  }

  lemma DeepestFirst(records: seq<Record>, q: Query, r: Record)
    requires OrderFree(records, q) && IsDeepest(r, records, q)
    requires forall s <- records :: !IsTable(s, q)
    ensures Answer(records, q) == Some(r)
  {
    hide IsTable, IsNamespace, Depth, FirstTable, Deepest;
    var others := ToFront(records, r);
    SameMembers(others, records);
    FirstTableIs(others, q);
    FirstWins(others, q);
    assert Answer(others, q) == Answer(records, q);
  }

  // The listing order decides nothing exactly when no two different records tie in the tier that
  // decides.
  lemma OrderFreeIff(records: seq<Record>, q: Query)
    ensures OrderFree(records, q) <==> Unambiguous(records, q)
  {
    hide IsTable, IsDeepest, Answer;
    if Unambiguous(records, q) {
      forall others | multiset(others) == multiset(records) ensures Answer(others, q) == Answer(records, q) {
        UnambiguousIsOrderFree(records, others, q);
      }
    }
    if OrderFree(records, q) {
      forall r, s | r in records && s in records && IsTable(r, q) && IsTable(s, q) ensures r == s {
        TableFirst(records, q, r);
        TableFirst(records, q, s);
      }
      if forall r <- records :: !IsTable(r, q) {
        forall r, s | r in records && s in records && IsDeepest(r, records, q) && IsDeepest(s, records, q)
          ensures r == s
        {
          DeepestFirst(records, q, r);
          DeepestFirst(records, q, s);
        }
      }
    }
  }

  // Table beats namespace beats project, and a project record governs only when it is the one claim
  // on the bucket.
  lemma Tiers(records: seq<Record>, q: Query)
    ensures (exists r <- records :: IsTable(r, q)) ==> Answer(records, q).Some? && IsTable(Answer(records, q).value, q)
    ensures (forall r <- records :: !IsTable(r, q)) && (exists r <- records :: IsNamespace(r, q)) ==>
      Answer(records, q).Some? && IsDeepest(Answer(records, q).value, records, q)
    ensures (forall r <- records :: !IsTable(r, q) && !IsNamespace(r, q)) ==>
      match Answer(records, q)
      case None => |Projects(records, q)| != 1
      case Some(a) => IsProject(a, q) && multiset(records)[a] == 1 && forall r <- records :: IsProject(r, q) ==> r == a
  {
    hide IsTable, IsNamespace, Depth, FirstTable, Deepest, Projects, IsProject;
    FirstTableIs(records, q);
    DeepestIs(records, q);
    if |Projects(records, q)| == 1 {
      OneProject(records, q);
    }
  }

  lemma OneProject(records: seq<Record>, q: Query)
    requires |Projects(records, q)| == 1
    ensures var a := Projects(records, q)[0];
      IsProject(a, q) && multiset(records)[a] == 1 && forall r <- records :: IsProject(r, q) ==> r == a
  {
    hide IsProject, Projects;
    var ps := Projects(records, q);
    assert ps == [ps[0]];
    ProjectsCount(records, q, ps[0]);
    forall r | r in records && IsProject(r, q) ensures r == ps[0] {
      ProjectsCount(records, q, r);
      assert r in multiset(records);
    }
  }

  // ---- buckets ----

  // A record that matches by its path or by its bucket list stays in the dataset's own bucket.
  lemma MatchesStayInTheBucket(uri: string, logicalId: Option<string>, delimiter: char, r: Record)
    ensures var q := QueryFor(uri, logicalId, delimiter);
      && (IsTable(r, q) || ByPath(r, q) ==> FirstSegment(PathOf(r)) == q.bucket)
      && (IsProject(r, q) ==> q.bucket in r.buckets.value)
  {
    var q := QueryFor(uri, logicalId, delimiter);
    hide QueryFor, PathOf, FirstSegment, RelOf, Parents;
    assert q.bucket == FirstSegment(q.rel) by { QueryBucket(uri, logicalId, delimiter); }
    if ByPath(r, q) {
      var tail := q.rel[|PathOf(r)| + 1..];
      assert q.rel == PathOf(r) + (['/'] + tail);
      SegmentOfLonger(PathOf(r), tail);
    }
  }

  lemma QueryBucket(uri: string, logicalId: Option<string>, delimiter: char)
    ensures QueryFor(uri, logicalId, delimiter).bucket == FirstSegment(QueryFor(uri, logicalId, delimiter).rel)
  {
  }

  // A record that matches by its logical id need not: whatever bucket its path names, it governs
  // every dataset below that id, in any bucket.
  lemma IdsCrossBuckets(r: Record, q: Query)
    requires r.kind == Namespace && ById(r, q)
    ensures Answer([r], q) == Some(r)
    ensures forall path :: Answer([r.(path := path)], q) == Some(r.(path := path))
  {
    hide PathOf, ByPath;
    forall path ensures Answer([r.(path := path)], q) == Some(r.(path := path)) {
      AnswerOfOne(r.(path := path), q);
    }
    AnswerOfOne(r, q);
  }

  // A namespace record is bound to the dataset's bucket, whatever path it is given, exactly when
  // it does not match by its logical id.
  lemma BoundToTheBucketIff(uri: string, logicalId: Option<string>, delimiter: char, r: Record)
    requires r.kind == Namespace
    ensures var q := QueryFor(uri, logicalId, delimiter);
      (forall path :: Answer([r.(path := path)], q) == Some(r.(path := path)) ==>
         FirstSegment(PathOf(r.(path := path))) == q.bucket)
      <==> !ById(r, q)
  {
    hide QueryFor, Answer, RelOf, ByPath, PathOf, FirstSegment;
    var q := QueryFor(uri, logicalId, delimiter);
    if ById(r, q) {
      var s := r.(path := q.bucket + ['b']);
      IdsCrossBuckets(r, q);
      OtherBucket(uri, logicalId, delimiter, s);
    } else {
      forall path | Answer([r.(path := path)], q) == Some(r.(path := path))
        ensures FirstSegment(PathOf(r.(path := path))) == q.bucket
      {
        var s := r.(path := path);
        GovernsAlone(s, q);
        MatchesStayInTheBucket(uri, logicalId, delimiter, s);
      }
    }
  }

  lemma GovernsAlone(r: Record, q: Query)
    requires r.kind == Namespace && Answer([r], q) == Some(r)
    ensures ByPath(r, q) || ById(r, q)
  {
    hide PathOf, ByPath, ById;
    assert [r][1..] == [] && [r][..0] == [];
    assert FirstTable([], q) == None && Deepest([], q) == None;
    assert Projects([], q) == [];
  }

  lemma OtherBucket(uri: string, logicalId: Option<string>, delimiter: char, r: Record)
    requires r.path == QueryFor(uri, logicalId, delimiter).bucket + ['b']
    ensures FirstSegment(PathOf(r)) != QueryFor(uri, logicalId, delimiter).bucket
  {
    hide RelOf, Parents;
    var bucket := FirstSegment(RelOf(uri));
    SegmentHasNoSlash(RelOf(uri));
    SegmentOfSegment(bucket + ['b']);
  }

  lemma {:induction false} SegmentHasNoSlash(s: string)
    ensures '/' !in FirstSegment(s)
  {
    if s != [] && s[0] != '/' {
      SegmentHasNoSlash(s[1..]);
    }
  }

  lemma {:induction false} SegmentOfSegment(s: string)
    requires '/' !in s
    ensures FirstSegment(s) == s
  {
    if s != [] {
      SegmentOfSegment(s[1..]);
    }
  }

  // ---- which datasets a record governs ----

  lemma {:induction false} StripsSlashes(path: string, n: nat)
    requires path == [] || path[|path| - 1] != '/'
    ensures RStrip(path + Slashes(n), '/') == path
    decreases n
  {
    if n == 0 {
      assert path + [] == path;
    } else {
      StripsSlashes(path, n - 1);
      var whole := path + Slashes(n);
      assert whole[|whole| - 1] == '/' && whole[..|whole| - 1] == path + Slashes(n - 1);
    }
  }

  function Slashes(n: nat): string
  {
    if n == 0 then [] else Slashes(n - 1) + ['/']
  }

  // A dataset is at the same path with the s3 scheme or without it, and with trailing slashes or none.
  lemma SameDataset(path: string, n: nat)
    requires path == [] || path[|path| - 1] != '/'
    requires !("s3://" <= path + Slashes(n))
    ensures RelOf("s3://" + (path + Slashes(n))) == path && RelOf(path + Slashes(n)) == path
  {
    StripsSlashes(path, n);
    var uri := "s3://" + (path + Slashes(n));
    assert uri[5..] == path + Slashes(n);
  }

  // By its path a table record governs the dataset there and no other, a namespace record every dataset
  // some segments below.
  lemma GovernsByPath(r: Record, q: Query)
    requires RStrip(r.path, '/') != [] && r.id.None?
    ensures r.kind == Table ==> (Answer([r], q) == Some(r) <==> q.rel == RStrip(r.path, '/'))
    ensures r.kind == Namespace ==>
      (Answer([r], q) == Some(r) <==> exists below :: q.rel == RStrip(r.path, '/') + (['/'] + below))
  {
    AnswerIsKind(r, q);
    hide RStrip;
    var path := RStrip(r.path, '/');
    if path + ['/'] <= q.rel {
      assert q.rel == path + (['/'] + q.rel[|path| + 1..]);
    }
    if below :| q.rel == path + (['/'] + below) {
      assert q.rel[..|path| + 1] == path + ['/'];
    }
  }

  // By its logical id a namespace record governs the tables below that id, and no others.
  lemma GovernsById(r: Record, uri: string, id: string, delimiter: char)
    requires r.kind == Namespace && r.id.Some? && RStrip(r.path, '/') == []
    ensures Answer([r], QueryFor(uri, Some(id), delimiter)) == Some(r) <==>
      var segments := Split(id, delimiter);
      id != [] && exists i :: 1 <= i < |segments| && r.id.value == Join(segments[..i], delimiter)
  {
    hide RStrip, Split, Join, RelOf, FirstSegment, Answer;
    var q, segments := QueryFor(uri, Some(id), delimiter), Split(id, delimiter);
    AnswerIsKind(r, q);
    assert Answer([r], q) == Some(r) <==> r.id.value in Parents(id, delimiter);
    if id != [] && exists i :: 1 <= i < |segments| && r.id.value == Join(segments[..i], delimiter) {
      assert r.id.value in Parents(id, delimiter);
    }
  }

  // A project record governs when it is the one that claims the bucket, the first segment of the path.
  lemma GovernsByBucket(r: Record, q: Query)
    requires r.kind == Project
    ensures Answer([r], q) == Some(r) <==> r.buckets.Some? && q.bucket in r.buckets.value
  {
    AnswerIsKind(r, q);
  }

  lemma AnswerIsKind(r: Record, q: Query)
    ensures Answer([r], q) == if IsTable(r, q) || IsNamespace(r, q) || IsProject(r, q) then Some(r) else None
  {
    hide IsTable, IsNamespace, IsProject, FirstTable, Deepest, Projects;
    TierOfOne(r, q);
  }

  lemma TierOfOne(r: Record, q: Query)
    ensures FirstTable([r], q) == if IsTable(r, q) then Some(r) else None
    ensures Deepest([r], q) == if IsNamespace(r, q) then Some(r) else None
    ensures Projects([r], q) == if IsProject(r, q) then [r] else []
  {
    hide IsTable, IsNamespace, IsProject, Depth;
    TiersOfNone(q);
    assert [r][1..] == [] && [r][..0] == [];
  }

  lemma TiersOfNone(q: Query)
    ensures FirstTable([], q) == None && Deepest([], q) == None && Projects([], q) == []
  {
  }

  lemma {:induction false} FirstSegmentIs(bucket: string, rest: string)
    requires '/' !in bucket
    ensures FirstSegment(bucket + (['/'] + rest)) == bucket && FirstSegment(bucket) == bucket
  {
    SegmentOfSegment(bucket);
    SegmentOfLonger(bucket, rest);
  }

  lemma AnswerOfOne(r: Record, q: Query)
    requires r.kind == Namespace && ById(r, q)
    ensures Answer([r], q) == Some(r)
  {
    hide PathOf, ByPath;
    assert [r][1..] == [] && [r][..0] == [];
    assert FirstTable([], q) == None && Deepest([], q) == None;
  }
}
