// Delimited object ids and the parent namespaces of an id: those met on the way up, one parent after
// the other, and those the policy resolver collects in one go. The two are the same unless a
// segment is empty.

module ObjectIds {

  import opened Common
  import opened Segments

  // parent_namespace_id of an id given as text
  function ParentId(id: string, c: char): Option<string>
  {
    var segments := NonEmpty(Split(id, c));
    if |segments| <= 1 then None else Some(Join(segments[..|segments| - 1], c))
  }

  // parent_namespace_id applied k times
  function Iterate(id: string, c: char, k: nat): Option<string>
  {
    if k == 0 then Some(id)
    else
      match Iterate(id, c, k - 1)
      case None => None
      case Some(p) => ParentId(p, c)
  }

  ghost predicate IsIterate(id: string, c: char, p: string)
  {
    exists k: nat :: k > 0 && Iterate(id, c, k) == Some(p)
  }

  // {delimiter.join(segments[:i]) for i in range(1, len(segments))}, of an id that is not empty
  function Parents(id: string, c: char): set<string>
  {
    var segments := Split(id, c);
    if id == [] then {} else set i | 1 <= i < |segments| :: Join(segments[..i], c)
  }

  lemma ParentOfJoin(segments: seq<string>, c: char)
    requires segments != [] && AllFree(segments, c) && NoEmpty(segments)
    ensures ParentId(Join(segments, c), c)
            == if |segments| == 1 then None else Some(Join(segments[..|segments| - 1], c))
  {
    hide Split, Join, Free;
    SplitOfJoin(segments, c);
    NonEmptyKeeps(segments);
  }

  // The k-th iterate drops the last k of the segments that are not empty.
  lemma {:induction false} IterateDrops(id: string, c: char, k: nat)
    requires k > 0
    ensures var segments := NonEmpty(Split(id, c));
      Iterate(id, c, k) == if k < |segments| then Some(Join(segments[..|segments| - k], c)) else None
  {
    hide Split, Join, Free, NonEmpty;
    var segments := NonEmpty(Split(id, c));
    if k == 1 {
      assert Iterate(id, c, 0) == Some(id);
      assert Iterate(id, c, 1) == ParentId(id, c);
    } else {
      IterateDrops(id, c, k - 1);
      if k - 1 < |segments| {
        var kept := segments[..|segments| - (k - 1)];
        SplitIsFree(id, c);
        NonEmptyFree(Split(id, c), c);
        NonEmptyKeeps(Split(id, c));
        ParentOfJoin(kept, c);
        assert kept[..|kept| - 1] == segments[..|segments| - k];
      }
    }
  }

  lemma IteratesSplit(id: string, c: char, p: string)
    requires IsIterate(id, c, p)
    ensures NoEmpty(Split(p, c)) && |Split(p, c)| < |NonEmpty(Split(id, c))|
  {
    hide Split, Join, Free, NonEmpty;
    var k: nat :| k > 0 && Iterate(id, c, k) == Some(p);
    var segments := NonEmpty(Split(id, c));
    IterateDrops(id, c, k);
    SplitIsFree(id, c);
    NonEmptyFree(Split(id, c), c);
    NonEmptyKeeps(Split(id, c));
    SplitOfJoin(segments[..|segments| - k], c);
  }

  lemma ParentSplit(id: string, c: char, i: nat)
    requires 1 <= i < |Split(id, c)| && id != []
    ensures Join(Split(id, c)[..i], c) in Parents(id, c)
    ensures Split(Join(Split(id, c)[..i], c), c) == Split(id, c)[..i]
  {
    hide Split, Join, Free;
    SplitIsFree(id, c);
    SplitOfJoin(Split(id, c)[..i], c);
  }

  lemma EmptyId(c: char, p: string)
    ensures p !in Parents([], c) && !IsIterate([], c, p)
  {
    hide Join, Iterate;
    assert Split([], c) == [[]] && NonEmpty([[]]) == [];
    forall k: nat | k > 0 ensures Iterate([], c, k) == None {
      IterateDrops([], c, k);
    }
  }

  lemma WithoutEmpty(id: string, c: char, p: string)
    requires id != [] && NoEmpty(Split(id, c))
    ensures p in Parents(id, c) <==> IsIterate(id, c, p)
  {
    hide Split, Join, NonEmpty, Iterate;
    var segments := Split(id, c);
    NonEmptyKeeps(segments);
    forall k: nat | k > 0
      ensures Iterate(id, c, k) == if k < |segments| then Some(Join(segments[..|segments| - k], c)) else None
    {
      IterateDrops(id, c, k);
    }
    if p in Parents(id, c) {
      var i :| 1 <= i < |segments| && p == Join(segments[..i], c);
      var k: nat := |segments| - i;
      assert Iterate(id, c, k) == Some(p);
    }
    if IsIterate(id, c, p) {
      var k: nat :| k > 0 && Iterate(id, c, k) == Some(p);
      ParentSplit(id, c, |segments| - k);
    }
  }

  lemma OneSegment(id: string, c: char)
    requires id != [] && |Split(id, c)| == 1
    ensures NoEmpty(Split(id, c))
  {
    JoinOfSplit(id, c);
  }

  lemma WithEmpty(id: string, c: char) returns (p: string)
    requires id != [] && !NoEmpty(Split(id, c))
    ensures p in Parents(id, c) && !IsIterate(id, c, p)
  {
    hide Split, Join, NonEmpty, Iterate, IsIterate;
    var segments := Split(id, c);
    if |segments| == 1 {
      OneSegment(id, c);
    }
    var e: nat :| e < |segments| && segments[e] == [];
    var i := if e + 1 < |segments| then e + 1 else e;
    p := Join(segments[..i], c);
    ParentSplit(id, c, i);
    if e + 1 < |segments| {
      assert segments[..i][e] == [];
    } else {
      FewerThanAll(segments, e);
    }
    if IsIterate(id, c, p) {
      IteratesSplit(id, c, p);
    }
  }

  lemma {:induction false} FewerThanAll(segments: seq<string>, e: nat)
    requires e < |segments| && segments[e] == []
    ensures |NonEmpty(segments)| < |segments|
    decreases |segments|
  {
    var n := |segments| - 1;
    NonEmptyKeeps(segments[..n]);
    if e < n {
      FewerThanAll(segments[..n], e);
    }
  }

  // The parent set of the policy resolver is what climbing by parent_namespace_id reaches, exactly
  // for the empty id and the ids without an empty segment.
  lemma ParentsAreIteratesIff(id: string, c: char)
    ensures (forall p :: p in Parents(id, c) <==> IsIterate(id, c, p)) <==> id == [] || NoEmpty(Split(id, c))
  {
    hide Parents, IsIterate, Split, NoEmpty;
    if id == [] || NoEmpty(Split(id, c)) {
      forall p ensures p in Parents(id, c) <==> IsIterate(id, c, p) {
        if id == [] {
          EmptyId(c, p);
        } else {
          WithoutEmpty(id, c, p);
        }
      }
    } else {
      var p := WithEmpty(id, c);
    }
  }
}
