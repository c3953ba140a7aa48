// Splitting text at a character and joining it again: each undoes the other, for any text without
// the character in its segments. What the catalog's object ids and the maintenance policies rest
// on is here.

module Segments {

  import opened Common

  // s.split(c)
  function Split(s: string, c: char): (segments: seq<string>)
    ensures segments != []
  {
    if s == [] then [[]]
    else
      var n := |s| - 1;
      var front := Split(s[..n], c);
      if s[n] == c then front + [[]]
      else front[..|front| - 1] + [front[|front| - 1] + [s[n]]]
  }

  // c.join(segments)
  function Join(segments: seq<string>, c: char): string
  {
    if segments == [] then []
    else
      var n := |segments| - 1;
      if n == 0 then segments[0] else Join(segments[..n], c) + ([c] + segments[n])
  }

  predicate AllFree(segments: seq<string>, c: char)
  {
    forall i :: 0 <= i < |segments| ==> Free(segments[i], c)
  }

  predicate NoEmpty(segments: seq<string>)
  {
    forall i :: 0 <= i < |segments| ==> segments[i] != []
  }

  lemma {:induction false} SplitIsFree(s: string, c: char)
    ensures AllFree(Split(s, c), c)
    decreases |s|
  {
    if s != [] {
      SplitIsFree(s[..|s| - 1], c);
    }
  }

  lemma JoinStep(front: seq<string>, last: string, c: char)
    requires front != []
    ensures Join(front + [last], c) == Join(front, c) + ([c] + last)
  {
    assert (front + [last])[..|front|] == front;
  }

  lemma {:induction false} JoinOfSplit(s: string, c: char)
    ensures Join(Split(s, c), c) == s
    decreases |s|
  {
    if s != [] {
      var n := |s| - 1;
      var front := Split(s[..n], c);
      JoinOfSplit(s[..n], c);
      assert s == s[..n] + [s[n]];
      if s[n] == c {
        JoinStep(front, [], c);
      } else {
        var m := |front| - 1;
      }
    }
  }

  lemma {:induction false} SplitAfter(s: string, last: string, c: char)
    requires Free(last, c)
    ensures Split(s + ([c] + last), c) == Split(s, c) + [last]
    decreases |last|
  {
    var whole := s + ([c] + last);
    var n := |whole| - 1;
    if last == [] {
      assert whole[..n] == s;
    } else {
      var m := |last| - 1;
      assert whole[..n] == s + ([c] + last[..m]);
      assert whole[n] == last[m] != c;
      SplitAfter(s, last[..m], c);
      assert last == last[..m] + [last[m]];
    }
  }

  lemma {:induction false} SplitFree(s: string, c: char)
    requires Free(s, c)
    ensures Split(s, c) == [s]
    decreases |s|
  {
    if s != [] {
      SplitFree(s[..|s| - 1], c);
      assert s == s[..|s| - 1] + [s[|s| - 1]];
    }
  }

  lemma {:induction false} SplitOfJoin(segments: seq<string>, c: char)
    requires segments != [] && AllFree(segments, c)
    ensures Split(Join(segments, c), c) == segments
    decreases |segments|
  {
    var n := |segments| - 1;
    assert segments == segments[..n] + [segments[n]];
    if n == 0 {
      SplitFree(segments[0], c);
    } else {
      SplitOfJoin(segments[..n], c);
      SplitAfter(Join(segments[..n], c), segments[n], c);
    }
  }

  // [s for s in segments if s]
  function NonEmpty(segments: seq<string>): seq<string>
  {
    if segments == [] then []
    else
      var n := |segments| - 1;
      NonEmpty(segments[..n]) + if segments[n] == [] then [] else [segments[n]]
  }

  lemma {:induction false} NonEmptyKeeps(segments: seq<string>)
    ensures NoEmpty(NonEmpty(segments)) && |NonEmpty(segments)| <= |segments|
    ensures NoEmpty(segments) ==> NonEmpty(segments) == segments
    decreases |segments|
  {
    if segments != [] {
      var n := |segments| - 1;
      NonEmptyKeeps(segments[..n]);
      assert segments == segments[..n] + [segments[n]];
    }
  }

  lemma {:induction false} NonEmptyFree(segments: seq<string>, c: char)
    requires AllFree(segments, c)
    ensures AllFree(NonEmpty(segments), c)
    decreases |segments|
  {
    hide Free;
    if segments != [] {
      NonEmptyFree(segments[..|segments| - 1], c);
    }
  }
}
