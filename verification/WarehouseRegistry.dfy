// Project to warehouse root, off a listing of registry records, behind a per-process cache of
// positive answers.

module WarehouseRegistry {

  import opened Common

  // A registry record. Fields may be absent.
  datatype Warehouse = Warehouse(id: string, project: Option<string>, status: Option<string>, serving: Option<string>,
                                 rootUri: Option<string>)

  // One entry of the listing.
  datatype File = Directory | NotJson | Unreadable | NotARecord | Readable(warehouse: Warehouse)

  // The cache key: control root, project and serving class, "" for work and "gold" for serving.
  datatype Query = Query(controlRoot: string, project: string, serving: string)

  datatype Match = Match(id: string, root: string)

  // ---- order of text ----

  // a <= b, character by character.
  predicate Below(a: string, b: string)
  {
    a == [] || (b != [] && (a[0] < b[0] || (a[0] == b[0] && Below(a[1..], b[1..]))))
  }

  lemma {:induction false} BelowIsTotal(a: string, b: string)
    ensures Below(a, b) || Below(b, a)
    decreases |a|
  {
    if a != [] && b != [] && a[0] == b[0] {
      BelowIsTotal(a[1..], b[1..]);
    }
  }

  lemma {:induction false} BelowIsAntisymmetric(a: string, b: string)
    requires Below(a, b) && Below(b, a)
    ensures a == b
    decreases |a|
  {
    if a != [] && b != [] {
      BelowIsAntisymmetric(a[1..], b[1..]);
      assert a == [a[0]] + a[1..] && b == [b[0]] + b[1..];
    }
  }

  lemma {:induction false} BelowIsTransitive(a: string, b: string, c: string)
    requires Below(a, b) && Below(b, c)
    ensures Below(a, c)
    decreases |a|
  {
    if a != [] && a[0] == b[0] == c[0] {
      BelowIsTransitive(a[1..], b[1..], c[1..]);
    }
  }

  // Tuples compare by id, then by root.
  predicate AtMost(x: Match, y: Match)
  {
    if x.id == y.id then Below(x.root, y.root) else Below(x.id, y.id)
  }

  lemma AtMostIsTotal(x: Match, y: Match)
    ensures AtMost(x, y) || AtMost(y, x)
    ensures AtMost(x, y) && AtMost(y, x) ==> x == y
  {
    hide Below;
    BelowIsTotal(x.id, y.id);
    BelowIsTotal(x.root, y.root);
    if AtMost(x, y) && AtMost(y, x) {
      if x.id != y.id {
        BelowIsAntisymmetric(x.id, y.id);
      } else {
        BelowIsAntisymmetric(x.root, y.root);
      }
    }
  }

  lemma AtMostIsTransitive(x: Match, y: Match, z: Match)
    requires AtMost(x, y) && AtMost(y, z)
    ensures AtMost(x, z)
  {
    hide Below;
    if x.id == y.id == z.id {
      BelowIsTransitive(x.root, y.root, z.root);
    } else {
      BelowIsTotal(x.id, x.id);
      BelowIsTotal(z.id, z.id);
      BelowIsTransitive(x.id, y.id, z.id);
      if x.id == z.id {
        BelowIsAntisymmetric(x.id, y.id);
      }
    }
  }

  // ---- the scan ----

  function OrElse(field: Option<string>, fallback: string): string
  {
    if field.None? || field.value == [] then fallback else field.value
  }

  predicate Matches(w: Warehouse, q: Query)
  {
    && w.project == Some(q.project)
    && OrElse(w.status, "active") == "active"
    && OrElse(w.serving, "") == q.serving
    && w.rootUri.Some? && w.rootUri.value != []
  }

  function MatchOf(f: File, q: Query): seq<Match>
  {
    if f.Readable? && Matches(f.warehouse, q) then
      [Match(f.warehouse.id, RStrip(f.warehouse.rootUri.value, '/'))]
    else []
  }

  function AllMatches(listing: seq<File>, q: Query): seq<Match>
  {
    if listing == [] then []
    else
      var n := |listing| - 1;
      AllMatches(listing[..n], q) + MatchOf(listing[n], q)
  }

  function Least(matches: seq<Match>): Match
    requires matches != []
  {
    var n := |matches| - 1;
    if n == 0 then matches[0]
    else
      var m := Least(matches[..n]);
      if AtMost(m, matches[n]) then m else matches[n]
  }

  // What a fresh listing answers.
  function Scan(listing: seq<File>, q: Query): Option<string>
  {
    var matches := AllMatches(listing, q);
    if matches == [] then None else Some(Least(matches).root)
  }

  method ScanListing(listing: seq<File>, q: Query) returns (root: Option<string>)
    ensures root == Scan(listing, q)
  {
    hide MatchOf, Least;
    var matches: seq<Match> := [];
    for i := 0 to |listing|
      invariant matches == AllMatches(listing[..i], q)
    {
      assert listing[..i + 1][..i] == listing[..i];
      matches := matches + MatchOf(listing[i], q);
    }
    assert listing[..|listing|] == listing;
    root := if matches == [] then None else Some(Least(matches).root);
  }

  lemma {:induction false} LeastIs(matches: seq<Match>)
    requires matches != []
    ensures Least(matches) in matches && forall m <- matches :: AtMost(Least(matches), m)
    decreases |matches|
  {
    hide AtMost;
    var n := |matches| - 1;
    AtMostIsTotal(matches[n], matches[n]);
    assert matches == matches[..n] + [matches[n]];
    if n != 0 {
      LeastIs(matches[..n]);
      var best := Least(matches[..n]);
      AtMostIsTotal(best, matches[n]);
      forall m | m in matches ensures AtMost(Least(matches), m) {
        if m in matches[..n] && !AtMost(best, matches[n]) {
          AtMostIsTransitive(matches[n], best, m);
        }
      }
    }
  }

  lemma {:induction false} MatchesCount(listing: seq<File>, q: Query, m: Match)
    ensures m in AllMatches(listing, q) <==> exists f :: f in listing && MatchOf(f, q) == [m]
    decreases |listing|
  {
    hide MatchOf;
    if listing != [] {
      var n := |listing| - 1;
      MatchesCount(listing[..n], q, m);
      OneMatchAtMost(listing[n], q);
      assert listing == listing[..n] + [listing[n]];
      assert m in AllMatches(listing, q) <==> m in AllMatches(listing[..n], q) || MatchOf(listing[n], q) == [m];
    }
  }

  lemma OneMatchAtMost(f: File, q: Query)
    ensures |MatchOf(f, q)| <= 1
    ensures MatchOf(f, q) != [] ==> MatchOf(f, q) == [MatchOf(f, q)[0]]
  {
  }

  // The answer does not depend on the order of the listing.
  lemma ScanIsOrderFree(listing: seq<File>, others: seq<File>, q: Query)
    requires multiset(listing) == multiset(others)
    ensures Scan(listing, q) == Scan(others, q)
  {
    hide AllMatches, Least, AtMost, MatchOf;
    forall f ensures f in listing <==> f in others {
      assert f in listing <==> f in multiset(listing);
    }
    var xs, ys := AllMatches(listing, q), AllMatches(others, q);
    forall m ensures m in xs <==> m in ys {
      MatchesCount(listing, q, m);
      MatchesCount(others, q, m);
    }
    assert xs != [] ==> xs[0] in ys;
    assert ys != [] ==> ys[0] in xs;
    if xs != [] {
      LeastIs(xs);
      LeastIs(ys);
      AtMostIsTotal(Least(xs), Least(ys));
    }
  }

  // A scan's answer is the root of a listed, active warehouse of the project and of the class asked
  // for, and no matching warehouse has a lower id.
  lemma ScanAnswersFromItsClass(listing: seq<File>, q: Query)
    requires Scan(listing, q).Some?
    ensures exists f :: f in listing && f.Readable?
                        && Answers(f.warehouse, q, Scan(listing, q).value) && LowestId(f.warehouse, listing, q)
  {
    hide AllMatches, Least, Below, Matches;
    var matches := AllMatches(listing, q);
    var best := Least(matches);
    LeastIs(matches);
    MatchesCount(listing, q, best);
    var f :| f in listing && MatchOf(f, q) == [best];
    forall g | g in listing && g.Readable? && Matches(g.warehouse, q) ensures Below(f.warehouse.id, g.warehouse.id) {
      var m := MatchOf(g, q)[0];
      assert MatchOf(g, q) == [m];
      MatchesCount(listing, q, m);
      BelowIsTotal(m.id, m.id);
      assert AtMost(best, m);
    }
    assert LowestId(f.warehouse, listing, q);
  }

  ghost predicate LowestId(w: Warehouse, listing: seq<File>, q: Query)
  {
    forall g :: g in listing && g.Readable? && Matches(g.warehouse, q) ==> Below(w.id, g.warehouse.id)
  }

  predicate Answers(w: Warehouse, q: Query, root: string)
  {
    Matches(w, q) && RStrip(w.rootUri.value, '/') == root
  }

  // ---- the cache ----

  datatype Cached = Cached(expires: int, root: string)

  // One lookup: when it looks at the cache, what the registry lists if it is read, when the listing
  // is done, and the time to live it asks for.
  datatype Call = Call(query: Query, now: int, listing: seq<File>, done: int, ttl: int)

  datatype Outcome = Outcome(cache: map<Query, Cached>, answer: Option<string>)

  // _resolve_root
  function Step(cache: map<Query, Cached>, call: Call): Outcome
  {
    var q := call.query;
    if q in cache && call.now < cache[q].expires then Outcome(cache, Some(cache[q].root))
    else
      var root := Scan(call.listing, q);
      if root.None? then Outcome(cache, None)
      else Outcome(cache[q := Cached(call.done + call.ttl, root.value)], root)
  }

  class Resolver {
    var cache: map<Query, Cached>

    constructor ()
      ensures cache == map[]
    {
      cache := map[];
    }

    method ResolveRoot(call: Call) returns (answer: Option<string>)
      modifies this
      ensures Outcome(cache, answer) == Step(old(cache), call)
    {
      hide Scan;
      if call.query in cache && call.now < cache[call.query].expires {
        return Some(cache[call.query].root);
      }
      answer := ScanListing(call.listing, call.query);
      if answer.Some? {
        cache := cache[call.query := Cached(call.done + call.ttl, answer.value)];
      }
    }
  }

  // The cache of a process after these calls, and what the last of them answered.
  function CacheAfter(calls: seq<Call>): map<Query, Cached>
  {
    if calls == [] then map[] else Step(CacheAfter(calls[..|calls| - 1]), calls[|calls| - 1]).cache
  }

  function AnswerTo(calls: seq<Call>, i: nat): Option<string>
    requires i < |calls|
  {
    Step(CacheAfter(calls[..i]), calls[i]).answer
  }

  function Fresh(call: Call): Option<string>
  {
    Scan(call.listing, call.query)
  }

  // Call j listed the registry and left this entry.
  predicate FilledBy(calls: seq<Call>, j: nat, q: Query, entry: Cached)
  {
    j < |calls| && calls[j].query == q && Fresh(calls[j]) == Some(entry.root) &&
      entry.expires == calls[j].done + calls[j].ttl
  }

  lemma {:induction false} EntriesComeFromScans(calls: seq<Call>, q: Query) returns (j: nat)
    requires q in CacheAfter(calls)
    ensures FilledBy(calls, j, q, CacheAfter(calls)[q])
    decreases |calls|
  {
    hide Scan;
    var n := |calls| - 1;
    var before := CacheAfter(calls[..n]);
    if q in before && CacheAfter(calls)[q] == before[q] {
      j := EntriesComeFromScans(calls[..n], q);
    } else {
      j := n;
    }
  }

  // Over any history of registry edits, clock readings and lookups: an answer is the fresh scan's,
  // or that of an earlier scan for the same project and class, whose time to live, counted from the
  // end of its listing, has not run out. An answer of None is always fresh.
  lemma AnswersAreRecentScans(calls: seq<Call>, i: nat) returns (j: nat)
    requires i < |calls|
    ensures j <= i && calls[j].query == calls[i].query && AnswerTo(calls, i) == Fresh(calls[j])
    ensures j < i ==> calls[i].now < calls[j].done + calls[j].ttl
    ensures AnswerTo(calls, i).None? ==> j == i
  {
    hide Scan, CacheAfter;
    var before := CacheAfter(calls[..i]);
    var q := calls[i].query;
    if q in before && calls[i].now < before[q].expires {
      j := EntriesComeFromScans(calls[..i], q);
    } else {
      j := i;
    }
  }

  // Work and gold lookups never answer for each other: whatever is cached, the root a lookup gets
  // belongs to a warehouse that was listed with just the class asked for.
  lemma AnswersKeepToTheirClass(calls: seq<Call>, i: nat) returns (j: nat, w: Warehouse)
    requires i < |calls| && AnswerTo(calls, i).Some?
    ensures j <= i && Readable(w) in calls[j].listing && Answers(w, calls[i].query, AnswerTo(calls, i).value)
    ensures OrElse(w.serving, "") == calls[i].query.serving && w.project == Some(calls[i].query.project)
  {
    hide AnswerTo, Scan;
    j := AnswersAreRecentScans(calls, i);
    ScanAnswersFromItsClass(calls[j].listing, calls[j].query);
    var f :| f in calls[j].listing && f.Readable? &&
      Answers(f.warehouse, calls[j].query, Scan(calls[j].listing, calls[j].query).value);
    w := f.warehouse;
  }

  // Lookup i reads the registry itself.
  predicate Reads(calls: seq<Call>, i: nat)
    requires i < |calls|
  {
    var cache, call := CacheAfter(calls[..i]), calls[i];
    !(call.query in cache && call.now < cache[call.query].expires)
  }

  predicate Fills(calls: seq<Call>, i: nat)
    requires i < |calls|
  {
    Reads(calls, i) && Fresh(calls[i]).Some?
  }

  // Lookup j is the last before i to fill the entry that i looks at.
  ghost predicate LastFill(calls: seq<Call>, i: nat, q: Query, j: nat)
    requires i <= |calls|
  {
    && j < i && calls[j].query == q && Fills(calls, j)
    && forall k: nat :: j < k < i && calls[k].query == q ==> !Fills(calls, k)
  }

  lemma CacheNext(calls: seq<Call>, n: nat)
    requires n < |calls|
    ensures Fills(calls, n) ==> Fresh(calls[n]).Some?
    ensures CacheAfter(calls[..n + 1]) ==
      if Fills(calls, n)
      then CacheAfter(calls[..n])[calls[n].query := Cached(calls[n].done + calls[n].ttl, Fresh(calls[n]).value)]
      else CacheAfter(calls[..n])
  {
    hide Scan;
    assert calls[..n + 1][..n] == calls[..n];
  }

  lemma {:induction false} EntryIsOfLastFill(calls: seq<Call>, i: nat, q: Query, j: nat)
    requires i <= |calls| && LastFill(calls, i, q, j)
    ensures Fresh(calls[j]).Some? && q in CacheAfter(calls[..i])
    ensures CacheAfter(calls[..i])[q] == Cached(calls[j].done + calls[j].ttl, Fresh(calls[j]).value)
    decreases i
  {
    hide Reads, Fresh, CacheAfter;
    CacheNext(calls, i - 1);
    if j < i - 1 {
      assert LastFill(calls, i - 1, q, j);
      EntryIsOfLastFill(calls, i - 1, q, j);
    }
  }

  lemma {:induction false} EntryHasLastFill(calls: seq<Call>, i: nat, q: Query) returns (j: nat)
    requires i <= |calls| && q in CacheAfter(calls[..i])
    ensures LastFill(calls, i, q, j)
    decreases i
  {
    hide Fills, Fresh, Scan, Step;
    CacheNext(calls, i - 1);
    if Fills(calls, i - 1) && calls[i - 1].query == q {
      j := i - 1;
    } else {
      j := EntryHasLastFill(calls, i - 1, q);
    }
  }

  // A lookup skips the registry exactly when the last one to fill its entry gave it a time to live
  // that has not run out. What the lookup itself asks for does not matter.
  lemma SkipsRegistryIff(calls: seq<Call>, i: nat)
    requires i < |calls|
    ensures !Reads(calls, i) <==>
      exists j: nat :: LastFill(calls, i, calls[i].query, j) && calls[i].now < calls[j].done + calls[j].ttl
    ensures Reads(calls, i) ==> AnswerTo(calls, i) == Fresh(calls[i])
    ensures forall j: nat :: !Reads(calls, i) && LastFill(calls, i, calls[i].query, j) ==>
      AnswerTo(calls, i) == Fresh(calls[j])
  {
    hide Scan, Fills, CacheAfter, LastFill;
    var q := calls[i].query;
    forall j: nat | LastFill(calls, i, q, j)
      ensures j < i && Fresh(calls[j]).Some? && q in CacheAfter(calls[..i])
      ensures CacheAfter(calls[..i])[q] == Cached(calls[j].done + calls[j].ttl, Fresh(calls[j]).value)
    {
      FilledIsSome(calls, i, q, j);
      EntryIsOfLastFill(calls, i, q, j);
    }
    if q in CacheAfter(calls[..i]) {
      var j := EntryHasLastFill(calls, i, q);
    }
  }

  lemma FilledIsSome(calls: seq<Call>, i: nat, q: Query, j: nat)
    requires i <= |calls| && LastFill(calls, i, q, j)
    ensures j < i && Fresh(calls[j]).Some?
  {
    hide Scan, CacheAfter;
  }

  // So a time to live of zero reads the registry every time when every lookup of the process asks for
  // it and the clock does not run backwards.
  lemma ZeroTtlIsAlwaysFresh(calls: seq<Call>, i: nat)
    requires i < |calls|
    requires forall j: nat :: j < i ==> calls[j].ttl <= 0 && calls[j].done <= calls[i].now
    ensures Reads(calls, i) && AnswerTo(calls, i) == Fresh(calls[i])
  {
    hide Reads, AnswerTo, Fresh, Fills;
    SkipsRegistryIff(calls, i);
  }

  // Asked for by one lookup alone it does not: for any matching warehouse, the entry is served on
  // although the warehouse was deactivated and the lookup asks for zero.
  lemma TheFillersTtlCounts(q: Query, w: Warehouse, start: int, ttl: int, later: int)
    requires Matches(w, q) && later < start + ttl
    ensures var calls := [Call(q, start, [Readable(w)], start, ttl),
                          Call(q, later, [Readable(w.(status := Some("inactive")))], later, 0)];
      !Reads(calls, 1) && AnswerTo(calls, 1) == Fresh(calls[0]) != Fresh(calls[1])
  {
    var off := w.(status := Some("inactive"));
    var calls := [Call(q, start, [Readable(w)], start, ttl), Call(q, later, [Readable(off)], later, 0)];
    assert !Matches(off, q);
    SingleScan(w, q);
    SingleScan(off, q);
    hide Matches, Scan;
    assert calls[..0] == [] && CacheAfter([]) == map[];
    assert LastFill(calls, 1, q, 0);
    SkipsRegistryIff(calls, 1);
  }

  lemma SingleScan(w: Warehouse, q: Query)
    ensures Scan([Readable(w)], q) == if Matches(w, q) then Some(RStrip(w.rootUri.value, '/')) else None
  {
    hide Matches;
    var listing := [Readable(w)];
    assert listing[..0] == [] && AllMatches([], q) == [];
    assert AllMatches(listing, q) == MatchOf(Readable(w), q);
  }
}
