// The lineage outbox: publishers stage, publish and drop; a relay lists the oldest events, ingests
// and drops. Any process can stop anywhere.

module Outbox {

  import opened Common

  // ---- object names ----

  const JSON := ".json"

  // The path of a staged event under the outbox prefix.
  function ObjectName(runId: string): string
  {
    runId + JSON
  }

  // A non-recursive listing of the prefix shows files whose name has no further slash.
  predicate Listed(name: string)
  {
    '/' !in name && |JSON| <= |name| && name[|name| - |JSON|..] == JSON
  }

  // path.rsplit("/", 1)[-1]
  function LastSegment(path: string): string
  {
    if '/' !in path then path else LastSegment(path[1..])
  }

  // .removesuffix(".json")
  function ListedId(name: string): string
  {
    var last := LastSegment(name);
    if |JSON| <= |last| && last[|last| - |JSON|..] == JSON then last[..|last| - |JSON|] else last
  }

  lemma {:induction false} LastSegmentIs(base: string, name: string)
    requires '/' !in name
    ensures LastSegment(name) == name && LastSegment(base + ['/'] + name) == name
    decreases |base|
  {
    var path := base + ['/'] + name;
    assert '/' in path by { assert path[|base|] == '/'; }
    if base == [] {
      assert path[1..] == name;
    } else {
      LastSegmentIs(base[1..], name);
      assert path[1..] == base[1..] + ['/'] + name;
    }
  }

  // The relay sees a staged event, under its own run id whatever the prefix, exactly when the id has no
  // slash.
  lemma StagedIsListedIff(runId: string, base: string)
    ensures Listed(ObjectName(runId)) <==> '/' !in runId
    ensures '/' !in runId ==> ListedId(base + ['/'] + ObjectName(runId)) == runId
  {
    if '/' !in runId {
      LastSegmentIs(base, ObjectName(runId));
    }
    var name := ObjectName(runId);
    assert name[|name| - |JSON|..] == JSON;
    assert name[..|name| - |JSON|] == runId;
    if '/' in runId {
      var i :| 0 <= i < |runId| && runId[i] == '/';
      assert name[i] == '/';
    }
  }

  // ---- publishers, relay and crashes ----

  datatype Id = Id(n: int)           // a run id without a slash
  datatype Event = Event(n: int)
  datatype Pid = Pid(n: int)

  datatype Phase = Staged | Published | Done
  datatype Publisher = Publisher(id: Id, event: Event, phase: Phase)

  // What the relay still has to do in this tick, and the id it has ingested but not yet dropped.
  datatype Relay = Relay(todo: seq<Id>, ingesting: Option<Id>)

  datatype World = World(
    staged: map<Id, Event>,
    publishers: map<Pid, Publisher>,
    relay: Relay,
    everStaged: set<Id>,
    bodies: set<(Id, Event)>,        // every event body ever staged
    acked: set<Id>,
    ingested: set<Id>,
    delivered: set<(Id, Event)>)     // event bodies that were acknowledged or ingested

  datatype Step =
    | Stage(p: Pid, id: Id, event: Event)
    | PublishAck(p: Pid)
    | PublishFail(p: Pid)
    | DropStaged(p: Pid)
    | Stop(p: Pid)                   // a crash, or a failed best-effort drop
    | List(ids: seq<Id>)
    | Ingest
    | RelayDrop
    | RelayStop

  predicate Enabled(w: World, step: Step)
  {
    match step
    case Stage(p, _, _) => p !in w.publishers
    case PublishAck(p) => p in w.publishers && w.publishers[p].phase == Staged
    case PublishFail(p) => p in w.publishers && w.publishers[p].phase == Staged
    case DropStaged(p) => p in w.publishers && w.publishers[p].phase == Published
    case Stop(p) => p in w.publishers
    case List(ids) => w.relay == Relay([], None) && forall id <- ids :: id in w.staged
    case Ingest => w.relay.todo != [] && w.relay.ingesting.None?
    case RelayDrop => w.relay.ingesting.Some?
    case RelayStop => true
  }

  function Move(w: World, p: Pid, phase: Phase): map<Pid, Publisher>
    requires p in w.publishers
  {
    w.publishers[p := w.publishers[p].(phase := phase)]
  }

  function Apply(w: World, step: Step): World
    requires Enabled(w, step)
  {
    match step
    case Stage(p, id, event) =>
      w.(staged := w.staged[id := event],
         publishers := w.publishers[p := Publisher(id, event, Staged)],
         everStaged := w.everStaged + {id},
         bodies := w.bodies + {(id, event)})
    case PublishAck(p) =>
      w.(publishers := Move(w, p, Published),
         acked := w.acked + {w.publishers[p].id},
         delivered := w.delivered + {(w.publishers[p].id, w.publishers[p].event)})
    case PublishFail(p) => w.(publishers := Move(w, p, Done))
    case DropStaged(p) =>
      w.(publishers := Move(w, p, Done), staged := w.staged - {w.publishers[p].id})
    case Stop(p) => w.(publishers := Move(w, p, Done))
    case List(ids) => w.(relay := Relay(ids, None))
    case Ingest =>
      var id := w.relay.todo[0];
      // an object dropped since the listing is skipped
      if id !in w.staged then w.(relay := Relay(w.relay.todo[1..], None))
      else w.(relay := Relay(w.relay.todo[1..], Some(id)),
              ingested := w.ingested + {id},
              delivered := w.delivered + {(id, w.staged[id])})
    case RelayDrop =>
      w.(relay := w.relay.(ingesting := None), staged := w.staged - {w.relay.ingesting.value})
    case RelayStop => w.(relay := Relay([], None))
  }

  const EMPTY := World(map[], map[], Relay([], None), {}, {}, {}, {}, {})

  function Execute(steps: seq<Step>): Option<World>
    decreases |steps|
  {
    if steps == [] then Some(EMPTY)
    else
      var before, last := Execute(steps[..|steps| - 1]), steps[|steps| - 1];
      if before.None? || !Enabled(before.value, last) then None else Some(Apply(before.value, last))
  }

  predicate NothingLost(w: World)
  {
    forall id <- w.everStaged :: id in w.staged || id in w.acked || id in w.ingested
  }

  predicate Inv(w: World)
  {
    && NothingLost(w)
    && (forall p <- w.publishers :: w.publishers[p].phase == Published ==> w.publishers[p].id in w.acked)
    && (w.relay.ingesting.Some? ==> w.relay.ingesting.value in w.ingested)
  }

  // Over all runs of publishers, redeliveries, the relay and crashes, every run id ever staged is
  // still staged, or was acknowledged, or was ingested.
  lemma {:induction false} NoRunIsLost(steps: seq<Step>)
    requires Execute(steps).Some?
    ensures Inv(Execute(steps).value) && NothingLost(Execute(steps).value)
    decreases |steps|
  {
    if steps != [] {
      var n := |steps| - 1;
      NoRunIsLost(steps[..n]);
      assert Inv(Apply(Execute(steps[..n]).value, steps[n]));
    }
  }

  // The guarantee is per run id, not per event body: a redelivery that restages the id with
  // another body can have that body deleted by the first publisher's drop, and then crash.
  lemma RestagedBodyCanBeLost(id: Id, first: Event, second: Event, p: Pid, q: Pid)
    requires first != second && p != q
    ensures exists steps ::
              && Execute(steps).Some? && Execute(steps).value.bodies == {(id, first), (id, second)}
              && Stage(q, id, second) in steps
              && id !in Execute(steps).value.staged
              && (id, second) !in Execute(steps).value.delivered
  {
    var s1 := [Stage(p, id, first)];
    var w1 := Apply(EMPTY, s1[0]);
    assert Execute([]) == Some(EMPTY) && [] + s1 == s1;
    assert Execute([] + [s1[0]]) == Some(Apply(EMPTY, s1[0]));
    assert Execute(s1 + [PublishAck(p)]) == Some(Apply(w1, PublishAck(p)));
    var s2, w2 := s1 + [PublishAck(p)], Apply(w1, PublishAck(p));
    assert Execute(s2 + [Stage(q, id, second)]) == Some(Apply(w2, Stage(q, id, second)));
    var s3, w3 := s2 + [Stage(q, id, second)], Apply(w2, Stage(q, id, second));
    assert Execute(s3 + [DropStaged(p)]) == Some(Apply(w3, DropStaged(p)));
    var s4, w4 := s3 + [DropStaged(p)], Apply(w3, DropStaged(p));
    assert s4[2] == Stage(q, id, second);
  }

  // The body of an id, when every stage of it carries the same one.
  predicate OneBody(w: World)
  {
    forall a <- w.bodies, b <- w.bodies :: a.0 == b.0 ==> a == b
  }

  predicate BodiesFit(w: World)
  {
    && (forall id <- w.staged :: (id, w.staged[id]) in w.bodies)
    && (forall p <- w.publishers :: (w.publishers[p].id, w.publishers[p].event) in w.bodies)
    && (forall p <- w.publishers :: w.publishers[p].phase == Published ==>
       (w.publishers[p].id, w.publishers[p].event) in w.delivered)
    && (w.relay.ingesting.Some? ==> exists b <- w.bodies :: b.0 == w.relay.ingesting.value && b in w.delivered)
    && (forall b <- w.bodies :: (b.0 in w.staged && w.staged[b.0] == b.1) || b in w.delivered)
  }

  lemma StepKeepsBodies(w: World, step: Step)
    requires BodiesFit(w) && Enabled(w, step) && OneBody(Apply(w, step))
    ensures BodiesFit(Apply(w, step)) && OneBody(w)
  {
    var v := Apply(w, step);
    match step
    case Ingest =>
      if w.relay.todo[0] in w.staged {
        assert (w.relay.todo[0], w.staged[w.relay.todo[0]]) in v.delivered;
      }
    case _ =>
  }

  // With one body per run id, every body ever staged is still staged or was delivered itself.
  lemma {:induction false} BodiesSurvive(steps: seq<Step>)
    requires Execute(steps).Some? && OneBody(Execute(steps).value)
    ensures BodiesFit(Execute(steps).value)
    decreases |steps|
  {
    if steps != [] {
      var n := |steps| - 1;
      var before := Execute(steps[..n]).value;
      assert before.bodies <= Execute(steps).value.bodies;
      BodiesSurvive(steps[..n]);
      StepKeepsBodies(before, steps[n]);
    }
  }

  predicate BodyKept(w: World, b: (Id, Event))
  {
    (b.0 in w.staged && w.staged[b.0] == b.1) || b in w.delivered
  }

  // Whatever is staged out of these bodies, and however the run goes, no body is lost.
  ghost predicate NoBodyIsLost(bodies: iset<(Id, Event)>)
  {
    forall steps :: Execute(steps).Some? && (forall b <- Execute(steps).value.bodies :: b in bodies) ==>
      forall b <- Execute(steps).value.bodies :: BodyKept(Execute(steps).value, b)
  }

  // No body is lost exactly when each run id has one body.
  lemma NoBodyIsLostIff(bodies: iset<(Id, Event)>)
    ensures NoBodyIsLost(bodies) <==> forall a <- bodies, b <- bodies :: a.0 == b.0 ==> a == b
  {
    hide Execute;
    if forall a <- bodies, b <- bodies :: a.0 == b.0 ==> a == b {
      forall steps | Execute(steps).Some? && forall b <- Execute(steps).value.bodies :: b in bodies
        ensures forall b <- Execute(steps).value.bodies :: BodyKept(Execute(steps).value, b)
      {
        BodiesSurvive(steps);
      }
    }
    forall a, b | a in bodies && b in bodies && a.0 == b.0 && a != b ensures !NoBodyIsLost(bodies) {
      TwoBodiesLoseOne(bodies, a, b);
    }
  }

  lemma TwoBodiesLoseOne(bodies: iset<(Id, Event)>, a: (Id, Event), b: (Id, Event))
    requires a in bodies && b in bodies && a.0 == b.0 && a != b
    ensures !NoBodyIsLost(bodies)
  {
    hide Execute;
    RestagedBodyCanBeLost(a.0, a.1, b.1, Pid(0), Pid(1));
    var steps :| Execute(steps).Some? && Execute(steps).value.bodies == {a, b}
                 && a.0 !in Execute(steps).value.staged && b !in Execute(steps).value.delivered;
    assert !BodyKept(Execute(steps).value, b);
  }

  // ---- what a relay tick and a redelivery do ----

  function Follow(w: World, steps: seq<Step>): Option<World>
    decreases |steps|
  {
    if steps == [] then Some(w)
    else if !Enabled(w, steps[0]) then None
    else Follow(Apply(w, steps[0]), steps[1..])
  }

  lemma FollowOn(w: World, step: Step, rest: seq<Step>)
    requires Enabled(w, step)
    ensures Follow(w, [step] + rest) == Follow(Apply(w, step), rest)
  {
    assert ([step] + rest)[1..] == rest;
  }

  lemma FollowTwo(w: World, a: Step, b: Step)
    requires Enabled(w, a) && Enabled(Apply(w, a), b)
    ensures Follow(w, [a, b]) == Some(Apply(Apply(w, a), b))
  {
    assert [a, b] == [a] + [b] && [b] == [b] + [];
    FollowOn(w, a, [b]);
    FollowOn(Apply(w, a), b, []);
  }

  lemma FollowThree(w: World, a: Step, b: Step, c: Step, rest: seq<Step>)
    requires Enabled(w, a) && Enabled(Apply(w, a), b) && Enabled(Apply(Apply(w, a), b), c)
    ensures Follow(w, [a, b, c] + rest) == Follow(Apply(Apply(Apply(w, a), b), c), rest)
  {
    assert [a, b, c] + rest == [a] + ([b] + ([c] + rest));
    FollowOn(w, a, [b] + ([c] + rest));
    FollowOn(Apply(w, a), b, [c] + rest);
    FollowOn(Apply(Apply(w, a), b), c, rest);
  }

  // Ingest and drop, for each id that is listed.
  function Drain(ids: seq<Id>): seq<Step>
  {
    if ids == [] then [] else [Ingest, RelayDrop] + Drain(ids[1..])
  }

  // A tick nobody disturbs delivers the body of each object it lists, takes the objects away, and leaves
  // the relay idle. Every other object stays as it was.
  lemma TickDelivers(w: World, ids: seq<Id>)
    requires w.relay == Relay([], None) && (forall id <- ids :: id in w.staged)
    requires forall i, j :: 0 <= i < j < |ids| ==> ids[i] != ids[j]
    ensures var end := Follow(w, [List(ids)] + Drain(ids)); end.Some? && Drained(w, ids, end.value)
  {
    var listed := Apply(w, List(ids));
    assert ([List(ids)] + Drain(ids))[1..] == Drain(ids);
    DrainDelivers(listed, ids);
  }

  // v is w with the listed objects delivered and gone, and the relay idle.
  predicate Drained(w: World, ids: seq<Id>, v: World)
  {
    && v.relay == Relay([], None) && v.publishers == w.publishers && v.acked == w.acked
    && v.staged == w.staged - (set id | id in ids)
    && v.delivered == w.delivered + (set id | id in ids && id in w.staged :: (id, w.staged[id]))
  }

  lemma {:induction false} DrainDelivers(w: World, ids: seq<Id>)
    requires w.relay == Relay(ids, None) && (forall id <- ids :: id in w.staged)
    requires forall i, j :: 0 <= i < j < |ids| ==> ids[i] != ids[j]
    ensures Follow(w, Drain(ids)).Some? && Drained(w, ids, Follow(w, Drain(ids)).value)
    decreases |ids|
  {
    hide Enabled, Apply;
    if ids != [] {
      var rest := ids[1..];
      var dropped := OneDrained(w, ids);
      assert Drain(ids) == [Ingest] + ([RelayDrop] + Drain(rest));
      hide Follow, Drained;
      FollowOn(w, Ingest, [RelayDrop] + Drain(rest));
      FollowOn(Apply(w, Ingest), RelayDrop, Drain(rest));
      DrainDelivers(dropped, rest);
      DrainedMore(w, ids, dropped, Follow(dropped, Drain(rest)).value);
    }
  }

  lemma OneDrained(w: World, ids: seq<Id>) returns (dropped: World)
    requires ids != [] && w.relay == Relay(ids, None) && (forall id <- ids :: id in w.staged)
    requires forall i, j :: 0 <= i < j < |ids| ==> ids[i] != ids[j]
    ensures Enabled(w, Ingest) && Enabled(Apply(w, Ingest), RelayDrop)
    ensures dropped == Apply(Apply(w, Ingest), RelayDrop)
    ensures dropped.relay == Relay(ids[1..], None) && (forall id <- ids[1..] :: id in dropped.staged)
    ensures dropped.publishers == w.publishers && dropped.acked == w.acked && dropped.staged == w.staged - {ids[0]}
    ensures dropped.delivered == w.delivered + {(ids[0], w.staged[ids[0]])}
  {
    dropped := Apply(Apply(w, Ingest), RelayDrop);
    assert ids == [ids[0]] + ids[1..];
    forall id <- ids[1..] ensures id != ids[0] {
      var i :| 0 <= i < |ids[1..]| && ids[1..][i] == id;
      assert ids[i + 1] == id;
    }
  }

  lemma DrainedMore(w: World, ids: seq<Id>, dropped: World, v: World)
    requires ids != [] && (forall id <- ids :: id in w.staged) && Drained(dropped, ids[1..], v)
    requires forall i, j :: 0 <= i < j < |ids| ==> ids[i] != ids[j]
    requires dropped.publishers == w.publishers && dropped.acked == w.acked && dropped.staged == w.staged - {ids[0]}
    requires dropped.delivered == w.delivered + {(ids[0], w.staged[ids[0]])}
    ensures Drained(w, ids, v)
  {
    var first, rest := ids[0], ids[1..];
    assert ids == [first] + rest;
    forall id <- rest ensures id != first && dropped.staged[id] == w.staged[id] {
      var i :| 0 <= i < |rest| && rest[i] == id;
      assert ids[i + 1] == id;
    }
    assert (set id | id in ids) == {first} + set id | id in rest;
  }

  // What a publisher does before it stops: its publish fails, or it crashes before or after that.
  predicate Abandons(p: Pid, steps: seq<Step>)
  {
    steps == [PublishFail(p)] || steps == [Stop(p)] || steps == [PublishFail(p), Stop(p)]
  }

  // An event whose publisher gave it up stays staged, and the next tick that lists it delivers it; so it
  // does when the relay stops after the ingest, and lists it again.
  lemma AbandonedIsRelayed(w: World, p: Pid, id: Id, event: Event, rest: seq<Step>)
    requires w.relay == Relay([], None) && p !in w.publishers && Abandons(p, rest)
    ensures var left := Follow(w, [Stage(p, id, event)] + rest);
      && left.Some? && left.value.staged == w.staged[id := event] && left.value.delivered == w.delivered
      && left.value.relay == w.relay && p in left.value.publishers && left.value.publishers[p].phase == Done
      && var once, twice := Follow(left.value, [List([id]), Ingest, RelayDrop]),
                            Follow(left.value, [List([id]), Ingest, RelayStop, List([id]), Ingest, RelayDrop]);
      && once.Some? && twice.Some?
      && id !in once.value.staged && (id, event) in once.value.delivered
      && id !in twice.value.staged && (id, event) in twice.value.delivered
  {
    hide Apply, Enabled;
    var left := LeftStaged(w, p, id, event, rest);
    TwiceListed(left, id);
  }

  lemma LeftStaged(w: World, p: Pid, id: Id, event: Event, rest: seq<Step>) returns (left: World)
    requires p !in w.publishers && Abandons(p, rest)
    ensures Follow(w, [Stage(p, id, event)] + rest) == Some(left)
    ensures left.staged == w.staged[id := event] && left.delivered == w.delivered && left.relay == w.relay
    ensures p in left.publishers && left.publishers[p].phase == Done
  {
    var a := Apply(w, Stage(p, id, event));
    left := Apply(a, rest[0]);
    FollowOn(w, Stage(p, id, event), rest);
    if |rest| == 1 {
      assert rest == [rest[0]] + [];
      FollowOn(a, rest[0], []);
    } else {
      FollowTwo(a, PublishFail(p), Stop(p));
      left := Apply(left, Stop(p));
    }
  }

  lemma TwiceListed(w: World, id: Id)
    requires w.relay == Relay([], None) && id in w.staged
    ensures var once, twice := Follow(w, [List([id]), Ingest, RelayDrop]),
                               Follow(w, [List([id]), Ingest, RelayStop, List([id]), Ingest, RelayDrop]);
      && once.Some? && id !in once.value.staged && (id, w.staged[id]) in once.value.delivered
      && twice.Some? && id !in twice.value.staged && (id, w.staged[id]) in twice.value.delivered
  {
    var tick := [List([id]), Ingest, RelayDrop];
    var b := Apply(Apply(w, List([id])), Ingest);
    var c := Apply(b, RelayStop);
    assert tick + [] == tick;
    assert [List([id]), Ingest, RelayStop, List([id]), Ingest, RelayDrop] == [List([id]), Ingest, RelayStop] + tick;
    FollowThree(w, List([id]), Ingest, RelayDrop, []);
    FollowThree(w, List([id]), Ingest, RelayStop, tick);
    FollowThree(c, List([id]), Ingest, RelayDrop, []);
  }

  // A publisher nothing stops has its event acknowledged and takes it away again.
  lemma PublishedIsDropped(w: World, p: Pid, id: Id, event: Event)
    requires p !in w.publishers
    ensures var end := Follow(w, [Stage(p, id, event), PublishAck(p), DropStaged(p)]);
      && end.Some? && id in end.value.acked && (id, event) in end.value.delivered
      && end.value.staged == w.staged - {id} && end.value.relay == w.relay
  {
    var steps := [Stage(p, id, event), PublishAck(p), DropStaged(p)];
    assert steps + [] == steps;
    FollowThree(w, Stage(p, id, event), PublishAck(p), DropStaged(p), []);
  }

  // ---- the bounded, oldest-first relay ----

  // The first `limit` entries of some arrangement of the staged objects by modification time.
  ghost predicate IsTick(staged: map<Id, int>, limit: nat, ids: seq<Id>)
  {
    && (forall id <- ids :: id in staged)
    && (forall i, j :: 0 <= i < j < |ids| ==> ids[i] != ids[j] && staged[ids[i]] <= staged[ids[j]])
    && |ids| <= limit
    && (forall id <- staged :: id !in ids ==> |ids| == limit && forall l <- ids :: staged[l] <= staged[id])
  }

  // There always is one: the oldest object, then a tick of the others.
  lemma {:induction false} SomeTick(staged: map<Id, int>, limit: nat) returns (ids: seq<Id>)
    ensures IsTick(staged, limit, ids)
    ensures |ids| == if |staged| < limit then |staged| else limit
    decreases limit
  {
    if limit == 0 || staged == map[] {
      ids := [];
    } else {
      var x := Oldest(staged);
      var others := staged - {x};
      assert others.Keys == staged.Keys - {x} && |others| == |staged| - 1;
      var rest := SomeTick(others, limit - 1);
      ids := [x] + rest;
      OldestFirst(staged, limit, x, rest);
    }
  }

  lemma OldestFirst(staged: map<Id, int>, limit: nat, x: Id, rest: seq<Id>)
    requires 0 < limit && x in staged && (forall y <- staged :: staged[x] <= staged[y])
    requires IsTick(staged - {x}, limit - 1, rest)
    ensures IsTick(staged, limit, [x] + rest)
  {
    var ids := [x] + rest;
    assert forall id <- staged :: id == x || id in staged - {x};
    assert forall id <- ids :: id == x || id in rest;
    forall i, j | 0 <= i < j < |ids| ensures ids[i] != ids[j] && staged[ids[i]] <= staged[ids[j]] {
      assert ids[j] == rest[j - 1] && (i > 0 ==> ids[i] == rest[i - 1]);
    }
  }

  lemma {:induction false} Oldest(staged: map<Id, int>) returns (x: Id)
    requires staged != map[]
    ensures x in staged && forall y <- staged :: staged[x] <= staged[y]
    decreases |staged|
  {
    x :| x in staged;
    var others := staged - {x};
    if others != map[] {
      assert others.Keys == staged.Keys - {x} && |others| == |staged| - 1;
      var y := Oldest(others);
      assert forall z <- staged :: z == x || z in others;
      if staged[y] < staged[x] {
        x := y;
      }
    }
  }

  datatype QueueEvent =
    | Arrive(id: Id, mtime: int)     // staged, or staged again
    | Leave(id: Id)                  // dropped by its publisher
    | Tick(ids: seq<Id>)             // listed, ingested and dropped

  // The objects that may be listed before x: no younger than it.
  function Older(staged: map<Id, int>, x: Id): set<Id>
    requires x in staged
  {
    set y | y in staged && y != x && staged[y] <= staged[x]
  }

  // What happens to the prefix while x waits: later arrivals are younger than x, which is itself
  // neither restaged nor dropped.
  ghost predicate Happens(staged: map<Id, int>, limit: nat, x: Id, e: QueueEvent)
    requires x in staged
  {
    match e
    case Arrive(id, mtime) => id != x && staged[x] < mtime
    case Leave(id) => id != x
    case Tick(ids) => IsTick(staged, limit, ids)
  }

  function After(staged: map<Id, int>, e: QueueEvent): map<Id, int>
  {
    match e
    case Arrive(id, mtime) => staged[id := mtime]
    case Leave(id) => staged - {id}
    case Tick(ids) => staged - set id | id in ids
  }

  // The events happen one after the other and no tick lists x.
  ghost predicate Waits(staged: map<Id, int>, limit: nat, x: Id, events: seq<QueueEvent>)
    decreases |events|
  {
    x in staged &&
    (events == [] ||
     (Happens(staged, limit, x, events[0])
      && (events[0].Tick? ==> x !in events[0].ids)
      && Waits(After(staged, events[0]), limit, x, events[1..])))
  }

  function Ticks(events: seq<QueueEvent>): nat
  {
    if events == [] then 0 else (if events[0].Tick? then 1 else 0) + Ticks(events[1..])
  }

  // A tick that does not list x takes `limit` objects from in front of it.
  lemma TickAdvances(staged: map<Id, int>, limit: nat, x: Id, ids: seq<Id>)
    requires x in staged && IsTick(staged, limit, ids) && x !in ids
    ensures |Older(After(staged, Tick(ids)), x)| + limit == |Older(staged, x)|
  {
    var listed := set id | id in ids;
    DistinctCount(ids);
    assert Older(staged, x) == Older(After(staged, Tick(ids)), x) + listed;
    assert Older(After(staged, Tick(ids)), x) !! listed;
  }

  lemma {:induction false} DistinctCount(ids: seq<Id>)
    requires forall i, j :: 0 <= i < j < |ids| ==> ids[i] != ids[j]
    ensures |set id | id in ids| == |ids|
    decreases |ids|
  {
    if ids != [] {
      var n := |ids| - 1;
      DistinctCount(ids[..n]);
      assert (set id | id in ids) == (set id | id in ids[..n]) + {ids[n]};
    }
  }

  lemma {:induction false} Subset(a: set<Id>, b: set<Id>)
    requires a <= b
    ensures |a| <= |b|
  {
    assert b == a + (b - a);
  }

  // An object with p older ones that k ticks have passed over has k * limit <= p: it is listed by
  // tick p / limit + 1 at the latest, whatever arrives meanwhile.
  lemma {:induction false} NothingStarves(staged: map<Id, int>, limit: nat, x: Id, events: seq<QueueEvent>)
    requires Waits(staged, limit, x, events)
    ensures Ticks(events) * limit <= |Older(staged, x)|
    ensures 0 < limit ==> Ticks(events) < |Older(staged, x)| / limit + 1
    decreases |events|
  {
    if events != [] {
      var e, next := events[0], After(staged, events[0]);
      NothingStarves(next, limit, x, events[1..]);
      if e.Tick? {
        TickAdvances(staged, limit, x, e.ids);
        assert Ticks(events) * limit == Ticks(events[1..]) * limit + limit;
      } else {
        Subset(Older(next, x), Older(staged, x));
      }
    }
    if 0 < limit {
      DivBound(Ticks(events), limit, |Older(staged, x)|);
    }
  }

  lemma DivBound(k: nat, limit: nat, p: nat)
    requires 0 < limit && k * limit <= p
    ensures k < p / limit + 1
  {
    MulMono(p / limit + 1, k, limit);
  }

  lemma MulMono(a: nat, b: nat, c: nat)
    ensures a <= b ==> a * c <= b * c
  {
    if a <= b {
      assert b * c == a * c + (b - a) * c;
    }
  }
}
