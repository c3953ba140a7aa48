// Model registration against the orphan-artifact janitor: runs write bytes and commit a registry
// row; sweeps read, list and delete.

module ModelJanitor {

  import opened Common

  // Tokens, artifact names, training runs and sweeps are only compared for equality.
  datatype Key = Key(id: int)
  type Token = Key
  type Name = Key
  type Id = Key
  type Object = (Token, Name)

  // One registry commit: the rows of one publish.
  datatype Commit = Commit(token: Token, names: set<Name>)

  // The registry dataset does not exist before the first publish.
  datatype Registry = Absent | Present(commits: seq<Commit>)

  // A training run: it writes its artifacts, probes the registry, then creates or appends.
  datatype Phase = Writing | Creating | Appending | Published(version: nat) | Failed
  datatype Run = Run(token: Token, names: set<Name>, written: set<Name>, lastByte: int, phase: Phase)

  // A sweep: the referenced set it read and when, its cutoff once computed, and the newest-object
  // times it has listed. No referenced set means the registry was unreadable: report only.
  datatype Sweep = Sweep(readAt: int, referenced: Option<set<Token>>, cutoff: Option<int>, ages: map<Token, int>)

  datatype World = World(
    ttl: nat,
    now: int,
    registry: Registry,
    objects: map<Object, int>,      // artifact objects with their mtimes
    runs: map<Id, Run>,
    sweeps: map<Id, Sweep>,
    everWritten: set<Object>,       // history: what was written, the last write per token,
    lastWrite: map<Token, int>,     // the tokens a delete has hit,
    touched: set<Token>,            // and when and after which byte each commit happened
    commitTimes: seq<(int, int)>)
  {
    function Commits(): seq<Commit>
    {
      if registry.Present? then registry.commits else []
    }

    predicate Committed(k: Token)
    {
      exists c <- Commits() :: c.token == k
    }

    function Tokens(): set<Token>
    {
      set c <- Commits() :: c.token
    }
  }

  datatype Step =
    | Tick(elapsed: nat)
    | StartRun(r: Id, token: Token, names: set<Name>)
    | WriteObject(r: Id, name: Name)
    | Probe(r: Id)
    | Create(r: Id)
    | Append(r: Id)
    | Fail(r: Id)
    | ReadRegistry(w: Id, readable: bool)
    | SetCutoff(w: Id)
    | ListToken(w: Id, token: Token, newest: int)
    | DeleteToken(w: Id, token: Token, gone: set<Name>)

  // ---- the steps of scripts/ray_train_job.py and scripts/model_artifact_janitor.py ----

  predicate InPhase(s: World, r: Id, p: Phase)
  {
    r in s.runs && s.runs[r].phase == p
  }

  function Publish(s: World, r: Id, registry: Registry): World
    requires r in s.runs && registry.Present?
  {
    s.(registry := registry,
       runs := s.runs[r := s.runs[r].(phase := Published(|registry.commits|))],
       commitTimes := s.commitTimes + [(s.now, s.runs[r].lastByte)])
  }

  // The newest mtime under a token's prefix.
  predicate IsNewest(s: World, k: Token, newest: int)
  {
    && (exists o <- s.objects :: o.0 == k && s.objects[o] == newest)
    && (forall o <- s.objects :: o.0 == k ==> s.objects[o] <= newest)
  }

  predicate Candidate(w: Sweep, k: Token)
  {
    && w.referenced.Some? && k !in w.referenced.value
    && w.cutoff.Some? && k in w.ages && w.ages[k] <= w.cutoff.value
  }

  predicate Enabled(s: World, step: Step)
  {
    match step
    case Tick(_) => true
    case StartRun(r, _, names) => r !in s.runs && names != {}
    case WriteObject(r, name) => InPhase(s, r, Writing) && name in s.runs[r].names
    case Probe(r) => InPhase(s, r, Writing) && s.runs[r].written == s.runs[r].names
    case Create(r) => InPhase(s, r, Creating)
    case Append(r) => InPhase(s, r, Appending) && s.registry.Present?
    case Fail(r) => r in s.runs && !s.runs[r].phase.Published?
    case ReadRegistry(w, _) => w !in s.sweeps
    case SetCutoff(w) => w in s.sweeps && s.sweeps[w].cutoff.None?
    case ListToken(w, k, newest) => w in s.sweeps && s.sweeps[w].cutoff.Some? && IsNewest(s, k, newest)
    case DeleteToken(w, k, _) => w in s.sweeps && Candidate(s.sweeps[w], k)
  }

  function Apply(s: World, step: Step): World
    requires Enabled(s, step)
  {
    match step
    case Tick(elapsed) => s.(now := s.now + elapsed)
    case StartRun(r, k, names) => s.(runs := s.runs[r := Run(k, names, {}, s.now, Writing)])
    case WriteObject(r, name) =>
      var run := s.runs[r];
      s.(objects := s.objects[(run.token, name) := s.now],
         runs := s.runs[r := run.(written := run.written + {name}, lastByte := s.now)],
         everWritten := s.everWritten + {(run.token, name)},
         lastWrite := s.lastWrite[run.token := s.now])
    case Probe(r) => s.(runs := s.runs[r := s.runs[r].(phase := if s.registry.Present? then Appending else Creating)])
    case Create(r) =>
      // losing the first-create race falls through to an append
      if s.registry.Present? then s.(runs := s.runs[r := s.runs[r].(phase := Appending)])
      else Publish(s, r, Present([Commit(s.runs[r].token, s.runs[r].names)]))
    case Append(r) => Publish(s, r, Present(s.registry.commits + [Commit(s.runs[r].token, s.runs[r].names)]))
    case Fail(r) => s.(runs := s.runs[r := s.runs[r].(phase := Failed)])
    case ReadRegistry(w, readable) =>
      s.(sweeps := s.sweeps[w := Sweep(s.now, if readable then Some(s.Tokens()) else None, None, map[])])
    case SetCutoff(w) => s.(sweeps := s.sweeps[w := s.sweeps[w].(cutoff := Some(s.now - s.ttl))])
    case ListToken(w, k, newest) => s.(sweeps := s.sweeps[w := s.sweeps[w].(ages := s.sweeps[w].ages[k := newest])])
    case DeleteToken(_, k, gone) =>
      // a delete may fail part of the way
      s.(objects := map o | o in s.objects && !(o.0 == k && o.1 in gone) :: s.objects[o], touched := s.touched + {k})
  }

  // What the lane has to guarantee for the race to be harmless: no write to a token whose bytes
  // have already passed the TTL; a commit that follows its run's last byte by less than the TTL
  // minus the gap; and a sweep that takes at most the gap from reading the registry to its cutoff.
  datatype Rule = FreshBytes | PromptCommit | ShortGap

  const ALL_RULES := {FreshBytes, PromptCommit, ShortGap}

  predicate Keeps(s: World, gap: nat, step: Step, rule: Rule)
    requires Enabled(s, step)
  {
    match rule
    case FreshBytes =>
      step.WriteObject? ==>
        var k := s.runs[step.r].token;
        k in s.lastWrite ==> s.now - s.lastWrite[k] < s.ttl
    case PromptCommit =>
      (step.Create? && s.registry.Absent?) || step.Append? ==> s.now - s.runs[step.r].lastByte < s.ttl - gap
    case ShortGap => step.SetCutoff? ==> s.now - s.sweeps[step.w].readAt <= gap
  }

  predicate Disciplined(s: World, gap: nat, step: Step)
    requires Enabled(s, step)
  {
    Keeps(s, gap, step, FreshBytes) && Keeps(s, gap, step, PromptCommit) && Keeps(s, gap, step, ShortGap)
  }

  function Empty(ttl: nat, now: int): World
  {
    World(ttl, now, Absent, map[], map[], map[], {}, map[], {}, [])
  }

  // The world after the steps, or None when one of them is not enabled.
  function Execute(s: World, steps: seq<Step>): Option<World>
    decreases |steps|
  {
    if steps == [] then Some(s)
    else
      var before := Execute(s, steps[..|steps| - 1]);
      var last := steps[|steps| - 1];
      if before.None? || !Enabled(before.value, last) then None else Some(Apply(before.value, last))
  }

  // Every step of the execution keeps the rules.
  ghost predicate AllKeep(s: World, gap: nat, steps: seq<Step>, rules: set<Rule>)
    requires Execute(s, steps).Some?
    decreases |steps|
  {
    steps == [] ||
    var n := |steps| - 1;
    && AllKeep(s, gap, steps[..n], rules)
    && forall rule <- rules :: Keeps(Execute(s, steps[..n]).value, gap, steps[n], rule)
  }

  // Every artifact a registry row points at is still there.
  predicate Safe(s: World)
  {
    forall c <- s.Commits(), n <- c.names :: (c.token, n) in s.objects
  }

  // ---- the invariant ----

  // No future commit or write can reach the token: it is uncommitted and its bytes passed the TTL.
  predicate Doomed(s: World, k: Token)
  {
    !s.Committed(k) && k in s.lastWrite && s.lastWrite[k] <= s.now - s.ttl
  }

  // The objects of an untouched token are all there, the last one written among them.
  predicate Intact(s: World)
  {
    && (forall o <- s.objects :: o in s.everWritten)
    && (forall o <- s.everWritten :: o.0 in s.lastWrite)
    && (forall o <- s.everWritten :: o.0 !in s.touched ==> o in s.objects)
    && (forall o <- s.objects :: s.objects[o] <= s.lastWrite[o.0])
    && (forall k <- s.lastWrite :: s.lastWrite[k] <= s.now)
    && (forall k <- s.lastWrite :: k !in s.touched ==>
       exists o :: o in s.objects && o.0 == k && s.objects[o] == s.lastWrite[k])
    && (forall k <- s.touched :: Doomed(s, k))
  }

  predicate RunFits(s: World, run: Run)
  {
    && run.written <= run.names && run.names != {}
    && (forall n <- run.written :: (run.token, n) in s.everWritten)
    && (run.phase.Creating? || run.phase.Appending? ==> run.written == run.names)
    && (run.written != {} ==> run.token in s.lastWrite && run.lastByte <= s.lastWrite[run.token])
  }

  // Commits are dated, came soon after their last byte, and point at what was written.
  predicate CommitsFit(s: World, gap: nat)
  {
    && |s.commitTimes| == |s.Commits()|
    && (forall i :: 0 <= i < |s.Commits()| ==>
          var c, (at, byte) := s.Commits()[i], s.commitTimes[i];
          && at <= s.now && at - byte < s.ttl - gap
          && c.token in s.lastWrite && byte <= s.lastWrite[c.token]
          && (forall n <- c.names :: (c.token, n) in s.everWritten))
  }

  // A sweep's referenced set has every token committed before it was read, and a token it would
  // delete is doomed.
  predicate SweepFits(s: World, gap: nat, w: Sweep)
  {
    && w.readAt <= s.now && (w.cutoff.None? ==> w.ages == map[])
    && (w.referenced.Some? ==>
       forall i :: 0 <= i < |s.Commits()| && i < |s.commitTimes| && s.commitTimes[i].0 < w.readAt ==>
          s.Commits()[i].token in w.referenced.value)
    && (w.cutoff.Some? ==> w.cutoff.value <= w.readAt + gap - s.ttl && w.cutoff.value <= s.now - s.ttl)
    && (forall k <- w.ages :: Candidate(w, k) ==> Doomed(s, k))
  }

  predicate Inv(s: World, gap: nat)
  {
    && Intact(s)
    && CommitsFit(s, gap)
    && (forall r <- s.runs :: RunFits(s, s.runs[r]))
    && (forall w <- s.sweeps :: SweepFits(s, gap, s.sweeps[w]))
  }

  // ---- every step keeps it ----

  // What a step leaves alone: nothing committed, no token newly written.
  predicate Quiet(s: World, t: World)
  {
    && t.ttl == s.ttl && s.now <= t.now
    && t.Commits() == s.Commits() && t.commitTimes == s.commitTimes
    && t.lastWrite == s.lastWrite && t.everWritten == s.everWritten
  }

  lemma QuietKeepsRun(s: World, t: World, run: Run)
    requires RunFits(s, run) && Quiet(s, t)
    ensures RunFits(t, run)
  {
  }

  lemma QuietKeepsSweep(s: World, t: World, gap: nat, w: Sweep)
    requires SweepFits(s, gap, w) && Quiet(s, t)
    ensures SweepFits(t, gap, w)
  {
    assert forall k :: Doomed(s, k) ==> Doomed(t, k);
  }

  lemma QuietKeepsIntact(s: World, t: World)
    requires Intact(s) && Quiet(s, t) && t.objects == s.objects && t.touched == s.touched
    ensures Intact(t)
  {
    assert forall k :: Doomed(s, k) ==> Doomed(t, k);
  }

  // A quiet step keeps the invariant if what it changed fits.
  lemma QuietKeeps(s: World, t: World, gap: nat)
    requires Inv(s, gap) && Quiet(s, t) && Intact(t)
    requires forall r <- t.runs :: (r in s.runs && t.runs[r] == s.runs[r]) || RunFits(t, t.runs[r])
    requires forall w <- t.sweeps :: (w in s.sweeps && t.sweeps[w] == s.sweeps[w]) || SweepFits(t, gap, t.sweeps[w])
    ensures Inv(t, gap)
  {
    forall r <- t.runs ensures RunFits(t, t.runs[r]) {
      if r in s.runs && t.runs[r] == s.runs[r] { QuietKeepsRun(s, t, s.runs[r]); }
    }
    forall w <- t.sweeps ensures SweepFits(t, gap, t.sweeps[w]) {
      if w in s.sweeps && t.sweeps[w] == s.sweeps[w] { QuietKeepsSweep(s, t, gap, s.sweeps[w]); }
    }
  }

  lemma RunStepKeeps(s: World, gap: nat, step: Step)
    requires Inv(s, gap) && Enabled(s, step)
    requires step.Tick? || step.StartRun? || step.Probe? || step.Fail? || (step.Create? && s.registry.Present?)
    ensures Inv(Apply(s, step), gap)
  {
    var t := Apply(s, step);
    QuietKeepsIntact(s, t);
    hide Intact, SweepFits, CommitsFit;
    assert forall r <- s.runs :: RunFits(s, s.runs[r]);
    QuietKeeps(s, t, gap);
  }

  lemma ReadKeeps(s: World, gap: nat, step: Step)
    requires Inv(s, gap) && (step.ReadRegistry? || step.SetCutoff?)
    requires Enabled(s, step) && Disciplined(s, gap, step)
    ensures Inv(Apply(s, step), gap)
  {
    var t := Apply(s, step);
    QuietKeepsIntact(s, t);
    hide Intact, RunFits, Doomed;
    if step.SetCutoff? { assert SweepFits(s, gap, s.sweeps[step.w]); }
    assert SweepFits(t, gap, t.sweeps[step.w]);
    hide SweepFits;
    QuietKeeps(s, t, gap);
  }

  // A token listed as old and not referenced is doomed: had it been committed since the registry
  // was read, its last byte would be younger than the cutoff.
  lemma ListedIsDoomed(s: World, gap: nat, w: Sweep, k: Token, newest: int)
    requires Inv(s, gap) && SweepFits(s, gap, w) && IsNewest(s, k, newest)
    requires Candidate(w.(ages := w.ages[k := newest]), k)
    ensures Doomed(s, k)
  {
    if k !in s.touched {
      var o :| o in s.objects && o.0 == k && s.objects[o] == s.lastWrite[k];
      assert newest == s.lastWrite[k];
      forall i | 0 <= i < |s.Commits()| && s.commitTimes[i].0 >= w.readAt ensures s.Commits()[i].token != k {
        assert s.commitTimes[i].1 > w.cutoff.value;
      }
    }
  }

  lemma ListKeeps(s: World, gap: nat, step: Step)
    requires Inv(s, gap) && step.ListToken? && Enabled(s, step)
    ensures Inv(Apply(s, step), gap)
  {
    var t, w, k := Apply(s, step), s.sweeps[step.w], step.token;
    var w' := w.(ages := w.ages[k := step.newest]);
    assert SweepFits(s, gap, w);
    forall j <- w'.ages | Candidate(w', j) ensures Doomed(s, j) {
      if j == k {
        ListedIsDoomed(s, gap, w, k, step.newest);
      } else {
        assert Candidate(w, j);
      }
    }
    assert SweepFits(s, gap, w');
    QuietKeepsIntact(s, t);
    QuietKeepsSweep(s, t, gap, w');
    hide SweepFits, Intact, RunFits, CommitsFit;
    QuietKeeps(s, t, gap);
  }

  lemma DeleteKeeps(s: World, gap: nat, step: Step)
    requires Inv(s, gap) && step.DeleteToken? && Enabled(s, step)
    ensures Inv(Apply(s, step), gap)
  {
    var t := Apply(s, step);
    assert SweepFits(s, gap, s.sweeps[step.w]);
    hide SweepFits, Intact, RunFits, CommitsFit;
    QuietKeeps(s, t, gap);
  }

  lemma WriteKeepsIntact(s: World, t: World, o: Object)
    requires Intact(s) && !Doomed(s, o.0)
    requires t.ttl == s.ttl && t.now == s.now && t.registry == s.registry && t.touched == s.touched
    requires t.objects == s.objects[o := s.now] && t.lastWrite == s.lastWrite[o.0 := s.now] &&
      t.everWritten == s.everWritten + {o}
    ensures Intact(t) && forall k :: Doomed(s, k) ==> Doomed(t, k)
  {
    assert forall j :: Doomed(s, j) ==> Doomed(t, j);
    forall j <- t.lastWrite | j !in t.touched
      ensures exists p :: p in t.objects && p.0 == j && t.objects[p] == t.lastWrite[j]
    {
      if j == o.0 {
        assert t.objects[o] == t.lastWrite[j];
      } else {
        var p :| p in s.objects && p.0 == j && s.objects[p] == s.lastWrite[j];
        assert t.objects[p] == t.lastWrite[j];
      }
    }
  }

  // Later writes and commits of tokens that are not doomed disturb no run and no sweep.
  lemma GrowthKeeps(s: World, t: World, gap: nat)
    requires Inv(s, gap) && Intact(t) && CommitsFit(t, gap)
    requires t.ttl == s.ttl && t.now == s.now && s.everWritten <= t.everWritten && t.sweeps == s.sweeps
    requires forall k <- s.lastWrite :: k in t.lastWrite && s.lastWrite[k] <= t.lastWrite[k]
    requires forall k :: Doomed(s, k) ==> Doomed(t, k)
    requires s.Commits() <= t.Commits() && s.commitTimes <= t.commitTimes
    requires forall i :: |s.Commits()| <= i < |t.Commits()| ==> t.commitTimes[i].0 == t.now
    requires forall r <- t.runs :: (r in s.runs && t.runs[r] == s.runs[r]) || RunFits(t, t.runs[r])
    ensures Inv(t, gap)
  {
    forall r <- t.runs ensures RunFits(t, t.runs[r]) {
      if r in s.runs && t.runs[r] == s.runs[r] { assert RunFits(s, s.runs[r]); }
    }
    hide Intact, RunFits, Doomed;
    forall w <- t.sweeps ensures SweepFits(t, gap, t.sweeps[w]) {
      assert SweepFits(s, gap, s.sweeps[w]);
    }
  }

  lemma WriteKeepsCommits(s: World, t: World, gap: nat, o: Object)
    requires CommitsFit(s, gap) && forall k <- s.lastWrite :: s.lastWrite[k] <= s.now
    requires t.ttl == s.ttl && t.now == s.now && t.registry == s.registry && t.commitTimes == s.commitTimes
    requires t.lastWrite == s.lastWrite[o.0 := s.now] && t.everWritten == s.everWritten + {o}
    ensures CommitsFit(t, gap)
  {
    assert t.Commits() == s.Commits();
  }

  lemma WriteKeepsRun(s: World, t: World, r: Id, name: Name)
    requires r in s.runs && RunFits(s, s.runs[r]) && InPhase(s, r, Writing) && name in s.runs[r].names
    requires t == Apply(s, WriteObject(r, name))
    ensures RunFits(t, t.runs[r])
  {
  }

  lemma WriteKeeps(s: World, gap: nat, step: Step)
    requires Inv(s, gap) && step.WriteObject? && Enabled(s, step) && Disciplined(s, gap, step)
    ensures Inv(Apply(s, step), gap)
  {
    var t, run := Apply(s, step), s.runs[step.r];
    assert RunFits(s, run) && !Doomed(s, run.token);
    assert forall k <- s.lastWrite :: s.lastWrite[k] <= s.now;
    hide Intact, Doomed, SweepFits, CommitsFit, RunFits;
    WriteKeepsIntact(s, t, (run.token, step.name));
    WriteKeepsCommits(s, t, gap, (run.token, step.name));
    WriteKeepsRun(s, t, step.r, step.name);
    GrowthKeeps(s, t, gap);
  }

  lemma PublishKeeps(s: World, gap: nat, r: Id)
    requires Inv(s, gap) && r in s.runs && s.runs[r].written == s.runs[r].names
    requires s.now - s.runs[r].lastByte < s.ttl - gap
    ensures Inv(Publish(s, r, Present(s.Commits() + [Commit(s.runs[r].token, s.runs[r].names)])), gap)
  {
    var run := s.runs[r];
    assert RunFits(s, run) && !Doomed(s, run.token);
    var t := Publish(s, r, Present(s.Commits() + [Commit(run.token, run.names)]));
    assert t.Commits() == s.Commits() + [Commit(run.token, run.names)];
    assert forall k :: t.Committed(k) ==> s.Committed(k) || k == run.token;
    assert forall k :: Doomed(s, k) ==> Doomed(t, k);
    assert CommitsFit(t, gap) by { hide Intact, Doomed, SweepFits; }
    assert Intact(t) by { hide CommitsFit, SweepFits, RunFits; }
    assert RunFits(t, t.runs[r]);
    hide SweepFits, CommitsFit, RunFits, Intact, Doomed;
    GrowthKeeps(s, t, gap);
  }

  lemma StepKeeps(s: World, gap: nat, step: Step)
    requires Inv(s, gap) && Enabled(s, step) && Disciplined(s, gap, step)
    ensures Inv(Apply(s, step), gap)
  {
    match step
    case WriteObject(_, _) => WriteKeeps(s, gap, step);
    case Create(r) =>
      if s.registry.Present? {
        RunStepKeeps(s, gap, step);
      } else {
        assert RunFits(s, s.runs[r]);
        PublishKeeps(s, gap, r);
        assert s.Commits() + [Commit(s.runs[r].token, s.runs[r].names)] == [Commit(s.runs[r].token, s.runs[r].names)];
      }
    case Append(r) =>
      assert RunFits(s, s.runs[r]);
      PublishKeeps(s, gap, r);
    case ReadRegistry(_, _) => ReadKeeps(s, gap, step);
    case SetCutoff(_) => ReadKeeps(s, gap, step);
    case ListToken(_, _, _) => ListKeeps(s, gap, step);
    case DeleteToken(_, _, _) => DeleteKeeps(s, gap, step);
    case _ => RunStepKeeps(s, gap, step);
  }

  lemma {:induction false} RunsKeepInv(ttl: nat, now: int, gap: nat, steps: seq<Step>)
    requires Execute(Empty(ttl, now), steps).Some? && AllKeep(Empty(ttl, now), gap, steps, ALL_RULES)
    ensures Inv(Execute(Empty(ttl, now), steps).value, gap)
    decreases |steps|
  {
    if steps != [] {
      var n := |steps| - 1;
      RunsKeepInv(ttl, now, gap, steps[..n]);
      assert FreshBytes in ALL_RULES && PromptCommit in ALL_RULES && ShortGap in ALL_RULES;
      StepKeeps(Execute(Empty(ttl, now), steps[..n]).value, gap, steps[n]);
    }
  }

  // ---- no rule can be dropped ----

  lemma Extend(start: World, gap: nat, steps: seq<Step>, s: World, step: Step, rules: set<Rule>)
    returns (longer: seq<Step>, t: World)
    requires Execute(start, steps) == Some(s) && AllKeep(start, gap, steps, rules)
    requires Enabled(s, step) && forall rule <- rules :: Keeps(s, gap, step, rule)
    ensures longer == steps + [step] && t == Apply(s, step)
    ensures Execute(start, longer) == Some(t) && AllKeep(start, gap, longer, rules)
  {
    longer, t := steps + [step], Apply(s, step);
    assert longer[..|longer| - 1] == steps;
  }

  const TOKEN := Key(0)
  const WEIGHTS := Key(1)
  const RUN := Key(2)
  const RETRY := Key(3)
  const SWEEP := Key(4)

  lemma OldBytes(ttl: nat, gap: nat, rules: set<Rule>) returns (steps: seq<Step>, s: World)
    ensures Execute(Empty(ttl, 0), steps) == Some(s) && AllKeep(Empty(ttl, 0), gap, steps, rules)
    ensures (s.ttl, s.now, s.registry) == (ttl, ttl, Absent)
    ensures s.objects == map[(TOKEN, WEIGHTS) := 0] && s.lastWrite == map[TOKEN := 0]
    ensures s.runs == map[RUN := Run(TOKEN, {WEIGHTS}, {WEIGHTS}, 0, Writing)] && s.sweeps == map[]
  {
    var start := Empty(ttl, 0);
    s, steps := start, [];
    steps, s := Extend(start, gap, steps, s, StartRun(RUN, TOKEN, {WEIGHTS}), rules);
    steps, s := Extend(start, gap, steps, s, WriteObject(RUN, WEIGHTS), rules);
    assert s.runs[RUN].written == {WEIGHTS};
    steps, s := Extend(start, gap, steps, s, Tick(ttl), rules);
  }

  lemma CutoffFixed(ttl: nat, gap: nat, rules: set<Rule>) returns (steps: seq<Step>, s: World)
    ensures Execute(Empty(ttl, 0), steps) == Some(s) && AllKeep(Empty(ttl, 0), gap, steps, rules)
    ensures (s.ttl, s.now, s.registry) == (ttl, ttl, Absent)
    ensures s.objects == map[(TOKEN, WEIGHTS) := 0] && s.lastWrite == map[TOKEN := 0]
    ensures s.runs == map[RUN := Run(TOKEN, {WEIGHTS}, {WEIGHTS}, 0, Writing)]
    ensures s.sweeps == map[SWEEP := Sweep(ttl, Some({}), Some(0), map[])]
  {
    hide Execute, AllKeep, World.Committed, IsNewest;
    var start := Empty(ttl, 0);
    steps, s := OldBytes(ttl, gap, rules);
    assert s.Tokens() == {};
    steps, s := Extend(start, gap, steps, s, ReadRegistry(SWEEP, true), rules);
    steps, s := Extend(start, gap, steps, s, SetCutoff(SWEEP), rules);
  }

  // A run wrote at time 0; a TTL later a sweep reads the registry, fixes its cutoff and lists
  // the token as old.
  lemma OldTokenListed(ttl: nat, gap: nat, rules: set<Rule>) returns (steps: seq<Step>, s: World)
    ensures Execute(Empty(ttl, 0), steps) == Some(s) && AllKeep(Empty(ttl, 0), gap, steps, rules)
    ensures (s.ttl, s.now, s.registry) == (ttl, ttl, Absent)
    ensures s.objects == map[(TOKEN, WEIGHTS) := 0] && s.lastWrite == map[TOKEN := 0]
    ensures s.runs == map[RUN := Run(TOKEN, {WEIGHTS}, {WEIGHTS}, 0, Writing)]
    ensures s.sweeps == map[SWEEP := Sweep(ttl, Some({}), Some(0), map[TOKEN := 0])]
  {
    hide Execute, AllKeep, World.Committed;
    steps, s := CutoffFixed(ttl, gap, rules);
    assert s.objects[(TOKEN, WEIGHTS)] == 0 && IsNewest(s, TOKEN, 0);
    steps, s := Extend(Empty(ttl, 0), gap, steps, s, ListToken(SWEEP, TOKEN, 0), rules);
  }

  // The run commits a TTL after its last byte, and the sweep deletes its candidate.
  lemma LateCommitLosesBytes(ttl: nat, gap: nat, rules: set<Rule>) returns (steps: seq<Step>)
    requires PromptCommit !in rules
    ensures Execute(Empty(ttl, 0), steps).Some? && AllKeep(Empty(ttl, 0), gap, steps, rules)
    ensures !Safe(Execute(Empty(ttl, 0), steps).value)
  {
    hide Execute, AllKeep, World.Committed;
    var start := Empty(ttl, 0);
    var s;
    steps, s := OldTokenListed(ttl, gap, rules);
    steps, s := Extend(start, gap, steps, s, Probe(RUN), rules);
    steps, s := Extend(start, gap, steps, s, Create(RUN), rules);
    steps, s := Extend(start, gap, steps, s, DeleteToken(SWEEP, TOKEN, {WEIGHTS}), rules);
    assert Commit(TOKEN, {WEIGHTS}) in s.Commits();
  }

  // The run is retried a TTL later: it rewrites the token the sweep has already listed.
  lemma StaleRetryLosesBytes(ttl: nat, gap: nat, rules: set<Rule>) returns (steps: seq<Step>)
    requires gap < ttl && FreshBytes !in rules
    ensures Execute(Empty(ttl, 0), steps).Some? && AllKeep(Empty(ttl, 0), gap, steps, rules)
    ensures !Safe(Execute(Empty(ttl, 0), steps).value)
  {
    hide Execute, AllKeep, World.Committed;
    var start := Empty(ttl, 0);
    var s;
    steps, s := OldTokenRewritten(ttl, gap, rules);
    steps, s := Extend(start, gap, steps, s, Probe(RETRY), rules);
    steps, s := Extend(start, gap, steps, s, Create(RETRY), rules);
    steps, s := Extend(start, gap, steps, s, DeleteToken(SWEEP, TOKEN, {WEIGHTS}), rules);
    assert Commit(TOKEN, {WEIGHTS}) in s.Commits();
  }

  lemma OldTokenRewritten(ttl: nat, gap: nat, rules: set<Rule>) returns (steps: seq<Step>, s: World)
    requires FreshBytes !in rules
    ensures Execute(Empty(ttl, 0), steps) == Some(s) && AllKeep(Empty(ttl, 0), gap, steps, rules)
    ensures (s.ttl, s.now, s.registry) == (ttl, ttl, Absent) && s.objects == map[(TOKEN, WEIGHTS) := ttl]
    ensures RETRY in s.runs && s.runs[RETRY] == Run(TOKEN, {WEIGHTS}, {WEIGHTS}, ttl, Writing)
    ensures s.sweeps == map[SWEEP := Sweep(ttl, Some({}), Some(0), map[TOKEN := 0])]
  {
    hide Execute, AllKeep, World.Committed;
    var start := Empty(ttl, 0);
    steps, s := OldTokenListed(ttl, gap, rules);
    steps, s := Extend(start, gap, steps, s, StartRun(RETRY, TOKEN, {WEIGHTS}), rules);
    steps, s := Extend(start, gap, steps, s, WriteObject(RETRY, WEIGHTS), rules);
  }

  // A sweep that fixes its cutoff a TTL after reading the registry deletes what was published
  // in between.
  lemma SlowSweepLosesBytes(ttl: nat, gap: nat, rules: set<Rule>) returns (steps: seq<Step>)
    requires gap < ttl && ShortGap !in rules
    ensures Execute(Empty(ttl, 0), steps).Some? && AllKeep(Empty(ttl, 0), gap, steps, rules)
    ensures !Safe(Execute(Empty(ttl, 0), steps).value)
  {
    hide Execute, AllKeep, World.Committed;
    var start := Empty(ttl, 0);
    var s;
    steps, s := PublishedAfterRead(ttl, gap, rules);
    steps, s := Extend(start, gap, steps, s, Tick(ttl), rules);
    steps, s := Extend(start, gap, steps, s, SetCutoff(SWEEP), rules);
    assert s.objects[(TOKEN, WEIGHTS)] == 0;
    steps, s := Extend(start, gap, steps, s, ListToken(SWEEP, TOKEN, 0), rules);
    steps, s := Extend(start, gap, steps, s, DeleteToken(SWEEP, TOKEN, {WEIGHTS}), rules);
    assert Commit(TOKEN, {WEIGHTS}) in s.Commits();
  }

  lemma PublishedAfterRead(ttl: nat, gap: nat, rules: set<Rule>) returns (steps: seq<Step>, s: World)
    requires gap < ttl
    ensures Execute(Empty(ttl, 0), steps) == Some(s) && AllKeep(Empty(ttl, 0), gap, steps, rules)
    ensures (s.ttl, s.now, s.registry) == (ttl, 0, Present([Commit(TOKEN, {WEIGHTS})]))
    ensures s.objects == map[(TOKEN, WEIGHTS) := 0] && s.lastWrite == map[TOKEN := 0]
    ensures s.sweeps == map[SWEEP := Sweep(0, Some({}), None, map[])]
  {
    var start := Empty(ttl, 0);
    s, steps := start, [];
    assert s.Tokens() == {};
    steps, s := Extend(start, gap, steps, s, ReadRegistry(SWEEP, true), rules);
    steps, s := Extend(start, gap, steps, s, StartRun(RUN, TOKEN, {WEIGHTS}), rules);
    steps, s := Extend(start, gap, steps, s, WriteObject(RUN, WEIGHTS), rules);
    steps, s := Extend(start, gap, steps, s, Probe(RUN), rules);
    steps, s := Extend(start, gap, steps, s, Create(RUN), rules);
  }

  // Every run that keeps these rules leaves the committed artifacts in place.
  ghost predicate RulesSuffice(ttl: nat, gap: nat, rules: set<Rule>)
  {
    forall now, steps :: Execute(Empty(ttl, now), steps).Some? && AllKeep(Empty(ttl, now), gap, steps, rules) ==>
      Safe(Execute(Empty(ttl, now), steps).value)
  }

  // For every TTL and every gap below it, all three rules together suffice and no fewer do.
  lemma RulesSufficeIff(ttl: nat, gap: nat, rules: set<Rule>)
    requires gap < ttl
    ensures RulesSuffice(ttl, gap, rules) <==> rules == ALL_RULES
  {
    hide Execute, AllKeep, Safe, Empty;
    ThereAreThree(rules);
    if rules == ALL_RULES {
      forall now, steps | Execute(Empty(ttl, now), steps).Some? && AllKeep(Empty(ttl, now), gap, steps, rules)
        ensures Safe(Execute(Empty(ttl, now), steps).value)
      {
        ReferencedArtifactsSurvive(ttl, now, gap, steps);
      }
    } else {
      var steps: seq<Step>;
      if PromptCommit !in rules {
        steps := LateCommitLosesBytes(ttl, gap, rules);
      } else if FreshBytes !in rules {
        steps := StaleRetryLosesBytes(ttl, gap, rules);
      } else {
        steps := SlowSweepLosesBytes(ttl, gap, rules);
      }
      assert Execute(Empty(ttl, 0), steps).Some? && AllKeep(Empty(ttl, 0), gap, steps, rules);
    }
  }

  lemma ThereAreThree(rules: set<Rule>)
    ensures rules == ALL_RULES <==> PromptCommit in rules && FreshBytes in rules && ShortGap in rules
  {
    forall rule: Rule ensures rule in ALL_RULES {
      assert rule == FreshBytes || rule == PromptCommit || rule == ShortGap;
    }
  }

  // ---- concurrent publishers ----

  predicate HasVersion(s: World, v: nat)
  {
    exists r <- s.runs :: s.runs[r].phase == Published(v)
  }

  // Every registry version belongs to exactly one run that published, and holds its rows.
  ghost predicate VersionsFit(s: World)
  {
    && (forall r <- s.runs | s.runs[r].phase.Published? ::
          var v := s.runs[r].phase.version;
          1 <= v <= |s.Commits()| && s.Commits()[v - 1] == Commit(s.runs[r].token, s.runs[r].names))
    && (forall v: nat :: 1 <= v <= |s.Commits()| ==> HasVersion(s, v))
    && (forall r, q :: r in s.runs && q in s.runs && r != q && s.runs[r].phase.Published? ==>
       s.runs[r].phase != s.runs[q].phase)
  }

  lemma PublishKeepsVersions(s: World, r: Id)
    requires VersionsFit(s) && r in s.runs && !s.runs[r].phase.Published?
    ensures var t := Publish(s, r, Present(s.Commits() + [Commit(s.runs[r].token, s.runs[r].names)]));
            VersionsFit(t) && s.Commits() <= t.Commits()
  {
    var t := Publish(s, r, Present(s.Commits() + [Commit(s.runs[r].token, s.runs[r].names)]));
    assert t.Commits() == s.Commits() + [Commit(s.runs[r].token, s.runs[r].names)];
    forall v: nat | 1 <= v <= |t.Commits()| ensures HasVersion(t, v) {
      if v <= |s.Commits()| {
        assert HasVersion(s, v);
        var q :| q in s.runs && s.runs[q].phase == Published(v);
        assert t.runs[q].phase == Published(v);
      } else {
        assert t.runs[r].phase == Published(v);
      }
    }
  }

  lemma SamePublishedKeepsVersions(s: World, t: World)
    requires VersionsFit(s) && t.registry == s.registry
    requires forall r <- s.runs | s.runs[r].phase.Published? :: r in t.runs && t.runs[r] == s.runs[r]
    requires forall r <- t.runs | t.runs[r].phase.Published? :: r in s.runs && t.runs[r] == s.runs[r]
    ensures VersionsFit(t)
  {
    assert t.Commits() == s.Commits();
    forall v: nat | 1 <= v <= |t.Commits()| ensures HasVersion(t, v) {
      assert HasVersion(s, v);
      var q :| q in s.runs && s.runs[q].phase == Published(v);
      assert t.runs[q].phase == Published(v);
    }
  }

  lemma StepKeepsVersions(s: World, step: Step)
    requires VersionsFit(s) && Enabled(s, step)
    ensures VersionsFit(Apply(s, step)) && s.Commits() <= Apply(s, step).Commits()
  {
    if step.Append? || (step.Create? && s.registry.Absent?) {
      PublishKeepsVersions(s, step.r);
      assert [] + [Commit(s.runs[step.r].token, s.runs[step.r].names)]
        == [Commit(s.runs[step.r].token, s.runs[step.r].names)];
    } else {
      hide VersionsFit;
      SamePublishedKeepsVersions(s, Apply(s, step));
    }
  }

  // However publishers race to create or append, no commit is lost, repeated or rewritten: the
  // version a publish returns is its own.
  lemma {:induction false} EachPublishHasItsVersion(ttl: nat, now: int, steps: seq<Step>)
    requires Execute(Empty(ttl, now), steps).Some?
    ensures VersionsFit(Execute(Empty(ttl, now), steps).value)
    ensures forall k :: 0 <= k <= |steps| && Execute(Empty(ttl, now), steps[..k]).Some? ==>
              Execute(Empty(ttl, now), steps[..k]).value.Commits() <= Execute(Empty(ttl, now), steps).value.Commits()
    decreases |steps|
  {
    assert steps[..|steps|] == steps;
    if steps == [] {
      assert Empty(ttl, now).Commits() == [];
    } else {
      var n := |steps| - 1;
      hide VersionsFit, Apply, Enabled;
      EachPublishHasItsVersion(ttl, now, steps[..n]);
      StepKeepsVersions(Execute(Empty(ttl, now), steps[..n]).value, steps[n]);
      assert forall k :: 0 <= k <= n ==> steps[..n][..k] == steps[..k];
    }
  }

  // ---- what becomes of a publisher ----

  // A failure is the run's own step.
  lemma {:induction false} FailedByItself(ttl: nat, now: int, steps: seq<Step>, r: Id)
    requires Execute(Empty(ttl, now), steps).Some? && InPhase(Execute(Empty(ttl, now), steps).value, r, Failed)
    ensures Fail(r) in steps
    decreases |steps|
  {
    hide Apply, Enabled;
    if steps != [] {
      var n := |steps| - 1;
      var before := Execute(Empty(ttl, now), steps[..n]).value;
      assert steps == steps[..n] + [steps[n]];
      OneStepOf(before, steps[n], r);
      if InPhase(before, r, Failed) {
        FailedByItself(ttl, now, steps[..n], r);
      }
    }
  }

  // Where one step can take a run.
  lemma OneStepOf(s: World, step: Step, r: Id)
    requires Enabled(s, step)
    ensures var t := Apply(s, step);
      && (InPhase(t, r, Failed) ==> InPhase(s, r, Failed) || step == Fail(r))
      && (step == Probe(r) ==> r in t.runs && !t.runs[r].phase.Writing?)
      && (r in s.runs ==> r in t.runs && (!s.runs[r].phase.Writing? ==> !t.runs[r].phase.Writing?))
      && (r in t.runs && t.runs[r].phase.Appending? ==> t.registry.Present? || InPhase(s, r, Appending))
      && (s.registry.Present? ==> t.registry.Present?)
  {
  }

  lemma {:induction false} ProbedIsPast(ttl: nat, now: int, steps: seq<Step>, r: Id)
    requires Execute(Empty(ttl, now), steps).Some? && Probe(r) in steps
    ensures var t := Execute(Empty(ttl, now), steps).value; r in t.runs && !t.runs[r].phase.Writing?
    decreases |steps|
  {
    hide Apply, Enabled;
    var n := |steps| - 1;
    assert steps == steps[..n] + [steps[n]];
    OneStepOf(Execute(Empty(ttl, now), steps[..n]).value, steps[n], r);
    if Probe(r) in steps[..n] {
      ProbedIsPast(ttl, now, steps[..n], r);
    }
  }

  lemma {:induction false} AppendersFindIt(ttl: nat, now: int, steps: seq<Step>, r: Id)
    requires Execute(Empty(ttl, now), steps).Some? && InPhase(Execute(Empty(ttl, now), steps).value, r, Appending)
    ensures Execute(Empty(ttl, now), steps).value.registry.Present?
    decreases |steps|
  {
    hide Apply, Enabled;
    if steps != [] {
      var n := |steps| - 1;
      var before := Execute(Empty(ttl, now), steps[..n]).value;
      OneStepOf(before, steps[n], r);
      if InPhase(before, r, Appending) {
        AppendersFindIt(ttl, now, steps[..n], r);
      }
    }
  }

  // Whoever has probed the registry, before its first publish or after, and has not failed, either has
  // published or can take its next step; and that step publishes it, but for losing the first create,
  // which makes it an appender.
  lemma ProbedGoesOn(ttl: nat, now: int, steps: seq<Step>, r: Id)
    requires Execute(Empty(ttl, now), steps).Some? && Probe(r) in steps && Fail(r) !in steps
    ensures var t := Execute(Empty(ttl, now), steps).value;
      && r in t.runs
      && match t.runs[r].phase
         case Published(v) => true
         case Creating => Enabled(t, Create(r)) && ComesOf(t, Create(r), r)
         case Appending => Enabled(t, Append(r)) && ComesOf(t, Append(r), r)
         case _ => false
  {
    hide Execute;
    ProbedIsPast(ttl, now, steps, r);
    var t := Execute(Empty(ttl, now), steps).value;
    if InPhase(t, r, Failed) {
      FailedByItself(ttl, now, steps, r);
    }
    if InPhase(t, r, Appending) {
      AppendersFindIt(ttl, now, steps, r);
    }
  }

  // The probe alone decides between the two.
  lemma ProbeDecides(s: World, r: Id)
    requires Enabled(s, Probe(r))
    ensures InPhase(Apply(s, Probe(r)), r, if s.registry.Present? then Appending else Creating)
    ensures Apply(s, Probe(r)).Commits() == s.Commits()
  {
  }

  // A run that has failed stays so, and publishes nothing.
  lemma {:induction false} FailedStays(ttl: nat, now: int, steps: seq<Step>, r: Id)
    requires Execute(Empty(ttl, now), steps).Some? && Fail(r) in steps
    ensures InPhase(Execute(Empty(ttl, now), steps).value, r, Failed)
    decreases |steps|
  {
    hide Enabled;
    var n := |steps| - 1;
    assert steps == steps[..n] + [steps[n]];
    var before := Execute(Empty(ttl, now), steps[..n]).value;
    FailedStep(before, steps[n], r);
    hide Apply;
    if Fail(r) in steps[..n] {
      FailedStays(ttl, now, steps[..n], r);
    }
  }

  lemma FailedStep(s: World, step: Step, r: Id)
    requires Enabled(s, step)
    ensures step == Fail(r) || InPhase(s, r, Failed) ==> InPhase(Apply(s, step), r, Failed)
  {
  }

  // A sweep that could not read the registry deletes nothing.
  lemma {:induction false} UnreadableDeletesNothing(ttl: nat, now: int, steps: seq<Step>, w: Id)
    requires Execute(Empty(ttl, now), steps).Some? && ReadRegistry(w, false) in steps
    ensures forall k, gone :: DeleteToken(w, k, gone) !in steps
    ensures var t := Execute(Empty(ttl, now), steps).value; w in t.sweeps && t.sweeps[w].referenced.None?
    decreases |steps|
  {
    hide Execute;
    var n := |steps| - 1;
    assert steps == steps[..n] + [steps[n]];
    LastOf(ttl, now, steps);
    var before := Execute(Empty(ttl, now), steps[..n]).value;
    if ReadRegistry(w, false) in steps[..n] {
      UnreadableDeletesNothing(ttl, now, steps[..n], w);
    } else {
      NotYetRead(ttl, now, steps[..n], w);
    }
    SweepStep(before, steps[n], w);
  }

  lemma LastOf(ttl: nat, now: int, steps: seq<Step>)
    requires steps != [] && Execute(Empty(ttl, now), steps).Some?
    ensures var n := |steps| - 1;
      var before := Execute(Empty(ttl, now), steps[..n]);
      && before.Some? && Enabled(before.value, steps[n])
      && Execute(Empty(ttl, now), steps) == Some(Apply(before.value, steps[n]))
  {
  }

  lemma SweepStep(s: World, step: Step, w: Id)
    requires Enabled(s, step)
    ensures w !in s.sweeps ==> !(step.DeleteToken? && step.w == w)
    ensures w in s.sweeps ==>
      && w in Apply(s, step).sweeps && Apply(s, step).sweeps[w].referenced == s.sweeps[w].referenced
      && (step.DeleteToken? && step.w == w ==> s.sweeps[w].referenced.Some?)
    ensures step == ReadRegistry(w, false) ==> w !in s.sweeps && Apply(s, step).sweeps[w].referenced.None?
    ensures w in Apply(s, step).sweeps ==> w in s.sweeps || (step.ReadRegistry? && step.w == w)
  {
  }

  // Before a sweep reads the registry it has deleted nothing.
  lemma {:induction false} NotYetRead(ttl: nat, now: int, steps: seq<Step>, w: Id)
    requires Execute(Empty(ttl, now), steps).Some? && w !in Execute(Empty(ttl, now), steps).value.sweeps
    ensures forall k, gone :: DeleteToken(w, k, gone) !in steps
    decreases |steps|
  {
    hide Execute;
    if steps != [] {
      var n := |steps| - 1;
      assert steps == steps[..n] + [steps[n]];
      LastOf(ttl, now, steps);
      SweepStep(Execute(Empty(ttl, now), steps[..n]).value, steps[n], w);
      hide Apply, Enabled;
      NotYetRead(ttl, now, steps[..n], w);
    }
  }

  // The publish adds the run's own rows at the end, or sends the run on to append.
  predicate ComesOf(t: World, step: Step, r: Id)
    requires r in t.runs && Enabled(t, step)
  {
    var u, rows := Apply(t, step), Commit(t.runs[r].token, t.runs[r].names);
    if step.Create? && t.registry.Present? then InPhase(u, r, Appending) && u.Commits() == t.Commits()
    else InPhase(u, r, Published(|t.Commits()| + 1)) && u.Commits() == t.Commits() + [rows]
  }

  // The runs that have published.
  function PublishedRuns(s: World): set<Id>
  {
    set r | r in s.runs && s.runs[r].phase.Published?
  }

  lemma VersionsOf(s: World, ids: set<Id>, n: nat)
    requires VersionsFit(s) && n <= |s.Commits()|
    requires forall r :: r in ids <==> r in s.runs && s.runs[r].phase.Published? && s.runs[r].phase.version <= n
    ensures |ids| == n
    decreases n
  {
    if n == 0 {
      assert forall r :: r !in ids;
      assert ids == {};
    } else {
      assert HasVersion(s, n);
      var r :| r in s.runs && s.runs[r].phase == Published(n);
      VersionsOf(s, ids - {r}, n - 1);
    }
  }

  // However many runs race to create the registry and append to it: when all of them have probed, none
  // has failed and none has a step left, all have published, with as many commits as runs.
  lemma RacersAllPublish(ttl: nat, now: int, steps: seq<Step>)
    requires Execute(Empty(ttl, now), steps).Some?
    requires var t := Execute(Empty(ttl, now), steps).value;
      forall r <- t.runs :: Probe(r) in steps && Fail(r) !in steps && !Enabled(t, Create(r)) && !Enabled(t, Append(r))
    ensures var t := Execute(Empty(ttl, now), steps).value;
      && (forall r <- t.runs :: t.runs[r].phase.Published?)
      && |t.Commits()| == |t.runs|
  {
    var t := Execute(Empty(ttl, now), steps).value;
    hide Execute, Apply, Enabled, VersionsFit, World.Commits;
    forall r <- t.runs ensures t.runs[r].phase.Published? {
      ProbedGoesOn(ttl, now, steps, r);
    }
    CommitsAreRuns(ttl, now, steps);
    assert PublishedRuns(t) == t.runs.Keys;
  }

  // In every execution there are as many commits as runs that have published.
  lemma CommitsAreRuns(ttl: nat, now: int, steps: seq<Step>)
    requires Execute(Empty(ttl, now), steps).Some?
    ensures var t := Execute(Empty(ttl, now), steps).value; |t.Commits()| == |PublishedRuns(t)|
  {
    hide Execute;
    EachPublishHasItsVersion(ttl, now, steps);
    var t := Execute(Empty(ttl, now), steps).value;
    VersionsOf(t, PublishedRuns(t), |t.Commits()|);
  }

  // In every interleaving of runs, publishers and sweeps that keeps the discipline, a token the
  // registry references still has all its artifacts.
  lemma ReferencedArtifactsSurvive(ttl: nat, now: int, gap: nat, steps: seq<Step>)
    requires Execute(Empty(ttl, now), steps).Some? && AllKeep(Empty(ttl, now), gap, steps, ALL_RULES)
    ensures Safe(Execute(Empty(ttl, now), steps).value)
  {
    RunsKeepInv(ttl, now, gap, steps);
  }

  // ---- one sweep over what it has listed ----

  datatype Report = Report(
    keptReferenced: set<Token>,
    keptYoung: set<Token>,
    keptOnError: set<Token>,
    candidates: set<Token>,
    deleted: set<Token>)

  // The artifact objects, and what a delete of each token would leave behind: nothing, or, when the call
  // is going to fail, some of its objects, perhaps none.
  class ArtifactBase {
    const leaves: Token -> Option<set<Name>>
    var objects: map<Object, int>

    constructor (leaves: Token -> Option<set<Name>>, objects: map<Object, int>)
      ensures this.leaves == leaves && this.objects == objects
    {
      this.leaves, this.objects := leaves, objects;
    }

    // The object stays when the token is deleted.
    predicate Stays(o: Object, k: Token)
    {
      o.0 != k || (leaves(k).Some? && o.1 in leaves(k).value)
    }

    // fs.delete_dir: the token's objects go one by one, in any order.
    method DeleteDir(k: Token) returns (ok: bool)
      modifies this
      ensures ok <==> leaves(k).None?
      ensures objects == map o | o in old(objects) && Stays(o, k) :: old(objects)[o]
    {
      var todo := set o | o in objects && !Stays(o, k);
      while todo != {}
        invariant forall o <- todo :: o in old(objects) && !Stays(o, k)
        invariant objects == map o | o in old(objects) && (Stays(o, k) || o in todo) :: old(objects)[o]
        decreases todo
      {
        var o :| o in todo;
        objects, todo := objects - {o}, todo - {o};
      }
      ok := leaves(k).None?;
    }
  }

  // The objects after these tokens are deleted.
  function Left(base: ArtifactBase, before: map<Object, int>, tokens: set<Token>): map<Object, int>
  {
    map o | o in before && (o.0 !in tokens || base.Stays(o, o.0)) :: before[o]
  }

  lemma LeftOfMore(base: ArtifactBase, before: map<Object, int>, tokens: set<Token>, k: Token)
    ensures var left := Left(base, before, tokens);
      Left(base, before, tokens + {k}) == map o | o in left && base.Stays(o, k) :: left[o]
  {
  }

  // The loop of sweep(): referenced is None when the registry could not be read, an age of None
  // means the token's objects could not be listed, and the tokens come in any order.
  method SweepListed(base: ArtifactBase, referenced: Option<set<Token>>, ages: map<Token, Option<int>>,
                now: int, ttl: nat, delete: bool)
    returns (report: Report)
    modifies base
    ensures report.keptReferenced == set k | k in ages && referenced.Some? && k in referenced.value
    ensures report.keptOnError == set k | k in ages && k !in report.keptReferenced && ages[k].None?
    ensures report.keptYoung == set k | k in ages && k !in report.keptReferenced && ages[k].Some? &&
      ages[k].value > now - ttl
    ensures report.candidates == set k | k in ages && k !in report.keptReferenced && ages[k].Some? &&
      ages[k].value <= now - ttl
    ensures report.deleted ==
      if delete && referenced.Some? then set k | k in report.candidates && base.leaves(k).None? else {}
    ensures base.objects ==
      if delete && referenced.Some? then Left(base, old(base.objects), report.candidates) else old(base.objects)
  {
    var known := if referenced.Some? then referenced.value else {};
    var deleting := delete && referenced.Some?;
    var cutoff := now - ttl;
    report := Report({}, {}, {}, {}, {});
    ghost var before := base.objects;
    assert Left(base, before, {}) == before;
    hide Left;
    var todo := ages.Keys;
    while todo != {}
      invariant todo <= ages.Keys
      invariant report.keptReferenced == set k | k in ages.Keys - todo && k in known
      invariant report.keptOnError == set k | k in ages.Keys - todo && k !in known && ages[k].None?
      invariant report.keptYoung == set k | k in ages.Keys - todo && k !in known && ages[k].Some? &&
        ages[k].value > cutoff
      invariant report.candidates == set k | k in ages.Keys - todo && k !in known && ages[k].Some? &&
        ages[k].value <= cutoff
      invariant report.deleted == if deleting then set k | k in report.candidates && base.leaves(k).None? else {}
      invariant base.objects == if deleting then Left(base, before, report.candidates) else before
      decreases todo
    {
      var k :| k in todo;
      todo := todo - {k};
      if k in known {
        report := report.(keptReferenced := report.keptReferenced + {k});
        continue;
      }
      if ages[k].None? {
        report := report.(keptOnError := report.keptOnError + {k});
        continue;
      }
      if ages[k].value > cutoff {
        report := report.(keptYoung := report.keptYoung + {k});
        continue;
      }
      LeftOfMore(base, before, report.candidates, k);
      report := report.(candidates := report.candidates + {k});
      if deleting {
        var ok := base.DeleteDir(k);
        if ok {
          report := report.(deleted := report.deleted + {k});
        }
      }
    }
  }
}
