// Runner jobs on a cluster under one submission id: submit, attach or resubmit, then poll. Any
// number of callers run at once, and any reply can be lost.

module JobRuns {

  import opened Common

  datatype Status = Pending | Running | Succeeded | Failed | Stopped

  // _TERMINAL_STATUSES
  predicate Terminal(s: Status)
  {
    s == Succeeded || s == Failed || s == Stopped
  }

  const MAX_POLL_ERRORS: nat := 3

  // ---- polling ----

  datatype Poll = Error | Reported(status: Status)

  datatype Verdict = Success | JobEnded(status: Status) | PollFailed | TimedOut

  predicate Ends(p: Poll)
  {
    p.Reported? && Terminal(p.status)
  }

  // The poll at k is the last of more than MAX_POLL_ERRORS errors in a row.
  predicate GivesUp(polls: seq<Poll>, k: nat)
  {
    MAX_POLL_ERRORS <= k < |polls| && forall j :: k - MAX_POLL_ERRORS <= j <= k ==> polls[j] == Error
  }

  // Nothing before k ends the wait.
  predicate Waiting(polls: seq<Poll>, k: nat)
    requires k <= |polls|
  {
    forall j: nat :: j < k ==> !Ends(polls[j]) && !GivesUp(polls, j)
  }

  // The errors the wait bears: after the fourth in a row it ends.
  lemma GivesUpIff(polls: seq<Poll>, k: nat)
    ensures GivesUp(polls, k) <==>
      3 <= k < |polls| && polls[k - 3] == polls[k - 2] == polls[k - 1] == polls[k] == Error
  {
    if GivesUp(polls, k) {
      assert polls[k - 3] == Error && polls[k - 2] == Error && polls[k - 1] == Error;
    }
  }

  // _await_success over the answers that arrive before the deadline.
  method AwaitSuccess(polls: seq<Poll>) returns (v: Verdict)
    ensures v == TimedOut <==> Waiting(polls, |polls|)
    ensures v == PollFailed <==> exists k: nat :: k < |polls| && Waiting(polls, k) && GivesUp(polls, k)
    ensures v == Success <==> exists k: nat :: k < |polls| && Waiting(polls, k) && polls[k] == Reported(Succeeded)
    ensures v.JobEnded? ==>
      exists k: nat :: k < |polls| && Waiting(polls, k) && polls[k] == Reported(v.status) && Ends(polls[k])
  {
    var errors: nat := 0;
    for k := 0 to |polls|
      invariant Waiting(polls, k)
      invariant errors <= k && errors <= MAX_POLL_ERRORS
      invariant forall j :: k - errors <= j < k ==> polls[j] == Error
      invariant errors < k ==> polls[k - errors - 1] != Error
    {
      if polls[k] == Error {
        errors := errors + 1;
        if errors > MAX_POLL_ERRORS {
          assert GivesUp(polls, k);
          return PollFailed;
        }
        assert !GivesUp(polls, k);
        continue;
      }
      errors := 0;
      if Ends(polls[k]) {
        return if polls[k].status == Succeeded then Success else JobEnded(polls[k].status);
      }
    }
    v := TimedOut;
  }

  // ---- the protocol ----

  datatype Caller = Caller(id: int)

  // Where one call stands. From is the first instance that may serve it: the one live at its submit
  // step, or else the next to be started.
  datatype Phase =
    | Fresh
    | Probing(from: nat)
    | Deleting(from: nat)
    | Resubmitting(from: nat)
    | Polling(from: nat, errors: nat)
    | Returned(from: nat, run: nat)
    | Raised

  // Every instance ever started under the id, with its status, and the one the cluster lists.
  datatype World = World(runs: seq<Status>, listed: Option<nat>, callers: map<Caller, Phase>)

  // What becomes of one request: the cluster never sees it, or acts on it and the reply arrives or
  // does not.
  datatype Wire = Lost | ReplyLost | Heard

  datatype Step =
    | Submit(caller: Caller, wire: Wire)
    | Probe(caller: Caller, wire: Wire)
    | Delete(caller: Caller, wire: Wire)
    | Resubmit(caller: Caller, wire: Wire)
    | PollStatus(caller: Caller, wire: Wire)
    | Expire(caller: Caller)
    | Progress(status: Status)

  // The instance listed is the last one started.
  predicate Valid(w: World)
  {
    w.listed.Some? ==> w.listed.value + 1 == |w.runs|
  }

  predicate IsLive(w: World, run: nat)
  {
    run < |w.runs| && !Terminal(w.runs[run])
  }

  predicate ListedLive(w: World)
    requires Valid(w)
  {
    w.listed.Some? && IsLive(w, w.listed.value)
  }

  // The first instance that may serve a call submitted now.
  function Floor(w: World): nat
    requires Valid(w)
  {
    if ListedLive(w) then w.listed.value else |w.runs|
  }

  function PhaseOf(w: World, c: Caller): Phase
  {
    if c in w.callers then w.callers[c] else Fresh
  }

  function Move(w: World, c: Caller, p: Phase): World
  {
    w.(callers := w.callers[c := p])
  }

  // submit_job: an id that is listed is refused.
  function Started(w: World): World
    requires w.listed.None?
  {
    w.(runs := w.runs + [Pending], listed := Some(|w.runs|))
  }

  predicate Enabled(w: World, s: Step)
  {
    Valid(w) &&
    match s
    case Submit(c, _) => PhaseOf(w, c).Fresh?
    case Probe(c, _) => PhaseOf(w, c).Probing?
    case Delete(c, _) => PhaseOf(w, c).Deleting?
    case Resubmit(c, _) => PhaseOf(w, c).Resubmitting?
    case PollStatus(c, _) => PhaseOf(w, c).Polling?
    case Expire(c) => PhaseOf(w, c).Polling?
    case Progress(_) => ListedLive(w)
  }

  function ApplySubmit(w: World, c: Caller, wire: Wire): World
    requires Valid(w)
  {
    var from := Floor(w);
    if wire == Lost || w.listed.Some? then Move(w, c, Probing(from))
    else Move(Started(w), c, if wire == Heard then Polling(from, 0) else Probing(from))
  }

  // A status is only read off a listed instance.
  function ApplyProbe(w: World, c: Caller, wire: Wire): World
    requires Enabled(w, Probe(c, wire))
  {
    var from := PhaseOf(w, c).from;
    if wire != Heard || w.listed.None? then Move(w, c, Raised)
    else if ListedLive(w) then Move(w, c, Polling(from, 0))
    else Move(w, c, Deleting(from))
  }

  // delete_job refuses an instance that has not ended.
  function ApplyDelete(w: World, c: Caller, wire: Wire): World
    requires Enabled(w, Delete(c, wire))
  {
    if wire == Lost || w.listed.None? || ListedLive(w) then Move(w, c, Raised)
    else Move(w.(listed := None), c, if wire == Heard then Resubmitting(PhaseOf(w, c).from) else Raised)
  }

  function ApplyResubmit(w: World, c: Caller, wire: Wire): World
    requires Enabled(w, Resubmit(c, wire))
  {
    if wire == Lost || w.listed.Some? then Move(w, c, Raised)
    else Move(Started(w), c, if wire == Heard then Polling(PhaseOf(w, c).from, 0) else Raised)
  }

  function ApplyPoll(w: World, c: Caller, wire: Wire): World
    requires Enabled(w, PollStatus(c, wire))
  {
    var p := PhaseOf(w, c);
    if wire != Heard || w.listed.None? then
      Move(w, c, if p.errors + 1 > MAX_POLL_ERRORS then Raised else p.(errors := p.errors + 1))
    else
      var status := w.runs[w.listed.value];
      if status == Succeeded then Move(w, c, Returned(p.from, w.listed.value))
      else if Terminal(status) then Move(w, c, Raised)
      else Move(w, c, p.(errors := 0))
  }

  function Apply(w: World, s: Step): World
    requires Enabled(w, s)
  {
    match s
    case Submit(c, wire) => ApplySubmit(w, c, wire)
    case Probe(c, wire) => ApplyProbe(w, c, wire)
    case Delete(c, wire) => ApplyDelete(w, c, wire)
    case Resubmit(c, wire) => ApplyResubmit(w, c, wire)
    case PollStatus(c, wire) => ApplyPoll(w, c, wire)
    case Expire(c) => Move(w, c, Raised)
    case Progress(status) => w.(runs := w.runs[w.listed.value := status])
  }

  // The worlds a run of steps goes through.
  ghost predicate Run(worlds: seq<World>, steps: seq<Step>)
  {
    && |worlds| == |steps| + 1
    && forall i :: 0 <= i < |steps| ==> Enabled(worlds[i], steps[i]) && worlds[i + 1] == Apply(worlds[i], steps[i])
  }

  const EMPTY: World := World([], None, map[])

  // What every step keeps.
  ghost predicate Inv(w: World)
  {
    && Valid(w)
    && OnlyListedLive(w)
    && (forall c :: c in w.callers ==> PhaseOk(w, w.callers[c]))
  }

  // An instance that is not listed has ended.
  ghost predicate OnlyListedLive(w: World)
  {
    forall run: nat :: IsLive(w, run) ==> w.listed == Some(run)
  }

  ghost predicate PhaseOk(w: World, p: Phase)
    requires Valid(w)
  {
    match p
    case Fresh => true
    case Probing(from) => from <= |w.runs| && (ListedLive(w) ==> from <= w.listed.value)
    case Deleting(from) => from <= |w.runs|
    case Resubmitting(from) => from <= |w.runs|
    case Polling(from, errors) => from <= |w.runs| && errors <= MAX_POLL_ERRORS &&
      (w.listed.Some? ==> from <= w.listed.value)
    case Returned(from, run) => from <= run < |w.runs| && w.runs[run] == Succeeded
    case Raised => true
  }

  // The cluster's own moves: nothing, a new instance when none is listed, delisting, or the end or
  // progress of the live one.
  ghost predicate CanFollow(w: World, after: World)
    requires Valid(w)
  {
    && Valid(after)
    && |w.runs| <= |after.runs|
    && (forall run: nat :: run < |w.runs| && Terminal(w.runs[run]) ==> after.runs[run] == w.runs[run])
    && (after.listed == w.listed || after.listed.None? || |w.runs| <= after.listed.value)
  }

  lemma StepKeeps(w: World, s: Step)
    requires Inv(w) && Enabled(w, s)
    ensures Inv(Apply(w, s))
  {
    var after := Apply(w, s);
    assert CanFollow(w, after);
    assert OnlyListedLive(after);
    forall c | c in after.callers ensures PhaseOk(after, after.callers[c]) {
    }
  }

  ghost predicate Begins(w: World)
  {
    Valid(w) && OnlyListedLive(w) && w.callers == map[]
  }

  lemma {:induction false} RunKeeps(worlds: seq<World>, steps: seq<Step>, i: nat)
    requires Run(worlds, steps) && Begins(worlds[0]) && i < |worlds|
    ensures Inv(worlds[i])
    decreases i
  {
    hide Apply, Enabled, OnlyListedLive, PhaseOk;
    if i != 0 {
      RunKeeps(worlds, steps, i - 1);
      assert worlds[i - 1 + 1] == Apply(worlds[i - 1], steps[i - 1]);
      StepKeeps(worlds[i - 1], steps[i - 1]);
    }
  }

  // However many callers run, there is never more than one live job under the id.
  lemma NeverTwoLive(worlds: seq<World>, steps: seq<Step>, i: nat, a: nat, b: nat)
    requires Run(worlds, steps) && Begins(worlds[0]) && i < |worlds|
    requires IsLive(worlds[i], a) && IsLive(worlds[i], b)
    ensures a == b
  {
    RunKeeps(worlds, steps, i);
  }

  predicate HasFrom(p: Phase)
  {
    !p.Fresh? && !p.Raised?
  }

  // Since its submit step, a call's floor has not moved.
  ghost predicate SubmittedAt(worlds: seq<World>, steps: seq<Step>, k: nat, i: nat, c: Caller, from: nat)
    requires |worlds| == |steps| + 1
  {
    k < i < |worlds| && k < |steps| && steps[k].Submit? && steps[k].caller == c && Valid(worlds[k]) &&
      from == Floor(worlds[k])
  }

  lemma StepKeepsFrom(w: World, s: Step, c: Caller)
    requires Enabled(w, s) && HasFrom(PhaseOf(Apply(w, s), c))
    ensures if s.Submit? && s.caller == c then PhaseOf(Apply(w, s), c).from == Floor(w)
            else HasFrom(PhaseOf(w, c)) && PhaseOf(w, c).from == PhaseOf(Apply(w, s), c).from
  {
  }

  lemma {:induction false} FloorOfCall(worlds: seq<World>, steps: seq<Step>, i: nat, c: Caller) returns (k: nat)
    requires Run(worlds, steps) && worlds[0].callers == map[] && i < |worlds|
    requires HasFrom(PhaseOf(worlds[i], c))
    ensures SubmittedAt(worlds, steps, k, i, c, PhaseOf(worlds[i], c).from)
    decreases i
  {
    hide Apply;
    assert i != 0;
    var w, s := worlds[i - 1], steps[i - 1];
    assert worlds[i - 1 + 1] == Apply(w, s);
    StepKeepsFrom(w, s, c);
    if s.Submit? && s.caller == c {
      k := i - 1;
    } else {
      k := FloorOfCall(worlds, steps, i - 1, c);
    }
  }

  // A normal return stands for a run that succeeded, and that was live when the call submitted, or
  // was started after: never for one that had ended before.
  lemma ReturnMeansThisWork(worlds: seq<World>, steps: seq<Step>, i: nat, c: Caller) returns (k: nat)
    requires Run(worlds, steps) && Begins(worlds[0]) && i < |worlds|
    requires PhaseOf(worlds[i], c).Returned?
    ensures k < i && k < |steps| && steps[k].Submit? && steps[k].caller == c
    ensures PhaseOf(worlds[i], c).run < |worlds[i].runs| && worlds[i].runs[PhaseOf(worlds[i], c).run] == Succeeded
    ensures IsLive(worlds[k], PhaseOf(worlds[i], c).run) || |worlds[k].runs| <= PhaseOf(worlds[i], c).run
  {
    hide Apply, Run;
    RunKeeps(worlds, steps, i);
    k := FloorOfCall(worlds, steps, i, c);
    var run := PhaseOf(worlds[i], c).run;
    assert PhaseOk(worlds[i], worlds[i].callers[c]);
    assert Floor(worlds[k]) <= run;
  }

  // ---- whose outcome a caller is told ----

  // A delete that takes effect at step j.
  predicate Delists(worlds: seq<World>, j: nat)
    requires j + 1 < |worlds|
  {
    worlds[j].listed.Some? && worlds[j + 1].listed.None?
  }

  ghost predicate NoneDelisted(worlds: seq<World>, from: nat, to: nat)
    requires to < |worlds|
  {
    forall j: nat :: from <= j < to ==> !Delists(worlds, j)
  }

  lemma StepListing(w: World, s: Step)
    requires Enabled(w, s)
    ensures Valid(Apply(w, s)) && |w.runs| <= |Apply(w, s).runs|
    ensures w.listed.Some? ==> Apply(w, s).listed == w.listed || Apply(w, s).listed.None?
    ensures Apply(w, s).listed.Some? && Apply(w, s).listed != w.listed ==> |w.runs| <= Apply(w, s).listed.value
  {
  }

  // While nothing is deleted the instance stays listed; after a delete only later ones can be.
  lemma {:induction false} ListingBetween(worlds: seq<World>, steps: seq<Step>, k: nat, m: nat)
    requires Run(worlds, steps) && k <= m < |worlds| && Valid(worlds[k]) && worlds[k].listed.Some?
    ensures |worlds[k].runs| <= |worlds[m].runs|
    ensures if NoneDelisted(worlds, k, m) then worlds[m].listed == worlds[k].listed
            else worlds[m].listed.Some? ==> worlds[k].listed.value < worlds[m].listed.value
    decreases m
  {
    hide Apply, Enabled;
    if m > k {
      ListingBetween(worlds, steps, k, m - 1);
      assert worlds[m - 1 + 1] == Apply(worlds[m - 1], steps[m - 1]);
      StepListing(worlds[m - 1], steps[m - 1]);
      assert NoneDelisted(worlds, k, m) <==> NoneDelisted(worlds, k, m - 1) && !Delists(worlds, m - 1);
    }
  }

  // At step k the caller begins to poll.
  predicate BeginsPolling(worlds: seq<World>, k: nat, c: Caller)
    requires k + 1 < |worlds|
  {
    !PhaseOf(worlds[k], c).Polling? && PhaseOf(worlds[k + 1], c).Polling?
  }

  // At step m the caller hears of an instance that has ended.
  predicate HearsTheEnd(worlds: seq<World>, steps: seq<Step>, m: nat, c: Caller)
    requires |worlds| == |steps| + 1 && m < |steps|
  {
    && steps[m] == PollStatus(c, Heard)
    && Valid(worlds[m]) && worlds[m].listed.Some? && Terminal(worlds[m].runs[worlds[m].listed.value])
  }

  // Over every run: the end a caller hears of is that of the instance it began to poll exactly when
  // nobody deleted that instance meanwhile; and it returns or raises as the instance heard of succeeded
  // or not.
  lemma VerdictIsOwnIff(worlds: seq<World>, steps: seq<Step>, k: nat, m: nat, c: Caller)
    requires Run(worlds, steps) && Begins(worlds[0]) && k < m < |steps|
    requires BeginsPolling(worlds, k, c) && HearsTheEnd(worlds, steps, m, c)
    ensures worlds[k + 1].listed.Some?
    ensures worlds[m].listed == worlds[k + 1].listed <==> NoneDelisted(worlds, k + 1, m)
    ensures NoneDelisted(worlds, k + 1, m) ==>
      (PhaseOf(worlds[m + 1], c).Returned? <==> worlds[m].runs[worlds[k + 1].listed.value] == Succeeded)
    ensures !NoneDelisted(worlds, k + 1, m) ==> worlds[k + 1].listed.value < worlds[m].listed.value
    ensures PhaseOf(worlds[m + 1], c) ==
      if worlds[m].runs[worlds[m].listed.value] == Succeeded then
        Returned(PhaseOf(worlds[m], c).from, worlds[m].listed.value)
      else Raised
  {
    hide Begins, Run, OnlyListedLive, PhaseOk, Inv, ListedLive, IsLive;
    RunStep(worlds, steps, k);
    RunStep(worlds, steps, m);
    StepListing(worlds[k], steps[k]);
    ListingBetween(worlds, steps, k + 1, m);
  }

  lemma RunStep(worlds: seq<World>, steps: seq<Step>, k: nat)
    requires Run(worlds, steps) && k < |steps|
    ensures |worlds| == |steps| + 1 && Enabled(worlds[k], steps[k]) && worlds[k + 1] == Apply(worlds[k], steps[k])
  {
  }

  // ---- why a caller raises ----

  predicate IsOf(s: Step, c: Caller)
  {
    match s
    case Submit(d, _) => d == c
    case Probe(d, _) => d == c
    case Delete(d, _) => d == c
    case Resubmit(d, _) => d == c
    case PollStatus(d, _) => d == c
    case Expire(d) => d == c
    case Progress(_) => false
  }

  // A request of c's submission whose reply c did not get.
  predicate Unheard(s: Step, c: Caller)
  {
    s in {Submit(c, Lost), Submit(c, ReplyLost), Probe(c, Lost), Probe(c, ReplyLost), Delete(c, Lost),
          Delete(c, ReplyLost), Resubmit(c, Lost), Resubmit(c, ReplyLost)}
  }

  // Another caller's step changes what is listed.
  predicate Disturbs(worlds: seq<World>, steps: seq<Step>, j: nat, c: Caller)
  {
    && j < |steps| && j + 1 < |worlds| && !IsOf(steps[j], c) && !steps[j].Progress?
    && worlds[j].listed != worlds[j + 1].listed
  }

  // So it happened after c had begun.
  ghost predicate Disturbed(worlds: seq<World>, steps: seq<Step>, i: nat, c: Caller)
    requires i < |steps|
  {
    exists k: nat, j: nat :: k < j < i && IsOf(steps[k], c) && Disturbs(worlds, steps, j, c)
  }

  // The last step of the caller so far, which put it where it is.
  lemma {:induction false} LastMove(worlds: seq<World>, steps: seq<Step>, i: nat, c: Caller) returns (k: nat)
    requires Run(worlds, steps) && worlds[0].callers == map[] && i < |worlds| && !PhaseOf(worlds[i], c).Fresh?
    ensures k < i && k < |steps| && IsOf(steps[k], c) && PhaseOf(worlds[k + 1], c) == PhaseOf(worlds[i], c)
    ensures forall j :: k < j < i ==> !IsOf(steps[j], c)
    decreases i
  {
    hide Apply;
    assert i != 0;
    RunStep(worlds, steps, i - 1);
    if IsOf(steps[i - 1], c) {
      k := i - 1;
    } else {
      OthersLeave(worlds[i - 1], steps[i - 1], c);
      k := LastMove(worlds, steps, i - 1, c);
    }
  }

  lemma OthersLeave(w: World, s: Step, c: Caller)
    requires Enabled(w, s) && !IsOf(s, c)
    ensures PhaseOf(Apply(w, s), c) == PhaseOf(w, c)
    ensures s.Progress? ==> Apply(w, s).listed == w.listed
  {
  }

  // When c makes no step, only others can change what is listed.
  lemma {:induction false} ChangeIsAnothers(worlds: seq<World>, steps: seq<Step>, a: nat, b: nat, c: Caller)
    requires Run(worlds, steps) && a <= b < |worlds| && (forall j :: a <= j < b ==> !IsOf(steps[j], c))
    requires worlds[a].listed != worlds[b].listed
    ensures exists j: nat :: a <= j < b && Disturbs(worlds, steps, j, c)
    decreases b
  {
    hide Apply;
    RunStep(worlds, steps, b - 1);
    OthersLeave(worlds[b - 1], steps[b - 1], c);
    if worlds[b - 1].listed != worlds[b].listed {
      assert Disturbs(worlds, steps, b - 1, c);
    } else {
      ChangeIsAnothers(worlds, steps, a, b - 1, c);
      var j: nat :| a <= j < b - 1 && Disturbs(worlds, steps, j, c);
    }
  }

  lemma {:induction false} EndedStaysEnded(worlds: seq<World>, steps: seq<Step>, a: nat, b: nat, run: nat)
    requires Run(worlds, steps) && a <= b < |worlds| && run < |worlds[a].runs| && Terminal(worlds[a].runs[run])
    ensures run < |worlds[b].runs| && worlds[b].runs[run] == worlds[a].runs[run]
    decreases b
  {
    hide Apply;
    if a < b {
      EndedStaysEnded(worlds, steps, a, b - 1, run);
      RunStep(worlds, steps, b - 1);
      StepFollows(worlds[b - 1], steps[b - 1]);
    }
  }

  lemma StepFollows(w: World, s: Step)
    requires Enabled(w, s)
    ensures CanFollow(w, Apply(w, s))
  {
  }

  // Where c makes a step that raises, and what it found.
  predicate RaisesAt(w: World, s: Step, c: Caller)
    requires Valid(w)
  {
    || s == Expire(c)
    || Unheard(s, c)
    || (s == Probe(c, Heard) && w.listed.None?)
    || (s == Delete(c, Heard) && (w.listed.None? || ListedLive(w)))
    || (s == Resubmit(c, Heard) && w.listed.Some?)
    || GivesUpAt(w, s, c) || HearsAFailure(w, s, c)
  }

  // One poll error too many in a row.
  predicate GivesUpAt(w: World, s: Step, c: Caller)
  {
    && s.PollStatus? && s.caller == c && (s.wire != Heard || w.listed.None?)
    && PhaseOf(w, c).Polling? && PhaseOf(w, c).errors >= MAX_POLL_ERRORS
  }

  predicate HearsAFailure(w: World, s: Step, c: Caller)
    requires Valid(w)
  {
    s == PollStatus(c, Heard) && w.listed.Some? && w.runs[w.listed.value] in {Failed, Stopped}
  }

  lemma RaisingStep(w: World, s: Step, c: Caller)
    requires Enabled(w, s) && !PhaseOf(w, c).Raised?
    ensures PhaseOf(Apply(w, s), c).Raised? <==> RaisesAt(w, s, c) && !s.Submit?
  {
  }

  // Over every run, a caller raises for one of five reasons: a reply of its submission that it did not
  // get; another caller that changed the listing while it was submitting; its deadline; too many poll
  // errors in a row; or an instance that failed or was stopped. An earlier job's status is none.
  lemma RaisedBecause(worlds: seq<World>, steps: seq<Step>, i: nat, c: Caller)
    requires Run(worlds, steps) && Begins(worlds[0]) && i < |steps|
    requires !PhaseOf(worlds[i], c).Raised? && PhaseOf(worlds[i + 1], c).Raised?
    ensures Valid(worlds[i])
    ensures
      || steps[i] == Expire(c) || GivesUpAt(worlds[i], steps[i], c) || HearsAFailure(worlds[i], steps[i], c)
      || (exists j: nat :: j <= i && Unheard(steps[j], c)) || Disturbed(worlds, steps, i, c)
  {
    hide Run, Apply, Unheard, Inv;
    RunStep(worlds, steps, i);
    RaisingStep(worlds[i], steps[i], c);
    var w, s := worlds[i], steps[i];
    if (s == Probe(c, Heard) && w.listed.None?) || (s == Delete(c, Heard) && (w.listed.None? || ListedLive(w)))
       || (s == Resubmit(c, Heard) && w.listed.Some?)
    {
      RefusedBecause(worlds, steps, i, c);
    }
  }

  lemma RefusedBecause(worlds: seq<World>, steps: seq<Step>, i: nat, c: Caller)
    requires Run(worlds, steps) && Begins(worlds[0]) && i < |steps| && Enabled(worlds[i], steps[i])
    requires
      || (steps[i] == Probe(c, Heard) && worlds[i].listed.None?)
      || (steps[i] == Delete(c, Heard) && (worlds[i].listed.None? || ListedLive(worlds[i])))
      || (steps[i] == Resubmit(c, Heard) && worlds[i].listed.Some?)
    ensures (exists j: nat :: j <= i && Unheard(steps[j], c)) || Disturbed(worlds, steps, i, c)
  {
    hide Run, Inv;
    RunStep(worlds, steps, i);
    var k := LastMove(worlds, steps, i, c);
    RunStep(worlds, steps, k);
    hide Apply;
    if !Unheard(steps[k], c) {
      EnteredBy(worlds[k], steps[k], c);
      if worlds[k + 1].listed == worlds[i].listed {
        EndedStaysEnded(worlds, steps, k + 1, i, worlds[i].listed.value);
      }
      ChangeIsAnothers(worlds, steps, k + 1, i, c);
      var j: nat :| k + 1 <= j < i && Disturbs(worlds, steps, j, c);
      assert IsOf(steps[k], c);
    }
  }

  // How c came to be where it is, when all replies were heard.
  lemma EnteredBy(w: World, s: Step, c: Caller)
    requires Enabled(w, s) && IsOf(s, c) && !Unheard(s, c)
    ensures var after := Apply(w, s);
      match PhaseOf(after, c)
      case Probing(_) => after.listed.Some?
      case Deleting(_) => Valid(after) && after.listed.Some? && Terminal(after.runs[after.listed.value])
      case Resubmitting(_) => after.listed.None?
      case _ => true
  {
  }

  predicate IsPollError(w: World, s: Step, c: Caller)
  {
    s.PollStatus? && s.caller == c && (s.wire != Heard || w.listed.None?)
  }

  // The caller's poll errors in a row, up to step i.
  function ErrorsInARow(worlds: seq<World>, steps: seq<Step>, i: nat, c: Caller): nat
    requires i <= |steps| && i < |worlds|
  {
    if i == 0 then 0
    else if !IsOf(steps[i - 1], c) then ErrorsInARow(worlds, steps, i - 1, c)
    else if IsPollError(worlds[i - 1], steps[i - 1], c) then ErrorsInARow(worlds, steps, i - 1, c) + 1
    else 0
  }

  lemma {:induction false} ErrorsAreCounted(worlds: seq<World>, steps: seq<Step>, i: nat, c: Caller)
    requires Run(worlds, steps) && worlds[0].callers == map[] && i <= |steps| && i < |worlds|
    ensures PhaseOf(worlds[i], c).Polling? ==> PhaseOf(worlds[i], c).errors == ErrorsInARow(worlds, steps, i, c)
    ensures !PhaseOf(worlds[i], c).Polling? && !PhaseOf(worlds[i], c).Raised? ==> ErrorsInARow(worlds, steps, i, c) == 0
    decreases i
  {
    hide Apply;
    if i != 0 {
      ErrorsAreCounted(worlds, steps, i - 1, c);
      RunStep(worlds, steps, i - 1);
      if IsOf(steps[i - 1], c) {
        CountStep(worlds[i - 1], steps[i - 1], c);
      } else {
        OthersLeave(worlds[i - 1], steps[i - 1], c);
      }
    }
  }

  lemma CountStep(w: World, s: Step, c: Caller)
    requires Enabled(w, s) && IsOf(s, c)
    ensures var after := PhaseOf(Apply(w, s), c);
      if IsPollError(w, s, c) then
        && PhaseOf(w, c).Polling? && (after.Polling? || after.Raised?)
        && (after.Polling? ==> after.errors == PhaseOf(w, c).errors + 1)
      else after.Polling? ==> after.errors == 0
  {
  }

  // A failed poll is the caller's last exactly when it is the fourth in a row.
  lemma GivesUpAtFourth(worlds: seq<World>, steps: seq<Step>, i: nat, c: Caller)
    requires Run(worlds, steps) && worlds[0].callers == map[] && i < |steps|
    requires IsPollError(worlds[i], steps[i], c)
    ensures PhaseOf(worlds[i + 1], c).Raised? <==> ErrorsInARow(worlds, steps, i + 1, c) > 3
    ensures PhaseOf(worlds[i + 1], c).Raised? || PhaseOf(worlds[i + 1], c).Polling?
  {
    hide Run;
    RunStep(worlds, steps, i);
    ErrorsAreCounted(worlds, steps, i, c);
  }

  // A submission whose reply is lost is probed, and attaches to the job it started: no second one.
  lemma UnheardSubmissionAttaches(w: World, c: Caller)
    requires Valid(w) && PhaseOf(w, c).Fresh? && w.listed.None?
    ensures var done := Follow(w, [Submit(c, ReplyLost), Probe(c, Heard)]);
      PhaseOf(done, c) == Polling(|w.runs|, 0) && done.listed == Some(|w.runs|) && done.runs == w.runs + [Pending]
    ensures PhaseOf(Apply(w, Submit(c, Lost)), c).Probing? && PhaseOf(Apply(w, Submit(c, ReplyLost)), c).Probing?
  {
    Steps2(w, Submit(c, ReplyLost), Probe(c, Heard));
  }

  // At the deadline a polling caller raises, and no other caller has one.
  lemma DeadlineEndsPolling(w: World, c: Caller)
    requires Valid(w)
    ensures Enabled(w, Expire(c)) <==> PhaseOf(w, c).Polling?
    ensures PhaseOf(w, c).Polling? ==> PhaseOf(Apply(w, Expire(c)), c).Raised?
  {
  }

  // A caller nobody disturbs, all of whose replies arrive, ends up polling: the live instance, if one is
  // listed, or a new one, whatever the end of the one that is listed.
  lemma UndisturbedCall(w: World, c: Caller)
    requires Valid(w) && PhaseOf(w, c).Fresh?
    ensures var done := Follow(w, SubmissionOf(w, c));
      && PhaseOf(done, c) == Polling(Floor(w), 0) && done.listed == Some(Floor(w))
      && done.runs == if ListedLive(w) then w.runs else w.runs + [Pending]
  {
    var a := Apply(w, Submit(c, Heard));
    if w.listed.None? {
      FollowOne(w, Submit(c, Heard));
    } else if ListedLive(w) {
      Steps2(w, Submit(c, Heard), Probe(c, Heard));
    } else {
      var b := Apply(a, Probe(c, Heard));
      var d := Apply(b, Delete(c, Heard));
      var rest := [Resubmit(c, Heard)];
      assert [Submit(c, Heard), Probe(c, Heard), Delete(c, Heard)] + rest == SubmissionOf(w, c);
      Steps3(w, Submit(c, Heard), Probe(c, Heard), Delete(c, Heard), rest);
      FollowOne(d, Resubmit(c, Heard));
    }
  }

  // The requests the submission takes.
  function SubmissionOf(w: World, c: Caller): seq<Step>
    requires Valid(w)
  {
    if w.listed.None? then [Submit(c, Heard)]
    else if ListedLive(w) then [Submit(c, Heard), Probe(c, Heard)]
    else [Submit(c, Heard), Probe(c, Heard), Delete(c, Heard), Resubmit(c, Heard)]
  }

  lemma FollowOne(w: World, s: Step)
    requires Enabled(w, s)
    ensures Follow(w, [s]) == Apply(w, s)
  {
    assert [s][1..] == [] && Follow(Apply(w, s), []) == Apply(w, s);
  }

  // ---- what attaching does not give ----

  function Follow(w: World, steps: seq<Step>): World
    decreases |steps|
  {
    if steps == [] then w
    else if Enabled(w, steps[0]) then Follow(Apply(w, steps[0]), steps[1..])
    else w
  }

  // Between two polls of the first caller its run succeeds, and a second caller deletes the ended
  // job and resubmits. The first then polls the second's run, and raises for that one's failure.
  lemma OwnSuccessCanBeReportedFailed(a: Caller, b: Caller) returns (before: World, after: World)
    requires a != b
    ensures before == Follow(EMPTY, [Submit(a, Heard), Progress(Succeeded)])
    ensures PhaseOf(before, a) == Polling(0, 0) && before.listed == Some(0) && before.runs == [Succeeded]
    ensures after == Follow(before,
      [Submit(b, Heard), Probe(b, Heard), Delete(b, Heard), Resubmit(b, Heard), Progress(Failed), PollStatus(a, Heard)])
    ensures PhaseOf(after, a) == Raised && after.runs == [Succeeded, Failed]
  {
    var w1 := Apply(EMPTY, Submit(a, Heard));
    before := Apply(w1, Progress(Succeeded));
    Steps2(EMPTY, Submit(a, Heard), Progress(Succeeded));
    var x1 := Apply(before, Submit(b, Heard));
    var x2 := Apply(x1, Probe(b, Heard));
    var x3 := Apply(x2, Delete(b, Heard));
    var x4 := Apply(x3, Resubmit(b, Heard));
    var x5 := Apply(x4, Progress(Failed));
    after := Apply(x5, PollStatus(a, Heard));
    var first := [Submit(b, Heard), Probe(b, Heard), Delete(b, Heard)];
    var second := [Resubmit(b, Heard), Progress(Failed), PollStatus(a, Heard)];
    assert [Submit(b, Heard), Probe(b, Heard), Delete(b, Heard), Resubmit(b, Heard), Progress(Failed),
            PollStatus(a, Heard)] == first + second;
    assert second + [] == second && Follow(after, []) == after;
    Steps3(before, Submit(b, Heard), Probe(b, Heard), Delete(b, Heard), second);
    Steps3(x3, Resubmit(b, Heard), Progress(Failed), PollStatus(a, Heard), []);
  }

  lemma Steps2(w: World, s: Step, t: Step)
    requires Enabled(w, s) && Enabled(Apply(w, s), t)
    ensures Follow(w, [s, t]) == Apply(Apply(w, s), t)
  {
    hide Enabled, Apply;
    assert [s, t] == [s] + [t] && [t] == [t] + [];
    assert Follow(w, [s] + [t]) == Follow(Apply(w, s), [t]);
    assert Follow(Apply(w, s), [t] + []) == Follow(Apply(Apply(w, s), t), []);
  }

  lemma Steps3(w: World, s: Step, t: Step, u: Step, rest: seq<Step>)
    requires Enabled(w, s) && Enabled(Apply(w, s), t) && Enabled(Apply(Apply(w, s), t), u)
    ensures Follow(w, [s, t, u] + rest) == Follow(Apply(Apply(Apply(w, s), t), u), rest)
  {
    hide Enabled, Apply;
    assert [s, t, u] + rest == [s] + ([t] + ([u] + rest));
    assert Follow(w, [s] + ([t] + ([u] + rest))) == Follow(Apply(w, s), ([t] + ([u] + rest)));
    assert Follow(Apply(w, s), [t] + ([u] + rest)) == Follow(Apply(Apply(w, s), t), ([u] + rest));
    assert Follow(Apply(Apply(w, s), t), [u] + rest) == Follow(Apply(Apply(Apply(w, s), t), u), rest);
  }
}
