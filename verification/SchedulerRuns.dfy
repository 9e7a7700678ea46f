/** What a scheduler does over whole runs, told from the moves of its goroutines: sweeps that
    cover their targets, and back-off that follows failures. */
module SchedulerRuns {
  import opened Base
  import opened Backoff
  import opened Scheduler

  lemma RunStep(c: Config, steps: seq<Step>, n: nat)
    requires n < |steps|
    ensures Run(c, steps[..n + 1]) == Next(c, Run(c, steps[..n]), steps[n])
  {
    assert steps[..n + 1] == steps[..n] + [steps[n]];
    RunSnoc(c, steps[..n], steps[n]);
  }

  // ---- the story of a scan ------------------------------------------------------------------

  datatype Stage = Queued | Collects | Reconciles | Ended(end: ScanEnd)

  datatype Story = Story(origin: Origin, site: Site, stage: Stage)

  /** Where a move takes a scan: a failed or cancelled Collect, a failed reconcile and an
      expired context are what its end is about. */
  function Told(stage: Stage, move: ScanMove): Option<Stage>
  {
    match (stage, move)
    case (Queued, Acquire) => Some(Collects)
    case (Queued, GiveUp(true)) => Some(Ended(Failed))
    case (Queued, GiveUp(false)) => Some(Ended(Cancelled))
    case (Collects, CollectDone(None)) => Some(Reconciles)
    case (Collects, CollectDone(Some(Failed))) => Some(Ended(Failed))
    case (Collects, CollectDone(Some(Cancelled))) => Some(Ended(Cancelled))
    case (Reconciles, ReconcileDone(true)) => Some(Ended(Succeeded))
    case (Reconciles, ReconcileDone(false)) => Some(Ended(Failed))
    case (_, _) => None
  }

  /** A scan of the site starts with this step. */
  predicate SweepStarts(c: Config, s: State, site: Site, id: nat)
  {
    var step := Looped(site.0, SweepNext(site.1, id));
    Enabled(c, s, step) && id in Next(c, s, step).tasks
  }

  function NextStory(c: Config, s: State, step: Step, id: nat, story: Option<Story>): Option<Story>
  {
    match step
    case Looped(m, SweepNext(t, i)) =>
      if i == id && SweepStarts(c, s, (m, t), id) then Some(Story(LoopScan, (m, t), Queued)) else story
    case Called(AddSpawn(i)) =>
      if i == id && i in s.adding && i !in s.tasks then Some(Story(AddScan, s.adding[i], Queued)) else story
    case Called(NowSpawn(i, site)) =>
      if i == id && Enabled(c, s, step) then Some(Story(NowScan, site, Queued)) else story
    case Scanned(i, move) =>
      if i != id || story.None? || !Enabled(c, s, step) then story
      else if move == Report then None
      else
        var next := Told(story.value.stage, move);
        if next.Some? then Some(story.value.(stage := next.value)) else story
    case _ => story
  }

  /** The scan that goes by `id`, from the moves of the run alone. */
  function StoryOf(c: Config, steps: seq<Step>, id: nat): Option<Story>
  {
    if steps == [] then None
    else
      var n := |steps| - 1;
      NextStory(c, Run(c, steps[..n]), steps[n], id, StoryOf(c, steps[..n], id))
  }

  function PhaseOf(stage: Stage): Phase
  {
    match stage
    case Queued => Waiting
    case Collects => Collecting
    case Reconciles => Reconciling
    case Ended(end) => Returned(end)
  }

  /** The state has the scan where the story has it. */
  predicate Follows(s: State, id: nat, story: Option<Story>)
  {
    if story.None? then id !in s.tasks
    else id in s.tasks && s.tasks[id] == Task(story.value.origin, story.value.site, PhaseOf(story.value.stage))
  }

  lemma CallFollows(c: Config, s: State, call: Call, id: nat, story: Option<Story>)
    requires Follows(s, id, story)
    ensures Follows(Next(c, s, Called(call)), id, NextStory(c, s, Called(call), id, story))
  {
    CallTasks(s, call);
    match call
    case AddSpawn(i) => SpawnFollows(s, i, AddScan, if i in s.adding then s.adding[i] else ("", ""), id);
    case NowSpawn(i, site) => SpawnFollows(s, i, NowScan, site, id);
    case _ =>
    hide AfterCall, Spawned;
  }

  lemma CallTasks(s: State, call: Call)
    ensures CallEnabled(s, call) ==>
              AfterCall(s, call).tasks ==
              if call.AddSpawn? then Spawned(s, call.id, AddScan, s.adding[call.id]).tasks
              else if call.NowSpawn? then Spawned(s, call.id, NowScan, call.site).tasks
              else s.tasks
  {
    assert Started(s).tasks == s.tasks;
    hide Started;
    match call
    case AddSpawn(i) => hide Spawned;
    case NowSpawn(i, site) => hide Spawned;
    case _ =>
  }

  lemma SpawnFollows(s: State, i: nat, origin: Origin, site: Site, id: nat)
    ensures var tasks := Spawned(s, i, origin, site).tasks;
            if i == id then id in tasks && tasks[id] == Task(origin, site, Waiting)
            else (id in tasks <==> id in s.tasks) && (id in tasks ==> tasks[id] == s.tasks[id])
  {
  }

  lemma LoopFollows(c: Config, s: State, m: string, move: LoopMove, id: nat, story: Option<Story>)
    requires Follows(s, id, story)
    ensures Follows(Next(c, s, Looped(m, move)), id, NextStory(c, s, Looped(m, move), id, story))
  {
    hide Launches;
  }

  lemma ScanFollows(c: Config, s: State, i: nat, move: ScanMove, id: nat, story: Option<Story>)
    requires Follows(s, id, story)
    ensures Follows(Next(c, s, Scanned(i, move)), id, NextStory(c, s, Scanned(i, move), id, story))
  {
    hide Judged, GateAt;
  }

  /** Every scan ends as its moves say. */
  lemma {:induction false} StoriesAreTrue(c: Config, steps: seq<Step>, id: nat)
    ensures Follows(Run(c, steps), id, StoryOf(c, steps, id))
  {
    if steps != [] {
      var n := |steps| - 1;
      StoriesAreTrue(c, steps[..n], id);
      var s, story := Run(c, steps[..n]), StoryOf(c, steps[..n], id);
      hide Follows, Next, NextStory;
      match steps[n]
      case Called(call) => CallFollows(c, s, call, id, story);
      case Looped(m, move) => LoopFollows(c, s, m, move, id, story);
      case Scanned(i, move) => ScanFollows(c, s, i, move, id, story);
    }
  }

  // ---- the clock and the context ------------------------------------------------------------

  function Clock(steps: seq<Step>): int
  {
    if steps == [] then 0
    else
      var step := steps[|steps| - 1];
      Clock(steps[..|steps| - 1]) + (if step.Called? && step.call.Tick? then step.call.elapsed else 0)
  }

  /** Whether the context has ended, and if so whether by a deadline: the first to end it
      decides. */
  function Cause(c: Config, steps: seq<Step>): Option<bool>
  {
    if steps == [] then None
    else
      var n := |steps| - 1;
      var before := Cause(c, steps[..n]);
      if before.Some? || !Enabled(c, Run(c, steps[..n]), steps[n]) then before
      else
        match steps[n]
        case Called(ParentDone(deadline)) => Some(deadline)
        case Called(StopBegin) => Some(false)
        case _ => None
  }

  lemma CallTells(c: Config, s: State, step: Step)
    ensures var t := Next(c, s, step);
            && t.now == s.now + (if step.Called? && step.call.Tick? then step.call.elapsed else 0)
            && t.life.cancelled == (s.life.cancelled || (Enabled(c, s, step) && step.Called?
                                                         && (step.call.ParentDone? || step.call.StopBegin?)))
            && t.life.expired == if !s.life.cancelled && Enabled(c, s, step) && step.Called? && step.call.ParentDone?
                                 then step.call.deadline else s.life.expired
  {
    hide Judged, GateAt, Launches;
    match step
    case Called(call) => CallTellsOne(s, call);
    case Looped(m, move) => LoopTells(s, m, move);
    case Scanned(id, move) => ScanTells(c, s, id, move);
    hide AfterCall, AfterLoop, AfterScan, CallEnabled, LoopEnabled, ScanEnabled;
  }

  lemma CallTellsOne(s: State, call: Call)
    ensures CallEnabled(s, call) ==>
              var t := AfterCall(s, call);
              && t.now == s.now + (if call.Tick? then call.elapsed else 0)
              && t.life.cancelled == (s.life.cancelled || call.ParentDone? || call.StopBegin?)
              && t.life.expired == if !s.life.cancelled && call.ParentDone? then call.deadline else s.life.expired
  {
    assert Started(s).now == s.now && Started(s).life == s.life.(started := true);
    hide Started;
  }

  lemma LoopTells(s: State, m: string, move: LoopMove)
    ensures LoopEnabled(s, m, move) ==> AfterLoop(s, m, move).now == s.now && AfterLoop(s, m, move).life == s.life
  {
    hide Launches;
  }

  lemma ScanTells(c: Config, s: State, id: nat, move: ScanMove)
    ensures ScanEnabled(c, s, id, move) ==>
              AfterScan(c, s, id, move).now == s.now && AfterScan(c, s, id, move).life == s.life
  {
    hide Judged, GateAt;
  }

  /** The scheduler's clock is the time that has passed, and its context has ended as the
      first to end it did. */
  lemma {:induction false} TimeAndCause(c: Config, steps: seq<Step>)
    ensures var s := Run(c, steps);
            && s.now == Clock(steps)
            && (s.life.cancelled <==> Cause(c, steps).Some?) && (s.life.expired <==> Cause(c, steps) == Some(true))
  {
    if steps != [] {
      var n := |steps| - 1;
      TimeAndCause(c, steps[..n]);
      CallTells(c, Run(c, steps[..n]), steps[n]);
      hide Next, Enabled;
    }
  }

  /** A scan of a loop or an added target gives up waiting for a slot only because the
      context has ended, and ends as the context did. */
  lemma GivesUpWithContext(c: Config, steps: seq<Step>, id: nat, deadline: bool)
    requires Enabled(c, Run(c, steps), Scanned(id, GiveUp(deadline)))
    ensures var story := StoryOf(c, steps, id);
            && story.Some? && story.value.stage == Queued
            && (story.value.origin != NowScan ==> Cause(c, steps) == Some(deadline))
  {
    StoriesAreTrue(c, steps, id);
    TimeAndCause(c, steps);
    var cause := Cause(c, steps);
    assert cause.Some? ==> cause == Some(cause.value) && (cause.value <==> cause == Some(true));
    hide Run, StoryOf, Cause;
  }

  // ---- loops and sweeps ------------------------------------------------------------------------

  function NextWanted(c: Config, s: State, step: Step, m: string, before: Option<set<string>>): Option<set<string>>
  {
    match step
    case Called(Register(x)) => if x == m && m != "" && before.None? then Some({}) else before
    case Called(AddCheck(id, site)) =>
      if site.0 == m && before.Some? && Enabled(c, s, step) then Some(before.value + {site.1}) else before
    case Called(Remove(site)) => if site.0 == m && before.Some? then Some(before.value - {site.1}) else before
    case _ => before
  }

  /** The targets of a module, from the calls of the run: those added and not removed. */
  function Wanted(c: Config, steps: seq<Step>, m: string): Option<set<string>>
  {
    if steps == [] then None
    else
      var n := |steps| - 1;
      NextWanted(c, Run(c, steps[..n]), steps[n], m, Wanted(c, steps[..n], m))
  }

  function TargetsOf(s: State, m: string): Option<set<string>> { if m in s.modules then Some(s.modules[m]) else None }

  lemma CallTargets(c: Config, s: State, call: Call, m: string)
    ensures TargetsOf(Next(c, s, Called(call)), m) == NextWanted(c, s, Called(call), m, TargetsOf(s, m))
  {
    assert Started(s).modules == s.modules;
    hide Started;
    match call
    case AddSpawn(id) =>
    case NowSpawn(id, site) =>
    case _ =>
  }

  lemma TargetsStep(c: Config, s: State, step: Step, m: string)
    ensures TargetsOf(Next(c, s, step), m) == NextWanted(c, s, step, m, TargetsOf(s, m))
  {
    hide Judged, GateAt, Launches, AfterCall;
    match step
    case Called(call) => CallTargets(c, s, call, m);
    case Looped(_, _) =>
    case Scanned(_, _) =>
  }

  lemma {:induction false} TargetsAreWanted(c: Config, steps: seq<Step>, m: string)
    ensures TargetsOf(Run(c, steps), m) == Wanted(c, steps, m)
  {
    if steps != [] {
      var n := |steps| - 1;
      TargetsAreWanted(c, steps[..n], m);
      TargetsStep(c, Run(c, steps[..n]), steps[n], m);
      hide Next, NextWanted, TargetsOf;
    }
  }

  /** The move of module `m`'s loop that happens at step `n`, if any. */
  predicate LoopDoes(c: Config, steps: seq<Step>, n: nat, m: string, move: LoopMove)
    requires n < |steps|
  {
    steps[n] == Looped(m, move) && Enabled(c, Run(c, steps[..n]), steps[n])
  }

  /** What a step leaves of a live loop. */
  lemma LoopStep(c: Config, s: State, step: Step, m: string)
    requires m in s.loops && s.life.started
    ensures var t := Next(c, s, step);
            if !Enabled(c, s, step) || !step.Looped? || step.mod != m then m in t.loops && t.loops[m] == s.loops[m]
            else if step.move == LoopExit then m !in t.loops && s.life.cancelled && s.loops[m] == Sleeping
            else
              && m in t.loops
              && (step.move == SweepBegin ==> t.loops[m] == Sweeping(s.modules[m]) && !s.loops[m].Sweeping?)
              && (step.move == SweepEnd ==> t.loops[m] == Sleeping && s.loops[m] == Sweeping({}))
              && (step.move.SweepNext? ==> s.loops[m].Sweeping? && step.move.target in s.loops[m].todo
                                           && t.loops[m] == Sweeping(s.loops[m].todo - {step.move.target}))
  {
    match step
    case Called(call) => CallLoops(s, call);
    case Looped(x, move) =>
    case Scanned(id, move) => ScanLoops(c, s, id, move);
    hide Launches, AfterCall, AfterScan, CallEnabled, ScanEnabled;
  }

  lemma CallLoops(s: State, call: Call)
    requires s.life.started
    ensures CallEnabled(s, call) ==> AfterCall(s, call).loops == s.loops
  {
    hide Started;
  }

  lemma ScanLoops(c: Config, s: State, id: nat, move: ScanMove)
    ensures ScanEnabled(c, s, id, move) ==> AfterScan(c, s, id, move).loops == s.loops
  {
    hide Judged, GateAt;
  }

  ghost predicate Visited(c: Config, steps: seq<Step>, i: nat, n: nat, m: string, t: string)
    requires n <= |steps|
  {
    exists k, id :: i < k < n && LoopDoes(c, steps, k, m, SweepNext(t, id))
  }

  lemma LoopsMeanStarted(c: Config, steps: seq<Step>, m: string)
    requires m in Run(c, steps).loops
    ensures Run(c, steps).life.started
  {
    AlwaysCounted(c, steps);
    hide Run, SlotsCounted, Waited;
  }

  /** Between its begin and its end a sweep has each target still to do or visited. */
  lemma {:induction false} StillToDo(c: Config, steps: seq<Step>, i: nat, n: nat, m: string, t: string)
    requires i < n <= |steps| && LoopDoes(c, steps, i, m, SweepBegin)
    requires Wanted(c, steps[..i], m).Some? && t in Wanted(c, steps[..i], m).value
    requires forall k :: i < k < n ==> !LoopDoes(c, steps, k, m, SweepEnd)
    ensures var s := Run(c, steps[..n]);
            && m in s.loops && s.loops[m].Sweeping?
            && (t in s.loops[m].todo || Visited(c, steps, i, n, m, t))
  {
    var s := Run(c, steps[..n - 1]);
    RunStep(c, steps, n - 1);
    if n == i + 1 {
      TargetsAreWanted(c, steps[..i], m);
      LoopsMeanStarted(c, steps[..i], m);
      LoopStep(c, s, steps[i], m);
      hide Run, Next;
    } else {
      StillToDo(c, steps, i, n - 1, m, t);
      LoopsMeanStarted(c, steps[..n - 1], m);
      LoopStep(c, s, steps[n - 1], m);
      VisitedGrows(c, steps, i, n - 1, m, t);
      assert !LoopDoes(c, steps, n - 1, m, SweepEnd);
      hide Run, Next, Wanted, Visited;
    }
  }

  lemma VisitedGrows(c: Config, steps: seq<Step>, i: nat, n: nat, m: string, t: string)
    requires i < n < |steps|
    ensures Visited(c, steps, i, n, m, t) ==> Visited(c, steps, i, n + 1, m, t)
    ensures (exists id :: LoopDoes(c, steps, n, m, SweepNext(t, id))) ==> Visited(c, steps, i, n + 1, m, t)
  {
    hide LoopDoes;
  }

  /** A sweep that ends has visited every target the module had when it began. */
  lemma SweepCovers(c: Config, steps: seq<Step>, i: nat, j: nat, m: string, t: string)
    requires i < j < |steps| && LoopDoes(c, steps, i, m, SweepBegin) && LoopDoes(c, steps, j, m, SweepEnd)
    requires forall k :: i < k < j ==> !LoopDoes(c, steps, k, m, SweepEnd)
    requires Wanted(c, steps[..i], m).Some? && t in Wanted(c, steps[..i], m).value
    ensures Visited(c, steps, i, j, m, t)
  {
    StillToDo(c, steps, i, j, m, t);
    LoopsMeanStarted(c, steps[..j], m);
    LoopStep(c, Run(c, steps[..j]), steps[j], m);
    hide Run, Next, Wanted, Visited;
  }

  /** A module registered when the scheduler starts keeps its loop until the context ends. */
  lemma {:induction false} LoopsStay(c: Config, steps: seq<Step>, i: nat, n: nat, m: string)
    requires i < n <= |steps| && steps[i] == Called(Start) && !Run(c, steps[..i]).life.started
    requires Wanted(c, steps[..i], m).Some? && Cause(c, steps[..n]).None?
    ensures m in Run(c, steps[..n]).loops
  {
    RunStep(c, steps, n - 1);
    var s := Run(c, steps[..n - 1]);
    if n == i + 1 {
      TargetsAreWanted(c, steps[..i], m);
      hide *;
      StartLoops(c, s, m);
    } else {
      assert steps[..n][..n - 1] == steps[..n - 1];
      assert Cause(c, steps[..n - 1]).None?;
      hide Run, Next, Wanted, Cause, Enabled;
      LoopsStay(c, steps, i, n - 1, m);
      LoopsMeanStarted(c, steps[..n - 1], m);
      TimeAndCause(c, steps[..n - 1]);
      LoopStep(c, s, steps[n - 1], m);
    }
  }

  lemma StartLoops(c: Config, s: State, m: string)
    requires !s.life.started && TargetsOf(s, m).Some?
    ensures m in Next(c, s, Called(Start)).loops
  {
    assert m in Started(s).loops;
  }

  // ---- backing off ---------------------------------------------------------------------------

  /** The step by which a loop-launched scan of the site reports, and how the scan ended. */
  function Verdict(c: Config, before: seq<Step>, step: Step, site: Site): Option<ScanEnd>
  {
    if !(step.Scanned? && step.scan == Report) then None
    else
      match StoryOf(c, before, step.id)
      case Some(Story(LoopScan, x, Ended(end))) => if x == site then Some(end) else None
      case _ => None
  }

  /** Failures reported in a row, up to now. */
  function Streak(c: Config, steps: seq<Step>, site: Site): nat
  {
    if steps == [] then 0
    else
      var n := |steps| - 1;
      match Verdict(c, steps[..n], steps[n], site)
      case None => Streak(c, steps[..n], site)
      case Some(end) => if end == Failed then Streak(c, steps[..n], site) + 1 else 0
  }

  /** When the last failure was reported. */
  function LastFailure(c: Config, steps: seq<Step>, site: Site): int
  {
    if steps == [] then 0
    else
      var n := |steps| - 1;
      if Verdict(c, steps[..n], steps[n], site) == Some(Failed) then Clock(steps[..n])
      else LastFailure(c, steps[..n], site)
  }

  function GateFor(c: Config, streak: nat, last: int): Gate
  {
    Gate(streak, if streak == 0 then None else Some(last + Delay(c.retryBase, streak - 1, c.retryMax)))
  }

  /** What the state knows of the report. */
  function Seen(s: State, step: Step, site: Site): Option<ScanEnd>
  {
    if step.Scanned? && step.scan == Report && step.id in s.tasks && s.tasks[step.id].phase.Returned?
       && s.tasks[step.id].origin == LoopScan && s.tasks[step.id].site == site
    then Some(s.tasks[step.id].phase.end) else None
  }

  lemma SeenIsVerdict(c: Config, before: seq<Step>, step: Step, site: Site)
    ensures Seen(Run(c, before), step, site) == Verdict(c, before, step, site)
  {
    if step.Scanned? {
      StoriesAreTrue(c, before, step.id);
      hide Run, StoryOf;
    }
  }

  lemma GateStep(c: Config, s: State, step: Step, site: Site)
    ensures var end := Seen(s, step, site);
            GateAt(Next(c, s, step), site) ==
              if end.Some? then Judged(c, GateAt(s, site), end.value, s.now) else GateAt(s, site)
  {
    hide Judged, Launches;
    match step
    case Called(call) => CallGates(s, call);
    case Looped(m, move) => assert LoopEnabled(s, m, move) ==> AfterLoop(s, m, move).gates == s.gates;
    case Scanned(id, scan) =>
    hide AfterCall, CallEnabled, AfterLoop, LoopEnabled;
  }

  lemma CallGates(s: State, call: Call)
    ensures CallEnabled(s, call) ==> AfterCall(s, call).gates == s.gates
  {
    assert Started(s).gates == s.gates;
    hide Started;
    match call
    case AddSpawn(id) =>
    case NowSpawn(id, site) =>
    case _ =>
  }

  lemma JudgedGate(c: Config, streak: nat, last: int, end: ScanEnd, now: int)
    ensures Judged(c, GateFor(c, streak, last), end, now) ==
            if end == Failed then GateFor(c, streak + 1, now) else GateFor(c, 0, last)
  {
    hide Delay;
  }

  /** The gate of a target is set by its consecutive failures and nothing else. */
  lemma {:induction false} GatesFollowFailures(c: Config, steps: seq<Step>, site: Site)
    ensures GateAt(Run(c, steps), site) == GateFor(c, Streak(c, steps, site), LastFailure(c, steps, site))
  {
    if steps != [] {
      var n := |steps| - 1;
      var before := steps[..n];
      GatesFollowFailures(c, before, site);
      SeenIsVerdict(c, before, steps[n], site);
      TimeAndCause(c, before);
      GateStep(c, Run(c, before), steps[n], site);
      hide Next, GateAt, GateFor, Judged, Seen, Verdict;
      var end := Verdict(c, before, steps[n], site);
      if end.Some? {
        JudgedGate(c, Streak(c, before, site), LastFailure(c, before, site), end.value, Clock(before));
      }
    }
  }

  lemma SweepLaunches(c: Config, s: State, site: Site, id: nat)
    requires Enabled(c, s, Looped(site.0, SweepNext(site.1, id)))
    ensures SweepStarts(c, s, site, id) <==> Launches(s, site)
  {
    hide GateAt;
  }

  lemma GateAllows(c: Config, s: State, site: Site, k: nat, last: int)
    requires GateAt(s, site) == GateFor(c, k, last)
    ensures Launches(s, site) <==> k == 0 || s.now >= last + Delay(c.retryBase, k - 1, c.retryMax)
  {
    hide Delay;
  }

  /** A sweep that comes to a target launches a scan of it exactly when the target has not
      failed since its last success, or min(RetryBase * 2^(k-1), RetryMax) has passed since
      the last of its k failures in a row, whatever else runs meanwhile. */
  lemma BackoffExactly(c: Config, steps: seq<Step>, site: Site, id: nat)
    requires Duration(c.retryBase) && Duration(c.retryMax) && NeverWraps(c.retryBase, c.retryMax)
    requires Enabled(c, Run(c, steps), Looped(site.0, SweepNext(site.1, id)))
    ensures var k := Streak(c, steps, site);
            SweepStarts(c, Run(c, steps), site, id) <==>
              k == 0 || Clock(steps) >= LastFailure(c, steps, site) + Min(c.retryBase * Pow2(k - 1), c.retryMax)
  {
    hide *;
    SweepLaunches(c, Run(c, steps), site, id);
    GatesFollowFailures(c, steps, site);
    TimeAndCause(c, steps);
    var k := Streak(c, steps, site);
    GateAllows(c, Run(c, steps), site, k, LastFailure(c, steps, site));
    if k > 0 {
      BackoffIsMin(c, k - 1);
    }
  }

  lemma BackoffIsMin(c: Config, k: nat)
    requires Duration(c.retryBase) && Duration(c.retryMax) && NeverWraps(c.retryBase, c.retryMax)
    ensures Delay(c.retryBase, k, c.retryMax) == Min(c.retryBase * Pow2(k), c.retryMax)
  {
    DelayIsMin(c.retryBase, k, c.retryMax);
  }
}
