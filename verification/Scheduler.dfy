/** The scan scheduler as interleaved atomic steps of its goroutines: module loops, the
    scans they launch, scans of freshly added targets, and on-demand sweeps. */
module Scheduler {
  import opened Base
  import opened Backoff

  /** Settings after defaults. */
  datatype Config = Config(workers: nat, retryBase: int, retryMax: int)

  datatype Origin = LoopScan | AddScan | NowScan

  /** An exceeded deadline is a failure like any other; only cancellation is excused. */
  datatype ScanEnd = Succeeded | Failed | Cancelled

  /** Waiting for a slot, collecting, reconciling, or past scanOne with its result. */
  datatype Phase = Waiting | Collecting | Reconciling | Returned(end: ScanEnd)

  datatype Task = Task(origin: Origin, site: Site, phase: Phase)

  /** Module and canonical target. */
  type Site = (string, string)

  datatype Loop = Starting | Sweeping(todo: set<string>) | Sleeping

  datatype Gate = Gate(failures: nat, nextOK: Option<int>)

  /** How far the life cycle has come; `expired` says that the context ended by deadline. */
  datatype Life = Life(started: bool, cancelled: bool, expired: bool, stopping: bool, stopped: bool)

  datatype State = State(
    modules: map<string, set<string>>, loops: map<string, Loop>, tasks: map<nat, Task>, adding: map<nat, Site>,
    sem: nat, wg: int, life: Life, gates: map<Site, Gate>, now: int)

  const INITIAL := State(map[], map[], map[], map[], 0, 0, Life(false, false, false, false, false), map[], 0)

  /** What callers, the parent context and the clock do. */
  datatype Call =
    | Register(mod: string)
    | AddCheck(id: nat, site: Site)
    | AddSpawn(id: nat)
    | Remove(site: Site)
    | NowSpawn(id: nat, site: Site)
    | Start
    | ParentDone(deadline: bool)
    | StopBegin
    | StopReturn
    | Tick(elapsed: nat)

  /** What a module loop does. */
  datatype LoopMove = SweepBegin | SweepNext(target: string, id: nat) | SweepEnd | LoopExit

  /** What a scan does. */
  datatype ScanMove =
    | Acquire
    | GiveUp(deadline: bool)
    | CollectDone(failure: Option<ScanEnd>)
    | ReconcileDone(ok: bool)
    | Report

  datatype Step = Called(call: Call) | Looped(mod: string, move: LoopMove) | Scanned(id: nat, scan: ScanMove)

  // ---- steps --------------------------------------------------------------------------------

  predicate Unused(s: State, id: nat) { id !in s.tasks && id !in s.adding }

  predicate CallEnabled(s: State, call: Call)
  {
    match call
    case Register(m) => m != "" && m !in s.modules
    case AddCheck(id, site) => site.0 in s.modules && Unused(s, id)
    case AddSpawn(id) => id in s.adding && id !in s.tasks
    case Remove(site) => site.0 in s.modules
    case NowSpawn(id, site) => site.0 in s.modules && Unused(s, id)
    case Start => !s.life.started
    case ParentDone(_) => s.life.started
    case StopBegin => s.life.started
    case StopReturn => s.life.stopping && s.wg == 0
    case Tick(_) => true
  }

  predicate LoopEnabled(s: State, m: string, move: LoopMove)
  {
    m in s.loops &&
    match move
    case SweepBegin => !s.loops[m].Sweeping? && m in s.modules
    case SweepNext(target, id) => s.loops[m].Sweeping? && target in s.loops[m].todo && Unused(s, id)
    case SweepEnd => s.loops[m] == Sweeping({})
    case LoopExit => s.loops[m] == Sleeping && s.life.cancelled
  }

  predicate ScanEnabled(c: Config, s: State, id: nat, scan: ScanMove)
  {
    id in s.tasks &&
    match scan
    case Acquire => s.tasks[id].phase == Waiting && s.sem < c.workers
    case GiveUp(deadline) =>
      && s.tasks[id].phase == Waiting
      && (s.tasks[id].origin != NowScan ==> s.life.cancelled && deadline == s.life.expired)
    case CollectDone(failure) => s.tasks[id].phase == Collecting && failure != Some(Succeeded) && s.sem > 0
    case ReconcileDone(ok) => s.tasks[id].phase == Reconciling && s.sem > 0
    case Report => s.tasks[id].phase.Returned?
  }

  function GateAt(s: State, site: Site): Gate { if site in s.gates then s.gates[site] else Gate(0, None) }

  /** The sweep lets the target through: it is not backing off. */
  predicate Launches(s: State, site: Site)
  {
    var next := GateAt(s, site).nextOK;
    next.None? || s.now >= next.value
  }

  function Moved(s: State, id: nat, phase: Phase): State
    requires id in s.tasks
  {
    s.(tasks := s.tasks[id := s.tasks[id].(phase := phase)])
  }

  function Spawned(s: State, id: nat, origin: Origin, site: Site): State
  {
    s.(tasks := s.tasks[id := Task(origin, site, Waiting)], wg := if origin == NowScan then s.wg else s.wg + 1)
  }

  /** Failure bookkeeping of a loop-launched scan. */
  function Judged(c: Config, g: Gate, end: ScanEnd, now: int): Gate
  {
    if end == Failed then Gate(g.failures + 1, Some(now + Delay(c.retryBase, g.failures, c.retryMax)))
    else Gate(0, None)
  }

  function Reported(c: Config, s: State, id: nat): State
    requires id in s.tasks && s.tasks[id].phase.Returned?
  {
    var task := s.tasks[id];
    s.(tasks := s.tasks - {id},
       wg := if task.origin == NowScan then s.wg else s.wg - 1,
       gates := if task.origin == LoopScan
                then s.gates[task.site := Judged(c, GateAt(s, task.site), task.phase.end, s.now)]
                else s.gates)
  }

  function AfterCall(s: State, call: Call): State
    requires CallEnabled(s, call)
  {
    match call
    case Register(m) => s.(modules := s.modules[m := {}])
    case AddCheck(id, site) =>
      var kept := s.(modules := s.modules[site.0 := s.modules[site.0] + {site.1}]);
      if s.life.started && !s.life.cancelled then kept.(adding := s.adding[id := site]) else kept
    case AddSpawn(id) => Spawned(s, id, AddScan, s.adding[id]).(adding := s.adding - {id})
    case Remove(site) => s.(modules := s.modules[site.0 := s.modules[site.0] - {site.1}])
    case NowSpawn(id, site) => Spawned(s, id, NowScan, site)
    case Start => Started(s)
    case ParentDone(deadline) =>
      s.(life := s.life.(cancelled := true, expired := if s.life.cancelled then s.life.expired else deadline))
    case StopBegin => s.(life := s.life.(cancelled := true, stopping := true))
    case StopReturn => s.(life := s.life.(stopped := true))
    case Tick(elapsed) => s.(now := s.now + elapsed)
  }

  /** One loop per registered module. */
  function Started(s: State): State
  {
    s.(life := s.life.(started := true), loops := map m | m in s.modules :: Starting, wg := s.wg + |s.modules|)
  }

  function AfterLoop(s: State, m: string, move: LoopMove): State
    requires LoopEnabled(s, m, move)
  {
    match move
    case SweepBegin => s.(loops := s.loops[m := Sweeping(s.modules[m])])
    case SweepNext(target, id) =>
      var next := s.(loops := s.loops[m := Sweeping(s.loops[m].todo - {target})]);
      if Launches(s, (m, target)) then Spawned(next, id, LoopScan, (m, target)) else next
    case SweepEnd => s.(loops := s.loops[m := Sleeping])
    case LoopExit => s.(loops := s.loops - {m}, wg := s.wg - 1)
  }

  function AfterScan(c: Config, s: State, id: nat, scan: ScanMove): State
    requires ScanEnabled(c, s, id, scan)
  {
    match scan
    case Acquire => Moved(s, id, Collecting).(sem := s.sem + 1)
    case GiveUp(deadline) => Moved(s, id, Returned(if deadline then Failed else Cancelled))
    case CollectDone(None) => Moved(s, id, Reconciling)
    case CollectDone(Some(end)) => Moved(s, id, Returned(end)).(sem := s.sem - 1)
    case ReconcileDone(ok) => Moved(s, id, Returned(if ok then Succeeded else Failed)).(sem := s.sem - 1)
    case Report => Reported(c, s, id)
  }

  predicate Enabled(c: Config, s: State, step: Step)
  {
    match step
    case Called(call) => CallEnabled(s, call)
    case Looped(m, move) => LoopEnabled(s, m, move)
    case Scanned(id, scan) => ScanEnabled(c, s, id, scan)
  }

  /** A step that is not enabled does not happen. */
  function Next(c: Config, s: State, step: Step): State
  {
    if !Enabled(c, s, step) then s
    else
      match step
      case Called(call) => AfterCall(s, call)
      case Looped(m, move) => AfterLoop(s, m, move)
      case Scanned(id, scan) => AfterScan(c, s, id, scan)
  }

  function Run(c: Config, steps: seq<Step>): State
  {
    if steps == [] then INITIAL else Next(c, Run(c, steps[..|steps| - 1]), steps[|steps| - 1])
  }

  // ---- counting goroutines -------------------------------------------------------------------

  function Ids(tasks: map<nat, Task>, p: Task -> bool): set<nat> { set id | id in tasks && p(tasks[id]) }

  predicate Holding(t: Task) { t.phase == Collecting || t.phase == Reconciling }

  predicate InCollect(t: Task) { t.phase == Collecting }

  predicate Tracked(t: Task) { t.origin != NowScan }

  lemma PutCount(tasks: map<nat, Task>, id: nat, task: Task, p: Task -> bool)
    ensures |Ids(tasks[id := task], p)| ==
            |Ids(tasks, p)| - (if id in tasks && p(tasks[id]) then 1 else 0) + (if p(task) then 1 else 0)
  {
    var before, after := Ids(tasks, p), Ids(tasks[id := task], p);
    assert after - {id} == before - {id};
    Split(before, id);
    Split(after, id);
  }

  lemma DropCount(tasks: map<nat, Task>, id: nat, p: Task -> bool)
    requires id in tasks
    ensures |Ids(tasks - {id}, p)| == |Ids(tasks, p)| - (if p(tasks[id]) then 1 else 0)
  {
    var before, after := Ids(tasks, p), Ids(tasks - {id}, p);
    assert after == before - {id};
    Split(before, id);
  }

  lemma Split(s: set<nat>, x: nat)
    ensures |s| == |s - {x}| + (if x in s then 1 else 0)
  {
  }

  // ---- the invariant -----------------------------------------------------------------------------

  /** The semaphore counts the scans between acquire and release. */
  ghost predicate SlotsCounted(c: Config, s: State) { s.sem == |Ids(s.tasks, Holding)| <= c.workers }

  /** The wait group counts loops and the scans they or AddTarget launched. */
  ghost predicate Waited(s: State) { s.wg == |s.loops.Keys| + |Ids(s.tasks, Tracked)| }

  /** No module loop and no loop-launched scan is alive. */
  ghost predicate Quiet(s: State)
  {
    (forall m :: m !in s.loops) && (forall id :: id in s.tasks ==> s.tasks[id].origin != LoopScan)
  }

  ghost predicate Ordered(s: State)
  {
    && (s.life.stopping || s.life.stopped ==> s.life.cancelled)
    && (s.life.cancelled ==> s.life.started)
    && (!s.life.started || s.life.stopped ==> Quiet(s))
  }

  lemma MovedCounts(s: State, id: nat, phase: Phase, p: Task -> bool)
    requires id in s.tasks
    ensures |Ids(Moved(s, id, phase).tasks, p)| ==
            |Ids(s.tasks, p)| - (if p(s.tasks[id]) then 1 else 0) + (if p(s.tasks[id].(phase := phase)) then 1 else 0)
  {
    PutCount(s.tasks, id, s.tasks[id].(phase := phase), p);
  }

  lemma SpawnedCounts(s: State, id: nat, origin: Origin, site: Site, p: Task -> bool)
    requires id !in s.tasks
    ensures |Ids(Spawned(s, id, origin, site).tasks, p)| ==
              |Ids(s.tasks, p)| + (if p(Task(origin, site, Waiting)) then 1 else 0)
  {
    PutCount(s.tasks, id, Task(origin, site, Waiting), p);
  }

  lemma LoopKeys(s: State, m: string, loop: Loop)
    requires m in s.loops
    ensures s.loops[m := loop].Keys == s.loops.Keys
    ensures |(s.loops - {m}).Keys| == |s.loops.Keys| - 1
  {
  }

  lemma StartCounts(s: State)
    requires forall m :: m !in s.loops
    ensures |Started(s).loops.Keys| == |s.modules| && |s.loops.Keys| == 0
    ensures Started(s).wg == s.wg + |s.modules| && Started(s).tasks == s.tasks && Started(s).sem == s.sem
  {
    assert s.loops.Keys == {};
    assert Started(s).loops.Keys == s.modules.Keys;
  }

  lemma CallCounts(c: Config, s: State, call: Call)
    requires CallEnabled(s, call) && SlotsCounted(c, s) && Waited(s) && Ordered(s)
    ensures SlotsCounted(c, AfterCall(s, call)) && Waited(AfterCall(s, call))
  {
    hide Ids, Started, GateAt;
    match call
    case AddSpawn(id) =>
      SpawnedCounts(s, id, AddScan, s.adding[id], Holding);
      SpawnedCounts(s, id, AddScan, s.adding[id], Tracked);
    case NowSpawn(id, site) =>
      SpawnedCounts(s, id, NowScan, site, Holding);
      SpawnedCounts(s, id, NowScan, site, Tracked);
    case Start => StartCounts(s);
    case _ =>
  }

  lemma LoopCounts(c: Config, s: State, m: string, move: LoopMove)
    requires LoopEnabled(s, m, move) && SlotsCounted(c, s) && Waited(s)
    ensures SlotsCounted(c, AfterLoop(s, m, move)) && Waited(AfterLoop(s, m, move))
  {
    hide Ids, Launches;
    match move
    case SweepBegin => LoopKeys(s, m, Sweeping(s.modules[m]));
    case SweepNext(target, id) =>
      LoopKeys(s, m, Sweeping(s.loops[m].todo - {target}));
      SpawnedCounts(s, id, LoopScan, (m, target), Holding);
      SpawnedCounts(s, id, LoopScan, (m, target), Tracked);
    case SweepEnd => LoopKeys(s, m, Sleeping);
    case LoopExit => LoopKeys(s, m, Sleeping);
  }

  lemma ScanCounts(c: Config, s: State, id: nat, scan: ScanMove)
    requires ScanEnabled(c, s, id, scan) && SlotsCounted(c, s) && Waited(s)
    ensures SlotsCounted(c, AfterScan(c, s, id, scan)) && Waited(AfterScan(c, s, id, scan))
  {
    hide Ids, Judged, GateAt;
    if scan == Report {
      DropCount(s.tasks, id, Holding);
      DropCount(s.tasks, id, Tracked);
    } else {
      var phase := AfterScan(c, s, id, scan).tasks[id].phase;
      MovedCounts(s, id, phase, Holding);
      MovedCounts(s, id, phase, Tracked);
    }
  }

  lemma DrainedIsQuiet(s: State)
    requires Waited(s) && s.wg == 0
    ensures Quiet(s)
  {
    assert s.loops.Keys == {} && Ids(s.tasks, Tracked) == {};
    forall id | id in s.tasks ensures s.tasks[id].origin != LoopScan {
      assert id !in Ids(s.tasks, Tracked);
    }
  }

  lemma CallOrders(s: State, call: Call)
    requires CallEnabled(s, call) && Waited(s) && Ordered(s)
    ensures Ordered(AfterCall(s, call)) && (s.life.stopped ==> AfterCall(s, call).life.stopped)
  {
    hide Waited;
    match call
    case StopReturn => DrainedIsQuiet(s);
    case _ =>
  }

  lemma LoopOrders(s: State, m: string, move: LoopMove)
    requires LoopEnabled(s, m, move) && Ordered(s)
    ensures Ordered(AfterLoop(s, m, move)) && AfterLoop(s, m, move).life == s.life
  {
  }

  lemma ScanOrders(c: Config, s: State, id: nat, scan: ScanMove)
    requires ScanEnabled(c, s, id, scan) && Ordered(s)
    ensures Ordered(AfterScan(c, s, id, scan)) && AfterScan(c, s, id, scan).life == s.life
  {
    hide Judged, GateAt;
  }

  lemma StepKeeps(c: Config, s: State, step: Step)
    requires SlotsCounted(c, s) && Waited(s) && Ordered(s)
    ensures var t := Next(c, s, step);
            SlotsCounted(c, t) && Waited(t) && Ordered(t) && (s.life.stopped ==> t.life.stopped)
  {
    hide SlotsCounted, Waited, Ordered, AfterCall, AfterLoop, AfterScan, CallEnabled, LoopEnabled, ScanEnabled;
    if Enabled(c, s, step) {
      match step
      case Called(call) =>
        CallCounts(c, s, call);
        CallOrders(s, call);
      case Looped(m, move) =>
        LoopCounts(c, s, m, move);
        LoopOrders(s, m, move);
      case Scanned(id, scan) =>
        ScanCounts(c, s, id, scan);
        ScanOrders(c, s, id, scan);
    }
  }

  lemma {:induction false} AlwaysCounted(c: Config, steps: seq<Step>)
    ensures SlotsCounted(c, Run(c, steps)) && Waited(Run(c, steps)) && Ordered(Run(c, steps))
  {
    if steps == [] {
      assert Ids(INITIAL.tasks, Holding) == {} && Ids(INITIAL.tasks, Tracked) == {};
    } else {
      var n := |steps| - 1;
      AlwaysCounted(c, steps[..n]);
      var s := Run(c, steps[..n]);
      hide Next, SlotsCounted, Waited, Ordered;
      StepKeeps(c, s, steps[n]);
    }
  }

  /** In every interleaving the running Collect calls hold slots, and there are never
      more slots taken than workers; a slot without a Collect call is a scan that is
      reconciling. */
  lemma CollectsBounded(c: Config, steps: seq<Step>)
    ensures var s := Run(c, steps);
            && |Ids(s.tasks, InCollect)| <= s.sem <= c.workers
            && (|Ids(s.tasks, InCollect)| == s.sem <==> forall id :: id in s.tasks ==> s.tasks[id].phase != Reconciling)
  {
    AlwaysCounted(c, steps);
    var s := Run(c, steps);
    var few, all := Ids(s.tasks, InCollect), Ids(s.tasks, Holding);
    hide Run, Waited, Ordered;
    SubsetSize(few, all);
    assert few == all <==> forall id :: id in s.tasks ==> s.tasks[id].phase != Reconciling by {
      forall id | id in s.tasks && s.tasks[id].phase == Reconciling ensures id in all && id !in few {
      }
    }
  }

  lemma SubsetSize(a: set<nat>, b: set<nat>)
    requires a <= b
    ensures |a| <= |b| && (|a| == |b| <==> a == b)
  {
    assert b == a + (b - a);
  }

  /** Once Stop has returned after Start, no loop and no loop-launched scan is alive, and
      none ever is again. */
  lemma {:induction false} StopIsFinal(c: Config, steps: seq<Step>, n: nat)
    requires n <= |steps| && Run(c, steps[..n]).life.stopped
    ensures Run(c, steps).life.stopped && Quiet(Run(c, steps))
    decreases |steps| - n
  {
    AlwaysCounted(c, steps[..n]);
    if n == |steps| {
      assert steps[..n] == steps;
    } else {
      assert steps[..n + 1][..n] == steps[..n];
      StepKeeps(c, Run(c, steps[..n]), steps[n]);
      StopIsFinal(c, steps, n + 1);
    }
  }

  lemma RunSnoc(c: Config, steps: seq<Step>, step: Step)
    ensures Run(c, steps + [step]) == Next(c, Run(c, steps), step)
  {
  }

  /** Module `m` has gone to sleep, an AddTarget call has passed its check but not yet
      started its scan, and Stop returns. */
  function Overtaken(m: string, t: string): seq<Step>
  {
    [Called(Register(m)), Called(Start), Looped(m, SweepBegin), Looped(m, SweepEnd), Called(AddCheck(0, (m, t))),
     Called(StopBegin), Looped(m, LoopExit), Called(StopReturn)]
  }

  lemma OvertakenRuns(c: Config, m: string, t: string)
    requires m != ""
    ensures var s := Run(c, Overtaken(m, t));
            && s.life == Life(true, true, false, true, true) && s.wg == 0 && s.sem == 0
            && s.tasks == map[] && s.adding == map[0 := (m, t)]
  {
    var steps := Overtaken(m, t);
    var a := [] + [steps[0]] + [steps[1]] + [steps[2]] + [steps[3]];
    assert steps == a + [steps[4]] + [steps[5]] + [steps[6]] + [steps[7]];
    AsleepRuns(c, m);
    assert a == Asleep(m);
    hide Next, Run;
    RunSnoc(c, a, steps[4]);
    RunSnoc(c, a + [steps[4]], steps[5]);
    RunSnoc(c, a + [steps[4]] + [steps[5]], steps[6]);
    RunSnoc(c, a + [steps[4]] + [steps[5]] + [steps[6]], steps[7]);
    StopsAround(c, Run(c, a), m, t);
  }

  function Asleep(m: string): seq<Step>
  {
    [Called(Register(m)), Called(Start), Looped(m, SweepBegin), Looped(m, SweepEnd)]
  }

  predicate Idle(s: State, m: string)
  {
    && s.modules == map[m := {}] && s.loops == map[m := Sleeping] && s.tasks == map[] && s.adding == map[]
    && s.sem == 0 && s.wg == 1 && s.life == Life(true, false, false, false, false)
  }

  lemma AsleepRuns(c: Config, m: string)
    requires m != ""
    ensures Idle(Run(c, Asleep(m)), m)
  {
    var steps := Asleep(m);
    assert steps == [] + [steps[0]] + [steps[1]] + [steps[2]] + [steps[3]];
    RunSnoc(c, [], steps[0]);
    RunSnoc(c, [] + [steps[0]], steps[1]);
    RunSnoc(c, [] + [steps[0]] + [steps[1]], steps[2]);
    RunSnoc(c, [] + [steps[0]] + [steps[1]] + [steps[2]], steps[3]);
    assert Run(c, []) == INITIAL;
    var s1 := Next(c, INITIAL, steps[0]);
    assert s1.modules == map[m := {}];
    var s2 := Next(c, s1, steps[1]);
    assert s2.loops == map[m := Starting] && s2.wg == 1;
    var s3 := Next(c, s2, steps[2]);
    assert s3.loops == map[m := Sweeping({})];
    var s4 := Next(c, s3, steps[3]);
    assert s4.loops == map[m := Sleeping];
  }

  lemma StopsAround(c: Config, s: State, m: string, t: string)
    requires Idle(s, m)
    ensures var s1 := Next(c, s, Called(AddCheck(0, (m, t))));
            var s2 := Next(c, s1, Called(StopBegin));
            var s3 := Next(c, s2, Looped(m, LoopExit));
            var s4 := Next(c, s3, Called(StopReturn));
            && s4.life == Life(true, true, false, true, true) && s4.wg == 0 && s4.sem == 0
            && s4.tasks == map[] && s4.adding == map[0 := (m, t)]
  {
  }

  /** The promise of Stop does not extend to scans of freshly added targets: one that was
      about to start when Stop returned can still collect afterwards. */
  lemma AddOutlivesStop(c: Config, m: string, t: string)
    requires m != "" && c.workers > 0
    ensures var s := Run(c, Overtaken(m, t) + [Called(AddSpawn(0))] + [Scanned(0, Acquire)]);
            s.life.stopped && 0 in Ids(s.tasks, InCollect)
  {
    OvertakenRuns(c, m, t);
    var steps := Overtaken(m, t);
    RunSnoc(c, steps, Called(AddSpawn(0)));
    RunSnoc(c, steps + [Called(AddSpawn(0))], Scanned(0, Acquire));
    hide Run;
  }

  /** Goroutine ids are not shared with AddTarget calls still to spawn theirs. */
  ghost predicate Separate(s: State) { forall id :: id in s.adding ==> id !in s.tasks }

  lemma SeparateStep(c: Config, s: State, step: Step)
    requires Separate(s)
    ensures Separate(Next(c, s, step))
  {
    match step
    case Called(call) => CallSeparate(s, call);
    case _ =>
    hide Judged, GateAt, Launches, AfterCall, CallEnabled;
  }

  lemma CallSeparate(s: State, call: Call)
    requires Separate(s)
    ensures CallEnabled(s, call) ==> Separate(AfterCall(s, call))
  {
  }

  lemma {:induction false} AlwaysSeparate(c: Config, steps: seq<Step>)
    ensures Separate(Run(c, steps))
  {
    if steps != [] {
      AlwaysSeparate(c, steps[..|steps| - 1]);
      hide Next, Separate;
      SeparateStep(c, Run(c, steps[..|steps| - 1]), steps[|steps| - 1]);
    }
  }

  ghost predicate Over(s: State)
  {
    s.life.stopped && s.life.cancelled && s.wg == 0 && s.adding == map[] && Waited(s) && Ordered(s)
  }

  lemma OverStep(c: Config, s: State, step: Step)
    requires Over(s) && SlotsCounted(c, s)
    ensures Over(Next(c, s, step))
  {
    StepKeeps(c, s, step);
    DrainedIsQuiet(s);
    assert Ids(s.tasks, Tracked) == {};
    match step
    case Called(call) => OverCall(s, call);
    case Looped(m, move) => assert m !in s.loops;
    case Scanned(id, scan) =>
      assert id !in Ids(s.tasks, Tracked);
      OverScan(c, s, id, scan);
    hide Ids, AfterCall, AfterScan, Waited, Ordered, SlotsCounted, CallEnabled, ScanEnabled;
  }

  lemma OverCall(s: State, call: Call)
    requires s.life.stopped && s.life.started && s.life.cancelled && s.wg == 0 && s.adding == map[]
    ensures CallEnabled(s, call) ==>
              var t := AfterCall(s, call);
              t.life.stopped && t.life.cancelled && t.wg == 0 && t.adding == map[]
  {
  }

  lemma OverScan(c: Config, s: State, id: nat, scan: ScanMove)
    requires id in s.tasks ==> s.tasks[id].origin == NowScan
    ensures ScanEnabled(c, s, id, scan) ==>
              var t := AfterScan(c, s, id, scan); t.life == s.life && t.wg == s.wg && t.adding == s.adding
  {
    hide Judged, GateAt;
  }

  lemma {:induction false} OverForever(c: Config, steps: seq<Step>, more: seq<Step>)
    requires Over(Run(c, steps))
    ensures Over(Run(c, steps + more))
  {
    if more == [] {
      assert steps + more == steps;
    } else {
      var n := |more| - 1;
      var before := steps + more[..n];
      OverForever(c, steps, more[..n]);
      assert steps + more == before + [more[n]];
      hide *;
      AlwaysCounted(c, before);
      RunSnoc(c, before, more[n]);
      OverStep(c, Run(c, before), more[n]);
    }
  }

  /** No on-demand sweep starts a scan. */
  predicate NoSweep(steps: seq<Step>)
  {
    forall i :: 0 <= i < |steps| ==> !(steps[i].Called? && steps[i].call.NowSpawn?)
  }

  lemma IdleStep(c: Config, s: State, step: Step)
    requires Over(s) && s.tasks == map[] && NoSweep([step])
    ensures Next(c, s, step).tasks == map[]
  {
    assert [step][0] == step;
    DrainedIsQuiet(s);
    hide Waited, Ordered, Judged, GateAt, Launches;
  }

  lemma {:induction false} IdleForever(c: Config, steps: seq<Step>, more: seq<Step>)
    requires Over(Run(c, steps)) && Run(c, steps).tasks == map[] && NoSweep(more)
    ensures Run(c, steps + more).tasks == map[]
  {
    if more == [] {
      assert steps + more == steps;
    } else {
      var n := |more| - 1;
      var before := steps + more[..n];
      IdleForever(c, steps, more[..n]);
      assert steps + more == before + [more[n]];
      assert NoSweep([more[n]]);
      hide *;
      OverForever(c, steps, more[..n]);
      RunSnoc(c, before, more[n]);
      IdleStep(c, Run(c, before), more[n]);
    }
  }

  /** When Stop returns, the wait group stays at zero for ever exactly if no AddTarget
      call stands between its check and its scan; and no scan is alive then or later,
      short of a new sweep on demand, exactly if besides none of an earlier one is. */
  lemma StopCovers(c: Config, steps: seq<Step>)
    requires Run(c, steps).life.stopped && Run(c, steps).wg == 0
    ensures (forall more :: Run(c, steps + more).wg == 0) <==> Run(c, steps).adding == map[]
    ensures (forall more :: NoSweep(more) ==> Run(c, steps + more).tasks == map[]) <==>
              var s := Run(c, steps);
              s.adding == map[] && forall id :: id in s.tasks ==> s.tasks[id].origin != NowScan
  {
    var s := Run(c, steps);
    AlwaysCounted(c, steps);
    AlwaysSeparate(c, steps);
    assert s.life.cancelled;
    DrainedTasks(s);
    hide Run, Waited, Ordered;
    if s.adding == map[] {
      forall more
        ensures Run(c, steps + more).wg == 0
        ensures s.tasks == map[] && NoSweep(more) ==> Run(c, steps + more).tasks == map[]
      {
        OverForever(c, steps, more);
        if s.tasks == map[] && NoSweep(more) { IdleForever(c, steps, more); }
      }
    } else {
      var id :| id in s.adding;
      var more := [Called(AddSpawn(id))];
      RunSnoc(c, steps, more[0]);
      assert NoSweep(more) && Run(c, steps + more).wg == 1 && id in Run(c, steps + more).tasks;
    }
    assert NoSweep([]) && steps + [] == steps;
  }

  lemma DrainedTasks(s: State)
    requires Waited(s) && s.wg == 0
    ensures s.tasks == map[] <==> forall id :: id in s.tasks ==> s.tasks[id].origin != NowScan
  {
    assert Ids(s.tasks, Tracked) == {};
    assert forall id :: id in s.tasks ==> id !in Ids(s.tasks, Tracked);
  }

  /** An on-demand scan collects, Stop is called, the loop exits and Stop returns. */
  function Unawaited(m: string): seq<Step>
  {
    [Scanned(0, Acquire), Called(StopBegin), Looped(m, LoopExit), Called(StopReturn)]
  }

  lemma {:induction false} RunJoin(c: Config, steps: seq<Step>, a: Step, b: Step, d: Step, e: Step)
    ensures Run(c, steps + [a, b, d, e]) == Next(c, Next(c, Next(c, Next(c, Run(c, steps), a), b), d), e)
  {
    hide Run, Next;
    RunSnoc(c, steps, a);
    RunSnoc(c, steps + [a], b);
    RunSnoc(c, steps + [a] + [b], d);
    RunSnoc(c, steps + [a] + [b] + [d], e);
    assert steps + [a, b, d, e] == steps + [a] + [b] + [d] + [e];
  }

  /** Nor does it extend to sweeps on demand: Stop returns while one of their scans is
      still collecting, although no AddTarget call is under way. */
  lemma NowOutlivesStop(c: Config, m: string, t: string)
    requires m != "" && c.workers > 0
    ensures var s := Run(c, Asleep(m) + [Called(NowSpawn(0, (m, t)))] + Unawaited(m));
            s.life.stopped && s.wg == 0 && s.adding == map[] && 0 in Ids(s.tasks, InCollect)
  {
    AsleepRuns(c, m);
    RunSnoc(c, Asleep(m), Called(NowSpawn(0, (m, t))));
    RunJoin(c, Asleep(m) + [Called(NowSpawn(0, (m, t)))],
            Scanned(0, Acquire), Called(StopBegin), Looped(m, LoopExit), Called(StopReturn));
    var s := Run(c, Asleep(m));
    hide Run;
    StopsBeside(c, s, m, t);
  }

  lemma StopsBeside(c: Config, s: State, m: string, t: string)
    requires Idle(s, m) && c.workers > 0
    ensures var s1 := Next(c, Next(c, s, Called(NowSpawn(0, (m, t)))), Scanned(0, Acquire));
            var s2 := Next(c, Next(c, s1, Called(StopBegin)), Looped(m, LoopExit));
            var s3 := Next(c, s2, Called(StopReturn));
            s3.life.stopped && s3.wg == 0 && s3.adding == map[] && 0 in Ids(s3.tasks, InCollect)
  {
  }

  /** A slot can be held by a scan that is past its Collect call. */
  lemma ReconcilingHoldsSlot(c: Config, m: string, t: string)
    requires m != "" && c.workers > 0
    ensures var scan := [Called(NowSpawn(0, (m, t)))] + [Scanned(0, Acquire)] + [Scanned(0, CollectDone(None))];
            var s := Run(c, Asleep(m) + scan);
            s.sem == 1 && Ids(s.tasks, InCollect) == {} && 0 in Ids(s.tasks, Holding)
  {
    AsleepRuns(c, m);
    var a := Asleep(m);
    RunSnoc(c, a, Called(NowSpawn(0, (m, t))));
    RunSnoc(c, a + [Called(NowSpawn(0, (m, t)))], Scanned(0, Acquire));
    RunSnoc(c, a + [Called(NowSpawn(0, (m, t)))] + [Scanned(0, Acquire)], Scanned(0, CollectDone(None)));
    var scan := [Called(NowSpawn(0, (m, t)))] + [Scanned(0, Acquire)] + [Scanned(0, CollectDone(None))];
    assert a + scan == a + [scan[0]] + [scan[1]] + [scan[2]];
    hide Run;
  }
}
