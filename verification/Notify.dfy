/** The notification dispatcher: batching, deduplication, asynchronous sends and a
    draining close, over every interleaving of its steps. */
module Notify {
  import opened Base
  import opened Sums
  import opened Text
  import opened Findings
  import opened Digests

  /** Settings after defaults, and the number of channels. */
  datatype Config = Config(maxBatch: int, minSeverity: Option<Severity>, retries: int, channels: nat)

  function WithDefaults(c: Config): (r: Config)
    ensures r.maxBatch == (if c.maxBatch > 0 then c.maxBatch else 100)
    ensures r.retries == (if c.retries > 0 then c.retries else 3)
    ensures r.minSeverity == c.minSeverity && r.channels == c.channels
  {
    c.(maxBatch := if c.maxBatch <= 0 then 100 else c.maxBatch, retries := if c.retries <= 0 then 3 else c.retries)
  }

  type Pending = map<string, seq<Event>>

  /** One goroutine: which flush it belongs to, the module and the channel. */
  datatype Job = Job(flush: nat, mod: string, channel: nat)

  datatype State = State(
    pending: Pending, seen: set<string>, timer: bool, closed: bool, wg: int,
    flushes: seq<Pending>, digests: seq<map<string, Digest>>, jobs: set<Job>, outcomes: map<Job, Outcome>)

  const INITIAL := State(map[], {}, false, false, 0, [], [], {}, map[])

  // ---- keys --------------------------------------------------------------------------------

  function KindName(k: Kind): string { if k == OpenedEvent then "opened" else "resolved" }

  function EventKey(e: Event): string { KindName(e.kind) + "|" + e.mod + "|" + e.finding.fingerprint }

  /** For module ids without a bar the key stands for kind, module and fingerprint. */
  lemma KeyIdentifiesEvent(a: Event, b: Event)
    requires '|' !in a.mod && '|' !in b.mod
    ensures EventKey(a) == EventKey(b) <==>
              a.kind == b.kind && a.mod == b.mod && a.finding.fingerprint == b.finding.fingerprint
  {
    if EventKey(a) == EventKey(b) {
      var x, y := a.mod + ['|'] + a.finding.fingerprint, b.mod + ['|'] + b.finding.fingerprint;
      assert EventKey(a) == KindName(a.kind) + ['|'] + x && EventKey(b) == KindName(b.kind) + ['|'] + y;
      JoinInjective(KindName(a.kind), x, KindName(b.kind), y, '|');
      JoinInjective(a.mod, a.finding.fingerprint, b.mod, b.finding.fingerprint, '|');
    }
  }

  function Batch(p: Pending, m: string): seq<Event> { if m in p then p[m] else [] }

  function KeysOf(p: Pending): set<string>
  {
    set m, i | m in p && 0 <= i < |p[m]| :: EventKey(p[m][i])
  }

  function Sizes(p: Pending): string -> int { m => |Batch(p, m)| }

  ghost function Total(p: Pending): int { SetSum(p.Keys, Sizes(p)) }

  function Added(p: Pending, e: Event): Pending { p[e.mod := Batch(p, e.mod) + [e]] }

  // ---- steps --------------------------------------------------------------------------------

  predicate PassesSeverity(c: Config, s: Severity)
  {
    c.minSeverity.Some? ==> SeverityRank(s) >= SeverityRank(c.minSeverity.value)
  }

  predicate Accepts(c: Config, s: State, e: Event)
  {
    (e.kind == OpenedEvent ==> PassesSeverity(c, e.finding.severity)) && !s.closed && EventKey(e) !in s.seen
  }

  function DigestsOf(p: Pending): map<string, Digest> { map m | m in p :: DigestOf(m, p[m]) }

  /** An open dispatcher takes an opened event that is not waiting yet exactly when there is
      no minimum or the event is at least as severe as the minimum; a resolved event is
      never filtered. */
  lemma AcceptsExactly(c: Config, s: State, e: Event)
    requires s.seen == KeysOf(s.pending)
    ensures Accepts(c, s, e) <==>
              && !s.closed
              && (forall m, i :: m in s.pending && 0 <= i < |s.pending[m]| ==> EventKey(s.pending[m][i]) != EventKey(e))
              && (e.kind == ResolvedEvent || c.minSeverity.None?
                  || AtLeastAsSevere(e.finding.severity, c.minSeverity.value))
  {
    if c.minSeverity.Some? { RanksCompare(e.finding.severity, c.minSeverity.value); }
    hide AtLeastAsSevere, EventKey;
  }

  /** The goroutines one flush launches: one per non-empty digest and channel. */
  function Launched(n: nat, digests: map<string, Digest>, channels: nat): set<Job>
  {
    set m, c | m in digests && 0 <= c < channels && !Empty(digests[m]) :: Job(n, m, c)
  }

  function Flushed(c: Config, s: State): State
  {
    if s.pending == map[] then s.(timer := false)
    else
      var digests := DigestsOf(s.pending);
      var more := Launched(|s.flushes|, digests, c.channels);
      s.(pending := map[], seen := {}, timer := false, wg := s.wg + |more|,
         flushes := s.flushes + [s.pending], digests := s.digests + [digests], jobs := s.jobs + more)
  }

  function Grown(s: State, e: Event): State
  {
    s.(pending := Added(s.pending, e), seen := s.seen + {EventKey(e)})
  }

  ghost function Enqueued(c: Config, s: State, e: Event): State
  {
    if !Accepts(c, s, e) then s
    else
      var next := Grown(s, e);
      if Total(next.pending) >= c.maxBatch then Flushed(c, next) else next.(timer := true)
  }

  function Closing(c: Config, s: State): State { Flushed(c, s).(closed := true) }

  function Finished(s: State, j: Job, outcome: Outcome): State
  {
    s.(outcomes := s.outcomes[j := outcome], wg := s.wg - 1)
  }

  /** Flush is also what the timer does when it fires, however late. */
  datatype Step = Enqueue(event: Event) | Flush | CloseBegin | SendDone(job: Job, outcome: Outcome) | CloseReturn

  /** A send can end only while it runs; Close returns once the wait group is at zero. */
  predicate Enabled(s: State, step: Step)
  {
    match step
    case SendDone(j, _) => j in s.jobs && j !in s.outcomes
    case CloseReturn => s.closed && s.wg == 0
    case _ => true
  }

  ghost function Next(c: Config, s: State, step: Step): State
  {
    match step
    case Enqueue(e) => Enqueued(c, s, e)
    case Flush => Flushed(c, s)
    case CloseBegin => Closing(c, s)
    case SendDone(j, outcome) => Finished(s, j, outcome)
    case CloseReturn => s
  }

  ghost function Run(c: Config, steps: seq<Step>): State
  {
    if steps == [] then INITIAL else Next(c, Run(c, steps[..|steps| - 1]), steps[|steps| - 1])
  }

  ghost predicate Legal(c: Config, steps: seq<Step>)
  {
    forall n :: 0 <= n < |steps| ==> Enabled(Run(c, steps[..n]), steps[n])
  }

  function Accepted(c: Config, s: State, step: Step): seq<Event>
  {
    if step.Enqueue? && Accepts(c, s, step.event) then [step.event] else []
  }

  /** Every event accepted so far, in order. */
  ghost function Log(c: Config, steps: seq<Step>): seq<Event>
  {
    if steps == [] then []
    else
      var before, step := steps[..|steps| - 1], steps[|steps| - 1];
      Log(c, before) + Accepted(c, Run(c, before), step)
  }

  // ---- the invariant ---------------------------------------------------------------------------

  ghost predicate Distinct(p: Pending)
  {
    forall m, i, n, j :: m in p && n in p && 0 <= i < |p[m]| && 0 <= j < |p[n]| ==>
      EventKey(p[m][i]) == EventKey(p[n][j]) ==> m == n && i == j
  }

  /** Batches are filed under their own module, without repeats. */
  ghost predicate Filed(p: Pending)
  {
    && Distinct(p)
    && (forall m :: m in p ==> p[m] != [])
    && (forall m, i :: m in p && 0 <= i < |p[m]| ==> p[m][i].mod == m)
  }

  function AllJobs(digests: seq<map<string, Digest>>, channels: nat): set<Job>
  {
    if digests == [] then {}
    else
      var n := |digests| - 1;
      AllJobs(digests[..n], channels) + Launched(n, digests[n], channels)
  }

  ghost predicate Inv(c: Config, s: State)
  {
    && Waiting(c, s) && AllFiled(s.flushes) && Accounted(c, s)
    && (s.closed ==> s.pending == map[])
  }

  ghost predicate Waiting(c: Config, s: State)
  {
    && Filed(s.pending) && s.seen == KeysOf(s.pending)
    && Total(s.pending) < c.maxBatch
    && (s.timer <==> s.pending != map[])
  }

  ghost predicate AllFiled(flushes: seq<Pending>) { forall f :: 0 <= f < |flushes| ==> Filed(flushes[f]) }

  /** Each flush has its digests, every send of one belongs to a channel and ends at most
      once, and the wait group counts those that have not ended. */
  ghost predicate Accounted(c: Config, s: State)
  {
    && Digested(s.flushes, s.digests)
    && s.jobs == AllJobs(s.digests, c.channels)
    && s.outcomes.Keys <= s.jobs
    && s.wg == |s.jobs - s.outcomes.Keys|
  }

  ghost predicate Digested(flushes: seq<Pending>, digests: seq<map<string, Digest>>)
  {
    |digests| == |flushes| && forall f :: 0 <= f < |flushes| ==> digests[f] == DigestsOf(flushes[f])
  }

  lemma DigestedSnoc(flushes: seq<Pending>, digests: seq<map<string, Digest>>, p: Pending)
    requires Digested(flushes, digests)
    ensures Digested(flushes + [p], digests + [DigestsOf(p)])
  {
    hide DigestsOf;
  }

  lemma NoneTotal()
    ensures Total(map[]) == 0 && KeysOf(map[]) == {}
  {
  }

  lemma KeysAdded(p: Pending, e: Event)
    ensures KeysOf(Added(p, e)) == KeysOf(p) + {EventKey(e)}
  {
    var q := Added(p, e);
    var n := |Batch(p, e.mod)|;
    assert q[e.mod][n] == e;
    forall m, i | m in p && 0 <= i < |p[m]| ensures EventKey(p[m][i]) in KeysOf(q) {
      assert q[m][i] == p[m][i];
    }
    forall m, i | m in q && 0 <= i < |q[m]| ensures EventKey(q[m][i]) in KeysOf(p) + {EventKey(e)} {
      if m != e.mod || i < n { assert p[m][i] == q[m][i]; }
    }
  }

  lemma FiledAdded(p: Pending, e: Event)
    requires Filed(p) && EventKey(e) !in KeysOf(p)
    ensures Filed(Added(p, e))
  {
  }

  lemma {:induction false} JobsBelow(digests: seq<map<string, Digest>>, channels: nat)
    ensures forall j :: j in AllJobs(digests, channels) ==> j.flush < |digests|
  {
    if digests != [] {
      JobsBelow(digests[..|digests| - 1], channels);
    }
  }

  lemma AllJobsSnoc(digests: seq<map<string, Digest>>, d: map<string, Digest>, channels: nat)
    ensures AllJobs(digests + [d], channels) == AllJobs(digests, channels) + Launched(|digests|, d, channels)
    ensures AllJobs(digests, channels) !! Launched(|digests|, d, channels)
  {
    assert (digests + [d])[..|digests|] == digests;
    JobsBelow(digests, channels);
  }

  lemma OpenSends(jobs: set<Job>, done: set<Job>, more: set<Job>)
    requires done <= jobs && jobs !! more
    ensures |jobs + more - done| == |jobs - done| + |more|
  {
  }

  lemma AccountedFlush(c: Config, s: State)
    requires Accounted(c, s)
    ensures Accounted(c, Flushed(c, s))
  {
    if s.pending != map[] {
      var digests := DigestsOf(s.pending);
      AllJobsSnoc(s.digests, digests, c.channels);
      OpenSends(s.jobs, s.outcomes.Keys, Launched(|s.flushes|, digests, c.channels));
      DigestedSnoc(s.flushes, s.digests, s.pending);
      assert |s.digests| == |s.flushes|;
      hide Launched, AllJobs, DigestsOf, Digested;
    }
  }

  lemma NothingWaits(c: Config, s: State)
    requires c.maxBatch > 0 && s.pending == map[] && s.seen == {} && !s.timer
    ensures Waiting(c, s)
  {
  }

  lemma FlushParts(c: Config, s: State)
    ensures var t := Flushed(c, s);
            && t.pending == map[] && !t.timer && t.closed == s.closed
            && t.seen == (if s.pending == map[] then s.seen else {})
            && t.flushes == s.flushes + (if s.pending == map[] then [] else [s.pending])
  {
    hide Launched;
  }

  lemma AllFiledSnoc(flushes: seq<Pending>, p: Pending)
    requires AllFiled(flushes) && Filed(p)
    ensures AllFiled(flushes + [p]) && AllFiled(flushes + [])
  {
  }

  lemma FlushKeeps(c: Config, s: State)
    requires c.maxBatch > 0 && Filed(s.pending) && AllFiled(s.flushes) && Accounted(c, s)
    requires s.pending == map[] ==> s.seen == {}
    ensures Inv(c, Flushed(c, s)) && Flushed(c, s).pending == map[]
  {
    hide *;
    AccountedFlush(c, s);
    FlushParts(c, s);
    AllFiledSnoc(s.flushes, s.pending);
    NothingWaits(c, Flushed(c, s));
    InvParts(c, Flushed(c, s));
  }

  lemma InvParts(c: Config, s: State)
    ensures Inv(c, s) <==> Waiting(c, s) && AllFiled(s.flushes) && Accounted(c, s) && (s.closed ==> s.pending == map[])
  {
    hide Waiting, AllFiled, Accounted;
  }

  lemma GrownParts(c: Config, s: State, e: Event)
    requires Waiting(c, s) && EventKey(e) !in s.seen
    ensures Filed(Grown(s, e).pending) && Grown(s, e).seen == KeysOf(Grown(s, e).pending)
    ensures Grown(s, e).pending != map[]
  {
    KeysAdded(s.pending, e);
    FiledAdded(s.pending, e);
    assert e.mod in Grown(s, e).pending;
    hide Filed, KeysOf;
  }

  lemma EnqueueCases(c: Config, s: State, e: Event)
    ensures Enqueued(c, s, e) ==
            if !Accepts(c, s, e) then s
            else if Total(Grown(s, e).pending) >= c.maxBatch then Flushed(c, Grown(s, e))
            else Grown(s, e).(timer := true)
    ensures Accepts(c, s, e) ==> !s.closed && EventKey(e) !in s.seen
    ensures Grown(s, e).flushes == s.flushes && Grown(s, e).closed == s.closed
  {
    hide Total, Flushed, Added, PassesSeverity;
  }

  lemma GrownAccounted(c: Config, s: State, e: Event)
    requires Accounted(c, s)
    ensures Accounted(c, Grown(s, e)) && Accounted(c, Grown(s, e).(timer := true))
  {
    hide AllJobs, Added;
  }

  lemma EnqueueKeeps(c: Config, s: State, e: Event)
    requires c.maxBatch > 0 && Inv(c, s)
    ensures Inv(c, Enqueued(c, s, e))
  {
    hide *;
    InvParts(c, s);
    EnqueueCases(c, s, e);
    if Accepts(c, s, e) {
      var next := Grown(s, e);
      GrownParts(c, s, e);
      GrownAccounted(c, s, e);
      if Total(next.pending) >= c.maxBatch {
        FlushKeeps(c, next);
      } else {
        WaitsOn(c, next.(timer := true));
        InvParts(c, next.(timer := true));
      }
    }
  }

  lemma WaitsOn(c: Config, s: State)
    requires Filed(s.pending) && s.seen == KeysOf(s.pending) && Total(s.pending) < c.maxBatch && s.timer
             && s.pending != map[]
    ensures Waiting(c, s)
  {
    hide Filed, Total, KeysOf;
  }

  lemma FinishKeeps(c: Config, s: State, j: Job, outcome: Outcome)
    requires Accounted(c, s) && j in s.jobs && j !in s.outcomes
    ensures Accounted(c, Finished(s, j, outcome))
  {
  }

  lemma CloseKeeps(c: Config, s: State)
    requires Inv(c, s) && s.pending == map[]
    ensures Inv(c, s.(closed := true))
  {
    hide Filed, KeysOf, Total, AllFiled, AllJobs, DigestsOf;
  }

  lemma SendKeeps(c: Config, s: State, j: Job, outcome: Outcome)
    requires Inv(c, s) && j in s.jobs && j !in s.outcomes
    ensures Inv(c, Finished(s, j, outcome))
  {
    FinishKeeps(c, s, j, outcome);
    hide Filed, KeysOf, Total, AllFiled, Accounted;
  }

  lemma NoKeys(c: Config, s: State)
    requires Inv(c, s)
    ensures Filed(s.pending) && AllFiled(s.flushes) && Accounted(c, s)
    ensures s.pending == map[] ==> s.seen == {}
  {
    hide Filed, AllFiled, Accounted;
  }

  lemma StepKeeps(c: Config, s: State, step: Step)
    requires c.maxBatch > 0 && Inv(c, s) && Enabled(s, step)
    ensures Inv(c, Next(c, s, step))
  {
    NoKeys(c, s);
    hide Filed, Flushed, Enqueued, AllFiled, Accounted, Inv, Finished;
    match step
    case Enqueue(e) => EnqueueKeeps(c, s, e);
    case Flush => FlushKeeps(c, s);
    case CloseBegin =>
      FlushKeeps(c, s);
      CloseKeeps(c, Flushed(c, s));
    case SendDone(j, outcome) => SendKeeps(c, s, j, outcome);
    case CloseReturn =>
  }

  lemma PrefixLegal(c: Config, steps: seq<Step>, n: nat)
    requires Legal(c, steps) && n <= |steps|
    ensures Legal(c, steps[..n])
  {
    assert forall i :: 0 <= i < n ==> steps[..n][..i] == steps[..i] && steps[..n][i] == steps[i];
  }

  /** In every interleaving: `seen` is the keys of what is pending, fewer than MaxBatch
      events wait, the timer runs exactly while something waits, and every goroutine is
      accounted for. */
  lemma {:induction false} AlwaysInv(c: Config, steps: seq<Step>)
    requires c.maxBatch > 0 && Legal(c, steps)
    ensures Inv(c, Run(c, steps))
  {
    if steps == [] {
      NoneTotal();
      assert |INITIAL.jobs - INITIAL.outcomes.Keys| == 0;
    } else {
      var n := |steps| - 1;
      PrefixLegal(c, steps, n);
      AlwaysInv(c, steps[..n]);
      assert Enabled(Run(c, steps[..n]), steps[n]);
      hide Inv, Next, Enabled, Legal;
      StepKeeps(c, Run(c, steps[..n]), steps[n]);
    }
  }

  /** Along every run: what a dispatcher takes. */
  lemma FilterExactly(c: Config, steps: seq<Step>, e: Event)
    requires c.maxBatch > 0 && Legal(c, steps)
    ensures var s := Run(c, steps);
            Accepts(c, s, e) <==>
              && !s.closed
              && (forall m, i :: m in s.pending && 0 <= i < |s.pending[m]| ==> EventKey(s.pending[m][i]) != EventKey(e))
              && (e.kind == ResolvedEvent || c.minSeverity.None?
                  || AtLeastAsSevere(e.finding.severity, c.minSeverity.value))
  {
    AlwaysInv(c, steps);
    AcceptsExactly(c, Run(c, steps), e);
    hide Run, Accepts, AtLeastAsSevere, EventKey, Filed, Accounted, Legal;
  }

  // ---- conservation ------------------------------------------------------------------------

  function OfModule(events: seq<Event>, m: string): seq<Event>
  {
    if events == [] then []
    else
      var e := events[|events| - 1];
      OfModule(events[..|events| - 1], m) + (if e.mod == m then [e] else [])
  }

  /** What has been flushed for a module, flush after flush. */
  function Gone(flushes: seq<Pending>, m: string): seq<Event>
  {
    if flushes == [] then [] else Gone(flushes[..|flushes| - 1], m) + Batch(flushes[|flushes| - 1], m)
  }

  function Placed(s: State, m: string): seq<Event> { Gone(s.flushes, m) + Batch(s.pending, m) }

  lemma FlushPlaces(c: Config, s: State, m: string)
    ensures Placed(Flushed(c, s), m) == Placed(s, m)
  {
  }

  lemma EnqueuePlaces(c: Config, s: State, e: Event, m: string)
    ensures Placed(Enqueued(c, s, e), m) == Placed(s, m) + (if Accepts(c, s, e) && e.mod == m then [e] else [])
  {
    hide *;
    EnqueueCases(c, s, e);
    if Accepts(c, s, e) {
      FlushPlaces(c, Grown(s, e), m);
      GrownPlaces(s, e, m);
    }
  }

  lemma GrownPlaces(s: State, e: Event, m: string)
    ensures Placed(Grown(s, e), m) == Placed(s, m) + (if e.mod == m then [e] else [])
    ensures Placed(Grown(s, e).(timer := true), m) == Placed(Grown(s, e), m)
  {
    hide Gone;
  }

  lemma StepPlaces(c: Config, s: State, step: Step, m: string)
    ensures Placed(Next(c, s, step), m) == Placed(s, m) + OfModule(Accepted(c, s, step), m)
  {
    hide Placed, Flushed, Enqueued, Accepts;
    assert Placed(s, m) + [] == Placed(s, m);
    match step
    case Enqueue(e) =>
      EnqueuePlaces(c, s, e, m);
      OfModuleSnoc([], e, m);
      assert [] + [e] == [e];
    case Flush => FlushPlaces(c, s, m);
    case CloseBegin =>
      FlushPlaces(c, s, m);
      PlacedFields(Closing(c, s), Flushed(c, s), m);
    case SendDone(j, outcome) => PlacedFields(Finished(s, j, outcome), s, m);
    case CloseReturn =>
  }

  /** Nothing is lost, doubled or reordered: for each module, the accepted events are
      the flushed batches in order and then what is still pending. */
  lemma {:induction false} EventsConserved(c: Config, steps: seq<Step>, m: string)
    ensures OfModule(Log(c, steps), m) == Placed(Run(c, steps), m)
  {
    if steps != [] {
      var n := |steps| - 1;
      var before, step := steps[..n], steps[n];
      EventsConserved(c, before, m);
      var s := Run(c, before);
      hide Placed, Next, Accepts, OfModule;
      StepPlaces(c, s, step, m);
      OfModuleJoin(Log(c, before), Accepted(c, s, step), m);
    }
  }

  lemma OfModuleJoin(events: seq<Event>, more: seq<Event>, m: string)
    requires |more| <= 1
    ensures OfModule(events + more, m) == OfModule(events, m) + OfModule(more, m)
  {
    if more == [] {
      assert events + more == events;
    } else {
      OfModuleSnoc(events, more[0], m);
      OfModuleSnoc([], more[0], m);
      assert more == [more[0]] == [] + [more[0]];
    }
  }

  lemma OfModuleSnoc(events: seq<Event>, e: Event, m: string)
    ensures OfModule(events + [e], m) == OfModule(events, m) + (if e.mod == m then [e] else [])
  {
  }

  lemma PlacedFields(s: State, t: State, m: string)
    requires s.pending == t.pending && s.flushes == t.flushes
    ensures Placed(s, m) == Placed(t, m)
  {
  }

  // ---- close -----------------------------------------------------------------------------------

  predicate Drained(s: State)
  {
    s.closed && s.pending == map[] && s.jobs == s.outcomes.Keys
  }

  lemma DrainedSticks(c: Config, s: State, step: Step)
    requires Drained(s) && Enabled(s, step)
    ensures Drained(Next(c, s, step)) && Accepted(c, s, step) == []
    ensures Next(c, s, step).outcomes == s.outcomes
  {
  }

  lemma ReturnMeansDrained(c: Config, s: State)
    requires Inv(c, s) && Enabled(s, CloseReturn)
    ensures Drained(s)
  {
  }

  lemma RunSnoc(c: Config, steps: seq<Step>, n: nat)
    requires n < |steps|
    ensures Run(c, steps[..n + 1]) == Next(c, Run(c, steps[..n]), steps[n])
    ensures Log(c, steps[..n + 1]) == Log(c, steps[..n]) + Accepted(c, Run(c, steps[..n]), steps[n])
  {
    assert steps[..n + 1][..n] == steps[..n];
  }

  lemma {:induction false} DrainedForever(c: Config, steps: seq<Step>, n: nat)
    requires Legal(c, steps) && n <= |steps| && Drained(Run(c, steps[..n]))
    ensures Drained(Run(c, steps)) && Log(c, steps) == Log(c, steps[..n])
    ensures Run(c, steps).outcomes == Run(c, steps[..n]).outcomes
    decreases |steps| - n
  {
    if n == |steps| {
      assert steps[..n] == steps;
    } else {
      RunSnoc(c, steps, n);
      assert Enabled(Run(c, steps[..n]), steps[n]);
      hide Next, Accepted, Drained, Enabled, Legal;
      DrainedSticks(c, Run(c, steps[..n]), steps[n]);
      DrainedForever(c, steps, n + 1);
    }
  }

  /** The event went out in one flush, in a digest that lists it, and the sends of that
      digest have ended on every channel. */
  ghost predicate Settled(c: Config, s: State, e: Event)
  {
    exists f :: 0 <= f < |s.flushes| && SettledIn(c, s, e, f)
  }

  ghost predicate SettledIn(c: Config, s: State, e: Event, f: nat)
  {
    && f < |s.flushes| && e in Batch(s.flushes[f], e.mod)
    && f < |s.digests| && e.mod in s.digests[f] && e.finding in Entries(s.digests[f][e.mod], e.kind)
    && forall ch :: 0 <= ch < c.channels ==> Job(f, e.mod, ch) in s.outcomes
  }

  lemma {:induction false} OfModuleHas(events: seq<Event>, e: Event)
    requires e in events
    ensures e in OfModule(events, e.mod)
  {
    var n := |events| - 1;
    if e in events[..n] { OfModuleHas(events[..n], e); }
  }

  lemma {:induction false} GoneFrom(flushes: seq<Pending>, m: string, e: Event) returns (f: nat)
    requires e in Gone(flushes, m)
    ensures f < |flushes| && e in Batch(flushes[f], m)
  {
    var n := |flushes| - 1;
    if e in Batch(flushes[n], m) { f := n; } else { f := GoneFrom(flushes[..n], m, e); }
  }

  lemma {:induction false} JobStarted(digests: seq<map<string, Digest>>, channels: nat, f: nat, m: string, ch: nat)
    requires f < |digests| && ch < channels && m in digests[f] && !Empty(digests[f][m])
    ensures Job(f, m, ch) in AllJobs(digests, channels)
  {
    var n := |digests| - 1;
    if f < n { JobStarted(digests[..n], channels, f, m, ch); }
  }

  lemma DigestCarries(p: Pending, e: Event)
    requires e in Batch(p, e.mod)
    ensures e.mod in DigestsOf(p) && !Empty(DigestsOf(p)[e.mod]) && e.finding in Entries(DigestsOf(p)[e.mod], e.kind)
  {
    var events := p[e.mod];
    var i :| 0 <= i < |events| && events[i] == e;
    DigestReports(e.mod, events, i);
    hide DigestOf, Empty, Entries;
  }

  lemma DrainedSettles(c: Config, s: State, e: Event)
    requires Drained(s) && Accounted(c, s) && e in Placed(s, e.mod)
    ensures Settled(c, s, e)
  {
    assert Placed(s, e.mod) == Gone(s.flushes, e.mod);
    var f := GoneFrom(s.flushes, e.mod, e);
    DigestCarries(s.flushes[f], e);
    hide AllJobs, Entries, Batch, DigestsOf, Empty, Gone;
    forall ch | 0 <= ch < c.channels ensures Job(f, e.mod, ch) in s.outcomes {
      JobStarted(s.digests, c.channels, f, e.mod, ch);
    }
    assert SettledIn(c, s, e, f);
  }

  /** Once Close has returned, nothing is ever accepted again and every accepted event
      has been delivered or given up on, on every channel. */
  lemma CloseDrains(c: Config, steps: seq<Step>, n: nat)
    requires c.maxBatch > 0 && Legal(c, steps) && n < |steps| && steps[n] == CloseReturn
    ensures Log(c, steps) == Log(c, steps[..n])
    ensures forall e :: e in Log(c, steps) ==> Settled(c, Run(c, steps), e)
    ensures Run(c, steps).outcomes == Run(c, steps[..n]).outcomes
  {
    PrefixLegal(c, steps, n);
    AlwaysInv(c, steps[..n]);
    AlwaysInv(c, steps);
    assert Enabled(Run(c, steps[..n]), steps[n]);
    ReturnMeansDrained(c, Run(c, steps[..n]));
    DrainedForever(c, steps, n);
    var s := Run(c, steps);
    hide Drained, Settled, Legal;
    forall e | e in Log(c, steps) ensures Settled(c, s, e) {
      OfModuleHas(Log(c, steps), e);
      EventsConserved(c, steps, e.mod);
      hide *;
      DrainedSettles(c, s, e);
    }
  }
}
