/** The dispatcher object: each method is one step of the notification protocol. */
module Dispatcher {
  import opened Base
  import opened Sums
  import opened Findings
  import opened Digests
  import opened Notify

  function LaunchedAmong(n: nat, digests: map<string, Digest>, channels: nat, mods: set<string>): set<Job>
  {
    set m, c | m in digests && m in mods && 0 <= c < channels && !Empty(digests[m]) :: Job(n, m, c)
  }

  function LaunchedFor(n: nat, m: string, channels: nat): set<Job>
  {
    set c | 0 <= c < channels :: Job(n, m, c)
  }

  class Dispatcher {
    var cfg: Config
    var pending: Pending
    var seen: set<string>
    var timer: bool
    var closed: bool
    var wg: int
    var flushes: seq<Pending>
    var digests: seq<map<string, Digest>>
    var jobs: set<Job>
    var outcomes: map<Job, Outcome>

    ghost function View(): State
      reads this
    {
      State(pending, seen, timer, closed, wg, flushes, digests, jobs, outcomes)
    }

    constructor (c: Config)
      ensures View() == INITIAL && cfg == WithDefaults(c)
    {
      cfg := WithDefaults(c);
      pending, seen, timer, closed, wg := map[], {}, false, false, 0;
      flushes, digests, jobs, outcomes := [], [], {}, map[];
    }

    method Enqueue(e: Event)
      modifies this
      ensures cfg == old(cfg) && View() == Enqueued(cfg, old(View()), e)
    {
      if e.kind == OpenedEvent && !PassesSeverity(cfg, e.finding.severity) { return; }
      if closed { return; }
      var key := EventKey(e);
      if key in seen { return; }
      seen := seen + {key};
      pending := pending[e.mod := (if e.mod in pending then pending[e.mod] else []) + [e]];
      assert View() == Grown(old(View()), e);
      hide Flushed, Total, PassesSeverity;
      var total := CountPending();
      if total >= cfg.maxBatch {
        FlushLocked();
        return;
      }
      if !timer { timer := true; }
    }

    method CountPending() returns (total: int)
      ensures total == Total(pending)
    {
      total := 0;
      var todo := pending.Keys;
      while todo != {}
        invariant todo <= pending.Keys && total + SetSum(todo, Sizes(pending)) == Total(pending)
      {
        var m :| m in todo;
        SumRemove(todo, m, Sizes(pending));
        total := total + |pending[m]|;
        todo := todo - {m};
      }
    }

    method Flush()
      modifies this
      ensures cfg == old(cfg) && View() == Flushed(cfg, old(View()))
    {
      FlushLocked();
    }

    /** Close up to the point where it waits for the sends. */
    method BeginClose()
      modifies this
      ensures cfg == old(cfg) && View() == Closing(cfg, old(View()))
    {
      FlushLocked();
      closed := true;
    }

    /** The goroutine of one job, from its first attempt to its end. */
    method Send(j: Job, answers: nat -> bool)
      requires j in jobs && j !in outcomes && cfg.retries > 0
      modifies this
      ensures cfg == old(cfg) && j in outcomes && View() == Finished(old(View()), j, outcomes[j])
      ensures outcomes[j] == Delivered <==> exists i :: 0 <= i < cfg.retries && answers(i)
    {
      var outcome, _ := SendWithRetry(answers, cfg.retries);
      outcomes := outcomes[j := outcome];
      wg := wg - 1;
    }

    method FlushLocked()
      modifies this
      ensures cfg == old(cfg) && View() == Flushed(cfg, old(View()))
    {
      hide Launched, DigestsOf, Flushed, Started;
      timer := false;
      if pending == map[] {
        FlushIs(cfg, old(View()), View());
        return;
      }
      var built := BuildDigests(pending);
      flushes, digests := flushes + [pending], digests + [built];
      pending, seen := map[], {};
      Launch(built);
      FlushIs(cfg, old(View()), View());
    }

    /** Starts one send per non-empty digest and channel. */
    method Launch(built: map<string, Digest>)
      requires |flushes| > 0
      modifies this`jobs, this`wg
      ensures Started(Launched(|flushes| - 1, built, cfg.channels), jobs, wg, old(jobs), old(wg))
    {
      hide *;
      ghost var n := |flushes| - 1;
      var todo := built.Keys;
      StartedNone(jobs, wg);
      LaunchedEnds(n, built, cfg.channels);
      assert built.Keys - todo == {};
      while todo != {}
        invariant todo <= built.Keys
        invariant Started(LaunchedAmong(n, built, cfg.channels, built.Keys - todo), jobs, wg, old(jobs), old(wg))
      {
        var m :| m in todo;
        ghost var mods, few := built.Keys - todo, LaunchedAmong(n, built, cfg.channels, built.Keys - todo);
        LaunchedMore(n, built, cfg.channels, mods, m);
        assert built.Keys - (todo - {m}) == mods + {m};
        if !Empty(built[m]) {
          ghost var were, waited := jobs, wg;
          LaunchOne(m);
          StartedJoin(few, LaunchedFor(n, m, cfg.channels), jobs, wg, were, waited, old(jobs), old(wg));
        }
        todo := todo - {m};
      }
      assert built.Keys - {} == built.Keys;
    }

    method LaunchOne(m: string)
      requires |flushes| > 0
      modifies this`jobs, this`wg
      ensures Started(LaunchedFor(|flushes| - 1, m, cfg.channels), jobs, wg, old(jobs), old(wg))
    {
      for c := 0 to cfg.channels
        invariant Started(LaunchedFor(|flushes| - 1, m, c), jobs, wg, old(jobs), old(wg))
      {
        LaunchedForSnoc(|flushes| - 1, m, c);
        jobs := jobs + {Job(|flushes| - 1, m, c)};
        wg := wg + 1;
      }
    }
  }

  /** Since `were` and `waited`, exactly the sends in `more` have been started. */
  ghost predicate Started(more: set<Job>, jobs: set<Job>, wg: int, were: set<Job>, waited: int)
  {
    jobs == were + more && wg == waited + |more|
  }

  lemma StartedJoin(few: set<Job>, more: set<Job>, jobs: set<Job>, wg: int, mid: set<Job>, midway: int,
                    were: set<Job>, waited: int)
    requires Started(few, mid, midway, were, waited) && Started(more, jobs, wg, mid, midway) && few !! more
    ensures Started(few + more, jobs, wg, were, waited)
  {
  }

  /** What makes up a flush. */
  lemma FlushIs(c: Config, s: State, t: State)
    requires !t.timer && t.closed == s.closed && t.outcomes == s.outcomes
    requires s.pending == map[] ==> t == s.(timer := false)
    requires s.pending != map[] ==>
               && t.pending == map[] && t.seen == {} && t.flushes == s.flushes + [s.pending]
               && t.digests == s.digests + [DigestsOf(s.pending)]
               && Started(Launched(|s.flushes|, DigestsOf(s.pending), c.channels), t.jobs, t.wg, s.jobs, s.wg)
    ensures t == Flushed(c, s)
  {
    hide DigestsOf, Launched;
  }

  lemma StartedNone(jobs: set<Job>, wg: int)
    ensures Started({}, jobs, wg, jobs, wg)
  {
  }

  method BuildDigests(p: Pending) returns (digests: map<string, Digest>)
    ensures digests == DigestsOf(p)
  {
    digests := map[];
    var todo := p.Keys;
    while todo != {}
      invariant todo <= p.Keys && digests.Keys == p.Keys - todo
      invariant forall m :: m in digests ==> digests[m] == DigestOf(m, p[m])
    {
      var m :| m in todo;
      var d := BuildDigest(m, p[m]);
      digests := digests[m := d];
      todo := todo - {m};
    }
  }

  lemma LaunchedForSnoc(n: nat, m: string, c: nat)
    ensures LaunchedFor(n, m, c + 1) == LaunchedFor(n, m, c) + {Job(n, m, c)}
    ensures Job(n, m, c) !in LaunchedFor(n, m, c)
  {
  }

  lemma LaunchedEnds(n: nat, built: map<string, Digest>, channels: nat)
    ensures LaunchedAmong(n, built, channels, {}) == {}
    ensures LaunchedAmong(n, built, channels, built.Keys) == Launched(n, built, channels)
  {
  }

  lemma LaunchedMore(n: nat, built: map<string, Digest>, channels: nat, mods: set<string>, m: string)
    requires m in built && m !in mods
    ensures var few, more := LaunchedAmong(n, built, channels, mods), LaunchedFor(n, m, channels);
            && few !! more && |few + more| == |few| + |more|
            && LaunchedAmong(n, built, channels, mods + {m}) == if Empty(built[m]) then few else few + more
  {
  }
}
