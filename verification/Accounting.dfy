/** Conservation laws of the overview: nothing is lost or counted twice between
    windows, outcomes and sources; and what the yearly prune leaves untouched. */
module Accounting {
  import opened Base
  import opened Sums
  import opened Reports
  import opened Overviews

  ghost predicate Positive(reps: set<Report>) { forall r :: r in reps ==> WellFormed(r) }

  // ---- outcomes and windows ---------------------------------------------------------

  lemma {:induction false} VolumeSplits(records: seq<Record>, src: Sources)
    ensures Volume(records, Selection(src, AnyOutcome)) ==
            Volume(records, Selection(src, Passing)) + Volume(records, Selection(src, Failing))
  {
    if records != [] {
      VolumeSplits(records[..|records| - 1], src);
    }
  }

  /** Every message either passes or fails both mechanisms. */
  lemma OutcomesAddUp(reps: set<Report>, d: string, since: int, src: Sources)
    ensures Total(reps, Query(d, since, Selection(src, AnyOutcome))) ==
            Total(reps, Query(d, since, Selection(src, Passing)))
            + Total(reps, Query(d, since, Selection(src, Failing)))
  {
    var any := VolumeOf(Query(d, since, Selection(src, AnyOutcome)));
    var pass := VolumeOf(Query(d, since, Selection(src, Passing)));
    var fail := VolumeOf(Query(d, since, Selection(src, Failing)));
    forall r | r in reps ensures any(r) == pass(r) + fail(r) {
      VolumeSplits(r.records, src);
    }
    SumAdds(reps, pass, fail, any);
  }

  lemma {:induction false} VolumeNonNegative(records: seq<Record>, sel: Selection)
    requires forall i :: 0 <= i < |records| ==> records[i].count >= 1
    ensures Volume(records, sel) >= 0
  {
    if records != [] {
      VolumeNonNegative(records[..|records| - 1], sel);
    }
  }

  /** A shorter window never counts more. */
  lemma WindowsNest(reps: set<Report>, d: string, long: int, recent: int, sel: Selection)
    requires Positive(reps) && long <= recent
    ensures 0 <= Total(reps, Query(d, recent, sel)) <= Total(reps, Query(d, long, sel))
  {
    var f, g := VolumeOf(Query(d, recent, sel)), VolumeOf(Query(d, long, sel));
    forall r | r in reps ensures 0 <= f(r) <= g(r) {
      VolumeNonNegative(r.records, sel);
    }
    SumMonotone(reps, f, g);
    SumMonotone(reps, r => 0, f);
    SumZero(reps, (r: Report) => 0);
  }

  // ---- sources ------------------------------------------------------------------------

  function Field(s: SourceStat, o: Outcome): int
  {
    match o
    case AnyOutcome => s.msgs
    case Passing => s.aligned
    case Failing => s.failBoth
  }

  function StatSum(sources: seq<SourceStat>, o: Outcome): int
  {
    if sources == [] then 0
    else StatSum(sources[..|sources| - 1], o) + Field(sources[|sources| - 1], o)
  }

  lemma {:induction false} VolumeByIP(records: seq<Record>, ips: set<string>, ip: string, o: Outcome)
    requires ip !in ips
    ensures Volume(records, Selection(Among(ips + {ip}), o)) ==
            Volume(records, Selection(Among(ips), o)) + Volume(records, Only(ip, o))
  {
    if records != [] {
      VolumeByIP(records[..|records| - 1], ips, ip, o);
    }
  }

  lemma TotalByIP(reps: set<Report>, d: string, since: int, ips: set<string>, ip: string, o: Outcome)
    requires ip !in ips
    ensures Total(reps, Query(d, since, Selection(Among(ips + {ip}), o))) ==
            Total(reps, Query(d, since, Selection(Among(ips), o))) + Total(reps, FromIP(d, since, ip, o))
  {
    var f, g := VolumeOf(Query(d, since, Selection(Among(ips), o))), VolumeOf(FromIP(d, since, ip, o));
    var h := VolumeOf(Query(d, since, Selection(Among(ips + {ip}), o)));
    forall r | r in reps ensures h(r) == f(r) + g(r) {
      VolumeByIP(r.records, ips, ip, o);
    }
    SumAdds(reps, f, g, h);
  }

  lemma {:induction false} NobodyIsSilent(records: seq<Record>, o: Outcome)
    ensures Volume(records, Selection(Among({}), o)) == 0
  {
    if records != [] {
      NobodyIsSilent(records[..|records| - 1], o);
    }
  }

  lemma {:induction false} EveryoneIsHeard(records: seq<Record>, ips: set<string>, o: Outcome)
    requires forall i :: 0 <= i < |records| ==> records[i].sourceIP in ips
    ensures Volume(records, Selection(Among(ips), o)) == Volume(records, All(o))
  {
    if records != [] {
      EveryoneIsHeard(records[..|records| - 1], ips, o);
    }
  }

  lemma {:induction false} PrefixSum(sources: seq<SourceStat>, n: nat, reps: set<Report>, d: string, since: int,
                                     o: Outcome)
    requires AreSources(sources, reps, d, since) && n <= |sources|
    ensures StatSum(sources[..n], o) == Total(reps, Query(d, since, Selection(Among(SourceIPs(sources[..n])), o)))
  {
    if n == 0 {
      assert SourceIPs(sources[..0]) == {};
      var f := VolumeOf(Query(d, since, Selection(Among({}), o)));
      forall r | r in reps ensures f(r) == 0 { NobodyIsSilent(r.records, o); }
      SumZero(reps, f);
    } else {
      PrefixSum(sources, n - 1, reps, d, since, o);
      PrefixStep(sources, n, reps, d, since, o);
    }
  }

  lemma PrefixIPs(sources: seq<SourceStat>, n: nat)
    requires DistinctIPs(sources) && 0 < n <= |sources|
    ensures sources[n - 1].ip !in SourceIPs(sources[..n - 1])
    ensures SourceIPs(sources[..n]) == SourceIPs(sources[..n - 1]) + {sources[n - 1].ip}
  {
    assert sources[..n] == InsertAt(sources[..n - 1], sources[n - 1], n - 1);
    InsertedIPs(sources[..n - 1], sources[n - 1], n - 1);
  }

  lemma PrefixStep(sources: seq<SourceStat>, n: nat, reps: set<Report>, d: string, since: int, o: Outcome)
    requires AreSources(sources, reps, d, since) && 0 < n <= |sources|
    ensures StatSum(sources[..n], o) ==
            StatSum(sources[..n - 1], o) + Total(reps, FromIP(d, since, sources[n - 1].ip, o))
    ensures Total(reps, Query(d, since, Selection(Among(SourceIPs(sources[..n])), o))) ==
            Total(reps, Query(d, since, Selection(Among(SourceIPs(sources[..n - 1])), o)))
            + Total(reps, FromIP(d, since, sources[n - 1].ip, o))
  {
    var s := sources[n - 1];
    assert IsCounted(s, reps, d, since, s.ip);
    PrefixIPs(sources, n);
    assert sources[..n][..n - 1] == sources[..n - 1];
    hide AreSources, SourceIPs, Total, FromIP, IsLastSeen;
    TotalByIP(reps, d, since, SourceIPs(sources[..n - 1]), s.ip, o);
  }

  /** The per-source figures of an outcome sum to the window's figure. */
  lemma SourcesAddUp(sources: seq<SourceStat>, reps: set<Report>, d: string, since: int, o: Outcome)
    requires AreSources(sources, reps, d, since)
    ensures StatSum(sources, o) == Total(reps, Query(d, since, All(o)))
  {
    PrefixSum(sources, |sources|, reps, d, since, o);
    assert sources[..|sources|] == sources;
    var ips := SourceIPs(sources);
    var f, g := VolumeOf(Query(d, since, Selection(Among(ips), o))), VolumeOf(Query(d, since, All(o)));
    forall r | r in reps ensures f(r) == g(r) {
      if r.domain == d && r.end >= since {
        forall i | 0 <= i < |r.records| ensures r.records[i].sourceIP in ips {
          assert Sends(r, d, r.records[i].sourceIP);
          assert Active(reps, d, since, r.records[i].sourceIP);
        }
        EveryoneIsHeard(r.records, ips, o);
      }
    }
    SumCongruence(reps, f, g);
  }

  /** Conservation of messages over any overview a store can produce. */
  lemma MessagesConserved(ov: Overview, reps: set<Report>, d: string, long: int, recent: int)
    requires Positive(reps) && long <= recent && Summarises(ov, reps, d, long, recent)
    ensures StatSum(ov.sources, AnyOutcome) == ov.msgs30
    ensures StatSum(ov.sources, Passing) == ov.aligned30
    ensures StatSum(ov.sources, Failing) == ov.msgs30 - ov.aligned30
    ensures forall i :: 0 <= i < |ov.sources| ==>
              ov.sources[i].msgs == ov.sources[i].aligned + ov.sources[i].failBoth
              && ov.sources[i].aligned >= 0 && ov.sources[i].failBoth >= 0
    ensures 0 <= ov.aligned7 <= ov.aligned30
    ensures 0 <= ov.msgs7 - ov.aligned7 <= ov.msgs30 - ov.aligned30
  {
    SourcesAddUp(ov.sources, reps, d, long, AnyOutcome);
    SourcesAddUp(ov.sources, reps, d, long, Passing);
    SourcesAddUp(ov.sources, reps, d, long, Failing);
    OutcomesAddUp(reps, d, long, AnySource);
    OutcomesAddUp(reps, d, recent, AnySource);
    WindowsNest(reps, d, long, recent, All(Passing));
    WindowsNest(reps, d, long, recent, All(Failing));
    forall i | 0 <= i < |ov.sources|
      ensures ov.sources[i].msgs == ov.sources[i].aligned + ov.sources[i].failBoth
      ensures ov.sources[i].aligned >= 0 && ov.sources[i].failBoth >= 0
    {
      var s := ov.sources[i];
      assert IsCounted(s, reps, d, long, s.ip);
      OutcomesAddUp(reps, d, long, Among({s.ip}));
      WindowsNest(reps, d, long, long, Only(s.ip, Passing));
      WindowsNest(reps, d, long, long, Only(s.ip, Failing));
    }
  }

  // ---- pruning --------------------------------------------------------------------------

  function Survivors(reps: set<Report>, cut: int): set<Report>
  {
    set r | r in reps && r.end >= cut
  }

  lemma TotalSurvives(reps: set<Report>, cut: int, q: Query)
    requires cut <= q.since
    ensures Total(Survivors(reps, cut), q) == Total(reps, q)
  {
    var kept := Survivors(reps, cut);
    SumUnion(kept, reps - kept, VolumeOf(q));
    assert kept + (reps - kept) == reps;
    SumZero(reps - kept, VolumeOf(q));
  }

  /** A source keeps its counters; its first appearance can only move later. */
  lemma SourcesSurvive(sources: seq<SourceStat>, reps: set<Report>, cut: int, d: string, since: int)
    requires cut <= since && AreSources(sources, Survivors(reps, cut), d, since)
    ensures DistinctIPs(sources)
    ensures forall ip :: ip in SourceIPs(sources) <==> Active(reps, d, since, ip)
    ensures forall i :: 0 <= i < |sources| ==> IsCounted(sources[i], reps, d, since, sources[i].ip)
  {
    var kept := Survivors(reps, cut);
    forall ip ensures Active(kept, d, since, ip) <==> Active(reps, d, since, ip) {}
    forall i | 0 <= i < |sources| ensures IsCounted(sources[i], reps, d, since, sources[i].ip) {
      TotalSurvives(reps, cut, FromIP(d, since, sources[i].ip, AnyOutcome));
      TotalSurvives(reps, cut, FromIP(d, since, sources[i].ip, Passing));
      TotalSurvives(reps, cut, FromIP(d, since, sources[i].ip, Failing));
    }
  }

  /** Pruning before the window opens changes no figure of either window, keeps the
      choice of policy if any report of the domain survives, and moves history bounds
      only forward. */
  lemma PruneInvisible(reps: set<Report>, cut: int, d: string, long: int, recent: int, a: Overview, b: Overview)
    requires cut <= long <= recent
    requires Summarises(a, reps, d, long, recent) && Summarises(b, Survivors(reps, cut), d, long, recent)
    ensures a.msgs30 == b.msgs30 && a.aligned30 == b.aligned30 && a.msgs7 == b.msgs7 && a.aligned7 == b.aligned7
    ensures a.orgs30 == b.orgs30
    ensures SourceIPs(a.sources) == SourceIPs(b.sources)
    ensures forall s, t :: s in a.sources && t in b.sources && s.ip == t.ip ==>
              s == t.(firstEver := s.firstEver) && s.firstEver <= t.firstEver
    ensures b.hasData ==> a.hasData && a.firstSeen <= b.firstSeen
    ensures b.hasData && b.lastEnd > ZERO_TIME ==>
              a.lastEnd == b.lastEnd && IsPolicy(a.policy, a.pct, b.lastEnd, Survivors(reps, cut), d)
  {
    var kept := Survivors(reps, cut);
    TotalSurvives(reps, cut, Messages(d, long));
    TotalSurvives(reps, cut, AlignedMessages(d, long));
    TotalSurvives(reps, cut, Messages(d, recent));
    TotalSurvives(reps, cut, AlignedMessages(d, recent));
    assert OrgsSince(kept, d, long) == OrgsSince(reps, d, long);
    SourcesSurvive(b.sources, reps, cut, d, long);
    forall s, t | s in a.sources && t in b.sources && s.ip == t.ip
      ensures s == t.(firstEver := s.firstEver) && s.firstEver <= t.firstEver
    {
      SurvivorStat(s, t, reps, cut, d, long);
    }
  }

  lemma SurvivorStat(s: SourceStat, t: SourceStat, reps: set<Report>, cut: int, d: string, since: int)
    requires s.ip == t.ip && IsCounted(s, reps, d, since, s.ip) && IsCounted(t, reps, d, since, s.ip)
    requires IsFirstEver(s.firstEver, reps, d, s.ip) && IsFirstEver(t.firstEver, Survivors(reps, cut), d, s.ip)
    ensures s == t.(firstEver := s.firstEver) && s.firstEver <= t.firstEver
  {
  }
}
