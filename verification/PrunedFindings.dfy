/** Exactly when the prune at the start of Collect changes what Collect reports. */
module PrunedFindings {
  import opened Reports
  import opened Overviews
  import opened Accounting
  import opened Collector
  import Sums
  import Mem = ReportMemStore

  ghost predicate SameSubjects(a: Overview, b: Overview, now: int)
  {
    forall x :: x in Subjects(a, now) <==> x in Subjects(b, now)
  }

  /** Every report of the domain goes. */
  ghost predicate Emptied(reps: set<Report>, cut: int, d: string)
  {
    Watched(reps, d) && forall r :: r in reps && r.domain == d ==> r.end < cut
  }

  /** The history new-source findings ask for. */
  ghost predicate HasHistory(reps: set<Report>, d: string, now: int)
  {
    exists r :: r in reps && r.domain == d && now - r.begin >= MIN_HISTORY
  }

  /** The source has sent before `cutoff`, but every report that says so goes. */
  ghost predicate Forgotten(reps: set<Report>, cut: int, d: string, ip: string, cutoff: int)
  {
    && (exists r :: r in reps && Sends(r, d, ip) && r.begin < cutoff)
    && (forall r :: r in reps && Sends(r, d, ip) && r.begin < cutoff ==> r.end < cut)
  }

  predicate Busy(s: SourceStat) { s.msgs >= 5 && s.aligned != 0 }

  /** The prune empties the domain, takes the history away that a new-source finding rests
      on, or makes an old source look new. */
  ghost predicate Alters(reps: set<Report>, cut: int, d: string, now: int, a: Overview)
  {
    || Emptied(reps, cut, d)
    || (HasHistory(reps, d, now) && !HasHistory(Survivors(reps, cut), d, now)
        && exists i :: 0 <= i < |a.sources| && IsNewSource(a.sources[i], now - WINDOW_RECENT))
    || (HasHistory(Survivors(reps, cut), d, now)
        && exists i :: 0 <= i < |a.sources| && Busy(a.sources[i])
                       && Forgotten(reps, cut, d, a.sources[i].ip, now - WINDOW_RECENT))
  }

  // ---- findings by address ----------------------------------------------------------------

  function SpoofIPs(sources: seq<SourceStat>): set<string>
  {
    set i | 0 <= i < |sources| && IsSpoofing(sources[i]) :: sources[i].ip
  }

  function NewIPs(sources: seq<SourceStat>, cutoff: int): set<string>
  {
    set i | 0 <= i < |sources| && IsNewSource(sources[i], cutoff) :: sources[i].ip
  }

  lemma {:induction false} SpoofersAre(sources: seq<SourceStat>, x: Subject)
    ensures x in Spoofers(sources) <==> x.check == Spoofing && x.ip in SpoofIPs(sources)
  {
    hide IsSpoofing;
    if sources != [] {
      var n := |sources| - 1;
      SpoofersAre(sources[..n], x);
      assert SpoofIPs(sources) == SpoofIPs(sources[..n]) + (if IsSpoofing(sources[n]) then {sources[n].ip} else {});
    }
  }

  lemma {:induction false} NewcomersAre(sources: seq<SourceStat>, cutoff: int, x: Subject)
    ensures x in Newcomers(sources, cutoff) <==> x.check == NewSource && x.ip in NewIPs(sources, cutoff)
  {
    hide IsNewSource;
    if sources != [] {
      var n := |sources| - 1;
      NewcomersAre(sources[..n], cutoff, x);
      assert NewIPs(sources, cutoff) ==
             NewIPs(sources[..n], cutoff) + (if IsNewSource(sources[n], cutoff) then {sources[n].ip} else {});
    }
  }

  /** The addresses reported as new: none without enough history. */
  function ReportedNew(ov: Overview, now: int): set<string>
  {
    if now - ov.firstSeen >= MIN_HISTORY then NewIPs(ov.sources, now - WINDOW_RECENT) else {}
  }

  lemma SubjectsAre(ov: Overview, now: int, x: Subject)
    requires ov.hasData
    ensures x in Subjects(ov, now) <==>
              || (x.check == Spoofing && x.ip in SpoofIPs(ov.sources))
              || (x.check == NewSource && x.ip in ReportedNew(ov, now))
              || x in DomainWide(ov, now)
  {
    SpoofersAre(ov.sources, x);
    NewcomersAre(ov.sources, now - WINDOW_RECENT, x);
    hide Spoofers, Newcomers, DomainWide, SpoofIPs, NewIPs;
  }

  // ---- sources before and after ------------------------------------------------------------

  predicate Pair(s: SourceStat, t: SourceStat) { s == t.(firstEver := s.firstEver) && s.firstEver <= t.firstEver }

  /** The two listings have the same addresses, with the same counters. */
  ghost predicate Matched(a: seq<SourceStat>, b: seq<SourceStat>)
  {
    && SourceIPs(a) == SourceIPs(b)
    && forall i, j :: 0 <= i < |a| && 0 <= j < |b| && a[i].ip == b[j].ip ==> Pair(a[i], b[j])
  }

  lemma PartnerOf(a: seq<SourceStat>, b: seq<SourceStat>, i: nat) returns (j: nat)
    requires Matched(a, b) && i < |a|
    ensures j < |b| && a[i].ip == b[j].ip && Pair(a[i], b[j])
  {
    assert a[i].ip in SourceIPs(b);
    j :| 0 <= j < |b| && b[j].ip == a[i].ip;
  }

  lemma PartnerBefore(a: seq<SourceStat>, b: seq<SourceStat>, j: nat) returns (i: nat)
    requires Matched(a, b) && j < |b|
    ensures i < |a| && a[i].ip == b[j].ip && Pair(a[i], b[j])
  {
    assert b[j].ip in SourceIPs(a);
    i :| 0 <= i < |a| && a[i].ip == b[j].ip;
  }

  lemma SpoofersSurvive(a: seq<SourceStat>, b: seq<SourceStat>)
    requires Matched(a, b)
    ensures SpoofIPs(a) == SpoofIPs(b)
  {
    forall ip | ip in SpoofIPs(a) ensures ip in SpoofIPs(b) {
      var i :| 0 <= i < |a| && IsSpoofing(a[i]) && a[i].ip == ip;
      var j := PartnerOf(a, b, i);
      assert IsSpoofing(b[j]);
    }
    forall ip | ip in SpoofIPs(b) ensures ip in SpoofIPs(a) {
      var j :| 0 <= j < |b| && IsSpoofing(b[j]) && b[j].ip == ip;
      var i := PartnerBefore(a, b, j);
      assert IsSpoofing(a[i]);
    }
  }

  lemma NewcomersStay(a: seq<SourceStat>, b: seq<SourceStat>, cutoff: int)
    requires Matched(a, b)
    ensures NewIPs(a, cutoff) <= NewIPs(b, cutoff)
  {
    forall ip | ip in NewIPs(a, cutoff) ensures ip in NewIPs(b, cutoff) {
      var i :| 0 <= i < |a| && IsNewSource(a[i], cutoff) && a[i].ip == ip;
      var j := PartnerOf(a, b, i);
      assert IsNewSource(b[j], cutoff);
    }
  }

  /** A source becomes new exactly when it is busy and its early reports are forgotten. */
  lemma NewcomersAppear(a: seq<SourceStat>, b: seq<SourceStat>, reps: set<Report>, cut: int, d: string, long: int,
                        cutoff: int)
    requires Matched(a, b) && AreSources(a, reps, d, long) && AreSources(b, Survivors(reps, cut), d, long)
    ensures NewIPs(a, cutoff) == NewIPs(b, cutoff) <==>
              !exists i :: 0 <= i < |a| && Busy(a[i]) && Forgotten(reps, cut, d, a[i].ip, cutoff)
  {
    NewcomersStay(a, b, cutoff);
    if i :| 0 <= i < |a| && Busy(a[i]) && Forgotten(reps, cut, d, a[i].ip, cutoff) {
      var j := PartnerOf(a, b, i);
      ForgottenMeans(a[i], b[j], reps, cut, d, cutoff);
      hide Forgotten, AreSources, Matched;
      assert IsNewSource(b[j], cutoff) && b[j].ip in NewIPs(b, cutoff);
      OnlyOne(a, i, cutoff, reps, d, long);
    } else {
      forall ip | ip in NewIPs(b, cutoff) ensures ip in NewIPs(a, cutoff) {
        var j :| 0 <= j < |b| && IsNewSource(b[j], cutoff) && b[j].ip == ip;
        var i := PartnerBefore(a, b, j);
        ForgottenMeans(a[i], b[j], reps, cut, d, cutoff);
        assert Busy(a[i]) && !Forgotten(reps, cut, d, a[i].ip, cutoff);
        assert IsNewSource(a[i], cutoff);
      }
    }
  }

  lemma OnlyOne(a: seq<SourceStat>, i: nat, cutoff: int, reps: set<Report>, d: string, long: int)
    requires AreSources(a, reps, d, long) && i < |a| && !IsNewSource(a[i], cutoff)
    ensures a[i].ip !in NewIPs(a, cutoff)
  {
    assert DistinctIPs(a);
  }

  lemma ForgottenMeans(s: SourceStat, t: SourceStat, reps: set<Report>, cut: int, d: string, cutoff: int)
    requires s.ip == t.ip
    requires IsFirstEver(s.firstEver, reps, d, s.ip) && IsFirstEver(t.firstEver, Survivors(reps, cut), d, s.ip)
    ensures s.firstEver < cutoff <= t.firstEver <==> Forgotten(reps, cut, d, s.ip, cutoff)
  {
    hide Sends;
  }

  // ---- the domain before and after -----------------------------------------------------------

  lemma HistoryMeans(ov: Overview, reps: set<Report>, d: string, now: int)
    requires IsFirstSeen(ov.firstSeen, reps, d)
    ensures HasHistory(reps, d, now) <==> now - ov.firstSeen >= MIN_HISTORY
  {
  }

  lemma LastEndSurvives(t: int, u: int, reps: set<Report>, cut: int, d: string)
    requires IsLastEnd(t, reps, d) && IsLastEnd(u, Survivors(reps, cut), d) && Watched(Survivors(reps, cut), d)
    ensures t == u
  {
    var k :| k in Survivors(reps, cut) && k.domain == d;
    if t > ZERO_TIME {
      var r :| r in reps && r.domain == d && r.end == t;
      assert k.end <= r.end;
      assert r in Survivors(reps, cut);
    }
  }

  lemma PolicySurvives(a: Overview, b: Overview, reps: set<Report>, cut: int, d: string)
    requires UniqueLatest(reps, d) && IsLastEnd(a.lastEnd, reps, d) && a.lastEnd == b.lastEnd
    requires IsPolicy(a.policy, a.pct, a.lastEnd, reps, d)
    requires IsPolicy(b.policy, b.pct, b.lastEnd, Survivors(reps, cut), d)
    ensures a.policy == b.policy
  {
    hide UniqueLatest, IsLastEnd;
    assert IsPolicy(b.policy, b.pct, a.lastEnd, reps, d);
    PolicyDetermined(a.policy, a.pct, b.policy, b.pct, a.lastEnd, reps, d);
  }

  lemma WideSurvives(a: Overview, b: Overview, now: int)
    requires a.msgs30 == b.msgs30 && a.aligned30 == b.aligned30 && a.msgs7 == b.msgs7 && a.aligned7 == b.aligned7
    requires a.orgs30 == b.orgs30 && a.lastEnd == b.lastEnd && a.policy == b.policy
    ensures DomainWide(a, now) == DomainWide(b, now)
  {
  }

  lemma WideIsWide(ov: Overview, now: int, x: Subject)
    requires x.check == NewSource
    ensures x !in DomainWide(ov, now)
  {
    DomainWideSubjects(ov, now);
  }

  /** A domain still watched reports the same findings exactly if the same sources are new. */
  lemma SubjectsSurvive(a: Overview, b: Overview, now: int)
    requires a.hasData && b.hasData && SpoofIPs(a.sources) == SpoofIPs(b.sources)
             && DomainWide(a, now) == DomainWide(b, now)
    ensures SameSubjects(a, b, now) <==> ReportedNew(a, now) == ReportedNew(b, now)
  {
    hide Subjects, DomainWide, SpoofIPs, ReportedNew;
    forall x ensures ReportedNew(a, now) == ReportedNew(b, now) ==> (x in Subjects(a, now) <==> x in Subjects(b, now)) {
      SubjectsAre(a, now, x);
      SubjectsAre(b, now, x);
    }
    if SameSubjects(a, b, now) {
      forall ip ensures ip in ReportedNew(a, now) <==> ip in ReportedNew(b, now) {
        var x := Subject(NewSource, ip);
        WideIsWide(a, now, x);
        SubjectsAre(a, now, x);
        SubjectsAre(b, now, x);
      }
    }
  }

  lemma ReportedNewSurvives(a: Overview, b: Overview, now: int)
    requires a.firstSeen <= b.firstSeen
    ensures ReportedNew(a, now) == ReportedNew(b, now) <==>
              if now - b.firstSeen >= MIN_HISTORY then
                NewIPs(a.sources, now - WINDOW_RECENT) == NewIPs(b.sources, now - WINDOW_RECENT)
              else now - a.firstSeen >= MIN_HISTORY ==>
                     !exists i :: 0 <= i < |a.sources| && IsNewSource(a.sources[i], now - WINDOW_RECENT)
  {
    hide IsNewSource;
    if i :| 0 <= i < |a.sources| && IsNewSource(a.sources[i], now - WINDOW_RECENT) {
      assert a.sources[i].ip in NewIPs(a.sources, now - WINDOW_RECENT);
    }
  }

  /** What the prune keeps of a domain that is still watched. */
  lemma StillWatched(reps: set<Report>, cut: int, d: string, now: int, long: int, recent: int, a: Overview, b: Overview)
    requires cut <= long <= recent && UniqueLatest(reps, d) && b.hasData
    requires Summarises(a, reps, d, long, recent)
    requires Summarises(b, Survivors(reps, cut), d, long, recent)
    ensures a.hasData && a.firstSeen <= b.firstSeen && Matched(a.sources, b.sources)
    ensures DomainWide(a, now) == DomainWide(b, now)
  {
    hide *;
    PruneInvisible(reps, cut, d, long, recent, a, b);
    MatchedIs(a, b);
    SummaryEnds(reps, d, long, recent, a);
    SummaryEnds(Survivors(reps, cut), d, long, recent, b);
    LastEndSurvives(a.lastEnd, b.lastEnd, reps, cut, d);
    PolicySurvives(a, b, reps, cut, d);
    WideSurvives(a, b, now);
  }

  lemma MatchedIs(a: Overview, b: Overview)
    requires SourceIPs(a.sources) == SourceIPs(b.sources)
    requires forall s, t :: s in a.sources && t in b.sources && s.ip == t.ip ==>
               s == t.(firstEver := s.firstEver) && s.firstEver <= t.firstEver
    ensures Matched(a.sources, b.sources)
  {
    hide SourceIPs;
  }

  lemma SummaryEnds(reps: set<Report>, d: string, long: int, recent: int, ov: Overview)
    requires Summarises(ov, reps, d, long, recent)
    ensures IsLastEnd(ov.lastEnd, reps, d) && IsPolicy(ov.policy, ov.pct, ov.lastEnd, reps, d)
    ensures ov.hasData <==> Watched(reps, d)
  {
    hide AreSources, IsFirstSeen, IsLastEnd, IsPolicy, Total, OrgsSince, Watched;
  }

  /** Pruning before the month opens leaves the findings as they are exactly when it
      neither empties the domain, nor takes the history from under a new-source finding, nor
      makes a busy old source look new; wherever the two windows open. */
  lemma PruneAlters(reps: set<Report>, cut: int, d: string, now: int, long: int, recent: int, a: Overview, b: Overview)
    requires cut <= long <= recent && UniqueLatest(reps, d)
    requires Summarises(a, reps, d, long, recent)
    requires Summarises(b, Survivors(reps, cut), d, long, recent)
    ensures SameSubjects(a, b, now) <==> !Alters(reps, cut, d, now, a)
  {
    DataMeans(reps, cut, d, long, recent, a, b);
    hide Alters, Emptied, Summarises, SameSubjects;
    if b.hasData {
      StillWatched(reps, cut, d, now, long, recent, a, b);
      SummaryParts(reps, d, long, recent, a);
      SummaryParts(Survivors(reps, cut), d, long, recent, b);
      HistoryMeans(a, reps, d, now);
      HistoryMeans(b, Survivors(reps, cut), d, now);
      hide *;
      NewcomersAppear(a.sources, b.sources, reps, cut, d, long, now - WINDOW_RECENT);
      SpoofersSurvive(a.sources, b.sources);
      SubjectsSurvive(a, b, now);
      ReportedNewSurvives(a, b, now);
      AltersMeans(reps, cut, d, now, a);
    } else if a.hasData {
      EmptiedDiffers(a, b, now);
      AltersEmptied(reps, cut, d, now, a);
    } else {
      NeverWatched(reps, cut, d, now, a, b);
    }
  }

  lemma DataMeans(reps: set<Report>, cut: int, d: string, long: int, recent: int, a: Overview, b: Overview)
    requires Summarises(a, reps, d, long, recent)
    requires Summarises(b, Survivors(reps, cut), d, long, recent)
    ensures Emptied(reps, cut, d) <==> a.hasData && !b.hasData
    ensures a.hasData <==> Watched(reps, d)
  {
    assert Watched(Survivors(reps, cut), d) <==> exists r :: r in reps && r.domain == d && r.end >= cut by {
      if r :| r in reps && r.domain == d && r.end >= cut {
        assert r in Survivors(reps, cut);
      }
    }
    hide AreSources, IsFirstSeen, IsLastEnd, IsPolicy, Total, OrgsSince;
  }

  lemma SummaryParts(reps: set<Report>, d: string, long: int, recent: int, ov: Overview)
    requires ov.hasData && Summarises(ov, reps, d, long, recent)
    ensures IsFirstSeen(ov.firstSeen, reps, d) && AreSources(ov.sources, reps, d, long)
  {
    hide AreSources, IsFirstSeen, IsLastEnd, IsPolicy, Total, OrgsSince, Watched;
  }

  lemma EmptiedDiffers(a: Overview, b: Overview, now: int)
    requires a.hasData && !b.hasData
    ensures !SameSubjects(a, b, now)
  {
    var x := Subject(NoData, "");
    SubjectsAre(a, now, x);
    DomainWideSubjects(a, now);
    hide DomainWide;
    assert x in Subjects(b, now) && x !in Subjects(a, now);
  }

  lemma NeverWatched(reps: set<Report>, cut: int, d: string, now: int, a: Overview, b: Overview)
    requires !a.hasData && !b.hasData && !Watched(reps, d)
    ensures SameSubjects(a, b, now) && !Alters(reps, cut, d, now, a)
  {
    assert Subjects(a, now) == Subjects(b, now);
    hide Subjects, Forgotten, IsNewSource;
  }

  lemma AltersEmptied(reps: set<Report>, cut: int, d: string, now: int, a: Overview)
    requires Emptied(reps, cut, d)
    ensures Alters(reps, cut, d, now, a)
  {
    hide HasHistory, Emptied, Forgotten, Busy, IsNewSource;
  }

  lemma AltersMeans(reps: set<Report>, cut: int, d: string, now: int, a: Overview)
    requires !Emptied(reps, cut, d)
    ensures Alters(reps, cut, d, now, a) <==>
              if HasHistory(Survivors(reps, cut), d, now) then
                exists i :: 0 <= i < |a.sources| && Busy(a.sources[i])
                            && Forgotten(reps, cut, d, a.sources[i].ip, now - WINDOW_RECENT)
              else HasHistory(reps, d, now)
                   && exists i :: 0 <= i < |a.sources| && IsNewSource(a.sources[i], now - WINDOW_RECENT)
  {
    hide HasHistory, Emptied, Forgotten, Busy, IsNewSource;
  }

  // ---- one input for each way ----------------------------------------------------------------

  /** A domain whose only report goes: its silence turns into "no data". */
  lemma EmptiedInput(r: Report, cut: int, now: int, long: int, recent: int, a: Overview, b: Overview)
    requires r.end < cut <= long <= recent
    requires Summarises(a, {r}, r.domain, long, recent) && Summarises(b, Survivors({r}, cut), r.domain, long, recent)
    ensures !SameSubjects(a, b, now)
  {
    assert Emptied({r}, cut, r.domain) by { assert r in {r}; }
    AltersEmptied({r}, cut, r.domain, now, a);
    assert UniqueLatest({r}, r.domain);
    hide *;
    PruneAlters({r}, cut, r.domain, now, long, recent, a, b);
  }

  /** The reports of a domain in which one report alone speaks for a source in the month. */
  ghost predicate Alone(reps: set<Report>, r: Report, d: string, long: int, ip: string)
  {
    && r in reps && r.domain == d && r.end >= long && |r.records| == 1
    && r.records[0].sourceIP == ip && r.records[0].count >= 5 && Aligned(r.records[0])
    && forall x :: x in reps && x != r && x.domain == d && x.end >= long ==> ip !in IPs(x.records)
  }

  lemma AloneTotal(reps: set<Report>, r: Report, d: string, long: int, ip: string, o: Outcome)
    requires Alone(reps, r, d, long, ip) && o != Failing
    ensures Total(reps, FromIP(d, long, ip, o)) >= 5
  {
    var q := FromIP(d, long, ip, o);
    forall x | x in reps - {r} ensures VolumeOf(q)(x) == 0 {
      if x.domain == d && x.end >= long { Mem.SilentSource(x.records, ip, o); }
    }
    Sums.SumRemove(reps, r, VolumeOf(q));
    Sums.SumZero(reps - {r}, VolumeOf(q));
    assert r.records[..0] == [] && Volume([], q.sel) == 0;
  }

  lemma AloneIsBusy(reps: set<Report>, r: Report, d: string, long: int, ip: string, a: Overview) returns (i: nat)
    requires Alone(reps, r, d, long, ip) && AreSources(a.sources, reps, d, long)
    ensures i < |a.sources| && a.sources[i].ip == ip && Busy(a.sources[i])
    ensures IsFirstEver(a.sources[i].firstEver, reps, d, ip)
  {
    AloneTotal(reps, r, d, long, ip, AnyOutcome);
    AloneTotal(reps, r, d, long, ip, Passing);
    assert r.records[0].sourceIP in IPs(r.records);
    assert Active(reps, d, long, ip);
    hide Alone, Total;
    assert ip in SourceIPs(a.sources);
    i :| 0 <= i < |a.sources| && a.sources[i].ip == ip;
    assert IsCounted(a.sources[i], reps, d, long, ip);
  }

  lemma OnePolicy(reps: set<Report>, d: string)
    requires forall x, y :: x in reps && y in reps ==> x.policy == y.policy && x.pct == y.pct
    ensures UniqueLatest(reps, d)
  {
  }

  /** History lost under the finding about a source. */
  lemma LossAlters(reps: set<Report>, r: Report, cut: int, d: string, now: int, long: int, recent: int, ip: string,
                   a: Overview, b: Overview)
    requires cut <= long <= recent && UniqueLatest(reps, d) && Alone(reps, r, d, long, ip)
    requires HasHistory(reps, d, now) && !HasHistory(Survivors(reps, cut), d, now)
    requires forall x :: x in reps && Sends(x, d, ip) ==> x.begin >= now - WINDOW_RECENT
    requires Summarises(a, reps, d, long, recent) && Summarises(b, Survivors(reps, cut), d, long, recent)
    ensures !SameSubjects(a, b, now)
  {
    AloneIsWatched(reps, r, d, long, recent, ip, a);
    hide Summarises, UniqueLatest, HasHistory, SameSubjects, Alone, AreSources, Survivors;
    var i := AloneIsBusy(reps, r, d, long, ip, a);
    assert IsNewSource(a.sources[i], now - WINDOW_RECENT);
    hide *;
    AltersByLoss(reps, cut, d, now, a, i);
    PruneAlters(reps, cut, d, now, long, recent, a, b);
  }

  /** The early reports of a busy source forgotten. */
  lemma ForgettingAlters(reps: set<Report>, r: Report, cut: int, d: string, now: int, long: int, recent: int,
                         ip: string, a: Overview, b: Overview)
    requires cut <= long <= recent && UniqueLatest(reps, d) && Alone(reps, r, d, long, ip)
    requires HasHistory(Survivors(reps, cut), d, now) && Forgotten(reps, cut, d, ip, now - WINDOW_RECENT)
    requires Summarises(a, reps, d, long, recent) && Summarises(b, Survivors(reps, cut), d, long, recent)
    ensures !SameSubjects(a, b, now)
  {
    hide *;
    AloneIsWatched(reps, r, d, long, recent, ip, a);
    var i := AloneIsBusy(reps, r, d, long, ip, a);
    AltersByForgetting(reps, cut, d, now, a, i);
    PruneAlters(reps, cut, d, now, long, recent, a, b);
  }

  lemma AloneIsWatched(reps: set<Report>, r: Report, d: string, long: int, recent: int, ip: string, a: Overview)
    requires Alone(reps, r, d, long, ip) && Summarises(a, reps, d, long, recent)
    ensures AreSources(a.sources, reps, d, long)
  {
    hide AreSources, IsFirstSeen, IsLastEnd, IsPolicy, Total, OrgsSince;
  }

  lemma AltersByLoss(reps: set<Report>, cut: int, d: string, now: int, a: Overview, i: nat)
    requires HasHistory(reps, d, now) && !HasHistory(Survivors(reps, cut), d, now)
    requires i < |a.sources| && IsNewSource(a.sources[i], now - WINDOW_RECENT)
    ensures Alters(reps, cut, d, now, a)
  {
    hide HasHistory, Emptied, Forgotten, Busy, IsNewSource, Survivors;
  }

  lemma AltersByForgetting(reps: set<Report>, cut: int, d: string, now: int, a: Overview, i: nat)
    requires HasHistory(Survivors(reps, cut), d, now) && i < |a.sources| && Busy(a.sources[i])
    requires Forgotten(reps, cut, d, a.sources[i].ip, now - WINDOW_RECENT)
    ensures Alters(reps, cut, d, now, a)
  {
    hide HasHistory, Emptied, Forgotten, Busy, IsNewSource, Survivors;
  }

  /** An old report goes and a fresh one stays: the history a new-source finding rested on
      is gone, and with it the finding. */
  lemma LostHistoryInput(early: Report, r: Report, cut: int, now: int, long: int, recent: int, ip: string,
                         a: Overview, b: Overview)
    requires early.domain == r.domain && early.policy == r.policy && early.pct == r.pct
    requires early.end < cut <= long <= recent && now - early.begin >= MIN_HISTORY && ip !in IPs(early.records)
    requires r.begin >= now - WINDOW_RECENT && Alone({early, r}, r, r.domain, long, ip)
    requires Summarises(a, {early, r}, r.domain, long, recent)
    requires Summarises(b, Survivors({early, r}, cut), r.domain, long, recent)
    ensures !SameSubjects(a, b, now)
  {
    var reps, d := {early, r}, r.domain;
    hide Summarises, SameSubjects, Alone;
    OnePolicy(reps, d);
    hide UniqueLatest;
    assert early in reps && HasHistory(reps, d, now) && !HasHistory(Survivors(reps, cut), d, now);
    LossAlters(reps, r, cut, d, now, long, recent, ip, a, b);
  }

  /** The only early report of a source goes while others keep the domain's history: an
      old source is reported as new. */
  lemma ForgottenInput(early: Report, mid: Report, r: Report, cut: int, now: int, long: int, recent: int, ip: string,
                       a: Overview, b: Overview)
    requires early.domain == mid.domain == r.domain
    requires early.policy == mid.policy == r.policy && early.pct == mid.pct == r.pct
    requires early.end < cut <= long <= recent && early.begin < now - WINDOW_RECENT && ip in IPs(early.records)
    requires mid.end >= cut && now - mid.begin >= MIN_HISTORY && ip !in IPs(mid.records)
    requires r.begin >= now - WINDOW_RECENT && Alone({early, mid, r}, r, r.domain, long, ip)
    requires Summarises(a, {early, mid, r}, r.domain, long, recent)
    requires Summarises(b, Survivors({early, mid, r}, cut), r.domain, long, recent)
    ensures !SameSubjects(a, b, now)
  {
    var reps, d := {early, mid, r}, r.domain;
    hide *;
    ForgottenSet(early, mid, r, cut, now, ip);
    ForgettingAlters(reps, r, cut, d, now, long, recent, ip, a, b);
  }

  lemma ForgottenSet(early: Report, mid: Report, r: Report, cut: int, now: int, ip: string)
    requires early.domain == mid.domain == r.domain
    requires early.policy == mid.policy == r.policy && early.pct == mid.pct == r.pct
    requires early.end < cut && early.begin < now - WINDOW_RECENT && ip in IPs(early.records)
    requires mid.end >= cut && now - mid.begin >= MIN_HISTORY && ip !in IPs(mid.records)
    requires r.begin >= now - WINDOW_RECENT
    ensures var reps, d := {early, mid, r}, r.domain;
            && UniqueLatest(reps, d) && HasHistory(Survivors(reps, cut), d, now)
            && Forgotten(reps, cut, d, ip, now - WINDOW_RECENT)
  {
    var reps, d := {early, mid, r}, r.domain;
    assert mid in Survivors(reps, cut) && early in reps && Sends(early, d, ip);
    hide UniqueLatest, Survivors, IPs;
    OnePolicy(reps, d);
  }
}
