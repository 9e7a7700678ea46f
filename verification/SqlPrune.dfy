/** The prune at the start of Collect over the SQL store: exactly when it changes what
    Collect reports. */
module SqlPrune {
  import opened Base
  import opened Reports
  import opened Overviews
  import opened Accounting
  import opened Collector
  import opened ReportAgreement
  import opened OverviewAgreement
  import opened OverviewMirror
  import opened PrunedFindings
  import opened SqlCollector
  import Sql = ReportSqlStore

  lemma ElementsPruned(log: seq<Report>, cut: int)
    ensures Elements(LogPrune(log, cut)) == Survivors(Elements(log), cut)
  {
    PruneKeeps(log, cut);
    forall r ensures r in Elements(LogPrune(log, cut)) <==> r in LogPrune(log, cut) {}
    forall r ensures r in Elements(log) <==> r in log {}
    hide LogPrune, Elements;
  }

  lemma SurvivorsRead(reps: set<Report>, cut: int)
    ensures ReadSet(Survivors(reps, cut)) == Survivors(ReadSet(reps), cut)
  {
    forall x | x in Survivors(ReadSet(reps), cut) ensures x in ReadSet(Survivors(reps, cut)) {
      var r :| r in reps && x == ReadReport(r);
      assert r in Survivors(reps, cut);
    }
    hide ReadRecords;
  }

  lemma UniqueRead(reps: set<Report>, d: string)
    requires UniqueLatest(reps, d)
    ensures UniqueLatest(ReadSet(reps), d)
  {
    var read := ReadSet(reps);
    forall x, y | x in read && y in read && x.domain == d && y.domain == d
                  && (forall t :: t in read && t.domain == d ==> t.end <= x.end && t.end <= y.end)
      ensures x.policy == y.policy && x.pct == y.pct
    {
      hide UniqueLatest;
      NewestRead(reps, d, x, y);
    }
  }

  lemma NewestRead(reps: set<Report>, d: string, x: Report, y: Report)
    requires UniqueLatest(reps, d) && x in ReadSet(reps) && y in ReadSet(reps) && x.domain == d && y.domain == d
    requires forall t :: t in ReadSet(reps) && t.domain == d ==> t.end <= x.end && t.end <= y.end
    ensures x.policy == y.policy && x.pct == y.pct
  {
    hide UniqueLatest, ReadRecords;
    var r :| r in reps && x == ReadReport(r);
    var s :| s in reps && y == ReadReport(s);
    assert forall t :: t in reps ==> ReadReport(t) in ReadSet(reps);
    assert IsNewest(r.end, reps, d);
    LatestAgree(reps, d, r, s);
  }

  /** Whether the prune alters findings does not depend on results as read or raised. */
  lemma AltersRead(reps: set<Report>, cut: int, d: string, now: int, a: Overview)
    ensures Alters(ReadSet(reps), cut, d, now, Raised(a)) <==> Alters(reps, cut, d, now, a)
  {
    var read, sources, raised := ReadSet(reps), a.sources, Raised(a).sources;
    SurvivorsRead(reps, cut);
    HistoryReads(reps, d, now);
    HistoryReads(Survivors(reps, cut), d, now);
    EmptiedRead(reps, cut, d);
    forall i | 0 <= i < |sources|
      ensures raised[i].ip == sources[i].ip && (Busy(raised[i]) <==> Busy(sources[i]))
      ensures IsNewSource(raised[i], now - WINDOW_RECENT) <==> IsNewSource(sources[i], now - WINDOW_RECENT)
      ensures Forgotten(read, cut, d, sources[i].ip, now - WINDOW_RECENT)
              <==> Forgotten(reps, cut, d, sources[i].ip, now - WINDOW_RECENT)
    {
      ForgottenRead(reps, cut, d, sources[i].ip, now - WINDOW_RECENT);
    }
    assert |raised| == |sources|;
    hide ReadSet, Raised, Survivors, HasHistory, Emptied, Forgotten, Busy, IsNewSource, WINDOW_RECENT;
  }

  lemma HistoryReads(reps: set<Report>, d: string, now: int)
    ensures HasHistory(ReadSet(reps), d, now) <==> HasHistory(reps, d, now)
  {
    assert forall r :: r in reps ==> ReadReport(r) in ReadSet(reps);
    hide ReadRecords;
  }

  lemma EmptiedRead(reps: set<Report>, cut: int, d: string)
    ensures Emptied(ReadSet(reps), cut, d) <==> Emptied(reps, cut, d)
  {
    assert forall r :: r in reps ==> ReadReport(r) in ReadSet(reps);
    hide ReadRecords;
  }

  lemma ForgottenRead(reps: set<Report>, cut: int, d: string, ip: string, cutoff: int)
    ensures Forgotten(ReadSet(reps), cut, d, ip, cutoff) <==> Forgotten(reps, cut, d, ip, cutoff)
  {
    PairedRead(reps, d, ip);
    hide ReadSet, Sends, ReadRecords;
  }

  /** Raising instants changes neither which sources are reported nor which are new. */
  lemma RaisedSubjects(ov: Overview, now: int)
    ensures SpoofIPs(Raised(ov).sources) == SpoofIPs(ov.sources)
    ensures ReportedNew(Raised(ov), now) == ReportedNew(ov, now)
  {
    var sources, raised := ov.sources, Raised(ov).sources;
    assert |raised| == |sources|;
    forall i | 0 <= i < |sources|
      ensures raised[i].ip == sources[i].ip && (IsSpoofing(raised[i]) <==> IsSpoofing(sources[i]))
      ensures IsNewSource(raised[i], now - WINDOW_RECENT) <==> IsNewSource(sources[i], now - WINDOW_RECENT)
    {
    }
    hide RaisedSources, IsSpoofing, IsNewSource;
  }

  /** The newest report and its policy survive, if anything does. */
  lemma NewestSurvives(a: Overview, b: Overview, reps: set<Report>, cut: int, d: string, long: int)
    requires Dated(a, reps, d, long) && Dated(b, Survivors(reps, cut), d, long) && b.hasData && UniqueLatest(reps, d)
    ensures a.lastEnd == b.lastEnd && a.policy == b.policy
  {
    hide UniqueLatest, IsLatest, Active;
    var kept := Survivors(reps, cut);
    assert IsNewest(b.lastEnd, kept, d) && PolicyOf(b, kept, d);
    var y :| y in kept && y.domain == d && y.end == b.lastEnd && y.policy == b.policy && y.pct == b.pct;
    assert Watched(reps, d) by { assert y in reps; }
    assert IsNewest(a.lastEnd, reps, d) && PolicyOf(a, reps, d);
    var x :| x in reps && x.domain == d && x.end == a.lastEnd && x.policy == a.policy && x.pct == a.pct;
    assert y.end <= x.end && x in kept;
    hide Dated;
    LatestAgree(reps, d, x, y);
  }

  /** Raised or as returned, the two overviews differ in the same findings. */
  lemma SameRaised(a: Overview, b: Overview, now: int)
    requires SpoofIPs(a.sources) == SpoofIPs(b.sources)
    requires a.hasData && b.hasData ==>
               DomainWide(a, now) == DomainWide(b, now) && DomainWide(Raised(a), now) == DomainWide(Raised(b), now)
    requires b.hasData ==> a.hasData
    ensures SameSubjects(Raised(a), Raised(b), now) <==> SameSubjects(a, b, now)
  {
    RaisedSubjects(a, now);
    RaisedSubjects(b, now);
    assert Raised(a).hasData == a.hasData && Raised(b).hasData == b.hasData;
    if b.hasData {
      hide *;
      SubjectsSurvive(a, b, now);
      SubjectsSurvive(Raised(a), Raised(b), now);
    } else if a.hasData {
      hide *;
      EmptiedDiffers(a, b, now);
      EmptiedDiffers(Raised(a), Raised(b), now);
    } else {
      assert Subjects(a, now) == Subjects(b, now) && Subjects(Raised(a), now) == Subjects(Raised(b), now);
      hide Subjects, Raised;
    }
  }

  /** Over the SQL store, with its horizon and windows truncated to the second: the prune
      leaves the findings as they are exactly when it neither empties the domain, nor takes
      the history from under a new-source finding, nor makes a busy old source look new. */
  lemma SqlPruneAlters(log: seq<Report>, cut: int, d: string, now: int, a: Overview, b: Overview)
    requires Proper(log) && cut <= now - WINDOW_LONG && UniqueLatest(Elements(log), d)
    requires Sql.Answer(a, DbOf(log), d, now) && Sql.Answer(b, Sql.Pruned(DbOf(log), cut), d, now)
    ensures SameSubjects(a, b, now) <==> !Alters(Elements(log), Floor(cut), d, now, a)
  {
    hide *;
    var reps, c, kept := Elements(log), Floor(cut), LogPrune(log, Floor(cut));
    var read, long, recent := ReadSet(reps), Floor(now - WINDOW_LONG), Floor(now - WINDOW_RECENT);
    DbPruned(log, cut);
    ProperPrune(log, c);
    ProperParts(log);
    ProperParts(kept);
    ElementsPruned(log, c);
    SurvivorsRead(reps, c);
    AnswersRead(log, d, now, a);
    AnswersRead(kept, d, now, b);
    UniqueRead(reps, d);
    WindowsOrdered(now);
    FloorsOrdered(cut, now - WINDOW_LONG);
    PruneAlters(read, c, d, now, long, recent, Raised(a), Raised(b));
    AltersRead(reps, c, d, now, a);
    SqlStillWatched(read, c, d, now, long, recent, a, b);
    SameRaised(a, b, now);
  }

  lemma FloorsOrdered(s: int, t: int)
    requires s <= t
    ensures Floor(s) <= Floor(t)
  {
    UnixRounds(Unix(s), t);
    UnixRounds(Unix(s), s);
  }

  lemma SqlStillWatched(reps: set<Report>, cut: int, d: string, now: int, long: int, recent: int,
                        a: Overview, b: Overview)
    requires cut <= long <= recent && UniqueLatest(reps, d)
    requires Summarises(Raised(a), reps, d, long, recent)
    requires Summarises(Raised(b), Survivors(reps, cut), d, long, recent)
    requires Dated(a, reps, d, long) && Dated(b, Survivors(reps, cut), d, long)
    ensures SpoofIPs(a.sources) == SpoofIPs(b.sources) && (b.hasData ==> a.hasData)
    ensures b.hasData ==> DomainWide(a, now) == DomainWide(b, now)
    ensures b.hasData ==> DomainWide(Raised(a), now) == DomainWide(Raised(b), now)
  {
    RaisedData(a);
    RaisedData(b);
    hide *;
    RaisedSubjects(a, now);
    RaisedSubjects(b, now);
    PruneInvisible(reps, cut, d, long, recent, Raised(a), Raised(b));
    MatchedIs(Raised(a), Raised(b));
    SpoofersSurvive(Raised(a).sources, Raised(b).sources);
    if b.hasData {
      StillWatched(reps, cut, d, now, long, recent, Raised(a), Raised(b));
      NewestSurvives(a, b, reps, cut, d, long);
      WideSurvives(a, b, now);
    }
  }

  lemma RaisedData(ov: Overview)
    ensures var r := Raised(ov);
            && r.hasData == ov.hasData && r.orgs30 == ov.orgs30
            && r.msgs30 == ov.msgs30 && r.aligned30 == ov.aligned30 && r.msgs7 == ov.msgs7 && r.aligned7 == ov.aligned7
  {
    hide RaisedSources;
  }
}
