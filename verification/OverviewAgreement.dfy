/** The overviews of the two stores: what the queries return summarises the stored reports,
    and exactly when that is what the fold returns. */
module OverviewAgreement {
  import opened Base
  import opened Sums
  import opened Reports
  import opened Overviews
  import opened ReportAgreement
  import Mem = ReportMemStore
  import Sql = ReportSqlStore

  /** No result that counts only because it spells "pass" with a long s. */
  predicate PlainResults(r: Record)
  {
    ExactlyAligned(r.evalDKIM, r.evalSPF) || !(LongSPass(r.evalDKIM) || LongSPass(r.evalSPF))
  }

  /** A report as ParseXML makes it, whose passes are spelt plainly. */
  ghost predicate Storable(rep: Report)
  {
    WellFormed(rep) && forall i :: 0 <= i < |rep.records| ==> PlainResults(rep.records[i])
  }

  lemma StorableAligns(rep: Report, i: nat)
    requires Storable(rep) && i < |rep.records|
    ensures Aligned(rep.records[i]) <==> ExactlyAligned(rep.records[i].evalDKIM, rep.records[i].evalSPF)
  {
    assert GoodRow(rep.records[i]);
    AlignmentAgrees(rep.records[i]);
  }

  /** The primary key of the report table at work. */
  ghost predicate DistinctTriples(log: seq<Report>)
  {
    forall i, j :: 0 <= i < j < |log| ==> Identity(log[i]) != Identity(log[j])
  }

  lemma KeysGiveTriples(log: seq<Report>)
    requires DistinctKeys(log)
    ensures DistinctTriples(log)
  {
    forall i, j | 0 <= i < j < |log| ensures Identity(log[i]) != Identity(log[j]) {
      assert Identity(log[i]) == Identity(log[j]) ==> Key(log[i]) == Key(log[j]);
    }
  }

  ghost predicate AllStorable(log: seq<Report>) { forall i :: 0 <= i < |log| ==> Storable(log[i]) }

  // ---- maxima, and maxima that start at the zero time ----------------------------------

  /** The latest end of a domain's reports, whatever it is. */
  ghost predicate IsNewest(t: int, reps: set<Report>, d: string)
  {
    && (forall r :: r in reps && r.domain == d ==> r.end <= t)
    && (exists r :: r in reps && r.domain == d && r.end == t)
  }

  /** The latest end among a source's reports in the window, whatever it is. */
  ghost predicate IsLatest(t: int, reps: set<Report>, d: string, since: int, ip: string)
  {
    && (forall r :: r in reps && Sends(r, d, ip) && r.end >= since ==> r.end <= t)
    && (exists r :: r in reps && Sends(r, d, ip) && r.end >= since && r.end == t)
  }

  ghost predicate PolicyOf(ov: Overview, reps: set<Report>, d: string)
  {
    exists r :: r in reps && r.domain == d && r.end == ov.lastEnd && r.policy == ov.policy && r.pct == ov.pct
  }

  ghost predicate Dated(ov: Overview, reps: set<Report>, d: string, since: int)
  {
    && (ov.hasData <==> Watched(reps, d))
    && (if ov.hasData then IsNewest(ov.lastEnd, reps, d) && PolicyOf(ov, reps, d) else ov == EmptyOverview)
    && (forall ip :: ip in SourceIPs(ov.sources) <==> Active(reps, d, since, ip))
    && (forall i :: 0 <= i < |ov.sources| ==> IsLatest(ov.sources[i].lastSeen, reps, d, since, ov.sources[i].ip))
  }

  function RaisedSource(s: SourceStat): SourceStat { s.(lastSeen := Max(s.lastSeen, ZERO_TIME)) }

  function RaisedSources(sources: seq<SourceStat>): seq<SourceStat>
  {
    seq(|sources|, i requires 0 <= i < |sources| => RaisedSource(sources[i]))
  }

  /** The overview a fold whose maxima start at Go's zero time would have returned. */
  function Raised(ov: Overview): Overview
  {
    var raised := ov.(sources := RaisedSources(ov.sources));
    if ov.lastEnd > ZERO_TIME then raised else raised.(lastEnd := ZERO_TIME, policy := "", pct := 0)
  }

  // ---- the queries compute the same overview ------------------------------------------

  lemma {:induction false} SumCntAppend(a: seq<Sql.RecordRow>, b: seq<Sql.RecordRow>, q: Query)
    ensures Sql.SumCnt(a + b, q) == Sql.SumCnt(a, q) + Sql.SumCnt(b, q)
  {
    if b == [] {
      assert a + b == a;
    } else {
      var n := |b| - 1;
      assert (a + b)[..|a + b| - 1] == a + b[..n];
      SumCntAppend(a, b[..n], q);
    }
  }

  /** The window in instants that a window in seconds stands for. */
  function Instants(q: Query): Query { q.(since := FromUnix(q.since)) }

  lemma {:induction false} ReportSum(rep: Report, n: nat, q: Query)
    requires n <= |rep.records| && Storable(rep)
    ensures Sql.SumCnt(Sql.RowsOf(rep)[..n], q) ==
            if rep.domain == q.domain && Unix(rep.end) >= q.since then Volume(rep.records[..n], q.sel) else 0
  {
    if n > 0 {
      ReportSum(rep, n - 1, q);
      StorableAligns(rep, n - 1);
      hide Storable, Aligned, ExactlyAligned;
      assert Sql.RowsOf(rep)[..n][..n - 1] == Sql.RowsOf(rep)[..n - 1];
      assert rep.records[..n][..n - 1] == rep.records[..n - 1];
    }
  }

  lemma {:induction false} LogSum(log: seq<Report>, q: Query)
    requires DistinctTriples(log) && AllStorable(log)
    ensures Sql.SumCnt(DbOf(log).rows, q) == Total(Elements(log), Instants(q))
  {
    if log != [] {
      var n := |log| - 1;
      var rep, rows := log[n], Sql.RowsOf(log[n]);
      LogSum(log[..n], q);
      SumCntAppend(DbOf(log[..n]).rows, rows, q);
      assert Storable(rep);
      ReportSum(rep, |rep.records|, q);
      assert rows[..|rep.records|] == rows && rep.records[..|rep.records|] == rep.records;
      assert Sql.SumCnt(rows, q) == ReportVolume(rep, Instants(q));
      LogGrows(log);
      TotalGrows(Elements(log[..n]), rep, Instants(q));
    }
  }

  lemma LogGrows(log: seq<Report>)
    requires DistinctTriples(log) && log != []
    ensures var n := |log| - 1; Elements(log) == Elements(log[..n]) + {log[n]} && log[n] !in Elements(log[..n])
  {
  }

  ghost predicate HasRow(log: seq<Report>, row: Sql.RecordRow)
  {
    exists i, k :: 0 <= i < |log| && 0 <= k < |log[i].records| && row == Sql.RowOf(log[i], log[i].records[k])
  }

  lemma {:induction false} RowMembers(log: seq<Report>, row: Sql.RecordRow)
    ensures row in DbOf(log).rows <==> HasRow(log, row)
  {
    if log != [] {
      var n := |log| - 1;
      RowMembers(log[..n], row);
      assert forall i :: 0 <= i < n ==> log[..n][i] == log[i];
      if HasRow(log[..n], row) {
        var i, k :| 0 <= i < n && 0 <= k < |log[..n][i].records|
          && row == Sql.RowOf(log[..n][i], log[..n][i].records[k]);
        assert row == Sql.RowOf(log[i], log[i].records[k]);
      }
      assert row in DbOf(log).rows <==> row in DbOf(log[..n]).rows || row in Sql.RowsOf(log[n]);
      if row in Sql.RowsOf(log[n]) {
        var k :| 0 <= k < |log[n].records| && Sql.RowsOf(log[n])[k] == row;
        assert row == Sql.RowOf(log[n], log[n].records[k]);
      }
      if HasRow(log, row) {
        var i, k :| 0 <= i < |log| && 0 <= k < |log[i].records| && row == Sql.RowOf(log[i], log[i].records[k]);
        if i == n {
          assert Sql.RowsOf(log[n])[k] == row;
        } else {
          assert row == Sql.RowOf(log[..n][i], log[..n][i].records[k]);
        }
      }
    }
  }

  /** A report sends from `ip` exactly when one of its rows is grouped under it. */
  lemma SendsRow(log: seq<Report>, d: string, ip: string, rep: Report)
    requires rep in Elements(log) && Sends(rep, d, ip)
    ensures exists row :: row in DbOf(log).rows && row.domain == d && row.sourceIP == ip
                          && row.endAt == Unix(rep.end) && row.beginAt == Unix(rep.begin)
  {
    var i :| 0 <= i < |log| && log[i] == rep;
    var k :| 0 <= k < |rep.records| && rep.records[k].sourceIP == ip;
    var row := Sql.RowOf(log[i], log[i].records[k]);
    RowMembers(log, row);
  }

  lemma RowSends(log: seq<Report>, row: Sql.RecordRow)
    requires row in DbOf(log).rows
    ensures exists rep :: rep in Elements(log) && Sends(rep, row.domain, row.sourceIP)
                          && row.endAt == Unix(rep.end) && row.beginAt == Unix(rep.begin)
  {
  }

  lemma JoinedFirstEver(log: seq<Report>, d: string, ip: string)
    requires AllStorable(log)
    requires exists rep :: rep in Elements(log) && Sends(rep, d, ip)
    ensures var t := Sql.FirstEver(DbOf(log).rows, d, ip);
            t.Some? && IsFirstEver(FromUnix(t.value), Elements(log), d, ip)
  {
    var rows, t := DbOf(log).rows, Sql.FirstEver(DbOf(log).rows, d, ip);
    forall rep | rep in Elements(log) && Sends(rep, d, ip) ensures t.Some? && FromUnix(t.value) <= rep.begin {
      SendsRow(log, d, ip, rep);
      var row :| row in rows && row.domain == d && row.sourceIP == ip && row.beginAt == Unix(rep.begin);
      var i :| 0 <= i < |rows| && rows[i] == row;
      assert Sql.Grouped(rows[i], d, None, ip);
      UnixRounds(t.value, rep.begin);
    }
    var i :| 0 <= i < |rows| && Sql.Grouped(rows[i], d, None, ip) && rows[i].beginAt == t.value;
    RowSends(log, rows[i]);
    var rep :| rep in Elements(log) && Sends(rep, d, ip) && rows[i].beginAt == Unix(rep.begin);
    WholeReport(log, rep);
  }

  lemma WholeReport(log: seq<Report>, rep: Report)
    requires AllStorable(log) && rep in Elements(log)
    ensures FromUnix(Unix(rep.begin)) == rep.begin && FromUnix(Unix(rep.end)) == rep.end
    ensures WholeSecond(rep.begin) && WholeSecond(rep.end)
  {
  }

  lemma JoinedLastSeen(log: seq<Report>, d: string, since: int, ip: string)
    requires AllStorable(log)
    requires Active(Elements(log), d, FromUnix(since), ip)
    ensures var t := Sql.LastSeen(DbOf(log).rows, d, since, ip);
            t.Some? && IsLatest(FromUnix(t.value), Elements(log), d, FromUnix(since), ip)
  {
    var rows, t := DbOf(log).rows, Sql.LastSeen(DbOf(log).rows, d, since, ip);
    forall rep | rep in Elements(log) && Sends(rep, d, ip) && rep.end >= FromUnix(since)
      ensures t.Some? && rep.end <= FromUnix(t.value)
    {
      SendsRow(log, d, ip, rep);
      var row :| row in rows && row.domain == d && row.sourceIP == ip && row.endAt == Unix(rep.end);
      var i :| 0 <= i < |rows| && rows[i] == row;
      UnixRounds(since, rep.end);
      assert Sql.Grouped(rows[i], d, Some(since), ip);
      WholeReport(log, rep);
      UnixRounds(t.value, rep.end);
    }
    var i :| 0 <= i < |rows| && Sql.Grouped(rows[i], d, Some(since), ip) && rows[i].endAt == t.value;
    RowSends(log, rows[i]);
    var rep :| rep in Elements(log) && Sends(rep, d, ip) && rows[i].endAt == Unix(rep.end);
    WholeReport(log, rep);
    UnixRounds(since, rep.end);
  }

  lemma GroupsAreActive(log: seq<Report>, d: string, since: int, ip: string)
    ensures ip in Sql.Groups(DbOf(log).rows, d, since) <==> Active(Elements(log), d, FromUnix(since), ip)
  {
    var rows := DbOf(log).rows;
    if ip in Sql.Groups(rows, d, since) {
      var i :| 0 <= i < |rows| && rows[i].domain == d && rows[i].endAt >= since && rows[i].sourceIP == ip;
      RowSends(log, rows[i]);
    }
    if Active(Elements(log), d, FromUnix(since), ip) {
      var rep :| rep in Elements(log) && Sends(rep, d, ip) && rep.end >= FromUnix(since);
      SendsRow(log, d, ip, rep);
      var row :| row in rows && row.domain == d && row.sourceIP == ip
                 && row.endAt == Unix(rep.end) && row.beginAt == Unix(rep.begin);
      var i :| 0 <= i < |rows| && rows[i] == row;
    }
  }

  lemma JoinedSource(log: seq<Report>, d: string, since: int, ip: string)
    requires DistinctTriples(log) && AllStorable(log)
    requires Active(Elements(log), d, FromUnix(since), ip)
    ensures var s := Sql.Joined(DbOf(log).rows, d, since, ip);
            && IsCounted(RaisedSource(s), Elements(log), d, FromUnix(since), ip)
            && IsFirstEver(s.firstEver, Elements(log), d, ip)
            && IsLatest(s.lastSeen, Elements(log), d, FromUnix(since), ip)
  {
    LogSum(log, FromIP(d, since, ip, AnyOutcome));
    LogSum(log, FromIP(d, since, ip, Passing));
    LogSum(log, FromIP(d, since, ip, Failing));
    JoinedFirstEver(log, d, ip);
    JoinedLastSeen(log, d, since, ip);
  }

  lemma AnsweredSources(sources: seq<SourceStat>, log: seq<Report>, d: string, since: int)
    requires DistinctTriples(log) && AllStorable(log)
    requires Sql.SourceAnswer(sources, DbOf(log).rows, d, since)
    ensures AreSources(RaisedSources(sources), Elements(log), d, FromUnix(since))
    ensures forall i :: 0 <= i < |sources| ==>
              IsLatest(sources[i].lastSeen, Elements(log), d, FromUnix(since), sources[i].ip)
  {
    var raised := RaisedSources(sources);
    RaisedIPs(sources);
    forall ip ensures ip in SourceIPs(raised) <==> Active(Elements(log), d, FromUnix(since), ip) {
      GroupsAreActive(log, d, since, ip);
    }
    forall i | 0 <= i < |sources|
      ensures IsCounted(raised[i], Elements(log), d, FromUnix(since), raised[i].ip)
      ensures IsFirstEver(raised[i].firstEver, Elements(log), d, raised[i].ip)
      ensures IsLatest(sources[i].lastSeen, Elements(log), d, FromUnix(since), sources[i].ip)
    {
      assert sources[i].ip in SourceIPs(sources);
      GroupsAreActive(log, d, since, sources[i].ip);
      JoinedSource(log, d, since, sources[i].ip);
    }
  }

  lemma RaisedIPs(sources: seq<SourceStat>)
    ensures SourceIPs(RaisedSources(sources)) == SourceIPs(sources)
    ensures DistinctIPs(sources) ==> DistinctIPs(RaisedSources(sources))
  {
    var raised := RaisedSources(sources);
    assert forall i :: 0 <= i < |sources| ==> raised[i].ip == sources[i].ip;
  }

  lemma AnsweredFirstSeen(log: seq<Report>, d: string)
    requires AllStorable(log)
    ensures var first := Sql.MinBegin(DbOf(log).reports, d);
            if first.None? then !Watched(Elements(log), d)
            else Watched(Elements(log), d) && IsFirstSeen(FromUnix(first.value), Elements(log), d)
  {
    Headers(log);
    var rows, first := DbOf(log).reports, Sql.MinBegin(DbOf(log).reports, d);
    forall rep | rep in Elements(log) && rep.domain == d ensures first.Some? && FromUnix(first.value) <= rep.begin {
      var i :| 0 <= i < |log| && log[i] == rep;
      assert rows[i].domain == d;
      UnixRounds(first.value, rep.begin);
    }
    if first.Some? {
      var i :| 0 <= i < |rows| && rows[i].domain == d && rows[i].beginAt == first.value;
      assert log[i] in Elements(log);
      WholeReport(log, log[i]);
    }
  }

  lemma AnsweredLastEnd(log: seq<Report>, d: string)
    requires AllStorable(log)
    ensures var last := Sql.MaxEnd(DbOf(log).reports, d);
            if last.None? then !Watched(Elements(log), d)
            else IsNewest(FromUnix(last.value), Elements(log), d)
  {
    Headers(log);
    var rows, last := DbOf(log).reports, Sql.MaxEnd(DbOf(log).reports, d);
    forall rep | rep in Elements(log) && rep.domain == d ensures last.Some? && rep.end <= FromUnix(last.value) {
      var i :| 0 <= i < |log| && log[i] == rep;
      assert rows[i].domain == d;
      WholeReport(log, rep);
      UnixRounds(last.value, rep.end);
    }
    if last.Some? {
      var i :| 0 <= i < |rows| && rows[i].domain == d && rows[i].endAt == last.value;
      assert log[i] in Elements(log);
      WholeReport(log, log[i]);
    }
  }

  lemma AnsweredHistory(ov: Overview, log: seq<Report>, d: string)
    requires AllStorable(log) && Sql.HistoryAnswer(ov, DbOf(log).reports, d)
    ensures ov.hasData <==> Watched(Elements(log), d)
    ensures if ov.hasData then IsFirstSeen(ov.firstSeen, Elements(log), d) else ov == EmptyOverview
    ensures ov.hasData ==> IsNewest(ov.lastEnd, Elements(log), d) && PolicyOf(ov, Elements(log), d)
  {
    AnsweredFirstSeen(log, d);
    AnsweredLastEnd(log, d);
    Headers(log);
    if ov.hasData {
      var rows := DbOf(log).reports;
      var j :| 0 <= j < |rows| && rows[j].domain == d && FromUnix(rows[j].endAt) == ov.lastEnd
               && ov.policy == rows[j].policy && ov.pct == rows[j].pct;
      assert log[j] in Elements(log);
      WholeReport(log, log[j]);
    }
  }

  lemma RaisedHistory(ov: Overview, reps: set<Report>, d: string)
    requires ov.hasData <==> Watched(reps, d)
    requires if ov.hasData then IsFirstSeen(ov.firstSeen, reps, d) else ov == EmptyOverview
    requires ov.hasData ==> IsNewest(ov.lastEnd, reps, d) && PolicyOf(ov, reps, d)
    ensures Mem.History(Raised(ov), reps, d)
  {
    hide RaisedSources;
  }

  lemma AnsweredOrgs(log: seq<Report>, d: string, since: int)
    ensures Sql.Orgs(DbOf(log).reports, d, since) == OrgsSince(Elements(log), d, FromUnix(since))
  {
    Headers(log);
    var rows := DbOf(log).reports;
    forall org | org in OrgsSince(Elements(log), d, FromUnix(since)) ensures org in Sql.Orgs(rows, d, since) {
      var rep :| rep in Elements(log) && rep.domain == d && rep.end >= FromUnix(since) && rep.org == org;
      var i :| 0 <= i < |log| && log[i] == rep;
      assert rows[i].domain == d && rows[i].endAt >= since && rows[i].org == org;
    }
    forall org | org in Sql.Orgs(rows, d, since) ensures org in OrgsSince(Elements(log), d, FromUnix(since)) {
      var i :| 0 <= i < |rows| && rows[i].domain == d && rows[i].endAt >= since && rows[i].org == org;
      assert log[i] in Elements(log);
    }
  }

  /** What the queries return summarises the log with both windows opened at the start of
      the second they fall into, once instants before Go's zero time are raised to it;
      as returned, its instants are true maxima. */
  lemma AnswerSummarises(ov: Overview, log: seq<Report>, d: string, now: int)
    requires DistinctTriples(log) && AllStorable(log) && Sql.Answer(ov, DbOf(log), d, now)
    ensures Summarises(Raised(ov), Elements(log), d, Floor(now - WINDOW_LONG), Floor(now - WINDOW_RECENT))
    ensures Dated(ov, Elements(log), d, Floor(now - WINDOW_LONG))
  {
    var reps, long, recent := Elements(log), Unix(now - WINDOW_LONG), Unix(now - WINDOW_RECENT);
    AnsweredHistory(ov, log, d);
    RaisedHistory(ov, reps, d);
    AnsweredOrgs(log, d, long);
    LogSum(log, Messages(d, long));
    LogSum(log, AlignedMessages(d, long));
    LogSum(log, Messages(d, recent));
    LogSum(log, AlignedMessages(d, recent));
    if ov.hasData {
      AnsweredSources(ov.sources, log, d, long);
      RaisedIPs(ov.sources);
    } else {
      QuietDomain(reps, d, FromUnix(long));
      QuietDomain(reps, d, FromUnix(recent));
    }
    hide *;
    Composed(ov, reps, d, FromUnix(long), FromUnix(recent));
  }

  /** The parts of an answer make up a summary. */
  lemma Composed(ov: Overview, reps: set<Report>, d: string, long: int, recent: int)
    requires ov.hasData <==> Watched(reps, d)
    requires if ov.hasData then IsFirstSeen(ov.firstSeen, reps, d) else ov == EmptyOverview
    requires ov.hasData ==> IsNewest(ov.lastEnd, reps, d) && PolicyOf(ov, reps, d)
    requires Mem.History(Raised(ov), reps, d)
    requires ov.orgs30 == |OrgsSince(reps, d, long)|
    requires ov.msgs30 == Total(reps, Messages(d, long)) && ov.aligned30 == Total(reps, AlignedMessages(d, long))
    requires ov.msgs7 == Total(reps, Messages(d, recent)) && ov.aligned7 == Total(reps, AlignedMessages(d, recent))
    requires AreSources(RaisedSources(ov.sources), reps, d, long)
    requires forall i :: 0 <= i < |ov.sources| ==> IsLatest(ov.sources[i].lastSeen, reps, d, long, ov.sources[i].ip)
    ensures Summarises(Raised(ov), reps, d, long, recent) && Dated(ov, reps, d, long)
  {
    RaisedIPs(ov.sources);
    assert forall ip :: ip in SourceIPs(RaisedSources(ov.sources)) <==> Active(reps, d, long, ip);
    hide RaisedSources, AreSources, IsLatest, IsNewest, PolicyOf, IsFirstSeen, IsLastEnd, IsPolicy, Total,
         OrgsSince, Active, SourceIPs, Watched;
  }

  lemma QuietDomain(reps: set<Report>, d: string, since: int)
    requires !Watched(reps, d)
    ensures Total(reps, Messages(d, since)) == 0 && Total(reps, AlignedMessages(d, since)) == 0
    ensures OrgsSince(reps, d, since) == {}
    ensures AreSources([], reps, d, since)
  {
    SumZero(reps, VolumeOf(Messages(d, since)));
    SumZero(reps, VolumeOf(AlignedMessages(d, since)));
  }
}
