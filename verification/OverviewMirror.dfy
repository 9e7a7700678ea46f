/** Exactly when the overviews of the two stores are the same. */
module OverviewMirror {
  import opened Base
  import opened Sums
  import opened Reports
  import opened Overviews
  import opened ReportAgreement
  import opened OverviewAgreement
  import Mem = ReportMemStore
  import Sql = ReportSqlStore

  // ---- results as the queries read them ------------------------------------------------

  /** A pass spelt with a long s is no pass to the queries. */
  function Read(r: Record): Record
  {
    if PlainResults(r) then r else r.(evalDKIM := "fail", evalSPF := "fail")
  }

  function ReadRecords(records: seq<Record>): seq<Record>
  {
    seq(|records|, i requires 0 <= i < |records| => Read(records[i]))
  }

  function ReadReport(rep: Report): Report { rep.(records := ReadRecords(rep.records)) }

  function ReadLog(log: seq<Report>): seq<Report>
  {
    seq(|log|, i requires 0 <= i < |log| => ReadReport(log[i]))
  }

  function ReadSet(reps: set<Report>): set<Report> { set r | r in reps :: ReadReport(r) }

  lemma ReadIsPlain(r: Record)
    ensures PlainResults(Read(r)) && Read(r).sourceIP == r.sourceIP && Read(r).count == r.count
    ensures ExactlyAligned(Read(r).evalDKIM, Read(r).evalSPF) <==> ExactlyAligned(r.evalDKIM, r.evalSPF)
    ensures GoodRow(r) ==> GoodRow(Read(r))
  {
    assert "fail"[0] == 'f' && "pass"[0] == 'p';
  }

  lemma ReadStorable(rep: Report)
    requires WellFormed(rep)
    ensures Storable(ReadReport(rep))
  {
    var read := ReadReport(rep).records;
    forall i | 0 <= i < |read| ensures PlainResults(read[i]) && GoodRow(read[i]) {
      ReadIsPlain(rep.records[i]);
    }
    hide PlainResults, GoodRow, Read;
  }

  predicate AlikeRow(a: Sql.RecordRow, b: Sql.RecordRow)
  {
    && a.domain == b.domain && a.sourceIP == b.sourceIP && a.cnt == b.cnt
    && a.endAt == b.endAt && a.beginAt == b.beginAt
    && (ExactlyAligned(a.evalDKIM, a.evalSPF) <==> ExactlyAligned(b.evalDKIM, b.evalSPF))
  }

  predicate Alike(a: seq<Sql.RecordRow>, b: seq<Sql.RecordRow>)
  {
    |a| == |b| && forall i :: 0 <= i < |a| ==> AlikeRow(a[i], b[i])
  }

  lemma {:induction false} SumCntAlike(a: seq<Sql.RecordRow>, b: seq<Sql.RecordRow>, q: Query)
    requires Alike(a, b)
    ensures Sql.SumCnt(a, q) == Sql.SumCnt(b, q)
  {
    if a != [] {
      var n := |a| - 1;
      SumCntAlike(a[..n], b[..n], q);
      assert AlikeRow(a[n], b[n]);
    }
  }

  lemma {:induction false} DatesAlike(a: seq<Sql.RecordRow>, b: seq<Sql.RecordRow>, d: string, since: int, ip: string)
    requires Alike(a, b)
    ensures Sql.FirstEver(a, d, ip) == Sql.FirstEver(b, d, ip)
    ensures Sql.LastSeen(a, d, since, ip) == Sql.LastSeen(b, d, since, ip)
  {
    if a != [] {
      var n := |a| - 1;
      DatesAlike(a[..n], b[..n], d, since, ip);
      assert AlikeRow(a[n], b[n]);
    }
  }

  lemma GroupsAlike(a: seq<Sql.RecordRow>, b: seq<Sql.RecordRow>, d: string, since: int)
    requires Alike(a, b)
    ensures Sql.Groups(a, d, since) == Sql.Groups(b, d, since)
  {
    assert forall i :: 0 <= i < |a| ==> AlikeRow(a[i], b[i]);
    hide ExactlyAligned;
  }

  lemma JoinedAlike(a: seq<Sql.RecordRow>, b: seq<Sql.RecordRow>, d: string, since: int, ip: string)
    requires Alike(a, b)
    ensures Sql.Joined(a, d, since, ip) == Sql.Joined(b, d, since, ip)
  {
    SumCntAlike(a, b, FromIP(d, since, ip, AnyOutcome));
    SumCntAlike(a, b, FromIP(d, since, ip, Passing));
    SumCntAlike(a, b, FromIP(d, since, ip, Failing));
    DatesAlike(a, b, d, since, ip);
    hide Alike, Sql.SumCnt, Sql.FirstEver, Sql.LastSeen;
  }

  lemma {:induction false} ReadDb(log: seq<Report>)
    ensures DbOf(ReadLog(log)).reports == DbOf(log).reports
    ensures Alike(DbOf(log).rows, DbOf(ReadLog(log)).rows)
  {
    if log != [] {
      var n := |log| - 1;
      ReadDb(log[..n]);
      assert ReadLog(log)[..n] == ReadLog(log[..n]);
      RowsRead(log[n]);
      hide Alike, Sql.RowsOf;
      AlikeJoin(DbOf(log[..n]).rows, DbOf(ReadLog(log[..n])).rows, Sql.RowsOf(log[n]), Sql.RowsOf(ReadReport(log[n])));
    }
  }

  lemma AlikeJoin(a: seq<Sql.RecordRow>, b: seq<Sql.RecordRow>, c: seq<Sql.RecordRow>, e: seq<Sql.RecordRow>)
    requires Alike(a, b) && Alike(c, e)
    ensures Alike(a + c, b + e)
  {
    hide AlikeRow;
  }

  lemma RowsRead(rep: Report)
    ensures Alike(Sql.RowsOf(rep), Sql.RowsOf(ReadReport(rep)))
  {
    forall i | 0 <= i < |rep.records| ensures AlikeRow(Sql.RowsOf(rep)[i], Sql.RowsOf(ReadReport(rep))[i]) {
      ReadIsPlain(rep.records[i]);
    }
  }

  lemma AnswerRead(ov: Overview, log: seq<Report>, d: string, now: int)
    requires Sql.Answer(ov, DbOf(log), d, now)
    ensures Sql.Answer(ov, DbOf(ReadLog(log)), d, now)
  {
    var rows, read := DbOf(log).rows, DbOf(ReadLog(log)).rows;
    var long, recent := Unix(now - WINDOW_LONG), Unix(now - WINDOW_RECENT);
    ReadDb(log);
    SumCntAlike(rows, read, Messages(d, long));
    SumCntAlike(rows, read, AlignedMessages(d, long));
    SumCntAlike(rows, read, Messages(d, recent));
    SumCntAlike(rows, read, AlignedMessages(d, recent));
    GroupsAlike(rows, read, d, long);
    forall ip ensures Sql.Joined(rows, d, long, ip) == Sql.Joined(read, d, long, ip) {
      JoinedAlike(rows, read, d, long, ip);
    }
    hide Alike, DbOf, Sql.Joined, Sql.SumCnt, Sql.HistoryAnswer, Sql.Groups;
  }

  // ---- sums over reports as read ---------------------------------------------------------

  ghost predicate OnePerTriple(reps: set<Report>)
  {
    forall r, s :: r in reps && s in reps && Identity(r) == Identity(s) ==> r == s
  }

  function ReadVolume(q: Query): Report -> int { r => ReportVolume(ReadReport(r), q) }

  lemma ReadInjective(reps: set<Report>)
    requires OnePerTriple(reps)
    ensures forall r, s :: r in reps && s in reps && ReadReport(r) == ReadReport(s) ==> r == s
  {
    forall r, s | r in reps && s in reps && ReadReport(r) == ReadReport(s) ensures r == s {
      assert Identity(ReadReport(r)) == Identity(r) && Identity(ReadReport(s)) == Identity(s);
    }
  }

  lemma ReadTotal(reps: set<Report>, q: Query)
    requires OnePerTriple(reps)
    ensures Total(ReadSet(reps), q) == SetSum(reps, ReadVolume(q))
  {
    ReadInjective(reps);
    hide OnePerTriple, ReadReport, ReportVolume;
    SumImage(reps, ReadSet(reps), ReadReport, VolumeOf(q), ReadVolume(q));
  }

  /** A record of the domain in the window passes only by a long s. */
  ghost predicate Misspelt(reps: set<Report>, d: string, since: int)
  {
    exists r :: r in reps && r.domain == d && r.end >= since && OddRecord(r)
  }

  predicate OddRecord(r: Report) { exists i :: 0 <= i < |r.records| && !PlainResults(r.records[i]) }

  lemma {:induction false} VolumeRead(records: seq<Record>, sel: Selection)
    requires sel.outcome == AnyOutcome || forall i :: 0 <= i < |records| ==> PlainResults(records[i])
    ensures Volume(ReadRecords(records), sel) == Volume(records, sel)
  {
    if records != [] {
      var n := |records| - 1;
      VolumeRead(records[..n], sel);
      assert ReadRecords(records)[..n] == ReadRecords(records[..n]);
      ReadIsPlain(records[n]);
      hide PlainResults, Aligned, FailsBoth, ReadRecords;
    }
  }

  lemma OddPasses(r: Record)
    requires GoodRow(r) && !PlainResults(r)
    ensures Aligned(r) && !Aligned(Read(r))
  {
    AlignmentAgrees(r);
    ReadIsPlain(r);
    AlignmentAgrees(Read(r));
  }

  /** Reading loses exactly the passes spelt with a long s. */
  lemma {:induction false} PassesRead(records: seq<Record>)
    requires forall i :: 0 <= i < |records| ==> GoodRow(records[i])
    ensures Volume(ReadRecords(records), All(Passing)) <= Volume(records, All(Passing))
    ensures (exists i :: 0 <= i < |records| && !PlainResults(records[i])) ==>
              Volume(ReadRecords(records), All(Passing)) < Volume(records, All(Passing))
  {
    if records != [] {
      var n := |records| - 1;
      PassesRead(records[..n]);
      assert ReadRecords(records)[..n] == ReadRecords(records[..n]) && ReadRecords(records)[n] == Read(records[n]);
      assert GoodRow(records[n]);
      PassesStep(records[n]);
      assert forall i :: 0 <= i < n ==> records[..n][i] == records[i];
      hide PlainResults, Selects, ReadRecords, Read, GoodRow;
    }
  }

  lemma PassesStep(r: Record)
    requires GoodRow(r)
    ensures Read(r).count == r.count >= 1
    ensures Selects(All(Passing), Read(r)) ==> Selects(All(Passing), r)
    ensures !PlainResults(r) ==> Selects(All(Passing), r) && !Selects(All(Passing), Read(r))
  {
    ReadIsPlain(r);
    if !PlainResults(r) { OddPasses(r); }
    hide PlainResults, Aligned;
  }

  lemma MessagesRead(reps: set<Report>, d: string, since: int)
    requires OnePerTriple(reps)
    ensures Total(ReadSet(reps), Messages(d, since)) == Total(reps, Messages(d, since))
  {
    var q := Messages(d, since);
    ReadTotal(reps, q);
    forall r | r in reps ensures ReadVolume(q)(r) == VolumeOf(q)(r) {
      VolumeRead(r.records, q.sel);
    }
    SumCongruence(reps, ReadVolume(q), VolumeOf(q));
  }

  lemma PlainTotal(reps: set<Report>, q: Query)
    requires OnePerTriple(reps) && !Misspelt(reps, q.domain, q.since)
    ensures Total(ReadSet(reps), q) == Total(reps, q)
  {
    ReadTotal(reps, q);
    forall r | r in reps ensures ReadVolume(q)(r) == VolumeOf(q)(r) {
      if r.domain == q.domain && r.end >= q.since {
        assert !OddRecord(r);
        VolumeRead(r.records, q.sel);
      }
    }
    SumCongruence(reps, ReadVolume(q), VolumeOf(q));
  }

  lemma MisspeltSkews(reps: set<Report>, d: string, since: int)
    requires OnePerTriple(reps) && (forall r :: r in reps ==> WellFormed(r)) && Misspelt(reps, d, since)
    ensures Total(ReadSet(reps), AlignedMessages(d, since)) < Total(reps, AlignedMessages(d, since))
  {
    var q := AlignedMessages(d, since);
    ReadTotal(reps, q);
    var f, g := ReadVolume(q), VolumeOf(q);
    forall r | r in reps ensures f(r) <= g(r) && (r.domain == d && r.end >= since && OddRecord(r) ==> f(r) < g(r)) {
      PassesRead(r.records);
    }
    var odd :| odd in reps && odd.domain == d && odd.end >= since && OddRecord(odd);
    hide ReadVolume, VolumeOf, ReadSet, WellFormed, OddRecord;
    SumRemove(reps, odd, f);
    SumRemove(reps, odd, g);
    SumMonotone(reps - {odd}, f, g);
  }

  // ---- what reading leaves alone -----------------------------------------------------------

  lemma SendsRead(r: Report, d: string, ip: string)
    ensures Sends(ReadReport(r), d, ip) <==> Sends(r, d, ip)
  {
    var read := ReadReport(r).records;
    assert forall i :: 0 <= i < |read| ==> read[i].sourceIP == r.records[i].sourceIP;
    assert IPs(read) == IPs(r.records);
  }

  /** Every report has its reading and every reading its report, with the same dates and sources. */
  ghost predicate Paired(reps: set<Report>, read: set<Report>, d: string, ip: string)
  {
    && (forall r :: r in reps ==> ReadReport(r) in read)
    && (forall x :: x in read ==> exists r :: r in reps && x == ReadReport(r))
    && (forall r :: r in reps ==> (Sends(ReadReport(r), d, ip) <==> Sends(r, d, ip)))
  }

  lemma PairedRead(reps: set<Report>, d: string, ip: string)
    ensures Paired(reps, ReadSet(reps), d, ip)
  {
    forall r | r in reps ensures Sends(ReadReport(r), d, ip) <==> Sends(r, d, ip) {
      SendsRead(r, d, ip);
    }
  }

  lemma FirstDatesRead(reps: set<Report>, read: set<Report>, d: string, since: int, ip: string, t: int)
    requires Paired(reps, read, d, ip)
    ensures Active(read, d, since, ip) <==> Active(reps, d, since, ip)
    ensures IsFirstEver(t, read, d, ip) <==> IsFirstEver(t, reps, d, ip)
  {
    hide Sends, ReadRecords;
  }

  lemma LastDatesRead(reps: set<Report>, read: set<Report>, d: string, since: int, ip: string, t: int)
    requires Paired(reps, read, d, ip)
    ensures IsLatest(t, read, d, since, ip) <==> IsLatest(t, reps, d, since, ip)
    ensures IsLastSeen(t, read, d, since, ip) <==> IsLastSeen(t, reps, d, since, ip)
  {
    hide Sends, ReadRecords;
    assert IsLastSeen(t, read, d, since, ip) <==>
             t >= ZERO_TIME && (forall r :: r in read && Sends(r, d, ip) && r.end >= since ==> r.end <= t)
             && (t == ZERO_TIME || IsLatest(t, read, d, since, ip));
    assert IsLastSeen(t, reps, d, since, ip) <==>
             t >= ZERO_TIME && (forall r :: r in reps && Sends(r, d, ip) && r.end >= since ==> r.end <= t)
             && (t == ZERO_TIME || IsLatest(t, reps, d, since, ip));
  }

  /** The domain's history and the dates of its sources do not depend on results. */
  lemma DatesRead(reps: set<Report>, d: string, since: int, ip: string, t: int)
    ensures Active(ReadSet(reps), d, since, ip) <==> Active(reps, d, since, ip)
    ensures IsFirstEver(t, ReadSet(reps), d, ip) <==> IsFirstEver(t, reps, d, ip)
    ensures IsLastSeen(t, ReadSet(reps), d, since, ip) <==> IsLastSeen(t, reps, d, since, ip)
    ensures IsLatest(t, ReadSet(reps), d, since, ip) <==> IsLatest(t, reps, d, since, ip)
  {
    hide *;
    PairedRead(reps, d, ip);
    FirstDatesRead(reps, ReadSet(reps), d, since, ip, t);
    LastDatesRead(reps, ReadSet(reps), d, since, ip, t);
  }

  lemma HistoryRead(reps: set<Report>, d: string, t: int, policy: string, pct: int)
    ensures Watched(ReadSet(reps), d) <==> Watched(reps, d)
    ensures IsFirstSeen(t, ReadSet(reps), d) <==> IsFirstSeen(t, reps, d)
    ensures IsLastEnd(t, ReadSet(reps), d) <==> IsLastEnd(t, reps, d)
    ensures IsNewest(t, ReadSet(reps), d) <==> IsNewest(t, reps, d)
    ensures IsPolicy(policy, pct, t, ReadSet(reps), d) <==> IsPolicy(policy, pct, t, reps, d)
  {
    assert forall r :: r in reps ==> ReadReport(r) in ReadSet(reps);
    hide ReadRecords;
  }

  lemma OrgsRead(reps: set<Report>, d: string, since: int)
    ensures OrgsSince(ReadSet(reps), d, since) == OrgsSince(reps, d, since)
  {
    assert forall r :: r in reps ==> ReadReport(r) in ReadSet(reps);
    hide ReadRecords;
  }

  lemma SourcesRead(sources: seq<SourceStat>, reps: set<Report>, d: string, since: int)
    requires OnePerTriple(reps) && !Misspelt(reps, d, since) && AreSources(sources, ReadSet(reps), d, since)
    ensures AreSources(sources, reps, d, since)
  {
    forall ip ensures Active(ReadSet(reps), d, since, ip) <==> Active(reps, d, since, ip) {
      DatesRead(reps, d, since, ip, 0);
    }
    forall i | 0 <= i < |sources|
      ensures IsCounted(sources[i], reps, d, since, sources[i].ip)
      ensures IsFirstEver(sources[i].firstEver, reps, d, sources[i].ip)
    {
      var s := sources[i];
      DatesRead(reps, d, since, s.ip, s.firstEver);
      DatesRead(reps, d, since, s.ip, s.lastSeen);
      PlainTotal(reps, FromIP(d, since, s.ip, AnyOutcome));
      PlainTotal(reps, FromIP(d, since, s.ip, Passing));
      PlainTotal(reps, FromIP(d, since, s.ip, Failing));
    }
    hide Active, IsCounted, IsFirstEver, ReadSet, Misspelt;
  }

  lemma SummarisesRead(ov: Overview, reps: set<Report>, d: string, long: int, recent: int)
    requires OnePerTriple(reps) && !Misspelt(reps, d, long) && long <= recent
    requires Summarises(ov, ReadSet(reps), d, long, recent)
    ensures Summarises(ov, reps, d, long, recent)
  {
    HistoryRead(reps, d, ov.firstSeen, ov.policy, ov.pct);
    HistoryRead(reps, d, ov.lastEnd, ov.policy, ov.pct);
    OrgsRead(reps, d, long);
    assert !Misspelt(reps, d, recent);
    PlainTotal(reps, Messages(d, long));
    PlainTotal(reps, AlignedMessages(d, long));
    PlainTotal(reps, Messages(d, recent));
    PlainTotal(reps, AlignedMessages(d, recent));
    SourcesRead(ov.sources, reps, d, long);
    hide Total, ReadSet, AreSources, OrgsSince, IsFirstSeen, IsLastEnd, IsPolicy, Watched, Misspelt, OnePerTriple;
  }

  // ---- windows ---------------------------------------------------------------------------

  /** A report of the domain ends inside the second a window opens in, before it opens. */
  ghost predicate OnEdge(reps: set<Report>, d: string, opens: int)
  {
    exists r :: r in reps && r.domain == d && Floor(opens) <= r.end < opens
  }

  /** Two window starts that no report of the domain falls between. */
  ghost predicate SameWindow(reps: set<Report>, d: string, s: int, t: int)
  {
    forall r :: r in reps && r.domain == d ==> (r.end >= s <==> r.end >= t)
  }

  lemma TotalSameWindow(reps: set<Report>, d: string, s: int, t: int, sel: Selection)
    requires SameWindow(reps, d, s, t)
    ensures Total(reps, Query(d, s, sel)) == Total(reps, Query(d, t, sel))
  {
    SumCongruence(reps, VolumeOf(Query(d, s, sel)), VolumeOf(Query(d, t, sel)));
  }

  lemma SourcesSameWindow(sources: seq<SourceStat>, reps: set<Report>, d: string, s: int, t: int)
    requires SameWindow(reps, d, s, t) && AreSources(sources, reps, d, s)
    ensures AreSources(sources, reps, d, t)
  {
    forall ip ensures Active(reps, d, s, ip) <==> Active(reps, d, t, ip) {}
    forall i | 0 <= i < |sources| ensures IsCounted(sources[i], reps, d, t, sources[i].ip) {
      TotalSameWindow(reps, d, s, t, Only(sources[i].ip, AnyOutcome));
      TotalSameWindow(reps, d, s, t, Only(sources[i].ip, Passing));
      TotalSameWindow(reps, d, s, t, Only(sources[i].ip, Failing));
    }
  }

  lemma SummarisesSameWindow(ov: Overview, reps: set<Report>, d: string, s: int, s': int, t: int, t': int)
    requires SameWindow(reps, d, s, s') && SameWindow(reps, d, t, t') && Summarises(ov, reps, d, s, t)
    ensures Summarises(ov, reps, d, s', t')
  {
    TotalSameWindow(reps, d, s, s', All(AnyOutcome));
    TotalSameWindow(reps, d, s, s', All(Passing));
    TotalSameWindow(reps, d, t, t', All(AnyOutcome));
    TotalSameWindow(reps, d, t, t', All(Passing));
    assert OrgsSince(reps, d, s) == OrgsSince(reps, d, s');
    SourcesSameWindow(ov.sources, reps, d, s, s');
  }

  lemma {:induction false} VolumePositive(records: seq<Record>)
    requires forall i :: 0 <= i < |records| ==> records[i].count >= 1
    ensures Volume(records, All(AnyOutcome)) >= |records|
  {
    if records != [] {
      VolumePositive(records[..|records| - 1]);
    }
  }

  /** A report on the edge is counted by one window start and not by the other. */
  lemma EdgeSkews(reps: set<Report>, d: string, opens: int)
    requires (forall r :: r in reps ==> WellFormed(r)) && OnEdge(reps, d, opens)
    ensures Total(reps, Messages(d, Floor(opens))) > Total(reps, Messages(d, opens))
  {
    var f, g := VolumeOf(Messages(d, opens)), VolumeOf(Messages(d, Floor(opens)));
    var r :| r in reps && r.domain == d && Floor(opens) <= r.end < opens;
    UnixRounds(Unix(opens), opens);
    forall x | x in reps ensures f(x) <= g(x) {
      VolumePositive(x.records);
    }
    VolumePositive(r.records);
    assert f(r) < g(r);
    SumRemove(reps, r, f);
    SumRemove(reps, r, g);
    SumMonotone(reps - {r}, f, g);
  }

  lemma NoEdgeSameWindow(reps: set<Report>, d: string, opens: int)
    requires !OnEdge(reps, d, opens)
    ensures SameWindow(reps, d, Floor(opens), opens)
  {
  }

  // ---- reports from before the zero time ----------------------------------------------------

  /** Every report of the domain ended before Go's zero time. */
  ghost predicate AncientDomain(reps: set<Report>, d: string)
  {
    Watched(reps, d) && forall r :: r in reps && r.domain == d ==> r.end < ZERO_TIME
  }

  /** So did every report of some source that the window counts. */
  ghost predicate AncientSource(reps: set<Report>, d: string, since: int)
  {
    exists ip :: Active(reps, d, since, ip) && AllAncient(reps, d, since, ip)
  }

  ghost predicate AllAncient(reps: set<Report>, d: string, since: int, ip: string)
  {
    forall r :: r in reps && Sends(r, d, ip) && r.end >= since ==> r.end < ZERO_TIME
  }

  predicate NotBeforeZero(ov: Overview)
  {
    ov.lastEnd >= ZERO_TIME && forall i :: 0 <= i < |ov.sources| ==> ov.sources[i].lastSeen >= ZERO_TIME
  }

  lemma RaisedFigures(a: Overview, b: Overview)
    requires NotBeforeZero(a)
    ensures SameFigures(a, b) <==> SameFigures(a, Raised(b)) && NotBeforeZero(b)
  {
    if NotBeforeZero(b) {
      assert RaisedSources(b.sources) == b.sources;
    }
    if SameFigures(a, b) {
      forall i | 0 <= i < |b.sources| ensures b.sources[i].lastSeen >= ZERO_TIME {
        assert b.sources[i] in a.sources;
      }
    }
    hide RaisedSources;
  }

  lemma BeforeZero(ov: Overview, reps: set<Report>, d: string, since: int)
    requires Dated(ov, reps, d, since)
    ensures NotBeforeZero(ov) <==> !AncientDomain(reps, d) && !AncientSource(reps, d, since)
  {
    assert ov.lastEnd >= ZERO_TIME <==> !AncientDomain(reps, d);
    if AncientSource(reps, d, since) {
      var ip :| Active(reps, d, since, ip) && AllAncient(reps, d, since, ip);
      assert ip in SourceIPs(ov.sources);
      var i :| 0 <= i < |ov.sources| && ov.sources[i].ip == ip;
      assert IsLatest(ov.sources[i].lastSeen, reps, d, since, ip);
    } else {
      forall i | 0 <= i < |ov.sources| ensures ov.sources[i].lastSeen >= ZERO_TIME {
        assert ov.sources[i].ip in SourceIPs(ov.sources);
        assert IsLatest(ov.sources[i].lastSeen, reps, d, since, ov.sources[i].ip);
      }
    }
  }

  lemma SummaryNotBeforeZero(ov: Overview, reps: set<Report>, d: string, long: int, recent: int)
    requires Summarises(ov, reps, d, long, recent)
    ensures NotBeforeZero(ov)
  {
    forall i | 0 <= i < |ov.sources| ensures ov.sources[i].lastSeen >= ZERO_TIME {
      assert IsCounted(ov.sources[i], reps, d, long, ov.sources[i].ip);
    }
  }

  lemma DatedRead(ov: Overview, reps: set<Report>, d: string, since: int)
    requires Dated(ov, ReadSet(reps), d, since)
    ensures Dated(ov, reps, d, since)
  {
    HistoryRead(reps, d, ov.lastEnd, ov.policy, ov.pct);
    forall ip ensures Active(ReadSet(reps), d, since, ip) <==> Active(reps, d, since, ip) {
      DatesRead(reps, d, since, ip, 0);
    }
    forall i | 0 <= i < |ov.sources| ensures IsLatest(ov.sources[i].lastSeen, reps, d, since, ov.sources[i].ip) {
      DatesRead(reps, d, since, ov.sources[i].ip, ov.sources[i].lastSeen);
    }
    if ov.hasData {
      var x :| x in ReadSet(reps) && x.domain == d && x.end == ov.lastEnd && x.policy == ov.policy && x.pct == ov.pct;
      var r :| r in reps && x == ReadReport(r);
      assert PolicyOf(ov, reps, d);
    }
    hide Active, IsLatest, IsNewest, Watched;
  }

  lemma SameAncient(reps: set<Report>, d: string, s: int, t: int)
    requires SameWindow(reps, d, s, t)
    ensures AncientSource(reps, d, s) <==> AncientSource(reps, d, t)
    ensures Misspelt(reps, d, s) <==> Misspelt(reps, d, t)
  {
    forall ip ensures Active(reps, d, s, ip) <==> Active(reps, d, t, ip) {}
    hide OddRecord;
  }

  // ---- the overviews agree, and exactly when -------------------------------------------

  /** Nothing stored about the domain tells the two overviews apart at `now`. */
  ghost predicate Comparable(reps: set<Report>, d: string, now: int)
  {
    && !OnEdge(reps, d, now - WINDOW_LONG) && !OnEdge(reps, d, now - WINDOW_RECENT)
    && !Misspelt(reps, d, now - WINDOW_LONG)
    && !AncientDomain(reps, d) && !AncientSource(reps, d, now - WINDOW_LONG)
  }

  /** The newest report ended exactly at the zero time, where the fold never reads its policy. */
  ghost predicate PolicyUnread(reps: set<Report>, d: string)
  {
    && (forall r :: r in reps && r.domain == d ==> r.end <= ZERO_TIME)
    && (exists r :: r in reps && r.domain == d && r.end == ZERO_TIME && (r.policy != "" || r.pct != 0))
  }

  ghost predicate Agree(reps: set<Report>, d: string, now: int, a: Overview, b: Overview)
  {
    && (SameFigures(a, b) <==> Comparable(reps, d, now))
    && (SameFigures(a, b) && UniqueLatest(reps, d) ==>
          (a.policy == b.policy && a.pct == b.pct <==> !PolicyUnread(reps, d)))
  }

  /** The fold and the answer of the queries over the same reports. */
  ghost predicate Both(a: Overview, b: Overview, reps: set<Report>, d: string, long: int, recent: int)
  {
    && OnePerTriple(reps) && (forall r :: r in reps ==> WellFormed(r))
    && Summarises(a, reps, d, long, recent)
    && Summarises(Raised(b), ReadSet(reps), d, Floor(long), Floor(recent))
    && Dated(b, reps, d, Floor(long))
  }

  lemma Skews(a: Overview, b: Overview, reps: set<Report>, d: string, long: int, recent: int)
    requires Both(a, b, reps, d, long, recent)
    requires OnEdge(reps, d, long) || OnEdge(reps, d, recent)
             || (Misspelt(reps, d, Floor(long)) && SameWindow(reps, d, Floor(long), long))
    ensures !SameFigures(a, b)
  {
    MessagesRead(reps, d, Floor(long));
    MessagesRead(reps, d, Floor(recent));
    hide SameWindow, Misspelt, Summarises, ReadSet, OnEdge, Dated;
    SkewFigures(a, b, reps, d, long, recent);
    if OnEdge(reps, d, long) {
      EdgeSkews(reps, d, long);
    } else if OnEdge(reps, d, recent) {
      EdgeSkews(reps, d, recent);
    } else {
      TotalSameWindow(reps, d, Floor(long), long, All(Passing));
      MisspeltSkews(reps, d, Floor(long));
    }
  }

  lemma SkewFigures(a: Overview, b: Overview, reps: set<Report>, d: string, long: int, recent: int)
    requires Summarises(a, reps, d, long, recent) && Summarises(Raised(b), ReadSet(reps), d, Floor(long), Floor(recent))
    ensures a.msgs30 == Total(reps, Messages(d, long)) && b.msgs30 == Total(ReadSet(reps), Messages(d, Floor(long)))
    ensures a.msgs7 == Total(reps, Messages(d, recent)) && b.msgs7 == Total(ReadSet(reps), Messages(d, Floor(recent)))
    ensures a.aligned30 == Total(reps, AlignedMessages(d, long))
    ensures b.aligned30 == Total(ReadSet(reps), AlignedMessages(d, Floor(long)))
  {
    hide Total, ReadSet, RaisedSources, AreSources, IsFirstSeen, IsLastEnd, IsPolicy, OrgsSince, Watched;
  }

  lemma FiguresMirror(a: Overview, b: Overview, reps: set<Report>, d: string, now: int)
    requires Both(a, b, reps, d, now - WINDOW_LONG, now - WINDOW_RECENT)
    ensures SameFigures(a, b) <==> Comparable(reps, d, now)
  {
    var long, recent := now - WINDOW_LONG, now - WINDOW_RECENT;
    SummaryNotBeforeZero(a, reps, d, long, recent);
    RaisedFigures(a, b);
    BeforeZero(b, reps, d, Floor(long));
    hide SameFigures, Summarises, Raised, ReadSet, Dated, AncientDomain, AncientSource, OnePerTriple, NotBeforeZero,
         OnEdge, Misspelt, SameWindow;
    if OnEdge(reps, d, long) || OnEdge(reps, d, recent) {
      Skews(a, b, reps, d, long, recent);
    } else {
      NoEdgeSameWindow(reps, d, long);
      NoEdgeSameWindow(reps, d, recent);
      SameAncient(reps, d, Floor(long), long);
      if Misspelt(reps, d, Floor(long)) {
        Skews(a, b, reps, d, long, recent);
      } else {
        SummarisesRead(Raised(b), reps, d, Floor(long), Floor(recent));
        SummarisesSameWindow(Raised(b), reps, d, Floor(long), long, Floor(recent), recent);
        OverviewDetermined(a, Raised(b), reps, d, long, recent);
      }
    }
  }

  lemma PolicyChoice(reps: set<Report>, d: string, r: Report, policy: string, pct: int)
    requires UniqueLatest(reps, d) && IsNewest(r.end, reps, d) && r in reps && r.domain == d
    requires r.end >= ZERO_TIME && IsPolicy(policy, pct, r.end, reps, d)
    ensures policy == r.policy && pct == r.pct <==> !PolicyUnread(reps, d)
  {
    hide UniqueLatest;
    if r.end > ZERO_TIME {
      var q :| q in reps && q.domain == d && q.end == r.end && q.policy == policy && q.pct == pct;
      LatestAgree(reps, d, r, q);
    } else if PolicyUnread(reps, d) {
      var q :| q in reps && q.domain == d && q.end == ZERO_TIME && (q.policy != "" || q.pct != 0);
      LatestAgree(reps, d, r, q);
    }
  }

  lemma LatestAgree(reps: set<Report>, d: string, r: Report, q: Report)
    requires UniqueLatest(reps, d) && IsNewest(r.end, reps, d)
    requires r in reps && q in reps && r.domain == d && q.domain == d && q.end == r.end
    ensures q.policy == r.policy && q.pct == r.pct
  {
  }

  lemma PoliciesMirror(a: Overview, b: Overview, reps: set<Report>, d: string, long: int, recent: int, since: int)
    requires Summarises(a, reps, d, long, recent) && Dated(b, reps, d, since)
    requires SameFigures(a, b) && UniqueLatest(reps, d)
    ensures a.policy == b.policy && a.pct == b.pct <==> !PolicyUnread(reps, d)
  {
    hide UniqueLatest, IsPolicy, AreSources, IsLatest, Active, Total;
    if b.hasData {
      assert IsNewest(b.lastEnd, reps, d) && PolicyOf(b, reps, d) && b.lastEnd >= ZERO_TIME;
      assert IsPolicy(a.policy, a.pct, b.lastEnd, reps, d);
      var r :| r in reps && r.domain == d && r.end == b.lastEnd && r.policy == b.policy && r.pct == b.pct;
      hide Summarises, Dated, SameFigures, PolicyUnread, IsNewest, PolicyOf;
      PolicyChoice(reps, d, r, a.policy, a.pct);
    } else {
      NoPolicy(a, reps, d);
    }
  }

  lemma NoPolicy(ov: Overview, reps: set<Report>, d: string)
    requires !Watched(reps, d)
    ensures IsLastEnd(ov.lastEnd, reps, d) && IsPolicy(ov.policy, ov.pct, ov.lastEnd, reps, d) ==>
              ov.policy == "" && ov.pct == 0
    ensures !PolicyUnread(reps, d)
  {
  }

  lemma MirroredOverviews(m: Mem.Table, db: Sql.Db, log: seq<Report>, d: string, now: int, a: Overview, b: Overview)
    requires Mirrored(m, db, log) && forall i :: 0 <= i < |log| ==> WellFormed(log[i])
    requires Summarises(a, m.Values, d, now - WINDOW_LONG, now - WINDOW_RECENT)
    requires Sql.Answer(b, db, d, now)
    ensures Agree(m.Values, d, now, a, b)
  {
    var reps, long, recent := m.Values, now - WINDOW_LONG, now - WINDOW_RECENT;
    KeysGiveTriples(log);
    AnswersRead(log, d, now, b);
    assert OnePerTriple(reps) && forall r :: r in reps ==> WellFormed(r);
    hide Summarises, Sql.Answer, SameFigures, UniqueLatest, Comparable, PolicyUnread, ReadSet, Dated, Raised, Floor,
         Mirrored, OnePerTriple, WellFormed, WINDOW_LONG, WINDOW_RECENT;
    DatedRead(b, reps, d, Floor(long));
    FiguresMirror(a, b, reps, d, now);
    if SameFigures(a, b) && UniqueLatest(reps, d) {
      PoliciesMirror(a, b, reps, d, long, recent, Floor(long));
    }
  }

  lemma AnswersRead(log: seq<Report>, d: string, now: int, b: Overview)
    requires DistinctTriples(log) && (forall i :: 0 <= i < |log| ==> WellFormed(log[i]))
    requires Sql.Answer(b, DbOf(log), d, now)
    ensures var reps := ReadSet(Elements(log));
            && Summarises(Raised(b), reps, d, Floor(now - WINDOW_LONG), Floor(now - WINDOW_RECENT))
            && Dated(b, reps, d, Floor(now - WINDOW_LONG))
  {
    hide Summarises, Dated, Sql.Answer, ReadSet, Raised, Floor, Elements, WellFormed, DistinctTriples, DbOf;
    AnswerRead(b, log, d, now);
    LogRead(log);
    AnswerSummarises(b, ReadLog(log), d, now);
    ReadElements(log);
  }

  lemma LogRead(log: seq<Report>)
    requires DistinctTriples(log) && forall i :: 0 <= i < |log| ==> WellFormed(log[i])
    ensures DistinctTriples(ReadLog(log)) && AllStorable(ReadLog(log))
  {
    var read := ReadLog(log);
    forall i | 0 <= i < |read| ensures Storable(read[i]) && Identity(read[i]) == Identity(log[i]) {
      ReadStorable(log[i]);
    }
    hide Storable, Identity, ReadReport;
  }

  lemma ReadElements(log: seq<Report>)
    ensures Elements(ReadLog(log)) == ReadSet(Elements(log))
  {
    var read := ReadLog(log);
    assert forall i :: 0 <= i < |log| ==> read[i] == ReadReport(log[i]);
    forall x | x in ReadSet(Elements(log)) ensures x in Elements(read) {
      var r :| r in Elements(log) && x == ReadReport(r);
      var i :| 0 <= i < |log| && log[i] == r;
      assert read[i] == x;
    }
    forall x | x in Elements(read) ensures x in ReadSet(Elements(log)) {
      var i :| 0 <= i < |read| && read[i] == x;
      assert log[i] in Elements(log);
    }
  }

  /** After every run that keeps the contents together, over reports as ParseXML makes
      them, the figures of the two stores agree exactly when no report of the domain ends on
      the edge of a window, none in the month passes by a long s, and none of its maxima
      lies before Go's zero time; the policies then agree unless latest reports disagree
      among themselves or the newest ended at the zero time with one. */
  lemma OverviewsMirror(ops: seq<Op>, d: string, now: int, a: Overview, b: Overview)
    requires Guarded(ops) && forall i :: 0 <= i < |ops| && ops[i].PutOp? ==> WellFormed(ops[i].rep)
    requires Summarises(a, MemRun(ops).0.Values, d, now - WINDOW_LONG, now - WINDOW_RECENT)
    requires Sql.Answer(b, SqlRun(ops).0, d, now)
    ensures Agree(MemRun(ops).0.Values, d, now, a, b)
  {
    var log := LogRun(ops);
    forall i | 0 <= i < |log| ensures WellFormed(log[i]) {
      LogFrom(ops, log[i]);
    }
    hide *;
    GuardedRunsMirror(ops);
    MirroredOverviews(MemRun(ops).0, SqlRun(ops).0, log, d, now, a, b);
  }

  lemma NoEdgeOnWholeSeconds(reps: set<Report>, d: string, now: int)
    requires WholeSecond(now)
    ensures !OnEdge(reps, d, now - WINDOW_LONG) && !OnEdge(reps, d, now - WINDOW_RECENT)
  {
  }

  /** On whole seconds, with plain passes and reports from after the zero time, always. */
  lemma OrdinaryAgree(reps: set<Report>, d: string, now: int)
    requires WholeSecond(now)
    requires forall r :: r in reps && r.domain == d ==> r.end > ZERO_TIME && !OddRecord(r)
    ensures Comparable(reps, d, now) && !PolicyUnread(reps, d)
  {
    NoEdgeOnWholeSeconds(reps, d, now);
    hide OnEdge, OddRecord;
  }

  // ---- inputs that tell the stores apart --------------------------------------------------

  /** Half a second is enough: a report ending exactly thirty days before the start of
      the current second is in the SQL window and out of the other. */
  lemma SubSecondSkew(rep: Report, a: Overview, b: Overview)
    requires Storable(rep) && rep.end == FromUnix(1_700_000_000)
    requires var now := rep.end + WINDOW_LONG + 500_000_000;
             && Summarises(a, {rep}, rep.domain, now - WINDOW_LONG, now - WINDOW_RECENT)
             && Sql.Answer(b, DbOf([rep]), rep.domain, now)
    ensures a.msgs30 == 0 < b.msgs30
  {
    var d, now := rep.domain, rep.end + WINDOW_LONG + 500_000_000;
    var long := now - WINDOW_LONG;
    assert Elements([rep]) == {rep} by { assert [rep][0] == rep; }
    assert OnEdge({rep}, d, long) && WellFormed(rep) && ReportVolume(rep, Messages(d, long)) == 0;
    hide *;
    AllStorableOne(rep);
    AnswerSummarises(b, [rep], d, now);
    EdgeSkews({rep}, d, long);
    TotalOne(rep, Messages(d, long));
    MonthOf(a, b, {rep}, d, long, now - WINDOW_RECENT);
  }

  lemma AllStorableOne(rep: Report)
    requires Storable(rep)
    ensures AllStorable([rep]) && DistinctTriples([rep])
  {
  }

  lemma TotalOne(rep: Report, q: Query)
    ensures Total({rep}, q) == ReportVolume(rep, q)
  {
    SumInsert({}, rep, VolumeOf(q));
    assert {} + {rep} == {rep};
  }

  lemma MonthOf(a: Overview, b: Overview, reps: set<Report>, d: string, long: int, recent: int)
    requires Summarises(a, reps, d, long, recent) && Summarises(Raised(b), reps, d, Floor(long), Floor(recent))
    ensures a.msgs30 == Total(reps, Messages(d, long)) && b.msgs30 == Total(reps, Messages(d, Floor(long)))
  {
    hide Total, RaisedSources, AreSources, IsFirstSeen, IsLastEnd, IsPolicy, OrgsSince, Watched;
  }

  /** A report that ended in or before year 1: the fold has no last end or no policy for it,
      the queries have both. */
  lemma AncientSkew(rep: Report, now: int, a: Overview, b: Overview)
    requires Storable(rep) && rep.end <= ZERO_TIME && rep.policy == "reject"
    requires Summarises(a, {rep}, rep.domain, now - WINDOW_LONG, now - WINDOW_RECENT)
    requires Sql.Answer(b, DbOf([rep]), rep.domain, now)
    ensures a.lastEnd == ZERO_TIME && a.policy == "" && b.lastEnd == rep.end && b.policy == "reject"
  {
    assert Elements([rep]) == {rep} by { assert [rep][0] == rep; }
    AnswerSummarises(b, [rep], rep.domain, now);
    assert rep in {rep};
  }
}
