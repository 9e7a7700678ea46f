/** The collector over the SQL store, which is what the program runs: its windows open at
    the start of a second, and its decisions obey the same laws. */
module SqlCollector {
  import opened Base
  import opened Findings
  import opened Reports
  import opened Overviews
  import opened Accounting
  import opened Collector
  import opened ReportAgreement
  import opened OverviewAgreement
  import opened OverviewMirror
  import Sql = ReportSqlStore

  // ---- every state of the SQL store is the table of a log -------------------------------------

  function TriplePut(log: seq<Report>, rep: Report): seq<Report>
  {
    if exists i :: 0 <= i < |log| && Identity(log[i]) == Identity(rep) then log else log + [rep]
  }

  function SqlLog(ops: seq<Op>): seq<Report>
  {
    if ops == [] then []
    else
      var log := SqlLog(ops[..|ops| - 1]);
      match ops[|ops| - 1]
      case PutOp(rep) => TriplePut(log, rep)
      case PruneOp(cut) => LogPrune(log, Floor(cut))
  }

  /** A log the table can hold: one report per key, each as ParseXML makes it. */
  ghost predicate Proper(log: seq<Report>)
  {
    DistinctTriples(log) && forall i :: 0 <= i < |log| ==> WellFormed(log[i])
  }

  lemma ProperPut(log: seq<Report>, rep: Report)
    requires Proper(log) && WellFormed(rep)
    ensures Proper(TriplePut(log, rep)) && Sql.Put(DbOf(log), rep).0 == DbOf(TriplePut(log, rep))
  {
    HeaderKeys(log, rep);
    assert (log + [rep])[..|log|] == log;
    hide WellFormed;
  }

  lemma {:induction false} ProperPrune(log: seq<Report>, cut: int)
    requires Proper(log)
    ensures Proper(LogPrune(log, cut))
    ensures forall rep :: rep in LogPrune(log, cut) ==> rep in log
  {
    hide WellFormed;
    if log != [] {
      var n := |log| - 1;
      ProperPrune(log[..n], cut);
      var kept := LogPrune(log[..n], cut);
      forall i | 0 <= i < |kept| ensures Identity(kept[i]) != Identity(log[n]) {
        assert kept[i] in log[..n];
      }
      hide Identity;
    }
  }

  /** Whatever was put and pruned, the tables are those of one log. */
  lemma {:induction false} SqlRunIs(ops: seq<Op>)
    requires forall i :: 0 <= i < |ops| && ops[i].PutOp? ==> WellFormed(ops[i].rep)
    ensures Proper(SqlLog(ops)) && SqlRun(ops).0 == DbOf(SqlLog(ops))
  {
    if ops == [] {
      assert SqlLog([]) == [] && SqlRun([]).0 == Sql.Db([], []) == DbOf([]);
    } else {
      var n := |ops| - 1;
      hide *;
      assert forall i :: 0 <= i < n ==> ops[..n][i] == ops[i];
      SqlRunIs(ops[..n]);
      SqlStepIs(SqlLog(ops[..n]), ops[n]);
      SqlRunStep(ops);
    }
  }

  lemma SqlRunStep(ops: seq<Op>)
    requires ops != []
    ensures var n := |ops| - 1; var op := ops[n];
            if op.PutOp? then
              SqlRun(ops).0 == Sql.Put(SqlRun(ops[..n]).0, op.rep).0
              && SqlLog(ops) == TriplePut(SqlLog(ops[..n]), op.rep)
            else
              SqlRun(ops).0 == Sql.Pruned(SqlRun(ops[..n]).0, op.olderThan)
              && SqlLog(ops) == LogPrune(SqlLog(ops[..n]), Floor(op.olderThan))
  {
    hide Sql.Put, Sql.Pruned, TriplePut, LogPrune, Floor;
  }

  lemma SqlStepIs(log: seq<Report>, op: Op)
    requires Proper(log) && (op.PutOp? ==> WellFormed(op.rep))
    ensures op.PutOp? ==>
              Proper(TriplePut(log, op.rep)) && Sql.Put(DbOf(log), op.rep).0 == DbOf(TriplePut(log, op.rep))
    ensures op.PruneOp? ==>
              var kept := LogPrune(log, Floor(op.olderThan));
              Proper(kept) && Sql.Pruned(DbOf(log), op.olderThan) == DbOf(kept)
  {
    hide *;
    match op
    case PutOp(rep) => ProperPut(log, rep);
    case PruneOp(cut) =>
      ProperPrune(log, Floor(cut));
      DbPruned(log, cut);
  }

  // ---- the decision laws -----------------------------------------------------------------------

  lemma {:induction false} SpoofersRaised(sources: seq<SourceStat>)
    ensures Spoofers(RaisedSources(sources)) == Spoofers(sources)
  {
    if sources != [] {
      var n := |sources| - 1;
      SpoofersRaised(sources[..n]);
      assert RaisedSources(sources)[..n] == RaisedSources(sources[..n]);
    }
  }

  lemma ReadPositive(log: seq<Report>)
    requires Proper(log)
    ensures Positive(ReadSet(Elements(log)))
  {
    forall x | x in ReadSet(Elements(log)) ensures WellFormed(x) {
      var r :| r in Elements(log) && x == ReadReport(r);
      ReadStorable(r);
    }
  }

  /** What the decisions of the collector say about each other, from the answer of the
      queries at any clock. */
  lemma SqlLaws(b: Overview, log: seq<Report>, d: string, now: int)
    requires Proper(log) && Sql.Answer(b, DbOf(log), d, now)
    ensures 10 * |Spoofers(b.sources)| <= b.msgs30 - b.aligned30
    ensures Ready(b) ==> 500 * |Spoofers(b.sources)| <= b.msgs30
    ensures Ready(b) && Dropped(b) ==> b.msgs30 >= 5 * b.msgs7
    ensures Dropped(b) ==> Pct(b.aligned30 - b.aligned7, b.msgs30 - b.msgs7) > Pct(b.aligned30, b.msgs30)
    ensures Dropped(b) && Stale(b, now) ==> b.lastEnd == Floor(now - WINDOW_RECENT)
  {
    hide *;
    var reps, r := ReadSet(Elements(log)), Raised(b);
    var long, recent := Floor(now - WINDOW_LONG), Floor(now - WINDOW_RECENT);
    WindowsOrdered(now);
    SpoofersRaised(b.sources);
    RaisedFigure(b);
    ProperParts(log);
    AnswersRead(log, d, now, b);
    ReadPositive(log);
    SpoofingBounded(r, reps, d, long, recent);
    if Dropped(r) {
      DropMeansOlderBetter(r, reps, d, long, recent);
      if Ready(r) { ReadyDespiteDrop(r, reps, d, long, recent); }
      if Stale(b, now) { SqlSilence(b, log, d, now); }
    }
  }

  lemma WindowsOrdered(now: int)
    ensures Floor(now - WINDOW_LONG) <= Floor(now - WINDOW_RECENT)
  {
    UnixRounds(Unix(now - WINDOW_LONG), now - WINDOW_RECENT);
  }

  lemma ProperParts(log: seq<Report>)
    requires Proper(log)
    ensures DistinctTriples(log) && forall i :: 0 <= i < |log| ==> WellFormed(log[i])
  {
  }

  lemma RaisedFigure(b: Overview)
    ensures var r := Raised(b);
            && r.msgs30 == b.msgs30 && r.aligned30 == b.aligned30 && r.msgs7 == b.msgs7 && r.aligned7 == b.aligned7
            && r.sources == RaisedSources(b.sources) && (Ready(r) <==> Ready(b)) && (Dropped(r) <==> Dropped(b))
  {
    hide RaisedSources, Pct;
  }

  lemma WeekOf(b: Overview, reps: set<Report>, d: string, long: int, recent: int)
    requires Summarises(Raised(b), reps, d, long, recent)
    ensures b.msgs7 == Total(reps, Messages(d, recent))
  {
    hide RaisedSources, Total, AreSources, IsFirstSeen, IsLastEnd, IsPolicy, OrgsSince, Watched;
  }

  /** A drop and a silence together: the newest report ended exactly at the start of the
      second seven days ago. */
  lemma SqlSilence(b: Overview, log: seq<Report>, d: string, now: int)
    requires Proper(log) && Sql.Answer(b, DbOf(log), d, now) && Dropped(b) && Stale(b, now)
    ensures b.lastEnd == Floor(now - WINDOW_RECENT)
  {
    hide *;
    var reps, recent := ReadSet(Elements(log)), Floor(now - WINDOW_RECENT);
    DroppedWeek(b);
    StaleEnd(b, now);
    ProperParts(log);
    AnswersRead(log, d, now, b);
    WeekOf(b, reps, d, Floor(now - WINDOW_LONG), recent);
    var r := SomeoneSent(reps, d, recent);
    NewestEnd(b, log, d, Floor(now - WINDOW_LONG), r);
    SecondBetween(b.lastEnd, now - WINDOW_RECENT);
  }

  lemma DroppedWeek(ov: Overview)
    requires Dropped(ov)
    ensures ov.msgs7 != 0
  {
    hide Pct;
  }

  lemma StaleEnd(ov: Overview, now: int)
    requires Stale(ov, now)
    ensures ov.lastEnd <= now - WINDOW_RECENT
  {
  }

  lemma NewestEnd(b: Overview, log: seq<Report>, d: string, long: int, r: Report)
    requires Proper(log) && Dated(b, ReadSet(Elements(log)), d, long)
    requires r in ReadSet(Elements(log)) && r.domain == d
    ensures r.end <= b.lastEnd && WholeSecond(b.lastEnd)
  {
    var reps := ReadSet(Elements(log));
    assert Watched(reps, d) && IsNewest(b.lastEnd, reps, d);
    var x :| x in reps && x.domain == d && x.end == b.lastEnd;
    var o :| o in Elements(log) && x == ReadReport(o);
    assert WellFormed(o);
  }

  lemma SecondBetween(x: int, y: int)
    requires WholeSecond(x) && Floor(y) <= x <= y
    ensures x == Floor(y)
  {
    UnixRounds(Unix(x), y);
  }

  /** A report that ended on the second, half a second before seven days ago, is in the
      recent window and silent for seven days: drop and silence are reported although it
      did not end exactly then. */
  lemma SqlDropAndSilence(a: Report, b: Report, ov: Overview)
    requires |a.records| == 1 && |b.records| == 1 && a.domain == b.domain
    requires a.records[0].count == 1000 && a.records[0].evalDKIM == "pass"
    requires b.records[0].count == 100 && b.records[0].evalDKIM == "fail" && b.records[0].evalSPF == "fail"
    requires WholeSecond(b.end) && a.end == b.end - 86_400_000_000_000
    requires Sql.Answer(ov, DbOf([a, b]), b.domain, b.end + WINDOW_RECENT + 500_000_000)
    ensures var now := b.end + WINDOW_RECENT + 500_000_000;
            Dropped(ov) && Stale(ov, now) && ov.lastEnd == b.end && ov.lastEnd != now - WINDOW_RECENT
  {
    var d, now := b.domain, b.end + WINDOW_RECENT + 500_000_000;
    PairWindows(b.end, now);
    PairFigures(a, b, ov, now);
    PairEnd(a, b, ov, now);
    hide *;
    PairDropped(ov);
    assert now - WINDOW_RECENT == b.end + 500_000_000;
    PairStale(ov, b.end, now);
  }

  lemma PairStale(ov: Overview, end: int, now: int)
    requires ov.lastEnd == end && now == end + WINDOW_RECENT + 500_000_000
    ensures Stale(ov, now)
  {
  }

  lemma PairWindows(end: int, now: int)
    requires WholeSecond(end) && now == end + WINDOW_RECENT + 500_000_000
    ensures Unix(now - WINDOW_RECENT) == Unix(end)
    ensures Unix(now - WINDOW_LONG) <= Unix(end - 86_400_000_000_000) < Unix(end)
  {
  }

  lemma PairFigures(a: Report, b: Report, ov: Overview, now: int)
    requires |a.records| == 1 && |b.records| == 1 && a.domain == b.domain
    requires a.records[0].count == 1000 && a.records[0].evalDKIM == "pass"
    requires b.records[0].count == 100 && b.records[0].evalDKIM == "fail" && b.records[0].evalSPF == "fail"
    requires Unix(now - WINDOW_LONG) <= Unix(a.end) < Unix(now - WINDOW_RECENT) == Unix(b.end)
    requires Sql.Answer(ov, DbOf([a, b]), b.domain, now)
    ensures ov.msgs30 == 1100 && ov.aligned30 == 1000 && ov.msgs7 == 100 && ov.aligned7 == 0
  {
    var d, long, recent := b.domain, Unix(now - WINDOW_LONG), Unix(now - WINDOW_RECENT);
    var x, y := a.records[0], b.records[0];
    PassIsNotFail();
    MatchesAre(a, x, d, long);
    MatchesAre(a, x, d, recent);
    MatchesAre(b, y, d, long);
    MatchesAre(b, y, d, recent);
    AnswerSums(a, b, ov, now);
    hide *;
    PairSums(a, b, Messages(d, long));
    PairSums(a, b, AlignedMessages(d, long));
    PairSums(a, b, Messages(d, recent));
    PairSums(a, b, AlignedMessages(d, recent));
  }

  lemma MatchesAre(rep: Report, r: Record, d: string, since: int)
    ensures Sql.Matches(Sql.RowOf(rep, r), Messages(d, since)) <==> rep.domain == d && Unix(rep.end) >= since
    ensures Sql.Matches(Sql.RowOf(rep, r), AlignedMessages(d, since)) <==>
              rep.domain == d && Unix(rep.end) >= since && ExactlyAligned(r.evalDKIM, r.evalSPF)
  {
  }

  lemma AnswerSums(a: Report, b: Report, ov: Overview, now: int)
    requires Sql.Answer(ov, DbOf([a, b]), b.domain, now)
    ensures var rows, long, recent := DbOf([a, b]).rows, Unix(now - WINDOW_LONG), Unix(now - WINDOW_RECENT);
            && ov.msgs30 == Sql.SumCnt(rows, Messages(b.domain, long))
            && ov.aligned30 == Sql.SumCnt(rows, AlignedMessages(b.domain, long))
            && ov.msgs7 == Sql.SumCnt(rows, Messages(b.domain, recent))
            && ov.aligned7 == Sql.SumCnt(rows, AlignedMessages(b.domain, recent))
  {
    PairTables(a, b);
    assert DbOf([a, b]).reports[1].domain == b.domain;
    assert ov.hasData;
    hide DbOf, Sql.SumCnt, Sql.SourceAnswer, Sql.HistoryAnswer;
  }

  lemma PairEnd(a: Report, b: Report, ov: Overview, now: int)
    requires a.domain == b.domain && Unix(a.end) < Unix(b.end) && WholeSecond(b.end)
    requires Sql.Answer(ov, DbOf([a, b]), b.domain, now)
    ensures ov.lastEnd == b.end
  {
    var rows := DbOf([a, b]).reports;
    PairTables(a, b);
    assert rows[0] == Sql.HeaderRow(a) && rows[1] == Sql.HeaderRow(b);
    assert Sql.HistoryAnswer(ov, rows, b.domain);
    hide Sql.Answer, DbOf, Sql.MinBegin;
    var last := Sql.MaxEnd(rows, b.domain);
    assert last.Some? && last.value == Unix(b.end);
    UnixRounds(0, b.end);
  }

  lemma PairDropped(ov: Overview)
    requires ov.msgs30 == 1100 && ov.aligned30 == 1000 && ov.msgs7 == 100 && ov.aligned7 == 0
    ensures Dropped(ov)
  {
    assert Pct(1000, 1100) >= 90.0 && Pct(0, 100) == 0.0;
  }

  lemma PassIsNotFail()
    ensures ExactlyAligned("pass", "pass") && !ExactlyAligned("fail", "fail")
    ensures forall spf :: ExactlyAligned("pass", spf)
  {
    assert "fail"[0] == 'f' && "pass"[0] == 'p';
  }

  lemma PairTables(a: Report, b: Report)
    ensures var db := DbOf([a, b]);
            db.reports == [Sql.HeaderRow(a), Sql.HeaderRow(b)] && db.rows == Sql.RowsOf(a) + Sql.RowsOf(b)
  {
    assert [a, b][..1] == [a] && [a][..0] == [];
    assert DbOf([a]) == Sql.Insert(Sql.Db([], []), a);
  }

  lemma PairSums(a: Report, b: Report, q: Query)
    requires |a.records| == 1 && |b.records| == 1
    ensures Sql.SumCnt(DbOf([a, b]).rows, q) ==
            (if Sql.Matches(Sql.RowOf(a, a.records[0]), q) then a.records[0].count else 0)
            + (if Sql.Matches(Sql.RowOf(b, b.records[0]), q) then b.records[0].count else 0)
  {
    PairTables(a, b);
    var x, y := Sql.RowOf(a, a.records[0]), Sql.RowOf(b, b.records[0]);
    assert Sql.RowsOf(a) == [x] && Sql.RowsOf(b) == [y];
    assert [x] + [y] == [x, y] && [x, y][..1] == [x] && [x][..0] == [];
    hide Sql.Matches, DbOf;
    assert Sql.SumCnt([x], q) == Sql.SumCnt([], q) + (if Sql.Matches(x, q) then x.cnt else 0);
  }

  // ---- collecting --------------------------------------------------------------------------

  /** One scan of a domain: prune, query, decide. */
  method Collect(store: Sql.SqlStore, h: Hash, d: string, now: int, cancelled: bool)
    returns (res: Result<seq<Finding>, ScanError>, ghost ov: Overview)
    modifies store
    ensures store.db == Sql.Pruned(old(store.db), now - 396 * 86_400_000_000_000)
    ensures Sql.Answer(ov, store.db, d, now)
    ensures res.Ok? <==> !cancelled
    ensures res.Ok? ==> res.value == FindingsOf(h, d, ov, now)
  {
    store.Prune(now - PRUNE_AFTER);
    var seen := store.Overview(d, now);
    ov := seen;
    if cancelled { return Err(Cancelled), ov; }
    var out := Decide(h, d, seen, now);
    res := Ok(out);
  }
}
