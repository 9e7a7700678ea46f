/** The map store and the relational store mirror each other: both refine one log of
    accepted reports, over every run of puts and prunes. */
module ReportAgreement {
  import opened Base
  import opened Reports
  import opened Overviews
  import Mem = ReportMemStore
  import Sql = ReportSqlStore

  ghost predicate DistinctKeys(log: seq<Report>)
  {
    forall i, j :: 0 <= i < j < |log| ==> Key(log[i]) != Key(log[j])
  }

  function Elements(log: seq<Report>): set<Report>
  {
    set i | 0 <= i < |log| :: log[i]
  }

  // ---- the two representations of a log ---------------------------------------------

  /** A keyed map is determined by the set of reports it holds. */
  ghost predicate MapHolds(m: Mem.Table, log: seq<Report>)
  {
    Mem.Keyed(m) && m.Values == Elements(log)
  }

  function DbOf(log: seq<Report>): Sql.Db
  {
    if log == [] then Sql.Db([], [])
    else Sql.Insert(DbOf(log[..|log| - 1]), log[|log| - 1])
  }

  lemma MapKeys(m: Mem.Table, log: seq<Report>, k: string)
    requires MapHolds(m, log)
    ensures k in m <==> exists i :: 0 <= i < |log| && Key(log[i]) == k
  {
    if k in m {
      assert m[k] in m.Values;
      var i :| 0 <= i < |log| && log[i] == m[k];
      assert Key(log[i]) == k;
    }
    if i :| 0 <= i < |log| && Key(log[i]) == k {
      assert log[i] in m.Values;
      var j :| j in m && m[j] == log[i];
    }
  }

  lemma {:induction false} Headers(log: seq<Report>)
    ensures |DbOf(log).reports| == |log|
    ensures forall i :: 0 <= i < |log| ==> DbOf(log).reports[i] == Sql.HeaderRow(log[i])
  {
    if log != [] {
      Headers(log[..|log| - 1]);
    }
  }

  lemma HeaderKeys(log: seq<Report>, rep: Report)
    ensures Sql.HasKey(DbOf(log), Identity(rep)) <==> exists i :: 0 <= i < |log| && Identity(log[i]) == Identity(rep)
  {
    Headers(log);
    if i :| 0 <= i < |log| && Identity(log[i]) == Identity(rep) {
      assert Sql.RowKey(DbOf(log).reports[i]) == Identity(rep);
    }
    if Sql.HasKey(DbOf(log), Identity(rep)) {
      var i :| 0 <= i < |DbOf(log).reports| && Sql.RowKey(DbOf(log).reports[i]) == Identity(rep);
      assert Identity(log[i]) == Identity(rep);
    }
  }

  // ---- puts -------------------------------------------------------------------------

  function LogPut(log: seq<Report>, rep: Report): (seq<Report>, bool)
  {
    if exists i :: 0 <= i < |log| && Key(log[i]) == Key(rep) then (log, false) else (log + [rep], true)
  }

  lemma MapPut(m: Mem.Table, log: seq<Report>, rep: Report)
    requires MapHolds(m, log)
    ensures MapHolds(Mem.Put(m, rep).0, LogPut(log, rep).0) && Mem.Put(m, rep).1 == LogPut(log, rep).1
  {
    MapKeys(m, log, Key(rep));
    var k := Key(rep);
    if k !in m {
      var m', more := m[k := rep], log + [rep];
      assert forall i :: 0 <= i < |log| ==> more[i] == log[i];
      assert more[|log|] == rep;
      assert Elements(more) == Elements(log) + {rep};
      assert m'.Values == m.Values + {rep} by {
        assert forall j :: j in m ==> m'[j] == m[j];
        assert m'[k] == rep;
      }
    }
  }

  lemma DbPut(log: seq<Report>, rep: Report)
    requires forall i :: 0 <= i < |log| ==> (Key(log[i]) == Key(rep) <==> Identity(log[i]) == Identity(rep))
    ensures Sql.Put(DbOf(log), rep) == (DbOf(LogPut(log, rep).0), LogPut(log, rep).1)
  {
    HeaderKeys(log, rep);
    var more := log + [rep];
    assert more[..|log|] == log;
  }

  ghost predicate Collides(log: seq<Report>, rep: Report)
  {
    exists i :: 0 <= i < |log| && Key(log[i]) == Key(rep) && Identity(log[i]) != Identity(rep)
  }

  /** The two stores give different answers to a put exactly when the joined key of the
      new report is taken by a different report and by no report of its own triple. */
  lemma PutAnswersDiffer(m: Mem.Table, log: seq<Report>, rep: Report)
    requires MapHolds(m, log) && DistinctKeys(log)
    ensures Mem.Put(m, rep).1 != Sql.Put(DbOf(log), rep).1 <==>
            Collides(log, rep)
  {
    MapKeys(m, log, Key(rep));
    HeaderKeys(log, rep);
    assert forall i :: 0 <= i < |log| && Identity(log[i]) == Identity(rep) ==> Key(log[i]) == Key(rep);
  }

  // ---- prunes -----------------------------------------------------------------------

  function LogPrune(log: seq<Report>, cut: int): seq<Report>
  {
    if log == [] then []
    else
      var n := |log| - 1;
      LogPrune(log[..n], cut) + (if log[n].end < cut then [] else [log[n]])
  }

  lemma {:induction false} PruneKeeps(log: seq<Report>, cut: int)
    ensures forall rep :: rep in LogPrune(log, cut) <==> rep in log && rep.end >= cut
    ensures DistinctKeys(log) ==> DistinctKeys(LogPrune(log, cut))
  {
    if log != [] {
      var n := |log| - 1;
      PruneKeeps(log[..n], cut);
      assert log == log[..n] + [log[n]];
      var kept := LogPrune(log[..n], cut);
      if DistinctKeys(log) {
        forall i | 0 <= i < |kept| ensures Key(kept[i]) != Key(log[n]) {
          assert kept[i] in log[..n];
        }
      }
    }
  }

  lemma MapPruned(m: Mem.Table, log: seq<Report>, cut: int)
    requires MapHolds(m, log)
    ensures MapHolds(Mem.Pruned(m, cut), LogPrune(log, cut))
  {
    PruneKeeps(log, cut);
    var m', kept := Mem.Pruned(m, cut), LogPrune(log, cut);
    forall rep ensures rep in m'.Values <==> rep in Elements(kept) {
      if rep in m.Values && rep.end >= cut {
        var k :| k in m && m[k] == rep;
        assert m'[k] == rep;
      }
      assert rep in Elements(log) <==> rep in log;
      assert rep in Elements(kept) <==> rep in kept;
    }
  }

  lemma {:induction false} LiveRowsAppend(a: seq<Sql.RecordRow>, b: seq<Sql.RecordRow>, cut: int)
    ensures Sql.LiveRows(a + b, cut) == Sql.LiveRows(a, cut) + Sql.LiveRows(b, cut)
  {
    if b == [] {
      assert a + b == a;
    } else {
      var n := |b| - 1;
      assert (a + b)[..|a + b| - 1] == a + b[..n];
      LiveRowsAppend(a, b[..n], cut);
    }
  }

  lemma {:induction false} LiveRowsUniform(rows: seq<Sql.RecordRow>, end: int, cut: int)
    requires forall i :: 0 <= i < |rows| ==> rows[i].endAt == end
    ensures Sql.LiveRows(rows, cut) == if end < cut then [] else rows
  {
    if rows != [] {
      var n := |rows| - 1;
      LiveRowsUniform(rows[..n], end, cut);
      assert rows == rows[..n] + [rows[n]];
    }
  }

  lemma InsertPruned(db: Sql.Db, rep: Report, cut: int)
    ensures Sql.Pruned(Sql.Insert(db, rep), cut) ==
            if Unix(rep.end) < Unix(cut) then Sql.Pruned(db, cut) else Sql.Insert(Sql.Pruned(db, cut), rep)
  {
    var rows := Sql.RowsOf(rep);
    LiveRowsAppend(db.rows, rows, Unix(cut));
    LiveRowsUniform(rows, Unix(rep.end), Unix(cut));
    assert Sql.Insert(db, rep).reports[..|db.reports|] == db.reports;
  }

  /** The table is pruned at the start of the second the horizon falls into. */
  lemma {:induction false} DbPruned(log: seq<Report>, cut: int)
    ensures DbOf(LogPrune(log, Floor(cut))) == Sql.Pruned(DbOf(log), cut)
  {
    if log != [] {
      var n := |log| - 1;
      DbPruned(log[..n], cut);
      InsertPruned(DbOf(log[..n]), log[n], cut);
      UnixRounds(Unix(cut), log[n].end);
      var kept := LogPrune(log[..n], Floor(cut));
      assert (kept + [log[n]])[..|kept|] == kept && kept + [] == kept;
      assert LogPrune(log, Floor(cut)) == if log[n].end < Floor(cut) then kept else kept + [log[n]];
    }
  }

  /** A stored report ends inside the second of the horizon, before it. */
  ghost predicate Straddled(log: seq<Report>, cut: int)
  {
    exists i :: 0 <= i < |log| && Floor(cut) <= log[i].end < cut
  }

  lemma {:induction false} SamePrune(log: seq<Report>, cut: int)
    requires !Straddled(log, cut)
    ensures LogPrune(log, cut) == LogPrune(log, Floor(cut))
  {
    if log != [] {
      var n := |log| - 1;
      assert forall i :: 0 <= i < n ==> log[..n][i] == log[i];
      SamePrune(log[..n], cut);
      UnixRounds(Unix(cut), cut);
    }
  }

  /** The two stores hold the same reports: some log accounts for both. */
  ghost predicate Twins(m: Mem.Table, db: Sql.Db)
  {
    exists log :: DistinctKeys(log) && MapHolds(m, log) && db == DbOf(log)
  }

  /** A prune leaves two stores with equal contents equal exactly when no stored report
      ends between the start of the horizon's second and the horizon. */
  lemma PruneKeepsTwins(m: Mem.Table, log: seq<Report>, cut: int)
    requires MapHolds(m, log) && DistinctKeys(log)
    ensures Twins(Mem.Pruned(m, cut), Sql.Pruned(DbOf(log), cut)) <==> !Straddled(log, cut)
  {
    MapPruned(m, log, cut);
    DbPruned(log, cut);
    PruneKeeps(log, cut);
    if !Straddled(log, cut) {
      SamePrune(log, cut);
    } else if Twins(Mem.Pruned(m, cut), Sql.Pruned(DbOf(log), cut)) {
      var i :| 0 <= i < |log| && Floor(cut) <= log[i].end < cut;
      var other :| DistinctKeys(other) && MapHolds(Mem.Pruned(m, cut), other)
        && Sql.Pruned(DbOf(log), cut) == DbOf(other);
      PruneKeeps(log, Floor(cut));
      StrayHeader(LogPrune(log, Floor(cut)), other, log[i]);
      var r :| r in other && Identity(r) == Identity(log[i]);
      KeptAfter(m, cut, other, r);
      OneKey(log, r, i);
    }
  }

  lemma KeptAfter(m: Mem.Table, cut: int, log: seq<Report>, r: Report)
    requires MapHolds(Mem.Pruned(m, cut), log) && r in log
    ensures r in m.Values && r.end >= cut
  {
    assert r in Elements(log);
  }

  lemma OneKey(log: seq<Report>, r: Report, i: nat)
    requires DistinctKeys(log) && r in Elements(log) && i < |log| && Identity(r) == Identity(log[i])
    ensures r == log[i]
  {
    assert Key(r) == Key(log[i]);
  }

  lemma StrayHeader(a: seq<Report>, b: seq<Report>, rep: Report)
    requires DbOf(a) == DbOf(b) && rep in a
    ensures exists r :: r in b && Identity(r) == Identity(rep)
  {
    Headers(a);
    Headers(b);
    var i :| 0 <= i < |a| && a[i] == rep;
    assert Sql.HeaderRow(b[i]) == Sql.HeaderRow(rep);
    assert b[i] in b && Identity(b[i]) == Identity(rep);
  }

  lemma WholeSecondsNeverStraddle(log: seq<Report>, cut: int)
    requires WholeSecond(cut)
    ensures !Straddled(log, cut)
  {
    UnixRounds(Unix(cut), cut);
  }

  /** Half a second is enough: one store drops the report, the other keeps it. */
  lemma SubSecondPrune(rep: Report)
    requires WholeSecond(rep.end)
    ensures var cut := rep.end + 500_000_000;
            && Mem.Pruned(map[Key(rep) := rep], cut) == map[]
            && Sql.Pruned(DbOf([rep]), cut) == DbOf([rep])
  {
    var cut := rep.end + 500_000_000;
    DbPruned([rep], cut);
    assert LogPrune([rep], Floor(cut)) == [rep] by {
      assert [rep][..0] == [] && LogPrune([], Floor(cut)) == [];
    }
  }

  // ---- runs -------------------------------------------------------------------------

  datatype Op = PutOp(rep: Report) | PruneOp(olderThan: int)

  /** What keeps the stores together: no joined key shared by two triples, no report on
      the edge of a prune. */
  ghost predicate Guard(log: seq<Report>, op: Op)
  {
    match op
    case PutOp(rep) => !Collides(log, rep)
    case PruneOp(cut) => !Straddled(log, cut)
  }

  ghost predicate Guarded(ops: seq<Op>) { forall n :: 0 <= n < |ops| ==> Guard(LogRun(ops[..n]), ops[n]) }

  /** The store contents and the answers to the puts, oldest first. */
  function MemRun(ops: seq<Op>): (Mem.Table, seq<bool>)
  {
    if ops == [] then (map[], [])
    else
      var n := |ops| - 1;
      var (m, answers) := MemRun(ops[..n]);
      match ops[n]
      case PutOp(rep) => var (m', stored) := Mem.Put(m, rep); (m', answers + [stored])
      case PruneOp(cut) => (Mem.Pruned(m, cut), answers)
  }

  function SqlRun(ops: seq<Op>): (Sql.Db, seq<bool>)
  {
    if ops == [] then (Sql.Db([], []), [])
    else
      var n := |ops| - 1;
      var (db, answers) := SqlRun(ops[..n]);
      match ops[n]
      case PutOp(rep) => var (db', stored) := Sql.Put(db, rep); (db', answers + [stored])
      case PruneOp(cut) => (Sql.Pruned(db, cut), answers)
  }

  function LogRun(ops: seq<Op>): seq<Report>
  {
    if ops == [] then []
    else
      var n := |ops| - 1;
      match ops[n]
      case PutOp(rep) => LogPut(LogRun(ops[..n]), rep).0
      case PruneOp(cut) => LogPrune(LogRun(ops[..n]), cut)
  }

  ghost predicate Mirrored(m: Mem.Table, db: Sql.Db, log: seq<Report>)
  {
    DistinctKeys(log) && MapHolds(m, log) && db == DbOf(log)
  }

  lemma PutMirrored(m: Mem.Table, db: Sql.Db, log: seq<Report>, rep: Report)
    requires Mirrored(m, db, log) && !Collides(log, rep)
    ensures Mirrored(Mem.Put(m, rep).0, Sql.Put(db, rep).0, LogPut(log, rep).0)
    ensures Mem.Put(m, rep).1 == Sql.Put(db, rep).1
  {
    MapPut(m, log, rep);
    DbPut(log, rep);
  }

  lemma PruneMirrored(m: Mem.Table, db: Sql.Db, log: seq<Report>, cut: int)
    requires Mirrored(m, db, log) && !Straddled(log, cut)
    ensures Mirrored(Mem.Pruned(m, cut), Sql.Pruned(db, cut), LogPrune(log, cut))
  {
    PruneKeeps(log, cut);
    MapPruned(m, log, cut);
    DbPruned(log, cut);
    SamePrune(log, cut);
  }

  lemma GuardedBefore(ops: seq<Op>, n: nat)
    requires Guarded(ops) && n <= |ops|
    ensures Guarded(ops[..n])
  {
    assert forall i :: 0 <= i < n ==> ops[..n][..i] == ops[..i] && ops[..n][i] == ops[i];
    hide Guard, LogRun;
  }

  lemma {:induction false} GuardedRunsMirror(ops: seq<Op>)
    requires Guarded(ops)
    ensures Mirrored(MemRun(ops).0, SqlRun(ops).0, LogRun(ops))
    ensures MemRun(ops).1 == SqlRun(ops).1
  {
    if ops != [] {
      var n := |ops| - 1;
      GuardedBefore(ops, n);
      GuardedRunsMirror(ops[..n]);
      assert Guard(LogRun(ops[..n]), ops[n]);
      hide Mirrored, Guarded, Straddled, Collides, Mem.Put, Sql.Put, Mem.Pruned, Sql.Pruned;
      var m, db, log := MemRun(ops[..n]).0, SqlRun(ops[..n]).0, LogRun(ops[..n]);
      match ops[n]
      case PutOp(rep) => PutMirrored(m, db, log, rep);
      case PruneOp(cut) => PruneMirrored(m, db, log, cut);
    }
  }

  /** All along a run: equal contents, and the same accept/duplicate answers. */
  ghost predicate Lockstep(ops: seq<Op>)
  {
    forall n :: 0 <= n <= |ops| ==>
      Twins(MemRun(ops[..n]).0, SqlRun(ops[..n]).0) && MemRun(ops[..n]).1 == SqlRun(ops[..n]).1
  }

  lemma RunStep(ops: seq<Op>, n: nat)
    requires n < |ops|
    ensures var (m, answers) := MemRun(ops[..n]);
            MemRun(ops[..n + 1]) == match ops[n]
              case PutOp(rep) => (Mem.Put(m, rep).0, answers + [Mem.Put(m, rep).1])
              case PruneOp(cut) => (Mem.Pruned(m, cut), answers)
    ensures var (db, answers) := SqlRun(ops[..n]);
            SqlRun(ops[..n + 1]) == match ops[n]
              case PutOp(rep) => (Sql.Put(db, rep).0, answers + [Sql.Put(db, rep).1])
              case PruneOp(cut) => (Sql.Pruned(db, cut), answers)
  {
    assert ops[..n + 1][..n] == ops[..n];
    hide Mem.Put, Sql.Put, Mem.Pruned, Sql.Pruned;
  }

  /** An operation that breaks the guard shows at once. */
  lemma GuardNeeded(ops: seq<Op>, n: nat)
    requires n < |ops| && Guarded(ops[..n]) && Lockstep(ops)
    ensures Guard(LogRun(ops[..n]), ops[n])
  {
    GuardedRunsMirror(ops[..n]);
    RunStep(ops, n);
    var m, log := MemRun(ops[..n]).0, LogRun(ops[..n]);
    var p, q := MemRun(ops[..n + 1]), SqlRun(ops[..n + 1]);
    assert Twins(p.0, q.0) && p.1 == q.1;
    hide MemRun, SqlRun, LogRun, Guarded, Lockstep, Twins, MapHolds, DistinctKeys, Collides, Straddled;
    match ops[n]
    case PutOp(rep) =>
      PutAnswersDiffer(m, log, rep);
      assert p.1[|p.1| - 1] == q.1[|q.1| - 1];
    case PruneOp(cut) => PruneKeepsTwins(m, log, cut);
  }

  lemma GuardedSnoc(ops: seq<Op>, n: nat)
    requires n < |ops| && Guarded(ops[..n]) && Guard(LogRun(ops[..n]), ops[n])
    ensures Guarded(ops[..n + 1])
  {
    hide Guard, LogRun;
    var more := ops[..n + 1];
    forall i | 0 <= i < |more| ensures Guard(LogRun(more[..i]), more[i]) {
      assert more[..i] == ops[..i];
      if i < n {
        assert ops[..n][..i] == ops[..i] && ops[..n][i] == ops[i];
        assert Guard(LogRun(ops[..n][..i]), ops[..n][i]);
      }
    }
  }

  lemma {:induction false} LockstepGuards(ops: seq<Op>, n: nat)
    requires n <= |ops| && Lockstep(ops)
    ensures Guarded(ops[..n])
  {
    if n > 0 {
      LockstepGuards(ops, n - 1);
      hide *;
      GuardNeeded(ops, n - 1);
      GuardedSnoc(ops, n - 1);
    } else {
      assert ops[..0] == [];
    }
  }

  /** Along a run both stores hold the same reports and give the same answers exactly when
      no put meets its joined key under another triple and no prune has a stored report
      between the start of its horizon's second and the horizon. */
  lemma RunsMirror(ops: seq<Op>)
    ensures Lockstep(ops) <==> Guarded(ops)
  {
    if Lockstep(ops) {
      LockstepGuards(ops, |ops|);
      assert ops[..|ops|] == ops;
    }
    if Guarded(ops) {
      forall n | 0 <= n <= |ops|
        ensures Twins(MemRun(ops[..n]).0, SqlRun(ops[..n]).0) && MemRun(ops[..n]).1 == SqlRun(ops[..n]).1
      {
        GuardedBefore(ops, n);
        GuardedRunsMirror(ops[..n]);
      }
    }
  }

  ghost predicate Tame(op: Op)
  {
    match op
    case PutOp(rep) => BarFree(rep)
    case PruneOp(cut) => WholeSecond(cut)
  }

  lemma {:induction false} LogFrom(ops: seq<Op>, rep: Report)
    requires rep in LogRun(ops)
    ensures PutOp(rep) in ops
  {
    var n := |ops| - 1;
    var log := LogRun(ops[..n]);
    if ops[n].PruneOp? { PruneKeeps(log, ops[n].olderThan); }
    if rep in log { LogFrom(ops[..n], rep); }
  }

  /** Names without bars and whole-second horizons are safe. */
  lemma TameRunsAreGuarded(ops: seq<Op>)
    requires forall i :: 0 <= i < |ops| ==> Tame(ops[i])
    ensures Guarded(ops)
  {
    forall n | 0 <= n < |ops| ensures Guard(LogRun(ops[..n]), ops[n]) {
      var log := LogRun(ops[..n]);
      assert Tame(ops[n]);
      match ops[n]
      case PutOp(rep) =>
        forall i | 0 <= i < |log| && Key(log[i]) == Key(rep) ensures Identity(log[i]) == Identity(rep) {
          LogFrom(ops[..n], log[i]);
          var j :| 0 <= j < n && ops[..n][j] == PutOp(log[i]);
          assert Tame(ops[j]);
          KeyIdentifies(log[i], rep);
        }
      case PruneOp(cut) => WholeSecondsNeverStraddle(log, cut);
    }
  }

  /** Two reports under one joined key: the map store takes the second for a duplicate,
      the table stores it. */
  lemma BarsPartAnswers(a: Report, b: Report)
    requires a.org == "a|b" && a.reportID == "c" && b.org == "a" && b.reportID == "b|c" && a.domain == b.domain
    ensures MemRun([PutOp(a), PutOp(b)]).1 == [true, false]
    ensures SqlRun([PutOp(a), PutOp(b)]).1 == [true, true]
  {
    KeyCollides(a, b);
    var ops := [PutOp(a), PutOp(b)];
    assert ops[..0] == [] && ops[..2] == ops;
    RunStep(ops, 0);
    RunStep(ops, 1);
    assert MemRun([]) == (map[], []) && SqlRun([]) == (Sql.Db([], []), []);
    hide MemRun, SqlRun, Key;
    var db := Sql.Insert(Sql.Db([], []), a);
    assert db.reports == [Sql.HeaderRow(a)] && db.reports[0] == Sql.HeaderRow(a);
  }
}
