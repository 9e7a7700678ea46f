/** The upload loop over the SQL store, which is what the program runs. */
module SqlUpload {
  import opened Base
  import opened Sorting
  import opened Reports
  import opened Upload
  import Sql = ReportSqlStore

  /** One report through the loop body. */
  function SqlStep(db: Sql.Db, t: Tally, registered: set<string>, rep: Report): (Sql.Db, Tally)
  {
    if rep.domain !in registered then
      (db, t.(skipped := t.skipped[rep.domain := (if rep.domain in t.skipped then t.skipped[rep.domain] else 0) + 1]))
    else
      var (db', stored) := Sql.Put(db, rep);
      (db', if stored then t.(ingested := t.ingested + 1, touched := t.touched + {rep.domain})
            else t.(duplicates := t.duplicates + 1))
  }

  function SqlIngest(db: Sql.Db, registered: set<string>, reps: seq<Report>): (Sql.Db, Tally)
  {
    if reps == [] then (db, NOTHING)
    else
      var (db', t) := SqlIngest(db, registered, reps[..|reps| - 1]);
      SqlStep(db', t, registered, reps[|reps| - 1])
  }

  /** Everything parsed is accounted for. */
  lemma {:induction false} SqlEveryReportCounted(db: Sql.Db, registered: set<string>, reps: seq<Report>)
    ensures var t := SqlIngest(db, registered, reps).1;
            |reps| == t.ingested + t.duplicates + SkippedTotal(t.skipped)
  {
    if reps != [] {
      var n := |reps| - 1;
      SqlEveryReportCounted(db, registered, reps[..n]);
      SkippedGrows(SqlIngest(db, registered, reps[..n]).1.skipped, reps[n].domain);
    }
  }

  /** The table keeps its rows and gains one per report ingested; the touched domains are
      those of the new rows. */
  ghost predicate TableGrown(db: Sql.Db, db': Sql.Db, t: Tally)
  {
    && db.reports <= db'.reports && db.rows <= db'.rows
    && |db'.reports| == |db.reports| + t.ingested
    && t.touched == set i | |db.reports| <= i < |db'.reports| :: db'.reports[i].domain
  }

  lemma TableGrownStep(db: Sql.Db, mid: Sql.Db, t: Tally, rep: Report)
    requires TableGrown(db, mid, t)
    ensures TableGrown(db, Sql.Insert(mid, rep), t.(ingested := t.ingested + 1, touched := t.touched + {rep.domain}))
  {
    var next := Sql.Insert(mid, rep);
    assert next.reports[|mid.reports|] == Sql.HeaderRow(rep);
    assert forall i :: 0 <= i < |mid.reports| ==> next.reports[i] == mid.reports[i];
  }

  lemma {:induction false} SqlOnlyGrows(db: Sql.Db, registered: set<string>, reps: seq<Report>)
    ensures TableGrown(db, SqlIngest(db, registered, reps).0, SqlIngest(db, registered, reps).1)
  {
    if reps != [] {
      var n := |reps| - 1;
      SqlOnlyGrows(db, registered, reps[..n]);
      var (mid, t) := SqlIngest(db, registered, reps[..n]);
      TableGrownStep(db, mid, t, reps[n]);
      hide Sql.Insert, Sql.HasKey;
    }
  }

  lemma PutHas(db: Sql.Db, rep: Report, key: (string, string, string))
    ensures Sql.HasKey(Sql.Put(db, rep).0, Identity(rep))
    ensures Sql.HasKey(db, key) ==> Sql.HasKey(Sql.Put(db, rep).0, key)
  {
    var more := Sql.Insert(db, rep);
    assert more.reports[|db.reports|] == Sql.HeaderRow(rep) && Sql.RowKey(Sql.HeaderRow(rep)) == Identity(rep);
    if i :| 0 <= i < |db.reports| && Sql.RowKey(db.reports[i]) == key {
      assert more.reports[i] == db.reports[i];
    }
  }

  lemma {:induction false} SqlAllStored(db: Sql.Db, registered: set<string>, reps: seq<Report>, i: nat)
    requires i < |reps| && reps[i].domain in registered
    ensures Sql.HasKey(SqlIngest(db, registered, reps).0, Identity(reps[i]))
  {
    var n := |reps| - 1;
    var mid := SqlIngest(db, registered, reps[..n]).0;
    PutHas(mid, reps[n], Identity(reps[i]));
    if i < n { SqlAllStored(db, registered, reps[..n], i); }
    hide Sql.Put, Sql.HasKey;
  }

  lemma {:induction false} SqlNothingNew(db: Sql.Db, registered: set<string>, reps: seq<Report>)
    requires forall i :: 0 <= i < |reps| && reps[i].domain in registered ==> Sql.HasKey(db, Identity(reps[i]))
    ensures var (db', t) := SqlIngest(db, registered, reps); db' == db && t.ingested == 0 && t.touched == {}
  {
    if reps != [] {
      var n := |reps| - 1;
      hide Sql.HasKey, Identity;
      assert forall i :: 0 <= i < n ==> reps[..n][i] == reps[i];
      SqlNothingNew(db, registered, reps[..n]);
    }
  }

  /** Uploading the same files again ingests nothing and leaves the tables as they are. */
  lemma SqlRepeatIsIdle(db: Sql.Db, registered: set<string>, reps: seq<Report>)
    ensures var db1 := SqlIngest(db, registered, reps).0;
            var (db2, t) := SqlIngest(db1, registered, reps);
            db2 == db1 && t.ingested == 0 && t.touched == {}
  {
    hide *;
    forall i | 0 <= i < |reps| && reps[i].domain in registered
      ensures Sql.HasKey(SqlIngest(db, registered, reps).0, Identity(reps[i]))
    {
      SqlAllStored(db, registered, reps, i);
    }
    SqlNothingNew(SqlIngest(db, registered, reps).0, registered, reps);
  }

  lemma SqlIngestStep(db: Sql.Db, registered: set<string>, reps: seq<Report>, rep: Report)
    ensures SqlIngest(db, registered, reps + [rep]) ==
            SqlStep(SqlIngest(db, registered, reps).0, SqlIngest(db, registered, reps).1, registered, rep)
  {
    assert (reps + [rep])[..|reps|] == reps;
  }

  method HandleUpload(store: Sql.SqlStore, registered: set<string>, files: seq<File>) returns (res: UploadResult)
    modifies store
    ensures var (db, t) := SqlIngest(old(store.db), registered, AllReports(files));
            && store.db == db
            && res == UploadResult(t.ingested, t.duplicates, t.skipped, Failed(files), Sorted(t.touched))
  {
    var tally := NOTHING;
    var failed: seq<string> := [];
    for i := 0 to |files|
      invariant (store.db, tally) == SqlIngest(old(store.db), registered, AllReports(files[..i]))
      invariant failed == Failed(files[..i])
    {
      assert files[..i + 1][..i] == files[..i];
      ghost var before := AllReports(files[..i]);
      match files[i]
      case Unreadable(name) =>
        failed := failed + [name];
        assert before + [] == before;
      case Parsed(_, reps) =>
        tally := IngestFile(store, old(store.db), before, registered, reps, tally);
    }
    assert files[..|files|] == files;
    res := UploadResult(tally.ingested, tally.duplicates, tally.skipped, failed, Sorted(tally.touched));
  }

  method IngestFile(store: Sql.SqlStore, ghost start: Sql.Db, ghost before: seq<Report>,
                    registered: set<string>, reps: seq<Report>, tally: Tally) returns (out: Tally)
    requires (store.db, tally) == SqlIngest(start, registered, before)
    modifies store
    ensures (store.db, out) == SqlIngest(start, registered, before + reps)
  {
    hide SqlIngest, SqlStep;
    out := tally;
    assert before + reps[..0] == before;
    for i := 0 to |reps|
      invariant (store.db, out) == SqlIngest(start, registered, before + reps[..i])
    {
      SqlIngestStep(start, registered, before + reps[..i], reps[i]);
      assert before + reps[..i] + [reps[i]] == before + reps[..i + 1];
      out := IngestReport(store, registered, reps[i], out);
    }
    assert before + reps[..|reps|] == before + reps;
  }

  method IngestReport(store: Sql.SqlStore, registered: set<string>, rep: Report, tally: Tally) returns (out: Tally)
    modifies store
    ensures (store.db, out) == SqlStep(old(store.db), tally, registered, rep)
  {
    out := tally;
    if rep.domain !in registered {
      var n := if rep.domain in out.skipped then out.skipped[rep.domain] else 0;
      out := out.(skipped := out.skipped[rep.domain := n + 1]);
    } else {
      var stored := store.PutReport(rep);
      if stored {
        out := out.(ingested := out.ingested + 1, touched := out.touched + {rep.domain});
      } else {
        out := out.(duplicates := out.duplicates + 1);
      }
    }
  }
}
