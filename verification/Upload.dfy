/** The upload loop of the console: every report of every readable file is ingested,
    recognised as a duplicate, or skipped because nobody watches its domain. */
module Upload {
  import opened Base
  import opened Sums
  import opened Sorting
  import opened Reports
  import Mem = ReportMemStore

  /** A file either could not be read and parsed, or gave these reports. */
  datatype File = Unreadable(name: string) | Parsed(name: string, reps: seq<Report>)

  datatype Tally = Tally(ingested: nat, duplicates: nat, skipped: map<string, nat>, touched: set<string>)

  datatype UploadResult = UploadResult(
    ingested: nat, duplicates: nat, skippedUnknown: map<string, nat>, failedFiles: seq<string>, domains: seq<string>)

  const NOTHING := Tally(0, 0, map[], {})

  /** One report through the loop body. */
  function Step(m: Mem.Table, t: Tally, registered: set<string>, rep: Report): (Mem.Table, Tally)
  {
    if rep.domain !in registered then
      (m, t.(skipped := t.skipped[rep.domain := (if rep.domain in t.skipped then t.skipped[rep.domain] else 0) + 1]))
    else
      var (m', stored) := Mem.Put(m, rep);
      (m', if stored then t.(ingested := t.ingested + 1, touched := t.touched + {rep.domain})
           else t.(duplicates := t.duplicates + 1))
  }

  function Ingest(m: Mem.Table, registered: set<string>, reps: seq<Report>): (Mem.Table, Tally)
  {
    if reps == [] then (m, NOTHING)
    else
      var n := |reps| - 1;
      var (m', t) := Ingest(m, registered, reps[..n]);
      Step(m', t, registered, reps[n])
  }

  function AllReports(files: seq<File>): seq<Report>
  {
    if files == [] then []
    else
      var f := files[|files| - 1];
      AllReports(files[..|files| - 1]) + (if f.Parsed? then f.reps else [])
  }

  function Failed(files: seq<File>): seq<string>
  {
    if files == [] then []
    else
      var f := files[|files| - 1];
      Failed(files[..|files| - 1]) + (if f.Unreadable? then [f.name] else [])
  }

  /** Every report of every readable file, in order, and nothing of the others; the others
      are listed by name. */
  lemma {:induction false} FilesAre(a: seq<File>, b: seq<File>, name: string, reps: seq<Report>)
    ensures AllReports(a + b) == AllReports(a) + AllReports(b) && Failed(a + b) == Failed(a) + Failed(b)
    ensures AllReports([Parsed(name, reps)]) == reps && Failed([Parsed(name, reps)]) == []
    ensures AllReports([Unreadable(name)]) == [] && Failed([Unreadable(name)]) == [name]
  {
    if b == [] {
      assert a + b == a;
      assert forall f: File :: [f][..0] == [];
    } else {
      var n := |b| - 1;
      FilesAre(a, b[..n], name, reps);
      assert (a + b)[..|a + b| - 1] == a + b[..n];
    }
  }

  // ---- accounting --------------------------------------------------------------------

  function CountOf(skipped: map<string, nat>): string -> int
  {
    d => if d in skipped then skipped[d] else 0
  }

  ghost function SkippedTotal(skipped: map<string, nat>): int
  {
    SetSum(skipped.Keys, CountOf(skipped))
  }

  lemma SkippedGrows(skipped: map<string, nat>, d: string)
    ensures SkippedTotal(skipped[d := CountOf(skipped)(d) + 1]) == SkippedTotal(skipped) + 1
  {
    var next := skipped[d := CountOf(skipped)(d) + 1];
    var rest := skipped.Keys - {d};
    SumCongruence(rest, CountOf(skipped), CountOf(next));
    SumRemove(next.Keys, d, CountOf(next));
    assert next.Keys - {d} == rest;
    if d in skipped {
      SumRemove(skipped.Keys, d, CountOf(skipped));
    } else {
      assert rest == skipped.Keys;
    }
  }

  /** Everything parsed is accounted for. */
  lemma {:induction false} EveryReportCounted(m: Mem.Table, registered: set<string>, reps: seq<Report>)
    ensures var t := Ingest(m, registered, reps).1;
            |reps| == t.ingested + t.duplicates + SkippedTotal(t.skipped)
  {
    if reps != [] {
      var n := |reps| - 1;
      EveryReportCounted(m, registered, reps[..n]);
      SkippedGrows(Ingest(m, registered, reps[..n]).1.skipped, reps[n].domain);
    }
  }

  function NewDomains(m: Mem.Table, m': Mem.Table): set<string>
  {
    set k | k in m' && k !in m :: m'[k].domain
  }

  /** The store only grows, by exactly as many reports as were ingested, and the touched
      domains are exactly those with a new report. */
  ghost predicate Grown(m: Mem.Table, m': Mem.Table, t: Tally)
  {
    && (forall k :: k in m ==> k in m' && m'[k] == m[k])
    && |m'| == |m| + t.ingested
    && t.touched == NewDomains(m, m')
  }

  lemma GrownStep(m: Mem.Table, m1: Mem.Table, t: Tally, rep: Report)
    requires Grown(m, m1, t) && Key(rep) !in m1
    ensures Grown(m, m1[Key(rep) := rep], t.(ingested := t.ingested + 1, touched := t.touched + {rep.domain}))
  {
    var k := Key(rep);
    var m2 := m1[k := rep];
    assert m2.Keys == m1.Keys + {k};
    assert k in m2 && k !in m && m2[k] == rep;
    forall d | d in NewDomains(m, m1) ensures d in NewDomains(m, m2) {
      var j :| j in m1 && j !in m && m1[j].domain == d;
      assert j in m2 && m2[j] == m1[j];
    }
  }

  lemma {:induction false} OnlyGrows(m: Mem.Table, registered: set<string>, reps: seq<Report>)
    ensures Grown(m, Ingest(m, registered, reps).0, Ingest(m, registered, reps).1)
  {
    if reps != [] {
      var n := |reps| - 1;
      OnlyGrows(m, registered, reps[..n]);
      var (m1, t) := Ingest(m, registered, reps[..n]);
      if Key(reps[n]) !in m1 {
        GrownStep(m, m1, t, reps[n]);
      }
    }
  }

  lemma {:induction false} AllStored(m: Mem.Table, registered: set<string>, reps: seq<Report>, i: nat)
    requires i < |reps| && reps[i].domain in registered
    ensures Key(reps[i]) in Ingest(m, registered, reps).0
  {
    var n := |reps| - 1;
    if i < n {
      AllStored(m, registered, reps[..n], i);
    }
  }

  lemma {:induction false} NothingNew(m: Mem.Table, registered: set<string>, reps: seq<Report>)
    requires forall i :: 0 <= i < |reps| && reps[i].domain in registered ==> Key(reps[i]) in m
    ensures var (m', t) := Ingest(m, registered, reps); m' == m && t.ingested == 0 && t.touched == {}
  {
    if reps != [] {
      NothingNew(m, registered, reps[..|reps| - 1]);
    }
  }

  /** Uploading the same files again ingests nothing and leaves the store as it is. */
  lemma RepeatIsIdle(m: Mem.Table, registered: set<string>, reps: seq<Report>)
    ensures var m1 := Ingest(m, registered, reps).0;
            var (m2, t) := Ingest(m1, registered, reps);
            m2 == m1 && t.ingested == 0 && t.touched == {}
  {
    forall i | 0 <= i < |reps| && reps[i].domain in registered
      ensures Key(reps[i]) in Ingest(m, registered, reps).0
    {
      AllStored(m, registered, reps, i);
    }
    NothingNew(Ingest(m, registered, reps).0, registered, reps);
  }

  // ---- the loop ------------------------------------------------------------------------

  lemma IngestStep(m: Mem.Table, registered: set<string>, reps: seq<Report>, rep: Report)
    ensures Ingest(m, registered, reps + [rep]) ==
            Step(Ingest(m, registered, reps).0, Ingest(m, registered, reps).1, registered, rep)
  {
  }

  method HandleUpload(store: Mem.MemStore, registered: set<string>, files: seq<File>) returns (res: UploadResult)
    requires store.Valid()
    modifies store
    ensures store.Valid()
    ensures var (m, t) := Ingest(old(store.reports), registered, AllReports(files));
            && store.reports == m
            && res == UploadResult(t.ingested, t.duplicates, t.skipped, Failed(files), Sorted(t.touched))
  {
    var tally := NOTHING;
    var failed: seq<string> := [];
    for i := 0 to |files|
      invariant store.Valid()
      invariant (store.reports, tally) == Ingest(old(store.reports), registered, AllReports(files[..i]))
      invariant failed == Failed(files[..i])
    {
      assert files[..i + 1][..i] == files[..i];
      ghost var before := AllReports(files[..i]);
      match files[i]
      case Unreadable(name) =>
        failed := failed + [name];
        assert before + [] == before;
      case Parsed(_, reps) =>
        tally := IngestFile(store, old(store.reports), before, registered, reps, tally);
    }
    assert files[..|files|] == files;
    res := UploadResult(tally.ingested, tally.duplicates, tally.skipped, failed, Sorted(tally.touched));
  }

  method IngestFile(store: Mem.MemStore, ghost start: Mem.Table, ghost before: seq<Report>,
                    registered: set<string>, reps: seq<Report>, tally: Tally) returns (out: Tally)
    requires store.Valid() && (store.reports, tally) == Ingest(start, registered, before)
    modifies store
    ensures store.Valid() && (store.reports, out) == Ingest(start, registered, before + reps)
  {
    hide Ingest, Step;
    out := tally;
    assert before + reps[..0] == before;
    for i := 0 to |reps|
      invariant store.Valid() && (store.reports, out) == Ingest(start, registered, before + reps[..i])
    {
      IngestStep(start, registered, before + reps[..i], reps[i]);
      assert before + reps[..i] + [reps[i]] == before + reps[..i + 1];
      out := IngestReport(store, registered, reps[i], out);
    }
    assert before + reps[..|reps|] == before + reps;
  }

  method IngestReport(store: Mem.MemStore, registered: set<string>, rep: Report, tally: Tally) returns (out: Tally)
    requires store.Valid()
    modifies store
    ensures store.Valid() && (store.reports, out) == Step(old(store.reports), tally, registered, rep)
  {
    out := tally;
    if rep.domain !in registered {
      var n := if rep.domain in out.skipped then out.skipped[rep.domain] else 0;
      out := out.(skipped := out.skipped[rep.domain := n + 1]);
    } else {
      var stored := store.PutReport(rep);
      if stored {
        out := out.(ingested := out.ingested + 1, touched := out.touched + {rep.domain});
      } else {
        out := out.(duplicates := out.duplicates + 1);
      }
    }
  }
}
