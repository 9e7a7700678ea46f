/** The finding engine over the SQL table keeps the same records as over the map. */
module FindingAgreement {
  import opened Base
  import opened Findings
  import opened FindingStores
  import opened Reconcile
  import opened Lifecycle

  // ---- the engine as a list of upserts ----------------------------------------------------

  /** The upserts of the first loop. */
  function FreshWrites(ex: Table, s: Scan, n: nat): seq<Record>
    requires n <= |s.found|
  {
    if n == 0 then []
    else FreshWrites(ex, s, n - 1) + (if Valid(s.found[n - 1]) then [FreshRecord(ex, s, n - 1)] else [])
  }

  /** The upserts of the second loop, in listing order. */
  function AbsentWrites(listed: seq<Record>, s: Scan): seq<Record>
  {
    if listed == [] then []
    else
      var r := listed[|listed| - 1];
      AbsentWrites(listed[..|listed| - 1], s)
      + (if KeyOf(r) !in Seen(s, |s.found|) && Live(r) then [Missed(r, s.now, Threshold(s))] else [])
  }

  function Indexed(listed: seq<Record>): Table
  {
    if listed == [] then map[] else Stored(Indexed(listed[..|listed| - 1]), listed[|listed| - 1])
  }

  function SqlWrites(rows: seq<Record>, writes: seq<Record>): Result<seq<Record>, SqlError>
  {
    if writes == [] then Ok(rows)
    else
      match SqlWrites(rows, writes[..|writes| - 1])
      case Err(e) => Err(e)
      case Ok(mid) => SqlUpsert(mid, writes[|writes| - 1])
  }

  function SqlScan(rows: seq<Record>, s: Scan): Result<seq<Record>, SqlError>
  {
    var listed := Selected(rows, s.mod, s.target);
    SqlWrites(rows, FreshWrites(Indexed(listed), s, |s.found|) + AbsentWrites(listed, s))
  }

  function SqlEdit(rows: seq<Record>, k: Key, status: Status): Result<seq<Record>, SqlError>
  {
    if status == Resolved || !HasRow(rows, k) then Ok(rows)
    else SqlUpsert(rows, rows[RowIndex(rows, k)].(status := status))
  }

  function SqlApply(rows: seq<Record>, e: Event): Result<seq<Record>, SqlError>
  {
    match e
    case ScanEvent(s) => SqlScan(rows, s)
    case EditEvent(k, status) => SqlEdit(rows, k, status)
  }

  function SqlRun(events: seq<Event>): Result<seq<Record>, SqlError>
  {
    if events == [] then Ok([])
    else
      match SqlRun(events[..|events| - 1])
      case Err(e) => Err(e)
      case Ok(rows) => SqlApply(rows, events[|events| - 1])
  }

  // ---- listings ----------------------------------------------------------------------------

  lemma {:induction false} IndexedAt(listed: seq<Record>, t: Table)
    requires forall i :: 0 <= i < |listed| ==> KeyOf(listed[i]) in t && t[KeyOf(listed[i])] == listed[i]
    ensures Indexed(listed).Keys == KeysOf(listed)
    ensures forall k :: k in Indexed(listed) ==> k in t && Indexed(listed)[k] == t[k]
  {
    if listed != [] {
      var n := |listed| - 1;
      IndexedAt(listed[..n], t);
      KeysSnoc(listed[..n], listed[n]);
      assert listed[..n] + [listed[n]] == listed;
    }
  }

  lemma IndexIsTable(listed: seq<Record>, t: Table)
    requires Lists(listed, t)
    ensures Indexed(listed) == t
  {
    IndexedAt(listed, t);
  }

  lemma {:induction false} SelectedAre(rows: seq<Record>, mod: string, target: string)
    ensures forall r :: r in Selected(rows, mod, target) <==> r in rows && r.mod == mod && r.finding.target == target
  {
    if rows != [] {
      var n := |rows| - 1;
      SelectedAre(rows[..n], mod, target);
      assert rows == rows[..n] + [rows[n]];
    }
  }

  predicate Distinct(rows: seq<Record>) { forall i, j :: 0 <= i < j < |rows| ==> KeyOf(rows[i]) != KeyOf(rows[j]) }

  lemma {:induction false} SelectedDistinct(rows: seq<Record>, mod: string, target: string)
    requires Distinct(rows)
    ensures Distinct(Selected(rows, mod, target))
  {
    if rows != [] {
      var n := |rows| - 1;
      SelectedDistinct(rows[..n], mod, target);
      SelectedAre(rows[..n], mod, target);
      var few := Selected(rows[..n], mod, target);
      forall i | 0 <= i < |few| ensures KeyOf(few[i]) != KeyOf(rows[n]) {
        assert few[i] in rows[..n];
      }
    }
  }

  /** Both stores list the same records for a target. */
  lemma ListingsAgree(rows: seq<Record>, t: Table, mod: string, target: string)
    requires Lists(rows, t)
    ensures Lists(Selected(rows, mod, target), OnTarget(t, mod, target))
  {
    var out, want := Selected(rows, mod, target), OnTarget(t, mod, target);
    SelectedAre(rows, mod, target);
    SelectedDistinct(rows, mod, target);
    forall k | k in want ensures k in KeysOf(out) {
      assert k in KeysOf(rows);
      var i :| 0 <= i < |rows| && KeyOf(rows[i]) == k;
      assert rows[i] in out;
    }
    forall i | 0 <= i < |out| ensures KeyOf(out[i]) in want && want[KeyOf(out[i])] == out[i] {
      assert out[i] in rows;
    }
  }

  // ---- one scan -----------------------------------------------------------------------------

  function IDs(t: Table): set<string> { set k | k in t :: t[k].id }

  predicate Inserts(ex: Table, s: Scan, i: nat)
    requires i < |s.found|
  {
    Valid(s.found[i]) && FreshKey(s, i) !in ex
  }

  /** The ids handed to new records are in nobody's use. */
  ghost predicate NewIDs(t: Table, s: Scan)
  {
    var ex := Existing(t, s);
    && (forall i :: 0 <= i < |s.found| && Inserts(ex, s, i) ==> s.ids[i] !in IDs(t))
    && (forall i, j :: 0 <= i < j < |s.found| && Inserts(ex, s, i) && Inserts(ex, s, j) ==> s.ids[i] != s.ids[j])
  }

  function GivenIDs(ex: Table, s: Scan, n: nat): set<string>
    requires n <= |s.found|
  {
    set i | 0 <= i < n && Inserts(ex, s, i) :: s.ids[i]
  }

  lemma {:induction false} FreshIDs(t: Table, s: Scan, n: nat)
    requires n <= |s.found|
    ensures IDs(ApplyFresh(t, Existing(t, s), s, n)) <= IDs(t) + GivenIDs(Existing(t, s), s, n)
  {
    if n > 0 {
      FreshIDs(t, s, n - 1);
      var ex := Existing(t, s);
      var i := n - 1;
      assert GivenIDs(ex, s, i) <= GivenIDs(ex, s, n);
      if Valid(s.found[i]) {
        FreshID(t, s, i);
        IDsStored(ApplyFresh(t, ex, s, i), FreshKey(s, i), FreshRecord(ex, s, i));
      }
      hide Valid, FreshRecord, Existing, IDs, GivenIDs;
    }
  }

  lemma IDsStored(t: Table, k: Key, r: Record)
    ensures IDs(t[k := r]) <= IDs(t) + {r.id}
  {
  }

  lemma FreshID(t: Table, s: Scan, i: nat)
    requires i < |s.found| && Valid(s.found[i])
    ensures FreshRecord(Existing(t, s), s, i).id in IDs(t) + GivenIDs(Existing(t, s), s, i + 1)
  {
  }

  /** The fingerprint is stored under another target. */
  predicate ForeignAt(t: Table, s: Scan, i: nat)
    requires i < |s.found|
  {
    Valid(s.found[i]) && FreshKey(s, i) in t && t[FreshKey(s, i)].finding.target != s.target
  }

  ghost predicate Foreign(t: Table, s: Scan) { exists i :: 0 <= i < |s.found| && ForeignAt(t, s, i) }

  lemma ExistingIs(t: Table, s: Scan, k: Key)
    requires Keyed(t)
    ensures k in Existing(t, s) <==> k in t && k.0 == s.mod && t[k].finding.target == s.target
    ensures k in Existing(t, s) ==> Existing(t, s)[k] == t[k]
  {
  }

  lemma FreshAgreeable(t: Table, s: Scan, i: nat)
    requires Keyed(t) && DistinctFresh(s) && NewIDs(t, s)
    requires i < |s.found| && Valid(s.found[i]) && !ForeignAt(t, s, i)
    ensures Agreeable(ApplyFresh(t, Existing(t, s), s, i), FreshRecord(Existing(t, s), s, i))
  {
    var ex, k := Existing(t, s), FreshKey(s, i);
    var now, r := ApplyFresh(t, ex, s, i), FreshRecord(ex, s, i);
    NotSeenTwice(s, i);
    FreshAt(t, ex, s, i, k);
    ExistingIs(t, s, k);
    FreshIDs(t, s, i);
    hide Valid, ApplyFresh, Existing;
    if k !in t {
      assert Inserts(ex, s, i);
      assert s.ids[i] !in GivenIDs(ex, s, i);
      forall j | j in now ensures now[j].id != r.id {
        assert now[j].id in IDs(now);
      }
    }
  }

  lemma FreshKeyed(ex: Table, s: Scan, i: nat)
    requires i < |s.found| && Keyed(ex)
    ensures KeyOf(FreshRecord(ex, s, i)) == FreshKey(s, i)
  {
  }

  lemma WritesSnoc(rows: seq<Record>, writes: seq<Record>, r: Record, t: Table)
    requires SqlWrites(rows, writes).Ok? && RowsHold(SqlWrites(rows, writes).value, t) && Agreeable(t, r)
    ensures SqlWrites(rows, writes + [r]).Ok? && RowsHold(SqlWrites(rows, writes + [r]).value, Stored(t, r))
  {
    UpsertAgrees(SqlWrites(rows, writes).value, t, r);
    assert (writes + [r])[..|writes|] == writes;
  }

  lemma {:induction false} FreshWritesAgree(rows: seq<Record>, t: Table, s: Scan, n: nat)
    requires RowsHold(rows, t) && Keyed(t) && DistinctFresh(s) && NewIDs(t, s) && !Foreign(t, s) && n <= |s.found|
    ensures var ex := Existing(t, s); var res := SqlWrites(rows, FreshWrites(ex, s, n));
            res.Ok? && RowsHold(res.value, ApplyFresh(t, ex, s, n))
  {
    if n > 0 {
      var ex, i := Existing(t, s), n - 1;
      FreshWritesAgree(rows, t, s, i);
      if Valid(s.found[i]) {
        assert !ForeignAt(t, s, i);
        FreshAgreeable(t, s, i);
        FreshKeyed(ex, s, i);
        hide RowsHold, Agreeable, FreshRecord, Valid, SqlWrites, Existing, DistinctFresh, NewIDs, Foreign;
        WritesSnoc(rows, FreshWrites(ex, s, i), FreshRecord(ex, s, i), ApplyFresh(t, ex, s, i));
      } else {
        assert FreshWrites(ex, s, i) + [] == FreshWrites(ex, s, i);
      }
    }
  }

  lemma AbsentAgreeable(t: Table, s: Scan, keys: set<Key>, k: Key)
    requires Keyed(t) && DistinctFresh(s)
    requires k in Existing(t, s) && k !in keys && Misses(Existing(t, s), s, k)
    ensures var ex := Existing(t, s);
            Agreeable(ApplyFresh(t, ex, s, |s.found|) + AbsentAmong(ex, s, keys), Missed(ex[k], s.now, Threshold(s)))
  {
    var ex := Existing(t, s);
    FreshAt(t, ex, s, |s.found|, k);
    ExistingIs(t, s, k);
    hide Seen, ApplyFresh, DistinctFresh, Existing;
  }

  lemma {:induction false} AbsentWritesAgree(rows: seq<Record>, t: Table, s: Scan, listed: seq<Record>, n: nat)
    requires RowsHold(rows, t) && Keyed(t) && DistinctFresh(s) && NewIDs(t, s) && !Foreign(t, s)
    requires Lists(listed, Existing(t, s)) && n <= |listed|
    ensures var ex := Existing(t, s);
            var res := SqlWrites(rows, FreshWrites(ex, s, |s.found|) + AbsentWrites(listed[..n], s));
            && res.Ok?
            && RowsHold(res.value, ApplyFresh(t, ex, s, |s.found|) + AbsentAmong(ex, s, KeysOf(listed[..n])))
  {
    var ex := Existing(t, s);
    if n == 0 {
      var done := FreshWrites(ex, s, |s.found|);
      FreshWritesAgree(rows, t, s, |s.found|);
      NoneAbsent(ApplyFresh(t, ex, s, |s.found|), ex, s);
      assert listed[..0] == [] && done + [] == done;
    } else {
      AbsentWritesAgree(rows, t, s, listed, n - 1);
      hide *;
      AbsentStep(rows, t, s, listed, n - 1);
    }
  }

  lemma AbsentStep(rows: seq<Record>, t: Table, s: Scan, listed: seq<Record>, i: nat)
    requires Keyed(t) && DistinctFresh(s) && Lists(listed, Existing(t, s)) && i < |listed|
    requires var ex := Existing(t, s);
             var res := SqlWrites(rows, FreshWrites(ex, s, |s.found|) + AbsentWrites(listed[..i], s));
             && res.Ok?
             && RowsHold(res.value, ApplyFresh(t, ex, s, |s.found|) + AbsentAmong(ex, s, KeysOf(listed[..i])))
    ensures var ex := Existing(t, s);
            var res := SqlWrites(rows, FreshWrites(ex, s, |s.found|) + AbsentWrites(listed[..i + 1], s));
            && res.Ok?
            && RowsHold(res.value, ApplyFresh(t, ex, s, |s.found|) + AbsentAmong(ex, s, KeysOf(listed[..i + 1])))
  {
    hide *;
    var ex := Existing(t, s);
    var base, done := ApplyFresh(t, ex, s, |s.found|), FreshWrites(ex, s, |s.found|);
    var keys, r := KeysOf(listed[..i]), listed[i];
    var few := AbsentWrites(listed[..i], s);
    ListedNext(listed, ex, i);
    AbsentGrow(base, ex, s, keys, KeyOf(r));
    AbsentSnoc(listed, ex, s, i);
    if Misses(ex, s, KeyOf(r)) {
      AbsentAgreeable(t, s, keys, KeyOf(r));
      MissedKey(r, s.now, Threshold(s));
      WritesSnocAt(rows, done, few, Missed(r, s.now, Threshold(s)), base + AbsentAmong(ex, s, keys), KeyOf(r));
    }
  }

  lemma AbsentSnoc(listed: seq<Record>, ex: Table, s: Scan, i: nat)
    requires i < |listed| && KeyOf(listed[i]) in ex && ex[KeyOf(listed[i])] == listed[i]
    ensures AbsentWrites(listed[..i + 1], s) ==
            if Misses(ex, s, KeyOf(listed[i])) then
              AbsentWrites(listed[..i], s) + [Missed(listed[i], s.now, Threshold(s))]
            else AbsentWrites(listed[..i], s)
  {
    assert listed[..i + 1][..i] == listed[..i];
  }

  lemma WritesSnocAt(rows: seq<Record>, a: seq<Record>, b: seq<Record>, r: Record, t: Table, k: Key)
    requires SqlWrites(rows, a + b).Ok? && RowsHold(SqlWrites(rows, a + b).value, t) && Agreeable(t, r) && KeyOf(r) == k
    ensures SqlWrites(rows, a + (b + [r])).Ok? && RowsHold(SqlWrites(rows, a + (b + [r])).value, t[k := r])
  {
    WritesSnoc(rows, a + b, r, t);
    assert a + b + [r] == a + (b + [r]);
  }

  lemma ScanAgreesHome(rows: seq<Record>, t: Table, s: Scan)
    requires RowsHold(rows, t) && Keyed(t) && DistinctFresh(s) && NewIDs(t, s) && !Foreign(t, s)
    ensures SqlScan(rows, s).Ok? && RowsHold(SqlScan(rows, s).value, After(t, s))
  {
    var listed, ex := Selected(rows, s.mod, s.target), Existing(t, s);
    ListingsAgree(rows, t, s.mod, s.target);
    IndexIsTable(listed, ex);
    AbsentWritesAgree(rows, t, s, listed, |listed|);
    assert listed[..|listed|] == listed;
    ListedAll(listed, ex);
    hide Lists, RowsHold, ApplyFresh, AbsentAmong, SqlWrites, FreshWrites, AbsentWrites, NewIDs, DistinctFresh, Foreign;
  }

  // ---- rows never change their identity ------------------------------------------------------

  predicate SameRow(a: Record, b: Record)
  {
    && a.id == b.id && KeyOf(a) == KeyOf(b) && a.firstSeen == b.firstSeen
    && a.finding.target == b.finding.target && a.finding.check == b.finding.check
  }

  predicate RowsStay(before: seq<Record>, after: seq<Record>)
  {
    |before| <= |after| && forall j :: 0 <= j < |before| ==> SameRow(before[j], after[j])
  }

  lemma {:induction false} WritesStay(rows: seq<Record>, writes: seq<Record>)
    requires SqlWrites(rows, writes).Ok?
    ensures RowsStay(rows, SqlWrites(rows, writes).value)
  {
    if writes != [] {
      var n := |writes| - 1;
      WritesStay(rows, writes[..n]);
      UpsertStays(SqlWrites(rows, writes[..n]).value, writes[n]);
      hide SameRow, SqlUpsert;
      StayTwice(rows, SqlWrites(rows, writes[..n]).value, SqlWrites(rows, writes).value);
    }
  }

  lemma UpsertStays(rows: seq<Record>, r: Record)
    requires SqlUpsert(rows, r).Ok?
    ensures RowsStay(rows, SqlUpsert(rows, r).value)
  {
  }

  lemma StayTwice(a: seq<Record>, b: seq<Record>, c: seq<Record>)
    requires RowsStay(a, b) && RowsStay(b, c)
    ensures RowsStay(a, c)
  {
  }

  /** Nothing a scan does changes the id, target, check or first seen of a row. */
  lemma ScanStays(rows: seq<Record>, s: Scan)
    requires SqlScan(rows, s).Ok?
    ensures RowsStay(rows, SqlScan(rows, s).value)
  {
    var listed := Selected(rows, s.mod, s.target);
    WritesStay(rows, FreshWrites(Indexed(listed), s, |s.found|) + AbsentWrites(listed, s));
  }

  /** The map takes a foreign fingerprint over under a new id. */
  lemma ForeignTaken(t: Table, s: Scan, i: nat)
    requires Keyed(t) && DistinctFresh(s) && NewIDs(t, s) && i < |s.found| && ForeignAt(t, s, i)
    ensures var k := FreshKey(s, i); k in After(t, s) && After(t, s)[k].id != t[k].id
  {
    var ex, k := Existing(t, s), FreshKey(s, i);
    ExistingIs(t, s, k);
    FreshAt(t, ex, s, |s.found|, k);
    assert Inserts(ex, s, i) && t[k].id in IDs(t);
    assert k !in AbsentAmong(ex, s, ex.Keys);
    hide Existing, ApplyFresh, Valid, AbsentAmong, DistinctFresh, IDs;
    assert After(t, s)[k] == FreshRecord(ex, s, i);
  }

  /** One scan over the table leaves the records of the map exactly when no finding of it
      is stored under another target. */
  lemma ScanAgrees(rows: seq<Record>, t: Table, s: Scan)
    requires RowsHold(rows, t) && Keyed(t) && DistinctFresh(s) && NewIDs(t, s)
    ensures SqlScan(rows, s).Ok? && RowsHold(SqlScan(rows, s).value, After(t, s)) <==> !Foreign(t, s)
  {
    if !Foreign(t, s) {
      ScanAgreesHome(rows, t, s);
    } else if SqlScan(rows, s).Ok? {
      var i :| 0 <= i < |s.found| && ForeignAt(t, s, i);
      ForeignTaken(t, s, i);
      ScanStays(rows, s);
      hide SqlScan, After, NewIDs, DistinctFresh, ForeignAt;
      RowsPart(rows, t, SqlScan(rows, s).value, After(t, s), FreshKey(s, i));
    }
  }

  lemma RowsPart(rows: seq<Record>, t: Table, after: seq<Record>, u: Table, k: Key)
    requires RowsHold(rows, t) && RowsStay(rows, after) && k in t && k in u && u[k].id != t[k].id
    ensures !RowsHold(after, u)
  {
    assert k in KeysOf(rows);
    var j :| 0 <= j < |rows| && KeyOf(rows[j]) == k;
    assert SameRow(rows[j], after[j]);
  }

  lemma EditAgrees(rows: seq<Record>, t: Table, k: Key, status: Status)
    requires RowsHold(rows, t) && Keyed(t)
    ensures SqlEdit(rows, k, status).Ok? && RowsHold(SqlEdit(rows, k, status).value, Edited(t, k, status))
  {
    RowKeys(rows, t, k);
    if status != Resolved && k in t {
      UpsertAgrees(rows, t, t[k].(status := status));
    }
  }

  // ---- every run ---------------------------------------------------------------------------

  /** New ids are unused and no scan repeats a fingerprint. */
  ghost predicate Orderly(events: seq<Event>)
  {
    forall n :: 0 <= n < |events| && events[n].ScanEvent? ==>
      NewIDs(Run(events[..n]), events[n].scan) && DistinctFresh(events[n].scan)
  }

  /** No scan reports a fingerprint stored under another target. */
  ghost predicate AtHome(events: seq<Event>)
  {
    forall n :: 0 <= n < |events| && events[n].ScanEvent? ==> !Foreign(Run(events[..n]), events[n].scan)
  }

  ghost predicate HoldsAt(events: seq<Event>, n: nat)
    requires n <= |events|
  {
    SqlRun(events[..n]).Ok? && RowsHold(SqlRun(events[..n]).value, Run(events[..n]))
  }

  lemma AfterKeyed(t: Table, s: Scan)
    requires Keyed(t)
    ensures Keyed(After(t, s))
  {
    var ex := Existing(t, s);
    ApplyFreshKeyed(t, ex, s, |s.found|);
    hide ApplyFresh, Seen, Live;
  }

  lemma {:induction false} RunKeyed(events: seq<Event>)
    ensures Keyed(Run(events))
  {
    if events != [] {
      var n := |events| - 1;
      RunKeyed(events[..n]);
      match events[n]
      case ScanEvent(s) => AfterKeyed(Run(events[..n]), s);
      case EditEvent(k, status) =>
      hide After;
    }
  }

  lemma StepHolds(events: seq<Event>, n: nat)
    requires n < |events| && Orderly(events) && HoldsAt(events, n)
    ensures HoldsAt(events, n + 1) <==> (events[n].ScanEvent? ==> !Foreign(Run(events[..n]), events[n].scan))
  {
    var e, t, rows := events[n], Run(events[..n]), SqlRun(events[..n]).value;
    RunKeyed(events[..n]);
    assert events[..n + 1][..n] == events[..n];
    assert SqlRun(events[..n + 1]) == SqlApply(rows, e) && Run(events[..n + 1]) == Apply(t, e);
    assert e.ScanEvent? ==> NewIDs(t, e.scan) && DistinctFresh(e.scan);
    hide RowsHold, SqlScan, SqlEdit, After, Edited, DistinctFresh, NewIDs, Run, SqlRun, Foreign, Orderly;
    match e
    case ScanEvent(s) => ScanAgrees(rows, t, s);
    case EditEvent(k, status) => EditAgrees(rows, t, k, status);
  }

  lemma {:induction false} HomeHolds(events: seq<Event>, n: nat)
    requires n <= |events| && Orderly(events) && AtHome(events)
    ensures HoldsAt(events, n)
  {
    if n == 0 {
      assert events[..0] == [];
    } else {
      HomeHolds(events, n - 1);
      StepHolds(events, n - 1);
    }
  }

  /** Whatever scans and edits happen, the SQL table takes them without error and holds the
      records of the map, one row for each, all along the run exactly when no scan reports a
      fingerprint stored under another target. */
  lemma StoresAgree(events: seq<Event>)
    requires Orderly(events)
    ensures (forall n :: 0 <= n <= |events| ==> HoldsAt(events, n)) <==> AtHome(events)
  {
    if AtHome(events) {
      forall n | 0 <= n <= |events| ensures HoldsAt(events, n) {
        HomeHolds(events, n);
      }
    }
    if forall n :: 0 <= n <= |events| ==> HoldsAt(events, n) {
      forall n | 0 <= n < |events| && events[n].ScanEvent? ensures !Foreign(Run(events[..n]), events[n].scan) {
        assert HoldsAt(events, n) && HoldsAt(events, n + 1);
        StepHolds(events, n);
      }
    }
  }

  /** Scans that report only their own target's fingerprints keep everything at home. */
  lemma CoherentRunsAtHome(events: seq<Event>, owner: Owner)
    requires CoherentRun(events, owner)
    ensures AtHome(events)
  {
    forall n | 0 <= n < |events| && events[n].ScanEvent? ensures !Foreign(Run(events[..n]), events[n].scan) {
      assert CoherentRun(events[..n], owner);
      RunRooted(events[..n], owner);
      assert Coherent(events[n].scan, owner);
      hide Run, Valid, DistinctFresh;
    }
  }

  // ---- a shared fingerprint over the table ----------------------------------------------------

  lemma {:induction false} WritesDistinct(rows: seq<Record>, writes: seq<Record>)
    requires Distinct(rows) && SqlWrites(rows, writes).Ok?
    ensures Distinct(SqlWrites(rows, writes).value)
  {
    if writes != [] {
      var n := |writes| - 1;
      WritesDistinct(rows, writes[..n]);
      UpsertDistinct(SqlWrites(rows, writes[..n]).value, writes[n]);
    }
  }

  lemma UpsertDistinct(rows: seq<Record>, r: Record)
    requires Distinct(rows) && SqlUpsert(rows, r).Ok?
    ensures Distinct(SqlUpsert(rows, r).value)
  {
  }

  lemma NotIndexed(listed: seq<Record>, k: Key)
    requires forall r :: r in listed ==> KeyOf(r) != k
    ensures k !in Indexed(listed)
  {
    if listed != [] {
      NotIndexed(listed[..|listed| - 1], k);
    }
  }

  /** One row per key, and the row of `k` belongs to another target. */
  ghost predicate Elsewhere(rows: seq<Record>, k: Key, target: string)
  {
    Distinct(rows) && exists j :: 0 <= j < |rows| && KeyOf(rows[j]) == k && rows[j].finding.target != target
  }

  lemma ElsewhereListed(rows: seq<Record>, k: Key, mod: string, target: string)
    requires Elsewhere(rows, k, target)
    ensures k !in Indexed(Selected(rows, mod, target))
  {
    SelectedAre(rows, mod, target);
    NotIndexed(Selected(rows, mod, target), k);
  }

  lemma ElsewhereStays(rows: seq<Record>, k: Key, s: Scan)
    requires Elsewhere(rows, k, s.target) && SqlScan(rows, s).Ok?
    ensures Elsewhere(SqlScan(rows, s).value, k, s.target)
  {
    var listed := Selected(rows, s.mod, s.target);
    WritesDistinct(rows, FreshWrites(Indexed(listed), s, |s.found|) + AbsentWrites(listed, s));
    ScanStays(rows, s);
    var after := SqlScan(rows, s).value;
    hide SqlScan, Distinct;
    var j :| 0 <= j < |rows| && KeyOf(rows[j]) == k && rows[j].finding.target != s.target;
    assert SameRow(rows[j], after[j]);
  }

  lemma AnnouncedAgain(ex: Table, s: Scan)
    requires |s.found| == 1 && Valid(s.found[0]) && FreshKey(s, 0) !in ex
    ensures NewlyOpen(ex, s, 1) != []
  {
    hide Valid, FreshRecord;
    assert Announced(ex, s, 0);
  }

  /** A row stored for another target stays there: a scan that reports its fingerprint
      does not find it among its own, nor does the next one, and each announces it as newly
      open again. */
  lemma SharedRowStays(rows: seq<Record>, s: Scan, next: Scan, k: Key)
    requires Elsewhere(rows, k, s.target) && SqlScan(rows, s).Ok?
    requires next.mod == s.mod && next.target == s.target
    requires |s.found| == 1 && Valid(s.found[0]) && FreshKey(s, 0) == k
    requires |next.found| == 1 && Valid(next.found[0]) && FreshKey(next, 0) == k
    ensures var after := SqlScan(rows, s).value;
            && RowsStay(rows, after) && Elsewhere(after, k, s.target)
            && NewlyOpen(Indexed(Selected(rows, s.mod, s.target)), s, 1) != []
            && NewlyOpen(Indexed(Selected(after, s.mod, s.target)), next, 1) != []
  {
    hide *;
    var after := SqlScan(rows, s).value;
    ScanStays(rows, s);
    ElsewhereStays(rows, k, s);
    ElsewhereListed(rows, k, s.mod, s.target);
    ElsewhereListed(after, k, s.mod, s.target);
    AnnouncedAgain(Indexed(Selected(rows, s.mod, s.target)), s);
    AnnouncedAgain(Indexed(Selected(after, s.mod, s.target)), next);
  }
}
