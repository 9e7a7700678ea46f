/** The in-memory report store: a map from deduplication key to report, folded over
    in whatever order the map yields. */
module ReportMemStore {
  import opened Base
  import opened Reports
  import opened Overviews

  type Table = map<string, Report>

  ghost predicate Keyed(m: Table) { forall k :: k in m ==> Key(m[k]) == k }

  function Put(m: Table, rep: Report): (Table, bool)
  {
    if Key(rep) in m then (m, false) else (m[Key(rep) := rep], true)
  }

  function Pruned(m: Table, olderThan: int): Table
  {
    map k | k in m && m[k].end >= olderThan :: m[k]
  }

  /** The reports already visited when `todo` remains. */
  function Visited(m: Table, todo: set<string>): set<Report>
  {
    set k | k in m.Keys - todo :: m[k]
  }

  lemma VisitedGrows(m: Table, todo: set<string>, k: string)
    requires Keyed(m) && k in todo && k in m
    ensures m[k] !in Visited(m, todo)
    ensures Visited(m, todo - {k}) == Visited(m, todo) + {m[k]}
  {
  }

  // ---- accumulators --------------------------------------------------------------

  function Fresh(ip: string): SourceStat { SourceStat(ip, 0, 0, 0, ZERO_TIME, ZERO_TIME) }

  function Entry(sources: map<string, SourceStat>, ip: string): SourceStat
  {
    if ip in sources then sources[ip] else Fresh(ip)
  }

  /** A source's counters after the records of one report ending at `end`. */
  function Counted(s: SourceStat, ip: string, records: seq<Record>, end: int): SourceStat
  {
    s.(msgs := s.msgs + Volume(records, Only(ip, AnyOutcome)),
       aligned := s.aligned + Volume(records, Only(ip, Passing)),
       failBoth := s.failBoth + Volume(records, Only(ip, Failing)),
       lastSeen := if ip in IPs(records) then Max(s.lastSeen, end) else s.lastSeen)
  }

  lemma IPsGrow(records: seq<Record>, i: nat)
    requires i < |records|
    ensures records[..i + 1][..i] == records[..i]
    ensures IPs(records[..i + 1]) == IPs(records[..i]) + {records[i].sourceIP}
  {
  }

  lemma {:induction false} SilentSource(records: seq<Record>, ip: string, o: Outcome)
    requires ip !in IPs(records)
    ensures Volume(records, Only(ip, o)) == 0
  {
    if records != [] {
      var n := |records| - 1;
      assert records[n].sourceIP in IPs(records);
      assert forall k :: 0 <= k < n ==> records[..n][k] == records[k] && records[k].sourceIP in IPs(records);
      SilentSource(records[..n], ip, o);
    }
  }

  method TrackFirst(firstEver: map<string, int>, rep: Report) returns (fe: map<string, int>)
    ensures fe.Keys == firstEver.Keys + IPs(rep.records)
    ensures forall ip :: ip in fe ==>
              fe[ip] == if ip !in IPs(rep.records) then firstEver[ip]
                        else if ip in firstEver then Min(firstEver[ip], rep.begin) else rep.begin
  {
    fe := firstEver;
    for i := 0 to |rep.records|
      invariant fe.Keys == firstEver.Keys + IPs(rep.records[..i])
      invariant forall ip :: ip in fe ==>
                  fe[ip] == if ip !in IPs(rep.records[..i]) then firstEver[ip]
                            else if ip in firstEver then Min(firstEver[ip], rep.begin) else rep.begin
    {
      IPsGrow(rep.records, i);
      var ip := rep.records[i].sourceIP;
      if ip !in fe || rep.begin < fe[ip] {
        fe := fe[ip := rep.begin];
      }
    }
    assert rep.records[..|rep.records|] == rep.records;
  }

  /** One record's contribution to its source. */
  function Tally(a: SourceStat, r: Record, end: int): SourceStat
  {
    a.(msgs := a.msgs + r.count,
       aligned := a.aligned + (if Aligned(r) then r.count else 0),
       failBoth := a.failBoth + (if Aligned(r) then 0 else r.count),
       lastSeen := if end > a.lastSeen then end else a.lastSeen)
  }

  lemma CountedStep(s: SourceStat, ip: string, records: seq<Record>, i: nat, end: int)
    requires i < |records|
    ensures Counted(s, ip, records[..i + 1], end) ==
            if records[i].sourceIP == ip then Tally(Counted(s, ip, records[..i], end), records[i], end)
            else Counted(s, ip, records[..i], end)
  {
    IPsGrow(records, i);
  }

  lemma SilentCounted(s: SourceStat, ip: string, records: seq<Record>, end: int)
    requires ip !in IPs(records)
    ensures Counted(s, ip, records, end) == s
  {
    SilentSource(records, ip, AnyOutcome);
    SilentSource(records, ip, Passing);
    SilentSource(records, ip, Failing);
  }

  /** The window totals after the records of one report. */
  function Totalled(ov: Overview, records: seq<Record>, isRecent: bool): Overview
  {
    var msgs, passed := Volume(records, All(AnyOutcome)), Volume(records, All(Passing));
    ov.(msgs30 := ov.msgs30 + msgs, aligned30 := ov.aligned30 + passed,
        msgs7 := ov.msgs7 + (if isRecent then msgs else 0),
        aligned7 := ov.aligned7 + (if isRecent then passed else 0))
  }

  lemma SingleVolume(r: Record)
    ensures Volume([r], All(AnyOutcome)) == r.count
    ensures Volume([r], All(Passing)) == if Aligned(r) then r.count else 0
  {
  }

  method AddToTotals(ov: Overview, r: Record, isRecent: bool) returns (out: Overview)
    ensures out == Totalled(ov, [r], isRecent)
  {
    out := ov.(msgs30 := ov.msgs30 + r.count);
    if Aligned(r) {
      out := out.(aligned30 := out.aligned30 + r.count);
    }
    if isRecent {
      out := out.(msgs7 := out.msgs7 + r.count);
      if Aligned(r) {
        out := out.(aligned7 := out.aligned7 + r.count);
      }
    }
    SingleVolume(r);
  }

  lemma TotalledStep(ov: Overview, records: seq<Record>, i: nat, isRecent: bool)
    requires i < |records|
    ensures Totalled(ov, records[..i + 1], isRecent) ==
              Totalled(Totalled(ov, records[..i], isRecent), [records[i]], isRecent)
  {
    assert records[..i + 1][..i] == records[..i];
    SingleVolume(records[i]);
  }

  /** The table of sources after the records of one report. */
  ghost predicate CountedTable(table: map<string, SourceStat>, sources: map<string, SourceStat>,
                               records: seq<Record>, end: int)
  {
    && table.Keys == sources.Keys + IPs(records)
    && forall ip :: ip in table ==> table[ip] == Counted(Entry(sources, ip), ip, records, end)
  }

  lemma CountedTableStep(table: map<string, SourceStat>, sources: map<string, SourceStat>,
                         records: seq<Record>, i: nat, end: int)
    requires i < |records| && CountedTable(table, sources, records[..i], end)
    ensures var r := records[i];
            CountedTable(table[r.sourceIP := Tally(Entry(table, r.sourceIP), r, end)], sources, records[..i + 1], end)
  {
    var r := records[i];
    IPsGrow(records, i);
    if r.sourceIP !in table {
      SilentCounted(Fresh(r.sourceIP), r.sourceIP, records[..i], end);
    }
    forall ip | ip in table || ip == r.sourceIP {
      CountedStep(Entry(sources, ip), ip, records, i, end);
    }
  }

  method CountRecords(ov: Overview, sources: map<string, SourceStat>, rep: Report, recent: int)
    returns (out: Overview, table: map<string, SourceStat>)
    ensures out == Totalled(ov, rep.records, rep.end >= recent)
    ensures CountedTable(table, sources, rep.records, rep.end)
  {
    out, table := ov, sources;
    forall ip | ip in sources {
      SilentCounted(sources[ip], ip, rep.records[..0], rep.end);
    }
    for i := 0 to |rep.records|
      invariant out == Totalled(ov, rep.records[..i], rep.end >= recent)
      invariant CountedTable(table, sources, rep.records[..i], rep.end)
    {
      var r := rep.records[i];
      TotalledStep(ov, rep.records, i, rep.end >= recent);
      CountedTableStep(table, sources, rep.records, i, rep.end);
      out := AddToTotals(out, r, rep.end >= recent);
      table := table[r.sourceIP := Tally(Entry(table, r.sourceIP), r, rep.end)];
    }
    assert rep.records[..|rep.records|] == rep.records;
  }

  // ---- the outer fold --------------------------------------------------------------

  ghost predicate FirstEvers(fe: map<string, int>, reps: set<Report>, d: string)
  {
    && (forall ip :: ip in fe ==> IsFirstEver(fe[ip], reps, d, ip))
    && (forall r, ip :: r in reps && Sends(r, d, ip) ==> ip in fe)
  }

  lemma FirstEverGrows(t: int, t': int, reps: set<Report>, rep: Report, d: string, ip: string)
    requires rep.domain == d
    requires (exists r :: r in reps && Sends(r, d, ip)) ==> IsFirstEver(t, reps, d, ip)
    requires Sends(rep, d, ip) || exists r :: r in reps && Sends(r, d, ip)
    requires t' == if !Sends(rep, d, ip) then t
                   else if exists r :: r in reps && Sends(r, d, ip) then Min(t, rep.begin) else rep.begin
    ensures IsFirstEver(t', reps + {rep}, d, ip)
  {
  }

  lemma FirstEversGrow(fe: map<string, int>, next: map<string, int>, reps: set<Report>, rep: Report, d: string)
    requires FirstEvers(fe, reps, d) && rep.domain == d
    requires next.Keys == fe.Keys + IPs(rep.records)
    requires forall ip :: ip in next ==>
               next[ip] == if ip !in IPs(rep.records) then fe[ip]
                           else if ip in fe then Min(fe[ip], rep.begin) else rep.begin
    ensures FirstEvers(next, reps + {rep}, d)
  {
    forall ip | ip in next ensures IsFirstEver(next[ip], reps + {rep}, d, ip) {
      if ip in fe { assert IsFirstEver(fe[ip], reps, d, ip); }
      FirstEverGrows(if ip in fe then fe[ip] else 0, next[ip], reps, rep, d, ip);
    }
  }

  ghost predicate SourceTable(table: map<string, SourceStat>, reps: set<Report>, d: string, since: int)
  {
    && (forall ip :: ip in table ==> Active(reps, d, since, ip) && IsCounted(table[ip], reps, d, since, ip))
    && (forall ip :: Active(reps, d, since, ip) ==> ip in table)
  }

  lemma QuietTotal(reps: set<Report>, d: string, since: int, ip: string, o: Outcome)
    requires !Active(reps, d, since, ip)
    ensures Total(reps, FromIP(d, since, ip, o)) == 0
  {
    var q := FromIP(d, since, ip, o);
    forall r | r in reps ensures VolumeOf(q)(r) == 0 {
      if r.domain == d && r.end >= since {
        assert Sends(r, d, ip) <==> ip in IPs(r.records);
        SilentSource(r.records, ip, o);
      }
    }
    Sums.SumZero(reps, VolumeOf(q));
  }

  lemma SourceGrows(before: SourceStat, reps: set<Report>, rep: Report, d: string, since: int, ip: string)
    requires rep !in reps && rep.domain == d && rep.end >= since
    requires IsCounted(before, reps, d, since, ip)
    ensures IsCounted(Counted(before, ip, rep.records, rep.end), reps + {rep}, d, since, ip)
  {
    TotalGrows(reps, rep, FromIP(d, since, ip, AnyOutcome));
    TotalGrows(reps, rep, FromIP(d, since, ip, Passing));
    TotalGrows(reps, rep, FromIP(d, since, ip, Failing));
    var after := Counted(before, ip, rep.records, rep.end);
    var all := reps + {rep};
    assert IsLastSeen(after.lastSeen, all, d, since, ip) by {
      if before.lastSeen != ZERO_TIME {
        var r :| r in reps && Sends(r, d, ip) && r.end >= since && r.end == before.lastSeen;
        assert r in all;
      }
      if ip in IPs(rep.records) {
        assert rep in all && Sends(rep, d, ip);
      }
    }
  }

  lemma FreshIsCounted(reps: set<Report>, d: string, since: int, ip: string)
    requires !Active(reps, d, since, ip)
    ensures IsCounted(Fresh(ip), reps, d, since, ip)
  {
    QuietTotal(reps, d, since, ip, AnyOutcome);
    QuietTotal(reps, d, since, ip, Passing);
    QuietTotal(reps, d, since, ip, Failing);
  }

  lemma SourceTableGrows(table: map<string, SourceStat>, next: map<string, SourceStat>,
                         reps: set<Report>, rep: Report, d: string, since: int)
    requires rep !in reps && rep.domain == d && rep.end >= since
    requires SourceTable(table, reps, d, since)
    requires CountedTable(next, table, rep.records, rep.end)
    ensures SourceTable(next, reps + {rep}, d, since)
  {
    var all := reps + {rep};
    forall ip | ip in next ensures Active(all, d, since, ip) && IsCounted(next[ip], all, d, since, ip) {
      if ip in table {
        var r :| r in reps && Sends(r, d, ip) && r.end >= since;
        assert r in all;
      } else {
        FreshIsCounted(reps, d, since, ip);
        assert rep in all && Sends(rep, d, ip);
      }
      SourceGrows(Entry(table, ip), reps, rep, d, since, ip);
    }
    forall ip | Active(all, d, since, ip) ensures ip in next {
      var r :| r in all && Sends(r, d, ip) && r.end >= since;
      if r in reps { assert Active(reps, d, since, ip); }
    }
  }

  lemma SourceKeeps(s: SourceStat, reps: set<Report>, rep: Report, d: string, since: int, ip: string)
    requires rep !in reps && !(rep.domain == d && rep.end >= since)
    requires IsCounted(s, reps, d, since, ip)
    ensures IsCounted(s, reps + {rep}, d, since, ip)
  {
    TotalGrows(reps, rep, FromIP(d, since, ip, AnyOutcome));
    TotalGrows(reps, rep, FromIP(d, since, ip, Passing));
    TotalGrows(reps, rep, FromIP(d, since, ip, Failing));
    if s.lastSeen != ZERO_TIME {
      var r :| r in reps && Sends(r, d, ip) && r.end >= since && r.end == s.lastSeen;
      assert r in reps + {rep};
    }
  }

  lemma ActiveKeeps(reps: set<Report>, rep: Report, d: string, since: int, ip: string)
    requires !(rep.domain == d && rep.end >= since)
    ensures Active(reps + {rep}, d, since, ip) <==> Active(reps, d, since, ip)
  {
  }

  /** A report outside the domain, or before the window, leaves the sources alone. */
  lemma SourceTableKeeps(table: map<string, SourceStat>, reps: set<Report>, rep: Report, d: string, since: int)
    requires rep !in reps && !(rep.domain == d && rep.end >= since)
    requires SourceTable(table, reps, d, since)
    ensures SourceTable(table, reps + {rep}, d, since)
  {
    var all := reps + {rep};
    forall ip ensures Active(all, d, since, ip) <==> Active(reps, d, since, ip) {
      ActiveKeeps(reps, rep, d, since, ip);
    }
    forall ip | ip in table ensures IsCounted(table[ip], all, d, since, ip) {
      SourceKeeps(table[ip], reps, rep, d, since, ip);
    }
  }

  ghost predicate WindowTotals(ov: Overview, reps: set<Report>, d: string, long: int, recent: int)
  {
    && ov.msgs30 == Total(reps, Messages(d, long))
    && ov.aligned30 == Total(reps, AlignedMessages(d, long))
    && ov.msgs7 == Total(reps, Messages(d, recent))
    && ov.aligned7 == Total(reps, AlignedMessages(d, recent))
  }

  lemma WindowTotalsGrow(ov: Overview, reps: set<Report>, rep: Report, d: string, long: int, recent: int)
    requires rep !in reps && long <= recent && WindowTotals(ov, reps, d, long, recent)
    ensures WindowTotals(if rep.domain == d && rep.end >= long then Totalled(ov, rep.records, rep.end >= recent)
                         else ov,
                         reps + {rep}, d, long, recent)
  {
    TotalGrows(reps, rep, Messages(d, long));
    TotalGrows(reps, rep, AlignedMessages(d, long));
    TotalGrows(reps, rep, Messages(d, recent));
    TotalGrows(reps, rep, AlignedMessages(d, recent));
  }

  /** The report-level facts: history bounds and the policy of the latest report. */
  ghost predicate History(ov: Overview, reps: set<Report>, d: string)
  {
    && (ov.hasData <==> Watched(reps, d))
    && (if ov.hasData then IsFirstSeen(ov.firstSeen, reps, d) else ov.firstSeen == ZERO_TIME)
    && IsLastEnd(ov.lastEnd, reps, d)
    && IsPolicy(ov.policy, ov.pct, ov.lastEnd, reps, d)
  }

  method NoteReport(ov: Overview, rep: Report, ghost reps: set<Report>) returns (out: Overview)
    requires History(ov, reps, rep.domain)
    ensures History(out, reps + {rep}, rep.domain)
    ensures out == ov.(hasData := out.hasData, firstSeen := out.firstSeen, lastEnd := out.lastEnd,
                       policy := out.policy, pct := out.pct)
  {
    ghost var d, all := rep.domain, reps + {rep};
    out := ov;
    if !out.hasData || rep.begin < out.firstSeen {
      out := out.(firstSeen := rep.begin);
    }
    if rep.end > out.lastEnd {
      out := out.(lastEnd := rep.end, policy := rep.policy, pct := rep.pct);
    }
    out := out.(hasData := true);
    assert rep in all;
    if ov.hasData {
      ghost var r :| r in reps && r.domain == d && ov.firstSeen == r.begin;
      assert r in all;
    }
    if ov.lastEnd != ZERO_TIME {
      ghost var r :| r in reps && r.domain == d && r.end == ov.lastEnd && r.policy == ov.policy && r.pct == ov.pct;
      assert r in all;
    }
  }

  lemma HistoryKeeps(ov: Overview, reps: set<Report>, rep: Report, d: string)
    requires rep.domain != d && History(ov, reps, d)
    ensures History(ov, reps + {rep}, d)
  {
  }

  /** The accumulators of the fold over stored reports. */
  datatype Accumulator = Accumulator(
    ov: Overview, sources: map<string, SourceStat>, firstEver: map<string, int>, orgs: set<string>)

  ghost predicate Folded(a: Accumulator, reps: set<Report>, d: string, long: int, recent: int)
  {
    && a.ov.orgs30 == 0 && a.ov.sources == []
    && History(a.ov, reps, d)
    && FirstEvers(a.firstEver, reps, d)
    && SourceTable(a.sources, reps, d, long)
    && WindowTotals(a.ov, reps, d, long, recent)
    && a.orgs == OrgsSince(reps, d, long)
  }

  lemma FirstEversKeep(fe: map<string, int>, reps: set<Report>, rep: Report, d: string)
    requires rep.domain != d && FirstEvers(fe, reps, d)
    ensures FirstEvers(fe, reps + {rep}, d)
  {
  }

  /** The body of the fold: one stored report. */
  method Visit(a: Accumulator, rep: Report, ghost seen: set<Report>, d: string, long: int, recent: int)
    returns (next: Accumulator)
    requires rep !in seen && long <= recent && Folded(a, seen, d, long, recent)
    ensures Folded(next, seen + {rep}, d, long, recent)
  {
    ghost var all := seen + {rep};
    if rep.domain != d {
      HistoryKeeps(a.ov, seen, rep, d);
      FirstEversKeep(a.firstEver, seen, rep, d);
      SourceTableKeeps(a.sources, seen, rep, d, long);
      WindowTotalsGrow(a.ov, seen, rep, d, long, recent);
      assert OrgsSince(all, d, long) == a.orgs;
      return a;
    }
    var ov := NoteReport(a.ov, rep, seen);
    WindowTotalsGrow(ov, seen, rep, d, long, recent);
    var firstEver := TrackFirst(a.firstEver, rep);
    FirstEversGrow(a.firstEver, firstEver, seen, rep, d);
    if rep.end < long {
      SourceTableKeeps(a.sources, seen, rep, d, long);
      assert OrgsSince(all, d, long) == a.orgs;
      return Accumulator(ov, a.sources, firstEver, a.orgs);
    }
    var total, sources := CountRecords(ov, a.sources, rep, recent);
    SourceTableGrows(a.sources, sources, seen, rep, d, long);
    assert OrgsSince(all, d, long) == a.orgs + {rep.org};
    next := Accumulator(total, sources, firstEver, a.orgs + {rep.org});
  }

  class MemStore {
    var reports: Table

    ghost predicate Valid() reads this { Keyed(reports) }

    constructor ()
      ensures Valid() && reports == map[]
    {
      reports := map[];
    }

    method PutReport(rep: Report) returns (stored: bool)
      requires Valid()
      modifies this
      ensures Valid()
      ensures (reports, stored) == Put(old(reports), rep)
    {
      if Key(rep) in reports { return false; }
      reports := reports[Key(rep) := rep];
      stored := true;
    }

    method Prune(olderThan: int)
      requires Valid()
      modifies this
      ensures Valid()
      ensures reports == Pruned(old(reports), olderThan)
    {
      var todo := reports.Keys;
      while todo != {}
        invariant todo <= old(reports).Keys
        invariant reports ==
                  map k | k in old(reports) && (k in todo || old(reports)[k].end >= olderThan) :: old(reports)[k]
        decreases |todo|
      {
        var k :| k in todo;
        todo := todo - {k};
        if reports[k].end < olderThan {
          reports := reports - {k};
        }
      }
    }

    /** The fold of the source, one report at a time in arbitrary order, one record at
        a time in file order. */
    method Overview(domain: string, now: int) returns (ov: Overview)
      requires Valid()
      ensures Summarises(ov, reports.Values, domain, now - WINDOW_LONG, now - WINDOW_RECENT)
    {
      var long, recent := now - WINDOW_LONG, now - WINDOW_RECENT;
      var a := FoldReports(reports, domain, long, recent);
      ov := Finish(a, reports.Values, domain, long, recent);
    }
  }

  method FoldReports(reports: Table, d: string, long: int, recent: int) returns (a: Accumulator)
    requires Keyed(reports) && long <= recent
    ensures Folded(a, reports.Values, d, long, recent)
  {
    a := Accumulator(EmptyOverview, map[], map[], {});
    var todo := reports.Keys;
    EmptyFold(d, long, recent);
    assert Visited(reports, todo) == {};
    assert Visited(reports, {}) == reports.Values;
    hide *;
    while todo != {}
      invariant todo <= reports.Keys
      invariant Folded(a, Visited(reports, todo), d, long, recent)
      decreases |todo|
    {
      var k :| k in todo;
      VisitedGrows(reports, todo, k);
      a := Visit(a, reports[k], Visited(reports, todo), d, long, recent);
      todo := todo - {k};
    }
  }

  lemma EmptyFold(d: string, long: int, recent: int)
    ensures Folded(Accumulator(EmptyOverview, map[], map[], {}), {}, d, long, recent)
  {
  }

  /** Entries of the source table, completed and in some order, are the sources. */
  lemma ListedSources(out: seq<SourceStat>, sources: map<string, SourceStat>, firstEver: map<string, int>,
                      reps: set<Report>, d: string, since: int)
    requires SourceTable(sources, reps, d, since) && FirstEvers(firstEver, reps, d)
    requires Completed(out, sources, firstEver)
    requires SourceIPs(out) == sources.Keys
    ensures AreSources(out, reps, d, since)
  {
    forall i | 0 <= i < |out|
      ensures IsCounted(out[i], reps, d, since, out[i].ip)
      ensures IsFirstEver(out[i].firstEver, reps, d, out[i].ip)
    {
      assert IsCounted(sources[out[i].ip], reps, d, since, out[i].ip);
    }
  }

  method Finish(a: Accumulator, ghost reps: set<Report>, ghost d: string, ghost long: int, ghost recent: int)
    returns (ov: Overview)
    requires Folded(a, reps, d, long, recent)
    ensures Summarises(ov, reps, d, long, recent)
  {
    assert forall ip :: ip in a.sources ==> Active(reps, d, long, ip) && ip in a.firstEver && a.sources[ip].ip == ip;
    var stats := ListSources(a.sources, a.firstEver);
    ListedSources(stats, a.sources, a.firstEver, reps, d, long);
    ov := a.ov.(orgs30 := |a.orgs|, sources := stats);
  }

  ghost predicate Completed(out: seq<SourceStat>, sources: map<string, SourceStat>, firstEver: map<string, int>)
  {
    && DistinctIPs(out)
    && forall i :: 0 <= i < |out| ==>
         && out[i].ip in sources && out[i].ip in firstEver
         && out[i] == sources[out[i].ip].(firstEver := firstEver[out[i].ip])
  }

  lemma CompletedGrows(out: seq<SourceStat>, sources: map<string, SourceStat>, firstEver: map<string, int>, ip: string)
    requires Completed(out, sources, firstEver)
    requires ip in sources && ip in firstEver && sources[ip].ip == ip && ip !in SourceIPs(out)
    ensures var more := InsertAt(out, sources[ip].(firstEver := firstEver[ip]), |out|);
            Completed(more, sources, firstEver) && SourceIPs(more) == SourceIPs(out) + {ip}
  {
    InsertedIPs(out, sources[ip].(firstEver := firstEver[ip]), |out|);
  }

  method ListSources(sources: map<string, SourceStat>, firstEver: map<string, int>) returns (out: seq<SourceStat>)
    requires forall ip :: ip in sources ==> ip in firstEver && sources[ip].ip == ip
    ensures Completed(out, sources, firstEver) && SourceIPs(out) == sources.Keys
  {
    out := [];
    var todo := sources.Keys;
    assert Completed(out, sources, firstEver) && SourceIPs(out) == {};
    hide *;
    while todo != {}
      invariant todo <= sources.Keys
      invariant Completed(out, sources, firstEver) && SourceIPs(out) == sources.Keys - todo
      decreases |todo|
    {
      var ip :| ip in todo;
      CompletedGrows(out, sources, firstEver, ip);
      out := InsertAt(out, sources[ip].(firstEver := firstEver[ip]), |out|);
      todo := todo - {ip};
    }
  }
}
