/** The relational report store: one row per report, one row per record, and the
    queries of its overview as functions of the two tables. Instants are stored as
    whole seconds. */
module ReportSqlStore {
  import opened Base
  import opened Reports
  import opened Overviews

  datatype ReportRow = ReportRow(
    domain: string, org: string, reportID: string, beginAt: int, endAt: int, policy: string, pct: int)

  datatype RecordRow = RecordRow(
    domain: string, org: string, reportID: string, sourceIP: string, cnt: int, disposition: string,
    evalDKIM: string, evalSPF: string, headerFrom: string, endAt: int, beginAt: int)

  datatype Db = Db(reports: seq<ReportRow>, rows: seq<RecordRow>)

  function HeaderRow(rep: Report): ReportRow
  {
    ReportRow(rep.domain, rep.org, rep.reportID, Unix(rep.begin), Unix(rep.end), rep.policy, rep.pct)
  }

  function RowOf(rep: Report, r: Record): RecordRow
  {
    RecordRow(rep.domain, rep.org, rep.reportID, r.sourceIP, r.count, r.disposition,
              r.evalDKIM, r.evalSPF, r.headerFrom, Unix(rep.end), Unix(rep.begin))
  }

  function RowsOf(rep: Report): (rows: seq<RecordRow>)
    ensures |rows| == |rep.records|
  {
    seq(|rep.records|, i requires 0 <= i < |rep.records| => RowOf(rep, rep.records[i]))
  }

  /** Reading the rows of a report back gives what was put in, dates in seconds and without
      the raw authentication domains, which have no column. */
  function Restored(header: ReportRow, rows: seq<RecordRow>): Report
  {
    Report(header.org, "", header.reportID, FromUnix(header.beginAt), FromUnix(header.endAt), header.domain,
           header.policy, "", header.pct,
           seq(|rows|, i requires 0 <= i < |rows| =>
             Record(rows[i].sourceIP, rows[i].cnt, rows[i].disposition, rows[i].evalDKIM, rows[i].evalSPF,
                    rows[i].headerFrom, "", "")))
  }

  lemma RowsRestore(rep: Report)
    requires WholeSecond(rep.begin) && WholeSecond(rep.end)
    ensures var back := Restored(HeaderRow(rep), RowsOf(rep));
            && back == rep.(email := "", subPolicy := "", records := back.records)
            && |back.records| == |rep.records|
            && forall i :: 0 <= i < |rep.records| ==>
                 back.records[i] == rep.records[i].(authDKIM := "", authSPF := "")
    ensures forall i :: 0 <= i < |rep.records| ==>
              var row := RowsOf(rep)[i];
              && (row.domain, row.org, row.reportID) == Identity(rep)
              && FromUnix(row.beginAt) == rep.begin && FromUnix(row.endAt) == rep.end
  {
    UnixRounds(0, rep.begin);
    UnixRounds(0, rep.end);
    hide Unix, FromUnix;
  }

  function RowKey(row: ReportRow): (string, string, string) { (row.domain, row.org, row.reportID) }

  predicate HasKey(db: Db, key: (string, string, string))
  {
    exists i :: 0 <= i < |db.reports| && RowKey(db.reports[i]) == key
  }

  function Insert(db: Db, rep: Report): Db
  {
    Db(db.reports + [HeaderRow(rep)], db.rows + RowsOf(rep))
  }

  function Put(db: Db, rep: Report): (Db, bool)
  {
    if HasKey(db, Identity(rep)) then (db, false) else (Insert(db, rep), true)
  }

  function LiveReports(rows: seq<ReportRow>, cut: int): seq<ReportRow>
  {
    if rows == [] then []
    else LiveReports(rows[..|rows| - 1], cut) + (if rows[|rows| - 1].endAt < cut then [] else [rows[|rows| - 1]])
  }

  function LiveRows(rows: seq<RecordRow>, cut: int): seq<RecordRow>
  {
    if rows == [] then []
    else LiveRows(rows[..|rows| - 1], cut) + (if rows[|rows| - 1].endAt < cut then [] else [rows[|rows| - 1]])
  }

  function Pruned(db: Db, olderThan: int): Db
  {
    Db(LiveReports(db.reports, Unix(olderThan)), LiveRows(db.rows, Unix(olderThan)))
  }

  // ---- queries -------------------------------------------------------------------

  /** WHERE domain=? AND end_at>=?, a source filter, and the CASE on exact 'pass'. */
  predicate Matches(row: RecordRow, q: Query)
  {
    && row.domain == q.domain && row.endAt >= q.since
    && (q.sel.sources.Among? ==> row.sourceIP in q.sel.sources.ips)
    && match q.sel.outcome
       case AnyOutcome => true
       case Passing => ExactlyAligned(row.evalDKIM, row.evalSPF)
       case Failing => row.evalDKIM != "pass" && row.evalSPF != "pass"
  }

  /** COALESCE(SUM(cnt), 0) over the matching rows. */
  function SumCnt(rows: seq<RecordRow>, q: Query): int
  {
    if rows == [] then 0
    else SumCnt(rows[..|rows| - 1], q) + (if Matches(rows[|rows| - 1], q) then rows[|rows| - 1].cnt else 0)
  }

  predicate Grouped(row: RecordRow, d: string, since: Option<int>, ip: string)
  {
    row.domain == d && row.sourceIP == ip && (since.Some? ==> row.endAt >= since.value)
  }

  /** MIN(begin_at) over the reports of a domain. */
  function MinBegin(rows: seq<ReportRow>, d: string): (m: Option<int>)
    ensures m.None? ==> forall i :: 0 <= i < |rows| ==> rows[i].domain != d
    ensures m.Some? ==>
              && (forall i :: 0 <= i < |rows| && rows[i].domain == d ==> m.value <= rows[i].beginAt)
              && (exists i :: 0 <= i < |rows| && rows[i].domain == d && rows[i].beginAt == m.value)
  {
    if rows == [] then None
    else
      var n := |rows| - 1;
      var m := MinBegin(rows[..n], d);
      if rows[n].domain != d then m
      else if m.Some? && m.value <= rows[n].beginAt then m
      else Some(rows[n].beginAt)
  }

  /** MAX(end_at) over the reports of a domain. */
  function MaxEnd(rows: seq<ReportRow>, d: string): (m: Option<int>)
    ensures m.None? ==> forall i :: 0 <= i < |rows| ==> rows[i].domain != d
    ensures m.Some? ==>
              && (forall i :: 0 <= i < |rows| && rows[i].domain == d ==> rows[i].endAt <= m.value)
              && (exists i :: 0 <= i < |rows| && rows[i].domain == d && rows[i].endAt == m.value)
  {
    if rows == [] then None
    else
      var n := |rows| - 1;
      var m := MaxEnd(rows[..n], d);
      if rows[n].domain != d then m
      else if m.Some? && m.value >= rows[n].endAt then m
      else Some(rows[n].endAt)
  }

  /** MIN(begin_at) of one source's rows over all history. */
  function FirstEver(rows: seq<RecordRow>, d: string, ip: string): (m: Option<int>)
    ensures m.None? ==> forall i :: 0 <= i < |rows| ==> !Grouped(rows[i], d, None, ip)
    ensures m.Some? ==>
              && (forall i :: 0 <= i < |rows| && Grouped(rows[i], d, None, ip) ==> m.value <= rows[i].beginAt)
              && (exists i :: 0 <= i < |rows| && Grouped(rows[i], d, None, ip) && rows[i].beginAt == m.value)
  {
    if rows == [] then None
    else
      var n := |rows| - 1;
      var m := FirstEver(rows[..n], d, ip);
      if !Grouped(rows[n], d, None, ip) then m
      else if m.Some? && m.value <= rows[n].beginAt then m
      else Some(rows[n].beginAt)
  }

  /** MAX(end_at) of one source's rows in the window. */
  function LastSeen(rows: seq<RecordRow>, d: string, since: int, ip: string): (m: Option<int>)
    ensures m.None? ==> forall i :: 0 <= i < |rows| ==> !Grouped(rows[i], d, Some(since), ip)
    ensures m.Some? ==>
              && (forall i :: 0 <= i < |rows| && Grouped(rows[i], d, Some(since), ip) ==> rows[i].endAt <= m.value)
              && (exists i :: 0 <= i < |rows| && Grouped(rows[i], d, Some(since), ip) && rows[i].endAt == m.value)
  {
    if rows == [] then None
    else
      var n := |rows| - 1;
      var m := LastSeen(rows[..n], d, since, ip);
      if !Grouped(rows[n], d, Some(since), ip) then m
      else if m.Some? && m.value >= rows[n].endAt then m
      else Some(rows[n].endAt)
  }

  /** COUNT(DISTINCT org). */
  function Orgs(rows: seq<ReportRow>, d: string, since: int): set<string>
  {
    set i | 0 <= i < |rows| && rows[i].domain == d && rows[i].endAt >= since :: rows[i].org
  }

  /** The groups of GROUP BY source_ip. */
  function Groups(rows: seq<RecordRow>, d: string, since: int): set<string>
  {
    set i | 0 <= i < |rows| && rows[i].domain == d && rows[i].endAt >= since :: rows[i].sourceIP
  }

  /** One joined row: window sums of w, all-history minimum of h. */
  function Joined(rows: seq<RecordRow>, d: string, since: int, ip: string): SourceStat
  {
    var first, last := FirstEver(rows, d, ip), LastSeen(rows, d, since, ip);
    SourceStat(ip,
      SumCnt(rows, FromIP(d, since, ip, AnyOutcome)),
      SumCnt(rows, FromIP(d, since, ip, Passing)),
      SumCnt(rows, FromIP(d, since, ip, Failing)),
      FromUnix(if first.Some? then first.value else 0),
      FromUnix(if last.Some? then last.value else 0))
  }

  predicate ByVolume(sources: seq<SourceStat>)
  {
    forall i, j :: 0 <= i < j < |sources| ==> sources[i].msgs >= sources[j].msgs
  }

  /** The rows of the query answer: every group joined once, largest first. */
  ghost predicate SourceAnswer(sources: seq<SourceStat>, rows: seq<RecordRow>, d: string, since: int)
  {
    && DistinctIPs(sources)
    && ByVolume(sources)
    && SourceIPs(sources) == Groups(rows, d, since)
    && (forall i :: 0 <= i < |sources| ==> sources[i] == Joined(rows, d, since, sources[i].ip))
  }

  /** The report-level queries; ORDER BY end_at DESC LIMIT 1 leaves ties open. */
  ghost predicate HistoryAnswer(ov: Overview, rows: seq<ReportRow>, d: string)
  {
    var first, last := MinBegin(rows, d), MaxEnd(rows, d);
    if first.None? || last.None? then ov == EmptyOverview
    else
      && ov.hasData
      && ov.firstSeen == FromUnix(first.value)
      && ov.lastEnd == FromUnix(last.value)
      && (exists i :: 0 <= i < |rows| && rows[i].domain == d && rows[i].endAt == last.value
                      && ov.policy == rows[i].policy && ov.pct == rows[i].pct)
  }

  /** What the queries return. */
  ghost predicate Answer(ov: Overview, db: Db, d: string, now: int)
  {
    var long, recent := Unix(now - WINDOW_LONG), Unix(now - WINDOW_RECENT);
    && HistoryAnswer(ov, db.reports, d)
    && (ov.hasData ==>
          && ov.orgs30 == |Orgs(db.reports, d, long)|
          && ov.msgs30 == SumCnt(db.rows, Messages(d, long))
          && ov.aligned30 == SumCnt(db.rows, AlignedMessages(d, long))
          && ov.msgs7 == SumCnt(db.rows, Messages(d, recent))
          && ov.aligned7 == SumCnt(db.rows, AlignedMessages(d, recent))
          && SourceAnswer(ov.sources, db.rows, d, long))
  }

  // ---- the store -------------------------------------------------------------------

  class SqlStore {
    var db: Db

    constructor ()
      ensures db == Db([], [])
    {
      db := Db([], []);
    }

    /** INSERT OR IGNORE on the three-column key, then one row per record. */
    method PutReport(rep: Report) returns (stored: bool)
      modifies this
      ensures (db, stored) == Put(old(db), rep)
    {
      if HasKey(db, Identity(rep)) { return false; }
      var reports, rows := db.reports + [HeaderRow(rep)], db.rows;
      for i := 0 to |rep.records|
        invariant rows == db.rows + RowsOf(rep)[..i]
        invariant db == old(db)
      {
        rows := rows + [RowOf(rep, rep.records[i])];
      }
      assert RowsOf(rep)[..|rep.records|] == RowsOf(rep);
      db := Db(reports, rows);
      stored := true;
    }

    method Prune(olderThan: int)
      modifies this
      ensures db == Pruned(old(db), olderThan)
    {
      var cut := Unix(olderThan);
      db := db.(rows := LiveRows(db.rows, cut));
      db := db.(reports := LiveReports(db.reports, cut));
    }

    method Overview(domain: string, now: int) returns (ov: Overview)
      ensures Answer(ov, db, domain, now)
    {
      var long, recent := Unix(now - WINDOW_LONG), Unix(now - WINDOW_RECENT);
      var first, last := MinBegin(db.reports, domain), MaxEnd(db.reports, domain);
      if first.None? || last.None? { return EmptyOverview; }
      var top :| 0 <= top < |db.reports| && db.reports[top].domain == domain && db.reports[top].endAt == last.value;
      var sources := SourceRows(db.rows, domain, long);
      ov := EmptyOverview.(
        hasData := true, policy := db.reports[top].policy, pct := db.reports[top].pct,
        firstSeen := FromUnix(first.value), lastEnd := FromUnix(last.value),
        orgs30 := |Orgs(db.reports, domain, long)|,
        msgs30 := SumCnt(db.rows, Messages(domain, long)),
        aligned30 := SumCnt(db.rows, AlignedMessages(domain, long)),
        msgs7 := SumCnt(db.rows, Messages(domain, recent)),
        aligned7 := SumCnt(db.rows, AlignedMessages(domain, recent)),
        sources := sources);
    }
  }

  /** Where a group of `msgs` messages goes in a listing ordered by volume. */
  function Position(sources: seq<SourceStat>, msgs: int): (p: nat)
    requires ByVolume(sources)
    ensures p <= |sources|
    ensures forall i :: 0 <= i < p ==> sources[i].msgs >= msgs
    ensures forall i :: p <= i < |sources| ==> sources[i].msgs < msgs
  {
    if sources == [] then 0
    else if sources[|sources| - 1].msgs >= msgs then |sources|
    else Position(sources[..|sources| - 1], msgs)
  }

  method SourceRows(rows: seq<RecordRow>, d: string, since: int) returns (out: seq<SourceStat>)
    ensures SourceAnswer(out, rows, d, since)
  {
    var groups := Groups(rows, d, since);
    out := SortByVolume(map ip | ip in groups :: Joined(rows, d, since, ip));
  }

  lemma InsertedByVolume(sources: seq<SourceStat>, s: SourceStat)
    requires ByVolume(sources)
    ensures ByVolume(InsertAt(sources, s, Position(sources, s.msgs)))
  {
  }

  ghost predicate Lists(out: seq<SourceStat>, table: map<string, SourceStat>)
  {
    && DistinctIPs(out) && ByVolume(out)
    && (forall i :: 0 <= i < |out| ==> out[i].ip in table && out[i] == table[out[i].ip])
  }

  lemma ListsGrow(out: seq<SourceStat>, table: map<string, SourceStat>, ip: string)
    requires Lists(out, table) && ip in table && table[ip].ip == ip && ip !in SourceIPs(out)
    ensures var more := InsertAt(out, table[ip], Position(out, table[ip].msgs));
            Lists(more, table) && SourceIPs(more) == SourceIPs(out) + {ip}
  {
    InsertedIPs(out, table[ip], Position(out, table[ip].msgs));
    InsertedByVolume(out, table[ip]);
  }

  method SortByVolume(table: map<string, SourceStat>) returns (out: seq<SourceStat>)
    requires forall ip :: ip in table ==> table[ip].ip == ip
    ensures Lists(out, table) && SourceIPs(out) == table.Keys
  {
    out := [];
    var todo := table.Keys;
    while todo != {}
      invariant todo <= table.Keys
      invariant Lists(out, table) && SourceIPs(out) == table.Keys - todo
      decreases |todo|
    {
      var ip :| ip in todo;
      ListsGrow(out, table, ip);
      out := InsertAt(out, table[ip], Position(out, table[ip].msgs));
      todo := todo - {ip};
    }
  }
}
