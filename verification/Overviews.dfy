/** The per-domain overview a report store computes, stated without any order of
    iteration: sums over the set of stored reports, least and greatest instants. */
module Overviews {
  import opened Base
  import opened Sums
  import opened Reports

  const WINDOW_LONG := 30 * 86_400_000_000_000
  const WINDOW_RECENT := 7 * 86_400_000_000_000

  datatype SourceStat = SourceStat(
    ip: string, msgs: int, aligned: int, failBoth: int, firstEver: int, lastSeen: int)

  datatype Overview = Overview(
    hasData: bool, policy: string, pct: int, firstSeen: int, lastEnd: int, orgs30: int,
    msgs30: int, aligned30: int, msgs7: int, aligned7: int, sources: seq<SourceStat>)

  const EmptyOverview := Overview(false, "", 0, ZERO_TIME, ZERO_TIME, 0, 0, 0, 0, 0, [])

  // ---- message volumes ----------------------------------------------------------

  datatype Outcome = AnyOutcome | Passing | Failing
  datatype Sources = AnySource | Among(ips: set<string>)

  /** Which records count ... */
  datatype Selection = Selection(sources: Sources, outcome: Outcome)

  /** ... of one domain, in reports ending no earlier than `since`. */
  datatype Query = Query(domain: string, since: int, sel: Selection)

  predicate Selects(sel: Selection, r: Record)
  {
    && (sel.sources.Among? ==> r.sourceIP in sel.sources.ips)
    && match sel.outcome
       case AnyOutcome => true
       case Passing => Aligned(r)
       case Failing => FailsBoth(r)
  }

  function Volume(records: seq<Record>, sel: Selection): int
  {
    if records == [] then 0
    else
      var last := records[|records| - 1];
      Volume(records[..|records| - 1], sel) + (if Selects(sel, last) then last.count else 0)
  }

  function ReportVolume(rep: Report, q: Query): int
  {
    if rep.domain == q.domain && rep.end >= q.since then Volume(rep.records, q.sel) else 0
  }

  function VolumeOf(q: Query): Report -> int
  {
    rep => ReportVolume(rep, q)
  }

  ghost function Total(reps: set<Report>, q: Query): int
  {
    SetSum(reps, VolumeOf(q))
  }

  function All(o: Outcome): Selection { Selection(AnySource, o) }

  function Only(ip: string, o: Outcome): Selection { Selection(Among({ip}), o) }

  function Messages(d: string, since: int): Query { Query(d, since, All(AnyOutcome)) }

  function AlignedMessages(d: string, since: int): Query { Query(d, since, All(Passing)) }

  function FromIP(d: string, since: int, ip: string, o: Outcome): Query { Query(d, since, Only(ip, o)) }

  lemma TotalGrows(reps: set<Report>, rep: Report, q: Query)
    requires rep !in reps
    ensures Total(reps + {rep}, q) == Total(reps, q) + ReportVolume(rep, q)
  {
    SumInsert(reps, rep, VolumeOf(q));
  }

  // ---- what an overview must say --------------------------------------------------

  ghost predicate IsFirstSeen(t: int, reps: set<Report>, d: string)
  {
    && (forall r :: r in reps && r.domain == d ==> t <= r.begin)
    && (exists r :: r in reps && r.domain == d && t == r.begin)
  }

  /** The latest end, but no earlier than Go's zero time, where the maximum starts. */
  ghost predicate IsLastEnd(t: int, reps: set<Report>, d: string)
  {
    && t >= ZERO_TIME
    && (forall r :: r in reps && r.domain == d ==> r.end <= t)
    && (t == ZERO_TIME || exists r :: r in reps && r.domain == d && r.end == t)
  }

  /** Policy and percentage come from some report with the latest end. */
  ghost predicate IsPolicy(policy: string, pct: int, t: int, reps: set<Report>, d: string)
  {
    if t == ZERO_TIME then policy == "" && pct == 0
    else exists r :: r in reps && r.domain == d && r.end == t && r.policy == policy && r.pct == pct
  }

  ghost predicate Sends(r: Report, d: string, ip: string)
  {
    r.domain == d && ip in IPs(r.records)
  }

  ghost predicate IsFirstEver(t: int, reps: set<Report>, d: string, ip: string)
  {
    && (forall r :: r in reps && Sends(r, d, ip) ==> t <= r.begin)
    && (exists r :: r in reps && Sends(r, d, ip) && t == r.begin)
  }

  ghost predicate IsLastSeen(t: int, reps: set<Report>, d: string, since: int, ip: string)
  {
    && t >= ZERO_TIME
    && (forall r :: r in reps && Sends(r, d, ip) && r.end >= since ==> r.end <= t)
    && (t == ZERO_TIME || exists r :: r in reps && Sends(r, d, ip) && r.end >= since && r.end == t)
  }

  ghost predicate Active(reps: set<Report>, d: string, since: int, ip: string)
  {
    exists r :: r in reps && Sends(r, d, ip) && r.end >= since
  }

  ghost predicate IsCounted(s: SourceStat, reps: set<Report>, d: string, since: int, ip: string)
  {
    && s.ip == ip
    && s.msgs == Total(reps, FromIP(d, since, ip, AnyOutcome))
    && s.aligned == Total(reps, FromIP(d, since, ip, Passing))
    && s.failBoth == Total(reps, FromIP(d, since, ip, Failing))
    && IsLastSeen(s.lastSeen, reps, d, since, ip)
  }

  predicate DistinctIPs(sources: seq<SourceStat>)
  {
    forall i, j :: 0 <= i < j < |sources| ==> sources[i].ip != sources[j].ip
  }

  function SourceIPs(sources: seq<SourceStat>): set<string>
  {
    set i | 0 <= i < |sources| :: sources[i].ip
  }

  function InsertAt(sources: seq<SourceStat>, s: SourceStat, p: nat): (r: seq<SourceStat>)
    requires p <= |sources|
    ensures |r| == |sources| + 1
    ensures forall i :: 0 <= i < |r| ==> r[i] == if i < p then sources[i] else if i == p then s else sources[i - 1]
  {
    sources[..p] + [s] + sources[p..]
  }

  lemma InsertedIPs(sources: seq<SourceStat>, s: SourceStat, p: nat)
    requires p <= |sources|
    ensures SourceIPs(InsertAt(sources, s, p)) == SourceIPs(sources) + {s.ip}
    ensures DistinctIPs(sources) && s.ip !in SourceIPs(sources) ==> DistinctIPs(InsertAt(sources, s, p))
  {
    var r := InsertAt(sources, s, p);
    forall i | 0 <= i < |sources| ensures sources[i].ip in SourceIPs(r) {
      assert r[if i < p then i else i + 1] == sources[i];
    }
    assert r[p].ip in SourceIPs(r);
  }

  ghost predicate AreSources(sources: seq<SourceStat>, reps: set<Report>, d: string, since: int)
  {
    && DistinctIPs(sources)
    && (forall ip :: ip in SourceIPs(sources) <==> Active(reps, d, since, ip))
    && (forall i :: 0 <= i < |sources| ==>
          && IsCounted(sources[i], reps, d, since, sources[i].ip)
          && IsFirstEver(sources[i].firstEver, reps, d, sources[i].ip))
  }

  ghost predicate Watched(reps: set<Report>, d: string) { exists r :: r in reps && r.domain == d }

  ghost function OrgsSince(reps: set<Report>, d: string, since: int): set<string>
  {
    set r | r in reps && r.domain == d && r.end >= since :: r.org
  }

  /** `ov` is an overview of domain `d` over `reps` with the two windows starting at
      `long` and `recent`. */
  ghost predicate Summarises(ov: Overview, reps: set<Report>, d: string, long: int, recent: int)
  {
    && (ov.hasData <==> Watched(reps, d))
    && (if ov.hasData then IsFirstSeen(ov.firstSeen, reps, d) else ov.firstSeen == ZERO_TIME)
    && IsLastEnd(ov.lastEnd, reps, d)
    && IsPolicy(ov.policy, ov.pct, ov.lastEnd, reps, d)
    && ov.orgs30 == |OrgsSince(reps, d, long)|
    && ov.msgs30 == Total(reps, Messages(d, long))
    && ov.aligned30 == Total(reps, AlignedMessages(d, long))
    && ov.msgs7 == Total(reps, Messages(d, recent))
    && ov.aligned7 == Total(reps, AlignedMessages(d, recent))
    && AreSources(ov.sources, reps, d, long)
  }

  // ---- an overview is determined up to the order of sources and a policy tie --------

  /** Everything but policy and percentage agrees; sources are compared by address. */
  ghost predicate SameFigures(a: Overview, b: Overview)
  {
    && a.hasData == b.hasData && a.firstSeen == b.firstSeen && a.lastEnd == b.lastEnd
    && a.orgs30 == b.orgs30 && a.msgs30 == b.msgs30 && a.aligned30 == b.aligned30
    && a.msgs7 == b.msgs7 && a.aligned7 == b.aligned7
    && (forall s :: s in a.sources <==> s in b.sources)
  }

  ghost predicate UniqueLatest(reps: set<Report>, d: string)
  {
    forall r, s :: r in reps && s in reps && r.domain == d && s.domain == d
                   && (forall t :: t in reps && t.domain == d ==> t.end <= r.end && t.end <= s.end)
                   ==> r.policy == s.policy && r.pct == s.pct
  }

  lemma SourceDetermined(a: SourceStat, b: SourceStat, reps: set<Report>, d: string, since: int, ip: string)
    requires IsCounted(a, reps, d, since, ip) && IsCounted(b, reps, d, since, ip)
    requires IsFirstEver(a.firstEver, reps, d, ip) && IsFirstEver(b.firstEver, reps, d, ip)
    ensures a == b
  {
  }

  lemma SourcesDetermined(a: seq<SourceStat>, b: seq<SourceStat>, reps: set<Report>, d: string, since: int)
    requires AreSources(a, reps, d, since) && AreSources(b, reps, d, since)
    ensures forall s :: s in a ==> s in b
  {
    forall s | s in a ensures s in b {
      assert s.ip in SourceIPs(a);
      var i :| 0 <= i < |b| && b[i].ip == s.ip;
      SourceDetermined(s, b[i], reps, d, since, s.ip);
    }
  }

  lemma InstantsDetermined(t: int, u: int, reps: set<Report>, d: string)
    ensures IsLastEnd(t, reps, d) && IsLastEnd(u, reps, d) ==> t == u
    ensures IsFirstSeen(t, reps, d) && IsFirstSeen(u, reps, d) ==> t == u
  {
  }

  lemma PolicyDetermined(p: string, n: int, p': string, n': int, t: int, reps: set<Report>, d: string)
    requires IsPolicy(p, n, t, reps, d) && IsPolicy(p', n', t, reps, d)
    requires IsLastEnd(t, reps, d) && UniqueLatest(reps, d)
    ensures p == p' && n == n'
  {
  }

  /** Whatever order the reports were visited in, the figures are the same, and so is
      the policy unless two latest reports publish different ones. */
  lemma OverviewDetermined(a: Overview, b: Overview, reps: set<Report>, d: string, long: int, recent: int)
    requires Summarises(a, reps, d, long, recent) && Summarises(b, reps, d, long, recent)
    ensures SameFigures(a, b)
    ensures UniqueLatest(reps, d) ==> a.policy == b.policy && a.pct == b.pct
  {
    InstantsDetermined(a.lastEnd, b.lastEnd, reps, d);
    InstantsDetermined(a.firstSeen, b.firstSeen, reps, d);
    if UniqueLatest(reps, d) {
      PolicyDetermined(a.policy, a.pct, b.policy, b.pct, a.lastEnd, reps, d);
    }
    SourcesDetermined(a.sources, b.sources, reps, d, long);
    SourcesDetermined(b.sources, a.sources, reps, d, long);
  }
}
