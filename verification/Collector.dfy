/** The decisions of the collector: which findings an overview gives rise to. Rates are
    exact reals where the program uses float64. */
module Collector {
  import opened Base
  import opened Text
  import opened Findings
  import opened Reports
  import opened Overviews
  import opened Accounting
  import Mem = ReportMemStore

  const MODULE_ID := "dmarcwatch"
  const MIN_HISTORY := 14 * 86_400_000_000_000
  const STALE_AFTER := 7 * 86_400_000_000_000
  const PRUNE_AFTER := 396 * 86_400_000_000_000

  datatype Check = NoData | Spoofing | NewSource | Policy | AlignmentDrop | NoReports

  /** What one finding is about: a check, and a source address for the per-source ones. */
  datatype Subject = Subject(check: Check, ip: string)

  function CheckID(c: Check): string
  {
    match c
    case NoData => "dmarc.no-data"
    case Spoofing => "dmarc.spoofing"
    case NewSource => "dmarc.new-source"
    case Policy => "dmarc.policy"
    case AlignmentDrop => "dmarc.alignment-drop"
    case NoReports => "dmarc.no-reports"
  }

  function SeverityOf(c: Check, ov: Overview): Severity
  {
    match c
    case NoData => Info
    case Spoofing => High
    case NewSource => Medium
    case Policy => if ov.policy == "quarantine" then Info else Low
    case AlignmentDrop => Medium
    case NoReports => Medium
  }

  function Render(h: Hash, d: string, ov: Overview, s: Subject): Finding
  {
    Finding(Fingerprint(h, MODULE_ID, d, CheckID(s.check), s.ip), d, CheckID(s.check),
            CheckID(s.check) + ": " + d, SeverityOf(s.check, ov), "See " + CheckID(s.check), Json("{}"))
  }

  // ---- thresholds ------------------------------------------------------------------

  function Pct(part: int, total: int): real
  {
    if total == 0 then 0.0 else 100.0 * part as real / total as real
  }

  predicate IsSpoofing(s: SourceStat)
  {
    s.failBoth >= 10 && s.msgs != 0 && 100.0 * s.failBoth as real / s.msgs as real >= 90.0
  }

  predicate IsNewSource(s: SourceStat, cutoff: int)
  {
    s.firstEver >= cutoff && s.msgs >= 5 && s.aligned != 0
  }

  predicate Ready(ov: Overview)
  {
    ov.msgs30 >= 100 && ov.orgs30 >= 2 && Pct(ov.aligned30, ov.msgs30) >= 98.0
  }

  predicate Dropped(ov: Overview)
  {
    && ov.msgs7 >= 50 && ov.msgs30 > ov.msgs7
    && Pct(ov.aligned30, ov.msgs30) - Pct(ov.aligned7, ov.msgs7) >= 10.0
  }

  predicate Stale(ov: Overview, now: int) { now - ov.lastEnd >= STALE_AFTER }

  // ---- the findings of an overview ----------------------------------------------------

  function Spoofers(sources: seq<SourceStat>): seq<Subject>
  {
    if sources == [] then []
    else
      var s := sources[|sources| - 1];
      Spoofers(sources[..|sources| - 1]) + (if IsSpoofing(s) then [Subject(Spoofing, s.ip)] else [])
  }

  function Newcomers(sources: seq<SourceStat>, cutoff: int): seq<Subject>
  {
    if sources == [] then []
    else
      var s := sources[|sources| - 1];
      Newcomers(sources[..|sources| - 1], cutoff) + (if IsNewSource(s, cutoff) then [Subject(NewSource, s.ip)] else [])
  }

  function DomainWide(ov: Overview, now: int): seq<Subject>
  {
    (if ov.policy in {"none", ""} || (ov.policy == "quarantine" && Ready(ov)) then [Subject(Policy, "")] else [])
    + (if Dropped(ov) then [Subject(AlignmentDrop, "")] else [])
    + (if Stale(ov, now) then [Subject(NoReports, "")] else [])
  }

  function Subjects(ov: Overview, now: int): seq<Subject>
  {
    if !ov.hasData then [Subject(NoData, "")]
    else
      Spoofers(ov.sources)
      + (if now - ov.firstSeen >= MIN_HISTORY then Newcomers(ov.sources, now - WINDOW_RECENT) else [])
      + DomainWide(ov, now)
  }

  function FindingsOf(h: Hash, d: string, ov: Overview, now: int): (fs: seq<Finding>)
    ensures |fs| == |Subjects(ov, now)|
    ensures forall i :: 0 <= i < |fs| ==> fs[i] == Render(h, d, ov, Subjects(ov, now)[i])
  {
    var subjects := Subjects(ov, now);
    seq(|subjects|, i requires 0 <= i < |subjects| => Render(h, d, ov, subjects[i]))
  }

  // ---- well-formed and distinct --------------------------------------------------------

  lemma ChecksDiffer(a: Check, b: Check)
    ensures '|' !in CheckID(a) && CheckID(a) != ""
    ensures CheckID(a) == CheckID(b) ==> a == b
  {
    assert "dmarc.new-source"[7] == 'e' && "dmarc.no-reports"[7] == 'o';
  }

  lemma FingerprintsDiffer(h: Hash, d: string, a: Subject, b: Subject)
    requires Ideal(h) && a != b
    ensures Fingerprint(h, MODULE_ID, d, CheckID(a.check), a.ip) != Fingerprint(h, MODULE_ID, d, CheckID(b.check), b.ip)
  {
    ChecksDiffer(a.check, b.check);
    ChecksDiffer(b.check, a.check);
    var prefix := MODULE_ID + "|" + d + "|";
    var x, y := CheckID(a.check) + ['|'] + a.ip, CheckID(b.check) + ['|'] + b.ip;
    if x == y {
      JoinInjective(CheckID(a.check), a.ip, CheckID(b.check), b.ip, '|');
    }
    var s := MODULE_ID + "|" + d + "|" + CheckID(a.check) + "|" + a.ip;
    var t := MODULE_ID + "|" + d + "|" + CheckID(b.check) + "|" + b.ip;
    assert s == prefix + x && t == prefix + y;
    assert x == s[|prefix|..] && y == t[|prefix|..];
  }

  predicate NoRepeats(s: seq<Subject>) { forall i, j :: 0 <= i < j < |s| ==> s[i] != s[j] }

  lemma {:induction false} PerSourceSubjects(sources: seq<SourceStat>, cutoff: int)
    requires DistinctIPs(sources)
    ensures NoRepeats(Spoofers(sources)) && NoRepeats(Newcomers(sources, cutoff))
    ensures forall x :: x in Spoofers(sources) ==> x.check == Spoofing && x.ip in SourceIPs(sources)
    ensures forall x :: x in Newcomers(sources, cutoff) ==> x.check == NewSource && x.ip in SourceIPs(sources)
  {
    if sources != [] {
      var n := |sources| - 1;
      PerSourceSubjects(sources[..n], cutoff);
      assert sources == InsertAt(sources[..n], sources[n], n);
      InsertedIPs(sources[..n], sources[n], n);
      assert sources[n].ip !in SourceIPs(sources[..n]);
    }
  }

  lemma DomainWideSubjects(ov: Overview, now: int)
    ensures NoRepeats(DomainWide(ov, now))
    ensures forall x :: x in DomainWide(ov, now) ==> x.check in {Policy, AlignmentDrop, NoReports}
  {
  }

  lemma SubjectsDiffer(ov: Overview, now: int)
    requires DistinctIPs(ov.sources)
    ensures NoRepeats(Subjects(ov, now))
  {
    if ov.hasData {
      var cutoff := now - WINDOW_RECENT;
      PerSourceSubjects(ov.sources, cutoff);
      DomainWideSubjects(ov, now);
      var a, c := Spoofers(ov.sources), DomainWide(ov, now);
      var b := if now - ov.firstSeen >= MIN_HISTORY then Newcomers(ov.sources, cutoff) else [];
      assert NoRepeats(b) && forall x :: x in b ==> x.check == NewSource;
      assert Subjects(ov, now) == a + b + c;
      hide *;
      assert forall x :: x in a + b ==> x in a || x in b;
      NoRepeatsJoin(a, b);
      NoRepeatsJoin(a + b, c);
    }
  }

  lemma NoRepeatsJoin(a: seq<Subject>, b: seq<Subject>)
    requires NoRepeats(a) && NoRepeats(b) && forall x, y :: x in a && y in b ==> x.check != y.check
    ensures NoRepeats(a + b)
  {
  }

  predicate DistinctFingerprints(fs: seq<Finding>)
  {
    forall i, j :: 0 <= i < j < |fs| ==> fs[i].fingerprint != fs[j].fingerprint
  }

  /** Everything the collector reports passes ingest, is about the scanned domain, and
      has its own fingerprint. */
  lemma FindingsWellFormed(h: Hash, d: string, ov: Overview, now: int)
    requires Ideal(h) && d != "" && DistinctIPs(ov.sources)
    ensures var fs := FindingsOf(h, d, ov, now);
            && DistinctFingerprints(fs)
            && forall i :: 0 <= i < |fs| ==> Valid(fs[i]) && fs[i].target == d
  {
    var fs, subjects := FindingsOf(h, d, ov, now), Subjects(ov, now);
    SubjectsDiffer(ov, now);
    forall i, j | 0 <= i < j < |fs| ensures fs[i].fingerprint != fs[j].fingerprint {
      RenderedDiffer(h, d, ov, subjects[i], subjects[j]);
    }
    forall i | 0 <= i < |fs| ensures Valid(fs[i]) && fs[i].target == d {
      RenderedValid(h, d, ov, subjects[i]);
    }
  }

  lemma RenderedDiffer(h: Hash, d: string, ov: Overview, a: Subject, b: Subject)
    requires Ideal(h) && a != b
    ensures Render(h, d, ov, a).fingerprint != Render(h, d, ov, b).fingerprint
  {
    FingerprintsDiffer(h, d, a, b);
  }

  lemma RenderedValid(h: Hash, d: string, ov: Overview, s: Subject)
    requires Ideal(h) && d != ""
    ensures Valid(Render(h, d, ov, s)) && Render(h, d, ov, s).target == d
  {
    ChecksDiffer(s.check, s.check);
  }

  // ---- what findings say about each other --------------------------------------------------

  lemma {:induction false} SpoofersFail(sources: seq<SourceStat>)
    requires forall i :: 0 <= i < |sources| ==> sources[i].failBoth >= 0
    ensures StatSum(sources, Failing) >= 10 * |Spoofers(sources)|
  {
    if sources != [] {
      SpoofersFail(sources[..|sources| - 1]);
    }
  }

  lemma CancelScale(x: real, y: real, t: real)
    requires t > 0.0
    ensures x * t <= y * t <==> x <= y
    ensures x * t < y * t <==> x < y
  {
    assert (y - x) * t == y * t - x * t;
    assert (y - x) * t > 0.0 <==> y - x > 0.0;
    assert (y - x) * t == 0.0 <==> y - x == 0.0;
  }

  lemma RateBounds(part: int, total: int)
    requires 0 <= part <= total && total > 0
    ensures Pct(part, total) <= 100.0
    ensures Pct(part, total) * total as real == 100.0 * part as real
  {
    var p, t := part as real, total as real;
    assert 100.0 * p / t * t == 100.0 * p;
    CancelScale(100.0 * p / t, 100.0, t);
  }

  /** Ten messages of the unaligned volume stand behind every spoofing finding; a domain
      ready to tighten has five hundred messages per such finding. */
  lemma SpoofingBounded(ov: Overview, reps: set<Report>, d: string, long: int, recent: int)
    requires Positive(reps) && long <= recent && Summarises(ov, reps, d, long, recent)
    ensures 10 * |Spoofers(ov.sources)| <= ov.msgs30 - ov.aligned30
    ensures Ready(ov) ==> 500 * |Spoofers(ov.sources)| <= ov.msgs30
  {
    MessagesConserved(ov, reps, d, long, recent);
    SpoofersFail(ov.sources);
    if Ready(ov) { ReadyLinear(ov); }
  }

  /** Comparing a rate with a constant is comparing with that share of the total. */
  lemma RateAgainst(part: int, total: int, k: real)
    requires 0 <= part <= total && total > 0
    ensures Pct(part, total) <= k <==> 100.0 * part as real <= k * total as real
    ensures Pct(part, total) >= k <==> 100.0 * part as real >= k * total as real
  {
    RateBounds(part, total);
    CancelScale(Pct(part, total), k, total as real);
    CancelScale(k, Pct(part, total), total as real);
  }

  lemma ReadyLinear(ov: Overview)
    requires Ready(ov) && 0 <= ov.aligned30 <= ov.msgs30
    ensures 100 * (ov.msgs30 - ov.aligned30) <= 2 * ov.msgs30
  {
    RateAgainst(ov.aligned30, ov.msgs30, 98.0);
    assert 100.0 * ov.aligned30 as real >= 98.0 * ov.msgs30 as real;
  }

  lemma DropLinear(ov: Overview)
    requires Dropped(ov) && 0 <= ov.aligned7 <= ov.msgs7 && 0 <= ov.aligned30 <= ov.msgs30
    ensures 10 * (ov.msgs7 - ov.aligned7) >= ov.msgs7
    ensures ov.aligned30 * ov.msgs7 > ov.aligned7 * ov.msgs30
  {
    RateBounds(ov.aligned30, ov.msgs30);
    LowerRate(ov.aligned7, ov.msgs7, ov.aligned30, ov.msgs30);
    WeekUnaligned(ov.aligned7, ov.msgs7);
  }

  lemma WeekUnaligned(part: int, total: int)
    requires 0 <= part <= total && total > 0 && Pct(part, total) <= 90.0
    ensures 10 * (total - part) >= total
  {
    RateAgainst(part, total, 90.0);
    assert 100.0 * part as real <= 90.0 * total as real;
  }

  /** Comparing rates is comparing cross products. */
  lemma LowerRate(a: int, b: int, c: int, e: int)
    requires 0 <= a <= b && b > 0 && 0 <= c <= e && e > 0
    ensures Pct(a, b) < Pct(c, e) <==> a * e < c * b
  {
    RateBounds(a, b);
    RateBounds(c, e);
    var p, q, x, y, rb, re := Pct(a, b), Pct(c, e), a as real, c as real, b as real, e as real;
    var s := rb * re;
    assert s > 0.0;
    Cross(a, e, p, rb, re);
    Cross(c, b, q, re, rb);
    assert re * rb == s;
    CancelScale(p, q, s);
    CancelScale(q, p, s);
    assert (a * e < c * b) <==> (a * e) as real < (c * b) as real;
  }

  lemma Cross(a: int, e: int, p: real, rb: real, re: real)
    requires p * rb == 100.0 * a as real && re == e as real
    ensures p * (rb * re) == 100.0 * (a * e) as real
  {
    assert p * (rb * re) == (p * rb) * re;
    var x := a as real;
    assert (100.0 * x) * re == 100.0 * (x * re);
    assert x * re == (a * e) as real;
  }

  /** Readiness and a drop together need a month at least five times the week. */
  lemma ReadyDespiteDrop(ov: Overview, reps: set<Report>, d: string, long: int, recent: int)
    requires Positive(reps) && long <= recent && Summarises(ov, reps, d, long, recent)
    requires Ready(ov) && Dropped(ov)
    ensures ov.msgs30 >= 5 * ov.msgs7
  {
    MessagesConserved(ov, reps, d, long, recent);
    ReadyLinear(ov);
    DropLinear(ov);
  }

  /** A drop means the older part of the window is aligned strictly above the month. */
  lemma DropMeansOlderBetter(ov: Overview, reps: set<Report>, d: string, long: int, recent: int)
    requires Positive(reps) && long <= recent && Summarises(ov, reps, d, long, recent)
    requires Dropped(ov)
    ensures Pct(ov.aligned30 - ov.aligned7, ov.msgs30 - ov.msgs7) > Pct(ov.aligned30, ov.msgs30)
  {
    MessagesConserved(ov, reps, d, long, recent);
    DropLinear(ov);
    OlderPart(ov.aligned30, ov.msgs30, ov.aligned7, ov.msgs7);
    LowerRate(ov.aligned30, ov.msgs30, ov.aligned30 - ov.aligned7, ov.msgs30 - ov.msgs7);
  }

  lemma OlderPart(a: int, m: int, a7: int, m7: int)
    requires a * m7 > a7 * m
    ensures (a - a7) * m > a * (m - m7)
  {
    assert (a - a7) * m == a * m - a7 * m && a * (m - m7) == a * m - a * m7;
  }

  /** A drop and a silence can be reported together only when the newest report ended
      between the opening of the recent window and seven days ago, wherever it opens. */
  lemma DropAndSilence(ov: Overview, reps: set<Report>, d: string, long: int, recent: int, now: int)
    requires Summarises(ov, reps, d, long, recent) && Dropped(ov) && Stale(ov, now)
    ensures recent <= ov.lastEnd <= now - WINDOW_RECENT
  {
    var r := SomeoneSent(reps, d, recent);
    assert r.end <= ov.lastEnd;
  }

  lemma SomeoneSent(reps: set<Report>, d: string, since: int) returns (r: Report)
    requires Total(reps, Messages(d, since)) != 0
    ensures r in reps && r.domain == d && r.end >= since
  {
    var q := Messages(d, since);
    if forall r :: r in reps ==> VolumeOf(q)(r) == 0 {
      Sums.SumZero(reps, VolumeOf(q));
      assert false;
    }
    r :| r in reps && VolumeOf(q)(r) != 0;
  }

  // ---- collecting --------------------------------------------------------------------------

  datatype ScanError = Cancelled

  /** One scan of a domain: prune, summarise, decide. */
  method Collect(store: Mem.MemStore, h: Hash, d: string, now: int, cancelled: bool)
    returns (res: Result<seq<Finding>, ScanError>, ghost ov: Overview)
    requires store.Valid()
    modifies store
    ensures store.Valid() && store.reports == Mem.Pruned(old(store.reports), now - 396 * 86_400_000_000_000)
    ensures Summarises(ov, store.reports.Values, d, now - 30 * 86_400_000_000_000, now - 7 * 86_400_000_000_000)
    ensures res.Ok? <==> !cancelled
    ensures res.Ok? ==> res.value == FindingsOf(h, d, ov, now)
  {
    store.Prune(now - PRUNE_AFTER);
    var seen := store.Overview(d, now);
    ov := seen;
    if cancelled { return Err(Cancelled), ov; }
    var out := Decide(h, d, seen, now);
    res := Ok(out);
  }

  method Decide(h: Hash, d: string, ov: Overview, now: int) returns (out: seq<Finding>)
    ensures out == FindingsOf(h, d, ov, now)
  {
    if !ov.hasData {
      return [Render(h, d, ov, Subject(NoData, ""))];
    }
    var subjects: seq<Subject> := [];
    for i := 0 to |ov.sources|
      invariant subjects == Spoofers(ov.sources[..i])
    {
      assert ov.sources[..i + 1][..i] == ov.sources[..i];
      if IsSpoofing(ov.sources[i]) {
        subjects := subjects + [Subject(Spoofing, ov.sources[i].ip)];
      }
    }
    assert ov.sources[..|ov.sources|] == ov.sources;
    if now - ov.firstSeen >= MIN_HISTORY {
      var cutoff := now - WINDOW_RECENT;
      ghost var spoofers := subjects;
      for i := 0 to |ov.sources|
        invariant subjects == spoofers + Newcomers(ov.sources[..i], cutoff)
      {
        assert ov.sources[..i + 1][..i] == ov.sources[..i];
        if IsNewSource(ov.sources[i], cutoff) {
          subjects := subjects + [Subject(NewSource, ov.sources[i].ip)];
        }
      }
    }
    subjects := subjects + DomainWide(ov, now);
    assert subjects == Subjects(ov, now);
    out := seq(|subjects|, i requires 0 <= i < |subjects| => Render(h, d, ov, subjects[i]));
  }
}
