/** Runs whose scans are the collector's own: what the lifecycle asks of a scan, the
    collector delivers. */
module CollectedRuns {
  import opened Base
  import opened Text
  import opened Findings
  import opened FindingStores
  import opened Reconcile
  import opened Lifecycle
  import opened FindingRuns
  import opened Overviews
  import opened Collector

  /** A scan that hands over what Collect decided at its own time from an overview. */
  ghost predicate Collected(s: Scan, h: Hash, ov: Overview, at: int)
  {
    && s.mod == MODULE_ID && s.resolveAfter == 1 && s.target != ""
    && DistinctIPs(ov.sources)
    && s.found == FindingsOf(h, s.target, ov, at)
  }

  /** Every scan is of one of the targets and the collector's own. */
  ghost predicate CollectedRun(events: seq<Event>, h: Hash, targets: set<string>)
  {
    forall i :: 0 <= i < |events| && events[i].ScanEvent? ==>
      events[i].scan.target in targets && exists ov, at :: Collected(events[i].scan, h, ov, at)
  }

  // ---- which domain a fingerprint was made for ----------------------------------------------

  predicate PerSource(c: Check) { c == Spoofing || c == NewSource }

  /** Only the per-source checks have something to tell findings apart by. */
  predicate Producible(x: Subject) { PerSource(x.check) || x.ip == "" }

  function Printed(d: string, x: Subject): string { d + "|" + CheckID(x.check) + "|" + x.ip }

  function SubjectPrint(h: Hash, d: string, x: Subject): string
  {
    Fingerprint(h, MODULE_ID, d, CheckID(x.check), x.ip)
  }

  /** The domain continues the other one with a bar, a per-source check, and nothing or a
      bar and anything. */
  predicate Continues(e: string, d: string, c: Check)
  {
    var p := d + "|" + CheckID(c);
    PerSource(c) && p <= e && (|e| == |p| || e[|p|] == '|')
  }

  ghost predicate Entangled(d: string, e: string)
  {
    exists c :: Continues(e, d, c) || Continues(d, e, c)
  }

  lemma SamePrint(h: Hash, d: string, e: string, x: Subject, y: Subject)
    requires Ideal(h)
    ensures SubjectPrint(h, d, x) == SubjectPrint(h, e, y) <==> Printed(d, x) == Printed(e, y)
  {
    var prefix := MODULE_ID + "|";
    var s := MODULE_ID + "|" + d + "|" + CheckID(x.check) + "|" + x.ip;
    var t := MODULE_ID + "|" + e + "|" + CheckID(y.check) + "|" + y.ip;
    assert s == prefix + Printed(d, x) && t == prefix + Printed(e, y);
    assert Printed(d, x) == s[|prefix|..] && Printed(e, y) == t[|prefix|..];
    assert h(s) == h(t) <==> s == t;
  }

  lemma LongerContinues(d: string, e: string, x: Subject, y: Subject)
    requires Printed(d, x) == Printed(e, y) && |d| < |e| && Producible(x)
    ensures Continues(e, d, x.check)
  {
    ChecksDiffer(x.check, x.check);
    var s, p, c := Printed(d, x), d + "|" + CheckID(x.check), CheckID(x.check);
    assert s == p + "|" + x.ip && s == e + "|" + (CheckID(y.check) + "|" + y.ip);
    assert s[|e|] == '|' && s[..|e|] == e && s[..|p|] == p && s[|p|] == '|';
    assert forall i :: |d| < i < |p| ==> s[i] == c[i - |d| - 1];
    assert |e| >= |p| && p == e[..|p|];
    hide *;
  }

  lemma ContinuedPrints(h: Hash, d: string, e: string, c: Check) returns (x: Subject, y: Subject)
    requires Ideal(h) && Continues(e, d, c)
    ensures Producible(x) && Producible(y) && SubjectPrint(h, d, x) == SubjectPrint(h, e, y)
  {
    y := Subject(Policy, "");
    var p, full := d + "|" + CheckID(c), Printed(e, y);
    assert full == e + "|" + (CheckID(Policy) + "|");
    x := Subject(c, full[|p| + 1..]);
    SplitAtBar(p, e, CheckID(Policy) + "|", full);
    assert Producible(x) && Printed(d, x) == p + "|" + x.ip;
    hide Printed, CheckID, SubjectPrint;
    SamePrint(h, d, e, x, y);
  }

  lemma SplitAtBar(p: string, e: string, rest: string, full: string)
    requires p <= e && (|e| == |p| || e[|p|] == '|') && full == e + "|" + rest
    ensures |p| < |full| && full == p + "|" + full[|p| + 1..]
  {
    assert full[..|p|] == p && full[|p|] == '|';
    assert full == full[..|p|] + [full[|p|]] + full[|p| + 1..];
  }

  ghost predicate Shared(h: Hash, d: string, e: string)
  {
    exists x, y :: Producible(x) && Producible(y) && SubjectPrint(h, d, x) == SubjectPrint(h, e, y)
  }

  /** Findings of two domains can have the same fingerprint exactly when one domain
      continues the other. */
  lemma PrintsShared(h: Hash, d: string, e: string)
    requires Ideal(h) && d != e
    ensures Shared(h, d, e) <==> Entangled(d, e)
  {
    if Shared(h, d, e) {
      var x, y :| Producible(x) && Producible(y) && SubjectPrint(h, d, x) == SubjectPrint(h, e, y);
      SamePrint(h, d, e, x, y);
      assert |d| != |e| by {
        assert Printed(d, x)[..|d|] == d && Printed(e, y)[..|e|] == e;
      }
      if |d| < |e| { LongerContinues(d, e, x, y); } else { LongerContinues(e, d, y, x); }
    }
    if Entangled(d, e) {
      var c :| Continues(e, d, c) || Continues(d, e, c);
      if Continues(e, d, c) {
        var x, y := ContinuedPrints(h, d, e, c);
      } else {
        var x, y := ContinuedPrints(h, e, d, c);
        assert SubjectPrint(h, d, y) == SubjectPrint(h, e, x);
      }
    }
  }

  /** A target with a bar, which validation accepts, and a source address that does not
      parse: a spoofing finding of one domain is the policy finding of another. */
  lemma BarsShare(h: Hash)
    ensures SubjectPrint(h, "x.com", Subject(Spoofing, "dmarc.policy|"))
         == SubjectPrint(h, "x.com|dmarc.spoofing", Subject(Policy, ""))
  {
    assert MODULE_ID + "|" + "x.com" + "|" + "dmarc.spoofing" + "|" + "dmarc.policy|"
        == MODULE_ID + "|" + "x.com|dmarc.spoofing" + "|" + "dmarc.policy" + "|" + "";
  }

  /** No two of the targets continue each other. */
  ghost predicate Untangled(targets: set<string>)
  {
    forall d, e :: d in targets && e in targets && d != e ==> !Entangled(d, e)
  }

  lemma BarFreeUntangled(targets: set<string>)
    requires forall d :: d in targets ==> '|' !in d
    ensures Untangled(targets)
  {
    forall d, e, c | Continues(e, d, c) ensures '|' in e {
      ContinuesHasBar(e, d, c);
    }
    hide Continues;
  }

  lemma ContinuesHasBar(e: string, d: string, c: Check)
    requires Continues(e, d, c)
    ensures '|' in e
  {
    assert e[|d|] == (d + "|" + CheckID(c))[|d|] == '|';
  }

  ghost predicate PrintOf(h: Hash, fingerprint: string, d: string)
  {
    exists x :: Producible(x) && SubjectPrint(h, d, x) == fingerprint
  }

  ghost function DomainOf(h: Hash, targets: set<string>, k: Key): string
  {
    if exists d :: d in targets && PrintOf(h, k.1, d) then var d :| d in targets && PrintOf(h, k.1, d); d else ""
  }

  ghost function Domains(h: Hash, targets: set<string>): Owner { k => DomainOf(h, targets, k) }

  lemma DomainFound(h: Hash, targets: set<string>, d: string, x: Subject, mod: string)
    requires Ideal(h) && Untangled(targets) && d in targets && Producible(x)
    ensures DomainOf(h, targets, (mod, SubjectPrint(h, d, x))) == d
  {
    var k := (mod, SubjectPrint(h, d, x));
    assert PrintOf(h, k.1, d);
    var e := DomainOf(h, targets, k);
    assert e in targets && PrintOf(h, k.1, e);
    var y :| Producible(y) && SubjectPrint(h, e, y) == k.1;
    if d != e {
      PrintsShared(h, d, e);
      assert Shared(h, d, e);
    }
  }

  lemma SubjectsProducible(ov: Overview, now: int)
    requires DistinctIPs(ov.sources)
    ensures forall x :: x in Subjects(ov, now) ==> Producible(x)
  {
    if ov.hasData {
      PerSourceSubjects(ov.sources, now - WINDOW_RECENT);
      assert forall x :: x in DomainWide(ov, now) ==> x.ip == "";
      hide DomainWide, Spoofers, Newcomers;
    }
  }

  lemma CollectedIsCoherent(s: Scan, h: Hash, ov: Overview, at: int, targets: set<string>)
    requires Ideal(h) && Collected(s, h, ov, at) && Untangled(targets) && s.target in targets
    ensures Coherent(s, Domains(h, targets)) && Threshold(s) == 1
    ensures forall i :: 0 <= i < |s.found| ==> Valid(s.found[i])
  {
    FindingsWellFormed(h, s.target, ov, at);
    SubjectsProducible(ov, at);
    forall i | 0 <= i < |s.found| ensures Domains(h, targets)(FreshKey(s, i)) == s.target {
      DomainFound(h, targets, s.target, Subjects(ov, at)[i], s.mod);
    }
    hide Valid, FindingsOf, DomainOf, Subjects;
  }

  lemma CollectedRunIsCoherent(events: seq<Event>, h: Hash, targets: set<string>)
    requires Ideal(h) && CollectedRun(events, h, targets) && Untangled(targets)
    ensures CoherentRun(events, Domains(h, targets))
  {
    forall i | 0 <= i < |events| && events[i].ScanEvent? ensures Coherent(events[i].scan, Domains(h, targets)) {
      var ov, at :| Collected(events[i].scan, h, ov, at);
      CollectedIsCoherent(events[i].scan, h, ov, at, targets);
    }
  }

  function PrintKeys(fs: seq<Finding>): set<Key>
  {
    set i | 0 <= i < |fs| :: (MODULE_ID, fs[i].fingerprint)
  }

  /** After any run over targets that do not continue each other, a scan of a domain
      leaves exactly what Collect reports open or acknowledged, less what the user has
      suppressed. */
  lemma DashboardMirrorsCollector(events: seq<Event>, s: Scan, h: Hash, ov: Overview, at: int, targets: set<string>)
    requires Ideal(h) && Untangled(targets)
    requires CollectedRun(events, h, targets) && Collected(s, h, ov, at) && s.target in targets
    ensures LiveKeys(After(Run(events), s), MODULE_ID, s.target)
         == PrintKeys(FindingsOf(h, s.target, ov, at)) - SuppressedKeys(Run(events))
  {
    CollectedRunIsCoherent(events, h, targets);
    CollectedIsCoherent(s, h, ov, at, targets);
    RunRooted(events, Domains(h, targets));
    LiveIsSeen(Run(events), s, Domains(h, targets));
    hide Valid, FindingsOf, DomainOf, After, Coherent, LiveKeys;
    assert Seen(s, |s.found|) == PrintKeys(s.found);
  }

  /** The notifications of the collector's own runs alternate while nobody reopens a
      resolved finding. */
  lemma CollectedRunsAlternate(events: seq<Event>, h: Hash, k: Key, targets: set<string>)
    requires Ideal(h) && CollectedRun(events, h, targets) && Untangled(targets) && SparesResolved(events, k)
    ensures Alternates(History(events, k)) && InStep(Run(events), History(events, k), k)
  {
    CollectedRunIsCoherent(events, h, targets);
    NotificationsAlternate(events, Domains(h, targets), k);
  }

  /** Where fingerprints are shared, a scan of one domain takes over the record of another. */
  lemma SharedRecordMoves(t: Table, s: Scan, k: Key)
    requires Keyed(t) && k in t && t[k].finding.target != s.target
    requires |s.found| == 1 && Valid(s.found[0]) && s.found[0].target == s.target && FreshKey(s, 0) == k
    ensures k !in LiveKeys(After(t, s), k.0, t[k].finding.target)
    ensures k in LiveKeys(After(t, s), k.0, s.target)
  {
    var ex := Existing(t, s);
    assert k !in ex && ApplyFresh(t, ex, s, 0) == t;
    assert k in ApplyFresh(t, ex, s, 1) && ApplyFresh(t, ex, s, 1)[k] == FreshRecord(ex, s, 0);
    assert k !in AbsentAmong(ex, s, ex.Keys);
    assert After(t, s)[k] == FreshRecord(ex, s, 0);
    hide ApplyFresh, Existing, AbsentAmong, Valid;
  }
}
