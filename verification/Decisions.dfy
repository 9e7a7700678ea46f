/** Which findings an overview gives, said in whole numbers: one exact condition for each of
    the six checks. */
module Decisions {
  import opened Findings
  import opened Overviews
  import opened Collector
  import opened PrunedFindings

  // ---- rates in whole numbers ------------------------------------------------------------------

  lemma AtLeastShare(part: int, total: int, k: real)
    requires total > 0
    ensures 100.0 * part as real / total as real >= k <==> 100.0 * part as real >= k * total as real
  {
    var x, t := 100.0 * part as real / total as real, total as real;
    assert x * t == 100.0 * part as real;
    CancelScale(k, x, t);
  }

  lemma SpoofingInNumbers(s: SourceStat)
    ensures IsSpoofing(s) <==> s.failBoth >= 10 && s.msgs > 0 && 10 * s.failBoth >= 9 * s.msgs
  {
    if s.msgs > 0 {
      AtLeastShare(s.failBoth, s.msgs, 90.0);
      assert 100.0 * s.failBoth as real >= 90.0 * s.msgs as real <==> 10 * s.failBoth >= 9 * s.msgs;
    } else if s.msgs < 0 && s.failBoth >= 10 {
      NegativeShare(s.failBoth, s.msgs);
    }
  }

  lemma NegativeShare(part: int, total: int)
    requires part > 0 && total < 0
    ensures 100.0 * part as real / total as real < 0.0
  {
    var x, t := 100.0 * part as real / total as real, total as real;
    assert x * t == 100.0 * part as real > 0.0;
    assert x >= 0.0 ==> x * t <= 0.0;
  }

  lemma ReadyInNumbers(ov: Overview)
    ensures Ready(ov) <==> ov.msgs30 >= 100 && ov.orgs30 >= 2 && 100 * ov.aligned30 >= 98 * ov.msgs30
  {
    if ov.msgs30 >= 100 {
      AtLeastShare(ov.aligned30, ov.msgs30, 98.0);
      assert 100.0 * ov.aligned30 as real >= 98.0 * ov.msgs30 as real <==> 100 * ov.aligned30 >= 98 * ov.msgs30;
    }
  }

  lemma GapInNumbers(a: int, m: int, b: int, w: int)
    requires m > 0 && w > 0
    ensures 100.0 * a as real / m as real - 100.0 * b as real / w as real >= 10.0 <==> 10 * (a * w - b * m) >= m * w
  {
    var x, y := 100.0 * a as real / m as real, 100.0 * b as real / w as real;
    var rm, rw := m as real, w as real;
    assert x * rm == 100.0 * a as real && y * rw == 100.0 * b as real;
    Cross(a, w, x, rm, rw);
    Cross(b, m, y, rw, rm);
    var t := rm * rw;
    assert t > 0.0 && rw * rm == t;
    assert (x - y) * t == x * t - y * t == 100.0 * (a * w) as real - 100.0 * (b * m) as real;
    CancelScale(10.0, x - y, t);
    assert t == (m * w) as real;
    TenTimes(a * w - b * m, m * w);
  }

  lemma TenTimes(p: int, q: int)
    ensures 100.0 * p as real >= 10.0 * q as real <==> 10 * p >= q
  {
  }

  lemma DropInNumbers(ov: Overview)
    ensures Dropped(ov) <==>
              && ov.msgs7 >= 50 && ov.msgs30 > ov.msgs7
              && 10 * (ov.aligned30 * ov.msgs7 - ov.aligned7 * ov.msgs30) >= ov.msgs30 * ov.msgs7
  {
    if ov.msgs7 >= 50 && ov.msgs30 > ov.msgs7 {
      GapInNumbers(ov.aligned30, ov.msgs30, ov.aligned7, ov.msgs7);
    }
  }

  // ---- findings and subjects -----------------------------------------------------------------------

  /** The fingerprint of a check on a domain, with what tells its findings apart. */
  function Print(h: Hash, d: string, check: string, ip: string): string
  {
    h("dmarcwatch|" + d + "|" + check + "|" + ip)
  }

  /** The findings include this one. */
  ghost predicate Gives(fs: seq<Finding>, check: string, fingerprint: string, target: string, severity: Severity)
  {
    exists i :: 0 <= i < |fs| && fs[i].check == check && fs[i].fingerprint == fingerprint
                && fs[i].target == target && fs[i].severity == severity
  }

  lemma PrintIs(h: Hash, d: string, check: string, ip: string)
    ensures Fingerprint(h, MODULE_ID, d, check, ip) == Print(h, d, check, ip)
  {
    assert MODULE_ID + "|" + d + "|" + check + "|" + ip == "dmarcwatch|" + d + "|" + check + "|" + ip;
  }

  lemma GivesSubject(h: Hash, d: string, ov: Overview, now: int, x: Subject, severity: Severity)
    requires Ideal(h)
    ensures Gives(FindingsOf(h, d, ov, now), CheckID(x.check), Print(h, d, CheckID(x.check), x.ip), d, severity) <==>
              x in Subjects(ov, now) && severity == SeverityOf(x.check, ov)
  {
    var fs, subjects := FindingsOf(h, d, ov, now), Subjects(ov, now);
    PrintIs(h, d, CheckID(x.check), x.ip);
    if Gives(fs, CheckID(x.check), Print(h, d, CheckID(x.check), x.ip), d, severity) {
      var i :| 0 <= i < |fs| && fs[i].check == CheckID(x.check) && fs[i].severity == severity
               && fs[i].fingerprint == Print(h, d, CheckID(x.check), x.ip);
      if subjects[i] != x { FingerprintsDiffer(h, d, subjects[i], x); }
    }
    if x in subjects && severity == SeverityOf(x.check, ov) {
      var i :| 0 <= i < |subjects| && subjects[i] == x;
      assert fs[i] == Render(h, d, ov, x);
    }
    hide Subjects, CheckID, Print;
  }

  lemma WideAre(ov: Overview, now: int, x: Subject)
    ensures x in DomainWide(ov, now) <==>
              && x.ip == ""
              && ((x.check == Policy && (ov.policy in {"none", ""} || (ov.policy == "quarantine" && Ready(ov))))
                  || (x.check == AlignmentDrop && Dropped(ov))
                  || (x.check == NoReports && Stale(ov, now)))
  {
    hide Ready, Dropped, Stale;
  }

  lemma SubjectsExactly(ov: Overview, now: int, x: Subject)
    ensures x in Subjects(ov, now) <==>
              if !ov.hasData then x == Subject(NoData, "")
              else
                || (x.check == Spoofing && x.ip in SpoofIPs(ov.sources))
                || (x.check == NewSource && x.ip in ReportedNew(ov, now))
                || x in DomainWide(ov, now)
  {
    if ov.hasData { SubjectsAre(ov, now, x); }
    hide DomainWide, SpoofIPs, ReportedNew;
  }

  // ---- the six checks ------------------------------------------------------------------------------

  /** No report at all: one informational finding, and it is the only one. */
  lemma NoDataExactly(h: Hash, d: string, ov: Overview, now: int, severity: Severity)
    requires Ideal(h)
    ensures Gives(FindingsOf(h, d, ov, now), "dmarc.no-data", Print(h, d, "dmarc.no-data", ""), d, severity) <==>
              !ov.hasData && severity == Info
    ensures !ov.hasData ==> |FindingsOf(h, d, ov, now)| == 1
  {
    var x := Subject(NoData, "");
    GivesSubject(h, d, ov, now, x, severity);
    SubjectsExactly(ov, now, x);
    WideAre(ov, now, x);
    hide DomainWide, Gives, FindingsOf;
  }

  /** A source is called out for spoofing when at least ten of its messages, and nine in
      ten, fail both mechanisms. */
  lemma SpoofingExactly(h: Hash, d: string, ov: Overview, now: int, ip: string, severity: Severity)
    requires Ideal(h)
    ensures Gives(FindingsOf(h, d, ov, now), "dmarc.spoofing", Print(h, d, "dmarc.spoofing", ip), d, severity) <==>
              && ov.hasData && severity == High
              && exists i :: 0 <= i < |ov.sources| && ov.sources[i].ip == ip
                             && ov.sources[i].failBoth >= 10 && ov.sources[i].msgs > 0
                             && 10 * ov.sources[i].failBoth >= 9 * ov.sources[i].msgs
  {
    var x := Subject(Spoofing, ip);
    GivesSubject(h, d, ov, now, x, severity);
    SubjectsExactly(ov, now, x);
    WideAre(ov, now, x);
    forall i | 0 <= i < |ov.sources|
      ensures IsSpoofing(ov.sources[i]) <==>
                && ov.sources[i].failBoth >= 10 && ov.sources[i].msgs > 0
                && 10 * ov.sources[i].failBoth >= 9 * ov.sources[i].msgs
    {
      SpoofingInNumbers(ov.sources[i]);
    }
    hide DomainWide, Gives, FindingsOf, IsSpoofing;
  }

  /** A source is called new, once there are fourteen days of history, when it first appeared
      within seven days and sent five messages, not all unaligned. */
  lemma NewSourceExactly(h: Hash, d: string, ov: Overview, now: int, ip: string, severity: Severity)
    requires Ideal(h)
    ensures Gives(FindingsOf(h, d, ov, now), "dmarc.new-source", Print(h, d, "dmarc.new-source", ip), d, severity) <==>
              && ov.hasData && severity == Medium && now - ov.firstSeen >= 14 * 86_400_000_000_000
              && exists i :: 0 <= i < |ov.sources| && ov.sources[i].ip == ip
                             && ov.sources[i].firstEver >= now - 7 * 86_400_000_000_000
                             && ov.sources[i].msgs >= 5 && ov.sources[i].aligned != 0
  {
    var x := Subject(NewSource, ip);
    GivesSubject(h, d, ov, now, x, severity);
    SubjectsExactly(ov, now, x);
    WideAre(ov, now, x);
    hide DomainWide, Gives, FindingsOf;
  }

  /** The policy finding: always for a policy of none, and for quarantine once a month of a
      hundred messages from two organisations is aligned in 98 of 100. */
  lemma PolicyExactly(h: Hash, d: string, ov: Overview, now: int, severity: Severity)
    requires Ideal(h)
    ensures Gives(FindingsOf(h, d, ov, now), "dmarc.policy", Print(h, d, "dmarc.policy", ""), d, severity) <==>
              && ov.hasData
              && (((ov.policy == "none" || ov.policy == "") && severity == Low)
                  || (ov.policy == "quarantine" && severity == Info
                      && ov.msgs30 >= 100 && ov.orgs30 >= 2 && 100 * ov.aligned30 >= 98 * ov.msgs30))
  {
    var x := Subject(Policy, "");
    GivesSubject(h, d, ov, now, x, severity);
    SubjectsExactly(ov, now, x);
    WideAre(ov, now, x);
    ReadyInNumbers(ov);
    assert "none"[0] == 'n' && "quarantine"[0] == 'q';
    hide DomainWide, Gives, FindingsOf, Ready;
  }

  /** The alignment drop: a week of fifty messages, less than the month, whose aligned rate
      is ten points below the month's. */
  lemma DropExactly(h: Hash, d: string, ov: Overview, now: int, severity: Severity)
    requires Ideal(h)
    ensures var mark := Print(h, d, "dmarc.alignment-drop", "");
            Gives(FindingsOf(h, d, ov, now), "dmarc.alignment-drop", mark, d, severity) <==>
              && ov.hasData && severity == Medium && ov.msgs7 >= 50 && ov.msgs30 > ov.msgs7
              && 10 * (ov.aligned30 * ov.msgs7 - ov.aligned7 * ov.msgs30) >= ov.msgs30 * ov.msgs7
  {
    var x := Subject(AlignmentDrop, "");
    GivesSubject(h, d, ov, now, x, severity);
    SubjectsExactly(ov, now, x);
    WideAre(ov, now, x);
    DropInNumbers(ov);
    hide DomainWide, Gives, FindingsOf, Dropped;
  }

  /** Silence: the newest report ended seven days ago or earlier. */
  lemma NoReportsExactly(h: Hash, d: string, ov: Overview, now: int, severity: Severity)
    requires Ideal(h)
    ensures Gives(FindingsOf(h, d, ov, now), "dmarc.no-reports", Print(h, d, "dmarc.no-reports", ""), d, severity) <==>
              ov.hasData && severity == Medium && now - ov.lastEnd >= 7 * 86_400_000_000_000
  {
    var x := Subject(NoReports, "");
    GivesSubject(h, d, ov, now, x, severity);
    SubjectsExactly(ov, now, x);
    WideAre(ov, now, x);
    hide DomainWide, Gives, FindingsOf;
  }

  /** There is no other finding. */
  lemma OnlyTheSix(h: Hash, d: string, ov: Overview, now: int, i: nat)
    requires i < |FindingsOf(h, d, ov, now)|
    ensures FindingsOf(h, d, ov, now)[i].check in
              {"dmarc.no-data", "dmarc.spoofing", "dmarc.new-source", "dmarc.policy", "dmarc.alignment-drop",
               "dmarc.no-reports"}
  {
    var x := Subjects(ov, now)[i];
    assert FindingsOf(h, d, ov, now)[i] == Render(h, d, ov, x);
    hide Subjects, FindingsOf;
  }
}
