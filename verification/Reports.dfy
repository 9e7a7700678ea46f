/** DMARC aggregate reports: instants, the report model, the DMARC pass rule of
    section 6.6.2 of RFC 7489, deduplication keys, and the normalisation that turns
    a decoded feedback document (appendix C of RFC 7489) into a report. */
module Reports {
  import opened Base
  import opened Text

  // ---- instants: integer nanoseconds since the Unix epoch ---------------------

  /** Go's zero time.Time, the start of year 1. */
  const ZERO_TIME := -62_135_596_800_000_000_000

  /** time.Time.Unix: the whole seconds at or before t. */
  function Unix(t: int): int { t / 1_000_000_000 }

  function FromUnix(s: int): int { s * 1_000_000_000 }

  predicate WholeSecond(t: int) { t % 1_000_000_000 == 0 }

  /** The second t falls into, as an instant. */
  function Floor(t: int): int { FromUnix(Unix(t)) }

  lemma FromUnixIsWhole(s: int)
    ensures WholeSecond(FromUnix(s)) && Unix(FromUnix(s)) == s
  {
  }

  /** Rounding to seconds is harmless on whole seconds, and on lower bounds always. */
  lemma UnixRounds(s: int, t: int)
    ensures FromUnix(s) <= t <==> s <= Unix(t)
    ensures WholeSecond(t) ==> FromUnix(Unix(t)) == t
    ensures WholeSecond(t) ==> (t <= FromUnix(s) <==> Unix(t) <= s)
  {
  }

  // ---- the report model -------------------------------------------------------

  datatype Record = Record(
    sourceIP: string, count: int, disposition: string,
    evalDKIM: string, evalSPF: string, headerFrom: string,
    authDKIM: string, authSPF: string)

  datatype Report = Report(
    org: string, email: string, reportID: string, begin: int, end: int,
    domain: string, policy: string, subPolicy: string, pct: int, records: seq<Record>)

  predicate Aligned(r: Record)
  {
    FoldsToPass(r.evalDKIM) || FoldsToPass(r.evalSPF)
  }

  predicate FailsBoth(r: Record) { !Aligned(r) }

  /** The comparison the SQL queries make instead: no case folding. */
  predicate ExactlyAligned(dkim: string, spf: string)
  {
    dkim == "pass" || spf == "pass"
  }

  function Key(r: Report): string { r.org + "|" + r.reportID + "|" + r.domain }

  /** The three-column primary key of the report table. */
  function Identity(r: Report): (string, string, string) { (r.domain, r.org, r.reportID) }

  function IPs(records: seq<Record>): set<string>
  {
    set i | 0 <= i < |records| :: records[i].sourceIP
  }

  // ---- when the two notions of alignment and of identity coincide ---------------

  /** A spelling of "pass" that only the long s tells apart. */
  predicate LongSPass(s: string)
  {
    |s| == 4 && s[0] == 'p' && s[1] == 'a' && s[2] in {'s', LONG_S} && s[3] in {'s', LONG_S} && LONG_S in s
  }

  lemma FoldedPass(s: string)
    requires Lowered(s)
    ensures FoldsToPass(s) <==> s == "pass" || LongSPass(s)
  {
    if FoldsToPass(s) {
      assert s == [s[0], s[1], s[2], s[3]];
    }
  }

  /** On lower-cased results folding and exact comparison disagree precisely on a
      record whose only pass is spelt with a long s. */
  lemma AlignmentAgrees(r: Record)
    requires Lowered(r.evalDKIM) && Lowered(r.evalSPF)
    ensures (Aligned(r) <==> ExactlyAligned(r.evalDKIM, r.evalSPF)) <==>
            ExactlyAligned(r.evalDKIM, r.evalSPF) || !(LongSPass(r.evalDKIM) || LongSPass(r.evalSPF))
  {
    FoldedPass(r.evalDKIM);
    FoldedPass(r.evalSPF);
  }

  lemma LongSPassIsNotExact(r: Record)
    requires r.evalDKIM == ['p', 'a', LONG_S, LONG_S] && r.evalSPF == "fail"
    ensures Aligned(r) && !ExactlyAligned(r.evalDKIM, r.evalSPF)
  {
    assert r.evalDKIM[2] == LONG_S && r.evalDKIM[3] == LONG_S;
    assert r.evalDKIM != "pass" by { assert "pass"[2] != LONG_S; }
  }

  predicate BarFree(r: Report) { '|' !in r.org && '|' !in r.domain }

  /** Without a bar in org or domain the joined key identifies the triple, whatever
      the report id contains. */
  lemma KeyIdentifies(a: Report, b: Report)
    requires BarFree(a) && BarFree(b)
    ensures Key(a) == Key(b) <==> Identity(a) == Identity(b)
  {
    if Key(a) == Key(b) {
      assert Key(a) == a.org + ['|'] + (a.reportID + "|" + a.domain);
      assert Key(b) == b.org + ['|'] + (b.reportID + "|" + b.domain);
      JoinInjective(a.org, a.reportID + "|" + a.domain, b.org, b.reportID + "|" + b.domain, '|');
      JoinInjectiveRight(a.reportID, a.domain, b.reportID, b.domain, '|');
    }
  }

  /** With a bar the joined key can confuse two different reports. */
  lemma KeyCollides(a: Report, b: Report)
    requires a.org == "a|b" && a.reportID == "c" && b.org == "a" && b.reportID == "b|c" && a.domain == b.domain
    ensures Key(a) == Key(b) && Identity(a) != Identity(b)
  {
    assert "a|b" + "|" + "c" == "a" + "|" + "b|c";
    assert Key(a) == ("a|b" + "|" + "c") + ("|" + a.domain);
    assert Key(b) == ("a" + "|" + "b|c") + ("|" + a.domain);
    assert |"a|b"| != |"a"|;
  }

  // ---- normalising a decoded feedback document ---------------------------------

  datatype XmlRecord = XmlRecord(
    sourceIP: string, count: int, disposition: string, dkim: string, spf: string,
    headerFrom: string, authDKIM: seq<string>, authSPF: seq<string>)

  datatype Feedback = Feedback(
    orgName: string, email: string, reportID: string, begin: int, end: int,
    domain: string, p: string, sp: string, pct: Option<int>, records: seq<XmlRecord>)

  datatype ParseError = MissingMetadata | MissingDomain | NoRecords | NoSourceIP

  /** Canonical text of an address literal, or None where net.ParseIP gives up. */
  type IPParser = string -> Option<string>

  function NormalizeIP(raw: string, parseIP: IPParser): string
  {
    var s := TrimSpace(raw);
    match parseIP(s)
    case Some(ip) => ip
    case None => s
  }

  function Clean(s: string): string { ToLower(TrimSpace(s)) }

  function Normalize(x: XmlRecord, parseIP: IPParser): Record
  {
    Record(
      NormalizeIP(x.sourceIP, parseIP),
      if x.count <= 0 then 1 else x.count,
      Clean(x.disposition), Clean(x.dkim), Clean(x.spf), Clean(x.headerFrom),
      if |x.authDKIM| > 0 then ToLower(x.authDKIM[0]) else "",
      if |x.authSPF| > 0 then ToLower(x.authSPF[0]) else "")
  }

  function NormalizeAll(xs: seq<XmlRecord>, parseIP: IPParser): (rows: seq<Record>)
    ensures |rows| == |xs| && forall i :: 0 <= i < |xs| ==> rows[i] == Normalize(xs[i], parseIP)
  {
    seq(|xs|, i requires 0 <= i < |xs| => Normalize(xs[i], parseIP))
  }

  predicate AnySourced(xs: seq<XmlRecord>, parseIP: IPParser)
  {
    exists i :: 0 <= i < |xs| && NormalizeIP(xs[i].sourceIP, parseIP) != ""
  }

  /** The rows that survive: those with a source, in document order. */
  function Kept(rows: seq<Record>): seq<Record>
  {
    if rows == [] then []
    else
      var last := rows[|rows| - 1];
      Kept(rows[..|rows| - 1]) + (if last.sourceIP == "" then [] else [last])
  }

  /** What every stored row satisfies. */
  predicate GoodRow(r: Record)
  {
    r.count >= 1 && r.sourceIP != "" && Lowered(r.evalDKIM) && Lowered(r.evalSPF)
  }

  /** What every parsed report satisfies and the stores rely on. */
  predicate WellFormed(rep: Report)
  {
    && rep.domain != ""
    && rep.records != []
    && WholeSecond(rep.begin) && WholeSecond(rep.end)
    && forall i :: 0 <= i < |rep.records| ==> GoodRow(rep.records[i])
  }

  lemma NormalizedRow(x: XmlRecord, parseIP: IPParser)
    ensures Normalize(x, parseIP).sourceIP != "" ==> GoodRow(Normalize(x, parseIP))
  {
    var r := Normalize(x, parseIP);
    assert Lowered(r.evalDKIM) && Lowered(r.evalSPF);
  }

  /** Which part of a decoded row feeds which field, and what is done to it on the way. */
  lemma NormalFields(x: XmlRecord, parseIP: IPParser)
    ensures var r := Normalize(x, parseIP);
            && r.count == (if x.count >= 1 then x.count else 1)
            && (parseIP(TrimSpace(x.sourceIP)).None? ==> r.sourceIP == TrimSpace(x.sourceIP))
            && (parseIP(TrimSpace(x.sourceIP)).Some? ==> Some(r.sourceIP) == parseIP(TrimSpace(x.sourceIP)))
            && r.evalDKIM == ToLower(TrimSpace(x.dkim)) && r.evalSPF == ToLower(TrimSpace(x.spf))
            && r.disposition == ToLower(TrimSpace(x.disposition)) && r.headerFrom == ToLower(TrimSpace(x.headerFrom))
            && (x.authDKIM != [] ==> r.authDKIM == ToLower(x.authDKIM[0])) && (x.authDKIM == [] ==> r.authDKIM == "")
            && (x.authSPF != [] ==> r.authSPF == ToLower(x.authSPF[0])) && (x.authSPF == [] ==> r.authSPF == "")
  {
    hide TrimSpace, ToLower;
  }

  lemma NormalizedRows(xs: seq<XmlRecord>, parseIP: IPParser)
    ensures var rows := NormalizeAll(xs, parseIP);
            && (forall i :: 0 <= i < |rows| ==> rows[i].sourceIP != "" ==> GoodRow(rows[i]))
            && (AnySourced(xs, parseIP) <==> exists i :: 0 <= i < |rows| && rows[i].sourceIP != "")
  {
    var rows := NormalizeAll(xs, parseIP);
    forall i | 0 <= i < |rows|
      ensures rows[i].sourceIP == NormalizeIP(xs[i].sourceIP, parseIP)
      ensures rows[i].sourceIP != "" ==> GoodRow(rows[i])
    {
      NormalizedRow(xs[i], parseIP);
    }
  }

  lemma {:induction false} KeptRows(rows: seq<Record>)
    requires forall i :: 0 <= i < |rows| ==> rows[i].sourceIP != "" ==> GoodRow(rows[i])
    ensures forall i :: 0 <= i < |Kept(rows)| ==> GoodRow(Kept(rows)[i])
    ensures Kept(rows) != [] <==> exists i :: 0 <= i < |rows| && rows[i].sourceIP != ""
    ensures |Kept(rows)| <= |rows|
  {
    if rows != [] {
      KeptRows(rows[..|rows| - 1]);
    }
  }

  /** Acceptance is exactly the four checks; an accepted report is well formed and
      keeps every sourced row, in order, with its count raised to one. */
  method ParseXML(fb: Feedback, parseIP: IPParser) returns (res: Result<Report, ParseError>)
    ensures res.Ok? <==>
              && !(fb.orgName == "" && fb.reportID == "")
              && Clean(fb.domain) != ""
              && AnySourced(fb.records, parseIP)
    ensures res.Ok? ==>
              && WellFormed(res.value)
              && res.value.records == Kept(NormalizeAll(fb.records, parseIP))
              && res.value.domain == Clean(fb.domain)
              && Unix(res.value.begin) == fb.begin && Unix(res.value.end) == fb.end
              && res.value.org == TrimSpace(fb.orgName) && res.value.email == TrimSpace(fb.email)
              && res.value.reportID == TrimSpace(fb.reportID)
              && res.value.policy == Clean(fb.p) && res.value.subPolicy == Clean(fb.sp)
              && res.value.pct == (if fb.pct.Some? then fb.pct.value else 100)
    ensures res.Err? ==> res.error == (if fb.orgName == "" && fb.reportID == "" then MissingMetadata
                                       else if Clean(fb.domain) == "" then MissingDomain
                                       else if fb.records == [] then NoRecords
                                       else NoSourceIP)
  {
    if fb.orgName == "" && fb.reportID == "" { return Err(MissingMetadata); }
    var domain := Clean(fb.domain);
    if domain == "" { return Err(MissingDomain); }
    if |fb.records| == 0 { return Err(NoRecords); }
    var records := ParseRecords(fb.records, parseIP);
    if |records| == 0 { return Err(NoSourceIP); }
    FromUnixIsWhole(fb.begin);
    FromUnixIsWhole(fb.end);
    res := Ok(Report(
      TrimSpace(fb.orgName), TrimSpace(fb.email), TrimSpace(fb.reportID),
      FromUnix(fb.begin), FromUnix(fb.end), domain, Clean(fb.p), Clean(fb.sp),
      if fb.pct.Some? then fb.pct.value else 100, records));
  }

  lemma KeptStep(rows: seq<Record>, i: nat)
    requires i < |rows|
    ensures Kept(rows[..i + 1]) == Kept(rows[..i]) + (if rows[i].sourceIP == "" then [] else [rows[i]])
  {
    assert rows[..i + 1][..i] == rows[..i];
  }

  /** The record loop of ParseXML. */
  method ParseRecords(xs: seq<XmlRecord>, parseIP: IPParser) returns (records: seq<Record>)
    ensures records == Kept(NormalizeAll(xs, parseIP))
    ensures forall i :: 0 <= i < |records| ==> GoodRow(records[i])
    ensures records != [] <==> AnySourced(xs, parseIP)
  {
    hide *;
    ghost var rows := NormalizeAll(xs, parseIP);
    NormalizedRows(xs, parseIP);
    KeptRows(rows);
    KeptNone();
    records := [];
    for i := 0 to |xs|
      invariant records == Kept(rows[..i])
    {
      KeptStep(rows, i);
      var rec := Normalize(xs[i], parseIP);
      if rec.sourceIP != "" {
        records := records + [rec];
      }
    }
    assert rows[..|xs|] == rows;
  }

  lemma KeptNone()
    ensures Kept([]) == []
  {
  }
}
