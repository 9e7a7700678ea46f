/** What a stored finding says over whole runs, told from the scans that saw it and the edits
    made to it. */
module Sightings {
  import opened Base
  import opened Findings
  import opened FindingStores
  import opened Reconcile
  import opened Lifecycle
  import opened FindingRuns

  // ---- the scans that saw a finding -----------------------------------------------------------

  /** A scan and which of its findings it was. */
  type Sighting = (Scan, nat)

  ghost predicate Sighted(x: Sighting, k: Key)
  {
    x.1 < |x.0.found| && Valid(x.0.found[x.1]) && FreshKey(x.0, x.1) == k
  }

  ghost function SightingIn(s: Scan, k: Key): (x: Sighting)
    requires k in Seen(s, |s.found|)
    ensures x.0 == s && Sighted(x, k)
  {
    var i :| 0 <= i < |s.found| && Valid(s.found[i]) && FreshKey(s, i) == k;
    (s, i)
  }

  ghost function LastSighting(events: seq<Event>, k: Key): Option<Sighting>
  {
    if events == [] then None
    else
      var n := |events| - 1;
      if Sees(events[n], k) then Some(SightingIn(events[n].scan, k)) else LastSighting(events[..n], k)
  }

  ghost function FirstSighting(events: seq<Event>, k: Key): Option<Sighting>
  {
    if events == [] then None
    else
      var n := |events| - 1;
      var first := FirstSighting(events[..n], k);
      if first.None? && Sees(events[n], k) then Some(SightingIn(events[n].scan, k)) else first
  }

  /** Evidence is kept as it is up to 65536 bytes; otherwise a marker stands for it. */
  predicate Keeps(given: Evidence, kept: Evidence)
  {
    && (given.Json? && |given.text| <= 65536 ==> kept == given)
    && (given.Json? && |given.text| > 65536 ==> kept == Truncated(|given.text|))
    && (given == Unserialisable ==> kept == Discarded)
    && (!given.Json? && given != Unserialisable ==> kept == given)
  }

  /** The record describes the finding as this scan reported it. */
  predicate Describes(r: Record, s: Scan, f: Finding)
  {
    && r.lastSeen == s.now && r.finding.title == f.title && r.finding.severity == f.severity
    && r.finding.remediation == f.remediation && Keeps(f.evidence, r.finding.evidence)
  }

  /** The record was made for the finding this scan reported. */
  predicate BornOf(r: Record, s: Scan, f: Finding, id: string)
  {
    && r.id == id && r.mod == s.mod && r.firstSeen == s.now && r.groupID == None
    && r.finding.fingerprint == f.fingerprint && r.finding.target == f.target && r.finding.check == f.check
  }

  ghost predicate TellsLast(r: Record, x: Sighting, k: Key) { Sighted(x, k) && Describes(r, x.0, x.0.found[x.1]) }

  ghost predicate TellsFirst(r: Record, x: Sighting, k: Key)
  {
    Sighted(x, k) && BornOf(r, x.0, x.0.found[x.1], x.0.ids[x.1])
  }

  lemma RefreshedTells(prev: Record, s: Scan, f: Finding)
    ensures Describes(Refreshed(prev, f, s.now), s, f)
    ensures SameIdentity(prev, Refreshed(prev, f, s.now)) && Refreshed(prev, f, s.now).groupID == prev.groupID
  {
  }

  lemma InsertedTells(s: Scan, f: Finding, id: string)
    ensures Describes(Inserted(f, s.mod, s.now, id), s, f) && BornOf(Inserted(f, s.mod, s.now, id), s, f, id)
  {
  }

  lemma MissedTells(r: Record, now: int, threshold: int)
    ensures var m := Missed(r, now, threshold);
            m == r.(status := m.status, absentStreak := m.absentStreak, resolvedAt := m.resolvedAt)
  {
  }

  lemma OneSighting(s: Scan, k: Key, i: nat)
    requires DistinctFresh(s) && Sighted((s, i), k)
    ensures k in Seen(s, |s.found|) && SightingIn(s, k) == (s, i)
  {
    var x := SightingIn(s, k);
    hide Valid;
  }

  /** What both sightings say of a record, if there is one. */
  ghost predicate Told(r: Option<Record>, first: Option<Sighting>, last: Option<Sighting>, k: Key)
  {
    && (r.Some? <==> last.Some?) && (r.Some? <==> first.Some?)
    && (r.Some? ==> TellsLast(r.value, last.value, k) && TellsFirst(r.value, first.value, k))
  }

  lemma SeenTold(before: Option<Record>, s: Scan, k: Key, owner: Owner, after: Option<Record>,
                 first: Option<Sighting>, last: Option<Sighting>)
    requires Steps(before, s, k, owner, after) && DistinctFresh(s) && Told(before, first, last, k)
    requires k in Seen(s, |s.found|)
    ensures var x := SightingIn(s, k); Told(after, if first.None? then Some(x) else first, Some(x), k)
  {
    var i :| 0 <= i < |s.found| && Valid(s.found[i]) && FreshKey(s, i) == k &&
      after == Some(if before.Some? then Refreshed(before.value, s.found[i], s.now)
                    else Inserted(s.found[i], s.mod, s.now, s.ids[i]));
    OneSighting(s, k, i);
    InsertedTells(s, s.found[i], s.ids[i]);
    if before.Some? { RefreshedTells(before.value, s, s.found[i]); }
    hide Refreshed, Inserted, Valid, Seen, DistinctFresh, Keeps, SightingIn, Steps;
  }

  lemma UnseenTold(before: Option<Record>, s: Scan, k: Key, owner: Owner, after: Option<Record>,
                   first: Option<Sighting>, last: Option<Sighting>)
    requires Steps(before, s, k, owner, after) && Told(before, first, last, k) && k !in Seen(s, |s.found|)
    ensures Told(after, first, last, k)
  {
    if before.Some? { MissedTells(before.value, s.now, Threshold(s)); }
    hide Missed, Seen, Valid, Keeps, Sighted;
  }

  /** A record exists exactly for findings that have been seen. Its descriptive fields and
      last-seen time are those of the last scan that saw it, its identity and first-seen time
      those of the first, whatever edits were made. */
  lemma {:induction false} RecordsTell(events: seq<Event>, owner: Owner, k: Key)
    requires CoherentRun(events, owner)
    ensures Told(Lookup(Run(events), k), FirstSighting(events, k), LastSighting(events, k), k)
  {
    if events != [] {
      var n := |events| - 1;
      RecordsTell(events[..n], owner, k);
      RunRooted(events[..n], owner);
      var t, first, last := Run(events[..n]), FirstSighting(events[..n], k), LastSighting(events[..n], k);
      match events[n]
      case ScanEvent(s) =>
        ScanAt(t, s, k, owner);
        assert Coherent(s, owner);
        hide Told, Steps, After, Rooted, CoherentRun;
        if k in Seen(s, |s.found|) {
          SeenTold(Lookup(t, k), s, k, owner, Lookup(After(t, s), k), first, last);
        } else {
          UnseenTold(Lookup(t, k), s, k, owner, Lookup(After(t, s), k), first, last);
        }
      case EditEvent(j, status) => EditTold(t, j, status, k, first, last);
    }
  }

  lemma EditTold(t: Table, j: Key, status: Status, k: Key, first: Option<Sighting>, last: Option<Sighting>)
    requires Told(Lookup(t, k), first, last, k)
    ensures Told(Lookup(Edited(t, j, status), k), first, last, k)
  {
    hide Sighted, Keeps;
  }

  // ---- the life of a finding -------------------------------------------------------------------

  datatype Life = Life(status: Status, streak: nat, resolvedAt: Option<int>)

  /** What an event does to a finding's life. */
  ghost function NextLife(life: Option<Life>, e: Event, k: Key, owner: Owner): Option<Life>
  {
    match e
    case EditEvent(j, status) =>
      if j == k && life.Some? && status != Resolved then Some(life.value.(status := status)) else life
    case ScanEvent(s) =>
      if Sees(e, k) then
        if life.None? || life.value.status == Resolved then Some(Life(Open, 0, None))
        else Some(life.value.(streak := 0))
      else if s.mod == k.0 && s.target == owner(k) && life.Some? && life.value.status in {Open, Acknowledged} then
        var streak := life.value.streak + 1;
        if streak >= 1 && streak >= s.resolveAfter then Some(Life(Resolved, streak, Some(s.now)))
        else Some(life.value.(streak := streak))
      else life
  }

  ghost function LifeOf(events: seq<Event>, k: Key, owner: Owner): Option<Life>
  {
    if events == [] then None
    else NextLife(LifeOf(events[..|events| - 1], k, owner), events[|events| - 1], k, owner)
  }

  function LifeIn(r: Option<Record>): Option<Life>
  {
    if r.None? then None else Some(Life(r.value.status, r.value.absentStreak, r.value.resolvedAt))
  }

  lemma LifeStep(t: Table, e: Event, k: Key, owner: Owner)
    requires Rooted(t, owner) && (e.ScanEvent? ==> Coherent(e.scan, owner))
    ensures LifeIn(Lookup(Apply(t, e), k)) == NextLife(LifeIn(Lookup(t, k)), e, k, owner)
  {
    match e
    case ScanEvent(s) =>
      ScanAt(t, s, k, owner);
      hide After, Seen, Valid, Coherent, Rooted, CapEvidence;
    case EditEvent(j, status) =>
  }

  /** Status, absent streak and resolution time of a record follow the scans and edits: the
      status is the last one a user gave, until a scan reopens or resolves it; a resolved
      record carries the time of the scan that resolved it, and one seen again carries none. */
  lemma {:induction false} LivesFollow(events: seq<Event>, owner: Owner, k: Key)
    requires CoherentRun(events, owner)
    ensures LifeIn(Lookup(Run(events), k)) == LifeOf(events, k, owner)
  {
    if events != [] {
      var n := |events| - 1;
      LivesFollow(events[..n], owner, k);
      RunRooted(events[..n], owner);
      LifeStep(Run(events[..n]), events[n], k, owner);
      hide Apply, NextLife, Coherent;
    }
  }

  /** When a scan last announced the resolution. */
  ghost function ResolvedWhen(events: seq<Event>, k: Key): Option<int>
  {
    if events == [] then None
    else
      var n := |events| - 1;
      if ResolvedNote in Notes(Run(events[..n]), events[n], k) then Some(events[n].scan.now)
      else ResolvedWhen(events[..n], k)
  }

  lemma ResolvedStep(t: Table, s: Scan, k: Key, owner: Owner, last: Option<int>)
    requires Rooted(t, owner) && Coherent(s, owner)
    requires k in t && t[k].status == Resolved ==> t[k].resolvedAt == last
    ensures var u := After(t, s);
            k in u && u[k].status == Resolved ==>
              u[k].resolvedAt == if ResolvedNote in Notes(t, ScanEvent(s), k) then Some(s.now) else last
  {
    ScanNotes(t, s, k, owner);
    ScanAt(t, s, k, owner);
    hide After, Notes, Seen, Valid, Coherent, Rooted, CapEvidence;
  }

  /** A resolved record carries the time of the scan that announced its resolution. */
  lemma {:induction false} ResolvedSince(events: seq<Event>, owner: Owner, k: Key)
    requires CoherentRun(events, owner)
    ensures k in Run(events) && Run(events)[k].status == Resolved ==>
              Run(events)[k].resolvedAt == ResolvedWhen(events, k)
  {
    if events != [] {
      var n := |events| - 1;
      ResolvedSince(events[..n], owner, k);
      RunRooted(events[..n], owner);
      match events[n]
      case ScanEvent(s) =>
        assert Coherent(s, owner);
        hide After, Notes, Coherent, Rooted;
        ResolvedStep(Run(events[..n]), s, k, owner, ResolvedWhen(events[..n], k));
      case EditEvent(j, status) => EditsAreSilent(Run(events[..n]), j, status, k);
    }
  }

  /** While nobody edits it when resolved, a record has a resolution time exactly while it
      is resolved. */
  lemma {:induction false} ResolvedAtMeans(events: seq<Event>, owner: Owner, k: Key)
    requires CoherentRun(events, owner) && SparesResolved(events, k) && k in Run(events)
    ensures Run(events)[k].resolvedAt.Some? <==> Run(events)[k].status == Resolved
  {
    if events != [] {
      var n := |events| - 1;
      SparesBefore(events, k);
      var t := Run(events[..n]);
      RunRooted(events[..n], owner);
      if k in t { ResolvedAtMeans(events[..n], owner, k); }
      LifeStep(t, events[n], k, owner);
      hide Run, Apply, Coherent, SparesResolved, CoherentRun, Sees;
    }
  }

  // ---- what a scan announces and refuses ---------------------------------------------------------

  lemma {:induction false} AnnouncedAre(ex: Table, s: Scan, n: nat, f: Finding)
    requires n <= |s.found|
    ensures f in NewlyOpen(ex, s, n) <==>
              exists i :: 0 <= i < n && Announced(ex, s, i) && f == FreshRecord(ex, s, i).finding
  {
    hide Announced, FreshRecord;
    if n > 0 {
      AnnouncedAre(ex, s, n - 1, f);
    }
  }

  /** What is announced as newly open is the finding as it is now stored. */
  lemma AnnouncedIsStored(t: Table, s: Scan, owner: Owner, f: Finding)
    requires Rooted(t, owner) && Coherent(s, owner) && f in NewlyOpen(Existing(t, s), s, |s.found|)
    ensures var k := (s.mod, f.fingerprint); k in After(t, s) && After(t, s)[k].finding == f
  {
    var ex := Existing(t, s);
    AnnouncedAre(ex, s, |s.found|, f);
    var i :| 0 <= i < |s.found| && Announced(ex, s, i) && f == FreshRecord(ex, s, i).finding;
    var k := FreshKey(s, i);
    assert FreshRecord(ex, s, i).finding.fingerprint == s.found[i].fingerprint;
    FreshAt(t, ex, s, |s.found|, k);
    assert k in Seen(s, |s.found|);
    hide FreshRecord, Valid, Existing, ApplyFresh, Seen;
  }

  /** The refused findings are exactly those that do not pass, in order. */
  lemma {:induction false} RejectedAre(s: Scan, n: nat, f: Finding)
    requires n <= |s.found|
    ensures f in Rejected(s, n) <==> !Valid(f) && exists i :: 0 <= i < n && s.found[i] == f
    ensures |Rejected(s, n)| <= n
  {
    hide Valid;
    if n > 0 {
      RejectedAre(s, n - 1, f);
    }
  }
}
