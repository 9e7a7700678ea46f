/** What every run of scans and user edits keeps about the stored findings. */
module FindingRuns {
  import opened Base
  import opened Findings
  import opened FindingStores
  import opened Reconcile
  import opened Lifecycle

  // ---- timestamps -----------------------------------------------------------------------

  /** First seen before last seen, and a resolved record knows since when. */
  predicate WellDated(r: Record, clock: int)
  {
    && r.firstSeen <= r.lastSeen <= clock
    && (r.status == Resolved ==> r.resolvedAt.Some? && r.lastSeen <= r.resolvedAt.value <= clock)
  }

  /** The clock never goes back and has not passed `clock`. */
  ghost predicate Forward(events: seq<Event>, clock: int)
  {
    && (forall i :: 0 <= i < |events| && events[i].ScanEvent? ==> events[i].scan.now <= clock)
    && (forall i, j :: 0 <= i < j < |events| && events[i].ScanEvent? && events[j].ScanEvent? ==>
          events[i].scan.now <= events[j].scan.now)
  }

  lemma StepWellDated(before: Option<Record>, s: Scan, k: Key, owner: Owner, after: Option<Record>)
    requires Steps(before, s, k, owner, after) && (before.Some? ==> WellDated(before.value, s.now))
    ensures after.Some? ==> WellDated(after.value, s.now)
  {
    hide Seen, Valid, CapEvidence;
  }

  lemma {:induction false} DatesHold(events: seq<Event>, owner: Owner, clock: int, k: Key)
    requires CoherentRun(events, owner) && Forward(events, clock) && k in Run(events)
    ensures WellDated(Run(events)[k], clock)
  {
    if events != [] {
      var n := |events| - 1;
      var before := events[..n];
      match events[n]
      case ScanEvent(s) =>
        RunRooted(before, owner);
        ScanAt(Run(before), s, k, owner);
        if k in Run(before) { DatesHold(before, owner, s.now, k); }
        hide After, Steps;
        StepWellDated(Lookup(Run(before), k), s, k, owner, Lookup(Run(events), k));
      case EditEvent(j, status) =>
        DatesHold(before, owner, clock, k);
    }
  }

  // ---- identity --------------------------------------------------------------------------

  predicate SameIdentity(a: Record, b: Record)
  {
    && a.id == b.id && a.firstSeen == b.firstSeen && KeyOf(a) == KeyOf(b)
    && a.finding.target == b.finding.target && a.finding.check == b.finding.check
  }

  lemma StepKeepsIdentity(before: Option<Record>, s: Scan, k: Key, owner: Owner, after: Option<Record>)
    requires Steps(before, s, k, owner, after) && before.Some?
    ensures after.Some? && SameIdentity(before.value, after.value)
  {
    hide Seen, Valid;
  }

  /** No event removes a record or changes what it is about. */
  lemma EventKeepsIdentity(t: Table, e: Event, owner: Owner, k: Key)
    requires Rooted(t, owner) && k in t && (e.ScanEvent? ==> Coherent(e.scan, owner))
    ensures k in Apply(t, e) && SameIdentity(t[k], Apply(t, e)[k])
  {
    match e
    case ScanEvent(s) =>
      ScanAt(t, s, k, owner);
      hide After, Steps;
      StepKeepsIdentity(Lookup(t, k), s, k, owner, Lookup(After(t, s), k));
    case EditEvent(_, _) =>
  }

  lemma PrefixCoherent(events: seq<Event>, n: nat, owner: Owner)
    requires CoherentRun(events, owner) && n <= |events|
    ensures CoherentRun(events[..n], owner)
  {
  }

  /** From insertion on, id, first_seen, target and check never change. */
  lemma {:induction false} IdentityFixed(events: seq<Event>, n: nat, owner: Owner, k: Key)
    requires CoherentRun(events, owner) && n <= |events| && k in Run(events[..n])
    ensures k in Run(events) && SameIdentity(Run(events[..n])[k], Run(events)[k])
    decreases |events| - n
  {
    if n == |events| {
      assert events[..n] == events;
    } else {
      RunSnoc(events, n, k);
      PrefixCoherent(events, n, owner);
      RunRooted(events[..n], owner);
      EventKeepsIdentity(Run(events[..n]), events[n], owner, k);
      IdentityFixed(events, n + 1, owner, k);
    }
  }

  predicate EditsKey(e: Event, k: Key) { e.EditEvent? && e.key == k }

  /** Only a user takes a finding out of suppression. */
  lemma {:induction false} SuppressionSticks(events: seq<Event>, n: nat, owner: Owner, k: Key)
    requires CoherentRun(events, owner) && n <= |events|
    requires k in Run(events[..n]) && Run(events[..n])[k].status == Suppressed
    requires forall i :: n <= i < |events| ==> !EditsKey(events[i], k)
    ensures k in Run(events) && Run(events)[k].status == Suppressed
    decreases |events| - n
  {
    if n == |events| {
      assert events[..n] == events;
    } else {
      RunSnoc(events, n, k);
      PrefixCoherent(events, n, owner);
      RunRooted(events[..n], owner);
      if events[n].ScanEvent? { ScanStatus(Run(events[..n]), events[n].scan, k, owner); }
      assert !EditsKey(events[n], k);
      SuppressionSticks(events, n + 1, owner, k);
    }
  }

  /** A scan leaves every record of another module or target alone. */
  lemma ScanFrame(t: Table, s: Scan, owner: Owner, k: Key)
    requires Rooted(t, owner) && Coherent(s, owner) && !Covers(s, k, owner)
    ensures Lookup(After(t, s), k) == Lookup(t, k)
  {
    ScanAt(t, s, k, owner);
    if k in Seen(s, |s.found|) { SeenIsCovered(s, k, owner); }
  }

  // ---- absence counting ----------------------------------------------------------------

  predicate Sees(e: Event, k: Key) { e.ScanEvent? && k in Seen(e.scan, |e.scan.found|) }

  predicate Looks(e: Event, k: Key, owner: Owner) { e.ScanEvent? && Covers(e.scan, k, owner) }

  predicate EverSeen(events: seq<Event>, k: Key) { exists i :: 0 <= i < |events| && Sees(events[i], k) }

  /** Scans of the finding's target since it was last seen. */
  function Absences(events: seq<Event>, k: Key, owner: Owner): nat
  {
    if events == [] then 0
    else
      var before, e := events[..|events| - 1], events[|events| - 1];
      if Sees(e, k) then 0
      else if Looks(e, k, owner) then Absences(before, k, owner) + 1
      else Absences(before, k, owner)
  }

  /** No user touches the finding, and every scan of its target uses threshold `n`. */
  ghost predicate Unattended(events: seq<Event>, k: Key, owner: Owner, n: int)
  {
    forall i :: 0 <= i < |events| ==>
      !EditsKey(events[i], k) && (Looks(events[i], k, owner) ==> Threshold(events[i].scan) == n)
  }

  /** What the number of absences says about the record. */
  predicate Counted(r: Option<Record>, seen: bool, absences: nat, threshold: int)
  {
    && (r.Some? <==> seen)
    && (r.Some? ==>
          if absences < threshold then r.value.status == Open && r.value.absentStreak == absences
          else r.value.status == Resolved && r.value.absentStreak == threshold)
  }

  lemma CountStep(before: Option<Record>, s: Scan, k: Key, owner: Owner, after: Option<Record>, seen: bool,
                  absences: nat)
    requires Steps(before, s, k, owner, after) && Coherent(s, owner)
    requires Counted(before, seen, absences, Threshold(s)) && Covers(s, k, owner)
    ensures if k in Seen(s, |s.found|) then Counted(after, true, 0, Threshold(s))
            else Counted(after, seen, absences + 1, Threshold(s))
  {
    hide Valid, Coherent;
  }

  lemma EverSeenSnoc(events: seq<Event>, k: Key)
    requires events != []
    ensures EverSeen(events, k) <==> EverSeen(events[..|events| - 1], k) || Sees(events[|events| - 1], k)
  {
  }

  /** The absent streak is the number of scans since the finding was last seen: below the
      threshold the record is open, from the threshold on it is resolved. */
  lemma {:induction false} StreakCountsAbsences(events: seq<Event>, k: Key, owner: Owner, n: int)
    requires CoherentRun(events, owner) && Unattended(events, k, owner, n) && n >= 1
    ensures Counted(Lookup(Run(events), k), EverSeen(events, k), Absences(events, k, owner), n)
  {
    if events != [] {
      var m := |events| - 1;
      var before, e := events[..m], events[m];
      assert !EditsKey(e, k) && forall i :: 0 <= i < m ==> before[i] == events[i];
      StreakCountsAbsences(before, k, owner, n);
      EverSeenSnoc(events, k);
      RunRooted(before, owner);
      StreakStep(Run(before), e, k, owner, n, EverSeen(before, k), Absences(before, k, owner));
      hide EverSeen, CoherentRun, Unattended, Counted, Apply;
    }
  }

  lemma StreakStep(t: Table, e: Event, k: Key, owner: Owner, n: int, seen: bool, absences: nat)
    requires Rooted(t, owner) && (e.ScanEvent? ==> Coherent(e.scan, owner)) && n >= 1
    requires !EditsKey(e, k) && (Looks(e, k, owner) ==> Threshold(e.scan) == n)
    requires Counted(Lookup(t, k), seen, absences, n)
    ensures var after := Lookup(Apply(t, e), k);
            if Sees(e, k) then Counted(after, true, 0, n)
            else if Looks(e, k, owner) then Counted(after, seen, absences + 1, n)
            else Counted(after, seen, absences, n)
  {
    match e
    case ScanEvent(s) =>
      ScanAt(t, s, k, owner);
      hide After, Seen, Counted;
      if k in Seen(s, |s.found|) { SeenIsCovered(s, k, owner); }
      if Covers(s, k, owner) {
        hide Steps;
        CountStep(Lookup(t, k), s, k, owner, Lookup(After(t, s), k), seen, absences);
      }
    case EditEvent(_, _) =>
  }

  /** A record resolves on exactly the threshold-th scan in a row that misses it. */
  lemma ResolvesOnTime(events: seq<Event>, s: Scan, k: Key, owner: Owner)
    requires CoherentRun(events, owner) && Coherent(s, owner)
    requires Unattended(events, k, owner, Threshold(s)) && Covers(s, k, owner)
    ensures k in Expired(Run(events), s) <==>
              k !in Seen(s, |s.found|) && EverSeen(events, k) && Absences(events, k, owner) + 1 == Threshold(s)
  {
    RunRooted(events, owner);
    ScanAt(Run(events), s, k, owner);
    StreakCountsAbsences(events, k, owner, Threshold(s));
  }

  // ---- a threshold of one ---------------------------------------------------------------

  function LiveKeys(t: Table, mod: string, target: string): set<Key>
  {
    set k | k in t && t[k].mod == mod && t[k].finding.target == target && Live(t[k])
  }

  function SuppressedKeys(t: Table): set<Key> { set k | k in t && t[k].status == Suppressed }

  lemma LiveAfter(t: Table, s: Scan, owner: Owner, k: Key)
    requires Rooted(t, owner) && Coherent(s, owner) && Threshold(s) == 1
    ensures k in After(t, s) && Covers(s, k, owner) && Live(After(t, s)[k]) <==>
              k in Seen(s, |s.found|) && k !in SuppressedKeys(t)
  {
    ScanStatus(t, s, k, owner);
    if k in Seen(s, |s.found|) { SeenIsCovered(s, k, owner); }
    hide After, Seen, Coherent, Rooted;
  }

  /** With a threshold of one the live records of the target are what the scan just saw,
      less what the user suppressed. */
  lemma LiveIsSeen(t: Table, s: Scan, owner: Owner)
    requires Rooted(t, owner) && Coherent(s, owner) && Threshold(s) == 1
    ensures LiveKeys(After(t, s), s.mod, s.target) == Seen(s, |s.found|) - SuppressedKeys(t)
  {
    var after := After(t, s);
    ScanRooted(t, s, owner);
    forall k ensures k in LiveKeys(after, s.mod, s.target) <==> k in Seen(s, |s.found|) - SuppressedKeys(t) {
      LiveAfter(t, s, owner, k);
      hide After, Seen, Coherent, SuppressedKeys, Live;
    }
  }
}
