/** The lifecycle of findings over whole runs of scans and user edits. */
module Lifecycle {
  import opened Base
  import opened Findings
  import opened FindingStores
  import opened Reconcile

  // ---- user edits --------------------------------------------------------------------

  datatype Response = Done | BadRequest | NotFound

  function Edited(t: Table, k: Key, status: Status): Table
  {
    if status == Resolved || k !in t then t else t[k := t[k].(status := status)]
  }

  /** A user may acknowledge, suppress or reopen; only scans resolve. */
  method HandleFindingStatus(store: MemStore, mod: string, fingerprint: string, status: Status) returns (res: Response)
    requires store.Valid()
    modifies store
    ensures store.Valid() && store.recs == Edited(old(store.recs), (mod, fingerprint), status)
    ensures res == if status == Resolved then BadRequest
                   else if (mod, fingerprint) in old(store.recs) then Done
                   else NotFound
  {
    if status == Resolved { return BadRequest; }
    var rec := store.Get(mod, fingerprint);
    if rec.None? { return NotFound; }
    store.Upsert(rec.value.(status := status));
    res := Done;
  }

  // ---- runs -----------------------------------------------------------------------------

  datatype Event = ScanEvent(scan: Scan) | EditEvent(key: Key, status: Status)

  function Apply(t: Table, e: Event): Table
  {
    match e
    case ScanEvent(s) => After(t, s)
    case EditEvent(k, status) => Edited(t, k, status)
  }

  function Run(events: seq<Event>): Table
  {
    if events == [] then map[] else Apply(Run(events[..|events| - 1]), events[|events| - 1])
  }

  /** The target a fingerprint belongs to. */
  type Owner = Key -> string

  /** A scan returns findings of the scanned target, each fingerprint once. */
  ghost predicate Coherent(s: Scan, owner: Owner)
  {
    && (forall i :: 0 <= i < |s.found| && Valid(s.found[i]) ==>
          s.found[i].target == s.target && owner(FreshKey(s, i)) == s.target)
    && DistinctFresh(s)
  }

  /** Each fingerprint once. */
  ghost predicate DistinctFresh(s: Scan)
  {
    forall i, j :: 0 <= i < j < |s.found| && Valid(s.found[i]) && Valid(s.found[j]) ==> FreshKey(s, i) != FreshKey(s, j)
  }

  ghost predicate CoherentRun(events: seq<Event>, owner: Owner)
  {
    forall i :: 0 <= i < |events| && events[i].ScanEvent? ==> Coherent(events[i].scan, owner)
  }

  ghost predicate Rooted(t: Table, owner: Owner)
  {
    Keyed(t) && forall k :: k in t ==> t[k].finding.target == owner(k)
  }

  predicate Covers(s: Scan, k: Key, owner: Owner) { s.mod == k.0 && s.target == owner(k) }

  // ---- one scan, seen from one key -----------------------------------------------------------

  lemma ExistingAt(t: Table, s: Scan, k: Key, owner: Owner)
    requires Rooted(t, owner)
    ensures k in Existing(t, s) <==> k in t && Covers(s, k, owner)
    ensures k in Existing(t, s) ==> Existing(t, s)[k] == t[k]
  {
  }

  lemma {:induction false} FreshAt(t: Table, ex: Table, s: Scan, n: nat, k: Key)
    requires DistinctFresh(s) && n <= |s.found|
    ensures k !in Seen(s, n) ==> (k in ApplyFresh(t, ex, s, n) <==> k in t)
                                 && (k in t ==> ApplyFresh(t, ex, s, n)[k] == t[k])
    ensures forall i :: 0 <= i < n && Valid(s.found[i]) && FreshKey(s, i) == k ==>
              k in ApplyFresh(t, ex, s, n) && ApplyFresh(t, ex, s, n)[k] == FreshRecord(ex, s, i)
  {
    hide FreshRecord, Valid;
    if n > 0 {
      FreshAt(t, ex, s, n - 1, k);
    }
  }

  /** What a scan leaves under a key: the seen are inserted or refreshed, the missed of
      the scanned target are counted absent, everything else stays. */
  ghost predicate Steps(before: Option<Record>, s: Scan, k: Key, owner: Owner, after: Option<Record>)
  {
    if k in Seen(s, |s.found|) then
      exists i :: 0 <= i < |s.found| && Valid(s.found[i]) && FreshKey(s, i) == k &&
        after == Some(if before.Some? then Refreshed(before.value, s.found[i], s.now)
                      else Inserted(s.found[i], s.mod, s.now, s.ids[i]))
    else if Covers(s, k, owner) && before.Some? && Live(before.value) then
      after == Some(Missed(before.value, s.now, Threshold(s)))
    else after == before
  }

  function Lookup(t: Table, k: Key): Option<Record> { if k in t then Some(t[k]) else None }

  lemma SeenIsCovered(s: Scan, k: Key, owner: Owner)
    requires Coherent(s, owner) && k in Seen(s, |s.found|)
    ensures Covers(s, k, owner)
  {
  }

  lemma ScanAt(t: Table, s: Scan, k: Key, owner: Owner)
    requires Rooted(t, owner) && Coherent(s, owner)
    ensures Steps(Lookup(t, k), s, k, owner, Lookup(After(t, s), k))
    ensures k in Expired(t, s) <==>
              k !in Seen(s, |s.found|) && Covers(s, k, owner) && k in t && Expires(t[k], s)
  {
    var ex := Existing(t, s);
    ExistingAt(t, s, k, owner);
    FreshAt(t, ex, s, |s.found|, k);
    if k in Seen(s, |s.found|) {
      SeenIsCovered(s, k, owner);
      var i :| 0 <= i < |s.found| && Valid(s.found[i]) && FreshKey(s, i) == k;
      hide Refreshed, Inserted, Valid;
      assert After(t, s)[k] == FreshRecord(ex, s, i);
    } else {
      hide Missed, Valid;
    }
  }

  lemma ScanRooted(t: Table, s: Scan, owner: Owner)
    requires Rooted(t, owner) && Coherent(s, owner)
    ensures Rooted(After(t, s), owner)
  {
    var after := After(t, s);
    forall k | k in after ensures KeyOf(after[k]) == k && after[k].finding.target == owner(k) {
      ScanAt(t, s, k, owner);
      hide After;
      if k in Seen(s, |s.found|) { SeenIsCovered(s, k, owner); }
    }
  }

  lemma {:induction false} RunRooted(events: seq<Event>, owner: Owner)
    requires CoherentRun(events, owner)
    ensures Rooted(Run(events), owner)
  {
    if events != [] {
      var n := |events| - 1;
      RunRooted(events[..n], owner);
      match events[n]
      case ScanEvent(s) => ScanRooted(Run(events[..n]), s, owner);
      case EditEvent(k, status) =>
    }
  }

  // ---- notifications -----------------------------------------------------------------------

  datatype Note = OpenedNote | ResolvedNote

  function CountOf(fs: seq<Finding>, fingerprint: string): nat
  {
    if fs == [] then 0
    else CountOf(fs[..|fs| - 1], fingerprint) + (if fs[|fs| - 1].fingerprint == fingerprint then 1 else 0)
  }

  /** What one event announces about one key: every newly-open entry, every resolution. */
  function Notes(t: Table, e: Event, k: Key): seq<Note>
  {
    match e
    case EditEvent(_, _) => []
    case ScanEvent(s) =>
      if s.mod != k.0 then []
      else
        seq(CountOf(NewlyOpen(Existing(t, s), s, |s.found|), k.1), _ => OpenedNote)
        + (if k in Expired(t, s) then [ResolvedNote] else [])
  }

  function History(events: seq<Event>, k: Key): seq<Note>
  {
    if events == [] then []
    else History(events[..|events| - 1], k) + Notes(Run(events[..|events| - 1]), events[|events| - 1], k)
  }

  lemma {:induction false} OpenedCount(ex: Table, s: Scan, n: nat, k: Key)
    requires DistinctFresh(s) && Keyed(ex) && n <= |s.found| && s.mod == k.0
    ensures CountOf(NewlyOpen(ex, s, n), k.1) ==
            if k in Seen(s, n) && (k in ex ==> ex[k].status == Resolved) then 1 else 0
  {
    hide Valid, FreshRecord;
    if n > 0 {
      OpenedCount(ex, s, n - 1, k);
      OpenedCountStep(ex, s, n - 1, k);
      SeenStep(s, n - 1);
      if Valid(s.found[n - 1]) { NotSeenTwice(s, n - 1); }
    } else {
      assert Seen(s, 0) == {};
    }
  }

  lemma OpenedCountStep(ex: Table, s: Scan, i: nat, k: Key)
    requires Keyed(ex) && i < |s.found| && s.mod == k.0
    ensures CountOf(NewlyOpen(ex, s, i + 1), k.1) ==
            CountOf(NewlyOpen(ex, s, i), k.1) + (if Announced(ex, s, i) && FreshKey(s, i) == k then 1 else 0)
  {
    var list, rec := NewlyOpen(ex, s, i), FreshRecord(ex, s, i);
    assert rec.finding.fingerprint == s.found[i].fingerprint;
    hide Valid, FreshRecord;
    assert (list + [rec.finding])[..|list|] == list && list + [] == list;
  }

  lemma SeenStep(s: Scan, i: nat)
    requires i < |s.found|
    ensures Seen(s, i + 1) == Seen(s, i) + (if Valid(s.found[i]) then {FreshKey(s, i)} else {})
  {
    hide Valid;
  }

  lemma NotSeenTwice(s: Scan, i: nat)
    requires DistinctFresh(s) && i < |s.found| && Valid(s.found[i])
    ensures FreshKey(s, i) !in Seen(s, i)
  {
    hide Valid;
  }

  lemma ScanNotes(t: Table, s: Scan, k: Key, owner: Owner)
    requires Rooted(t, owner) && Coherent(s, owner)
    ensures Notes(t, ScanEvent(s), k) ==
            if k in Seen(s, |s.found|) then (if k in t && t[k].status != Resolved then [] else [OpenedNote])
            else if Covers(s, k, owner) && k in t && Expires(t[k], s) then [ResolvedNote]
            else []
  {
    ExistingAt(t, s, k, owner);
    ScanAt(t, s, k, owner);
    hide After, Expired, Steps, Valid;
    if s.mod == k.0 {
      OpenedCount(Existing(t, s), s, |s.found|, k);
    }
    if k in Seen(s, |s.found|) { SeenIsCovered(s, k, owner); }
  }

  predicate Alternates(notes: seq<Note>)
  {
    forall i :: 0 <= i < |notes| ==> notes[i] == if i % 2 == 0 then OpenedNote else ResolvedNote
  }

  /** The record is unresolved exactly when the last thing said was "opened". */
  predicate InStep(t: Table, notes: seq<Note>, k: Key)
  {
    Unresolved(t, k) <==> notes != [] && notes[|notes| - 1] == OpenedNote
  }

  /** The status transitions of a scan. */
  lemma ScanStatus(t: Table, s: Scan, k: Key, owner: Owner)
    requires Rooted(t, owner) && Coherent(s, owner)
    ensures var after := After(t, s);
            if k in Seen(s, |s.found|) then
              k in after && after[k].status == if k in t && t[k].status != Resolved then t[k].status else Open
            else
              && (k in after <==> k in t)
              && (k in t ==>
                    after[k].status == if Covers(s, k, owner) && Expires(t[k], s) then Resolved else t[k].status)
  {
    ScanAt(t, s, k, owner);
    hide After, Expired, Seen, Valid, Coherent, Rooted;
  }

  lemma AlternatesSnoc(notes: seq<Note>, x: Note)
    requires Alternates(notes)
    requires x == if notes != [] && notes[|notes| - 1] == OpenedNote then ResolvedNote else OpenedNote
    ensures Alternates(notes + [x])
  {
  }

  predicate Unresolved(t: Table, k: Key) { k in t && t[k].status != Resolved }

  /** A scan announces exactly the changes between resolved and unresolved. */
  lemma ScanFlips(t: Table, s: Scan, k: Key, owner: Owner)
    requires Rooted(t, owner) && Coherent(s, owner)
    ensures Notes(t, ScanEvent(s), k) ==
            if Unresolved(t, k) == Unresolved(After(t, s), k) then []
            else if Unresolved(t, k) then [ResolvedNote] else [OpenedNote]
  {
    ScanStatus(t, s, k, owner);
    ScanNotes(t, s, k, owner);
    hide After, Notes, Seen, Valid, Coherent, Rooted, Covers;
  }

  lemma ScanInStep(t: Table, s: Scan, k: Key, owner: Owner, notes: seq<Note>)
    requires Rooted(t, owner) && Coherent(s, owner) && Alternates(notes) && InStep(t, notes, k)
    ensures var more := notes + Notes(t, ScanEvent(s), k);
            Alternates(more) && InStep(After(t, s), more, k)
  {
    ScanFlips(t, s, k, owner);
    hide After, Notes, Coherent, Rooted, Alternates, Unresolved;
    var now := Notes(t, ScanEvent(s), k);
    assert notes + [] == notes;
    if now != [] {
      AlternatesSnoc(notes, now[0]);
    }
  }

  /** The edits the dashboard offers: none on a resolved record. */
  ghost predicate SparesResolved(events: seq<Event>, k: Key)
  {
    forall n :: 0 <= n < |events| ==> Spares(Run(events[..n]), events[n], k)
  }

  predicate Spares(t: Table, e: Event, k: Key)
  {
    e.EditEvent? && e.key == k && e.status != Resolved && k in t ==> t[k].status != Resolved
  }

  lemma EventInStep(t: Table, e: Event, k: Key, owner: Owner, notes: seq<Note>)
    requires Rooted(t, owner) && (e.ScanEvent? ==> Coherent(e.scan, owner)) && Spares(t, e, k)
    requires Alternates(notes) && InStep(t, notes, k)
    ensures var more := notes + Notes(t, e, k);
            Alternates(more) && InStep(Apply(t, e), more, k)
  {
    match e
    case ScanEvent(s) => ScanInStep(t, s, k, owner, notes);
    case EditEvent(j, status) =>
      EditsAreSilent(t, j, status, k);
      assert notes + [] == notes;
    hide After, Alternates, Rooted, Coherent, Notes;
  }

  lemma SparesBefore(events: seq<Event>, k: Key)
    requires events != [] && SparesResolved(events, k)
    ensures var n := |events| - 1; SparesResolved(events[..n], k) && Spares(Run(events[..n]), events[n], k)
  {
    var n := |events| - 1;
    assert forall i :: 0 <= i < n ==> events[..n][..i] == events[..i] && events[..n][i] == events[i];
    hide Run, Spares;
  }

  /** Notifications for a fingerprint strictly alternate, starting with opened, and the
      record is unresolved exactly while the last one was opened. */
  lemma {:induction false} NotificationsAlternate(events: seq<Event>, owner: Owner, k: Key)
    requires CoherentRun(events, owner) && SparesResolved(events, k)
    ensures Alternates(History(events, k)) && InStep(Run(events), History(events, k), k)
  {
    if events != [] {
      var n := |events| - 1;
      SparesBefore(events, k);
      NotificationsAlternate(events[..n], owner, k);
      RunRooted(events[..n], owner);
      EventInStep(Run(events[..n]), events[n], k, owner, History(events[..n], k));
      hide Alternates, InStep, Notes, Apply, Rooted, Coherent, Spares, SparesResolved;
    }
  }

  ghost predicate AlwaysInStep(events: seq<Event>, k: Key)
  {
    forall n :: 0 <= n <= |events| ==> InStep(Run(events[..n]), History(events[..n], k), k)
  }

  lemma RunSnoc(events: seq<Event>, n: nat, k: Key)
    requires n < |events|
    ensures Run(events[..n + 1]) == Apply(Run(events[..n]), events[n])
    ensures History(events[..n + 1], k) == History(events[..n], k) + Notes(Run(events[..n]), events[n], k)
  {
    assert events[..n + 1][..n] == events[..n];
  }

  /** Records and notifications stay in step along a run exactly when no edit touches a
      resolved record, which the API accepts although the dashboard never sends it. */
  lemma InStepExactly(events: seq<Event>, owner: Owner, k: Key)
    requires CoherentRun(events, owner)
    ensures AlwaysInStep(events, k) <==> SparesResolved(events, k)
  {
    if SparesResolved(events, k) {
      forall n | 0 <= n <= |events| ensures InStep(Run(events[..n]), History(events[..n], k), k) {
        assert forall i :: 0 <= i < n ==> events[..n][..i] == events[..i] && events[..n][i] == events[i];
        NotificationsAlternate(events[..n], owner, k);
      }
    }
    if AlwaysInStep(events, k) {
      forall n | 0 <= n < |events| ensures Spares(Run(events[..n]), events[n], k) {
        RunSnoc(events, n, k);
        assert InStep(Run(events[..n]), History(events[..n], k), k);
        assert InStep(Run(events[..n + 1]), History(events[..n + 1], k), k);
        assert History(events[..n], k) + [] == History(events[..n], k);
      }
    }
  }

  lemma EditsAreSilent(t: Table, j: Key, status: Status, k: Key)
    ensures Notes(t, EditEvent(j, status), k) == []
  {
  }

  /** With a threshold of one, missing a live record resolves and announces it. */
  lemma MissedOnce(t: Table, s: Scan, k: Key, owner: Owner)
    requires Rooted(t, owner) && Coherent(s, owner) && Threshold(s) == 1
    requires k in t && Live(t[k]) && Covers(s, k, owner) && k !in Seen(s, |s.found|)
    ensures Notes(t, ScanEvent(s), k) == [ResolvedNote]
    ensures k in After(t, s) && After(t, s)[k].status == Resolved && Rooted(After(t, s), owner)
  {
    ScanStatus(t, s, k, owner);
    ScanNotes(t, s, k, owner);
    ScanRooted(t, s, owner);
  }

  lemma FirstSight(s: Scan, k: Key, owner: Owner)
    requires Coherent(s, owner) && k in Seen(s, |s.found|)
    ensures Notes(map[], ScanEvent(s), k) == [OpenedNote]
    ensures var t := After(map[], s); k in t && t[k].status == Open && Rooted(t, owner)
  {
    ScanStatus(map[], s, k, owner);
    ScanNotes(map[], s, k, owner);
    ScanRooted(map[], s, owner);
  }

  /** Reopening a resolved record through the API makes the next scan that misses it say
      "resolved" twice in a row. */
  lemma ReopenedByHand(seen: Scan, missed: Scan, k: Key, owner: Owner)
    requires Coherent(seen, owner) && Coherent(missed, owner) && Threshold(missed) == 1
    requires k in Seen(seen, |seen.found|) && Covers(missed, k, owner) && missed.found == []
    ensures var run := [ScanEvent(seen), ScanEvent(missed), EditEvent(k, Open), ScanEvent(missed)];
            History(run, k) == [OpenedNote, ResolvedNote, ResolvedNote]
  {
    hide *;
    var run := [ScanEvent(seen), ScanEvent(missed), EditEvent(k, Open), ScanEvent(missed)];
    ReopenedSteps(seen, missed, k, owner);
    EmptyRun(k);
    assert run[..0] == [] && run[..4] == run;
    RunSnoc(run, 0, k);
    RunSnoc(run, 1, k);
    RunSnoc(run, 2, k);
    RunSnoc(run, 3, k);
  }

  lemma EmptyRun(k: Key)
    ensures Run([]) == map[] && History([], k) == []
  {
  }

  lemma ReopenedSteps(seen: Scan, missed: Scan, k: Key, owner: Owner)
    requires Coherent(seen, owner) && Coherent(missed, owner) && Threshold(missed) == 1
    requires k in Seen(seen, |seen.found|) && Covers(missed, k, owner) && missed.found == []
    ensures var t1 := Apply(map[], ScanEvent(seen));
            var t2 := Apply(t1, ScanEvent(missed));
            var t3 := Apply(t2, EditEvent(k, Open));
            && Notes(map[], ScanEvent(seen), k) == [OpenedNote]
            && Notes(t1, ScanEvent(missed), k) == [ResolvedNote]
            && Notes(t2, EditEvent(k, Open), k) == []
            && Notes(t3, ScanEvent(missed), k) == [ResolvedNote]
  {
    assert k !in Seen(missed, 0);
    FirstSight(seen, k, owner);
    var t1 := After(map[], seen);
    MissedOnce(t1, missed, k, owner);
    var t2 := After(t1, missed);
    EditsAreSilent(t2, k, Open, k);
    EditRooted(t2, k, Open, owner);
    hide After, Notes, Seen, Coherent, Rooted;
    MissedOnce(Edited(t2, k, Open), missed, k, owner);
  }

  lemma EditRooted(t: Table, k: Key, status: Status, owner: Owner)
    requires Rooted(t, owner)
    ensures Rooted(Edited(t, k, status), owner)
  {
  }
}
