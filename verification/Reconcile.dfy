/** The reconcile engine: what one scan of one target does to the stored findings and
    which transitions it announces. */
module Reconcile {
  import opened Base
  import opened Findings
  import opened FindingStores

  /** One call of the engine: the module, the scanned target, the clock, what the
      collector returned, and the identifier each finding would get if it is new. */
  datatype ScanInput = ScanInput(
    mod: string, resolveAfter: int, target: string, now: int, found: seq<Finding>, ids: seq<string>)

  type Scan = s: ScanInput | |s.ids| == |s.found| witness ScanInput("", 1, "", 0, [], [])

  datatype Outcome = Outcome(newlyOpen: seq<Finding>, resolved: seq<Finding>, rejected: seq<Finding>)

  function Threshold(s: Scan): int { if s.resolveAfter < 1 then 1 else s.resolveAfter }

  // ---- transitions of one record ------------------------------------------------------

  function Inserted(f: Finding, mod: string, now: int, id: string): Record
  {
    Record(CapEvidence(f), id, mod, Open, None, now, now, None, 0)
  }

  function Refreshed(prev: Record, f: Finding, now: int): Record
  {
    var g := CapEvidence(f);
    var merged := prev.(
      finding := prev.finding.(title := g.title, severity := g.severity, remediation := g.remediation,
                               evidence := g.evidence),
      lastSeen := now, absentStreak := 0);
    if prev.status == Resolved then merged.(status := Open, resolvedAt := None) else merged
  }

  predicate Live(r: Record) { r.status == Open || r.status == Acknowledged }

  function Missed(r: Record, now: int, threshold: int): Record
  {
    var streak := r.absentStreak + 1;
    if streak >= threshold then r.(absentStreak := streak, status := Resolved, resolvedAt := Some(now))
    else r.(absentStreak := streak)
  }

  // ---- a whole scan -----------------------------------------------------------------------

  function Existing(t: Table, s: Scan): Table { OnTarget(t, s.mod, s.target) }

  function FreshKey(s: Scan, i: nat): Key
    requires i < |s.found|
  {
    (s.mod, s.found[i].fingerprint)
  }

  function FreshRecord(ex: Table, s: Scan, i: nat): Record
    requires i < |s.found|
  {
    if FreshKey(s, i) in ex then Refreshed(ex[FreshKey(s, i)], s.found[i], s.now)
    else Inserted(s.found[i], s.mod, s.now, s.ids[i])
  }

  predicate Announced(ex: Table, s: Scan, i: nat)
    requires i < |s.found|
  {
    Valid(s.found[i]) && (FreshKey(s, i) in ex ==> ex[FreshKey(s, i)].status == Resolved)
  }

  function ApplyFresh(t: Table, ex: Table, s: Scan, n: nat): Table
    requires n <= |s.found|
  {
    if n == 0 then t
    else if Valid(s.found[n - 1]) then ApplyFresh(t, ex, s, n - 1)[FreshKey(s, n - 1) := FreshRecord(ex, s, n - 1)]
    else ApplyFresh(t, ex, s, n - 1)
  }

  function NewlyOpen(ex: Table, s: Scan, n: nat): seq<Finding>
    requires n <= |s.found|
  {
    if n == 0 then []
    else NewlyOpen(ex, s, n - 1) + (if Announced(ex, s, n - 1) then [FreshRecord(ex, s, n - 1).finding] else [])
  }

  function Rejected(s: Scan, n: nat): seq<Finding>
    requires n <= |s.found|
  {
    if n == 0 then []
    else Rejected(s, n - 1) + (if Valid(s.found[n - 1]) then [] else [s.found[n - 1]])
  }

  function Seen(s: Scan, n: nat): set<Key>
    requires n <= |s.found|
  {
    set i | 0 <= i < n && Valid(s.found[i]) :: FreshKey(s, i)
  }

  predicate Expires(r: Record, s: Scan) { Live(r) && r.absentStreak + 1 >= Threshold(s) }

  /** The rewritten records among `keys` that the scan did not see. */
  function AbsentAmong(ex: Table, s: Scan, keys: set<Key>): Table
  {
    map k | k in ex && k in keys && k !in Seen(s, |s.found|) && Live(ex[k]) :: Missed(ex[k], s.now, Threshold(s))
  }

  function ExpiredAmong(ex: Table, s: Scan, keys: set<Key>): set<Key>
  {
    set k | k in ex && k in keys && k !in Seen(s, |s.found|) && Expires(ex[k], s)
  }

  /** The store after the scan. */
  function After(t: Table, s: Scan): Table
  {
    var ex := Existing(t, s);
    ApplyFresh(t, ex, s, |s.found|) + AbsentAmong(ex, s, ex.Keys)
  }

  function Expired(t: Table, s: Scan): set<Key>
  {
    ExpiredAmong(Existing(t, s), s, Existing(t, s).Keys)
  }

  // ---- the engine -----------------------------------------------------------------------

  lemma {:induction false} ApplyFreshKeyed(t: Table, ex: Table, s: Scan, n: nat)
    requires Keyed(t) && Keyed(ex) && n <= |s.found|
    ensures Keyed(ApplyFresh(t, ex, s, n))
  {
    if n > 0 { ApplyFreshKeyed(t, ex, s, n - 1); }
  }

  method IndexRecords(existing: seq<Record>, ghost ex: Table) returns (byKey: Table)
    requires Lists(existing, ex)
    ensures byKey == ex
  {
    byKey := map[];
    for i := 0 to |existing|
      invariant forall k :: k in byKey <==> k in KeysOf(existing[..i])
      invariant forall k :: k in byKey ==> k in ex && byKey[k] == ex[k]
    {
      KeysSnoc(existing[..i], existing[i]);
      assert existing[..i] + [existing[i]] == existing[..i + 1];
      byKey := byKey[KeyOf(existing[i]) := existing[i]];
    }
    assert existing[..|existing|] == existing;
  }

  method Reconcile(store: MemStore, s: Scan) returns (res: Outcome)
    requires store.Valid()
    modifies store
    ensures store.Valid() && store.recs == After(old(store.recs), s)
    ensures var ex := Existing(old(store.recs), s);
            && res.newlyOpen == NewlyOpen(ex, s, |s.found|)
            && res.rejected == Rejected(s, |s.found|)
            && ListsFindings(res.resolved, ex, Expired(old(store.recs), s))
  {
    ghost var t, ex := store.recs, Existing(store.recs, s);
    var existing := store.ListByTarget(s.mod, s.target);
    var byKey := IndexRecords(existing, ex);
    var seen, announced, rejected := UpsertFresh(store, byKey, s);
    var resolved := UpsertAbsent(store, ApplyFresh(t, ex, s, |s.found|), ex, existing, seen, s);
    res := Outcome(announced, resolved, rejected);
  }

  /** The first loop: insert, reopen or refresh every valid finding. */
  method UpsertFresh(store: MemStore, byKey: Table, s: Scan)
    returns (seen: set<Key>, announced: seq<Finding>, rejected: seq<Finding>)
    requires store.Valid() && Keyed(byKey)
    modifies store
    ensures store.Valid() && store.recs == ApplyFresh(old(store.recs), byKey, s, |s.found|)
    ensures seen == Seen(s, |s.found|)
    ensures announced == NewlyOpen(byKey, s, |s.found|) && rejected == Rejected(s, |s.found|)
  {
    seen, announced, rejected := {}, [], [];
    for i := 0 to |s.found|
      invariant store.Valid() && store.recs == ApplyFresh(old(store.recs), byKey, s, i)
      invariant seen == Seen(s, i)
      invariant announced == NewlyOpen(byKey, s, i) && rejected == Rejected(s, i)
    {
      var f := s.found[i];
      if !Valid(f) {
        rejected := rejected + [f];
      } else {
        seen := seen + {FreshKey(s, i)};
        if FreshKey(s, i) !in byKey {
          var rec := Inserted(f, s.mod, s.now, s.ids[i]);
          store.Upsert(rec);
          announced := announced + [rec.finding];
        } else {
          var prev := byKey[FreshKey(s, i)];
          var merged := Refreshed(prev, f, s.now);
          store.Upsert(merged);
          if prev.status == Resolved { announced := announced + [merged.finding]; }
        }
      }
    }
  }

  /** Findings of the records under `keys`, each once. */
  ghost predicate ListsFindings(fs: seq<Finding>, ex: Table, keys: set<Key>)
  {
    && |fs| == |keys|
    && (forall k :: k in keys ==> k in ex && ex[k].finding in fs)
    && (forall f :: f in fs ==> exists k :: k in keys && k in ex && ex[k].finding == f)
  }

  lemma ListsFindingsGrow(fs: seq<Finding>, ex: Table, keys: set<Key>, k: Key)
    requires ListsFindings(fs, ex, keys) && k in ex && k !in keys
    ensures ListsFindings(fs + [ex[k].finding], ex, keys + {k})
  {
  }

  /** The second loop: whatever the collector no longer reports. */
  method UpsertAbsent(store: MemStore, ghost base: Table, ghost ex: Table, existing: seq<Record>, seen: set<Key>,
                      s: Scan)
    returns (resolved: seq<Finding>)
    requires store.Valid() && store.recs == base
    requires Lists(existing, ex) && Keyed(ex) && seen == Seen(s, |s.found|)
    modifies store
    ensures store.Valid() && store.recs == base + AbsentAmong(ex, s, ex.Keys)
    ensures ListsFindings(resolved, ex, ExpiredAmong(ex, s, ex.Keys))
  {
    resolved := [];
    hide AbsentAmong, ExpiredAmong, Seen, Missed, ListsFindings, Lists;
    NoneAbsent(base, ex, s);
    for i := 0 to |existing|
      invariant store.Valid()
      invariant store.recs == base + AbsentAmong(ex, s, KeysOf(existing[..i]))
      invariant ListsFindings(resolved, ex, ExpiredAmong(ex, s, KeysOf(existing[..i])))
    {
      var r := existing[i];
      ghost var keys := KeysOf(existing[..i]);
      ListedNext(existing, ex, i);
      AbsentGrow(base, ex, s, keys, KeyOf(r));
      ExpiredGrow(ex, s, keys, KeyOf(r));
      if KeyOf(r) !in seen && Live(r) {
        if r.absentStreak + 1 >= Threshold(s) {
          ListsFindingsGrow(resolved, ex, ExpiredAmong(ex, s, keys), KeyOf(r));
          resolved := resolved + [r.finding];
        }
        MissedKey(r, s.now, Threshold(s));
        store.Upsert(Missed(r, s.now, Threshold(s)));
      }
    }
    assert existing[..|existing|] == existing;
    ListedAll(existing, ex);
  }

  lemma NoneAbsent(base: Table, ex: Table, s: Scan)
    ensures base + AbsentAmong(ex, s, KeysOf([])) == base
    ensures ListsFindings([], ex, ExpiredAmong(ex, s, KeysOf([])))
  {
  }

  lemma MissedKey(r: Record, now: int, threshold: int)
    ensures KeyOf(Missed(r, now, threshold)) == KeyOf(r)
  {
  }

  lemma ListedAll(existing: seq<Record>, ex: Table)
    requires Lists(existing, ex)
    ensures KeysOf(existing) == ex.Keys
  {
  }

  predicate Misses(ex: Table, s: Scan, k: Key)
    requires k in ex
  {
    k !in Seen(s, |s.found|) && Live(ex[k])
  }

  lemma AbsentGrow(base: Table, ex: Table, s: Scan, keys: set<Key>, k: Key)
    requires k in ex && k !in keys
    ensures base + AbsentAmong(ex, s, keys + {k}) ==
            if Misses(ex, s, k) then (base + AbsentAmong(ex, s, keys))[k := Missed(ex[k], s.now, Threshold(s))]
            else base + AbsentAmong(ex, s, keys)
  {
  }

  lemma ExpiredGrow(ex: Table, s: Scan, keys: set<Key>, k: Key)
    requires k in ex && k !in keys
    ensures k !in ExpiredAmong(ex, s, keys)
    ensures ExpiredAmong(ex, s, keys + {k}) ==
            if Misses(ex, s, k) && Expires(ex[k], s) then ExpiredAmong(ex, s, keys) + {k} else ExpiredAmong(ex, s, keys)
  {
    hide Seen, Live, Threshold;
  }

  lemma ListedNext(existing: seq<Record>, ex: Table, i: nat)
    requires Lists(existing, ex) && i < |existing|
    ensures var k := KeyOf(existing[i]);
            && k in ex && ex[k] == existing[i] && k !in KeysOf(existing[..i])
            && KeysOf(existing[..i + 1]) == KeysOf(existing[..i]) + {k}
  {
  }
}
