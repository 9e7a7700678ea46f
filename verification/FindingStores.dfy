/** Persisted findings: the in-memory store that overwrites whole records, and the SQL
    table whose conflict clause updates only some columns. */
module FindingStores {
  import opened Base
  import opened Text
  import opened Findings

  datatype Status = Open | Acknowledged | Suppressed | Resolved

  datatype Record = Record(
    finding: Finding, id: string, mod: string, status: Status, groupID: Option<string>,
    firstSeen: int, lastSeen: int, resolvedAt: Option<int>, absentStreak: nat)

  /** Module and fingerprint. */
  type Key = (string, string)

  type Table = map<Key, Record>

  function KeyOf(r: Record): Key { (r.mod, r.finding.fingerprint) }

  ghost predicate Keyed(t: Table) { forall k :: k in t ==> KeyOf(t[k]) == k }

  function JoinedKey(k: Key): string { k.0 + ['\0'] + k.1 }

  /** The store's map is keyed by the two parts joined with a NUL; module ids have none. */
  lemma JoinedKeyIdentifies(j: Key, k: Key)
    requires '\0' !in j.0 && '\0' !in k.0
    ensures JoinedKey(j) == JoinedKey(k) <==> j == k
  {
    if JoinedKey(j) == JoinedKey(k) {
      JoinInjective(j.0, j.1, k.0, k.1, '\0');
    }
  }

  function Stored(t: Table, r: Record): Table { t[KeyOf(r) := r] }

  function OnTarget(t: Table, mod: string, target: string): Table
  {
    map k | k in t && t[k].mod == mod && t[k].finding.target == target :: t[k]
  }

  class MemStore {
    var recs: Table

    ghost predicate Valid() reads this { Keyed(recs) }

    constructor ()
      ensures Valid() && recs == map[]
    {
      recs := map[];
    }

    method Upsert(r: Record)
      requires Valid()
      modifies this
      ensures Valid() && recs == Stored(old(recs), r)
    {
      recs := recs[KeyOf(r) := r];
    }

    method Get(mod: string, fingerprint: string) returns (r: Option<Record>)
      requires Valid()
      ensures r.Some? <==> (mod, fingerprint) in recs
      ensures r.Some? ==> KeyOf(r.value) == (mod, fingerprint) && r.value == recs[(mod, fingerprint)]
    {
      r := if (mod, fingerprint) in recs then Some(recs[(mod, fingerprint)]) else None;
    }

    /** Every record of the target once, in whatever order the map yields. */
    method ListByTarget(mod: string, target: string) returns (out: seq<Record>)
      requires Valid()
      ensures Lists(out, OnTarget(recs, mod, target))
    {
      out := [];
      var todo := recs.Keys;
      while todo != {}
        invariant todo <= recs.Keys
        invariant Lists(out, OnTarget(Without(recs, todo), mod, target))
        decreases |todo|
      {
        var k :| k in todo;
        var r := recs[k];
        ListsGrow(out, recs, todo, k, mod, target);
        if r.mod == mod && r.finding.target == target {
          out := out + [r];
        }
        todo := todo - {k};
      }
      assert Without(recs, {}) == recs;
    }
  }

  function Without(t: Table, keys: set<Key>): Table { map k | k in t && k !in keys :: t[k] }

  function KeysOf(rows: seq<Record>): set<Key>
  {
    set i | 0 <= i < |rows| :: KeyOf(rows[i])
  }

  /** `out` holds each record of `t` exactly once. */
  ghost predicate Lists(out: seq<Record>, t: Table)
  {
    && KeysOf(out) == t.Keys
    && (forall i :: 0 <= i < |out| ==> KeyOf(out[i]) in t && t[KeyOf(out[i])] == out[i])
    && (forall i, j :: 0 <= i < j < |out| ==> KeyOf(out[i]) != KeyOf(out[j]))
  }

  lemma KeysSnoc(rows: seq<Record>, r: Record)
    ensures KeysOf(rows + [r]) == KeysOf(rows) + {KeyOf(r)}
  {
    var more := rows + [r];
    assert more[|rows|] == r;
    forall i | 0 <= i < |rows| ensures KeyOf(rows[i]) in KeysOf(more) {
      assert more[i] == rows[i];
    }
  }

  lemma KeysUpdate(rows: seq<Record>, i: nat, r: Record)
    requires i < |rows| && KeyOf(rows[i]) == KeyOf(r)
    ensures KeysOf(rows[i := r]) == KeysOf(rows)
  {
    var next := rows[i := r];
    assert forall j :: 0 <= j < |rows| ==> KeyOf(next[j]) == KeyOf(rows[j]);
  }

  lemma ListsGrow(out: seq<Record>, recs: Table, todo: set<Key>, k: Key, mod: string, target: string)
    requires Keyed(recs) && k in todo && k in recs
    requires Lists(out, OnTarget(Without(recs, todo), mod, target))
    ensures var next := OnTarget(Without(recs, todo - {k}), mod, target);
            if recs[k].mod == mod && recs[k].finding.target == target then Lists(out + [recs[k]], next)
            else Lists(out, next)
  {
    var now, next := OnTarget(Without(recs, todo), mod, target), OnTarget(Without(recs, todo - {k}), mod, target);
    assert k !in now;
    if recs[k].mod == mod && recs[k].finding.target == target {
      assert next == now[k := recs[k]];
      hide OnTarget, Without;
      ListsSnoc(out, now, recs[k]);
    } else {
      assert next == now;
    }
  }

  lemma ListsSnoc(rows: seq<Record>, t: Table, r: Record)
    requires Lists(rows, t) && KeyOf(r) !in t
    ensures Lists(rows + [r], Stored(t, r))
  {
    KeysSnoc(rows, r);
    assert forall i :: 0 <= i < |rows| ==> KeyOf(rows[i]) in KeysOf(rows);
  }

  // ---- the SQL table ----------------------------------------------------------------------

  datatype SqlError = DuplicateID

  predicate HasRow(rows: seq<Record>, k: Key) { exists i :: 0 <= i < |rows| && KeyOf(rows[i]) == k }

  predicate HasID(rows: seq<Record>, id: string) { exists i :: 0 <= i < |rows| && rows[i].id == id }

  /** DO UPDATE SET: everything but id, module, fingerprint, target, check and first_seen. */
  function Updated(row: Record, r: Record): Record
  {
    row.(finding := row.finding.(title := r.finding.title, severity := r.finding.severity,
                                 remediation := r.finding.remediation, evidence := r.finding.evidence),
         status := r.status, groupID := r.groupID, lastSeen := r.lastSeen,
         resolvedAt := r.resolvedAt, absentStreak := r.absentStreak)
  }

  function RowIndex(rows: seq<Record>, k: Key): (i: nat)
    requires HasRow(rows, k)
    ensures i < |rows| && KeyOf(rows[i]) == k
  {
    if KeyOf(rows[0]) == k then 0
    else
      assert HasRow(rows[1..], k) by {
        var i :| 0 <= i < |rows| && KeyOf(rows[i]) == k;
        assert KeyOf(rows[1..][i - 1]) == k;
      }
      1 + RowIndex(rows[1..], k)
  }

  /** INSERT ... ON CONFLICT(module, fingerprint) DO UPDATE; id is the primary key. */
  function SqlUpsert(rows: seq<Record>, r: Record): Result<seq<Record>, SqlError>
  {
    if HasRow(rows, KeyOf(r)) then
      var i := RowIndex(rows, KeyOf(r));
      Ok(rows[i := Updated(rows[i], r)])
    else if HasID(rows, r.id) then Err(DuplicateID)
    else Ok(rows + [r])
  }

  /** SELECT ... WHERE module = ? AND target = ? */
  function Selected(rows: seq<Record>, mod: string, target: string): seq<Record>
  {
    if rows == [] then []
    else
      var r := rows[|rows| - 1];
      Selected(rows[..|rows| - 1], mod, target) + (if r.mod == mod && r.finding.target == target then [r] else [])
  }

  class SqlStore {
    var rows: seq<Record>

    constructor ()
      ensures rows == []
    {
      rows := [];
    }

    method Upsert(r: Record) returns (error: Option<SqlError>)
      modifies this
      ensures match SqlUpsert(old(rows), r)
              case Ok(after) => rows == after && error == None
              case Err(e) => rows == old(rows) && error == Some(e)
    {
      if HasRow(rows, KeyOf(r)) {
        var i := RowIndex(rows, KeyOf(r));
        rows := rows[i := Updated(rows[i], r)];
        return None;
      }
      if HasID(rows, r.id) { return Some(DuplicateID); }
      rows := rows + [r];
      error := None;
    }

    method ListByTarget(mod: string, target: string) returns (out: seq<Record>)
      ensures out == Selected(rows, mod, target)
    {
      out := [];
      for i := 0 to |rows|
        invariant out == Selected(rows[..i], mod, target)
      {
        assert rows[..i + 1][..i] == rows[..i];
        if rows[i].mod == mod && rows[i].finding.target == target {
          out := out + [rows[i]];
        }
      }
      assert rows[..|rows|] == rows;
    }
  }

  /** The table holds the same records as the map: one row per key, ids unique. */
  ghost predicate RowsHold(rows: seq<Record>, t: Table)
  {
    && Lists(rows, t)
    && forall i, j :: 0 <= i < j < |rows| ==> rows[i].id != rows[j].id
  }

  /** What a record about to be stored must respect for both stores to agree on it. */
  ghost predicate Agreeable(t: Table, r: Record)
  {
    var k := KeyOf(r);
    if k in t then
      r.id == t[k].id && r.firstSeen == t[k].firstSeen
      && r.finding.target == t[k].finding.target && r.finding.check == t[k].finding.check
    else forall j :: j in t ==> t[j].id != r.id
  }

  lemma RowKeys(rows: seq<Record>, t: Table, k: Key)
    requires Lists(rows, t)
    ensures HasRow(rows, k) <==> k in t
  {
  }

  /** Updating the listed columns in place is overwriting the whole record, exactly for
      records that keep the stored identity or bring an unused id. */
  lemma UpsertAgrees(rows: seq<Record>, t: Table, r: Record)
    requires RowsHold(rows, t)
    ensures var res := SqlUpsert(rows, r);
            Agreeable(t, r) <==> res.Ok? && RowsHold(res.value, Stored(t, r))
  {
    var k := KeyOf(r);
    RowKeys(rows, t, k);
    if k in t {
      var i := RowIndex(rows, k);
      assert Updated(rows[i], r) == r <==> Agreeable(t, r);
      if Agreeable(t, r) {
        UpdatedRow(rows, t, r, i);
      } else {
        var next := rows[i := Updated(rows[i], r)];
        assert next[i] != Stored(t, r)[k] && KeyOf(next[i]) == k;
      }
    } else if Agreeable(t, r) {
      InsertedRow(rows, t, r);
    } else {
      var j :| j in t && t[j].id == r.id;
      assert j in KeysOf(rows);
      var i :| 0 <= i < |rows| && KeyOf(rows[i]) == j;
      assert HasID(rows, r.id);
    }
  }

  lemma UpdatedRow(rows: seq<Record>, t: Table, r: Record, i: nat)
    requires RowsHold(rows, t) && i < |rows| && KeyOf(rows[i]) == KeyOf(r) && rows[i].id == r.id
    ensures RowsHold(rows[i := r], Stored(t, r))
  {
    KeysUpdate(rows, i, r);
    assert KeyOf(r) in KeysOf(rows);
  }

  lemma InsertedRow(rows: seq<Record>, t: Table, r: Record)
    requires RowsHold(rows, t) && KeyOf(r) !in t && forall j :: j in t ==> t[j].id != r.id
    ensures !HasID(rows, r.id) && RowsHold(rows + [r], Stored(t, r))
  {
    ListsSnoc(rows, t, r);
    assert forall i :: 0 <= i < |rows| ==> rows[i] == t[KeyOf(rows[i])];
  }
}
