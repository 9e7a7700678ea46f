/** The evidence sanitiser: a bounded, secret-free copy of an evidence tree. */
module Evidence {
  import opened Base
  import opened Sums
  import opened Text
  import opened Sorting

  const MAX_KEYS := 24
  const MAX_STRING := 400
  const MAX_LIST := 12
  const MAX_DEPTH := 3

  const ELLIPSIS: char := '\U{2026}'
  const TOO_DEEP := "[omitted: nested too deep]"
  const NOT_SERIALISABLE := "[omitted: not serialisable]"
  const INSTRUCTION_LIKE := "[omitted: instruction-like text]"

  /** Any evidence value. `Other` is a product-specific value, known by what a JSON
      round trip makes of it; a nil map is an object without entries. */
  datatype Value =
    | Scalar(text: string)
    | Str(s: string)
    | Obj(entries: map<string, Value>)
    | Arr(items: seq<Value>)
    | StrList(strs: seq<string>)
    | Other(json: Option<Value>)

  /** Which texts read as an instruction to the model. */
  type Filter = string -> bool

  const SECRET_MARKERS := [
    "password", "passwd", "passphrase", "secret", "token", "apikey",
    "api_key", "api-key", "private", "credential", "cookie", "session",
    "authorization", "bearer", "license_key", "licence_key", "signature"]

  predicate IsSecret(key: string)
  {
    exists i :: 0 <= i < |SECRET_MARKERS| && Contains(ToLower(key), SECRET_MARKERS[i])
  }

  function TruncateRunes(s: string, n: nat): (r: string)
    ensures |r| <= n + 1 && (|s| <= n ==> r == s) && (|s| > n ==> |r| == n + 1 && r[..n] == s[..n])
  {
    if |s| <= n then s else s[..n] + [ELLIPSIS]
  }

  function Tame(s: string, f: Filter): string
  {
    TruncateRunes(if f(s) then INSTRUCTION_LIKE else s, MAX_STRING)
  }

  function OpenKeys(m: map<string, Value>): set<string>
  {
    set k | k in m && !IsSecret(k)
  }

  function KeptKeys(m: map<string, Value>): seq<string>
  {
    var keys := Sorted(OpenKeys(m));
    if |keys| > MAX_KEYS then keys[..MAX_KEYS] else keys
  }

  lemma KeptAreKeys(m: map<string, Value>)
    ensures forall i :: 0 <= i < |KeptKeys(m)| ==> KeptKeys(m)[i] in m && !IsSecret(KeptKeys(m)[i])
  {
    hide IsSecret, Sorted, Increasing;
    SortedListing(OpenKeys(m));
    PrefixMembers(Sorted(OpenKeys(m)), KeptKeys(m));
    forall i | 0 <= i < |KeptKeys(m)| ensures KeptKeys(m)[i] in OpenKeys(m) {
    }
  }

  lemma PrefixMembers(keys: seq<string>, kept: seq<string>)
    requires kept <= keys
    ensures forall i :: 0 <= i < |kept| ==> kept[i] in Members(keys)
  {
    assert forall i :: 0 <= i < |kept| ==> kept[i] == keys[i];
  }

  function SanitizeMap(m: map<string, Value>, depth: nat, f: Filter): map<string, Value>
    requires 1 <= depth <= MAX_DEPTH
    decreases MAX_DEPTH - depth, 1, Obj(m)
  {
    KeptAreKeys(m);
    map k | k in Members(KeptKeys(m)) :: SanitizeValue(m[k], depth, f)
  }

  function SanitizeValue(v: Value, depth: nat, f: Filter): Value
    requires 1 <= depth <= MAX_DEPTH
    decreases MAX_DEPTH - depth, 0, v
  {
    match v
    case Scalar(_) => v
    case Str(s) => Str(Tame(s, f))
    case Obj(m) => if depth >= MAX_DEPTH then Str(TOO_DEEP) else Obj(SanitizeMap(m, depth + 1, f))
    case Arr(items) =>
      if depth >= MAX_DEPTH then Str(TOO_DEEP)
      else
        var n := if |items| > MAX_LIST then MAX_LIST else |items|;
        Arr(seq(n, i requires 0 <= i < n => SanitizeValue(items[i], depth + 1, f)))
    case StrList(strs) =>
      var n := if |strs| > MAX_LIST then MAX_LIST else |strs|;
      Arr(seq(n, i requires 0 <= i < n => Str(Tame(strs[i], f))))
    case Other(json) =>
      if json.None? then Str(NOT_SERIALISABLE) else SanitizeValue(json.value, depth, f)
  }

  function SanitizeEvidence(m: map<string, Value>, f: Filter): map<string, Value>
  {
    SanitizeMap(m, 1, f)
  }

  // ---- bounds and secrets ----------------------------------------------------------------

  /** No secret key, at most 24 keys, 12 items and 401 runes, at every level. */
  ghost predicate Safe(v: Value)
  {
    match v
    case Scalar(_) => true
    case Str(s) => |s| <= MAX_STRING + 1
    case Obj(m) => |m| <= MAX_KEYS && forall k :: k in m ==> !IsSecret(k) && Safe(m[k])
    case Arr(items) => |items| <= MAX_LIST && forall i :: 0 <= i < |items| ==> Safe(items[i])
    case StrList(_) => false
    case Other(_) => false
  }

  /** How many maps and lists are nested in each other. */
  ghost predicate NoDeeperThan(v: Value, d: int)
  {
    match v
    case Obj(m) => d > 0 && forall k :: k in m ==> NoDeeperThan(m[k], d - 1)
    case Arr(items) => d > 0 && forall i :: 0 <= i < |items| ==> NoDeeperThan(items[i], d - 1)
    case _ => true
  }

  ghost function Leaves(v: Value): int
    decreases v
  {
    match v
    case Obj(m) => SetSum(m.Keys, (k: string) => if k in m then Leaves(m[k]) else 0)
    case Arr(items) => LeafSum(items)
    case _ => 1
  }

  ghost function LeafSum(items: seq<Value>): int
    decreases items
  {
    if items == [] then 0 else LeafSum(items[..|items| - 1]) + Leaves(items[|items| - 1])
  }

  /** The largest number of leaves a value sanitised at a depth can have. */
  function LeafCap(depth: nat): nat
  {
    if depth >= 3 then 12 else if depth == 2 then 24 * 12 else 24 * 24 * 12
  }

  lemma KeptCount(m: map<string, Value>)
    ensures |Members(KeptKeys(m))| <= MAX_KEYS
  {
    hide IsSecret;
    MembersCount(KeptKeys(m));
  }

  lemma {:induction false} MembersCount(s: seq<string>)
    ensures |Members(s)| <= |s|
  {
    if s != [] {
      MembersCount(s[1..]);
      assert s == [s[0]] + s[1..];
      MembersCons(s[0], s[1..]);
      assert Members(s) <= Members(s[1..]) + {s[0]};
      if s[0] in Members(s[1..]) {
        assert Members(s) == Members(s[1..]);
      }
    }
  }

  lemma {:induction false} LeafSumBound(items: seq<Value>, cap: nat)
    requires forall i :: 0 <= i < |items| ==> Leaves(items[i]) <= cap
    ensures LeafSum(items) <= |items| * cap
  {
    if items != [] {
      var n := |items| - 1;
      LeafSumBound(items[..n], cap);
      OneMore(n, cap);
    }
  }

  lemma MulOrder(a: int, b: int, c: nat)
    requires a <= b
    ensures a * c <= b * c
  {
    assert (b - a) * c >= 0;
    assert (b - a) * c == b * c - a * c;
  }

  lemma LeafObjBound(m: map<string, Value>, cap: nat)
    requires |m| <= MAX_KEYS && forall k :: k in m ==> Leaves(m[k]) <= cap
    ensures Leaves(Obj(m)) <= MAX_KEYS * cap
  {
    SumAtMost(m.Keys, (k: string) => if k in m then Leaves(m[k]) else 0, cap);
    MulOrder(|m.Keys|, MAX_KEYS, cap);
  }

  ghost predicate Contained(v: Value, depth: nat)
  {
    Safe(v) && NoDeeperThan(v, 4 - depth) && Leaves(v) <= LeafCap(depth)
  }

  lemma {:induction false} MapContained(m: map<string, Value>, depth: nat, f: Filter)
    requires 1 <= depth <= MAX_DEPTH
    ensures var out := SanitizeMap(m, depth, f);
            Safe(Obj(out)) && NoDeeperThan(Obj(out), 5 - depth) && Leaves(Obj(out)) <= MAX_KEYS * LeafCap(depth)
    decreases MAX_DEPTH - depth, 1, Obj(m)
  {
    hide IsSecret;
    var out := SanitizeMap(m, depth, f);
    KeptAreKeys(m);
    KeptCount(m);
    assert out.Keys == Members(KeptKeys(m));
    forall k | k in out ensures !IsSecret(k) && Contained(out[k], depth) {
      ValueContained(m[k], depth, f);
    }
    LeafObjBound(out, LeafCap(depth));
  }

  lemma ListContained(out: seq<Value>, depth: nat)
    requires 1 <= depth < MAX_DEPTH && |out| <= MAX_LIST
    requires forall i :: 0 <= i < |out| ==> Contained(out[i], depth + 1)
    ensures Contained(Arr(out), depth)
  {
    LeafSumBound(out, LeafCap(depth + 1));
    MulOrder(|out|, MAX_LIST, LeafCap(depth + 1));
  }

  lemma StringsContained(out: seq<Value>, depth: nat)
    requires 1 <= depth <= MAX_DEPTH && |out| <= MAX_LIST
    requires forall i :: 0 <= i < |out| ==> out[i].Str? && |out[i].s| <= MAX_STRING + 1
    ensures Contained(Arr(out), depth)
  {
    LeafSumBound(out, 1);
  }

  lemma LeafContained(v: Value, depth: nat)
    requires 1 <= depth <= MAX_DEPTH && (v.Scalar? || (v.Str? && |v.s| <= MAX_STRING + 1))
    ensures Contained(v, depth)
  {
  }

  lemma {:induction false} ValueContained(v: Value, depth: nat, f: Filter)
    requires 1 <= depth <= MAX_DEPTH
    ensures Contained(SanitizeValue(v, depth, f), depth)
    decreases MAX_DEPTH - depth, 0, v
  {
    hide Contained, SanitizeMap;
    var out := SanitizeValue(v, depth, f);
    match v
    case Scalar(_) => LeafContained(out, depth);
    case Str(_) => LeafContained(out, depth);
    case Obj(m) =>
      if depth < MAX_DEPTH { ObjContained(m, depth, f); } else { LeafContained(out, depth); }
    case Arr(items) =>
      if depth < MAX_DEPTH { ItemsContained(items, depth, f); } else { LeafContained(out, depth); }
    case StrList(_) => StringsContained(out.items, depth);
    case Other(json) =>
      if json.Some? { ValueContained(json.value, depth, f); } else { LeafContained(out, depth); }
  }

  lemma {:induction false} ObjContained(m: map<string, Value>, depth: nat, f: Filter)
    requires 1 <= depth < MAX_DEPTH
    ensures Contained(Obj(SanitizeMap(m, depth + 1, f)), depth)
    decreases MAX_DEPTH - depth, 0, Obj(m), 0
  {
    MapContained(m, depth + 1, f);
  }

  lemma {:induction false} ItemsContained(items: seq<Value>, depth: nat, f: Filter)
    requires 1 <= depth < MAX_DEPTH
    ensures Contained(SanitizeValue(Arr(items), depth, f), depth)
    decreases MAX_DEPTH - depth, 0, items
  {
    var out := SanitizeValue(Arr(items), depth, f).items;
    forall i | 0 <= i < |out| ensures Contained(out[i], depth + 1) {
      ValueContained(items[i], depth + 1, f);
    }
    ListContained(out, depth);
  }

  /** Whatever goes in, what comes out carries no secret key at any level and stays
      within every bound. */
  lemma SanitizedIsSafe(m: map<string, Value>, f: Filter)
    ensures var out := Obj(SanitizeEvidence(m, f));
            Safe(out) && NoDeeperThan(out, 4) && Leaves(out) <= 24 * 24 * 24 * 12
  {
    MapContained(m, 1, f);
  }

  // ---- which keys stay ---------------------------------------------------------------------

  /** Exactly the least 24 keys that are not secret are kept. */
  lemma KeepsLeastKeys(m: map<string, Value>, depth: nat, f: Filter)
    requires 1 <= depth <= MAX_DEPTH
    ensures var kept, open := SanitizeMap(m, depth, f).Keys, OpenKeys(m);
            && kept <= open
            && |kept| == Min(MAX_KEYS, |open|)
            && forall k, x :: k in kept && x in open - kept ==> Less(k, x)
  {
    hide IsSecret, Sorted;
    var keys, kept := Sorted(OpenKeys(m)), KeptKeys(m);
    SortedListing(OpenKeys(m));
    KeptAreKeys(m);
    assert SanitizeMap(m, depth, f).Keys == Members(kept);
    IncreasingCount(keys);
    hide SanitizeMap, SanitizeValue, OpenKeys, Members;
    PrefixLeast(keys, |kept|);
  }

  /** A prefix of an increasing listing holds its least members. */
  lemma PrefixLeast(keys: seq<string>, n: nat)
    requires Increasing(keys) && n <= |keys|
    ensures Members(keys[..n]) <= Members(keys) && |Members(keys[..n])| == n
    ensures forall k, x :: k in Members(keys[..n]) && x in Members(keys) - Members(keys[..n]) ==> Less(k, x)
  {
    IncreasingCount(keys[..n]);
    assert forall j :: 0 <= j < n ==> keys[..n][j] == keys[j] && keys[j] in Members(keys[..n]);
    forall k, x | k in Members(keys[..n]) && x in Members(keys) - Members(keys[..n]) ensures Less(k, x) {
      var i :| 0 <= i < n && keys[..n][i] == k;
      var j :| 0 <= j < |keys| && keys[j] == x;
    }
    forall k | k in Members(keys[..n]) ensures k in Members(keys) {
      var i :| 0 <= i < n && keys[..n][i] == k;
      assert keys[i] == k;
    }
    hide Less;
  }

  lemma {:induction false} IncreasingCount(s: seq<string>)
    requires Increasing(s)
    ensures |Members(s)| == |s|
  {
    if s != [] {
      TailMembers(s);
      IncreasingCount(s[1..]);
      assert s[0] in Members(s);
    }
  }

  // ---- secrets do not influence the result -----------------------------------------------------

  /** The tree without its secret entries, at every level. */
  function Strip(v: Value): Value
    decreases v
  {
    match v
    case Obj(m) => Obj(map k | k in m && !IsSecret(k) :: Strip(m[k]))
    case Arr(items) => Arr(seq(|items|, i requires 0 <= i < |items| => Strip(items[i])))
    case Other(json) => if json.Some? then Other(Some(Strip(json.value))) else v
    case _ => v
  }

  lemma {:induction false} MapIgnoresSecrets(m: map<string, Value>, depth: nat, f: Filter)
    requires 1 <= depth <= MAX_DEPTH
    ensures SanitizeMap(Strip(Obj(m)).entries, depth, f) == SanitizeMap(m, depth, f)
    decreases MAX_DEPTH - depth, 1, Obj(m)
  {
    hide IsSecret;
    var m' := Strip(Obj(m)).entries;
    assert OpenKeys(m') == OpenKeys(m);
    KeptAreKeys(m);
    forall k | k in Members(KeptKeys(m)) ensures SanitizeValue(m'[k], depth, f) == SanitizeValue(m[k], depth, f) {
      ValueIgnoresSecrets(m[k], depth, f);
    }
  }

  /** What is stored under a secret key, or whether it is there, never shows. */
  lemma {:induction false} ValueIgnoresSecrets(v: Value, depth: nat, f: Filter)
    requires 1 <= depth <= MAX_DEPTH
    ensures SanitizeValue(Strip(v), depth, f) == SanitizeValue(v, depth, f)
    decreases MAX_DEPTH - depth, 0, v
  {
    hide IsSecret, SanitizeMap, Tame;
    match v
    case Scalar(_) =>
    case Str(_) =>
    case Obj(m) =>
      assert Strip(v) == Obj(Strip(Obj(m)).entries);
      if depth < MAX_DEPTH { MapIgnoresSecrets(m, depth + 1, f); }
    case Arr(items) =>
      if depth < MAX_DEPTH { ItemsIgnoreSecrets(items, depth, f); }
    case StrList(_) =>
    case Other(json) =>
      if json.Some? { ValueIgnoresSecrets(json.value, depth, f); }
  }

  lemma {:induction false} ItemsIgnoreSecrets(items: seq<Value>, depth: nat, f: Filter)
    requires 1 <= depth < MAX_DEPTH
    ensures SanitizeValue(Strip(Arr(items)), depth, f) == SanitizeValue(Arr(items), depth, f)
    decreases MAX_DEPTH - depth, 0, items
  {
    hide IsSecret;
    var a, b := SanitizeValue(Strip(Arr(items)), depth, f).items, SanitizeValue(Arr(items), depth, f).items;
    forall i | 0 <= i < |b| ensures a[i] == b[i] {
      ValueIgnoresSecrets(items[i], depth + 1, f);
    }
    assert a == b;
  }

  /** Evidence that differs only in secret entries sanitises to the same evidence. */
  lemma SecretsNeverShow(a: map<string, Value>, b: map<string, Value>, f: Filter)
    requires Strip(Obj(a)) == Strip(Obj(b))
    ensures SanitizeEvidence(a, f) == SanitizeEvidence(b, f)
  {
    hide IsSecret;
    MapIgnoresSecrets(a, 1, f);
    MapIgnoresSecrets(b, 1, f);
  }

  // ---- the loops ---------------------------------------------------------------------------

  method CollectKeys(m: map<string, Value>) returns (open: set<string>)
    ensures open == OpenKeys(m)
  {
    hide IsSecret;
    open := {};
    var todo := m.Keys;
    while todo != {}
      invariant todo <= m.Keys && open == OpenKeys(m) - todo
      decreases |todo|
    {
      var k :| k in todo;
      if !IsSecret(k) { open := open + {k}; }
      todo := todo - {k};
    }
  }

  method SanitizeMapLoop(m: map<string, Value>, depth: nat, f: Filter) returns (out: map<string, Value>)
    requires 1 <= depth <= MAX_DEPTH
    ensures out == SanitizeMap(m, depth, f)
    decreases MAX_DEPTH - depth, 1, Obj(m)
  {
    hide IsSecret, Sorted, SanitizeValue;
    var open := CollectKeys(m);
    var keys := Sorted(open);
    if |keys| > MAX_KEYS { keys := keys[..MAX_KEYS]; }
    assert keys == KeptKeys(m);
    KeptAreKeys(m);
    out := map[];
    for i := 0 to |keys|
      invariant out.Keys == Members(keys[..i])
      invariant forall k :: k in out ==> k in m && out[k] == SanitizeValue(m[k], depth, f)
    {
      var v := SanitizeValueLoop(m[keys[i]], depth, f);
      MembersSnoc(keys, i);
      out := out[keys[i] := v];
    }
    assert keys[..|keys|] == keys;
  }

  lemma MembersSnoc(s: seq<string>, i: nat)
    requires i < |s|
    ensures Members(s[..i + 1]) == Members(s[..i]) + {s[i]}
  {
  }

  method SanitizeValueLoop(v: Value, depth: nat, f: Filter) returns (out: Value)
    requires 1 <= depth <= MAX_DEPTH
    ensures out == SanitizeValue(v, depth, f)
    decreases MAX_DEPTH - depth, 0, v
  {
    match v
    case Scalar(_) => return v;
    case Str(s) => return Str(Tame(s, f));
    case Obj(m) =>
      if depth >= MAX_DEPTH { return Str(TOO_DEEP); }
      var entries := SanitizeMapLoop(m, depth + 1, f);
      return Obj(entries);
    case Arr(items) =>
      if depth >= MAX_DEPTH { return Str(TOO_DEEP); }
      out := SanitizeItems(items, depth, f);
    case StrList(strs) =>
      out := TameStrings(strs, depth, f);
    case Other(json) =>
      if json.None? { return Str(NOT_SERIALISABLE); }
      out := SanitizeValueLoop(json.value, depth, f);
  }

  method SanitizeItems(items: seq<Value>, depth: nat, f: Filter) returns (out: Value)
    requires 1 <= depth < MAX_DEPTH
    ensures out == SanitizeValue(Arr(items), depth, f)
    decreases MAX_DEPTH - depth, 0, items
  {
    var n := if |items| > MAX_LIST then MAX_LIST else |items|;
    var list: seq<Value> := [];
    for i := 0 to n
      invariant |list| == i && forall j :: 0 <= j < i ==> list[j] == SanitizeValue(items[j], depth + 1, f)
    {
      var item := SanitizeValueLoop(items[i], depth + 1, f);
      list := list + [item];
    }
    out := Arr(list);
    assert list == SanitizeValue(Arr(items), depth, f).items;
  }

  method TameStrings(strs: seq<string>, depth: nat, f: Filter) returns (out: Value)
    requires 1 <= depth <= MAX_DEPTH
    ensures out == SanitizeValue(StrList(strs), depth, f)
  {
    var n := if |strs| > MAX_LIST then MAX_LIST else |strs|;
    var list: seq<Value> := [];
    for i := 0 to n
      invariant |list| == i && forall j :: 0 <= j < i ==> list[j] == Str(Tame(strs[j], f))
    {
      list := list + [Str(Tame(strs[i], f))];
    }
    out := Arr(list);
    assert list == SanitizeValue(StrList(strs), depth, f).items;
  }
}
