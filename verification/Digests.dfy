/** Digests: what a batch of events turns into before it is sent, and the retry loop that
    sends it. */
module Digests {
  import opened Base
  import opened Findings

  datatype Kind = OpenedEvent | ResolvedEvent

  datatype Event = Event(kind: Kind, mod: string, finding: Finding)

  datatype Digest = Digest(mod: string, news: seq<Finding>, resolved: seq<Finding>)

  function SeverityRank(s: Severity): nat
  {
    match s
    case Critical => 4
    case High => 3
    case Medium => 2
    case Low => 1
    case _ => 0
  }

  function Rank(f: Finding): nat { SeverityRank(f.severity) }

  /** The severities, worst first; a name nobody knows counts as the mildest. */
  const WORST_FIRST := [Critical, High, Medium, Low, Info]

  function Known(s: Severity): Severity { if s.UnknownSeverity? then Info else s }

  ghost predicate AtLeastAsSevere(a: Severity, b: Severity)
  {
    exists i, j :: 0 <= i <= j < |WORST_FIRST| && WORST_FIRST[i] == Known(a) && WORST_FIRST[j] == Known(b)
  }

  lemma Position(s: Severity) returns (i: nat)
    ensures i < |WORST_FIRST| && WORST_FIRST[i] == Known(s) && SeverityRank(s) == 4 - i
    ensures forall j :: 0 <= j < |WORST_FIRST| && WORST_FIRST[j] == Known(s) ==> j == i
  {
    match s
    case Critical => i := 0;
    case High => i := 1;
    case Medium => i := 2;
    case Low => i := 3;
    case _ => i := 4;
  }

  /** Ranks compare like places in that order. */
  lemma RanksCompare(a: Severity, b: Severity)
    ensures SeverityRank(a) >= SeverityRank(b) <==> AtLeastAsSevere(a, b)
  {
    var i := Position(a);
    var j := Position(b);
  }

  // ---- ordering by severity ---------------------------------------------------------------

  predicate MostSevereFirst(fs: seq<Finding>)
  {
    forall i, j :: 0 <= i < j < |fs| ==> Rank(fs[i]) >= Rank(fs[j])
  }

  /** The findings of one rank, in arrival order. */
  function OfRank(fs: seq<Finding>, q: nat): seq<Finding>
  {
    if fs == [] then [] else (if Rank(fs[0]) == q then [fs[0]] else []) + OfRank(fs[1..], q)
  }

  /** A rearrangement that keeps arrival order within each severity. */
  ghost predicate Stable(before: seq<Finding>, after: seq<Finding>)
  {
    forall q: nat :: OfRank(after, q) == OfRank(before, q)
  }

  /** The order of a digest, bucket by bucket. */
  function BySeverity(fs: seq<Finding>): seq<Finding>
  {
    OfRank(fs, 4) + OfRank(fs, 3) + OfRank(fs, 2) + OfRank(fs, 1) + OfRank(fs, 0)
  }

  lemma {:induction false} OfRankJoin(a: seq<Finding>, b: seq<Finding>, q: nat)
    ensures OfRank(a + b, q) == OfRank(a, q) + OfRank(b, q)
  {
    if a == [] {
      assert a + b == b;
    } else {
      OfRankJoin(a[1..], b, q);
      assert (a + b)[1..] == a[1..] + b;
    }
  }

  lemma {:induction false} OfRankHasRank(fs: seq<Finding>, q: nat)
    ensures forall f :: f in OfRank(fs, q) <==> f in fs && Rank(f) == q
  {
    if fs != [] {
      OfRankHasRank(fs[1..], q);
      assert fs == [fs[0]] + fs[1..];
    }
  }

  lemma {:induction false} OfRankPure(fs: seq<Finding>, p: nat, q: nat)
    requires forall f :: f in fs ==> Rank(f) == p
    ensures OfRank(fs, q) == if p == q then fs else []
  {
    if fs != [] {
      assert fs[0] in fs && forall f :: f in fs[1..] ==> f in fs;
      OfRankPure(fs[1..], p, q);
      assert fs == [fs[0]] + fs[1..];
    }
  }

  lemma {:induction false} OfRankBound(fs: seq<Finding>, q: nat)
    requires q > 4
    ensures OfRank(fs, q) == []
  {
    if fs != [] { OfRankBound(fs[1..], q); }
  }

  /** Filtering twice by rank. */
  lemma OfRankTwice(fs: seq<Finding>, p: nat, q: nat)
    ensures OfRank(OfRank(fs, p), q) == if p == q then OfRank(fs, q) else []
  {
    OfRankHasRank(fs, p);
    OfRankPure(OfRank(fs, p), p, q);
  }

  lemma OfRankBuckets(a: seq<Finding>, b: seq<Finding>, c: seq<Finding>, d: seq<Finding>, e: seq<Finding>, q: nat)
    ensures OfRank(a + b + c + d + e, q) == OfRank(a, q) + OfRank(b, q) + OfRank(c, q) + OfRank(d, q) + OfRank(e, q)
  {
    hide *;
    OfRankJoin(a + b + c + d, e, q);
    OfRankJoin(a + b + c, d, q);
    OfRankJoin(a + b, c, q);
    OfRankJoin(a, b, q);
  }

  lemma BySeverityStable(fs: seq<Finding>, q: nat)
    ensures OfRank(BySeverity(fs), q) == OfRank(fs, q)
  {
    hide OfRank;
    OfRankBuckets(OfRank(fs, 4), OfRank(fs, 3), OfRank(fs, 2), OfRank(fs, 1), OfRank(fs, 0), q);
    OfRankTwice(fs, 4, q);
    OfRankTwice(fs, 3, q);
    OfRankTwice(fs, 2, q);
    OfRankTwice(fs, 1, q);
    OfRankTwice(fs, 0, q);
    if q > 4 { OfRankBound(fs, q); }
    assert OfRank(fs, q) + [] == [] + OfRank(fs, q) == OfRank(fs, q);
  }

  predicate Above(fs: seq<Finding>, q: nat) { forall f :: f in fs ==> Rank(f) >= q }

  lemma OrderedJoin(a: seq<Finding>, b: seq<Finding>, q: nat)
    requires MostSevereFirst(a) && Above(a, q) && forall f :: f in b ==> Rank(f) == q
    ensures MostSevereFirst(a + b) && Above(a + b, q)
  {
  }

  lemma BySeverityOrdered(fs: seq<Finding>)
    ensures MostSevereFirst(BySeverity(fs))
  {
    var a, b, c, d, e := OfRank(fs, 4), OfRank(fs, 3), OfRank(fs, 2), OfRank(fs, 1), OfRank(fs, 0);
    OfRankHasRank(fs, 4);
    OfRankHasRank(fs, 3);
    OfRankHasRank(fs, 2);
    OfRankHasRank(fs, 1);
    OfRankHasRank(fs, 0);
    hide OfRank, Rank;
    OrderedJoin([], a, 4);
    assert [] + a == a;
    OrderedJoin(a, b, 3);
    OrderedJoin(a + b, c, 2);
    OrderedJoin(a + b + c, d, 1);
    OrderedJoin(a + b + c + d, e, 0);
  }

  lemma {:induction false} OrderedPeak(fs: seq<Finding>, q: nat)
    requires MostSevereFirst(fs) && fs != []
    ensures q > Rank(fs[0]) ==> OfRank(fs, q) == []
    ensures q == Rank(fs[0]) ==> OfRank(fs, q) != [] && OfRank(fs, q)[0] == fs[0]
  {
    if |fs| > 1 { OrderedPeak(fs[1..], q); }
  }

  lemma StableTail(a: seq<Finding>, b: seq<Finding>)
    requires a != [] && b != [] && a[0] == b[0] && Stable(a, b)
    ensures Stable(a[1..], b[1..])
  {
    forall q: nat ensures OfRank(a[1..], q) == OfRank(b[1..], q) {
      assert OfRank(b, q) == OfRank(a, q);
      var head := if Rank(a[0]) == q then [a[0]] else [];
      assert OfRank(a, q) == head + OfRank(a[1..], q) && OfRank(b, q) == head + OfRank(b[1..], q);
      assert OfRank(a[1..], q) == OfRank(a, q)[|head|..] && OfRank(b[1..], q) == OfRank(b, q)[|head|..];
    }
  }

  lemma StableNonEmpty(a: seq<Finding>, b: seq<Finding>)
    requires Stable(a, b) && a != []
    ensures b != []
  {
    var q := Rank(a[0]);
    assert OfRank(b, q) == OfRank(a, q);
  }

  /** Only one arrangement is both most severe first and stable. */
  lemma {:induction false} OrderUnique(a: seq<Finding>, b: seq<Finding>)
    requires MostSevereFirst(a) && MostSevereFirst(b) && Stable(a, b)
    ensures a == b
  {
    if a == [] {
      if b != [] {
        assert Stable(b, a);
        StableNonEmpty(b, a);
      }
    } else {
      StableNonEmpty(a, b);
      var p, q := Rank(a[0]), Rank(b[0]);
      assert OfRank(b, p) == OfRank(a, p) && OfRank(b, q) == OfRank(a, q);
      OrderedPeak(a, p);
      OrderedPeak(a, q);
      OrderedPeak(b, p);
      OrderedPeak(b, q);
      assert a[0] == b[0];
      StableTail(a, b);
      OrderUnique(a[1..], b[1..]);
    }
  }

  lemma SwapStable(fs: seq<Finding>, j: nat)
    requires 0 < j < |fs| && Rank(fs[j]) != Rank(fs[j - 1])
    ensures Stable(fs, fs[j := fs[j - 1]][j - 1 := fs[j]])
  {
    var swapped := fs[j := fs[j - 1]][j - 1 := fs[j]];
    var front, back, x, y := fs[..j - 1], fs[j + 1..], fs[j - 1], fs[j];
    assert fs == front + ([x] + [y]) + back && swapped == front + ([y] + [x]) + back;
    forall q: nat ensures OfRank(swapped, q) == OfRank(fs, q) {
      OfRankJoin(front + ([x] + [y]), back, q);
      OfRankJoin(front, [x] + [y], q);
      OfRankJoin([x], [y], q);
      OfRankJoin(front + ([y] + [x]), back, q);
      OfRankJoin(front, [y] + [x], q);
      OfRankJoin([y], [x], q);
      assert OfRank([x], q) == [] || OfRank([y], q) == [];
    }
  }

  /** The in-place insertion sort puts a digest in exactly the bucket order. */
  method SortBySeverity(a: array<Finding>)
    modifies a
    ensures a[..] == BySeverity(old(a[..]))
  {
    ghost var was := a[..];
    hide OfRank;
    if a.Length > 0 {
      InsertAll(a);
    }
    forall q: nat ensures OfRank(a[..], q) == OfRank(BySeverity(was), q) {
      BySeverityStable(was, q);
    }
    BySeverityOrdered(was);
    OrderUnique(BySeverity(was), a[..]);
  }

  method InsertAll(a: array<Finding>)
    requires a.Length > 0
    modifies a
    ensures MostSevereFirst(a[..]) && Stable(old(a[..]), a[..])
  {
    hide OfRank, Rank;
    for i := 1 to a.Length
      invariant MostSevereFirst(a[..i]) && Stable(old(a[..]), a[..])
    {
      var j := i;
      while j > 0 && Rank(a[j]) > Rank(a[j - 1])
        invariant 0 <= j <= i
        invariant forall x, y :: 0 <= x < y <= i && y != j ==> Rank(a[x]) >= Rank(a[y])
        invariant Stable(old(a[..]), a[..])
      {
        SwapStable(a[..], j);
        ghost var swapped := a[..][j := a[j - 1]][j - 1 := a[j]];
        a[j], a[j - 1] := a[j - 1], a[j];
        assert a[..] == swapped;
        j := j - 1;
      }
      assert forall x, y :: 0 <= x < y <= i ==> Rank(a[x]) >= Rank(a[y]);
    }
    assert a[..a.Length] == a[..];
  }

  /** The same findings, most severe first, first come first within a severity. */
  lemma OrderMeaning(fs: seq<Finding>)
    ensures MostSevereFirst(BySeverity(fs)) && Stable(fs, BySeverity(fs))
    ensures forall i, j :: 0 <= i < j < |BySeverity(fs)| ==>
              AtLeastAsSevere(BySeverity(fs)[i].severity, BySeverity(fs)[j].severity)
    ensures forall f :: f in BySeverity(fs) <==> f in fs
  {
    BySeverityOrdered(fs);
    forall i, j | 0 <= i < j < |BySeverity(fs)|
      ensures AtLeastAsSevere(BySeverity(fs)[i].severity, BySeverity(fs)[j].severity)
    {
      RanksCompare(BySeverity(fs)[i].severity, BySeverity(fs)[j].severity);
    }
    hide BySeverity;
    forall q: nat ensures OfRank(BySeverity(fs), q) == OfRank(fs, q) {
      BySeverityStable(fs, q);
    }
    forall f ensures f in BySeverity(fs) <==> f in fs {
      BySeverityStable(fs, Rank(f));
      OfRankHasRank(fs, Rank(f));
      OfRankHasRank(BySeverity(fs), Rank(f));
    }
  }

  // ---- digests --------------------------------------------------------------------------

  function OfKind(events: seq<Event>, kind: Kind): seq<Finding>
  {
    if events == [] then []
    else
      var e := events[|events| - 1];
      OfKind(events[..|events| - 1], kind) + (if e.kind == kind then [e.finding] else [])
  }

  function DigestOf(mod: string, events: seq<Event>): Digest
  {
    Digest(mod, BySeverity(OfKind(events, OpenedEvent)), OfKind(events, ResolvedEvent))
  }

  predicate Empty(d: Digest) { d.news == [] && d.resolved == [] }

  lemma {:induction false} OfKindAre(events: seq<Event>, kind: Kind)
    ensures forall f :: f in OfKind(events, kind) <==>
              exists i :: 0 <= i < |events| && events[i].kind == kind && events[i].finding == f
  {
    if events != [] {
      var n := |events| - 1;
      OfKindAre(events[..n], kind);
    }
  }

  function Entries(d: Digest, kind: Kind): seq<Finding> { if kind == OpenedEvent then d.news else d.resolved }

  /** A digest reports every event of its batch under its kind. */
  lemma DigestReports(mod: string, events: seq<Event>, i: nat)
    requires i < |events|
    ensures events[i].finding in Entries(DigestOf(mod, events), events[i].kind)
    ensures !Empty(DigestOf(mod, events))
  {
    OfKindAre(events, events[i].kind);
    OrderMeaning(OfKind(events, OpenedEvent));
  }

  method BuildDigest(mod: string, events: seq<Event>) returns (d: Digest)
    ensures d == DigestOf(mod, events)
  {
    var news: seq<Finding>, resolved: seq<Finding> := [], [];
    for i := 0 to |events|
      invariant news == OfKind(events[..i], OpenedEvent) && resolved == OfKind(events[..i], ResolvedEvent)
    {
      assert events[..i + 1][..i] == events[..i];
      match events[i].kind
      case OpenedEvent => news := news + [events[i].finding];
      case ResolvedEvent => resolved := resolved + [events[i].finding];
    }
    assert events[..|events|] == events;
    var a := new Finding[|news|](i requires 0 <= i < |news| => news[i]);
    assert a[..] == news;
    SortBySeverity(a);
    d := Digest(mod, a[..], resolved);
  }

  // ---- sending ----------------------------------------------------------------------------

  datatype Outcome = Delivered | GivenUp

  /** Sends until one attempt succeeds, at most `retries` times; `answers` is what the
      channel would say to each attempt. */
  method SendWithRetry(answers: nat -> bool, retries: nat) returns (outcome: Outcome, attempts: nat)
    ensures outcome == Delivered <==> exists i :: 0 <= i < retries && answers(i)
    ensures attempts <= retries && forall i :: 0 <= i < attempts - 1 ==> !answers(i)
    ensures if outcome == Delivered then attempts > 0 && answers(attempts - 1) else attempts == retries
  {
    attempts := 0;
    while attempts < retries
      invariant attempts <= retries && forall i :: 0 <= i < attempts ==> !answers(i)
    {
      attempts := attempts + 1;
      if answers(attempts - 1) { return Delivered, attempts; }
    }
    outcome := GivenUp;
  }
}
