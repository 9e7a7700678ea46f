/** From the lifecycle to the reader: the notices a dispatcher accepts about one finding,
    and exactly when the last of them agrees with the record. */
module Delivery {
  import opened Base
  import opened Sums
  import opened Findings
  import opened FindingStores
  import opened Digests
  import Notify
  import Lifecycle

  predicate About(e: Event, k: Key) { e.mod == k.0 && e.finding.fingerprint == k.1 }

  /** The kinds of the events about one finding. */
  function KindsAbout(events: seq<Event>, k: Key): seq<Kind>
  {
    if events == [] then []
    else
      var e := events[|events| - 1];
      KindsAbout(events[..|events| - 1], k) + (if About(e, k) then [e.kind] else [])
  }

  /** What was handed to the dispatcher. */
  function Handed(steps: seq<Notify.Step>): seq<Event>
  {
    if steps == [] then []
    else
      var step := steps[|steps| - 1];
      Handed(steps[..|steps| - 1]) + (if step.Enqueue? then [step.event] else [])
  }

  function Offered(steps: seq<Notify.Step>, k: Key): seq<Kind> { KindsAbout(Handed(steps), k) }

  /** What it accepted, and so will send. */
  ghost function Told(c: Notify.Config, steps: seq<Notify.Step>, k: Key): seq<Kind>
  {
    KindsAbout(Notify.Log(c, steps), k)
  }

  function NoticeKey(kind: Kind, k: Key): string { Notify.KindName(kind) + "|" + k.0 + "|" + k.1 }

  /** A notice about the finding is waiting to be sent. */
  predicate Waits(seen: set<string>, k: Key)
  {
    NoticeKey(OpenedEvent, k) in seen || NoticeKey(ResolvedEvent, k) in seen
  }

  /** How many notices about the finding the last batch with any of them was offered. */
  ghost function Window(c: Notify.Config, steps: seq<Notify.Step>, k: Key): nat
  {
    if steps == [] then 0
    else
      var before, step := steps[..|steps| - 1], steps[|steps| - 1];
      if !(step.Enqueue? && About(step.event, k)) then Window(c, before, k)
      else if Waits(Notify.Run(c, before).seen, k) then Window(c, before, k) + 1
      else 1
  }

  /** The dispatcher is open, no severity filter hides the finding, module ids have no bar. */
  predicate Ordinary(c: Notify.Config, step: Notify.Step, k: Key)
  {
    match step
    case CloseBegin => false
    case Enqueue(e) =>
      '|' !in e.mod && (About(e, k) && e.kind == OpenedEvent ==> Notify.PassesSeverity(c, e.finding.severity))
    case _ => true
  }

  predicate AllOrdinary(c: Notify.Config, steps: seq<Notify.Step>, k: Key)
  {
    forall i :: 0 <= i < |steps| ==> Ordinary(c, steps[i], k)
  }

  predicate Alternating(kinds: seq<Kind>)
  {
    forall i :: 0 <= i < |kinds| ==> kinds[i] == if i % 2 == 0 then OpenedEvent else ResolvedEvent
  }

  function Other(kind: Kind): Kind { if kind == OpenedEvent then ResolvedEvent else OpenedEvent }

  function Last(kinds: seq<Kind>): Kind
    requires kinds != []
  {
    kinds[|kinds| - 1]
  }

  /** The notice accepted last is the one offered last. */
  predicate Faithful(window: nat) { window == 1 || window % 2 == 0 }

  /** What the offers, the window and the waiting keys say about what was told. */
  predicate Tracks(offered: seq<Kind>, window: nat, seen: set<string>, told: seq<Kind>, k: Key)
  {
    if offered == [] then window == 0 && told == [] && !Waits(seen, k)
    else
      && window >= 1 && told != []
      && Last(told) == (if Faithful(window) then Last(offered) else Other(Last(offered)))
      && (Waits(seen, k) ==> NoticeKey(Last(offered), k) in seen)
      && (Waits(seen, k) ==> (NoticeKey(Other(Last(offered)), k) in seen <==> window >= 2))
  }

  lemma KeysOfNotices(e: Event, k: Key)
    requires '|' !in e.mod && '|' !in k.0
    ensures About(e, k) ==> Notify.EventKey(e) == NoticeKey(e.kind, k)
    ensures !About(e, k) ==> Notify.EventKey(e) != NoticeKey(OpenedEvent, k)
    ensures !About(e, k) ==> Notify.EventKey(e) != NoticeKey(ResolvedEvent, k)
    ensures NoticeKey(OpenedEvent, k) != NoticeKey(ResolvedEvent, k)
  {
    var f := e.finding.(fingerprint := k.1);
    var o, r := Event(OpenedEvent, k.0, f), Event(ResolvedEvent, k.0, f);
    Notify.KeyIdentifiesEvent(e, o);
    Notify.KeyIdentifiesEvent(e, r);
    Notify.KeyIdentifiesEvent(o, r);
  }

  /** Acceptance, and what a step leaves in `seen`. */
  lemma StepSeen(c: Notify.Config, s: Notify.State, step: Notify.Step, k: Key)
    requires !s.closed && Ordinary(c, step, k)
    ensures var t := Notify.Next(c, s, step);
            && !t.closed
            && (t.seen == {} || t.seen == s.seen + (set e | e in Notify.Accepted(c, s, step) :: Notify.EventKey(e)))
            && (step.Enqueue? && About(step.event, k) ==>
                  Notify.Accepted(c, s, step) == if Notify.EventKey(step.event) in s.seen then [] else [step.event])
            && (!step.Enqueue? ==> Notify.Accepted(c, s, step) == [])
  {
    hide Notify.Launched, Notify.Total, Notify.DigestsOf, Notify.Added, Notify.PassesSeverity;
  }

  lemma KindsSnoc(events: seq<Event>, more: seq<Event>, k: Key)
    requires |more| <= 1
    ensures KindsAbout(events + more, k) ==
            KindsAbout(events, k) + (if more != [] && About(more[0], k) then [more[0].kind] else [])
  {
    if more == [] {
      assert events + more == events;
    } else {
      assert (events + more)[..|events|] == events;
    }
  }

  /** One more notice about the finding: the third and later of a batch are not told. */
  lemma OfferTracks(offered: seq<Kind>, window: nat, seen: set<string>, told: seq<Kind>, k: Key, x: Kind,
                    after: set<string>)
    requires Tracks(offered, window, seen, told, k) && (offered != [] ==> x == Other(Last(offered)))
    requires after == {} || after == seen + {NoticeKey(x, k)}
    ensures Tracks(offered + [x], if Waits(seen, k) then window + 1 else 1, after,
                   told + (if NoticeKey(x, k) in seen then [] else [x]), k)
  {
    KeysDiffer(k);
    hide NoticeKey;
  }

  /** A step that offers nothing about the finding. */
  lemma OtherTracks(offered: seq<Kind>, window: nat, seen: set<string>, told: seq<Kind>, k: Key, after: set<string>)
    requires Tracks(offered, window, seen, told, k)
    requires after == {} || (forall x :: NoticeKey(x, k) in after <==> NoticeKey(x, k) in seen)
    ensures Tracks(offered, window, after, told, k)
  {
    hide NoticeKey;
  }

  predicate Offers(step: Notify.Step, k: Key) { step.Enqueue? && About(step.event, k) }

  ghost predicate Tracked(c: Notify.Config, steps: seq<Notify.Step>, k: Key)
  {
    && !Notify.Run(c, steps).closed
    && Tracks(Offered(steps, k), Window(c, steps, k), Notify.Run(c, steps).seen, Told(c, steps, k), k)
  }

  lemma OfferSeen(c: Notify.Config, s: Notify.State, step: Notify.Step, k: Key)
    requires '|' !in k.0 && !s.closed && Ordinary(c, step, k) && Offers(step, k)
    ensures var t, key := Notify.Next(c, s, step), NoticeKey(step.event.kind, k);
            && !t.closed && (t.seen == {} || t.seen == s.seen + {key})
            && (Notify.Accepted(c, s, step) == [] <==> key in s.seen)
  {
    StepSeen(c, s, step, k);
    KeysOfNotices(step.event, k);
    hide Notify.Next, NoticeKey, Notify.Accepted, Notify.EventKey;
    SeenGrows(s.seen, Notify.Accepted(c, s, step), step.event);
  }

  lemma SeenGrows(seen: set<string>, accepted: seq<Event>, e: Event)
    requires accepted == if Notify.EventKey(e) in seen then [] else [e]
    ensures seen + (set x | x in accepted :: Notify.EventKey(x)) == seen + {Notify.EventKey(e)}
  {
    hide Notify.EventKey;
    if accepted != [] {
      assert e in accepted;
    }
  }

  lemma OtherSeen(c: Notify.Config, s: Notify.State, step: Notify.Step, k: Key)
    requires '|' !in k.0 && !s.closed && Ordinary(c, step, k) && !Offers(step, k)
    ensures var t := Notify.Next(c, s, step);
            !t.closed && (t.seen == {} || forall x :: NoticeKey(x, k) in t.seen <==> NoticeKey(x, k) in s.seen)
  {
    StepSeen(c, s, step, k);
    if step.Enqueue? { KeysOfNotices(step.event, k); }
    assert forall x :: x in Notify.Accepted(c, s, step) ==> step.Enqueue? && x == step.event;
    hide Notify.Next, NoticeKey, Notify.Accepted, Notify.EventKey;
  }

  lemma TrackedIs(c: Notify.Config, steps: seq<Notify.Step>, k: Key)
    ensures Tracked(c, steps, k) <==>
              && !Notify.Run(c, steps).closed
              && Tracks(Offered(steps, k), Window(c, steps, k), Notify.Run(c, steps).seen, Told(c, steps, k), k)
  {
    hide Tracks, Notify.Run, Offered, Told, Window;
  }

  lemma OfferStep(c: Notify.Config, before: seq<Notify.Step>, step: Notify.Step, k: Key)
    requires '|' !in k.0 && Ordinary(c, step, k) && Offers(step, k) && Tracked(c, before, k)
    requires Offered(before, k) != [] ==> step.event.kind == Other(Last(Offered(before, k)))
    ensures Tracked(c, before + [step], k)
  {
    var s, x := Notify.Run(c, before), step.event.kind;
    hide *;
    TrackedIs(c, before, k);
    OfferSeen(c, s, step, k);
    OfferTracks(Offered(before, k), Window(c, before, k), s.seen, Told(c, before, k), k, x,
                Notify.Next(c, s, step).seen);
    OfferParts(c, before, step, k);
    TrackedIs(c, before + [step], k);
  }

  lemma OfferParts(c: Notify.Config, before: seq<Notify.Step>, step: Notify.Step, k: Key)
    requires Offers(step, k)
    requires Notify.Accepted(c, Notify.Run(c, before), step) == [] <==>
               NoticeKey(step.event.kind, k) in Notify.Run(c, before).seen
    ensures var steps, s := before + [step], Notify.Run(c, before);
            && Notify.Run(c, steps) == Notify.Next(c, s, step)
            && Offered(steps, k) == Offered(before, k) + [step.event.kind]
            && Told(c, steps, k) ==
               Told(c, before, k) + (if NoticeKey(step.event.kind, k) in s.seen then [] else [step.event.kind])
            && Window(c, steps, k) == if Waits(s.seen, k) then Window(c, before, k) + 1 else 1
  {
    hide *;
    SnocParts(c, before, step, k);
  }

  lemma KeysDiffer(k: Key)
    ensures NoticeKey(OpenedEvent, k) != NoticeKey(ResolvedEvent, k)
  {
    assert NoticeKey(OpenedEvent, k)[0] == 'o' && NoticeKey(ResolvedEvent, k)[0] == 'r';
  }

  lemma OtherStep(c: Notify.Config, before: seq<Notify.Step>, step: Notify.Step, k: Key)
    requires '|' !in k.0 && Ordinary(c, step, k) && !Offers(step, k) && Tracked(c, before, k)
    ensures Tracked(c, before + [step], k)
  {
    var s := Notify.Run(c, before);
    hide Tracks, Notify.Accepted, Notify.Next, Notify.Run, NoticeKey, Offered, Told, Window, Ordinary, Waits, Offers;
    SnocParts(c, before, step, k);
    OtherSeen(c, s, step, k);
    OtherTracks(Offered(before, k), Window(c, before, k), s.seen, Told(c, before, k), k, Notify.Next(c, s, step).seen);
    assert Told(c, before, k) + [] == Told(c, before, k) && Offered(before, k) + [] == Offered(before, k);
  }

  /** The histories after one more step. */
  lemma SnocParts(c: Notify.Config, before: seq<Notify.Step>, step: Notify.Step, k: Key)
    ensures var steps, s := before + [step], Notify.Run(c, before);
            && Notify.Run(c, steps) == Notify.Next(c, s, step)
            && Offered(steps, k) == Offered(before, k) + (if Offers(step, k) then [step.event.kind] else [])
            && Told(c, steps, k) ==
               Told(c, before, k)
               + (if Offers(step, k) && Notify.Accepted(c, s, step) != [] then [step.event.kind] else [])
            && Window(c, steps, k) == if !Offers(step, k) then Window(c, before, k)
                                      else if Waits(s.seen, k) then Window(c, before, k) + 1 else 1
  {
    var steps, s := before + [step], Notify.Run(c, before);
    assert steps[..|before|] == before;
    KindsSnoc(Handed(before), if step.Enqueue? then [step.event] else [], k);
    KindsSnoc(Notify.Log(c, before), Notify.Accepted(c, s, step), k);
    hide Notify.Next, Notify.Accepts, KindsAbout, Waits;
  }

  /** Along every run with alternating offers the first two of a batch are told. */
  lemma {:induction false} OffersTracked(c: Notify.Config, steps: seq<Notify.Step>, k: Key)
    requires '|' !in k.0 && AllOrdinary(c, steps, k) && Alternating(Offered(steps, k))
    ensures Tracked(c, steps, k)
  {
    if steps != [] {
      var n := |steps| - 1;
      var before, step := steps[..n], steps[n];
      assert steps == before + [step] && Ordinary(c, step, k);
      SnocParts(c, before, step, k);
      AlternatingBefore(Offered(before, k), Offered(steps, k));
      OffersTracked(c, before, k);
      hide Tracked, Ordinary, Offered, Told, Window, Notify.Run, Notify.Next, Alternating;
      if Offers(step, k) { OfferStep(c, before, step, k); } else { OtherStep(c, before, step, k); }
    }
  }

  lemma AlternatingBefore(few: seq<Kind>, more: seq<Kind>)
    requires few <= more && Alternating(more)
    ensures Alternating(few)
    ensures |more| == |few| + 1 && few != [] ==> Last(more) == Other(Last(few))
  {
  }

  // ---- what a digest says of the finding ------------------------------------------------------

  predicate Names(fs: seq<Finding>, fingerprint: string)
  {
    exists i :: 0 <= i < |fs| && fs[i].fingerprint == fingerprint
  }

  predicate Mentions(d: Digest, fingerprint: string) { Names(d.news, fingerprint) || Names(d.resolved, fingerprint) }

  /** Every channel prints what was resolved after what was opened. */
  function HeardIn(d: Digest, fingerprint: string): Kind
  {
    if Names(d.resolved, fingerprint) then ResolvedEvent else OpenedEvent
  }

  /** What the last digest to mention the finding leaves the reader with. */
  function HeardLast(digests: seq<map<string, Digest>>, k: Key): Option<Kind>
  {
    if digests == [] then None
    else
      var n := |digests| - 1;
      if k.0 in digests[n] && Mentions(digests[n][k.0], k.1) then Some(HeardIn(digests[n][k.0], k.1))
      else HeardLast(digests[..n], k)
  }

  /** The digests flushed, and the one that is still being put together. */
  function Heard(s: Notify.State, k: Key): Option<Kind>
  {
    HeardLast(s.digests + [Notify.DigestsOf(s.pending)], k)
  }

  function BatchKinds(p: Notify.Pending, k: Key): seq<Kind> { KindsAbout(Notify.Batch(p, k.0), k) }

  /** The kinds in the last batch that has the finding. */
  function LastKinds(batches: seq<Notify.Pending>, k: Key): seq<Kind>
  {
    if batches == [] then []
    else
      var n := |batches| - 1;
      if BatchKinds(batches[n], k) != [] then BatchKinds(batches[n], k) else LastKinds(batches[..n], k)
  }

  function KindsNow(s: Notify.State, k: Key): seq<Kind> { LastKinds(s.flushes + [s.pending], k) }

  lemma {:induction false} KindsAre(events: seq<Event>, k: Key, x: Kind)
    requires forall i :: 0 <= i < |events| ==> events[i].mod == k.0
    ensures x in KindsAbout(events, k) <==> Names(OfKind(events, x), k.1)
  {
    if events != [] {
      var n := |events| - 1;
      KindsAre(events[..n], k, x);
      NamesJoin(OfKind(events[..n], x), if events[n].kind == x then [events[n].finding] else [], k.1);
      hide Names;
      assert Names([], k.1) == false && Names([events[n].finding], k.1) == (events[n].finding.fingerprint == k.1) by {
        NamesFew(events[n].finding, k.1);
      }
    }
  }

  lemma NamesFew(f: Finding, fingerprint: string)
    ensures !Names([], fingerprint) && (Names([f], fingerprint) <==> f.fingerprint == fingerprint)
  {
    assert [f][0] == f;
  }

  lemma NamesJoin(a: seq<Finding>, b: seq<Finding>, fingerprint: string)
    ensures Names(a + b, fingerprint) <==> Names(a, fingerprint) || Names(b, fingerprint)
  {
    if i :| 0 <= i < |a| && a[i].fingerprint == fingerprint {
      assert (a + b)[i] == a[i];
    }
    if i :| 0 <= i < |b| && b[i].fingerprint == fingerprint {
      assert (a + b)[|a| + i] == b[i];
    }
  }

  lemma SortedNames(fs: seq<Finding>, fingerprint: string)
    ensures Names(BySeverity(fs), fingerprint) <==> Names(fs, fingerprint)
  {
    OrderMeaning(fs);
    hide BySeverity, MostSevereFirst, Stable;
    if i :| 0 <= i < |fs| && fs[i].fingerprint == fingerprint {
      assert fs[i] in BySeverity(fs);
    }
    if i :| 0 <= i < |BySeverity(fs)| && BySeverity(fs)[i].fingerprint == fingerprint {
      assert BySeverity(fs)[i] in fs;
    }
  }

  /** The digest of a batch mentions the finding as the batch does. */
  lemma BatchDigest(p: Notify.Pending, k: Key)
    requires forall i :: 0 <= i < |Notify.Batch(p, k.0)| ==> Notify.Batch(p, k.0)[i].mod == k.0
    ensures var ds := Notify.DigestsOf(p);
            if BatchKinds(p, k) == [] then k.0 in ds ==> !Mentions(ds[k.0], k.1)
            else
              && k.0 in ds && Mentions(ds[k.0], k.1)
              && HeardIn(ds[k.0], k.1) == if ResolvedEvent in BatchKinds(p, k) then ResolvedEvent else OpenedEvent
  {
    var events := Notify.Batch(p, k.0);
    KindsAre(events, k, OpenedEvent);
    KindsAre(events, k, ResolvedEvent);
    SortedNames(OfKind(events, OpenedEvent), k.1);
    var kinds := KindsAbout(events, k);
    assert kinds != [] ==> k.0 in p && kinds[0] in kinds && (kinds[0] == OpenedEvent || kinds[0] == ResolvedEvent);
    hide Names, BySeverity, KindsAbout, OfKind;
  }

  /** Batches are filed under their modules. */
  ghost predicate OwnBatches(batches: seq<Notify.Pending>, m: string)
  {
    forall f, i :: 0 <= f < |batches| && 0 <= i < |Notify.Batch(batches[f], m)| ==>
      Notify.Batch(batches[f], m)[i].mod == m
  }

  lemma {:induction false} HeardIs(digests: seq<map<string, Digest>>, batches: seq<Notify.Pending>, k: Key)
    requires Notify.Digested(batches, digests) && OwnBatches(batches, k.0)
    ensures var kinds := LastKinds(batches, k);
            HeardLast(digests, k) == if kinds == [] then None
                                     else Some(if ResolvedEvent in kinds then ResolvedEvent else OpenedEvent)
  {
    if batches != [] {
      var n := |batches| - 1;
      BatchDigest(batches[n], k);
      assert digests[n] == Notify.DigestsOf(batches[n]);
      HeardIs(digests[..n], batches[..n], k);
      hide BatchKinds, Mentions, HeardIn, Notify.DigestsOf;
    }
  }

  lemma InvHeard(c: Notify.Config, s: Notify.State, k: Key)
    requires Notify.Inv(c, s)
    ensures var kinds := KindsNow(s, k);
            Heard(s, k) == if kinds == [] then None
                           else Some(if ResolvedEvent in kinds then ResolvedEvent else OpenedEvent)
  {
    assert Notify.Digested(s.flushes, s.digests) && Notify.AllFiled(s.flushes) && Notify.Filed(s.pending);
    var batches := s.flushes + [s.pending];
    hide Notify.Inv, Notify.Waiting, Notify.Accounted;
    assert OwnBatches(batches, k.0) by { hide Notify.Distinct, Notify.Digested; }
    Notify.DigestedSnoc(s.flushes, s.digests, s.pending);
    hide Notify.Digested, Notify.AllFiled, Notify.Filed, OwnBatches, Notify.DigestsOf;
    HeardIs(s.digests + [Notify.DigestsOf(s.pending)], batches, k);
  }

  // ---- batches follow the offers --------------------------------------------------------------

  /** What the offers and the window say about the last batch with the finding. */
  predicate Carried(offered: seq<Kind>, window: nat, kinds: seq<Kind>)
  {
    if offered == [] then kinds == []
    else
      && window >= 1
      && (window == 1 ==> kinds == [Last(offered)])
      && (window >= 2 ==> OpenedEvent in kinds && ResolvedEvent in kinds)
  }

  predicate Matches(s: Notify.State, k: Key) { Waits(s.seen, k) <==> BatchKinds(s.pending, k) != [] }

  lemma KindsSplit(s: Notify.State, k: Key)
    ensures KindsNow(s, k) ==
            if BatchKinds(s.pending, k) != [] then BatchKinds(s.pending, k) else LastKinds(s.flushes, k)
  {
    assert (s.flushes + [s.pending])[..|s.flushes|] == s.flushes;
    hide BatchKinds;
  }

  lemma FlushView(c: Notify.Config, s: Notify.State, k: Key)
    requires Matches(s, k)
    ensures var t := Notify.Flushed(c, s); Matches(t, k) && KindsNow(t, k) == KindsNow(s, k)
  {
    Notify.FlushParts(c, s);
    var t := Notify.Flushed(c, s);
    assert BatchKinds(map[], k) == [];
    KindsSplit(s, k);
    KindsSplit(t, k);
    hide Notify.Flushed, BatchKinds, KindsNow;
    assert (s.flushes + [s.pending])[..|s.flushes|] == s.flushes && s.flushes + [] == s.flushes;
  }

  lemma GrownView(s: Notify.State, e: Event, k: Key)
    ensures BatchKinds(Notify.Grown(s, e).pending, k) ==
            BatchKinds(s.pending, k) + (if About(e, k) then [e.kind] else [])
    ensures Notify.Grown(s, e).flushes == s.flushes && Notify.Grown(s, e).seen == s.seen + {Notify.EventKey(e)}
  {
    KindsSnoc(Notify.Batch(s.pending, e.mod), [e], k);
    assert BatchKinds(s.pending, k) + [] == BatchKinds(s.pending, k);
    hide KindsAbout, Notify.EventKey;
  }

  /** Accepting a notice about the finding puts it in the batch, and changes nothing else. */
  lemma EnqueueView(c: Notify.Config, s: Notify.State, e: Event, k: Key)
    requires '|' !in k.0 && '|' !in e.mod && Matches(s, k) && Notify.Accepts(c, s, e)
    ensures var t := Notify.Enqueued(c, s, e);
            && Matches(t, k)
            && KindsNow(t, k) == if About(e, k) then BatchKinds(s.pending, k) + [e.kind] else KindsNow(s, k)
  {
    var g := Notify.Grown(s, e);
    Notify.EnqueueCases(c, s, e);
    GrownView(s, e, k);
    KeysOfNotices(e, k);
    hide NoticeKey, BatchKinds, Notify.Accepts, Notify.Grown, Notify.Flushed, Notify.Enqueued, Notify.Total,
         Notify.EventKey;
    assert Matches(g, k);
    KindsSplit(g, k);
    KindsSplit(s, k);
    FlushView(c, g, k);
    KindsSplit(g.(timer := true), k);
  }

  lemma OfferCarries(offered: seq<Kind>, window: nat, seen: set<string>, told: seq<Kind>, k: Key, x: Kind,
                     batch: seq<Kind>, kinds: seq<Kind>)
    requires Tracks(offered, window, seen, told, k) && Carried(offered, window, kinds)
    requires offered != [] ==> x == Other(Last(offered))
    requires Waits(seen, k) <==> batch != []
    requires batch != [] ==> kinds == batch
    ensures Carried(offered + [x], if Waits(seen, k) then window + 1 else 1,
                    if NoticeKey(x, k) in seen then kinds else batch + [x])
  {
    KeysDiffer(k);
    hide NoticeKey;
  }

  ghost predicate Followed(c: Notify.Config, steps: seq<Notify.Step>, k: Key)
  {
    var s := Notify.Run(c, steps);
    Matches(s, k) && Carried(Offered(steps, k), Window(c, steps, k), KindsNow(s, k))
  }

  lemma FollowedOffer(c: Notify.Config, before: seq<Notify.Step>, step: Notify.Step, k: Key)
    requires '|' !in k.0 && Ordinary(c, step, k) && Offers(step, k) && Tracked(c, before, k) && Followed(c, before, k)
    requires Offered(before, k) != [] ==> step.event.kind == Other(Last(Offered(before, k)))
    ensures Followed(c, before + [step], k)
  {
    var s, e := Notify.Run(c, before), step.event;
    hide Tracks, Carried, Matches, NoticeKey, Waits, Offered, Told, Window, Notify.Run, BatchKinds, KindsNow, Other,
         Last, Notify.Accepted;
    OfferSeen(c, s, step, k);
    OfferParts(c, before, step, k);
    KindsSplit(s, k);
    MatchesMeans(s, k);
    OfferCarries(Offered(before, k), Window(c, before, k), s.seen, Told(c, before, k), k, e.kind,
                 BatchKinds(s.pending, k), KindsNow(s, k));
    AcceptedMeans(c, s, step);
    hide Notify.Enqueued, Notify.Accepts, Ordinary;
    if NoticeKey(e.kind, k) !in s.seen {
      OrdinaryMod(c, step, k);
      EnqueueView(c, s, e, k);
    }
  }

  lemma MatchesMeans(s: Notify.State, k: Key)
    requires Matches(s, k)
    ensures Waits(s.seen, k) <==> BatchKinds(s.pending, k) != []
  {
  }

  lemma OrdinaryMod(c: Notify.Config, step: Notify.Step, k: Key)
    requires Ordinary(c, step, k) && step.Enqueue?
    ensures '|' !in step.event.mod
  {
  }

  lemma AcceptedMeans(c: Notify.Config, s: Notify.State, step: Notify.Step)
    requires step.Enqueue?
    ensures Notify.Accepted(c, s, step) != [] <==> Notify.Accepts(c, s, step.event)
    ensures Notify.Next(c, s, step) == Notify.Enqueued(c, s, step.event)
    ensures !Notify.Accepts(c, s, step.event) ==> Notify.Enqueued(c, s, step.event) == s
  {
    hide Notify.Total, Notify.Flushed, Notify.Grown, Notify.PassesSeverity;
  }

  lemma FollowedOther(c: Notify.Config, before: seq<Notify.Step>, step: Notify.Step, k: Key)
    requires '|' !in k.0 && Ordinary(c, step, k) && !Offers(step, k) && Followed(c, before, k)
    ensures Followed(c, before + [step], k)
  {
    var s := Notify.Run(c, before);
    SnocParts(c, before, step, k);
    OtherView(c, s, step, k);
    hide Carried, Matches, Offered, Told, Window, Notify.Run, KindsNow, Notify.Next, Notify.Accepted, Ordinary;
    assert Offered(before, k) + [] == Offered(before, k);
  }

  lemma OtherView(c: Notify.Config, s: Notify.State, step: Notify.Step, k: Key)
    requires '|' !in k.0 && Ordinary(c, step, k) && !Offers(step, k) && Matches(s, k)
    ensures var t := Notify.Next(c, s, step); Matches(t, k) && KindsNow(t, k) == KindsNow(s, k)
  {
    match step
    case Enqueue(e) =>
      AcceptedMeans(c, s, step);
      hide Notify.Enqueued, Notify.Accepts, KindsNow, Matches;
      if Notify.Accepts(c, s, e) { EnqueueView(c, s, e, k); }
    case Flush => FlushView(c, s, k);
    case SendDone(j, outcome) => hide BatchKinds, LastKinds;
    case CloseReturn =>
    case CloseBegin =>
  }

  /** Along every run with alternating offers the last batch with the finding has the one
      notice offered to it, or both kinds. */
  lemma {:induction false} OffersFollowed(c: Notify.Config, steps: seq<Notify.Step>, k: Key)
    requires '|' !in k.0 && AllOrdinary(c, steps, k) && Alternating(Offered(steps, k))
    ensures Followed(c, steps, k)
  {
    if steps != [] {
      var n := |steps| - 1;
      var before, step := steps[..n], steps[n];
      assert steps == before + [step] && Ordinary(c, step, k);
      SnocParts(c, before, step, k);
      AlternatingBefore(Offered(before, k), Offered(steps, k));
      OffersFollowed(c, before, k);
      OffersTracked(c, before, k);
      hide Followed, Tracked, Ordinary, Offered, Told, Window, Notify.Run, Notify.Next, Alternating;
      if Offers(step, k) { FollowedOffer(c, before, step, k); } else { FollowedOther(c, before, step, k); }
    } else {
      KindsSplit(Notify.INITIAL, k);
      assert BatchKinds(map[], k) == [] && LastKinds([], k) == [] && Offered([], k) == [];
    }
  }

  // ---- the reader and the record ------------------------------------------------------------

  function KindOf(note: Lifecycle.Note): Kind { if note == Lifecycle.OpenedNote then OpenedEvent else ResolvedEvent }

  function KindsOf(notes: seq<Lifecycle.Note>): seq<Kind>
  {
    seq(|notes|, i requires 0 <= i < |notes| => KindOf(notes[i]))
  }

  /** What the reader last hears of the finding is what the record says. */
  ghost predicate InForm(t: Table, heard: Option<Kind>, k: Key)
  {
    Lifecycle.Unresolved(t, k) <==> heard == Some(OpenedEvent)
  }

  /** Nothing was offered, the last batch with the finding was offered one notice about it,
      or the last notice is a resolution. */
  predicate EndsWell(offered: seq<Kind>, window: nat)
  {
    offered == [] || window == 1 || Last(offered) == ResolvedEvent
  }

  /** A dispatcher that is offered the engine's notices of a finding leaves the reader of
      its digests with the record's status exactly when the last batch that has the finding
      was offered a single notice about it, or the last notice is a resolution. */
  lemma ReaderInForm(c: Notify.Config, steps: seq<Notify.Step>, events: seq<Lifecycle.Event>,
                     owner: Lifecycle.Owner, k: Key)
    requires c.maxBatch > 0 && Notify.Legal(c, steps) && '|' !in k.0 && AllOrdinary(c, steps, k)
    requires Lifecycle.CoherentRun(events, owner) && Lifecycle.SparesResolved(events, k)
    requires Offered(steps, k) == KindsOf(Lifecycle.History(events, k))
    ensures InForm(Lifecycle.Run(events), Heard(Notify.Run(c, steps), k), k) <==>
              EndsWell(Offered(steps, k), Window(c, steps, k))
  {
    hide *;
    var notes, t := Lifecycle.History(events, k), Lifecycle.Run(events);
    Lifecycle.NotificationsAlternate(events, owner, k);
    NotesAlternate(notes);
    OffersFollowed(c, steps, k);
    Notify.AlwaysInv(c, steps);
    InvHeard(c, Notify.Run(c, steps), k);
    FollowedInForm(c, steps, k, t, notes);
  }

  lemma NotesAlternate(notes: seq<Lifecycle.Note>)
    requires Lifecycle.Alternates(notes)
    ensures Alternating(KindsOf(notes))
  {
  }

  lemma FollowedInForm(c: Notify.Config, steps: seq<Notify.Step>, k: Key, t: Table, notes: seq<Lifecycle.Note>)
    requires Followed(c, steps, k) && Offered(steps, k) == KindsOf(notes) && Lifecycle.InStep(t, notes, k)
    requires var s := Notify.Run(c, steps); var kinds := KindsNow(s, k);
             Heard(s, k) == if kinds == [] then None
                            else Some(if ResolvedEvent in kinds then ResolvedEvent else OpenedEvent)
    ensures InForm(t, Heard(Notify.Run(c, steps), k), k) <==> EndsWell(Offered(steps, k), Window(c, steps, k))
  {
    hide Offered, Window, Notify.Run, Lifecycle.Unresolved, KindsNow, Heard, Matches;
  }

  /** A digest does not keep the order of what it reports. */
  lemma DigestsForgetOrder(m: string, f: Finding)
    ensures var o, r := Event(OpenedEvent, m, f), Event(ResolvedEvent, m, f);
            DigestOf(m, [o, r]) == DigestOf(m, [r, o])
  {
    var o, r := Event(OpenedEvent, m, f), Event(ResolvedEvent, m, f);
    assert [o, r] == [o] + [r] && [r, o] == [r] + [o];
    KindSnoc([], o);
    KindSnoc([], r);
    KindSnoc([o], r);
    KindSnoc([r], o);
    assert [] + [o] == [o] && [] + [r] == [r];
  }

  lemma KindSnoc(events: seq<Event>, e: Event)
    ensures OfKind(events + [e], e.kind) == OfKind(events, e.kind) + [e.finding]
    ensures OfKind(events + [e], Other(e.kind)) == OfKind(events, Other(e.kind))
  {
    assert (events + [e])[..|events|] == events;
  }

  // ---- a lost reopening -----------------------------------------------------------------------

  lemma TotalAdded(p: Notify.Pending, e: Event)
    ensures Notify.Total(Notify.Added(p, e)) == Notify.Total(p) + 1
  {
    var q := Notify.Added(p, e);
    var rest := p.Keys - {e.mod};
    SumCongruence(rest, Notify.Sizes(p), Notify.Sizes(q));
    SumRemove(q.Keys, e.mod, Notify.Sizes(q));
    assert q.Keys - {e.mod} == rest;
    if e.mod in p {
      SumRemove(p.Keys, e.mod, Notify.Sizes(p));
    } else {
      assert rest == p.Keys;
    }
  }

  lemma EnqueueStays(c: Notify.Config, s: Notify.State, e: Event)
    requires Notify.Accepts(c, s, e) && Notify.Total(s.pending) + 1 < c.maxBatch
    ensures Notify.Enqueued(c, s, e) == Notify.Grown(s, e).(timer := true)
    ensures Notify.Total(Notify.Enqueued(c, s, e).pending) == Notify.Total(s.pending) + 1
  {
    TotalAdded(s.pending, e);
    hide Notify.Total, Notify.Added, Notify.Accepts, Notify.Flushed;
  }

  /** Opened, resolved and opened again within one batch: the reader hears "resolved" last. */
  lemma ReopeningLost(c: Notify.Config, f: Finding, mod: string)
    requires c.maxBatch > 2 && c.minSeverity.None? && '|' !in mod
    ensures var o, r := Notify.Enqueue(Event(OpenedEvent, mod, f)), Notify.Enqueue(Event(ResolvedEvent, mod, f));
            Told(c, [o, r, o], (mod, f.fingerprint)) == [OpenedEvent, ResolvedEvent]
  {
    var k := (mod, f.fingerprint);
    var e, g := Event(OpenedEvent, mod, f), Event(ResolvedEvent, mod, f);
    var o, r := Notify.Enqueue(e), Notify.Enqueue(g);
    assert Notify.Run(c, []) == Notify.INITIAL && Told(c, [], k) == [] && Offered([], k) == [];
    assert Rests(Notify.INITIAL) && About(e, k);
    assert [] + [o] + [r] + [o] == [o, r, o];
    hide *;
    LostBatch(c, [], e, g, k, []);
    assert [] + [OpenedEvent] + [ResolvedEvent] == [OpenedEvent, ResolvedEvent];
  }

  lemma LostBatch(c: Notify.Config, before: seq<Notify.Step>, e: Event, g: Event, k: Key, kinds: seq<Kind>)
    requires c.maxBatch > 2 && c.minSeverity.None? && '|' !in e.mod && About(e, k)
    requires e.kind == OpenedEvent && g == e.(kind := ResolvedEvent)
    requires Rests(Notify.Run(c, before)) && Offered(before, k) == kinds && Told(c, before, k) == kinds
    ensures Told(c, before + [Notify.Enqueue(e)] + [Notify.Enqueue(g)] + [Notify.Enqueue(e)], k) ==
            kinds + [OpenedEvent] + [ResolvedEvent]
  {
    var o, r, s := Notify.Enqueue(e), Notify.Enqueue(g), Notify.Run(c, before);
    assert Offers(o, k) && Offers(r, k);
    hide *;
    LostStates(c, s, e, g);
    TellStep(c, before, o, k, kinds);
    TellStep(c, before + [o], r, k, kinds + [OpenedEvent]);
    DropStep(c, before + [o] + [r], o, k);
  }

  lemma LostStates(c: Notify.Config, s: Notify.State, e: Event, g: Event)
    requires c.maxBatch > 2 && c.minSeverity.None? && '|' !in e.mod && Rests(s)
    requires e.kind == OpenedEvent && g == e.(kind := ResolvedEvent)
    ensures var o, r := Notify.Enqueue(e), Notify.Enqueue(g);
            var t := Notify.Next(c, s, o);
            && Notify.Accepted(c, s, o) != [] && Notify.Accepted(c, t, r) != []
            && Notify.Accepted(c, Notify.Next(c, t, r), o) == []
  {
    Notify.KeyIdentifiesEvent(e, g);
    FirstStays(c, s, e);
    var t := Notify.Enqueued(c, s, e);
    assert Notify.Accepts(c, t, g);
    EnqueueStays(c, t, g);
    AcceptedMeans(c, s, Notify.Enqueue(e));
    AcceptedMeans(c, t, Notify.Enqueue(g));
    assert Notify.EventKey(e) in Notify.Grown(t, g).(timer := true).seen;
    AcceptedMeans(c, Notify.Grown(t, g).(timer := true), Notify.Enqueue(e));
    hide Notify.Enqueued, Notify.EventKey, Notify.Next, Notify.Total;
  }

  /** A notice about the finding that is not accepted. */
  lemma DropStep(c: Notify.Config, before: seq<Notify.Step>, step: Notify.Step, k: Key)
    requires Offers(step, k) && Notify.Accepted(c, Notify.Run(c, before), step) == []
    ensures Told(c, before + [step], k) == Told(c, before, k)
  {
    hide *;
    SnocParts(c, before, step, k);
    assert Told(c, before, k) + [] == Told(c, before, k);
  }

  /** Opened in an earlier batch, then resolved and opened again within the next: the
      record is open, and the digest is the one a resolved record would have. */
  lemma ReopeningUnheard(c: Notify.Config, f: Finding, mod: string)
    requires c.maxBatch > 2 && c.minSeverity.None? && '|' !in mod
    ensures var o, r := Notify.Enqueue(Event(OpenedEvent, mod, f)), Notify.Enqueue(Event(ResolvedEvent, mod, f));
            var steps, k := [o, Notify.Flush, r, o], (mod, f.fingerprint);
            && Offered(steps, k) == [OpenedEvent, ResolvedEvent, OpenedEvent]
            && Told(c, steps, k) == [OpenedEvent, ResolvedEvent, OpenedEvent]
            && Heard(Notify.Run(c, steps), k) == Some(ResolvedEvent)
  {
    var e, g, k := Event(OpenedEvent, mod, f), Event(ResolvedEvent, mod, f), (mod, f.fingerprint);
    var o, r := Notify.Enqueue(e), Notify.Enqueue(g);
    var steps := [o, Notify.Flush, r, o];
    assert steps == [] + [o] + [Notify.Flush] + [r] + [o];
    assert Alternating([OpenedEvent, ResolvedEvent, OpenedEvent]);
    UnheardLegal(c, e, g, k);
    hide *;
    UnheardHistory(c, e, g, k);
    OffersFollowed(c, steps, k);
    Notify.AlwaysInv(c, steps);
    InvHeard(c, Notify.Run(c, steps), k);
    FollowedBoth(c, steps, k);
  }

  lemma UnheardLegal(c: Notify.Config, e: Event, g: Event, k: Key)
    requires c.minSeverity.None? && '|' !in e.mod && e.mod == g.mod
    ensures var steps := [Notify.Enqueue(e), Notify.Flush, Notify.Enqueue(g), Notify.Enqueue(e)];
            Notify.Legal(c, steps) && AllOrdinary(c, steps, k)
  {
    hide Notify.Run;
  }

  /** An open dispatcher with nothing waiting. */
  predicate Rests(s: Notify.State) { !s.closed && s.seen == {} && s.pending == map[] }

  lemma UnheardHistory(c: Notify.Config, e: Event, g: Event, k: Key)
    requires c.maxBatch > 2 && c.minSeverity.None? && '|' !in e.mod && About(e, k)
    requires e.kind == OpenedEvent && g == e.(kind := ResolvedEvent)
    ensures var steps := [] + [Notify.Enqueue(e)] + [Notify.Flush] + [Notify.Enqueue(g)] + [Notify.Enqueue(e)];
            && Offered(steps, k) == [OpenedEvent, ResolvedEvent, OpenedEvent]
            && Told(c, steps, k) == [OpenedEvent, ResolvedEvent, OpenedEvent] && Window(c, steps, k) == 2
  {
    hide *;
    FirstBatch(c, e, k);
    SecondBatch(c, [] + [Notify.Enqueue(e)] + [Notify.Flush], e, g, k, [OpenedEvent]);
    assert [OpenedEvent] + [ResolvedEvent] + [OpenedEvent] == [OpenedEvent, ResolvedEvent, OpenedEvent];
  }

  lemma FirstBatch(c: Notify.Config, e: Event, k: Key)
    requires c.maxBatch > 2 && c.minSeverity.None? && About(e, k) && e.kind == OpenedEvent
    ensures var steps := [] + [Notify.Enqueue(e)] + [Notify.Flush];
            Offered(steps, k) == [OpenedEvent] && Told(c, steps, k) == [OpenedEvent] && Rests(Notify.Run(c, steps))
  {
    var o := Notify.Enqueue(e);
    assert Offers(o, k) && !Offers(Notify.Flush, k) && Rests(Notify.INITIAL);
    assert Offered([], k) == [] && Told(c, [], k) == [] && Notify.Run(c, []) == Notify.INITIAL;
    hide *;
    FirstStays(c, Notify.INITIAL, e);
    AcceptedMeans(c, Notify.INITIAL, o);
    TellStep(c, [], o, k, []);
    QuietStep(c, [] + [o], Notify.Flush, k);
    FlushRests(c, Notify.Enqueued(c, Notify.INITIAL, e));
    assert [] + [OpenedEvent] == [OpenedEvent];
  }

  lemma FlushRests(c: Notify.Config, s: Notify.State)
    requires !s.closed && s.pending != map[]
    ensures Rests(Notify.Next(c, s, Notify.Flush))
  {
    Notify.FlushParts(c, s);
    hide Notify.Flushed;
  }

  lemma SecondBatch(c: Notify.Config, before: seq<Notify.Step>, e: Event, g: Event, k: Key, kinds: seq<Kind>)
    requires c.maxBatch > 2 && c.minSeverity.None? && '|' !in e.mod && About(e, k)
    requires e.kind == OpenedEvent && g == e.(kind := ResolvedEvent)
    requires Rests(Notify.Run(c, before)) && Offered(before, k) == kinds && Told(c, before, k) == kinds
    ensures var steps := before + [Notify.Enqueue(g)] + [Notify.Enqueue(e)];
            && Offered(steps, k) == kinds + [ResolvedEvent] + [OpenedEvent]
            && Told(c, steps, k) == kinds + [ResolvedEvent] + [OpenedEvent] && Window(c, steps, k) == 2
  {
    var o, r, s := Notify.Enqueue(e), Notify.Enqueue(g), Notify.Run(c, before);
    assert Offers(o, k) && Offers(r, k) && !Waits({}, k);
    hide *;
    SecondStates(c, s, e, g, k);
    TellStep(c, before, r, k, kinds);
    TellStep(c, before + [r], o, k, kinds + [ResolvedEvent]);
  }

  lemma SecondStates(c: Notify.Config, s: Notify.State, e: Event, g: Event, k: Key)
    requires c.maxBatch > 2 && c.minSeverity.None? && '|' !in e.mod && About(e, k)
    requires e.kind == OpenedEvent && g == e.(kind := ResolvedEvent) && Rests(s)
    ensures var o, r := Notify.Enqueue(e), Notify.Enqueue(g);
            var t := Notify.Next(c, s, r);
            && s.seen == {} && Notify.Accepted(c, s, r) != [] && Notify.Accepted(c, t, o) != [] && Waits(t.seen, k)
  {
    Notify.KeyIdentifiesEvent(e, g);
    KeysOfNotices(g, k);
    FirstStays(c, s, g);
    AcceptedMeans(c, s, Notify.Enqueue(g));
    hide Notify.Enqueued, Notify.EventKey, NoticeKey, Notify.Next;
  }

  /** A notice about the finding that is accepted. */
  lemma TellStep(c: Notify.Config, before: seq<Notify.Step>, step: Notify.Step, k: Key, kinds: seq<Kind>)
    requires Offers(step, k) && Notify.Accepted(c, Notify.Run(c, before), step) != []
    requires Offered(before, k) == kinds && Told(c, before, k) == kinds
    ensures Offered(before + [step], k) == kinds + [step.event.kind]
    ensures Told(c, before + [step], k) == kinds + [step.event.kind]
    ensures Notify.Run(c, before + [step]) == Notify.Next(c, Notify.Run(c, before), step)
    ensures Window(c, before + [step], k) ==
            if Waits(Notify.Run(c, before).seen, k) then Window(c, before, k) + 1 else 1
  {
    hide *;
    SnocParts(c, before, step, k);
  }

  /** A step that offers nothing about it. */
  lemma QuietStep(c: Notify.Config, before: seq<Notify.Step>, step: Notify.Step, k: Key)
    requires !Offers(step, k)
    ensures Offered(before + [step], k) == Offered(before, k) && Told(c, before + [step], k) == Told(c, before, k)
    ensures Notify.Run(c, before + [step]) == Notify.Next(c, Notify.Run(c, before), step)
    ensures Window(c, before + [step], k) == Window(c, before, k)
  {
    hide *;
    SnocParts(c, before, step, k);
    assert Offered(before, k) + [] == Offered(before, k) && Told(c, before, k) + [] == Told(c, before, k);
  }

  lemma FollowedBoth(c: Notify.Config, steps: seq<Notify.Step>, k: Key)
    requires Followed(c, steps, k) && Offered(steps, k) != [] && Window(c, steps, k) >= 2
    ensures ResolvedEvent in KindsNow(Notify.Run(c, steps), k)
  {
    hide Offered, Window, Notify.Run, KindsNow, Matches;
  }

  /** An open dispatcher with nothing waiting takes a notice and keeps it waiting. */
  lemma FirstStays(c: Notify.Config, s: Notify.State, e: Event)
    requires c.maxBatch > 2 && c.minSeverity.None? && Rests(s)
    ensures Notify.Accepts(c, s, e)
    ensures var t := Notify.Enqueued(c, s, e); t.seen == {Notify.EventKey(e)} && t.pending != map[] && !t.closed
    ensures Notify.Total(Notify.Enqueued(c, s, e).pending) == 1
  {
    Notify.NoneTotal();
    EnqueueStays(c, s, e);
    assert e.mod in Notify.Added(s.pending, e);
    hide Notify.Total, Notify.EventKey;
  }
}
