// What redelivery does to the store: messages are keyed overwrites and deletes, and every partition of
// Delivery.dfy writes to the one store.
module Redelivery {
  import opened Prelude
  import opened Delivery

  // ---- re-delivery of keyed overwrites ----

  /** The first n messages of a log applied to a store, one after the other. */
  function Fold(store: map<string, string>, log: seq<Msg>, n: nat): map<string, string>
    requires n <= |log|
  {
    if n == 0 then store else Effect(Fold(store, log, n - 1), log[n - 1])
  }

  function Lookup(store: map<string, string>, key: string): Option<string> {
    if key in store then Some(store[key]) else None
  }

  function High(lives: seq<Stretch>): nat {
    if lives == [] then 0
    else
      var h, to := High(lives[..|lives| - 1]), lives[|lives| - 1].to;
      if h < to then to else h
  }

  ghost predicate AsOf(q: Partition, key: string, t: nat) {
    t <= |q.log| && Lookup(q.own, key) == Lookup(Fold(map[], q.log, t), key)
  }

  /** Each key of the store looks as after some prefix of the log that reaches at least to the
      frontier and at most as far as any life has got. */
  ghost predicate SyncedAt(phase: Phase, p: nat, q: Partition, key: string, t: nat) {
    AsOf(q, key, t) && Frontier(phase, p, q) <= t <= High(q.lives)
  }

  ghost predicate KeySynced(phase: Phase, p: nat, q: Partition, key: string) {
    exists t: nat :: SyncedAt(phase, p, q, key, t)
  }

  ghost predicate Synced(phase: Phase, p: nat, q: Partition) {
    forall key :: KeySynced(phase, p, q, key)
  }

  lemma {:induction false} FoldOfPrefix(log: seq<Msg>, more: seq<Msg>, n: nat)
    requires n <= |log| && log <= more
    ensures Fold(map[], more, n) == Fold(map[], log, n)
  {
    if n > 0 { FoldOfPrefix(log, more, n - 1); }
  }

  lemma {:induction false} HighBounds(lives: seq<Stretch>)
    ensures forall k :: 0 <= k < |lives| ==> lives[k].to <= High(lives)
    ensures High(lives) > 0 ==> exists k :: 0 <= k < |lives| && lives[k].to == High(lives)
  {
    if lives != [] {
      var front := lives[..|lives| - 1];
      HighBounds(front);
      if High(lives) > 0 {
        if High(front) < lives[|lives| - 1].to {
          assert lives[|lives| - 1].to == High(lives);
        } else {
          var k :| 0 <= k < |front| && front[k].to == High(front);
          assert lives[k].to == High(lives);
        }
      }
    }
  }

  /** A message sets the value of its own key whatever was there, and no other. */
  predicate KeyIs(m: Msg, key: string) { m.key == key }

  lemma EffectIsKeyed(a: map<string, string>, b: map<string, string>, m: Msg, key: string)
    ensures KeyIs(m, key) ==> Lookup(Effect(a, m), key) == Lookup(Effect(b, m), key)
    ensures !KeyIs(m, key) ==> Lookup(Effect(a, m), key) == Lookup(a, key)
  {}

  /** The effect of the message at the frontier, once or again. */
  lemma AttemptKeepsSync(q: Partition, o: nat, key: string, t: nat, ok: bool, effect: bool) returns (t': nat)
    requires AsOf(q, key, t) && o <= t && o < |q.log| && (ok || effect)
    ensures AsOf(Attempted(q, o, ok, effect), key, t') && o + 1 <= t' && (t' == t || t' == o + 1)
  {
    var m := q.log[o];
    EffectIsKeyed(q.own, Fold(map[], q.log, o), m, key);
    EffectIsKeyed(Fold(map[], q.log, o), Fold(map[], q.log, o), m, key);
    t' := if KeyIs(m, key) || t == o then o + 1 else t;
  }

  lemma HighAfterReopen(q: Partition)
    ensures High(Reopened(q).lives) >= High(q.lives)
  {
    assert Reopened(q).lives[..|q.lives|] == q.lives;
  }

  lemma HighAfterFetch(q: Partition)
    requires Shaped(q) && q.lives != []
    ensures High(Fetched(q).lives) >= High(q.lives)
  {
    assert Fetched(q).lives[..|q.lives| - 1] == q.lives[..|q.lives| - 1];
  }

  lemma PositionIsNotAboveHigh(q: Partition)
    requires Shaped(q)
    ensures q.position <= High(q.lives)
  {
    HighBounds(q.lives);
  }

  lemma AttemptKeepsSynced(s: Sys, step: Step, p: nat, key: string, t: nat) returns (t': nat)
    requires p < |s.parts| && Kept(s.phase, p, s.parts[p]) && Shaped(s.parts[p]) && step.Attempt?
    requires SyncedAt(s.phase, p, s.parts[p], key, t)
    ensures SyncedAt(Apply(s, step).phase, p, Apply(s, step).parts[p], key, t')
  {
    t' := t;
    PositionIsNotAboveHigh(s.parts[p]);
    if s.phase.Handling? && s.phase.p == p && (step.ok || step.effect) {
      t' := AttemptKeepsSync(s.parts[p], s.phase.offset, key, t, step.ok, step.effect);
    }
  }

  /** A step that is no handler call does not move the frontier up, except over a message that has
      been dead-lettered, and leaves this store alone. */
  lemma OtherStepsKeepFrontier(s: Sys, step: Step, p: nat)
    requires p < |s.parts| && Kept(s.phase, p, s.parts[p]) && !step.Attempt? && Apply(s, step).parts[p].dead == {}
    ensures Frontier(Apply(s, step).phase, p, Apply(s, step).parts[p]) <= Frontier(s.phase, p, s.parts[p])
    ensures Apply(s, step).parts[p].own == s.parts[p].own && s.parts[p].log <= Apply(s, step).parts[p].log
  {}

  lemma OtherStepsKeepHigh(s: Sys, step: Step, p: nat)
    requires p < |s.parts| && Shaped(s.parts[p])
    ensures High(s.parts[p].lives) <= High(Apply(s, step).parts[p].lives)
  {
    var q := s.parts[p];
    if step.Restart? { HighAfterReopen(q); }
    if step.Fetch? && q.lives != [] { HighAfterFetch(q); }
  }

  lemma OtherStepsKeepSynced(s: Sys, step: Step, p: nat, key: string, t: nat)
    requires p < |s.parts| && Kept(s.phase, p, s.parts[p]) && Shaped(s.parts[p]) && !step.Attempt?
    requires SyncedAt(s.phase, p, s.parts[p], key, t) && Apply(s, step).parts[p].dead == {}
    ensures SyncedAt(Apply(s, step).phase, p, Apply(s, step).parts[p], key, t)
  {
    OtherStepsKeepFrontier(s, step, p);
    OtherStepsKeepHigh(s, step, p);
    FoldOfPrefix(s.parts[p].log, Apply(s, step).parts[p].log, t);
  }

  ghost predicate AllSynced(s: Sys) {
    forall p :: 0 <= p < |s.parts| && s.parts[p].dead == {} ==> Synced(s.phase, p, s.parts[p])
  }

  lemma ApplyKeepsSync(s: Sys, step: Step)
    requires AllKept(s) && AllShaped(s) && AllSynced(s)
    ensures AllSynced(Apply(s, step))
  {
    var r := Apply(s, step);
    forall p | 0 <= p < |s.parts| && r.parts[p].dead == {} ensures Synced(r.phase, p, r.parts[p]) {
      assert Kept(s.phase, p, s.parts[p]) && Shaped(s.parts[p]);
      DeadOnlyGrows(s, step, p);
      forall key ensures KeySynced(r.phase, p, r.parts[p], key) {
        assert KeySynced(s.phase, p, s.parts[p], key);
        var t: nat :| SyncedAt(s.phase, p, s.parts[p], key, t);
        if step.Attempt? {
          t := AttemptKeepsSynced(s, step, p, key, t);
        } else {
          OtherStepsKeepSynced(s, step, p, key, t);
        }
        assert SyncedAt(r.phase, p, r.parts[p], key, t);
      }
    }
  }

  lemma DeadOnlyGrows(s: Sys, step: Step, p: nat)
    requires p < |s.parts|
    ensures s.parts[p].dead <= Apply(s, step).parts[p].dead
  {}

  lemma {:induction false} AlwaysSynced(n: nat, steps: seq<Step>)
    ensures AllSynced(After(n, steps))
  {
    if steps == [] {
      forall p, key | 0 <= p < n ensures KeySynced(Down, p, FRESH, key) { assert SyncedAt(Down, p, FRESH, key, 0); }
    } else {
      AlwaysKept(n, steps[..|steps| - 1]);
      AlwaysShapedAndCounted(n, steps[..|steps| - 1]);
      AlwaysSynced(n, steps[..|steps| - 1]);
      ApplyKeepsSync(After(n, steps[..|steps| - 1]), steps[|steps| - 1]);
    }
  }

  // ---- the store that the partitions share ----

  ghost predicate OccursIn(log: seq<Msg>, key: string) {
    exists o :: 0 <= o < |log| && log[o].key == key
  }

  /** What is recorded of effects: a handled message has touched its key, and only keys of the log
      are touched. */
  ghost predicate Touching(q: Partition) {
    && (forall o :: o in q.handled ==> o < |q.log| && q.log[o].key in q.touched)
    && (forall key :: key in q.touched ==> OccursIn(q.log, key))
  }

  /** The partition has touched the key, and as far as it goes the shared store is as if the partition
      had it for itself. */
  predicate DecidedBy(s: Sys, p: nat, key: string) {
    p < |s.parts| && key in s.parts[p].touched && Lookup(s.store, key) == Lookup(s.parts[p].own, key)
  }

  ghost predicate Untouched(s: Sys, key: string) {
    key !in s.store && forall p :: 0 <= p < |s.parts| ==> key !in s.parts[p].touched
  }

  ghost predicate SharedAt(s: Sys, key: string) {
    Untouched(s, key) || exists p: nat :: DecidedBy(s, p, key)
  }

  ghost predicate SharedOk(s: Sys) {
    (forall p :: 0 <= p < |s.parts| ==> Touching(s.parts[p])) && forall key :: SharedAt(s, key)
  }

  lemma AttemptedTouches(q: Partition, offset: nat, ok: bool, effect: bool)
    requires Touching(q) && offset < |q.log|
    ensures Touching(Attempted(q, offset, ok, effect))
  {
    var r := Attempted(q, offset, ok, effect);
    forall key | key in r.touched ensures OccursIn(r.log, key) {
      if key !in q.touched { assert r.log[offset].key == key; }
    }
  }

  lemma ProducedTouches(q: Partition, msg: Msg)
    requires Touching(q)
    ensures Touching(q.(log := q.log + [msg]))
  {
    forall key | key in q.touched ensures OccursIn(q.log + [msg], key) {
      var o :| 0 <= o < |q.log| && q.log[o].key == key;
      assert (q.log + [msg])[o].key == key;
    }
  }

  lemma ApplyKeepsTouching(s: Sys, step: Step, p: nat)
    requires p < |s.parts| && Kept(s.phase, p, s.parts[p]) && Touching(s.parts[p])
    ensures Touching(Apply(s, step).parts[p])
  {
    if step.Produce? && step.p == p { ProducedTouches(s.parts[p], step.msg); }
    if step.Attempt? && s.phase.Handling? && s.phase.p == p {
      AttemptedTouches(s.parts[p], s.phase.offset, step.ok, step.effect);
    }
  }

  /** A handler call decides its own key, and no other. */
  lemma AttemptKeepsShared(s: Sys, step: Step, key: string)
    requires AllKept(s) && SharedAt(s, key) && step.Attempt? && s.phase.Handling? && s.phase.p < |s.parts|
    ensures SharedAt(Apply(s, step), key)
  {
    var p, o := s.phase.p, s.phase.offset;
    var q, t := s.parts[p], Apply(s, step);
    assert Kept(s.phase, p, q);
    var m := q.log[o];
    EffectIsKeyed(s.store, q.own, m, key);
    EffectIsKeyed(q.own, q.own, m, key);
    if HasEffect(q.log, o, step.ok, step.effect) && KeyIs(m, key) {
      assert DecidedBy(t, p, key);
    } else if !Untouched(s, key) {
      var r: nat :| DecidedBy(s, r, key);
      assert DecidedBy(t, r, key);
    }
  }

  lemma OtherStepsKeepShared(s: Sys, step: Step, key: string)
    requires SharedAt(s, key) && !step.Attempt?
    ensures SharedAt(Apply(s, step), key)
  {
    var t := Apply(s, step);
    assert t.store == s.store && |t.parts| == |s.parts|;
    assert forall p :: 0 <= p < |s.parts| ==>
      t.parts[p].touched == s.parts[p].touched && t.parts[p].own == s.parts[p].own;
    if !Untouched(s, key) {
      var r: nat :| DecidedBy(s, r, key);
      assert DecidedBy(t, r, key);
    }
  }

  lemma ApplyKeepsShared(s: Sys, step: Step)
    requires AllKept(s) && SharedOk(s)
    ensures SharedOk(Apply(s, step))
  {
    forall p | 0 <= p < |s.parts| ensures Touching(Apply(s, step).parts[p]) {
      assert Kept(s.phase, p, s.parts[p]);
      ApplyKeepsTouching(s, step, p);
    }
    forall key ensures SharedAt(Apply(s, step), key) {
      if !step.Attempt? {
        OtherStepsKeepShared(s, step, key);
      } else if s.phase.Handling? && s.phase.p < |s.parts| {
        AttemptKeepsShared(s, step, key);
      }
    }
  }

  lemma {:induction false} AlwaysShared(n: nat, steps: seq<Step>)
    ensures SharedOk(After(n, steps))
  {
    if steps == [] {
      assert forall key :: Untouched(Initial(n), key);
    } else {
      AlwaysKept(n, steps[..|steps| - 1]);
      AlwaysShared(n, steps[..|steps| - 1]);
      ApplyKeepsShared(After(n, steps[..|steps| - 1]), steps[|steps| - 1]);
    }
  }

  // ---- the end of all deliveries ----

  /** The log of the partition, applied once. */
  function Pass(q: Partition): map<string, string> { Fold(map[], q.log, |q.log|) }

  /** One clean pass over the logs of the first k partitions, one after the other. */
  function CleanPass(parts: seq<Partition>, k: nat): map<string, string>
    requires k <= |parts|
  {
    if k == 0 then map[] else Fold(CleanPass(parts, k - 1), parts[k - 1].log, |parts[k - 1].log|)
  }

  ghost predicate OccursInBoth(parts: seq<Partition>, p: nat, q: nat, key: string) {
    p < |parts| && q < |parts| && OccursIn(parts[p].log, key) && OccursIn(parts[q].log, key)
  }

  /** Partitions in which a key occurs leave it with the same value. */
  ghost predicate Agree(parts: seq<Partition>) {
    forall p: nat, q: nat, key :: OccursInBoth(parts, p, q, key) ==>
      Lookup(Pass(parts[p]), key) == Lookup(Pass(parts[q]), key)
  }

  /** In particular they agree if no key occurs in two partitions, as when keys choose the partition. */
  lemma DisjointPartitionsAgree(parts: seq<Partition>)
    requires forall p: nat, q: nat, key :: OccursInBoth(parts, p, q, key) ==> p == q
    ensures Agree(parts)
  {}

  ghost predicate OccursBefore(log: seq<Msg>, n: nat, key: string) {
    exists o :: 0 <= o < n && o < |log| && log[o].key == key
  }

  lemma {:induction false} FoldIsKeyed(store: map<string, string>, log: seq<Msg>, n: nat, key: string)
    requires n <= |log|
    ensures Lookup(Fold(store, log, n), key)
         == if OccursBefore(log, n, key) then Lookup(Fold(map[], log, n), key) else Lookup(store, key)
  {
    if n > 0 {
      FoldIsKeyed(store, log, n - 1, key);
      EffectIsKeyed(Fold(store, log, n - 1), Fold(map[], log, n - 1), log[n - 1], key);
      EffectIsKeyed(Fold(map[], log, n - 1), Fold(map[], log, n - 1), log[n - 1], key);
      assert OccursBefore(log, n, key) <==> OccursBefore(log, n - 1, key) || KeyIs(log[n - 1], key);
    }
  }

  ghost predicate OccursAmong(parts: seq<Partition>, k: nat, key: string) {
    exists p :: 0 <= p < k && p < |parts| && OccursIn(parts[p].log, key)
  }

  lemma {:induction false} CleanPassIsKeyed(parts: seq<Partition>, k: nat, key: string)
    requires k <= |parts| && Agree(parts)
    ensures !OccursAmong(parts, k, key) ==> Lookup(CleanPass(parts, k), key) == None
    ensures forall p :: 0 <= p < k && OccursIn(parts[p].log, key) ==>
      Lookup(CleanPass(parts, k), key) == Lookup(Pass(parts[p]), key)
  {
    if k > 0 {
      var log := parts[k - 1].log;
      CleanPassIsKeyed(parts, k - 1, key);
      FoldIsKeyed(CleanPass(parts, k - 1), log, |log|, key);
      assert OccursBefore(log, |log|, key) <==> OccursIn(log, key);
      forall p: nat | p < k && OccursIn(parts[p].log, key) && OccursIn(log, key)
        ensures Lookup(Pass(parts[p]), key) == Lookup(Pass(parts[k - 1]), key)
      {
        assert OccursInBoth(parts, p, k - 1, key);
      }
      if !OccursAmong(parts, k, key) { assert !OccursIn(log, key) && !OccursAmong(parts, k - 1, key); }
    }
  }

  /** Everything in the log is dealt with, and nothing went to the dead-letter topic. */
  predicate Finished(phase: Phase, p: nat, q: Partition) {
    q.dead == {} && Frontier(phase, p, q) == |q.log|
  }

  predicate AllFinished(s: Sys) {
    forall p :: 0 <= p < |s.parts| ==> Finished(s.phase, p, s.parts[p])
  }

  /** What the partition has for itself is then the one clean pass over its log, of all its keys. */
  lemma FinishedIsPassed(n: nat, steps: seq<Step>, p: nat, key: string)
    requires p < |After(n, steps).parts| && Finished(After(n, steps).phase, p, After(n, steps).parts[p])
    ensures var q := After(n, steps).parts[p];
      Lookup(q.own, key) == Lookup(Pass(q), key) && (key in q.touched <==> OccursIn(q.log, key))
  {
    AlwaysKept(n, steps);
    AlwaysSynced(n, steps);
    AlwaysShapedAndCounted(n, steps);
    AlwaysShared(n, steps);
    var s := After(n, steps);
    var q := s.parts[p];
    assert Kept(s.phase, p, q) && Touching(q) && KeySynced(s.phase, p, q, key);
    if OccursIn(q.log, key) {
      var o: nat :| o < |q.log| && q.log[o].key == key;
      assert o in q.handled;
    }
  }

  /** At least once is enough for keyed overwrites and deletes: however often messages were
      re-delivered and partitions interleaved, and whatever failed handler calls had already done,
      once all partitions are finished the shared store is that of one clean pass over their logs,
      provided the partitions agree. */
  lemma RedeliveryIsHarmless(n: nat, steps: seq<Step>)
    requires var s := After(n, steps);
      Agree(s.parts) && AllFinished(s)
    ensures var s := After(n, steps); s.store == CleanPass(s.parts, |s.parts|)
  {
    AlwaysShared(n, steps);
    var s := After(n, steps);
    var clean := CleanPass(s.parts, |s.parts|);
    forall key ensures Lookup(s.store, key) == Lookup(clean, key) { FinishedKey(n, steps, key); }
    forall key ensures key in s.store <==> key in clean { assert Lookup(s.store, key) == Lookup(clean, key); }
    forall key | key in s.store ensures s.store[key] == clean[key] {
      assert Lookup(s.store, key) == Lookup(clean, key);
    }
  }

  lemma FinishedKey(n: nat, steps: seq<Step>, key: string)
    requires var s := After(n, steps);
      Agree(s.parts) && AllFinished(s)
    ensures var s := After(n, steps); Lookup(s.store, key) == Lookup(CleanPass(s.parts, |s.parts|), key)
  {
    AlwaysShared(n, steps);
    var s := After(n, steps);
    CleanPassIsKeyed(s.parts, |s.parts|, key);
    forall p: nat | p < |s.parts|
      ensures Lookup(s.parts[p].own, key) == Lookup(Pass(s.parts[p]), key)
      ensures key in s.parts[p].touched <==> OccursIn(s.parts[p].log, key)
    {
      FinishedIsPassed(n, steps, p, key);
    }
    assert SharedAt(s, key);
    if !Untouched(s, key) {
      var p: nat :| DecidedBy(s, p, key);
      assert OccursIn(s.parts[p].log, key);
    }
  }

  // ---- why the proviso is needed ----

  /** Two messages about one key in two partitions, and a process that has just started. */
  function TwoMessages(a: Msg, b: Msg): seq<Step> { [] + [Produce(0, a)] + [Produce(1, b)] + [Restart] }

  ghost predicate TwoWaiting(s: Sys, a: Msg, b: Msg) {
    && s.phase.Idle? && |s.parts| == 2 && s.store == map[] && s.parts[0].log == [a] && s.parts[1].log == [b]
    && forall p :: 0 <= p < 2 ==> s.parts[p].position == 0 && s.parts[p].dead == {} && s.parts[p].lives != []
  }

  lemma TwoMessagesAreThere(a: Msg, b: Msg)
    ensures TwoWaiting(After(2, TwoMessages(a, b)), a, b)
  {
    var s := Initial(2);
    OneMore(s, [], Produce(0, a));
    OneMore(s, [] + [Produce(0, a)], Produce(1, b));
    OneMore(s, [] + [Produce(0, a)] + [Produce(1, b)], Restart);
  }

  lemma DeliversBoth(s: Sys, a: Msg, b: Msg, p: nat)
    requires a.key == b.key && p < 2 && TwoWaiting(s, a, b)
    ensures var t := AfterFrom(AfterFrom(s, Deliver(p)), Deliver(1 - p));
      AllFinished(t) && Lookup(t.store, a.key) == Lookup(Effect(map[], if p == 0 then b else a), a.key)
  {
    Delivers(s, p);
    Delivers(AfterFrom(s, Deliver(p)), 1 - p);
    EffectIsKeyed(Effect(map[], a), map[], b, a.key);
    EffectIsKeyed(Effect(map[], b), map[], a, a.key);
  }

  lemma DeliveredInOrder(a: Msg, b: Msg, p: nat) returns (run: seq<Step>)
    requires a.key == b.key && p < 2
    ensures AllFinished(After(2, run))
    ensures Lookup(After(2, run).store, a.key) == Lookup(Effect(map[], if p == 0 then b else a), a.key)
  {
    var m, d := TwoMessages(a, b), Deliver(p) + Deliver(1 - p);
    TwoMessagesAreThere(a, b);
    DeliversBoth(After(2, m), a, b, p);
    AfterFromAppend(After(2, m), Deliver(p), Deliver(1 - p));
    AfterFromAppend(Initial(2), m, d);
    run := m + d;
  }

  /** Without agreement the order of delivery decides: both runs handle both messages once, nothing
      fails, and they end with what the message delivered last has done. */
  lemma OrderDecides(a: Msg, b: Msg) returns (run1: seq<Step>, run2: seq<Step>)
    requires a.key == b.key
    ensures AllFinished(After(2, run1)) && Lookup(After(2, run1).store, a.key) == Lookup(Effect(map[], b), a.key)
    ensures AllFinished(After(2, run2)) && Lookup(After(2, run2).store, a.key) == Lookup(Effect(map[], a), a.key)
  {
    run1 := DeliveredInOrder(a, b, 0);
    run2 := DeliveredInOrder(a, b, 1);
  }
}
