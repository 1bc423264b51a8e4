// The consumer of internal/infra/kafka/consumer.go as a step machine over several partitions: fetch,
// up to three handler calls, dead-letter write, commit; each may fail, and the process may crash and
// restart anywhere. After a restart each position returns to the committed offset.
module Delivery {
  import opened Prelude

  /** What a message tells the store to do: overwrite a key or delete it. */
  datatype Msg = Overwrite(key: string, value: string) | Erase(key: string)

  /** The offsets [from, to) that one life of the process has fetched from a partition. */
  datatype Stretch = Stretch(from: nat, to: nat)

  /** log, position and committed are state; the other fields record history: the effects of this
      partition's messages alone and the keys they were about, the offsets fetched in order, the
      stretch of each life, the handler calls per offset, the offsets whose handling returned nil and
      those written to the dead-letter topic. */
  datatype Partition = Partition(log: seq<Msg>, position: nat, committed: nat,
                                 own: map<string, string>, touched: set<string>, fetched: seq<nat>, lives: seq<Stretch>,
                                 calls: multiset<nat>, handled: set<nat>, dead: set<nat>)

  datatype Phase =
    | Down | Idle
    | Handling(p: nat, offset: nat, attempt: nat)
    | DeadLetter(p: nat, offset: nat)
    | Committing(p: nat, offset: nat)

  /** store: where the handler of every partition writes. */
  datatype Sys = Sys(parts: seq<Partition>, phase: Phase, store: map<string, string>)

  const MAX_ATTEMPTS: nat := 3

  datatype Step =
    | Produce(p: nat, msg: Msg)
    | Restart
    | Fetch(p: nat)
    | FetchFails
    | Attempt(ok: bool, effect: bool, interrupted: bool)  // a handler call, and the sleep after a failed one
    | WriteDead(f: Fault)
    | Commit(f: Fault)
    | Crash

  const FRESH := Partition([], 0, 0, map[], {}, [], [], multiset{}, {}, {})

  function Initial(n: nat): Sys { Sys(seq(n, i => FRESH), Down, map[]) }

  function Effect(store: map<string, string>, m: Msg): map<string, string> {
    match m
    case Overwrite(k, v) => store[k := v]
    case Erase(k) => store - {k}
  }

  function Reopened(q: Partition): Partition {
    q.(position := q.committed, lives := q.lives + [Stretch(q.committed, q.committed)])
  }

  function ReopenAll(parts: seq<Partition>): (r: seq<Partition>)
    ensures |r| == |parts| && forall i :: 0 <= i < |parts| ==> r[i] == Reopened(parts[i])
  {
    seq(|parts|, i requires 0 <= i < |parts| => Reopened(parts[i]))
  }

  function Fetched(q: Partition): Partition
    requires q.lives != []
  {
    var n := |q.lives| - 1;
    q.(position := q.position + 1, fetched := q.fetched + [q.position],
       lives := q.lives[n := q.lives[n].(to := q.position + 1)])
  }

  predicate HasEffect(log: seq<Msg>, offset: nat, ok: bool, effect: bool) { (ok || effect) && offset < |log| }

  /** A handler call: what returns nil has had its effect, what fails may have had it. */
  function Attempted(q: Partition, offset: nat, ok: bool, effect: bool): Partition {
    var r := q.(calls := q.calls + multiset{offset}, handled := if ok then q.handled + {offset} else q.handled);
    if HasEffect(q.log, offset, ok, effect)
    then r.(own := Effect(q.own, q.log[offset]), touched := q.touched + {q.log[offset].key}) else r
  }

  function Stored(store: map<string, string>, log: seq<Msg>, offset: nat, ok: bool, effect: bool): map<string, string> {
    if HasEffect(log, offset, ok, effect) then Effect(store, log[offset]) else store
  }

  function With(s: Sys, p: nat, q: Partition, phase: Phase): Sys
    requires p < |s.parts|
  {
    s.(parts := s.parts[p := q], phase := phase)
  }

  function Apply(s: Sys, step: Step): Sys {
    match step
    case Produce(p, msg) =>
      if p < |s.parts| then With(s, p, s.parts[p].(log := s.parts[p].log + [msg]), s.phase) else s
    case Restart =>
      if s.phase.Down? then s.(parts := ReopenAll(s.parts), phase := Idle) else s
    case Fetch(p) =>
      if s.phase.Idle? && p < |s.parts| && s.parts[p].lives != [] && s.parts[p].position < |s.parts[p].log|
      then With(s, p, Fetched(s.parts[p]), Handling(p, s.parts[p].position, 0)) else s
    case FetchFails => if s.phase.Idle? then s.(phase := Down) else s
    case Attempt(ok, effect, interrupted) =>
      if s.phase.Handling? && s.phase.p < |s.parts| then
        var Handling(p, o, a) := s.phase;
        With(s.(store := Stored(s.store, s.parts[p].log, o, ok, effect)), p, Attempted(s.parts[p], o, ok, effect),
             if ok then Committing(p, o)
             else if interrupted || a + 1 >= MAX_ATTEMPTS then DeadLetter(p, o)
             else Handling(p, o, a + 1))
      else s
    case WriteDead(f) =>
      if s.phase.DeadLetter? && s.phase.p < |s.parts| then
        var DeadLetter(p, o) := s.phase;
        var q := s.parts[p];
        With(s, p, if f.Applied() then q.(dead := q.dead + {o}) else q, if f.Reported() then Committing(p, o) else Down)
      else s
    case Commit(f) =>
      if s.phase.Committing? && s.phase.p < |s.parts| then
        var Committing(p, o) := s.phase;
        With(s, p, if f.Applied() then s.parts[p].(committed := o + 1) else s.parts[p], Idle)
      else s
    case Crash => s.(phase := Down)
  }

  function AfterFrom(s: Sys, steps: seq<Step>): Sys {
    if steps == [] then s else Apply(AfterFrom(s, steps[..|steps| - 1]), steps[|steps| - 1])
  }

  function After(n: nat, steps: seq<Step>): Sys { AfterFrom(Initial(n), steps) }

  lemma OneMore(s: Sys, steps: seq<Step>, step: Step)
    ensures AfterFrom(s, steps + [step]) == Apply(AfterFrom(s, steps), step)
  {
    assert (steps + [step])[..|steps|] == steps;
  }

  lemma {:induction false} AfterFromAppend(s: Sys, a: seq<Step>, b: seq<Step>)
    ensures AfterFrom(s, a + b) == AfterFrom(AfterFrom(s, a), b)
  {
    if b == [] {
      assert a + b == a;
    } else {
      AfterFromAppend(s, a, b[..|b| - 1]);
      assert (a + b)[..|a + b| - 1] == a + b[..|b| - 1];
    }
  }

  // ---- at least once ----

  predicate InFlight(phase: Phase, p: nat) {
    (phase.Handling? || phase.DeadLetter? || phase.Committing?) && phase.p == p
  }

  /** Below this offset everything fetched in this life has been dealt with. */
  function Frontier(phase: Phase, p: nat, q: Partition): nat {
    if phase.Down? then q.committed
    else if (phase.Handling? || phase.DeadLetter?) && phase.p == p then phase.offset
    else q.position
  }

  predicate Settled(q: Partition, o: nat) { o in q.handled || o in q.dead }

  ghost predicate Kept(phase: Phase, p: nat, q: Partition) {
    && q.committed <= q.position <= |q.log|
    && (InFlight(phase, p) ==> q.committed <= phase.offset && phase.offset + 1 == q.position)
    && (phase.Committing? && phase.p == p ==> Settled(q, phase.offset))
    && (forall o :: 0 <= o < Frontier(phase, p, q) ==> o in q.handled || o in q.dead)
  }

  ghost predicate AllKept(s: Sys) {
    forall p :: 0 <= p < |s.parts| ==> Kept(s.phase, p, s.parts[p])
  }

  lemma ApplyKeepsOne(s: Sys, step: Step, p: nat)
    requires p < |s.parts| && Kept(s.phase, p, s.parts[p])
    ensures Kept(Apply(s, step).phase, p, Apply(s, step).parts[p])
  {}

  lemma ApplyKeeps(s: Sys, step: Step)
    requires AllKept(s)
    ensures AllKept(Apply(s, step))
  {
    forall p | 0 <= p < |s.parts| ensures Kept(Apply(s, step).phase, p, Apply(s, step).parts[p]) {
      assert Kept(s.phase, p, s.parts[p]);
      ApplyKeepsOne(s, step, p);
    }
  }

  lemma {:induction false} AlwaysKept(n: nat, steps: seq<Step>)
    ensures AllKept(After(n, steps))
  {
    if steps != [] {
      AlwaysKept(n, steps[..|steps| - 1]);
      ApplyKeeps(After(n, steps[..|steps| - 1]), steps[|steps| - 1]);
    }
  }

  /** At least once: in every run, with commits and dead-letter writes that may fail, crashes and
      restarts, each offset below the committed one was handled with a nil result or is in the
      dead-letter topic. */
  lemma AtLeastOnce(n: nat, steps: seq<Step>, p: nat, o: nat)
    requires p < |After(n, steps).parts| && o < After(n, steps).parts[p].committed
    ensures var q := After(n, steps).parts[p]; o < |q.log| && (o in q.handled || o in q.dead)
  {
    AlwaysKept(n, steps);
    var s := After(n, steps);
    assert Kept(s.phase, p, s.parts[p]);
  }

  // ---- the shape of deliveries ----

  function Range(from: nat, to: nat): seq<nat> {
    if from >= to then [] else Range(from, to - 1) + [to - 1]
  }

  function Offsets(lives: seq<Stretch>): seq<nat> {
    if lives == [] then [] else Offsets(lives[..|lives| - 1]) + Range(lives[|lives| - 1].from, lives[|lives| - 1].to)
  }

  /** In how many lives an offset was fetched. */
  function Covers(lives: seq<Stretch>, o: nat): nat {
    if lives == [] then 0
    else
      var last := lives[|lives| - 1];
      Covers(lives[..|lives| - 1], o) + (if last.from <= o < last.to then 1 else 0)
  }

  /** Life k starts no earlier than the one before it, and leaves no gap to its end. */
  predicate Continues(lives: seq<Stretch>, k: int)
    requires 0 < k < |lives|
  {
    lives[k - 1].from <= lives[k].from <= lives[k - 1].to
  }

  ghost predicate Shaped(q: Partition) {
    && q.fetched == Offsets(q.lives)
    && (forall k :: 0 <= k < |q.lives| ==> q.lives[k].from <= q.lives[k].to <= |q.log|)
    && (forall k :: 0 < k < |q.lives| ==> Continues(q.lives, k))
    && (if q.lives == [] then q.position == 0 && q.committed == 0
        else q.lives[|q.lives| - 1].to == q.position && q.lives[|q.lives| - 1].from <= q.committed)
  }

  ghost predicate AllShaped(s: Sys) {
    forall p :: 0 <= p < |s.parts| ==> Shaped(s.parts[p])
  }

  lemma OffsetsAppend(lives: seq<Stretch>, life: Stretch)
    ensures Offsets(lives + [life]) == Offsets(lives) + Range(life.from, life.to)
  {
    assert (lives + [life])[..|lives|] == lives;
  }

  lemma ReopenedIsShaped(q: Partition)
    requires Shaped(q) && q.committed <= q.position <= |q.log|
    ensures Shaped(Reopened(q))
  {
    OffsetsAppend(q.lives, Stretch(q.committed, q.committed));
    assert Offsets(Reopened(q).lives) == q.fetched + [];
    forall k | 0 < k < |Reopened(q).lives| ensures Continues(Reopened(q).lives, k) {
      assert k < |q.lives| ==> Continues(q.lives, k);
    }
  }

  lemma FetchedIsShaped(q: Partition)
    requires Shaped(q) && q.lives != [] && q.position < |q.log|
    ensures Shaped(Fetched(q))
  {
    var n := |q.lives| - 1;
    var r := Fetched(q);
    assert r.lives[..n] == q.lives[..n];
    assert Range(q.lives[n].from, q.position + 1) == Range(q.lives[n].from, q.position) + [q.position];
    assert Offsets(r.lives) == Offsets(q.lives[..n]) + (Range(q.lives[n].from, q.position) + [q.position]);
    forall k | 0 < k < |r.lives| ensures Continues(r.lives, k) { assert Continues(q.lives, k); }
  }

  /** Steps that neither open a life nor fetch leave the shape alone. */
  lemma OtherStepsKeepShape(q: Partition, r: Partition)
    requires Shaped(q) && r.fetched == q.fetched && r.lives == q.lives && r.position == q.position && |q.log| <= |r.log|
    requires r.committed >= q.committed && (q.lives == [] ==> r.committed == 0)
    ensures Shaped(r)
  {}

  lemma ApplyKeepsShapeOne(s: Sys, step: Step, p: nat)
    requires p < |s.parts| && Kept(s.phase, p, s.parts[p]) && Shaped(s.parts[p])
    ensures Shaped(Apply(s, step).parts[p])
  {
    var q, r := s.parts[p], Apply(s, step).parts[p];
    match step
    case Restart => ReopenedIsShaped(q);
    case Fetch(_) => if q.lives != [] && q.position < |q.log| { FetchedIsShaped(q); }
    case Commit(_) =>
      assert InFlight(s.phase, p) ==> q.lives != [];
      OtherStepsKeepShape(q, r);
    case _ => OtherStepsKeepShape(q, r);
  }

  lemma ApplyKeepsShape(s: Sys, step: Step)
    requires AllKept(s) && AllShaped(s)
    ensures AllShaped(Apply(s, step))
  {
    forall p | 0 <= p < |s.parts| ensures Shaped(Apply(s, step).parts[p]) {
      assert Kept(s.phase, p, s.parts[p]) && Shaped(s.parts[p]);
      ApplyKeepsShapeOne(s, step, p);
    }
  }

  // ---- how often a message is handled ----

  /** Handler calls per offset: at most three for each life that fetched it, and in the middle of
      the retry loop only as many as have been made. */
  ghost predicate CountedAt(phase: Phase, p: nat, q: Partition, o: nat) {
    q.calls[o] + (if phase.Handling? && phase.p == p && phase.offset == o then MAX_ATTEMPTS - phase.attempt else 0)
      <= MAX_ATTEMPTS * Covers(q.lives, o)
  }

  ghost predicate Counted(phase: Phase, p: nat, q: Partition) {
    forall o: nat :: CountedAt(phase, p, q, o)
  }

  ghost predicate AllCounted(s: Sys) {
    && (forall p :: 0 <= p < |s.parts| ==> Counted(s.phase, p, s.parts[p]))
    && (s.phase.Handling? ==> s.phase.attempt < MAX_ATTEMPTS)
  }

  lemma CoversAfterFetch(q: Partition, o: nat)
    requires Shaped(q) && q.lives != []
    ensures Covers(Fetched(q).lives, o) == Covers(q.lives, o) + (if o == q.position then 1 else 0)
  {
    assert Fetched(q).lives[..|q.lives| - 1] == q.lives[..|q.lives| - 1];
  }

  lemma CoversAfterReopen(q: Partition, o: nat)
    ensures Covers(Reopened(q).lives, o) == Covers(q.lives, o)
  {
    assert Reopened(q).lives[..|q.lives|] == q.lives;
  }

  lemma ApplyKeepsCountAt(s: Sys, step: Step, p: nat, o: nat)
    requires p < |s.parts| && Shaped(s.parts[p]) && CountedAt(s.phase, p, s.parts[p], o)
    requires s.phase.Handling? ==> s.phase.attempt < MAX_ATTEMPTS
    ensures CountedAt(Apply(s, step).phase, p, Apply(s, step).parts[p], o)
  {
    var q := s.parts[p];
    match step
    case Restart => CoversAfterReopen(q, o);
    case Fetch(_) => if q.lives != [] { CoversAfterFetch(q, o); }
    case _ =>
  }

  lemma ApplyKeepsCount(s: Sys, step: Step)
    requires AllShaped(s) && AllCounted(s)
    ensures AllCounted(Apply(s, step))
  {
    forall p | 0 <= p < |s.parts| ensures Counted(Apply(s, step).phase, p, Apply(s, step).parts[p]) {
      assert Shaped(s.parts[p]) && Counted(s.phase, p, s.parts[p]);
      forall o: nat ensures CountedAt(Apply(s, step).phase, p, Apply(s, step).parts[p], o) {
        ApplyKeepsCountAt(s, step, p, o);
      }
    }
  }

  lemma {:induction false} AlwaysShapedAndCounted(n: nat, steps: seq<Step>)
    ensures AllShaped(After(n, steps)) && AllCounted(After(n, steps))
  {
    if steps != [] {
      AlwaysKept(n, steps[..|steps| - 1]);
      AlwaysShapedAndCounted(n, steps[..|steps| - 1]);
      ApplyKeepsShape(After(n, steps[..|steps| - 1]), steps[|steps| - 1]);
      ApplyKeepsCount(After(n, steps[..|steps| - 1]), steps[|steps| - 1]);
    }
  }

  lemma {:induction false} CoversAtMostAll(lives: seq<Stretch>, o: nat)
    ensures Covers(lives, o) <= |lives|
  {
    if lives != [] { CoversAtMostAll(lives[..|lives| - 1], o); }
  }

  /** How often the process has been started. */
  function Restarts(n: nat, steps: seq<Step>): nat {
    if steps == [] then 0
    else
      var front := steps[..|steps| - 1];
      Restarts(n, front) + (if steps[|steps| - 1].Restart? && After(n, front).phase.Down? then 1 else 0)
  }

  lemma OneMoreLife(s: Sys, step: Step, p: nat)
    requires p < |s.parts|
    ensures |Apply(s, step).parts[p].lives| == |s.parts[p].lives| + (if step.Restart? && s.phase.Down? then 1 else 0)
  {}

  lemma {:induction false} LivesAreRestarts(n: nat, steps: seq<Step>, p: nat)
    requires p < |After(n, steps).parts|
    ensures |After(n, steps).parts[p].lives| == Restarts(n, steps)
  {
    if steps != [] {
      var front := steps[..|steps| - 1];
      LivesAreRestarts(n, front, p);
      OneMoreLife(After(n, front), steps[|steps| - 1], p);
    }
  }

  predicate BeganAt(s: Sys, p: nat, k: nat, offset: nat) {
    p < |s.parts| && k < |s.parts[p].lives| && s.parts[p].lives[k].from == offset
  }

  lemma ApplyKeepsBeginning(s: Sys, step: Step, p: nat, k: nat, offset: nat)
    requires BeganAt(s, p, k, offset)
    ensures BeganAt(Apply(s, step), p, k, offset)
  {}

  lemma {:induction false} BeginningsStay(s: Sys, more: seq<Step>, p: nat, k: nat, offset: nat)
    requires BeganAt(s, p, k, offset)
    ensures BeganAt(AfterFrom(s, more), p, k, offset)
  {
    if more != [] {
      BeginningsStay(s, more[..|more| - 1], p, k, offset);
      ApplyKeepsBeginning(AfterFrom(s, more[..|more| - 1]), more[|more| - 1], p, k, offset);
    }
  }

  /** Whenever the process is started, the life that begins then starts in every partition at the
      offset committed at that moment, and is on record with this start ever after. */
  lemma LivesBeginAtTheCommitted(n: nat, steps: seq<Step>, more: seq<Step>, p: nat)
    requires After(n, steps).phase.Down? && p < |After(n, steps).parts|
    ensures BeganAt(After(n, steps + [Restart] + more), p, Restarts(n, steps), After(n, steps).parts[p].committed)
  {
    LivesAreRestarts(n, steps, p);
    OneMore(Initial(n), steps, Restart);
    AfterFromAppend(Initial(n), steps + [Restart], more);
    BeginningsStay(After(n, steps + [Restart]), more, p, Restarts(n, steps), After(n, steps).parts[p].committed);
  }

  /** A message handled and committed at once. */
  function Deliver(p: nat): seq<Step> { [Fetch(p), Attempt(true, true, false), Commit(NoFault)] }

  lemma Delivers(s: Sys, p: nat)
    requires s.phase.Idle? && p < |s.parts| && s.parts[p].lives != [] && s.parts[p].position < |s.parts[p].log|
    ensures var t, o := AfterFrom(s, Deliver(p)), s.parts[p].position;
      && t.phase.Idle? && |t.parts| == |s.parts| && t.store == Effect(s.store, s.parts[p].log[o])
      && t.parts[p].log == s.parts[p].log && t.parts[p].dead == s.parts[p].dead
      && t.parts[p].position == o + 1 && t.parts[p].committed == o + 1
      && forall q :: 0 <= q < |s.parts| && q != p ==> t.parts[q] == s.parts[q]
  {
    OneMore(s, [], Fetch(p));
    OneMore(s, [] + [Fetch(p)], Attempt(true, true, false));
    OneMore(s, [] + [Fetch(p)] + [Attempt(true, true, false)], Commit(NoFault));
    assert Deliver(p) == [] + [Fetch(p)] + [Attempt(true, true, false)] + [Commit(NoFault)];
  }

  // ---- what a commit is for ----

  /** The partition is past the offset: in what is committed, in where it reads, in what is in flight. */
  ghost predicate IsPast(s: Sys, p: nat, o: nat) {
    && p < |s.parts| && s.parts[p].committed > o && s.parts[p].position > o
    && (InFlight(s.phase, p) ==> s.phase.offset > o)
  }

  /** From life k and fetch f on, only offsets above o. */
  ghost predicate OnlyAbove(q: Partition, k: nat, f: nat, o: nat) {
    && (forall i :: k <= i < |q.lives| ==> q.lives[i].from > o)
    && (forall j :: f <= j < |q.fetched| ==> q.fetched[j] > o)
  }

  lemma ApplyKeepsPast(s: Sys, step: Step, p: nat, o: nat, k: nat, f: nat)
    requires IsPast(s, p, o) && Kept(s.phase, p, s.parts[p])
    requires OnlyAbove(s.parts[p], k, f, o) && k <= |s.parts[p].lives| && f <= |s.parts[p].fetched|
    ensures var t := Apply(s, step);
      && IsPast(t, p, o) && OnlyAbove(t.parts[p], k, f, o)
      && k <= |t.parts[p].lives| && f <= |t.parts[p].fetched|
  {}

  lemma {:induction false} StaysPast(s: Sys, p: nat, o: nat, more: seq<Step>)
    requires AllKept(s) && IsPast(s, p, o)
    ensures var t := AfterFrom(s, more);
      AllKept(t) && IsPast(t, p, o) && OnlyAbove(t.parts[p], |s.parts[p].lives|, |s.parts[p].fetched|, o)
      && |s.parts[p].lives| <= |t.parts[p].lives| && |s.parts[p].fetched| <= |t.parts[p].fetched|
  {
    if more != [] {
      var t, last := AfterFrom(s, more[..|more| - 1]), more[|more| - 1];
      StaysPast(s, p, o, more[..|more| - 1]);
      ApplyKeeps(t, last);
      assert Kept(t.phase, p, t.parts[p]);
      ApplyKeepsPast(t, last, p, o, |s.parts[p].lives|, |s.parts[p].fetched|);
    }
  }

  /** Once a commit of an offset has taken effect, every life that begins later starts above it, and
      the offset is never fetched again, through all crashes, restarts and failing commits. */
  lemma CommittedIsNotRedelivered(n: nat, steps: seq<Step>, f: Fault, more: seq<Step>)
    requires var s := After(n, steps); s.phase.Committing? && s.phase.p < |s.parts| && f.Applied()
    ensures var s, t := After(n, steps), After(n, steps + [Commit(f)] + more); var p, o := s.phase.p, s.phase.offset;
      && p < |t.parts| && OnlyAbove(t.parts[p], |s.parts[p].lives|, |s.parts[p].fetched|, o)
      && t.parts[p].position > o && t.parts[p].committed > o
  {
    AlwaysKept(n, steps);
    var s := After(n, steps);
    assert Kept(s.phase, s.phase.p, s.parts[s.phase.p]);
    OneMore(Initial(n), steps, Commit(f));
    AfterFromAppend(Initial(n), steps + [Commit(f)], more);
    ApplyKeeps(s, Commit(f));
    StaysPast(Apply(s, Commit(f)), s.phase.p, s.phase.offset, more);
  }

  /** After a message was delivered and committed, a crash and a restart resume right behind it. */
  lemma RestartResumes(s: Sys, p: nat)
    requires s.phase.Idle? && p < |s.parts| && s.parts[p].lives != [] && s.parts[p].position < |s.parts[p].log|
    ensures var t := Apply(Apply(AfterFrom(s, Deliver(p)), Crash), Restart);
      t.phase.Idle? && p < |t.parts| && t.parts[p].position == s.parts[p].position + 1
      && t.parts[p].committed == s.parts[p].position + 1
  {
    Delivers(s, p);
  }

  /** The offsets fetched from a partition are one ascending gap-free stretch per life of the
      process, each starting at or before the end of the one before; so an offset is handed to the
      handler at most three times per life that fetched it, and three times per start of the process
      in all. */
  lemma DeliveryShapeAndBound(n: nat, steps: seq<Step>, p: nat, o: nat)
    requires p < |After(n, steps).parts|
    ensures var q := After(n, steps).parts[p];
      && q.fetched == Offsets(q.lives) && |q.lives| == Restarts(n, steps)
      && (forall k :: 0 < k < |q.lives| ==> Continues(q.lives, k))
      && q.calls[o] <= MAX_ATTEMPTS * Covers(q.lives, o) <= MAX_ATTEMPTS * Restarts(n, steps)
  {
    AlwaysShapedAndCounted(n, steps);
    LivesAreRestarts(n, steps, p);
    var s := After(n, steps);
    assert Shaped(s.parts[p]) && Counted(s.phase, p, s.parts[p]) && CountedAt(s.phase, p, s.parts[p], o);
    CoversAtMostAll(s.parts[p].lives, o);
  }
}
