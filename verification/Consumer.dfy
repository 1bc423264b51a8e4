// The consumer loop of internal/infra/kafka/consumer.go, statement by statement. Everything it does
// is proved to be a run of the step machine in Delivery.dfy; trace is that run.
module Consumer {
  import opened Prelude
  import opened Delivery

  /** What the world decides at one point: which messages have been produced since the last one,
      which partition a fetch looks at, how a handler call ends and whether it had its effect,
      whether the context is cancelled meanwhile, how a broker call ends. */
  datatype Call = Call(arrivals: seq<(nat, Msg)>, part: nat, ok: bool, effect: bool, interrupted: bool, fault: Fault)

  datatype Cause = HandlerError | Cancelled

  // ---- the retry loop, for any bound ----

  /** The first k attempts fail, and the sleep after each runs to its end. */
  predicate AllFail(env: nat -> Call, from: nat, k: nat) {
    k == 0 || (AllFail(env, from, k - 1) && !env(from + k - 1).ok && !env(from + k - 1).interrupted)
  }

  ghost predicate SucceedsAt(env: nat -> Call, from: nat, k: nat) {
    env(from + k).ok && AllFail(env, from, k)
  }

  ghost predicate CutOffAt(env: nat -> Call, from: nat, k: nat) {
    !env(from + k).ok && env(from + k).interrupted && AllFail(env, from, k)
  }

  function Delay(attempt: nat): nat { 500 * Pow2(attempt) }

  function Pow2(n: nat): nat { if n == 0 then 1 else 2 * Pow2(n - 1) }

  /** Milliseconds slept after k failed attempts. */
  function Backoff(k: nat): nat { if k == 0 then 0 else Backoff(k - 1) + Delay(k - 1) }

  lemma {:induction false} BackoffClosedForm(k: nat)
    ensures Backoff(k) == 500 * (Pow2(k) - 1)
  {
    if k > 0 { BackoffClosedForm(k - 1); }
  }

  lemma FullBackoff()
    ensures Backoff(MAX_ATTEMPTS) == 3500
  {
    BackoffClosedForm(MAX_ATTEMPTS);
    assert Pow2(3) == 2 * (2 * (2 * Pow2(0)));
  }

  /** For every bound exactly one of three things happens: some attempt succeeds after failures that
      were slept out, some sleep is cut off, or all attempts fail. */
  lemma {:induction false} RetryTrichotomy(env: nat -> Call, from: nat, bound: nat)
    ensures var ok, cut, all := exists k: nat :: k < bound && SucceedsAt(env, from, k),
                                exists k: nat :: k < bound && CutOffAt(env, from, k), AllFail(env, from, bound);
      (ok || cut || all) && !(ok && cut) && !(ok && all) && !(cut && all)
    ensures forall j: nat, k: nat ::
      j < bound && k < bound && SucceedsAt(env, from, j) && SucceedsAt(env, from, k) ==> j == k
  {
    if bound > 0 {
      RetryTrichotomy(env, from, bound - 1);
      AllFailShortens(env, from, bound - 1);
      if AllFail(env, from, bound - 1) {
        assert env(from + (bound - 1)).ok ==> SucceedsAt(env, from, bound - 1);
        assert !env(from + (bound - 1)).ok && env(from + (bound - 1)).interrupted ==> CutOffAt(env, from, bound - 1);
      }
    }
  }

  lemma {:induction false} AllFailShortens(env: nat -> Call, from: nat, k: nat)
    ensures AllFail(env, from, k) ==> forall j: nat :: j < k ==> !SucceedsAt(env, from, j) && !CutOffAt(env, from, j)
  {
    if k > 0 { AllFailShortens(env, from, k - 1); }
  }

  ghost predicate Decided(err: Option<Cause>, env: nat -> Call, from: nat, bound: nat) {
    && (err.None? <==> exists k: nat :: k < bound && SucceedsAt(env, from, k))
    && (err == Some(Cancelled) <==> exists k: nat :: k < bound && CutOffAt(env, from, k))
    && (err == Some(HandlerError) <==> AllFail(env, from, bound))
  }

  lemma OneWitnessDecides(err: Option<Cause>, env: nat -> Call, from: nat, bound: nat, k: nat)
    requires match err case None => k < bound && SucceedsAt(env, from, k)
                       case Some(Cancelled) => k < bound && CutOffAt(env, from, k)
                       case Some(HandlerError) => AllFail(env, from, bound)
    ensures Decided(err, env, from, bound)
  {
    RetryTrichotomy(env, from, bound);
  }

  // ---- the machine, driven by what the world decides ----

  function Arrived(parts: seq<Partition>, arrivals: seq<(nat, Msg)>): (r: seq<Partition>)
    ensures |r| == |parts|
  {
    if arrivals == [] then parts
    else
      var q, (p, m) := Arrived(parts, arrivals[..|arrivals| - 1]), arrivals[|arrivals| - 1];
      if p < |q| then q[p := q[p].(log := q[p].log + [m])] else q
  }

  lemma {:induction false} ArrivalsAreSteps(s: Sys, arrivals: seq<(nat, Msg)>) returns (steps: seq<Step>)
    ensures AfterFrom(s, steps) == s.(parts := Arrived(s.parts, arrivals))
  {
    steps := [];
    if arrivals != [] {
      var last := arrivals[|arrivals| - 1];
      steps := ArrivalsAreSteps(s, arrivals[..|arrivals| - 1]);
      OneMore(s, steps, Produce(last.0, last.1));
      steps := steps + [Produce(last.0, last.1)];
    }
  }

  /** A fetch from a partition without a new message is a fetch that still waits. */
  function StepOf(phase: Phase, call: Call): Step {
    match phase
    case Down => Restart
    case Idle => if call.fault.Reported() then Fetch(call.part) else FetchFails
    case Handling(_, _, _) => Attempt(call.ok, call.effect, call.interrupted)
    case DeadLetter(_, _) => WriteDead(call.fault)
    case Committing(_, _) => Delivery.Commit(call.fault)
  }

  function Answered(s: Sys, call: Call): Sys {
    if s.phase.Down? then s else Apply(s.(parts := Arrived(s.parts, call.arrivals)), StepOf(s.phase, call))
  }

  /** The external calls of one life of the process, one after the other. */
  function CallsOf(env: nat -> Call): (nat, Sys) -> Sys {
    (n: nat, s: Sys) => Answered(s, env(n))
  }

  /** The first n of them, from the point where the process is connected. */
  function Driven(s: Sys, env: nat -> Call, n: nat): Sys {
    if n == 0 then s else Answered(Driven(s, env, n - 1), env(n - 1))
  }

  lemma DrivenFollows(s: Sys, env: nat -> Call)
    ensures Follows((n: nat) => Driven(s, env, n), CallsOf(env))
  {}

  lemma OneCall(run: nat -> Sys, env: nat -> Call, n: nat, s: Sys)
    requires Follows(run, CallsOf(env)) && run(n) == s && !s.phase.Down?
    ensures run(n + 1) == Apply(s.(parts := Arrived(s.parts, env(n).arrivals)), StepOf(s.phase, env(n)))
  {
    FollowsOnce(run, CallsOf(env), n);
  }

  lemma AnsweredIsARun(s: Sys, steps: seq<Step>, call: Call) returns (longer: seq<Step>)
    ensures AfterFrom(s, longer) == Answered(AfterFrom(s, steps), call)
  {
    var t := AfterFrom(s, steps);
    if t.phase.Down? {
      longer := steps;
    } else {
      var more := ArrivalsAreSteps(t, call.arrivals);
      AfterFromAppend(s, steps, more);
      OneMore(s, steps + more, StepOf(t.phase, call));
      longer := steps + more + [StepOf(t.phase, call)];
    }
  }

  /** So whatever Run does is a run in the sense of Delivery.dfy, and its results apply. */
  lemma {:induction false} DrivenIsARun(s: Sys, env: nat -> Call, n: nat) returns (steps: seq<Step>)
    ensures AfterFrom(s, steps) == Driven(s, env, n)
  {
    if n == 0 {
      steps := [];
    } else {
      steps := DrivenIsARun(s, env, n - 1);
      steps := AnsweredIsARun(s, steps, env(n - 1));
    }
  }

  /** What a fetch comes back with. */
  datatype Answer = Message(p: nat, offset: nat) | Waiting | Broken

  /** How Run ends: its context is cancelled in a fetch, a fetch fails, a dead-letter write fails. It
      has no other end; Observed means that it was watched for long enough and is still running. */
  datatype Exit = ContextCancelled | FetchError | DeadLetterError | Observed

  class Worker {
    var parts: seq<Partition>
    var store: map<string, string>

    ghost function View(phase: Phase): Sys
      reads this
    {
      Sys(parts, phase, store)
    }

    constructor (n: nat)
      ensures View(Down) == Initial(n)
    {
      parts, store := seq(n, i => FRESH), map[];
    }

    function PhaseAfter(p: nat, offset: nat, attempt: nat, call: Call): Phase {
      if call.ok then Committing(p, offset)
      else if call.interrupted || attempt + 1 >= MAX_ATTEMPTS then DeadLetter(p, offset)
      else Handling(p, offset, attempt + 1)
    }

    /** One call of the message handler; a failing one may already have had its effect. */
    method Handle(p: nat, offset: nat, attempt: nat, ghost run: nat -> Sys, env: nat -> Call, now: nat)
      requires p < |parts| && Follows(run, CallsOf(env)) && run(now) == View(Handling(p, offset, attempt))
      modifies this
      ensures run(now + 1) == View(PhaseAfter(p, offset, attempt, env(now)))
      ensures |parts| == old(|parts|)
    {
      OneCall(run, env, now, View(Handling(p, offset, attempt)));
      parts := Arrived(parts, env(now).arrivals);
      store := Stored(store, parts[p].log, offset, env(now).ok, env(now).effect);
      parts := parts[p := Attempted(parts[p], offset, env(now).ok, env(now).effect)];
    }

    /** HandleWithRetry: nil exactly when an attempt within the bound succeeds before a sleep is
        interrupted; the handler's own error only after all three attempts, each with its sleep. */
    method HandleWithRetry(p: nat, offset: nat, ghost run: nat -> Sys, env: nat -> Call, from: nat)
      returns (err: Option<Cause>, attempts: nat, slept: nat)
      requires p < |parts| && Follows(run, CallsOf(env)) && run(from) == View(Handling(p, offset, 0))
      modifies this
      ensures Decided(err, env, from, MAX_ATTEMPTS)
      ensures 1 <= attempts <= MAX_ATTEMPTS && (err == Some(HandlerError) ==> attempts == MAX_ATTEMPTS)
      ensures slept == Backoff(if err == Some(HandlerError) then attempts else attempts - 1)
      ensures run(from + attempts) == View(if err.None? then Committing(p, offset) else DeadLetter(p, offset))
      ensures |parts| == old(|parts|)
    {
      var attempt := 0;
      slept := 0;
      while attempt < MAX_ATTEMPTS
        invariant attempt <= MAX_ATTEMPTS && |parts| == old(|parts|)
        invariant AllFail(env, from, attempt) && slept == Backoff(attempt)
        invariant run(from + attempt)
          == View(if attempt < MAX_ATTEMPTS then Handling(p, offset, attempt) else DeadLetter(p, offset))
      {
        Handle(p, offset, attempt, run, env, from + attempt);
        if env(from + attempt).ok {
          OneWitnessDecides(None, env, from, MAX_ATTEMPTS, attempt);
          return None, attempt + 1, slept;
        }
        if env(from + attempt).interrupted {
          OneWitnessDecides(Some(Cancelled), env, from, MAX_ATTEMPTS, attempt);
          return Some(Cancelled), attempt + 1, slept;
        }
        slept := slept + Delay(attempt);
        attempt := attempt + 1;
      }
      OneWitnessDecides(Some(HandlerError), env, from, MAX_ATTEMPTS, 0);
      return Some(HandlerError), attempt, slept;
    }

    method PublishDLQ(p: nat, offset: nat, ghost run: nat -> Sys, env: nat -> Call, now: nat) returns (failed: bool)
      requires p < |parts| && Follows(run, CallsOf(env)) && run(now) == View(DeadLetter(p, offset))
      modifies this
      ensures failed <==> !env(now).fault.Reported()
      ensures run(now + 1) == View(if failed then Down else Committing(p, offset))
      ensures |parts| == old(|parts|)
    {
      OneCall(run, env, now, View(DeadLetter(p, offset)));
      parts := Arrived(parts, env(now).arrivals);
      if env(now).fault.Applied() { parts := parts[p := parts[p].(dead := parts[p].dead + {offset})]; }
      failed := !env(now).fault.Reported();
    }

    method CommitMessages(p: nat, offset: nat, ghost run: nat -> Sys, env: nat -> Call, now: nat)
      requires p < |parts| && Follows(run, CallsOf(env)) && run(now) == View(Committing(p, offset))
      modifies this
      ensures run(now + 1) == View(Idle)
      ensures |parts| == old(|parts|)
    {
      OneCall(run, env, now, View(Committing(p, offset)));
      parts := Arrived(parts, env(now).arrivals);
      if env(now).fault.Applied() { parts := parts[p := parts[p].(committed := offset + 1)]; }
    }

    /** A fetch answers with the next message of some partition, waits on, or fails. */
    method FetchMessage(ghost run: nat -> Sys, env: nat -> Call, now: nat) returns (answer: Answer)
      requires Follows(run, CallsOf(env)) && run(now) == View(Idle)
      modifies this
      ensures answer.Broken? <==> !env(now).fault.Reported()
      ensures answer.Message? ==> answer.p < |parts|
      ensures run(now + 1) == View(match answer
                                   case Message(p, offset) => Handling(p, offset, 0)
                                   case Waiting => Idle
                                   case Broken => Down)
      ensures |parts| == old(|parts|)
    {
      OneCall(run, env, now, View(Idle));
      parts := Arrived(parts, env(now).arrivals);
      if !env(now).fault.Reported() { return Broken; }
      var p := env(now).part;
      if p >= |parts| || parts[p].lives == [] || parts[p].position >= |parts[p].log| { return Waiting; }
      answer := Message(p, parts[p].position);
      parts := parts[p := Fetched(parts[p])];
    }

    /** Run, watched for at least limit external calls. It makes exactly the calls of the machine, ends
        only in the three ways it can, and leaves every partition in order. */
    method Run(env: nat -> Call, limit: nat) returns (exit: Exit, calls: nat)
      modifies this
      ensures var start := Apply(old(View(Down)), Restart);
        && Driven(start, env, calls) == View(if exit.Observed? then Idle else Down)
        && EndsBecause(exit, (n: nat) => Driven(start, env, n), env, calls, limit)
      ensures AllKept(old(View(Down))) ==> AllKept(View(if exit.Observed? then Idle else Down))
    {
      ghost var before := View(Down);
      ghost var start := Apply(before, Restart);
      ghost var run := (n: nat) => Driven(start, env, n);
      DrivenFollows(start, env);
      parts := ReopenAll(parts);
      assert run(0) == View(Idle);
      exit, calls := Consume(run, env, limit);
      assert run(calls) == Driven(start, env, calls);
      DrivenKeeps(before, env, calls);
    }

    /** The loop of Run, once the reader is connected. */
    method Consume(ghost run: nat -> Sys, env: nat -> Call, limit: nat) returns (exit: Exit, calls: nat)
      requires Follows(run, CallsOf(env)) && run(0) == View(Idle)
      modifies this
      ensures run(calls) == View(if exit.Observed? then Idle else Down)
      ensures EndsBecause(exit, run, env, calls, limit)
    {
      calls := 0;
      while calls < limit
        invariant run(calls) == View(Idle)
      {
        var answer := FetchMessage(run, env, calls);
        calls := calls + 1;
        if answer.Broken? { return if env(calls - 1).interrupted then ContextCancelled else FetchError, calls; }
        if answer.Message? {
          var p, offset := answer.p, answer.offset;
          var err, attempts, slept := HandleWithRetry(p, offset, run, env, calls);
          calls := calls + attempts;
          if err.Some? {
            var failed := PublishDLQ(p, offset, run, env, calls);
            calls := calls + 1;
            if failed { return DeadLetterError, calls; }
          }
          CommitMessages(p, offset, run, env, calls);
          calls := calls + 1;
        }
      }
      exit := Observed;
    }
  }

  /** The last call is the one that justifies the exit. */
  ghost predicate EndsBecause(exit: Exit, run: nat -> Sys, env: nat -> Call, calls: nat, limit: nat) {
    match exit
    case Observed => calls >= limit
    case DeadLetterError => calls > 0 && run(calls - 1).phase.DeadLetter? && !env(calls - 1).fault.Reported()
    case _ =>
      && calls > 0 && run(calls - 1).phase.Idle? && !env(calls - 1).fault.Reported()
      && (exit.ContextCancelled? <==> env(calls - 1).interrupted)
  }

  lemma DrivenKeeps(before: Sys, env: nat -> Call, n: nat)
    ensures AllKept(before) ==> AllKept(Driven(Apply(before, Restart), env, n))
  {
    var steps := DrivenIsARun(Apply(before, Restart), env, n);
    if AllKept(before) {
      ApplyKeeps(before, Restart);
      KeptAfter(Apply(before, Restart), steps);
    }
  }

  lemma {:induction false} KeptAfter(s: Sys, steps: seq<Step>)
    requires AllKept(s)
    ensures AllKept(AfterFrom(s, steps))
  {
    if steps != [] {
      KeptAfter(s, steps[..|steps| - 1]);
      ApplyKeeps(AfterFrom(s, steps[..|steps| - 1]), steps[|steps| - 1]);
    }
  }
}
