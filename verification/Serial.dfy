// One request at a time: the calls of a request follow each other without interference. A call may
// still fault anywhere, and a request may be cut off after any number of store calls.
module Serial {
  import opened Prelude
  import opened Upload
  import opened Interleaving
  import Tenancy

  /** The first n store calls of a request; io says how each of them ends. */
  ghost function Steps(w: World, p: Proc, io: nat -> IO, n: nat): (World, Proc) {
    if n == 0 then (w, p)
    else var (w', p') := Steps(w, p, io, n - 1); Advance(w', p', io(n - 1))
  }

  ghost function Run(w: World, req: Request, io: nat -> IO, n: nat): (World, Proc) {
    Steps(w, Proc(req, Start), io, n)
  }

  ghost predicate Quiet(io: nat -> IO) {
    forall k: nat :: io(k).fault.NoFault?
  }

  ghost predicate QuietUpTo(io: nat -> IO, n: nat) {
    forall k: nat :: k < n ==> io(k).fault.NoFault?
  }

  // ---- call by call, without unfolding what went before ----

  /** The store calls of a request, one after the other. */
  ghost function CallsOf(io: nat -> IO): (nat, (World, Proc)) -> (World, Proc) {
    (k: nat, s: (World, Proc)) => Advance(s.0, s.1, io(k))
  }

  /** The states of a request, call by call. */
  lemma RunOf(w: World, req: Request, io: nat -> IO) returns (run: nat -> (World, Proc))
    ensures Follows(run, CallsOf(io)) && run(0) == (w, Proc(req, Start))
    ensures forall k: nat {:trigger Run(w, req, io, k)} :: Run(w, req, io, k) == run(k)
  {
    run := (k: nat) => Run(w, req, io, k);
  }

  lemma StepsOf(w: World, p: Proc, io: nat -> IO) returns (run: nat -> (World, Proc))
    ensures Follows(run, CallsOf(io)) && run(0) == (w, p)
    ensures forall k: nat {:trigger Steps(w, p, io, k)} :: Steps(w, p, io, k) == run(k)
  {
    run := (k: nat) => Steps(w, p, io, k);
  }

  // One more store call of each kind of request.

  lemma StepInitiate(run: nat -> (World, Proc), req: Request, io: nat -> IO, n: nat, w: World, pc: PC)
    requires Follows(run, CallsOf(io)) && req.Initiate? && run(n) == (w, Proc(req, pc))
    ensures run(n + 1) == AdvanceInitiate(w, Proc(req, pc), io(n))
  {
    FollowsOnce(run, CallsOf(io), n);
  }

  lemma StepPart(run: nat -> (World, Proc), req: Request, io: nat -> IO, n: nat, w: World, pc: PC)
    requires Follows(run, CallsOf(io)) && req.UploadPart? && run(n) == (w, Proc(req, pc))
    ensures run(n + 1) == AdvancePart(w, Proc(req, pc), io(n))
  {
    FollowsOnce(run, CallsOf(io), n);
  }

  lemma StepComplete(run: nat -> (World, Proc), req: Request, io: nat -> IO, n: nat, w: World, pc: PC)
    requires Follows(run, CallsOf(io)) && req.Complete? && run(n) == (w, Proc(req, pc))
    ensures run(n + 1) == AdvanceComplete(w, Proc(req, pc), io(n))
  {
    FollowsOnce(run, CallsOf(io), n);
  }

  lemma StepDelete(run: nat -> (World, Proc), req: Request, io: nat -> IO, n: nat, w: World, pc: PC)
    requires Follows(run, CallsOf(io)) && req.DeleteDoc? && run(n) == (w, Proc(req, pc))
    ensures run(n + 1) == AdvanceDelete(w, Proc(req, pc), io(n))
  {
    FollowsOnce(run, CallsOf(io), n);
  }

  // ---- termination ----

  function Most(a: int): nat { if a > 0 then a else 0 }

  /** An upper bound on the store calls of a request. */
  function Bound(req: Request): nat {
    match req
    case Initiate(_, _, _, _, total, _, _) => Most(total) + 3
    case UploadPart(_, _, _, _, _) => 3
    case Complete(_, _, total) => 2 * Most(total) + 5
    case DeleteDoc(_, _) => 3
  }

  function Total(req: Request): int {
    if req.Initiate? then req.total else if req.Complete? then req.total else 0
  }

  function Rank(p: Proc): nat {
    var total := Total(p.req);
    match p.pc
    case Start => Bound(p.req)
    case Lookup(_) => Most(total) + 2
    case Resume(_, i, _) => Most(total - i) + 1
    case Insert(_) => 1
    case Put(_) => 2
    case Mark(_) => 1
    case Check(_, i, _) => Most(total - i) + Most(total) + 4
    case Compose(_) => Most(total) + 4
    case SetMerged(_, _) => Most(total) + 3
    case Remove(_, i) => Most(total - i) + 2
    case ClearBits(_) => 2
    case Publish(_) => 1
    case SoftDelete(_) => 2
    case PublishDelete(_) => 1
    case Done(_) => 0
  }

  predicate Fits(p: Proc) {
    match p.pc
    case Start => true
    case Done(_) => true
    case Lookup(_) => p.req.Initiate? && p.req.total > 0
    case Insert(_) => p.req.Initiate?
    case Resume(_, i, _) => p.req.Initiate? && i < p.req.total
    case Put(_) => p.req.UploadPart?
    case Mark(_) => p.req.UploadPart?
    case SoftDelete(_) => p.req.DeleteDoc?
    case PublishDelete(_) => p.req.DeleteDoc?
    case Check(_, i, _) => p.req.Complete? && i < p.req.total
    case Remove(_, i) => p.req.Complete? && i < p.req.total
    case _ => p.req.Complete?
  }

  predicate Descends(p: Proc, q: Proc) {
    Fits(q) && q.req == p.req && (q.pc.Done? || Rank(q) < Rank(p))
  }

  lemma InitiateDescends(w: World, p: Proc, io: IO)
    requires Fits(p) && p.req.Initiate?
    ensures Descends(p, AdvanceInitiate(w, p, io).1)
  {}

  lemma CompleteDescends(w: World, p: Proc, io: IO)
    requires Fits(p) && p.req.Complete?
    ensures Descends(p, AdvanceComplete(w, p, io).1)
  {}

  lemma AdvanceDescends(w: World, p: Proc, io: IO)
    requires Fits(p)
    ensures Descends(p, Advance(w, p, io).1)
  {
    if p.req.Initiate? { InitiateDescends(w, p, io); }
    if p.req.Complete? { CompleteDescends(w, p, io); }
  }

  /** Whatever fails, every request returns within its bound of store calls. */
  lemma {:induction false} RequestsTerminate(w: World, req: Request, io: nat -> IO, n: nat)
    ensures var p := Run(w, req, io, n).1;
      Fits(p) && p.req == req && (p.pc.Done? || Rank(p) + n <= Bound(req))
    ensures n >= Bound(req) ==> Run(w, req, io, n).1.pc.Done?
  {
    if n > 0 {
      RequestsTerminate(w, req, io, n - 1);
      var (w', p') := Run(w, req, io, n - 1);
      AdvanceDescends(w', p', io(n - 1));
    }
  }

  /** How many store calls a request has made in a run. */
  ghost function CallsMade(limits: Limits, steps: seq<Step>, pid: nat): nat {
    if steps == [] then 0
    else
      var front, last := steps[..|steps| - 1], steps[|steps| - 1];
      CallsMade(limits, front, pid) + (if last.Exec? && last.pid == pid
        && pid in After(limits, front).procs then 1 else 0)
  }

  /** In interleaved runs too: whatever else happens and whatever fails, a request that has made as
      many store calls as its bound says has returned. */
  lemma {:induction false} InterleavedRequestsTerminate(limits: Limits, steps: seq<Step>, pid: nat)
    ensures var procs := After(limits, steps).procs;
      if pid in procs then
        && Fits(procs[pid])
        && (procs[pid].pc.Done? || Rank(procs[pid]) + CallsMade(limits, steps, pid) <= Bound(procs[pid].req))
        && (CallsMade(limits, steps, pid) >= Bound(procs[pid].req) ==> procs[pid].pc.Done?)
      else CallsMade(limits, steps, pid) == 0
  {
    if steps != [] {
      var front, last := steps[..|steps| - 1], steps[|steps| - 1];
      var s := After(limits, front);
      InterleavedRequestsTerminate(limits, front, pid);
      if last.Exec? && last.pid == pid && pid in s.procs { AdvanceDescends(s.w, s.procs[pid], last.io); }
    }
  }

  /** A request that has returned makes no further calls. */
  lemma {:induction false} DoneIsFinal(w: World, req: Request, io: nat -> IO, n: nat, k: nat)
    requires Run(w, req, io, n).1.pc.Done? && n <= k
    ensures Run(w, req, io, k) == Run(w, req, io, n)
  {
    if n < k { DoneIsFinal(w, req, io, n, k - 1); }
  }

  // ---- serial runs ----

  /** Make: a request that makes its first n store calls and is then cut off or finished. */
  datatype Call = Make(req: Request, io: nat -> IO, n: nat) | Expiry(key: string) | TenantChange(step: Tenancy.Step)

  ghost function ApplyCall(w: World, c: Call): World {
    match c
    case Make(req, io, n) => Run(w, req, io, n).0
    case Expiry(key) => w.(bits := w.bits - {key})
    case TenantChange(step) => w.(tenancy := Tenancy.Apply(w.tenancy, step))
  }

  ghost function AfterCalls(limits: Limits, calls: seq<Call>): World {
    if calls == [] then Empty(limits).w
    else ApplyCall(AfterCalls(limits, calls[..|calls| - 1]), calls[|calls| - 1])
  }

  lemma {:induction false} RunKeepsOk(w: World, req: Request, io: nat -> IO, n: nat)
    requires WorldOk(w)
    ensures WorldOk(Run(w, req, io, n).0) && ProcOk(Run(w, req, io, n).0, Run(w, req, io, n).1)
      && Grows(w, Run(w, req, io, n).0)
  {
    if n > 0 {
      RunKeepsOk(w, req, io, n - 1);
      AdvanceKeepsOk(Run(w, req, io, n - 1).0, Run(w, req, io, n - 1).1, io(n - 1));
    }
  }

  lemma CallKeepsOk(w: World, c: Call)
    requires WorldOk(w)
    ensures WorldOk(ApplyCall(w, c))
  {
    match c
    case Make(req, io, n) => RunKeepsOk(w, req, io, n);
    case Expiry(key) =>
    case TenantChange(step) =>
      forall user, tag | Tenancy.IsMember(w.tenancy.db.members, user, tag)
        ensures Tenancy.IsMember(ApplyCall(w, c).tenancy.db.members, user, tag)
      {
        Tenancy.MembershipsPersist(w.tenancy, step, user, tag);
      }
  }

  /** Serial runs are runs: the store calls of a request are so many steps of its own process. */
  lemma {:induction false} RunEmbeds(s: Sys, pid: nat, req: Request, io: nat -> IO, n: nat) returns (steps: seq<Step>)
    requires pid !in s.procs
    ensures var t := AfterFrom(s, steps);
      t.w == Run(s.w, req, io, n).0 && t.procs == s.procs[pid := Run(s.w, req, io, n).1]
    ensures forall k :: 0 <= k < |steps| && steps[k].Spawn? ==> steps[k].req == req
  {
    if n == 0 {
      steps := [] + [Spawn(pid, req)];
      AfterFromAppend(s, [], [Spawn(pid, req)]);
    } else {
      var front := RunEmbeds(s, pid, req, io, n - 1);
      steps := front + [Exec(pid, io(n - 1))];
      assert steps[..|steps| - 1] == front;
    }
  }

  /** Every request of the run is one of the calls. */
  ghost predicate SpawnsFrom(steps: seq<Step>, calls: seq<Call>) {
    forall j :: 0 <= j < |steps| && steps[j].Spawn? ==> IsMade(calls, steps[j].req)
  }

  ghost predicate IsMade(calls: seq<Call>, req: Request) {
    exists k :: 0 <= k < |calls| && calls[k].Make? && calls[k].req == req
  }

  /** Each call has become the process of its number, and is over if it had calls enough. */
  ghost predicate ProcsFrom(procs: map<nat, Proc>, calls: seq<Call>) {
    forall pid :: pid in procs ==>
      && pid < |calls| && calls[pid].Make? && procs[pid].req == calls[pid].req
      && (calls[pid].n >= Bound(calls[pid].req) ==> procs[pid].pc.Done?)
  }

  lemma StepsOfCall(s: Sys, c: Call, pid: nat) returns (steps: seq<Step>)
    requires pid !in s.procs
    ensures AfterFrom(s, steps).w == ApplyCall(s.w, c)
    ensures forall k :: 0 <= k < |steps| && steps[k].Spawn? ==> c.Make? && steps[k].req == c.req
    ensures var t := AfterFrom(s, steps);
      if c.Make? then
        && t.procs == s.procs[pid := Run(s.w, c.req, c.io, c.n).1] && t.procs[pid].req == c.req
        && (c.n >= Bound(c.req) ==> t.procs[pid].pc.Done?)
      else t.procs == s.procs
  {
    match c {
      case Make(req, io, n) =>
        steps := RunEmbeds(s, pid, req, io, n);
        RequestsTerminate(s.w, req, io, n);
      case Expiry(key) =>
        steps := [Expire(key)];
        assert steps[..0] == [];
      case TenantChange(step) =>
        steps := [Tenant(step)];
        assert steps[..0] == [];
    }
  }

  lemma SpawnsAppend(front: seq<Call>, c: Call, before: seq<Step>, more: seq<Step>)
    requires SpawnsFrom(before, front)
    requires forall k :: 0 <= k < |more| && more[k].Spawn? ==> c.Make? && more[k].req == c.req
    ensures SpawnsFrom(before + more, front + [c])
  {
    var calls, steps := front + [c], before + more;
    forall j | 0 <= j < |steps| && steps[j].Spawn? ensures IsMade(calls, steps[j].req) {
      if j < |before| {
        assert IsMade(front, before[j].req);
        var k :| 0 <= k < |front| && front[k].Make? && front[k].req == before[j].req;
        assert calls[k] == front[k];
      } else {
        assert steps[j] == more[j - |before|] && calls[|front|] == c;
      }
    }
  }

  lemma {:induction false} SerialRunsAreRuns(limits: Limits, calls: seq<Call>) returns (steps: seq<Step>)
    ensures After(limits, steps).w == AfterCalls(limits, calls)
    ensures SpawnsFrom(steps, calls) && ProcsFrom(After(limits, steps).procs, calls)
  {
    steps := [];
    if calls != [] {
      var front, c := calls[..|calls| - 1], calls[|calls| - 1];
      var before := SerialRunsAreRuns(limits, front);
      var more := StepsOfCall(After(limits, before), c, |front|);
      AfterFromAppend(Empty(limits), before, more);
      SpawnsAppend(front, c, before, more);
      assert front + [c] == calls;
      steps := before + more;
    }
  }
}
