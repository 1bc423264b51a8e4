// Shared vocabulary: optional values, and the ways one call to an external store can end.
module Prelude {

  datatype Option<+T> = None | Some(value: T)

  newtype byte = x: int | 0 <= x < 256
  type Bytes = seq<byte>

  /** How a call to MySQL, Redis, MinIO or Kafka ends. A call may fail without having had any
      effect, or fail for the caller although the store has applied it (a lost reply). */
  datatype Fault = NoFault | FailBefore | FailAfter {
    predicate Applied() { !FailBefore? }
    predicate Reported() { NoFault? }
  }

  /** Everything the outside world decides about one external call. */
  datatype IO = IO(fault: Fault, now: int, newId: int)

  /** A strictly increasing list of naturals below n is no longer than n, and is all of [0, n)
      exactly when it has length n. This is why comparing lengths decides completeness. */
  ghost predicate Increasing(s: seq<nat>, n: nat) {
    && (forall k :: 0 <= k < |s| ==> s[k] < n)
    && (forall j, k :: 0 <= j < k < |s| ==> s[j] < s[k])
  }

  lemma {:induction false} IncreasingIsFullAtLength(s: seq<nat>, n: nat)
    requires Increasing(s, n)
    ensures |s| <= n
    ensures |s| == n <==> forall i: nat :: i < n ==> i in s
  {
    if n == 0 {
    } else if |s| > 0 && s[|s| - 1] == n - 1 {
      var t := s[..|s| - 1];
      assert s == t + [n - 1];
      IncreasingIsFullAtLength(t, n - 1);
      assert n - 1 in s;
      if |s| == n {
        forall i: nat | i < n ensures i in s { if i < n - 1 { assert i in t; } }
      }
      if forall i: nat :: i < n ==> i in s {
        forall i: nat | i < n - 1 ensures i in t { assert i in s; }
      }
    } else {
      forall k | 0 <= k < |s| ensures s[k] < n - 1 { assert s[k] <= s[|s| - 1]; }
      IncreasingIsFullAtLength(s, n - 1);
      assert n - 1 !in s;
    }
  }

  /** Marks the positions at which a proof looks at the next step of a run. */
  predicate Tick(k: nat) { true }

  /** run lists the states of one execution call by call. Only marked positions are unfolded. */
  ghost predicate Follows<S(!new)>(run: nat -> S, next: (nat, S) -> S) {
    forall k: nat {:trigger Tick(k)} :: Tick(k) ==> run(k + 1) == next(k, run(k))
  }

  lemma FollowsOnce<S(!new)>(run: nat -> S, next: (nat, S) -> S, k: nat)
    requires Follows(run, next)
    ensures run(k + 1) == next(k, run(k))
  {
    assert Tick(k);
  }
}
