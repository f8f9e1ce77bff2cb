/** The dead-letter queue and its retry loop (app/queue/dlq.py), for one process as
    the list's only writer, whose pushes do not overlap.  Delays are exact reals. */
module DeadLetterQueue {
  import opened Results

  // ---------------------------------------------------------------------------
  // Backoff.
  // ---------------------------------------------------------------------------

  datatype RetryPolicy = RetryPolicy(maxAttempts: int, baseDelay: real, factor: real, maxDelay: real)

  function Power(x: real, n: nat): real {
    if n == 0 then 1.0 else x * Power(x, n - 1)
  }

  function DelayFor(policy: RetryPolicy, attempt: nat): (d: real)
    requires attempt >= 1
    ensures d <= policy.maxDelay
  {
    var delay := policy.baseDelay * Power(policy.factor, attempt - 1);
    if delay < policy.maxDelay then delay else policy.maxDelay
  }

  predicate Exhausted(policy: RetryPolicy, attempt: int) {
    attempt >= policy.maxAttempts
  }

  lemma {:induction false} PowerGrows(x: real, n: nat)
    requires x >= 1.0
    ensures 1.0 <= Power(x, n) <= Power(x, n + 1)
  {
    if n > 0 {
      PowerGrows(x, n - 1);
      assert x * (Power(x, n) - Power(x, n - 1)) >= 0.0;
    }
  }

  lemma ScaleGrows(base: real, a: real, b: real)
    requires base >= 0.0 && a <= b
    ensures base * a <= base * b
  {
    assert base * (b - a) >= 0.0;
  }

  /** With a factor of at least one, no later attempt waits less. */
  lemma DelaysNeverShrink(policy: RetryPolicy, attempt: nat)
    requires attempt >= 1 && policy.baseDelay >= 0.0 && policy.factor >= 1.0
    ensures DelayFor(policy, attempt) <= DelayFor(policy, attempt + 1)
  {
    PowerGrows(policy.factor, attempt - 1);
    ScaleGrows(policy.baseDelay, Power(policy.factor, attempt - 1), Power(policy.factor, attempt));
  }

  /** The first delay is the base delay and each further one `factor` times the one
      before, until the ceiling is reached; there it stays. */
  lemma DelaysGrowByFactor(policy: RetryPolicy, attempt: nat)
    requires attempt >= 1
    ensures DelayFor(policy, 1) == if policy.baseDelay < policy.maxDelay then policy.baseDelay else policy.maxDelay
    ensures DelayFor(policy, attempt) < policy.maxDelay ==>
      var next := DelayFor(policy, attempt) * policy.factor;
      DelayFor(policy, attempt + 1) == if next < policy.maxDelay then next else policy.maxDelay
    ensures DelayFor(policy, attempt) == policy.maxDelay && policy.baseDelay >= 0.0 && policy.factor >= 1.0 ==>
      DelayFor(policy, attempt + 1) == policy.maxDelay
  {
    assert policy.baseDelay * (policy.factor * Power(policy.factor, attempt - 1))
        == (policy.baseDelay * Power(policy.factor, attempt - 1)) * policy.factor;
    if policy.baseDelay >= 0.0 && policy.factor >= 1.0 {
      DelaysNeverShrink(policy, attempt);
    }
  }

  function Sum(s: seq<real>): real {
    if s == [] then 0.0 else Sum(s[..|s| - 1]) + s[|s| - 1]
  }

  lemma {:induction false} SumAtMost(s: seq<real>, bound: real)
    requires bound >= 0.0 && forall i :: 0 <= i < |s| ==> s[i] <= bound
    ensures Sum(s) <= (|s| as real) * bound
  {
    if s != [] {
      SumAtMost(s[..|s| - 1], bound);
      assert ((|s| - 1) as real) * bound + bound == (|s| as real) * bound;
    }
  }

  // ---------------------------------------------------------------------------
  // The stored list.
  // ---------------------------------------------------------------------------

  datatype Entry = Entry(id: int, payload: string, source: string, error: string, attempt: int, maxAttempts: int,
                         permanentlyFailed: bool, retryAfter: Option<real>)

  /** Redis LTRIM: negative positions count from the end, both ends inclusive. */
  function Ltrim<T>(list: seq<T>, start: int, stop: int): seq<T> {
    var n := |list|;
    var from := if start < 0 then (if n + start < 0 then 0 else n + start) else start;
    var upTo := if stop < 0 then n + stop else stop;
    var last := if upTo >= n then n - 1 else upTo;
    if from > last || from >= n then [] else list[from..last + 1]
  }

  /** What a queue of a given size keeps of everything pushed: the newest entries,
      everything when the size is zero, and nothing when it is negative. */
  function Retained<T>(pushed: seq<T>, maxSize: int): seq<T> {
    if maxSize == 0 then pushed
    else if maxSize < 0 then []
    else if |pushed| <= maxSize then pushed
    else pushed[|pushed| - maxSize..]
  }

  /** Appending and trimming what is kept is keeping from everything pushed. */
  lemma PushKeepsRetained<T>(pushed: seq<T>, x: T, maxSize: int)
    ensures Ltrim(Retained(pushed, maxSize) + [x], -maxSize, -1) == Retained(pushed + [x], maxSize)
  {
    var list := Retained(pushed, maxSize) + [x];
    if maxSize == 0 {
      assert list[0..|list|] == list;
    } else if 0 < maxSize <= |pushed| {
      assert |list| == maxSize + 1;
      assert list[1..|list|] == pushed[|pushed| - maxSize + 1..] + [x];
      assert (pushed + [x])[|pushed| + 1 - maxSize..] == pushed[|pushed| + 1 - maxSize..] + [x];
    }
  }

  function MakeEntry(id: int, policy: RetryPolicy, payload: string, source: string, error: string, attempt: nat): Entry
    requires attempt >= 1
  {
    var failed := Exhausted(policy, attempt);
    Entry(id, payload, source, error, attempt, policy.maxAttempts, failed,
      if failed then None else Some(DelayFor(policy, attempt)))
  }

  /** A list that pushes can leave: ids count from one, and each entry is what its own
      payload, source, error and attempt make of it. */
  ghost predicate IsPushed(policy: RetryPolicy, pushed: seq<Entry>) {
    forall i :: 0 <= i < |pushed| ==>
      var e := pushed[i];
      e.attempt >= 1 && e == MakeEntry(i + 1, policy, e.payload, e.source, e.error, e.attempt)
  }

  /** The documented bound on the number of retained entries holds for every run of
      pushes exactly when the configured size is positive. */
  lemma SizeBoundExactly(policy: RetryPolicy, maxSize: int)
    ensures (forall pushed :: IsPushed(policy, pushed) ==> |Retained(pushed, maxSize)| <= maxSize) <==> maxSize >= 1
  {
    var one := [MakeEntry(1, policy, "payload", "source", "error", 1)];
    assert IsPushed(policy, one);
    assert maxSize <= 0 ==> |Retained(one, maxSize)| > maxSize;
  }

  datatype Attempt = Succeeds | Fails(error: string)

  /** The entries that the first `n` attempts leave, one each. */
  function Trail(firstId: int, policy: RetryPolicy, payload: string, source: string, run: nat -> Attempt, n: nat): (t: seq<Entry>)
    requires forall a :: 1 <= a <= n ==> run(a).Fails?
    ensures |t| == n
  {
    seq(n, i requires 0 <= i < n => MakeEntry(firstId + i, policy, payload, source, run(i + 1).error, i + 1))
  }

  class RedisDlq {
    const policy: RetryPolicy
    const maxSize: int
    var seqNo: int
    var list: seq<Entry>
    ghost var pushed: seq<Entry>

    /** The list is what a queue of this size keeps, and ids count from one. */
    ghost predicate Valid()
      reads this
    {
      && list == Retained(pushed, maxSize)
      && seqNo == |pushed|
      && IsPushed(policy, pushed)
    }

    constructor (policy: RetryPolicy, maxSize: int)
      ensures Valid() && pushed == [] && this.policy == policy && this.maxSize == maxSize
    {
      this.policy, this.maxSize := policy, maxSize;
      seqNo, list, pushed := 0, [], [];
    }

    method Push(payload: string, source: string, error: string, attempt: nat) returns (entry: Entry)
      requires Valid() && attempt >= 1
      modifies this
      ensures Valid()
      ensures entry == MakeEntry(|old(pushed)| + 1, policy, payload, source, error, attempt)
      ensures pushed == old(pushed) + [entry]
      ensures entry.payload == payload && entry.source == source && entry.error == error && entry.attempt == attempt
      ensures entry.id == |old(pushed)| + 1 && entry.maxAttempts == policy.maxAttempts
      ensures entry.permanentlyFailed <==> attempt >= policy.maxAttempts
      ensures entry.retryAfter == if attempt >= policy.maxAttempts then None else Some(DelayFor(policy, attempt))
    {
      seqNo := seqNo + 1;
      entry := MakeEntry(seqNo, policy, payload, source, error, attempt);
      PushKeepsRetained(pushed, entry, maxSize);
      list := list + [entry];
      list := Ltrim(list, -maxSize, -1);
      pushed := pushed + [entry];
    }

    /** Entries are found exactly while they are retained. */
    method GetEntry(id: int) returns (r: Option<Entry>)
      requires Valid()
      ensures maxSize >= 1 ==>
        r == if 1 <= id <= |pushed| && |pushed| - maxSize < id then Some(pushed[id - 1]) else None
      ensures r.Some? ==> r.value in list && r.value.id == id
      ensures r.None? ==> forall e :: e in list ==> e.id != id
    {
      ghost var start := if 0 < maxSize < |pushed| then |pushed| - maxSize else 0;
      assert maxSize >= 1 && start < id <= |pushed| ==> list[id - 1 - start] == pushed[id - 1];
      for i := 0 to |list|
        invariant forall j :: 0 <= j < i ==> list[j].id != id
      {
        if list[i].id == id {
          assert list[i] == pushed[start + i];
          return Some(list[i]);
        }
      }
      r := None;
    }

    /** Attempts run until one succeeds or all have failed.  Each failure is pushed
        once, numbered from 1, and only attempt `maxAttempts` is permanent; between
        attempts the loop sleeps for the policy's delay. */
    method RetryWithBackoff(payload: string, source: string, run: nat -> Attempt)
      returns (ok: bool, failures: nat, sleeps: seq<real>)
      requires Valid()
      modifies this
      ensures Valid()
      ensures ok <==> exists a: nat :: 1 <= a <= policy.maxAttempts && run(a).Succeeds?
      ensures forall a :: 1 <= a <= failures ==> run(a).Fails?
      ensures ok ==> failures < policy.maxAttempts && run(failures + 1).Succeeds?
      ensures !ok ==> failures == if policy.maxAttempts > 0 then policy.maxAttempts else 0
      ensures pushed == old(pushed) + Trail(|old(pushed)| + 1, policy, payload, source, run, failures)
      ensures |sleeps| == if ok || failures == 0 then failures else failures - 1
      ensures forall i :: 0 <= i < |sleeps| ==> sleeps[i] == DelayFor(policy, i + 1)
    {
      sleeps := [];
      failures := 0;
      while failures < policy.maxAttempts
        invariant Valid()
        invariant failures == |sleeps| && (failures == 0 || failures < policy.maxAttempts)
        invariant forall a :: 1 <= a <= failures ==> run(a).Fails?
        invariant pushed == old(pushed) + Trail(|old(pushed)| + 1, policy, payload, source, run, failures)
        invariant forall i :: 0 <= i < |sleeps| ==> sleeps[i] == DelayFor(policy, i + 1)
      {
        var attempt := failures + 1;
        if run(attempt).Succeeds? {
          ok := true;
          return;
        }
        var entry := Push(payload, source, run(attempt).error, attempt);
        assert Trail(|old(pushed)| + 1, policy, payload, source, run, attempt)
            == Trail(|old(pushed)| + 1, policy, payload, source, run, failures) + [entry];
        failures := attempt;
        if entry.permanentlyFailed {
          ok := false;
          return;
        }
        sleeps := sleeps + [DelayFor(policy, attempt)];
      }
      ok := false;
    }
  }

  /** Sleeping one policy delay per retry costs at most (max_attempts - 1) times the
      ceiling. */
  lemma TotalSleepIsBounded(policy: RetryPolicy, sleeps: seq<real>)
    requires policy.maxAttempts >= 1 && policy.maxDelay >= 0.0 && |sleeps| <= policy.maxAttempts - 1
    requires forall i :: 0 <= i < |sleeps| ==> sleeps[i] == DelayFor(policy, i + 1)
    ensures Sum(sleeps) <= ((policy.maxAttempts - 1) as real) * policy.maxDelay
  {
    SumAtMost(sleeps, policy.maxDelay);
    var spare := policy.maxAttempts - 1 - |sleeps|;
    assert (spare as real) * policy.maxDelay >= 0.0;
    assert ((policy.maxAttempts - 1) as real) == (|sleeps| as real) + (spare as real);
  }

  /** Of the entries of one exhausted retry, only the last is permanent. */
  lemma OnlyTheLastIsPermanent(policy: RetryPolicy, firstId: int, payload: string, source: string, run: nat -> Attempt, n: nat, i: nat)
    requires i < n <= policy.maxAttempts && forall a :: 1 <= a <= n ==> run(a).Fails?
    ensures var e := Trail(firstId, policy, payload, source, run, n)[i];
      && e.attempt == i + 1 && e.id == firstId + i
      && (e.permanentlyFailed <==> i + 1 == policy.maxAttempts)
      && e.retryAfter == (if e.permanentlyFailed then None else Some(DelayFor(policy, i + 1)))
      && e.payload == payload && e.source == source && e.error == run(i + 1).error
  {
  }
}
