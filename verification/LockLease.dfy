/**
 The lock lease (redis.service.ts, `acquireLock` and `releaseLock`): one key set only when absent, with
 an expiry, and deleted only while it still holds the caller's value.

 Time is that of the server. A lease is what a client believes it has: from a successful acquire until
 its time is up or it releases.
 */
module LockLease {
  import opened Common

  datatype Entry = Entry(value: string, until: nat)
  datatype Lease = Lease(client: nat, value: string, until: nat, released: bool)
  datatype State = State(key: Option<Entry>, now: nat, leases: seq<Lease>)
  // A client releases a lease it was given, with the value it acquired it with.
  datatype Step = Acquire(client: nat, value: string, ttl: nat) | Release(lease: nat) | Tick(seconds: nat)

  /** The key as a command at this time sees it. */
  function Live(key: Option<Entry>, now: nat): (r: Option<Entry>) {
    if key.Some? && now < key.value.until then key else None
  }

  function KeyAfterAcquire(key: Option<Entry>, now: nat, value: string, ttl: nat): (r: Option<Entry>) {
    if Live(key, now).None? then Some(Entry(value, now + ttl)) else Live(key, now)
  }

  function KeyAfterRelease(key: Option<Entry>, now: nat, value: string): (r: Option<Entry>) {
    var live := Live(key, now);
    if live.Some? && live.value.value == value then None else live
  }

  function After(s: State, step: Step): (r: State) {
    match step
    case Acquire(client, value, ttl) =>
      s.(key := KeyAfterAcquire(s.key, s.now, value, ttl),
         leases := if Live(s.key, s.now).None? then s.leases + [Lease(client, value, s.now + ttl, false)] else s.leases)
    case Release(i) =>
      if i >= |s.leases| then s
      else s.(key := KeyAfterRelease(s.key, s.now, s.leases[i].value),
              leases := s.leases[i := s.leases[i].(released := true)])
    case Tick(d) => s.(now := s.now + d)
  }

  /** The server's side of a lock. */
  class LockServer {
    var key: Option<Entry>
    var now: nat

    /** SET with NX and EX. */
    method AcquireLock(value: string, ttl: nat) returns (ok: bool)
      modifies this`key
      ensures ok <==> Live(old(key), now).None?
      ensures key == KeyAfterAcquire(old(key), now, value, ttl)
    {
      if key.Some? && key.value.until <= now {
        key := None;
      }
      ok := key.None?;
      if ok {
        key := Some(Entry(value, now + ttl));
      }
    }

    /** The script: read the key, delete it only when it holds the expected value. */
    method ReleaseLock(expected: string)
      modifies this`key
      ensures key == KeyAfterRelease(old(key), now, expected)
    {
      if key.Some? && key.value.until <= now {
        key := None;
      }
      if key.Some? && key.value.value == expected {
        key := None;
      }
    }
  }

  // ----- Runs ------------------------------------------------------------------------------------------

  predicate Holds(s: State, i: nat)
    requires i < |s.leases|
  {
    !s.leases[i].released && s.now < s.leases[i].until
  }

  predicate Used(s: State, value: string) {
    exists i :: 0 <= i < |s.leases| && s.leases[i].value == value
  }

  ghost predicate Run(states: seq<State>, steps: seq<Step>) {
    && |states| == |steps| + 1 && states[0].key.None? && states[0].leases == []
    && forall k :: 0 <= k < |steps| ==> states[k + 1] == After(states[k], steps[k])
  }

  // ----- What every run keeps ----------------------------------------------------------------------------

  /** The entry a lease puts there. */
  function EntryOf(lease: Lease): (e: Entry) {
    Entry(lease.value, lease.until)
  }

  /** A key that is there was put there by the latest lease, which holds. */
  ghost predicate KeyIsLatest(s: State) {
    Live(s.key, s.now).Some? ==>
      s.leases != [] && Holds(s, |s.leases| - 1) && s.key == Some(EntryOf(s.leases[|s.leases| - 1]))
  }

  lemma {:induction false} RunKeepsLatest(states: seq<State>, steps: seq<Step>)
    requires Run(states, steps)
    ensures KeyIsLatest(states[|steps|])
  {
    if steps != [] {
      var n := |steps| - 1;
      RunKeepsLatest(states[..n + 1], steps[..n]);
      assert states[n + 1] == After(states[n], steps[n]);
    }
  }

  /**
   When a lapsed release leaves the lock alone. In every run, whatever values were used: while the key is
   there, releasing a lease that does not hold leaves the key, and the lease that has it, exactly when the
   two have different values. Otherwise that lease holds on, without its key.
   */
  lemma {:induction false} LapsedReleaseFreesIff(states: seq<State>, steps: seq<Step>, lapsed: nat)
    requires Run(states, steps)
    requires var s := states[|steps|]; lapsed < |s.leases| && !Holds(s, lapsed) && Live(s.key, s.now).Some?
    ensures var s := states[|steps|];
            var r, owner := After(s, Release(lapsed)), |s.leases| - 1;
            && Holds(s, owner) && Live(s.key, s.now) == Some(EntryOf(s.leases[owner])) && Holds(r, owner)
            && Live(r.key, r.now) == if s.leases[lapsed].value != s.leases[owner].value
                                     then Some(EntryOf(s.leases[owner])) else None
  {
    RunKeepsLatest(states, steps);
  }

  // ----- Mutual exclusion ----------------------------------------------------------------------------------

  ghost predicate AtMostOne(s: State) {
    forall i, j :: 0 <= i < |s.leases| && 0 <= j < |s.leases| && Holds(s, i) && Holds(s, j) ==> i == j
  }

  /** The step releases a lease that does not hold, and takes the key another lease has put there. */
  predicate FreesAnother(s: State, step: Step) {
    && step.Release? && step.lease < |s.leases| && !Holds(s, step.lease)
    && Live(s.key, s.now).Some? && s.key.value.value == s.leases[step.lease].value
  }

  ghost predicate NoneFreesAnother(states: seq<State>, steps: seq<Step>)
    requires |states| == |steps| + 1
  {
    forall k :: 0 <= k < |steps| ==> !FreesAnother(states[k], steps[k])
  }

  /** Only the latest lease can hold, and while it does its key is there. */
  ghost predicate HolderHasKey(s: State) {
    forall i :: 0 <= i < |s.leases| && Holds(s, i) ==> i == |s.leases| - 1 && s.key == Some(EntryOf(s.leases[i]))
  }

  lemma {:induction false} StepKeepsHolder(s: State, step: Step)
    requires KeyIsLatest(s) && HolderHasKey(s) && !FreesAnother(s, step)
    ensures HolderHasKey(After(s, step))
  {
    var r := After(s, step);
    forall i | 0 <= i < |r.leases| && Holds(r, i)
      ensures i == |r.leases| - 1 && r.key == Some(EntryOf(r.leases[i]))
    {
      assert i < |s.leases| ==> Holds(s, i);
    }
  }

  lemma {:induction false} RunKeepsHolder(states: seq<State>, steps: seq<Step>)
    requires Run(states, steps) && NoneFreesAnother(states, steps)
    ensures HolderHasKey(states[|steps|])
  {
    if steps != [] {
      var n := |steps| - 1;
      RunKeepsHolder(states[..n + 1], steps[..n]);
      RunKeepsLatest(states[..n + 1], steps[..n]);
      assert states[n + 1] == After(states[n], steps[n]) && !FreesAnother(states[n], steps[n]);
      StepKeepsHolder(states[n], steps[n]);
    }
  }

  /** As long as no release has freed the key of another lease, at most one lease holds. */
  lemma {:induction false} AtMostOneHolder(states: seq<State>, steps: seq<Step>)
    requires Run(states, steps) && NoneFreesAnother(states, steps)
    ensures AtMostOne(states[|steps|])
  {
    RunKeepsHolder(states, steps);
  }

  /** So that an acquire succeeds exactly when no lease holds. */
  lemma {:induction false} AcquireSucceedsIff(states: seq<State>, steps: seq<Step>)
    requires Run(states, steps) && NoneFreesAnother(states, steps)
    ensures var s := states[|steps|];
            Live(s.key, s.now).None? <==> forall i :: 0 <= i < |s.leases| ==> !Holds(s, i)
  {
    RunKeepsHolder(states, steps);
    RunKeepsLatest(states, steps);
  }

  /** At no point of the run could the next acquire, whoever's, make a second lease that holds. */
  ghost predicate Exclusive(states: seq<State>) {
    forall k, step: Step :: 0 <= k < |states| && step.Acquire? ==>
      AtMostOne(states[k]) && AtMostOne(After(states[k], step))
  }

  /** The prefix of a run. */
  lemma {:induction false} RunPrefix(states: seq<State>, steps: seq<Step>, k: nat)
    requires Run(states, steps) && k <= |steps|
    ensures Run(states[..k + 1], steps[..k]) && states[..k + 1][k] == states[k]
    ensures NoneFreesAnother(states, steps) ==> NoneFreesAnother(states[..k + 1], steps[..k])
  {
  }

  /**
   Mutual exclusion, in every run, with whatever values: no two leases hold together at any point of it,
   nor after any next acquire, exactly when no release of a lease that did not hold took the key of another.
   */
  lemma {:induction false} ExclusiveIff(states: seq<State>, steps: seq<Step>)
    requires Run(states, steps)
    ensures Exclusive(states) <==> NoneFreesAnother(states, steps)
  {
    if NoneFreesAnother(states, steps) {
      forall k, step: Step | 0 <= k < |states| && step.Acquire?
        ensures AtMostOne(states[k]) && AtMostOne(After(states[k], step))
      {
        RunPrefix(states, steps, k);
        RunKeepsHolder(states[..k + 1], steps[..k]);
        RunKeepsLatest(states[..k + 1], steps[..k]);
        StepKeepsHolder(states[k], step);
      }
    } else {
      var k :| 0 <= k < |steps| && FreesAnother(states[k], steps[k]);
      RunPrefix(states, steps, k);
      RunKeepsLatest(states[..k + 1], steps[..k]);
      assert states[k + 1] == After(states[k], steps[k]);
      NextHoldsToo(states[k], steps[k].lease);
    }
  }

  /** Once its key is freed, the next to acquire holds together with the lease that had it. */
  lemma {:induction false} NextHoldsToo(s: State, lapsed: nat)
    requires KeyIsLatest(s) && FreesAnother(s, Release(lapsed))
    ensures !AtMostOne(After(After(s, Release(lapsed)), Acquire(0, "", 1)))
  {
    var r := After(After(s, Release(lapsed)), Acquire(0, "", 1));
    assert Holds(r, |s.leases| - 1) && Holds(r, |s.leases|);
  }

  // ----- Values --------------------------------------------------------------------------------------------

  /** Every acquire brings a value no lease has had. */
  ghost predicate DistinctValues(states: seq<State>, steps: seq<Step>)
    requires |states| == |steps| + 1
  {
    forall k :: 0 <= k < |steps| && steps[k].Acquire? ==> !Used(states[k], steps[k].value)
  }

  lemma {:induction false} DistinctLeases(states: seq<State>, steps: seq<Step>)
    requires Run(states, steps) && DistinctValues(states, steps)
    ensures var ls := states[|steps|].leases; forall i, j :: 0 <= i < j < |ls| ==> ls[i].value != ls[j].value
  {
    if steps != [] {
      var n := |steps| - 1;
      DistinctLeases(states[..n + 1], steps[..n]);
      assert states[n + 1] == After(states[n], steps[n]);
    }
  }

  /** Distinct values are enough. */
  lemma {:induction false} DistinctValuesExclusive(states: seq<State>, steps: seq<Step>)
    requires Run(states, steps) && DistinctValues(states, steps)
    ensures NoneFreesAnother(states, steps) && Exclusive(states)
  {
    forall k | 0 <= k < |steps| ensures !FreesAnother(states[k], steps[k]) {
      RunPrefix(states, steps, k);
      DistinctLeases(states[..k + 1], steps[..k]);
      RunKeepsLatest(states[..k + 1], steps[..k]);
    }
    ExclusiveIff(states, steps);
  }

  /**
   With a value used twice they need not be: the release of the lapsed first lease frees the key of the
   second, and a third client acquires while the second holds.
   */
  lemma {:induction false} SameValueFreesTheNext(value: string)
    ensures var s0 := State(None, 0, []);
            var s := After(After(After(s0, Acquire(1, value, 10)), Tick(10)), Acquire(2, value, 10));
            var r := After(After(s, Release(0)), Acquire(3, value, 10));
            && |s.leases| == 2 && Holds(s, 1) && FreesAnother(s, Release(0))
            && |r.leases| == 3 && Holds(r, 1) && Holds(r, 2)
  {
    var s1 := After(State(None, 0, []), Acquire(1, value, 10));
    assert s1 == State(Some(Entry(value, 10)), 0, [Lease(1, value, 10, false)]);
    assert After(s1, Tick(10)) == State(Some(Entry(value, 10)), 10, s1.leases);
  }
}
