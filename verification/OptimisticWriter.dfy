/**
 The optimistic read-modify-write of `config.data` (spaces.service.ts, `updateConfigDataOptimistic`).

 Many calls run at once. Each one repeats read / mutate / compare-version / write; its last
 attempt writes without comparing. Reads and writes are single database statements, so an
 execution is an interleaving of them. The fields `since`, `at` and `seen` and the log
 `commits` are history: no step looks at them to decide what to do.
 */
module OptimisticWriter {
  import opened Common

  datatype Row<D> = Row(data: D, version: nat)

  datatype Call<D> =
    // About to read, for the attempt with this number; `since` = commits before its first read.
    | Ready(attempt: nat, since: nat)
    // Has read `row` and computed the new data from it; about to write.
    | Holding(attempt: nat, since: nat, row: Row<D>)
    // Has returned; `at` is the position of its commit, made from version `seen`.
    | Returned(since: nat, at: Option<nat>, seen: nat)
    // Has thrown because the configuration was missing at a read.
    | NotFound

  datatype Sys<D> = Sys(stored: Option<Row<D>>, calls: seq<Call<D>>, commits: seq<nat>)

  datatype Action = Turn(call: nat) | DeleteConfig

  function Start<D>(row: Row<D>, n: nat): (s: Sys<D>) {
    Sys(Some(row), seq(n, _ => Ready(0, 0)), [])
  }

  function Read<D>(s: Sys<D>, i: nat): (t: Sys<D>)
    requires i < |s.calls| && s.calls[i].Ready?
  {
    var call := s.calls[i];
    match s.stored
    case None => s.(calls := s.calls[i := NotFound])
    case Some(row) =>
      var since := if call.attempt == 0 then |s.commits| else call.since;
      s.(calls := s.calls[i := Holding(call.attempt, since, row)])
  }

  function Write<D>(s: Sys<D>, i: nat, mutate: D -> D, maxRetries: nat): (t: Sys<D>)
    requires i < |s.calls| && s.calls[i].Holding?
  {
    var call := s.calls[i];
    var last := call.attempt == maxRetries;
    if s.stored.Some? && (last || s.stored.value.version == call.row.version) then
      Sys(Some(Row(mutate(call.row.data), s.stored.value.version + 1)),
          s.calls[i := Returned(call.since, Some(|s.commits|), call.row.version)],
          s.commits + [i])
    else if last then
      s.(calls := s.calls[i := Returned(call.since, None, call.row.version)])
    else
      s.(calls := s.calls[i := Ready(call.attempt + 1, call.since)])
  }

  /** One atomic step. A call that has returned or thrown does nothing more. */
  function Step<D>(s: Sys<D>, a: Action, mutate: seq<D -> D>, maxRetries: nat): (t: Sys<D>)
    requires |mutate| == |s.calls|
    ensures |t.calls| == |s.calls|
  {
    match a
    case DeleteConfig => s.(stored := None)
    case Turn(i) =>
      if i >= |s.calls| then s
      else match s.calls[i]
        case Ready(_, _) => Read(s, i)
        case Holding(_, _, _) => Write(s, i, mutate[i], maxRetries)
        case _ => s
  }

  function Exec<D>(s: Sys<D>, run: seq<Action>, mutate: seq<D -> D>, maxRetries: nat): (t: Sys<D>)
    requires |mutate| == |s.calls|
    ensures |t.calls| == |s.calls|
  {
    if run == [] then s
    else Step(Exec(s, run[..|run| - 1], mutate, maxRetries), run[|run| - 1], mutate, maxRetries)
  }

  lemma {:induction false} ExecAppend<D>(s: Sys<D>, run: seq<Action>, more: seq<Action>, mutate: seq<D -> D>,
                                         maxRetries: nat)
    requires |mutate| == |s.calls|
    ensures Exec(s, run + more, mutate, maxRetries) == Exec(Exec(s, run, mutate, maxRetries), more, mutate, maxRetries)
  {
    if more == [] {
      assert run + more == run;
    } else {
      var n := |more| - 1;
      assert (run + more)[..|run + more| - 1] == run + more[..n];
      ExecAppend(s, run, more[..n], mutate, maxRetries);
    }
  }

  /** The reference outcome: the mutations applied one after the other, in the order of `commits`. */
  function Replay<D>(start: D, commits: seq<nat>, mutate: seq<D -> D>): (d: D)
    requires forall p :: 0 <= p < |commits| ==> commits[p] < |mutate|
  {
    if commits == [] then start
    else mutate[commits[|commits| - 1]](Replay(start, commits[..|commits| - 1], mutate))
  }

  // ----- What every step keeps ------------------------------------------------------------

  /**
   What is true of call `i` throughout: a failed attempt has seen a further commit by somebody
   else, and a commit from an old version was the last of `maxRetries + 1` attempts.
   */
  ghost predicate CallOk<D>(s: Sys<D>, i: nat, v0: nat, maxRetries: nat)
    requires i < |s.calls|
  {
    match s.calls[i]
    case Ready(attempt, since) =>
      attempt <= maxRetries && (attempt > 0 && s.stored.Some? ==> since + attempt <= |s.commits|)
    case Holding(attempt, since, row) =>
      attempt <= maxRetries && (s.stored.Some? ==> v0 + since + attempt <= row.version <= v0 + |s.commits|)
    case Returned(since, at, seen) =>
      && (s.stored.Some? ==> at.Some?)
      && (at.Some? ==> since <= at.value < |s.commits| && s.commits[at.value] == i && seen <= v0 + at.value)
      && (at.Some? && seen < v0 + at.value ==> v0 + since + maxRetries <= seen)
    case NotFound => s.stored.None?
  }

  /** Entry `p` of the log is the one commit of the call it names. */
  ghost predicate EntryOk<D>(s: Sys<D>, p: nat)
    requires p < |s.commits|
  {
    s.commits[p] < |s.calls| && s.calls[s.commits[p]].Returned? && s.calls[s.commits[p]].at == Some(p)
  }

  ghost predicate Inv<D>(s: Sys<D>, v0: nat, maxRetries: nat) {
    && (s.stored.Some? ==> s.stored.value.version == v0 + |s.commits|)
    && (forall i :: 0 <= i < |s.calls| ==> CallOk(s, i, v0, maxRetries))
    && (forall p :: 0 <= p < |s.commits| ==> EntryOk(s, p))
  }

  lemma {:induction false} EntriesStep<D>(s: Sys<D>, a: Action, mutate: seq<D -> D>, v0: nat, maxRetries: nat)
    requires |mutate| == |s.calls| && Inv(s, v0, maxRetries)
    ensures var t := Step(s, a, mutate, maxRetries); forall p :: 0 <= p < |t.commits| ==> EntryOk(t, p)
  {
    var t := Step(s, a, mutate, maxRetries);
    forall p | 0 <= p < |t.commits| ensures EntryOk(t, p) {
      if p < |s.commits| {
        assert EntryOk(s, p);
      }
    }
  }

  lemma {:induction false} InvStep<D>(s: Sys<D>, a: Action, mutate: seq<D -> D>, v0: nat, maxRetries: nat)
    requires |mutate| == |s.calls| && Inv(s, v0, maxRetries)
    ensures Inv(Step(s, a, mutate, maxRetries), v0, maxRetries)
  {
    var t := Step(s, a, mutate, maxRetries);
    forall i | 0 <= i < |t.calls| ensures CallOk(t, i, v0, maxRetries) {
      assert CallOk(s, i, v0, maxRetries);
    }
    EntriesStep(s, a, mutate, v0, maxRetries);
  }

  lemma {:induction false} InvRun<D>(row: Row<D>, run: seq<Action>, mutate: seq<D -> D>, maxRetries: nat)
    ensures Inv(Exec(Start(row, |mutate|), run, mutate, maxRetries), row.version, maxRetries)
  {
    if run != [] {
      InvRun(row, run[..|run| - 1], mutate, maxRetries);
      InvStep(Exec(Start(row, |mutate|), run[..|run| - 1], mutate, maxRetries), run[|run| - 1], mutate, row.version,
              maxRetries);
    }
  }

  // ----- When no update is lost -----------------------------------------------------------

  /** Every commit so far was made from the version it replaced. */
  ghost predicate NoStaleCommit<D>(s: Sys<D>, v0: nat) {
    forall i :: 0 <= i < |s.calls| && s.calls[i].Returned? && s.calls[i].at.Some? ==>
      s.calls[i].seen == v0 + s.calls[i].at.value
  }

  /** Number of commits by others between the first read of call `i` and its write. */
  function Overtaken<D>(s: Sys<D>, i: nat): (n: int)
    requires i < |s.calls| && s.calls[i].Returned? && s.calls[i].at.Some?
  {
    s.calls[i].at.value - s.calls[i].since
  }

  ghost predicate FewOvertake<D>(s: Sys<D>, maxRetries: nat) {
    forall i :: 0 <= i < |s.calls| && s.calls[i].Returned? && s.calls[i].at.Some? ==>
      Overtaken(s, i) <= maxRetries
  }

  ghost predicate LogInRange<D>(s: Sys<D>) {
    forall p :: 0 <= p < |s.commits| ==> s.commits[p] < |s.calls|
  }

  lemma {:induction false} InvInRange<D>(s: Sys<D>, v0: nat, maxRetries: nat)
    requires Inv(s, v0, maxRetries)
    ensures LogInRange(s) && Distinct(s.commits)
  {
    forall p | 0 <= p < |s.commits| ensures s.commits[p] < |s.calls| && s.calls[s.commits[p]].Returned?
        && s.calls[s.commits[p]].at == Some(p) {
      assert EntryOk(s, p);
    }
  }

  /** While no commit was stale, a version number determines the data it was stored with. */
  ghost predicate Faithful<D>(s: Sys<D>, row: Row<D>, mutate: seq<D -> D>)
    requires |mutate| == |s.calls| && LogInRange(s)
  {
    && (s.stored.Some? ==> s.stored.value.data == Replay(row.data, s.commits, mutate))
    && (s.stored.Some? ==> forall i :: 0 <= i < |s.calls| && s.calls[i].Holding? ==>
          HoldsOld(s, row, mutate, s.calls[i].row))
  }

  /** What a call has read is the data as it was at the version it read. */
  ghost predicate HoldsOld<D>(s: Sys<D>, row: Row<D>, mutate: seq<D -> D>, held: Row<D>)
    requires LogInRange(s) && |mutate| == |s.calls|
  {
    row.version <= held.version <= row.version + |s.commits|
        && held.data == Replay(row.data, s.commits[..held.version - row.version], mutate)
  }

  lemma {:induction false} FaithfulStep<D>(s: Sys<D>, a: Action, row: Row<D>, mutate: seq<D -> D>, maxRetries: nat)
    requires |mutate| == |s.calls| && Inv(s, row.version, maxRetries) && LogInRange(s)
    requires LogInRange(Step(s, a, mutate, maxRetries))
    requires NoStaleCommit(Step(s, a, mutate, maxRetries), row.version)
    requires Faithful(s, row, mutate)
    ensures Faithful(Step(s, a, mutate, maxRetries), row, mutate)
  {
    var t := Step(s, a, mutate, maxRetries);
    if t.stored.Some? {
      assert s.commits[..|s.commits|] == s.commits;
      if t.commits != s.commits {
        assert t.calls[a.call].seen == row.version + |s.commits|;
        assert CallOk(s, a.call, row.version, maxRetries);
        assert t.commits[..|s.commits|] == s.commits;
      }
      forall i | 0 <= i < |t.calls| && t.calls[i].Holding? ensures HoldsOld(t, row, mutate, t.calls[i].row) {
        if t.calls[i] == s.calls[i] {
          assert HoldsOld(s, row, mutate, s.calls[i].row);
          assert t.commits[..t.calls[i].row.version - row.version] == s.commits[..t.calls[i].row.version - row.version];
        }
      }
    }
  }

  lemma {:induction false} NoStaleBefore<D>(s: Sys<D>, a: Action, v0: nat, mutate: seq<D -> D>, maxRetries: nat)
    requires |mutate| == |s.calls| && NoStaleCommit(Step(s, a, mutate, maxRetries), v0)
    ensures NoStaleCommit(s, v0)
  {
    var t := Step(s, a, mutate, maxRetries);
    forall i | 0 <= i < |s.calls| && s.calls[i].Returned? && s.calls[i].at.Some?
      ensures s.calls[i].seen == v0 + s.calls[i].at.value
    {
      assert t.calls[i] == s.calls[i];
    }
  }

  lemma {:induction false} FaithfulRun<D>(row: Row<D>, run: seq<Action>, mutate: seq<D -> D>, maxRetries: nat)
    requires NoStaleCommit(Exec(Start(row, |mutate|), run, mutate, maxRetries), row.version)
    ensures var s := Exec(Start(row, |mutate|), run, mutate, maxRetries);
            LogInRange(s) && Faithful(s, row, mutate)
  {
    InvRun(row, run, mutate, maxRetries);
    InvInRange(Exec(Start(row, |mutate|), run, mutate, maxRetries), row.version, maxRetries);
    if run != [] {
      var s, a := Exec(Start(row, |mutate|), run[..|run| - 1], mutate, maxRetries), run[|run| - 1];
      NoStaleBefore(s, a, row.version, mutate, maxRetries);
      FaithfulRun(row, run[..|run| - 1], mutate, maxRetries);
      InvRun(row, run[..|run| - 1], mutate, maxRetries);
      FaithfulStep(s, a, row, mutate, maxRetries);
    }
  }

  /** The bound: a call overtaken at most `maxRetries` times commits from the current version. */
  lemma {:induction false} FewOvertakeNoStale<D>(row: Row<D>, run: seq<Action>, mutate: seq<D -> D>, maxRetries: nat)
    requires FewOvertake(Exec(Start(row, |mutate|), run, mutate, maxRetries), maxRetries)
    ensures NoStaleCommit(Exec(Start(row, |mutate|), run, mutate, maxRetries), row.version)
  {
    var s := Exec(Start(row, |mutate|), run, mutate, maxRetries);
    InvRun(row, run, mutate, maxRetries);
    forall i | 0 <= i < |s.calls| && s.calls[i].Returned? && s.calls[i].at.Some?
      ensures s.calls[i].seen == row.version + s.calls[i].at.value
    {
      assert Overtaken(s, i) <= maxRetries && CallOk(s, i, row.version, maxRetries);
    }
  }

  /**
   The stored data is the mutations folded in commit order, the version counts the commits, no call
   commits twice, and (while the configuration exists) every call that returned has committed.
   */
  ghost predicate NothingLost<D>(row: Row<D>, s: Sys<D>, mutate: seq<D -> D>)
    requires |mutate| == |s.calls|
  {
    && Distinct(s.commits)
    && (forall p :: 0 <= p < |s.commits| ==> s.commits[p] < |mutate|)
    && (s.stored.Some? ==>
          && s.stored.value == Row(Replay(row.data, s.commits, mutate), row.version + |s.commits|)
          && forall i :: 0 <= i < |mutate| && (s.calls[i].Returned? || s.calls[i].NotFound?) ==> i in s.commits)
  }

  /** Main result: in every interleaving in which each call is overtaken at most `maxRetries` times, nothing is lost. */
  lemma {:induction false} NoUpdateLost<D>(row: Row<D>, run: seq<Action>, mutate: seq<D -> D>, maxRetries: nat)
    requires FewOvertake(Exec(Start(row, |mutate|), run, mutate, maxRetries), maxRetries)
    ensures NothingLost(row, Exec(Start(row, |mutate|), run, mutate, maxRetries), mutate)
  {
    var s := Exec(Start(row, |mutate|), run, mutate, maxRetries);
    InvRun(row, run, mutate, maxRetries);
    InvInRange(s, row.version, maxRetries);
    FewOvertakeNoStale(row, run, mutate, maxRetries);
    FaithfulRun(row, run, mutate, maxRetries);
    forall i | 0 <= i < |mutate| && s.stored.Some? && (s.calls[i].Returned? || s.calls[i].NotFound?)
        ensures i in s.commits {
      assert CallOk(s, i, row.version, maxRetries);
    }
  }

  /** With at most `maxRetries + 1` one-shot calls the bound always holds, whatever the schedule. */
  lemma {:induction false} FewCallsFewOvertake<D>(row: Row<D>, run: seq<Action>, mutate: seq<D -> D>, maxRetries: nat)
    requires |mutate| <= maxRetries + 1
    ensures FewOvertake(Exec(Start(row, |mutate|), run, mutate, maxRetries), maxRetries)
  {
    var s := Exec(Start(row, |mutate|), run, mutate, maxRetries);
    InvRun(row, run, mutate, maxRetries);
    InvInRange(s, row.version, maxRetries);
    forall i | 0 <= i < |s.calls| && s.calls[i].Returned? && s.calls[i].at.Some?
      ensures Overtaken(s, i) <= maxRetries
    {
      assert CallOk(s, i, row.version, maxRetries);
      var overtaking := s.commits[s.calls[i].since..s.calls[i].at.value];
      forall p | 0 <= p < |overtaking| ensures overtaking[p] in Below(|mutate|) - {i} {
        assert overtaking[p] == s.commits[s.calls[i].since + p];
        assert EntryOk(s, s.calls[i].since + p);
      }
      DistinctFits(overtaking, Below(|mutate|) - {i});
    }
  }

  function Below(n: nat): (s: set<nat>)
    ensures |s| == n && forall j: nat :: j in s <==> j < n
  {
    if n == 0 then {} else Below(n - 1) + {n - 1}
  }

  // ----- Exactly when an update is lost ---------------------------------------------------

  /** Mutations that only add their own name: the data shows which updates survived. */
  function Tagging(n: nat): (m: seq<seq<nat> -> seq<nat>>)
    ensures |m| == n
    ensures forall i :: 0 <= i < n ==> forall d: seq<nat> :: m[i](d) == d + [i]
  {
    seq(n, i => (d: seq<nat>) => d + [i])
  }

  ghost predicate Stale<D>(c: Call<D>, v0: nat) {
    c.Returned? && c.at.Some? && c.seen != v0 + c.at.value
  }

  /** A stale commit lies before version `v`. */
  ghost predicate StaleBefore<D>(s: Sys<D>, v0: nat, v: nat) {
    exists j :: 0 <= j < |s.calls| && Stale(s.calls[j], v0) && v0 + s.calls[j].at.value < v
  }

  /** Data stored with version `v` is no longer than the `v - v0` commits before it, and shorter after a stale one. */
  ghost predicate ShortRow(s: Sys<seq<nat>>, row: Row<seq<nat>>, v0: nat) {
    && v0 <= row.version
    && |row.data| <= row.version - v0
    && (StaleBefore(s, v0, row.version) ==> |row.data| < row.version - v0)
  }

  ghost predicate Shortened(s: Sys<seq<nat>>, v0: nat) {
    s.stored.Some? ==>
      && ShortRow(s, s.stored.value, v0)
      && forall i :: 0 <= i < |s.calls| && s.calls[i].Holding? ==> ShortRow(s, s.calls[i].row, v0)
  }

  lemma {:induction false} ShortenedStep(s: Sys<seq<nat>>, a: Action, v0: nat, maxRetries: nat)
    requires Inv(s, v0, maxRetries) && Shortened(s, v0)
    ensures Shortened(Step(s, a, Tagging(|s.calls|), maxRetries), v0)
  {
    var t := Step(s, a, Tagging(|s.calls|), maxRetries);
    if t.stored.Some? && a.Turn? && a.call < |s.calls| {
      forall v: nat | v <= v0 + |s.commits| && StaleBefore(t, v0, v) ensures StaleBefore(s, v0, v) {
        var j :| 0 <= j < |t.calls| && Stale(t.calls[j], v0) && v0 + t.calls[j].at.value < v;
        assert t.calls[j] == s.calls[j];
      }
      assert CallOk(s, a.call, v0, maxRetries);
      if t.commits != s.commits {
        var row := s.calls[a.call].row;
        assert t.stored.value.data == row.data + [a.call];
        if StaleBefore(t, v0, t.stored.value.version) && row.version == s.stored.value.version {
          var j :| 0 <= j < |t.calls| && Stale(t.calls[j], v0) && v0 + t.calls[j].at.value < t.stored.value.version;
          assert j != a.call && Stale(s.calls[j], v0) && CallOk(s, j, v0, maxRetries);
          assert StaleBefore(s, v0, row.version);
        }
      }
      forall i | 0 <= i < |t.calls| && t.calls[i].Holding? ensures ShortRow(t, t.calls[i].row, v0) {
        assert CallOk(s, i, v0, maxRetries);
      }
    }
  }

  lemma {:induction false} ShortenedRun(v0: nat, run: seq<Action>, n: nat, maxRetries: nat)
    ensures Shortened(Exec(Start(Row([], v0), n), run, Tagging(n), maxRetries), v0)
  {
    if run != [] {
      var s := Exec(Start(Row([], v0), n), run[..|run| - 1], Tagging(n), maxRetries);
      ShortenedRun(v0, run[..|run| - 1], n, maxRetries);
      InvRun(Row([], v0), run[..|run| - 1], Tagging(n), maxRetries);
      ShortenedStep(s, run[|run| - 1], v0, maxRetries);
    }
  }

  /**
   The exact condition. With tagging mutations, nothing is lost if and only if no call's
   unconditional last attempt wrote over a version other than the one it had read.
   */
  lemma {:induction false} LosslessIff(v0: nat, run: seq<Action>, n: nat, maxRetries: nat)
    ensures var s := Exec(Start(Row([], v0), n), run, Tagging(n), maxRetries);
            && (forall p :: 0 <= p < |s.commits| ==> s.commits[p] < n)
            && (s.stored.Some? ==>
                  (s.stored.value.data == Replay([], s.commits, Tagging(n)) <==> NoStaleCommit(s, v0)))
  {
    var s := Exec(Start(Row([], v0), n), run, Tagging(n), maxRetries);
    InvRun(Row([], v0), run, Tagging(n), maxRetries);
    InvInRange(s, v0, maxRetries);
    TaggedReplay(s.commits, n);
    if NoStaleCommit(s, v0) {
      FaithfulRun(Row([], v0), run, Tagging(n), maxRetries);
    } else if s.stored.Some? {
      ShortenedRun(v0, run, n, maxRetries);
      var j :| 0 <= j < |s.calls| && Stale(s.calls[j], v0);
      assert CallOk(s, j, v0, maxRetries);
      assert StaleBefore(s, v0, s.stored.value.version);
    }
  }

  lemma {:induction false} TaggedReplay(commits: seq<nat>, n: nat)
    requires forall p :: 0 <= p < |commits| ==> commits[p] < n
    ensures Replay([], commits, Tagging(n)) == commits
  {
    if commits != [] {
      TaggedReplay(commits[..|commits| - 1], n);
      assert commits[..|commits| - 1] + [commits[|commits| - 1]] == commits;
    }
  }

  // ----- The bound is sharp ---------------------------------------------------------------

  /** Call 0 reads, call `k + 1` commits, call 0 tries to write: once for each of its attempts. */
  function Rounds(n: nat): (run: seq<Action>) {
    if n == 0 then [] else Rounds(n - 1) + [Turn(0), Turn(n), Turn(n), Turn(0)]
  }

  function UpTo(n: nat): (xs: seq<nat>)
    ensures |xs| == n && forall i :: 0 <= i < n ==> xs[i] == i + 1
  {
    seq(n, i => i + 1)
  }

  /** `n` calls at once, after `r` such rounds. */
  function AfterRound(r: nat, n: nat, maxRetries: nat): (t: Sys<seq<nat>>)
    ensures |t.calls| == n
  {
    Exec(Start(Row([], 0), n), Rounds(r), Tagging(n), maxRetries)
  }

  lemma {:induction false} AfterRounds(r: nat, n: nat, maxRetries: nat)
    requires r <= maxRetries && maxRetries + 1 < n
    ensures var s := AfterRound(r, n, maxRetries);
            && s.stored == Some(Row(UpTo(r), r)) && s.commits == UpTo(r)
            && s.calls[0] == Ready(r, 0)
            && forall j :: r < j < n ==> s.calls[j] == Ready(0, 0)
  {
    if r > 0 {
      AfterRounds(r - 1, n, maxRetries);
      OneRound(r, n, maxRetries);
      assert UpTo(r - 1) + [r] == UpTo(r);
    }
  }

  lemma {:induction false} OneRound(r: nat, n: nat, maxRetries: nat)
    requires 0 < r <= maxRetries + 1 < n
    ensures var before, mutate := AfterRound(r - 1, n, maxRetries), Tagging(n);
            AfterRound(r, n, maxRetries)
            == Step(Step(Step(Step(before, Turn(0), mutate, maxRetries), Turn(r), mutate, maxRetries),
                         Turn(r), mutate, maxRetries), Turn(0), mutate, maxRetries)
  {
    var start, mutate, turns := Start(Row([], 0), n), Tagging(n), [Turn(0), Turn(r), Turn(r), Turn(0)];
    ExecAppend(start, Rounds(r - 1), turns, mutate, maxRetries);
    var s := AfterRound(r - 1, n, maxRetries);
    assert turns[..3] == [Turn(0), Turn(r), Turn(r)] && turns[..3][..2] == [Turn(0), Turn(r)]
           && turns[..3][..2][..1] == [Turn(0)];
    assert Exec(s, turns[..3][..2][..1], mutate, maxRetries) == Step(s, Turn(0), mutate, maxRetries);
    assert Exec(s, turns[..3][..2], mutate, maxRetries) ==
           Step(Step(s, Turn(0), mutate, maxRetries), Turn(r), mutate, maxRetries);
  }

  /** One commit more by others than the bound allows, and the last of them can be overwritten. */
  lemma {:induction false} BoundIsSharp(n: nat, maxRetries: nat)
    requires maxRetries + 1 < n
    ensures var s := AfterRound(maxRetries + 1, n, maxRetries);
            && s.calls[0].Returned? && s.calls[0].at.Some? && Overtaken(s, 0) == maxRetries + 1
            && s.stored.Some? && maxRetries + 1 in s.commits && maxRetries + 1 !in s.stored.value.data
  {
    AfterRounds(maxRetries, n, maxRetries);
    OneRound(maxRetries + 1, n, maxRetries);
  }

  lemma {:induction false} SomethingLost(n: nat, maxRetries: nat)
    requires maxRetries + 1 < n
    ensures !NothingLost(Row([], 0), AfterRound(maxRetries + 1, n, maxRetries), Tagging(n))
  {
    var s := AfterRound(maxRetries + 1, n, maxRetries);
    BoundIsSharp(n, maxRetries);
    if NothingLost(Row([], 0), s, Tagging(n)) {
      TaggedReplay(s.commits, n);
    }
  }

  /** Whatever the data, the mutations and the schedule, `n` calls at once lose nothing. */
  ghost predicate CallsLoseNothing(n: nat, maxRetries: nat) {
    forall row: Row<seq<nat>>, run, mutate: seq<seq<nat> -> seq<nat>> :: |mutate| == n ==>
      NothingLost(row, Exec(Start(row, n), run, mutate, maxRetries), mutate)
  }

  /** How many calls at once are safe under every schedule: exactly one more than there are retries. */
  lemma {:induction false} CallsLoseNothingIff(n: nat, maxRetries: nat)
    ensures CallsLoseNothing(n, maxRetries) <==> n <= maxRetries + 1
  {
    if n <= maxRetries + 1 {
      forall row: Row<seq<nat>>, run, mutate: seq<seq<nat> -> seq<nat>> | |mutate| == n
        ensures NothingLost(row, Exec(Start(row, n), run, mutate, maxRetries), mutate)
      {
        FewCallsFewOvertake(row, run, mutate, maxRetries);
        NoUpdateLost(row, run, mutate, maxRetries);
      }
    } else {
      SomethingLost(n, maxRetries);
      assert |Tagging(n)| == n;
    }
  }

  /** The first `n` attempts of call `i`: others act, it reads; others act, it writes. */
  function Attempts(i: nat, beforeRead: seq<seq<Action>>, beforeWrite: seq<seq<Action>>, n: nat): (run: seq<Action>)
    requires n <= |beforeRead| == |beforeWrite|
  {
    if n == 0 then []
    else Attempts(i, beforeRead, beforeWrite, n - 1) +
         (beforeRead[n - 1] + [Turn(i)]) + (beforeWrite[n - 1] + [Turn(i)])
  }

  /** The run of a call that ends in attempt `n`: at its read when it throws, at its write when it returns. */
  function RunUpTo(i: nat, beforeRead: seq<seq<Action>>, beforeWrite: seq<seq<Action>>, n: nat,
                   thrown: bool): (run: seq<Action>)
    requires n < |beforeRead| == |beforeWrite|
  {
    if thrown then Attempts(i, beforeRead, beforeWrite, n) + (beforeRead[n] + [Turn(i)])
        else Attempts(i, beforeRead, beforeWrite, n + 1)
  }

  // ----- The retry loop itself ------------------------------------------------------------

  /** The stored configuration, with the calls in flight on it. */
  class ConfigTable<D> {
    var row: Option<Row<D>>
    var calls: seq<Call<D>>
    var commits: seq<nat>

    constructor (initial: Row<D>, n: nat)
      ensures View() == Start(initial, n)
    {
      row, calls, commits := Some(initial), seq(n, _ => Ready(0, 0)), [];
    }

    function View(): (s: Sys<D>)
      reads this
    {
      Sys(row, calls, commits)
    }

    /** `updateMany`: writes the row that matches the filter, and returns the number of rows written. */
    method UpdateMany(version: Option<nat>, data: D) returns (count: nat)
      modifies this`row
      ensures count == (if old(row).Some? && (version.None? || version.value == old(row).value.version) then 1 else 0)
      ensures row == if count == 1 then Some(Row(data, old(row).value.version + 1)) else old(row)
    {
      if row.Some? && (version.None? || version.value == row.value.version) {
        row := Some(Row(data, row.value.version + 1));
        return 1;
      }
      return 0;
    }

    /** What the rest of the system does meanwhile: any actions except those of call `i`. */
    method Others(i: nat, acts: seq<Action>, mutate: seq<D -> D>, maxRetries: nat)
      requires |mutate| == |calls| && Turn(i) !in acts
      modifies this
      ensures |mutate| == |calls| && View() == Exec(old(View()), acts, mutate, maxRetries)
      ensures i < |calls| ==> calls[i] == old(calls[i])
    {
      for k := 0 to |acts|
        invariant |mutate| == |calls| && View() == Exec(old(View()), acts[..k], mutate, maxRetries)
        invariant i < |calls| ==> calls[i] == old(calls[i])
      {
        assert acts[..k + 1][..k] == acts[..k] && acts[k] != Turn(i);
        var s := Step(View(), acts[k], mutate, maxRetries);
        row, calls, commits := s.stored, s.calls, s.commits;
      }
      assert acts[..|acts|] == acts;
    }

    /** One read of call `i`, after the others have acted. */
    method ReadTurn(i: nat, mutate: seq<D -> D>, maxRetries: nat, others: seq<Action>) returns (found: Option<Row<D>>)
      requires i < |calls| == |mutate| && calls[i].Ready? && Turn(i) !in others
      modifies this
      ensures |mutate| == |calls| && View() == Exec(old(View()), others + [Turn(i)], mutate, maxRetries)
      ensures found.None? ==> calls[i].NotFound?
      ensures found.Some? ==>
                  calls[i].Holding? && calls[i].attempt == old(calls[i]).attempt && calls[i].row == found.value
    {
      ghost var start := View();
      Others(i, others, mutate, maxRetries);
      assert (others + [Turn(i)])[..|others|] == others;
      found := row;
      if found.None? {
        calls := calls[i := NotFound];
      } else {
        var attempt := calls[i].attempt;
        calls := calls[i := Holding(attempt, if attempt == 0 then |commits| else calls[i].since, found.value)];
      }
    }

    /** One write of call `i`, after the others have acted; the last attempt does not compare versions. */
    method WriteTurn(i: nat, mutate: seq<D -> D>, maxRetries: nat, others: seq<Action>, found: Row<D>)
        returns (count: nat)
      requires i < |calls| == |mutate| && calls[i].Holding? && calls[i].row == found && calls[i].attempt <= maxRetries
               && Turn(i) !in others
      modifies this
      ensures |mutate| == |calls| && View() == Exec(old(View()), others + [Turn(i)], mutate, maxRetries)
      ensures if count >= 1 || old(calls[i]).attempt == maxRetries then calls[i].Returned?
              else calls[i].Ready? && calls[i].attempt == old(calls[i]).attempt + 1
    {
      Others(i, others, mutate, maxRetries);
      assert (others + [Turn(i)])[..|others|] == others;
      var since, attempt := calls[i].since, calls[i].attempt;
      count := UpdateMany(if attempt == maxRetries then None else Some(found.version), mutate[i](found.data));
      if count >= 1 {
        calls := calls[i := Returned(since, Some(|commits|), found.version)];
        commits := commits + [i];
      } else if attempt == maxRetries {
        calls := calls[i := Returned(since, None, found.version)];
      } else {
        calls := calls[i := Ready(attempt + 1, since)];
      }
    }

    /**
     Call `i`, from its first read to its return, while others act as they please before each of
     its reads and each of its writes. It is one execution of the interleaving model (`run`), of
     exactly those actions and its own reads and writes; it ends by having returned, or by throwing
     because the configuration was missing.
     */
    method UpdateConfigDataOptimistic(i: nat, mutate: seq<D -> D>, maxRetries: nat,
                                      beforeRead: seq<seq<Action>>, beforeWrite: seq<seq<Action>>)
      returns (thrown: bool, ghost run: seq<Action>)
      requires i < |calls| == |mutate| && calls[i] == Ready(0, 0)
      requires |beforeRead| == |beforeWrite| == maxRetries + 1
      requires forall k :: 0 <= k <= maxRetries ==> Turn(i) !in beforeRead[k] && Turn(i) !in beforeWrite[k]
      modifies this
      ensures |mutate| == |calls| && View() == Exec(old(View()), run, mutate, maxRetries)
      ensures if thrown then calls[i].NotFound? else calls[i].Returned?
      ensures exists n :: 0 <= n <= maxRetries && run == RunUpTo(i, beforeRead, beforeWrite, n, thrown)
    {
      ghost var start := View();
      run := [];
      for attempt := 0 to maxRetries + 1
        invariant |mutate| == |calls| && View() == Exec(start, run, mutate, maxRetries)
        invariant if attempt <= maxRetries then calls[i].Ready? && calls[i].attempt == attempt
                  else calls[i].Returned?
        invariant run == Attempts(i, beforeRead, beforeWrite, attempt)
      {
        ExecAppend(start, run, beforeRead[attempt] + [Turn(i)], mutate, maxRetries);
        run := run + (beforeRead[attempt] + [Turn(i)]);
        var found := ReadTurn(i, mutate, maxRetries, beforeRead[attempt]);
        if found.None? {
          assert run == RunUpTo(i, beforeRead, beforeWrite, attempt, true);
          return true, run;
        }
        ExecAppend(start, run, beforeWrite[attempt] + [Turn(i)], mutate, maxRetries);
        run := run + (beforeWrite[attempt] + [Turn(i)]);
        var count := WriteTurn(i, mutate, maxRetries, beforeWrite[attempt], found.value);
        assert run == RunUpTo(i, beforeRead, beforeWrite, attempt, false);
        if count >= 1 {
          return false, run;
        }
      }
      assert run == RunUpTo(i, beforeRead, beforeWrite, maxRetries, false);
      return false, run;
    }
  }
}
