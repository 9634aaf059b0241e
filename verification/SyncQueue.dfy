/**
 The queue of favorites/sync.go that copies favorite changes to a provider.

 A run is any interleaving of Enqueue calls with the steps of the functions Enqueue returned. Such a function
 holds callMu from its first step to its last, so at most one of them is between its steps; it may be called from
 any goroutine, in any order, and more than once. Each lock-protected section is one step.
 */
module SyncQueue {

  /** The two maps guarded by mu, and the sections that use them. */
  class Queue {
    var next: nat
    var latest: map<string, nat>

    constructor ()
      ensures next == 0 && latest == map[]
    {
      next, latest := 0, map[];
    }

    /** Enqueue under mu: the sequence number its function will carry. */
    method Enqueue(path: string) returns (number: nat)
      modifies this
      ensures (next, latest) == EnqueuedIn(old(next), old(latest), path)
      ensures number == next
    {
      next := next + 1;
      number := next;
      latest := latest[path := number];
    }

    method IsStale(path: string, number: nat) returns (stale: bool)
      ensures stale == StaleIn(latest, path, number)
    {
      stale := path !in latest || latest[path] != number;
    }

    /** The section after apply. */
    method Retire(path: string, number: nat)
      modifies this`latest
      ensures latest == RetiredFrom(old(latest), path, number)
    {
      if path in latest && latest[path] == number {
        latest := latest - {path};
      }
    }
  }

  function EnqueuedIn(next: nat, latest: map<string, nat>, path: string): (nat, map<string, nat>) {
    (next + 1, latest[path := next + 1])
  }

  predicate StaleIn(latest: map<string, nat>, path: string, number: nat) {
    path !in latest || latest[path] != number
  }

  function RetiredFrom(latest: map<string, nat>, path: string, number: nat): map<string, nat> {
    if path in latest && latest[path] == number then latest - {path} else latest
  }

  // ---- Runs ----

  /** Where the function that holds callMu stands. */
  datatype Call = Idle | Locked(number: nat) | Applying(number: nat) | Applied(number: nat)

  /**
   `paths[i]` is the path of the change numbered i + 1. `log` lists the applied numbers in order, and `returned`
   holds the numbers whose function has returned at least once.
   */
  datatype State = State(
    next: nat, latest: map<string, nat>, paths: seq<string>, call: Call, log: seq<nat>, returned: set<nat>)

  const START := State(0, map[], [], Idle, [], {})

  datatype Step = Enqueue(path: string) | Lock(number: nat) | Check | Apply | Retire

  predicate Issued(s: State, number: nat) {
    1 <= number <= |s.paths|
  }

  function PathOf(s: State, number: nat): string
    requires Issued(s, number)
  {
    s.paths[number - 1]
  }

  ghost predicate Next(s: State, step: Step, t: State) {
    match step
    case Enqueue(path) =>
      var (next, latest) := EnqueuedIn(s.next, s.latest, path);
      t == s.(next := next, latest := latest, paths := s.paths + [path])
    case Lock(number) =>
      s.call == Idle && Issued(s, number) && t == s.(call := Locked(number))
    case Check =>
      && s.call.Locked? && Issued(s, s.call.number)
      && t == if StaleIn(s.latest, PathOf(s, s.call.number), s.call.number)
              then s.(call := Idle, returned := s.returned + {s.call.number})
              else s.(call := Applying(s.call.number))
    case Apply =>
      s.call.Applying? && t == s.(call := Applied(s.call.number), log := s.log + [s.call.number])
    case Retire =>
      && s.call.Applied? && Issued(s, s.call.number)
      && t == s.(latest := RetiredFrom(s.latest, PathOf(s, s.call.number), s.call.number),
                 call := Idle, returned := s.returned + {s.call.number})
  }

  /** trace is a run: it starts empty and follows the steps one by one. */
  ghost predicate Run(trace: seq<State>, steps: seq<Step>) {
    && |trace| == |steps| + 1 && trace[0] == START
    && forall i :: 0 <= i < |steps| ==> Next(trace[i], steps[i], trace[i + 1])
  }

  /** The last change enqueued for its path. */
  ghost predicate Newest(s: State, number: nat) {
    Issued(s, number) && s.paths[number - 1] !in s.paths[number..]
  }

  ghost predicate Inv(s: State) {
    && s.next == |s.paths| && (s.call != Idle ==> Issued(s, s.call.number))
    && LatestIsNewest(s) && LogOrdered(s) && NewestPending(s) && ReturnedDone(s)
    && (s.call.Applying? ==> AheadOfLog(s, s.call.number))
    && (s.call.Applied? ==> s.call.number in s.log)
  }

  ghost predicate LatestIsNewest(s: State) {
    forall path :: path in s.latest ==>
      && Newest(s, s.latest[path]) && PathOf(s, s.latest[path]) == path
      && (s.latest[path] in s.log ==> s.call == Applied(s.latest[path]))
      && (s.latest[path] !in s.log ==> AheadOfLog(s, s.latest[path]))
  }

  /** Every applied change of the same path is older. */
  ghost predicate AheadOfLog(s: State, number: nat) {
    Issued(s, number) &&
    forall k :: 0 <= k < |s.log| && Issued(s, s.log[k]) && PathOf(s, s.log[k]) == PathOf(s, number) ==>
           s.log[k] < number
  }

  /** Per path, changes are applied in the order they were enqueued, each at most once. */
  ghost predicate LogOrdered(s: State) {
    && (forall k :: 0 <= k < |s.log| ==> Issued(s, s.log[k]))
    && (forall j, k :: 0 <= j < k < |s.log| && PathOf(s, s.log[j]) == PathOf(s, s.log[k]) ==> s.log[j] < s.log[k])
  }

  /** The newest change of a path was applied or is still the one to apply. */
  ghost predicate NewestPending(s: State) {
    forall number :: Newest(s, number) && number !in s.log ==>
      PathOf(s, number) in s.latest && s.latest[PathOf(s, number)] == number
  }

  /** A function returned because its change was applied or a newer one exists. */
  ghost predicate ReturnedDone(s: State) {
    forall number :: number in s.returned ==> Issued(s, number) && (number in s.log || !Newest(s, number))
  }

  lemma NewestAfterEnqueue(s: State, path: string, t: State)
    requires t.paths == s.paths + [path]
    ensures forall number: nat :: Newest(t, number) <==>
              number == |t.paths| || (Newest(s, number) && PathOf(s, number) != path)
    ensures forall number: nat :: Issued(s, number) ==> Issued(t, number) && PathOf(t, number) == PathOf(s, number)
  {
    forall number: nat ensures Newest(t, number) ==
      (number == |t.paths| || (Newest(s, number) && PathOf(s, number) != path))
    {
      if Issued(s, number) {
        assert t.paths[number..] == s.paths[number..] + [path];
      }
    }
  }

  lemma EnqueueKeepsLatest(s: State, path: string, t: State)
    requires Inv(s) && Next(s, Enqueue(path), t)
    ensures LatestIsNewest(t)
  {
    NewestAfterEnqueue(s, path, t);
    hide Newest, NewestPending, ReturnedDone;
    forall p | p in t.latest
      ensures Newest(t, t.latest[p]) && PathOf(t, t.latest[p]) == p
      ensures t.latest[p] in t.log ==> t.call == Applied(t.latest[p])
      ensures t.latest[p] !in t.log ==> AheadOfLog(t, t.latest[p])
    {
      if p != path {
        assert Newest(s, s.latest[p]) && PathOf(s, s.latest[p]) == p;
      }
    }
  }

  lemma EnqueueKeeps(s: State, path: string, t: State)
    requires Inv(s) && Next(s, Enqueue(path), t)
    ensures Inv(t)
  {
    EnqueueKeepsLatest(s, path, t);
    NewestAfterEnqueue(s, path, t);
    hide Newest, LatestIsNewest;
  }

  lemma NewestIsLast(s: State, m: nat, n: nat)
    requires Newest(s, m) && Issued(s, n) && PathOf(s, n) == PathOf(s, m)
    ensures n <= m
  {
    assert forall k :: m <= k < |s.paths| ==> s.paths[m..][k - m] == s.paths[k];
  }

  lemma NewestByPaths(s: State, t: State)
    requires s.paths == t.paths
    ensures forall number: nat :: Newest(t, number) == Newest(s, number)
  {
  }

  lemma LockKeeps(s: State, number: nat, t: State)
    requires Inv(s) && Next(s, Lock(number), t)
    ensures Inv(t)
  {
    hide Newest;
    NewestByPaths(s, t);
  }

  lemma CheckKeeps(s: State, t: State)
    requires Inv(s) && Next(s, Check, t)
    ensures Inv(t)
  {
    hide Newest;
    NewestByPaths(s, t);
    var n := s.call.number;
    if StaleIn(s.latest, PathOf(s, n), n) {
      hide LatestIsNewest, LogOrdered, AheadOfLog;
      assert LatestIsNewest(t) by { LatestByFields(s, t); }
    } else {
      hide LogOrdered, NewestPending, ReturnedDone;
      SameRest(s, t);
    }
  }

  lemma LatestByFields(s: State, t: State)
    requires LatestIsNewest(s) && t == s.(call := t.call, returned := t.returned) && !s.call.Applied?
    ensures LatestIsNewest(t)
  {
    hide Newest;
    NewestByPaths(s, t);
  }

  lemma SameRest(s: State, t: State)
    requires t == s.(call := t.call)
    ensures LogOrdered(s) ==> LogOrdered(t)
    ensures NewestPending(s) ==> NewestPending(t)
    ensures ReturnedDone(s) ==> ReturnedDone(t)
  {
    hide Newest;
    NewestByPaths(s, t);
  }

  lemma RetireKeeps(s: State, t: State)
    requires Inv(s) && Next(s, Retire, t)
    ensures Inv(t)
  {
    hide Newest;
    NewestByPaths(s, t);
  }

  lemma ApplyKeeps(s: State, t: State)
    requires Inv(s) && Next(s, Apply, t)
    ensures Inv(t)
  {
    hide LatestIsNewest, LogOrdered, NewestPending, ReturnedDone, Newest;
    AppliedLatest(s, t);
    AppliedLog(s, t);
    AppliedRest(s, t);
  }

  lemma AppliedLatest(s: State, t: State)
    requires LatestIsNewest(s) && s.call.Applying? && Issued(s, s.call.number)
    requires t == s.(call := Applied(s.call.number), log := s.log + [s.call.number])
    ensures LatestIsNewest(t)
  {
    var n := s.call.number;
    forall p | p in s.latest && p == PathOf(s, n) ensures n <= s.latest[p] {
      NewestIsLast(s, s.latest[p], n);
    }
    hide Newest;
    NewestByPaths(s, t);
    forall p | p in t.latest && t.latest[p] !in t.log ensures AheadOfLog(t, t.latest[p]) {
      assert AheadOfLog(s, s.latest[p]);
    }
    forall p | p in t.latest && t.latest[p] in t.log ensures t.latest[p] == n {
      assert t.latest[p] in s.log ==> s.call == Applied(s.latest[p]);
    }
  }

  lemma AppliedLog(s: State, t: State)
    requires LogOrdered(s) && s.call.Applying? && AheadOfLog(s, s.call.number)
    requires t == s.(call := Applied(s.call.number), log := s.log + [s.call.number])
    ensures LogOrdered(t)
  {
  }

  lemma AppliedRest(s: State, t: State)
    requires NewestPending(s) && ReturnedDone(s)
    requires t.paths == s.paths && t.latest == s.latest && t.returned == s.returned
    requires forall n :: n in s.log ==> n in t.log
    ensures NewestPending(t) && ReturnedDone(t)
  {
    hide Newest;
    NewestByPaths(s, t);
  }

  lemma {:induction false} RunKeeps(trace: seq<State>, steps: seq<Step>, i: nat)
    requires Run(trace, steps) && i < |trace|
    ensures Inv(trace[i])
  {
    if i > 0 {
      RunKeeps(trace, steps, i - 1);
      var step := steps[i - 1];
      assert Next(trace[i - 1], step, trace[i]);
      match step
      case Enqueue(path) => EnqueueKeeps(trace[i - 1], path, trace[i]);
      case Apply => ApplyKeeps(trace[i - 1], trace[i]);
      case Retire => RetireKeeps(trace[i - 1], trace[i]);
      case Lock(number) => LockKeeps(trace[i - 1], number, trace[i]);
      case Check => CheckKeeps(trace[i - 1], trace[i]);
    }
  }

  /** In every run a change is applied at most once, and never after a newer change of its path. */
  lemma AppliedInOrder(trace: seq<State>, steps: seq<Step>, i: nat, j: nat, k: nat)
    requires Run(trace, steps) && i < |trace| && j < k < |trace[i].log|
    requires Issued(trace[i], trace[i].log[j]) && Issued(trace[i], trace[i].log[k])
    requires PathOf(trace[i], trace[i].log[j]) == PathOf(trace[i], trace[i].log[k])
    ensures trace[i].log[j] < trace[i].log[k]
  {
    RunKeeps(trace, steps, i);
  }

  /** The change that decides what the provider holds for path. */
  function LastApplied(s: State, path: string, n: nat): (r: nat)
    requires n <= |s.log|
    decreases n
  {
    if n == 0 then 0
    else if Issued(s, s.log[n - 1]) && PathOf(s, s.log[n - 1]) == path then s.log[n - 1]
    else LastApplied(s, path, n - 1)
  }

  lemma {:induction false} LastAppliedIs(s: State, number: nat, n: nat)
    requires Inv(s) && n <= |s.log| && number in s.log[..n] && Newest(s, number)
    ensures LastApplied(s, PathOf(s, number), n) == number
    decreases n
  {
    hide LatestIsNewest, NewestPending, ReturnedDone, AheadOfLog, Newest;
    var top := s.log[n - 1];
    var k :| 0 <= k < n && s.log[k] == number;
    if PathOf(s, top) == PathOf(s, number) {
      NewestIsLast(s, number, top);
    } else {
      assert s.log[..n - 1][k] == number;
      LastAppliedIs(s, number, n - 1);
    }
  }

  /**
   Once every function has returned, the last change applied for each path is the last one enqueued for it, and
   the queue remembers nothing.
   */
  lemma NewestChangeWins(trace: seq<State>, steps: seq<Step>)
    requires Run(trace, steps)
    requires var s := trace[|trace| - 1];
             s.call == Idle && forall number: nat :: Issued(s, number) ==> number in s.returned
    ensures var s := trace[|trace| - 1];
            && s.latest == map[]
            && forall number: nat :: Newest(s, number) ==> LastApplied(s, PathOf(s, number), |s.log|) == number
  {
    var s := trace[|trace| - 1];
    RunKeeps(trace, steps, |trace| - 1);
    hide Newest;
    hide AheadOfLog, LogOrdered, NewestPending;
    forall path ensures path !in s.latest {
    }
    forall number: nat | Newest(s, number) ensures LastApplied(s, PathOf(s, number), |s.log|) == number {
      assert Issued(s, number) && number in s.returned;
      assert s.log[..|s.log|] == s.log;
      LastAppliedIs(s, number, |s.log|);
    }
  }

  /** A function that is told its change is stale is right: a newer change exists or its own was applied. */
  lemma StaleMeansSuperseded(trace: seq<State>, steps: seq<Step>, i: nat)
    requires Run(trace, steps) && i < |trace| && trace[i].call.Locked? && Issued(trace[i], trace[i].call.number)
    ensures var s := trace[i]; var number := s.call.number;
            StaleIn(s.latest, PathOf(s, number), number) <==> number in s.log || !Newest(s, number)
  {
    RunKeeps(trace, steps, i);
  }
}
