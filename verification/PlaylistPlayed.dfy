/**
 Which rows have played, carried along a run. Rows are told apart by ids that follow them through every operation, so
 equal tracks are different rows. A row counts as played once it has been the current one.
 */
module PlaylistPlayed {
  import opened Common
  import opened Shuffle
  import opened PlaylistState
  import opened PlaylistInvariant

  /** `ids[i]` names row i; ids from `unused` on are free. */
  datatype Log = Log(s: Snapshot, ids: seq<nat>, unused: nat, played: set<nat>)

  const START := Log(EMPTY, [], 0, {})

  ghost predicate Distinct(ids: seq<nat>) {
    forall i, j :: 0 <= i < j < |ids| ==> ids[i] != ids[j]
  }

  ghost predicate Below(ids: seq<nat>, bound: nat) {
    forall i :: 0 <= i < |ids| ==> ids[i] < bound
  }

  ghost predicate Named(log: Log) {
    && Valid(log.s) && |log.ids| == |log.s.tracks| && Distinct(log.ids) && Below(log.ids, log.unused)
    && forall id :: id in log.played ==> id < log.unused
  }

  function NewIds(unused: nat, n: nat): (r: seq<nat>)
    ensures |r| == n && forall i :: 0 <= i < n ==> r[i] == unused + i
  {
    seq(n, i requires 0 <= i => unused + i)
  }

  /** The rows without the doomed ones below bound, dropped the highest first. */
  function DeletedBelow<T>(rows: seq<T>, doomed: set<int>, bound: nat): seq<T>
    requires bound <= |rows|
    decreases bound
  {
    if bound == 0 then rows
    else DeletedBelow(if bound - 1 in doomed then Deleted(rows, bound - 1) else rows, doomed, bound - 1)
  }

  /** How many rows op loads. */
  function Loaded(s: Snapshot, op: Op): nat {
    match op
    case OpReplace(tracks, _) => |tracks|
    case OpAdd(tracks, _) => |tracks|
    case OpAddSmart(tracks, _) => if s.shuffle then |tracks| else 0
    case _ => 0
  }

  /** The ids after op: they go where it puts the rows. */
  ghost function Follow(log: Log, op: Op): seq<nat>
    requires Named(log)
  {
    var ids, n := log.ids, |log.ids|;
    match op
    case OpReplace(tracks, _) => NewIds(log.unused, |tracks|)
    case OpAdd(_, _) => ids + NewIds(log.unused, Loaded(log.s, op))
    case OpAddSmart(_, _) => ids + NewIds(log.unused, Loaded(log.s, op))
    case OpMove(from, to) => if 0 <= from < n && 0 <= to < n && from != to then Swapped(ids, from, to) else ids
    case OpRemove(i) => if 0 <= i < n then Deleted(ids, i) else ids
    case OpDisableSmart => DeletedBelow(ids, SmartAhead(log.s), n)
    case _ => ids
  }

  /** The played rows, the current one among them. */
  ghost function Marked(played: set<nat>, s: Snapshot, ids: seq<nat>): set<nat>
    requires Valid(s) && |ids| == |s.tracks|
  {
    if s.tracks == [] then played
    else
      CurrentIsRow(s);
      played + {ids[CurrentIndex(s)]}
  }

  lemma CurrentIsRow(s: Snapshot)
    requires Valid(s) && s.tracks != []
    ensures 0 <= CurrentIndex(s) < |s.tracks|
  {
    hide IsPermutation, Identity;
    CursorInRange(s);
  }

  ghost function After(log: Log, op: Op): (t: Log)
    requires Named(log)
    ensures Named(t) && t.s == Apply(log.s, op) && log.played <= t.played
  {
    ApplyValid(log.s, op);
    FollowNamed(log, op);
    var s, ids := Apply(log.s, op), Follow(log, op);
    MarkedBelow(log.played, s, ids, log.unused + Loaded(log.s, op));
    Log(s, ids, log.unused + Loaded(log.s, op), Marked(log.played, s, ids))
  }

  lemma MarkedBelow(played: set<nat>, s: Snapshot, ids: seq<nat>, bound: nat)
    requires Valid(s) && |ids| == |s.tracks| && Below(ids, bound) && forall id :: id in played ==> id < bound
    ensures forall id :: id in Marked(played, s, ids) ==> id < bound
  {
    hide Valid;
    if s.tracks != [] {
      CurrentIsRow(s);
    }
  }

  // ---- Ids follow their rows ----

  lemma {:induction false} DeletedBelowLength<T>(rows: seq<T>, doomed: set<int>, bound: nat)
    requires bound <= |rows|
    ensures |DeletedBelow(rows, doomed, bound)| <= |rows|
    decreases bound
  {
    if bound > 0 {
      DeletedBelowLength(if bound - 1 in doomed then Deleted(rows, bound - 1) else rows, doomed, bound - 1);
    }
  }

  /** x and y stand at the same place of two lists. */
  ghost predicate InPlace<A(!new), B(!new)>(a: seq<A>, b: seq<B>, x: A, y: B)
    requires |a| == |b|
  {
    exists i :: 0 <= i < |a| && x == a[i] && y == b[i]
  }

  /** Two lists lose the same places: what is left of them still belongs together. */
  lemma {:induction false} DeletedTogether<A(!new), B(!new)>(a: seq<A>, b: seq<B>, doomed: set<int>, bound: nat)
    requires bound <= |a| == |b|
    ensures var c, d := DeletedBelow(a, doomed, bound), DeletedBelow(b, doomed, bound);
            |c| == |d| && forall j :: 0 <= j < |c| ==> InPlace(a, b, c[j], d[j])
    decreases bound
  {
    hide Deleted;
    var c, d := DeletedBelow(a, doomed, bound), DeletedBelow(b, doomed, bound);
    if bound == 0 {
      forall j | 0 <= j < |c| ensures InPlace(a, b, c[j], d[j]) {
        assert c[j] == a[j] && d[j] == b[j];
      }
    } else if bound - 1 in doomed {
      var e, f := Deleted(a, bound - 1), Deleted(b, bound - 1);
      DeletedPlaces(a, bound - 1);
      DeletedPlaces(b, bound - 1);
      DeletedTogether(e, f, doomed, bound - 1);
      forall j | 0 <= j < |c| ensures InPlace(a, b, c[j], d[j]) {
        assert InPlace(e, f, c[j], d[j]);
        var k :| 0 <= k < |e| && c[j] == e[k] && d[j] == f[k];
        var i := if k < bound - 1 then k else k + 1;
        assert c[j] == a[i] && d[j] == b[i];
      }
    } else {
      DeletedTogether(a, b, doomed, bound - 1);
      assert c == DeletedBelow(a, doomed, bound - 1) && d == DeletedBelow(b, doomed, bound - 1);
    }
  }

  lemma DeletedPlaces<T>(rows: seq<T>, at: nat)
    requires at < |rows|
    ensures |Deleted(rows, at)| == |rows| - 1
    ensures forall k :: 0 <= k < |rows| - 1 ==> Deleted(rows, at)[k] == rows[if k < at then k else k + 1]
  {
  }

  /** A row stays unless it is doomed. */
  lemma {:induction false} DeletedBelowKeeps(ids: seq<nat>, doomed: set<int>, bound: nat, i: nat)
    requires bound <= |ids| && i < |ids| && Distinct(ids)
    ensures ids[i] in DeletedBelow(ids, doomed, bound) <==> !(i in doomed && i < bound)
    ensures Distinct(DeletedBelow(ids, doomed, bound))
    ensures forall id :: id in DeletedBelow(ids, doomed, bound) ==> id in ids
    decreases bound
  {
    hide Deleted;
    if bound == 0 {
    } else if bound - 1 in doomed {
      var at := bound - 1;
      var rest := Deleted(ids, at);
      DeletedPlaces(ids, at);
      DeletedDistinct(ids, at);
      if i == at {
        if rest == [] {
          NothingToDelete(rest, doomed, at);
        } else {
          DeletedBelowKeeps(rest, doomed, at, 0);
        }
      } else {
        var k := if i < at then i else i - 1;
        assert rest[k] == ids[i];
        DeletedBelowKeeps(rest, doomed, at, k);
      }
    } else {
      DeletedBelowKeeps(ids, doomed, bound - 1, i);
    }
  }

  lemma NothingToDelete(rest: seq<nat>, doomed: set<int>, at: nat)
    requires rest == [] && at == 0
    ensures DeletedBelow(rest, doomed, at) == []
  {
  }

  lemma DeletedDistinct(ids: seq<nat>, at: nat)
    requires at < |ids| && Distinct(ids)
    ensures Distinct(Deleted(ids, at)) && ids[at] !in Deleted(ids, at)
    ensures forall id :: id in Deleted(ids, at) ==> id in ids
  {
  }

  lemma FollowNamed(log: Log, op: Op)
    requires Named(log)
    ensures Valid(Apply(log.s, op)) && |Follow(log, op)| == |Apply(log.s, op).tracks|
    ensures Distinct(Follow(log, op)) && Below(Follow(log, op), log.unused + Loaded(log.s, op))
  {
    hide Valid, Apply, Follow;
    ApplyValid(log.s, op);
    TracksFollow(log, op);
    IdsApart(log, op);
  }

  /** After op, row j either is a new one or was the row with the same id, with the same track unless it was set. */
  ghost predicate FollowsRows(log: Log, op: Op, ids: seq<nat>, tracks: seq<Track>) {
    && |ids| == |tracks| && |log.ids| == |log.s.tracks|
    && forall j :: 0 <= j < |ids| ==>
         || ids[j] >= log.unused
         || exists i :: 0 <= i < |log.ids| && ids[j] == log.ids[i] && (op.OpSetTrack? || tracks[j] == log.s.tracks[i])
  }

  /** The tracks an operation leaves, for all but DisableSmart. */
  lemma TracksAfter(s: Snapshot, op: Op)
    requires Valid(s)
    ensures Apply(s, op).tracks ==
            match op
            case OpReplace(tracks, _) => tracks
            case OpAdd(tracks, _) => s.tracks + tracks
            case OpAddSmart(tracks, _) => if s.shuffle then s.tracks + MarkSmart(tracks) else s.tracks
            case OpMove(from, to) =>
              if 0 <= from < |s.tracks| && 0 <= to < |s.tracks| && from != to
              then Swapped(s.tracks, from, to) else s.tracks
            case OpRemove(i) => if 0 <= i < |s.tracks| then Deleted(s.tracks, i) else s.tracks
            case OpDisableSmart => DeletedBelow(s.tracks, SmartAhead(s), |s.tracks|)
            case OpSetTrack(i, track) => if 0 <= i < |s.tracks| then s.tracks[i := track] else s.tracks
            case _ => s.tracks
  {
    hide IsPermutation, Identity, InBounds, FirstSlot, FirstQueued, Shuffled, DropIndex, SwapIndices, Swapped, Deleted,
         SmartAhead;
    match op
    case OpNext(rng) => NextKeepsTracks(s, rng);
    case OpAdd(tracks, rng) => assert tracks == [] ==> s.tracks + tracks == s.tracks;
    case OpAddSmart(tracks, rng) => assert tracks == [] ==> s.tracks + MarkSmart(tracks) == s.tracks;
    case OpDisableSmart => RemoveBelowDeletes(s.(smart := false), SmartAhead(s), |s.tracks|);
    case _ =>
  }

  lemma NextKeepsTracks(s: Snapshot, rng: Draws)
    requires Valid(s)
    ensures Next(s, rng).0.tracks == s.tracks
  {
    hide IsPermutation, Identity, InBounds, FirstSlot, FirstQueued, Shuffled;
  }

  lemma {:induction false} RemoveBelowDeletes(s: Snapshot, doomed: set<int>, bound: nat)
    requires bound <= |s.tracks|
    ensures RemoveBelow(s, doomed, bound).tracks == DeletedBelow(s.tracks, doomed, bound)
    decreases bound
  {
    hide DropIndex, IndexOf;
    if bound > 0 {
      var t := if bound - 1 in doomed then Remove(s, bound - 1).0 else s;
      RemoveBelowDeletes(t, doomed, bound - 1);
    }
  }

  /** Ids follow their rows through every operation. */
  lemma TracksFollow(log: Log, op: Op)
    requires Named(log)
    ensures FollowsRows(log, op, Follow(log, op), Apply(log.s, op).tracks)
  {
    var s, ids, n := log.s, Follow(log, op), |log.ids|;
    var tracks := Apply(s, op).tracks;
    TracksAfter(s, op);
    hide Valid, Apply, SmartAhead, Deleted, DeletedBelow, Swapped;
    match op
    case OpDisableSmart =>
      DeletedTogether(log.ids, s.tracks, SmartAhead(s), n);
      assert forall j :: 0 <= j < |ids| ==> InPlace(log.ids, s.tracks, ids[j], tracks[j]);
    case OpRemove(i) => RemoveFollows(log, op, ids, tracks, i);
    case OpMove(from, to) => MoveFollows(log, op, ids, tracks, from, to);
    case _ =>
      hide Follow;
      SameFollows(log, op, tracks);
  }

  lemma RemoveFollows(log: Log, op: Op, ids: seq<nat>, tracks: seq<Track>, i: int)
    requires |log.ids| == |log.s.tracks|
    requires if 0 <= i < |log.ids| then ids == Deleted(log.ids, i) && tracks == Deleted(log.s.tracks, i)
             else ids == log.ids && tracks == log.s.tracks
    ensures FollowsRows(log, op, ids, tracks)
  {
    hide Deleted;
    var n := |log.ids|;
    if 0 <= i < n {
      DeletedPlaces(log.ids, i);
      DeletedPlaces(log.s.tracks, i);
    }
    KeptPlaces(log, op, ids, tracks, j => if 0 <= i < n && j >= i then j + 1 else j);
  }

  lemma MoveFollows(log: Log, op: Op, ids: seq<nat>, tracks: seq<Track>, from: int, to: int)
    requires |log.ids| == |log.s.tracks|
    requires var n := |log.ids|;
             if 0 <= from < n && 0 <= to < n && from != to
             then ids == Swapped(log.ids, from, to) && tracks == Swapped(log.s.tracks, from, to)
             else ids == log.ids && tracks == log.s.tracks
    ensures FollowsRows(log, op, ids, tracks)
  {
    hide Swapped;
    var n := |log.ids|;
    KeptPlaces(log, op, ids, tracks,
               j => if 0 <= from < n && 0 <= to < n && from != to then SwapIndex(j, from, to) else j);
  }

  /** Operations that load rows behind the others, replace them all, or leave them where they are. */
  lemma SameFollows(log: Log, op: Op, tracks: seq<Track>)
    requires Named(log) && !op.OpDisableSmart? && !op.OpRemove? && !op.OpMove?
    requires var ids := Follow(log, op);
             && |ids| == |tracks|
             && (op.OpReplace? || (|tracks| >= |log.s.tracks| && (op.OpSetTrack? || log.s.tracks <= tracks)))
    ensures FollowsRows(log, op, Follow(log, op), tracks)
  {
    hide Valid;
    KeptPlaces(log, op, Follow(log, op), tracks, j => j);
  }

  lemma KeptPlaces(log: Log, op: Op, ids: seq<nat>, tracks: seq<Track>, place: int -> int)
    requires |ids| == |tracks| && |log.ids| == |log.s.tracks|
    requires forall j :: 0 <= j < |ids| ==>
               || ids[j] >= log.unused
               || (0 <= place(j) < |log.ids| && ids[j] == log.ids[place(j)]
                   && (op.OpSetTrack? || tracks[j] == log.s.tracks[place(j)]))
    ensures FollowsRows(log, op, ids, tracks)
  {
    forall j | 0 <= j < |ids| && ids[j] < log.unused
      ensures exists i :: 0 <= i < |log.ids| && ids[j] == log.ids[i] && (op.OpSetTrack? || tracks[j] == log.s.tracks[i])
    {
      assert 0 <= place(j) < |log.ids| && ids[j] == log.ids[place(j)];
    }
  }

  lemma BelowSubset(part: seq<nat>, ids: seq<nat>, bound: nat)
    requires Below(ids, bound) && forall id :: id in part ==> id in ids
    ensures Below(part, bound)
  {
    forall i | 0 <= i < |part| ensures part[i] < bound {
      assert part[i] in ids;
    }
  }

  lemma IdsApart(log: Log, op: Op)
    requires Named(log)
    ensures Distinct(Follow(log, op)) && Below(Follow(log, op), log.unused + Loaded(log.s, op))
  {
    hide Valid, SmartAhead, Deleted, DeletedBelow;
    var ids, n := log.ids, |log.ids|;
    match op
    case OpDisableSmart =>
      if n > 0 {
        DeletedBelowKeeps(ids, SmartAhead(log.s), n, 0);
        BelowSubset(DeletedBelow(ids, SmartAhead(log.s), n), ids, log.unused);
      } else {
        NothingToDelete([], SmartAhead(log.s), 0);
      }
    case OpRemove(i) =>
      if 0 <= i < n {
        DeletedDistinct(ids, i);
        BelowSubset(Deleted(ids, i), ids, log.unused);
      }
    case _ =>
  }

  // ---- Runs ----

  /** The run of States with its ids and played rows. Restore brings back rows and ids; what has played has played. */
  ghost function Logs(calls: seq<Call>): (trace: seq<Log>)
    ensures |trace| == |calls| + 1 && trace[0] == START
    ensures forall k :: 0 <= k < |trace| ==> Named(trace[k]) && Grows(trace[k], trace[|calls|])
    decreases |calls|
  {
    StartNamed();
    if calls == [] then [START]
    else
      var n := |calls| - 1;
      var trace := Logs(calls[..n]);
      match calls[n]
      case Mutate(op) => trace + [After(trace[n], op)]
      case Restore(taken) => trace + [Restored(trace[n], trace[Min(taken, n)])]
  }

  lemma LogsLast(calls: seq<Call>)
    requires calls != []
    ensures var n := |calls| - 1;
            calls[n].Mutate? ==> Logs(calls)[n + 1] == After(Logs(calls[..n])[n], calls[n].op)
  {
    hide Named, After, Restored, Grows;
  }

  /** What a run only adds to: ids handed out and rows played. */
  ghost predicate Grows(a: Log, b: Log) {
    a.unused <= b.unused && a.played <= b.played
  }

  ghost function Restored(now: Log, past: Log): (t: Log)
    requires Named(now) && Named(past) && past.unused <= now.unused
    ensures Named(t) && Grows(now, t)
  {
    hide Valid;
    MarkedBelow(now.played, past.s, past.ids, now.unused);
    Log(past.s, past.ids, now.unused, Marked(now.played, past.s, past.ids))
  }

  lemma StartNamed()
    ensures Named(START)
  {
    EmptyValid();
  }

  /** The states of the run are those of States. */
  lemma {:induction false} LogsAreStates(calls: seq<Call>, k: nat)
    requires k <= |calls|
    ensures Logs(calls)[k].s == States(calls)[k]
    decreases |calls|
  {
    hide Named, Valid, Apply, After, Restored;
    if calls != [] {
      var n := |calls| - 1;
      if k <= n {
        LogsAreStates(calls[..n], k);
      } else {
        LogsAreStates(calls[..n], n);
        match calls[n]
        case Mutate(op) => AfterApplies(Logs(calls[..n])[n], op);
        case Restore(taken) =>
          LogsAreStates(calls[..n], Min(taken, n));
          RestoredState(Logs(calls[..n])[n], Logs(calls[..n])[Min(taken, n)]);
      }
    }
  }

  lemma AfterApplies(log: Log, op: Op)
    requires Named(log)
    ensures After(log, op).s == Apply(log.s, op)
  {
  }

  lemma RestoredState(now: Log, past: Log)
    requires Named(now) && Named(past) && past.unused <= now.unused
    ensures Restored(now, past).s == past.s
  {
  }

  // ---- DisableSmart ----

  /**
   At any moment of a run: DisableSmart keeps every row that has played exactly if none of them is a smart row behind
   the cursor, and it drops every smart row that has not played exactly if all of these are behind the cursor.
   */
  lemma DisableSmartAndPlayed(calls: seq<Call>, k: nat)
    requires k <= |calls|
    ensures var log := Logs(calls)[k];
            var s, ids, left := log.s, log.ids, After(log, OpDisableSmart).ids;
            && ((forall i :: 0 <= i < |ids| && ids[i] in log.played ==> ids[i] in left) <==>
                (forall i :: 0 <= i < |ids| && i in SmartAhead(s) ==> ids[i] !in log.played))
            && ((forall i :: 0 <= i < |ids| && s.tracks[i].smart && ids[i] !in log.played ==> ids[i] !in left) <==>
                (forall i :: 0 <= i < |ids| && s.tracks[i].smart && ids[i] !in log.played ==> i in SmartAhead(s)))
            && forall i :: 0 <= i < |ids| ==> (ids[i] in left <==> i !in SmartAhead(s))
  {
    hide SmartAhead, Valid;
    var log := Logs(calls)[k];
    var ids, left := log.ids, After(log, OpDisableSmart).ids;
    assert left == DeletedBelow(ids, SmartAhead(log.s), |ids|);
    forall i | 0 <= i < |ids| ensures ids[i] in left <==> i !in SmartAhead(log.s) {
      DeletedBelowKeeps(ids, SmartAhead(log.s), |ids|, i);
    }
  }
}
