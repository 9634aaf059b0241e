/** The playlist object of playlist/playlist.go: its fields, its loops, and the state each method leaves behind. */
module PlaylistObject {
  import opened Common
  import opened Shuffle
  import S = PlaylistState
  import Invariant = PlaylistInvariant
  import Navigation = PlaylistNavigation
  import Editing = PlaylistEditing

  type Track = S.Track

  class Playlist {
    var tracks: seq<Track>
    var order: seq<int>
    var pos: int
    var shuffle: bool
    var smart: bool
    var repeat: S.RepeatMode
    var queue: seq<int>
    var queuePositions: map<int, int>
    var queuedIdx: int

    ghost function State(): S.Snapshot
      reads this
    {
      S.Snapshot(tracks, order, pos, shuffle, smart, repeat, queue, queuedIdx)
    }

    ghost predicate Valid()
      reads this
    {
      S.Valid(State()) && queuePositions == S.QueuePositions(queue)
    }

    constructor ()
      ensures Valid() && State() == S.EMPTY
    {
      tracks, order, pos, shuffle, smart, repeat, queue, queuePositions, queuedIdx :=
        [], [], 0, false, false, S.RepeatOff, [], map[], -1;
    }

    method RebuildQueuePositions()
      modifies this`queuePositions
      ensures queuePositions == S.QueuePositions(queue)
    {
      queuePositions := map[];
      for i := 0 to |queue|
        invariant forall k :: 0 <= k < i ==> queue[k] in queuePositions
        invariant forall idx :: idx in queuePositions ==>
                    && 1 <= queuePositions[idx] <= i && queue[queuePositions[idx] - 1] == idx
                    && forall k :: 0 <= k < queuePositions[idx] - 1 ==> queue[k] != idx
      {
        if queue[i] !in queuePositions {
          queuePositions := queuePositions[queue[i] := i + 1];
        }
      }
      Invariant.FirstPositions(queue, queuePositions);
    }

    // ---- Reading ----

    method QueuePosition(trackIdx: int) returns (r: int)
      requires Valid()
      ensures r == S.IndexOf(queue, trackIdx) + 1
    {
      if trackIdx in queuePositions {
        r := queuePositions[trackIdx];
      } else {
        r := 0;
        assert trackIdx !in queue;
      }
    }

    /** The slot of a track; without shuffle the shortcut agrees with the search. */
    method OrderPosition(idx: int) returns (r: int)
      requires Valid()
      ensures 0 <= idx < |tracks| ==> 0 <= r < |order| && order[r] == idx
      ensures !(0 <= idx < |tracks|) ==> r == -1
      ensures r == S.IndexOf(order, idx)
    {
      if idx < 0 || idx >= |tracks| {
        return -1;
      }
      Invariant.IndexOfFound(order, idx);
      if !shuffle {
        return idx;
      }
      r := 0;
      while order[r] != idx
        invariant 0 <= r <= S.IndexOf(order, idx)
        decreases |order| - r
      {
        r := r + 1;
      }
    }

    method CurrentTrackIndex() returns (r: int)
      requires Valid()
      ensures r == S.CurrentIndex(State())
    {
      if |order| == 0 {
        r := -1;
      } else if queuedIdx >= 0 {
        r := queuedIdx;
      } else {
        r := order[pos];
      }
    }

    method FirstPlayableOrderSlot(from: int, end: int) returns (orderPos: int, trackIdx: int, ok: bool)
      requires S.InBounds(order, |tracks|) && 0 <= from
      ensures ok <==> S.FirstSlot(tracks, order, from, end).Some?
      ensures ok ==> S.FirstSlot(tracks, order, from, end) == Some(orderPos) && trackIdx == order[orderPos]
      ensures !ok ==> orderPos == -1 && trackIdx == -1
    {
      var i := from;
      while i < end && i < |order|
        invariant 0 <= i
        invariant S.FirstSlot(tracks, order, from, end) == S.FirstSlot(tracks, order, i, end)
        decreases end - i
      {
        var idx := order[i];
        if 0 <= idx < |tracks| && !tracks[idx].unplayable {
          return i, idx, true;
        }
        i := i + 1;
      }
      return -1, -1, false;
    }

    method LastPlayableOrderSlot(from: int) returns (orderPos: int, trackIdx: int, ok: bool)
      requires S.InBounds(order, |tracks|) && from < |order|
      ensures ok <==> S.LastSlot(tracks, order, from).Some?
      ensures ok ==> S.LastSlot(tracks, order, from) == Some(orderPos) && trackIdx == order[orderPos]
    {
      var i := from;
      while i >= 0
        invariant i < |order|
        invariant S.LastSlot(tracks, order, from) == S.LastSlot(tracks, order, i)
        decreases i + 1
      {
        var idx := order[i];
        if 0 <= idx < |tracks| && !tracks[idx].unplayable {
          return i, idx, true;
        }
        i := i - 1;
      }
      return -1, -1, false;
    }

    method NextPlayableQueued() returns (trackIdx: int, remaining: seq<int>, ok: bool)
      requires S.InBounds(queue, |tracks|)
      ensures ok <==> S.FirstQueued(tracks, queue, 0).Some?
      ensures ok ==> var i := S.FirstQueued(tracks, queue, 0).value; trackIdx == queue[i] && remaining == queue[i + 1..]
    {
      for i := 0 to |queue|
        invariant S.FirstQueued(tracks, queue, 0) == S.FirstQueued(tracks, queue, i)
      {
        var idx := queue[i];
        if 0 <= idx < |tracks| && !tracks[idx].unplayable {
          return idx, queue[i + 1..], true;
        }
      }
      return -1, [], false;
    }

    /** The first limit playable tracks among refs. */
    static method PlayableAmong(tracks: seq<Track>, refs: seq<int>, limit: int) returns (out: seq<int>)
      ensures var all := S.PlayableRefs(tracks, refs);
              out == if limit <= 0 then [] else if limit < |all| then all[..limit] else all
    {
      out := [];
      var i := 0;
      assert refs[0..] == refs;
      while i < |refs| && |out| < limit
        invariant 0 <= i <= |refs|
        invariant S.PlayableRefs(tracks, refs) == out + S.PlayableRefs(tracks, refs[i..])
        invariant if limit <= 0 then out == [] else |out| <= limit
      {
        Invariant.PlayableStep(tracks, out, refs, i);
        hide S.PlayableRefs;
        var idx := refs[i];
        if 0 <= idx < |tracks| && !tracks[idx].unplayable {
          out := out + [idx];
        }
        i := i + 1;
      }
    }

    method Upcoming(limit: int) returns (out: seq<int>)
      requires Valid()
      ensures var all := S.Upcoming(State());
              out == if limit <= 0 then [] else if limit < |all| then all[..limit] else all
    {
      out := PlayableAmong(tracks, if pos + 1 <= |order| then order[pos + 1..] else [], limit);
    }

    static method SmartAmong(tracks: seq<Track>, refs: seq<int>) returns (out: seq<int>)
      requires S.InBounds(refs, |tracks|)
      ensures out == S.SmartRefs(tracks, refs)
    {
      out := [];
      assert refs[0..] == refs;
      for i := 0 to |refs|
        invariant S.SmartRefs(tracks, refs) == out + S.SmartRefs(tracks, refs[i..])
      {
        Invariant.SmartStep(tracks, out, refs, i);
        hide S.SmartRefs;
        if tracks[refs[i]].smart {
          out := out + [refs[i]];
        }
      }
    }

    static method SmartCount(tracks: seq<Track>, refs: seq<int>, start: nat) returns (n: int)
      requires S.InBounds(refs, |tracks|) && start <= |refs|
      ensures n == |S.SmartRefs(tracks, refs[start..])|
    {
      hide S.SmartRefs;
      n := 0;
      for i := start to |refs|
        invariant |S.SmartRefs(tracks, refs[start..])| == n + |S.SmartRefs(tracks, refs[i..])|
      {
        Invariant.SmartCountStep(tracks, refs, i);
        if tracks[refs[i]].smart {
          n := n + 1;
        }
      }
      Invariant.NoSmartRefs(tracks, refs[|refs|..]);
    }

    method SmartPending() returns (n: int)
      requires Valid()
      ensures n == S.SmartPending(State())
    {
      hide S.IsPermutation, S.Identity, S.SmartRefs;
      Invariant.CursorInRange(State());
      n := SmartCount(tracks, order, if pos + 1 < |order| then pos + 1 else |order|);
    }

    /** Snapshot and Restore: any later changes are undone by handing the snapshot back. */
    method Snapshot() returns (r: S.Snapshot)
      requires Valid()
      ensures r == State() && S.Valid(r)
    {
      r := S.Snapshot(tracks, order, pos, shuffle, smart, repeat, queue, queuedIdx);
    }

    method Restore(snapshot: S.Snapshot)
      requires Valid() && S.Valid(snapshot)
      modifies this
      ensures Valid() && State() == snapshot
    {
      tracks := snapshot.tracks;
      order := snapshot.order;
      pos := snapshot.pos;
      shuffle := snapshot.shuffle;
      smart := snapshot.smart;
      repeat := snapshot.repeat;
      queue := snapshot.queue;
      queuedIdx := snapshot.queuedIdx;
      RebuildQueuePositions();
    }

    // ---- Loading tracks ----

    method DoShuffle(rng: Draws)
      requires S.Valid(State()) && tracks != []
      modifies this`order, this`pos
      ensures State() == S.DoShuffle(old(State()), rng)
    {
      var cur := order[pos];
      var others: seq<int> := [];
      for i := 0 to |tracks|
        invariant others == S.Others(|tracks|, cur)[..if i <= cur then i else i - 1]
      {
        if i != cur {
          others := others + [i];
        }
      }
      assert others == S.Others(|tracks|, cur);
      others := FisherYates(others, rng);
      order := [cur] + others;
      pos := 0;
    }

    method Replace(newTracks: seq<Track>, rng: Draws)
      requires Valid()
      modifies this
      ensures Valid() && State() == S.Replace(old(State()), newTracks, rng)
    {
      Invariant.ReplaceValid(State(), newTracks, rng);
      S.IdentityIsPermutation(|newTracks|);
      tracks := newTracks;
      order := IdentityOrder(|newTracks|);
      pos := 0;
      queue := [];
      queuePositions := map[];
      queuedIdx := -1;
      if shuffle && |newTracks| > 0 {
        DoShuffle(rng);
      }
    }

    static method IdentityOrder(n: nat) returns (r: seq<int>)
      ensures r == S.Identity(n)
    {
      r := [];
      for i := 0 to n
        invariant r == S.Identity(i)
      {
        r := r + [i];
      }
    }

    method AppendTracks(added: seq<Track>)
      requires Valid()
      modifies this`tracks, this`order
      ensures Valid() && State() == S.Append(old(State()), added)
    {
      Invariant.AppendValid(State(), added);
      var start := |tracks|;
      tracks := tracks + added;
      for i := start to |tracks|
        invariant tracks == old(tracks) + added
        invariant order == old(order) + seq(i - start, k => start + k)
      {
        order := order + [i];
      }
      assert |tracks| - start == |added|;
    }

    /** refs with everything from slot from on shuffled. */
    static method ShuffleFrom(refs: seq<int>, from: nat, rng: Draws) returns (r: seq<int>)
      requires from <= |refs|
      ensures r == refs[..from] + Shuffled(refs[from..], rng)
    {
      hide Shuffled;
      r := FisherYates(refs[from..], rng);
      r := refs[..from] + r;
    }

    /** The tail reshuffle of Add and AddSmart. The cursor is in range here, so the recovery branches for an
        out-of-range cursor (playlist.go:183-190, 1049-1058) are never taken. */
    method ShuffleTail(rng: Draws)
      requires Valid() && tracks != []
      modifies this`order
      ensures State() == S.ShuffleTail(old(State()), rng)
    {
      hide S.Valid, S.IsPermutation, S.InBounds, Shuffled;
      Invariant.CursorInRange(State());
      order := ShuffleFrom(order, pos + 1, rng);
    }

    /** The shuffle of Add and AddSmart when the list was empty. */
    method ShuffleFromStart(rng: Draws)
      requires Valid() && tracks != []
      modifies this`order, this`pos
      ensures State() == S.DoShuffle(old(State()).(pos := 0), rng)
    {
      Invariant.RewoundValid(State());
      hide S.Valid, S.DoShuffle;
      pos := 0;
      DoShuffle(rng);
    }

    method Add(added: seq<Track>, rng: Draws)
      requires Valid()
      modifies this
      ensures Valid() && State() == S.Add(old(State()), added, rng)
    {
      Invariant.AddValid(State(), added, rng);
      if |added| == 0 {
        return;
      }
      var start := |tracks|;
      AppendTracks(added);
      if shuffle {
        if start == 0 {
          ShuffleFromStart(rng);
        } else {
          ShuffleTail(rng);
        }
      }
    }

    method AddSmart(added: seq<Track>, rng: Draws)
      requires Valid()
      modifies this
      ensures Valid() && State() == S.AddSmart(old(State()), added, rng)
    {
      if !shuffle || |added| == 0 {
        return;
      }
      var marked := added;
      for i := 0 to |added|
        invariant |marked| == |added|
        invariant forall k :: 0 <= k < |added| ==> marked[k] == if k < i then added[k].(smart := true) else added[k]
      {
        marked := marked[i := added[i].(smart := true)];
      }
      assert marked == S.MarkSmart(added);
      Add(marked, rng);
    }

    // ---- Moving through the order ----

    method AtShuffleWrap() returns (r: bool)
      ensures r == S.AtShuffleWrap(State())
    {
      r := repeat == S.RepeatAll && shuffle && |queue| == 0 && queuedIdx == -1 && pos + 1 >= |order|;
    }

    method NextShuffleWrap(rng: Draws) returns (orderPos: int, trackIdx: int, ok: bool)
      requires S.Valid(State()) && tracks != [] && shuffle
      modifies this`order, this`pos
      ensures State() == S.ShuffleWrap(old(State()), rng).0
      ensures ok <==> S.ShuffleWrap(old(State()), rng).1.Some?
      ensures ok ==> S.ShuffleWrap(old(State()), rng).1 == Some(orderPos)
                     && 0 <= orderPos < |order| && trackIdx == order[orderPos]
    {
      var origOrder, origPos := order, pos;
      Invariant.DoShuffleValid(State(), rng);
      DoShuffle(rng);
      orderPos, trackIdx, ok := FirstPlayableOrderSlot(1, |order|);
      if ok {
        return;
      }
      orderPos, trackIdx, ok := FirstPlayableOrderSlot(0, 1);
      if ok {
        return;
      }
      order := origOrder;
      pos := origPos;
      return -1, -1, false;
    }

    method AdvanceFromOrder(rng: Draws) returns (orderPos: int, trackIdx: int, ok: bool)
      requires S.Valid(State()) && tracks != []
      modifies this`order, this`pos
      ensures State() == S.Advance(old(State()), rng).0
      ensures ok <==> S.Advance(old(State()), rng).1.Some?
      ensures ok ==> S.Advance(old(State()), rng).1 == Some(orderPos)
                     && 0 <= orderPos < |order| && trackIdx == order[orderPos] && 0 <= trackIdx < |tracks|
    {
      orderPos, trackIdx, ok := FirstPlayableOrderSlot(pos + 1, |order|);
      if ok {
        return;
      }
      if repeat != S.RepeatAll {
        return -1, -1, false;
      }
      var wrap := AtShuffleWrap();
      if shuffle && wrap {
        orderPos, trackIdx, ok := NextShuffleWrap(rng);
        return;
      }
      orderPos, trackIdx, ok := FirstPlayableOrderSlot(0, |order|);
    }

    /** Next returns the track at the index its specification names, now the current one. */
    method Next(rng: Draws) returns (r: Option<Track>)
      requires Valid()
      modifies this
      ensures Valid() && State() == S.Next(old(State()), rng).0
      ensures r.Some? <==> S.Next(old(State()), rng).1.Some?
      ensures r.Some? ==> var idx := S.Next(old(State()), rng).1.value;
                          idx == S.CurrentIndex(State()) && 0 <= idx < |tracks| && r.value == tracks[idx]
    {
      Invariant.NextValid(State(), rng);
      if |tracks| == 0 {
        return None;
      }
      hide S.Valid, S.Next, S.IsPermutation, S.FirstQueued, S.QueuePositions;
      Invariant.CursorInRange(State());
      var idx, remaining, ok := NextPlayableQueued();
      if ok {
        Invariant.NextFromQueue(State(), rng, S.FirstQueued(tracks, queue, 0).value);
        queue := remaining;
        RebuildQueuePositions();
        queuedIdx := idx;
        return Some(tracks[idx]);
      }
      r := NextPastQueue(rng);
    }

    /** Next when nothing playable is queued. */
    method NextPastQueue(rng: Draws) returns (r: Option<Track>)
      requires Valid() && tracks != [] && S.FirstQueued(tracks, queue, 0).None?
      modifies this
      ensures queuePositions == S.QueuePositions(queue) && State() == S.Next(old(State()), rng).0
      ensures r.Some? <==> S.Next(old(State()), rng).1.Some?
      ensures r.Some? ==> var idx := S.Next(old(State()), rng).1.value;
                          idx == S.CurrentIndex(State()) && 0 <= idx < |tracks| && r.value == tracks[idx]
    {
      hide S.Valid, S.Next, S.IsPermutation, S.Advance, S.FirstQueued;
      Invariant.CursorInRange(State());
      ghost var s := State();
      var origQueuedIdx := queuedIdx;
      if |queue| > 0 {
        queue := [];
        queuePositions := map[];
      }
      if repeat == S.RepeatOne {
        Invariant.NextRepeating(s, rng);
        var idx := order[pos];
        if !tracks[idx].unplayable {
          queuedIdx := -1;
          return Some(tracks[idx]);
        }
        queuedIdx := origQueuedIdx;
        return None;
      }
      Invariant.NextAlongOrder(s, rng);
      r := NextInOrder(rng);
    }

    /** The part of Next that follows the order. */
    method NextInOrder(rng: Draws) returns (r: Option<Track>)
      requires S.Valid(State()) && tracks != []
      modifies this`order, this`pos, this`queuedIdx
      ensures var (d, slot) := S.Advance(old(State()), rng);
              match slot
              case None => State() == old(State()) && r == None
              case Some(k) =>
                && State() == d.(pos := k, queuedIdx := -1)
                && 0 <= k < |order| && 0 <= order[k] < |tracks| && r == Some(tracks[order[k]])
    {
      var origPos, origQueuedIdx := pos, queuedIdx;
      var orderPos, idx, ok := AdvanceFromOrder(rng);
      if !ok {
        pos := origPos;
        queuedIdx := origQueuedIdx;
        return None;
      }
      queuedIdx := -1;
      pos := orderPos;
      return Some(tracks[idx]);
    }

    /** HasNext answers whether Next would succeed, whatever the shuffle draws. */
    method HasNext() returns (r: bool)
      requires Valid()
      ensures forall rng: Draws :: r <==> S.Next(State(), rng).1.Some?
    {
      r := HasNextScan();
      forall rng: Draws ensures r <==> S.Next(State(), rng).1.Some? {
        Navigation.HasNextIsNext(State(), rng);
      }
    }

    method HasNextScan() returns (r: bool)
      requires Valid()
      ensures r == S.HasNext(State())
    {
      if |tracks| == 0 {
        return false;
      }
      var idx, remaining, ok := NextPlayableQueued();
      if ok {
        return true;
      }
      if repeat == S.RepeatOne {
        return !tracks[order[pos]].unplayable;
      }
      var slot;
      slot, idx, ok := FirstPlayableOrderSlot(pos + 1, |order|);
      if ok {
        return true;
      }
      if repeat != S.RepeatAll {
        return false;
      }
      slot, idx, ok := FirstPlayableOrderSlot(0, |order|);
      return ok;
    }

    /** PeekNext changes nothing, although it goes through the step that may reshuffle. */
    method PeekNext(rng: Draws) returns (r: Option<Track>)
      requires Valid()
      modifies this
      ensures Valid() && State() == old(State())
      ensures r.Some? <==> S.PeekNext(State()).Some?
      ensures r.Some? ==> var idx := S.PeekNext(State()).value; 0 <= idx < |tracks| && r.value == tracks[idx]
    {
      if |tracks| == 0 {
        return None;
      }
      var idx, remaining, ok := NextPlayableQueued();
      if ok {
        return Some(tracks[idx]);
      }
      if repeat == S.RepeatOne {
        idx := order[pos];
        if !tracks[idx].unplayable {
          return Some(tracks[idx]);
        }
        return None;
      }
      var wrap := AtShuffleWrap();
      if wrap {
        return None;
      }
      var slot;
      slot, idx, ok := AdvanceFromOrder(rng);
      if !ok {
        return None;
      }
      return Some(tracks[idx]);
    }

    method Prev() returns (r: Option<Track>, moved: bool)
      requires Valid()
      modifies this
      ensures Valid()
      ensures old(tracks) == [] ==> State() == old(State()) && r == None && !moved
      ensures old(tracks) != [] ==>
                var (t, idx, ok) := S.Prev(old(State()));
                State() == t && 0 <= idx < |tracks| && r == Some(tracks[idx]) && moved == ok
    {
      if |tracks| == 0 {
        return None, false;
      }
      Invariant.PrevValid(State());
      var idx;
      idx, moved := StepBack();
      r := Some(tracks[idx]);
    }

    method StepBack() returns (trackIdx: int, moved: bool)
      requires S.Valid(State()) && tracks != []
      modifies this`pos, this`queuedIdx
      ensures (State(), trackIdx, moved) == S.Prev(old(State()))
    {
      hide S.IsPermutation, S.Identity, S.LastSlot, S.Playable;
      Invariant.CursorInRange(State());
      var origPos, origQueuedIdx := pos, queuedIdx;
      queuedIdx := -1;
      var orderPos, idx, ok := LastPlayableOrderSlot(pos - 1);
      if ok {
        pos := orderPos;
        return idx, true;
      }
      if repeat == S.RepeatAll {
        orderPos, idx, ok := LastPlayableOrderSlot(|order| - 1);
        if ok {
          pos := orderPos;
          return idx, true;
        }
      }
      pos := origPos;
      queuedIdx := origQueuedIdx;
      if origQueuedIdx >= 0 {
        return origQueuedIdx, false;
      }
      return order[pos], false;
    }

    method ResolveSelectedPlayablePos() returns (orderPos: int, trackIdx: int, ok: bool)
      requires Valid()
      ensures ok <==> S.SelectedSlot(State()).Some?
      ensures ok ==> S.SelectedSlot(State()) == Some(orderPos) && trackIdx == order[orderPos]
    {
      if |order| == 0 {
        return -1, -1, false;
      }
      var idx := order[pos];
      if !tracks[idx].unplayable {
        return pos, idx, true;
      }
      orderPos, trackIdx, ok := FirstPlayableOrderSlot(pos + 1, |order|);
      if ok {
        return;
      }
      if repeat == S.RepeatAll {
        orderPos, trackIdx, ok := FirstPlayableOrderSlot(0, pos);
        return;
      }
      return -1, -1, false;
    }

    /** PeekSelected names the track ActivateSelected would activate. */
    method PeekSelected() returns (r: Option<Track>)
      requires Valid()
      ensures r.Some? <==> S.ActivateSelected(State()).1.Some?
      ensures r.Some? ==> var idx := S.ActivateSelected(State()).1.value; 0 <= idx < |tracks| && r.value == tracks[idx]
    {
      var slot, idx, ok := ResolveSelectedPlayablePos();
      if !ok {
        return None;
      }
      return Some(tracks[idx]);
    }

    method ActivateSelected() returns (r: Option<Track>, skipped: bool)
      requires Valid()
      modifies this
      ensures Valid() && State() == S.ActivateSelected(old(State())).0
      ensures r.Some? <==> S.ActivateSelected(old(State())).1.Some?
      ensures r.Some? ==> var idx := S.ActivateSelected(old(State())).1.value;
                          0 <= idx < |tracks| && r.value == tracks[idx] && skipped == (pos != old(pos))
    {
      var selectedPos := pos;
      var slot, idx, ok := ResolveSelectedPlayablePos();
      if !ok {
        return None, false;
      }
      pos := slot;
      queuedIdx := -1;
      return Some(tracks[idx]), slot != selectedPos;
    }

    method SetIndex(i: int)
      requires Valid()
      modifies this
      ensures Valid() && State() == S.SetIndex(old(State()), i)
    {
      queuedIdx := -1;
      var slot := 0;
      while slot < |order|
        invariant 0 <= slot <= |order|
        invariant State() == old(State()).(queuedIdx := -1)
        invariant Valid()
        invariant forall k :: 0 <= k < slot ==> order[k] != i
      {
        if order[slot] == i {
          pos := slot;
          break;
        }
        slot := slot + 1;
      }
    }

    // ---- The play-next queue ----

    method Queue(trackIdx: int)
      requires Valid()
      modifies this
      ensures Valid() && State() == S.Enqueue(old(State()), trackIdx)
    {
      if trackIdx < 0 || trackIdx >= |tracks| {
        return;
      }
      Invariant.AppendedPosition(queue, trackIdx);
      queue := queue + [trackIdx];
      if trackIdx !in queuePositions {
        queuePositions := queuePositions[trackIdx := |queue|];
      }
    }

    method Dequeue(trackIdx: int) returns (found: bool)
      requires Valid()
      modifies this
      ensures Valid() && (State(), found) == S.Dequeue(old(State()), trackIdx)
    {
      for i := 0 to |queue|
        invariant State() == old(State()) && Valid()
        invariant forall k :: 0 <= k < i ==> queue[k] != trackIdx
      {
        if queue[i] == trackIdx {
          assert S.IndexOf(queue, trackIdx) == i;
          queue := queue[..i] + queue[i + 1..];
          RebuildQueuePositions();
          return true;
        }
      }
      return false;
    }

    method ClearQueue()
      requires Valid()
      modifies this
      ensures Valid() && State() == old(State()).(queue := [])
    {
      queue := [];
      queuePositions := map[];
    }

    method RemoveQueueAt(i: int)
      requires Valid()
      modifies this
      ensures Valid() && State() == S.RemoveQueueAt(old(State()), i)
    {
      if 0 <= i < |queue| {
        queue := queue[..i] + queue[i + 1..];
        RebuildQueuePositions();
      }
    }

    method MoveQueue(from: int, to: int) returns (ok: bool)
      requires Valid()
      modifies this
      ensures Valid() && (State(), ok) == S.MoveQueue(old(State()), from, to)
    {
      if from < 0 || from >= |queue| || to < 0 || to >= |queue| || from == to {
        return false;
      }
      queue := queue[from := queue[to]][to := queue[from]];
      RebuildQueuePositions();
      return true;
    }

    // ---- Moving and removing tracks ----

    static method SwapRefs(refs: seq<int>, from: int, to: int) returns (r: seq<int>)
      ensures r == S.SwapIndices(refs, from, to)
    {
      r := refs;
      for i := 0 to |refs|
        invariant |r| == |refs|
        invariant forall k :: 0 <= k < i ==> r[k] == S.SwapIndex(refs[k], from, to)
        invariant forall k :: i <= k < |refs| ==> r[k] == refs[k]
      {
        if r[i] == from {
          r := r[i := to];
        } else if r[i] == to {
          r := r[i := from];
        }
      }
    }

    method Move(from: int, to: int) returns (ok: bool)
      requires Valid()
      modifies this
      ensures Valid() && (State(), ok) == S.Move(old(State()), from, to)
    {
      Invariant.MoveValid(State(), from, to);
      if from < 0 || from >= |tracks| || to < 0 || to >= |tracks| || from == to {
        return false;
      }
      hide S.Valid, S.IsPermutation, S.InBounds, S.SwapIndices, S.Identity, S.QueuePositions;
      Invariant.CursorInRange(State());
      tracks := tracks[from := tracks[to]][to := tracks[from]];
      order := SwapRefs(order, from, to);
      SwapInQueue(from, to);
      if !shuffle {
        var cur := order[pos];
        order := IdentityOrder(|order|);
        pos := cur;
      }
      return true;
    }

    /** The part of Move about the queue. */
    method SwapInQueue(from: int, to: int)
      modifies this`queue, this`queuePositions, this`queuedIdx
      ensures queue == S.SwapIndices(old(queue), from, to) && queuePositions == S.QueuePositions(queue)
      ensures queuedIdx == S.SwapIndex(old(queuedIdx), from, to)
    {
      hide S.SwapIndices, S.QueuePositions;
      queue := SwapRefs(queue, from, to);
      RebuildQueuePositions();
      if queuedIdx == from {
        queuedIdx := to;
      } else if queuedIdx == to {
        queuedIdx := from;
      }
    }

    static method DropRef(refs: seq<int>, idx: int) returns (r: seq<int>, slot: int)
      ensures r == S.DropIndex(refs, idx)
      ensures (forall j, k :: 0 <= j < k < |refs| ==> refs[j] != refs[k]) ==> slot == S.IndexOf(refs, idx)
    {
      hide S.DropIndex, S.IndexOf;
      r, slot := [], -1;
      for i := 0 to |refs|
        invariant S.DropIndex(refs, idx) == r + S.DropIndex(refs[i..], idx)
        invariant slot < i && (slot >= 0 ==> refs[slot] == idx)
        invariant -1 <= slot && (slot < 0 ==> forall k :: 0 <= k < i ==> refs[k] != idx)
      {
        Invariant.DropStep(refs, idx, i);
        if refs[i] == idx {
          slot := i;
          continue;
        }
        var ref := if refs[i] > idx then refs[i] - 1 else refs[i];
        r := r + [ref];
      }
      Invariant.NothingToDropAtEnd(refs, idx);
      if forall j, k :: 0 <= j < k < |refs| ==> refs[j] != refs[k] {
        Invariant.OnlySlot(refs, idx, slot);
      }
    }

    method DropFromOrder(idx: int)
      requires S.IsPermutation(order, |tracks|)
      modifies this`order, this`pos
      ensures order == S.DropIndex(old(order), idx)
      ensures pos == S.CursorAfterRemoval(old(pos), S.IndexOf(old(order), idx), |order|)
    {
      var removedOrderPos;
      order, removedOrderPos := DropRef(order, idx);
      if removedOrderPos >= 0 && removedOrderPos < pos {
        pos := pos - 1;
      }
      if pos >= |order| {
        pos := |order| - 1;
      }
      if pos < 0 {
        pos := 0;
      }
    }

    method Remove(idx: int) returns (ok: bool)
      requires Valid()
      modifies this
      ensures Valid() && (State(), ok) == S.Remove(old(State()), idx)
    {
      Invariant.RemoveValid(State(), idx);
      if idx < 0 || idx >= |tracks| {
        return false;
      }
      hide S.Valid, S.IsPermutation, S.DropIndex, S.CursorAfterRemoval, S.IndexOf, S.QueuePositions;
      Invariant.OrderInRange(State());
      DropFromOrder(idx);
      tracks := tracks[..idx] + tracks[idx + 1..];
      DropFromQueue(idx);
      return true;
    }

    method DropFromQueue(idx: int)
      modifies this`queue, this`queuePositions, this`queuedIdx
      ensures queue == S.DropIndex(old(queue), idx) && queuePositions == S.QueuePositions(queue)
      ensures queuedIdx ==
              if old(queuedIdx) == idx then -1 else if old(queuedIdx) > idx then old(queuedIdx) - 1 else old(queuedIdx)
    {
      hide S.DropIndex, S.QueuePositions;
      var slot;
      queue, slot := DropRef(queue, idx);
      RebuildQueuePositions();
      if queuedIdx == idx {
        queuedIdx := -1;
      } else if queuedIdx > idx {
        queuedIdx := queuedIdx - 1;
      }
    }

    method SetTrack(i: int, t: Track)
      requires Valid()
      modifies this
      ensures Valid() && State() == S.SetTrack(old(State()), i, t)
    {
      if 0 <= i < |tracks| {
        tracks := tracks[i := t];
      }
    }

    // ---- Smart rows and modes ----

    method EnableSmart()
      requires Valid()
      modifies this`smart
      ensures Valid() && State() == old(State()).(smart := true)
    {
      smart := true;
    }

    static method InsertRef(sorted: seq<int>, v: int) returns (r: seq<int>)
      requires forall j, k :: 0 <= j < k < |sorted| ==> sorted[j] <= sorted[k]
      ensures multiset(r) == multiset(sorted) + multiset{v}
      ensures forall j, k :: 0 <= j < k < |r| ==> r[j] <= r[k]
    {
      var at := 0;
      while at < |sorted| && sorted[at] <= v
        invariant 0 <= at <= |sorted|
        invariant forall k :: 0 <= k < at ==> sorted[k] <= v
      {
        at := at + 1;
      }
      r := sorted[..at] + [v] + sorted[at..];
      InsertedSorted(sorted, at, v);
    }

    static lemma InsertedSorted(sorted: seq<int>, at: nat, v: int)
      requires at <= |sorted| && forall j, k :: 0 <= j < k < |sorted| ==> sorted[j] <= sorted[k]
      requires forall k :: 0 <= k < |sorted| ==> if k < at then sorted[k] <= v else v <= sorted[k]
      ensures var r := sorted[..at] + [v] + sorted[at..];
              multiset(r) == multiset(sorted) + multiset{v} && forall j, k :: 0 <= j < k < |r| ==> r[j] <= r[k]
    {
      var a, b := sorted[..at], sorted[at..];
      assert sorted == a + b;
      assert multiset(a + b) == multiset(a) + multiset(b);
      InsertedAscends(a, b, v);
    }

    static lemma InsertedAscends(a: seq<int>, b: seq<int>, v: int)
      requires forall j, k :: 0 <= j < k < |a| ==> a[j] <= a[k]
      requires forall j, k :: 0 <= j < k < |b| ==> b[j] <= b[k]
      requires (forall k :: 0 <= k < |a| ==> a[k] <= v) && (forall k :: 0 <= k < |b| ==> v <= b[k])
      ensures var r := a + [v] + b; forall j, k :: 0 <= j < k < |r| ==> r[j] <= r[k]
    {
    }

    /** The rows to remove, in ascending order. */
    static method SortRefs(refs: seq<int>) returns (r: seq<int>)
      ensures multiset(r) == multiset(refs)
      ensures forall j, k :: 0 <= j < k < |r| ==> r[j] <= r[k]
    {
      r := [];
      for i := 0 to |refs|
        invariant multiset(r) == multiset(refs[..i])
        invariant forall j, k :: 0 <= j < k < |r| ==> r[j] <= r[k]
      {
        r := InsertRef(r, refs[i]);
        assert refs[..i + 1] == refs[..i] + [refs[i]];
      }
      assert refs[..|refs|] == refs;
    }

    static lemma {:induction false} NothingBetween(s: S.Snapshot, doomed: set<int>, lo: nat, hi: nat)
      requires lo <= hi && forall d :: lo <= d < hi ==> d !in doomed
      ensures S.RemoveBelow(s, doomed, hi) == S.RemoveBelow(s, doomed, lo)
      decreases hi - lo
    {
      if lo < hi {
        NothingBetween(s, doomed, lo, hi - 1);
      }
    }

    static lemma SortedAhead(s: S.Snapshot, collected: seq<int>, doomed: seq<int>)
      requires S.Valid(s) && collected == S.SmartRefs(s.tracks, S.Ahead(s)) && multiset(doomed) == multiset(collected)
      requires forall j, k :: 0 <= j < k < |doomed| ==> doomed[j] <= doomed[k]
      ensures S.Elements(doomed) == S.SmartAhead(s)
      ensures forall j, k :: 0 <= j < k < |doomed| ==> doomed[j] < doomed[k]
      ensures forall k :: 0 <= k < |doomed| ==> 0 <= doomed[k] < |s.tracks|
    {
      Invariant.SmartRefsDistinct(s.tracks, S.Ahead(s));
      Invariant.SmartRefsElements(s.tracks, S.Ahead(s));
      Invariant.RearrangedDistinct(collected, doomed);
      SameElements(collected, doomed);
    }

    static lemma SameElements(a: seq<int>, b: seq<int>)
      requires multiset(a) == multiset(b)
      ensures S.Elements(a) == S.Elements(b)
      ensures forall k :: 0 <= k < |b| ==> b[k] in a
    {
      forall d ensures d in a <==> d in b {
        assert d in multiset(a) <==> d in multiset(b);
      }
    }

    method SortedSmartAhead() returns (doomed: seq<int>)
      requires Valid()
      ensures S.Elements(doomed) == S.SmartAhead(State()) && |doomed| == S.SmartPending(State())
      ensures forall j, k :: 0 <= j < k < |doomed| ==> doomed[j] < doomed[k]
      ensures forall k :: 0 <= k < |doomed| ==> 0 <= doomed[k] < |tracks|
    {
      var refs := order[if pos + 1 < |order| then pos + 1 else |order|..];
      assert refs == S.Ahead(State());
      var collected := SmartAmong(tracks, refs);
      doomed := SortRefs(collected);
      SortedAhead(State(), collected, doomed);
      SameLength(collected, doomed);
    }

    method DisableSmart() returns (n: int)
      requires Valid()
      modifies this
      ensures Valid() && State() == S.DisableSmart(old(State()))
      ensures n == S.SmartPending(old(State())) == |old(tracks)| - |tracks|
    {
      Editing.DisableSmartCount(State());
      hide S.IsPermutation, S.SmartRefs, S.Ahead;
      var doomed := SortedSmartAhead();
      smart := false;
      RemoveHighestFirst(doomed);
      n := |doomed|;
    }

    method RemoveHighestFirst(doomed: seq<int>)
      requires Valid()
      requires forall k :: 0 <= k < |doomed| ==> 0 <= doomed[k] < |tracks|
      requires forall j, k :: 0 <= j < k < |doomed| ==> doomed[j] < doomed[k]
      modifies this
      ensures Valid() && State() == S.RemoveBelow(old(State()), S.Elements(doomed), old(|tracks|))
    {
      ghost var rows, limit := S.Elements(doomed), |tracks|;
      var i := |doomed| - 1;
      while i >= 0
        invariant -1 <= i < |doomed|
        invariant 0 <= limit <= |tracks|
        invariant forall k :: 0 <= k <= i ==> doomed[k] < limit
        invariant forall k :: i < k < |doomed| ==> doomed[k] >= limit
        invariant Valid()
        invariant S.RemoveBelow(State(), rows, limit) == S.RemoveBelow(old(State()), rows, old(|tracks|))
      {
        NothingBetween(State(), rows, doomed[i] + 1, limit);
        var ok := Remove(doomed[i]);
        limit := doomed[i];
        i := i - 1;
      }
      NothingBetween(State(), rows, 0, limit);
    }

    method ToggleShuffle(rng: Draws)
      requires Valid()
      modifies this
      ensures Valid() && State() == S.ToggleShuffle(old(State()), rng)
    {
      Invariant.ToggleShuffleValid(State(), rng);
      shuffle := !shuffle;
      if |tracks| == 0 {
        return;
      }
      if shuffle {
        DoShuffle(rng);
      } else {
        var cur := order[pos];
        order := IdentityOrder(|tracks|);
        pos := cur;
      }
    }

    method SetRepeat(mode: S.RepeatMode)
      requires Valid()
      modifies this`repeat
      ensures Valid() && State() == old(State()).(repeat := mode)
    {
      if repeat != mode {
        repeat := mode;
      }
    }

    method CycleRepeat()
      requires Valid()
      modifies this`repeat
      ensures Valid() && State() == old(State()).(repeat := S.NextRepeat(old(repeat)))
    {
      repeat := match repeat
        case RepeatOff => S.RepeatAll
        case RepeatAll => S.RepeatOne
        case RepeatOne => S.RepeatOff;
    }
  }
}
