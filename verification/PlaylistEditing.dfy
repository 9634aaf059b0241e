/** What moving, removing, adding and shuffling tracks keep of the play sequence, the queue and the cursor. */
module PlaylistEditing {
  import opened Common
  import opened Shuffle
  import opened PlaylistState
  import opened PlaylistInvariant
  import opened PlaylistNavigation

  /** The tracks that refs point at. */
  function Contents(tracks: seq<Track>, refs: seq<int>): (r: seq<Track>)
    requires InBounds(refs, |tracks|)
    ensures |r| == |refs|
  {
    seq(|refs|, k requires 0 <= k < |refs| => tracks[refs[k]])
  }

  /** The tracks in the order they play. */
  ghost function PlaySequence(s: Snapshot): seq<Track>
    requires Valid(s)
  {
    Contents(s.tracks, s.order)
  }

  ghost function QueueContents(s: Snapshot): seq<Track>
    requires Valid(s)
  {
    Contents(s.tracks, s.queue)
  }

  ghost function CurrentTrack(s: Snapshot): Track
    requires Valid(s) && s.tracks != []
  {
    s.tracks[CurrentIndex(s)]
  }

  /** The tracks refs point at, without those whose index is doomed. */
  function Kept(tracks: seq<Track>, refs: seq<int>, doomed: set<int>): (r: seq<Track>)
    requires InBounds(refs, |tracks|)
  {
    if refs == [] then []
    else (if refs[0] in doomed then [] else [tracks[refs[0]]]) + Kept(tracks, refs[1..], doomed)
  }

  lemma {:induction false} KeptNothingDoomed(tracks: seq<Track>, refs: seq<int>, doomed: set<int>)
    requires InBounds(refs, |tracks|) && forall k :: 0 <= k < |refs| ==> refs[k] !in doomed
    ensures Kept(tracks, refs, doomed) == Contents(tracks, refs)
  {
    if refs != [] {
      KeptNothingDoomed(tracks, refs[1..], doomed);
      assert Contents(tracks, refs) == [tracks[refs[0]]] + Contents(tracks, refs[1..]);
    }
  }

  lemma {:induction false} KeptConcat(tracks: seq<Track>, a: seq<int>, b: seq<int>, doomed: set<int>)
    requires InBounds(a, |tracks|) && InBounds(b, |tracks|)
    ensures Kept(tracks, a + b, doomed) == Kept(tracks, a, doomed) + Kept(tracks, b, doomed)
  {
    if a == [] {
      assert a + b == b;
    } else {
      assert (a + b)[1..] == a[1..] + b;
      KeptConcat(tracks, a[1..], b, doomed);
    }
  }

  // ---- Remove ----

  lemma {:induction false} DropKeeps(tracks: seq<Track>, refs: seq<int>, idx: int)
    requires InBounds(refs, |tracks|) && 0 <= idx < |tracks|
    ensures InBounds(DropIndex(refs, idx), |tracks| - 1)
    ensures Contents(Deleted(tracks, idx), DropIndex(refs, idx)) == Kept(tracks, refs, {idx})
  {
    hide Kept, DropIndex, Contents, Deleted, Below;
    if refs == [] {
      NothingDropped(tracks, idx, {idx});
    } else {
      DropKeeps(tracks, refs[1..], idx);
      var rest := DropIndex(refs[1..], idx);
      DropCons(refs, idx);
      assert refs == [refs[0]] + refs[1..];
      KeptCons(tracks, refs[0], refs[1..], {idx});
      if refs[0] != idx {
        Shifted(tracks, {}, idx, refs[0]);
        ContentsCons(Deleted(tracks, idx), if refs[0] > idx then refs[0] - 1 else refs[0], rest);
      }
    }
  }

  /** Remove takes the removed track out of the play sequence and out of the queue, and nothing else. */
  lemma RemoveKeepsTheRest(s: Snapshot, idx: int)
    requires Valid(s) && 0 <= idx < |s.tracks|
    ensures Valid(Remove(s, idx).0)
    ensures PlaySequence(Remove(s, idx).0) == Kept(s.tracks, s.order, {idx})
    ensures QueueContents(Remove(s, idx).0) == Kept(s.tracks, s.queue, {idx})
  {
    RemoveValid(s, idx);
    DropKeeps(s.tracks, s.order, idx);
    DropKeeps(s.tracks, s.queue, idx);
  }

  /** A list of tracks is what its own indices point at, in order. */
  lemma ContentsOfIdentity(tracks: seq<Track>)
    ensures Contents(tracks, Identity(|tracks|)) == tracks
  {
  }

  lemma {:induction false} DropBefore(refs: seq<int>, idx: int, k: nat)
    requires k < |refs| && refs[k] != idx
    requires forall i, j :: 0 <= i < j < |refs| ==> refs[i] != refs[j]
    ensures var slot := IndexOf(refs, idx);
            var j := if 0 <= slot < k then k - 1 else k;
            j < |DropIndex(refs, idx)| && DropIndex(refs, idx)[j] == if refs[k] > idx then refs[k] - 1 else refs[k]
    decreases k
  {
    if refs[0] == idx {
      NothingToDrop(refs[1..], idx);
    } else if k > 0 {
      DropBefore(refs[1..], idx, k - 1);
    }
  }

  lemma {:induction false} NothingToDrop(refs: seq<int>, idx: int)
    requires forall i :: 0 <= i < |refs| ==> refs[i] != idx
    ensures |DropIndex(refs, idx)| == |refs|
    ensures forall k :: 0 <= k < |refs| ==> DropIndex(refs, idx)[k] == if refs[k] > idx then refs[k] - 1 else refs[k]
  {
    if refs != [] {
      NothingToDrop(refs[1..], idx);
    }
  }

  /** The track at the cursor stays at the cursor unless it is the one removed. */
  lemma RemoveKeepsCursor(s: Snapshot, idx: int)
    requires Valid(s) && 0 <= idx < |s.tracks| && s.order[s.pos] != idx
    ensures var t := Remove(s, idx).0;
            && 0 <= t.pos < |t.order|
            && t.order[t.pos] == if s.order[s.pos] > idx then s.order[s.pos] - 1 else s.order[s.pos]
  {
    hide DropIndex, IndexOf, Identity, InBounds;
    RemovePermutation(s.order, idx, |s.tracks| - 1);
    DropBefore(s.order, idx, s.pos);
  }

  /** The current track, queued or not, stays current unless it is the one removed. */
  lemma RemoveKeepsCurrent(s: Snapshot, idx: int)
    requires Valid(s) && 0 <= idx < |s.tracks| && CurrentIndex(s) != idx
    ensures Valid(Remove(s, idx).0) && Remove(s, idx).0.tracks != []
    ensures CurrentTrack(Remove(s, idx).0) == CurrentTrack(s)
  {
    RemoveValid(s, idx);
    if s.queuedIdx == -1 {
      RemoveKeepsCursor(s, idx);
    }
  }

  lemma {:induction false} KeptOne(tracks: seq<Track>, refs: seq<int>, idx: int, slot: nat)
    requires InBounds(refs, |tracks|) && slot < |refs| && refs[slot] == idx
    requires forall i, j :: 0 <= i < j < |refs| ==> refs[i] != refs[j]
    ensures Kept(tracks, refs, {idx}) == Deleted(Contents(tracks, refs), slot)
  {
    var all := Contents(tracks, refs);
    if slot == 0 {
      KeptNothingDoomed(tracks, refs[1..], {idx});
      assert Deleted(all, 0) == Contents(tracks, refs[1..]);
    } else {
      KeptOne(tracks, refs[1..], idx, slot - 1);
      assert all == [all[0]] + Contents(tracks, refs[1..]);
      DeletedBehind(all[0], Contents(tracks, refs[1..]), slot - 1);
    }
  }

  lemma DeletedBehind(first: Track, rest: seq<Track>, slot: nat)
    requires slot < |rest|
    ensures Deleted([first] + rest, slot + 1) == [first] + Deleted(rest, slot)
  {
  }

  /** Remove deletes one slot of the play sequence. */
  lemma RemoveDeletesSlot(s: Snapshot, slot: nat)
    requires Valid(s) && slot < |s.order|
    ensures Valid(Remove(s, s.order[slot]).0)
    ensures PlaySequence(Remove(s, s.order[slot]).0) == Deleted(PlaySequence(s), slot)
  {
    hide Remove, Kept, Identity;
    RemoveKeepsTheRest(s, s.order[slot]);
    KeptOne(s.tracks, s.order, s.order[slot], slot);
  }

  /** The cursor after the row under it is gone: on the next slot, or on the one before if it was the last. */
  lemma RemoveUnderCursor(s: Snapshot)
    requires Valid(s) && |s.tracks| > 1
    ensures var t := Remove(s, s.order[s.pos]).0;
            t.pos == if s.pos + 1 < |s.order| then s.pos else s.pos - 1
  {
    hide DropIndex, Identity;
    RemovePermutation(s.order, s.order[s.pos], |s.tracks| - 1);
    IndexOfIs(s.order, s.order[s.pos], s.pos);
  }

  /**
   Removing the current track. If it played from the queue, the track at the cursor is current again. If it stood at
   the cursor, the cursor stays at its slot, which now holds the successor; only at the end it steps back.
   */
  lemma RemoveCurrent(s: Snapshot)
    requires Valid(s) && |s.tracks| > 1
    ensures var t := Remove(s, CurrentIndex(s)).0;
            && Valid(t) && t.tracks != [] && t.queuedIdx == -1
            && (CurrentIndex(s) != s.order[s.pos] ==> CurrentTrack(t) == s.tracks[s.order[s.pos]])
            && (CurrentIndex(s) == s.order[s.pos] ==>
                  CurrentTrack(t) == PlaySequence(s)[if s.pos + 1 < |s.order| then s.pos + 1 else s.pos - 1])
  {
    hide DropIndex, Identity, Kept;
    var idx := CurrentIndex(s);
    RemoveValid(s, idx);
    if idx == s.order[s.pos] {
      RemoveDeletesSlot(s, s.pos);
      RemoveUnderCursor(s);
      var t := Remove(s, idx).0;
      assert CurrentTrack(t) == PlaySequence(t)[t.pos];
    } else {
      RemoveKeepsCursor(s, idx);
    }
  }

  function FirstPlayable(tracks: seq<Track>): Option<Track> {
    if tracks == [] then None else if !tracks[0].unplayable then Some(tracks[0]) else FirstPlayable(tracks[1..])
  }

  lemma {:induction false} FirstPlayableIs(tracks: seq<Track>, k: nat)
    requires k <= |tracks| && (forall j :: 0 <= j < k ==> tracks[j].unplayable)
    requires (k < |tracks| ==> !tracks[k].unplayable)
    ensures FirstPlayable(tracks) == if k < |tracks| then Some(tracks[k]) else None
  {
    if k > 0 {
      FirstPlayableIs(tracks[1..], k - 1);
    }
  }

  /** What Next plays without repeat and queue: the first playable track of the play sequence behind the cursor. */
  lemma NextInSequence(t: Snapshot, rng: Draws)
    requires Valid(t) && t.tracks != [] && t.repeat == RepeatOff && FirstQueued(t.tracks, t.queue, 0).None?
    ensures var r := Next(t, rng).1;
            && (r.Some? ==> 0 <= r.value < |t.tracks|)
            && FirstPlayable(PlaySequence(t)[t.pos + 1..]) == if r.Some? then Some(t.tracks[r.value]) else None
  {
    hide IsPermutation, Identity, Next, FirstSlot;
    CursorInRange(t);
    NextInOrder(t, rng);
    var slot := FirstSlot(t.tracks, t.order, t.pos + 1, |t.order|);
    var rest := PlaySequence(t)[t.pos + 1..];
    var k := if slot.Some? then slot.value - t.pos - 1 else |rest|;
    forall j | 0 <= j < k ensures rest[j].unplayable {
      assert !Playable(t.tracks, t.order[t.pos + 1 + j]);
    }
    FirstPlayableIs(rest, k);
  }

  /**
   With repeat off and nothing queued, a Next after removing the track at the cursor passes over the
   successor that took its slot: it plays the first playable track behind that one.
   */
  lemma NextAfterRemove(s: Snapshot, rng: Draws)
    requires Valid(s) && |s.tracks| > 1 && s.pos + 1 < |s.order| && s.queuedIdx == -1 && s.repeat == RepeatOff
    requires s.queue == []
    ensures var t := Remove(s, s.order[s.pos]).0;
            && Valid(t) && CurrentTrack(t) == PlaySequence(s)[s.pos + 1]
            && var r := Next(t, rng).1;
            && (r.Some? ==> 0 <= r.value < |t.tracks|)
            && FirstPlayable(PlaySequence(s)[s.pos + 2..]) == if r.Some? then Some(t.tracks[r.value]) else None
  {
    hide IsPermutation, Identity, Remove, Next, FirstQueued, Deleted, FirstPlayable;
    CursorInRange(s);
    LengthOfOrder(s);
    var t := Remove(s, s.order[s.pos]).0;
    RemoveCurrent(s);
    RemoveDeletesSlot(s, s.pos);
    RemoveUnderCursor(s);
    QueueStaysEmpty(s, s.order[s.pos]);
    NextInSequence(t, rng);
    BehindDeleted(PlaySequence(s), s.pos);
  }

  lemma BehindDeleted(tracks: seq<Track>, i: nat)
    requires i + 1 < |tracks|
    ensures Deleted(tracks, i)[i + 1..] == tracks[i + 2..]
  {
  }

  lemma QueueStaysEmpty(s: Snapshot, idx: int)
    requires s.queue == [] && 0 <= idx < |s.tracks|
    ensures var t := Remove(s, idx).0;
            t.queue == [] && t.repeat == s.repeat && FirstQueued(t.tracks, t.queue, 0).None?
  {
  }

  // ---- Move ----

  lemma SwapKeepsContents(tracks: seq<Track>, refs: seq<int>, from: int, to: int)
    requires InBounds(refs, |tracks|) && 0 <= from < |tracks| && 0 <= to < |tracks|
    ensures InBounds(SwapIndices(refs, from, to), |tracks|)
    ensures Contents(Swapped(tracks, from, to), SwapIndices(refs, from, to)) == Contents(tracks, refs)
  {
  }

  /** Move changes only where rows stand: the queue and the current track stay, and under shuffle all that plays. */
  lemma MoveKeepsPlayback(s: Snapshot, from: int, to: int)
    requires Valid(s) && Move(s, from, to).1
    ensures var t := Move(s, from, to).0;
            && Valid(t) && QueueContents(t) == QueueContents(s)
            && PlaySequence(t) == if s.shuffle then PlaySequence(s) else Swapped(PlaySequence(s), from, to)
  {
    MoveValid(s, from, to);
    hide IsPermutation;
    SwapKeepsContents(s.tracks, s.queue, from, to);
    if s.shuffle {
      SwapKeepsContents(s.tracks, s.order, from, to);
    }
  }

  lemma MoveKeepsCurrent(s: Snapshot, from: int, to: int)
    requires Valid(s) && Move(s, from, to).1
    ensures var t := Move(s, from, to).0;
            && Valid(t) && CurrentTrack(t) == CurrentTrack(s)
            && t.tracks[t.order[t.pos]] == s.tracks[s.order[s.pos]]
  {
    MoveValid(s, from, to);
    assert SwapIndices(s.order, from, to)[s.pos] == SwapIndex(s.order[s.pos], from, to);
  }

  lemma SwapTwice(refs: seq<int>, from: int, to: int)
    ensures SwapIndices(SwapIndices(refs, from, to), from, to) == refs
  {
  }

  /** A second identical Move undoes the first. */
  lemma MoveTwice(s: Snapshot, from: int, to: int)
    requires Valid(s) && Move(s, from, to).1
    ensures Valid(Move(s, from, to).0)
    ensures Move(Move(s, from, to).0, from, to) == (s, true)
  {
    var t := Move(s, from, to).0;
    MoveValid(s, from, to);
    assert Swapped(t.tracks, from, to) == s.tracks;
    SwapTwice(s.order, from, to);
    SwapTwice(s.queue, from, to);
    if !s.shuffle {
      assert SwapIndices(t.order, from, to)[t.pos] == s.pos;
    }
  }

  // ---- Smart rows ----

  function PlainRows(tracks: seq<Track>): seq<Track> {
    if tracks == [] then [] else (if tracks[0].smart then [] else [tracks[0]]) + PlainRows(tracks[1..])
  }

  ghost function Below(doomed: set<int>, bound: nat): set<int> {
    set d | d in doomed && d < bound
  }

  /** Removing the highest doomed row leaves the same rows to keep for the lower ones. */
  lemma {:induction false} KeptStep(tracks: seq<Track>, refs: seq<int>, doomed: set<int>, top: nat)
    requires InBounds(refs, |tracks|) && top < |tracks|
    ensures InBounds(DropIndex(refs, top), |tracks| - 1)
    ensures Kept(Deleted(tracks, top), DropIndex(refs, top), Below(doomed, top))
            == Kept(tracks, refs, Below(doomed, top) + {top})
  {
    hide Deleted, Below, Kept, DropIndex;
    if refs == [] {
      NothingDropped(tracks, top, Below(doomed, top));
    } else {
      KeptStep(tracks, refs[1..], doomed, top);
      var rest, lower := DropIndex(refs[1..], top), Below(doomed, top);
      Shifted(tracks, doomed, top, refs[0]);
      DropCons(refs, top);
      assert refs == [refs[0]] + refs[1..];
      KeptCons(tracks, refs[0], refs[1..], lower + {top});
      if refs[0] != top {
        KeptCons(Deleted(tracks, top), if refs[0] > top then refs[0] - 1 else refs[0], rest, lower);
      }
    }
  }

  lemma NothingDropped(tracks: seq<Track>, top: int, doomed: set<int>)
    ensures DropIndex([], top) == []
    ensures forall lower :: Kept(tracks, [], lower) == []
    ensures 0 <= top < |tracks| ==> Kept(Deleted(tracks, top), [], doomed) == Contents(Deleted(tracks, top), []) == []
  {
  }

  lemma ContentsCons(tracks: seq<Track>, v: int, rest: seq<int>)
    requires 0 <= v < |tracks| && InBounds(rest, |tracks|)
    ensures InBounds([v] + rest, |tracks|) && Contents(tracks, [v] + rest) == [tracks[v]] + Contents(tracks, rest)
  {
  }

  lemma Shifted(tracks: seq<Track>, doomed: set<int>, top: nat, idx: int)
    requires top < |tracks| && 0 <= idx < |tracks|
    ensures |Deleted(tracks, top)| == |tracks| - 1
    ensures var v := if idx > top then idx - 1 else idx;
            idx != top ==> Deleted(tracks, top)[v] == tracks[idx]
                           && (v in Below(doomed, top) <==> idx in Below(doomed, top) + {top})
  {
  }

  lemma KeptCons(tracks: seq<Track>, v: int, rest: seq<int>, doomed: set<int>)
    requires 0 <= v < |tracks| && InBounds(rest, |tracks|)
    ensures InBounds([v] + rest, |tracks|)
    ensures Kept(tracks, [v] + rest, doomed) ==
            if v in doomed then Kept(tracks, rest, doomed) else [tracks[v]] + Kept(tracks, rest, doomed)
  {
    assert ([v] + rest)[1..] == rest;
  }

  lemma BelowNext(doomed: set<int>, bound: nat)
    requires bound > 0
    ensures if bound - 1 in doomed then Below(doomed, bound) == Below(doomed, bound - 1) + {bound - 1}
            else Below(doomed, bound) == Below(doomed, bound - 1)
  {
  }

  /** Removing a row after the cursor leaves the cursor and the slots up to it alone. */
  lemma RemoveAhead(s: Snapshot, top: nat)
    requires Valid(s) && top < |s.tracks|
    requires forall k :: 0 <= k <= s.pos ==> s.order[k] != top
    ensures Remove(s, top).0.pos == s.pos < |Remove(s, top).0.order|
    ensures forall k :: 0 <= k <= s.pos ==>
            Remove(s, top).0.order[k] == if s.order[k] > top then s.order[k] - 1 else s.order[k]
  {
    RemoveKeepsCursor(s, top);
    forall k | 0 <= k <= s.pos
      ensures k < |Remove(s, top).0.order|
      ensures Remove(s, top).0.order[k] == if s.order[k] > top then s.order[k] - 1 else s.order[k]
    {
      DropBefore(s.order, top, k);
    }
  }

  /** Rows removed after the cursor, highest first, leave the cursor and the modes alone. */
  lemma {:induction false} RemoveBelowCursor(s: Snapshot, doomed: set<int>, bound: nat)
    requires Valid(s) && bound <= |s.tracks|
    requires forall k :: 0 <= k <= s.pos && k < |s.order| ==> s.order[k] !in Below(doomed, bound)
    ensures var t := RemoveBelow(s, doomed, bound);
            Valid(t) && t.pos == s.pos && t.shuffle == s.shuffle && t.smart == s.smart && t.repeat == s.repeat
    decreases bound
  {
    if bound > 0 {
      var top := bound - 1;
      BelowNext(doomed, bound);
      if top in doomed {
        var u := Remove(s, top).0;
        RemoveValid(s, top);
        RemoveAhead(s, top);
        RemoveBelowCursor(u, doomed, top);
      } else {
        RemoveBelowCursor(s, doomed, top);
      }
    }
  }

  /** The track list loses exactly the doomed rows, too. */
  lemma {:induction false} RemoveBelowTracks(s: Snapshot, doomed: set<int>, bound: nat)
    requires bound <= |s.tracks|
    ensures RemoveBelow(s, doomed, bound).tracks == Kept(s.tracks, Identity(|s.tracks|), Below(doomed, bound))
    decreases bound
  {
    hide Kept;
    if bound == 0 {
      KeptNothingDoomed(s.tracks, Identity(|s.tracks|), Below(doomed, 0));
      ContentsOfIdentity(s.tracks);
    } else {
      var top := bound - 1;
      BelowNext(doomed, bound);
      if top in doomed {
        DropFromAllOfIdentity(|s.tracks| - 1, top);
        KeptStep(s.tracks, Identity(|s.tracks|), doomed, top);
        RemoveBelowTracks(Remove(s, top).0, doomed, top);
      } else {
        RemoveBelowTracks(s, doomed, top);
      }
    }
  }

  /** Highest-first removal ends with exactly the rows that were not doomed, in their old order. */
  lemma {:induction false} RemoveBelowKeeps(s: Snapshot, doomed: set<int>, bound: nat)
    requires Valid(s) && bound <= |s.tracks|
    ensures Valid(RemoveBelow(s, doomed, bound))
    ensures PlaySequence(RemoveBelow(s, doomed, bound)) == Kept(s.tracks, s.order, Below(doomed, bound))
    ensures QueueContents(RemoveBelow(s, doomed, bound)) == Kept(s.tracks, s.queue, Below(doomed, bound))
    decreases bound
  {
    if bound == 0 {
      KeptNothingDoomed(s.tracks, s.order, Below(doomed, 0));
      KeptNothingDoomed(s.tracks, s.queue, Below(doomed, 0));
    } else {
      var top := bound - 1;
      BelowNext(doomed, bound);
      if top in doomed {
        RemoveValid(s, top);
        KeptStep(s.tracks, s.order, doomed, top);
        KeptStep(s.tracks, s.queue, doomed, top);
        RemoveBelowKeeps(Remove(s, top).0, doomed, top);
      } else {
        RemoveBelowKeeps(s, doomed, top);
      }
    }
  }

  /** The queued track that plays keeps playing unless it is doomed. */
  lemma {:induction false} RemoveBelowQueued(s: Snapshot, doomed: set<int>, bound: nat)
    requires Valid(s) && bound <= |s.tracks|
    ensures Valid(RemoveBelow(s, doomed, bound))
    ensures var t := RemoveBelow(s, doomed, bound);
            if s.queuedIdx == -1 || s.queuedIdx in Below(doomed, bound) then t.queuedIdx == -1
            else t.queuedIdx >= 0 && t.tracks[t.queuedIdx] == s.tracks[s.queuedIdx]
    decreases bound
  {
    hide IsPermutation;
    if bound > 0 {
      var top := bound - 1;
      BelowNext(doomed, bound);
      if top in doomed {
        RemoveValid(s, top);
        RemoveBelowQueued(Remove(s, top).0, doomed, top);
      } else {
        RemoveBelowQueued(s, doomed, top);
      }
    }
  }

  lemma {:induction false} KeptPlainRows(s: Snapshot, doomed: set<int>, k: int)
    requires InBounds(s.order, |s.tracks|) && 0 <= k <= |s.order|
    requires forall i :: k <= i < |s.order| ==> (s.order[i] in doomed <==> s.tracks[s.order[i]].smart)
    ensures Kept(s.tracks, s.order[k..], doomed) == PlainRows(Contents(s.tracks, s.order[k..]))
    decreases |s.order| - k
  {
    var rest := s.order[k..];
    if k < |s.order| {
      KeptPlainRows(s, doomed, k + 1);
      assert rest == [s.order[k]] + s.order[k + 1..];
      assert Contents(s.tracks, rest) == [s.tracks[s.order[k]]] + Contents(s.tracks, s.order[k + 1..]);
    }
  }

  /** How many slots there are up to the cursor. */
  function CursorSlots(s: Snapshot): (n: int)
    requires Valid(s)
    ensures 0 <= n <= |s.order| && n <= s.pos + 1
    ensures n < |s.order| ==> n > s.pos
  {
    if s.tracks == [] then 0 else s.pos + 1
  }

  lemma SmartAheadIs(s: Snapshot, i: int)
    requires Valid(s) && 0 <= i < |s.order|
    ensures s.order[i] in SmartAhead(s) <==> i >= CursorSlots(s) && s.tracks[s.order[i]].smart
  {
    SmartRefsElements(s.tracks, Ahead(s));
    if i >= CursorSlots(s) {
      assert s.order[i] == Ahead(s)[i - s.pos - 1];
    }
  }

  lemma DoomedAreRows(s: Snapshot)
    requires Valid(s)
    ensures Below(SmartAhead(s), |s.tracks|) == SmartAhead(s)
  {
    SmartRefsElements(s.tracks, Ahead(s));
  }

  lemma KeptUpToCursor(s: Snapshot)
    requires Valid(s)
    ensures Kept(s.tracks, s.order, SmartAhead(s))
         == PlaySequence(s)[..CursorSlots(s)] + PlainRows(PlaySequence(s)[CursorSlots(s)..])
  {
    var doomed, n := SmartAhead(s), CursorSlots(s);
    forall i | 0 <= i < |s.order| ensures s.order[i] in doomed <==> i >= n && s.tracks[s.order[i]].smart {
      SmartAheadIs(s, i);
    }
    KeptSplit(s, doomed, n);
  }

  lemma InOrderBounds(s: Snapshot)
    requires Valid(s)
    ensures InBounds(s.order, |s.tracks|)
  {
  }

  lemma KeptSplit(s: Snapshot, doomed: set<int>, n: int)
    requires Valid(s) && 0 <= n <= |s.order|
    requires forall i :: 0 <= i < |s.order| ==> (s.order[i] in doomed <==> i >= n && s.tracks[s.order[i]].smart)
    ensures Kept(s.tracks, s.order, doomed) == PlaySequence(s)[..n] + PlainRows(PlaySequence(s)[n..])
  {
    hide IsPermutation, Identity, Kept, PlainRows;
    InOrderBounds(s);
    var head, rest := s.order[..n], s.order[n..];
    assert s.order == head + rest;
    KeptConcat(s.tracks, head, rest, doomed);
    KeptNothingDoomed(s.tracks, head, doomed);
    KeptPlainRows(s, doomed, n);
    assert Contents(s.tracks, rest) == PlaySequence(s)[n..];
    assert Contents(s.tracks, head) == PlaySequence(s)[..n];
  }

  /** DisableSmart drops the smart rows behind the cursor and keeps the slots up to it and every other row in order. */
  lemma DisableSmartDropsSmartRowsAhead(s: Snapshot)
    requires Valid(s)
    ensures var t := DisableSmart(s);
            && Valid(t) && !t.smart && t.pos == s.pos && t.shuffle == s.shuffle && t.repeat == s.repeat
            && PlaySequence(t) == PlaySequence(s)[..CursorSlots(s)] + PlainRows(PlaySequence(s)[CursorSlots(s)..])
            && t.tracks == Kept(s.tracks, Identity(|s.tracks|), SmartAhead(s))
            && QueueContents(t) == Kept(s.tracks, s.queue, SmartAhead(s))
  {
    var u, doomed := s.(smart := false), SmartAhead(s);
    forall i | 0 <= i <= s.pos && i < |s.order| ensures s.order[i] !in doomed {
      SmartAheadIs(s, i);
    }
    DoomedAreRows(s);
    KeptUpToCursor(s);
    RemoveBelowCursor(u, doomed, |s.tracks|);
    RemoveBelowKeeps(u, doomed, |s.tracks|);
    RemoveBelowTracks(u, doomed, |s.tracks|);
  }

  /**
   DisableSmart keeps a track that plays from the queue if and only if it is not a smart row ahead of the cursor;
   otherwise the track at the cursor is current again. A track that plays at the cursor always stays.
   */
  lemma DisableSmartKeepsCurrent(s: Snapshot)
    requires Valid(s) && s.tracks != []
    ensures var t := DisableSmart(s);
            && Valid(t) && t.tracks != []
            && (s.queuedIdx >= 0 ==> (t.queuedIdx >= 0 <==> s.queuedIdx !in SmartAhead(s)))
            && (s.queuedIdx == -1 ==> CurrentIndex(s) !in SmartAhead(s))
            && CurrentTrack(t) == if CurrentIndex(s) in SmartAhead(s) then s.tracks[s.order[s.pos]] else CurrentTrack(s)
  {
    hide IsPermutation, Identity, SmartAhead, DisableSmart;
    var t := DisableSmart(s);
    CursorInRange(s);
    DoomedAreRows(s);
    SmartAheadIs(s, s.pos);
    DisableSmartDropsSmartRowsAhead(s);
    DisableSmartQueued(s);
    LengthOfOrder(s);
    LengthOfOrder(t);
    assert PlaySequence(t)[s.pos] == PlaySequence(s)[s.pos];
  }

  lemma DisableSmartQueued(s: Snapshot)
    requires Valid(s)
    ensures var t := DisableSmart(s);
            if s.queuedIdx == -1 || s.queuedIdx in SmartAhead(s) then t.queuedIdx == -1
            else 0 <= t.queuedIdx < |t.tracks| && t.tracks[t.queuedIdx] == s.tracks[s.queuedIdx]
  {
    hide IsPermutation, Identity, SmartAhead, RemoveBelow;
    DoomedAreRows(s);
    RemoveBelowQueued(s.(smart := false), SmartAhead(s), |s.tracks|);
  }

  lemma {:induction false} PlainRowsArePlain(tracks: seq<Track>)
    ensures forall k :: 0 <= k < |PlainRows(tracks)| ==> !PlainRows(tracks)[k].smart
  {
    if tracks != [] {
      PlainRowsArePlain(tracks[1..]);
    }
  }

  lemma {:induction false} SmartAndPlainRows(tracks: seq<Track>, refs: seq<int>)
    requires InBounds(refs, |tracks|)
    ensures |SmartRefs(tracks, refs)| + |PlainRows(Contents(tracks, refs))| == |refs|
  {
    if refs != [] {
      SmartAndPlainRows(tracks, refs[1..]);
      assert Contents(tracks, refs)[1..] == Contents(tracks, refs[1..]);
    }
  }

  lemma AheadContents(s: Snapshot)
    requires Valid(s)
    ensures Contents(s.tracks, Ahead(s)) == PlaySequence(s)[CursorSlots(s)..]
  {
  }

  /** DisableSmart removes as many rows as SmartPending counted. */
  lemma DisableSmartCount(s: Snapshot)
    requires Valid(s)
    ensures Valid(DisableSmart(s))
    ensures |DisableSmart(s).tracks| == |s.tracks| - SmartPending(s)
  {
    DisableSmartDropsSmartRowsAhead(s);
    hide IsPermutation, DisableSmart;
    SmartAndPlainRows(s.tracks, Ahead(s));
    AheadContents(s);
    LengthOfOrder(s);
    LengthOfOrder(DisableSmart(s));
  }

  lemma LengthOfOrder(s: Snapshot)
    requires Valid(s)
    ensures |PlaySequence(s)| == |s.order| == |s.tracks|
  {
  }

  /** No smart row is pending after DisableSmart. */
  lemma DisableSmartClearsPending(s: Snapshot)
    requires Valid(s)
    ensures Valid(DisableSmart(s)) && SmartPending(DisableSmart(s)) == 0
  {
    var n := CursorSlots(s);
    DisableSmartDropsSmartRowsAhead(s);
    var rows := PlainRows(PlaySequence(s)[n..]);
    PlainRowsArePlain(PlaySequence(s)[n..]);
    var t := DisableSmart(s);
    assert PlaySequence(t)[n..] == rows;
    LengthOfOrder(s);
    LengthOfOrder(t);
    hide IsPermutation, DisableSmart, PlainRows;
    NothingSmartAhead(t, n, rows);
  }

  lemma NothingSmartAhead(t: Snapshot, n: int, rows: seq<Track>)
    requires Valid(t) && 0 <= n <= t.pos + 1
    requires n <= |PlaySequence(t)| && PlaySequence(t)[n..] == rows
    requires forall k :: 0 <= k < |rows| ==> !rows[k].smart
    ensures SmartRefs(t.tracks, Ahead(t)) == []
  {
    var refs := Ahead(t);
    forall i | 0 <= i < |refs| ensures !t.tracks[refs[i]].smart {
      assert t.tracks[refs[i]] == rows[t.pos + 1 + i - n];
    }
    NoSmartRefs(t.tracks, refs);
  }

  // ---- Loading and shuffling ----

  /** Add puts the new tracks behind the cursor; without shuffle it only appends. */
  lemma AddKeepsUpToCursor(s: Snapshot, tracks: seq<Track>, rng: Draws)
    requires Valid(s) && s.tracks != []
    ensures var t := Add(s, tracks, rng);
            && Valid(t) && t.pos == s.pos && CurrentTrack(t) == CurrentTrack(s)
            && PlaySequence(t)[..s.pos + 1] == PlaySequence(s)[..s.pos + 1]
            && multiset(PlaySequence(t)) == multiset(PlaySequence(s) + tracks)
            && (!s.shuffle ==> PlaySequence(t) == PlaySequence(s) + tracks)
  {
    hide IsPermutation, Identity;
    AddValid(s, tracks, rng);
    CursorInRange(s);
    if tracks == [] {
      assert PlaySequence(s) + tracks == PlaySequence(s);
    } else {
      AppendValid(s, tracks);
      var t := Append(s, tracks);
      AppendedSequence(s, tracks);
      if s.shuffle {
        TailRearranged(t, rng);
        CursorInRange(t);
      }
    }
  }

  lemma AppendedSequence(s: Snapshot, tracks: seq<Track>)
    requires Valid(s) && s.tracks != [] && Valid(Append(s, tracks))
    ensures var t := Append(s, tracks);
            && PlaySequence(t) == PlaySequence(s) + tracks && t.pos == s.pos && t.tracks != []
            && CurrentTrack(t) == CurrentTrack(s) && PlaySequence(t)[..s.pos + 1] == PlaySequence(s)[..s.pos + 1]
  {
    hide IsPermutation, Identity;
    CursorInRange(s);
    assert PlaySequence(Append(s, tracks)) == PlaySequence(s) + tracks;
  }

  lemma {:induction false} ContentsMultiset(tracks: seq<Track>, a: seq<int>, b: seq<int>)
    requires InBounds(a, |tracks|) && InBounds(b, |tracks|) && multiset(a) == multiset(b)
    ensures multiset(Contents(tracks, a)) == multiset(Contents(tracks, b))
  {
    SameLength(a, b);
    if a != [] {
      assert a[0] in multiset(b);
      var i :| 0 <= i < |b| && b[i] == a[0];
      assert Deleted(a, 0) == a[1..];
      DeletedMatching(a, 0, b, i);
      ContentsMultiset(tracks, a[1..], Deleted(b, i));
      var c, d := Contents(tracks, a), Contents(tracks, b);
      assert Contents(tracks, a[1..]) == Deleted(c, 0);
      assert Contents(tracks, Deleted(b, i)) == Deleted(d, i);
      DeletedMultiset(c, 0);
      DeletedMultiset(d, i);
    }
  }

  lemma DeletedMatching(a: seq<int>, i: nat, b: seq<int>, j: nat)
    requires i < |a| && j < |b| && a[i] == b[j] && multiset(a) == multiset(b)
    ensures multiset(Deleted(a, i)) == multiset(Deleted(b, j))
  {
    DeletedMultiset(a, i);
    DeletedMultiset(b, j);
    assert multiset(Deleted(a, i)) == multiset(a) - multiset{a[i]};
    assert multiset(Deleted(b, j)) == multiset(b) - multiset{b[j]};
  }

  lemma DeletedMultiset<T>(s: seq<T>, i: nat)
    requires i < |s|
    ensures multiset(s) == multiset(Deleted(s, i)) + multiset{s[i]}
  {
    assert s == s[..i] + [s[i]] + s[i + 1..];
  }

  lemma TailRearranged(t: Snapshot, rng: Draws)
    requires Valid(t) && t.tracks != [] && t.shuffle
    ensures var u := ShuffleTail(t, rng);
            && Valid(u) && PlaySequence(u)[..t.pos + 1] == PlaySequence(t)[..t.pos + 1]
            && multiset(PlaySequence(u)) == multiset(PlaySequence(t))
  {
    hide IsPermutation, Identity, Shuffled;
    var u := ShuffleTail(t, rng);
    ShuffleTailValid(t, rng);
    CursorInRange(t);
    CursorInRange(u);
    ShuffledRearranges(t.order[t.pos + 1..], rng);
    assert t.order == t.order[..t.pos + 1] + t.order[t.pos + 1..];
    ContentsMultiset(t.tracks, t.order, u.order);
  }

  /** Turning shuffle on or off keeps the tracks, the queue and the current track. */
  lemma ToggleShuffleKeepsCurrent(s: Snapshot, rng: Draws)
    requires Valid(s) && s.tracks != []
    ensures var t := ToggleShuffle(s, rng);
            && Valid(t) && t.tracks == s.tracks && t.queue == s.queue
            && t.order[t.pos] == s.order[s.pos] && CurrentIndex(t) == CurrentIndex(s)
            && (s.shuffle ==> PlaySequence(t) == t.tracks)
  {
    ToggleShuffleValid(s, rng);
  }
}
