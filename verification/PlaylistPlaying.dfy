/**
 What plays, told by the rows themselves: what is playable plays when its turn comes, what is not never does, and the
 play sequence changes only where a shuffled playlist starts over.
 */
module PlaylistPlaying {
  import opened Common
  import opened Shuffle
  import opened PlaylistState
  import opened PlaylistNavigation

  /** Row i exists and can be played. */
  ghost predicate CanPlay(s: Snapshot, i: int) {
    0 <= i < |s.tracks| && !s.tracks[i].unplayable
  }

  /** Whatever Next, PeekNext, Prev or ActivateSelected gives out can be played. */
  lemma PlaysOnlyPlayable(s: Snapshot, rng: Draws)
    requires Valid(s)
    ensures Next(s, rng).1.Some? ==> CanPlay(s, Next(s, rng).1.value)
    ensures PeekNext(s).Some? ==> CanPlay(s, PeekNext(s).value)
    ensures ActivateSelected(s).1.Some? ==> CanPlay(s, ActivateSelected(s).1.value)
    ensures s.tracks != [] && Prev(s).2 ==> CanPlay(s, Prev(s).1)
  {
    hide Next, Prev, IsPermutation;
    if Next(s, rng).1.Some? {
      NextPlayable(s, rng);
    }
    if s.tracks != [] {
      PrevPlayable(s);
    }
    hide InBounds, Identity;
  }

  lemma PrevPlayable(s: Snapshot)
    requires Valid(s) && s.tracks != []
    ensures Prev(s).2 ==> CanPlay(s, Prev(s).1)
  {
    hide IsPermutation, InBounds, Identity;
  }

  lemma NextPlayable(s: Snapshot, rng: Draws)
    requires Valid(s) && Next(s, rng).1.Some?
    ensures CanPlay(s, Next(s, rng).1.value)
  {
    hide IsPermutation, InBounds, Identity;
    if s.repeat != RepeatOne && FirstQueued(s.tracks, s.queue, 0).None? {
      if FirstSlot(s.tracks, s.order, s.pos + 1, |s.order|).Some? || !AtShuffleWrap(s.(queue := [])) {
        NextInOrder(s, rng);
      }
    }
  }

  /** A playable row at the head of the queue plays next, and is taken out of the queue. */
  lemma QueueHeadPlays(s: Snapshot, rng: Draws)
    requires Valid(s) && s.queue != [] && CanPlay(s, s.queue[0])
    ensures Next(s, rng) == (s.(queue := s.queue[1..], queuedIdx := s.queue[0]), Some(s.queue[0]))
  {
  }

  /** With nothing queued, a playable row behind the cursor plays next, and with repeat-one the row at the cursor. */
  lemma FollowingPlays(s: Snapshot, rng: Draws)
    requires Valid(s) && s.queue == [] && s.tracks != []
    ensures 0 <= s.pos < |s.order|
    ensures s.repeat != RepeatOne && s.pos + 1 < |s.order| && CanPlay(s, s.order[s.pos + 1]) ==>
              Next(s, rng) == (s.(pos := s.pos + 1, queuedIdx := -1), Some(s.order[s.pos + 1]))
    ensures s.repeat == RepeatOne && CanPlay(s, s.order[s.pos]) ==>
              Next(s, rng) == (s.(queuedIdx := -1), Some(s.order[s.pos]))
  {
    hide IsPermutation, Identity, ShuffleWrap;
    assert s.(queue := []) == s;
  }

  /** A playable row before the cursor is the one Prev goes back to; a playable row at the cursor is activated. */
  lemma PrecedingPlays(s: Snapshot)
    requires Valid(s) && s.tracks != []
    ensures 0 <= s.pos < |s.order|
    ensures s.pos > 0 && CanPlay(s, s.order[s.pos - 1]) ==>
              Prev(s) == (s.(pos := s.pos - 1, queuedIdx := -1), s.order[s.pos - 1], true)
    ensures CanPlay(s, s.order[s.pos]) ==> ActivateSelected(s) == (s.(queuedIdx := -1), Some(s.order[s.pos]))
  {
    hide IsPermutation, Identity;
    assert s.(pos := s.pos) == s;
  }

  /** The play sequence starts over: repeat-all and shuffle are on, nothing is queued or plays from the queue. */
  ghost predicate StartsOver(s: Snapshot) {
    s.repeat == RepeatAll && s.shuffle && s.queuedIdx == -1 && s.pos + 1 >= |s.order| && NoneQueued(s)
  }

  ghost predicate NoneQueued(s: Snapshot) {
    forall k :: 0 <= k < |s.queue| ==> !CanPlay(s, s.queue[k])
  }

  /**
   Next mixes the play sequence anew exactly where it starts over: anywhere else the sequence stays; there any other
   playable row can come next, whatever order the rows were in.
   */
  lemma MixedOnlyAtTheEnd(s: Snapshot, rng: Draws)
    requires Valid(s) && !StartsOver(s)
    ensures Next(s, rng).0.order == s.order
  {
    hide IsPermutation, InBounds, Identity, ShuffleWrap;
    var c := s.(queue := []);
    if FirstQueued(s.tracks, s.queue, 0).None? {
      assert NoneQueued(s);
      assert !AtShuffleWrap(c);
    }
  }

  lemma MixedAtTheEnd(s: Snapshot, idx: int) returns (rng: Draws)
    requires Valid(s) && StartsOver(s) && CanPlay(s, idx) && idx != s.order[s.pos]
    ensures Next(s, rng).1 == Some(idx)
  {
    var c := s.(queue := []);
    rng := WrapCanPick(c, idx) by {
      assert AtShuffleWrap(c);
    }
    hide IsPermutation, InBounds, Identity;
    assert FirstQueued(s.tracks, s.queue, 0).None?;
    assert FirstQueued(c.tracks, c.queue, 0).None?;
    assert c.(queue := []) == c;
    hide Advance;
  }

  /** Pressing repeat goes from off to all to one and back to off. */
  lemma RepeatCycles(mode: RepeatMode)
    ensures NextRepeat(NextRepeat(NextRepeat(mode))) == mode && NextRepeat(mode) != mode
    ensures NextRepeat(RepeatOff) == RepeatAll
  {
  }
}
