/** What Next, HasNext, PeekNext, Upcoming and Prev promise about each other. */
module PlaylistNavigation {
  import opened Common
  import opened Shuffle
  import opened PlaylistState
  import opened PlaylistInvariant

  ghost predicate AnyPlayable(s: Snapshot) {
    exists k :: 0 <= k < |s.order| && Playable(s.tracks, s.order[k])
  }

  /** Two permutations of the same tracks hold the same playable tracks. */
  lemma SamePlayable(s: Snapshot, t: Snapshot)
    requires Valid(s) && Valid(t) && s.tracks == t.tracks
    ensures AnyPlayable(s) <==> AnyPlayable(t)
  {
    if AnyPlayable(s) {
      var k :| 0 <= k < |s.order| && Playable(s.tracks, s.order[k]);
      assert s.order[k] in t.order;
    }
    if AnyPlayable(t) {
      var k :| 0 <= k < |t.order| && Playable(t.tracks, t.order[k]);
      assert t.order[k] in s.order;
    }
  }

  lemma WrapShuffles(s: Snapshot, rng: Draws)
    requires Valid(s) && s.tracks != [] && s.shuffle
    ensures ShuffleWrap(s, rng).1.Some? <==> AnyPlayable(s)
  {
    DoShuffleValid(s, rng);
    SamePlayable(s, DoShuffle(s, rng));
  }

  /** HasNext answers what Next would do, whatever a reshuffle draws. */
  lemma HasNextIsNext(s: Snapshot, rng: Draws)
    requires Valid(s)
    ensures HasNext(s) <==> Next(s, rng).1.Some?
  {
    var c := s.(queue := []);
    if s.tracks != [] && AtShuffleWrap(c) {
      WrapShuffles(c, rng);
    }
    if s.tracks != [] {
      assert FirstSlot(s.tracks, s.order, 0, |s.order|).Some? <==> AnyPlayable(s);
    }
  }

  /**
   A Next that fails leaves everything but an unplayable queue as it was; one that succeeds plays a playable track.
   */
  lemma NextOutcome(s: Snapshot, rng: Draws)
    requires Valid(s)
    ensures var (t, r) := Next(s, rng);
            match r
            case None =>
              && t == s.(queue := if s.tracks == [] then s.queue else [])
              && forall k :: 0 <= k < |s.queue| ==> !Playable(s.tracks, s.queue[k])
            case Some(idx) => Playable(s.tracks, idx) && t.tracks == s.tracks && CurrentIndex(t) == idx
  {
  }

  // ---- PeekNext ----

  /** PeekNext sees a queue Next would first clear, and so misses the shuffle wrap. */
  predicate HiddenWrap(s: Snapshot) {
    && s.tracks != []
    && s.queue != [] && FirstQueued(s.tracks, s.queue, 0).None?
    && AtShuffleWrap(s.(queue := []))
  }

  /** The reshuffle at a wrap has more than one candidate for the next track. */
  ghost predicate OpenChoice(s: Snapshot) {
    exists j, k :: 0 <= j < k < |s.order| && j != s.pos && k != s.pos
                   && Playable(s.tracks, s.order[j]) && Playable(s.tracks, s.order[k])
  }

  /** Next past the queue, where the order decides without a reshuffle. */
  lemma NextInOrder(s: Snapshot, rng: Draws)
    requires Valid(s) && s.tracks != [] && FirstQueued(s.tracks, s.queue, 0).None? && s.repeat != RepeatOne
    requires FirstSlot(s.tracks, s.order, s.pos + 1, |s.order|).Some? || !AtShuffleWrap(s.(queue := []))
    ensures var slot := match FirstSlot(s.tracks, s.order, s.pos + 1, |s.order|)
                        case Some(k) => Some(k)
                        case None => if s.repeat == RepeatAll then FirstSlot(s.tracks, s.order, 0, |s.order|) else None;
            Next(s, rng) == match slot
                            case None => (s.(queue := []), None)
                            case Some(k) => (s.(queue := [], pos := k, queuedIdx := -1), Some(s.order[k]))
  {
    hide ShuffleWrap, FirstSlot, Playable;
    var c := s.(queue := []);
  }

  /** What PeekNext shows is what Next plays, unless a queue without playable entries hides a shuffle wrap. */
  lemma PeekNextIsNext(s: Snapshot, rng: Draws)
    requires Valid(s) && PeekNext(s).Some? && !HiddenWrap(s)
    ensures Next(s, rng).1 == PeekNext(s)
  {
    if FirstQueued(s.tracks, s.queue, 0).None? && s.repeat != RepeatOne {
      NextInOrder(s, rng);
      hide Next, FirstSlot, Playable;
    }
  }

  /** A reshuffle at the wrap can put any track other than the current one next. */
  lemma WrapCanPick(s: Snapshot, idx: int) returns (rng: Draws)
    requires Valid(s) && AtShuffleWrap(s) && Playable(s.tracks, idx) && idx != s.order[s.pos]
    ensures Next(s, rng).1 == Some(idx)
  {
    var n, cur := |s.tracks|, s.order[s.pos];
    var others := Others(n, cur);
    var i := if idx < cur then idx else idx - 1;
    assert others[i] == idx;
    var q := Swapped(others, 0, i);
    SwapRearranges(others, 0, i);
    rng := EveryArrangementIsDrawn(others, q);
    assert s == s.(queue := []);
    assert DoShuffle(s, rng).order[1] == idx;
    assert FirstSlot(s.tracks, DoShuffle(s, rng).order, 1, n) == Some(1);
    assert FirstSlot(s.tracks, s.order, s.pos + 1, n) == None;
  }

  /** At a wrap the track that just played does not play again while another one can. */
  lemma WrapAvoidsRepeat(s: Snapshot, rng: Draws, k: int)
    requires Valid(s) && AtShuffleWrap(s)
    requires 0 <= k < |s.order| && k != s.pos && Playable(s.tracks, s.order[k])
    ensures Next(s, rng).1.Some? && Next(s, rng).1.value != s.order[s.pos]
  {
    DoShuffleValid(s, rng);
    var t := DoShuffle(s, rng);
    assert s == s.(queue := []);
    assert s.order[k] in t.order;
    var i :| 0 <= i < |t.order| && t.order[i] == s.order[k];
    assert i != 0;
    assert FirstSlot(s.tracks, s.order, s.pos + 1, |s.order|) == None;
    var slot := FirstSlot(t.tracks, t.order, 1, |t.order|).value;
    assert t.order[slot] != t.order[0];
  }

  lemma WrapStart(s: Snapshot, rng: Draws)
    requires Valid(s) && s.tracks != [] && s.shuffle
    ensures var t := DoShuffle(s, rng);
            Valid(t) && t.tracks == s.tracks && t.order[0] == s.order[s.pos] && |t.order| == |s.order|
  {
    DoShuffleValid(s, rng);
  }

  lemma SlotAfterShuffle(s: Snapshot, t: Snapshot, k: int) returns (i: int)
    requires Valid(s) && Valid(t) && s.tracks == t.tracks && 0 <= k < |s.order|
    ensures 0 <= i < |t.order| && t.order[i] == s.order[k]
    ensures forall j :: 0 <= j < |t.order| && j != i ==> t.order[j] != s.order[k]
  {
    assert s.order[k] in t.order;
    i :| 0 <= i < |t.order| && t.order[i] == s.order[k];
  }

  /** With one candidate left, the reshuffle cannot change what comes next. */
  lemma ForcedWrap(s: Snapshot, rng: Draws)
    requires Valid(s) && HiddenWrap(s) && !OpenChoice(s) && PeekNext(s).Some?
    ensures Next(s, rng).1 == PeekNext(s)
  {
    hide Identity, FirstSlot, DoShuffle, IsPermutation;
    var c := s.(queue := []);
    OrderInRange(s);
    OrderInRange(c);
    WrapStart(c, rng);
    var t := DoShuffle(c, rng);
    var peek := FirstSlot(s.tracks, s.order, 0, |s.order|).value;
    assert PeekNext(s) == Some(s.order[peek]);
    var i := SlotAfterShuffle(s, t, peek);
    assert FirstSlot(c.tracks, c.order, s.pos + 1, |s.order|) == None;
    forall k | 0 <= k < |t.order| && k != i && k != 0 ensures !Playable(t.tracks, t.order[k]) {
      var j := SlotAfterShuffle(t, s, k);
      assert j != peek;
      CursorFirst(s, t, j, k);
    }
    if peek == s.pos {
      assert i == 0;
      assert FirstSlot(t.tracks, t.order, 1, |t.order|) == None;
      assert FirstSlot(t.tracks, t.order, 0, 1) == Some(0);
    } else {
      CursorFirst(s, t, peek, i);
      assert FirstSlot(t.tracks, t.order, 1, |t.order|) == Some(i);
    }
  }

  /** A slot that a shuffle did not put first is not the cursor's. */
  lemma CursorFirst(s: Snapshot, t: Snapshot, j: int, k: int)
    requires Valid(s) && Valid(t) && s.tracks == t.tracks && s.tracks != [] && t.order[0] == s.order[s.pos]
    requires 0 <= j < |s.order| && 0 <= k < |t.order| && s.order[j] == t.order[k]
    ensures j == s.pos <==> k == 0
  {
  }

  /** Exactly when PeekNext predicts Next for every draw. */
  lemma PeekNextPredicts(s: Snapshot)
    requires Valid(s) && PeekNext(s).Some?
    ensures (forall rng: Draws :: Next(s, rng).1 == PeekNext(s)) <==> !(HiddenWrap(s) && OpenChoice(s))
  {
    if HiddenWrap(s) && OpenChoice(s) {
      var j, k :| 0 <= j < k < |s.order| && j != s.pos && k != s.pos
                  && Playable(s.tracks, s.order[j]) && Playable(s.tracks, s.order[k]);
      var other := if PeekNext(s) == Some(s.order[j]) then k else j;
      var c := s.(queue := []);
      var rng := WrapCanPick(c, s.order[other]);
      assert c.(queue := []) == c;
      assert FirstQueued(c.tracks, c.queue, 0) == None;
      assert Next(s, rng).1 == Next(c, rng).1;
    } else {
      forall rng: Draws ensures Next(s, rng).1 == PeekNext(s) {
        if HiddenWrap(s) {
          ForcedWrap(s, rng);
        } else {
          PeekNextIsNext(s, rng);
        }
      }
    }
  }

  // ---- Playing to the end ----

  /** The states of a run of Next calls, from s until the first call that fails. */
  function Playthrough(s: Snapshot, rng: Draws): seq<Snapshot>
    requires Valid(s) && s.repeat == RepeatOff
    decreases |s.queue|, |s.order| - s.pos
  {
    var (t, r) := Next(s, rng);
    if r.None? then []
    else
      NextValid(s, rng);
      [t] + Playthrough(t, rng)
  }

  /** If PeekNext shows nothing, Next has nothing to play, except at a shuffle wrap with something playable. */
  lemma PeekNextNone(s: Snapshot, rng: Draws)
    requires Valid(s) && PeekNext(s).None?
    ensures Next(s, rng).1.Some? <==>
            AtShuffleWrap(s) && exists k :: 0 <= k < |s.order| && Playable(s.tracks, s.order[k])
  {
    hide IsPermutation, Identity, Next, Playable;
    HasNextIsNext(s, rng);
    CursorInRange(s);
  }

  lemma {:induction false} SkipUnplayable(tracks: seq<Track>, refs: seq<int>, k: int)
    requires 0 <= k <= |refs| && forall j :: 0 <= j < k ==> !Playable(tracks, refs[j])
    ensures PlayableRefs(tracks, refs) == PlayableRefs(tracks, refs[k..])
    decreases k
  {
    if k > 0 {
      SkipUnplayable(tracks, refs[1..], k - 1);
      assert refs[1..][k - 1..] == refs[k..];
    } else {
      assert refs[0..] == refs;
    }
  }

  ghost function Played(run: seq<Snapshot>): (r: seq<int>)
    ensures |r| == |run|
  {
    seq(|run|, k requires 0 <= k < |run| => CurrentIndex(run[k]))
  }

  /** Next with repeat off: no shuffle, no wrap. */
  function PlainStep(s: Snapshot): Option<Snapshot>
    requires 0 <= s.pos
  {
    match FirstQueued(s.tracks, s.queue, 0)
    case Some(i) => Some(s.(queue := s.queue[i + 1..], queuedIdx := s.queue[i]))
    case None =>
      match FirstSlot(s.tracks, s.order, s.pos + 1, |s.order|)
      case None => None
      case Some(k) => Some(s.(queue := [], pos := k, queuedIdx := -1))
  }

  /** The run takes one plain step at a time. */
  lemma PlaythroughUnfolds(s: Snapshot, rng: Draws)
    requires Valid(s) && s.repeat == RepeatOff
    ensures match PlainStep(s)
            case None => Playthrough(s, rng) == []
            case Some(t) => Valid(t) && Playthrough(s, rng) == [t] + Playthrough(t, rng)
  {
    hide FirstSlot, FirstQueued, Playable, Next, PlainStep, IsPermutation, InBounds, Identity;
    NextValid(s, rng);
    NextIsPlain(s, rng);
  }

  lemma NextIsPlain(s: Snapshot, rng: Draws)
    requires Valid(s) && s.repeat == RepeatOff
    ensures match PlainStep(s)
            case None => Next(s, rng).1.None?
            case Some(t) => Next(s, rng).1.Some? && Next(s, rng).0 == t
  {
    hide FirstSlot, Playable, Advance, Identity;
    if s.tracks != [] && FirstQueued(s.tracks, s.queue, 0).None? {
      NextInOrder(s, rng);
    }
  }

  /** While the queue has a playable entry, a step takes the first of them and leaves the cursor alone. */
  lemma QueueStep(s: Snapshot, t: Snapshot)
    requires 0 <= s.pos < |s.order| && FirstQueued(s.tracks, s.queue, 0).Some? && PlainStep(s) == Some(t)
    ensures t.pos == s.pos && t.order == s.order && t.tracks == s.tracks
    ensures PlayableRefs(s.tracks, s.queue) == [CurrentIndex(t)] + PlayableRefs(t.tracks, t.queue)
    ensures Upcoming(t) == Upcoming(s)
  {
    hide FirstSlot, FirstQueued, Upcoming;
    var i := FirstQueued(s.tracks, s.queue, 0).value;
    SkipUnplayable(s.tracks, s.queue, i);
    assert s.queue[i..][0] == s.queue[i] && s.queue[i..][1..] == t.queue;
    SameUpcoming(s, t);
  }

  lemma SameUpcoming(s: Snapshot, t: Snapshot)
    requires 0 <= s.pos == t.pos && s.order == t.order && s.tracks == t.tracks
    ensures Upcoming(t) == Upcoming(s)
  {
  }

  /** Once the queue holds nothing playable, a step takes the first upcoming track, if there is one. */
  lemma OrderStep(s: Snapshot)
    requires 0 <= s.pos && FirstQueued(s.tracks, s.queue, 0).None?
    ensures PlayableRefs(s.tracks, s.queue) == []
    ensures match PlainStep(s)
            case None => Upcoming(s) == []
            case Some(t) =>
              && t.queue == PlayableRefs(t.tracks, t.queue) == [] && t.queuedIdx == -1
              && t.order == s.order && t.tracks == s.tracks
              && 0 <= t.pos && Upcoming(s) == [CurrentIndex(t)] + Upcoming(t)
  {
    SkipUnplayable(s.tracks, s.queue, |s.queue|);
    match FirstSlot(s.tracks, s.order, s.pos + 1, |s.order|)
    case None => SkipUnplayable(s.tracks, Ahead(s), |Ahead(s)|);
    case Some(k) => UpcomingSplits(s, PlainStep(s).value);
  }

  lemma UpcomingSplits(s: Snapshot, t: Snapshot)
    requires 0 <= s.pos && FirstSlot(s.tracks, s.order, s.pos + 1, |s.order|) == Some(t.pos)
    requires t.order == s.order && t.tracks == s.tracks && t.queuedIdx == -1
    ensures Upcoming(s) == [CurrentIndex(t)] + Upcoming(t)
  {
    var k := t.pos - s.pos - 1;
    SkipUnplayable(s.tracks, Ahead(s), k);
    assert Ahead(s)[k..] == [s.order[t.pos]] + Ahead(t);
  }

  /**
   With repeat off, calling Next until it fails plays the playable queue entries in queue order, then exactly
   what Upcoming listed beforehand.
   */
  lemma {:induction false} PlaythroughPlaysQueueThenUpcoming(s: Snapshot, rng: Draws)
    requires Valid(s) && s.repeat == RepeatOff
    ensures Played(Playthrough(s, rng)) == PlayableRefs(s.tracks, s.queue) + Upcoming(s)
    decreases |s.queue|, |s.order| - s.pos
  {
    hide Playthrough, Next, PlayableRefs, FirstSlot, FirstQueued, IsPermutation, InBounds, Identity, Upcoming, Played;
    PlaythroughUnfolds(s, rng);
    if FirstQueued(s.tracks, s.queue, 0).Some? {
      var t := PlainStep(s).value;
      CursorInRange(s);
      QueueStep(s, t);
      PlaythroughPlaysQueueThenUpcoming(t, rng);
      PlayedCons(t, Playthrough(t, rng));
    } else {
      OrderStep(s);
      if PlainStep(s).Some? {
        var t := PlainStep(s).value;
        PlaythroughPlaysQueueThenUpcoming(t, rng);
        PlayedCons(t, Playthrough(t, rng));
      }
    }
  }

  lemma PlayedCons(t: Snapshot, run: seq<Snapshot>)
    ensures Played([t] + run) == [CurrentIndex(t)] + Played(run)
  {
  }

  /** The order never changes on the way, and the cursor waits while the queue plays. */
  lemma {:induction false} PlaythroughKeepsOrder(s: Snapshot, rng: Draws, k: nat)
    requires Valid(s) && s.repeat == RepeatOff && k < |Playthrough(s, rng)|
    ensures var t := Playthrough(s, rng)[k];
            && t.order == s.order && t.tracks == s.tracks
            && (k < |PlayableRefs(s.tracks, s.queue)| ==> t.pos == s.pos)
            && (k >= |PlayableRefs(s.tracks, s.queue)| ==> t.queue == [] && t.queuedIdx == -1)
    decreases k
  {
    hide Playthrough, Next, PlayableRefs, FirstSlot, IsPermutation, InBounds, Identity, Upcoming;
    PlaythroughUnfolds(s, rng);
    var t := PlainStep(s).value;
    if FirstQueued(s.tracks, s.queue, 0).Some? {
      CursorInRange(s);
      QueueStep(s, t);
    } else {
      OrderStep(s);
    }
    if k > 0 {
      PlaythroughKeepsOrder(t, rng, k - 1);
    }
  }

  // ---- Prev ----

  /** A Next that moves the cursor forward took the next playable slot. */
  lemma ForwardNext(s: Snapshot, rng: Draws)
    requires Valid(s) && s.tracks != [] && Next(s, rng).0.pos > s.pos
    ensures FirstSlot(s.tracks, s.order, s.pos + 1, |s.order|) == Some(Next(s, rng).0.pos)
    ensures Next(s, rng).0 == s.(queue := [], pos := Next(s, rng).0.pos, queuedIdx := -1)
  {
    if FirstQueued(s.tracks, s.queue, 0).None? && s.repeat != RepeatOne {
      if FirstSlot(s.tracks, s.order, s.pos + 1, |s.order|).Some? || !AtShuffleWrap(s.(queue := [])) {
        hide FirstSlot, Playable, Advance;
        NextInOrder(s, rng);
      } else {
        NextValid(s, rng);
      }
    }
  }

  /** Prev undoes a Next that moved along the order from a playable track. */
  lemma PrevUndoesNext(s: Snapshot, rng: Draws)
    requires Valid(s) && s.tracks != [] && s.queuedIdx == -1 && Playable(s.tracks, s.order[s.pos])
    requires Next(s, rng).0.pos > s.pos
    ensures Valid(Next(s, rng).0)
    ensures Prev(Next(s, rng).0) == (s.(queue := []), s.order[s.pos], true)
  {
    ForwardNext(s, rng);
    NextValid(s, rng);
    PrevFindsPrevious(s, Next(s, rng).0);
  }

  lemma PrevFindsPrevious(s: Snapshot, t: Snapshot)
    requires Valid(s) && s.tracks != [] && Playable(s.tracks, s.order[s.pos])
    requires FirstSlot(s.tracks, s.order, s.pos + 1, |s.order|) == Some(t.pos)
    requires t == s.(queue := [], pos := t.pos, queuedIdx := -1)
    ensures LastSlot(t.tracks, t.order, t.pos - 1) == Some(s.pos)
  {
    hide IsPermutation;
    forall k | s.pos < k <= t.pos - 1 ensures !Playable(t.tracks, t.order[k]) {
      assert !Playable(s.tracks, s.order[k]);
    }
    assert Playable(t.tracks, t.order[s.pos]);
  }

  // ---- Selecting a row ----

  /** SetIndex makes the track current, and nothing else about the playlist changes. */
  lemma SetIndexSelects(s: Snapshot, i: int)
    requires Valid(s) && 0 <= i < |s.tracks|
    ensures Valid(SetIndex(s, i)) && CurrentIndex(SetIndex(s, i)) == i
    ensures SetIndex(s, i).(pos := s.pos, queuedIdx := s.queuedIdx) == s
  {
    IndexOfFound(s.order, i);
  }

  /** ActivateSelected takes the first playable row from the cursor on, wrapping only with repeat-all. */
  lemma ActivateSelectedOutcome(s: Snapshot)
    requires Valid(s)
    ensures var (t, r) := ActivateSelected(s);
            match r
            case Some(idx) => && Playable(s.tracks, idx) && Valid(t) && CurrentIndex(t) == idx
                              && forall k :: s.pos <= k < |s.order| && (k < t.pos || t.pos < s.pos) ==>
                                   !Playable(s.tracks, s.order[k])
            case None => && t == s
                         && forall k :: (s.pos <= k || s.repeat == RepeatAll) && 0 <= k < |s.order| ==>
                              !Playable(s.tracks, s.order[k])
  {
    hide IsPermutation;
    if s.tracks != [] && !Playable(s.tracks, s.order[s.pos]) && s.repeat == RepeatAll
       && FirstSlot(s.tracks, s.order, s.pos + 1, |s.order|).None? {
      assert FirstSlot(s.tracks, s.order, 0, s.pos).None? ==> forall k :: 0 <= k < s.pos ==>
             !Playable(s.tracks, s.order[k]);
    }
  }

  // ---- Which track is next to which ----

  /** With repeat-one a track repeats for ever, once nothing playable is queued. */
  lemma RepeatOneStays(s: Snapshot, rng: Draws, again: Draws)
    requires Valid(s) && s.repeat == RepeatOne && Next(s, rng).1.Some? && FirstQueued(s.tracks, s.queue, 0).None?
    ensures Next(s, rng).1 == Some(s.order[s.pos]) && Valid(Next(s, rng).0)
    ensures Next(Next(s, rng).0, again) == Next(s, rng)
  {
    hide Identity, FirstSlot, Playable, Advance;
    NextValid(s, rng);
    assert FirstQueued(s.tracks, [], 0).None?;
  }

  /**
   Past the queue, Next takes the nearest playable slot ahead; it wraps only with repeat-all and nothing playable ahead.
   */
  lemma NextIsNearest(s: Snapshot, rng: Draws)
    requires Valid(s) && s.repeat != RepeatOne && FirstQueued(s.tracks, s.queue, 0).None?
    requires Next(s, rng).1.Some? && !AtShuffleWrap(s.(queue := []))
    ensures var t := Next(s, rng).0;
            && t.order == s.order && 0 <= t.pos < |s.order| && Next(s, rng).1 == Some(s.order[t.pos])
            && (t.pos > s.pos ==> forall k :: s.pos < k < t.pos ==> !Playable(s.tracks, s.order[k]))
            && (t.pos <= s.pos ==> s.repeat == RepeatAll)
            && (t.pos <= s.pos ==> forall k :: 0 <= k < t.pos || s.pos < k < |s.order| ==>
               !Playable(s.tracks, s.order[k]))
  {
    hide Identity, IsPermutation, Advance;
    NextInOrder(s, rng);
    hide Next;
  }

  /** Prev takes the nearest playable slot behind, with the same rule for wrapping; otherwise nothing changes. */
  lemma PrevIsNearest(s: Snapshot)
    requires Valid(s) && s.tracks != []
    ensures var (t, idx, moved) := Prev(s);
            if moved then
              && t.order == s.order && 0 <= t.pos < |s.order| && idx == s.order[t.pos] && Playable(s.tracks, idx)
              && t == s.(pos := t.pos, queuedIdx := -1)
              && (t.pos < s.pos ==> forall k :: t.pos < k < s.pos ==> !Playable(s.tracks, s.order[k]))
              && (t.pos >= s.pos ==> s.repeat == RepeatAll)
              && (t.pos >= s.pos ==> forall k :: 0 <= k < s.pos || t.pos < k < |s.order| ==>
                 !Playable(s.tracks, s.order[k]))
            else
              && t == s && idx == CurrentIndex(s)
              && forall k :: 0 <= k < (if s.repeat == RepeatAll then |s.order| else s.pos) ==>
                 !Playable(s.tracks, s.order[k])
  {
    hide Identity, IsPermutation;
    OrderInRange(s);
  }

  // ---- The play-next queue ----

  /** A playable track queued behind nothing playable is what plays next, and the cursor stays. */
  lemma QueuedPlaysNext(s: Snapshot, idx: int, rng: Draws)
    requires Valid(s) && Playable(s.tracks, idx) && FirstQueued(s.tracks, s.queue, 0).None?
    ensures Valid(Enqueue(s, idx))
    ensures Next(Enqueue(s, idx), rng) == (s.(queue := [], queuedIdx := idx), Some(idx))
  {
    hide Identity, IsPermutation;
    var t := Enqueue(s, idx);
    assert t.queue[|s.queue|] == idx;
    var i := FirstQueued(t.tracks, t.queue, 0).value;
    assert i == |s.queue| && t.queue[i + 1..] == [];
  }

  /** Dequeue undoes Queue for a track that was not queued before. */
  lemma DequeueUndoesQueue(s: Snapshot, idx: int)
    requires 0 <= idx < |s.tracks| && idx !in s.queue
    ensures Dequeue(Enqueue(s, idx), idx) == (s, true)
  {
    IndexOfIs(s.queue + [idx], idx, |s.queue|);
    assert Deleted(s.queue + [idx], |s.queue|) == s.queue;
  }

  /** The same MoveQueue again restores the queue. */
  lemma MoveQueueTwice(s: Snapshot, from: int, to: int)
    requires MoveQueue(s, from, to).1
    ensures MoveQueue(MoveQueue(s, from, to).0, from, to) == (s, true)
  {
    assert Swapped(Swapped(s.queue, from, to), from, to) == s.queue;
  }
}
