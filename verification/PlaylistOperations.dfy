/**
 What each operation does to the rows, the order and the queue, told index by index on the state before and after, and
 that a shuffle can draw every arrangement of the slots it mixes.
 */
module PlaylistOperations {
  import opened Shuffle
  import opened PlaylistState
  import opened PlaylistInvariant
  import opened PlaylistLaps

  // ---- The queue ----

  /** Queue puts a row at the end, and nothing else changes; an index that is no row changes nothing. */
  lemma QueueAppends(s: Snapshot, idx: int)
    ensures var t := Enqueue(s, idx);
            && t == s.(queue := t.queue)
            && if 0 <= idx < |s.tracks| then
                 && |t.queue| == |s.queue| + 1 && t.queue[|s.queue|] == idx
                 && forall k :: 0 <= k < |s.queue| ==> t.queue[k] == s.queue[k]
               else t.queue == s.queue
  {
  }

  /** t is s without the queue entry at at. */
  ghost predicate OneTakenOut(s: Snapshot, t: Snapshot, at: nat) {
    && t == s.(queue := t.queue) && at < |s.queue| && |t.queue| == |s.queue| - 1
    && (forall k :: 0 <= k < at ==> t.queue[k] == s.queue[k])
    && (forall k :: at <= k < |t.queue| ==> t.queue[k] == s.queue[k + 1])
  }

  /** at is the first entry for idx. */
  ghost predicate FirstEntry(queue: seq<int>, idx: int, at: nat) {
    at < |queue| && queue[at] == idx && forall k :: 0 <= k < at ==> queue[k] != idx
  }

  /** Dequeue finds a row exactly if it is queued, and takes out its first entry only. */
  lemma DequeueTakesFirst(s: Snapshot, idx: int)
    ensures var (t, found) := Dequeue(s, idx);
            && (found <==> idx in s.queue)
            && (!found ==> t == s)
            && (found ==> exists at :: FirstEntry(s.queue, idx, at) && OneTakenOut(s, t, at))
  {
    var (t, found) := Dequeue(s, idx);
    if found {
      var at := IndexOf(s.queue, idx);
      assert t == RemoveQueueAt(s, at);
      hide Dequeue, Deleted, RemoveQueueAt;
      RemoveQueueAtTakesOne(s, at);
      hide OneTakenOut;
      assert FirstEntry(s.queue, idx, at) && OneTakenOut(s, t, at);
    }
  }

  lemma RemoveQueueAtTakesOne(s: Snapshot, i: int)
    ensures var t := RemoveQueueAt(s, i);
            if 0 <= i < |s.queue| then OneTakenOut(s, t, i) else t == s
  {
  }

  /** MoveQueue exchanges two entries, and reports whether it did. */
  lemma MoveQueueSwaps(s: Snapshot, from: int, to: int)
    ensures var (t, moved) := MoveQueue(s, from, to);
            && (moved <==> 0 <= from < |s.queue| && 0 <= to < |s.queue| && from != to)
            && t == s.(queue := t.queue) && |t.queue| == |s.queue|
            && (!moved ==> t == s)
            && (moved ==> t.queue[to] == s.queue[from] && t.queue[from] == s.queue[to])
            && forall k :: 0 <= k < |s.queue| && k != from && k != to ==> t.queue[k] == s.queue[k]
  {
  }

  // ---- Rows ----

  /** Move exchanges two rows, and reports whether it did; modes stay. */
  lemma MoveSwapsRows(s: Snapshot, from: int, to: int)
    requires Valid(s)
    ensures var (t, moved) := Move(s, from, to);
            && (moved <==> 0 <= from < |s.tracks| && 0 <= to < |s.tracks| && from != to)
            && (!moved ==> t == s)
            && |t.tracks| == |s.tracks| && t.shuffle == s.shuffle && t.smart == s.smart && t.repeat == s.repeat
            && (moved ==> t.tracks[to] == s.tracks[from] && t.tracks[from] == s.tracks[to])
            && forall k :: 0 <= k < |s.tracks| && k != from && k != to ==> t.tracks[k] == s.tracks[k]
  {
    hide IsPermutation, Identity, InBounds, SwapIndices;
  }

  /** Remove takes one row out, the rows behind it move up; it reports whether there was such a row. Modes stay. */
  lemma RemoveTakesRow(s: Snapshot, idx: int)
    requires Valid(s)
    ensures var (t, removed) := Remove(s, idx);
            && (removed <==> 0 <= idx < |s.tracks|)
            && (!removed ==> t == s)
            && t.shuffle == s.shuffle && t.smart == s.smart && t.repeat == s.repeat
            && (removed ==> |t.tracks| == |s.tracks| - 1)
            && (removed ==> forall k :: 0 <= k < idx ==> t.tracks[k] == s.tracks[k])
            && (removed ==> forall k :: idx <= k < |t.tracks| ==> t.tracks[k] == s.tracks[k + 1])
  {
    hide IsPermutation, Identity, InBounds, DropIndex, IndexOf, CursorAfterRemoval;
  }

  lemma SetTrackSetsOne(s: Snapshot, i: int, track: Track)
    ensures var t := SetTrack(s, i, track);
            && t == s.(tracks := t.tracks) && |t.tracks| == |s.tracks|
            && forall k :: 0 <= k < |s.tracks| ==> t.tracks[k] == if k == i then track else s.tracks[k]
  {
  }

  /** A row that does not exist is not selected; a queued track that was playing ends all the same. */
  lemma SetIndexMisses(s: Snapshot, i: int)
    requires Valid(s) && !(0 <= i < |s.tracks|)
    ensures SetIndex(s, i) == s.(queuedIdx := -1)
  {
    hide Identity;
    assert IndexOf(s.order, i) < 0;
  }

  // ---- Loading ----

  /** Replace loads the tracks in place of all others, at the first slot, with an empty queue. */
  lemma ReplaceLoads(s: Snapshot, tracks: seq<Track>, rng: Draws)
    ensures var t := Replace(s, tracks, rng);
            && t.tracks == tracks && t.queue == [] && t.queuedIdx == -1 && t.pos == 0
            && t.shuffle == s.shuffle && t.smart == s.smart && t.repeat == s.repeat && |t.order| == |tracks|
            && (!s.shuffle ==> forall k :: 0 <= k < |tracks| ==> t.order[k] == k)
            && (s.shuffle && tracks != [] ==> t.order[0] == 0)
  {
    hide IsPermutation, Shuffled;
    IdentityIsPermutation(|tracks|);
  }

  /** Under shuffle, every arrangement of the tracks behind the first one can be drawn. */
  lemma ReplaceDrawsAny(s: Snapshot, tracks: seq<Track>, rest: seq<int>) returns (rng: Draws)
    requires s.shuffle && tracks != [] && multiset(rest) == multiset(seq(|tracks| - 1, i => i + 1))
    ensures Replace(s, tracks, rng).order == [0] + rest
  {
    assert Others(|tracks|, 0) == seq(|tracks| - 1, i => i + 1);
    rng := EveryArrangementIsDrawn(Others(|tracks|, 0), rest);
    hide Shuffled, Others, IsPermutation;
    IdentityIsPermutation(|tracks|);
  }

  /** Add puts the tracks behind all rows; slots up to the cursor, the queue and the modes stay. */
  lemma AddAppends(s: Snapshot, tracks: seq<Track>, rng: Draws)
    requires Valid(s)
    ensures var t := Add(s, tracks, rng);
            && t == s.(tracks := t.tracks, order := t.order) && |t.tracks| == |s.tracks| + |tracks| == |t.order|
            && (forall k :: 0 <= k < |s.tracks| ==> t.tracks[k] == s.tracks[k])
            && (forall k :: 0 <= k < |tracks| ==> t.tracks[|s.tracks| + k] == tracks[k])
            && (s.tracks != [] ==> forall k :: 0 <= k <= s.pos ==> t.order[k] == s.order[k])
            && (s.tracks == [] && s.shuffle && tracks != [] ==> t.order[0] == 0)
            && (!s.shuffle ==> forall k :: 0 <= k < |s.tracks| ==> t.order[k] == s.order[k])
            && (!s.shuffle ==> forall k :: |s.tracks| <= k < |t.order| ==> t.order[k] == k)
  {
    hide IsPermutation, Identity, InBounds, Shuffled;
    CursorInRange(s);
  }

  /** Under shuffle, every arrangement of the slots behind the cursor, old and new, can be drawn. */
  lemma AddDrawsAny(s: Snapshot, tracks: seq<Track>, rest: seq<int>) returns (rng: Draws)
    requires Valid(s) && s.tracks != [] && s.shuffle && tracks != []
    requires multiset(rest) == multiset(s.order[s.pos + 1..] + seq(|tracks|, i => |s.tracks| + i))
    ensures Add(s, tracks, rng).order == s.order[..s.pos + 1] + rest
  {
    hide IsPermutation, Identity, InBounds, Shuffled;
    CursorInRange(s);
    var t := Append(s, tracks);
    assert t.order[s.pos + 1..] == s.order[s.pos + 1..] + seq(|tracks|, i => |s.tracks| + i);
    assert t.order[..s.pos + 1] == s.order[..s.pos + 1];
    rng := EveryArrangementIsDrawn(t.order[s.pos + 1..], rest);
  }

  /** AddSmart adds the tracks marked as smart and otherwise as they are, under shuffle only. */
  lemma AddSmartMarks(s: Snapshot, tracks: seq<Track>, rng: Draws)
    requires Valid(s)
    ensures var t := AddSmart(s, tracks, rng);
            && (!s.shuffle ==> t == s)
            && (s.shuffle ==>
                  && t == s.(tracks := t.tracks, order := t.order) && |t.tracks| == |s.tracks| + |tracks|
                  && (forall k :: 0 <= k < |s.tracks| ==> t.tracks[k] == s.tracks[k])
                  && (forall k :: 0 <= k < |tracks| ==> t.tracks[|s.tracks| + k] == tracks[k].(smart := true)))
            && (s.tracks != [] ==> |t.order| > s.pos && forall k :: 0 <= k <= s.pos ==> t.order[k] == s.order[k])
  {
    hide IsPermutation, Identity, InBounds, Add;
    CursorInRange(s);
    var marked := MarkSmart(tracks);
    AddAppends(s, marked, rng);
    var t := AddSmart(s, tracks, rng);
    if s.shuffle {
      forall k | 0 <= k < |tracks| ensures t.tracks[|s.tracks| + k] == tracks[k].(smart := true) {
        assert marked[k] == tracks[k].(smart := true);
      }
    }
  }

  /** And every arrangement of the slots behind the cursor can be drawn. */
  lemma AddSmartDrawsAny(s: Snapshot, tracks: seq<Track>, rest: seq<int>) returns (rng: Draws)
    requires Valid(s) && s.tracks != [] && s.shuffle && tracks != []
    requires multiset(rest) == multiset(s.order[s.pos + 1..] + seq(|tracks|, i => |s.tracks| + i))
    ensures AddSmart(s, tracks, rng).order == s.order[..s.pos + 1] + rest
  {
    hide IsPermutation, Identity, InBounds, Add;
    CursorInRange(s);
    assert |MarkSmart(tracks)| == |tracks|;
    rng := AddDrawsAny(s, MarkSmart(tracks), rest);
  }

  // ---- Turning shuffle on and off ----

  /** On: the row at the cursor comes first. Off: the rows are in list order, with the cursor on the same row. */
  lemma ToggleShuffleOrders(s: Snapshot, rng: Draws)
    requires Valid(s)
    ensures var t := ToggleShuffle(s, rng);
            && t == s.(order := t.order, pos := t.pos, shuffle := !s.shuffle) && |t.order| == |s.tracks|
            && (s.tracks != [] && !s.shuffle ==> t.pos == 0 && t.order[0] == s.order[s.pos])
            && (s.tracks != [] && s.shuffle ==> t.pos == s.order[s.pos])
            && (s.shuffle ==> forall k :: 0 <= k < |s.tracks| ==> t.order[k] == k)
  {
    hide IsPermutation, InBounds, Shuffled;
    CursorInRange(s);
  }

  /** Every arrangement of the other rows can be drawn. */
  lemma ToggleShuffleDrawsAny(s: Snapshot, rest: seq<int>) returns (rng: Draws)
    requires Valid(s) && s.tracks != [] && !s.shuffle && multiset([s.order[s.pos]] + rest) == multiset(s.order)
    ensures ToggleShuffle(s, rng).order == [s.order[s.pos]] + rest
  {
    CursorIsRow(s);
    OthersOfOrder(s);
    var cur, others := multiset([s.order[s.pos]]), multiset(Others(|s.tracks|, s.order[s.pos]));
    assert multiset([s.order[s.pos]] + rest) == cur + multiset(rest);
    assert multiset(rest) == cur + multiset(rest) - cur == cur + others - cur == others;
    rng := EveryArrangementIsDrawn(Others(|s.tracks|, s.order[s.pos]), rest);
    hide IsPermutation, InBounds, Shuffled, Others, Identity;
  }

  lemma CursorIsRow(s: Snapshot)
    requires Valid(s) && s.tracks != []
    ensures 0 <= s.pos < |s.order| == |s.tracks| && 0 <= s.order[s.pos] < |s.tracks|
  {
    hide IsPermutation, Identity;
    CursorInRange(s);
  }

  lemma OthersOfOrder(s: Snapshot)
    requires Valid(s) && s.tracks != []
    ensures 0 <= s.order[s.pos] < |s.tracks|
    ensures multiset([s.order[s.pos]]) + multiset(Others(|s.tracks|, s.order[s.pos])) == multiset(s.order)
  {
    hide Identity, Others;
    CursorIsRow(s);
    forall v: int
      ensures (multiset([s.order[s.pos]]) + multiset(Others(|s.tracks|, s.order[s.pos])))[v] == multiset(s.order)[v]
    {
      OthersCount(|s.tracks|, s.order[s.pos]);
      OrderCount(s, v);
    }
  }
}
