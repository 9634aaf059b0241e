/** With repeat-all, one lap of Next calls plays every playable track exactly once. */
module PlaylistLaps {
  import opened Common
  import opened Shuffle
  import opened PlaylistState
  import opened PlaylistInvariant
  import opened PlaylistNavigation

  /** The tracks that a run of Next calls plays, one for each draw, up to the first call that fails. */
  function Plays(s: Snapshot, draws: seq<Draws>): seq<int>
    requires Valid(s)
    decreases |draws|
  {
    if draws == [] then []
    else
      var (t, r) := Next(s, draws[0]);
      match r
      case None => []
      case Some(idx) =>
        NextValid(s, draws[0]);
        [idx] + Plays(t, draws[1..])
  }

  /** t is s further on: same tracks and order, nothing queued. */
  ghost predicate Onward(s: Snapshot, t: Snapshot) {
    && Valid(t) && t.queue == [] && t.order == s.order && t.tracks == s.tracks
    && t.shuffle == s.shuffle && t.repeat == s.repeat && t.queuedIdx == -1
  }

  lemma PlaysOne(s: Snapshot, draws: seq<Draws>, t: Snapshot, idx: int)
    requires Valid(s) && draws != [] && Valid(t) && Next(s, draws[0]) == (t, Some(idx))
    ensures Plays(s, draws) == [idx] + Plays(t, draws[1..])
  {
    hide Valid, Next;
  }

  lemma TakeMore(xs: seq<int>, ys: seq<int>, n: nat)
    requires 0 < n <= |xs + ys| && xs != []
    ensures (xs + ys)[..n] == [xs[0]] + (xs[1..] + ys)[..n - 1]
    ensures xs + [] == xs && xs[1..] + [] == xs[1..]
  {
  }

  lemma TakeAround(ys: seq<int>, n: nat)
    requires 0 < n <= |ys|
    ensures ([] + ys)[..n] == [ys[0]] + (ys[1..] + ys)[..n - 1]
  {
  }

  lemma SlotStarts(s: Snapshot, from: int, k: int)
    requires 0 <= from && FirstSlot(s.tracks, s.order, from, |s.order|) == Some(k)
    ensures PlayableRefs(s.tracks, s.order[from..]) == [s.order[k]] + PlayableRefs(s.tracks, s.order[k + 1..])
  {
    hide FirstSlot, PlayableRefs;
    assert Playable(s.tracks, s.order[k]) && forall j :: from <= j < k ==> !Playable(s.tracks, s.order[j]);
    hide Playable;
    SkipUnplayable(s.tracks, s.order[from..], k - from);
    Suffixes(s.order, from, k);
    StartsPlayable(s.tracks, s.order[k..]);
  }

  lemma Suffixes(order: seq<int>, from: int, k: int)
    requires 0 <= from <= k < |order|
    ensures order[from..][k - from..] == order[k..] && order[k..][0] == order[k] && order[k..][1..] == order[k + 1..]
  {
  }

  lemma StartsPlayable(tracks: seq<Track>, refs: seq<int>)
    requires refs != [] && Playable(tracks, refs[0])
    ensures PlayableRefs(tracks, refs) == [refs[0]] + PlayableRefs(tracks, refs[1..])
  {
  }

  lemma NothingStarts(s: Snapshot, from: int)
    requires 0 <= from <= |s.order| && FirstSlot(s.tracks, s.order, from, |s.order|).None?
    ensures PlayableRefs(s.tracks, s.order[from..]) == []
  {
    hide FirstSlot;
    SkipUnplayable(s.tracks, s.order[from..], |s.order| - from);
  }

  lemma EmptyHasNone(tracks: seq<Track>, refs: seq<int>)
    ensures PlayableRefs(tracks, refs) != [] ==> refs != []
  {
  }

  lemma FirstUpcoming(s: Snapshot)
    requires 0 <= s.pos && Upcoming(s) != []
    ensures var first := FirstSlot(s.tracks, s.order, s.pos + 1, |s.order|);
            first.Some? && Upcoming(s) == [s.order[first.value]] + PlayableRefs(s.tracks, s.order[first.value + 1..])
  {
    hide FirstSlot, Playable, PlayableRefs;
    EmptyHasNone(s.tracks, Ahead(s));
    match FirstSlot(s.tracks, s.order, s.pos + 1, |s.order|)
    case None => NothingStarts(s, s.pos + 1);
    case Some(k) => SlotStarts(s, s.pos + 1, k);
  }

  lemma UpcomingFrom(t: Snapshot)
    requires 0 <= t.pos < |t.order|
    ensures Upcoming(t) == PlayableRefs(t.tracks, t.order[t.pos + 1..])
  {
  }

  /** Next with something upcoming plays the first of it. */
  lemma ForwardStep(s: Snapshot, rng: Draws)
    requires Valid(s) && s.queue == [] && s.repeat != RepeatOne && Upcoming(s) != []
    ensures var (t, r) := Next(s, rng);
            Onward(s, t) && r == Some(Upcoming(s)[0]) && Upcoming(t) == Upcoming(s)[1..]
  {
    hide IsPermutation, Identity, FirstSlot, FirstQueued, Playable, Next, PlayableRefs, Upcoming;
    CursorInRange(s);
    NextValid(s, rng);
    FirstUpcoming(s);
    NothingQueued(s);
    NextInOrder(s, rng);
    UpcomingFrom(Next(s, rng).0);
  }

  lemma NothingQueued(s: Snapshot)
    requires s.queue == []
    ensures FirstQueued(s.tracks, s.queue, 0) == None && s.(queue := []) == s
  {
  }

  /** While something is upcoming, Next calls play it in order. */
  lemma {:induction false} ForwardPlays(s: Snapshot, draws: seq<Draws>)
    requires Valid(s) && s.queue == [] && s.repeat != RepeatOne && |draws| <= |Upcoming(s)|
    ensures Plays(s, draws) == Upcoming(s)[..|draws|]
    decreases |draws|
  {
    if draws != [] {
      hide Valid, Next, Upcoming, Plays;
      var (t, r) := Next(s, draws[0]);
      ForwardStep(s, draws[0]);
      ForwardPlays(t, draws[1..]);
      PlaysOne(s, draws, t, Upcoming(s)[0]);
      TakeMore(Upcoming(s), [], |draws|);
    }
  }

  // ---- Without a reshuffle ----

  /** Next with nothing upcoming starts over at the first playable slot. */
  lemma WrapStep(s: Snapshot, rng: Draws)
    requires Valid(s) && s.queue == [] && s.repeat == RepeatAll && !s.shuffle && Upcoming(s) == []
    requires PlayableRefs(s.tracks, s.order) != []
    ensures var (t, r) := Next(s, rng);
            var all := PlayableRefs(s.tracks, s.order);
            Onward(s, t) && r == Some(all[0]) && Upcoming(t) == all[1..]
  {
    hide IsPermutation, Identity, FirstSlot, FirstQueued, Playable, Next, PlayableRefs, Upcoming;
    CursorInRange(s);
    NextValid(s, rng);
    EmptyHasNone(s.tracks, s.order);
    StartsOver(s);
    NothingQueued(s);
    NextInOrder(s, rng);
    UpcomingFrom(Next(s, rng).0);
  }

  lemma StartsOver(s: Snapshot)
    requires 0 <= s.pos < |s.order| && Upcoming(s) == [] && PlayableRefs(s.tracks, s.order) != []
    ensures FirstSlot(s.tracks, s.order, s.pos + 1, |s.order|).None?
    ensures var first := FirstSlot(s.tracks, s.order, 0, |s.order|);
            first.Some? && PlayableRefs(s.tracks, s.order)
                           == [s.order[first.value]] + PlayableRefs(s.tracks, s.order[first.value + 1..])
  {
    hide FirstSlot, Playable, PlayableRefs;
    assert s.order[0..] == s.order;
    match FirstSlot(s.tracks, s.order, s.pos + 1, |s.order|)
    case Some(k) => SlotStarts(s, s.pos + 1, k);
    case None =>
      match FirstSlot(s.tracks, s.order, 0, |s.order|)
      case None => NothingStarts(s, 0);
      case Some(k) => SlotStarts(s, 0, k);
  }

  /** Without shuffle, Next calls play what is upcoming and then the list from its start. */
  lemma {:induction false} PlaysAround(s: Snapshot, draws: seq<Draws>)
    requires Valid(s) && s.queue == [] && s.repeat == RepeatAll && !s.shuffle
    requires |draws| <= |Upcoming(s)| + |PlayableRefs(s.tracks, s.order)|
    ensures Plays(s, draws) == (Upcoming(s) + PlayableRefs(s.tracks, s.order))[..|draws|]
    decreases |draws|
  {
    if draws != [] {
      hide Valid, Next, Upcoming, Plays, PlayableRefs;
      StepAround(s, draws[0], |draws|);
      var (t, r) := Next(s, draws[0]);
      PlaysOne(s, draws, t, r.value);
      PlaysAround(t, draws[1..]);
    }
  }

  lemma StepAround(s: Snapshot, rng: Draws, n: nat)
    requires Valid(s) && s.queue == [] && s.repeat == RepeatAll && !s.shuffle
    requires 0 < n <= |Upcoming(s)| + |PlayableRefs(s.tracks, s.order)|
    ensures var (t, r) := Next(s, rng);
            var all := PlayableRefs(s.tracks, s.order);
            Onward(s, t) && r.Some? && n - 1 <= |Upcoming(t)| + |all|
            && (Upcoming(s) + all)[..n] == [r.value] + (Upcoming(t) + all)[..n - 1]
  {
    hide IsPermutation, InBounds, Identity, Next, Upcoming, PlayableRefs;
    if Upcoming(s) != [] {
      ForwardStep(s, rng);
      TakeMore(Upcoming(s), PlayableRefs(s.tracks, s.order), n);
    } else {
      WrapStep(s, rng);
      TakeAround(PlayableRefs(s.tracks, s.order), n);
    }
  }

  lemma {:induction false} PlayableConcat(tracks: seq<Track>, a: seq<int>, b: seq<int>)
    ensures PlayableRefs(tracks, a + b) == PlayableRefs(tracks, a) + PlayableRefs(tracks, b)
  {
    hide Playable;
    if a == [] {
      assert a + b == b;
      assert [] + PlayableRefs(tracks, b) == PlayableRefs(tracks, b);
    } else {
      assert (a + b)[1..] == a[1..] + b && (a + b)[0] == a[0];
      PlayableConcat(tracks, a[1..], b);
      var first := if Playable(tracks, a[0]) then [a[0]] else [];
      var x, y := PlayableRefs(tracks, a[1..]), PlayableRefs(tracks, b);
      assert PlayableRefs(tracks, a) == first + x && PlayableRefs(tracks, a + b) == first + (x + y);
      Regroup(first, x, y);
    }
  }

  lemma {:induction false} PlayableCount(tracks: seq<Track>, refs: seq<int>, v: int)
    ensures multiset(PlayableRefs(tracks, refs))[v] == if Playable(tracks, v) then multiset(refs)[v] else 0
  {
    hide Playable;
    if refs != [] {
      PlayableCount(tracks, refs[1..], v);
      assert refs == [refs[0]] + refs[1..];
    }
  }

  /**
   A lap without shuffle, from any slot: as many Next calls as there are playable tracks play each of them exactly
   once, in list order starting behind the cursor.
   */
  lemma LapInOrder(s: Snapshot, draws: seq<Draws>)
    requires Valid(s) && s.queue == [] && s.repeat == RepeatAll && !s.shuffle && s.tracks != []
    requires |draws| == |PlayableRefs(s.tracks, s.order)|
    ensures Plays(s, draws) == Upcoming(s) + PlayableRefs(s.tracks, s.order[..s.pos + 1])
    ensures forall v :: multiset(Plays(s, draws))[v] == if Playable(s.tracks, v) then 1 else 0
  {
    hide IsPermutation, Identity, PlayableRefs, Plays, Playable, Upcoming;
    CursorInRange(s);
    var before, after := s.order[..s.pos + 1], s.order[s.pos + 1..];
    assert s.order == before + after;
    PlayableConcat(s.tracks, before, after);
    PlaysAround(s, draws);
    UpcomingFrom(s);
    forall v ensures multiset(PlayableRefs(s.tracks, s.order))[v] == if Playable(s.tracks, v) then 1 else 0 {
      PlayableCount(s.tracks, s.order, v);
      OrderCount(s, v);
    }
    var q, u := PlayableRefs(s.tracks, before), Upcoming(s);
    assert (u + (q + u))[..|q + u|] == u + q;
    assert multiset(u + q) == multiset(q + u);
  }

  lemma OrderCount(s: Snapshot, v: int)
    requires Valid(s)
    ensures multiset(s.order)[v] == if 0 <= v < |s.tracks| then 1 else 0
    ensures Playable(s.tracks, v) ==> 0 <= v < |s.tracks|
  {
    DistinctCount(s.order, v);
    assert v in s.order <==> v in multiset(s.order);
  }

  // ---- With a reshuffle ----

  /** Next at the wrap reshuffles and plays the first playable track behind the current one. */
  lemma ReshuffleStep(s: Snapshot, rng: Draws)
    requires Valid(s) && s.tracks != [] && AtShuffleWrap(s)
    requires PlayableRefs(s.tracks, DoShuffle(s, rng).order[1..]) != []
    ensures var (t, r) := Next(s, rng);
            var lap := PlayableRefs(s.tracks, DoShuffle(s, rng).order[1..]);
            && Valid(t) && t.queue == [] && t.repeat == RepeatAll
            && r == Some(lap[0]) && Upcoming(t) == lap[1..]
  {
    hide IsPermutation, Identity, FirstSlot, Playable, PlayableRefs, DoShuffle, Next;
    CursorInRange(s);
    NextValid(s, rng);
    var u := DoShuffle(s, rng);
    ShuffleKeepsRest(s, rng);
    match FirstSlot(u.tracks, u.order, 1, |u.order|)
    case None => NothingStarts(u, 1);
    case Some(k) =>
      SlotStarts(u, 1, k);
      ReshuffledNext(s, rng, k);
      UpcomingFrom(Next(s, rng).0);
  }

  lemma ReshuffledNext(s: Snapshot, rng: Draws, k: int)
    requires Valid(s) && s.tracks != [] && AtShuffleWrap(s)
    requires FirstSlot(s.tracks, DoShuffle(s, rng).order, 1, |s.tracks|) == Some(k)
    ensures var u := DoShuffle(s, rng);
            && |u.order| == |s.tracks| && 1 <= k < |u.order|
            && Next(s, rng) == (u.(pos := k, queuedIdx := -1), Some(u.order[k]))
  {
    hide IsPermutation, Identity, FirstSlot, Playable, DoShuffle;
    CursorInRange(s);
    WrapStart(s, rng);
    ShuffleKeepsRest(s, rng);
    NothingBehindEnd(s);
    assert s.(queue := []) == s;
  }

  lemma NothingBehindEnd(s: Snapshot)
    requires 0 <= s.pos && s.pos + 1 >= |s.order|
    ensures FirstSlot(s.tracks, s.order, s.pos + 1, |s.order|) == None
  {
  }

  lemma ShuffleKeepsRest(s: Snapshot, rng: Draws)
    requires Valid(s) && s.tracks != []
    ensures var u := DoShuffle(s, rng);
            u == s.(order := u.order, pos := 0) && |u.order| == |s.tracks| >= 1
            && u.order[1..] == Shuffled(Others(|s.tracks|, s.order[s.pos]), rng)
  {
  }

  lemma PlayableRearranged(tracks: seq<Track>, a: seq<int>, b: seq<int>)
    requires multiset(a) == multiset(b)
    ensures multiset(PlayableRefs(tracks, a)) == multiset(PlayableRefs(tracks, b))
    ensures |PlayableRefs(tracks, a)| == |PlayableRefs(tracks, b)|
  {
    hide PlayableRefs;
    var p, q := multiset(PlayableRefs(tracks, a)), multiset(PlayableRefs(tracks, b));
    forall v ensures p[v] == q[v] {
      PlayableCount(tracks, a, v);
      PlayableCount(tracks, b, v);
    }
    assert p == q;
    assert |p| == |q|;
  }

  lemma OthersCount(n: nat, cur: int)
    requires 0 <= cur < n
    ensures forall v :: multiset(Others(n, cur))[v] == if 0 <= v < n && v != cur then 1 else 0
  {
    var others := Others(n, cur);
    OthersComplete(n, cur);
    forall v ensures multiset(others)[v] == if 0 <= v < n && v != cur then 1 else 0 {
      DistinctCount(others, v);
      assert v in others <==> v in multiset(others);
      assert [cur] + others == [cur] + others;
      if 0 <= v < n && v != cur {
        assert v in [cur] + others;
      }
    }
  }

  /**
   A lap with shuffle, from the wrap: whatever the reshuffles draw, as many Next calls as there are playable tracks
   other than the one that just played play each of these exactly once.
   */
  lemma LapShuffled(s: Snapshot, draws: seq<Draws>)
    requires Valid(s) && s.tracks != [] && AtShuffleWrap(s)
    requires |draws| == |PlayableRefs(s.tracks, Others(|s.tracks|, s.order[s.pos]))|
    ensures forall v :: multiset(Plays(s, draws))[v] == if Playable(s.tracks, v) && v != s.order[s.pos] then 1 else 0
  {
    hide IsPermutation, Identity, Plays, PlayableRefs, Playable, DoShuffle, Shuffled, Next, Upcoming;
    CursorInRange(s);
    var others := Others(|s.tracks|, s.order[s.pos]);
    LapPlaysOthers(s, draws);
    OthersCount(|s.tracks|, s.order[s.pos]);
    forall v
      ensures multiset(PlayableRefs(s.tracks, others))[v] ==
              if Playable(s.tracks, v) && v != s.order[s.pos] then 1 else 0
    {
      PlayableCount(s.tracks, others, v);
      OrderCount(s, v);
    }
  }

  lemma LapPlaysOthers(s: Snapshot, draws: seq<Draws>)
    requires Valid(s) && s.tracks != [] && AtShuffleWrap(s)
    requires |draws| == |PlayableRefs(s.tracks, Others(|s.tracks|, s.order[s.pos]))|
    ensures multiset(Plays(s, draws)) == multiset(PlayableRefs(s.tracks, Others(|s.tracks|, s.order[s.pos])))
  {
    hide IsPermutation, Identity, Plays, PlayableRefs, DoShuffle, Shuffled, Next, Upcoming;
    CursorInRange(s);
    var others := Others(|s.tracks|, s.order[s.pos]);
    if draws == [] {
      NoDraws(s, draws);
    } else {
      ShuffleKeepsRest(s, draws[0]);
      ShuffledRearranges(others, draws[0]);
      PlayableRearranged(s.tracks, DoShuffle(s, draws[0]).order[1..], others);
      ReshuffleStep(s, draws[0]);
      var lap := PlayableRefs(s.tracks, DoShuffle(s, draws[0]).order[1..]);
      var (t, r) := Next(s, draws[0]);
      ForwardPlays(t, draws[1..]);
      PlaysOne(s, draws, t, lap[0]);
      assert Plays(s, draws) == lap;
    }
  }

  lemma NoDraws(s: Snapshot, draws: seq<Draws>)
    requires Valid(s) && draws == []
    ensures Plays(s, draws) == []
  {
  }
}
