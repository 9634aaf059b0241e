/** What Next plays once the track at the cursor was removed, against what it would have played. */
module PlaylistRemoval {
  import opened Common
  import opened PlaylistState
  import opened Shuffle
  import opened PlaylistInvariant
  import opened PlaylistNavigation
  import opened PlaylistEditing

  // ---- Next as a choice among references ----

  /** The first playable one of refs. */
  function FirstRef(tracks: seq<Track>, refs: seq<int>): Option<int> {
    if refs == [] then None
    else if Playable(tracks, refs[0]) then Some(refs[0])
    else FirstRef(tracks, refs[1..])
  }

  lemma {:induction false} FirstRefIn(tracks: seq<Track>, refs: seq<int>)
    ensures var r := FirstRef(tracks, refs); r.Some? ==> r.value in refs && Playable(tracks, r.value)
  {
    hide Playable;
    if refs != [] {
      FirstRefIn(tracks, refs[1..]);
      assert refs == [refs[0]] + refs[1..];
    }
  }

  lemma {:induction false} FirstRefNone(tracks: seq<Track>, refs: seq<int>)
    ensures FirstRef(tracks, refs).None? <==> forall v :: v in refs ==> !Playable(tracks, v)
  {
    hide Playable;
    if refs != [] {
      FirstRefNone(tracks, refs[1..]);
      assert refs == [refs[0]] + refs[1..];
    }
  }

  function OrElse(a: Option<int>, b: Option<int>): Option<int> {
    if a.Some? then a else b
  }

  lemma {:induction false} FirstRefAt(tracks: seq<Track>, refs: seq<int>, k: nat)
    requires k < |refs| && Playable(tracks, refs[k]) && forall j :: 0 <= j < k ==> !Playable(tracks, refs[j])
    ensures FirstRef(tracks, refs) == Some(refs[k])
  {
    hide Playable;
    if k > 0 {
      FirstRefAt(tracks, refs[1..], k - 1);
    }
  }

  lemma {:induction false} FirstRefConcat(tracks: seq<Track>, a: seq<int>, b: seq<int>)
    ensures FirstRef(tracks, a + b) == OrElse(FirstRef(tracks, a), FirstRef(tracks, b))
  {
    hide Playable;
    if a == [] {
      assert a + b == b;
    } else {
      assert (a + b)[0] == a[0] && (a + b)[1..] == a[1..] + b;
      FirstRefConcat(tracks, a[1..], b);
    }
  }

  /** A Next that would draw a new order. */
  predicate WouldReshuffle(s: Snapshot) {
    && s.repeat == RepeatAll && s.shuffle && FirstQueued(s.tracks, s.queue, 0).None? && s.pos + 1 >= |s.order|
  }

  /** The choice among what is playable in the queue, at the cursor, behind it and in the whole order. */
  function Pick(mode: RepeatMode, queued: Option<int>, current: Option<int>, behind: Option<int>, all: Option<int>)
    : Option<int>
  {
    OrElse(queued, if mode == RepeatOne then current else OrElse(behind, if mode == RepeatAll then all else None))
  }

  /** What Next plays unless it reshuffles. */
  function Choice(s: Snapshot): Option<int>
    requires Valid(s)
  {
    if s.tracks == [] then None
    else
      Pick(s.repeat, FirstRef(s.tracks, s.queue), FirstRef(s.tracks, [s.order[s.pos]]),
           FirstRef(s.tracks, s.order[s.pos + 1..]), FirstRef(s.tracks, s.order))
  }

  lemma QueueChoice(s: Snapshot)
    ensures FirstRef(s.tracks, s.queue) ==
            match FirstQueued(s.tracks, s.queue, 0) case Some(i) => Some(s.queue[i]) case None => None
  {
    hide Playable;
    match FirstQueued(s.tracks, s.queue, 0)
    case Some(i) => FirstRefAt(s.tracks, s.queue, i);
    case None => NothingPlayable(s.tracks, s.queue);
  }

  lemma NothingPlayable(tracks: seq<Track>, refs: seq<int>)
    requires forall k :: 0 <= k < |refs| ==> !Playable(tracks, refs[k])
    ensures FirstRef(tracks, refs) == None
  {
    hide Playable;
    FirstRefNone(tracks, refs);
  }

  lemma SlotChoice(s: Snapshot, from: nat)
    requires from <= |s.order|
    ensures FirstRef(s.tracks, s.order[from..]) ==
            match FirstSlot(s.tracks, s.order, from, |s.order|) case Some(k) => Some(s.order[k]) case None => None
  {
    hide Playable;
    match FirstSlot(s.tracks, s.order, from, |s.order|)
    case Some(k) =>
      assert forall j :: 0 <= j < k - from ==> s.order[from..][j] == s.order[from + j];
      FirstRefAt(s.tracks, s.order[from..], k - from);
    case None => NothingPlayable(s.tracks, s.order[from..]);
  }

  lemma NextIsChoice(s: Snapshot, rng: Draws)
    requires Valid(s) && !WouldReshuffle(s)
    ensures Next(s, rng).1 == Choice(s)
  {
    hide IsPermutation, Identity, InBounds, FirstSlot, FirstQueued, FirstRef, Playable;
    if s.tracks != [] {
      CursorInRange(s);
      QueueChoice(s);
      match FirstQueued(s.tracks, s.queue, 0)
      case Some(i) => NextFromQueue(s, rng, i);
      case None =>
        if s.repeat == RepeatOne {
          NextRepeating(s, rng);
          OneRef(s.tracks, s.order[s.pos]);
        } else {
          hide Next;
          SlotChoice(s, s.pos + 1);
          SlotChoice(s, 0);
          assert s.order[0..] == s.order;
          NextInOrder(s, rng);
        }
    }
  }

  lemma OneRef(tracks: seq<Track>, v: int)
    ensures FirstRef(tracks, [v]) == if Playable(tracks, v) then Some(v) else None
  {
    hide Playable;
    assert [v][1..] == [];
  }

  // ---- After the removal ----

  /** The index of row v once row idx is gone. */
  function Lowered(v: int, idx: int): int {
    if v > idx then v - 1 else v
  }

  function LoweredChoice(r: Option<int>, idx: int): Option<int> {
    if r.Some? then Some(Lowered(r.value, idx)) else None
  }

  lemma {:induction false} FirstRefDropped(tracks: seq<Track>, refs: seq<int>, idx: int)
    requires InBounds(refs, |tracks|) && 0 <= idx < |tracks| && FirstRef(tracks, refs) != Some(idx)
    ensures FirstRef(Deleted(tracks, idx), DropIndex(refs, idx)) == LoweredChoice(FirstRef(tracks, refs), idx)
  {
    hide DropIndex, Deleted;
    if refs == [] {
      NothingToDropAtEnd(refs, idx);
      assert refs[|refs|..] == refs;
    } else {
      RestInBounds(refs, |tracks|);
      DropCons(refs, idx);
      PlayableLowered(tracks, refs[0], idx);
      var rest := DropIndex(refs[1..], idx);
      assert ([Lowered(refs[0], idx)] + rest)[1..] == rest;
      hide Playable;
      if refs[0] == idx || !Playable(tracks, refs[0]) {
        FirstRefDropped(tracks, refs[1..], idx);
      }
    }
  }

  lemma PlayableLowered(tracks: seq<Track>, v: int, idx: int)
    requires 0 <= v < |tracks| && 0 <= idx < |tracks|
    ensures v != idx ==> Playable(Deleted(tracks, idx), Lowered(v, idx)) == Playable(tracks, v)
  {
  }

  lemma {:induction false} DropConcat(a: seq<int>, b: seq<int>, idx: int)
    ensures DropIndex(a + b, idx) == DropIndex(a, idx) + DropIndex(b, idx)
  {
    hide DropIndex;
    if a == [] {
      assert a + b == b;
      NothingToDropAtEnd(a, idx);
      assert a[|a|..] == a;
    } else {
      assert (a + b)[0] == a[0] && (a + b)[1..] == a[1..] + b;
      DropCons(a + b, idx);
      DropCons(a, idx);
      DropConcat(a[1..], b, idx);
    }
  }

  lemma {:induction false} DropLowers(refs: seq<int>, idx: int)
    requires idx !in refs
    ensures |DropIndex(refs, idx)| == |refs|
    ensures refs != [] ==>
              DropIndex(refs, idx)[0] == Lowered(refs[0], idx) && DropIndex(refs, idx)[1..] == DropIndex(refs[1..], idx)
    ensures forall k :: 0 <= k < |refs| ==> DropIndex(refs, idx)[k] == Lowered(refs[k], idx)
  {
    hide DropIndex;
    if refs == [] {
      NothingToDropAtEnd(refs, idx);
      assert refs[|refs|..] == refs;
    } else {
      DropCons(refs, idx);
      DropLowers(refs[1..], idx);
      assert refs == [refs[0]] + refs[1..];
    }
  }

  /** The order before and behind the cursor does not hold the row at the cursor. */
  lemma AroundCursor(s: Snapshot)
    requires Valid(s) && s.tracks != []
    ensures var a, idx, b := s.order[..s.pos], s.order[s.pos], s.order[s.pos + 1..];
            && s.order == a + [idx] + b && idx !in a && idx !in b && 0 <= idx < |s.tracks|
            && InBounds(a, |s.tracks|) && InBounds(b, |s.tracks|) && InBounds(b[if b == [] then 0 else 1..], |s.tracks|)
  {
  }

  /** The order once the row at the cursor is gone. */
  lemma RemovedOrder(s: Snapshot)
    requires Valid(s) && |s.tracks| > 1
    ensures var a, idx, b := s.order[..s.pos], s.order[s.pos], s.order[s.pos + 1..];
            var t := Remove(s, idx).0;
            && Valid(t) && t.tracks == Deleted(s.tracks, idx) && t.queue == DropIndex(s.queue, idx)
            && t.repeat == s.repeat && t.shuffle == s.shuffle && 0 <= t.pos < |t.order| == |s.order| - 1
            && t.order == DropIndex(a, idx) + DropIndex(b, idx)
            && t.order[t.pos] == Lowered(if b != [] then b[0] else a[|a| - 1], idx)
            && t.order[t.pos + 1..] == DropIndex(if b == [] then [] else b[1..], idx)
            && (t.pos + 1 >= |t.order| <==> s.pos + 2 >= |s.order|)
  {
    hide IsPermutation, Identity, InBounds, DropIndex, IndexOf, CursorAfterRemoval;
    var a, idx, b := s.order[..s.pos], s.order[s.pos], s.order[s.pos + 1..];
    var t := Remove(s, idx).0;
    CursorInRange(s);
    AroundCursor(s);
    RemoveValid(s, idx);
    CursorInRange(t);
    RemoveUnderCursor(s);
    DropConcat(a + [idx], b, idx);
    DropConcat(a, [idx], idx);
    DropOnly(idx);
    assert DropIndex(a, idx) + [] == DropIndex(a, idx);
    DropLowers(a, idx);
    DropLowers(b, idx);
    hide Remove, Valid;
    CursorSplit(DropIndex(a, idx), DropIndex(b, idx), t.order, t.pos);
    DropNothing(idx);
  }

  lemma DropOnly(idx: int)
    ensures DropIndex([idx], idx) == []
  {
  }

  lemma DropNothing(idx: int)
    ensures DropIndex([], idx) == []
  {
  }

  lemma CursorSplit(a: seq<int>, b: seq<int>, order: seq<int>, pos: int)
    requires order == a + b && order != [] && pos == if b != [] then |a| else |a| - 1
    ensures order[pos] == if b != [] then b[0] else a[|a| - 1]
    ensures order[pos + 1..] == if b != [] then b[1..] else []
  {
  }

  lemma RefsDropped(tracks: seq<Track>, refs: seq<int>, idx: int)
    requires InBounds(refs, |tracks|) && 0 <= idx < |tracks| && idx !in refs
    ensures FirstRef(Deleted(tracks, idx), DropIndex(refs, idx)) == LoweredChoice(FirstRef(tracks, refs), idx)
  {
    hide Deleted, DropIndex;
    FirstRefIn(tracks, refs);
    FirstRefDropped(tracks, refs, idx);
  }

  lemma OneDropped(tracks: seq<Track>, v: int, idx: int)
    requires 0 <= v < |tracks| && 0 <= idx < |tracks| && v != idx
    ensures FirstRef(Deleted(tracks, idx), [Lowered(v, idx)]) == LoweredChoice(FirstRef(tracks, [v]), idx)
  {
    hide Deleted;
    OneRef(tracks, v);
    OneRef(Deleted(tracks, idx), Lowered(v, idx));
    PlayableLowered(tracks, v, idx);
  }

  /** The track the cursor falls on when the row under it goes. */
  function Neighbour(s: Snapshot): int
    requires Valid(s) && |s.tracks| > 1
  {
    if s.pos + 1 < |s.order| then s.order[s.pos + 1] else s.order[s.pos - 1]
  }

  function Behind(s: Snapshot, n: nat): seq<int>
    requires Valid(s) && s.tracks != []
  {
    if s.pos + n < |s.order| then s.order[s.pos + n..] else []
  }

  /** The references Next looks at once the row at the cursor is gone. */
  lemma RefsAfterRemove(s: Snapshot)
    requires Valid(s) && |s.tracks| > 1
    ensures var idx, t, tracks := s.order[s.pos], Remove(s, s.order[s.pos]).0, s.tracks;
            && Valid(t) && t.tracks != [] && 0 <= t.pos < |t.order|
            && FirstRef(t.tracks, [t.order[t.pos]]) == LoweredChoice(FirstRef(tracks, [Neighbour(s)]), idx)
            && FirstRef(t.tracks, t.order[t.pos + 1..]) == LoweredChoice(FirstRef(tracks, Behind(s, 2)), idx)
            && FirstRef(t.tracks, t.order) ==
               OrElse(LoweredChoice(FirstRef(tracks, s.order[..s.pos]), idx),
                      LoweredChoice(FirstRef(tracks, Behind(s, 1)), idx))
  {
    hide IsPermutation, Identity, DropIndex, FirstRef, Remove, Deleted, InBounds;
    var a, idx, b := s.order[..s.pos], s.order[s.pos], s.order[s.pos + 1..];
    var t, tracks := Remove(s, idx).0, s.tracks;
    CursorInRange(s);
    RemovedOrder(s);
    CursorInRange(t);
    AroundCursor(s);
    NeighbourIs(s);
    assert Behind(s, 1) == b && Behind(s, 2) == if b == [] then [] else b[1..];
    RefsDropped(tracks, a, idx);
    RefsDropped(tracks, b, idx);
    RefsDropped(tracks, Behind(s, 2), idx);
    OneDropped(tracks, Neighbour(s), idx);
    FirstRefConcat(t.tracks, DropIndex(a, idx), DropIndex(b, idx));
  }

  lemma NeighbourIs(s: Snapshot)
    requires Valid(s) && |s.tracks| > 1
    ensures var a, b := s.order[..s.pos], s.order[s.pos + 1..];
            && Neighbour(s) == (if b != [] then b[0] else a[|a| - 1])
            && 0 <= Neighbour(s) < |s.tracks| && Neighbour(s) != s.order[s.pos]
  {
  }

  /** What Next chooses once the row at the cursor is gone, if that row was not queued first. */
  lemma ChoiceAfterRemove(s: Snapshot)
    requires Valid(s) && |s.tracks| > 1 && FirstRef(s.tracks, s.queue) != Some(s.order[s.pos])
    ensures var idx, t, tracks := s.order[s.pos], Remove(s, s.order[s.pos]).0, s.tracks;
            var queued, before := FirstRef(tracks, s.queue), FirstRef(tracks, s.order[..s.pos]);
            var behind, further := FirstRef(tracks, Behind(s, 1)), FirstRef(tracks, Behind(s, 2));
            && Valid(t)
            && Choice(t) ==
               Pick(s.repeat, LoweredChoice(queued, idx), LoweredChoice(FirstRef(tracks, [Neighbour(s)]), idx),
                    LoweredChoice(further, idx), OrElse(LoweredChoice(before, idx), LoweredChoice(behind, idx)))
  {
    hide IsPermutation, Identity, DropIndex, FirstRef, Remove, Deleted, InBounds, OrElse, LoweredChoice, Pick, Playable;
    CursorInRange(s);
    RefsAfterRemove(s);
    RemovedOrder(s);
    FirstRefDropped(s.tracks, s.queue, s.order[s.pos]);
  }

  /** What Next chooses before, in the same terms. */
  lemma ChoiceBefore(s: Snapshot)
    requires Valid(s) && s.tracks != []
    ensures var idx, tracks := s.order[s.pos], s.tracks;
            var queued, before := FirstRef(tracks, s.queue), FirstRef(tracks, s.order[..s.pos]);
            var behind := FirstRef(tracks, Behind(s, 1));
            Choice(s) == Pick(s.repeat, queued, FirstRef(tracks, [idx]), behind,
                              OrElse(OrElse(before, FirstRef(tracks, [idx])), behind))
  {
    hide IsPermutation, Identity, FirstRef, InBounds, OrElse, Pick, Playable;
    CursorInRange(s);
    AroundCursor(s);
    var a, idx, b := s.order[..s.pos], s.order[s.pos], s.order[s.pos + 1..];
    assert Behind(s, 1) == b;
    FirstRefConcat(s.tracks, a + [idx], b);
    FirstRefConcat(s.tracks, a, [idx]);
  }

  // ---- When playback advances naturally ----

  /** Next after the removal plays what Next would have played, which is not the removed row itself. */
  ghost predicate Advances(s: Snapshot, rng: Draws)
    requires Valid(s) && s.tracks != []
  {
    var idx := s.order[s.pos];
    RemoveValid(s, idx);
    Next(s, rng).1 != Some(idx) && Next(Remove(s, idx).0, rng).1 == LoweredChoice(Next(s, rng).1, idx)
  }

  ghost predicate OnlyPlayable(tracks: seq<Track>, rows: set<int>) {
    forall v :: 0 <= v < |tracks| && Playable(tracks, v) ==> v in rows
  }

  /** The exact condition: what a caller sees of the queue, the repeat mode and the playable rows. */
  ghost predicate AdvancesNaturally(s: Snapshot)
    requires Valid(s) && s.tracks != []
  {
    var tracks, idx := s.tracks, s.order[s.pos];
    var next := s.pos + 1 < |s.order| && Playable(tracks, s.order[s.pos + 1]);
    match FirstQueued(tracks, s.queue, 0)
    case Some(i) => s.queue[i] != idx
    case None =>
      match s.repeat
      case RepeatOff => !next
      case RepeatOne => !Playable(tracks, idx) && (|tracks| == 1 || !Playable(tracks, Neighbour(s)))
      case RepeatAll =>
        if next then OnlyPlayable(tracks, {idx, s.order[s.pos + 1]})
        else Playable(tracks, idx) ==> !OnlyPlayable(tracks, {idx})
  }

  lemma RowSomewhere(s: Snapshot, v: int)
    requires Valid(s) && s.tracks != [] && 0 <= v < |s.tracks|
    ensures v == s.order[s.pos] || v in s.order[..s.pos] || v in Behind(s, 1)
  {
    assert v in s.order;
    var k :| 0 <= k < |s.order| && s.order[k] == v;
    hide IsPermutation;
    if k < s.pos {
      assert v == s.order[..s.pos][k];
    } else if k > s.pos {
      assert v == s.order[s.pos + 1..][k - s.pos - 1];
    }
  }

  lemma BehindParts(s: Snapshot)
    requires Valid(s) && s.tracks != []
    ensures if s.pos + 1 < |s.order| then Behind(s, 1) == [s.order[s.pos + 1]] + Behind(s, 2)
            else Behind(s, 1) == Behind(s, 2) == []
  {
    hide IsPermutation, Identity, InBounds;
    CursorInRange(s);
  }

  /** The rows at the cursor and behind it stand nowhere else. */
  lemma RowsApart(s: Snapshot)
    requires Valid(s) && s.tracks != []
    ensures var before, behind, further := s.order[..s.pos], Behind(s, 1), Behind(s, 2);
            && s.order[s.pos] !in before && s.order[s.pos] !in behind && s.order[s.pos] !in further
            && (s.pos + 1 < |s.order| ==> s.order[s.pos + 1] !in before && s.order[s.pos + 1] !in further)
            && (forall v :: v in before || v in behind || v in further ==> 0 <= v < |s.tracks|)
  {
  }

  /** The playable rows in terms of the parts of the order. */
  lemma OnlyPlayableIs(s: Snapshot)
    requires Valid(s) && s.tracks != []
    ensures var tracks, idx := s.tracks, s.order[s.pos];
            var before, behind, further :=
              FirstRef(tracks, s.order[..s.pos]), FirstRef(tracks, Behind(s, 1)), FirstRef(tracks, Behind(s, 2));
            && (OnlyPlayable(tracks, {idx}) <==> before.None? && behind.None?)
            && (s.pos + 1 < |s.order| ==>
                  (OnlyPlayable(tracks, {idx, s.order[s.pos + 1]}) <==> before.None? && further.None?))
  {
    hide IsPermutation, Identity, Playable, FirstRef, Behind, InBounds;
    forall v | 0 <= v < |s.tracks|
      ensures v == s.order[s.pos] || v in s.order[..s.pos] || v in Behind(s, 1)
    {
      RowSomewhere(s, v);
    }
    CursorInRange(s);
    RowsApart(s);
    BehindParts(s);
    FirstRefNone(s.tracks, s.order[..s.pos]);
    FirstRefNone(s.tracks, Behind(s, 1));
    FirstRefNone(s.tracks, Behind(s, 2));
  }

  lemma BehindStarts(s: Snapshot)
    requires Valid(s) && s.tracks != []
    ensures var next := s.pos + 1 < |s.order| && Playable(s.tracks, s.order[s.pos + 1]);
            FirstRef(s.tracks, Behind(s, 1))
            == if next then Some(s.order[s.pos + 1]) else FirstRef(s.tracks, Behind(s, 2))
  {
    hide IsPermutation, Identity, Playable, InBounds;
    CursorInRange(s);
    BehindParts(s);
    assert Behind(s, 1) != [] ==> Behind(s, 1)[1..] == Behind(s, 2);
  }

  /** Before the removed row's queue entry: whichever is queued first stays first. */
  lemma AdvancesOn(a: Option<int>, b: Option<int>, idx: int)
    requires a != Some(idx) && b != Some(idx)
    ensures LoweredChoice(a, idx) == LoweredChoice(b, idx) <==> a == b
  {
  }

  /** The comparison of the two choices, with nothing left of the playlist but what is playable where. */
  lemma ChoicesCompared(mode: RepeatMode, idx: int, next: bool, row: int, current: bool, neighbour: Option<int>,
                        before: Option<int>, behind: Option<int>, further: Option<int>)
    requires before != Some(idx) && behind != Some(idx) && further != Some(idx) && neighbour != Some(idx)
    requires behind == if next then Some(row) else further
    requires before != Some(row) && further != Some(row)
    ensures var cur := if current then Some(idx) else None;
            var was := Pick(mode, None, cur, behind, OrElse(OrElse(before, cur), behind));
            var now := Pick(mode, None, LoweredChoice(neighbour, idx), LoweredChoice(further, idx),
                            OrElse(LoweredChoice(before, idx), LoweredChoice(behind, idx)));
            was != Some(idx) && now == LoweredChoice(was, idx) <==>
              match mode
              case RepeatOff => !next
              case RepeatOne => !current && neighbour.None?
              case RepeatAll =>
                if next then before.None? && further.None? else current ==> before.Some? || behind.Some?
  {
    var cur := if current then Some(idx) else None;
    var was := Pick(mode, None, cur, behind, OrElse(OrElse(before, cur), behind));
    var now := Pick(mode, None, neighbour, further, OrElse(before, behind));
    if was != Some(idx) {
      AdvancesOn(now, was, idx);
    }
  }

  /** A Next before or after the removal that would draw a new order. */
  predicate DrawsOrder(s: Snapshot) {
    s.repeat == RepeatAll && s.shuffle && FirstQueued(s.tracks, s.queue, 0).None? && s.pos + 2 >= |s.order|
  }

  lemma DrawsNothing(s: Snapshot)
    requires Valid(s) && |s.tracks| > 1 && !DrawsOrder(s) && FirstRef(s.tracks, s.queue) != Some(s.order[s.pos])
    ensures Valid(Remove(s, s.order[s.pos]).0)
    ensures !WouldReshuffle(s) && !WouldReshuffle(Remove(s, s.order[s.pos]).0)
  {
    hide IsPermutation, Identity, FirstRef, FirstQueued, Remove, InBounds;
    var idx := s.order[s.pos];
    var t := Remove(s, idx).0;
    CursorInRange(s);
    RemovedOrder(s);
    QueueChoice(s);
    QueueChoice(t);
    FirstRefDropped(s.tracks, s.queue, idx);
  }

  /**
   Removing the row at the cursor, and then Next: unless a new order is drawn, it plays what Next would have played
   exactly under AdvancesNaturally. A playable successor is what breaks it, and with repeat-all or a queue entry the
   removed row itself, if it was to play next.
   */
  lemma NextAfterRemoveExactly(s: Snapshot, rng: Draws)
    requires Valid(s) && s.tracks != [] && !DrawsOrder(s)
    ensures Advances(s, rng) <==> AdvancesNaturally(s)
  {
    hide IsPermutation, Identity, FirstRef, FirstQueued, Remove, InBounds, Next, Choice, Playable, OnlyPlayable;
    CursorInRange(s);
    QueueChoice(s);
    ChoiceBefore(s);
    NextIsChoice(s, rng);
    if FirstRef(s.tracks, s.queue) == Some(s.order[s.pos]) {
    } else if |s.tracks| == 1 {
      AloneAdvances(s, rng);
    } else {
      SeveralAdvance(s, rng);
    }
  }

  lemma AloneAdvances(s: Snapshot, rng: Draws)
    requires Valid(s) && |s.tracks| == 1 && !DrawsOrder(s) && FirstRef(s.tracks, s.queue) != Some(s.order[s.pos])
    ensures Advances(s, rng) <==> AdvancesNaturally(s)
  {
    hide IsPermutation, Identity, FirstRef, FirstQueued, InBounds, Playable, Choice, Next;
    CursorInRange(s);
    QueueChoice(s);
    ChoiceBefore(s);
    NextIsChoice(s, rng);
    OneRef(s.tracks, s.order[s.pos]);
    OnlyPlayableIs(s);
    RemoveValid(s, s.order[s.pos]);
    NothingLeft(Remove(s, s.order[s.pos]).0, rng);
    AloneQueue(s);
  }

  lemma NothingLeft(t: Snapshot, rng: Draws)
    requires Valid(t) && t.tracks == []
    ensures Next(t, rng).1 == None
  {
  }

  lemma AloneQueue(s: Snapshot)
    requires Valid(s) && |s.tracks| == 1 && FirstRef(s.tracks, s.queue) != Some(s.order[s.pos])
    ensures FirstRef(s.tracks, s.queue) == None && FirstRef(s.tracks, s.order[..s.pos]) == None
    ensures Behind(s, 1) == [] && FirstRef(s.tracks, Behind(s, 1)) == None
  {
    hide IsPermutation, Identity, Playable;
    CursorInRange(s);
    assert s.order[..0] == [];
    QueueOfOne(s);
    FirstRefIn(s.tracks, s.queue);
  }

  lemma QueueOfOne(s: Snapshot)
    requires Valid(s) && |s.tracks| == 1
    ensures s.order[s.pos] == 0 && forall v :: v in s.queue ==> v == 0
  {
  }

  lemma SeveralAdvance(s: Snapshot, rng: Draws)
    requires Valid(s) && |s.tracks| > 1 && !DrawsOrder(s) && FirstRef(s.tracks, s.queue) != Some(s.order[s.pos])
    ensures Advances(s, rng) <==> AdvancesNaturally(s)
  {
    hide IsPermutation, Identity, FirstQueued, Remove, InBounds, Next, Choice, Playable, OnlyPlayable, FirstRef;
    var tracks, idx := s.tracks, s.order[s.pos];
    var row := if s.pos + 1 < |s.order| then s.order[s.pos + 1] else -1;
    var before, behind, further :=
      FirstRef(tracks, s.order[..s.pos]), FirstRef(tracks, Behind(s, 1)), FirstRef(tracks, Behind(s, 2));
    CursorInRange(s);
    QueueChoice(s);
    ChoiceBefore(s);
    ChoiceAfterRemove(s);
    DrawsNothing(s);
    NextIsChoice(s, rng);
    NextIsChoice(Remove(s, idx).0, rng);
    RowsApart(s);
    FirstRefIn(tracks, s.order[..s.pos]);
    FirstRefIn(tracks, Behind(s, 1));
    FirstRefIn(tracks, Behind(s, 2));
    BehindStarts(s);
    OnlyPlayableIs(s);
    OneRef(tracks, idx);
    NeighbourIs(s);
    OneRef(tracks, Neighbour(s));
    if FirstRef(tracks, s.queue).None? {
      ChoicesCompared(s.repeat, idx, row >= 0 && Playable(tracks, row), row, Playable(tracks, idx),
                      FirstRef(tracks, [Neighbour(s)]), before, behind, further);
    }
  }

  // ---- Removing another row ----

  lemma ElsewhereOrder(s: Snapshot, idx: int)
    requires Valid(s) && 0 <= idx < |s.tracks| && idx != s.order[s.pos]
    ensures var t := Remove(s, idx).0;
            && Valid(t) && t.tracks == Deleted(s.tracks, idx) && t.tracks != [] && t.queue == DropIndex(s.queue, idx)
            && t.repeat == s.repeat && 0 <= t.pos < |t.order| && t.order == DropIndex(s.order, idx)
            && t.order[t.pos] == Lowered(s.order[s.pos], idx)
            && t.order[t.pos + 1..] == DropIndex(s.order[s.pos + 1..], idx)
  {
    hide IsPermutation, Identity, InBounds, DropIndex, IndexOf, CursorAfterRemoval;
    var a, row, b := s.order[..s.pos], s.order[s.pos], s.order[s.pos + 1..];
    var t := Remove(s, idx).0;
    CursorInRange(s);
    AroundCursor(s);
    RemoveValid(s, idx);
    CursorInRange(t);
    RemoveKeepsCursor(s, idx);
    DropConcat(a + [row], b, idx);
    DropConcat(a, [row], idx);
    DropCons([row], idx);
    assert [row][1..] == [];
    DropNothing(idx);
    assert [Lowered(row, idx)] + [] == [Lowered(row, idx)];
    OnlyPlace(t, DropIndex(a, idx), Lowered(row, idx), DropIndex(b, idx));
  }

  lemma OnlyPlace(t: Snapshot, a: seq<int>, row: int, b: seq<int>)
    requires Valid(t) && t.order == a + [row] + b && 0 <= t.pos < |t.order| && t.order[t.pos] == row
    ensures t.order[t.pos + 1..] == b
  {
    assert t.order[|a|] == row;
  }

  /** Removing a row that is not at the cursor leaves what Next plays as it was, unless it is that row. */
  lemma NextAfterRemoveElsewhere(s: Snapshot, idx: int, rng: Draws)
    requires Valid(s) && 0 <= idx < |s.tracks| && idx != s.order[s.pos]
    requires !WouldReshuffle(s) && !WouldReshuffle(Remove(s, idx).0) && Next(s, rng).1 != Some(idx)
    ensures Valid(Remove(s, idx).0) && Next(Remove(s, idx).0, rng).1 == LoweredChoice(Next(s, rng).1, idx)
  {
    hide IsPermutation, Identity, InBounds, DropIndex, Deleted, FirstRef, FirstQueued, Remove, Next, WouldReshuffle,
         Playable;
    var t := Remove(s, idx).0;
    CursorInRange(s);
    AroundCursor(s);
    ElsewhereOrder(s, idx);
    NextIsChoice(s, rng);
    NextIsChoice(t, rng);
    ElsewhereRefs(s, s.queue, idx);
    ElsewhereRefs(s, s.order, idx);
    ElsewhereRefs(s, s.order[s.pos + 1..], idx);
    OneDropped(s.tracks, s.order[s.pos], idx);
  }

  lemma ElsewhereRefs(s: Snapshot, refs: seq<int>, idx: int)
    requires InBounds(refs, |s.tracks|) && 0 <= idx < |s.tracks|
    ensures FirstRef(s.tracks, refs) != Some(idx) ==>
              FirstRef(Deleted(s.tracks, idx), DropIndex(refs, idx)) == LoweredChoice(FirstRef(s.tracks, refs), idx)
  {
    hide DropIndex, Deleted, FirstRef;
    if FirstRef(s.tracks, refs) != Some(idx) {
      FirstRefDropped(s.tracks, refs, idx);
    }
  }
}
