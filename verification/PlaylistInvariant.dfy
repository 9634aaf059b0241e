/** Every mutator keeps the representation invariant, and so does every run of mutators. */
module PlaylistInvariant {
  import opened Common
  import opened Shuffle
  import opened PlaylistState

  lemma {:induction false} DistinctCount(s: seq<int>, x: int)
    requires forall j, k :: 0 <= j < k < |s| ==> s[j] != s[k]
    ensures multiset(s)[x] <= 1
  {
    if s != [] {
      DistinctCount(s[1..], x);
      assert s == [s[0]] + s[1..];
      if s[0] == x {
        assert x !in s[1..];
      }
    }
  }

  lemma RepeatedCount(s: seq<int>, j: nat, k: nat)
    requires j < k < |s| && s[j] == s[k]
    ensures multiset(s)[s[j]] >= 2
  {
    assert s == s[..k] + ([s[k]] + s[k + 1..]);
    assert s[j] in multiset(s[..k]);
  }

  lemma RearrangedDistinct(a: seq<int>, b: seq<int>)
    requires forall j, k :: 0 <= j < k < |a| ==> a[j] != a[k]
    requires multiset(b) == multiset(a)
    ensures forall j, k :: 0 <= j < k < |b| ==> b[j] != b[k]
  {
    forall j, k | 0 <= j < k < |b| ensures b[j] != b[k] {
      DistinctCount(a, b[j]);
      if b[j] == b[k] {
        RepeatedCount(b, j, k);
      }
    }
  }

  lemma RearrangedPermutation(a: seq<int>, b: seq<int>, n: nat)
    requires IsPermutation(a, n) && multiset(b) == multiset(a)
    ensures IsPermutation(b, n)
  {
    SameLength(a, b);
    forall k | 0 <= k < n ensures 0 <= b[k] < n {
      assert b[k] in multiset(a);
    }
    RearrangedDistinct(a, b);
    forall v | 0 <= v < n ensures v in b {
      assert v in a;
      assert v in multiset(b);
    }
  }

  lemma OthersComplete(n: nat, cur: int)
    requires 0 <= cur < n
    ensures IsPermutation([cur] + Others(n, cur), n)
  {
    var p := [cur] + Others(n, cur);
    forall v | 0 <= v < n ensures v in p {
      if v == cur {
        assert p[0] == v;
      } else {
        assert p[if v < cur then v + 1 else v] == v;
      }
    }
  }

  /** A shuffle starts with the current track and orders every other track after it. */
  lemma DoShuffleValid(s: Snapshot, rng: Draws)
    requires IsPermutation(s.order, |s.tracks|) && s.tracks != [] && 0 <= s.pos < |s.order| && s.shuffle
    requires InBounds(s.queue, |s.tracks|) && -1 <= s.queuedIdx < |s.tracks|
    ensures Valid(DoShuffle(s, rng))
  {
    var n, cur := |s.tracks|, s.order[s.pos];
    OthersComplete(n, cur);
    ShuffledRearranges(Others(n, cur), rng);
    RearrangedPermutation([cur] + Others(n, cur), DoShuffle(s, rng).order, n);
  }

  lemma ShuffleTailValid(s: Snapshot, rng: Draws)
    requires Valid(s) && s.tracks != [] && s.shuffle
    ensures Valid(ShuffleTail(s, rng))
  {
    var tail := s.order[s.pos + 1..];
    ShuffledRearranges(tail, rng);
    assert s.order == s.order[..s.pos + 1] + tail;
    RearrangedPermutation(s.order, ShuffleTail(s, rng).order, |s.tracks|);
  }

  lemma ReplaceValid(s: Snapshot, tracks: seq<Track>, rng: Draws)
    requires Valid(s)
    ensures Valid(Replace(s, tracks, rng))
  {
    IdentityIsPermutation(|tracks|);
    if s.shuffle && tracks != [] {
      DoShuffleValid(s.(tracks := tracks, order := Identity(|tracks|), pos := 0, queue := [], queuedIdx := -1), rng);
    }
  }

  lemma AppendValid(s: Snapshot, tracks: seq<Track>)
    requires Valid(s)
    ensures Valid(Append(s, tracks))
  {
    var t := Append(s, tracks);
    forall v | 0 <= v < |t.tracks| ensures v in t.order {
      if v < |s.tracks| {
        assert v in s.order;
      } else {
        assert t.order[v] == v;
      }
    }
    if !s.shuffle {
      assert t.order == Identity(|t.tracks|);
    }
  }

  lemma AddValid(s: Snapshot, tracks: seq<Track>, rng: Draws)
    requires Valid(s)
    ensures Valid(Add(s, tracks, rng))
  {
    AppendValid(s, tracks);
    if tracks != [] && s.shuffle {
      var t := Append(s, tracks);
      if s.tracks == [] {
        DoShuffleValid(t, rng);
      } else {
        ShuffleTailValid(t, rng);
      }
    }
  }

  lemma NextValid(s: Snapshot, rng: Draws)
    requires Valid(s)
    ensures Valid(Next(s, rng).0)
  {
    hide Identity, FirstSlot, FirstQueued, DoShuffle;
    var c := s.(queue := []);
    if s.tracks != [] && FirstQueued(s.tracks, s.queue, 0).None? && s.repeat != RepeatOne && AtShuffleWrap(c) {
      DoShuffleValid(c, rng);
    }
  }

  /** Next by cases: from the queue, repeating one track, or along the order. */
  lemma NextFromQueue(s: Snapshot, rng: Draws, i: nat)
    requires Valid(s) && s.tracks != [] && FirstQueued(s.tracks, s.queue, 0) == Some(i)
    ensures Next(s, rng) == (s.(queue := s.queue[i + 1..], queuedIdx := s.queue[i]), Some(s.queue[i]))
  {
    hide IsPermutation, Identity, FirstQueued;
  }

  lemma NextRepeating(s: Snapshot, rng: Draws)
    requires Valid(s) && s.tracks != [] && FirstQueued(s.tracks, s.queue, 0).None? && s.repeat == RepeatOne
    ensures Next(s, rng) ==
            if Playable(s.tracks, s.order[s.pos]) then (s.(queue := [], queuedIdx := -1), Some(s.order[s.pos]))
            else (s.(queue := []), None)
  {
    hide IsPermutation, Identity, FirstQueued;
  }

  lemma NextAlongOrder(s: Snapshot, rng: Draws)
    requires Valid(s) && s.tracks != [] && FirstQueued(s.tracks, s.queue, 0).None? && s.repeat != RepeatOne
    ensures Valid(s.(queue := []))
    ensures var c := s.(queue := []);
            var (d, slot) := Advance(c, rng);
            match slot
            case None => Next(s, rng) == (c, None)
            case Some(k) => 0 <= k < |d.order| && Next(s, rng) == (d.(pos := k, queuedIdx := -1), Some(d.order[k]))
  {
    hide Identity, FirstQueued, FirstSlot;
  }

  lemma IndexOfFound(refs: seq<int>, v: int)
    requires v in refs
    ensures 0 <= IndexOf(refs, v)
  {
  }

  lemma {:induction false} IndexOfIs(refs: seq<int>, v: int, i: nat)
    requires i < |refs| && refs[i] == v && forall k :: 0 <= k < i ==> refs[k] != v
    ensures IndexOf(refs, v) == i
  {
    if i > 0 {
      IndexOfIs(refs[1..], v, i - 1);
    }
  }

  /** Going through the queue once and keeping the first position of each index builds the cached map. */
  lemma FirstPositions(queue: seq<int>, m: map<int, int>)
    requires forall k :: 0 <= k < |queue| ==> queue[k] in m
    requires forall idx :: idx in m ==>
               && 1 <= m[idx] <= |queue| && queue[m[idx] - 1] == idx
               && forall k :: 0 <= k < m[idx] - 1 ==> queue[k] != idx
    ensures m == QueuePositions(queue)
  {
    var q := QueuePositions(queue);
    forall idx | idx in m ensures idx in q && m[idx] == q[idx] {
      assert queue[m[idx] - 1] == idx;
      IndexOfIs(queue, idx, m[idx] - 1);
    }
    forall idx | idx in q ensures idx in m {
    }
  }

  /** Appending an index records a position only if the index was not queued before. */
  lemma AppendedPosition(queue: seq<int>, v: int)
    ensures QueuePositions(queue + [v]) ==
            if v in queue then QueuePositions(queue) else QueuePositions(queue)[v := |queue| + 1]
  {
    hide IndexOf;
    var longer := queue + [v];
    forall idx | idx in longer
      ensures IndexOf(longer, idx) == if idx in queue then IndexOf(queue, idx) else |queue|
    {
      IndexOfIs(longer, idx, if idx in queue then IndexOf(queue, idx) else |queue|);
    }
  }

  lemma {:induction false} SmartRefsElements(tracks: seq<Track>, refs: seq<int>)
    requires InBounds(refs, |tracks|)
    ensures forall v :: v in SmartRefs(tracks, refs) <==> v in refs && tracks[v].smart
  {
    if refs != [] {
      SmartRefsElements(tracks, refs[1..]);
      assert refs == [refs[0]] + refs[1..];
    }
  }

  lemma {:induction false} SmartRefsDistinct(tracks: seq<Track>, refs: seq<int>)
    requires InBounds(refs, |tracks|)
    requires forall i, j :: 0 <= i < j < |refs| ==> refs[i] != refs[j]
    ensures var r := SmartRefs(tracks, refs); forall i, j :: 0 <= i < j < |r| ==> r[i] != r[j]
  {
    if refs != [] {
      SmartRefsDistinct(tracks, refs[1..]);
      SmartRefsElements(tracks, refs[1..]);
      assert refs[0] !in SmartRefs(tracks, refs[1..]);
    }
  }

  lemma {:induction false} NoSmartRefs(tracks: seq<Track>, refs: seq<int>)
    requires InBounds(refs, |tracks|) && forall i :: 0 <= i < |refs| ==> !tracks[refs[i]].smart
    ensures SmartRefs(tracks, refs) == []
  {
    if refs != [] {
      NoSmartRefs(tracks, refs[1..]);
    }
  }

  /** What a filtering loop at index i does to the list it has built so far. */
  lemma PlayableStep(tracks: seq<Track>, out: seq<int>, order: seq<int>, i: nat)
    requires i < |order|
    ensures out + PlayableRefs(tracks, order[i..])
         == (if Playable(tracks, order[i]) then out + [order[i]] else out) + PlayableRefs(tracks, order[i + 1..])
  {
    var rest := order[i..];
    assert rest[0] == order[i] && rest[1..] == order[i + 1..];
    Regroup(out, if Playable(tracks, order[i]) then [order[i]] else [], PlayableRefs(tracks, order[i + 1..]));
  }

  lemma SmartStep(tracks: seq<Track>, out: seq<int>, order: seq<int>, i: nat)
    requires i < |order| && InBounds(order, |tracks|)
    ensures out + SmartRefs(tracks, order[i..])
         == (if tracks[order[i]].smart then out + [order[i]] else out) + SmartRefs(tracks, order[i + 1..])
  {
    var rest := order[i..];
    assert rest[0] == order[i] && rest[1..] == order[i + 1..];
    Regroup(out, if tracks[order[i]].smart then [order[i]] else [], SmartRefs(tracks, order[i + 1..]));
  }

  lemma SmartCountStep(tracks: seq<Track>, order: seq<int>, i: nat)
    requires i < |order| && InBounds(order, |tracks|)
    ensures |SmartRefs(tracks, order[i..])|
            == (if tracks[order[i]].smart then 1 else 0) + |SmartRefs(tracks, order[i + 1..])|
  {
    SmartStep(tracks, [], order, i);
  }

  lemma Regroup(a: seq<int>, b: seq<int>, c: seq<int>)
    ensures a + (b + c) == (a + b) + c
    ensures b == [] ==> a + (b + c) == a + c
  {
  }

  /** What a valid state with tracks says about its order. */
  lemma OrderInRange(s: Snapshot)
    requires Valid(s) && s.tracks != []
    ensures 0 <= s.pos < |s.order| == |s.tracks| && InBounds(s.order, |s.tracks|) && IsPermutation(s.order, |s.tracks|)
  {
  }

  /** What a valid state says about its indices, short of the whole permutation. */
  lemma CursorInRange(s: Snapshot)
    requires Valid(s)
    ensures |s.order| == |s.tracks| && (s.tracks != [] ==> 0 <= s.pos < |s.order|)
    ensures InBounds(s.order, |s.tracks|) && InBounds(s.queue, |s.tracks|)
  {
  }

  lemma RewoundValid(s: Snapshot)
    requires Valid(s) && s.tracks != []
    ensures Valid(s.(pos := 0))
  {
  }

  lemma OnlySlot(refs: seq<int>, idx: int, slot: int)
    requires forall j, k :: 0 <= j < k < |refs| ==> refs[j] != refs[k]
    requires -1 <= slot < |refs|
    requires if slot >= 0 then refs[slot] == idx else forall k :: 0 <= k < |refs| ==> refs[k] != idx
    ensures slot == IndexOf(refs, idx)
  {
  }

  lemma PrevValid(s: Snapshot)
    requires Valid(s) && s.tracks != []
    ensures Valid(Prev(s).0) && 0 <= Prev(s).1 < |s.tracks|
  {
  }

  lemma MoveValid(s: Snapshot, from: int, to: int)
    requires Valid(s)
    ensures Valid(Move(s, from, to).0)
  {
    if Move(s, from, to).1 {
      hide IsPermutation, Identity, SwapIndices;
      SwapPermutation(s.order, from, to, |s.tracks|);
      SwapInBounds(s.order, from, to, |s.tracks|);
      SwapInBounds(s.queue, from, to, |s.tracks|);
      IdentityIsPermutation(|s.tracks|);
      CursorInRange(s);
    }
  }

  lemma SwapInBounds(refs: seq<int>, from: int, to: int, n: nat)
    requires 0 <= from < n && 0 <= to < n
    ensures |SwapIndices(refs, from, to)| == |refs|
    ensures InBounds(refs, n) ==> InBounds(SwapIndices(refs, from, to), n)
  {
  }

  lemma SwapPermutation(order: seq<int>, from: int, to: int, n: nat)
    requires IsPermutation(order, n) && 0 <= from < n && 0 <= to < n
    ensures IsPermutation(SwapIndices(order, from, to), n) && |order| == n
  {
    var moved := SwapIndices(order, from, to);
    forall v | 0 <= v < n ensures v in moved {
      var w := SwapIndex(v, from, to);
      var k := IndexOf(order, w);
      IndexOfFound(order, w);
      assert moved[k] == v;
    }
  }

  lemma DropStep(refs: seq<int>, idx: int, i: nat)
    requires i < |refs|
    ensures DropIndex(refs[i..], idx)
         == (if refs[i] == idx then [] else [if refs[i] > idx then refs[i] - 1 else refs[i]])
             + DropIndex(refs[i + 1..], idx)
  {
    assert refs[i..][1..] == refs[i + 1..];
  }

  lemma NothingToDropAtEnd(refs: seq<int>, idx: int)
    ensures DropIndex(refs[|refs|..], idx) == [] && refs[0..] == refs
  {
  }

  /** Dropping an index keeps the rest in range; it shortens refs by the occurrences of idx. */
  lemma {:induction false} DropLength(refs: seq<int>, idx: int, n: nat)
    requires InBounds(refs, n + 1) && 0 <= idx <= n
    ensures InBounds(DropIndex(refs, idx), n)
    ensures |DropIndex(refs, idx)| == |refs| - multiset(refs)[idx]
  {
    hide DropIndex;
    if refs == [] {
      NothingToDropAtEnd(refs, idx);
    } else {
      DropLength(refs[1..], idx, n);
      DropCons(refs, idx);
      assert refs == [refs[0]] + refs[1..];
    }
  }

  /** A row is among the lowered ones if it stood among refs under its old index. */
  lemma {:induction false} DropMember(refs: seq<int>, idx: int, n: nat, v: int)
    requires InBounds(refs, n + 1) && 0 <= idx <= n && 0 <= v < n
    ensures v in DropIndex(refs, idx) <==> (if v >= idx then v + 1 else v) in refs
  {
    hide DropIndex;
    if refs == [] {
      NothingToDropAtEnd(refs, idx);
    } else {
      DropMember(refs[1..], idx, n, v);
      DropCons(refs, idx);
      assert refs == [refs[0]] + refs[1..];
    }
  }

  lemma DropCons(refs: seq<int>, idx: int)
    requires refs != []
    ensures DropIndex(refs, idx) == if refs[0] == idx then DropIndex(refs[1..], idx)
                                    else [if refs[0] > idx then refs[0] - 1 else refs[0]] + DropIndex(refs[1..], idx)
  {
  }

  lemma {:induction false} DropIndexDistinct(refs: seq<int>, idx: int, n: nat)
    requires InBounds(refs, n + 1) && 0 <= idx <= n && Apart(refs)
    ensures Apart(DropIndex(refs, idx))
  {
    hide DropIndex, Apart, InBounds;
    if refs == [] {
      NothingToDropAtEnd(refs, idx);
      assert refs[|refs|..] == refs;
      assert Apart([]) by { ApartTail(refs); }
    } else {
      ApartTail(refs);
      RestInBounds(refs, n + 1);
      DropIndexDistinct(refs[1..], idx, n);
      DropCons(refs, idx);
      if refs[0] != idx {
        var v := if refs[0] > idx then refs[0] - 1 else refs[0];
        DropMember(refs[1..], idx, n, v);
        ApartCons(v, DropIndex(refs[1..], idx));
      }
    }
  }

  ghost predicate Apart(refs: seq<int>) {
    forall j, k :: 0 <= j < k < |refs| ==> refs[j] != refs[k]
  }

  lemma ApartTail(refs: seq<int>)
    requires Apart(refs)
    ensures Apart([]) && (refs != [] ==> Apart(refs[1..]) && refs[0] !in refs[1..])
  {
  }

  lemma ApartCons(v: int, refs: seq<int>)
    requires Apart(refs) && v !in refs
    ensures Apart([v] + refs)
  {
  }

  lemma RestInBounds(refs: seq<int>, n: nat)
    requires refs != [] && InBounds(refs, n)
    ensures InBounds(refs[1..], n) && 0 <= refs[0] < n
  {
  }

  lemma {:induction false} DropFromIdentity(n: nat, idx: nat, k: nat)
    requires k <= n + 1 && idx <= n
    ensures DropIndex(Identity(n + 1)[k..], idx) == Identity(n)[if k > idx then k - 1 else k..]
    decreases n + 1 - k
  {
    var rest := Identity(n + 1)[k..];
    if k <= n {
      DropFromIdentity(n, idx, k + 1);
      assert rest[0] == k && rest[1..] == Identity(n + 1)[k + 1..];
      var j := if k > idx then k - 1 else k;
      assert k != idx ==> Identity(n)[j..] == [j] + Identity(n)[j + 1..];
    } else {
      assert rest == [] == Identity(n)[n..];
    }
  }

  lemma RemovePermutation(order: seq<int>, idx: int, n: nat)
    requires IsPermutation(order, n + 1) && 0 <= idx <= n
    ensures IsPermutation(DropIndex(order, idx), n)
  {
    DistinctCount(order, idx);
    assert multiset(order)[idx] == 1 by { assert idx in order; }
    assert InBounds(order, n + 1) && Apart(order) && forall v :: 0 <= v <= n ==> v in order;
    hide DropIndex, IsPermutation;
    DropLength(order, idx, n);
    DropIndexDistinct(order, idx, n);
    forall v | 0 <= v < n ensures v in DropIndex(order, idx) {
      DropMember(order, idx, n, v);
    }
    PermutationOf(DropIndex(order, idx), n);
  }

  lemma PermutationOf(order: seq<int>, n: nat)
    requires |order| == n && InBounds(order, n) && Apart(order) && forall v :: 0 <= v < n ==> v in order
    ensures IsPermutation(order, n)
  {
  }

  lemma RemoveValid(s: Snapshot, idx: int)
    requires Valid(s)
    ensures Valid(Remove(s, idx).0)
  {
    if Remove(s, idx).1 {
      var n, t := |s.tracks| - 1, Remove(s, idx).0;
      hide DropIndex, IndexOf, Identity, IsPermutation, InBounds, Deleted, CursorAfterRemoval;
      CursorInRange(s);
      assert IsPermutation(s.order, n + 1) && (!s.shuffle ==> s.order == Identity(n + 1));
      hide Valid;
      RemovePermutation(s.order, idx, n);
      DropLength(s.queue, idx, n);
      PermutationLength(t.order, n);
      DeletedLength(s.tracks, idx);
      DropFromAllOfIdentity(n, idx);
      CursorStays(s.pos, IndexOf(s.order, idx), n);
      QueuedStays(s, idx);
      ValidFrom(t, n);
    }
  }

  lemma QueuedStays(s: Snapshot, idx: int)
    requires Valid(s) && 0 <= idx < |s.tracks|
    ensures -1 <= Remove(s, idx).0.queuedIdx < |s.tracks| - 1 && 0 <= s.pos <= |s.tracks| - 1
  {
    hide IsPermutation, Identity, InBounds, DropIndex, IndexOf, Deleted;
    CursorInRange(s);
  }

  lemma ValidFrom(t: Snapshot, n: nat)
    requires |t.tracks| == n == |t.order| && IsPermutation(t.order, n) && InBounds(t.queue, n) && -1 <= t.queuedIdx < n
    requires 0 <= t.pos && (if n == 0 then t.pos == 0 else t.pos < n) && (!t.shuffle ==> t.order == Identity(n))
    ensures Valid(t)
  {
    hide IsPermutation, Identity, InBounds;
  }

  lemma DeletedLength<T>(refs: seq<T>, i: nat)
    requires i < |refs|
    ensures |Deleted(refs, i)| == |refs| - 1
  {
  }

  lemma CursorStays(pos: int, slot: int, n: nat)
    requires 0 <= pos <= n
    ensures var p := CursorAfterRemoval(pos, slot, n); 0 <= p && if n == 0 then p == 0 else p < n
  {
  }

  lemma PermutationLength(order: seq<int>, n: nat)
    requires IsPermutation(order, n)
    ensures |order| == n
  {
  }

  lemma DropFromAllOfIdentity(n: nat, idx: nat)
    requires idx <= n
    ensures DropIndex(Identity(n + 1), idx) == Identity(n)
  {
    DropFromIdentity(n, idx, 0);
    assert Identity(n + 1)[0..] == Identity(n + 1);
    assert Identity(n)[0..] == Identity(n);
  }

  lemma {:induction false} RemoveBelowValid(s: Snapshot, doomed: set<int>, bound: nat)
    requires Valid(s)
    ensures Valid(RemoveBelow(s, doomed, bound))
    decreases bound
  {
    if bound > 0 {
      RemoveValid(s, bound - 1);
      RemoveBelowValid(if bound - 1 in doomed then Remove(s, bound - 1).0 else s, doomed, bound - 1);
    }
  }

  lemma ToggleShuffleValid(s: Snapshot, rng: Draws)
    requires Valid(s)
    ensures Valid(ToggleShuffle(s, rng))
  {
    if s.tracks != [] && !s.shuffle {
      DoShuffleValid(s.(shuffle := true), rng);
    }
    IdentityIsPermutation(|s.tracks|);
  }

  lemma QueueOpsValid(s: Snapshot, i: int, j: int)
    requires Valid(s)
    ensures Valid(Enqueue(s, i)) && Valid(Dequeue(s, i).0) && Valid(RemoveQueueAt(s, i)) && Valid(MoveQueue(s, i, j).0)
  {
    hide IsPermutation, Identity, IndexOf, InBounds, Deleted, Swapped;
    QueueStaysInBounds(s.queue, |s.tracks|, i, j);
    if IndexOf(s.queue, i) >= 0 {
      QueueStaysInBounds(s.queue, |s.tracks|, IndexOf(s.queue, i), j);
    }
  }

  lemma QueueStaysInBounds(queue: seq<int>, n: nat, i: int, j: int)
    requires InBounds(queue, n)
    ensures 0 <= i < n ==> InBounds(queue + [i], n)
    ensures 0 <= i < |queue| ==> InBounds(Deleted(queue, i), n)
    ensures 0 <= i < |queue| && 0 <= j < |queue| ==> InBounds(Swapped(queue, i, j), n)
  {
  }

  // ---- Runs ----

  /** One call of a mutating method. */
  datatype Op =
    | OpReplace(tracks: seq<Track>, rng: Draws)
    | OpAdd(tracks: seq<Track>, rng: Draws)
    | OpAddSmart(tracks: seq<Track>, rng: Draws)
    | OpNext(rng: Draws)
    | OpPrev
    | OpActivateSelected
    | OpSetIndex(i: int)
    | OpQueue(i: int)
    | OpDequeue(i: int)
    | OpRemoveQueueAt(i: int)
    | OpMoveQueue(from: int, to: int)
    | OpClearQueue
    | OpMove(from: int, to: int)
    | OpRemove(i: int)
    | OpSetTrack(i: int, track: Track)
    | OpEnableSmart
    | OpDisableSmart
    | OpToggleShuffle(rng: Draws)
    | OpSetRepeat(mode: RepeatMode)

  ghost function Apply(s: Snapshot, op: Op): Snapshot
    requires Valid(s)
  {
    match op
    case OpReplace(tracks, rng) => Replace(s, tracks, rng)
    case OpAdd(tracks, rng) => Add(s, tracks, rng)
    case OpAddSmart(tracks, rng) => AddSmart(s, tracks, rng)
    case OpNext(rng) => Next(s, rng).0
    case OpPrev => if s.tracks == [] then s else Prev(s).0
    case OpActivateSelected => ActivateSelected(s).0
    case OpSetIndex(i) => SetIndex(s, i)
    case OpQueue(i) => Enqueue(s, i)
    case OpDequeue(i) => Dequeue(s, i).0
    case OpRemoveQueueAt(i) => RemoveQueueAt(s, i)
    case OpMoveQueue(from, to) => MoveQueue(s, from, to).0
    case OpClearQueue => s.(queue := [])
    case OpMove(from, to) => Move(s, from, to).0
    case OpRemove(i) => Remove(s, i).0
    case OpSetTrack(i, track) => SetTrack(s, i, track)
    case OpEnableSmart => s.(smart := true)
    case OpDisableSmart => DisableSmart(s)
    case OpToggleShuffle(rng) => ToggleShuffle(s, rng)
    case OpSetRepeat(mode) => s.(repeat := mode)
  }

  lemma SelectionsValid(s: Snapshot, i: int, track: Track)
    requires Valid(s)
    ensures Valid(ActivateSelected(s).0) && Valid(SetIndex(s, i)) && Valid(SetTrack(s, i, track))
  {
    hide Identity, IndexOf, FirstSlot, Playable, InBounds;
  }

  lemma FlagsValid(s: Snapshot, mode: RepeatMode)
    requires Valid(s)
    ensures Valid(s.(queue := [])) && Valid(s.(smart := true)) && Valid(s.(repeat := mode))
    ensures Valid(DisableSmart(s))
  {
    hide IsPermutation, Identity;
    RemoveBelowValid(s.(smart := false), SmartAhead(s), |s.tracks|);
  }

  lemma ApplyValid(s: Snapshot, op: Op)
    requires Valid(s)
    ensures Valid(Apply(s, op))
  {
    hide Valid, Replace, Add, Next, Prev, ActivateSelected, SetIndex, SetTrack;
    hide Enqueue, Dequeue, RemoveQueueAt, MoveQueue, Move, Remove, DisableSmart, ToggleShuffle;
    match op
    case OpReplace(tracks, rng) => ReplaceValid(s, tracks, rng);
    case OpAdd(tracks, rng) => AddValid(s, tracks, rng);
    case OpAddSmart(tracks, rng) => AddValid(s, MarkSmart(tracks), rng);
    case OpNext(rng) => NextValid(s, rng);
    case OpPrev => if s.tracks != [] { PrevValid(s); }
    case OpActivateSelected => SelectionsValid(s, 0, Track("", false, false));
    case OpSetIndex(i) => SelectionsValid(s, i, Track("", false, false));
    case OpQueue(i) => QueueOpsValid(s, i, i);
    case OpDequeue(i) => QueueOpsValid(s, i, i);
    case OpRemoveQueueAt(i) => QueueOpsValid(s, i, i);
    case OpMoveQueue(from, to) => QueueOpsValid(s, from, to);
    case OpClearQueue => FlagsValid(s, RepeatOff);
    case OpMove(from, to) => MoveValid(s, from, to);
    case OpRemove(i) => RemoveValid(s, i);
    case OpSetTrack(i, track) => SelectionsValid(s, i, track);
    case OpEnableSmart => FlagsValid(s, RepeatOff);
    case OpDisableSmart => FlagsValid(s, RepeatOff);
    case OpToggleShuffle(rng) => ToggleShuffleValid(s, rng);
    case OpSetRepeat(mode) => FlagsValid(s, mode);
  }

  /** Every state a run of mutators reaches satisfies the invariant. */
  ghost function Run(s: Snapshot, ops: seq<Op>): (t: Snapshot)
    requires Valid(s)
    ensures Valid(t)
    decreases |ops|
  {
    if ops == [] then s
    else
      ApplyValid(s, ops[0]);
      Run(Apply(s, ops[0]), ops[1..])
  }

  lemma EmptyValid()
    ensures Valid(EMPTY)
  {
    assert EMPTY.order == Identity(0);
  }

  /** A call of a mutator, or Restore of the snapshot that was taken after the first `taken` calls. */
  datatype Call = Mutate(op: Op) | Restore(taken: nat)

  /** The states of a run from the empty playlist: all of them satisfy the invariant. */
  ghost function States(calls: seq<Call>): (trace: seq<Snapshot>)
    ensures |trace| == |calls| + 1 && trace[0] == EMPTY
    ensures forall k :: 0 <= k < |trace| ==> Valid(trace[k])
    decreases |calls|
  {
    EmptyValid();
    if calls == [] then [EMPTY]
    else
      var n := |calls| - 1;
      var trace := States(calls[..n]);
      match calls[n]
      case Mutate(op) =>
        ApplyValid(trace[n], op);
        trace + [Apply(trace[n], op)]
      case Restore(taken) => trace + [trace[Min(taken, n)]]
  }
}
