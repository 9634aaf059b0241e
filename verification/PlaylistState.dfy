/**
 The playlist's mutable state as a value, and every operation of playlist/playlist.go as a function on it.

 `Snapshot` is the source's own snapshot of that state. Track copies are values here; the random draws of a
 shuffle are a parameter (see Shuffle). The class in Playlist.dfy runs the loops of the source and is proved
 against these functions; PlaylistInvariant, PlaylistNavigation and PlaylistEditing prove what they promise.
 */
module PlaylistState {
  import opened Common
  import opened Shuffle

  datatype RepeatMode = RepeatOff | RepeatAll | RepeatOne

  datatype Track = Track(path: string, unplayable: bool, smart: bool)

  datatype Snapshot = Snapshot(
    tracks: seq<Track>,
    order: seq<int>,      // indices into tracks, shuffled or sequential
    pos: int,             // current position in order
    shuffle: bool,
    smart: bool,
    repeat: RepeatMode,
    queue: seq<int>,      // track indices queued to play next
    queuedIdx: int        // track index playing from the queue, -1 if none
  )

  const EMPTY := Snapshot([], [], 0, false, false, RepeatOff, [], -1)

  ghost predicate IsPermutation(order: seq<int>, n: nat) {
    && |order| == n
    && (forall k :: 0 <= k < n ==> 0 <= order[k] < n)
    && (forall j, k :: 0 <= j < k < n ==> order[j] != order[k])
    && (forall v :: 0 <= v < n ==> v in order)
  }

  ghost predicate InBounds(refs: seq<int>, n: nat) {
    forall k :: 0 <= k < |refs| ==> 0 <= refs[k] < n
  }

  /** The representation invariant every mutator keeps. */
  ghost predicate Valid(s: Snapshot) {
    && IsPermutation(s.order, |s.tracks|)
    && 0 <= s.pos
    && (if s.tracks == [] then s.pos == 0 else s.pos < |s.order|)
    && InBounds(s.queue, |s.tracks|)
    && -1 <= s.queuedIdx < |s.tracks|
    && (!s.shuffle ==> s.order == Identity(|s.tracks|))
  }

  function Identity(n: nat): (r: seq<int>) {
    seq(n, i => i)
  }

  predicate Playable(tracks: seq<Track>, idx: int) {
    0 <= idx < |tracks| && !tracks[idx].unplayable
  }

  function CurrentIndex(s: Snapshot): int {
    if |s.order| == 0 then -1
    else if s.queuedIdx >= 0 then s.queuedIdx
    else if 0 <= s.pos < |s.order| then s.order[s.pos]
    else -1
  }

  // ---- Scans of the order and of the queue ----

  /** The first slot in [from, end) that holds a playable track. */
  function FirstSlot(tracks: seq<Track>, order: seq<int>, from: int, end: int): (r: Option<int>)
    requires 0 <= from
    ensures r.Some? ==> from <= r.value < end && r.value < |order| && Playable(tracks, order[r.value])
    ensures r.Some? ==> forall k :: from <= k < r.value ==> !Playable(tracks, order[k])
    ensures r.None? ==> forall k :: from <= k < end && k < |order| ==> !Playable(tracks, order[k])
    decreases end - from
  {
    if from >= end || from >= |order| then None
    else if Playable(tracks, order[from]) then Some(from)
    else FirstSlot(tracks, order, from + 1, end)
  }

  /** The last slot at or before from that holds a playable track. */
  function LastSlot(tracks: seq<Track>, order: seq<int>, from: int): (r: Option<int>)
    requires from < |order|
    ensures r.Some? ==> 0 <= r.value <= from && Playable(tracks, order[r.value])
    ensures r.Some? ==> forall k :: r.value < k <= from ==> !Playable(tracks, order[k])
    ensures r.None? ==> forall k :: 0 <= k <= from ==> !Playable(tracks, order[k])
    decreases from + 1
  {
    if from < 0 then None
    else if Playable(tracks, order[from]) then Some(from)
    else LastSlot(tracks, order, from - 1)
  }

  /** The first queue entry at or after i that is playable. */
  function FirstQueued(tracks: seq<Track>, queue: seq<int>, i: nat): (r: Option<nat>)
    requires i <= |queue|
    ensures r.Some? ==> i <= r.value < |queue| && Playable(tracks, queue[r.value])
    ensures r.Some? ==> forall k :: i <= k < r.value ==> !Playable(tracks, queue[k])
    ensures r.None? ==> forall k :: i <= k < |queue| ==> !Playable(tracks, queue[k])
    decreases |queue| - i
  {
    if i == |queue| then None
    else if Playable(tracks, queue[i]) then Some(i)
    else FirstQueued(tracks, queue, i + 1)
  }

  /** The playable ones among refs. */
  function PlayableRefs(tracks: seq<Track>, refs: seq<int>): seq<int> {
    if refs == [] then []
    else (if Playable(tracks, refs[0]) then [refs[0]] else []) + PlayableRefs(tracks, refs[1..])
  }

  /** The refs to smart rows. */
  function SmartRefs(tracks: seq<Track>, refs: seq<int>): (r: seq<int>)
    requires InBounds(refs, |tracks|)
  {
    if refs == [] then []
    else (if tracks[refs[0]].smart then [refs[0]] else []) + SmartRefs(tracks, refs[1..])
  }

  /** The first index of v in refs, or -1. */
  function IndexOf(refs: seq<int>, v: int): (r: int)
    ensures -1 <= r < |refs|
    ensures r >= 0 ==> refs[r] == v
    ensures forall k :: 0 <= k < |refs| && (r < 0 || k < r) ==> refs[k] != v
  {
    if refs == [] then -1
    else if refs[0] == v then 0
    else
      var r := IndexOf(refs[1..], v);
      if r < 0 then -1 else r + 1
  }

  // ---- Shuffling ----

  /** All indices below n but cur, in ascending order. */
  function Others(n: nat, cur: int): seq<int>
    requires 0 <= cur < n
  {
    seq(n - 1, i => if i < cur then i else i + 1)
  }

  function DoShuffle(s: Snapshot, rng: Draws): Snapshot
    requires Valid(s) && s.tracks != []
  {
    var cur := s.order[s.pos];
    s.(order := [cur] + Shuffled(Others(|s.tracks|, cur), rng), pos := 0)
  }

  /** Reorders only the slots after the cursor. */
  function ShuffleTail(s: Snapshot, rng: Draws): Snapshot
    requires 0 <= s.pos < |s.order|
  {
    s.(order := s.order[..s.pos + 1] + Shuffled(s.order[s.pos + 1..], rng))
  }

  // ---- Loading tracks ----

  function Replace(s: Snapshot, tracks: seq<Track>, rng: Draws): Snapshot {
    var t := s.(tracks := tracks, order := Identity(|tracks|), pos := 0, queue := [], queuedIdx := -1);
    IdentityIsPermutation(|tracks|);
    if s.shuffle && tracks != [] then DoShuffle(t, rng) else t
  }

  function Append(s: Snapshot, tracks: seq<Track>): Snapshot {
    s.(tracks := s.tracks + tracks, order := s.order + seq(|tracks|, i => |s.tracks| + i))
  }

  function Add(s: Snapshot, tracks: seq<Track>, rng: Draws): Snapshot
    requires Valid(s)
  {
    if tracks == [] then s
    else
      var t := Append(s, tracks);
      if !s.shuffle then t
      else if s.tracks == [] then
        assert t.order == Identity(|tracks|);
        IdentityIsPermutation(|tracks|);
        DoShuffle(t, rng)
      else ShuffleTail(t, rng)
  }

  function MarkSmart(tracks: seq<Track>): seq<Track> {
    seq(|tracks|, i requires 0 <= i < |tracks| => tracks[i].(smart := true))
  }

  function AddSmart(s: Snapshot, tracks: seq<Track>, rng: Draws): Snapshot
    requires Valid(s)
  {
    if !s.shuffle then s else Add(s, MarkSmart(tracks), rng)
  }

  lemma IdentityIsPermutation(n: nat)
    ensures IsPermutation(Identity(n), n)
  {
    forall v | 0 <= v < n ensures v in Identity(n) {
      assert Identity(n)[v] == v;
    }
  }

  // ---- Moving through the order ----

  predicate AtShuffleWrap(s: Snapshot) {
    s.repeat == RepeatAll && s.shuffle && s.queue == [] && s.queuedIdx == -1 && s.pos + 1 >= |s.order|
  }

  /** Reshuffles at the end of the order; an order with nothing playable stays as it was. */
  function ShuffleWrap(s: Snapshot, rng: Draws): (Snapshot, Option<int>)
    requires Valid(s) && s.tracks != []
  {
    var t := DoShuffle(s, rng);
    match FirstSlot(t.tracks, t.order, 1, |t.order|)
    case Some(k) => (t, Some(k))
    case None =>
      match FirstSlot(t.tracks, t.order, 0, 1)
      case Some(k) => (t, Some(k))
      case None => (s, None)
  }

  function Advance(s: Snapshot, rng: Draws): (Snapshot, Option<int>)
    requires Valid(s) && s.tracks != []
  {
    match FirstSlot(s.tracks, s.order, s.pos + 1, |s.order|)
    case Some(k) => (s, Some(k))
    case None =>
      if s.repeat != RepeatAll then (s, None)
      else if AtShuffleWrap(s) then ShuffleWrap(s, rng)
      else (s, FirstSlot(s.tracks, s.order, 0, |s.order|))
  }

  /** Next: the new state and the index of the track it returns. */
  function Next(s: Snapshot, rng: Draws): (Snapshot, Option<int>)
    requires Valid(s)
  {
    if s.tracks == [] then (s, None)
    else
      match FirstQueued(s.tracks, s.queue, 0)
      case Some(i) => (s.(queue := s.queue[i + 1..], queuedIdx := s.queue[i]), Some(s.queue[i]))
      case None =>
        var c := s.(queue := []);
        if s.repeat == RepeatOne then
          if Playable(s.tracks, s.order[s.pos]) then (c.(queuedIdx := -1), Some(s.order[s.pos])) else (c, None)
        else
          var (d, slot) := Advance(c, rng);
          match slot
          case None => (c, None)
          case Some(k) => (d.(pos := k, queuedIdx := -1), Some(d.order[k]))
  }

  predicate HasNext(s: Snapshot)
    requires Valid(s)
  {
    if s.tracks == [] then false
    else if FirstQueued(s.tracks, s.queue, 0).Some? then true
    else if s.repeat == RepeatOne then Playable(s.tracks, s.order[s.pos])
    else if FirstSlot(s.tracks, s.order, s.pos + 1, |s.order|).Some? then true
    else s.repeat == RepeatAll && FirstSlot(s.tracks, s.order, 0, |s.order|).Some?
  }

  function PeekNext(s: Snapshot): Option<int>
    requires Valid(s)
  {
    if s.tracks == [] then None
    else
      match FirstQueued(s.tracks, s.queue, 0)
      case Some(i) => Some(s.queue[i])
      case None =>
        if s.repeat == RepeatOne then
          if Playable(s.tracks, s.order[s.pos]) then Some(s.order[s.pos]) else None
        else if AtShuffleWrap(s) then None
        else
          match FirstSlot(s.tracks, s.order, s.pos + 1, |s.order|)
          case Some(k) => Some(s.order[k])
          case None =>
            if s.repeat != RepeatAll then None
            else
              match FirstSlot(s.tracks, s.order, 0, |s.order|)
              case Some(k) => Some(s.order[k])
              case None => None
  }

  /** Prev: the new state, the index of the track it returns, and whether it moved. */
  function Prev(s: Snapshot): (Snapshot, int, bool)
    requires Valid(s) && s.tracks != []
  {
    match LastSlot(s.tracks, s.order, s.pos - 1)
    case Some(k) => (s.(pos := k, queuedIdx := -1), s.order[k], true)
    case None =>
      var last := if s.repeat == RepeatAll then LastSlot(s.tracks, s.order, |s.order| - 1) else None;
      match last
      case Some(k) => (s.(pos := k, queuedIdx := -1), s.order[k], true)
      case None => (s, CurrentIndex(s), false)
  }

  function SelectedSlot(s: Snapshot): Option<int>
    requires Valid(s)
  {
    if |s.order| == 0 then None
    else if Playable(s.tracks, s.order[s.pos]) then Some(s.pos)
    else
      match FirstSlot(s.tracks, s.order, s.pos + 1, |s.order|)
      case Some(k) => Some(k)
      case None => if s.repeat == RepeatAll then FirstSlot(s.tracks, s.order, 0, s.pos) else None
  }

  function ActivateSelected(s: Snapshot): (Snapshot, Option<int>)
    requires Valid(s)
  {
    match SelectedSlot(s)
    case None => (s, None)
    case Some(k) => (s.(pos := k, queuedIdx := -1), Some(s.order[k]))
  }

  function SetIndex(s: Snapshot, i: int): Snapshot {
    var slot := IndexOf(s.order, i);
    s.(queuedIdx := -1, pos := if slot >= 0 then slot else s.pos)
  }

  /** The slots after the cursor. */
  function Ahead(s: Snapshot): (r: seq<int>)
    requires 0 <= s.pos
  {
    if s.pos + 1 <= |s.order| then s.order[s.pos + 1..] else []
  }

  /** What Upcoming lists without a limit. */
  function Upcoming(s: Snapshot): seq<int>
    requires 0 <= s.pos
  {
    PlayableRefs(s.tracks, Ahead(s))
  }

  // ---- The play-next queue ----

  function Enqueue(s: Snapshot, idx: int): Snapshot {
    if 0 <= idx < |s.tracks| then s.(queue := s.queue + [idx]) else s
  }

  function Deleted<T>(refs: seq<T>, i: nat): seq<T>
    requires i < |refs|
  {
    refs[..i] + refs[i + 1..]
  }

  function Dequeue(s: Snapshot, idx: int): (Snapshot, bool) {
    var i := IndexOf(s.queue, idx);
    if i < 0 then (s, false) else (s.(queue := Deleted(s.queue, i)), true)
  }

  function RemoveQueueAt(s: Snapshot, i: int): Snapshot {
    if 0 <= i < |s.queue| then s.(queue := Deleted(s.queue, i)) else s
  }

  function MoveQueue(s: Snapshot, from: int, to: int): (Snapshot, bool) {
    if from < 0 || from >= |s.queue| || to < 0 || to >= |s.queue| || from == to then (s, false)
    else (s.(queue := Swapped(s.queue, from, to)), true)
  }

  /** The first 1-based queue position of each queued track index. */
  ghost function QueuePositions(queue: seq<int>): map<int, int> {
    map idx | idx in queue :: IndexOf(queue, idx) + 1
  }

  // ---- Moving and removing tracks ----

  function SwapIndex(i: int, from: int, to: int): int {
    if i == from then to else if i == to then from else i
  }

  function SwapIndices(refs: seq<int>, from: int, to: int): seq<int> {
    seq(|refs|, k requires 0 <= k < |refs| => SwapIndex(refs[k], from, to))
  }

  function Move(s: Snapshot, from: int, to: int): (Snapshot, bool)
    requires Valid(s)
  {
    if from < 0 || from >= |s.tracks| || to < 0 || to >= |s.tracks| || from == to then (s, false)
    else
      var t := s.(tracks := Swapped(s.tracks, from, to),
                  order := SwapIndices(s.order, from, to),
                  queue := SwapIndices(s.queue, from, to),
                  queuedIdx := SwapIndex(s.queuedIdx, from, to));
      (if s.shuffle then t else t.(order := Identity(|s.order|), pos := t.order[s.pos]), true)
  }

  /** refs without idx, the larger indices shifted down. */
  function DropIndex(refs: seq<int>, idx: int): (r: seq<int>) {
    if refs == [] then []
    else (if refs[0] == idx then [] else [if refs[0] > idx then refs[0] - 1 else refs[0]]) + DropIndex(refs[1..], idx)
  }

  /** The cursor after slot is gone from an order of length n + 1. */
  function CursorAfterRemoval(pos: int, slot: int, n: nat): int {
    var p := if 0 <= slot < pos then pos - 1 else pos;
    var q := if p >= n then n - 1 else p;
    if q < 0 then 0 else q
  }

  function Remove(s: Snapshot, idx: int): (Snapshot, bool) {
    if idx < 0 || idx >= |s.tracks| then (s, false)
    else
      var order := DropIndex(s.order, idx);
      (s.(tracks := Deleted(s.tracks, idx),
          order := order,
          pos := CursorAfterRemoval(s.pos, IndexOf(s.order, idx), |order|),
          queue := DropIndex(s.queue, idx),
          queuedIdx := if s.queuedIdx == idx then -1 else if s.queuedIdx > idx then s.queuedIdx - 1 else s.queuedIdx),
       true)
  }

  function SetTrack(s: Snapshot, i: int, t: Track): Snapshot {
    if 0 <= i < |s.tracks| then s.(tracks := s.tracks[i := t]) else s
  }

  // ---- Smart rows ----

  function SmartPending(s: Snapshot): nat
    requires Valid(s)
  {
    |SmartRefs(s.tracks, Ahead(s))|
  }

  /** Removes the indices of doomed that are below bound, the highest first. */
  function RemoveBelow(s: Snapshot, doomed: set<int>, bound: nat): Snapshot
    decreases bound
  {
    if bound == 0 then s
    else RemoveBelow(if bound - 1 in doomed then Remove(s, bound - 1).0 else s, doomed, bound - 1)
  }

  ghost function Elements(refs: seq<int>): set<int> {
    set x | x in refs
  }

  ghost function SmartAhead(s: Snapshot): set<int>
    requires Valid(s)
  {
    Elements(SmartRefs(s.tracks, Ahead(s)))
  }

  ghost function DisableSmart(s: Snapshot): Snapshot
    requires Valid(s)
  {
    RemoveBelow(s.(smart := false), SmartAhead(s), |s.tracks|)
  }

  // ---- Modes ----

  function ToggleShuffle(s: Snapshot, rng: Draws): Snapshot
    requires Valid(s)
  {
    if s.tracks == [] then s.(shuffle := !s.shuffle)
    else if !s.shuffle then DoShuffle(s.(shuffle := true), rng)
    else s.(shuffle := false, order := Identity(|s.tracks|), pos := s.order[s.pos])
  }

  function NextRepeat(r: RepeatMode): RepeatMode {
    match r
    case RepeatOff => RepeatAll
    case RepeatAll => RepeatOne
    case RepeatOne => RepeatOff
  }
}
