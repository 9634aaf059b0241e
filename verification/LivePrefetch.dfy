/**
 The live prefetch ring of player/live_prefetch.go. The producer writes chunks under the lock, the speaker reads
 under the lock, so a run is any interleaving of writes and reads. Samples are reals.
 */
module LivePrefetch {
  import opened Common

  const SILENCE := Frame(0.0, 0.0)
  const FADE_SAMPLES := 64

  function Scale(f: Frame, gain: real): Frame {
    Frame(f.left * gain, f.right * gain)
  }

  /** The state behind the ring: the frames it holds, oldest first. */
  datatype State = State(
    capacity: nat, resumeAt: nat, buffered: seq<Frame>, consumed: nat,
    buffering: bool, wasSilent: bool, done: bool, sourceFailed: bool, failed: bool)

  ghost predicate Valid(s: State) {
    1 <= s.resumeAt <= s.capacity && |s.buffered| <= s.capacity
  }

  function Start(capacity: nat, resumeAt: nat): State {
    State(capacity, resumeAt, [], 0, true, false, false, false, false)
  }

  function Silence(n: nat): seq<Frame> {
    seq(n, _ => SILENCE)
  }

  // ---- Writing ----

  /** How many samples one locked turn of write takes. */
  function Accepted(s: State, samples: seq<Frame>): (n: nat)
    ensures n <= |samples|
  {
    if |s.buffered| <= s.capacity then Min(|samples|, s.capacity - |s.buffered|) else 0
  }

  function Written(s: State, samples: seq<Frame>): State {
    s.(buffered := s.buffered + samples[..Accepted(s, samples)])
  }

  // ---- Reading ----

  /** What one call of Stream gives back: the frames it filled in, and its two results. */
  datatype Read = Read(filled: seq<Frame>, count: nat, ok: bool)

  function FadeIn(n: nat, wasSilent: bool, k: nat): real
    requires k < n
  {
    var fade := Min(n, FADE_SAMPLES);
    if wasSilent && k < fade then k as real / fade as real else 1.0
  }

  function FadeOut(n: nat, ending: bool, k: nat): real
    requires k < n
  {
    var fade := Min(n, FADE_SAMPLES);
    if ending && k >= n - fade then (n - 1 - k) as real / fade as real else 1.0
  }

  predicate Paused(s: State) {
    s.buffering && !s.done && |s.buffered| < s.resumeAt
  }

  /** The read ends the stream cleanly: fewer samples than asked for, and nothing more to come. */
  predicate EndsCleanly(s: State, len: nat) {
    len > |s.buffered| && s.done && !s.sourceFailed
  }

  /** The k-th frame Stream takes from the ring, with its fades. */
  function Heard(s: State, len: nat, k: nat): Frame
    requires k < len && k < |s.buffered|
  {
    var n := Min(len, |s.buffered|);
    Scale(Scale(s.buffered[k], FadeIn(n, s.wasSilent, k)), FadeOut(n, len > n && !EndsCleanly(s, len), k))
  }

  /** The frames Stream takes from the ring. */
  function Delivered(s: State, len: nat): seq<Frame> {
    var n := Min(len, |s.buffered|);
    seq(n, k requires 0 <= k < n => Heard(s, len, k))
  }

  /** What a call takes from the ring: nothing while it is filling up. */
  function Taken(s: State, len: nat): seq<Frame> {
    if Paused(s) then [] else Delivered(s, len)
  }

  /** A read of no samples from a full ring clears the full flag, and with it the ring. */
  predicate LosesRing(s: State, len: nat) {
    len == 0 && |s.buffered| == s.capacity
  }

  function Streamed(s: State, len: nat): (State, Read) {
    if Paused(s) then (s.(wasSilent := true), Read(Silence(len), len, true))
    else if |s.buffered| == 0 then
      if s.done then (s.(failed := s.sourceFailed), Read([], 0, false))
      else (s.(buffering := true, wasSilent := true), Read(Silence(len), len, true))
    else
      var n := Min(len, |s.buffered|);
      var t := s.(buffering := false, consumed := s.consumed + n,
                  buffered := if LosesRing(s, len) then [] else s.buffered[n..]);
      if EndsCleanly(s, len) then (t, Read(Delivered(s, len), n, true))
      else
        (t.(wasSilent := len > n, buffering := len > n && !s.done),
         Read(Delivered(s, len) + Silence(len - n), len, true))
  }

  function Finished(s: State, failed: bool): State {
    s.(done := true, sourceFailed := failed)
  }

  // ---- Runs ----

  datatype Step = Produce(chunk: seq<Frame>) | Write | Pull(len: nat) | Finish(failed: bool)

  /**
   The state with what the source has produced so far, what is left of the chunk that the producer is writing, and
   everything ever written to and taken from the ring.
   */
  datatype Log = Log(state: State, produced: seq<Frame>, rest: seq<Frame>, written: seq<Frame>, delivered: seq<Frame>)

  /** The producer reads the next chunk, or finishes, only when the last one is written; a turn needs room. */
  ghost predicate Next(s: Log, step: Step, t: Log) {
    match step
    case Produce(chunk) => s.rest == [] && !s.state.done && t == s.(produced := s.produced + chunk, rest := chunk)
    case Write =>
      var n := Accepted(s.state, s.rest);
      && n > 0
      && t == s.(state := Written(s.state, s.rest), rest := s.rest[n..], written := s.written + s.rest[..n])
    case Pull(len) => t == s.(state := Streamed(s.state, len).0, delivered := s.delivered + Taken(s.state, len))
    case Finish(failed) => s.rest == [] && !s.state.done && t == s.(state := Finished(s.state, failed))
  }

  ghost predicate Run(trace: seq<Log>, steps: seq<Step>, capacity: nat, resumeAt: nat) {
    && |trace| == |steps| + 1 && trace[0] == Log(Start(capacity, resumeAt), [], [], [], []) && 1 <= resumeAt <= capacity
    && (forall i :: 0 <= i < |steps| ==> Next(trace[i], steps[i], trace[i + 1]))
    && (forall i :: 0 <= i < |steps| ==> steps[i] != Pull(0))
  }

  /** f is g scaled by a gain between 0 and 1. */
  ghost predicate Faded(f: Frame, g: Frame) {
    exists gain: real :: 0.0 <= gain <= 1.0 && f == Scale(g, gain)
  }

  ghost predicate Conserved(s: Log) {
    && Valid(s.state) && |s.delivered| == s.state.consumed
    && s.written + s.rest == s.produced && (s.state.done ==> s.rest == [])
    && s.state.consumed + |s.state.buffered| == |s.written|
    && s.state.buffered == s.written[s.state.consumed..]
    && forall k :: 0 <= k < |s.delivered| ==> Faded(s.delivered[k], s.written[k])
  }

  lemma Ratio(a: int, b: int)
    requires 0 <= a <= b && b > 0
    ensures 0.0 <= a as real / b as real <= 1.0
  {
  }

  lemma Gains(n: nat, wasSilent: bool, ending: bool, k: nat)
    requires k < n
    ensures 0.0 <= FadeIn(n, wasSilent, k) <= 1.0 && 0.0 <= FadeOut(n, ending, k) <= 1.0
  {
    var fade := Min(n, FADE_SAMPLES);
    if k < fade {
      Ratio(k, fade);
    }
    if k >= n - fade {
      Ratio(n - 1 - k, fade);
    }
  }

  lemma ProductInRange(a: real, b: real)
    requires 0.0 <= a <= 1.0 && 0.0 <= b <= 1.0
    ensures 0.0 <= a * b <= 1.0
  {
    NonNegative(a, b);
    NonNegative(1.0 - a, b);
  }

  lemma NonNegative(a: real, b: real)
    requires 0.0 <= a && 0.0 <= b
    ensures 0.0 <= a * b
  {
  }

  lemma FadedTwice(f: Frame, a: real, b: real)
    requires 0.0 <= a <= 1.0 && 0.0 <= b <= 1.0
    ensures Faded(Scale(Scale(f, a), b), f)
  {
    ProductInRange(a, b);
    assert Scale(Scale(f, a), b) == Scale(f, a * b);
  }

  /** Every frame Stream takes out is the frame that was written, turned down by at most its whole volume. */
  lemma DeliveredFaded(s: State, len: nat, k: nat)
    requires k < |Delivered(s, len)|
    ensures Faded(Delivered(s, len)[k], s.buffered[k])
  {
    var n := Min(len, |s.buffered|);
    Gains(n, s.wasSilent, len > n && !EndsCleanly(s, len), k);
    FadedTwice(s.buffered[k], FadeIn(n, s.wasSilent, k), FadeOut(n, len > n && !EndsCleanly(s, len), k));
  }

  /** One read neither loses nor repeats a frame, exactly when it is not an empty read of a full ring. */
  lemma StreamConserves(s: State, len: nat)
    requires Valid(s)
    ensures var t := Streamed(s, len).0;
            (t.consumed - s.consumed + |t.buffered| == |s.buffered|
                && t.buffered == s.buffered[|s.buffered| - |t.buffered|..])
            <==> !LosesRing(s, len)
  {
  }

  /** The read that loses frames: none asked for, from a ring of one frame that is full. */
  lemma EmptyReadLosesRing() returns (s: State)
    ensures Valid(s) && s.buffered == [Frame(1.0, 1.0)]
    ensures Streamed(s, 0).0.buffered == [] && Streamed(s, 0).0.consumed == s.consumed && Streamed(s, 0).1.filled == []
  {
    s := Start(1, 1).(buffered := [Frame(1.0, 1.0)]);
  }

  lemma PullKeeps(s: Log, len: nat, t: Log)
    requires Conserved(s) && Next(s, Pull(len), t) && len != 0
    ensures Conserved(t)
  {
    hide Faded, Taken, Streamed;
    PullTakes(s.state, len);
    var n := s.state.consumed;
    forall k | 0 <= k < |t.delivered| ensures Faded(t.delivered[k], t.written[k]) {
      if k >= n {
        TakenFaded(s.state, len, k - n);
        assert s.state.buffered[k - n] == s.written[n..][k - n];
      }
    }
    assert s.written[n..][t.state.consumed - n..] == s.written[t.state.consumed..];
  }

  lemma TakenFaded(s: State, len: nat, k: nat)
    requires k < |Taken(s, len)| <= |s.buffered|
    ensures Faded(Taken(s, len)[k], s.buffered[k])
  {
    hide Faded, Delivered;
    DeliveredFaded(s, len, k);
  }

  lemma PullTakes(s: State, len: nat)
    requires Valid(s) && len != 0
    ensures var n, t := |Taken(s, len)|, Streamed(s, len).0;
            && Valid(t) && t.consumed == s.consumed + n && n <= |s.buffered| && t.buffered == s.buffered[n..]
            && t.done == s.done
  {
    TakenLength(s, len);
    hide Delivered;
  }

  lemma TakenLength(s: State, len: nat)
    requires Valid(s)
    ensures |Delivered(s, len)| == Min(len, |s.buffered|)
  {
  }

  lemma {:induction false} RunConserves(trace: seq<Log>, steps: seq<Step>, capacity: nat, resumeAt: nat, i: nat)
    requires Run(trace, steps, capacity, resumeAt) && i < |trace|
    ensures Conserved(trace[i])
  {
    if i > 0 {
      RunConserves(trace, steps, capacity, resumeAt, i - 1);
      var s, t := trace[i - 1], trace[i];
      assert Next(s, steps[i - 1], t) && steps[i - 1] != Pull(0);
      match steps[i - 1]
      case Produce(chunk) => hide Faded;
      case Write => WriteKeeps(s, t);
      case Pull(len) => PullKeeps(s, len, t);
      case Finish(failed) =>
    }
  }

  lemma WriteKeeps(s: Log, t: Log)
    requires Conserved(s) && Next(s, Write, t)
    ensures Conserved(t)
  {
    hide Faded;
    var n := Accepted(s.state, s.rest);
    var added := s.rest[..n];
    assert (s.written + added)[s.state.consumed..] == s.written[s.state.consumed..] + added;
    assert added + s.rest[n..] == s.rest;
    assert s.written + added + s.rest[n..] == s.written + (added + s.rest[n..]);
  }

  /**
   In every run of the producer with non-empty reads, the samples produced are those consumed, those buffered and
   those left of the current chunk, and the k-th sample taken from the ring is the k-th sample of the source at a gain
   in [0, 1], whatever underran in between.
   */
  lemma NothingLost(trace: seq<Log>, steps: seq<Step>, capacity: nat, resumeAt: nat, i: nat)
    requires Run(trace, steps, capacity, resumeAt) && i < |trace|
    ensures var s := trace[i];
            && s.state.consumed <= |s.produced|
            && s.produced == s.produced[..s.state.consumed] + s.state.buffered + s.rest
            && |s.delivered| == s.state.consumed
            && forall k :: 0 <= k < |s.delivered| ==> Faded(s.delivered[k], s.produced[k])
  {
    hide Faded;
    RunConserves(trace, steps, capacity, resumeAt, i);
    var s := trace[i];
    assert s.written == s.written[..s.state.consumed] + s.state.buffered;
    assert s.written[..s.state.consumed] == s.produced[..s.state.consumed];
  }

  /** While a chunk is being written and the ring has room, the next turn can be taken and shortens the chunk. */
  lemma WriteGoesOn(s: Log)
    requires s.rest != [] && |s.state.buffered| < s.state.capacity
    ensures exists t :: Next(s, Write, t) && |t.rest| < |s.rest|
  {
    var n := Accepted(s.state, s.rest);
    var t := s.(state := Written(s.state, s.rest), rest := s.rest[n..], written := s.written + s.rest[..n]);
    assert Next(s, Write, t) && |t.rest| < |s.rest|;
  }

  /** Stream reports the end only when the source is done and all that it produced has been consumed. */
  lemma EndMeansConsumed(trace: seq<Log>, steps: seq<Step>, capacity: nat, resumeAt: nat, i: nat, len: nat)
    requires Run(trace, steps, capacity, resumeAt) && i < |trace| && !Streamed(trace[i].state, len).1.ok
    ensures trace[i].state.done && trace[i].state.consumed == |trace[i].produced| == |trace[i].delivered|
  {
    RunConserves(trace, steps, capacity, resumeAt, i);
  }

  /** A call fills the whole request except at the clean end, and pads it with silence only. */
  lemma StreamFills(s: State, len: nat)
    requires Valid(s)
    ensures var (t, r) := Streamed(s, len);
            && r.count == |r.filled| <= len
            && ((r.ok && !EndsCleanly(s, len)) || Paused(s) ==> r.count == len)
            && (r.count < len ==> s.done && t.buffered == [])
            && forall k :: t.consumed - s.consumed <= k < r.count ==> r.filled[k] == SILENCE
  {
  }

  /** A turn of write takes everything that fits: the whole chunk, or as much as fills the ring. */
  lemma WriteTakesAllThatFits(s: State, samples: seq<Frame>)
    requires Valid(s)
    ensures var (t, n, room) := (Written(s, samples), Accepted(s, samples), s.capacity - |s.buffered|);
            && t == s.(buffered := t.buffered) && t.buffered == s.buffered + samples[..n]
            && (if |samples| <= room then n == |samples| else |t.buffered| == t.capacity)
  {
  }

  /** There is something to hand out, and the ring is not waiting to fill up to the mark. */
  ghost predicate Plays(s: State) {
    s.buffered != [] && (!s.buffering || s.done || |s.buffered| >= s.resumeAt)
  }

  /**
   When playback goes on: a read takes all it can from the ring exactly if there is something in it and it was not
   filling up, or is full up to the mark, or nothing more will come. Otherwise it takes nothing: it is silent, and the
   ring fills up from then on, or the end is reported. A ring that ran dry fills up again.
   */
  lemma StreamTakes(s: State, len: nat)
    requires Valid(s) && len > 0
    ensures var (t, read) := Streamed(s, len);
            var n: nat := if Plays(s) then Min(len, |s.buffered|) else 0;
            && t.consumed == s.consumed + n && t.buffered == s.buffered[n..]
            && (Plays(s) <==> n > 0)
            && (Plays(s) ==> t.buffering == (n < len && !s.done) && read.ok)
            && (!Plays(s) && !s.done ==> t == s.(buffering := true, wasSilent := true) && read.ok)
            && (!Plays(s) && !s.done ==> |read.filled| == len && forall k :: 0 <= k < len ==> read.filled[k] == SILENCE)
            && (!Plays(s) && s.done ==> t == s.(failed := s.sourceFailed) && read == Read([], 0, false))
  {
  }

  /** got is f, turned down by up if it rises, and by down if it falls. */
  ghost predicate Turned(got: Frame, f: Frame, rises: bool, up: real, falls: bool, down: real) {
    if rises && falls then got == Frame(f.left * up * down, f.right * up * down)
    else if rises then got == Frame(f.left * up, f.right * up)
    else if falls then got == Frame(f.left * down, f.right * down)
    else got == f
  }

  /**
   got is how frame k of the n taken sounds, of which f was written: behind a silence the first 64 frames rise from
   nothing, and where the ring runs dry the last 64 fall to nothing. All others are as they were.
   */
  ghost predicate Sounds(got: Frame, f: Frame, n: nat, k: nat, afterSilence: bool, dry: bool)
    requires k < n
  {
    var fade := Min(n, 64);
    Turned(got, f, afterSilence && k < fade, k as real / fade as real, dry && n - fade <= k,
           (n - 1 - k) as real / fade as real)
  }

  /** How the frames taken sound: with no fall where the stream ends cleanly. */
  lemma StreamSounds(s: State, len: nat, k: nat)
    requires Valid(s) && Plays(s) && k < Min(len, |s.buffered|)
    ensures var (n, filled) := (Min(len, |s.buffered|), Streamed(s, len).1.filled);
            k < |filled| && Sounds(filled[k], s.buffered[k], n, k, s.wasSilent, n < len && (!s.done || s.sourceFailed))
  {
    hide Heard, Sounds;
    HeardSounds(s, len, k);
  }

  lemma HeardSounds(s: State, len: nat, k: nat)
    requires k < len && k < |s.buffered|
    ensures var n := Min(len, |s.buffered|);
            Sounds(Heard(s, len, k), s.buffered[k], n, k, s.wasSilent, n < len && (!s.done || s.sourceFailed))
  {
    hide Scale, Turned;
    var n := Min(len, |s.buffered|);
    var fade := Min(n, FADE_SAMPLES);
    var dry := n < len && (!s.done || s.sourceFailed);
    TurnedBy(s.buffered[k], s.wasSilent && k < fade, k as real / fade as real, dry && n - fade <= k,
             (n - 1 - k) as real / fade as real);
  }

  lemma TurnedBy(f: Frame, rises: bool, up: real, falls: bool, down: real)
    ensures Turned(Scale(Scale(f, if rises then up else 1.0), if falls then down else 1.0), f, rises, up, falls, down)
  {
  }

  /** In every run nothing is taken from the ring until it was filled up to the mark, or nothing more will come. */
  lemma {:induction false} SilentUntilFilled(
    trace: seq<Log>, steps: seq<Step>, capacity: nat, resumeAt: nat, i: nat)
    requires Run(trace, steps, capacity, resumeAt) && i < |trace|
    ensures var s := trace[i];
            s.state.done || |s.written| >= resumeAt || (s.state.consumed == 0 && s.delivered == [] && s.state.buffering)
    ensures trace[i].state.resumeAt == resumeAt
  {
    if i > 0 {
      hide Conserved, Heard, Delivered;
      SilentUntilFilled(trace, steps, capacity, resumeAt, i - 1);
      RunConserves(trace, steps, capacity, resumeAt, i - 1);
      assert Next(trace[i - 1], steps[i - 1], trace[i]);
      BufferedAreWritten(trace[i - 1]);
    }
  }

  lemma BufferedAreWritten(s: Log)
    requires Conserved(s)
    ensures s.state.consumed + |s.state.buffered| == |s.written|
  {
  }

  /** A call counts as silent, and the next one fades in, exactly if silence was handed out in it. */
  lemma StreamWasSilent(s: State, len: nat)
    requires Valid(s) && len > 0
    ensures var (t, read) := Streamed(s, len);
            t.wasSilent == if read.ok && read.count == len then t.consumed - s.consumed < len else s.wasSilent
  {
  }

  // ---- The ring ----

  /** x wrapped once around n. */
  function Wrap(x: int, n: int): int {
    if x >= n then x - n else x
  }

  lemma StepAround(x: int, n: int)
    requires 0 <= x < n
    ensures (x + 1) % n == Wrap(x + 1, n)
  {
    if x + 1 == n {
      assert n % n == 0;
    } else {
      SmallMod(x + 1, n);
    }
  }

  lemma StepWraps(x: int, n: int)
    requires 0 <= x < 2 * n - 1
    ensures Wrap(Wrap(x, n) + 1, n) == Wrap(x + 1, n)
  {
  }

  lemma SmallMod(x: int, n: int)
    requires 0 <= x < n
    ensures x % n == x
  {
  }

  /** The count ring slots from r on. */
  function Slots(data: seq<Frame>, r: nat, count: nat): (s: seq<Frame>)
    requires r < |data| && count <= |data|
    ensures |s| == count
  {
    seq(count, i requires 0 <= i < count => data[Wrap(r + i, |data|)])
  }

  lemma SlotsPush(data: seq<Frame>, r: nat, count: nat, x: Frame)
    requires r < |data| && count < |data|
    ensures Slots(data[Wrap(r + count, |data|) := x], r, count + 1) == Slots(data, r, count) + [x]
  {
    var n := |data|;
    var a, b := Slots(data[Wrap(r + count, n) := x], r, count + 1), Slots(data, r, count) + [x];
    forall k | 0 <= k <= count ensures a[k] == b[k] {
      assert k < count ==> Wrap(r + k, n) != Wrap(r + count, n);
    }
  }

  lemma SlotsDrop(data: seq<Frame>, r: nat, count: nat, n: nat)
    requires r < |data| && n <= count <= |data|
    ensures Wrap(r + n, |data|) < |data| ==> Slots(data, Wrap(r + n, |data|), count - n) == Slots(data, r, count)[n..]
  {
    var m := |data|;
    var start := Wrap(r + n, m);
    if start < m {
      var a, b := Slots(data, start, count - n), Slots(data, r, count)[n..];
      forall k | 0 <= k < count - n ensures a[k] == b[k] {
        assert Wrap(start + k, m) == Wrap(r + (n + k), m);
      }
    }
  }

  class Prefetcher {
    const buf: array<Frame>
    var r: nat
    var w: nat
    var full: bool
    const resumeAt: nat
    var consumed: nat
    var buffering: bool
    var wasSilent: bool
    var done: bool
    var sourceErr: bool
    var err: bool

    /** availableToReadLocked. */
    function Available(): (n: int)
      reads this
    {
      if full then buf.Length else if w >= r then w - r else buf.Length - (r - w)
    }

    /** availableToWriteLocked. */
    function Free(): (n: int)
      reads this
    {
      if full then 0 else if w >= r then buf.Length - (w - r) else r - w
    }

    ghost predicate Consistent()
      reads this
    {
      r < buf.Length && w < buf.Length && (full ==> w == r) && 1 <= resumeAt <= buf.Length
    }

    ghost function Now(): State
      reads this, buf
      requires Consistent()
    {
      State(buf.Length, resumeAt, Slots(buf[..], r, Available()), consumed, buffering, wasSilent, done, sourceErr, err)
    }

    /** The two counts split the ring. */
    lemma CountsAgree()
      requires Consistent()
      ensures 0 <= Available() <= buf.Length && Available() + Free() == buf.Length
      ensures w == Wrap(r + Available(), buf.Length)
    {
    }

    /** Where the slot behind count frames lies. */
    static lemma HeldNow(r: nat, count: nat, n: nat)
      requires r < n && count <= n
      ensures Wrap(r + count, n) == r <==> count == 0 || count == n
      ensures Wrap(r + count, n) > r ==> count == Wrap(r + count, n) - r
      ensures Wrap(r + count, n) < r ==> count == n - (r - Wrap(r + count, n))
    {
    }

    constructor (capacity: nat, resumeAt: nat)
      requires 1 <= resumeAt <= capacity
      ensures Consistent() && Now() == Start(capacity, resumeAt)
    {
      buf := new Frame[capacity](_ => SILENCE);
      r, w, full, this.resumeAt, consumed := 0, 0, false, resumeAt, 0;
      buffering, wasSilent, done, sourceErr, err := true, false, false, false, false;
    }

    /** One turn of the loop in write, under the lock and with the ring open: it stores what fits. */
    method WriteTurn(samples: seq<Frame>) returns (n: nat)
      requires Consistent()
      modifies this`w, this`full, buf
      ensures Consistent() && Now() == Written(old(Now()), samples) && n == Accepted(old(Now()), samples)
    {
      CountsAgree();
      n := Min(|samples|, Free());
      ghost var held := Available();
      hide Slots, Wrap;
      Store(samples, n, held);
      if n > 0 && w == r {
        full := true;
      }
      HeldNow(r, held + n, buf.Length);
      assert Available() == held + n;
    }

    /** The loop of write: n samples go behind the held frames. */
    method Store(samples: seq<Frame>, n: nat, ghost held: nat)
      requires r < buf.Length && held + n <= buf.Length && n <= |samples| && w < buf.Length
      requires w == Wrap(r + held, buf.Length)
      modifies this`w, buf
      ensures w < buf.Length && w == Wrap(r + held + n, buf.Length)
      ensures Slots(buf[..], r, held + n) == old(Slots(buf[..], r, held)) + samples[..n]
    {
      hide Slots, Wrap;
      ghost var was := Slots(buf[..], r, held);
      assert samples[..0] == [] && was + [] == was;
      for i := 0 to n
        invariant w < buf.Length && w == Wrap(r + held + i, buf.Length)
        invariant Slots(buf[..], r, held + i) == was + samples[..i]
      {
        Push(samples[i], held + i);
        assert was + samples[..i] + [samples[i]] == was + samples[..i + 1];
      }
    }

    method Push(x: Frame, ghost count: nat)
      requires r < buf.Length && count < buf.Length && w < buf.Length && w == Wrap(r + count, buf.Length)
      modifies this`w, buf
      ensures w < buf.Length && w == Wrap(r + count + 1, buf.Length)
      ensures Slots(buf[..], r, count + 1) == old(Slots(buf[..], r, count)) + [x]
    {
      hide Slots, Wrap;
      SlotsPush(buf[..], r, count, x);
      StepAround(w, buf.Length);
      StepWraps(r + count, buf.Length);
      ghost var before := buf[..];
      buf[w] := x;
      assert buf[..] == before[w := x];
      w := (w + 1) % buf.Length;
    }

    method Finish(failed: bool)
      requires Consistent()
      modifies this`done, this`sourceErr
      ensures Consistent() && Now() == Finished(old(Now()), failed)
    {
      done := true;
      sourceErr := failed;
    }

    /** Takes n frames from the ring into samples. */
    method Take(samples: array<Frame>, n: nat)
      requires Consistent() && n <= Available() && n <= samples.Length && samples != buf && Available() > 0
      modifies this`r, this`consumed, this`full, samples
      ensures Consistent() && consumed == old(consumed) + n && !full
      ensures n > 0 || !old(full) ==> Slots(buf[..], r, Available()) == old(Now().buffered)[n..]
      ensures n > 0 || !old(full) ==> Available() == old(Available()) - n
      ensures n == 0 && old(full) ==> Available() == 0
      ensures forall k :: 0 <= k < n ==> samples[k] == old(Now().buffered)[k]
      ensures forall k :: n <= k < samples.Length ==> samples[k] == old(samples[k])
    {
      ghost var held, data, start := Available(), buf[..], r;
      CountsAgree();
      SlotsDrop(data, start, held, n);
      hide Slots;
      r := CopyOut(samples, r, n, held);
      assert buf[..] == data;
      consumed := consumed + n;
      full := false;
      assert n > 0 || !old(full) ==> Available() == held - n;
    }

    /** The loop that copies n slots from start on into samples; it returns the slot behind them. */
    method CopyOut(samples: array<Frame>, start: nat, n: nat, ghost held: nat) returns (next: nat)
      requires start < buf.Length && n <= held <= buf.Length && n <= samples.Length && samples != buf
      modifies samples
      ensures next == Wrap(start + n, buf.Length) < buf.Length
      ensures forall k :: 0 <= k < n ==> samples[k] == Slots(buf[..], start, held)[k]
      ensures forall k :: n <= k < samples.Length ==> samples[k] == old(samples[k])
    {
      ghost var slots := Slots(buf[..], start, held);
      next := start;
      for i := 0 to n
        invariant next == Wrap(start + i, buf.Length) < buf.Length
        invariant forall k :: 0 <= k < i ==> samples[k] == slots[k]
        invariant forall k :: n <= k < samples.Length ==> samples[k] == old(samples[k])
        invariant buf[..] == old(buf[..])
      {
        assert slots[i] == old(buf[..])[next] == buf[next];
        samples[i] := buf[next];
        StepAround(next, buf.Length);
        next := (next + 1) % buf.Length;
      }
    }

    method FadeInLoop(samples: array<Frame>, n: nat)
      requires n <= samples.Length
      modifies samples
      ensures forall k :: 0 <= k < n ==> samples[k] == Scale(old(samples[k]), FadeIn(n, true, k))
      ensures forall k :: n <= k < samples.Length ==> samples[k] == old(samples[k])
    {
      var fade := Min(n, FADE_SAMPLES);
      ghost var was := samples[..];
      forall k | fade <= k < n ensures FadeIn(n, true, k) == 1.0 && Scale(was[k], 1.0) == was[k] {
        FullGain(was[k]);
      }
      assert forall k :: 0 <= k < fade ==> FadeIn(n, true, k) == k as real / fade as real;
      hide Scale, FadeIn;
      for i := 0 to fade
        invariant forall k :: 0 <= k < i ==> samples[k] == Scale(was[k], FadeIn(n, true, k))
        invariant forall k :: i <= k < samples.Length ==> samples[k] == was[k]
      {
        var gain := i as real / fade as real;
        assert gain == FadeIn(n, true, i);
        samples[i] := Scale(samples[i], gain);
      }
    }

    method FadeOutLoop(samples: array<Frame>, n: nat)
      requires n <= samples.Length
      modifies samples
      ensures forall k :: 0 <= k < n ==> samples[k] == Scale(old(samples[k]), FadeOut(n, true, k))
      ensures forall k :: n <= k < samples.Length ==> samples[k] == old(samples[k])
    {
      var fade := Min(n, FADE_SAMPLES);
      ghost var was := samples[..];
      forall k | 0 <= k < n - fade ensures FadeOut(n, true, k) == 1.0 && Scale(was[k], 1.0) == was[k] {
        FullGain(was[k]);
      }
      assert forall k :: n - fade <= k < n ==> FadeOut(n, true, k) == (n - 1 - k) as real / fade as real;
      hide Scale, FadeOut;
      for i := 0 to fade
        invariant forall k :: n - fade <= k < n - fade + i ==> samples[k] == Scale(was[k], FadeOut(n, true, k))
        invariant forall k :: 0 <= k < n - fade ==> samples[k] == was[k]
        invariant forall k :: n - fade + i <= k < samples.Length ==> samples[k] == was[k]
      {
        var gain := (fade - 1 - i) as real / fade as real;
        var idx := n - fade + i;
        assert gain == FadeOut(n, true, idx);
        samples[idx] := Scale(samples[idx], gain);
      }
    }

    static lemma FullGain(f: Frame)
      ensures Scale(f, 1.0) == f
    {
    }

    /** Stream: the whole call, with the array it fills. */
    method Stream(samples: array<Frame>) returns (count: nat, ok: bool)
      requires Consistent() && samples != buf
      modifies this`r, this`full, this`consumed, this`buffering, this`wasSilent, this`err, samples
      ensures Consistent()
      ensures var (t, read) := Streamed(old(Now()), samples.Length);
              && Now() == t && count == read.count && ok == read.ok
              && count == |read.filled| <= samples.Length && samples[..count] == read.filled
              && samples[count..] == old(samples[..])[count..]
    {
      CountsAgree();
      var available := Available();
      if buffering && !done && available < resumeAt {
        ClearFrom(samples, 0);
        wasSilent := true;
        return samples.Length, true;
      }
      if available == 0 {
        if done {
          err := sourceErr;
          return 0, false;
        }
        ClearFrom(samples, 0);
        buffering := true;
        wasSilent := true;
        return samples.Length, true;
      }
      count, ok := Deliver(samples, available);
    }

    method ClearFrom(samples: array<Frame>, from: nat)
      requires from <= samples.Length
      modifies samples
      ensures samples[..] == old(samples[..from]) + Silence(samples.Length - from)
    {
      for i := from to samples.Length
        invariant forall k :: 0 <= k < from ==> samples[k] == old(samples[k])
        invariant forall k :: from <= k < i ==> samples[k] == SILENCE
      {
        samples[i] := SILENCE;
      }
    }

    static lemma HeardIsDelivered(filled: seq<Frame>, s: State, len: nat)
      requires |filled| == Min(len, |s.buffered|) && forall k :: 0 <= k < |filled| ==> filled[k] == Heard(s, len, k)
      ensures filled == Delivered(s, len)
    {
      hide Heard;
    }

    /** The first half of a delivery: the frames, faded in behind a silence. */
    method TakeFadedIn(samples: array<Frame>, n: nat)
      requires Consistent() && n <= Available() && n <= samples.Length && samples != buf && Available() > 0
      modifies this`r, this`consumed, this`full, samples
      ensures Consistent() && consumed == old(consumed) + n
      ensures Slots(buf[..], r, Available()) == if n == 0 && old(full) then [] else old(Now().buffered)[n..]
      ensures forall k :: 0 <= k < n ==> samples[k] == Scale(old(Now().buffered)[k], FadeIn(n, wasSilent, k))
      ensures samples[n..] == old(samples[n..])
    {
      Take(samples, n);
      hide Slots, Scale, FadeIn;
      if wasSilent {
        FadeInLoop(samples, n);
      } else {
        forall k | 0 <= k < n ensures samples[k] == Scale(samples[k], FadeIn(n, false, k)) {
          NoFadeIn(samples[k], n, k);
        }
      }
    }

    static lemma NoFadeIn(f: Frame, n: nat, k: nat)
      requires k < n
      ensures Scale(f, FadeIn(n, false, k)) == f
    {
    }

    static lemma NoFadeOut(f: Frame, n: nat, k: nat)
      requires k < n
      ensures Scale(f, FadeOut(n, false, k)) == f
    {
    }

    /** The second half: fade out into what is missing, except at the clean end, where nothing is changed. */
    method FinishFades(samples: array<Frame>, n: nat, ending: bool, ghost s: State)
      requires n == Min(samples.Length, |s.buffered|)
      requires (ending <==> n < samples.Length && !EndsCleanly(s, samples.Length))
      requires forall k :: 0 <= k < n ==> samples[k] == Scale(s.buffered[k], FadeIn(n, s.wasSilent, k))
      modifies samples
      ensures samples[..n] == Delivered(s, samples.Length) && samples[n..] == old(samples[n..])
    {
      hide Scale, FadeIn, FadeOut, EndsCleanly;
      if ending {
        FadeOutLoop(samples, n);
      } else {
        forall k | 0 <= k < n ensures samples[k] == Scale(samples[k], FadeOut(n, false, k)) {
          NoFadeOut(samples[k], n, k);
        }
      }
      HeardIsDelivered(samples[..n], s, samples.Length);
    }

    /** Stream past its two early returns: there are frames to hand out. */
    method Deliver(samples: array<Frame>, available: nat) returns (count: nat, ok: bool)
      requires Consistent() && samples != buf && available == Available() > 0 && !Paused(Now())
      modifies this`r, this`full, this`consumed, this`buffering, this`wasSilent, samples
      ensures Consistent()
      ensures var (t, read) := Streamed(old(Now()), samples.Length);
              && Now() == t && count == read.count && ok == read.ok
              && count == |read.filled| <= samples.Length && samples[..count] == read.filled
              && samples[count..] == old(samples[..])[count..]
    {
      hide Slots, Scale, FadeIn, FadeOut, Delivered, Paused, Silence;
      ghost var s := Now();
      buffering := false;
      var n := Min(samples.Length, available);
      TakeFadedIn(samples, n);
      var short := samples.Length - n;
      var ended := short > 0 && done && !sourceErr;
      assert ended <==> EndsCleanly(s, samples.Length);
      hide EndsCleanly, LosesRing;
      FinishFades(samples, n, short > 0 && !ended, s);
      if ended {
        return n, true;
      }
      ClearFrom(samples, n);
      wasSilent := short > 0;
      if short > 0 && !done {
        buffering := true;
      }
      return samples.Length, true;
    }
  }
}
