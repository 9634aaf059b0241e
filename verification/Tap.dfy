/**
 The visualizer tap of player/tap.go: a ring that keeps the newest frames, read at the position that is audible.

 The wall clock is a parameter of the waveform read, as the number of frames since the last write. Samples are reals,
 and writes and reads alternate: the tearing the source accepts between its two threads is not modelled.
 */
module Tap {
  import opened Common

  /** Both channels in equal parts. */
  function Mono(f: Frame): (r: real)
    ensures r + r == f.left + f.right
  {
    (f.left + f.right) / 2.0
  }

  function Monos(frames: seq<Frame>): (r: seq<real>)
    ensures |r| == |frames|
  {
    seq(|frames|, i requires 0 <= i < |frames| => Mono(frames[i]))
  }

  const MAX_ANALYSIS_WINDOW := 8192

  function TapRingFrames(speakerFrames: int): int {
    Max(4096, speakerFrames + MAX_ANALYSIS_WINDOW)
  }

  // ---- The ring ----

  /** Frame k goes to this slot of a ring of n. */
  function Slot(k: nat, n: nat): (slot: nat)
    requires n > 0
    ensures slot < n
  {
    k % n
  }

  lemma SlotIs(k: nat, n: nat)
    requires n > 0
    ensures k % n == Slot(k, n)
  {
  }

  lemma Scaled(n: nat, q: int, c: int)
    ensures q <= c ==> n * q <= n * c
    ensures q >= c ==> n * q >= n * c
  {
    if q <= c {
      NonNegativeProduct(n, c - q);
    } else {
      NonNegativeProduct(n, q - c);
    }
    assert n * (c - q) == n * c - n * q;
  }

  lemma NonNegativeProduct(a: int, b: int)
    requires a >= 0 && b >= 0
    ensures a * b >= 0
  {
  }

  lemma SameSlot(a: nat, b: nat, n: nat)
    requires n > 0 && a <= b && Slot(a, n) == Slot(b, n)
    ensures a == b || b - a >= n
  {
    var q := b / n - a / n;
    assert b - a == n * q;
    Scaled(n, q, 1);
    Scaled(n, q, 0);
  }

  /** Slots follow one another, and slot 0 follows the last. */
  lemma SlotFrom(x: nat, i: nat, n: nat)
    requires n > 0 && i <= n
    ensures Slot(x + i, n) == if Slot(x, n) + i < n then Slot(x, n) + i else Slot(x, n) + i - n
  {
    var r := x % n + i;
    var q := (x + i) / n - x / n;
    assert n * q + (x + i) % n == r;
    Scaled(n, q, -1);
    Scaled(n, q, 0);
    Scaled(n, q, 1);
    Scaled(n, q, 2);
  }

  lemma NextSlot(x: nat, n: nat)
    requires n > 0
    ensures (Slot(x, n) + 1) % n == Slot(x + 1, n)
  {
    SlotFrom(x, 1, n);
    if Slot(x, n) + 1 < n {
      Small(Slot(x, n) + 1, n);
    }
  }

  lemma Small(x: nat, n: nat)
    requires x < n
    ensures x % n == x
  {
  }

  /** After all of frames was written, slot k mod the ring's size holds frame k, for the newest frames. */
  ghost predicate Mirrors(ring: seq<Frame>, frames: seq<Frame>) {
    && |ring| > 0
    && forall k :: 0 <= k < |frames| && |frames| - |ring| <= k ==> ring[Slot(k, |ring|)] == frames[k]
  }

  lemma MirrorStep(ring: seq<Frame>, frames: seq<Frame>, x: Frame)
    requires Mirrors(ring, frames)
    ensures Mirrors(ring[Slot(|frames|, |ring|) := x], frames + [x])
  {
    var n, m := |ring|, |frames|;
    var t := ring[Slot(m, n) := x];
    forall k | 0 <= k < m + 1 && m + 1 - n <= k ensures t[Slot(k, n)] == (frames + [x])[k] {
      if k < m && Slot(k, n) == Slot(m, n) {
        SameSlot(k, m, n);
        assert false;
      }
    }
  }

  /** The newest frame that was written to slot k mod n. */
  function Newest(k: nat, written: nat, n: nat): (j: nat)
    requires n > 0 && k < written
    ensures k <= j < written <= j + n && Slot(j, n) == Slot(k, n) && (j == k <==> written <= k + n)
    decreases written - k
  {
    if written <= k + n then k
    else
      SlotFrom(k, n, n);
      Newest(k + n, written, n)
  }

  /** When no two frames are alike, the ring still holds frame k exactly if less than a turn was written behind it. */
  lemma HoldsFrame(ring: seq<Frame>, frames: seq<Frame>, k: nat)
    requires Mirrors(ring, frames) && k < |frames|
    requires forall i, j :: 0 <= i < j < |frames| ==> frames[i] != frames[j]
    ensures ring[Slot(k, |ring|)] == frames[k] <==> |frames| <= k + |ring|
  {
    var j := Newest(k, |frames|, |ring|);
    assert ring[Slot(j, |ring|)] == frames[j];
  }

  // ---- The window ----

  /** The frame behind the last one that can be heard. */
  function AudibleEnd(written: nat, speakerFrames: nat, elapsed: int): (end: int)
    ensures 0 <= end <= written
  {
    if speakerFrames == 0 then written else Max(0, Min(written - speakerFrames + Max(0, elapsed), written))
  }

  /**
   With a lag the last frame heard is that many behind the newest when a write ends, and from then on one more is
   heard with every frame that passes, up to the newest; without a lag the newest is heard at once.
   */
  lemma AudibleEndAdvances(written: nat, speakerFrames: nat, elapsed: nat)
    ensures speakerFrames <= written ==>
              AudibleEnd(written, speakerFrames, elapsed)
              == if elapsed <= speakerFrames then written - (speakerFrames - elapsed) else written
    ensures written < speakerFrames ==>
              AudibleEnd(written, speakerFrames, elapsed)
              == if elapsed <= speakerFrames - written then 0
                 else if elapsed <= speakerFrames then written + elapsed - speakerFrames else written
    ensures forall early: int :: early < 0 ==>
              AudibleEnd(written, speakerFrames, early) == AudibleEnd(written, speakerFrames, 0)
  {
  }

  /** How many frames a read of len samples ending at end covers. */
  function WindowLength(len: nat, size: nat, end: int): (n: int)
  {
    if end <= 0 then 0 else Min(Min(len, size), end)
  }

  ghost predicate NeverStale(size: nat, speakerFrames: nat) {
    forall written: nat, elapsed, len: nat | len <= MAX_ANALYSIS_WINDOW ::
      WindowIntact(size, speakerFrames, written, elapsed, len)
  }

  /** No frame of the window has been overwritten. */
  ghost predicate WindowIntact(size: nat, speakerFrames: nat, written: nat, elapsed: int, len: nat) {
    var end := AudibleEnd(written, speakerFrames, elapsed);
    var n := WindowLength(len, size, end);
    n == 0 || written <= end - n + size
  }

  /**
   The ring must hold the speaker's lag and a whole analysis window: a ring of that size never hands out an
   overwritten frame, and any smaller one does.
   */
  lemma RingMustHoldLagAndWindow(size: nat, speakerFrames: nat)
    requires speakerFrames > 0
    ensures NeverStale(size, speakerFrames) <==> size == 0 || size >= speakerFrames + MAX_ANALYSIS_WINDOW
  {
    if 0 < size < speakerFrames + MAX_ANALYSIS_WINDOW {
      var written := speakerFrames + MAX_ANALYSIS_WINDOW;
      assert !WindowIntact(size, speakerFrames, written, 0, MAX_ANALYSIS_WINDOW);
    }
  }

  /** tapRingFrames gives exactly that size; its floor of 4096 is never what decides. */
  lemma RingFramesSuffice(speakerFrames: nat)
    ensures NeverStale(TapRingFrames(speakerFrames), speakerFrames)
    ensures TapRingFrames(speakerFrames) == speakerFrames + MAX_ANALYSIS_WINDOW
  {
    if speakerFrames > 0 {
      RingMustHoldLagAndWindow(TapRingFrames(speakerFrames), speakerFrames);
    }
  }

  class Tap {
    const buf: array<Frame>
    var pos: nat
    var written: nat
    const sampleRate: int
    const speakerFrames: nat
    // All frames ever written, oldest first.
    ghost var frames: seq<Frame>

    ghost predicate Valid()
      reads this, buf
    {
      written == |frames| && Mirrors(buf[..], frames) && pos == Slot(written, buf.Length)
    }

    constructor (bufSize: nat, sampleRate: int, speakerFrames: int)
      requires bufSize > 0
      ensures Valid() && frames == [] && buf.Length == bufSize && fresh(buf)
      ensures this.sampleRate == sampleRate && this.speakerFrames == Max(0, speakerFrames)
    {
      buf := new Frame[bufSize](_ => Frame(0.0, 0.0));
      pos, written, frames := 0, 0, [];
      this.sampleRate, this.speakerFrames := sampleRate, Max(0, speakerFrames);
    }

    /** Stream, when the source below has filled in samples. */
    method Stream(samples: seq<Frame>)
      requires Valid()
      modifies this`pos, this`written, this`frames, buf
      ensures Valid() && frames == old(frames) + samples
    {
      var p := pos;
      assert frames + samples[..0] == frames;
      hide Mirrors, Slot;
      for i := 0 to |samples|
        invariant unchanged(this) && buf.Length > 0
        invariant p == Slot(written + i, buf.Length)
        invariant Mirrors(buf[..], frames + samples[..i])
      {
        ghost var ring := buf[..];
        MirrorStep(ring, frames + samples[..i], samples[i]);
        buf[p] := samples[i];
        assert buf[..] == ring[p := samples[i]];
        assert frames + samples[..i + 1] == frames + samples[..i] + [samples[i]];
        NextSlot(written + i, buf.Length);
        p := (p + 1) % buf.Length;
      }
      assert samples[..|samples|] == samples;
      pos := p;
      written := written + |samples|;
      frames := frames + samples;
    }

    /** got is the mono mix of the ring from start on, around its end. */
    static ghost predicate Unrolled(ring: seq<Frame>, start: nat, got: seq<real>)
      requires start < |ring| && |got| <= |ring|
    {
      forall k :: 0 <= k < |got| ==> got[k] == Mono(ring[if start + k < |ring| then start + k else start + k - |ring|])
    }

    /** The loops of samplesIntoAt: up to the end of the ring, then on from its start. */
    method MonoInto(dst: array<real>, start: nat, n: nat)
      requires start < buf.Length && n <= buf.Length && n <= dst.Length
      modifies dst
      ensures Unrolled(buf[..], start, dst[..n])
      ensures dst[n..] == old(dst[..])[n..]
    {
      hide Mono;
      var first := Min(n, buf.Length - start);
      for i := 0 to first
        invariant forall k :: 0 <= k < i ==> dst[k] == Mono(buf[start + k])
        invariant forall k :: i <= k < dst.Length ==> dst[k] == old(dst[k])
      {
        dst[i] := Mono(buf[start + i]);
      }
      for i := 0 to n - first
        invariant forall k :: 0 <= k < first ==> dst[k] == Mono(buf[start + k])
        invariant forall k :: first <= k < first + i ==> dst[k] == Mono(buf[k - first])
        invariant forall k :: first + i <= k < dst.Length ==> dst[k] == old(dst[k])
      {
        dst[first + i] := Mono(buf[i]);
      }
    }

    /** samplesIntoAt: the frames before end, as far as they have not been overwritten. */
    method SamplesIntoAt(dst: array<real>, end: int) returns (n: nat)
      requires Valid() && end <= written
      modifies dst
      ensures n == WindowLength(dst.Length, buf.Length, end)
      ensures forall k :: 0 <= k < n ==> dst[k] == Mono(buf[Slot(end - n + k, buf.Length)])
      ensures n > 0 && written <= end - n + buf.Length ==> dst[..n] == Monos(frames[end - n..end])
      ensures dst[n..] == old(dst[..])[n..]
    {
      hide Slot, Mono, Mirrors, Unrolled;
      n := Min(dst.Length, buf.Length);
      if n == 0 || end <= 0 {
        return 0;
      }
      n := Min(n, end);
      var start := (end - n) % buf.Length;
      SlotIs(end - n, buf.Length);
      MonoInto(dst, start, n);
      MonosFrom(buf[..], dst[..n], end - n);
      if written <= end - n + buf.Length {
        MonosOf(buf[..], frames, dst[..n], end - n);
      }
    }

    /** The slots behind the first are those of the frames behind it, around the ring. */
    static lemma MonosFrom(ring: seq<Frame>, got: seq<real>, from: nat)
      requires |got| <= |ring| && |ring| > 0 && Unrolled(ring, Slot(from, |ring|), got)
      ensures forall k :: 0 <= k < |got| ==> got[k] == Mono(ring[Slot(from + k, |ring|)])
    {
      hide Slot, Mono;
      forall k | 0 <= k < |got| ensures got[k] == Mono(ring[Slot(from + k, |ring|)]) {
        SlotFrom(from, k, |ring|);
      }
    }

    /** The mono mix of what a window of the ring holds, while it is intact. */
    static lemma MonosOf(ring: seq<Frame>, frames: seq<Frame>, got: seq<real>, from: nat)
      requires Mirrors(ring, frames) && from + |got| <= |frames| <= from + |ring|
      requires forall k :: 0 <= k < |got| ==> got[k] == Mono(ring[Slot(from + k, |ring|)])
      ensures got == Monos(frames[from..from + |got|])
    {
      hide Slot, Mono;
      forall k | 0 <= k < |got| ensures got[k] == Mono(frames[from + k]) {
        assert ring[Slot(from + k, |ring|)] == frames[from + k];
      }
    }

    /** SamplesInto: the newest frames. */
    method SamplesInto(dst: array<real>) returns (n: nat)
      requires Valid()
      modifies dst
      ensures n == Min(Min(dst.Length, buf.Length), written)
      ensures dst[..n] == Monos(frames[written - n..]) && dst[n..] == old(dst[..])[n..]
    {
      n := SamplesIntoAt(dst, written);
    }

    /** WaveformSamplesInto, elapsed frames after the last write: consecutive frames up to the audible position. */
    method WaveformSamplesInto(dst: array<real>, elapsed: int) returns (n: nat)
      requires Valid() && buf.Length == TapRingFrames(speakerFrames) && dst.Length <= MAX_ANALYSIS_WINDOW
      modifies dst
      ensures var end := AudibleEnd(written, speakerFrames, elapsed);
              && n == (if sampleRate <= 0 then 0 else Min(dst.Length, end))
              && dst[..n] == Monos(frames[end - n..end]) && dst[n..] == old(dst[..])[n..]
    {
      if written == 0 || sampleRate <= 0 {
        return 0;
      }
      RingFramesSuffice(speakerFrames);
      assert WindowIntact(buf.Length, speakerFrames, written, elapsed, dst.Length);
      if speakerFrames <= 0 {
        n := SamplesIntoAt(dst, written);
        return;
      }
      var end := written - speakerFrames + Max(0, elapsed);
      end := Max(0, Min(end, written));
      n := SamplesIntoAt(dst, end);
    }
  }
}
