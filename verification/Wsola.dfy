/**
 The offset search of the time stretcher in player/speed.go: a coarse pass that keeps the eight best offsets, and
 a full-resolution pass around them. The search is proved for any score; what the score itself promises comes last.
 Samples and scores are reals.
 */
module Wsola {
  import opened Common

  const OVERLAP := 512
  const WINDOW := 4096
  const SEARCH := 1024
  const COARSE := 8
  const TOP := 8

  datatype Candidate = Candidate(off: int, score: real)

  /** The score of an offset, at a stride through the overlap. */
  type Score = (int, int) -> real

  // ---- The coarse pass ----

  /** a ranks above b: a higher score, or the same score at a lower offset. */
  predicate Before(a: Candidate, b: Candidate) {
    a.score > b.score || (a.score == b.score && a.off < b.off)
  }

  function Scored(score: Score, off: int): Candidate {
    Candidate(off, score(off, COARSE))
  }

  ghost predicate Ranked(top: seq<Candidate>) {
    forall j, k :: 0 <= j < k < |top| ==> Before(top[j], top[k])
  }

  /** top holds c, or has no place left for it. */
  ghost predicate Covers(top: seq<Candidate>, c: Candidate) {
    c in top || (|top| == TOP && Before(top[TOP - 1], c))
  }

  /** top is the ranking of the eight best offsets in [lo, end) that score above zero, or of all if they are fewer. */
  ghost predicate IsTop(top: seq<Candidate>, lo: int, end: int, score: Score) {
    && |top| <= TOP && Ranked(top)
    && (forall k :: 0 <= k < |top| ==>
       lo <= top[k].off < end && top[k] == Scored(score, top[k].off) && top[k].score > 0.0)
    && (forall off :: lo <= off < end && Scored(score, off).score > 0.0 ==> Covers(top, Scored(score, off)))
  }

  /** There is only one such ranking. */
  lemma TopIsDetermined(a: seq<Candidate>, b: seq<Candidate>, lo: int, end: int, score: Score)
    requires IsTop(a, lo, end, score) && IsTop(b, lo, end, score)
    ensures a == b
  {
    var i := 0;
    while i < |a| && i < |b|
      invariant i <= |a| && i <= |b| && a[..i] == b[..i]
    {
      if Before(a[i], b[i]) {
        NotLeftOut(a, b, lo, end, score, i);
      } else if Before(b[i], a[i]) {
        NotLeftOut(b, a, lo, end, score, i);
      }
      assert a[i] == b[i];
      assert a[..i + 1] == a[..i] + [a[i]] && b[..i + 1] == b[..i] + [b[i]];
      i := i + 1;
    }
    assert a[..i] == b[..i];
    if i < |a| {
      NotLonger(a, b, lo, end, score);
    } else if i < |b| {
      NotLonger(b, a, lo, end, score);
    }
  }

  lemma NotLeftOut(a: seq<Candidate>, b: seq<Candidate>, lo: int, end: int, score: Score, i: nat)
    requires IsTop(a, lo, end, score) && IsTop(b, lo, end, score)
    requires i < |a| && i < |b| && a[..i] == b[..i]
    ensures !Before(a[i], b[i])
  {
    assert Covers(b, Scored(score, a[i].off));
    forall m | 0 <= m < i ensures a[m] == b[m] {
      assert a[..i][m] == b[..i][m];
    }
  }

  lemma NotLonger(a: seq<Candidate>, b: seq<Candidate>, lo: int, end: int, score: Score)
    requires IsTop(a, lo, end, score) && IsTop(b, lo, end, score) && |b| <= |a| && a[..|b|] == b
    ensures |a| == |b|
  {
    forall m | 0 <= m < |b| ensures a[m] == b[m] {
      assert a[..|b|][m] == b[m];
    }
    assert |b| < |a| ==> Covers(b, Scored(score, a[|b|].off));
  }

  /** Where c belongs: behind all that rank above it. */
  ghost predicate Fits(top: seq<Candidate>, at: nat, c: Candidate) {
    && at <= |top|
    && (forall k :: 0 <= k < at ==> !Before(c, top[k]))
    && (at < |top| ==> Before(c, top[at]))
  }

  function Inserted(top: seq<Candidate>, at: nat, c: Candidate): (r: seq<Candidate>)
    requires at <= |top| && at < TOP && |top| <= TOP
    ensures |r| == Min(|top| + 1, TOP)
    ensures forall k :: 0 <= k < |r| ==> r[k] == if k < at then top[k] else if k == at then c else top[k - 1]
  {
    (top[..at] + [c] + top[at..])[..Min(|top| + 1, TOP)]
  }

  lemma InsertedRanked(top: seq<Candidate>, at: nat, c: Candidate)
    requires Ranked(top) && |top| <= TOP && at < TOP && Fits(top, at, c)
    requires forall k :: 0 <= k < |top| ==> top[k].off != c.off
    ensures Ranked(Inserted(top, at, c))
    ensures forall d :: Covers(top, d) ==> Covers(Inserted(top, at, c), d)
    ensures Covers(Inserted(top, at, c), c)
  {
    var r := Inserted(top, at, c);
    assert r[at] == c;
    forall d | Covers(top, d) ensures Covers(r, d) {
      if d in top {
        var m :| 0 <= m < |top| && top[m] == d;
        if m < at {
          assert r[m] == d;
        } else if m + 1 < |r| {
          assert r[m + 1] == d;
        }
      }
    }
  }

  /** One turn of the coarse loop keeps the ranking of the offsets before off, and takes off into it. */
  lemma InsertKeepsTop(top: seq<Candidate>, lo: int, off: int, score: Score, at: nat)
    requires IsTop(top, lo, off, score) && lo <= off && Scored(score, off).score > 0.0
    requires Fits(top, at, Scored(score, off))
    ensures at < TOP ==> IsTop(Inserted(top, at, Scored(score, off)), lo, off + 1, score)
    ensures at >= TOP ==> IsTop(top, lo, off + 1, score)
  {
    hide Ranked, Covers;
    var c := Scored(score, off);
    if at < TOP {
      InsertedRanked(top, at, c);
    } else {
      FullRanking(top, c);
    }
  }

  lemma FullRanking(top: seq<Candidate>, c: Candidate)
    requires |top| == TOP && Fits(top, TOP, c) && top[TOP - 1].off != c.off
    ensures Covers(top, c)
  {
  }

  /** The loop that looks for the first candidate c ranks above. */
  method InsertionIndex(top: array<Candidate>, topN: nat, off: int, score: real) returns (at: nat)
    requires topN <= top.Length
    ensures Fits(top[..topN], at, Candidate(off, score))
  {
    at := topN;
    for i := 0 to topN
      invariant at == topN
      invariant forall k :: 0 <= k < i ==> !Before(Candidate(off, score), top[k])
    {
      if score > top[i].score || (score == top[i].score && off < top[i].off) {
        at := i;
        break;
      }
    }
  }

  /** The shifting insertion: candidates from at on move down by one, and the last falls out of a full array. */
  method Insert(top: array<Candidate>, topN: nat, at: nat, c: Candidate) returns (n: nat)
    requires top.Length == TOP && topN <= TOP && at <= topN && at < TOP
    modifies top
    ensures n <= TOP && top[..n] == Inserted(old(top[..topN]), at, c)
  {
    ghost var was := top[..topN];
    n := if topN < TOP then topN + 1 else topN;
    var i := n - 1;
    while i > at
      invariant at <= i < n
      invariant forall k :: 0 <= k <= i && k < topN ==> top[k] == was[k]
      invariant forall k :: i < k < n ==> top[k] == was[k - 1]
    {
      top[i] := top[i - 1];
      i := i - 1;
    }
    top[at] := c;
  }

  method CoarsePass(score: Score, lo: int, hi: int) returns (top: array<Candidate>, topN: nat)
    requires lo <= hi
    ensures fresh(top) && topN <= top.Length && IsTop(top[..topN], lo, hi + 1, score)
  {
    top := new Candidate[TOP](_ => Candidate(0, 0.0));
    topN := 0;
    for off := lo to hi + 1
      invariant top.Length == TOP && topN <= TOP && IsTop(top[..topN], lo, off, score)
    {
      hide Inserted, Fits;
      var s := score(off, COARSE);
      if s <= 0.0 {
        continue;
      }
      var at := InsertionIndex(top, topN, off, s);
      InsertKeepsTop(top[..topN], lo, off, score, at);
      if at >= TOP {
        continue;
      }
      FitsInside(top[..topN], at, Scored(score, off));
      topN := Insert(top, topN, at, Candidate(off, s));
    }
  }

  lemma FitsInside(top: seq<Candidate>, at: nat, c: Candidate)
    requires Fits(top, at, c)
    ensures at <= |top|
  {
  }

  // ---- The full pass ----

  /** The full pass moves from b to a. */
  predicate Better(score: Score, a: int, b: int) {
    score(a, 1) > score(b, 1) || (score(a, 1) == score(b, 1) > 0.0 && a < b)
  }

  predicate Near(c: Candidate, off: int) {
    c.off - COARSE < off < c.off + COARSE
  }

  /** The offsets the full pass looks at: those next to a candidate, or all if there is none. */
  ghost predicate Examined(top: seq<Candidate>, lo: int, hi: int, off: int) {
    lo <= off <= hi && (top == [] || exists k :: 0 <= k < |top| && Near(top[k], off))
  }

  /**
   best is where the search ends: nothing examined is better, and it is where it started unless it is better than that.
   */
  ghost predicate IsBest(score: Score, top: seq<Candidate>, lo: int, hi: int, from: int, best: int) {
    && (best == from || (Examined(top, lo, hi, best) && Better(score, best, from)))
    && forall off :: Examined(top, lo, hi, off) ==> !Better(score, off, best)
  }

  /** Scanning [from, end] from a best offset so far. */
  method Scan(score: Score, first: int, last: int, from: int) returns (best: int)
    ensures best == from || (first <= best <= last && Better(score, best, from))
    ensures forall off :: first <= off <= last ==> !Better(score, off, best)
    ensures forall off :: !Better(score, off, from) ==> !Better(score, off, best)
  {
    best := from;
    var bestScore := score(best, 1);
    var off := first;
    while off <= last
      invariant bestScore == score(best, 1)
      invariant best == from || (first <= best <= last && Better(score, best, from))
      invariant forall k :: first <= k < off ==> !Better(score, k, best)
      decreases last - off
    {
      var s := score(off, 1);
      ghost var was := best;
      if s > bestScore || (s == bestScore && s > 0.0 && off < best) {
        best, bestScore := off, s;
      }
      forall k | first <= k < off ensures !Better(score, k, best) {
        assert !Better(score, k, was);
      }
      off := off + 1;
    }
  }

  method Refine(score: Score, top: array<Candidate>, topN: nat, lo: int, hi: int, from: int) returns (best: int)
    requires topN <= top.Length && lo <= from <= hi
    ensures IsBest(score, top[..topN], lo, hi, from, best) && lo <= best <= hi
  {
    best := from;
    for k := 0 to topN
      invariant lo <= best <= hi
      invariant best == from || (Better(score, best, from) && exists j :: 0 <= j < k && Near(top[j], best))
      invariant forall off, j :: 0 <= j < k && lo <= off <= hi && Near(top[j], off) ==> !Better(score, off, best)
    {
      best := Scan(score, Max(lo, top[k].off - COARSE + 1), Min(hi, top[k].off + COARSE - 1), best);
    }
    if topN == 0 {
      best := Scan(score, lo, hi, best);
    }
  }

  function LowestOffset(inN: nat, expected: int): int {
    Min(Max(0, expected - SEARCH), Max(0, inN - WINDOW))
  }

  function HighestOffset(inN: nat, expected: int): (hi: int)
    ensures 0 <= LowestOffset(inN, expected) <= hi <= Max(0, inN - WINDOW)
  {
    Max(Min(Max(0, inN - WINDOW), expected + SEARCH), LowestOffset(inN, expected))
  }

  function Clamped(expected: int, lo: int, hi: int): int {
    Min(Max(expected, lo), hi)
  }

  /** best is a result of the search: the best offset next to the candidates of the coarse pass. */
  ghost predicate IsFound(score: Score, inN: nat, expected: int, best: int) {
    var lo, hi := LowestOffset(inN, expected), HighestOffset(inN, expected);
    && lo <= best <= hi
    && exists top :: IsTop(top, lo, hi + 1, score) && IsBest(score, top, lo, hi, Clamped(expected, lo, hi), best)
  }

  method SearchBestOffset(score: Score, inN: nat, expected: int) returns (best: int)
    ensures IsFound(score, inN, expected, best)
  {
    var maxOff := Max(0, inN - WINDOW);
    var lo := Min(Max(0, expected - SEARCH), maxOff);
    var hi := Max(Min(maxOff, expected + SEARCH), lo);
    var kept, keptN := CoarsePass(score, lo, hi);
    ghost var top := kept[..keptN];
    best := Refine(score, kept, keptN, lo, hi, Min(Max(expected, lo), hi));
    assert IsTop(top, lo, hi + 1, score) && IsBest(score, top, lo, hi, Clamped(expected, lo, hi), best);
  }

  /** off has a whole window behind it and lies within 1024 of expected, or as close to it as that allows. */
  ghost predicate InReach(inN: nat, expected: int, off: int) {
    var last := if inN > 4096 then inN - 4096 else 0;
    && 0 <= off <= last
    && if expected > last + 1024 then off == last
       else if expected < -1024 then off == 0
       else -1024 <= off - expected <= 1024
  }

  /** The full pass looks at what is in reach and within seven of a candidate, or all in reach if there is none. */
  lemma SearchLooksAt(top: seq<Candidate>, inN: nat, expected: int, off: int)
    ensures Examined(top, LowestOffset(inN, expected), HighestOffset(inN, expected), off)
            <==> InReach(inN, expected, off) && (top == [] || exists k :: 0 <= k < |top| && -7 <= off - top[k].off <= 7)
  {
    RangeIsReach(inN, expected, off);
    hide LowestOffset, HighestOffset, InReach;
    forall k | 0 <= k < |top| ensures Near(top[k], off) <==> -7 <= off - top[k].off <= 7 {
    }
  }

  lemma RangeIsReach(inN: nat, expected: int, off: int)
    ensures LowestOffset(inN, expected) <= off <= HighestOffset(inN, expected) <==> InReach(inN, expected, off)
  {
  }

  /** A search never ends below the expected offset or below anything within seven of a candidate. */
  lemma BestScoresHighest(score: Score, top: seq<Candidate>, lo: int, hi: int, from: int, best: int, off: int)
    requires IsBest(score, top, lo, hi, from, best)
    requires off == from || Examined(top, lo, hi, off)
    ensures score(best, 1) >= score(off, 1)
    ensures score(best, 1) == score(off, 1) > 0.0 ==> best <= off
  {
    if off == from && best != from {
      assert Better(score, best, from);
    } else {
      assert off != from ==> !Better(score, off, best);
    }
  }

  /**
   With scores that are never negative, the search has one possible outcome; a silent match leaves the expected offset.
   */
  lemma BestIsDetermined(score: Score, top: seq<Candidate>, lo: int, hi: int, from: int, a: int, b: int)
    requires forall off :: score(off, 1) >= 0.0
    requires IsBest(score, top, lo, hi, from, a) && IsBest(score, top, lo, hi, from, b)
    ensures a == b
    ensures score(a, 1) == 0.0 ==> a == from
  {
  }

  // ---- The score ----

  function Dot(a: Frame, b: Frame): real {
    a.left * b.left + a.right * b.right
  }

  /** The correlation of a and b over the frames i, i + stride, ... */
  function Corr(a: seq<Frame>, b: seq<Frame>, i: nat, stride: nat): real
    requires |a| == |b| && stride > 0
    decreases |a| - i
  {
    if i >= |a| then 0.0 else Dot(a[i], b[i]) + Corr(a, b, i + stride, stride)
  }

  const SILENT := 0.000000001

  function Ratio(corr: real, norm: real): real
    requires norm > 0.0
  {
    corr * corr / norm
  }

  function OffsetScore(tail: seq<Frame>, src: seq<Frame>, stride: nat): real
    requires |tail| == |src| && stride > 0
  {
    var corr, norm := Corr(tail, src, 0, stride), Corr(src, src, 0, stride);
    if norm < SILENT || corr <= 0.0 then 0.0 else Ratio(corr, norm)
  }

  method ScoreOffset(tail: seq<Frame>, input: array<Frame>, off: nat, stride: nat) returns (r: real)
    requires |tail| == OVERLAP && off + OVERLAP <= input.Length && stride > 0
    ensures r == OffsetScore(tail, input[off..off + OVERLAP], stride)
  {
    ghost var src := input[off..off + OVERLAP];
    var corr, norm, i := 0.0, 0.0, 0;
    while i < OVERLAP
      invariant corr + Corr(tail, src, i, stride) == Corr(tail, src, 0, stride)
      invariant norm + Corr(src, src, i, stride) == Corr(src, src, 0, stride)
      decreases OVERLAP - i
    {
      assert src[i] == input[off + i];
      corr := corr + (tail[i].left * input[off + i].left + tail[i].right * input[off + i].right);
      norm := norm + (input[off + i].left * input[off + i].left + input[off + i].right * input[off + i].right);
      i := i + stride;
    }
    if norm < SILENT || corr <= 0.0 {
      return 0.0;
    }
    return corr * corr / norm;
  }

  /** The score the search runs with: offsets are scored on the frames behind them. */
  function ScoreAt(tail: seq<Frame>, input: seq<Frame>): Score {
    (off, stride) =>
      if |tail| == OVERLAP && 0 <= off && off + OVERLAP <= |input| && stride > 0
      then OffsetScore(tail, input[off..off + OVERLAP], stride) else 0.0
  }

  /** Every offset in the search range has a whole overlap behind it. */
  lemma InRange(input: seq<Frame>, inN: nat, expected: int, off: int)
    requires inN <= |input| && WINDOW <= |input|
    requires LowestOffset(inN, expected) <= off <= HighestOffset(inN, expected)
    ensures 0 <= off && off + OVERLAP <= |input|
  {
  }

  /**
   The search for the tail in the input has one possible result. If nothing in range scores above zero, it is the
   clamped expected offset, and a result that scores zero is that offset, too.
   */
  lemma MatchIsDetermined(tail: seq<Frame>, input: seq<Frame>, inN: nat, expected: int, a: int, b: int)
    requires IsFound(ScoreAt(tail, input), inN, expected, a) && IsFound(ScoreAt(tail, input), inN, expected, b)
    ensures a == b
    ensures var lo, hi, score := LowestOffset(inN, expected), HighestOffset(inN, expected), ScoreAt(tail, input);
            && (score(a, 1) == 0.0 ==> a == Clamped(expected, lo, hi))
            && ((forall off :: lo <= off <= hi ==> score(off, 1) == 0.0) ==> a == Clamped(expected, lo, hi))
  {
    var score := ScoreAt(tail, input);
    var lo, hi := LowestOffset(inN, expected), HighestOffset(inN, expected);
    var from := Clamped(expected, lo, hi);
    forall off ensures score(off, 1) >= 0.0 {
      ScoreAtNonNegative(tail, input, off, 1);
    }
    hide ScoreAt, LowestOffset, HighestOffset, Clamped, IsTop, IsBest;
    var top :| IsTop(top, lo, hi + 1, score) && IsBest(score, top, lo, hi, from, a);
    var other :| IsTop(other, lo, hi + 1, score) && IsBest(score, other, lo, hi, from, b);
    TopIsDetermined(top, other, lo, hi + 1, score);
    BestIsDetermined(score, top, lo, hi, from, a, b);
  }

  lemma ScoreAtNonNegative(tail: seq<Frame>, input: seq<Frame>, off: int, stride: int)
    ensures ScoreAt(tail, input)(off, stride) >= 0.0
  {
    hide OffsetScore;
    if |tail| == OVERLAP && 0 <= off && off + OVERLAP <= |input| && stride > 0 {
      ScoreNonNegative(tail, input[off..off + OVERLAP], stride);
    }
  }

  // Products of reals, one step at a time.

  lemma NonNegative(a: real, b: real)
    requires a >= 0.0 && b >= 0.0
    ensures a * b >= 0.0
  {
  }

  lemma SquareNonNegative(a: real)
    ensures a * a >= 0.0
  {
    if a >= 0.0 {
      NonNegative(a, a);
    } else {
      NonNegative(-a, -a);
    }
  }

  lemma QuotientNonNegative(a: real, b: real)
    requires a >= 0.0 && b > 0.0
    ensures a / b >= 0.0
  {
    assert (a / b) * b == a;
    FactorNonNegative(a / b, b);
  }

  lemma FactorNonNegative(a: real, b: real)
    requires b > 0.0 && a * b >= 0.0
    ensures a >= 0.0
  {
    if a < 0.0 {
      PositiveProduct(-a, b);
    }
  }

  /** A score is never negative, which is what makes the outcome of the search unique. */
  lemma ScoreNonNegative(tail: seq<Frame>, src: seq<Frame>, stride: nat)
    requires |tail| == |src| && stride > 0
    ensures OffsetScore(tail, src, stride) >= 0.0
  {
    var corr, norm := Corr(tail, src, 0, stride), Corr(src, src, 0, stride);
    SquareNonNegative(corr);
    if norm >= SILENT {
      QuotientNonNegative(corr * corr, norm);
    }
  }

  function Louder(src: seq<Frame>, gain: real): (r: seq<Frame>)
    ensures |r| == |src|
    ensures forall i :: 0 <= i < |src| ==> r[i] == Frame(gain * src[i].left, gain * src[i].right)
  {
    seq(|src|, i requires 0 <= i < |src| => Frame(gain * src[i].left, gain * src[i].right))
  }

  lemma {:induction false} CorrScales(a: seq<Frame>, b: seq<Frame>, louder: seq<Frame>, gain: real, i: nat, stride: nat)
    requires |a| == |b| && louder == Louder(b, gain) && stride > 0
    ensures Corr(a, louder, i, stride) == gain * Corr(a, b, i, stride)
    ensures Corr(louder, a, i, stride) == Corr(a, louder, i, stride)
    decreases |a| - i
  {
    if i < |a| {
      CorrScales(a, b, louder, gain, i + stride, stride);
      hide Dot, Louder;
      DotScales(a[i], b[i], louder[i], gain);
      Spread(gain, Corr(a, b, i, stride), Dot(a[i], b[i]), Corr(a, b, i + stride, stride));
    }
  }

  /** Material in opposite phase scores zero, however well its shape matches. */
  lemma OppositeScoresZero(tail: seq<Frame>, gain: real, stride: nat)
    requires stride > 0 && gain <= 0.0
    ensures OffsetScore(tail, Louder(tail, gain), stride) == 0.0
  {
    hide Louder;
    var energy := Corr(tail, tail, 0, stride);
    CorrScales(tail, tail, Louder(tail, gain), gain, 0, stride);
    EnergyNonNegative(tail, 0, stride);
    NonNegative(-gain, energy);
  }

  lemma {:induction false} EnergyNonNegative(a: seq<Frame>, i: nat, stride: nat)
    requires stride > 0
    ensures Corr(a, a, i, stride) >= 0.0
    decreases |a| - i
  {
    if i < |a| {
      SquareNonNegative(a[i].left);
      SquareNonNegative(a[i].right);
      EnergyNonNegative(a, i + stride, stride);
    }
  }

  function Exchanged(src: seq<Frame>): (r: seq<Frame>)
    ensures |r| == |src|
    ensures forall i :: 0 <= i < |src| ==> r[i] == Frame(src[i].right, src[i].left)
  {
    seq(|src|, i requires 0 <= i < |src| => Frame(src[i].right, src[i].left))
  }

  /** Both channels count alike. */
  lemma ChannelsCountAlike(tail: seq<Frame>, src: seq<Frame>, stride: nat)
    requires |tail| == |src| && stride > 0
    ensures OffsetScore(Exchanged(tail), Exchanged(src), stride) == OffsetScore(tail, src, stride)
  {
    hide Exchanged;
    CorrExchanged(tail, src, Exchanged(tail), Exchanged(src), 0, stride);
    CorrExchanged(src, src, Exchanged(src), Exchanged(src), 0, stride);
  }

  lemma {:induction false} CorrExchanged(
    a: seq<Frame>, b: seq<Frame>, c: seq<Frame>, d: seq<Frame>, i: nat, stride: nat)
    requires |a| == |b| && stride > 0 && c == Exchanged(a) && d == Exchanged(b)
    ensures Corr(c, d, i, stride) == Corr(a, b, i, stride)
    decreases |a| - i
  {
    if i < |a| {
      CorrExchanged(a, b, c, d, i + stride, stride);
      DotExchanged(a[i], b[i]);
      hide Dot, Exchanged;
    }
  }

  lemma DotExchanged(x: Frame, y: Frame)
    ensures Dot(Frame(x.right, x.left), Frame(y.right, y.left)) == Dot(x, y)
  {
  }

  lemma DotScales(a: Frame, b: Frame, louder: Frame, gain: real)
    requires louder.left == gain * b.left && louder.right == gain * b.right
    ensures Dot(a, louder) == gain * Dot(a, b) && Dot(louder, a) == Dot(a, louder)
  {
    Swap(a.left, gain, b.left, louder.left);
    Swap(a.right, gain, b.right, louder.right);
    Spread(gain, Dot(a, b), a.left * b.left, a.right * b.right);
  }

  lemma Swap(x: real, k: real, y: real, ky: real)
    requires ky == k * y
    ensures x * ky == k * (x * y)
  {
    assert x * (k * y) == k * (x * y);
    Times(x, ky, k * y);
  }

  lemma Spread(k: real, sum: real, x: real, y: real)
    requires sum == x + y
    ensures k * sum == k * x + k * y
  {
    Times(k, sum, x + y);
    Distribute(k, x, y);
  }

  lemma Times(k: real, x: real, y: real)
    requires x == y
    ensures k * x == k * y
  {
  }

  lemma Distribute(a: real, b: real, c: real)
    ensures a * (b + c) == a * b + a * c
  {
  }

  lemma PositiveProduct(a: real, b: real)
    requires a > 0.0 && b > 0.0
    ensures a * b > 0.0
  {
  }

  /** Loudness does not count: turning the source up or down leaves its score as it is, unless it becomes silent. */
  lemma LoudnessDoesNotCount(tail: seq<Frame>, src: seq<Frame>, gain: real, stride: nat)
    requires |tail| == |src| && stride > 0 && gain > 0.0
    requires Corr(src, src, 0, stride) >= SILENT && Corr(Louder(src, gain), Louder(src, gain), 0, stride) >= SILENT
    ensures OffsetScore(tail, Louder(src, gain), stride) == OffsetScore(tail, src, stride)
  {
    hide Corr, Louder, Ratio;
    var louder := Louder(src, gain);
    var corr, norm, mid := Corr(tail, src, 0, stride), Corr(src, src, 0, stride), Corr(src, louder, 0, stride);
    CorrScales(tail, src, louder, gain, 0, stride);
    CorrScales(louder, src, louder, gain, 0, stride);
    CorrScales(src, src, louder, gain, 0, stride);
    Sign(gain, corr);
    if corr > 0.0 {
      Cancel(gain, corr, norm, Corr(tail, louder, 0, stride), mid, Corr(louder, louder, 0, stride));
    }
  }

  lemma Sign(gain: real, x: real)
    requires gain > 0.0
    ensures gain * x > 0.0 <==> x > 0.0
  {
    if x > 0.0 {
      PositiveProduct(gain, x);
    } else {
      NonNegative(gain, -x);
    }
  }

  lemma Cancel(gain: real, corr: real, norm: real, louderCorr: real, mid: real, louderNorm: real)
    requires norm > 0.0 && louderNorm > 0.0
    requires louderCorr == gain * corr && mid == gain * norm && louderNorm == gain * mid
    ensures Ratio(louderCorr, louderNorm) == Ratio(corr, norm)
  {
    var r := corr * corr / norm;
    assert r * norm == corr * corr;
    Swap(r, gain, mid, louderNorm);
    Swap(r, gain, norm, mid);
    Swap(louderCorr, gain, corr, louderCorr);
    Swap(corr, gain, corr, louderCorr);
    Times(gain, louderCorr * corr, gain * (corr * corr));
    Times(gain, r * mid, gain * (corr * corr));
    Divided(r, louderNorm, louderCorr * louderCorr);
  }

  lemma Divided(q: real, b: real, a: real)
    requires b > 0.0 && q * b == a
    ensures a / b == q
  {
  }

  /** The energy of a - t * b, from the energies of a and b and their correlation. */
  function Distance(t: real, aa: real, ab: real, bb: real): real {
    aa - 2.0 * (t * ab) + t * (t * bb)
  }

  /** It is never negative, summed over the same frames. */
  lemma {:induction false} DistanceNonNegative(a: seq<Frame>, b: seq<Frame>, t: real, i: nat, stride: nat)
    requires |a| == |b| && stride > 0
    ensures Distance(t, Corr(a, a, i, stride), Corr(a, b, i, stride), Corr(b, b, i, stride)) >= 0.0
    decreases |a| - i
  {
    hide Dot, Distance, Corr;
    if i >= |a| {
      EmptyDistance(a, b, t, i, stride);
    } else {
      DistanceNonNegative(a, b, t, i + stride, stride);
      FrameDistance(a[i], b[i], t);
      CorrStep(a, a, i, stride);
      CorrStep(a, b, i, stride);
      CorrStep(b, b, i, stride);
      AddDistances(t, Dot(a[i], a[i]), Dot(a[i], b[i]), Dot(b[i], b[i]),
                   Corr(a, a, i + stride, stride), Corr(a, b, i + stride, stride), Corr(b, b, i + stride, stride));
    }
  }

  lemma EmptyDistance(a: seq<Frame>, b: seq<Frame>, t: real, i: nat, stride: nat)
    requires |a| == |b| <= i && stride > 0
    ensures Distance(t, Corr(a, a, i, stride), Corr(a, b, i, stride), Corr(b, b, i, stride)) == 0.0
  {
  }

  lemma CorrStep(a: seq<Frame>, b: seq<Frame>, i: nat, stride: nat)
    requires |a| == |b| && i < |a| && stride > 0
    ensures Corr(a, b, i, stride) == Dot(a[i], b[i]) + Corr(a, b, i + stride, stride)
  {
  }

  lemma AddDistances(t: real, aa: real, ab: real, bb: real, aas: real, abs: real, bbs: real)
    requires Distance(t, aa, ab, bb) >= 0.0 && Distance(t, aas, abs, bbs) >= 0.0
    ensures Distance(t, aa + aas, ab + abs, bb + bbs) >= 0.0
  {
    Distribute(t, ab, abs);
    Distribute(t, bb, bbs);
    Distribute(t, t * bb, t * bbs);
  }

  lemma FrameDistance(a: Frame, b: Frame, t: real)
    ensures Distance(t, Dot(a, a), Dot(a, b), Dot(b, b)) >= 0.0
  {
    SquareOfDifference(a.left, b.left, t);
    SquareOfDifference(a.right, b.right, t);
    Distribute(t, a.left * b.left, a.right * b.right);
    Distribute(t, b.left * b.left, b.right * b.right);
    Distribute(t, t * (b.left * b.left), t * (b.right * b.right));
  }

  lemma SquareOfDifference(x: real, y: real, t: real)
    ensures x * x - 2.0 * (t * (x * y)) + t * (t * (y * y)) >= 0.0
  {
    var d := x - t * y;
    SquareNonNegative(d);
    assert d * d == x * x - 2.0 * (t * (x * y)) + t * (t * (y * y));
  }

  /**
   No source scores above the tail's own energy, and the tail itself, at any volume that can be heard, scores just that.
   */
  lemma BestMatchIsTheTail(tail: seq<Frame>, src: seq<Frame>, gain: real, stride: nat)
    requires |tail| == |src| && stride > 0 && gain > 0.0
    ensures OffsetScore(tail, src, stride) <= Corr(tail, tail, 0, stride)
    ensures Corr(tail, tail, 0, stride) >= SILENT
            && Corr(Louder(tail, gain), Louder(tail, gain), 0, stride) >= SILENT ==>
              OffsetScore(tail, Louder(tail, gain), stride) == Corr(tail, tail, 0, stride)
  {
    ScoreBelowEnergy(tail, src, stride);
    var energy := Corr(tail, tail, 0, stride);
    if energy >= SILENT && Corr(Louder(tail, gain), Louder(tail, gain), 0, stride) >= SILENT {
      LoudnessDoesNotCount(tail, tail, gain, stride);
      OwnRatio(energy);
    }
  }

  lemma OwnRatio(x: real)
    requires x > 0.0
    ensures Ratio(x, x) == x
  {
    Divided(x, x, x * x);
  }

  lemma ScoreBelowEnergy(tail: seq<Frame>, src: seq<Frame>, stride: nat)
    requires |tail| == |src| && stride > 0
    ensures OffsetScore(tail, src, stride) <= Corr(tail, tail, 0, stride)
  {
    var energy, corr, norm := Corr(tail, tail, 0, stride), Corr(tail, src, 0, stride), Corr(src, src, 0, stride);
    DistanceNonNegative(tail, src, 0.0, 0, stride);
    if norm >= SILENT && corr > 0.0 {
      var t := corr / norm;
      DistanceNonNegative(tail, src, t, 0, stride);
      hide Corr;
      assert t * norm == corr;
      Divided(t * corr, norm, corr * corr) by {
        assert t * corr * norm == corr * (t * norm);
      }
    }
  }
}
