/**
 The ICY demultiplexer of player/icy.go. The server's stream is a string whose characters are its bytes; the
 reader below may return less than asked for, which is a parameter of each Read.
 */
module Icy {
  import opened Common

  // ---- Titles ----

  predicate StartsAt(s: string, i: nat, part: string) {
    i + |part| <= |s| && s[i..i + |part|] == part
  }

  /** The first index at or after i where part occurs, or -1. */
  function Find(s: string, i: nat, part: string): (r: int)
    ensures r == -1 || (i <= r && StartsAt(s, r, part))
    ensures forall k :: i <= k < (if r < 0 then |s| + 1 else r) ==> !StartsAt(s, k, part)
    decreases |s| - i
  {
    if i > |s| then -1
    else if StartsAt(s, i, part) then i
    else if i == |s| then -1
    else Find(s, i + 1, part)
  }

  function LastQuote(s: string): (r: int)
    ensures -1 <= r < |s|
  {
    if s == "" then -1 else if s[|s| - 1] == '\'' then |s| - 1 else LastQuote(s[..|s| - 1])
  }

  const TITLE_PREFIX := "StreamTitle='"
  const TITLE_END := "';"

  function ParseStreamTitle(meta: string): string {
    var at := Find(meta, 0, TITLE_PREFIX);
    if at < 0 then ""
    else
      var after := meta[at + |TITLE_PREFIX|..];
      var j := Find(after, 0, TITLE_END);
      if j >= 0 then after[..j]
      else
        var q := LastQuote(after);
        if q < 0 then "" else after[..q]
  }

  /** A title reads back from its metadata exactly when it does not hold the end mark itself. */
  lemma TitleReadsBack(title: string, rest: string)
    ensures ParseStreamTitle(TITLE_PREFIX + title + TITLE_END + rest) == title
            <==> forall k :: 0 <= k < |title| ==> !StartsAt(title, k, TITLE_END)
  {
    hide Find, StartsAt, TITLE_PREFIX, TITLE_END;
    var meta, after := TITLE_PREFIX + title + TITLE_END + rest, title + TITLE_END + rest;
    assert meta == TITLE_PREFIX + after;
    PrefixComesFirst(after);
    assert meta[|TITLE_PREFIX|..] == after;
    FirstEnd(title, rest);
    assert after[..|title|] == title;
  }

  /** A title that is cut short. */
  lemma TitleIsCut() returns (title: string)
    ensures ParseStreamTitle(TITLE_PREFIX + title + TITLE_END) != title
  {
    title := "a';b";
    assert title[1..3] == TITLE_END;
    assert StartsAt(title, 1, TITLE_END);
    TitleReadsBack(title, "");
    hide ParseStreamTitle;
    assert TITLE_PREFIX + title + TITLE_END + "" == TITLE_PREFIX + title + TITLE_END;
  }

  lemma PrefixComesFirst(after: string)
    ensures Find(TITLE_PREFIX + after, 0, TITLE_PREFIX) == 0
  {
    hide Find, TITLE_PREFIX;
    var meta := TITLE_PREFIX + after;
    assert meta[0..0 + |TITLE_PREFIX|] == TITLE_PREFIX;
    assert StartsAt(meta, 0, TITLE_PREFIX);
  }

  /** The first end mark stands at or before the one that was written, and there only if the title holds none. */
  lemma FirstEnd(title: string, rest: string)
    ensures 0 <= Find(title + TITLE_END + rest, 0, TITLE_END) <= |title|
    ensures Find(title + TITLE_END + rest, 0, TITLE_END) == |title|
            <==> forall k :: 0 <= k < |title| ==> !StartsAt(title, k, TITLE_END)
  {
    hide Find, StartsAt;
    var after := title + TITLE_END + rest;
    forall k | 0 <= k <= |title|
      ensures StartsAt(after, k, TITLE_END) <==> k == |title| || StartsAt(title, k, TITLE_END)
    {
      EndMarkAt(title, rest, k);
    }
    assert StartsAt(after, |title|, TITLE_END);
    assert Find(after, 0, TITLE_END) <= |title|;
  }

  lemma EndMarkAt(title: string, rest: string, k: nat)
    requires k <= |title|
    ensures StartsAt(title + TITLE_END + rest, k, TITLE_END) <==> k == |title| || StartsAt(title, k, TITLE_END)
  {
    var after := title + TITLE_END + rest;
    assert after[k..k + 2] == [after[k], after[k + 1]];
    if k + 2 <= |title| {
      assert title[k..k + 2] == after[k..k + 2];
    }
  }

  function TrimNul(s: string): string {
    if s != "" && s[|s| - 1] == '\0' then TrimNul(s[..|s| - 1]) else s
  }

  /** The title a metadata block announces, if any. */
  function TitleOf(meta: string): seq<string> {
    var title := ParseStreamTitle(TrimNul(meta));
    if title == "" then [] else [title]
  }

  // ---- The stream ----

  function MetaLength(c: char): nat {
    c as int * 16
  }

  /** The audio in stream, of which the next metadata block is remaining bytes away. */
  function Audio(stream: string, metaInt: nat, remaining: nat): string
    requires metaInt > 0
    decreases |stream|, remaining
  {
    if stream == "" then ""
    else if remaining > 0 then [stream[0]] + Audio(stream[1..], metaInt, remaining - 1)
    else if |stream| - 1 < MetaLength(stream[0]) then ""
    else Audio(stream[1 + MetaLength(stream[0])..], metaInt, metaInt)
  }

  /** The titles of the complete metadata blocks in stream. */
  function Titles(stream: string, metaInt: nat, remaining: nat): seq<string>
    requires metaInt > 0
    decreases |stream|, remaining
  {
    if stream == "" then []
    else if remaining > 0 then Titles(stream[1..], metaInt, remaining - 1)
    else
      var n := MetaLength(stream[0]);
      if |stream| - 1 < n then []
      else (if n == 0 then [] else TitleOf(stream[1..1 + n])) + Titles(stream[1 + n..], metaInt, metaInt)
  }

  /** A block of audio and the metadata behind it. */
  datatype Block = Block(audio: string, meta: string)

  predicate Framed(block: Block, metaInt: nat) {
    |block.audio| == metaInt && |block.meta| % 16 == 0 && |block.meta| / 16 < 256
  }

  function Mux(blocks: seq<Block>, tail: string, metaInt: nat): string
    requires forall k :: 0 <= k < |blocks| ==> Framed(blocks[k], metaInt)
  {
    if blocks == [] then tail
    else
      assert Framed(blocks[0], metaInt);
      blocks[0].audio + [(|blocks[0].meta| / 16) as char] + blocks[0].meta + Mux(blocks[1..], tail, metaInt)
  }

  function AllAudio(blocks: seq<Block>, tail: string): string {
    if blocks == [] then tail else blocks[0].audio + AllAudio(blocks[1..], tail)
  }

  function AllTitles(blocks: seq<Block>): seq<string> {
    if blocks == [] then []
    else (if blocks[0].meta == "" then [] else TitleOf(blocks[0].meta)) + AllTitles(blocks[1..])
  }

  lemma {:induction false} AudioRun(audio: string, rest: string, metaInt: nat, remaining: nat)
    requires metaInt > 0 && |audio| <= remaining
    ensures Audio(audio + rest, metaInt, remaining) == audio + Audio(rest, metaInt, remaining - |audio|)
    ensures Titles(audio + rest, metaInt, remaining) == Titles(rest, metaInt, remaining - |audio|)
    decreases |audio|
  {
    if audio == "" {
      assert audio + rest == rest;
    } else {
      assert (audio + rest)[1..] == audio[1..] + rest;
      AudioRun(audio[1..], rest, metaInt, remaining - 1);
    }
  }

  /** Demultiplexing a multiplexed stream gives back the audio and the titles. */
  lemma {:induction false} DemuxOfMux(blocks: seq<Block>, tail: string, metaInt: nat)
    requires metaInt > 0 && |tail| <= metaInt
    requires forall k :: 0 <= k < |blocks| ==> Framed(blocks[k], metaInt)
    ensures Audio(Mux(blocks, tail, metaInt), metaInt, metaInt) == AllAudio(blocks, tail)
    ensures Titles(Mux(blocks, tail, metaInt), metaInt, metaInt) == AllTitles(blocks)
    decreases |blocks|
  {
    if blocks == [] {
      AudioRun(tail, "", metaInt, metaInt);
      assert tail + "" == tail;
    } else {
      var b, rest := blocks[0], Mux(blocks[1..], tail, metaInt);
      var behind := [(|b.meta| / 16) as char] + b.meta + rest;
      assert Mux(blocks, tail, metaInt) == b.audio + behind;
      AudioRun(b.audio, behind, metaInt, metaInt);
      assert MetaLength(behind[0]) == |b.meta|;
      assert behind[1..1 + |b.meta|] == b.meta && behind[1 + |b.meta|..] == rest;
      DemuxOfMux(blocks[1..], tail, metaInt);
    }
  }

  // ---- The reader ----

  /** What is left of the stream, the bytes to the next metadata block, and the titles reported so far. */
  datatype State = State(left: string, remaining: nat, titles: seq<string>)

  /** The error a Read returns: none, io.EOF, io.ErrUnexpectedEOF, or one of the stream below. */
  datatype Outcome = Fine | EndOfStream | Truncated | Broken

  /**
   One Read: the size of its buffer, and how the stream below answers. It hands out at most chunk bytes at once, it
   breaks after fault more bytes if fault is given, and it reports its end or its fault early, with the last bytes, or
   only when nothing is left.
   */
  datatype Call = Call(len: nat, chunk: nat, early: bool, fault: Option<nat>)

  /** The bytes that can still be read from left. */
  function Reach(left: string, fault: Option<nat>): (n: nat)
    ensures n <= |left|
  {
    if fault.Some? then Min(fault.value, |left|) else |left|
  }

  /** What stops the stream behind them. */
  function Stop(left: string, fault: Option<nat>): (o: Outcome)
    ensures o == Broken || o == EndOfStream
  {
    if fault.Some? && fault.value <= |left| then Broken else EndOfStream
  }

  function Later(fault: Option<nat>, n: nat): Option<nat> {
    if fault.Some? then Some(if fault.value < n then 0 else fault.value - n) else None
  }

  /** consumeMeta. io.ReadFull takes what there is, also when it is not enough. */
  function ConsumeMeta(s: State, fault: Option<nat>): (r: (State, Outcome))
    ensures |r.0.left| <= |s.left|
  {
    var reach, stop := Reach(s.left, fault), Stop(s.left, fault);
    if reach == 0 then (s, stop)
    else
      var n := MetaLength(s.left[0]);
      if n == 0 then (s.(left := s.left[1..]), Fine)
      else if reach - 1 < n then
        (s.(left := s.left[reach..]), if stop == EndOfStream && reach > 1 then Truncated else stop)
      else (s.(left := s.left[1 + n..], titles := s.titles + TitleOf(s.left[1..1 + n])), Fine)
  }

  /** The read of the stream below: how many bytes it hands out of those asked for, and its error. */
  function ReadBelow(left: string, asked: nat, call: Call, fault: Option<nat>): (r: (nat, Outcome))
    ensures r.0 <= asked && r.0 <= Reach(left, fault)
    ensures r.1 == Fine || (r.1 == Stop(left, fault) && r.0 == Reach(left, fault))
  {
    var reach := Reach(left, fault);
    var n := Min(Min(asked, call.chunk), reach);
    (n, if n == reach && asked > 0 && (call.early || reach == 0) then Stop(left, fault) else Fine)
  }

  /** Read: the new state, the bytes and the error. */
  function ReadOnce(s: State, metaInt: nat, call: Call): (State, string, Outcome) {
    var (t, err) := if s.remaining == 0 then ConsumeMeta(s, call.fault) else (s, Fine);
    if err != Fine then (t, "", err)
    else
      var u := if s.remaining == 0 then t.(remaining := metaInt) else t;
      var (n, stop) := ReadBelow(u.left, Min(call.len, u.remaining), call, Later(call.fault, |s.left| - |u.left|));
      (u.(left := u.left[n..], remaining := u.remaining - n), u.left[..n], stop)
  }

  class Reader {
    var left: string
    const metaInt: nat
    var remaining: nat
    var titles: seq<string>

    function Now(): State
      reads this
    {
      State(left, remaining, titles)
    }

    constructor (stream: string, metaInt: nat)
      ensures Now() == State(stream, metaInt, []) && this.metaInt == metaInt
    {
      left, this.metaInt, remaining, titles := stream, metaInt, metaInt, [];
    }

    method ConsumeMetaBlock(fault: Option<nat>) returns (err: Outcome)
      modifies this`left, this`titles
      ensures (Now(), err) == ConsumeMeta(old(Now()), fault)
    {
      hide ParseStreamTitle, TrimNul;
      var reach, stop := Reach(left, fault), Stop(left, fault);
      if reach == 0 {
        return stop;
      }
      var metaLen := left[0] as int * 16;
      if metaLen == 0 {
        left := left[1..];
        return Fine;
      }
      if reach - 1 < metaLen {
        left := left[reach..];
        return if stop == EndOfStream && reach > 1 then Truncated else stop;
      }
      var meta := TrimNul(left[1..1 + metaLen]);
      left := left[1 + metaLen..];
      var title := ParseStreamTitle(meta);
      assert TitleOf(old(left)[1..1 + metaLen]) == if title == "" then [] else [title];
      assert titles + [] == titles;
      if title != "" {
        titles := titles + [title];
      }
      return Fine;
    }

    method Read(p: array<char>, call: Call) returns (n: nat, err: Outcome)
      requires p.Length == call.len
      modifies this`left, this`remaining, this`titles, p
      ensures var (t, got, outcome) := ReadOnce(old(Now()), metaInt, call);
              && Now() == t && err == outcome && n == |got| <= p.Length && p[..n] == got && p[n..] == old(p[..])[n..]
    {
      hide ConsumeMeta, ReadBelow;
      var fault := call.fault;
      if remaining == 0 {
        var had := |left|;
        err := ConsumeMetaBlock(fault);
        if err != Fine {
          return 0, err;
        }
        fault := Later(fault, had - |left|);
        remaining := metaInt;
      }
      assert Later(call.fault, 0) == call.fault;
      hide Later;
      var answer := ReadBelow(left, Min(p.Length, remaining), call, fault);
      n, err := answer.0, answer.1;
      HandOut(p, n);
    }

    /** The stream below fills in n bytes, which are counted off the way to the next metadata block. */
    method HandOut(p: array<char>, n: nat)
      requires n <= |left| && n <= p.Length && n <= remaining
      modifies this`left, this`remaining, p
      ensures left == old(left)[n..] && remaining == old(remaining) - n
      ensures p[..n] == old(left)[..n] && p[n..] == old(p[..])[n..]
    {
      for i := 0 to n
        invariant left == old(left) && remaining == old(remaining)
        invariant p[..i] == left[..i] && p[i..] == old(p[..])[i..]
      {
        p[i] := left[i];
        assert p[..i + 1] == left[..i] + [left[i]];
        assert p[i + 1..] == old(p[..])[i..][1..];
      }
      remaining := remaining - n;
      left := left[n..];
    }
  }

  /** Nothing is lost or added between s and t, where got was read. */
  ghost predicate Conserved(s: State, t: State, got: string, metaInt: nat)
    requires metaInt > 0
  {
    && got + Audio(t.left, metaInt, t.remaining) == Audio(s.left, metaInt, s.remaining)
    && t.titles + Titles(t.left, metaInt, t.remaining) == s.titles + Titles(s.left, metaInt, s.remaining)
  }

  /**
   One Read hands out the next bytes of the audio and reports the titles it passes. Only a fault inside a metadata
   block loses bytes, and then nothing is handed out. The end is reported when nothing is left.
   */
  lemma ReadConserves(s: State, metaInt: nat, call: Call)
    requires metaInt > 0
    ensures var (t, got, err) := ReadOnce(s, metaInt, call);
            && (Conserved(s, t, got, metaInt) || (err == Broken && got == "" && t.titles == s.titles))
            && (err == EndOfStream || err == Truncated ==> t.left == "" && Conserved(s, t, got, metaInt))
            && (err == Fine ==> Conserved(s, t, got, metaInt))
  {
    hide ConsumeMeta, Audio, Titles;
    var (t, err) := if s.remaining == 0 then ConsumeMeta(s, call.fault) else (s, Fine);
    if s.remaining == 0 {
      MetaConserves(s, metaInt, call.fault);
    }
    if err == Fine {
      var u := if s.remaining == 0 then t.(remaining := metaInt) else t;
      TakeConserves(u.left, metaInt, u.remaining,
                    ReadBelow(u.left, Min(call.len, u.remaining), call, Later(call.fault, |s.left| - |u.left|)).0);
    }
  }

  lemma TakeConserves(left: string, metaInt: nat, remaining: nat, n: nat)
    requires metaInt > 0 && n <= remaining && n <= |left|
    ensures left[..n] + Audio(left[n..], metaInt, remaining - n) == Audio(left, metaInt, remaining)
    ensures Titles(left[n..], metaInt, remaining - n) == Titles(left, metaInt, remaining)
  {
    hide Audio, Titles;
    assert left == left[..n] + left[n..];
    AudioRun(left[..n], left[n..], metaInt, remaining);
  }

  lemma MetaConserves(s: State, metaInt: nat, fault: Option<nat>)
    requires metaInt > 0 && s.remaining == 0
    ensures var (t, err) := ConsumeMeta(s, fault);
            && t.remaining == 0
            && (err == Fine ==> |t.left| <= |s.left| && Conserved(s, t.(remaining := metaInt), "", metaInt))
            && (err == EndOfStream || err == Truncated ==> t.left == "" && Conserved(s, t, "", metaInt))
            && (err == Broken ==> t.titles == s.titles)
  {
    if s.left != "" {
      var n := MetaLength(s.left[0]);
      if 0 < n <= |s.left| - 1 {
        var title, rest := TitleOf(s.left[1..1 + n]), Titles(s.left[1 + n..], metaInt, metaInt);
        assert s.titles + title + rest == s.titles + (title + rest);
      }
    }
  }

  /** All that a sequence of reads returns, up to the first error, the state it ends in, and that error. */
  function ReadAll(s: State, metaInt: nat, calls: seq<Call>): (State, string, Outcome)
    decreases |calls|
  {
    if calls == [] then (s, "", Fine)
    else
      var (t, got, err) := ReadOnce(s, metaInt, calls[0]);
      if err != Fine then (t, got, err)
      else
        var (u, more, last) := ReadAll(t, metaInt, calls[1..]);
        (u, got + more, last)
  }

  /**
   For any stream and any reads, short ones and faults of the stream below included, the bytes returned are the audio
   up to some point, and the titles reported are those of metadata blocks before it. Without a fault nothing is lost,
   and an end is reported only when all the audio and all the titles were handed out.
   */
  lemma {:induction false} ReadsGiveAudio(s: State, metaInt: nat, calls: seq<Call>)
    requires metaInt > 0
    ensures var (t, got, err) := ReadAll(s, metaInt, calls);
            && got <= Audio(s.left, metaInt, s.remaining)
            && t.titles <= s.titles + Titles(s.left, metaInt, s.remaining)
            && (err != Broken ==> Conserved(s, t, got, metaInt))
            && (err == EndOfStream || err == Truncated ==>
                  got == Audio(s.left, metaInt, s.remaining)
                      && t.titles == s.titles + Titles(s.left, metaInt, s.remaining))
    decreases |calls|
  {
    var (u, all, last) := ReadAll(s, metaInt, calls);
    if calls == [] {
      assert "" + Audio(s.left, metaInt, s.remaining) == Audio(s.left, metaInt, s.remaining);
    } else {
      hide ReadOnce, Audio, Titles, Conserved;
      var (t, got, err) := ReadOnce(s, metaInt, calls[0]);
      ReadConserves(s, metaInt, calls[0]);
      if err != Fine {
        EndsHere(s, t, got, metaInt);
      } else {
        ReadsGiveAudio(t, metaInt, calls[1..]);
        var (_, more, _) := ReadAll(t, metaInt, calls[1..]);
        GoesOn(s, t, u, got, more, metaInt);
      }
    }
    if last == Fine {
      EndsHere(s, u, all, metaInt);
    }
  }

  lemma EndsHere(s: State, t: State, got: string, metaInt: nat)
    requires metaInt > 0
    ensures Conserved(s, t, got, metaInt) || (got == "" && t.titles == s.titles) ==>
              got <= Audio(s.left, metaInt, s.remaining) && t.titles <= s.titles + Titles(s.left, metaInt, s.remaining)
    ensures Conserved(s, t, got, metaInt) && t.left == "" ==>
              got == Audio(s.left, metaInt, s.remaining) && t.titles == s.titles + Titles(s.left, metaInt, s.remaining)
  {
    assert t.left == "" ==> got + Audio(t.left, metaInt, t.remaining) == got;
    assert t.left == "" ==> t.titles + Titles(t.left, metaInt, t.remaining) == t.titles;
  }

  lemma GoesOn(s: State, t: State, u: State, got: string, more: string, metaInt: nat)
    requires metaInt > 0 && Conserved(s, t, got, metaInt)
    ensures Conserved(t, u, more, metaInt) ==> Conserved(s, u, got + more, metaInt)
    ensures more <= Audio(t.left, metaInt, t.remaining) ==> got + more <= Audio(s.left, metaInt, s.remaining)
    ensures more == Audio(t.left, metaInt, t.remaining) ==> got + more == Audio(s.left, metaInt, s.remaining)
  {
    hide Audio, Titles;
    var rest := Audio(u.left, metaInt, u.remaining);
    assert got + more + rest == got + (more + rest);
  }

  /** Reading a multiplexed stream gives a first part of its audio, whatever the reads, and all of it by a clean end. */
  lemma MuxedReads(blocks: seq<Block>, tail: string, metaInt: nat, calls: seq<Call>)
    requires metaInt > 0 && |tail| <= metaInt
    requires forall k :: 0 <= k < |blocks| ==> Framed(blocks[k], metaInt)
    ensures var (t, got, err) := ReadAll(State(Mux(blocks, tail, metaInt), metaInt, []), metaInt, calls);
            && got <= AllAudio(blocks, tail) && t.titles <= AllTitles(blocks)
            && (err == EndOfStream ==> got == AllAudio(blocks, tail) && t.titles == AllTitles(blocks))
  {
    var s := State(Mux(blocks, tail, metaInt), metaInt, []);
    DemuxOfMux(blocks, tail, metaInt);
    ReadsGiveAudio(s, metaInt, calls);
    hide ReadAll, Mux, AllAudio, AllTitles;
    assert [] + AllTitles(blocks) == AllTitles(blocks);
  }
}
