/**
 The gapless streamer of player/gapless.go and the pipeline promotion of player/player.go.

 `Stream` takes the lock twice and calls out in between, so it is several steps here, and SetNext, Replace and
 Clear may come between any two of them. Tracks are numbers. Streamer calls and their sample counts are left to
 the environment: a step says whether the current track was exhausted.
 */
module Gapless {
  import opened Common

  /** The fields of gaplessStreamer. */
  datatype Source = Source(current: Option<nat>, next: Option<nat>, version: nat, token: nat, tokenSeq: nat,
                           drained: bool)

  function SetNextOf(g: Source, s: Option<nat>): Source {
    if s.None? then g.(next := None, token := 0) else g.(next := s, tokenSeq := g.tokenSeq + 1, token := g.tokenSeq + 1)
  }

  function ReplaceOf(g: Source, s: Option<nat>): Source {
    g.(current := s, next := None, version := g.version + 1, token := 0, drained := false)
  }

  /** The second locked section of Stream, reached when the track it read ended. */
  function SwapOf(g: Source, version: nat): Source {
    if version != g.version then g
    else g.(current := g.next, next := None, token := 0, version := g.version + 1)
  }

  class Streamer {
    var current: Option<nat>
    var next: Option<nat>
    var currentVersion: nat
    var nextToken: nat
    var nextTokenSeq: nat
    var drained: bool

    function Value(): Source
      reads this
    {
      Source(current, next, currentVersion, nextToken, nextTokenSeq, drained)
    }

    constructor ()
      ensures Value() == Source(None, None, 0, 0, 0, false)
    {
      current, next, currentVersion, nextToken, nextTokenSeq, drained := None, None, 0, 0, 0, false;
    }

    method SetNext(s: Option<nat>) returns (token: nat)
      modifies this
      ensures Value() == SetNextOf(old(Value()), s) && token == nextToken
    {
      next := s;
      if s.None? {
        nextToken := 0;
        return 0;
      }
      nextTokenSeq := nextTokenSeq + 1;
      nextToken := nextTokenSeq;
      return nextToken;
    }

    method Replace(s: Option<nat>)
      modifies this
      ensures Value() == ReplaceOf(old(Value()), s)
    {
      current := s;
      next := None;
      currentVersion := currentVersion + 1;
      nextToken := 0;
      drained := false;
    }

    method Clear()
      modifies this
      ensures Value() == ReplaceOf(old(Value()), None)
    {
      current := None;
      next := None;
      currentVersion := currentVersion + 1;
      nextToken := 0;
      drained := false;
    }

    /** Stream's section after the track it read is exhausted; stale when a manual replacement came first. */
    method EndTrack(version: nat) returns (stale: bool, taken: Option<nat>, token: nat)
      modifies this
      ensures Value() == SwapOf(old(Value()), version) && stale == (version != old(currentVersion))
      ensures !stale ==> taken == old(next) && token == old(nextToken)
    {
      if version != currentVersion {
        return true, None, 0;
      }
      stale, taken, token := false, next, nextToken;
      next := None;
      nextToken := 0;
      current := taken;
      currentVersion := currentVersion + 1;
    }
  }

  // ---- Runs ----

  /** Where the one Stream call in flight stands. */
  datatype Phase =
    | Quiet
    | Reading(track: nat, version: nat)
    | Swapped(track: nat, token: nat)   // swapped to track, callback not yet called
    | Publishing                        // callback done, drained not yet stored
    | Draining                          // nothing followed, drained not yet stored

  datatype Pipeline = Pipeline(stream: nat, token: nat)

  /**
   Streamer, Stream call and player together. `issued` is the track each token was handed out for, `superseded`
   the tokens withdrawn before their track was reached, `fired` the callbacks in order.
   */
  datatype State = State(
    source: Source, phase: Phase, playing: Option<Pipeline>, queued: Option<Pipeline>,
    issued: map<nat, nat>, superseded: set<nat>, fired: seq<nat>)

  const START := State(Source(None, None, 0, 0, 0, false), Quiet, None, None, map[], {}, [])

  datatype Step =
    | SetNext(track: Option<nat>)
    | Preload(stream: nat)           // preloadPipelineForGeneration
    | Replace(track: Option<nat>)
    | Play(pipeline: Pipeline)       // the source swap of playPipelineForGeneration
    | Clear
    | DropQueued                     // the nextPipeline half of ClearPreload
    | BeginStream
    | EndStream(exhausted: bool)
    | Callback
    | StoreDrained

  function Withdrawn(s: State): set<nat> {
    if s.source.token == 0 then s.superseded else s.superseded + {s.source.token}
  }

  function AfterSetNext(s: State, track: Option<nat>): State {
    var g := SetNextOf(s.source, track);
    s.(source := g, superseded := Withdrawn(s),
       issued := if track.None? then s.issued else s.issued[g.token := track.value])
  }

  function AfterReplace(s: State, track: Option<nat>): State {
    s.(source := ReplaceOf(s.source, track), superseded := Withdrawn(s))
  }

  /** handleGaplessSwap: the queued pipeline plays if it is the one the token stands for. */
  function Promoted(s: State, token: nat): State {
    if s.queued.Some? && s.queued.value.token == token then s.(playing := s.queued, queued := None) else s
  }

  ghost predicate Next(s: State, step: Step, t: State) {
    match step
    case SetNext(track) => t == AfterSetNext(s, track)
    case Preload(stream) =>
      var u := AfterSetNext(s, Some(stream));
      t == u.(queued := Some(Pipeline(stream, u.source.token)))
    case Replace(track) => t == AfterReplace(s, track)
    case Play(pipeline) =>
      t == AfterReplace(s, Some(pipeline.stream)).(playing := Some(pipeline), queued := None)
    case Clear => t == AfterReplace(s, None)
    case DropQueued => t == s.(queued := None)
    case BeginStream =>
      s.phase == Quiet &&
      t == if s.source.current.None? then s else s.(phase := Reading(s.source.current.value, s.source.version))
    case EndStream(exhausted) =>
      s.phase.Reading? &&
      t == (if !exhausted || s.phase.version != s.source.version then s.(phase := Quiet)
            else s.(source := SwapOf(s.source, s.phase.version),
                    phase := if s.source.next.None? then Draining else Swapped(s.source.next.value, s.source.token)))
    case Callback =>
      s.phase.Swapped? && t == Promoted(s, s.phase.token).(phase := Publishing, fired := s.fired + [s.phase.token])
    case StoreDrained =>
      (s.phase == Publishing || s.phase == Draining) &&
      t == s.(phase := Quiet, source := s.source.(drained := s.phase == Draining))
  }

  ghost predicate Run(trace: seq<State>, steps: seq<Step>) {
    && |trace| == |steps| + 1 && trace[0] == START
    && forall i :: 0 <= i < |steps| ==> Next(trace[i], steps[i], trace[i + 1])
  }

  /**
   The player holds the speaker lock around these, and the speaker holds it around Stream, so they never come
   between two steps of one Stream call. Only SetNext(None) and DropQueued are called without that lock.
   */
  predicate NeedsSpeaker(step: Step) {
    step.Preload? || step.Replace? || step.Play? || step.Clear? || (step.SetNext? && step.track.Some?)
  }

  ghost predicate PlayerRun(trace: seq<State>, steps: seq<Step>) {
    Run(trace, steps) && forall i :: 0 <= i < |steps| && NeedsSpeaker(steps[i]) ==> trace[i].phase == Quiet
  }

  // ---- Every interleaving ----

  /** A token that stands for track and has neither fired nor been withdrawn, newer than all that fired. */
  ghost predicate Live(s: State, token: nat, track: nat) {
    && 1 <= token <= s.source.tokenSeq && token in s.issued && s.issued[token] == track
    && token !in s.superseded && forall k :: 0 <= k < |s.fired| ==> s.fired[k] < token
  }

  ghost predicate Inv(s: State) {
    && (s.source.next.Some? <==> s.source.token != 0)
    && (s.source.next.Some? ==> Live(s, s.source.token, s.source.next.value))
    && (s.phase.Swapped? ==> Live(s, s.phase.token, s.phase.track)
                             && (s.source.token != 0 ==> s.phase.token < s.source.token))
    && (s.phase.Reading? ==> s.phase.version <= s.source.version
                             && (s.phase.version == s.source.version ==> s.source.current == Some(s.phase.track)))
    && (s.queued.Some? ==> s.queued.value.token in s.issued && s.issued[s.queued.value.token] == s.queued.value.stream)
    && (forall token :: token in s.issued ==> token <= s.source.tokenSeq)
    && (forall token :: token in s.superseded ==> token <= s.source.tokenSeq && token !in s.fired)
    && (forall k :: 0 <= k < |s.fired| ==> s.fired[k] <= s.source.tokenSeq)
    && (forall j, k :: 0 <= j < k < |s.fired| ==> s.fired[j] < s.fired[k])
  }

  lemma OwnerStepKeeps(s: State, step: Step, t: State)
    requires Inv(s) && Next(s, step, t) && (step.SetNext? || step.Preload? || step.DropQueued?)
    ensures Inv(t)
  {
  }

  lemma ReplaceStepKeeps(s: State, step: Step, t: State)
    requires Inv(s) && Next(s, step, t) && (step.Replace? || step.Play? || step.Clear?)
    ensures Inv(t)
  {
  }

  lemma StreamStepKeeps(s: State, step: Step, t: State)
    requires Inv(s) && Next(s, step, t)
    requires (step.BeginStream? || step.EndStream? || step.Callback? || step.StoreDrained?)
    ensures Inv(t)
  {
  }

  lemma StepKeeps(s: State, step: Step, t: State)
    requires Inv(s) && Next(s, step, t)
    ensures Inv(t)
  {
    hide Inv;
    if step.SetNext? || step.Preload? || step.DropQueued? {
      OwnerStepKeeps(s, step, t);
    } else if step.Replace? || step.Play? || step.Clear? {
      ReplaceStepKeeps(s, step, t);
    } else {
      StreamStepKeeps(s, step, t);
    }
  }

  lemma {:induction false} RunKeeps(trace: seq<State>, steps: seq<Step>, i: nat)
    requires Run(trace, steps) && i < |trace|
    ensures Inv(trace[i])
  {
    if i > 0 {
      RunKeeps(trace, steps, i - 1);
      StepKeeps(trace[i - 1], steps[i - 1], trace[i]);
    }
  }

  /** No token fires twice, none fires after a newer one, and a withdrawn token never fires. */
  lemma CallbackOnce(trace: seq<State>, steps: seq<Step>, i: nat)
    requires Run(trace, steps) && i < |trace|
    ensures var s := trace[i];
            && (forall j, k :: 0 <= j < k < |s.fired| ==> s.fired[j] < s.fired[k])
            && (forall token :: token in s.superseded ==> token !in s.fired)
  {
    RunKeeps(trace, steps, i);
  }

  /**
   A swap makes current exactly the track its token was handed out for, and only over the track it read to the end.
   */
  lemma SwapIsOfItsToken(trace: seq<State>, steps: seq<Step>, i: nat)
    requires Run(trace, steps) && i < |steps| && steps[i].EndStream? && trace[i + 1].phase.Swapped?
    ensures var s, t := trace[i], trace[i + 1];
            && s.source.current == Some(s.phase.track)
            && t.source.current == Some(t.phase.track)
            && t.phase.token in t.issued && t.issued[t.phase.token] == t.phase.track
            && t.phase.token !in s.fired && t.phase.token !in s.superseded
  {
    RunKeeps(trace, steps, i);
  }

  /** Only Replace, Play, Clear or the end of the very track being played changes the current track. */
  lemma NoStaleOverwrite(trace: seq<State>, steps: seq<Step>, i: nat)
    requires Run(trace, steps) && i < |steps| && trace[i + 1].source.current != trace[i].source.current
    ensures steps[i].Replace? || steps[i].Play? || steps[i].Clear?
            || (steps[i] == EndStream(true) && trace[i].source.current == Some(trace[i].phase.track))
  {
    RunKeeps(trace, steps, i);
  }

  /** Once a replacement has come in between, the end of the track read before it changes nothing. */
  lemma {:induction false} ReplacementWins(trace: seq<State>, steps: seq<Step>, i: nat, j: nat)
    requires Run(trace, steps) && i < j < |steps| && trace[i].phase.Reading?
    requires steps[i].Replace? || steps[i].Play? || steps[i].Clear?
    requires steps[j].EndStream? && forall k :: i < k < j ==> !steps[k].EndStream?
    ensures trace[j + 1].source == trace[j].source
  {
    var k := i + 1;
    RunKeeps(trace, steps, i);
    while k < j
      invariant i < k <= j
      invariant trace[k].phase == trace[i].phase && trace[k].source.version > trace[i].phase.version
    {
      assert Next(trace[k], steps[k], trace[k + 1]);
      k := k + 1;
    }
  }

  /**
   When the track being played ends and no replacement came in between, the queued one is current, and nothing the
   owner does before the callback keeps its token from being the next to fire; the pipeline of that token then plays.
   */
  lemma {:induction false} QueuedTrackFollows(trace: seq<State>, steps: seq<Step>, i: nat, j: nat)
    requires Run(trace, steps) && i < j < |steps| && steps[i] == EndStream(true)
    requires trace[i].phase.Reading? && trace[i].phase.version == trace[i].source.version
    requires trace[i].source.next.Some?
    requires forall k :: i < k < j ==> steps[k] != Callback
    ensures trace[i + 1].source.current == trace[i].source.next && trace[i + 1].source.next == None
    ensures var s, token := trace[j], trace[i].source.token;
            && s.phase == Swapped(trace[i].source.next.value, token) && s.fired == trace[i].fired
            && (steps[j] == Callback ==>
                  && trace[j + 1].fired == trace[i].fired + [token]
                  && (s.queued.Some? && s.queued.value.token == token ==> trace[j + 1].playing == s.queued))
  {
    assert Next(trace[i], steps[i], trace[i + 1]);
    if i + 1 < j {
      QueuedTrackFollows(trace, steps, i, j - 1);
      assert Next(trace[j - 1], steps[j - 1], trace[j]);
    }
    assert Next(trace[j], steps[j], trace[j + 1]);
  }

  /** When it ends and nothing is queued, no track is current, and the flag goes up with the next step of Stream. */
  lemma {:induction false} EndDrains(trace: seq<State>, steps: seq<Step>, i: nat, j: nat)
    requires Run(trace, steps) && i < j < |steps| && steps[i] == EndStream(true)
    requires trace[i].phase.Reading? && trace[i].phase.version == trace[i].source.version
    requires trace[i].source.next.None?
    requires forall k :: i < k < j ==> steps[k] != StoreDrained
    ensures trace[i + 1].source.current == None && trace[j].phase == Draining
    ensures steps[j] == StoreDrained ==> trace[j + 1].source.drained
  {
    assert Next(trace[i], steps[i], trace[i + 1]);
    if i + 1 < j {
      EndDrains(trace, steps, i, j - 1);
      assert Next(trace[j - 1], steps[j - 1], trace[j]);
    }
    assert Next(trace[j], steps[j], trace[j + 1]);
  }

  /** Replacing or clearing makes the given track current, or none, with nothing behind it, and lowers the flag. */
  lemma ReplacesAtOnce(s: State, step: Step, t: State)
    requires Next(s, step, t) && (step.Replace? || step.Play? || step.Clear?)
    ensures t.source.current == (match step case Replace(track) => track case Play(p) => Some(p.stream) case _ => None)
    ensures t.source.next == None && !t.source.drained && t.source.token == 0 && t.fired == s.fired
    ensures step.Play? ==> t.playing == Some(step.pipeline) && t.queued == None
  {
  }

  // ---- Under the player's locks ----

  ghost predicate PlayerInv(s: State) {
    && Inv(s)
    && (s.phase.Swapped? ==> s.source.current == Some(s.phase.track))
    && (s.phase == Draining ==> s.source.current.None?)
    && (s.source.drained ==> s.source.current.None?)
  }

  lemma {:induction false} PlayerRunKeeps(trace: seq<State>, steps: seq<Step>, i: nat)
    requires PlayerRun(trace, steps) && i < |trace|
    ensures PlayerInv(trace[i])
  {
    if i > 0 {
      PlayerRunKeeps(trace, steps, i - 1);
      StepKeeps(trace[i - 1], steps[i - 1], trace[i]);
      hide Inv, Next;
      assert Next(trace[i - 1], steps[i - 1], trace[i]);
      PlayerStepKeeps(trace[i - 1], steps[i - 1], trace[i]);
    }
  }

  lemma PlayerStepKeeps(s: State, step: Step, t: State)
    requires PlayerInv(s) && Next(s, step, t) && Inv(t) && (NeedsSpeaker(step) ==> s.phase == Quiet)
    ensures PlayerInv(t)
  {
    hide Inv;
    if s.phase.Reading? && s.phase.version == s.source.version {
      ReadingIsCurrent(s);
    }
  }

  lemma ReadingIsCurrent(s: State)
    requires Inv(s) && s.phase.Reading? && s.phase.version == s.source.version
    ensures s.source.current.Some?
  {
  }

  /** Whenever the player promotes its queued pipeline, that pipeline's stream is the one gapless made current. */
  lemma PromotionIsCurrent(trace: seq<State>, steps: seq<Step>, i: nat)
    requires PlayerRun(trace, steps) && i < |steps| && steps[i] == Callback
    requires trace[i + 1].queued != trace[i].queued
    ensures trace[i + 1].playing == trace[i].queued && trace[i + 1].playing.Some?
    ensures trace[i + 1].source.current == Some(trace[i + 1].playing.value.stream)
  {
    PlayerRunKeeps(trace, steps, i);
    assert Next(trace[i], steps[i], trace[i + 1]);
  }

  /** Under the player's locks the drained flag is only up while no track is current. */
  lemma DrainedMeansNoTrack(trace: seq<State>, steps: seq<Step>, i: nat)
    requires PlayerRun(trace, steps) && i < |trace| && trace[i].source.drained
    ensures trace[i].source.current == None
  {
    PlayerRunKeeps(trace, steps, i);
  }

  /**
   The locks are needed for that: a Replace between the swap and the drained store leaves the flag up over a track.
   */
  lemma DrainedOverATrack() returns (trace: seq<State>, steps: seq<Step>)
    ensures Run(trace, steps) && trace[|trace| - 1].source.drained && trace[|trace| - 1].source.current == Some(2)
  {
    steps := [Replace(Some(1)), BeginStream, EndStream(true), Replace(Some(2)), StoreDrained];
    var s1 := AfterReplace(START, Some(1));
    var s2 := s1.(phase := Reading(1, s1.source.version));
    var s3 := s2.(source := SwapOf(s2.source, s2.phase.version), phase := Draining);
    var s4 := AfterReplace(s3, Some(2));
    var s5 := s4.(phase := Quiet, source := s4.source.(drained := true));
    trace := [START, s1, s2, s3, s4, s5];
    assert Next(trace[0], steps[0], trace[1]) && Next(trace[1], steps[1], trace[2])
           && Next(trace[2], steps[2], trace[3])
        && Next(trace[3], steps[3], trace[4]) && Next(trace[4], steps[4], trace[5]);
  }
}
