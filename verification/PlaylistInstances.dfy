/** Runs from an empty playlist on which an operation does less than its comment says. */
module PlaylistInstances {
  import opened Common
  import opened Shuffle
  import opened PlaylistState
  import opened PlaylistInvariant
  import opened PlaylistNavigation
  import opened PlaylistEditing
  import opened PlaylistPlayed

  const A := Track("a", false, false)
  const B := Track("b", false, false)
  const C := Track("c", false, false)
  const GONE := Track("gone", true, false)

  const NO_DRAWS: Draws := (i: nat) => 0

  lemma RunCons(s: Snapshot, op: Op, t: Snapshot, rest: seq<Op>)
    requires Valid(s) && Apply(s, op) == t
    ensures Valid(t) && Run(s, [op] + rest) == Run(t, rest)
  {
    hide Valid, Apply;
    ApplyValid(s, op);
    assert ([op] + rest)[1..] == rest;
  }

  lemma RunOne(s: Snapshot, op: Op, t: Snapshot)
    requires Valid(s) && Apply(s, op) == t
    ensures Valid(t) && Run(s, [op]) == t
  {
    RunCons(s, op, t, []);
    assert [op] + [] == [op];
  }

  // ---- PeekNext at a hidden wrap ----

  const HIDDEN_WRAP := Snapshot([A, B, C, GONE], [0, 1, 3, 2], 3, true, false, RepeatAll, [3], -1)

  lemma HiddenWrapValid()
    ensures Valid(HIDDEN_WRAP)
  {
    var order := HIDDEN_WRAP.order;
    assert order[0] == 0 && order[1] == 1 && order[2] == 3 && order[3] == 2;
  }

  /** Loading four tracks, turning shuffle on, picking the last row, repeat-all and queueing the unplayable one. */
  lemma HiddenWrapReached() returns (ops: seq<Op>)
    ensures Valid(EMPTY) && Run(EMPTY, ops) == HIDDEN_WRAP
  {
    hide Valid, Apply, Run;
    var loaded := Snapshot([A, B, C, GONE], [0, 1, 2, 3], 0, false, false, RepeatOff, [], -1);
    var mixed := loaded.(shuffle := true, order := [0, 1, 3, 2]);
    Load(loaded);
    RunOne(EMPTY, OpReplace([A, B, C, GONE], NO_DRAWS), loaded);
    var rng := Mix(loaded, mixed);
    var rest := [OpSetIndex(2)] + ([OpSetRepeat(RepeatAll)] + [OpQueue(3)]);
    RunCons(EMPTY, OpReplace([A, B, C, GONE], NO_DRAWS), loaded, [OpToggleShuffle(rng)] + rest);
    RunCons(loaded, OpToggleShuffle(rng), mixed, rest);
    PickRepeatQueue(mixed);
    ops := [OpReplace([A, B, C, GONE], NO_DRAWS)] + ([OpToggleShuffle(rng)] + rest);
  }

  lemma Load(loaded: Snapshot)
    requires loaded == Snapshot([A, B, C, GONE], [0, 1, 2, 3], 0, false, false, RepeatOff, [], -1)
    ensures Valid(EMPTY) && Apply(EMPTY, OpReplace([A, B, C, GONE], NO_DRAWS)) == loaded
  {
    EmptyValid();
    hide Valid;
    assert loaded.order == Identity(4);
  }

  lemma Mix(loaded: Snapshot, mixed: Snapshot) returns (rng: Draws)
    requires loaded == Snapshot([A, B, C, GONE], [0, 1, 2, 3], 0, false, false, RepeatOff, [], -1)
    requires mixed == loaded.(shuffle := true, order := [0, 1, 3, 2]) && Valid(loaded)
    ensures Apply(loaded, OpToggleShuffle(rng)) == mixed
  {
    rng := MixedDrawn();
    ToggleShuffleValid(loaded, rng);
    hide IsPermutation, Identity, Shuffled;
    assert [0] + [1, 3, 2] == [0, 1, 3, 2];
  }

  lemma MixedDrawn() returns (rng: Draws)
    ensures Shuffled(Others(4, 0), rng) == [1, 3, 2]
  {
    assert Others(4, 0) == [1, 2, 3];
    assert multiset([1, 3, 2]) == multiset([1, 2, 3]);
    rng := EveryArrangementIsDrawn([1, 2, 3], [1, 3, 2]);
  }

  lemma SetIndexThird(mixed: Snapshot)
    requires mixed.order == [0, 1, 3, 2]
    ensures SetIndex(mixed, 2) == mixed.(pos := 3, queuedIdx := -1)
  {
    var order := mixed.order;
    assert order[0] == 0 && order[1] == 1 && order[2] == 3 && order[3] == 2;
    IndexOfIs(order, 2, 3);
  }

  lemma PickRepeatQueue(mixed: Snapshot)
    requires Valid(mixed)
    requires mixed == Snapshot([A, B, C, GONE], [0, 1, 3, 2], 0, true, false, RepeatOff, [], -1)
    ensures Run(mixed, [OpSetIndex(2)] + ([OpSetRepeat(RepeatAll)] + [OpQueue(3)])) == HIDDEN_WRAP
  {
    hide Valid, Run;
    var picked := mixed.(pos := 3);
    SetIndexThird(mixed);
    RunCons(mixed, OpSetIndex(2), picked, [OpSetRepeat(RepeatAll)] + [OpQueue(3)]);
    RunCons(picked, OpSetRepeat(RepeatAll), picked.(repeat := RepeatAll), [OpQueue(3)]);
    assert [] + [3] == [3];
    RunOne(picked.(repeat := RepeatAll), OpQueue(3), HIDDEN_WRAP);
  }

  /** A run that ends where PeekNext names one track and Next plays another. */
  lemma PeekNextMisses() returns (ops: seq<Op>, rng: Draws)
    ensures Valid(EMPTY)
    ensures var s := Run(EMPTY, ops); PeekNext(s).Some? && Next(s, rng).1 != PeekNext(s)
  {
    hide Run, Apply;
    ops := HiddenWrapReached();
    HiddenWrapValid();
    rng := OtherDrawn();
  }

  lemma OtherDrawn() returns (rng: Draws)
    ensures Valid(HIDDEN_WRAP)
    ensures PeekNext(HIDDEN_WRAP) == Some(0) && Next(HIDDEN_WRAP, rng).1 == Some(1)
  {
    HiddenWrapValid();
    var s := HIDDEN_WRAP;
    assert s.order[0] == 0 && s.order[3] == 2;
    assert FirstQueued(s.tracks, s.queue, 0) == None;
    assert FirstSlot(s.tracks, s.order, 0, 4) == Some(0);
    var c := s.(queue := []);
    hide IsPermutation, Identity, FirstSlot;
    rng := WrapCanPick(c, 1);
    assert c.(queue := []) == c;
    assert Next(s, rng).1 == Next(c, rng).1;
  }

  // ---- DisableSmart under a queued smart row ----

  const MARKED_B := Track("b", false, true)

  const SMART_PLAYING := Snapshot([A, MARKED_B], [0, 1], 0, true, true, RepeatOff, [], 1)

  lemma SmartPlayingValid()
    ensures Valid(SMART_PLAYING)
  {
    assert SMART_PLAYING.order[0] == 0 && SMART_PLAYING.order[1] == 1;
  }

  /** Shuffle on, one track loaded, one recommended, the recommendation queued and played. */
  lemma SmartPlayingReached() returns (ops: seq<Op>)
    ensures Valid(EMPTY) && Run(EMPTY, ops) == SMART_PLAYING
  {
    hide Valid, Apply, Run;
    var on := EMPTY.(shuffle := true);
    var loaded := on.(tracks := [A], order := [0]);
    LoadOne(on, loaded);
    var rest := [OpEnableSmart] + ([OpAddSmart([B], NO_DRAWS)] + ([OpQueue(1)] + [OpNext(NO_DRAWS)]));
    RunCons(EMPTY, OpToggleShuffle(NO_DRAWS), on, [OpReplace([A], NO_DRAWS)] + rest);
    RunCons(on, OpReplace([A], NO_DRAWS), loaded, rest);
    RecommendQueuePlay(loaded);
    ops := [OpToggleShuffle(NO_DRAWS)] + ([OpReplace([A], NO_DRAWS)] + rest);
  }

  lemma LoadOne(on: Snapshot, loaded: Snapshot)
    requires on == EMPTY.(shuffle := true) && loaded == on.(tracks := [A], order := [0])
    ensures Valid(EMPTY) && Apply(EMPTY, OpToggleShuffle(NO_DRAWS)) == on
    ensures Valid(on) && Apply(on, OpReplace([A], NO_DRAWS)) == loaded
  {
    EmptyValid();
    ApplyValid(EMPTY, OpToggleShuffle(NO_DRAWS));
    assert Identity(1) == [0];
    assert Others(1, 0) == [];
    assert [0] + [] == [0];
  }

  lemma RecommendQueuePlay(loaded: Snapshot)
    requires Valid(loaded) && loaded == Snapshot([A], [0], 0, true, false, RepeatOff, [], -1)
    ensures Run(loaded, [OpEnableSmart] + ([OpAddSmart([B], NO_DRAWS)] + ([OpQueue(1)] + [OpNext(NO_DRAWS)])))
            == SMART_PLAYING
  {
    hide Valid, Run;
    var smart := loaded.(smart := true);
    var mixed := smart.(tracks := [A, MARKED_B], order := [0, 1]);
    RunCons(loaded, OpEnableSmart, smart, [OpAddSmart([B], NO_DRAWS)] + ([OpQueue(1)] + [OpNext(NO_DRAWS)]));
    RecommendOne(smart, mixed);
    RunCons(smart, OpAddSmart([B], NO_DRAWS), mixed, [OpQueue(1)] + [OpNext(NO_DRAWS)]);
    hide Apply;
    QueueAndPlay(mixed);
  }

  lemma QueueAndPlay(mixed: Snapshot)
    requires Valid(mixed) && mixed == Snapshot([A, MARKED_B], [0, 1], 0, true, true, RepeatOff, [], -1)
    ensures Run(mixed, [OpQueue(1)] + [OpNext(NO_DRAWS)]) == SMART_PLAYING
  {
    hide Valid, Run, Next;
    var queued := mixed.(queue := [1]);
    assert [] + [1] == [1];
    RunCons(mixed, OpQueue(1), queued, [OpNext(NO_DRAWS)]);
    PlaysQueuedRow(queued);
    RunOne(queued, OpNext(NO_DRAWS), SMART_PLAYING);
  }

  lemma RecommendOne(smart: Snapshot, mixed: Snapshot)
    requires smart == Snapshot([A], [0], 0, true, true, RepeatOff, [], -1)
    requires mixed == smart.(tracks := [A, MARKED_B], order := [0, 1]) && Valid(smart)
    ensures Apply(smart, OpAddSmart([B], NO_DRAWS)) == mixed
  {
    assert MarkSmart([B]) == [MARKED_B];
    var longer := Append(smart, [MARKED_B]);
    assert longer.tracks == [A, MARKED_B] && longer.order == [0, 1];
    assert longer.order[1..] == [1] && longer.order[..1] == [0];
    assert [0] + [1] == [0, 1];
  }

  lemma PlaysQueuedRow(queued: Snapshot)
    requires Valid(queued) && queued == Snapshot([A, MARKED_B], [0, 1], 0, true, true, RepeatOff, [1], -1)
    ensures Next(queued, NO_DRAWS).0 == SMART_PLAYING
  {
    hide IsPermutation, Identity;
    assert FirstQueued(queued.tracks, queued.queue, 0) == Some(0);
  }

  /** A run that ends with a smart row playing, which DisableSmart then takes away. */
  lemma DisableSmartCutsQueuedRow() returns (ops: seq<Op>)
    ensures Valid(EMPTY)
    ensures var s := Run(EMPTY, ops);
            && s.tracks != [] && CurrentTrack(s) == MARKED_B
            && Valid(DisableSmart(s)) && DisableSmart(s).tracks != [] && DisableSmart(s).queuedIdx == -1
            && CurrentTrack(DisableSmart(s)) == A
  {
    hide Run, Apply, DisableSmart;
    ops := SmartPlayingReached();
    SmartPlayingValid();
    var s := SMART_PLAYING;
    SmartAheadIs(s, 1);
    DisableSmartKeepsCurrent(s);
    DisableSmartQueued(s);
  }

  // ---- DisableSmart over a row that has played ----

  const MIXED := Snapshot([A, MARKED_B], [0, 1], 0, true, true, RepeatOff, [], -1)

  lemma LogsCons(calls: seq<Call>, log: Log, op: Op, t: Log)
    requires Logs(calls)[|calls|] == log && Named(log) && After(log, op) == t
    ensures Logs(calls + [Mutate(op)])[|calls| + 1] == t
  {
    hide *;
    LogsLast(calls + [Mutate(op)]);
    Prefix(calls, Mutate(op));
  }

  lemma Prefix(calls: seq<Call>, call: Call)
    ensures (calls + [call])[..|calls|] == calls
  {
  }

  /**
   Shuffle on, one track loaded, one recommended; Next plays the recommendation and Prev goes back. The smart row has
   played, and DisableSmart takes it away.
   */
  lemma PlayedRowGoes() returns (calls: seq<Call>)
    ensures var log := Logs(calls)[|calls|];
            && log.s == MIXED && 1 in log.ids && 1 in log.played && MIXED.tracks[1].smart && log.ids[1] == 1
            && 1 !in After(log, OpDisableSmart).ids
            && Valid(MIXED) && DisableSmart(MIXED).tracks == [A]
  {
    hide Logs, Named, After, Valid, Apply, DisableSmart;
    calls := PlayedAndBack();
    var log := Logs(calls)[|calls|];
    assert Named(log);
    RowGoes(log);
  }

  lemma RowGoes(log: Log)
    requires Named(log) && log == Log(MIXED, [0, 1], 2, {0, 1})
    ensures 1 !in After(log, OpDisableSmart).ids
    ensures Valid(MIXED) && DisableSmart(MIXED).tracks == [A]
  {
    MixedAhead();
    assert Deleted([0, 1], 1) == [0];
    assert DeletedBelow([0], {1}, 1) == [0];
    assert DeletedBelow([0, 1], {1}, 2) == [0];
    assert Deleted([A, MARKED_B], 1) == [A];
    assert DeletedBelow([A], {1}, 1) == [A];
    assert DeletedBelow([A, MARKED_B], {1}, 2) == [A];
    hide Valid, SmartAhead, DeletedBelow;
    TracksAfter(MIXED, OpDisableSmart);
  }

  lemma MixedAhead()
    ensures Valid(MIXED) && SmartAhead(MIXED) == {1}
  {
    assert MIXED.order[0] == 0 && MIXED.order[1] == 1;
    assert Ahead(MIXED) == [1];
    assert SmartRefs(MIXED.tracks, [1]) == [1];
  }

  lemma PlayedAndBack() returns (calls: seq<Call>)
    ensures Logs(calls)[|calls|] == Log(MIXED, [0, 1], 2, {0, 1})
  {
    hide Logs, Named, After, Valid, Apply;
    calls := RecommendedLog();
    var mixed, moved := Log(MIXED, [0, 1], 2, {0}), Log(MIXED.(pos := 1), [0, 1], 2, {0, 1});
    assert Named(mixed);
    NextAndPrev(mixed, moved);
    LogsCons(calls, mixed, OpNext(NO_DRAWS), moved);
    calls := calls + [Mutate(OpNext(NO_DRAWS))];
    assert Named(moved);
    LogsCons(calls, moved, OpPrev, Log(MIXED, [0, 1], 2, {0, 1}));
    calls := calls + [Mutate(OpPrev)];
  }

  lemma NextAndPrev(mixed: Log, moved: Log)
    requires Named(mixed) && mixed == Log(MIXED, [0, 1], 2, {0}) && moved == Log(MIXED.(pos := 1), [0, 1], 2, {0, 1})
    ensures After(mixed, OpNext(NO_DRAWS)) == moved
    ensures Named(moved) && After(moved, OpPrev) == Log(MIXED, [0, 1], 2, {0, 1})
  {
    hide IsPermutation, Identity;
    assert FirstSlot(MIXED.tracks, MIXED.order, 1, 2) == Some(1);
    assert LastSlot(MIXED.tracks, MIXED.order, 0) == Some(0);
    assert {0} + {1} == {0, 1} && {0, 1} + {0} == {0, 1};
  }

  lemma RecommendedLog() returns (calls: seq<Call>)
    ensures Logs(calls)[|calls|] == Log(MIXED, [0, 1], 2, {0})
  {
    hide Logs, Named, After, Valid, Apply;
    var on := EMPTY.(shuffle := true);
    var loaded := on.(tracks := [A], order := [0]);
    StartNamed();
    LoadOne(on, loaded);
    var log := Log(on, [], 0, {});
    assert Logs([])[0] == START;
    OnLog(log);
    LogsCons([], START, OpToggleShuffle(NO_DRAWS), log);
    calls := [Mutate(OpToggleShuffle(NO_DRAWS))];
    assert [] + [Mutate(OpToggleShuffle(NO_DRAWS))] == calls;
    var one := Log(loaded, [0], 1, {0});
    LoadedLog(log, one);
    LogsCons(calls, log, OpReplace([A], NO_DRAWS), one);
    calls := calls + [Mutate(OpReplace([A], NO_DRAWS))];
    var smart := one.(s := loaded.(smart := true));
    SmartLog(one, smart);
    LogsCons(calls, one, OpEnableSmart, smart);
    calls := calls + [Mutate(OpEnableSmart)];
    LogsCons(calls, smart, OpAddSmart([B], NO_DRAWS), Log(MIXED, [0, 1], 2, {0}));
    calls := calls + [Mutate(OpAddSmart([B], NO_DRAWS))];
  }

  lemma OnLog(log: Log)
    requires log == Log(EMPTY.(shuffle := true), [], 0, {})
    ensures Named(START) && After(START, OpToggleShuffle(NO_DRAWS)) == log && Named(log)
  {
    StartNamed();
  }

  lemma LoadedLog(log: Log, one: Log)
    requires Named(log) && log == Log(EMPTY.(shuffle := true), [], 0, {})
    requires one == Log(log.s.(tracks := [A], order := [0]), [0], 1, {0})
    ensures After(log, OpReplace([A], NO_DRAWS)) == one && Named(one)
  {
    hide Valid, Apply;
    LoadOne(log.s, one.s);
    assert NewIds(0, 1) == [0];
    assert {} + {0} == {0};
  }

  lemma SmartLog(one: Log, smart: Log)
    requires Named(one) && one == Log(EMPTY.(shuffle := true, tracks := [A], order := [0]), [0], 1, {0})
    requires smart == one.(s := one.s.(smart := true))
    ensures After(one, OpEnableSmart) == smart && Named(smart)
    ensures After(smart, OpAddSmart([B], NO_DRAWS)) == Log(MIXED, [0, 1], 2, {0})
  {
    hide Valid;
    assert {0} + {0} == {0};
    assert Apply(one.s, OpEnableSmart) == smart.s;
    hide Apply;
    RecommendOne(smart.s, MIXED);
    assert [0] + NewIds(1, 1) == [0, 1];
  }

  // ---- Remove of the current track ----

  const THREE := Snapshot([A, B, C], [0, 1, 2], 0, false, false, RepeatOff, [], -1)

  /** Three tracks are loaded and the first is removed: the second becomes current, and Next plays the third. */
  lemma RemovePassesSuccessor() returns (ops: seq<Op>)
    ensures Valid(EMPTY)
    ensures var s := Run(EMPTY, ops);
            && s.tracks != [] && CurrentTrack(s) == A
            && var t := Remove(s, CurrentIndex(s)).0;
            && Valid(t) && t.tracks == [B, C] && CurrentTrack(t) == B && Next(t, NO_DRAWS).1 == Some(1)
  {
    hide Run, Apply, Next, Remove, Valid;
    LoadThree();
    ops := [OpReplace([A, B, C], NO_DRAWS)];
    RunOne(EMPTY, ops[0], THREE);
    NextPlaysThird();
  }

  lemma LoadThree()
    ensures Valid(EMPTY) && Apply(EMPTY, OpReplace([A, B, C], NO_DRAWS)) == THREE && Valid(THREE)
  {
    EmptyValid();
    assert Identity(3) == [0, 1, 2];
    ReplaceValid(EMPTY, [A, B, C], NO_DRAWS);
  }

  lemma NextPlaysThird()
    ensures Valid(THREE) && THREE.tracks != [] && CurrentTrack(THREE) == A && CurrentIndex(THREE) == 0
    ensures var t := Remove(THREE, 0).0;
            Valid(t) && t.tracks == [B, C] && CurrentTrack(t) == B && Next(t, NO_DRAWS).1 == Some(1)
  {
    LoadThree();
    var t := Remove(THREE, 0).0;
    assert PlaySequence(THREE) == [A, B, C];
    assert t.tracks == [B, C];
    hide IsPermutation, Identity, Next, Remove;
    NextAfterRemove(THREE, NO_DRAWS);
    assert PlaySequence(THREE)[2..] == [C];
    assert FirstPlayable([C]) == Some(C);
  }
}
