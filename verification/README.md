# Verification of cliamp's stateful core

A Dafny model of the parts of cliamp whose correctness rests on state, loops or interleavings, with proofs of what
they promise. `dafny verify dfyconfig.toml` checks all of it.

## What is modelled

**Playlist** (`Shuffle`, `PlaylistState`, `PlaylistInvariant`, `PlaylistNavigation`, `PlaylistLaps`, `PlaylistEditing`,
`PlaylistPlayed`, `PlaylistRemoval`, `PlaylistOperations`, `PlaylistPlaying`, `PlaylistInstances`, `Playlist`).
`PlaylistState` gives every operation as a function on the state that the source's own `Snapshot` names. The class
`PlaylistObject.Playlist` has the source's fields, the cached queue map among them, and its methods run the source's
loops; each is proved to leave the state the function gives. The other modules prove what the operations promise about
each other and over whole runs. `rand.Intn` is a parameter: a `Draws` value answers it for each loop index, and the
shuffles it produces are proved to be exactly the rearrangements.

**Configuration text** (the `Config` modules). The scanners for strings and lists, and the two line editors. The judge
is the line loop of `Load`: it turns a file into events (section headers and bindings with their section), and the
editors are proved to change just the intended events, on every file. What a line, a string, a list or a header means
is also told from the text as people type it.

**Small protocols** (`SyncQueue`, `PubSub`, `PubSubSteps`, `Gapless`, `OrderedSender`). A class holds the shared
fields, with one method for each section of code under a lock. A run is any sequence of such sections, so it covers
every interleaving of the callers; the results are about all runs.

**Audio buffers** (`LivePrefetch`, `Tap`, `Icy`, `IcyTitles`, `Wsola`). Rings are arrays with the source's indices and
loops. Samples and scores are reals.

**History** (`History`). The capped move-to-front list against the list of all plays. `Common` holds the types that
several modules share.

## Where the code does less than its comments say

The code is modelled as it is. For each of these there is a concrete instance and the exact condition under which the
promise holds.

- `PeekNext` answers "no prediction" at a shuffle wrap, except when the queue still holds entries that are all
  unplayable: it then names a track that `Next`, which clears the queue first, may not play (`PeekNextPredicts`,
  `PeekNextMisses`).
- `DisableSmart` (playlist/playlist.go:977-981) promises to keep the smart rows that have played, "including the current
  one", and to remove the others. It goes by the cursor instead: a row that played before a `Prev`, or that plays from
  the queue, can stand behind the cursor. All played rows stay exactly if none of them is a smart row behind the cursor,
  and all other smart rows go exactly if these all stand there (`DisableSmartAndPlayed`; `PlayedRowGoes`,
  `DisableSmartCutsQueuedRow`). For the current row alone: `DisableSmartKeepsCurrent`.
- `Remove` of the active track (803-806) leaves the cursor on its slot "so playback advances naturally on next". The
  successor is then current, and `Next` passes it over. With repeat off and nothing queued, `Next` plays what it would
  have played exactly if the successor is missing or unplayable; `NextAfterRemoveExactly` gives the condition for every
  repeat mode and queue, `RemovePassesSuccessor` is the instance. Removing any other row leaves `Next` alone
  (`NextAfterRemoveElsewhere`).
- `SaveSection` (config/config.go:1274-1280) keeps every comment line, but a comment behind a value goes with the line
  that is rewritten or removed: all comments behind values stay exactly if no line of the section that carries one binds
  a key that is set or owned (`EditSectionTrailing`, `StylesReplaceText`, `CommentIsLost`). It "keeps every other line",
  except that blank lines at the end of the file go when the section is appended (`EditSectionKeepsLines`,
  `BlankLinesGo`). A top-level save (1125-1127) loses the comments behind its key's values in the same way
  (`TopLevelSaveTrailing`).
- `SaveSection` and `save` check keys for line breaks only. A key that no line can bind, such as `a=b`, or a section name
  that its header does not name, is written but does not read back (`EditSectionExactly`, `SplitKeyMisses`,
  `TopLevelExactly`).
- A saved top-level key is overridden by the same key in a section `Load` has no configuration for, because such keys
  fall through to the top level; a stray text that the setting refuses does not count (`TopLevelSave`,
  `TopLevelSaveMisses`, `RefusedTextDoesNotCount`).
- `Publish` keeps one slot of every channel free, except in a subscription to 32 topics that are all retained: its
  replay fills the channel, and `Publish` waits for the subscriber (`BlocksOnlyOnFullReplay`, `PublishCanWait`).
- A read of no samples from a full prefetch ring clears the full flag and so drops the ring (`StreamConserves`,
  `EmptyReadLosesRing`).
- A stream title that holds `';` is cut there (`TitleReadsBack`, `TitleIsCut`).

## Model

| member | source | states |
|---|---|---|
| `PlaylistObject.Playlist.constructor` | playlist/playlist.go:70-72 | a new playlist is valid and empty, with no queued track |
| `PlaylistObject.Playlist.RebuildQueuePositions` | playlist/playlist.go:74-85 | the loop leaves exactly the map from each queued index to its first 1-based position |
| `PlaylistObject.Playlist.QueuePosition` | playlist/playlist.go:607-611 | the cached lookup equals a search of the queue, 0 when not queued |
| `PlaylistObject.Playlist.OrderPosition` | playlist/playlist.go:926-937 | the slot that holds the track; the shortcut without shuffle agrees with the search; -1 out of range |
| `PlaylistObject.Playlist.FirstPlayableOrderSlot` | playlist/playlist.go:240-248 | the loop finds the first playable slot of the range, or none |
| `PlaylistObject.Playlist.NextPlayableQueued` | playlist/playlist.go:263-270 | the first playable queue entry and exactly the entries behind it |
| `PlaylistObject.Playlist.PlayableAmong` | playlist/playlist.go:643-653 | the first `limit` playable tracks in order |
| `PlaylistObject.Playlist.Upcoming` | playlist/playlist.go:643-653 | the first `limit` playable tracks behind the cursor; nothing for a limit of 0 or less |
| `PlaylistObject.Playlist.SmartPending` | playlist/playlist.go:1006-1016 | counts the smart rows behind the cursor |
| `PlaylistObject.Playlist.Snapshot` | playlist/playlist.go:679-696 | returns the whole mutable state, a valid one |
| `PlaylistObject.Playlist.Restore` | playlist/playlist.go:709-725 | brings back a snapshot completely, cached positions included |
| `PlaylistObject.Playlist.DoShuffle` | playlist/playlist.go:1091-1107 | the current track first, then the others as the draws shuffle them |
| `PlaylistObject.Playlist.Replace` | playlist/playlist.go:142-161 | new tracks, order and cursor; queue and queued track are dropped; the invariant holds |
| `PlaylistObject.Playlist.Add` | playlist/playlist.go:164-203 | appends, and under shuffle mixes only the slots behind the cursor; the invariant holds |
| `PlaylistObject.Playlist.AddSmart` | playlist/playlist.go:1030-1066 | the state of the specification function; `AddSmartMarks` and `AddSmartDrawsAny` say which rows and slots that is |
| `PlaylistObject.Playlist.NextShuffleWrap` | playlist/playlist.go:272-285 | reshuffles, plays the first playable slot behind slot 0, else slot 0, else puts the order back |
| `PlaylistObject.Playlist.AdvanceFromOrder` | playlist/playlist.go:287-298 | forward scan, then wrap or reshuffle only with repeat-all |
| `PlaylistObject.Playlist.Next` | playlist/playlist.go:403-462 | the whole new state and the track returned, for every mode, queue and draw |
| `PlaylistObject.Playlist.HasNext` | playlist/playlist.go:469-489 | the same answer as the specification function |
| `PlaylistObject.Playlist.PeekNext` | playlist/playlist.go:493-517 | the specified prediction, with no change of state |
| `PlaylistObject.Playlist.Prev` | playlist/playlist.go:521-553 | the whole new state, the track, and whether it moved |
| `PlaylistObject.Playlist.ActivateSelected` | playlist/playlist.go:378-398 | the whole new state, the activated track, and whether rows were skipped |
| `PlaylistObject.Playlist.SetIndex` | playlist/playlist.go:556-571 | moves the cursor to the slot of the track and ends a queued track |
| `PlaylistObject.Playlist.Queue` | playlist/playlist.go:574-588 | appends a valid index; the cached map stays that of the new queue although only one entry is written |
| `PlaylistObject.Playlist.Dequeue` | playlist/playlist.go:591-603 | the state and result of the specification function, with the cached map rebuilt; `DequeueTakesFirst` says index by index what that is |
| `PlaylistObject.Playlist.RemoveQueueAt` | playlist/playlist.go:728-736 | the state of the specification function, with the cached map rebuilt; index by index in `RemoveQueueAtTakesOne` |
| `PlaylistObject.Playlist.MoveQueue` | playlist/playlist.go:739-749 | the state and result of the specification function, with the cached map rebuilt; index by index in `MoveQueueSwaps` |
| `PlaylistObject.Playlist.Move` | playlist/playlist.go:754-800 | swaps two rows and remaps order, queue, cached map, queued index and cursor; the invariant holds |
| `PlaylistObject.Playlist.Remove` | playlist/playlist.go:813-866 | deletes one row and remaps everything that points at rows; the invariant holds |
| `PlaylistObject.Playlist.DisableSmart` | playlist/playlist.go:982-1001 | removes the pending smart rows highest index first; returns the prior SmartPending, which is the number of rows gone |
| `PlaylistObject.Playlist.ToggleShuffle` | playlist/playlist.go:1070-1089 | turns shuffle on by shuffling and off by going back to track order at the current track |
| `PlaylistInvariant.States` | playlist/playlist.go:35-47 | every state that any sequence of mutator calls, and Restores of snapshots taken earlier in it, reaches from the empty playlist satisfies the representation invariant |
| `PlaylistInvariant.ApplyValid` | playlist/playlist.go:35-47 | each mutator keeps the invariant: order is a permutation, identity without shuffle; cursor, queue and queued index in range |
| `PlaylistInvariant.RemoveValid` | playlist/playlist.go:813-866 | Remove keeps the invariant |
| `PlaylistInvariant.MoveValid` | playlist/playlist.go:754-800 | Move keeps the invariant |
| `PlaylistInvariant.NextValid` | playlist/playlist.go:403-462 | Next keeps the invariant, also through a reshuffle |
| `PlaylistInvariant.FirstPositions` | playlist/playlist.go:74-85 | a map that holds the first position of every queued index is the cached map; there is no other |
| `PlaylistInvariant.AppendedPosition` | playlist/playlist.go:574-588 | queueing an index changes the map only if the index was not queued before |
| `Shuffle.FisherYates` | playlist/playlist.go:1091-1107 | the swap loop computes the specified shuffle |
| `Shuffle.ShuffledRearranges` | playlist/playlist.go:1091-1107 | a shuffle loses, invents and repeats nothing |
| `Shuffle.EveryArrangementIsDrawn` | playlist/playlist.go:1091-1107 | every rearrangement is the outcome of some draws |
| `Shuffle.DrawsAreDetermined` | playlist/playlist.go:1091-1107 | different draws give different orders, so fair draws make every order equally likely |
| `PlaylistNavigation.HasNextIsNext` | playlist/playlist.go:464-489 | HasNext is the success of Next in every state, at a shuffle wrap for every reshuffle |
| `PlaylistNavigation.NextOutcome` | playlist/playlist.go:403-462 | a failing Next changes only an unplayable queue; a succeeding one makes a playable track current |
| `PlaylistNavigation.PeekNextIsNext` | playlist/playlist.go:491-517 | what PeekNext shows is what Next plays, unless a queue without playable entries hides a shuffle wrap |
| `PlaylistNavigation.PeekNextPredicts` | playlist/playlist.go:491-517 | PeekNext names the next track for every draw if and only if there is no hidden wrap with more than one candidate |
| `PlaylistNavigation.PeekNextNone` | playlist/playlist.go:491-517 | where PeekNext shows nothing, Next succeeds if and only if a shuffle wrap has something playable |
| `PlaylistInstances.PeekNextMisses` | playlist/playlist.go:493-517 | a run from the empty playlist that ends where PeekNext names one track and Next plays another |
| `PlaylistNavigation.WrapCanPick` | playlist/playlist.go:272-285 | at a wrap, any playable track but the current one can be drawn next |
| `PlaylistNavigation.WrapAvoidsRepeat` | playlist/playlist.go:272-285 | at a wrap the track just played is not played again while another is playable |
| `PlaylistNavigation.PlaythroughPlaysQueueThenUpcoming` | playlist/playlist.go:403-462 | with repeat off, Next until failure plays the playable queue entries in order, then exactly what Upcoming listed; the run ends |
| `PlaylistNavigation.PlaythroughKeepsOrder` | playlist/playlist.go:403-462 | on that run the order never changes, and the cursor stays while the queue plays |
| `PlaylistNavigation.PrevUndoesNext` | playlist/playlist.go:521-553 | Prev undoes a Next that moved forward from a playable track |
| `PlaylistNavigation.RepeatOneStays` | playlist/playlist.go:403-462 | with repeat-one and nothing playable queued, Next returns the track at the cursor, and from then on the state is fixed |
| `PlaylistNavigation.NextIsNearest` | playlist/playlist.go:287-298 | past the queue Next takes the nearest playable slot ahead and wraps only with repeat-all and nothing playable ahead |
| `PlaylistNavigation.PrevIsNearest` | playlist/playlist.go:521-553 | Prev takes the nearest playable slot behind, with the same rule; otherwise nothing changes and there was none |
| `PlaylistNavigation.QueuedPlaysNext` | playlist/playlist.go:574-588 | a playable track queued behind nothing playable is what Next plays, and the cursor stays |
| `PlaylistNavigation.DequeueUndoesQueue` | playlist/playlist.go:591-603 | Dequeue undoes Queue for a track that was not queued before |
| `PlaylistNavigation.MoveQueueTwice` | playlist/playlist.go:739-749 | the same MoveQueue again restores the queue |
| `PlaylistNavigation.SetIndexSelects` | playlist/playlist.go:556-571 | the track becomes current and nothing but cursor and queued index changes |
| `PlaylistNavigation.ActivateSelectedOutcome` | playlist/playlist.go:300-314 | the activated row is the first playable one from the cursor on, wrapping only with repeat-all; failure means there is none |
| `PlaylistLaps.LapInOrder` | playlist/playlist.go:287-298 | repeat-all without shuffle, from any slot: as many Next calls as there are playable tracks play each exactly once, in list order from behind the cursor |
| `PlaylistLaps.LapShuffled` | playlist/playlist.go:272-298 | repeat-all with shuffle, from the wrap and for every draw: as many Next calls as there are other playable tracks play each of these exactly once |
| `PlaylistEditing.RemoveKeepsTheRest` | playlist/playlist.go:813-866 | Remove takes the track out of the play sequence and the queue and keeps everything else in order |
| `PlaylistEditing.RemoveKeepsCurrent` | playlist/playlist.go:813-866 | the current track, queued or not, stays current unless it is the one removed |
| `PlaylistEditing.RemoveCurrent` | playlist/playlist.go:803-866 | removing the active track: the cursor keeps its slot and the successor becomes current, at the end the predecessor; a track removed while it played from the queue gives way to the one at the cursor |
| `PlaylistEditing.RemoveDeletesSlot` | playlist/playlist.go:813-866 | Remove deletes exactly one slot of the play sequence |
| `PlaylistRemoval.NextAfterRemoveExactly` | playlist/playlist.go:803-806 | removing the row at the cursor, for every queue and repeat mode and for every draw unless a new order is drawn: Next then plays what it would have played, if and only if the stated condition on successor, queue and playable rows holds |
| `PlaylistRemoval.NextAfterRemoveElsewhere` | playlist/playlist.go:801-866 | removing any other row leaves what Next plays as it was, unless it is that row |
| `PlaylistInstances.RemovePassesSuccessor` | playlist/playlist.go:803-806 | a run of three tracks in which the second is passed over |
| `PlaylistEditing.MoveKeepsPlayback` | playlist/playlist.go:751-800 | Move keeps the queue contents, and under shuffle the whole play sequence; without shuffle it swaps two tracks |
| `PlaylistEditing.MoveKeepsCurrent` | playlist/playlist.go:751-800 | Move keeps the current track, queued or not, and the track at the cursor |
| `PlaylistEditing.MoveTwice` | playlist/playlist.go:754-800 | the same Move again restores the whole state |
| `PlaylistEditing.DisableSmartDropsSmartRowsAhead` | playlist/playlist.go:984-1000 | exactly the smart rows behind the cursor go, from list, play sequence and queue; slots up to the cursor and the order of all survivors stay |
| `PlaylistPlayed.DisableSmartAndPlayed` | playlist/playlist.go:977-1001 | at any moment of any run, Restores included: every played row stays if and only if none of them is a smart row behind the cursor, and every unplayed smart row goes if and only if all of them are |
| `PlaylistPlayed.TracksFollow` | playlist/playlist.go:142-1066 | the ids that tell rows apart follow them through every operation: an old id names the same track as before, unless the track was set |
| `PlaylistPlayed.LogsAreStates` | playlist/playlist.go:35-47 | the runs with ids and played rows are the runs of States |
| `PlaylistInstances.PlayedRowGoes` | playlist/playlist.go:977-1001 | a run from the empty playlist in which a smart row plays, Prev goes back, and DisableSmart takes the row away |
| `PlaylistEditing.DisableSmartKeepsCurrent` | playlist/playlist.go:977-1005 | a track playing from the queue goes on if and only if it is not a smart row ahead of the cursor, else the cursor's track is current; a track playing at the cursor always stays |
| `PlaylistInstances.DisableSmartCutsQueuedRow` | playlist/playlist.go:977-1005 | a run from the empty playlist to a smart row playing from the queue, which DisableSmart takes away |
| `PlaylistEditing.DisableSmartCount` | playlist/playlist.go:977-1001 | the list shrinks by the prior SmartPending |
| `PlaylistEditing.DisableSmartClearsPending` | playlist/playlist.go:1003-1016 | SmartPending is 0 afterwards |
| `PlaylistEditing.AddKeepsUpToCursor` | playlist/playlist.go:164-203 | Add keeps the slots up to the cursor and the current track, and the new play sequence is a rearrangement of old and new tracks |
| `PlaylistEditing.ToggleShuffleKeepsCurrent` | playlist/playlist.go:1070-1089 | both directions keep tracks, queue, current track and the track at the cursor |
| `PlaylistOperations.QueueAppends` | playlist/playlist.go:574-588 | a row of the list goes to the end of the queue, entries before it and everything else stay; any other index changes nothing |
| `PlaylistOperations.DequeueTakesFirst` | playlist/playlist.go:591-603 | found if and only if queued; then the queue is one shorter, entries before the first one of that row keep their index, those behind it move up by one, and all other fields stay |
| `PlaylistOperations.RemoveQueueAtTakesOne` | playlist/playlist.go:728-736 | the same for one position; a position outside the queue changes nothing |
| `PlaylistOperations.MoveQueueSwaps` | playlist/playlist.go:739-749 | moved if and only if both positions exist and differ; then these two entries change places and no other does |
| `PlaylistOperations.MoveSwapsRows` | playlist/playlist.go:754-800 | the same for two rows of the list; the modes stay |
| `PlaylistOperations.RemoveTakesRow` | playlist/playlist.go:806-866 | removed if and only if the row exists; the rows behind it move up by one; the modes stay |
| `PlaylistOperations.SetTrackSetsOne` | playlist/playlist.go:869-881 | exactly one row changes |
| `PlaylistOperations.SetIndexMisses` | playlist/playlist.go:556-571 | an index that is no row leaves the cursor, but a queued track ends |
| `PlaylistOperations.ReplaceLoads` | playlist/playlist.go:142-161 | exactly the given tracks, with nothing queued, the cursor on the first slot and, under shuffle, the first track there; the modes stay |
| `PlaylistOperations.ReplaceDrawsAny` | playlist/playlist.go:142-161 | under shuffle every arrangement of the tracks behind the first one can be drawn |
| `PlaylistOperations.AddAppends` | playlist/playlist.go:164-203 | the tracks go behind all rows; slots up to the cursor, queue and modes stay; without shuffle the new slots follow in list order |
| `PlaylistOperations.AddDrawsAny` | playlist/playlist.go:164-203 | under shuffle every arrangement of the slots behind the cursor, old and new, can be drawn |
| `PlaylistOperations.AddSmartMarks` | playlist/playlist.go:1030-1066 | every row added is smart and otherwise as given; all rows before it and all slots up to the cursor stay; nothing happens without shuffle |
| `PlaylistOperations.AddSmartDrawsAny` | playlist/playlist.go:1030-1066 | every arrangement of the slots behind the cursor, old and new, can be drawn |
| `PlaylistOperations.ToggleShuffleOrders` | playlist/playlist.go:1070-1107 | on: the row at the cursor comes first; off: list order, with the cursor on the same row |
| `PlaylistOperations.ToggleShuffleDrawsAny` | playlist/playlist.go:1070-1107 | every arrangement of the other rows can be drawn |
| `PlaylistPlaying.PlaysOnlyPlayable` | playlist/playlist.go:236-238 | what Next, PeekNext, Prev and ActivateSelected give out is a row that is not unplayable |
| `PlaylistPlaying.QueueHeadPlays` | playlist/playlist.go:403-426 | a playable row at the head of the queue plays next and leaves the queue; the rest of the state stays |
| `PlaylistPlaying.FollowingPlays` | playlist/playlist.go:287-298 | with nothing queued a playable row right behind the cursor plays next, with repeat-one the row at the cursor |
| `PlaylistPlaying.PrecedingPlays` | playlist/playlist.go:521-553 | a playable row right before the cursor is the one Prev goes back to; a playable row at the cursor is the one activated |
| `PlaylistPlaying.MixedOnlyAtTheEnd` | playlist/playlist.go:352-354 | Next leaves the play sequence alone unless repeat-all and shuffle are on, the cursor is on the last slot, nothing playable is queued and nothing plays from the queue |
| `PlaylistPlaying.MixedAtTheEnd` | playlist/playlist.go:272-285 | there, for every other playable row some draws play it next |
| `ConfigCodec.Unquote` | config/config.go:73-108 | the scanner with its escape state computes the specified value; what that is for text as typed is in `DoubleQuotedReads`, `SingleQuotedReads`, `UnquotedReads`, `MissingCloseReads` and `TextBehindReads` |
| `ConfigCodec.QuoteRoundTrip` | config/config.go:128-136 | what QuoteString writes, with or without a comment behind it, is read back unchanged, for every string |
| `ConfigTyped.DoubleQuotedReads` | config/config.go:67-98 | typed text in double quotes, with or without a comment behind it: only a backslash before a quote or a backslash goes, every other character is kept |
| `ConfigTyped.PathReads` | config/config.go:67-70 | so `"D:\new"`, and any text without quotes in which no backslash stands before a backslash or at the end, reads as typed |
| `ConfigTyped.SingleQuotedReads` | config/config.go:70-72 | text in single quotes is literal, backslashes included |
| `ConfigTyped.UnquotedReads` | config/config.go:71-76 | a value that does not start with a quote reads as itself, `#` included |
| `ConfigTyped.MissingCloseReads` | config/config.go:97-102 | without a closing quote, the rest of the line but for stray quotes at its end |
| `ConfigTyped.TextBehindReads` | config/config.go:103-108 | with text behind the closing quote, the outer pair goes if the line ends in the same quote; else nothing does |
| `ConfigTyped.AfterCloseIs` | config/config.go:120-126 | what may follow a closing quote or bracket: blanks, and then nothing or a comment |
| `ConfigCodec.ListEnd` | config/config.go:1509-1527 | the scanner finds the closing bracket outside quotes |
| `ConfigCodec.ListEndSkipsQuoted` | config/config.go:1507-1527 | a quoted item is skipped whole, whatever brackets, quotes and backslashes it holds |
| `ConfigCodec.SplitItems` | config/config.go:1533-1554 | the nested scanning loops compute the specified split |
| `ConfigCodec.SplitSkipsQuoted` | config/config.go:1529-1554 | commas inside a quoted item do not split it |
| `ConfigCodec.ParseStringSlice` | config/config.go:1559-1570 | the loop computes the specified list |
| `ConfigCodec.ListRoundTrip` | config/config.go:1261-1267 | a written list, with or without a comment behind it, is parsed back to its non-empty strings in order |
| `ConfigTypedList.ListReads` | config/config.go:1529-1570 | a typed list without brackets, of bare, single-quoted and double-quoted items with any blanks around them, reads as its items in order without the empty ones; `Jazz's, Rock` is two |
| `ConfigTypedList.BracketedListReads` | config/config.go:1492-1570 | the same in brackets, with or without a comment behind them |
| `ConfigTypedList.ApostropheListReads` | config/config.go:1492-1570 | the same although an apostrophe in a bare item hides the closing bracket |
| `ConfigTypedList.UnclosedListReads` | config/config.go:1492-1570 | a list whose closing bracket is missing reads to the end of the line |
| `ConfigSave.EditSectionText` | config/config.go:1292-1366 | the line loop, the missing keys and the insertion produce the specified text; the laws on its events and lines follow |
| `ConfigSave.SaveSection` | config/config.go:1281-1288 | fails exactly if a key or value holds a line break; otherwise the text is that of editSection, with the section names of `SameSectionExactly` taken as one |
| `ConfigSectionExact.EditSectionExactly` | config/config.go:1274-1366 | for every file and every input without line breaks in kv: the section binds every given key, each binding to the given value, no other owned key, and all else Load reads is as before in the same order, if and only if every key can be bound by a line and a header that must be added names the section |
| `ConfigSectionEdit.ReadsBackExactly` | config/config.go:1323-1337 | a rewritten line reads back as its key and value if and only if the key can be bound: trimmed, without `=`, no comment, and not a header together with the value |
| `ConfigSectionTheorem.EditSectionValues` | config/config.go:1274-1366 | on the inputs of `EditSectionExactly`, the last values by section and key: given keys set, owned keys gone, all others unchanged |
| `ConfigSectionTwice.EditSectionTwice` | config/config.go:1292-1366 | on those inputs, editing twice gives the same text, byte for byte, as editing once |
| `ConfigNames.HeaderOpens` | config/config.go:945-959 | a header opens the section ytmusic if its name is yt, youtube or ytmusic in any letter case, and else the section of its own spelling without capitals |
| `ConfigNames.SameSectionExactly` | config/config.go:945-959 | two headers open the same section if and only if their names differ in letter case only or both are names of the YouTube section |
| `ConfigNames.BindingsBelow` | config/config.go:842-912 | a key belongs to the section the last header before it opened |
| `ConfigNames.YouTubeReads` | config/config.go:945-959 | a key under any spelling of the YouTube header is one of ytmusic |
| `ConfigNames.YouTubeSaved` | config/config.go:1274-1366 | saving the section by any of its names into a file with a header of any of them adds no header, gives the key its value wherever the section binds it, and leaves all other sections |
| `ConfigNames.YouTubeInPlace` | config/config.go:1278-1337 | the exact text: a file of one such header and one key keeps its header, and the line under it is rewritten |
| `ConfigLines.KeyLineReads` | config/config.go:844-880 | a key and its value read back whatever blanks, tabs and CRs stand around them |
| `ConfigLines.CommentReads` | config/config.go:845-847 | a line that starts with `#` binds nothing |
| `ConfigLines.HeaderReads` | config/config.go:932-943 | a name in brackets is a header, with or without a comment behind it |
| `ConfigLines.TextBehindHeader` | config/config.go:932-943 | with other text behind the bracket, a header only if the line ends in a bracket, too; the name is then all between the outer ones |
| `ConfigLines.LinesOfText` | config/config.go:842-844 | the lines of a text make it up again, one more than it has newlines |
| `ConfigPlacement.MissingKeysPlaced` | config/config.go:1292-1366 | keys that are not in the section go, as they are and together, behind the last key of the section's first block, or behind its header; all other lines keep their order |
| `ConfigPlacement.MissingInOrder` | config/config.go:1292-1366 | one line each, in the order given |
| `ConfigPlacement.LastGiven` | config/config.go:1292-1366 | a key given more than once gets its last value |
| `ConfigPlacement.MissingOnce` | config/config.go:1292-1366 | exactly the given keys that no line has get a line, and each one |
| `ConfigComments.EditSectionKeepsComments` | config/config.go:1274-1288 | on those inputs, comment lines all stay, in order |
| `ConfigKeptLines.EditSectionKeepsLines` | config/config.go:1274-1366 | on those inputs, the lines that bind no set or removed key stay, in order and text for text; when the section is appended, blank lines at the end go and a gap, the header and a final newline come |
| `ConfigKeptLines.BlankLinesGo` | config/config.go:1352-1364 | a concrete file that loses blank lines |
| `ConfigComments.EditSectionTrailing` | config/config.go:1274-1366 | for every file and every reader of settings: the comments behind values and headers all stay, in order, if and only if no line of the section that carries one binds a key that is set or owned |
| `ConfigComments.StylesReplaceText` | config/config.go:1258-1366 | saving styles leaves just the new list, whatever text stood behind the old one, comments included |
| `ConfigComments.CommentIsLost` | config/config.go:1274-1366 | a concrete file whose comment behind the styles is not in the saved text |
| `ConfigSectionExact.SplitKeyMisses` | config/config.go:1281-1289 | a key that SaveSection accepts and Load does not read back |
| `ConfigSave.StylesSurviveSaving` | config/config.go:1258-1267 | after saving styles to any file, the list read from it is the saved non-empty styles and every other binding is as before |
| `ConfigTopLevel.EditTopLevelText` | config/config.go:1174-1231 | the scan, the choice of place and the insertion produce the specified text |
| `ConfigTopLevel.ScanTop` | config/config.go:1178-1201 | the scan replaces every line of the key before the first header and notes the last key and the header |
| `ConfigTopLevel.EditTopLinesRead` | config/config.go:1174-1231 | on the events, all top-level bindings of the key change value, or exactly one is added; nothing else changes |
| `ConfigTopLevelSave.TopLevelSave` | config/config.go:1125-1136 | every other binding reads as before; for any reader of the setting, Load ends up with the saved value if and only if no section that falls through to the top level gives the setting another value it accepts |
| `ConfigTopLevelSave.TopLevelSaveMisses` | config/config.go:987-990 | a concrete file on which a saved volume does not take effect, for any reader that tells 1 from 2 |
| `ConfigTopLevelSave.RefusedTextDoesNotCount` | config/config.go:987-990 | a stray text that the reader refuses does not override the saved value |
| `ConfigTopLevelSave.LoadedAfterSave` | config/config.go:1125-1136 | what Load holds after a save: the last accepted value that falls through, else what the reader makes of the saved text |
| `ConfigTopLevelSave.TopLevelExactly` | config/config.go:1125-1136 | for every file and key: the save sets that one top-level key and changes nothing else Load reads, if and only if the key can be bound by a line |
| `ConfigTopLevelTwice.EditTopLevelTwice` | config/config.go:1174-1231 | a second identical top-level save leaves the text as it is, byte for byte |
| `ConfigPlacement.TopKeyPlaced` | config/config.go:1203-1231 | where a new top-level key goes: behind the last key before the first header; with none, above the blank lines and comments that stand over that header |
| `ConfigPlacement.ReplacedLines` | config/config.go:1178-1201 | exactly the lines that bind the key become the new line; all others stay where they are |
| `ConfigPlacement.TopLevelLines` | config/config.go:1174-1231 | the whole text of a top-level save, by its lines: replaced in place, or one line put in at that place |
| `ConfigTopLevelSave.LoadedTopIs` | config/config.go:917-990 | what Load holds for a top-level setting: the last accepted value from an unknown section if there is one, else the last accepted before the first header |
| `ConfigComments.TopLevelSaveKeepsComments` | config/config.go:1174-1231 | comment lines all stay, in order |
| `ConfigComments.TopLevelSaveTrailing` | config/config.go:1125-1231 | comments behind values all stay if and only if no line before the first header binds the saved key and carries one |
| `SyncQueue.Queue.Enqueue` | favorites/sync.go:25-33 | a fresh number, recorded as the newest change of the path: the step of every run |
| `SyncQueue.Queue.IsStale` | favorites/sync.go:39-44 | true exactly if the number is not the recorded newest of its path |
| `SyncQueue.Queue.Retire` | favorites/sync.go:48-53 | forgets the path only if no newer change was recorded |
| `SyncQueue.AppliedInOrder` | favorites/sync.go:25-55 | in every interleaving, changes of a path are applied in enqueue order, each at most once |
| `SyncQueue.NewestChangeWins` | favorites/sync.go:25-55 | once all returned functions have run, the last change applied for each path is its last one enqueued, and nothing is remembered |
| `SyncQueue.StaleMeansSuperseded` | favorites/sync.go:35-44 | a change is skipped if and only if it was applied already or a newer one exists |
| `PubSub.Broker.Publish` | ipc/pubsub.go:82-137 | the error, or the step of a run with every subscriber visited; it waits if and only if a subscriber's channel is full, at the first such visit and with the earlier ones sent; errors use up no number |
| `PubSub.Broker.Subscribe` | ipc/pubsub.go:142-184 | exactly which error, or the step of a run: a subscription whose channel holds the retained events of its topics in topic order |
| `PubSub.Broker.Unsubscribe` | ipc/pubsub.go:213-220 | the channel closes once; a second call changes nothing |
| `PubSub.Broker.ClearPrefix` | ipc/pubsub.go:188-196 | exactly the retained topics with the prefix go |
| `PubSub.Broker.Close` | ipc/pubsub.go:200-211 | all channels close, retained events go, and a second call changes nothing |
| `PubSub.ChannelHistory` | ipc/pubsub.go:82-184 | in every run a channel is sent its replay, then exactly the publications on its topics while subscribed, in increasing numbers, then at most one overflow event |
| `PubSub.SubscriptionsContinue` | ipc/pubsub.go:200-220 | from any moment to any later one a subscription goes on or ends; a closed channel is sent nothing and stays closed |
| `PubSub.NumbersGapFree` | ipc/pubsub.go:98-104 | event numbers run from 1 without a gap, overflow events included |
| `PubSub.RetainedIsNewest` | ipc/pubsub.go:80-196 | in every run the event retained for a topic is the newest publication made with retain on it since the last ClearPrefix that matched it or Close |
| `PubSub.BlocksOnlyOnFullReplay` | ipc/pubsub.go:115-134 | Publish would wait if and only if a subscriber on the topic still holds a replay that filled its channel |
| `PubSub.StartsFull` | ipc/pubsub.go:162-182 | a channel starts full if and only if it subscribes to 32 topics that are all retained |
| `PubSub.FullReplayBlocks` | ipc/pubsub.go:114-182 | and then Publish on any of them waits |
| `PubSub.PublishCanWait` | ipc/pubsub.go:82-184 | a run from the empty broker that ends in such a wait |
| `PubSub.ChannelsFit` | ipc/pubsub.go:114-137 | in every run no channel ever holds more than its capacity |
| `PubSub.ReceiveDuringPublish` | ipc/pubsub.go:114-135 | a receive in the middle of Publish has the effect of one before the call or of one after it |
| `PubSubSteps.TopicIsDottedName` | ipc/pubsub.go:222-236 | a topic is valid if and only if it is non-empty labels of letters, digits, `_` and `-` with a dot between them, of up to 256 characters, and not the overflow topic |
| `PubSubSteps.PublishReachesAll` | ipc/pubsub.go:82-137 | one publication, subscriber by subscriber, for every order of visits: nothing on other topics; the event where that leaves a free slot behind it; else the overflow event and the end; closed subscriptions stay |
| `PubSubSteps.ReplayIs` | ipc/pubsub.go:172-182 | the replay holds exactly the retained events of the topics, flagged as retained, in ascending order of topic |
| `PubSubSteps.SubscribeStarts` | ipc/pubsub.go:142-184 | a new subscription gets a fresh number, room for 32 events and that replay; all others stay |
| `PubSubSteps.RetainedBounded` | ipc/pubsub.go:98-113 | in every run at most 256 events are retained |
| `PubSubSteps.ClearedExactly` | ipc/pubsub.go:188-196 | no topic of the form prefix + rest stays, and every other one does, with its event |
| `LivePrefetch.Prefetcher.WriteTurn` | player/live_prefetch.go:100-107 | one turn of the loop of write stores as many samples as fit, in order behind what the ring holds |
| `LivePrefetch.Prefetcher.CountsAgree` | player/live_prefetch.go:115-133 | the two counts add up to the ring, and the write slot is where the reading says |
| `LivePrefetch.Prefetcher.Stream` | player/live_prefetch.go:137-198 | the samples filled in, count, result and new state of the specification function; `StreamTakes` says when a call takes how much, `StreamSounds` how it sounds |
| `LivePrefetch.Prefetcher.TakeFadedIn` | player/live_prefetch.go:157-175 | the samples taken across the wrap-around, faded in after a silence |
| `LivePrefetch.DeliveredFaded` | player/live_prefetch.go:157-191 | every sample handed out is the buffered one times a gain in [0, 1] |
| `LivePrefetch.StreamConserves` | player/live_prefetch.go:157-165 | one read loses and repeats nothing if and only if it is not an empty read of a full ring |
| `LivePrefetch.EmptyReadLosesRing` | player/live_prefetch.go:159-165 | a concrete full ring that an empty read loses |
| `LivePrefetch.NothingLost` | player/live_prefetch.go:60-198 | in every run of the producer with non-empty reads, what the source produced is what was consumed, what the ring holds and what is left of the chunk being written, and the k-th sample delivered is the k-th sample of the source at a gain in [0, 1] |
| `LivePrefetch.WriteGoesOn` | player/live_prefetch.go:89-112 | while a chunk is being written and the ring has room, the next turn can be taken and shortens the chunk |
| `LivePrefetch.EndMeansConsumed` | player/live_prefetch.go:60-151 | Stream reports the end only when the source is done and everything it produced was consumed |
| `LivePrefetch.StreamFills` | player/live_prefetch.go:137-198 | a call fills the request except at the clean end, and pads with silence only |
| `LivePrefetch.StreamTakes` | player/live_prefetch.go:137-198 | a non-empty request takes as much as the ring has for it if and only if something is buffered and the ring is not filling up, or is done, or holds `resumeAt`; otherwise it takes nothing, and is silent or the end; filling up starts when the ring runs dry before the source is done |
| `LivePrefetch.StreamSounds` | player/live_prefetch.go:168-191 | after a silence the first 64 frames rise from nothing, where the ring runs dry the last 64 fall to nothing, not so at a clean end; every other frame is handed out as it was written |
| `LivePrefetch.StreamWasSilent` | player/live_prefetch.go:168-195 | the next call fades in if and only if this one handed out silence; a clean end leaves it as it was |
| `LivePrefetch.SilentUntilFilled` | player/live_prefetch.go:141-146 | in every run nothing is taken from the ring before it was filled up to `resumeAt` or the source was done |
| `LivePrefetch.WriteTakesAllThatFits` | player/live_prefetch.go:89-112 | a turn stores the whole chunk, or as much of it as fills the ring |
| `Gapless.Streamer.SetNext` | player/gapless.go:92-103 | next track and a fresh token, or neither |
| `Gapless.Streamer.Replace` | player/gapless.go:107-115 | the new track is current, the queued one and its token are gone, the version moves on |
| `Gapless.Streamer.Clear` | player/gapless.go:119-127 | no track, no token, and the version moves on |
| `Gapless.Streamer.EndTrack` | player/gapless.go:44-61 | swaps to the queued track only if nothing replaced the one that ended |
| `Gapless.CallbackOnce` | player/gapless.go:30-103 | in every interleaving each token fires at most once, in order, and a withdrawn one never |
| `Gapless.SwapIsOfItsToken` | player/gapless.go:44-72 | a swap makes current the very track its token was given for, over the track read to its end |
| `Gapless.NoStaleOverwrite` | player/gapless.go:44-61 | only Replace, Clear or the end of the track being played changes the current track |
| `Gapless.ReplacementWins` | player/gapless.go:44-53 | the end of a track read before a replacement changes nothing |
| `Gapless.QueuedTrackFollows` | player/gapless.go:44-86 | in every interleaving: when a track ends unreplaced the queued one is current, its token is the next to fire, and the pipeline of that token then plays |
| `Gapless.EndDrains` | player/gapless.go:44-86 | with nothing queued no track is current, and the drained flag goes up |
| `Gapless.ReplacesAtOnce` | player/gapless.go:107-127 | a replacement is current at once with nothing behind it and the flag down |
| `Gapless.PromotionIsCurrent` | player/player.go:158-182 | whenever the player promotes its queued pipeline, that pipeline is what gapless made current |
| `Gapless.DrainedMeansNoTrack` | player/player.go:335-358 | under the player's locks, drained is only up while no track is current |
| `Gapless.DrainedOverATrack` | player/gapless.go:30-86 | without those locks it can be left up over a new track: a concrete run |
| `OrderedSender.DeliveredInOrder` | lua_wiring.go:90-131 | in every interleaving delivered + in flight + pending is the messages in enqueue order |
| `OrderedSender.QuiescentMeansDelivered` | lua_wiring.go:98-131 | no wake-up is lost: a sleeping worker with none on its way has delivered everything |
| `OrderedSender.NeverStuck` | lua_wiring.go:98-131 | before stop, an undelivered message leaves some caller or the worker a step to take |
| `OrderedSender.RankFalls` | lua_wiring.go:98-131 | each such step lowers a bound, so everything queued is delivered |
| `Icy.Reader.Read` | player/icy.go:32-46 | bytes, count, error and new state for any buffer size, any short read, end or fault of the stream below |
| `Icy.Reader.ConsumeMetaBlock` | player/icy.go:54-76 | skips one metadata block and reports its title, which `ClosedTitle`, `UnclosedTitle`, `NoQuoteNoTitle` and `NoPrefixNoTitle` pin down, or reports which error stopped it: end, truncated block or a fault below |
| `Icy.ReadConserves` | player/icy.go:32-76 | one Read loses nothing unless the stream below breaks inside a metadata block; an end is reported when nothing is left |
| `Icy.DemuxOfMux` | player/icy.go:11-15 | demultiplexing a multiplexed stream gives back the audio and the titles |
| `Icy.ReadsGiveAudio` | player/icy.go:32-76 | for any stream, any reads and any fault: what was returned is a first part of the audio and the titles; without a fault it and what is left are all of both, and at an end it is all of both |
| `Icy.MuxedReads` | player/icy.go:32-76 | reads of a well-framed stream return a prefix of the audio and the titles passed, all of both by a clean end |
| `Icy.TitleReadsBack` | player/icy.go:78-95 | a title is parsed back if and only if it does not hold the end mark |
| `Icy.TitleIsCut` | player/icy.go:78-95 | a concrete title that is cut short |
| `IcyTitles.ClosedTitle` | player/icy.go:70-95 | a block in which a title free of `';` stands between the first prefix and `';` announces that title, whatever stands before and behind, NUL padding included; an empty one is not reported |
| `IcyTitles.UnclosedTitle` | player/icy.go:88-93 | without the semicolon the title goes up to the last quote |
| `IcyTitles.NoQuoteNoTitle` | player/icy.go:88-93 | without any quote behind the prefix nothing is reported |
| `IcyTitles.NoPrefixNoTitle` | player/icy.go:80-85 | without the prefix nothing is reported |
| `IcyTitles.TitlesReported` | player/icy.go:32-76 | reading a stream whose blocks announce titles reports a first part of the non-empty ones in order, and all of them by a clean end, for any reads |
| `IcyTitles.ReadTakes` | player/icy.go:41-45 | between blocks a read hands out as many bytes as are asked for, left to the block, and given by the stream below |
| `IcyTitles.ReadProgresses` | player/icy.go:32-46 | a non-empty read returns bytes or an error, and a fault only if there was one |
| `Tap.Tap.Stream` | player/tap.go:51-63 | slot k mod size holds frame k for the newest frames, after any writes |
| `Tap.Tap.SamplesIntoAt` | player/tap.go:107-125 | the mono mix of the frames before a position, in order across the wrap-around, when none was overwritten |
| `Tap.Tap.SamplesInto` | player/tap.go:72-74 | the mono mix of exactly the newest frames |
| `Tap.Tap.WaveformSamplesInto` | player/tap.go:76-105 | with the ring of tapRingFrames, exactly consecutive frames ending at the clamped audible position, none overwritten |
| `Tap.HoldsFrame` | player/tap.go:51-63 | the ring still holds a frame if and only if less than one turn was written behind it |
| `Tap.RingMustHoldLagAndWindow` | player/player.go:97-106 | a ring never hands out an overwritten frame if and only if it holds the lag and a whole analysis window |
| `Tap.RingFramesSuffice` | player/player.go:102-109 | tapRingFrames is exactly that size |
| `Tap.AudibleEndAdvances` | player/tap.go:90-105 | the last audible frame lies the elapsed frames past the lagged position until it meets the newest, never before the first; negative elapsed time counts as none |
| `Wsola.InsertionIndex` | player/speed.go:242-248 | the place behind all candidates that rank above the new one |
| `Wsola.Insert` | player/speed.go:249-256 | the shifting insertion into the fixed array |
| `Wsola.CoarsePass` | player/speed.go:231-257 | for any score, exactly the up-to-eight best positive offsets, by score, ties to the lower offset |
| `Wsola.TopIsDetermined` | player/speed.go:228-257 | that description fits one ranking only |
| `Wsola.Scan` | player/speed.go:262-267 | the best-so-far loop ends at an offset nothing scanned is better than |
| `Wsola.Refine` | player/speed.go:259-276 | the same over the neighbourhoods of all candidates, or over the whole range if there is none |
| `Wsola.SearchBestOffset` | player/speed.go:216-278 | the result is in range, and nothing within seven of a retained candidate, nor the clamped expected offset, scores higher |
| `Wsola.BestScoresHighest` | player/speed.go:216-278 | the same as an inequality of scores, with ties to the lower offset |
| `Wsola.BestIsDetermined` | player/speed.go:216-278 | for scores that are never negative the result is unique, and a score of 0 means the clamped expected offset |
| `Wsola.SearchLooksAt` | player/speed.go:220-276 | the full pass examines exactly the offsets within 1024 of the expected one, as far as a whole window follows, that lie within seven of a candidate; all of these if there is none |
| `Wsola.ScoreOffset` | player/speed.go:280-291 | the loop computes the normalized correlation |
| `Wsola.ScoreNonNegative` | player/speed.go:280-291 | scores are never negative |
| `Wsola.MatchIsDetermined` | player/speed.go:216-291 | the search for the tail in the input, with the real score, has one result; it is the clamped expected offset if nothing in range scores above 0, and whenever it scores 0 |
| `Wsola.LoudnessDoesNotCount` | player/speed.go:216-219 | turning the source up or down does not change its score |
| `Wsola.OppositeScoresZero` | player/speed.go:286-288 | material in opposite phase scores zero at any volume |
| `Wsola.ChannelsCountAlike` | player/speed.go:280-285 | exchanging the channels of both changes no score |
| `Wsola.BestMatchIsTheTail` | player/speed.go:280-291 | no source scores above the energy of the tail, and the tail at any volume scores just that |
| `History.Store.Record` | history/history.go:75-108 | the whole stored list after a play; a blank path changes nothing |
| `History.Store.Recent` | history/history.go:111-125 | the newest entries up to the limit, all of them for 0 or less |
| `History.DedupeNewestFirst` | history/history.go:185-196 | keeps exactly the first entry of every path, in order |
| `History.DedupeHeals` | history/history.go:182-196 | the result has distinct paths, and healing it again changes nothing |
| `History.HistoryIsRecency` | history/history.go:70-108 | after any run of plays the stored paths are distinct, and with their times are the first cap entries of the list of paths by last play |
| `History.HistoryLength` | history/history.go:70-108 | of the paths played, the list holds as many as the cap allows: all of them if they fit or there is no cap |
| `History.CappedIsLongest` | history/history.go:104-106 | a positive cap bounds the list, and what is kept is the longest first part that fits; otherwise all is kept |
| `History.IgnoredMeansBlank` | history/history.go:76-78 | a play is ignored if and only if its path is white space only |
| `History.HistoryKeepsMetadata` | history/history.go:70-108 | for every cap: a stored track carries the merge of all plays of its path since the path was last missing from the list |
| `History.LastOutIs` | history/history.go:104-106 | that moment: the path was missing then and never since |
| `History.MergeIsAssociative` | history/history.go:212-250 | how replays are grouped does not matter, and a repeated play adds nothing |
| `History.MergeFillsGaps` | history/history.go:217-250 | field by field: what the new play says stands, and what it leaves out comes from the entry before |
| `History.UnboundedKeepsMetadata` | history/history.go:70-108 | with no cap, each path keeps the metadata of all its plays |

## Left out

- `PlaylistRemoval.NextAfterRemoveExactly`: without the case in which a new order is drawn, where what would have played is not determined.
- Playlist: the revision counter, bookmarks, `OrderWindow` and `QueueWindow`, and track metadata beyond path, unplayable and smart.
- Playlist: deep copies of tracks; tracks are values, and slices are sequences, so aliasing of backing arrays is not modelled.
- Playlist: the recovery branches of `Add` and `AddSmart` for a cursor outside the order, which no reachable state takes.
- Configuration: the typed `set` methods, number and bool parsing, clamping, and plugin values; a binding is a key and its text.
- Configuration: environment references; the string codec is stated for `unquote`, which reads everything `EnvRef` does not take.
- Configuration: text is characters, not bytes, and lower-casing of section names is that of ASCII; the scanner's limit on line length is left out.
- Configuration: file reading, atomic writing and the lock around an update.
- `ConfigSectionTwice.EditSectionTwice`: on the inputs `EditSectionExactly` characterises.
- `ConfigTopLevelSave.TopLevelSave`: the reader of the setting is a parameter, and clamping after `Load` is left out.
- `ConfigComments.EditSectionTrailing`: for new values that carry no comment themselves; the readers of the settings are a parameter.
- `PubSub.Broker.Publish`: JSON validity and the order of the visits are parameters, and the event time is left out; runs take a call that must wait after the receive that frees it.
- `PubSub.Broker.Subscribe`: the order in which Go visits a map and the sorted topic list are parameters.
- `SyncQueue.AppliedInOrder`: whether `apply` reports an error is left out; it does not change what follows.
- `Gapless.PromotionIsCurrent`: one-directional; the two-step clearing of `ClearPreload` and the closing of pipelines are left out, and generations are taken as current.
- `Gapless.Streamer.EndTrack`: the samples copied by `Stream` are left out; a step says whether the track ended.
- `LivePrefetch.NothingLost`: closing the stream, which drops the rest of the chunk, is left out; waiting for room is a turn that cannot be taken.
- `LivePrefetch.EndMeansConsumed`: for non-empty reads, as `NothingLost`; `StreamConserves` says what an empty one does.
- `Icy.Reader.Read`: bytes are characters; how the stream below answers is a parameter of each call.
- `Tap.Tap.WaveformSamplesInto`: the elapsed frames are a parameter in place of the wall clock, and the tearing between the audio and the drawing thread is left out.
- `Tap.Tap.Stream`: the samples the wrapped streamer filled in are a parameter.
- `Wsola.SearchBestOffset`: the stretching itself (crossfade, buffers, cursor) is left out; scores are exact reals, not floating point.
- `OrderedSender.DeliveredInOrder`: the event loop that receives the messages is left out.
- `History.Store.Record`: the file, its lock, its text format and the rounding of times to seconds are left out.
- Equalizer, volume and other signal processing, decoders, network streams, the terminal interface, the Lua runtime and the job table of the socket.
