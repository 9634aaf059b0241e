/**
 The play history of history/history.go: a capped list of distinct paths, the most recently played first.

 Reading and writing the file, its locks and the times' rounding to seconds are left out: `stored` is what the file
 holds. Times are numbers.
 */
module History {
  import T = ConfigText

  datatype Track = Track(
    path: string, title: string, artist: string, album: string, genre: string, year: int, trackNumber: int,
    durationSecs: int, albumArtURL: string, stream: bool, feed: bool, realtime: bool, restricted: bool,
    providerMeta: map<string, string>)

  datatype Entry = Entry(track: Track, playedAt: int)

  // ---- Metadata ----

  function Or(cur: string, prev: string): string {
    if cur == "" then prev else cur
  }

  function OrNumber(cur: int, prev: int): int {
    if cur == 0 then prev else cur
  }

  function MergeTrackMeta(prev: Track, cur: Track): (r: Track)
    ensures r.path == cur.path
  {
    var sparse := |cur.providerMeta| == 0;
    cur.(title := Or(cur.title, prev.title), artist := Or(cur.artist, prev.artist), album := Or(cur.album, prev.album),
         genre := Or(cur.genre, prev.genre), year := OrNumber(cur.year, prev.year),
         trackNumber := OrNumber(cur.trackNumber, prev.trackNumber),
         durationSecs := OrNumber(cur.durationSecs, prev.durationSecs),
         albumArtURL := Or(cur.albumArtURL, prev.albumArtURL),
         stream := cur.stream || prev.stream, feed := cur.feed || prev.feed,
         realtime := cur.realtime || (sparse && prev.realtime),
         restricted := cur.restricted || (sparse && prev.restricted),
         providerMeta := if sparse then prev.providerMeta else cur.providerMeta)
  }

  /** What the new play says stands; what it leaves out is taken from the entry before it, field by field. */
  lemma MergeFillsGaps(prev: Track, cur: Track)
    ensures var r := MergeTrackMeta(prev, cur);
            && r.path == cur.path
            && (cur.title != "" ==> r.title == cur.title) && (cur.title == "" ==> r.title == prev.title)
            && (cur.artist != "" ==> r.artist == cur.artist) && (cur.artist == "" ==> r.artist == prev.artist)
            && (cur.album != "" ==> r.album == cur.album) && (cur.album == "" ==> r.album == prev.album)
            && (cur.genre != "" ==> r.genre == cur.genre) && (cur.genre == "" ==> r.genre == prev.genre)
            && (cur.year != 0 ==> r.year == cur.year) && (cur.year == 0 ==> r.year == prev.year)
            && r.trackNumber == (if cur.trackNumber != 0 then cur else prev).trackNumber
            && r.durationSecs == (if cur.durationSecs != 0 then cur else prev).durationSecs
            && r.albumArtURL == (if cur.albumArtURL != "" then cur else prev).albumArtURL
            && (r.stream <==> cur.stream || prev.stream) && (r.feed <==> cur.feed || prev.feed)
            && (cur.providerMeta != map[] ==>
                  (r.realtime, r.restricted, r.providerMeta) == (cur.realtime, cur.restricted, cur.providerMeta))
            && (cur.providerMeta == map[] ==>
                  && r.providerMeta == prev.providerMeta && (r.realtime <==> cur.realtime || prev.realtime)
                  && (r.restricted <==> cur.restricted || prev.restricted))
  {
  }

  /** How replays are grouped does not matter, and replaying the same track adds nothing. */
  lemma MergeIsAssociative(a: Track, b: Track, c: Track)
    ensures MergeTrackMeta(MergeTrackMeta(a, b), c) == MergeTrackMeta(a, MergeTrackMeta(b, c))
    ensures MergeTrackMeta(MergeTrackMeta(a, b), b) == MergeTrackMeta(a, b)
  {
    EmptyMeta(a.providerMeta, b.providerMeta);
    EmptyMeta(b.providerMeta, c.providerMeta);
  }

  lemma EmptyMeta(a: map<string, string>, b: map<string, string>)
    ensures |a| == 0 && |b| == 0 ==> a == b
  {
    assert |a| == 0 ==> a == map[];
    assert |b| == 0 ==> b == map[];
  }

  // ---- Distinct paths ----

  ghost predicate Distinct(entries: seq<Entry>) {
    forall j, k :: 0 <= j < k < |entries| ==> entries[j].track.path != entries[k].track.path
  }

  /** No entry before i has its path. */
  ghost predicate IsFirst(entries: seq<Entry>, i: nat)
    requires i < |entries|
  {
    forall j :: 0 <= j < i ==> entries[j].track.path != entries[i].track.path
  }

  /** The entries below n that are the first of their path. */
  ghost function Firsts(entries: seq<Entry>, n: nat): seq<Entry>
    requires n <= |entries|
  {
    if n == 0 then []
    else Firsts(entries, n - 1) + (if IsFirst(entries, n - 1) then [entries[n - 1]] else [])
  }

  method DedupeNewestFirst(entries: seq<Entry>) returns (clean: seq<Entry>)
    ensures clean == Firsts(entries, |entries|)
  {
    var seen := {};
    clean := [];
    for i := 0 to |entries|
      invariant clean == Firsts(entries, i)
      invariant forall path :: path in seen <==> exists k :: 0 <= k < i && entries[k].track.path == path
    {
      if entries[i].track.path in seen {
        continue;
      }
      seen := seen + {entries[i].track.path};
      clean := clean + [entries[i]];
    }
  }

  lemma {:induction false} FirstsElements(entries: seq<Entry>, n: nat, e: Entry)
    requires n <= |entries| && e in Firsts(entries, n)
    ensures exists i :: 0 <= i < n && entries[i] == e && IsFirst(entries, i)
    decreases n
  {
    if e in Firsts(entries, n - 1) {
      FirstsElements(entries, n - 1, e);
    } else {
      assert entries[n - 1] == e && IsFirst(entries, n - 1);
    }
  }

  lemma {:induction false} FirstsDistinct(entries: seq<Entry>, n: nat)
    requires n <= |entries|
    ensures Distinct(Firsts(entries, n))
    decreases n
  {
    if n > 0 {
      FirstsDistinct(entries, n - 1);
      if IsFirst(entries, n - 1) {
        forall e | e in Firsts(entries, n - 1) ensures e.track.path != entries[n - 1].track.path {
          FirstsElements(entries, n - 1, e);
        }
      }
    }
  }

  lemma {:induction false} FirstsOfDistinct(entries: seq<Entry>, n: nat)
    requires n <= |entries| && Distinct(entries)
    ensures Firsts(entries, n) == entries[..n]
    decreases n
  {
    if n > 0 {
      FirstsOfDistinct(entries, n - 1);
      assert IsFirst(entries, n - 1);
      assert entries[..n] == entries[..n - 1] + [entries[n - 1]];
    }
  }

  /** Healing a list leaves one row for each path, and healing it again changes nothing. */
  lemma DedupeHeals(entries: seq<Entry>)
    ensures var clean := Firsts(entries, |entries|);
            Distinct(clean) && Firsts(clean, |clean|) == clean
  {
    var clean := Firsts(entries, |entries|);
    FirstsDistinct(entries, |entries|);
    FirstsOfDistinct(clean, |clean|);
    assert clean[..|clean|] == clean;
  }

  // ---- Record ----

  predicate Ignored(path: string) {
    T.TrimSpace(path) == ""
  }

  function Find(entries: seq<Entry>, path: string): (i: int)
    ensures -1 <= i < |entries|
    ensures i >= 0 ==> entries[i].track.path == path
    ensures forall k :: 0 <= k < (if i < 0 then |entries| else i) ==> entries[k].track.path != path
  {
    if entries == [] then -1
    else if entries[0].track.path == path then 0
    else
      var i := Find(entries[1..], path);
      if i < 0 then -1 else i + 1
  }

  lemma FindIs(entries: seq<Entry>, path: string, i: nat)
    requires i < |entries| && entries[i].track.path == path && forall k :: 0 <= k < i ==> entries[k].track.path != path
    ensures Find(entries, path) == i
  {
  }

  function Capped<E>(s: seq<E>, cap: int): (r: seq<E>)
    ensures r <= s
  {
    if cap > 0 && |s| > cap then s[..cap] else s
  }

  /** A cap that is not positive keeps everything; otherwise what is kept is the longest first part that fits. */
  lemma CappedIsLongest<E>(s: seq<E>, cap: int)
    ensures cap <= 0 ==> Capped(s, cap) == s
    ensures cap > 0 ==> |Capped(s, cap)| <= cap && Capped(s, cap) <= s
    ensures cap > 0 ==> forall n :: 0 <= n <= |s| && n <= cap ==> s[..n] <= Capped(s, cap)
  {
  }

  /** A play is ignored exactly if its path is blank. */
  lemma IgnoredMeansBlank(path: string)
    ensures Ignored(path) <==> forall k :: 0 <= k < |path| ==> T.IsSpace(path[k])
  {
    hide T.IsSpace;
    LeftOfSpaces(path);
    if T.TrimLeft(path) != "" {
      RightStays(T.TrimLeft(path));
    }
  }

  lemma {:induction false} LeftOfSpaces(s: string)
    ensures T.TrimLeft(s) == "" <==> forall k :: 0 <= k < |s| ==> T.IsSpace(s[k])
  {
    hide T.IsSpace;
    if s != "" {
      LeftOfSpaces(s[1..]);
      assert forall k :: 1 <= k < |s| ==> s[k] == s[1..][k - 1];
    }
  }

  lemma {:induction false} RightStays(s: string)
    requires s != "" && !T.IsSpace(s[0])
    ensures T.TrimRight(s) != ""
    decreases |s|
  {
    hide T.IsSpace;
    if T.IsSpace(s[|s| - 1]) {
      RightStays(s[..|s| - 1]);
    }
  }

  function Placed(entries: seq<Entry>, cap: int, play: Entry): seq<Entry> {
    var i := Find(entries, play.track.path);
    if i >= 0 then
      [Entry(MergeTrackMeta(entries[i].track, play.track), play.playedAt)] + (entries[..i] + entries[i + 1..])
    else Capped([play] + entries, cap)
  }

  lemma PlacedFound(entries: seq<Entry>, cap: int, play: Entry, i: nat)
    requires i < |entries| && entries[i].track.path == play.track.path
    requires forall k :: 0 <= k < i ==> entries[k].track.path != play.track.path
    ensures Placed(entries, cap, play)
         == [Entry(MergeTrackMeta(entries[i].track, play.track), play.playedAt)] + (entries[..i] + entries[i + 1..])
  {
    hide MergeTrackMeta, Find;
    FindIs(entries, play.track.path, i);
  }

  lemma PlacedNew(entries: seq<Entry>, cap: int, play: Entry)
    requires forall k :: 0 <= k < |entries| ==> entries[k].track.path != play.track.path
    ensures Placed(entries, cap, play) == Capped([play] + entries, cap)
  {
    hide MergeTrackMeta, Find;
  }

  /** What is stored after a play: the list as it loads, with the play on top. */
  ghost function Recorded(stored: seq<Entry>, cap: int, play: Entry): seq<Entry> {
    if Ignored(play.track.path) then stored else Placed(Firsts(stored, |stored|), cap, play)
  }

  class Store {
    var stored: seq<Entry>
    const cap: int

    constructor (cap: int)
      ensures stored == [] && this.cap == cap
    {
      stored, this.cap := [], cap;
    }

    method Record(track: Track, playedAt: int)
      modifies this`stored
      ensures stored == Recorded(old(stored), cap, Entry(track, playedAt))
    {
      hide Firsts, Placed, T.TrimSpace;
      if T.TrimSpace(track.path) == "" {
        return;
      }
      var entries := DedupeNewestFirst(stored);
      stored := PlaceOnTop(entries, track, playedAt);
    }

    /** The loop of Record and what follows it. */
    method PlaceOnTop(entries: seq<Entry>, track: Track, playedAt: int) returns (placed: seq<Entry>)
      ensures placed == Placed(entries, cap, Entry(track, playedAt))
    {
      hide MergeTrackMeta, Find, Placed;
      for i := 0 to |entries|
        invariant forall k :: 0 <= k < i ==> entries[k].track.path != track.path
      {
        if entries[i].track.path != track.path {
          continue;
        }
        PlacedFound(entries, cap, Entry(track, playedAt), i);
        var merged := MergeTrackMeta(entries[i].track, track);
        return [Entry(merged, playedAt)] + (entries[..i] + entries[i + 1..]);
      }
      PlacedNew(entries, cap, Entry(track, playedAt));
      placed := [Entry(track, playedAt)] + entries;
      if cap > 0 && |placed| > cap {
        placed := placed[..cap];
      }
    }

    /** Recent: the newest entries, at most limit of them if limit is positive. */
    method Recent(limit: int) returns (entries: seq<Entry>)
      ensures entries == Capped(Firsts(stored, |stored|), limit)
    {
      entries := DedupeNewestFirst(stored);
      if limit > 0 && |entries| > limit {
        entries := entries[..limit];
      }
    }
  }

  // ---- Runs ----

  /** What is stored after plays, from an empty history. */
  ghost function AfterPlays(plays: seq<Entry>, cap: int): seq<Entry>
    decreases |plays|
  {
    if plays == [] then [] else Recorded(AfterPlays(plays[..|plays| - 1], cap), cap, plays[|plays| - 1])
  }

  /** A path and when it was played. */
  datatype Play = Play(path: string, playedAt: int)

  function Key(e: Entry): Play {
    Play(e.track.path, e.playedAt)
  }

  function Keys(entries: seq<Entry>): (r: seq<Play>)
    ensures |r| == |entries|
    ensures forall k :: 0 <= k < |r| ==> r[k] == Key(entries[k])
  {
    seq(|entries|, k requires 0 <= k < |entries| => Key(entries[k]))
  }

  /** Play i counts, and its path was not played again. */
  ghost predicate IsLast(plays: seq<Entry>, i: nat)
    requires i < |plays|
  {
    && !Ignored(plays[i].track.path)
    && forall j :: i < j < |plays| ==> plays[j].track.path != plays[i].track.path
  }

  /** The unbounded list: of the plays below n, the last one of every path, newest first. */
  ghost function ByRecency(plays: seq<Entry>, n: nat): seq<Play>
    requires n <= |plays|
  {
    if n == 0 then []
    else (if IsLast(plays, n - 1) then [Key(plays[n - 1])] else []) + ByRecency(plays, n - 1)
  }

  ghost predicate DistinctPlays(s: seq<Play>) {
    forall j, k :: 0 <= j < k < |s| ==> s[j].path != s[k].path
  }

  lemma {:induction false} ByRecencyElements(plays: seq<Entry>, n: nat, p: Play)
    requires n <= |plays| && p in ByRecency(plays, n)
    ensures exists i :: 0 <= i < n && Key(plays[i]) == p && IsLast(plays, i)
    decreases n
  {
    hide IsLast;
    if p in ByRecency(plays, n - 1) {
      ByRecencyElements(plays, n - 1, p);
    } else {
      assert Key(plays[n - 1]) == p && IsLast(plays, n - 1);
    }
  }

  lemma {:induction false} ByRecencyDistinct(plays: seq<Entry>, n: nat)
    requires n <= |plays|
    ensures DistinctPlays(ByRecency(plays, n))
    decreases n
  {
    hide Ignored;
    if n > 0 {
      ByRecencyDistinct(plays, n - 1);
      forall p | p in ByRecency(plays, n - 1) ensures p.path != plays[n - 1].track.path {
        ByRecencyElements(plays, n - 1, p);
      }
    }
  }

  function Without(s: seq<Play>, path: string): seq<Play> {
    if s == [] then [] else (if s[0].path == path then [] else [s[0]]) + Without(s[1..], path)
  }

  lemma {:induction false} WithoutAbsent(s: seq<Play>, path: string)
    requires forall k :: 0 <= k < |s| ==> s[k].path != path
    ensures Without(s, path) == s
  {
    if s != [] {
      WithoutAbsent(s[1..], path);
    }
  }

  lemma {:induction false} WithoutAt(s: seq<Play>, path: string, i: nat)
    requires i < |s| && s[i].path == path && DistinctPlays(s)
    ensures Without(s, path) == s[..i] + s[i + 1..]
  {
    if i == 0 {
      WithoutAbsent(s[1..], path);
    } else {
      WithoutAt(s[1..], path, i - 1);
      assert s[..i] + s[i + 1..] == [s[0]] + (s[1..][..i - 1] + s[1..][i..]);
    }
  }

  /** One more play takes its path out of the list below it. */
  lemma {:induction false} ReplayedDropsOut(plays: seq<Entry>, play: Entry, n: nat)
    requires n <= |plays|
    ensures ByRecency(plays + [play], n) == Without(ByRecency(plays, n), play.track.path)
    decreases n
  {
    hide IsLast, Without;
    if n == 0 {
      WithoutAbsent([], play.track.path);
    } else {
      ReplayedDropsOut(plays, play, n - 1);
      var i := n - 1;
      LastOfLonger(plays, play, i);
      WithoutCons(if IsLast(plays, i) then [Key(plays[i])] else [], ByRecency(plays, i), play.track.path);
    }
  }

  lemma LastOfLonger(plays: seq<Entry>, play: Entry, i: nat)
    requires i < |plays|
    ensures IsLast(plays + [play], i) <==> IsLast(plays, i) && plays[i].track.path != play.track.path
  {
    hide Ignored;
    var longer := plays + [play];
    assert longer[i] == plays[i] && longer[|plays|] == play;
    forall j | i < j < |plays| ensures longer[j] == plays[j] {
    }
  }

  lemma WithoutCons(head: seq<Play>, rest: seq<Play>, path: string)
    requires |head| <= 1
    ensures Without(head + rest, path)
            == (if head == [] || head[0].path == path then [] else head) + Without(rest, path)
  {
    if head == [] {
      assert head + rest == rest;
    } else {
      assert (head + rest)[1..] == rest;
    }
  }

  /** Putting a play on top of the capped list gives the capped list of the play on top of the whole one. */
  lemma CapCommutes(all: seq<Play>, p: Play, cap: int, i: int)
    requires DistinctPlays(all) && -1 <= i < |Capped(all, cap)|
    requires i >= 0 ==> all[i].path == p.path
    requires i < 0 ==> forall k :: 0 <= k < |Capped(all, cap)| ==> all[k].path != p.path
    ensures i >= 0 ==> Capped([p] + Without(all, p.path), cap)
                       == [p] + (Capped(all, cap)[..i] + Capped(all, cap)[i + 1..])
    ensures i < 0 ==> Capped([p] + Without(all, p.path), cap) == Capped([p] + Capped(all, cap), cap)
  {
    hide Without, IndexIn;
    var j := IndexIn(all, p.path);
    if i >= 0 {
      WithoutAt(all, p.path, i);
      CapOfRest(all, p, cap, i);
    } else if j < |all| {
      WithoutAt(all, p.path, j);
      CapBefore(all, p, cap, j);
    } else {
      WithoutAbsent(all, p.path);
      CapTwice(all, p, cap);
    }
  }

  lemma CapOfRest(all: seq<Play>, p: Play, cap: int, i: nat)
    requires i < |Capped(all, cap)|
    ensures Capped([p] + (all[..i] + all[i + 1..]), cap) == [p] + (Capped(all, cap)[..i] + Capped(all, cap)[i + 1..])
  {
  }

  lemma CapBefore(all: seq<Play>, p: Play, cap: int, j: nat)
    requires |Capped(all, cap)| <= j < |all|
    ensures Capped([p] + (all[..j] + all[j + 1..]), cap) == Capped([p] + Capped(all, cap), cap)
  {
  }

  lemma CapTwice(all: seq<Play>, p: Play, cap: int)
    ensures Capped([p] + all, cap) == Capped([p] + Capped(all, cap), cap)
  {
  }

  ghost function IndexIn(s: seq<Play>, path: string): (i: nat)
    ensures i <= |s| && (i < |s| ==> s[i].path == path)
    ensures forall k :: 0 <= k < i ==> s[k].path != path
  {
    if s == [] || s[0].path == path then 0 else 1 + IndexIn(s[1..], path)
  }

  /** One Record on a list that is the capped unbounded one. */
  lemma PlacedKeys(entries: seq<Entry>, cap: int, play: Entry, all: seq<Play>)
    requires DistinctPlays(all) && Keys(entries) == Capped(all, cap)
    ensures Keys(Placed(entries, cap, play)) == Capped([Key(play)] + Without(all, play.track.path), cap)
  {
    hide Without, Find, MergeTrackMeta, Keys, Capped;
    var i := Find(entries, play.track.path);
    KeptKeys(entries, all, cap);
    CapCommutes(all, Key(play), cap, i);
    if i >= 0 {
      MovedKeys(entries, i, Entry(MergeTrackMeta(entries[i].track, play.track), play.playedAt));
    } else {
      AddedKeys(entries, play, cap);
    }
  }

  lemma MovedKeys(entries: seq<Entry>, i: nat, e: Entry)
    requires i < |entries|
    ensures Keys([e] + (entries[..i] + entries[i + 1..])) == [Key(e)] + (Keys(entries)[..i] + Keys(entries)[i + 1..])
  {
  }

  lemma AddedKeys(entries: seq<Entry>, e: Entry, cap: int)
    ensures Keys(Capped([e] + entries, cap)) == Capped([Key(e)] + Keys(entries), cap)
  {
    assert Keys([e] + entries) == [Key(e)] + Keys(entries);
    CappedKeys([e] + entries, cap);
  }

  lemma KeptKeys(entries: seq<Entry>, all: seq<Play>, cap: int)
    requires Keys(entries) == Capped(all, cap)
    ensures |entries| <= |all| && forall k :: 0 <= k < |entries| ==> all[k] == Key(entries[k])
  {
  }

  lemma CappedKeys(entries: seq<Entry>, cap: int)
    ensures Keys(Capped(entries, cap)) == Capped(Keys(entries), cap)
  {
  }

  /**
   After any run of plays from an empty history, the stored paths are distinct, and with their times they are the
   first cap of the list of all paths by their last play, also when a path that fell out is played again.
   */
  lemma {:induction false} HistoryIsRecency(plays: seq<Entry>, cap: int)
    ensures Keys(AfterPlays(plays, cap)) == Capped(ByRecency(plays, |plays|), cap)
    ensures Distinct(AfterPlays(plays, cap))
    decreases |plays|
  {
    hide Ignored, ByRecency, Placed, Firsts, Without, Capped, Distinct;
    if plays == [] {
      assert ByRecency(plays, 0) == [] by { NothingPlayed(plays, cap); }
    } else {
      var before, play := plays[..|plays| - 1], plays[|plays| - 1];
      assert plays == before + [play];
      HistoryIsRecency(before, cap);
      LoadsAsStored(AfterPlays(before, cap));
      TopOfRecency(before, play);
      ByRecencyDistinct(before, |before|);
      PlacedKeys(AfterPlays(before, cap), cap, play, ByRecency(before, |before|));
    }
    KeysDistinct(AfterPlays(plays, cap), plays, cap);
  }

  lemma NothingPlayed(plays: seq<Entry>, cap: int)
    requires plays == []
    ensures ByRecency(plays, |plays|) == [] && Capped(ByRecency(plays, |plays|), cap) == []
  {
  }

  lemma LoadsAsStored(stored: seq<Entry>)
    requires Distinct(stored)
    ensures Firsts(stored, |stored|) == stored
  {
    FirstsOfDistinct(stored, |stored|);
    assert stored[..|stored|] == stored;
  }

  lemma TopOfRecency(before: seq<Entry>, play: Entry)
    ensures var plays, all := before + [play], ByRecency(before, |before|);
            ByRecency(plays, |plays|)
            == if Ignored(play.track.path) then all else [Key(play)] + Without(all, play.track.path)
  {
    var plays := before + [play];
    ReplayedDropsOut(before, play, |before|);
    if Ignored(play.track.path) {
      IgnoredNeverListed(before, play.track.path, |before|);
    }
    hide Ignored;
  }

  lemma {:induction false} IgnoredNeverListed(plays: seq<Entry>, path: string, n: nat)
    requires n <= |plays| && Ignored(path)
    ensures Without(ByRecency(plays, n), path) == ByRecency(plays, n)
    decreases n
  {
    hide Ignored;
    forall p | p in ByRecency(plays, n) ensures p.path != path {
      ByRecencyElements(plays, n, p);
    }
    WithoutAbsent(ByRecency(plays, n), path);
  }

  lemma KeysDistinct(entries: seq<Entry>, plays: seq<Entry>, cap: int)
    requires Keys(entries) == Capped(ByRecency(plays, |plays|), cap)
    ensures Distinct(entries)
  {
    hide ByRecency, IsLast;
    ByRecencyDistinct(plays, |plays|);
    forall j, k | 0 <= j < k < |entries| ensures entries[j].track.path != entries[k].track.path {
      assert Keys(entries)[j].path != Keys(entries)[k].path;
    }
  }

  ghost function PlayedPaths(plays: seq<Entry>): set<string> {
    set k | 0 <= k < |plays| && !Ignored(plays[k].track.path) :: plays[k].track.path
  }

  /** The list is as long as the cap allows: of all paths played, only a full list lacks one. */
  lemma HistoryLength(plays: seq<Entry>, cap: int)
    ensures var n := |PlayedPaths(plays)|;
            |AfterPlays(plays, cap)| == if 0 < cap < n then cap else n
  {
    hide Ignored, AfterPlays, ByRecency;
    var all := ByRecency(plays, |plays|);
    HistoryIsRecency(plays, cap);
    ByRecencyDistinct(plays, |plays|);
    ListedPaths(all);
    var listed := set p | p in all :: p.path;
    forall p | p in all ensures p.path in PlayedPaths(plays) {
      ByRecencyElements(plays, |plays|, p);
    }
    forall path | path in PlayedPaths(plays) ensures path in listed {
      var k :| 0 <= k < |plays| && !Ignored(plays[k].track.path) && plays[k].track.path == path;
      var p := PlayedIsListed(plays, k);
    }
    assert listed == PlayedPaths(plays);
  }

  lemma {:induction false} ListedPaths(s: seq<Play>)
    requires DistinctPlays(s)
    ensures |set p | p in s :: p.path| == |s|
  {
    if s != [] {
      var rest := set p | p in s[1..] :: p.path;
      ListedPaths(s[1..]);
      assert (set p | p in s :: p.path) == {s[0].path} + rest;
      assert s[0].path !in rest;
    }
  }

  /** All plays of a path folded into one, the newest last. */
  ghost function Merged(plays: seq<Entry>, path: string): (r: seq<Track>)
    ensures |r| <= 1
    decreases |plays|
  {
    if plays == [] then []
    else
      var before, track := Merged(plays[..|plays| - 1], path), plays[|plays| - 1].track;
      if track.path != path then before else if before == [] then [track] else [MergeTrackMeta(before[0], track)]
  }

  /** How many plays there had been when path was last missing from the list. */
  ghost function LastOut(plays: seq<Entry>, cap: int, path: string): (n: nat)
    ensures n <= |plays|
    decreases |plays|
  {
    if plays == [] || Find(AfterPlays(plays, cap), path) < 0 then |plays| else LastOut(plays[..|plays| - 1], cap, path)
  }

  /** It was missing then, and never since. */
  lemma {:induction false} LastOutIs(plays: seq<Entry>, cap: int, path: string)
    ensures var n := LastOut(plays, cap, path);
            && Find(AfterPlays(plays[..n], cap), path) < 0
            && forall m :: n < m <= |plays| ==> Find(AfterPlays(plays[..m], cap), path) >= 0
    decreases |plays|
  {
    hide AfterPlays, Find;
    assert plays[..|plays|] == plays;
    if plays == [] {
      NothingStored(cap, path);
    } else if Find(AfterPlays(plays, cap), path) >= 0 {
      var before := plays[..|plays| - 1];
      LastOutIs(before, cap, path);
      assert forall m :: 0 <= m <= |before| ==> before[..m] == plays[..m];
    }
  }

  lemma NothingStored(cap: int, path: string)
    ensures Find(AfterPlays([], cap), path) < 0
  {
  }

  /** Whatever the cap, a stored track carries the merge of all plays of its path since the path was last missing. */
  lemma {:induction false} HistoryKeepsMetadata(plays: seq<Entry>, cap: int, path: string)
    ensures var stored := AfterPlays(plays, cap);
            var i, n := Find(stored, path), LastOut(plays, cap, path);
            Merged(plays[n..], path) == if i < 0 then [] else [stored[i].track]
    decreases |plays|
  {
    hide Ignored, Firsts, MergeTrackMeta, Distinct, Placed, Find;
    if plays == [] || Find(AfterPlays(plays, cap), path) < 0 {
      assert plays[|plays|..] == [];
      if plays == [] {
        NothingStored(cap, path);
      }
    } else {
      var before, play := plays[..|plays| - 1], plays[|plays| - 1];
      var stored, n := AfterPlays(before, cap), LastOut(before, cap, path);
      HistoryKeepsMetadata(before, cap, path);
      HistoryIsRecency(before, cap);
      LoadsAsStored(stored);
      var since := plays[n..];
      assert since[..|since| - 1] == before[n..] && since[|since| - 1] == play;
      if Ignored(play.track.path) {
        NeverStored(before, cap, play.track.path);
      } else if play.track.path == path {
        FindPlaced(stored, cap, play);
      } else {
        FindOther(stored, cap, play, path);
      }
    }
  }

  lemma {:induction false} NeverStored(plays: seq<Entry>, cap: int, path: string)
    requires Ignored(path)
    ensures Find(AfterPlays(plays, cap), path) < 0
    decreases |plays|
  {
    hide Ignored, MergeTrackMeta, ByRecency;
    HistoryIsRecency(plays, cap);
    var stored, i := AfterPlays(plays, cap), Find(AfterPlays(plays, cap), path);
    if i >= 0 {
      assert Keys(stored)[i] in ByRecency(plays, |plays|);
      ByRecencyElements(plays, |plays|, Keys(stored)[i]);
    }
  }

  lemma FindPlaced(stored: seq<Entry>, cap: int, play: Entry)
    ensures var i, placed := Find(stored, play.track.path), Placed(stored, cap, play);
            && Find(placed, play.track.path) == 0
            && placed[0].track == if i < 0 then play.track else MergeTrackMeta(stored[i].track, play.track)
  {
    hide MergeTrackMeta;
  }

  /** A play of another track leaves an entry as it is or drops it. */
  lemma FindOther(stored: seq<Entry>, cap: int, play: Entry, path: string)
    requires path != play.track.path
    ensures var a, placed := Find(stored, path), Placed(stored, cap, play);
            var b := Find(placed, path);
            b >= 0 ==> a >= 0 && placed[b] == stored[a]
  {
    hide MergeTrackMeta, Find, Placed;
    var placed, i, b := Placed(stored, cap, play), Find(stored, play.track.path), Find(Placed(stored, cap, play), path);
    PlacedAt(stored, cap, play);
    if b >= 0 {
      var from := if 0 <= i < b then b else b - 1;
      forall k | 0 <= k < from ensures stored[k].track.path != path {
        if k != i {
          assert placed[if 0 <= i < k then k else k + 1] == stored[k];
        }
      }
      FindIs(stored, path, from);
    }
  }

  lemma PlacedAt(stored: seq<Entry>, cap: int, play: Entry)
    ensures var i, placed := Find(stored, play.track.path), Placed(stored, cap, play);
            && 1 <= |placed| <= (if i < 0 then |stored| + 1 else |stored|) && placed[0].track.path == play.track.path
            && forall k :: 1 <= k < |placed| ==> placed[k] == stored[if 0 <= i < k then k else k - 1]
  {
    hide MergeTrackMeta, Find;
  }

  /** Without a cap no path falls out, and the merge takes in all its plays. */
  lemma {:induction false} UnboundedKeepsMetadata(plays: seq<Entry>, path: string)
    requires !Ignored(path)
    ensures var stored := AfterPlays(plays, 0);
            var i := Find(stored, path);
            Merged(plays, path) == if i < 0 then [] else [stored[i].track]
  {
    hide AfterPlays, Find, MergeTrackMeta, Ignored;
    var n := LastOut(plays, 0, path);
    HistoryKeepsMetadata(plays, 0, path);
    LastOutIs(plays, 0, path);
    forall k | 0 <= k < n ensures plays[k].track.path != path {
      if plays[k].track.path == path {
        PlayedIsStored(plays[..n], k);
      }
    }
    MergedAfter(plays, n, path);
  }

  /** In an uncapped list, every path played is there. */
  lemma PlayedIsStored(plays: seq<Entry>, k: nat)
    requires k < |plays| && !Ignored(plays[k].track.path)
    ensures Find(AfterPlays(plays, 0), plays[k].track.path) >= 0
  {
    hide Ignored, AfterPlays, Find;
    HistoryIsRecency(plays, 0);
    var stored := AfterPlays(plays, 0);
    var p := PlayedIsListed(plays, k);
    var j :| 0 <= j < |stored| && Keys(stored)[j] == p;
    Present(stored, plays[k].track.path, j);
  }

  lemma Present(stored: seq<Entry>, path: string, j: nat)
    requires j < |stored| && stored[j].track.path == path
    ensures Find(stored, path) >= 0
  {
  }

  lemma PlayedIsListed(plays: seq<Entry>, k: nat) returns (p: Play)
    requires k < |plays| && !Ignored(plays[k].track.path)
    ensures p in ByRecency(plays, |plays|) && p.path == plays[k].track.path
    decreases |plays| - k
  {
    hide Ignored, ByRecency;
    if j :| k < j < |plays| && plays[j].track.path == plays[k].track.path {
      p := PlayedIsListed(plays, j);
    } else {
      p := Key(plays[k]);
      LastIsListed(plays, k, |plays|);
    }
  }

  lemma {:induction false} LastIsListed(plays: seq<Entry>, k: nat, n: nat)
    requires k < n <= |plays| && IsLast(plays, k)
    ensures Key(plays[k]) in ByRecency(plays, n)
    decreases n
  {
    hide IsLast;
    if k < n - 1 {
      LastIsListed(plays, k, n - 1);
    }
  }

  /** Plays of other tracks add nothing to the merge. */
  lemma {:induction false} MergedAfter(plays: seq<Entry>, n: nat, path: string)
    requires n <= |plays| && forall k :: 0 <= k < n ==> plays[k].track.path != path
    ensures Merged(plays, path) == Merged(plays[n..], path)
    decreases |plays|
  {
    hide MergeTrackMeta;
    if n == |plays| {
      assert plays[n..] == [];
      if plays != [] {
        MergedAfter(plays[..n - 1], n - 1, path);
        assert plays[..n - 1][n - 1..] == [];
      }
    } else {
      MergedAfter(plays[..|plays| - 1], n, path);
      var rest := plays[n..];
      assert rest[..|rest| - 1] == plays[..|plays| - 1][n..];
    }
  }
}
