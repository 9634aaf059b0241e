/** A saved top-level key against everything Load reads as a top-level key. */
module ConfigTopLevelSave {
  import opened Common
  import opened ConfigText
  import opened ConfigEditor
  import opened ConfigSectionEdit
  import opened ConfigSectionResult
  import opened ConfigSectionTheorem
  import opened ConfigSectionExact
  import opened ConfigTopLevel
  import opened ConfigSave

  /** The sections Load sends to a configuration of their own. */
  predicate Configures(section: string) {
    || section in ["downloads", "navidrome", "lyrion", "spotify", "qobuz", "tidal", "ytmusic", "plex", "radio",
                   "podcast",
                   "soundcloud", "mixcloud", "netease", "yandex", "jellyfin", "emby", "audiobookshelf", "plugins"]
    || "plugins." <= section
  }

  /** A key in any other section falls through to the top level. */
  predicate FallsThrough(e: Event) {
    e.Binding? && e.section.Some? && !Configures(e.section.value)
  }

  /**
   The value Load ends up with for a top-level setting. parse is the setting's reader in setTopLevel: it refuses a
   text by returning None, and the setting then stays as it was.
   */
  function LoadedTop<V>(events: seq<Event>, key: string, parse: string -> Option<V>): Option<V> {
    if events == [] then None
    else
      var e := events[|events| - 1];
      if (IsTop(e, key) || Falls(e, key)) && parse(e.val).Some? then parse(e.val)
      else LoadedTop(events[..|events| - 1], key, parse)
  }

  predicate Falls(e: Event, key: string) {
    FallsThrough(e) && e.key == key
  }

  /** The last value that a section without a configuration of its own gives to key. */
  function LastFallen<V>(events: seq<Event>, key: string, parse: string -> Option<V>): Option<V> {
    if events == [] then None
    else
      var e := events[|events| - 1];
      if Falls(e, key) && parse(e.val).Some? then parse(e.val) else LastFallen(events[..|events| - 1], key, parse)
  }

  /** The last value given to key before the first header. */
  function LastTop<V>(events: seq<Event>, key: string, parse: string -> Option<V>): Option<V> {
    if events == [] then None
    else
      var e := events[|events| - 1];
      if IsTop(e, key) && parse(e.val).Some? then parse(e.val) else LastTop(events[..|events| - 1], key, parse)
  }

  /** No top-level binding comes behind a header. */
  ghost predicate TopFirst(events: seq<Event>) {
    forall i, j :: 0 <= i < j < |events| && (events[i].Section? || events[i].section != None) && events[j].Binding? ==>
      events[j].section != None
  }

  lemma {:induction false} ReadInSection(lines: seq<string>, name: string)
    ensures forall k :: 0 <= k < |Read(lines, Some(name))| && Read(lines, Some(name))[k].Binding? ==>
              Read(lines, Some(name))[k].section != None
  {
    hide ReadLine, CanonicalSection;
    if lines != [] {
      match ReadLine(lines[0])
      case Other => ReadInSection(lines[1..], name);
      case Header(n) => ReadInSection(lines[1..], CanonicalSection(n));
      case KeyLine(k, v) => ReadInSection(lines[1..], name);
    }
  }

  lemma {:induction false} ReadTopFirst(lines: seq<string>)
    ensures TopFirst(Read(lines, None))
  {
    hide ReadLine, CanonicalSection;
    if lines != [] {
      match ReadLine(lines[0])
      case Other => ReadTopFirst(lines[1..]);
      case Header(n) => ReadInSection(lines[1..], CanonicalSection(n));
      case KeyLine(k, v) => ReadTopFirst(lines[1..]);
    }
  }

  /** What falls through stands behind the first header, so it wins. */
  lemma {:induction false} LoadedTopIs<V>(events: seq<Event>, key: string, parse: string -> Option<V>)
    requires TopFirst(events)
    ensures LoadedTop(events, key, parse) ==
            if LastFallen(events, key, parse).Some? then LastFallen(events, key, parse) else LastTop(events, key, parse)
    decreases |events|
  {
    hide Configures;
    if events != [] {
      var head, ev := events[..|events| - 1], events[|events| - 1];
      assert events == head + [ev];
      assert TopFirst(head);
      LoadedTopIs(head, key, parse);
      if IsTop(ev, key) {
        forall i | 0 <= i < |head| ensures !Falls(head[i], key) {
          assert head[i] == events[i];
        }
        NothingFallen(head, key, parse);
      }
    }
  }

  lemma {:induction false} NothingFallen<V>(events: seq<Event>, key: string, parse: string -> Option<V>)
    requires forall i :: 0 <= i < |events| ==> !Falls(events[i], key)
    ensures LastFallen(events, key, parse) == None
    decreases |events|
  {
    hide Falls;
    if events != [] {
      NothingFallen(events[..|events| - 1], key, parse);
    }
  }

  lemma {:induction false} LastFallenConcat<V>(a: seq<Event>, b: seq<Event>, key: string, parse: string -> Option<V>)
    ensures LastFallen(a + b, key, parse) ==
            if LastFallen(b, key, parse).Some? then LastFallen(b, key, parse) else LastFallen(a, key, parse)
    decreases |b|
  {
    hide Falls;
    if b == [] {
      assert a + b == a;
    } else {
      assert (a + b)[..|a + b| - 1] == a + b[..|b| - 1];
      LastFallenConcat(a, b[..|b| - 1], key, parse);
    }
  }

  lemma {:induction false} LastFallenOfTopEvents<V>(events: seq<Event>, key: string, val: string, k: string,
                                                    parse: string -> Option<V>)
    ensures LastFallen(TopEvents(events, key, val), k, parse) == LastFallen(events, k, parse)
    decreases |events|
  {
    hide Configures, TopEvents;
    if events != [] {
      LastFallenOfTopEvents(events[..|events| - 1], key, val, k, parse);
      assert TopEvents(events, key, val)[..|events| - 1] == TopEvents(events[..|events| - 1], key, val);
    }
  }

  /** Every top-level binding of key holds val. */
  ghost predicate TopSet(events: seq<Event>, key: string, val: string) {
    forall k :: 0 <= k < |events| && IsTop(events[k], key) ==> events[k].val == val
  }

  lemma {:induction false} LastTopOfSet<V>(events: seq<Event>, key: string, val: string, parse: string -> Option<V>)
    requires TopSet(events, key, val)
    ensures LastTop(events, key, parse) == if NoTop(events, key) then None else parse(val)
    decreases |events|
  {
    if events != [] {
      var head, ev := events[..|events| - 1], events[|events| - 1];
      assert events == head + [ev];
      LastTopOfSet(head, key, val, parse);
      NoTopConcat(head, [ev], key);
      assert NoTop([ev], key) <==> !IsTop([ev][0], key);
    }
  }

  lemma TopEditedSets(key: string, val: string, before: seq<Event>, after: seq<Event>)
    requires TopEdited(key, val, before, after)
    ensures TopSet(after, key, val) && !NoTop(after, key)
  {
    if NoTop(before, key) {
      var at :| 0 <= at <= |before| && after == before[..at] + [Binding(None, key, val)] + before[at..];
      assert IsTop(after[at], key);
    } else {
      var k :| 0 <= k < |before| && IsTop(before[k], key);
      assert IsTop(after[k], key);
    }
  }

  /** A top-level edit leaves what falls through as it was. */
  lemma TopEditedFallen<V>(key: string, val: string, before: seq<Event>, after: seq<Event>, k: string,
                           parse: string -> Option<V>)
    requires TopEdited(key, val, before, after)
    ensures LastFallen(after, k, parse) == LastFallen(before, k, parse)
  {
    hide NoTop, TopEvents, LastFallen;
    if NoTop(before, key) {
      var at :| 0 <= at <= |before| && after == before[..at] + [Binding(None, key, val)] + before[at..];
      assert before[..at] + before[at..] == before;
      LastFallenConcat(before[..at], before[at..], k, parse);
      LastFallenConcat(before[..at] + [Binding(None, key, val)], before[at..], k, parse);
      LastFallenConcat(before[..at], [Binding(None, key, val)], k, parse);
      NothingFallen([Binding(None, key, val)], k, parse);
    } else {
      LastFallenOfTopEvents(before, key, val, k, parse);
    }
  }

  /** What Load reads after a top-level key was saved: the last value that falls through, else the saved one. */
  lemma LoadedAfterSave<V>(data: string, key: string, value: string, parse: string -> Option<V>)
    requires Bindable(key, value) && OneLine(key) && OneLine(value)
    ensures var fallen := LastFallen(ReadFile(data), key, parse);
            LoadedTop(ReadFile(EditTopLevel(data, key, NewLine(key, value))), key, parse) ==
            if fallen.Some? then fallen else parse(TrimSpace(value))
  {
    var before, after := ReadFile(data), ReadFile(EditTopLevel(data, key, NewLine(key, value)));
    TopLevelEdited(data, key, value);
    hide *;
    TopEditedFallen(key, TrimSpace(value), before, after, key, parse);
    TopEditedSets(key, TrimSpace(value), before, after);
    LastTopOfSet(after, key, TrimSpace(value), parse);
    FileTopFirst(EditTopLevel(data, key, NewLine(key, value)));
    LoadedTopIs(after, key, parse);
  }

  lemma FileTopFirst(data: string)
    ensures TopFirst(ReadFile(data))
  {
    ReadTopFirst(Split(data));
  }

  lemma TopLevelEdited(data: string, key: string, value: string)
    requires Bindable(key, value) && OneLine(key) && OneLine(value)
    ensures TopEdited(key, TrimSpace(value), ReadFile(data), ReadFile(EditTopLevel(data, key, NewLine(key, value))))
  {
    hide NewLine, Rewrite, ReadLine, TrimSpace, Split, Join, EditTopLines, TopEdited, Bindable, KeyPart, IsHeader, Read,
         OneLine;
    var line, lines := NewLine(key, value), Split(data);
    MissingLine(key, value);
    OneLineRewrite(key, value);
    EditTopLinesRead(lines, key, line, TrimSpace(value));
    EditTopOneLine(lines, key, line);
    SplitJoin(EditTopLines(lines, key, line));
  }

  lemma NewLineIsOneLine(key: string, value: string)
    requires OneLine(key) && OneLine(value)
    ensures OneLine(NewLine(key, value))
  {
  }

  lemma HeaderOrNot(line: string)
    ensures HeaderLine(line) <==> IsHeader(line)
  {
    if IsHeader(line) {
      ReadHeader(line);
    } else {
      ReadKeyLine(line);
    }
    hide ReadLine, IsHeader, HeaderName, KeyPart, TrimSpace;
  }

  lemma TopHasNoHeaders(lines: seq<string>)
    ensures Headers(TopPart(lines)) == []
  {
    hide TopPart, IsHeader, HeaderLine;
    TopPartIs(lines);
    forall k | 0 <= k < |TopPart(lines)| ensures !IsHeader(TopPart(lines)[k]) {
      HeaderOrNot(TopPart(lines)[k]);
    }
    NoHeaders(TopPart(lines));
  }

  lemma {:induction false} ReplacedHasHeader(lines: seq<string>, key: string, line: string)
    requires IsHeader(line) && Binds(lines, key)
    ensures Headers(Replaced(lines, key, line)) != []
  {
    hide LineKey, IsHeader, HeaderName;
    ConfigTopLevel.BindsCons(lines, key);
    if LineKey(lines[0]) != Some(key) {
      ReplacedHasHeader(lines[1..], key, line);
    }
  }

  lemma BlankEndHeaders(lines: seq<string>)
    requires lines != []
    ensures Headers(EndWithBlank(lines)) == Headers(lines)
  {
    hide Headers;
    BlankIsBlank();
    BlankHeader("");
    HeadersConcat(lines, [""]);
  }

  /** A line that reads as a header adds a section. */
  lemma EditTopHeaders(lines: seq<string>, key: string, line: string)
    requires lines != [] && IsHeader(line)
    ensures |Headers(EditTopLines(lines, key, line))| > |Headers(lines)|
  {
    hide Headers, Replaced, TopPart, InsertAt, Binds, IsHeader, EndWithBlank, HeaderName;
    var top := TopPart(lines);
    var rest := lines[|top|..];
    var edited := Replaced(top, key, line) + rest;
    assert top + rest == lines;
    TopHasNoHeaders(lines);
    HeadersConcat(top, rest);
    HeadersConcat(Replaced(top, key, line), rest);
    if Binds(top, key) {
      ReplacedHasHeader(top, key, line);
      BlankEndHeaders(edited);
    } else {
      NoKeyNoReplacement(top, key, line);
      OneHeader(line);
      InsertedHeaders(lines, InsertAt(lines), [line]);
      BlankEndHeaders(lines[..InsertAt(lines)] + [line] + lines[InsertAt(lines)..]);
    }
  }

  lemma {:induction false} TopEventsSections(events: seq<Event>, key: string, val: string)
    ensures Sections(TopEvents(events, key, val)) == Sections(events)
  {
    if events != [] {
      TopEventsSections(events[1..], key, val);
      assert TopEvents(events, key, val)[1..] == TopEvents(events[1..], key, val);
    }
  }

  lemma TopEditedSections(key: string, val: string, before: seq<Event>, after: seq<Event>)
    requires TopEdited(key, val, before, after)
    ensures Sections(after) == Sections(before)
  {
    hide Sections, TopEvents, NoTop;
    if NoTop(before, key) {
      var at :| 0 <= at <= |before| && after == before[..at] + [Binding(None, key, val)] + before[at..];
      assert before[..at] + before[at..] == before;
      SectionsConcat(before[..at], before[at..]);
      SectionsConcat(before[..at], [Binding(None, key, val)]);
      SectionsConcat(before[..at] + [Binding(None, key, val)], before[at..]);
      OneSection(Binding(None, key, val));
    } else {
      TopEventsSections(before, key, val);
    }
  }

  /** On every file, a top-level save keeps its promise exactly if the key can be bound by a line. */
  lemma TopLevelExactly(data: string, key: string, value: string)
    requires OneLine(key) && OneLine(value)
    ensures TopEdited(key, TrimSpace(value), ReadFile(data),
                      ReadFile(EditTopLevel(data, key, NewLine(key, value)))) <==>
            Bindable(key, value)
  {
    var before, after := ReadFile(data), ReadFile(EditTopLevel(data, key, NewLine(key, value)));
    if Bindable(key, value) {
      TopLevelEdited(data, key, value);
    } else if TopEdited(key, TrimSpace(value), before, after) {
      BindableIfEdited(data, key, value);
    }
  }

  lemma BindableIfEdited(data: string, key: string, value: string)
    requires OneLine(key) && OneLine(value)
    requires TopEdited(key, TrimSpace(value), ReadFile(data), ReadFile(EditTopLevel(data, key, NewLine(key, value))))
    ensures Bindable(key, value)
  {
    hide TopEdited, NewLine, TrimSpace, Split, Join, EditTopLines, Read, OneLine, IsHeader, Headers, Sections, Trimmed,
         HasPrefix;
    var lines, line := Split(data), NewLine(key, value);
    var edited := EditTopLines(lines, key, line);
    NewLineIsOneLine(key, value);
    EditTopOneLine(lines, key, line);
    SplitJoin(edited);
    TopEditedSets(key, TrimSpace(value), Read(lines, None), Read(edited, None));
    var k :| 0 <= k < |Read(edited, None)| && IsTop(Read(edited, None)[k], key);
    KeysRead(edited, None, Read(edited, None)[k]);
    TopEditedSections(key, TrimSpace(value), Read(lines, None), Read(edited, None));
    SectionsAreHeaders(lines, None);
    SectionsAreHeaders(edited, None);
    if IsHeader(line) {
      EditTopHeaders(lines, key, line);
    }
  }

  /**
   Saving a top-level key on any file. Every other section and key reads as before. Load ends up with the saved
   value exactly when no key that falls through from a section behind it gives the same setting another value;
   texts that the setting refuses do not count.
   */
  lemma TopLevelSave<V>(data: string, key: string, value: string, where: Option<string>, k: string,
                            parse: string -> Option<V>)
    requires Bindable(key, value) && OneLine(key) && OneLine(value)
    ensures var after := ReadFile(EditTopLevel(data, key, NewLine(key, value)));
            && LastValue(after, where, k) ==
               (if where == None && k == key then Some(TrimSpace(value)) else LastValue(ReadFile(data), where, k))
            && (parse(TrimSpace(value)).Some? ==>
                  (LoadedTop(after, key, parse) == parse(TrimSpace(value)) <==>
                   LastFallen(ReadFile(data), key, parse) in {None, parse(TrimSpace(value))}))
  {
    var after := ReadFile(EditTopLevel(data, key, NewLine(key, value)));
    LoadedAfterSave(data, key, value, parse);
    TopLevelEdited(data, key, value);
    hide *;
    TopEditedValues(key, TrimSpace(value), ReadFile(data), after, where, k);
  }

  /** A section Load does not know, and a volume below it. */
  function StrayVolume(text: string): string {
    Join(["[x]", NewLine("volume", text)])
  }

  /** A saved volume that does not take effect: for any reader that tells 1 from 2, Load keeps the stray one. */
  lemma TopLevelSaveMisses<V>(parse: string -> Option<V>)
    requires parse("1").Some? && parse("2").Some? && parse("1") != parse("2")
    ensures var after := ReadFile(EditTopLevel(StrayVolume("1"), "volume", NewLine("volume", "2")));
            LoadedTop(after, "volume", parse) == parse("1") != parse("2")
  {
    hide *;
    WordIsPlain("1");
    WordIsPlain("2");
    VolumeIsPlain("2");
    StrayFalls("1", parse);
    LoadedAfterSave(StrayVolume("1"), "volume", "2", parse);
  }

  /** A stray text that the setting refuses does not get in the way. */
  lemma RefusedTextDoesNotCount<V>(parse: string -> Option<V>)
    requires parse("abc").None?
    ensures var after := ReadFile(EditTopLevel(StrayVolume("abc"), "volume", NewLine("volume", "2")));
            LoadedTop(after, "volume", parse) == parse("2")
  {
    hide *;
    WordIsPlain("abc");
    WordIsPlain("2");
    VolumeIsPlain("2");
    StrayFalls("abc", parse);
    LoadedAfterSave(StrayVolume("abc"), "volume", "2", parse);
  }

  lemma StrayFalls<V>(text: string, parse: string -> Option<V>)
    requires TrimSpace(text) == text && OneLine(text)
    ensures LastFallen(ReadFile(StrayVolume(text)), "volume", parse) == parse(text)
  {
    hide Bindable, NewLine, Rewrite, ReadLine, TrimSpace, Join, Split, KeyPart, IsHeader;
    hide OneLine, NamesItself, Read, LastFallen;
    var lines := ["[x]", NewLine("volume", text)];
    VolumeIsPlain(text);
    NewSection('x');
    MissingLine("volume", text);
    OneLineRewrite("volume", text);
    SplitJoin(lines);
    FileReads(lines, text, parse);
  }

  lemma WordIsPlain(text: string)
    requires text != "" && forall c :: c in text ==> 'a' <= c <= 'z' || '0' <= c <= '9'
    ensures TrimSpace(text) == text && OneLine(text)
  {
    assert text[0] in text && text[|text| - 1] in text;
    TrimmedAlready(text);
    hide TrimSpace;
  }

  lemma VolumeIsPlain(value: string)
    ensures Bindable("volume", value) && OneLine("volume")
  {
    hide Bindable;
    PlainWord("volume", value);
  }

  lemma NewSection(c: char)
    requires c != ']' && c != '\n'
    ensures ReadLine(['[', c, ']']) == Header([c]) && OneLine(['[', c, ']'])
  {
    ReadNewHeader([c]);
    assert "[" + [c] + "]" == ['[', c, ']'];
    hide ReadLine;
  }

  lemma FileReads<V>(lines: seq<string>, text: string, parse: string -> Option<V>)
    requires |lines| == 2 && ReadLine(lines[0]) == Header("x") && ReadLine(lines[1]) == KeyLine("volume", text)
    ensures LastFallen(Read(lines, None), "volume", parse) == parse(text)
  {
    hide ReadLine;
    UnknownSection();
    var stray := Binding(Some("x"), "volume", text);
    assert Read(lines[1..][1..], Some("x")) == [];
    assert Read(lines[1..], Some("x")) == [stray];
    assert Read(lines, None) == [Section("x"), stray];
    assert [Section("x"), stray][..1] == [Section("x")];
    assert [Section("x")][..0] == [];
  }

  lemma UnknownSection()
    ensures CanonicalSection("x") == "x" && !Configures("x")
  {
    assert Lower("x") == "x";
  }

  lemma {:induction false} ReplacedOneLine(lines: seq<string>, key: string, line: string)
    requires AllOneLine(lines) && OneLine(line)
    ensures AllOneLine(Replaced(lines, key, line))
  {
    hide OneLine, LineKey;
    if lines != [] {
      ReplacedOneLine(lines[1..], key, line);
    }
  }

  lemma EditTopOneLine(lines: seq<string>, key: string, line: string)
    requires lines != [] && AllOneLine(lines) && OneLine(line)
    ensures EditTopLines(lines, key, line) != [] && AllOneLine(EditTopLines(lines, key, line))
  {
    hide OneLine, Replaced, TopPart, InsertAt, Binds, AllOneLine;
    var top, at := TopPart(lines), InsertAt(lines);
    var rest := lines[|top|..];
    OneLineParts(lines, |top|);
    assert lines[..|top|] == top;
    ReplacedOneLine(top, key, line);
    var edited := Replaced(top, key, line) + rest;
    OneLineJoin(Replaced(top, key, line), rest);
    OneLineInsert(edited, at, line);
    OneLineBlankEnd(edited);
    OneLineBlankEnd(edited[..at] + [line] + edited[at..]);
  }

  lemma OneLineInsert(lines: seq<string>, at: nat, line: string)
    requires AllOneLine(lines) && OneLine(line) && at <= |lines|
    ensures AllOneLine(lines[..at] + [line] + lines[at..])
  {
    hide OneLine;
  }

  lemma OneLineParts(lines: seq<string>, at: nat)
    requires AllOneLine(lines) && at <= |lines|
    ensures AllOneLine(lines[..at]) && AllOneLine(lines[at..])
  {
    hide OneLine;
  }

  lemma OneLineJoin(a: seq<string>, b: seq<string>)
    requires AllOneLine(a) && AllOneLine(b)
    ensures AllOneLine(a + b)
  {
    hide OneLine;
  }

  lemma OneLineBlankEnd(lines: seq<string>)
    requires AllOneLine(lines)
    ensures lines != [] ==> AllOneLine(EndWithBlank(lines))
  {
  }
}
