/**
 editSection keeps its promise on exactly the inputs that `Takes` describes; the proof follows the section headers.
 */
module ConfigSectionExact {
  import opened Common
  import opened ConfigText
  import opened ConfigEditor
  import opened ConfigSectionEdit
  import opened ConfigSectionResult
  import opened ConfigSectionTheorem

  // ---- The sections of a file ----

  function Headers(lines: seq<string>): seq<string> {
    if lines == [] then []
    else (if IsHeader(lines[0]) then [HeaderName(lines[0])] else []) + Headers(lines[1..])
  }

  function Sections(events: seq<Event>): seq<string> {
    if events == [] then []
    else (if events[0].Section? then [events[0].name] else []) + Sections(events[1..])
  }

  lemma {:induction false} HeadersConcat(a: seq<string>, b: seq<string>)
    ensures Headers(a + b) == Headers(a) + Headers(b)
  {
    hide IsHeader, HeaderName;
    if a == [] {
      assert a + b == b;
    } else {
      assert (a + b)[1..] == a[1..] + b;
      HeadersConcat(a[1..], b);
    }
  }

  lemma OneHeader(line: string)
    ensures Headers([line]) == if IsHeader(line) then [HeaderName(line)] else []
  {
    hide IsHeader, HeaderName;
    assert [line][1..] == [];
  }

  lemma {:induction false} NoHeaders(lines: seq<string>)
    requires forall k :: 0 <= k < |lines| ==> !IsHeader(lines[k])
    ensures Headers(lines) == []
  {
    hide IsHeader, HeaderName;
    if lines != [] {
      NoHeaders(lines[1..]);
    }
  }

  lemma {:induction false} SectionsAreHeaders(lines: seq<string>, section: Option<string>)
    ensures Sections(Read(lines, section)) == Headers(lines)
  {
    hide IsHeader, HeaderName, ReadLine, CanonicalSection;
    if lines != [] {
      var rest := lines[1..];
      var first := Read([lines[0]], section);
      ReadCons(lines[0], rest, section);
      assert [lines[0]] + rest == lines;
      ReadOne(lines[0], section);
      SectionsAreHeaders(rest, SectionAfter([lines[0]], section));
      LineSections(lines[0], section);
      if first == [] {
        assert first + Read(rest, SectionAfter([lines[0]], section)) == Read(rest, SectionAfter([lines[0]], section));
      }
    }
  }

  lemma LineSections(line: string, section: Option<string>)
    ensures var events := LineEvents(ReadLine(line), section);
            && |events| <= 1 && (IsHeader(line) <==> events != [] && events[0].Section?)
            && (IsHeader(line) ==> events[0].name == HeaderName(line))
  {
    if IsHeader(line) {
      ReadHeader(line);
    } else {
      ReadKeyLine(line);
    }
    hide IsHeader, ReadLine, HeaderName, CanonicalSection, KeyPart, TrimSpace;
  }

  lemma {:induction false} UntouchedSections(e: Edit, events: seq<Event>)
    ensures Sections(Untouched(e, events)) == Sections(events)
  {
    if events != [] {
      UntouchedSections(e, events[1..]);
      if !Touched(e, events[0]) {
        assert Untouched(e, events)[1..] == Untouched(e, events[1..]);
      } else {
        assert Untouched(e, events) == Untouched(e, events[1..]);
      }
    }
  }

  lemma {:induction false} SectionsConcat(a: seq<Event>, b: seq<Event>)
    ensures Sections(a + b) == Sections(a) + Sections(b)
  {
    if a == [] {
      assert a + b == b;
    } else {
      assert (a + b)[1..] == a[1..] + b;
      SectionsConcat(a[1..], b);
    }
  }

  lemma OneSection(ev: Event)
    ensures Sections([ev]) == if ev.Section? then [ev.name] else []
  {
    assert [ev][1..] == [];
  }

  /** An edit that keeps its promise adds at most the one header. */
  lemma EditedSections(e: Edit, lines: seq<string>, out: seq<string>)
    requires Edited(e, Read(lines, None), Read(out, None))
    ensures Headers(out) == Headers(lines) + if AddedHeader(e, Read(lines, None)) == [] then [] else [e.target]
  {
    hide Read, Sections, Untouched, Bound, AllSet;
    var before, after := Read(lines, None), Read(out, None);
    SectionsAreHeaders(lines, None);
    SectionsAreHeaders(out, None);
    UntouchedSections(e, before);
    UntouchedSections(e, after);
    SectionsConcat(Untouched(e, before), [Section(e.target)]);
    OneSection(Section(e.target));
    if AddedHeader(e, before) == [] {
      assert Untouched(e, before) + [] == Untouched(e, before);
    }
  }

  // ---- Keys that cannot be written ----

  /** The keys whose new line reads as a header. */
  ghost predicate Bad(e: Edit, key: string) {
    key in e.values && IsHeader(NewLine(key, e.values[key]))
  }

  ghost predicate AnyBad(e: Edit, keys: set<string>) {
    exists key :: key in keys && Bad(e, key)
  }

  lemma {:induction false} EditedHeaders(e: Edit, lines: seq<string>, inSection: bool)
    ensures |Headers(EditLines(e, lines, inSection))| >=
            |Headers(lines)| + if AnyBad(e, Written(e, lines, inSection)) then 1 else 0
    ensures PlainEdit(e) ==> Headers(EditLines(e, lines, inSection)) == Headers(lines)
  {
    hide EditLine, InSection, WrittenKey, IsHeader, HeaderName, Bad, PlainEdit;
    if lines != [] {
      var rest, inside := lines[1..], InSection(e, lines[0], inSection);
      EditedHeaders(e, rest, inside);
      LineHeaders(e, lines[0], inSection);
      HeadersConcat(EditLine(e, lines[0], inSection), EditLines(e, rest, inside));
      HeadersConcat([lines[0]], rest);
      assert [lines[0]] + rest == lines;
      hide Headers, EditLines;
      if AnyBad(e, Written(e, lines, inSection)) {
        AnyOfBoth(e, WrittenKey(e, lines[0], inSection), Written(e, rest, inside));
      }
    }
  }

  lemma AnyOfBoth(e: Edit, a: set<string>, b: set<string>)
    ensures AnyBad(e, a + b) ==> AnyBad(e, a) || AnyBad(e, b)
  {
    hide Bad;
  }

  lemma LineHeaders(e: Edit, line: string, inSection: bool)
    ensures |Headers(EditLine(e, line, inSection))| >=
            |Headers([line])| + if AnyBad(e, WrittenKey(e, line, inSection)) then 1 else 0
    ensures PlainEdit(e) ==> Headers(EditLine(e, line, inSection)) == Headers([line])
  {
    hide IsHeader, HeaderName, TrimSpace, Rewrite, NewLine, KeyPart, Headers, Trimmed, HasPrefix;
    OneHeader(line);
    NoHeaders([]);
    if inSection && !IsHeader(line) && KeyPart(line).Some? {
      var before := KeyPart(line).value;
      var key := TrimSpace(before);
      if key in e.values {
        PlainOrBad(e, key);
        KeyPartPlain(line);
        SameHeader(before, e.values[key]);
        OneHeader(Rewrite(before, e.values[key]));
      }
    }
  }

  lemma {:induction false} MissingHeaders(e: Edit, kv: seq<KeyValue>, written: set<string>)
    requires forall k :: 0 <= k < |kv| ==> kv[k].key in e.values
    ensures AnyBad(e, KeysOf(kv) - written) ==> Headers(Missing(kv, e.values, written)) != []
    ensures PlainEdit(e) ==> Headers(Missing(kv, e.values, written)) == []
    decreases |kv|
  {
    hide PlainEdit, NewLine, IsHeader, HeaderName, KeysOf, Bad, Headers;
    if kv == [] {
      NoKeys();
      NoHeaders([]);
    } else {
      var key, rest := kv[0].key, kv[1..];
      KeysLeft(kv, written);
      if key in written {
        MissingHeaders(e, rest, written);
      } else {
        var more := Missing(rest, e.values, written + {key});
        MissingHeaders(e, rest, written + {key});
        HeadersConcat([NewLine(key, e.values[key])], more);
        OneHeader(NewLine(key, e.values[key]));
        PlainOrBad(e, key);
        AnyOfBoth(e, {key}, KeysOf(rest) - (written + {key}));
      }
    }
  }

  lemma PlainOrBad(e: Edit, key: string)
    requires key in e.values
    ensures Bad(e, key) <==> IsHeader(NewLine(key, e.values[key]))
    ensures PlainEdit(e) ==> !Bad(e, key)
  {
  }

  // ---- The assembled file ----

  lemma {:induction false} DropBlankEndHeaders(lines: seq<string>)
    ensures Headers(DropBlankEnd(lines)) == Headers(lines)
    decreases |lines|
  {
    hide Headers, TrimSpace;
    if lines != [] && TrimSpace(lines[|lines| - 1]) == "" {
      var head, last := lines[..|lines| - 1], lines[|lines| - 1];
      DropBlankEndHeaders(head);
      HeadersConcat(head, [last]);
      BlankHeader(last);
      assert head + [last] == lines;
    }
  }

  lemma BlankHeader(line: string)
    requires TrimSpace(line) == ""
    ensures Headers([line]) == []
  {
    OneHeader(line);
  }

  /** The section that Load reads from the header written for a missing section. */
  function NameRead(section: string): string {
    var i := IndexOf(section, ']');
    CanonicalSection(if NamesItself(section) || i < 0 then section else section[..i])
  }

  lemma NewHeaderRead(section: string)
    requires OneLine(section)
    ensures Headers(["[" + section + "]"]) == [NameRead(section)]
  {
    var line := "[" + section + "]";
    ReadHeaderOf(section);
    OneHeader(line);
    hide ReadLine, IsHeader, HeaderName, CanonicalSection, NamesItself, Headers;
    if IsHeader(line) {
      ReadHeader(line);
    } else {
      ReadKeyLine(line);
    }
  }

  lemma AppendedHeaders(section: string, out: seq<string>, missing: seq<string>)
    requires missing != [] && OneLine(section)
    ensures Headers(Assemble(section, out, -1, missing)) == Headers(out) + [NameRead(section)] + Headers(missing)
  {
    hide Headers, DropBlankEnd, NameRead, OneLine;
    var kept, header := DropBlankEnd(out), ["[" + section + "]"];
    DropBlankEndHeaders(out);
    GapHeaders(kept);
    NewHeaderRead(section);
    HeadersConcat(kept, Gap(kept));
    HeadersConcat(kept + Gap(kept), header);
    HeadersConcat(kept + Gap(kept) + header, missing);
    HeadersConcat(kept + Gap(kept) + header + missing, [""]);
    BlankHeader("");
  }

  lemma GapHeaders(kept: seq<string>)
    ensures Headers(Gap(kept)) == []
  {
    hide Headers;
    BlankHeader("");
    NoHeaders([]);
  }

  lemma InsertedHeaders(out: seq<string>, at: nat, missing: seq<string>)
    requires at <= |out|
    ensures |Headers(out[..at] + missing + out[at..])| == |Headers(out)| + |Headers(missing)|
  {
    hide Headers;
    HeadersConcat(out[..at], missing);
    HeadersConcat(out[..at] + missing, out[at..]);
    HeadersConcat(out[..at], out[at..]);
    assert out[..at] + out[at..] == out;
  }

  /** Outside its section the edit writes nothing. */
  lemma {:induction false} NothingWritten(e: Edit, lines: seq<string>, section: Option<string>)
    requires Section(e.target) !in Read(lines, section)
    ensures Written(e, lines, false) == {}
  {
    hide Read, InSection, IsHeader;
    if lines != [] {
      SectionInLines(e, lines[0], lines[1..], section);
      assert [lines[0]] + lines[1..] == lines;
      assert !InSection(e, lines[0], false) by { OutsideStays(e, lines[0]); }
      NothingWritten(e, lines[1..], SectionAfter([lines[0]], section));
    }
  }

  lemma OutsideStays(e: Edit, line: string)
    requires !TargetHeader(e, line)
    ensures !InSection(e, line, false)
  {
  }

  // ---- The converse ----

  /** An edit that keeps its promise writes no key that reads as a header. */
  lemma NoBadKey(lines: seq<string>, section: string, kv: seq<KeyValue>, owned: seq<string>, key: string)
    requires OneLine(section) || Section(CanonicalSection(section)) in Read(lines, None)
    requires Edited(EditOf(section, kv, owned), Read(lines, None),
                    Read(EditSectionLines(lines, section, kv, owned), None))
    ensures !Bad(EditOf(section, kv, owned), key)
  {
    var e := EditOf(section, kv, owned);
    if Bad(e, key) {
      var out, written := EditLines(e, lines, false), Written(e, lines, false);
      var missing, at := Missing(kv, e.values, written), PlaceFor(e, lines, false, 0, Place(0, -1)).at;
      ValuesKeys(kv);
      PlaceInRange(e, lines, false, 0, Place(0, -1));
      PlaceSeen(e, lines, false, 0, Place(0, -1), None);
      EditedHeaders(e, lines, false);
      MissingHeaders(e, kv, written);
      EditedSections(e, lines, EditSectionLines(lines, section, kv, owned));
      if Section(e.target) !in Read(lines, None) {
        NothingWritten(e, lines, None);
      }
      assert key in KeysOf(kv) && key in e.values;
      assert EditSectionLines(lines, section, kv, owned) == Assemble(section, out, at, missing);
      hide EditLines, Written, Missing, PlaceFor, Read, Headers, Bad, Edited, CanonicalSection, OneLine, Assemble,
           KeysOf, Values;
      BadCounts(e, lines, section, out, at, missing, written, KeysOf(kv), key);
    }
  }

  lemma BadCounts(e: Edit, lines: seq<string>, section: string, out: seq<string>, at: int, missing: seq<string>,
                  written: set<string>, keys: set<string>, key: string)
    requires Bad(e, key) && key in keys && e.values != map[]
    requires -1 <= at <= |out|
    requires at >= 0 <==> Section(e.target) in Read(lines, None)
    requires at >= 0 || (OneLine(section) && written == {})
    requires |Headers(out)| >= |Headers(lines)| + if AnyBad(e, written) then 1 else 0
    requires AnyBad(e, keys - written) ==> Headers(missing) != []
    ensures Headers(Assemble(section, out, at, missing)) !=
            Headers(lines) + if AddedHeader(e, Read(lines, None)) == [] then [] else [e.target]
  {
    hide Read, Bad, OneLine, DropBlankEnd;
    assert AnyBad(e, written) || AnyBad(e, keys - written) by {
      assert key in written || key in keys - written;
    }
    if missing == [] {
      NoHeaders([]);
    }
    hide Headers, AnyBad;
    if at >= 0 {
      if missing != [] {
        InsertedHeaders(out, at, missing);
      }
    } else {
      assert AnyBad(e, keys - written) by { hide *; assert !AnyBad(e, {}) by { NoneBad(e); } }
      AppendedHeaders(section, out, missing);
    }
  }

  lemma NoneBad(e: Edit)
    ensures !AnyBad(e, {})
  {
  }

  /** A key that Load reads has the shape of a key. */
  lemma {:induction false} KeysRead(lines: seq<string>, section: Option<string>, ev: Event)
    requires ev in Read(lines, section) && ev.Binding?
    ensures '=' !in ev.key && Trimmed(ev.key) && !HasPrefix(ev.key, '#')
  {
    hide ReadLine, CanonicalSection, Trimmed, HasPrefix;
    var next := SectionAfter([lines[0]], section);
    ReadCons(lines[0], lines[1..], section);
    assert [lines[0]] + lines[1..] == lines;
    ReadOne(lines[0], section);
    if ev in Read(lines[1..], next) {
      KeysRead(lines[1..], next, ev);
    } else {
      KeyShape(lines[0]);
    }
  }

  lemma KeyShape(line: string)
    requires ReadLine(line).KeyLine?
    ensures var key := ReadLine(line).key; '=' !in key && Trimmed(key) && !HasPrefix(key, '#')
  {
    var t := TrimSpace(line);
    var cut := Cut(t).value;
    hide TrimSpace, SectionHeader;
    TrimSpaceEnds(line);
    TrimSpaceEnds(cut.0);
    LeadStays(t, cut.0, cut.1);
  }

  /** If a trimmed line does not start with '#', its key does not. */
  lemma LeadStays(t: string, before: string, after: string)
    requires t == before + "=" + after && Trimmed(t) && !HasPrefix(t, '#')
    ensures !HasPrefix(TrimSpace(before), '#')
  {
    if before != "" {
      assert t[0] == before[0];
      TrimStart(before);
      assert TrimLeft(before) == before;
    }
  }

  lemma {:induction false} BoundIsRead(e: Edit, events: seq<Event>, key: string)
    requires key in Bound(e, events)
    ensures exists ev :: ev in events && ev.Binding? && ev.key == key
  {
    if Touched(e, events[0]) && events[0].key == key {
      assert events[0] in events;
    } else {
      BoundIsRead(e, events[1..], key);
    }
  }

  lemma GoodKeys(e: Edit, before: seq<Event>, out: seq<string>)
    requires Edited(e, before, Read(out, None)) && forall key :: !Bad(e, key)
    ensures PlainEdit(e)
  {
    hide Untouched, AllSet, Read, Bound, Trimmed, HasPrefix, IsHeader;
    forall key | key in e.values ensures Bindable(key, e.values[key]) {
      BoundIsRead(e, Read(out, None), key);
      var ev :| ev in Read(out, None) && ev.Binding? && ev.key == key;
      KeysRead(out, None, ev);
      assert !Bad(e, key);
    }
  }

  /** A header that is closed early names another section. */
  lemma ClosedEarly(section: string)
    requires OneLine(section) && !NamesItself(section)
    ensures NameRead(section) != CanonicalSection(section)
  {
    var i := IndexOf(section, ']');
    LowerKeeps(section, ']');
    LowerKeeps(section[..i], ']');
    assert ']' in section;
    hide Lower, NamesItself;
  }

  lemma LowerKeeps(s: string, c: char)
    requires c == ']' || c == '\n'
    ensures c in Lower(s) <==> c in s
    ensures c in CanonicalSection(s) <==> c in s
  {
    if c in s {
      var k :| 0 <= k < |s| && s[k] == c;
      assert Lower(s)[k] == c;
    }
    if c in Lower(s) {
      var k :| 0 <= k < |s| && Lower(s)[k] == c;
      assert s[k] == c;
    }
    hide Lower;
  }

  /** An edit that adds a header which is closed early does not keep its promise. */
  lemma HeaderNamesItself(lines: seq<string>, section: string, kv: seq<KeyValue>, owned: seq<string>)
    requires OneLine(section) && kv != [] && Section(CanonicalSection(section)) !in Read(lines, None)
    requires PlainEdit(EditOf(section, kv, owned))
    requires Edited(EditOf(section, kv, owned), Read(lines, None),
                    Read(EditSectionLines(lines, section, kv, owned), None))
    ensures NamesItself(section)
  {
    hide EditLines, Written, Missing, PlaceFor, Read, Headers, Edited, CanonicalSection, OneLine, Assemble, PlainEdit,
         NamesItself;
    var e := EditOf(section, kv, owned);
    var out, written := EditLines(e, lines, false), Written(e, lines, false);
    var missing, at := Missing(kv, e.values, written), PlaceFor(e, lines, false, 0, Place(0, -1)).at;
    ValuesKeys(kv);
    assert kv[0].key in KeysOf(kv) && kv[0].key in e.values;
    PlaceInRange(e, lines, false, 0, Place(0, -1));
    PlaceSeen(e, lines, false, 0, Place(0, -1), None);
    EditedHeaders(e, lines, false);
    MissingHeaders(e, kv, written);
    NothingWritten(e, lines, None);
    NothingMissing(kv, e.values, written);
    EditedSections(e, lines, EditSectionLines(lines, section, kv, owned));
    assert at == -1;
    assert EditSectionLines(lines, section, kv, owned) == Assemble(section, out, -1, missing);
    hide KeysOf, Values, EditSectionLines;
    AppendedHeaders(section, out, missing);
    hide NameRead, AddedHeader;
    LastSame(Headers(lines), NameRead(section), e.target);
    if !NamesItself(section) {
      ClosedEarly(section);
    }
  }

  lemma LastSame(names: seq<string>, a: string, b: string)
    ensures names + [a] + [] == names + [b] ==> a == b
  {
    assert names + [a] + [] == names + [a];
    assert (names + [a])[|names|] == a && (names + [b])[|names|] == b;
  }

  /** No line of a file names a section with a line break. */
  lemma {:induction false} HeadersOneLine(lines: seq<string>, name: string)
    requires AllOneLine(lines) && name in Headers(lines)
    ensures OneLine(name)
  {
    hide IsHeader, HeaderName, OneLine;
    if IsHeader(lines[0]) && name == HeaderName(lines[0]) {
      HeaderOneLine(lines[0]);
    } else {
      HeadersOneLine(lines[1..], name);
    }
  }

  lemma HeaderOneLine(line: string)
    requires OneLine(line) && IsHeader(line)
    ensures OneLine(HeaderName(line))
  {
    TrimSpaceEnds(line);
    var t := TrimSpace(line);
    hide TrimSpace;
    var name := SectionHeader(t).value;
    assert forall c :: c in name ==> c in t;
    LowerKeeps(name, '\n');
  }

  /** A section name with a line break is never added. */
  lemma SectionOneLine(data: string, section: string, kv: seq<KeyValue>, owned: seq<string>)
    requires kv != [] && Section(CanonicalSection(section)) !in ReadFile(data)
    requires Edited(EditOf(section, kv, owned), ReadFile(data), ReadFile(EditSection(data, section, kv, owned)))
    ensures OneLine(section)
  {
    var e, after := EditOf(section, kv, owned), Split(EditSection(data, section, kv, owned));
    ValuesKeys(kv);
    assert kv[0].key in KeysOf(kv) && kv[0].key in e.values;
    hide Edited, Headers, Read, EditSection, Split, CanonicalSection, Values, OneLine;
    EditedSections(e, Split(data), after);
    assert e.target in Headers(after) by {
      assert Headers(after)[|Headers(after)| - 1] == e.target;
    }
    HeadersOneLine(after, e.target);
    LowerKeeps(section, '\n');
    hide *;
    assert OneLine(section) <==> OneLine(CanonicalSection(section)) by { SameBreaks(section); }
  }

  lemma SameBreaks(section: string)
    ensures OneLine(section) <==> OneLine(CanonicalSection(section))
  {
    LowerKeeps(section, '\n');
  }

  /**
   On every file and every input that SaveSection lets through, editSection keeps its promise exactly if each key it
   is given can be bound by a line and a header that it must add names the section.
   */
  lemma EditSectionExactly(data: string, section: string, kv: seq<KeyValue>, owned: seq<string>)
    requires OneLiners(kv)
    ensures Edited(EditOf(section, kv, owned), ReadFile(data), ReadFile(EditSection(data, section, kv, owned)))
       <==> Takes(EditOf(section, kv, owned), section, ReadFile(data))
  {
    var e := EditOf(section, kv, owned);
    if Takes(e, section, ReadFile(data)) {
      EditSectionReads(data, section, kv, owned);
    }
    if Edited(e, ReadFile(data), ReadFile(EditSection(data, section, kv, owned))) {
      TakesIfEdited(data, section, kv, owned);
    }
  }

  lemma TakesIfEdited(data: string, section: string, kv: seq<KeyValue>, owned: seq<string>)
    requires OneLiners(kv)
    requires Edited(EditOf(section, kv, owned), ReadFile(data), ReadFile(EditSection(data, section, kv, owned)))
    ensures Takes(EditOf(section, kv, owned), section, ReadFile(data))
  {
    var e, lines := EditOf(section, kv, owned), LinesOf(data);
    var out := EditSectionLines(lines, section, kv, owned);
    LinesOfRead(data);
    if kv != [] && Section(e.target) !in ReadFile(data) {
      SectionOneLine(data, section, kv, owned);
    }
    if kv == [] {
      NothingGiven(section, owned);
    } else {
      EditSectionOneLine(data, section, kv, owned);
      JoinedReads(out);
      hide Edited, Read, ReadFile, EditSectionLines, CanonicalSection, Values, PlainEdit, NamesItself, OneLiners,
           OneLine, LinesOf, Bad;
      forall key ensures !Bad(e, key) {
        NoBadKey(lines, section, kv, owned, key);
      }
      GoodKeys(e, Read(lines, None), out);
      if Section(e.target) !in ReadFile(data) {
        HeaderNamesItself(lines, section, kv, owned);
      }
    }
  }

  lemma NothingGiven(section: string, owned: seq<string>)
    ensures PlainEdit(EditOf(section, [], owned)) && EditOf(section, [], owned).values == map[]
  {
  }

  /** A key that a line cannot bind: written as `a=b = 1`, it reads back as the key `a`. */
  lemma SplitKeyMisses()
    ensures var kv := [KeyValue("a=b", "1")];
            OneLiners(kv) && !Edited(EditOf("x", kv, []), ReadFile(""), ReadFile(EditSection("", "x", kv, [])))
  {
    hide Edited, ReadFile, EditSection, Takes;
    var kv := [KeyValue("a=b", "1")];
    assert "a=b"[1] == '=';
    assert OneLine("a=b") && OneLine("1");
    EditSectionExactly("", "x", kv, []);
    SplitKeyTaken();
  }

  lemma SplitKeyTaken()
    ensures !Takes(EditOf("x", [KeyValue("a=b", "1")], []), "x", ReadFile(""))
  {
    hide ReadFile, NamesItself, IsHeader, Trimmed, CanonicalSection;
    var kv := [KeyValue("a=b", "1")];
    assert kv[..0] == [];
    assert Values(kv) == map[]["a=b" := "1"];
    assert "a=b"[1] == '=';
    assert !Bindable("a=b", Values(kv)["a=b"]);
  }
}
