/**
 Which headers name the same section: spellings that differ in letter case only, and yt, youtube and ytmusic among
 each other. Stated on spellings, and on what Load reads and SaveSection edits under such headers.
 */
module ConfigNames {
  import opened Common
  import opened ConfigText
  import opened ConfigEditor
  import opened ConfigSectionEdit
  import opened ConfigSectionResult
  import opened ConfigSectionTheorem
  import opened ConfigSectionExact
  import opened ConfigComments

  // ---- Spellings ----

  /** The capital and the small form of one letter, or the same character. */
  predicate SameLetter(a: char, b: char) {
    || a == b
    || ('a' <= a <= 'z' && b as int == a as int - ('a' as int - 'A' as int))
    || ('a' <= b <= 'z' && a as int == b as int - ('a' as int - 'A' as int))
  }

  ghost predicate SameSpelling(a: string, b: string) {
    |a| == |b| && forall k :: 0 <= k < |a| ==> SameLetter(a[k], b[k])
  }

  ghost predicate NoCapitals(s: string) {
    forall k :: 0 <= k < |s| ==> !('A' <= s[k] <= 'Z')
  }

  /** The three names of the YouTube section, in any letter case. */
  ghost predicate YouTube(name: string) {
    SameSpelling(name, "yt") || SameSpelling(name, "youtube") || SameSpelling(name, "ytmusic")
  }

  lemma LowerIs(s: string)
    ensures SameSpelling(s, Lower(s)) && NoCapitals(Lower(s))
  {
  }

  /** There is one spelling without capitals. */
  lemma SmallSpelling(a: string, b: string)
    requires SameSpelling(a, b) && NoCapitals(b)
    ensures Lower(a) == b
  {
    forall k | 0 <= k < |a| ensures LowerChar(a[k]) == b[k] {
      assert SameLetter(a[k], b[k]) && !('A' <= b[k] <= 'Z');
    }
  }

  lemma SpelledAlike(a: string, b: string)
    ensures Lower(a) == Lower(b) <==> SameSpelling(a, b)
  {
    LowerIs(a);
    LowerIs(b);
    if Lower(a) == Lower(b) {
      forall k | 0 <= k < |a| ensures SameLetter(a[k], b[k]) {
        assert SameLetter(a[k], Lower(a)[k]) && SameLetter(b[k], Lower(b)[k]);
        assert !('A' <= Lower(a)[k] <= 'Z');
      }
    }
    if SameSpelling(a, b) {
      forall k | 0 <= k < |a| ensures Lower(a)[k] == Lower(b)[k] {
        assert SameLetter(a[k], b[k]);
      }
    }
  }

  lemma SmallNames()
    ensures NoCapitals("yt") && NoCapitals("youtube") && NoCapitals("ytmusic")
  {
  }

  lemma YouTubeLower(name: string)
    ensures YouTube(name) <==> Lower(name) in {"yt", "youtube", "ytmusic"}
  {
    hide Lower, NoCapitals;
    SmallNames();
    LowerIs(name);
    if SameSpelling(name, "yt") { SmallSpelling(name, "yt"); }
    if SameSpelling(name, "youtube") { SmallSpelling(name, "youtube"); }
    if SameSpelling(name, "ytmusic") { SmallSpelling(name, "ytmusic"); }
  }

  // ---- What Load reads under a header ----

  /** The section a header opens: ytmusic for its three names, else the header's own spelling without capitals. */
  lemma HeaderOpens(line: string, name: string, before: Option<string>)
    requires ReadLine(line) == Header(name)
    ensures var here := SectionAfter([line], before);
            && here.Some? && Read([line], before) == [Section(here.value)] && NoCapitals(here.value)
            && if YouTube(name) then here.value == "ytmusic" else SameSpelling(name, here.value)
  {
    ReadOne(line, before);
    LowerIs(name);
    YouTubeLower(name);
    SmallNames();
    hide ReadLine, Lower, NoCapitals, SameSpelling, YouTube;
  }

  /** Two headers open the same section exactly if they are spelled alike or are both names of the YouTube section. */
  lemma SameSectionExactly(a: string, b: string, x: string, y: string, before: Option<string>, later: Option<string>)
    requires ReadLine(a) == Header(x) && ReadLine(b) == Header(y)
    ensures SectionAfter([a], before) == SectionAfter([b], later) <==> SameSpelling(x, y) || (YouTube(x) && YouTube(y))
  {
    ReadOne(a, before);
    ReadOne(b, later);
    SpelledAlike(x, y);
    YouTubeLower(x);
    YouTubeLower(y);
    hide ReadLine, Lower, SameSpelling, YouTube;
  }

  /** A key below a header belongs to the section that the header opens, up to the next header. */
  lemma {:induction false} BindingsBelow(lines: seq<string>, here: Option<string>, k: nat)
    requires k < |lines| && forall j :: 0 <= j <= k ==> !ReadLine(lines[j]).Header?
    requires ReadLine(lines[k]).KeyLine?
    ensures Binding(here, ReadLine(lines[k]).key, ReadLine(lines[k]).val) in Read(lines, here)
  {
    hide ReadLine;
    if k > 0 {
      BindingsBelow(lines[1..], here, k - 1);
    }
  }

  /** Under any spelling of the YouTube header, a key that follows is read as one of ytmusic. */
  lemma YouTubeReads(header: string, name: string, lines: seq<string>, before: Option<string>, k: nat)
    requires ReadLine(header) == Header(name) && YouTube(name)
    requires k < |lines| && ReadLine(lines[k]).KeyLine? && forall j :: 0 <= j <= k ==> !ReadLine(lines[j]).Header?
    ensures Binding(Some("ytmusic"), ReadLine(lines[k]).key, ReadLine(lines[k]).val) in Read([header] + lines, before)
  {
    hide ReadLine, Read, SectionAfter, YouTube;
    HeaderOpens(header, name, before);
    ReadCons(header, lines, before);
    BindingsBelow(lines, Some("ytmusic"), k);
  }

  // ---- What SaveSection edits ----

  lemma {:induction false} HeaderEvent(lines: seq<string>, i: nat, name: string, before: Option<string>)
    requires i < |lines| && ReadLine(lines[i]) == Header(name) && YouTube(name)
    ensures Section("ytmusic") in Read(lines, before)
  {
    hide ReadLine, Read, SectionAfter, YouTube;
    ReadCons(lines[0], lines[1..], before);
    assert [lines[0]] + lines[1..] == lines;
    if i == 0 {
      HeaderOpens(lines[0], name, before);
    } else {
      HeaderEvent(lines[1..], i - 1, name, SectionAfter([lines[0]], before));
    }
  }

  lemma YouTubeTarget(section: string, kv: seq<KeyValue>, owned: seq<string>)
    requires YouTube(section)
    ensures EditOf(section, kv, owned).target == "ytmusic"
  {
    YouTubeLower(section);
    hide YouTube, Lower;
  }

  /**
   Saving the YouTube section, by any of its names, into a file with a header of any of them: no header is added, every
   given key has its value, in all blocks of the section, and everything else is read as before, in the same order.
   */
  lemma YouTubeSaved(
    data: string, section: string, kv: seq<KeyValue>, owned: seq<string>, i: nat, name: string, key: string)
    requires OneLiners(kv) && PlainEdit(EditOf(section, kv, owned)) && YouTube(section)
    requires i < |Split(data)| && ReadLine(Split(data)[i]) == Header(name) && YouTube(name)
    requires key in Values(kv)
    ensures var before, after := ReadFile(data), ReadFile(EditSection(data, section, kv, owned));
            && Sections(after) == Sections(before)
            && LastValue(after, Some("ytmusic"), key) == Some(TrimSpace(Values(kv)[key]))
            && (forall ev :: ev in after && ev.Binding? && ev.section == Some("ytmusic") && ev.key == key ==>
                  ev.val == TrimSpace(Values(kv)[key]))
            && forall where, k :: where != Some("ytmusic") ==> LastValue(after, where, k) == LastValue(before, where, k)
  {
    hide ReadLine, Read, ReadFile, EditSection, Split, YouTube, TrimSpace, Values, LastValue, Sections;
    var e := EditOf(section, kv, owned);
    YouTubeTarget(section, kv, owned);
    FileHasHeader(data, i, name);
    EditSectionReads(data, section, kv, owned);
    KeptSections(e, ReadFile(data), ReadFile(EditSection(data, section, kv, owned)));
    EditSectionValues(data, section, kv, owned, Some("ytmusic"), key);
    AllAsSet(e, ReadFile(EditSection(data, section, kv, owned)), key);
    forall where, k | where != Some("ytmusic")
      ensures LastValue(ReadFile(EditSection(data, section, kv, owned)), where, k)
           == LastValue(ReadFile(data), where, k)
    {
      EditSectionValues(data, section, kv, owned, where, k);
    }
  }

  lemma FileHasHeader(data: string, i: nat, name: string)
    requires i < |Split(data)| && ReadLine(Split(data)[i]) == Header(name) && YouTube(name)
    ensures Section("ytmusic") in ReadFile(data)
  {
    hide ReadLine, Read, Split, YouTube;
    HeaderEvent(Split(data), i, name, None);
  }

  lemma KeptSections(e: Edit, before: seq<Event>, after: seq<Event>)
    requires Edited(e, before, after) && Section(e.target) in before
    ensures Sections(after) == Sections(before)
  {
    hide Sections, Untouched, Bound, AllSet;
    UntouchedSections(e, before);
    UntouchedSections(e, after);
    assert Untouched(e, before) + [] == Untouched(e, before);
  }

  lemma AllAsSet(e: Edit, events: seq<Event>, key: string)
    requires AllSet(e, events) && key in e.values
    ensures forall ev :: ev in events && ev.Binding? && ev.section == Some(e.target) && ev.key == key ==>
              ev.val == TrimSpace(e.values[key])
  {
    hide TrimSpace;
    forall ev | ev in events && ev.Binding? && ev.section == Some(e.target) && ev.key == key
      ensures ev.val == TrimSpace(e.values[key])
    {
      var k :| 0 <= k < |events| && events[k] == ev;
      assert AsSet(e, events[k]);
    }
  }

  // ---- One key under one header ----

  /** A file of one header and one key: saving the key rewrites its line, whichever spelling the header has. */
  lemma YouTubeInPlace(name: string, section: string, key: string, text: string, value: string)
    requires YouTube(name) && YouTube(section) && NamesItself(name)
    requires OneLine(key) && OneLine(text) && OneLine(value) && Bindable(key, text)
    ensures EditSection(Join(["[" + name + "]", NewLine(key, text)]), section, [KeyValue(key, value)], [])
            == Join(["[" + name + "]", NewLine(key, value)])
  {
    hide *;
    var lines, kv := ["[" + name + "]", NewLine(key, text)], [KeyValue(key, value)];
    YouTubeTarget(section, kv, []);
    OneValue(section, key, value);
    NameOpens(name);
    NewLineParts(key, text);
    OneKeyLines(lines, section, key, value);
    SplitJoin(lines);
    FileNotEmpty(lines);
    EditSectionIs(Join(lines), section, kv);
  }

  lemma OneValue(section: string, key: string, value: string)
    ensures EditOf(section, [KeyValue(key, value)], []).values == map[key := value]
    ensures EditOf(section, [KeyValue(key, value)], []).owned == []
  {
    hide CanonicalSection;
    var kv := [KeyValue(key, value)];
    assert kv[..0] == [];
    assert Values(kv) == map[][key := value];
  }

  lemma NameOpens(name: string)
    requires YouTube(name) && NamesItself(name)
    ensures var line := "[" + name + "]"; IsHeader(line) && HeaderName(line) == "ytmusic" && OneLine(line)
  {
    hide ReadLine, NamesItself, IsHeader, HeaderName, Lower, YouTube, SameSpelling, NoCapitals;
    var line := "[" + name + "]";
    ReadNewHeader(name);
    if IsHeader(line) {
      ReadHeader(line);
      YouTubeLower(name);
    } else {
      ReadKeyLine(line);
    }
  }

  lemma FileNotEmpty(lines: seq<string>)
    requires |lines| == 2
    ensures Join(lines) != ""
  {
  }

  lemma OneKeyLines(lines: seq<string>, section: string, key: string, value: string)
    requires |lines| == 2 && IsHeader(lines[0]) && HeaderName(lines[0]) == "ytmusic"
    requires KeyPart(lines[1]) == Some(key + " ") && !IsHeader(lines[1]) && TrimSpace(key + " ") == key
    requires EditOf(section, [KeyValue(key, value)], []) == Edit("ytmusic", map[key := value], [])
    ensures EditSectionLines(lines, section, [KeyValue(key, value)], []) == [lines[0], NewLine(key, value)]
  {
    hide IsHeader, HeaderName, KeyPart, TrimSpace, CanonicalSection, EditOf, Values, PlaceFor, DropBlankEnd;
    var kv := [KeyValue(key, value)];
    var e := EditOf(section, kv, []);
    assert EditLine(e, lines[0], false) == [lines[0]] && InSection(e, lines[0], false);
    assert EditLine(e, lines[1], true) == [Rewrite(key + " ", value)];
    assert Rewrite(key + " ", value) == NewLine(key, value);
    assert lines[1..] == [lines[1]] && lines[1..][1..] == [];
    assert EditLines(e, lines[1..], true) == [NewLine(key, value)];
    assert Written(e, lines[1..], true) == {key};
    assert Written(e, lines, false) == {key};
    PlaceInRange(e, lines, false, 0, Place(0, -1));
    assert Missing(kv, e.values, {key}) == [];
  }
}
