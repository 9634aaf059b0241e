/** editSection sets the keys it is given, removes the keys it owns otherwise, and changes nothing else. */
module ConfigSectionTheorem {
  import opened Common
  import opened ConfigText
  import opened ConfigCodec
  import opened ConfigEditor
  import opened ConfigSectionEdit
  import opened ConfigSectionResult

  /** The promise of editSection, on the events before and after. */
  ghost predicate Edited(e: Edit, before: seq<Event>, after: seq<Event>) {
    && Bound(e, after) == e.values.Keys
    && AllSet(e, after)
    && Untouched(e, after) == Untouched(e, before) + AddedHeader(e, before)
  }

  function AddedHeader(e: Edit, before: seq<Event>): seq<Event> {
    if Section(e.target) in before || e.values == map[] then [] else [Section(e.target)]
  }

  lemma AllSetConcat(e: Edit, a: seq<Event>, b: seq<Event>)
    ensures AllSet(e, a + b) <==> AllSet(e, a) && AllSet(e, b)
  {
    hide AsSet;
    var ab := a + b;
    if AllSet(e, ab) {
      forall k | 0 <= k < |a| ensures AsSet(e, a[k]) {
        assert ab[k] == a[k];
      }
      forall k | 0 <= k < |b| ensures AsSet(e, b[k]) {
        assert ab[|a| + k] == b[k];
      }
    }
  }

  /** Putting the missing keys inside their section. */
  lemma InsertedEvents(e: Edit, before: seq<Event>, a: seq<Event>, m: seq<Event>, b: seq<Event>)
    requires a + b == EditEvents(e, before)
    requires Untouched(e, m) == [] && AllSet(e, m) && Bound(e, m) == e.values.Keys - Bound(e, before)
    ensures Bound(e, a + m + b) == e.values.Keys && AllSet(e, a + m + b)
    ensures Untouched(e, a + m + b) == Untouched(e, before)
  {
    EditEventsKeep(e, before);
    BoundInValues(e, before);
    UntouchedConcat(e, a, b);
    UntouchedConcat(e, a, m);
    UntouchedConcat(e, a + m, b);
    AllSetConcat(e, a, b);
    AllSetConcat(e, a, m);
    AllSetConcat(e, a + m, b);
    hide *;
    assert Untouched(e, a) + [] == Untouched(e, a);
  }

  lemma {:induction false} BoundInValues(e: Edit, events: seq<Event>)
    ensures Bound(e, events) <= e.values.Keys
  {
    if events != [] {
      BoundInValues(e, events[1..]);
    }
  }

  /** Without a header for it, nothing is bound in a section. */
  lemma {:induction false} UnseenSection(e: Edit, lines: seq<string>, section: Option<string>)
    requires section != Some(e.target) && Section(e.target) !in Read(lines, section)
    ensures Bound(e, Read(lines, section)) == {} && SectionAfter(lines, section) != Some(e.target)
  {
    hide ReadLine;
    if lines != [] {
      var events := Read(lines, section);
      match ReadLine(lines[0])
      case Other => UnseenSection(e, lines[1..], section);
      case Header(name) =>
        assert events[0] == Section(CanonicalSection(name));
        assert events[1..] == Read(lines[1..], Some(CanonicalSection(name)));
        UnseenSection(e, lines[1..], Some(CanonicalSection(name)));
      case KeyLine(key, val) =>
        assert events[1..] == Read(lines[1..], section);
        UnseenSection(e, lines[1..], section);
    }
  }

  // ---- The appended section ----

  lemma {:induction false} DropBlankEndReads(lines: seq<string>, section: Option<string>)
    ensures Read(DropBlankEnd(lines), section) == Read(lines, section)
    ensures SectionAfter(DropBlankEnd(lines), section) == SectionAfter(lines, section)
    decreases |lines|
  {
    hide Read, SectionAfter, TrimSpace;
    if lines != [] && TrimSpace(lines[|lines| - 1]) == "" {
      var head, last := lines[..|lines| - 1], lines[|lines| - 1];
      DropBlankEndReads(head, section);
      ReadConcat(head, [last], section);
      ReadBlank(last, SectionAfter(head, section));
      assert head + [last] == lines;
    }
  }

  lemma ReadBlank(line: string, section: Option<string>)
    requires TrimSpace(line) == ""
    ensures Read([line], section) == [] && SectionAfter([line], section) == section && ReadLine(line) == Other
  {
    hide TrimSpace;
    ReadOne(line, section);
  }

  /** The header written for a section names the text up to its first ']' if that closes it. */
  lemma ReadHeaderOf(section: string)
    requires OneLine(section)
    ensures ReadLine("[" + section + "]")
            == Header(if NamesItself(section) then section else section[..IndexOf(section, ']')])
    ensures !NamesItself(section) ==> IndexOf(section, ']') >= 0
    ensures OneLine("[" + section + "]")
  {
    NewHeaderTrimmed(section);
    SectionHeaderOf(section);
    hide SectionHeader, NamesItself, TrimSpace, IndexOf;
  }

  lemma NewHeaderTrimmed(section: string)
    ensures var line := "[" + section + "]";
            TrimSpace(line) == line && line != "" && line[0] == '[' && (OneLine(section) ==> OneLine(line))
  {
    TrimmedAlready("[" + section + "]");
    hide TrimSpace;
  }

  lemma SectionHeaderOf(section: string)
    requires OneLine(section)
    ensures SectionHeader("[" + section + "]")
            == Some(if NamesItself(section) then section else section[..IndexOf(section, ']')])
    ensures !NamesItself(section) ==> IndexOf(section, ']') >= 0
  {
    Brackets(section);
    AfterNothing();
    hide AfterClose, IndexOf;
  }

  lemma AfterNothing()
    ensures AfterClose("")
  {
  }

  lemma Brackets(section: string)
    ensures var line, i, end := "[" + section + "]", IndexOf(section, ']'), IndexOf("[" + section + "]", ']');
            && line[1..|line| - 1] == section && line[|line| - 1] == ']' && end > 0
            && (i < 0 ==> end == |section| + 1 && line[1..end] == section && line[end + 1..] == "")
            && (i >= 0 ==> end == i + 1 && line[1..end] == section[..i] && line[end + 1..] == section[i + 1..] + "]")
  {
    hide IndexOf;
    var i := IndexOf(section, ']');
    Bracketed(section, if i < 0 then |section| else i);
  }

  lemma Bracketed(section: string, i: nat)
    requires i <= |section| && ']' !in section[..i] && (i < |section| ==> section[i] == ']')
    ensures var line := "[" + section + "]";
            && line[1..|line| - 1] == section && line[1..i + 1] == section[..i]
            && IndexOf(line, ']') == i + 1
            && line[i + 2..] == if i < |section| then section[i + 1..] + "]" else ""
  {
    var line := "[" + section + "]";
    hide IndexOf;
    assert line[..i + 1] == "[" + section[..i];
    assert line[i + 1] == ']';
    FirstAt(line, ']', i + 1);
    assert i < |section| ==> line[i + 2..] == section[i + 1..] + "]";
  }

  lemma ReadNewHeader(section: string)
    requires NamesItself(section)
    ensures ReadLine("[" + section + "]") == Header(section)
    ensures OneLine("[" + section + "]")
  {
    hide ReadLine;
    ReadHeaderOf(section);
  }

  lemma ReadNewHeaderLine(section: string, before: Option<string>)
    requires NamesItself(section)
    ensures Read(["[" + section + "]"], before) == [Section(CanonicalSection(section))]
    ensures SectionAfter(["[" + section + "]"], before) == Some(CanonicalSection(section))
  {
    ReadNewHeader(section);
    hide ReadLine, NamesItself, CanonicalSection;
    ReadOne("[" + section + "]", before);
  }

  /** The blank line before an appended section, if the file has anything before it. */
  function Gap(kept: seq<string>): seq<string> {
    if kept == [] then [] else [""]
  }

  lemma ReadGap(kept: seq<string>, section: Option<string>)
    ensures Read(Gap(kept), section) == [] && SectionAfter(Gap(kept), section) == section
  {
    ReadBlank("", section);
  }

  /** Reading the block that is appended when the section is missing. */
  lemma AppendedEvents(e: Edit, out: seq<string>, section: string, missing: seq<string>)
    requires NamesItself(section) && CanonicalSection(section) == e.target
    requires BindsOnly(e, missing, e.values.Keys) && missing != []
    ensures Read(Assemble(section, out, -1, missing), None) ==
            Read(out, None) + [Section(e.target)] + Read(missing, Some(e.target))
  {
    var kept, target := DropBlankEnd(out), Some(e.target);
    var gap, header := Gap(kept), ["[" + section + "]"];
    assert Assemble(section, out, -1, missing) == kept + gap + header + missing + [""];
    DropBlankEndReads(out, None);
    ReadGap(kept, SectionAfter(kept, None));
    ReadNewHeaderLine(section, SectionAfter(kept, None));
    ReadBlank("", target);
    hide Read, SectionAfter, ReadLine, CanonicalSection, DropBlankEnd, Assemble, Gap, Untouched, Bound, AllSet,
         NamesItself;
    ReadFour(kept, gap, header, missing, [""]);
    assert Read(out, None) + [] == Read(out, None);
  }

  lemma ReadFour(a: seq<string>, b: seq<string>, c: seq<string>, d: seq<string>, f: seq<string>)
    ensures var s1 := SectionAfter(a, None); var s2 := SectionAfter(b, s1);
            var s3 := SectionAfter(c, s2); var s4 := SectionAfter(d, s3);
            Read(a + b + c + d + f, None) == Read(a, None) + Read(b, s1) + Read(c, s2) + Read(d, s3) + Read(f, s4)
  {
    hide *;
    ReadConcat(a, b, None);
    ReadConcat(a + b, c, None);
    ReadConcat(a + b + c, d, None);
    ReadConcat(a + b + c + d, f, None);
  }

  lemma AppendedEdited(e: Edit, before: seq<Event>, m: seq<Event>)
    requires Bound(e, before) == {} && Section(e.target) !in before && e.values != map[]
    requires Untouched(e, m) == [] && AllSet(e, m) && Bound(e, m) == e.values.Keys
    ensures Edited(e, before, EditEvents(e, before) + [Section(e.target)] + m)
  {
    var a, h := EditEvents(e, before), [Section(e.target)];
    EditEventsKeep(e, before);
    UntouchedConcat(e, a, h);
    UntouchedConcat(e, a + h, m);
    AllSetConcat(e, a, h);
    AllSetConcat(e, a + h, m);
    assert h[1..] == [];
    assert Untouched(e, h) == h && Bound(e, h) == {} && AllSet(e, h);
    hide EditEvents, Bound, Untouched, AllSet;
    assert Untouched(e, a) + h + [] == Untouched(e, a) + h;
  }

  // ---- Whole files ----

  lemma PlaceStart(e: Edit, lines: seq<string>)
    requires PlainEdit(e)
    ensures var place := PlaceFor(e, lines, false, 0, Place(0, -1));
            && PlaceStands(e, EditLines(e, lines, false), place)
            && (place.at >= 0 <==> Section(e.target) in Read(lines, None))
  {
    assert PlaceStands(e, [], Place(0, -1));
    assert SectionAfter([], None) == None;
    PlaceFound(e, lines, [], Place(0, -1));
    hide *;
    assert [] + EditLines(e, lines, false) == EditLines(e, lines, false);
  }

  lemma NothingAdded(e: Edit, before: seq<Event>)
    requires e.values.Keys <= Bound(e, before)
    requires Section(e.target) in before || Bound(e, before) == {}
    ensures Edited(e, before, EditEvents(e, before))
  {
    EditEventsKeep(e, before);
    BoundInValues(e, before);
    hide Untouched, Bound, EditEvents, AllSet;
    assert Untouched(e, before) + [] == Untouched(e, before);
  }

  lemma InsertedLines(e: Edit, before: seq<Event>, out: seq<string>, at: int, missing: seq<string>)
    requires 0 <= at <= |out| && SectionAfter(out[..at], None) == Some(e.target)
    requires Read(out, None) == EditEvents(e, before) && Section(e.target) in before
    requires BindsOnly(e, missing, e.values.Keys - Bound(e, before))
    ensures Edited(e, before, Read(out[..at] + missing + out[at..], None))
  {
    hide Read, SectionAfter, Untouched, Bound, EditEvents, AllSet;
    var a, b := out[..at], out[at..];
    assert a + b == out;
    ReadConcat(a, b, None);
    ReadConcat(a, missing, None);
    ReadConcat(a + missing, b, None);
    InsertedEvents(e, before, Read(a, None), Read(missing, Some(e.target)), Read(b, Some(e.target)));
    assert Untouched(e, before) + [] == Untouched(e, before);
  }

  /** What the edited lines read as. */
  lemma EditSectionLinesRead(lines: seq<string>, section: string, kv: seq<KeyValue>, owned: seq<string>)
    requires Takes(EditOf(section, kv, owned), section, Read(lines, None))
    ensures Edited(EditOf(section, kv, owned), Read(lines, None),
                   Read(EditSectionLines(lines, section, kv, owned), None))
  {
    var e := EditOf(section, kv, owned);
    var out, place := EditLines(e, lines, false), PlaceFor(e, lines, false, 0, Place(0, -1));
    var written := Written(e, lines, false);
    var missing := Missing(kv, e.values, written);
    var before := Read(lines, None);
    EditLinesRead(e, lines, None);
    ValuesKeys(kv);
    PlaceStart(e, lines);
    MissingBinds(e, kv, written);
    NothingMissing(kv, e.values, written);
    assert EditSectionLines(lines, section, kv, owned) == Assemble(section, out, place.at, missing);
    assert e.target == CanonicalSection(section);
    hide EditSectionLines, PlainEdit, NamesItself, EditLines, PlaceFor, Written, Missing, CanonicalSection, EditOf,
         Read, SectionAfter, EditEvents, Bound, Untouched, AllSet, KeysOf, BindsOnly;
    AssembledReads(e, lines, section, out, place.at, missing);
  }

  lemma AssembledReads(e: Edit, lines: seq<string>, section: string, out: seq<string>, at: int, missing: seq<string>)
    requires -1 <= at <= |out| && (at >= 0 ==> SectionAfter(out[..at], None) == Some(e.target))
    requires at >= 0 <==> Section(e.target) in Read(lines, None)
    requires missing != [] && at < 0 ==> NamesItself(section)
    requires CanonicalSection(section) == e.target
    requires Read(out, None) == EditEvents(e, Read(lines, None))
    requires BindsOnly(e, missing, e.values.Keys - Bound(e, Read(lines, None)))
    requires missing == [] <==> e.values.Keys <= Bound(e, Read(lines, None))
    ensures Edited(e, Read(lines, None), Read(Assemble(section, out, at, missing), None))
  {
    hide Read, SectionAfter, EditEvents, Bound, Untouched, AllSet, NamesItself, CanonicalSection, DropBlankEnd;
    var before := Read(lines, None);
    if at < 0 {
      UnseenSection(e, lines, None);
    }
    if missing == [] {
      NothingAdded(e, before);
    } else if at >= 0 {
      InsertedLines(e, before, out, at, missing);
    } else {
      assert e.values.Keys - {} == e.values.Keys;
      AppendedEvents(e, out, section, missing);
      hide Assemble;
      AppendedEdited(e, before, Read(missing, Some(e.target)));
    }
  }

  // ---- Text ----

  lemma LinesOfRead(data: string)
    ensures Read(LinesOf(data), None) == ReadFile(data)
  {
    if data == "" {
      assert Split("") == [""];
      ReadBlank("", None);
    }
  }

  lemma JoinedReads(lines: seq<string>)
    requires AllOneLine(lines)
    ensures ReadFile(Join(lines)) == Read(lines, None)
  {
    if lines == [] {
      assert Split("") == [""];
      ReadBlank("", None);
    } else {
      SplitJoin(lines);
    }
  }

  lemma {:induction false} EditLinesOneLine(e: Edit, lines: seq<string>, inSection: bool)
    requires OneLineEdit(e) && AllOneLine(lines)
    ensures AllOneLine(EditLines(e, lines, inSection))
  {
    if lines != [] {
      EditLineOneLine(e, lines[0], inSection);
      hide OneLineEdit, EditLine, InSection, OneLine;
      EditLinesOneLine(e, lines[1..], InSection(e, lines[0], inSection));
    }
  }

  lemma EditLineOneLine(e: Edit, line: string, inSection: bool)
    requires OneLineEdit(e) && OneLine(line)
    ensures AllOneLine(EditLine(e, line, inSection))
  {
    hide TrimSpace, IsHeader;
    if KeyPart(line).Some? {
      var before := KeyPart(line).value;
      assert before == Cut(line).value.0 && line == before + "=" + Cut(line).value.1;
      var key := TrimSpace(before);
      if key in e.values {
        OneLineRewrite(before, e.values[key]);
      }
    }
  }

  lemma AssembledOneLine(section: string, out: seq<string>, at: int, missing: seq<string>)
    requires at <= |out| && AllOneLine(out) && AllOneLine(missing) && (missing != [] && at < 0 ==> OneLine(section))
    ensures AllOneLine(Assemble(section, out, at, missing))
  {
    hide TrimSpace;
    if OneLine(section) {
      assert OneLine("[" + section + "]");
    }
  }

  lemma EditSectionOneLine(data: string, section: string, kv: seq<KeyValue>, owned: seq<string>)
    requires OneLiners(kv)
    requires kv == [] || Section(CanonicalSection(section)) in ReadFile(data) || OneLine(section)
    ensures AllOneLine(EditSectionLines(LinesOf(data), section, kv, owned))
  {
    var e, lines := EditOf(section, kv, owned), LinesOf(data);
    OneLinersEdit(section, kv, owned);
    EditLinesOneLine(e, lines, false);
    PlaceInRange(e, lines, false, 0, Place(0, -1));
    MissingOneLine(e, kv, Written(e, lines, false));
    PlaceSeen(e, lines, false, 0, Place(0, -1), None);
    LinesOfRead(data);
    hide EditLines, PlaceFor, Written, Missing, Assemble, AllOneLine, OneLineEdit, CanonicalSection, Read, ReadFile,
         OneLine;
    AssembledOneLine(section, EditLines(e, lines, false), PlaceFor(e, lines, false, 0, Place(0, -1)).at,
                     Missing(kv, e.values, Written(e, lines, false)));
  }

  /** The insertion point exists exactly if the file has a header for the section. */
  lemma {:induction false} PlaceSeen(e: Edit, lines: seq<string>, inSection: bool, n: nat, p: Place,
                                     section: Option<string>)
    requires p.at >= 0 <==> p.block > 0
    ensures PlaceFor(e, lines, inSection, n, p).at >= 0 <==> p.at >= 0 || Section(e.target) in Read(lines, section)
    decreases |lines|
  {
    hide PlaceAfter, EditLine, InSection, Read, TargetHeader;
    if lines != [] {
      PlaceMoves(e, lines[0], inSection, n, p);
      SectionInLines(e, lines[0], lines[1..], section);
      assert [lines[0]] + lines[1..] == lines;
      PlaceSeen(e, lines[1..], InSection(e, lines[0], inSection), n + |EditLine(e, lines[0], inSection)|,
                PlaceAfter(e, lines[0], inSection, n, p), SectionAfter([lines[0]], section));
    } else {
      assert Read([], section) == [] by { NoLines(section); }
    }
  }

  lemma NoLines(section: Option<string>)
    ensures Read([], section) == [] && SectionAfter([], section) == section
  {
  }

  /**
   For every file: after editSection the section binds every given key, each of its bindings to the given value,
   no other owned key is left in it, and all that Load reads besides is what it read before, in the same order.
   */
  lemma EditSectionReads(data: string, section: string, kv: seq<KeyValue>, owned: seq<string>)
    requires OneLiners(kv) && Takes(EditOf(section, kv, owned), section, ReadFile(data))
    ensures Edited(EditOf(section, kv, owned), ReadFile(data), ReadFile(EditSection(data, section, kv, owned)))
  {
    TakesOneLine(data, section, kv, owned);
    hide OneLiners, Takes, EditOf, EditSectionLines, Edited, Read, ReadFile, Join;
    LinesOfRead(data);
    EditSectionLinesRead(LinesOf(data), section, kv, owned);
    EditSectionOneLine(data, section, kv, owned);
    JoinedReads(EditSectionLines(LinesOf(data), section, kv, owned));
  }

  lemma TakesOneLine(data: string, section: string, kv: seq<KeyValue>, owned: seq<string>)
    requires Takes(EditOf(section, kv, owned), section, ReadFile(data))
    ensures kv == [] || Section(CanonicalSection(section)) in ReadFile(data) || OneLine(section)
  {
    hide PlainEdit, ReadFile, CanonicalSection;
    if kv != [] {
      assert kv[0].key in Values(kv);
    }
  }

  // ---- Last values ----

  lemma LastValueSnoc(events: seq<Event>, ev: Event, section: Option<string>, key: string)
    ensures LastValue(events + [ev], section, key) ==
            if ev.Binding? && ev.section == section
                && ev.key == key then Some(ev.val) else LastValue(events, section, key)
  {
    assert (events + [ev])[..|events|] == events;
  }

  /** Bindings the edit does not touch are looked up among the untouched events. */
  lemma {:induction false} LastOfUntouched(e: Edit, events: seq<Event>, section: Option<string>, key: string)
    requires !Touched(e, Binding(section, key, ""))
    ensures LastValue(Untouched(e, events), section, key) == LastValue(events, section, key)
    decreases |events|
  {
    if events != [] {
      var head, ev := events[..|events| - 1], events[|events| - 1];
      LastOfUntouched(e, head, section, key);
      assert head + [ev] == events && [ev][1..] == [];
      UntouchedConcat(e, head, [ev]);
      assert Untouched(e, [ev]) == if Touched(e, ev) then [] else [ev];
      LastValueSnoc(head, ev, section, key);
      if !Touched(e, ev) {
        LastValueSnoc(Untouched(e, head), ev, section, key);
      } else {
        assert Untouched(e, head) + [] == Untouched(e, head);
      }
    }
  }

  lemma {:induction false} LastOfSet(e: Edit, events: seq<Event>, key: string)
    requires AllSet(e, events) && (key in e.values || key in e.owned)
    ensures key in Bound(e, events) ==> key in e.values
    ensures LastValue(events, Some(e.target), key) ==
            if key in Bound(e, events) then Some(TrimSpace(e.values[key])) else None
    decreases |events|
  {
    BoundInValues(e, events);
    hide TrimSpace;
    if events != [] {
      var head, ev := events[..|events| - 1], events[|events| - 1];
      assert head + [ev] == events && [ev][1..] == [];
      AllSetConcat(e, head, [ev]);
      UntouchedConcat(e, head, [ev]);
      LastValueSnoc(head, ev, Some(e.target), key);
      assert AsSet(e, [ev][0]);
      LastOfSet(e, head, key);
    }
  }

  /** The values Load ends up with after editSection, for every section and key. */
  lemma EditSectionValues(data: string, section: string, kv: seq<KeyValue>, owned: seq<string>,
                          where: Option<string>, key: string)
    requires OneLiners(kv) && Takes(EditOf(section, kv, owned), section, ReadFile(data))
    ensures var e := EditOf(section, kv, owned);
            LastValue(ReadFile(EditSection(data, section, kv, owned)), where, key) ==
            if where == Some(e.target) && key in e.values then Some(TrimSpace(e.values[key]))
            else if where == Some(e.target) && key in owned then None
            else LastValue(ReadFile(data), where, key)
  {
    var e := EditOf(section, kv, owned);
    var before, after := ReadFile(data), ReadFile(EditSection(data, section, kv, owned));
    EditSectionReads(data, section, kv, owned);
    hide ReadFile, EditSection, OneLiners, Takes, TrimSpace, LastValue, Untouched, Bound, AllSet, CanonicalSection,
         Values;
    if where == Some(e.target) && (key in e.values || key in owned) {
      LastOfSet(e, after, key);
    } else {
      LastOfUntouched(e, before, where, key);
      LastOfUntouched(e, after, where, key);
      var kept := Untouched(e, before);
      if AddedHeader(e, before) == [] {
        assert kept + [] == kept;
      } else {
        LastValueSnoc(kept, Section(e.target), where, key);
      }
    }
  }
}
