/** Running the same section edit again leaves the file as it is, byte for byte. */
module ConfigSectionTwice {
  import opened Common
  import opened ConfigText
  import opened ConfigEditor
  import opened ConfigSectionEdit
  import opened ConfigSectionResult
  import opened ConfigSectionTheorem

  /** The editor would keep these lines as they are. */
  ghost predicate Stable(e: Edit, lines: seq<string>, inSection: bool) {
    EditLines(e, lines, inSection) == lines
  }

  lemma RewriteTwice(before: string, value: string)
    ensures Rewrite(Widen(before), value) == Rewrite(before, value)
  {
  }

  lemma EditLineTwice(e: Edit, line: string, inSection: bool)
    requires PlainEdit(e)
    ensures Stable(e, EditLine(e, line, inSection), inSection)
    ensures InSectionAfter(e, EditLine(e, line, inSection), inSection) == InSection(e, line, inSection)
  {
    OneLineKept(e, line, inSection);
    if !IsHeader(line) && inSection && KeyPart(line).Some? {
      var before := KeyPart(line).value;
      var key := TrimSpace(before);
      if key in e.values {
        var value := e.values[key];
        assert '=' !in before;
        ReadRewrite(before, value);
        WidenKeepsKey(before);
        RewriteTwice(before, value);
        OneLineKept(e, Rewrite(before, value), inSection);
        hide IsHeader, KeyPart, Rewrite, Widen, TrimSpace, ReadLine, Bindable;
      }
    }
  }

  /** EditLines on a single line. */
  lemma OneLineKept(e: Edit, line: string, inSection: bool)
    ensures EditLines(e, [line], inSection) == EditLine(e, line, inSection)
    ensures InSectionAfter(e, [line], inSection) == InSection(e, line, inSection)
  {
    hide EditLine, InSection;
    assert [line][1..] == [];
  }

  lemma {:induction false} EditLinesTwice(e: Edit, lines: seq<string>, inSection: bool)
    requires PlainEdit(e)
    ensures Stable(e, EditLines(e, lines, inSection), inSection)
  {
    if lines != [] {
      hide EditLine, InSection, PlainEdit;
      var inside := InSection(e, lines[0], inSection);
      EditLineTwice(e, lines[0], inSection);
      EditLinesTwice(e, lines[1..], inside);
      EditLinesConcat(e, EditLine(e, lines[0], inSection), EditLines(e, lines[1..], inside), inSection);
    }
  }

  lemma {:induction false} NoLonger(e: Edit, lines: seq<string>, inSection: bool)
    ensures |EditLines(e, lines, inSection)| <= |lines|
  {
    hide EditLine, InSection;
    if lines != [] {
      NoLonger(e, lines[1..], InSection(e, lines[0], inSection));
    }
  }

  lemma StableParts(e: Edit, a: seq<string>, b: seq<string>, inSection: bool)
    requires Stable(e, a + b, inSection)
    ensures Stable(e, a, inSection) && Stable(e, b, InSectionAfter(e, a, inSection))
  {
    var inside := InSectionAfter(e, a, inSection);
    EditLinesConcat(e, a, b, inSection);
    NoLonger(e, a, inSection);
    NoLonger(e, b, inside);
    hide EditLines, InSectionAfter;
    assert (a + b)[..|a|] == a && (a + b)[|a|..] == b;
  }

  lemma StableJoin(e: Edit, a: seq<string>, b: seq<string>, inSection: bool)
    requires Stable(e, a, inSection) && Stable(e, b, InSectionAfter(e, a, inSection))
    ensures Stable(e, a + b, inSection)
    ensures InSectionAfter(e, a + b, inSection) == InSectionAfter(e, b, InSectionAfter(e, a, inSection))
  {
    EditLinesConcat(e, a, b, inSection);
    WrittenConcat(e, a, b, inSection);
  }

  lemma NewLineStable(e: Edit, key: string)
    requires PlainEdit(e) && key in e.values
    ensures Stable(e, [NewLine(key, e.values[key])], true) && InSectionAfter(e, [NewLine(key, e.values[key])], true)
  {
    hide IsHeader, KeyPart, Rewrite, NewLine, TrimSpace, ReadLine;
    var value := e.values[key];
    MissingLine(key, value);
    KeyTrims(key, value);
    OneLineKept(e, NewLine(key, value), true);
  }

  lemma KeyTrims(key: string, value: string)
    requires Bindable(key, value)
    ensures TrimSpace(key + " ") == key && Rewrite(key + " ", value) == NewLine(key, value)
  {
    TrimTrailingSpace(key);
    TrimmedAlready(key);
    hide TrimSpace;
  }

  lemma {:induction false} MissingStable(e: Edit, kv: seq<KeyValue>, written: set<string>)
    requires PlainEdit(e) && forall k :: 0 <= k < |kv| ==> kv[k].key in e.values
    ensures Stable(e, Missing(kv, e.values, written), true) && InSectionAfter(e, Missing(kv, e.values, written), true)
    decreases |kv|
  {
    hide PlainEdit, NewLine, EditLine, InSection;
    if kv != [] {
      var key := kv[0].key;
      if key in written {
        MissingStable(e, kv[1..], written);
      } else {
        MissingStable(e, kv[1..], written + {key});
        NewLineStable(e, key);
        hide EditLines, InSectionAfter;
        StableJoin(e, [NewLine(key, e.values[key])], Missing(kv[1..], e.values, written + {key}), true);
      }
    }
  }

  lemma NewHeaderStable(e: Edit, section: string, inSection: bool)
    requires NamesItself(section) && CanonicalSection(section) == e.target
    ensures Stable(e, ["[" + section + "]"], inSection) && InSectionAfter(e, ["[" + section + "]"], inSection)
  {
    var line := "[" + section + "]";
    ReadNewHeader(section);
    OneLineKept(e, line, inSection);
    if !IsHeader(line) {
      hide IsHeader, CanonicalSection, NamesItself;
      ReadKeyLine(line);
    } else {
      hide IsHeader, CanonicalSection, NamesItself, HeaderName;
      ReadHeader(line);
    }
  }

  lemma BlankStable(e: Edit, inSection: bool)
    ensures Stable(e, [""], inSection) && InSectionAfter(e, [""], inSection) == inSection
  {
    OneLineKept(e, "", inSection);
    BlankLine();
    hide IsHeader, KeyPart, EditLines, InSectionAfter;
  }

  lemma BlankLine()
    ensures !IsHeader("") && KeyPart("") == None
  {
    assert TrimSpace("") == "";
    hide TrimSpace;
  }

  lemma GapStable(e: Edit, kept: seq<string>, inSection: bool)
    ensures Stable(e, Gap(kept), inSection) && InSectionAfter(e, Gap(kept), inSection) == inSection
  {
    if kept != [] {
      BlankStable(e, inSection);
    }
  }

  lemma AppendedLines(section: string, out: seq<string>, missing: seq<string>)
    requires missing != []
    ensures var kept := DropBlankEnd(out);
            Assemble(section, out, -1, missing) == kept + Gap(kept) + ["[" + section + "]"] + missing + [""]
            && out == kept + out[|kept|..]
  {
    hide DropBlankEnd;
  }

  lemma AppendedStable(e: Edit, out: seq<string>, section: string, missing: seq<string>)
    requires NamesItself(section) && CanonicalSection(section) == e.target && missing != []
    requires Stable(e, out, false) && Stable(e, missing, true) && InSectionAfter(e, missing, true)
    ensures Stable(e, Assemble(section, out, -1, missing), false)
  {
    var kept := DropBlankEnd(out);
    var gap, header := Gap(kept), ["[" + section + "]"];
    AppendedLines(section, out, missing);
    hide Assemble, Gap, DropBlankEnd, CanonicalSection, NamesItself, Stable, InSectionAfter;
    StableParts(e, kept, out[|kept|..], false);
    GapStable(e, kept, InSectionAfter(e, kept, false));
    NewHeaderStable(e, section, InSectionAfter(e, kept, false));
    StableJoin(e, kept, gap, false);
    StableJoin(e, kept + gap, header, false);
    StableBlock(e, kept + gap + header, missing);
  }

  lemma StableBlock(e: Edit, before: seq<string>, missing: seq<string>)
    requires Stable(e, before, false) && InSectionAfter(e, before, false)
    requires Stable(e, missing, true) && InSectionAfter(e, missing, true)
    ensures Stable(e, before + missing + [""], false)
  {
    hide Stable, InSectionAfter;
    BlankStable(e, true);
    StableJoin(e, before, missing, false);
    StableJoin(e, before + missing, [""], false);
  }

  lemma InsertedStable(e: Edit, out: seq<string>, at: int, missing: seq<string>)
    requires 0 <= at <= |out| && InSectionAfter(e, out[..at], false)
    requires Stable(e, out, false) && Stable(e, missing, true) && InSectionAfter(e, missing, true)
    ensures Stable(e, out[..at] + missing + out[at..], false)
  {
    hide Stable, InSectionAfter;
    var a, b := out[..at], out[at..];
    assert a + b == out;
    StableParts(e, a, b, false);
    StableJoin(e, a, missing, false);
    StableJoin(e, a + missing, b, false);
  }

  lemma AssembledStable(e: Edit, section: string, out: seq<string>, at: int, missing: seq<string>)
    requires PlainEdit(e) && CanonicalSection(section) == e.target
    requires missing != [] && at < 0 ==> NamesItself(section)
    requires -1 <= at <= |out| && (at >= 0 ==> SectionAfter(out[..at], None) == Some(e.target))
    requires Stable(e, out, false) && Stable(e, missing, true) && InSectionAfter(e, missing, true)
    ensures Stable(e, Assemble(section, out, at, missing), false)
  {
    hide PlainEdit, NamesItself, CanonicalSection, Stable, InSectionAfter, SectionAfter, DropBlankEnd;
    if missing == [] {
    } else if at >= 0 {
      InsideAfter(e, out[..at]);
      InsertedStable(e, out, at, missing);
    } else {
      AppendedStable(e, out, section, missing);
    }
  }

  lemma InsideAfter(e: Edit, lines: seq<string>)
    requires PlainEdit(e) && SectionAfter(lines, None) == Some(e.target)
    ensures InSectionAfter(e, lines, false)
  {
    EditLinesRead(e, lines, None);
  }

  /** The lines of one edit are the lines of the next. */
  lemma EditSectionLinesTwice(lines: seq<string>, section: string, kv: seq<KeyValue>, owned: seq<string>)
    requires Takes(EditOf(section, kv, owned), section, Read(lines, None))
    ensures var once := EditSectionLines(lines, section, kv, owned);
            EditSectionLines(once, section, kv, owned) == once
  {
    var e := EditOf(section, kv, owned);
    var once := EditSectionLines(lines, section, kv, owned);
    StableOnce(lines, section, kv, owned);
    EditLinesRead(e, once, None);
    EditSectionLinesRead(lines, section, kv, owned);
    ValuesKeys(kv);
    NothingMissing(kv, e.values, Written(e, once, false));
    PlaceInRange(e, once, false, 0, Place(0, -1));
    assert Written(e, once, false) == Bound(e, Read(once, None)) == e.values.Keys;
    hide EditLines, Read, Written, Missing, Bound, Takes, PlainEdit, CanonicalSection, Values, KeysOf, PlaceFor,
         DropBlankEnd;
    assert EditSectionLines(once, section, kv, owned)
        == Assemble(section, EditLines(e, once, false), PlaceFor(e, once, false, 0, Place(0, -1)).at, []);
  }

  lemma StableOnce(lines: seq<string>, section: string, kv: seq<KeyValue>, owned: seq<string>)
    requires Takes(EditOf(section, kv, owned), section, Read(lines, None))
    ensures Stable(EditOf(section, kv, owned), EditSectionLines(lines, section, kv, owned), false)
  {
    var e := EditOf(section, kv, owned);
    var out, place := EditLines(e, lines, false), PlaceFor(e, lines, false, 0, Place(0, -1));
    var missing := Missing(kv, e.values, Written(e, lines, false));
    EditLinesTwice(e, lines, false);
    PlaceStart(e, lines);
    MissingStable(e, kv, Written(e, lines, false));
    assert EditSectionLines(lines, section, kv, owned) == Assemble(section, out, place.at, missing);
    assert e.target == CanonicalSection(section);
    TakesMissing(e, section, kv, lines);
    hide EditSectionLines, PlainEdit, Takes, NamesItself, EditLines, PlaceFor, Written, Missing, CanonicalSection,
         EditOf, Stable, InSectionAfter, SectionAfter, Assemble;
    AssembledStable(e, section, out, place.at, missing);
  }

  lemma TakesMissing(e: Edit, section: string, kv: seq<KeyValue>, lines: seq<string>)
    requires Takes(e, section, Read(lines, None)) && forall k :: 0 <= k < |kv| ==> kv[k].key in e.values
    ensures var missing := Missing(kv, e.values, Written(e, lines, false));
            missing != [] && Section(e.target) !in Read(lines, None) ==> NamesItself(section)
  {
    hide PlainEdit, Read, Written, NamesItself;
    if kv != [] {
      assert kv[0].key in e.values;
    }
  }

  /** editSection is idempotent on every file. */
  lemma EditSectionTwice(data: string, section: string, kv: seq<KeyValue>, owned: seq<string>)
    requires OneLiners(kv) && Takes(EditOf(section, kv, owned), section, ReadFile(data))
    ensures var once := EditSection(data, section, kv, owned);
            EditSection(once, section, kv, owned) == once
  {
    var once := EditSectionLines(LinesOf(data), section, kv, owned);
    var text := Join(once);
    TakesOneLine(data, section, kv, owned);
    LinesOfRead(data);
    EditSectionOneLine(data, section, kv, owned);
    EditSectionLinesTwice(LinesOf(data), section, kv, owned);
    EditSectionLinesRead(LinesOf(data), section, kv, owned);
    JoinedReads(once);
    if text == "" {
      NothingToSet(section, kv, owned, once);
    } else {
      assert once != [];
      SplitJoin(once);
    }
  }

  lemma NothingToSet(section: string, kv: seq<KeyValue>, owned: seq<string>, lines: seq<string>)
    requires Bound(EditOf(section, kv, owned), Read(lines, None)) == EditOf(section, kv, owned).values.Keys
    requires Read(lines, None) == ReadFile("")
    ensures EditSectionLines([], section, kv, owned) == []
  {
    var e := EditOf(section, kv, owned);
    LinesOfRead("");
    assert e.values.Keys == {};
    ValuesKeys(kv);
    NothingMissing(kv, e.values, {});
  }
}
