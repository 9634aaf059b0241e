/** Which lines of the file editSection leaves as they are, text for text. */
module ConfigKeptLines {
  import opened Common
  import opened ConfigText
  import opened ConfigEditor
  import opened ConfigSectionEdit
  import opened ConfigSectionResult
  import opened ConfigSectionTheorem
  import opened ConfigSectionExact
  import opened ConfigSave
  import opened ConfigComments

  /** The lines that do not bind a key which the edit sets or removes in its section. */
  function Unchanged(e: Edit, lines: seq<string>, section: Option<string>): seq<string> {
    if lines == [] then []
    else
      (if Changed(e, lines[0], section) then [] else [lines[0]])
      + Unchanged(e, lines[1..], SectionAfter([lines[0]], section))
  }

  lemma {:induction false} UnchangedConcat(e: Edit, a: seq<string>, b: seq<string>, section: Option<string>)
    ensures Unchanged(e, a + b, section) == Unchanged(e, a, section) + Unchanged(e, b, SectionAfter(a, section))
  {
    hide *;
    if a == [] {
      assert a + b == b;
      NoLines(section);
      OneUnchanged(e, "", section);
    } else {
      var next := SectionAfter([a[0]], section);
      assert (a + b)[0] == a[0] && (a + b)[1..] == a[1..] + b;
      UnchangedConcat(e, a[1..], b, next);
      UnchangedCons(e, a + b, section);
      UnchangedCons(e, a, section);
      ReadCons(a[0], a[1..], section);
      assert [a[0]] + a[1..] == a;
    }
  }

  lemma UnchangedCons(e: Edit, lines: seq<string>, section: Option<string>)
    requires lines != []
    ensures var rest := Unchanged(e, lines[1..], SectionAfter([lines[0]], section));
            Unchanged(e, lines, section) == if Changed(e, lines[0], section) then rest else [lines[0]] + rest
  {
    hide Changed, SectionAfter;
  }

  lemma OneUnchanged(e: Edit, line: string, section: Option<string>)
    ensures Unchanged(e, [line], section) == if Changed(e, line, section) then [] else [line]
    ensures Unchanged(e, [], section) == []
  {
    hide Changed, SectionAfter;
    assert [line][1..] == [];
  }

  lemma EditLineUnchanged(e: Edit, line: string, section: Option<string>)
    requires PlainEdit(e)
    ensures Unchanged(e, EditLine(e, line, section == Some(e.target)), section) == Unchanged(e, [line], section)
  {
    OneUnchanged(e, line, section);
    hide Unchanged, IsHeader, ReadLine, TrimSpace, Rewrite, Bindable;
    if IsHeader(line) {
      ReadHeader(line);
    } else {
      ReadKeyLine(line);
      if KeyPart(line).Some? {
        var before := KeyPart(line).value;
        KeyPartPlain(line);
        if section == Some(e.target) && TrimSpace(before) in e.values {
          ReadRewrite(before, e.values[TrimSpace(before)]);
          OneUnchanged(e, Rewrite(before, e.values[TrimSpace(before)]), section);
        }
      }
    }
  }

  lemma LineSection(e: Edit, line: string, section: Option<string>)
    requires PlainEdit(e)
    ensures SectionAfter(EditLine(e, line, section == Some(e.target)), section) == SectionAfter([line], section)
  {
    hide SectionAfter, EditLine, Read;
    if IsHeader(line) {
      HeaderLineAgrees(e, line, section);
    } else {
      PlainLineAgrees(e, line, section);
    }
  }

  lemma {:induction false} EditLinesUnchanged(e: Edit, lines: seq<string>, section: Option<string>)
    requires PlainEdit(e)
    ensures Unchanged(e, EditLines(e, lines, section == Some(e.target)), section) == Unchanged(e, lines, section)
    decreases |lines|
  {
    hide PlainEdit, EditLine, InSection, SectionAfter, Changed;
    if lines != [] {
      var line, inSection := lines[0], section == Some(e.target);
      var next := SectionAfter([line], section);
      SameSection(e, line, section);
      LineSection(e, line, section);
      EditLineUnchanged(e, line, section);
      EditLinesUnchanged(e, lines[1..], next);
      UnchangedConcat(e, EditLine(e, line, inSection), EditLines(e, lines[1..], InSection(e, line, inSection)),
                      section);
      OneUnchanged(e, line, section);
    }
  }

  lemma {:induction false} MissingChanged(e: Edit, kv: seq<KeyValue>, written: set<string>)
    requires PlainEdit(e) && forall k :: 0 <= k < |kv| ==> kv[k].key in e.values
    ensures var missing, here := Missing(kv, e.values, written), Some(e.target);
            Unchanged(e, missing, here) == [] && SectionAfter(missing, here) == here
    decreases |kv|
  {
    hide PlainEdit, NewLine, Unchanged, SectionAfter;
    var here := Some(e.target);
    if kv == [] {
      OneUnchanged(e, "", here);
      NoLines(here);
    } else if kv[0].key in written {
      MissingChanged(e, kv[1..], written);
    } else {
      var key, more := kv[0].key, Missing(kv[1..], e.values, written + {kv[0].key});
      MissingChanged(e, kv[1..], written + {key});
      NewLineChanged(e, key);
      UnchangedConcat(e, [NewLine(key, e.values[key])], more, here);
      ReadCons(NewLine(key, e.values[key]), more, here);
    }
  }

  lemma NewLineChanged(e: Edit, key: string)
    requires PlainEdit(e) && key in e.values
    ensures var line, here := NewLine(key, e.values[key]), Some(e.target);
            Unchanged(e, [line], here) == [] && SectionAfter([line], here) == here
  {
    hide NewLine, ReadLine, Rewrite, IsHeader, KeyPart, TrimSpace, Unchanged;
    MissingLine(key, e.values[key]);
    ReadOne(NewLine(key, e.values[key]), Some(e.target));
    OneUnchanged(e, NewLine(key, e.values[key]), Some(e.target));
  }

  /** Without a header for the section, every line stays. */
  lemma {:induction false} UnseenUnchanged(e: Edit, lines: seq<string>, section: Option<string>)
    requires section != Some(e.target) && Section(e.target) !in Read(lines, section)
    ensures Unchanged(e, lines, section) == lines && SectionAfter(lines, section) != Some(e.target)
  {
    hide ReadLine, Read, SectionAfter;
    if lines == [] {
      NoLines(section);
    } else {
      ReadCons(lines[0], lines[1..], section);
      assert [lines[0]] + lines[1..] == lines;
      NextSection(e, lines[0], section);
      UnseenUnchanged(e, lines[1..], SectionAfter([lines[0]], section));
    }
  }

  lemma NextSection(e: Edit, line: string, section: Option<string>)
    requires section != Some(e.target) && Section(e.target) !in Read([line], section)
    ensures SectionAfter([line], section) != Some(e.target)
  {
    ReadOne(line, section);
    hide ReadLine;
  }

  // ---- The assembled file ----

  lemma InsertedUnchanged(e: Edit, out: seq<string>, at: nat, missing: seq<string>)
    requires at <= |out| && SectionAfter(out[..at], None) == Some(e.target)
    requires Unchanged(e, missing, Some(e.target)) == [] && SectionAfter(missing, Some(e.target)) == Some(e.target)
    ensures Unchanged(e, out[..at] + missing + out[at..], None) == Unchanged(e, out, None)
  {
    hide Unchanged, SectionAfter;
    var a, b := out[..at], out[at..];
    assert a + b == out;
    UnchangedConcat(e, a, b, None);
    UnchangedConcat(e, a + missing, b, None);
    UnchangedConcat(e, a, missing, None);
    ReadConcat(a, missing, None);
    assert Unchanged(e, a, None) + [] == Unchanged(e, a, None);
  }

  lemma AppendedUnchanged(e: Edit, section: string, out: seq<string>, missing: seq<string>)
    requires NamesItself(section) && CanonicalSection(section) == e.target && missing != []
    requires Section(e.target) !in Read(out, None)
    requires Unchanged(e, missing, Some(e.target)) == [] && SectionAfter(missing, Some(e.target)) == Some(e.target)
    ensures var kept := DropBlankEnd(out);
            Unchanged(e, Assemble(section, out, -1, missing), None) == kept + Gap(kept) + ["[" + section + "]", ""]
  {
    hide Unchanged, SectionAfter, Read, DropBlankEnd, NamesItself, CanonicalSection;
    var kept, header, here := DropBlankEnd(out), ["[" + section + "]"], Some(e.target);
    var front := kept + Gap(kept);
    assert Assemble(section, out, -1, missing) == front + header + (missing + [""]);
    DropBlankEndReads(out, None);
    ReadGap(kept, SectionAfter(kept, None));
    ReadConcat(kept, Gap(kept), None);
    assert Read(kept, None) + [] == Read(kept, None);
    UnseenUnchanged(e, front, None);
    ReadConcat(front, header, None);
    ReadNewHeaderLine(section, SectionAfter(front, None));
    UnchangedConcat(e, front + header, missing + [""], None);
    UnchangedConcat(e, front, header, None);
    UnchangedConcat(e, missing, [""], here);
    HeaderStays(e, section, SectionAfter(front, None));
    BlankStays(e, here);
    assert front + header + ([] + [""]) == front + ["[" + section + "]", ""];
  }

  lemma HeaderStays(e: Edit, section: string, before: Option<string>)
    requires NamesItself(section)
    ensures Unchanged(e, ["[" + section + "]"], before) == ["[" + section + "]"]
  {
    hide NamesItself, ReadLine, Unchanged;
    ReadNewHeader(section);
    OneUnchanged(e, "[" + section + "]", before);
  }

  lemma BlankStays(e: Edit, section: Option<string>)
    ensures Unchanged(e, [""], section) == [""]
  {
    hide ReadLine, Unchanged;
    BlankTrims();
    ReadBlank("", section);
    OneUnchanged(e, "", section);
  }

  lemma BlankTrims()
    ensures TrimSpace("") == ""
  {
  }

  lemma FirstLineStays(e: Edit, lines: seq<string>)
    requires lines != []
    ensures EditLines(e, lines, false) != []
  {
  }

  lemma AssembledUnchanged(e: Edit, lines: seq<string>, section: string, out: seq<string>, at: int,
                           missing: seq<string>)
    requires PlainEdit(e) && CanonicalSection(section) == e.target && out == EditLines(e, lines, false)
    requires -1 <= at <= |out| && (at >= 0 ==> SectionAfter(out[..at], None) == Some(e.target))
    requires at >= 0 <==> Section(e.target) in Read(lines, None)
    requires missing != [] && at < 0 ==> NamesItself(section)
    requires Unchanged(e, missing, Some(e.target)) == [] && SectionAfter(missing, Some(e.target)) == Some(e.target)
    ensures Unchanged(e, Assemble(section, out, at, missing), None) ==
            if missing == [] || at >= 0 then Unchanged(e, lines, None)
            else DropBlankEnd(lines) + Gap(DropBlankEnd(lines)) + ["[" + section + "]", ""]
  {
    hide PlainEdit, Unchanged, SectionAfter, Read, CanonicalSection, NamesItself, DropBlankEnd, EditLines;
    EditLinesUnchanged(e, lines, None);
    if missing != [] {
      if at >= 0 {
        InsertedUnchanged(e, out, at, missing);
      } else {
        UnseenEdit(e, lines);
        AppendedUnchanged(e, section, out, missing);
      }
    }
  }

  /** A file without the section is not edited before the section is appended. */
  lemma {:induction false} UnseenEditFrom(e: Edit, lines: seq<string>, section: Option<string>)
    requires section != Some(e.target) && Section(e.target) !in Read(lines, section)
    ensures EditLines(e, lines, false) == lines
  {
    hide Read, SectionAfter, IsHeader, HeaderName, KeyPart;
    if lines != [] {
      ReadCons(lines[0], lines[1..], section);
      assert [lines[0]] + lines[1..] == lines;
      NextSection(e, lines[0], section);
      SameSection(e, lines[0], section);
      UnseenEditFrom(e, lines[1..], SectionAfter([lines[0]], section));
    }
  }

  lemma UnseenEdit(e: Edit, lines: seq<string>)
    requires Section(e.target) !in Read(lines, None)
    ensures EditLines(e, lines, false) == lines
  {
    UnseenEditFrom(e, lines, None);
  }

  /**
   The lines that do not bind a key which is set or removed all stay, in order and text for text. Only if the section
   is appended do blank lines at the end of the file go, and a gap, its header and a final newline come.
   */
  lemma EditSectionKeepsLines(data: string, section: string, kv: seq<KeyValue>, owned: seq<string>)
    requires OneLiners(kv) && Takes(EditOf(section, kv, owned), section, ReadFile(data))
    ensures var e, kept := EditOf(section, kv, owned), DropBlankEnd(LinesOf(data));
            Unchanged(e, Split(EditSection(data, section, kv, owned)), None) ==
            if kv == [] || Section(e.target) in ReadFile(data) then Unchanged(e, Split(data), None)
            else kept + Gap(kept) + ["[" + section + "]", ""]
  {
    var e, lines := EditOf(section, kv, owned), LinesOf(data);
    var out, written := EditLines(e, lines, false), Written(e, lines, false);
    var missing, place := Missing(kv, e.values, written), PlaceFor(e, lines, false, 0, Place(0, -1));
    TakesOneLine(data, section, kv, owned);
    EditSectionOneLine(data, section, kv, owned);
    LinesOfRead(data);
    PlaceStart(e, lines);
    NoneMissing(e.values, written);
    TakenMissing(e, section, kv, lines);
    assert EditSectionLines(lines, section, kv, owned) == Assemble(section, out, place.at, missing);
    hide Unchanged, Split, Join, NamesItself, PlainEdit, EditLines, PlaceFor, Written, Missing, CanonicalSection, Read,
         ReadFile, NewLine, LinesOf, Values, SectionAfter, EditSectionLines, DropBlankEnd, Assemble, Takes, OneLiners;
    MissingChanged(e, kv, written);
    AssembledUnchanged(e, lines, section, out, place.at, missing);
    SplitJoined(EditSectionLines(lines, section, kv, owned));
    NotEmptied(e, lines, section, out, place.at, missing);
    LinesOfText(data);
    BlankStays(e, None);
  }

  lemma SplitJoined(lines: seq<string>)
    requires AllOneLine(lines)
    ensures Split(Join(lines)) == if lines == [] then [""] else lines
  {
    if lines == [] {
      EmptyText();
    } else {
      SplitJoin(lines);
    }
  }

  lemma NotEmptied(e: Edit, lines: seq<string>, section: string, out: seq<string>, at: int, missing: seq<string>)
    requires out == EditLines(e, lines, false) && at <= |out|
    ensures Assemble(section, out, at, missing) == [] <==> lines == [] && missing == []
  {
    if lines != [] {
      FirstLineStays(e, lines);
    }
    hide EditLines, DropBlankEnd;
  }

  lemma LinesOfText(data: string)
    ensures Split(data) == if data == "" then [""] else LinesOf(data)
    ensures LinesOf(data) == [] <==> data == ""
  {
    EmptyText();
  }

  lemma TakenMissing(e: Edit, section: string, kv: seq<KeyValue>, lines: seq<string>)
    requires Takes(e, section, Read(lines, None)) && forall k :: 0 <= k < |kv| ==> kv[k].key in e.values
    ensures PlainEdit(e)
    ensures kv != [] && Section(e.target) !in Read(lines, None) ==>
              NamesItself(section) && Missing(kv, e.values, Written(e, lines, false)) != []
  {
    hide PlainEdit, Read, NamesItself, Written;
    if kv != [] && Section(e.target) !in Read(lines, None) {
      assert kv[0].key in e.values;
      NothingWritten(e, lines, None);
    }
  }

  /** A file of three blank lines: one of them is left once a section was appended. */
  lemma BlankLinesGo()
    ensures var kv, data := [KeyValue("k", "1")], Join(["", "", ""]);
            && Split(data) == ["", "", ""]
            && Unchanged(EditOf("x", kv, []), Split(EditSection(data, "x", kv, [])), None) == ["[" + "x" + "]", ""]
  {
    hide Unchanged, EditSection, EditOf, Takes, Join, Split, Read, ReadFile, DropBlankEnd, LinesOf;
    var kv, data := [KeyValue("k", "1")], Join(["", "", ""]);
    SplitJoin(["", "", ""]);
    BlankFile(["", "", ""]);
    LinesOfText(data);
    LinesOfRead(data);
    EntryTaken(kv);
    TargetX(kv);
    EditSectionKeepsLines(data, "x", kv, []);
    assert [] + [] + ["[" + "x" + "]", ""] == ["[" + "x" + "]", ""];
  }

  lemma {:induction false} BlankFile(lines: seq<string>)
    requires forall k :: 0 <= k < |lines| ==> lines[k] == ""
    ensures Read(lines, None) == [] && DropBlankEnd(lines) == []
  {
    hide ReadLine, Read, TrimSpace;
    if lines == [] {
      NoLines(None);
    } else {
      var head := lines[..|lines| - 1];
      BlankFile(head);
      BlankTrims();
      ReadBlank("", SectionAfter(head, None));
      ReadConcat(head, [""], None);
      assert head + [""] == lines;
    }
  }

  lemma EntryTaken(kv: seq<KeyValue>)
    requires kv == [KeyValue("k", "1")]
    ensures OneLiners(kv) && forall before :: Takes(EditOf("x", kv, []), "x", before)
  {
    hide Bindable, CanonicalSection, NamesItself;
    PlainWord("k", "1");
    WordNamesItself();
    assert kv[..0] == [];
    assert Values(kv) == map[]["k" := "1"];
    hide OneLine;
  }

  lemma WordNamesItself()
    ensures OneLine("1") && NamesItself("x")
  {
    assert ']' !in "x";
  }

  lemma TargetX(kv: seq<KeyValue>)
    ensures EditOf("x", kv, []).target == "x"
  {
    assert Lower("x") == "x";
  }
}
