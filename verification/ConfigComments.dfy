/**
 What the two line editors do to comments. Comment lines all stay, in order. A comment behind a value is lost if
 the line is rewritten or removed, and only then.
 */
module ConfigComments {
  import opened Common
  import opened ConfigText
  import opened ConfigCodec
  import opened ConfigEditor
  import opened ConfigSectionEdit
  import opened ConfigSectionResult
  import opened ConfigSectionTheorem
  import opened ConfigTopLevel
  import opened ConfigSave
  import opened ConfigTopLevelSave

  /** A line that is not blank and that Load skips: a comment, or text that is neither a header nor a key. */
  function WholeLine(line: string): seq<string> {
    if ReadLine(line) == Other && TrimSpace(line) != "" then [line] else []
  }

  /** The comment a reader drops from the text of a value; every setting has its own reader. */
  type Reader = (string, string) -> string

  /** The comment behind the header or the value of a line. */
  function Behind(comment: Reader, line: string): (r: seq<string>)
    ensures |r| <= 1
  {
    match ReadLine(line)
    case Other => []
    case Header(name) => AsComment(HeaderComment(TrimSpace(line)))
    case KeyLine(key, val) => AsComment(comment(key, val))
  }

  function AsComment(text: string): seq<string> {
    if text == "" then [] else [text]
  }

  function HeaderComment(line: string): string {
    var end := IndexOf(line, ']');
    if end > 0 && AfterClose(line[end + 1..]) then TrimBlanks(line[end + 1..]) else ""
  }

  /** The comment that parseStringSlice drops behind a closing bracket. */
  function ListComment(val: string): string {
    var end := ListEndFrom(val, 1, NO_QUOTE);
    if HasPrefix(val, '[') && end > 0 && AfterClose(val[end + 1..]) then TrimBlanks(val[end + 1..]) else ""
  }

  // ---- Collecting from lines ----

  function Gather(f: string -> seq<string>, lines: seq<string>): seq<string> {
    if lines == [] then [] else f(lines[0]) + Gather(f, lines[1..])
  }

  /** Blank lines hold nothing to collect. */
  ghost predicate SkipsBlanks(f: string -> seq<string>) {
    forall line :: TrimSpace(line) == "" ==> f(line) == []
  }

  lemma {:induction false} GatherConcat(f: string -> seq<string>, a: seq<string>, b: seq<string>)
    ensures Gather(f, a + b) == Gather(f, a) + Gather(f, b)
  {
    if a == [] {
      assert a + b == b;
    } else {
      assert (a + b)[1..] == a[1..] + b;
      GatherConcat(f, a[1..], b);
    }
  }

  lemma GatherOne(f: string -> seq<string>, line: string)
    ensures Gather(f, [line]) == f(line) && Gather(f, []) == []
  {
    assert [line][1..] == [];
  }

  /** Lines with nothing to collect, put into a file, change nothing. */
  lemma GatherInserted(f: string -> seq<string>, lines: seq<string>, at: nat, added: seq<string>)
    requires at <= |lines| && Gather(f, added) == []
    ensures Gather(f, lines[..at] + added + lines[at..]) == Gather(f, lines)
  {
    hide Gather;
    GatherConcat(f, lines[..at], added);
    GatherConcat(f, lines[..at] + added, lines[at..]);
    GatherConcat(f, lines[..at], lines[at..]);
    assert lines[..at] + lines[at..] == lines;
  }

  lemma BlankGathers(f: string -> seq<string>, line: string)
    requires SkipsBlanks(f) && TrimSpace(line) == ""
    ensures Gather(f, [line]) == []
  {
    hide TrimSpace;
    GatherOne(f, line);
  }

  lemma EmptyGathers(f: string -> seq<string>)
    requires SkipsBlanks(f)
    ensures Gather(f, [""]) == [] && Gather(f, []) == []
  {
    hide SkipsBlanks;
    BlankIsBlank();
    BlankGathers(f, "");
  }

  lemma BothSkipBlanks(comment: Reader)
    ensures SkipsBlanks(WholeLine) && SkipsBlanks(line => Behind(comment, line))
  {
    hide TrimSpace;
  }

  // ---- Around the edited lines ----

  lemma {:induction false} DropBlankEndGathers(f: string -> seq<string>, lines: seq<string>)
    requires SkipsBlanks(f)
    ensures Gather(f, DropBlankEnd(lines)) == Gather(f, lines)
    decreases |lines|
  {
    hide Gather, TrimSpace, SkipsBlanks;
    if lines != [] && TrimSpace(lines[|lines| - 1]) == "" {
      var head, last := lines[..|lines| - 1], lines[|lines| - 1];
      DropBlankEndGathers(f, head);
      BlankGathers(f, last);
      GatherConcat(f, head, [last]);
      assert head + [last] == lines;
    }
  }

  lemma AssembledGathers(f: string -> seq<string>, section: string, out: seq<string>, at: int, missing: seq<string>)
    requires SkipsBlanks(f) && Gather(f, missing) == [] && at <= |out|
    requires missing != [] && at < 0 ==> f("[" + section + "]") == []
    ensures Gather(f, Assemble(section, out, at, missing)) == Gather(f, out)
  {
    hide Gather, SkipsBlanks;
    if missing != [] {
      if at >= 0 {
        GatherInserted(f, out, at, missing);
      } else {
        AppendedGathers(f, section, out, missing);
      }
    }
  }

  lemma AppendedGathers(f: string -> seq<string>, section: string, out: seq<string>, missing: seq<string>)
    requires SkipsBlanks(f) && Gather(f, missing) == [] && missing != [] && f("[" + section + "]") == []
    ensures Gather(f, Assemble(section, out, -1, missing)) == Gather(f, out)
  {
    hide Gather, DropBlankEnd, SkipsBlanks;
    var kept := DropBlankEnd(out);
    var header := ["[" + section + "]"];
    DropBlankEndGathers(f, out);
    GatherOne(f, header[0]);
    EmptyGathers(f);
    GatherConcat(f, kept, Gap(kept));
    GatherConcat(f, kept + Gap(kept), header);
    GatherConcat(f, kept + Gap(kept) + header, missing);
    GatherConcat(f, kept + Gap(kept) + header + missing, [""]);
  }

  lemma {:induction false} MissingGathers(f: string -> seq<string>, e: Edit, kv: seq<KeyValue>, written: set<string>)
    requires forall k :: 0 <= k < |kv| ==> kv[k].key in e.values
    requires forall key :: key in e.values ==> f(NewLine(key, e.values[key])) == []
    ensures Gather(f, Missing(kv, e.values, written)) == []
    decreases |kv|
  {
    hide NewLine, Gather;
    if kv == [] {
      GatherOne(f, "");
    } else if kv[0].key in written {
      MissingGathers(f, e, kv[1..], written);
    } else {
      var key := kv[0].key;
      MissingGathers(f, e, kv[1..], written + {key});
      GatherOne(f, NewLine(key, e.values[key]));
      GatherConcat(f, [NewLine(key, e.values[key])], Missing(kv[1..], e.values, written + {key}));
    }
  }

  lemma JoinedGathers(f: string -> seq<string>, lines: seq<string>)
    requires SkipsBlanks(f) && AllOneLine(lines)
    ensures Gather(f, Split(Join(lines))) == Gather(f, lines)
  {
    hide Gather, OneLine, SkipsBlanks;
    if lines == [] {
      EmptyText();
      EmptyGathers(f);
    } else {
      SplitJoin(lines);
    }
  }

  lemma EmptyText()
    ensures Split("") == [""] && Join([]) == ""
  {
  }

  lemma LinesOfGathers(f: string -> seq<string>, data: string)
    requires SkipsBlanks(f)
    ensures Gather(f, LinesOf(data)) == Gather(f, Split(data))
  {
    hide Gather, Split, SkipsBlanks;
    if data == "" {
      EmptyText();
      EmptyGathers(f);
    }
  }

  /** Outside the lines it edits, editSection adds nothing to collect. */
  lemma SectionGathers(f: string -> seq<string>, data: string, section: string, kv: seq<KeyValue>, owned: seq<string>)
    requires OneLiners(kv) && Takes(EditOf(section, kv, owned), section, ReadFile(data)) && SkipsBlanks(f)
    requires NamesItself(section) ==> f("[" + section + "]") == []
    requires forall key :: key in Values(kv) ==> f(NewLine(key, Values(kv)[key])) == []
    ensures Gather(f, Split(EditSection(data, section, kv, owned))) ==
            Gather(f, EditLines(EditOf(section, kv, owned), LinesOf(data), false))
  {
    var e, lines := EditOf(section, kv, owned), LinesOf(data);
    TakesOneLine(data, section, kv, owned);
    EditSectionOneLine(data, section, kv, owned);
    LinesOfRead(data);
    PlaceInRange(e, lines, false, 0, Place(0, -1));
    PlaceSeen(e, lines, false, 0, Place(0, -1), None);
    if kv != [] {
      assert kv[0].key in Values(kv);
    }
    hide Gather, Split, Join, NamesItself, PlainEdit, EditLines, PlaceFor, Written, Missing, Assemble, CanonicalSection,
         SkipsBlanks, Read, ReadFile, NewLine, LinesOf, Values;
    JoinedGathers(f, EditSectionLines(lines, section, kv, owned));
    MissingGathers(f, e, kv, Written(e, lines, false));
    var missing := Missing(kv, e.values, Written(e, lines, false));
    assert missing != [] ==> kv != [] by { NoneMissing(e.values, Written(e, lines, false)); }
    AssembledGathers(f, section, EditLines(e, lines, false), PlaceFor(e, lines, false, 0, Place(0, -1)).at, missing);
  }

  lemma NoneMissing(values: map<string, string>, written: set<string>)
    ensures Missing([], values, written) == []
  {
  }

  // ---- Comment lines ----

  lemma EditLineKeepsWhole(e: Edit, line: string, inSection: bool)
    requires PlainEdit(e)
    ensures Gather(WholeLine, EditLine(e, line, inSection)) == WholeLine(line)
  {
    GatherOne(WholeLine, line);
    hide Gather, IsHeader, ReadLine, TrimSpace, Rewrite;
    if inSection && !IsHeader(line) && KeyPart(line).Some? {
      var before := KeyPart(line).value;
      ReadKeyLine(line);
      KeyPartPlain(line);
      if TrimSpace(before) in e.values {
        ReadRewrite(before, e.values[TrimSpace(before)]);
        GatherOne(WholeLine, Rewrite(before, e.values[TrimSpace(before)]));
      }
    }
  }

  lemma {:induction false} EditLinesKeepWhole(e: Edit, lines: seq<string>, inSection: bool)
    requires PlainEdit(e)
    ensures Gather(WholeLine, EditLines(e, lines, inSection)) == Gather(WholeLine, lines)
    decreases |lines|
  {
    hide PlainEdit, EditLine, InSection, WholeLine;
    if lines != [] {
      EditLineKeepsWhole(e, lines[0], inSection);
      EditLinesKeepWhole(e, lines[1..], InSection(e, lines[0], inSection));
      GatherConcat(WholeLine, EditLine(e, lines[0], inSection),
                   EditLines(e, lines[1..], InSection(e, lines[0], inSection)));
    }
  }

  lemma NewLinesAreKeys(comment: Reader, key: string, value: string)
    requires Bindable(key, value)
    ensures WholeLine(NewLine(key, value)) == []
    ensures Behind(comment, NewLine(key, value)) == AsComment(comment(key, TrimSpace(value)))
  {
    hide NewLine, Bindable, ReadLine, TrimSpace, Rewrite;
    MissingLine(key, value);
  }

  lemma NewHeaderHolds(comment: Reader, section: string)
    requires NamesItself(section)
    ensures WholeLine("[" + section + "]") == [] && Behind(comment, "[" + section + "]") == []
  {
    ReadNewHeader(section);
    NewHeaderTrimmed(section);
    NoHeaderComment(section);
    hide ReadLine, TrimSpace, HeaderComment;
  }

  lemma NoHeaderComment(section: string)
    requires NamesItself(section)
    ensures HeaderComment("[" + section + "]") == ""
  {
    Brackets(section);
    hide AfterClose, IndexOf;
    assert TrimBlanks("") == "";
  }

  /** After editSection the file's comment lines are the ones it had, in order. */
  lemma EditSectionKeepsComments(data: string, section: string, kv: seq<KeyValue>, owned: seq<string>)
    requires OneLiners(kv) && Takes(EditOf(section, kv, owned), section, ReadFile(data))
    ensures Gather(WholeLine, Split(EditSection(data, section, kv, owned))) == Gather(WholeLine, Split(data))
  {
    var e, none: Reader := EditOf(section, kv, owned), (k, v) => "";
    BothSkipBlanks(none);
    forall key | key in Values(kv) ensures WholeLine(NewLine(key, Values(kv)[key])) == [] {
      NewLinesAreKeys(none, key, Values(kv)[key]);
    }
    if NamesItself(section) {
      NewHeaderHolds(none, section);
    }
    hide Gather, Split, Bindable, NamesItself, WholeLine, Values, LinesOf, EditLines, ReadFile, NewLine,
         CanonicalSection;
    SectionGathers(WholeLine, data, section, kv, owned);
    EditLinesKeepWhole(e, LinesOf(data), false);
    LinesOfGathers(WholeLine, data);
  }

  // ---- Comments behind values ----

  /** The line binds a key that the edit sets or removes. */
  predicate Changed(e: Edit, line: string, section: Option<string>) {
    && section == Some(e.target) && ReadLine(line).KeyLine?
    && (ReadLine(line).key in e.values || ReadLine(line).key in e.owned)
  }

  ghost predicate AnyLost(e: Edit, comment: Reader, lines: seq<string>, section: Option<string>) {
    exists i :: 0 <= i < |lines| && Changed(e, lines[i], SectionAfter(lines[..i], section))
        && Behind(comment, lines[i]) != []
  }

  lemma AnyLostCons(e: Edit, comment: Reader, lines: seq<string>, section: Option<string>)
    requires lines != []
    ensures AnyLost(e, comment, lines, section) <==>
              || (Changed(e, lines[0], section) && Behind(comment, lines[0]) != [])
              || AnyLost(e, comment, lines[1..], SectionAfter([lines[0]], section))
  {
    hide Changed, Behind;
    var rest, next := lines[1..], SectionAfter([lines[0]], section);
    forall i | 0 <= i < |rest| ensures rest[i] == lines[i + 1]
           && SectionAfter(rest[..i], next) == SectionAfter(lines[..i + 1], section) {
      assert lines[..i + 1] == [lines[0]] + rest[..i];
      ReadConcat([lines[0]], rest[..i], section);
    }
    hide SectionAfter;
    assert SectionAfter(lines[..0], section) == section by { NothingBefore(lines, section); }
    if AnyLost(e, comment, rest, next) {
      var i :| 0 <= i < |rest| && Changed(e, rest[i], SectionAfter(rest[..i], next)) && Behind(comment, rest[i]) != [];
      assert Changed(e, lines[i + 1], SectionAfter(lines[..i + 1], section));
    }
    if AnyLost(e, comment, lines, section) {
      var i :| 0 <= i < |lines| && Changed(e, lines[i], SectionAfter(lines[..i], section))
          && Behind(comment, lines[i]) != [];
      if i > 0 {
        assert Changed(e, rest[i - 1], SectionAfter(rest[..i - 1], next));
      }
    }
  }

  lemma NothingBefore(lines: seq<string>, section: Option<string>)
    ensures SectionAfter(lines[..0], section) == section
  {
  }

  /** The new values carry no comments of their own. */
  ghost predicate NoComments(comment: Reader, values: map<string, string>) {
    forall key :: key in values ==> comment(key, TrimSpace(values[key])) == ""
  }

  lemma EditLineBehind(e: Edit, comment: Reader, line: string, section: Option<string>)
    requires PlainEdit(e) && NoComments(comment, e.values)
    ensures Gather(text => Behind(comment, text), EditLine(e, line, section == Some(e.target))) ==
            if Changed(e, line, section) then [] else Behind(comment, line)
  {
    var f := text => Behind(comment, text);
    GatherOne(f, line);
    hide Gather, IsHeader, ReadLine, TrimSpace, Rewrite, Bindable;
    if IsHeader(line) {
      ReadHeader(line);
    } else {
      ReadKeyLine(line);
      if KeyPart(line).Some? {
        var before := KeyPart(line).value;
        KeyPartPlain(line);
        if TrimSpace(before) in e.values {
          ReadRewrite(before, e.values[TrimSpace(before)]);
          GatherOne(f, Rewrite(before, e.values[TrimSpace(before)]));
        }
      }
    }
  }

  lemma {:induction false} EditLinesBehind(e: Edit, comment: Reader, lines: seq<string>, section: Option<string>)
    requires PlainEdit(e) && NoComments(comment, e.values)
    ensures var f := text => Behind(comment, text);
            var edited := Gather(f, EditLines(e, lines, section == Some(e.target)));
            && |edited| <= |Gather(f, lines)|
            && (edited == Gather(f, lines) <==> !AnyLost(e, comment, lines, section))
            && (|edited| == |Gather(f, lines)| ==> edited == Gather(f, lines))
    decreases |lines|
  {
    var f := text => Behind(comment, text);
    hide PlainEdit, NoComments, EditLine, InSection, Behind, SectionAfter, Changed, AnyLost;
    if lines == [] {
      NothingLost(e, comment, section);
    } else {
      var line, rest, inSection := lines[0], lines[1..], section == Some(e.target);
      var next := SectionAfter([line], section);
      SameSection(e, line, section);
      EditLinesBehind(e, comment, rest, next);
      EditLineBehind(e, comment, line, section);
      AnyLostCons(e, comment, lines, section);
      GatherConcat(f, EditLine(e, line, inSection), EditLines(e, rest, InSection(e, line, inSection)));
      assert f(line) == Behind(comment, line);
      var more, all := Gather(f, EditLines(e, rest, next == Some(e.target))), Gather(f, rest);
      hide *;
      SameFirst(Behind(comment, line), more, all);
    }
  }

  lemma SameFirst(first: seq<string>, a: seq<string>, b: seq<string>)
    ensures first + a == first + b <==> a == b
  {
    if first + a == first + b {
      assert a == (first + a)[|first|..];
      assert b == (first + b)[|first|..];
    }
  }

  lemma NothingLost(e: Edit, comment: Reader, section: Option<string>)
    ensures !AnyLost(e, comment, [], section)
  {
  }

  lemma SameSection(e: Edit, line: string, section: Option<string>)
    ensures InSection(e, line, section == Some(e.target)) <==> SectionAfter([line], section) == Some(e.target)
  {
    ReadOne(line, section);
    if IsHeader(line) {
      ReadHeader(line);
    } else {
      ReadKeyLine(line);
    }
    hide IsHeader, ReadLine, HeaderName, KeyPart, TrimSpace, SectionAfter, CanonicalSection;
  }

  /**
   The comments behind values and headers all stay, in order, exactly if no line of the section that carries one binds
   a key that is set or removed. The readers of the settings are a parameter.
   */
  lemma EditSectionTrailing(data: string, section: string, kv: seq<KeyValue>, owned: seq<string>, comment: Reader)
    requires OneLiners(kv) && Takes(EditOf(section, kv, owned), section, ReadFile(data))
    requires NoComments(comment, Values(kv))
    ensures var f := line => Behind(comment, line);
            (Gather(f, Split(EditSection(data, section, kv, owned))) == Gather(f, Split(data)) <==>
             !AnyLost(EditOf(section, kv, owned), comment, Split(data), None))
  {
    var e, f := EditOf(section, kv, owned), line => Behind(comment, line);
    BothSkipBlanks(comment);
    forall key | key in Values(kv) ensures f(NewLine(key, Values(kv)[key])) == [] {
      NewLinesAreKeys(comment, key, Values(kv)[key]);
    }
    if NamesItself(section) {
      NewHeaderHolds(comment, section);
    }
    hide Gather, Split, Bindable, NamesItself, Behind, Values, LinesOf, EditLines, ReadFile, NewLine, CanonicalSection,
         AnyLost, NoComments;
    SectionGathers(f, data, section, kv, owned);
    EditLinesBehind(e, comment, LinesOf(data), None);
    LinesOfGathers(f, data);
    LinesOfLost(e, comment, data);
  }

  lemma LinesOfLost(e: Edit, comment: Reader, data: string)
    ensures AnyLost(e, comment, LinesOf(data), None) <==> AnyLost(e, comment, Split(data), None)
  {
    hide Split, Behind;
    if data == "" {
      EmptyText();
      ReadBlank("", None);
    }
  }

  // ---- A lost comment ----

  /** Whatever text stands behind the styles of a file, saving other styles leaves only those. */
  lemma StylesReplaceText(text: string, styles: seq<string>)
    requires OneLine(text) && forall k :: 0 <= k < |styles| ==> OneLine(styles[k])
    ensures EditSection(Join(["[mixcloud]", NewLine("styles", text)]), "mixcloud", StylesEntry(styles), [])
            == Join(["[mixcloud]", NewLine("styles", FormatList(styles))])
  {
    hide *;
    var lines, value := ["[mixcloud]", NewLine("styles", text)], FormatList(styles);
    MixcloudNames(text);
    StylesEdit(styles);
    MixcloudHeader();
    NewLineParts("styles", text);
    assert "styles" + " " == "styles ";
    StylesLines(lines, text, styles);
    SplitJoin(lines);
    HeaderFirst(lines[1]);
    EditSectionIs(Join(lines), "mixcloud", StylesEntry(styles));
  }

  lemma EditSectionIs(data: string, section: string, kv: seq<KeyValue>)
    requires data != ""
    ensures EditSection(data, section, kv, []) == Join(EditSectionLines(Split(data), section, kv, []))
  {
    hide EditSectionLines;
  }

  lemma HeaderFirst(line: string)
    ensures Join(["[mixcloud]", line]) != ""
  {
  }

  lemma NewLineParts(key: string, value: string)
    requires Bindable(key, value) && OneLine(key) && OneLine(value)
    ensures KeyPart(NewLine(key, value)) == Some(key + " ") && !IsHeader(NewLine(key, value))
    ensures TrimSpace(key + " ") == key && OneLine(NewLine(key, value))
  {
    MissingLine(key, value);
    OneLineRewrite(key, value);
    TrimTrailingSpace(key);
    TrimmedAlready(key);
    hide TrimSpace, IsHeader, KeyPart, Rewrite, NewLine;
  }

  lemma MixcloudHeader()
    ensures IsHeader("[mixcloud]") && HeaderName("[mixcloud]") == "mixcloud" && OneLine("[mixcloud]")
  {
    hide *;
    MixcloudNames("");
    ReadNewHeader("mixcloud");
    assert "[" + "mixcloud" + "]" == "[mixcloud]";
    if IsHeader("[mixcloud]") {
      ReadHeader("[mixcloud]");
    } else {
      ReadKeyLine("[mixcloud]");
    }
  }

  lemma StylesLines(lines: seq<string>, text: string, styles: seq<string>)
    requires lines == ["[mixcloud]", NewLine("styles", text)]
    requires IsHeader(lines[0]) && HeaderName(lines[0]) == "mixcloud"
    requires KeyPart(lines[1]) == Some("styles ") && !IsHeader(lines[1]) && TrimSpace("styles ") == "styles"
    requires EditOf("mixcloud", StylesEntry(styles), []) == Edit("mixcloud", map["styles" := FormatList(styles)], [])
    ensures EditSectionLines(lines, "mixcloud", StylesEntry(styles), [])
            == ["[mixcloud]", NewLine("styles", FormatList(styles))]
  {
    hide IsHeader, HeaderName, KeyPart, TrimSpace, FormatList, CanonicalSection, EditOf, Values, PlaceFor, DropBlankEnd;
    var e, value, kv := EditOf("mixcloud", StylesEntry(styles), []), FormatList(styles), StylesEntry(styles);
    assert EditLine(e, lines[0], false) == [lines[0]] && InSection(e, lines[0], false);
    assert EditLine(e, lines[1], true) == [Rewrite("styles ", value)];
    assert Rewrite("styles ", value) == NewLine("styles", value);
    assert lines[1..] == [lines[1]] && lines[1..][1..] == [];
    assert EditLines(e, lines[1..], true) == [NewLine("styles", value)];
    assert Written(e, lines[1..], true) == {"styles"};
    assert Written(e, lines, false) == {"styles"};
    PlaceInRange(e, lines, false, 0, Place(0, -1));
    assert Missing(kv, e.values, {"styles"}) == [];
  }

  /** Saving other styles over a commented list: the comment is not in the new file. */
  lemma CommentIsLost()
    ensures var data := Join(["[mixcloud]", NewLine("styles", "[\"a\"] # mine")]);
            && ListComment("[\"a\"] # mine") == "# mine" && '#' in data
            && '#' !in EditSection(data, "mixcloud", StylesEntry(["b"]), [])
  {
    hide EditSection, NewLine, FormatList, Join, StylesEntry;
    CommentFound();
    StylesReplaceText("[\"a\"] # mine", ["b"]);
    NoMark();
    MarkIn();
  }

  lemma CommentFound()
    ensures ListComment("[\"a\"] # mine") == "# mine"
  {
    var val := "[\"a\"] # mine";
    assert val[4] == ']' && ListEndFrom(val, 4, NO_QUOTE) == 4;
    assert ListEndFrom(val, 3, QUOTE) == 4;
    assert ListEndFrom(val, 2, QUOTE) == 4;
    assert val[5..] == " # mine" && val[5..][1..] == "# mine";
    assert TrimBlanks(val[5..][1..]) == "# mine";
  }

  lemma NoMark()
    ensures '#' !in Join(["[mixcloud]", NewLine("styles", FormatList(["b"]))])
  {
    assert Escape("b"[1..]) == "";
    assert QuoteString("b") == "\"b\"";
    assert QuoteAll(["b"]) == ["\"b\""];
    assert FormatList(["b"]) == "[\"b\"]";
    assert ["[mixcloud]", NewLine("styles", "[\"b\"]")][1..] == [NewLine("styles", "[\"b\"]")];
  }

  lemma MarkIn()
    ensures '#' in Join(["[mixcloud]", NewLine("styles", "[\"a\"] # mine")])
  {
    var line := NewLine("styles", "[\"a\"] # mine");
    assert line[15] == '#';
    assert ["[mixcloud]", line][1..] == [line];
    assert Join(["[mixcloud]", line]) == "[mixcloud]" + "\n" + line;
    assert Join(["[mixcloud]", line])[11 + 15] == '#';
  }

  // ---- editTopLevel ----

  lemma BlankEndGathers(f: string -> seq<string>, lines: seq<string>)
    requires lines != [] && SkipsBlanks(f)
    ensures Gather(f, EndWithBlank(lines)) == Gather(f, lines)
  {
    hide Gather, SkipsBlanks;
    EmptyGathers(f);
    GatherConcat(f, lines, [""]);
  }

  lemma EditTopGathers(f: string -> seq<string>, lines: seq<string>, key: string, line: string)
    requires lines != [] && f(line) == [] && SkipsBlanks(f)
    ensures Gather(f, EditTopLines(lines, key, line)) ==
            Gather(f, Replaced(TopPart(lines), key, line)) + Gather(f, lines[|TopPart(lines)|..])
  {
    hide Gather, Replaced, TopPart, InsertAt, Binds, SkipsBlanks;
    var top := TopPart(lines);
    var edited := Replaced(top, key, line) + lines[|top|..];
    GatherConcat(f, Replaced(top, key, line), lines[|top|..]);
    GatherOne(f, line);
    GatherInserted(f, edited, InsertAt(lines), [line]);
    BlankEndGathers(f, edited);
    BlankEndGathers(f, edited[..InsertAt(lines)] + [line] + edited[InsertAt(lines)..]);
  }

  lemma TopParts(f: string -> seq<string>, lines: seq<string>)
    ensures Gather(f, lines) == Gather(f, TopPart(lines)) + Gather(f, lines[|TopPart(lines)|..])
  {
    hide Gather;
    assert TopPart(lines) + lines[|TopPart(lines)|..] == lines;
    GatherConcat(f, TopPart(lines), lines[|TopPart(lines)|..]);
  }

  lemma {:induction false} ReplacedKeepsWhole(lines: seq<string>, key: string, line: string)
    requires WholeLine(line) == []
    ensures Gather(WholeLine, Replaced(lines, key, line)) == Gather(WholeLine, lines)
  {
    hide ReadLine, TrimSpace;
    if lines != [] {
      ReplacedKeepsWhole(lines[1..], key, line);
    }
  }

  /** A top-level save, too, leaves every comment line in place. */
  lemma TopLevelSaveKeepsComments(data: string, key: string, value: string)
    requires Bindable(key, value) && OneLine(key) && OneLine(value)
    ensures Gather(WholeLine, Split(EditTopLevel(data, key, NewLine(key, value)))) == Gather(WholeLine, Split(data))
  {
    var none: Reader := (k, v) => "";
    hide Gather, NewLine, Split, Join, EditTopLines, Bindable, OneLine, WholeLine, TopPart, Replaced, SkipsBlanks;
    BothSkipBlanks(none);
    NewLinesAreKeys(none, key, value);
    TopSaved(WholeLine, data, key, value);
    ReplacedKeepsWhole(TopPart(Split(data)), key, NewLine(key, value));
    TopParts(WholeLine, Split(data));
  }

  lemma TopSaved(f: string -> seq<string>, data: string, key: string, value: string)
    requires Bindable(key, value) && OneLine(key) && OneLine(value) && SkipsBlanks(f) && f(NewLine(key, value)) == []
    ensures var lines := Split(data);
            Gather(f, Split(EditTopLevel(data, key, NewLine(key, value)))) ==
            Gather(f, Replaced(TopPart(lines), key, NewLine(key, value))) + Gather(f, lines[|TopPart(lines)|..])
  {
    hide Gather, NewLine, Split, Join, EditTopLines, Bindable, OneLine, TopPart, Replaced, SkipsBlanks;
    NewLineParts(key, value);
    EditTopOneLine(Split(data), key, NewLine(key, value));
    SplitJoin(EditTopLines(Split(data), key, NewLine(key, value)));
    EditTopGathers(f, Split(data), key, NewLine(key, value));
  }

  /** A line that binds key and carries a comment. */
  ghost predicate AnyTopLost(comment: Reader, top: seq<string>, key: string) {
    exists i :: 0 <= i < |top| && LineKey(top[i]) == Some(key) && Behind(comment, top[i]) != []
  }

  lemma TopLostCons(comment: Reader, top: seq<string>, key: string)
    requires top != []
    ensures AnyTopLost(comment, top, key) <==>
              (LineKey(top[0]) == Some(key) && Behind(comment, top[0]) != []) || AnyTopLost(comment, top[1..], key)
  {
    hide LineKey, Behind;
    if AnyTopLost(comment, top[1..], key) {
      var i :| 0 <= i < |top| - 1 && LineKey(top[1..][i]) == Some(key) && Behind(comment, top[1..][i]) != [];
      assert LineKey(top[i + 1]) == Some(key);
    }
    if AnyTopLost(comment, top, key) {
      var i :| 0 <= i < |top| && LineKey(top[i]) == Some(key) && Behind(comment, top[i]) != [];
      if i > 0 {
        assert LineKey(top[1..][i - 1]) == Some(key);
      }
    }
  }

  lemma {:induction false} ReplacedBehind(comment: Reader, top: seq<string>, key: string, line: string)
    requires Behind(comment, line) == []
    ensures var f := text => Behind(comment, text);
            var replaced := Gather(f, Replaced(top, key, line));
            && |replaced| <= |Gather(f, top)|
            && (replaced == Gather(f, top) <==> !AnyTopLost(comment, top, key))
            && (|replaced| == |Gather(f, top)| ==> replaced == Gather(f, top))
  {
    var f := text => Behind(comment, text);
    if top != [] {
      hide LineKey, AnyTopLost, Behind;
      ReplacedBehind(comment, top[1..], key, line);
      TopLostCons(comment, top, key);
      var more, all := Gather(f, Replaced(top[1..], key, line)), Gather(f, top[1..]);
      SameFirst(f(top[0]), more, all);
    }
  }

  /** Comments behind values all stay exactly if no line before the first header binds the saved key and carries one. */
  lemma TopLevelSaveTrailing(data: string, key: string, value: string, comment: Reader)
    requires Bindable(key, value) && OneLine(key) && OneLine(value) && comment(key, TrimSpace(value)) == ""
    ensures var f := text => Behind(comment, text);
            (Gather(f, Split(EditTopLevel(data, key, NewLine(key, value)))) == Gather(f, Split(data)) <==>
             !AnyTopLost(comment, TopPart(Split(data)), key))
  {
    var f, top := text => Behind(comment, text), TopPart(Split(data));
    BothSkipBlanks(comment);
    NewLinesAreKeys(comment, key, value);
    hide Gather, NewLine, Split, Join, EditTopLines, Bindable, OneLine, Behind, TopPart, Replaced, AnyTopLost,
         TrimSpace, SkipsBlanks;
    assert f(NewLine(key, value)) == [];
    TopSaved(f, data, key, value);
    ReplacedBehind(comment, top, key, NewLine(key, value));
    TopParts(f, Split(data));
    SameLast(Gather(f, Replaced(top, key, NewLine(key, value))), Gather(f, top), Gather(f, Split(data)[|top|..]));
  }

  lemma SameLast(a: seq<string>, b: seq<string>, last: seq<string>)
    ensures a + last == b + last <==> a == b
  {
    if a + last == b + last {
      assert |a + last| == |b + last|;
      assert a == (a + last)[..|a|];
      assert b == (b + last)[..|b|];
    }
  }
}
