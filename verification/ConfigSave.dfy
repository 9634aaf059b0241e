/** The saves built on the editors, and the values Load reads after them. */
module ConfigSave {
  import opened Common
  import opened ConfigText
  import opened ConfigCodec
  import opened ConfigEditor
  import opened ConfigSectionEdit
  import opened ConfigSectionResult
  import opened ConfigSectionTheorem
  import opened ConfigTopLevel

  // ---- editSection as the loop it is ----

  method ValueMap(kv: seq<KeyValue>) returns (values: map<string, string>)
    ensures values == Values(kv)
  {
    values := map[];
    for i := 0 to |kv|
      invariant values == Values(kv[..i])
    {
      assert kv[..i + 1][..i] == kv[..i];
      values := values[kv[i].key := kv[i].value];
    }
    assert kv[..|kv|] == kv;
  }

  method MissingKeys(kv: seq<KeyValue>, values: map<string, string>, found: set<string>) returns (missing: seq<string>)
    requires forall k :: 0 <= k < |kv| ==> kv[k].key in values
    ensures missing == Missing(kv, values, found)
  {
    hide NewLine;
    var written := found;
    missing := [];
    assert kv[0..] == kv;
    for i := 0 to |kv|
      invariant Missing(kv, values, found) == missing + Missing(kv[i..], values, written)
    {
      assert kv[i..][0] == kv[i] && kv[i..][1..] == kv[i + 1..];
      if kv[i].key !in written {
        written := written + {kv[i].key};
        missing := missing + [NewLine(kv[i].key, values[kv[i].key])];
      }
    }
  }

  /** The loop over the lines of the file. */
  method EditLoop(e: Edit, lines: seq<string>) returns (out: seq<string>, written: set<string>, insertAt: int)
    ensures out == EditLines(e, lines, false)
    ensures written == Written(e, lines, false)
    ensures insertAt == PlaceFor(e, lines, false, 0, Place(0, -1)).at
  {
    hide EditLines, Written, PlaceFor, EditLine, WrittenKey, InSection, PlaceAfter;
    out, written, insertAt := [], {}, -1;
    var inSection, block := false, 0;
    assert lines[0..] == lines;
    for i := 0 to |lines|
      invariant block >= 0
      invariant EditLines(e, lines, false) == out + EditLines(e, lines[i..], inSection)
      invariant Written(e, lines, false) == written + Written(e, lines[i..], inSection)
      invariant PlaceFor(e, lines, false, 0, Place(0, -1))
                == PlaceFor(e, lines[i..], inSection, |out|, Place(block, insertAt))
    {
      var kept, wrote, inside, place := EditStep(e, lines[i], inSection, |out|, block, insertAt);
      EditUnfolds(e, lines, i, inSection, out, written, Place(block, insertAt));
      out, written, inSection, block, insertAt := out + kept, written + wrote, inside, place.block, place.at;
    }
    NothingLeft(e, lines, inSection, |out|, Place(block, insertAt));
  }

  lemma NothingLeft(e: Edit, lines: seq<string>, inSection: bool, n: nat, p: Place)
    ensures var rest := lines[|lines|..];
            EditLines(e, rest, inSection) == [] && Written(e, rest, inSection) == {}
                && PlaceFor(e, rest, inSection, n, p) == p
  {
  }

  /** One turn of the loop. */
  method EditStep(e: Edit, l: string, inSection: bool, n: nat, block: nat, insertAt: int)
    returns (kept: seq<string>, wrote: set<string>, inside: bool, place: Place)
    ensures kept == EditLine(e, l, inSection) && wrote == WrittenKey(e, l, inSection)
    ensures inside == InSection(e, l, inSection) && place == PlaceAfter(e, l, inSection, n, Place(block, insertAt))
  {
    hide TrimSpace, SectionHeader, CanonicalSection, Rewrite;
    var trimmed := TrimSpace(l);
    kept, wrote, inside, place := [l], {}, inSection, Place(block, insertAt);
    var name := SectionHeader(trimmed);
    if name.Some? {
      inside := CanonicalSection(name.value) == e.target;
      if inside {
        place := Place(block + 1, if block == 0 then n + 1 else insertAt);
      }
      return;
    }
    if inSection && !HasPrefix(trimmed, '#') {
      var cut := Cut(l);
      if cut.Some? {
        var before := cut.value.0;
        var key := TrimSpace(before);
        if key in e.values {
          kept, wrote := [Rewrite(before, e.values[key])], {key};
        } else if key in e.owned {
          kept := [];
          return;
        }
        if block == 1 {
          place := Place(block, n + 1);
        }
      }
    }
  }

  lemma EditUnfolds(e: Edit, lines: seq<string>, i: nat, inSection: bool, out: seq<string>, written: set<string>,
                    p: Place)
    requires i < |lines|
    ensures var l, inside := lines[i], InSection(e, lines[i], inSection);
            && out + EditLines(e, lines[i..], inSection)
               == out + EditLine(e, l, inSection) + EditLines(e, lines[i + 1..], inside)
            && written + Written(e, lines[i..], inSection)
               == written + WrittenKey(e, l, inSection) + Written(e, lines[i + 1..], inside)
            && PlaceFor(e, lines[i..], inSection, |out|, p)
               == PlaceFor(e, lines[i + 1..], inside, |out
                   + EditLine(e, l, inSection)|, PlaceAfter(e, l, inSection, |out|, p))
  {
    hide EditLine, WrittenKey, InSection, PlaceAfter;
    assert lines[i..][0] == lines[i] && lines[i..][1..] == lines[i + 1..];
  }

  method AssembleLines(section: string, edited: seq<string>, insertAt: int, missing: seq<string>)
    returns (out: seq<string>)
    requires insertAt <= |edited|
    ensures out == Assemble(section, edited, insertAt, missing)
  {
    hide TrimSpace;
    out := edited;
    if |missing| == 0 {
    } else if insertAt >= 0 {
      out := out[..insertAt] + missing + out[insertAt..];
    } else {
      while |out| > 0 && TrimSpace(out[|out| - 1]) == ""
        invariant DropBlankEnd(edited) == DropBlankEnd(out)
      {
        out := out[..|out| - 1];
      }
      if |out| > 0 {
        out := out + [""];
      }
      out := out + ["[" + section + "]"] + missing + [""];
    }
  }

  method EditSectionText(data: string, section: string, kv: seq<KeyValue>, owned: seq<string>) returns (r: string)
    ensures r == EditSection(data, section, kv, owned)
  {
    var values := ValueMap(kv);
    var lines: seq<string> := [];
    if data != "" {
      lines := Split(data);
    }
    var e := Edit(CanonicalSection(section), values, owned);
    hide EditLines, Written, PlaceFor, Missing, CanonicalSection, Split, Join, Assemble;
    var out, written, insertAt := EditLoop(e, lines);
    PlaceInRange(e, lines, false, 0, Place(0, -1));
    var missing := MissingKeys(kv, values, written);
    out := AssembleLines(section, out, insertAt, missing);
    r := Join(out);
  }

  datatype SaveResult = Saved(text: string) | LineBreak(key: string)

  predicate HasLineBreak(s: string) {
    '\r' in s || '\n' in s
  }

  /** SaveSection rejects the first entry with a line break; otherwise it writes what editSection returns. */
  method SaveSection(data: string, section: string, kv: seq<KeyValue>, owned: seq<string>) returns (r: SaveResult)
    ensures r.LineBreak? <==> exists k :: 0 <= k < |kv| && HasLineBreak(kv[k].key + kv[k].value)
    ensures r.Saved? ==> r.text == EditSection(data, section, kv, owned)
    ensures r.Saved? ==> forall k :: 0 <= k < |kv| ==> OneLine(kv[k].key) && OneLine(kv[k].value)
  {
    for i := 0 to |kv|
      invariant forall k :: 0 <= k < i ==> !HasLineBreak(kv[k].key + kv[k].value)
    {
      if HasLineBreak(kv[i].key + kv[i].value) {
        return LineBreak(kv[i].key);
      }
    }
    forall k | 0 <= k < |kv| ensures OneLine(kv[k].key) && OneLine(kv[k].value) {
      NoBreakInParts(kv[k].key, kv[k].value);
    }
    var text := EditSectionText(data, section, kv, owned);
    r := Saved(text);
  }

  lemma NoBreakInParts(a: string, b: string)
    requires !HasLineBreak(a + b)
    ensures OneLine(a) && OneLine(b)
  {
    assert forall k :: 0 <= k < |a| ==> (a + b)[k] == a[k];
    assert forall k :: 0 <= k < |b| ==> (a + b)[|a| + k] == b[k];
  }

  // ---- Styles, end to end ----

  function StylesEntry(styles: seq<string>): seq<KeyValue> {
    [KeyValue("styles", FormatList(styles))]
  }

  lemma {:induction false} EscapeOneLine(s: string)
    requires OneLine(s)
    ensures OneLine(Escape(s))
  {
    if s != "" {
      assert s[0] in s;
      assert forall c :: c in s[1..] ==> c in s;
      EscapeOneLine(s[1..]);
    }
  }

  lemma {:induction false} JoinItemsOneLine(items: seq<string>)
    requires forall k :: 0 <= k < |items| ==> OneLine(items[k])
    ensures OneLine(JoinItems(QuoteAll(items)))
    decreases |items|
  {
    if items != [] {
      EscapeOneLine(items[0]);
      if |items| > 1 {
        JoinQuoted(items);
        JoinItemsOneLine(items[1..]);
      }
    }
  }

  lemma FormatListPlain(styles: seq<string>)
    ensures TrimSpace(FormatList(styles)) == FormatList(styles)
    ensures (forall k :: 0 <= k < |styles| ==> OneLine(styles[k])) ==> OneLine(FormatList(styles))
  {
    TrimmedAlready(FormatList(styles));
    hide TrimSpace;
    if forall k :: 0 <= k < |styles| ==> OneLine(styles[k]) {
      JoinItemsOneLine(styles);
    }
  }

  lemma LowerSame(s: string)
    requires forall k :: 0 <= k < |s| ==> !('A' <= s[k] <= 'Z')
    ensures Lower(s) == s
  {
  }

  lemma PlainWord(s: string, value: string)
    requires forall k :: 0 <= k < |s| ==> 'a' <= s[k] <= 'z'
    ensures Bindable(s, value) && OneLine(s)
  {
    hide TrimSpace, OneLine, HasPrefix, IsHeader, NewLine;
    WordTrimmed(s);
    WordChars(s);
    NoBracketNoHeader(s, value);
  }

  lemma WordChars(s: string)
    requires forall k :: 0 <= k < |s| ==> 'a' <= s[k] <= 'z'
    ensures OneLine(s) && '=' !in s && !HasPrefix(s, '#') && !HasPrefix(s, '[')
  {
  }

  lemma WordTrimmed(s: string)
    requires forall k :: 0 <= k < |s| ==> 'a' <= s[k] <= 'z'
    ensures Trimmed(s)
  {
  }

  lemma MixcloudNames(value: string)
    ensures Bindable("styles", value) && OneLine("styles")
    ensures NamesItself("mixcloud") && CanonicalSection("mixcloud") == "mixcloud"
  {
    hide Bindable, Lower, AfterClose;
    PlainWord("styles", value);
    LowerSame("mixcloud");
    assert ']' !in "mixcloud" && OneLine("mixcloud");
    hide IndexOf, OneLine;
  }

  lemma StylesPlain(styles: seq<string>)
    requires forall k :: 0 <= k < |styles| ==> OneLine(styles[k])
    ensures OneLiners(StylesEntry(styles))
    ensures forall before :: Takes(EditOf("mixcloud", StylesEntry(styles), []), "mixcloud", before)
  {
    MixcloudNames(FormatList(styles));
    StylesEdit(styles);
    FormatListPlain(styles);
    hide FormatList, TrimSpace, Bindable, NamesItself, OneLine, CanonicalSection, EditOf;
  }

  lemma StylesEdit(styles: seq<string>)
    ensures EditOf("mixcloud", StylesEntry(styles), []) == Edit("mixcloud", map["styles" := FormatList(styles)], [])
  {
    MixcloudNames(FormatList(styles));
    hide FormatList, CanonicalSection, Bindable, NamesItself;
    var kv := StylesEntry(styles);
    assert kv[..0] == [];
    assert Values(kv) == map[]["styles" := FormatList(styles)];
  }

  /**
   After SaveMixcloudStyles on any file, the styles Load parses are the saved non-empty ones, and every other
   section and key reads as before.
   */
  lemma StylesSurviveSaving(data: string, styles: seq<string>, where: Option<string>, key: string)
    requires forall k :: 0 <= k < |styles| ==> OneLine(styles[k])
    ensures var after := ReadFile(EditSection(data, "mixcloud", StylesEntry(styles), []));
            var val := LastValue(after, where, key);
            if where == Some("mixcloud") && key == "styles" then val.Some? && ParsedList(val.value) == NonEmpty(styles)
            else val == LastValue(ReadFile(data), where, key)
  {
    hide *;
    StylesPlain(styles);
    StylesEdit(styles);
    FormatListPlain(styles);
    AfterNothing();
    ListRoundTrip(styles, "");
    assert FormatList(styles) + "" == FormatList(styles);
    EditSectionValues(data, "mixcloud", StylesEntry(styles), [], where, key);
  }

  // ---- Top-level keys ----

  lemma {:induction false} LastValueConcat(a: seq<Event>, b: seq<Event>, section: Option<string>, key: string)
    ensures LastValue(a + b, section, key) ==
            if LastValue(b, section, key).Some? then LastValue(b, section, key) else LastValue(a, section, key)
    decreases |b|
  {
    if b == [] {
      assert a + b == a;
    } else {
      var head, ev := b[..|b| - 1], b[|b| - 1];
      assert a + b == (a + head) + [ev] && b == head + [ev];
      LastValueConcat(a, head, section, key);
      LastValueSnoc(a + head, ev, section, key);
      LastValueSnoc(head, ev, section, key);
    }
  }

  lemma {:induction false} LastOfNoTop(events: seq<Event>, key: string)
    requires NoTop(events, key)
    ensures LastValue(events, None, key) == None
    decreases |events|
  {
    if events != [] {
      assert !IsTop(events[|events| - 1], key);
      LastOfNoTop(events[..|events| - 1], key);
    }
  }

  lemma {:induction false} LastOfTopEvents(events: seq<Event>, key: string, val: string, where: Option<string>,
                                           k: string)
    ensures LastValue(TopEvents(events, key, val), where, k) ==
            if where == None && k == key && !NoTop(events, key) then Some(val) else LastValue(events, where, k)
    decreases |events|
  {
    hide LastValue, NoTop, TopEvents;
    if events == [] {
      NoTopEvents(key, val, where, k);
    } else {
      var head, ev := events[..|events| - 1], events[|events| - 1];
      assert events == head + [ev];
      LastOfTopEvents(head, key, val, where, k);
      TopEventsConcat(head, [ev], key, val);
      NoTopConcat(head, [ev], key);
      OneTopEvent(ev, key, val);
      LastValueSnoc(head, ev, where, k);
      LastValueSnoc(TopEvents(head, key, val), if IsTop(ev, key) then ev.(val := val) else ev, where, k);
    }
  }

  lemma NoTopEvents(key: string, val: string, where: Option<string>, k: string)
    ensures TopEvents([], key, val) == [] && NoTop([], key) && LastValue([], where, k) == None
  {
  }

  lemma OneTopEvent(ev: Event, key: string, val: string)
    ensures TopEvents([ev], key, val) == [if IsTop(ev, key) then ev.(val := val) else ev]
    ensures NoTop([ev], key) <==> !IsTop(ev, key)
  {
    assert [ev][0] == ev;
  }

  /** The values by section and key after a top-level save: the key before the first header is set, all else is kept. */
  lemma TopEditedValues(key: string, val: string, before: seq<Event>, after: seq<Event>, where: Option<string>,
                        k: string)
    requires TopEdited(key, val, before, after)
    ensures LastValue(after, where, k) == if where == None && k == key then Some(val) else LastValue(before, where, k)
  {
    if NoTop(before, key) {
      var at :| 0 <= at <= |before| && after == before[..at] + [Binding(None, key, val)] + before[at..];
      var a, b, ev := before[..at], before[at..], Binding(None, key, val);
      assert a + b == before;
      NoTopConcat(a, b, key);
      LastOfNoTop(b, key);
      LastValueConcat(a, b, where, k);
      LastValueConcat(a + [ev], b, where, k);
      LastValueSnoc(a, ev, where, k);
    } else {
      LastOfTopEvents(before, key, val, where, k);
    }
  }
}
