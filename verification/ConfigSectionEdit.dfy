/** What editSection promises, in terms of the events Load reads from its output. */
module ConfigSectionEdit {
  import opened Common
  import opened ConfigText
  import opened ConfigCodec
  import opened ConfigEditor

  /** Nothing in key ends it early, and its new line is neither a comment nor a header. */
  predicate Bindable(key: string, value: string) {
    && '=' !in key && Trimmed(key) && !HasPrefix(key, '#')
    && !IsHeader(NewLine(key, value))
  }

  ghost predicate PlainEdit(e: Edit) {
    forall key :: key in e.values ==> Bindable(key, e.values[key])
  }

  // ---- How Load reads the lines the editor writes ----

  lemma ReadHeader(line: string)
    requires IsHeader(line)
    ensures ReadLine(line).Header? && CanonicalSection(ReadLine(line).name) == HeaderName(line)
  {
  }

  lemma ReadKeyLine(line: string)
    requires !IsHeader(line)
    ensures match KeyPart(line)
            case None => ReadLine(line) == Other
            case Some(before) => ReadLine(line) == KeyLine(TrimSpace(before), TrimSpace(Cut(line).value.1))
  {
    var t := TrimSpace(line);
    hide SectionHeader, TrimSpace, IsSpace;
    match Cut(line)
    case None =>
      NoEqualsInTrim(line);
    case Some((before, after)) =>
      TrimKeyLine(before, after);
      NoEqualsInTrimLeft(before);
      CutAt(TrimLeft(before), TrimRight(after));
  }

  lemma KeyPartPlain(line: string)
    requires KeyPart(line).Some?
    ensures '=' !in KeyPart(line).value
  {
    hide TrimSpace;
  }

  lemma NoEqualsInTrimLeft(before: string)
    requires '=' !in before
    ensures '=' !in TrimLeft(before)
  {
  }

  lemma NoEqualsInTrim(line: string)
    requires '=' !in line
    ensures '=' !in TrimSpace(line)
  {
    TrimSpaceEnds(line);
  }

  /** A trimmed text starts as its left-trimmed text does. */
  lemma TrimStart(s: string)
    ensures TrimLeft(s) != "" ==> TrimSpace(s) != "" && TrimSpace(s)[0] == TrimLeft(s)[0]
  {
    var t := TrimLeft(s);
    if t != "" {
      assert t == [t[0]] + t[1..];
      TrimRightTo([t[0]], t[1..]);
    }
  }

  lemma TrimTrailingSpace(s: string)
    ensures TrimSpace(s + " ") == TrimSpace(s)
  {
    TrimsCommute(s + " ");
    TrimsCommute(s);
    assert (s + " ")[..|s|] == s;
  }

  lemma TrimLeadingSpace(s: string)
    ensures TrimSpace(" " + s) == TrimSpace(s)
  {
    assert (" " + s)[1..] == s;
  }

  /** Load reads key and value back from a line the editor wrote, unless the line reads as a header. */
  lemma ReadRewrite(before: string, value: string)
    requires '=' !in before && Bindable(TrimSpace(before), value)
    ensures var line := Rewrite(before, value);
            !IsHeader(line) && ReadLine(line) == KeyLine(TrimSpace(before), TrimSpace(value))
            && KeyPart(line) == Some(Widen(before))
  {
    var line := Rewrite(before, value);
    CutRewrite(before, value);
    WidenKeepsKey(before);
    TrimLeadingSpace(value);
    SameHeader(before, value);
    NoComment(before, value);
    hide TrimSpace, TrimLeft, TrimRight, Rewrite, Widen, Cut, ReadLine, IsHeader, NewLine;
    ReadKeyLine(line);
  }

  /** A line the editor wrote reads back exactly if its key can be bound. */
  lemma ReadsBackExactly(before: string, value: string)
    requires '=' !in before
    ensures ReadLine(Rewrite(before, value)) == KeyLine(TrimSpace(before), TrimSpace(value)) <==>
            Bindable(TrimSpace(before), value)
  {
    var key, line := TrimSpace(before), Rewrite(before, value);
    TrimSpaceEnds(before);
    assert Trimmed(key) && '=' !in key;
    hide TrimSpace, Trimmed;
    if Bindable(key, value) {
      hide Rewrite, ReadLine, IsHeader, NewLine;
      ReadRewrite(before, value);
    } else if HasPrefix(key, '#') {
      CommentStays(before, value);
      hide Rewrite, SectionHeader;
    } else {
      SameHeader(before, value);
      hide Rewrite, ReadLine, IsHeader, NewLine;
      ReadHeader(line);
    }
  }

  lemma CommentStays(before: string, value: string)
    requires '=' !in before && HasPrefix(TrimSpace(before), '#')
    ensures HasPrefix(TrimSpace(Rewrite(before, value)), '#')
  {
    var wide := Widen(before);
    WidenKeepsKey(before);
    TrimStart(wide);
    TrimKeyLine(wide, " " + value);
    EmptyTrim(wide);
    hide TrimSpace, TrimLeft, TrimRight, Widen;
  }

  lemma EmptyTrim(s: string)
    ensures TrimLeft(s) == "" ==> TrimSpace(s) == ""
  {
  }

  lemma CutRewrite(before: string, value: string)
    requires '=' !in before
    ensures Cut(Rewrite(before, value)) == Some((Widen(before), " " + value))
  {
    WidenKeepsKey(before);
    CutAt(Widen(before), " " + value);
  }

  lemma NoComment(before: string, value: string)
    requires '=' !in before && !HasPrefix(TrimSpace(before), '#')
    ensures !HasPrefix(TrimSpace(Rewrite(before, value)), '#')
  {
    var wide := Widen(before);
    WidenKeepsKey(before);
    TrimStart(wide);
    TrimKeyLine(wide, " " + value);
    hide TrimSpace, TrimLeft, TrimRight, Widen;
  }

  /** Whether a rewritten line is a header does not depend on the white space around its key. */
  lemma SameHeader(before: string, value: string)
    requires '=' !in before
    ensures IsHeader(Rewrite(before, value)) <==> IsHeader(NewLine(TrimSpace(before), value))
  {
    var key, wide, after := TrimSpace(before), Widen(before), " " + value;
    WidenKeepsKey(before);
    TrimSpaceEnds(before);
    TrimTrailingSpace(key);
    hide TrimSpace, Widen, IsHeader;
    HeaderIsOpened(wide, after);
    HeaderIsOpened(key + " ", after);
  }

  lemma HeaderIsOpened(before: string, after: string)
    ensures var key, tail := TrimSpace(before), "=" + TrimRight(after);
            IsHeader(before + "=" + after) <==> key != "" && OpensHeader(key, tail)
  {
    var key, tail := TrimSpace(before), "=" + TrimRight(after);
    TrimKeyLine(before, after);
    TrimSpaceEnds(before);
    var w := KeyAndSpace(before);
    hide TrimSpace, TrimRight, TrimLeft, OpensHeader;
    assert TrimLeft(before) + "=" + TrimRight(after) == TrimLeft(before) + tail;
    if key != "" {
      hide SectionHeader;
      HeaderBehindKey(key, w, tail);
    } else {
      assert TrimSpace(before + "=" + after)[0] == '=';
    }
  }

  /** The left-trimmed text is its trim and white space, or empty. */
  lemma KeyAndSpace(s: string) returns (w: string)
    ensures TrimLeft(s) == TrimSpace(s) + w && AllSpace(w)
    ensures TrimSpace(s) == "" ==> w == ""
  {
    TrimStart(s);
    w := RightRest(TrimLeft(s));
  }

  ghost predicate AllSpace(w: string) {
    forall k :: 0 <= k < |w| ==> IsSpace(w[k])
  }

  lemma {:induction false} RightRest(s: string) returns (w: string)
    ensures s == TrimRight(s) + w && AllSpace(w)
    decreases |s|
  {
    hide IsSpace;
    w := "";
    if s != "" && IsSpace(s[|s| - 1]) {
      var head := RightRest(s[..|s| - 1]);
      w := head + [s[|s| - 1]];
    }
  }

  /** The bracket test of SectionHeader on a key line, without the white space between key and '='. */
  predicate OpensHeader(key: string, tail: string)
    requires key != "" && tail != ""
  {
    var inKey, inTail := IndexOf(key, ']'), IndexOf(tail, ']');
    && key[0] == '['
    && (|| tail[|tail| - 1] == ']'
        || if inKey >= 0 then key[inKey + 1..] != "" && AfterClose(key[inKey + 1..])
           else inTail >= 0 && AfterClose(tail[inTail + 1..]))
  }

  lemma HeaderBehindKey(key: string, w: string, tail: string)
    requires key != "" && Trimmed(key) && AllSpace(w) && tail != "" && tail[0] == '='
    ensures SectionHeader(key + w + tail).Some? <==> OpensHeader(key, tail)
  {
    var line, inKey, inTail := key + w + tail, IndexOf(key, ']'), IndexOf(tail, ']');
    assert line[0] == key[0] && line[|line| - 1] == tail[|tail| - 1];
    if inKey >= 0 {
      BracketInKey(key, w, tail);
    } else {
      BracketInTail(key, w, tail);
    }
    hide IndexOf, AfterClose, IsSpace;
  }

  lemma BracketInKey(key: string, w: string, tail: string)
    requires ']' in key && Trimmed(key) && AllSpace(w) && tail != "" && tail[0] == '='
    ensures var i := IndexOf(key, ']');
            && IndexOf(key + w + tail, ']') == i
            && (AfterClose((key + w + tail)[i + 1..]) <==> key[i + 1..] != "" && AfterClose(key[i + 1..]))
  {
    var line, i := key + w + tail, IndexOf(key, ']');
    Behind(key, w, tail, i + 1);
    hide AfterClose, IsSpace;
    assert line[..i] == key[..i] && line[i] == ']';
    FirstAt(line, ']', i);
    if key[i + 1..] == "" {
      assert [] + (w + tail) == w + tail;
      NoCloseInSpace(w, tail);
    } else {
      CloseInFront(key[i + 1..], w + tail);
    }
  }

  lemma NoBracketNoHeader(key: string, value: string)
    requires Trimmed(key) && !HasPrefix(key, '[')
    ensures !IsHeader(NewLine(key, value))
  {
    TrimmedAlready(key);
    TrimTrailingSpace(key);
    hide TrimSpace, IsHeader;
    HeaderIsOpened(key + " ", " " + value);
  }

  lemma Behind(a: string, b: string, c: string, i: nat)
    requires i <= |a|
    ensures (a + b + c)[i..] == a[i..] + (b + c)
  {
  }

  lemma BracketInTail(key: string, w: string, tail: string)
    requires ']' !in key && AllSpace(w)
    ensures var i, j := IndexOf(key + w + tail, ']'), IndexOf(tail, ']');
            if j < 0 then i < 0 else i == |key + w| + j && (key + w + tail)[i + 1..] == tail[j + 1..]
  {
    var line, j := key + w + tail, IndexOf(tail, ']');
    if j >= 0 {
      assert line[..|key + w| + j] == key + w + tail[..j];
      FirstAt(line, ']', |key + w| + j);
    }
  }

  lemma {:induction false} NoCloseInSpace(w: string, tail: string)
    requires AllSpace(w) && tail != "" && tail[0] == '='
    ensures !AfterClose(w + tail)
    decreases |w|
  {
    if w == "" {
      assert w + tail == tail;
    } else {
      assert IsSpace(w[0]) && (w + tail)[0] == w[0] && (w + tail)[1..] == w[1..] + tail;
      NoCloseInSpace(w[1..], tail);
    }
  }

  lemma {:induction false} CloseInFront(x: string, y: string)
    requires x != "" && !IsSpace(x[|x| - 1])
    ensures AfterClose(x + y) <==> AfterClose(x)
  {
    if x[0] == ' ' || x[0] == '\t' {
      assert (x + y)[1..] == x[1..] + y;
      CloseInFront(x[1..], y);
    } else {
      assert (x + y)[0] == x[0];
    }
  }

  lemma WidenKeepsKey(before: string)
    requires '=' !in before
    ensures '=' !in Widen(before) && TrimSpace(Widen(before)) == TrimSpace(before)
  {
    TrimTrailingSpace(before);
  }

  // ---- The edit on events ----

  predicate Touched(e: Edit, ev: Event) {
    ev.Binding? && ev.section == Some(e.target) && (ev.key in e.values || ev.key in e.owned)
  }

  function EditEvent(e: Edit, ev: Event): seq<Event> {
    if !Touched(e, ev) then [ev]
    else if ev.key in e.values then [ev.(val := TrimSpace(e.values[ev.key]))]
    else []
  }

  function EditEvents(e: Edit, events: seq<Event>): seq<Event> {
    if events == [] then [] else EditEvent(e, events[0]) + EditEvents(e, events[1..])
  }

  /** The events the edit must not change. */
  function Untouched(e: Edit, events: seq<Event>): seq<Event> {
    if events == [] then [] else (if Touched(e, events[0]) then [] else [events[0]]) + Untouched(e, events[1..])
  }

  /** Every binding of an edited key holds the new value, and no removed key is left. */
  ghost predicate AllSet(e: Edit, events: seq<Event>) {
    forall k :: 0 <= k < |events| ==> AsSet(e, events[k])
  }

  predicate AsSet(e: Edit, ev: Event) {
    Touched(e, ev) ==> ev.key in e.values && ev.val == TrimSpace(e.values[ev.key])
  }

  /** The keys of the edit that events bind in its section. */
  function Bound(e: Edit, events: seq<Event>): set<string> {
    if events == [] then {}
    else (if Touched(e, events[0]) && events[0].key in e.values then {events[0].key} else {}) + Bound(e, events[1..])
  }

  lemma {:induction false} UntouchedConcat(e: Edit, a: seq<Event>, b: seq<Event>)
    ensures Untouched(e, a + b) == Untouched(e, a) + Untouched(e, b)
    ensures Bound(e, a + b) == Bound(e, a) + Bound(e, b)
  {
    if a == [] {
      assert a + b == b;
    } else {
      assert (a + b)[1..] == a[1..] + b;
      UntouchedConcat(e, a[1..], b);
    }
  }

  lemma {:induction false} EditEventsKeep(e: Edit, events: seq<Event>)
    ensures Untouched(e, EditEvents(e, events)) == Untouched(e, events)
    ensures Bound(e, EditEvents(e, events)) == Bound(e, events)
    ensures AllSet(e, EditEvents(e, events))
  {
    if events != [] {
      EditEventsKeep(e, events[1..]);
      UntouchedConcat(e, EditEvent(e, events[0]), EditEvents(e, events[1..]));
      OneEvent(e, events[0]);
    }
  }

  lemma OneEvent(e: Edit, ev: Event)
    ensures Untouched(e, EditEvent(e, ev)) == Untouched(e, [ev])
    ensures Bound(e, EditEvent(e, ev)) == Bound(e, [ev])
    ensures AllSet(e, EditEvent(e, ev))
  {
  }

  // ---- The edit on lines ----

  function LineEvents(line: Line, section: Option<string>): seq<Event> {
    match line
    case Other => []
    case Header(name) => [Section(CanonicalSection(name))]
    case KeyLine(key, val) => [Binding(section, key, val)]
  }

  /** Reading a file that is one line. */
  lemma ReadOne(line: string, section: Option<string>)
    ensures Read([line], section) == LineEvents(ReadLine(line), section)
    ensures SectionAfter([line], section)
         == if ReadLine(line).Header? then Some(CanonicalSection(ReadLine(line).name)) else section
  {
    assert [line][1..] == [];
  }

  /** The edited line reads as the edited event, and both leave the reader in the same section. */
  ghost predicate LineAgrees(e: Edit, line: string, section: Option<string>) {
    var inSection := section == Some(e.target);
    var edited := EditLine(e, line, inSection);
    && Read(edited, section) == EditEvents(e, Read([line], section))
    && SectionAfter(edited, section) == SectionAfter([line], section)
    && (InSection(e, line, inSection) <==> SectionAfter([line], section) == Some(e.target))
    && WrittenKey(e, line, inSection) == Bound(e, Read([line], section))
  }

  lemma HeaderLineAgrees(e: Edit, line: string, section: Option<string>)
    requires IsHeader(line)
    ensures LineAgrees(e, line, section)
  {
    ReadHeader(line);
    ReadOne(line, section);
    SectionEvent(e, HeaderName(line));
    hide IsHeader, ReadLine, Read, SectionAfter, HeaderName, EditEvents, Bound;
  }

  lemma SectionEvent(e: Edit, name: string)
    ensures EditEvents(e, [Section(name)]) == [Section(name)] && Bound(e, [Section(name)]) == {}
  {
    assert [Section(name)][1..] == [];
  }

  lemma EventOf(e: Edit, section: Option<string>, key: string, val: string)
    ensures var ev := Binding(section, key, val);
            EditEvents(e, [ev]) == EditEvent(e, ev)
            && Bound(e, [ev]) == if Touched(e, ev) && key in e.values then {key} else {}
  {
    assert [Binding(section, key, val)][1..] == [];
  }

  lemma PlainLineAgrees(e: Edit, line: string, section: Option<string>)
    requires PlainEdit(e) && !IsHeader(line)
    ensures LineAgrees(e, line, section)
  {
    ReadKeyLine(line);
    ReadOne(line, section);
    if KeyPart(line).Some? {
      var before := KeyPart(line).value;
      var key, after := TrimSpace(before), TrimSpace(Cut(line).value.1);
      assert '=' !in before;
      EventOf(e, section, key, after);
      if section == Some(e.target) && key in e.values {
        ReadRewrite(before, e.values[key]);
        ReadOne(Rewrite(before, e.values[key]), section);
      }
      hide IsHeader, ReadLine, Rewrite, Bindable, KeyPart, TrimSpace, Bound, EditEvents;
      RewrittenLineAgrees(e, line, section, before, after);
    }
  }

  lemma RewrittenLineAgrees(e: Edit, line: string, section: Option<string>, before: string, after: string)
    requires !IsHeader(line) && KeyPart(line) == Some(before)
    requires Read([line], section) == [Binding(section, TrimSpace(before), after)]
    requires SectionAfter([line], section) == section
    requires section == Some(e.target) && TrimSpace(before) in e.values ==>
               var edited := Rewrite(before, e.values[TrimSpace(before)]);
               && Read([edited], section)
                  == [Binding(section, TrimSpace(before), TrimSpace(e.values[TrimSpace(before)]))]
               && SectionAfter([edited], section) == section
    ensures LineAgrees(e, line, section)
  {
    var key := TrimSpace(before);
    EventOf(e, section, key, after);
    hide IsHeader, KeyPart, TrimSpace, Rewrite, Bound, EditEvents;
  }

  lemma ReadCons(line: string, rest: seq<string>, section: Option<string>)
    ensures Read([line] + rest, section) == Read([line], section) + Read(rest, SectionAfter([line], section))
    ensures SectionAfter([line] + rest, section) == SectionAfter(rest, SectionAfter([line], section))
  {
    ReadConcat([line], rest, section);
  }

  /** Reading the edited lines gives the edited events. */
  ghost predicate Agrees(e: Edit, lines: seq<string>, section: Option<string>) {
    var inSection := section == Some(e.target);
    var edited := EditLines(e, lines, inSection);
    && Read(edited, section) == EditEvents(e, Read(lines, section))
    && SectionAfter(edited, section) == SectionAfter(lines, section)
    && (InSectionAfter(e, lines, inSection) <==> SectionAfter(lines, section) == Some(e.target))
    && Written(e, lines, inSection) == Bound(e, Read(lines, section))
  }

  lemma {:induction false} EditLinesRead(e: Edit, lines: seq<string>, section: Option<string>)
    requires PlainEdit(e)
    ensures Agrees(e, lines, section)
  {
    hide PlainEdit, Agrees, LineAgrees, IsHeader, SectionAfter;
    if lines == [] {
      AgreesNil(e, section);
    } else {
      var line, rest := lines[0], lines[1..];
      var next := SectionAfter([line], section);
      if IsHeader(line) {
        HeaderLineAgrees(e, line, section);
      } else {
        PlainLineAgrees(e, line, section);
      }
      EditLinesRead(e, rest, next);
      assert lines == [line] + rest;
      AgreesCons(e, line, rest, section);
    }
  }

  lemma AgreesNil(e: Edit, section: Option<string>)
    ensures Agrees(e, [], section)
  {
  }

  lemma AgreesCons(e: Edit, line: string, rest: seq<string>, section: Option<string>)
    requires LineAgrees(e, line, section) && Agrees(e, rest, SectionAfter([line], section))
    ensures Agrees(e, [line] + rest, section)
  {
    var inSection, next := section == Some(e.target), SectionAfter([line], section);
    var edited, more := EditLine(e, line, inSection), EditLines(e, rest, next == Some(e.target));
    assert ([line] + rest)[1..] == rest;
    assert EditLines(e, [line] + rest, inSection) == edited + more;
    assert Written(e, [line] + rest, inSection)
           == WrittenKey(e, line, inSection) + Written(e, rest, next == Some(e.target));
    assert InSectionAfter(e, [line] + rest, inSection) == InSectionAfter(e, rest, next == Some(e.target));
    ReadCons(line, rest, section);
    ReadConcat(edited, more, section);
    EditEventsConcat(e, Read([line], section), Read(rest, next));
    UntouchedConcat(e, Read([line], section), Read(rest, next));
  }

  lemma {:induction false} EditEventsConcat(e: Edit, a: seq<Event>, b: seq<Event>)
    ensures EditEvents(e, a + b) == EditEvents(e, a) + EditEvents(e, b)
  {
    if a == [] {
      assert a + b == b;
    } else {
      assert (a + b)[1..] == a[1..] + b;
      EditEventsConcat(e, a[1..], b);
    }
  }
}
