/** editTopLevel, the editor of the keys before the first section header. */
module ConfigTopLevel {
  import opened Common
  import opened ConfigText
  import opened ConfigEditor
  import opened ConfigSectionEdit
  import opened ConfigSectionTheorem

  // ---- The edit ----

  function LineKey(line: string): Option<string> {
    match ReadLine(line)
    case KeyLine(key, _) => Some(key)
    case _ => None
  }

  predicate HeaderLine(line: string) {
    ReadLine(line).Header?
  }

  /** The index of the first header at or after i, or the end. */
  function FirstHeader(lines: seq<string>, i: nat): (r: nat)
    requires i <= |lines|
    ensures i <= r <= |lines|
    decreases |lines| - i
  {
    if i == |lines| || HeaderLine(lines[i]) then i else FirstHeader(lines, i + 1)
  }

  /** The lines before the first header. */
  function TopPart(lines: seq<string>): (r: seq<string>)
    ensures r <= lines
  {
    lines[..FirstHeader(lines, 0)]
  }

  lemma {:induction false} FirstHeaderIs(lines: seq<string>, i: nat)
    requires i <= |lines|
    ensures var r := FirstHeader(lines, i);
            (r < |lines| ==> HeaderLine(lines[r])) && forall k :: i <= k < r ==> !HeaderLine(lines[k])
    decreases |lines| - i
  {
    hide HeaderLine;
    if i < |lines| && !HeaderLine(lines[i]) {
      FirstHeaderIs(lines, i + 1);
    }
  }

  lemma TopPartIs(lines: seq<string>)
    ensures forall k :: 0 <= k < |TopPart(lines)| ==> !HeaderLine(TopPart(lines)[k])
    ensures |TopPart(lines)| < |lines| ==> HeaderLine(lines[|TopPart(lines)|])
  {
    hide HeaderLine;
    FirstHeaderIs(lines, 0);
  }

  /** lines with every line that binds key replaced. */
  function Replaced(lines: seq<string>, key: string, line: string): (r: seq<string>)
    ensures |r| == |lines|
  {
    if lines == [] then []
    else [if LineKey(lines[0]) == Some(key) then line else lines[0]] + Replaced(lines[1..], key, line)
  }

  predicate Binds(lines: seq<string>, key: string) {
    exists k :: 0 <= k < |lines| && LineKey(lines[k]) == Some(key)
  }

  /** The end of lines without the blank and comment lines that close it. */
  function BeforeComments(lines: seq<string>): (n: nat)
    ensures n <= |lines|
  {
    if lines == [] then 0
    else
      var t := TrimSpace(lines[|lines| - 1]);
      if t != "" && !HasPrefix(t, '#') then |lines| else BeforeComments(lines[..|lines| - 1])
  }

  function LastKeyLine(lines: seq<string>): (n: int)
    ensures -1 <= n < |lines|
  {
    if lines == [] then -1
    else if LineKey(lines[|lines| - 1]).Some? then |lines| - 1
    else LastKeyLine(lines[..|lines| - 1])
  }

  /**
   Where a new key goes: behind the last top-level key, else above what introduces the first header, else at the end.
   */
  function InsertAt(lines: seq<string>): (n: nat)
    requires lines != []
    ensures n <= |TopPart(lines)|
  {
    var top := TopPart(lines);
    if |top| < |lines| then
      if LastKeyLine(top) >= 0 then LastKeyLine(top) + 1 else BeforeComments(top)
    else if lines[|lines| - 1] == "" then |lines| - 1
    else |lines|
  }

  function EndWithBlank(lines: seq<string>): seq<string>
    requires lines != []
  {
    if lines[|lines| - 1] != "" then lines + [""] else lines
  }

  function EditTopLines(lines: seq<string>, key: string, line: string): seq<string>
    requires lines != []
  {
    var top := TopPart(lines);
    var edited := Replaced(top, key, line) + lines[|top|..];
    if Binds(top, key) then EndWithBlank(edited)
    else
      var at := InsertAt(lines);
      EndWithBlank(edited[..at] + [line] + edited[at..])
  }

  /** The text editTopLevel returns. */
  function EditTopLevel(data: string, key: string, line: string): string {
    Join(EditTopLines(Split(data), key, line))
  }

  /** The scan up to the first header: it replaces the key's lines in place and notes where things stand. */
  method ScanTop(original: seq<string>, key: string, line: string)
    returns (lines: seq<string>, found: bool, lastKey: int, header: int)
    ensures var top := TopPart(original);
            && lines == Replaced(top, key, line) + original[|top|..]
            && found == Binds(top, key)
            && lastKey == LastKeyLine(top)
            && header == if |top| < |original| then |top| else -1
  {
    lines, found, lastKey, header := original, false, -1, -1;
    hide Replaced, LastKeyLine, Binds, TopPart, LineKey, HeaderLine;
    NothingScanned(key, line);
    assert original[..0] == [];
    var i := 0;
    while i < |lines|
      invariant 0 <= i <= |lines| == |original| && header == -1
      invariant lines[..i] == Replaced(original[..i], key, line) && lines[i..] == original[i..]
      invariant lastKey == LastKeyLine(original[..i])
      invariant found == Binds(original[..i], key)
      invariant forall k :: 0 <= k < i ==> !HeaderLine(original[k])
    {
      var l := lines[i];
      assert l == original[i..][0] == original[i];
      if HeaderLine(l) {
        header := i;
        break;
      }
      ReplacedSnoc(original[..i], l, key, line);
      LastKeyLineSnoc(original[..i], l);
      BindsSnoc(original[..i], l, key);
      assert original[..i] + [l] == original[..i + 1];
      ghost var before := lines;
      if LineKey(l).Some? {
        lastKey := i;
        if LineKey(l).value == key {
          lines := lines[i := line];
          found := true;
        }
      }
      assert lines[..i + 1] == before[..i] + [lines[i]];
      assert lines[i + 1..] == before[i..][1..];
      i := i + 1;
    }
    TopIs(original, i);
    assert lines == lines[..i] + lines[i..];
  }

  lemma TopIs(lines: seq<string>, i: nat)
    requires i <= |lines| && forall k :: 0 <= k < i ==> !HeaderLine(lines[k])
    requires i < |lines| ==> HeaderLine(lines[i])
    ensures TopPart(lines) == lines[..i]
  {
    hide HeaderLine;
    FirstHeaderIs(lines, 0);
  }

  lemma NothingScanned(key: string, line: string)
    ensures Replaced([], key, line) == [] && LastKeyLine([]) == -1 && !Binds([], key)
  {
  }

  /** The loop that moves the insertion point above the comment and blank lines over a header. */
  method AboveComments(lines: seq<string>, header: nat) returns (at: nat)
    requires header <= |lines|
    ensures at == BeforeComments(lines[..header])
  {
    hide TrimSpace;
    at := header;
    while at > 0 && (TrimSpace(lines[at - 1]) == "" || HasPrefix(TrimSpace(lines[at - 1]), '#'))
      invariant 0 <= at <= header
      invariant BeforeComments(lines[..header]) == BeforeComments(lines[..at])
    {
      assert lines[..at][..at - 1] == lines[..at - 1];
      at := at - 1;
    }
  }

  method EditTopLevelText(data: string, key: string, line: string) returns (r: string)
    ensures r == EditTopLevel(data, key, line)
  {
    hide Replaced, LastKeyLine, Binds, TopPart, InsertAt, Split, Join;
    var original := Split(data);
    var lines, found, lastKey, header := ScanTop(original, key, line);
    if !found {
      var at := NewKeyIndex(original, lastKey, header);
      lines := lines[..at] + [line] + lines[at..];
    }
    if lines[|lines| - 1] != "" {
      lines := lines + [""];
    }
    r := Join(lines);
  }

  /** The index at which slices.Insert puts a key that has no line yet. */
  method NewKeyIndex(lines: seq<string>, lastKey: int, header: int) returns (at: nat)
    requires lines != [] && lastKey == LastKeyLine(TopPart(lines))
    requires header == if |TopPart(lines)| < |lines| then |TopPart(lines)| else -1
    ensures at == InsertAt(lines)
  {
    hide TopPart, LastKeyLine, BeforeComments;
    if header >= 0 && lastKey >= 0 {
      at := lastKey + 1;
    } else if header >= 0 {
      assert lines[..header] == TopPart(lines);
      at := AboveComments(lines, header);
    } else {
      at := |lines|;
      if lines[at - 1] == "" {
        at := at - 1;
      }
    }
  }

  lemma {:induction false} ReplacedSnoc(lines: seq<string>, l: string, key: string, line: string)
    ensures Replaced(lines + [l], key, line)
            == Replaced(lines, key, line) + [if LineKey(l) == Some(key) then line else l]
    decreases |lines|
  {
    hide LineKey;
    var longer := lines + [l];
    if lines == [] {
      assert longer == [l] && longer[1..] == [];
    } else {
      assert longer[0] == lines[0] && longer[1..] == lines[1..] + [l];
      ReplacedSnoc(lines[1..], l, key, line);
    }
  }

  lemma LastKeyLineSnoc(lines: seq<string>, l: string)
    ensures LastKeyLine(lines + [l]) == if LineKey(l).Some? then |lines| else LastKeyLine(lines)
  {
    hide LineKey;
    assert (lines + [l])[..|lines|] == lines;
  }

  lemma BindsSnoc(lines: seq<string>, l: string, key: string)
    ensures Binds(lines + [l], key) <==> Binds(lines, key) || LineKey(l) == Some(key)
  {
    hide LineKey;
    var longer := lines + [l];
    assert longer[|lines|] == l;
    if Binds(lines, key) {
      var k :| 0 <= k < |lines| && LineKey(lines[k]) == Some(key);
      assert longer[k] == lines[k];
    }
  }

  lemma {:induction false} NoKeyNoReplacement(lines: seq<string>, key: string, line: string)
    ensures !Binds(lines, key) ==> Replaced(lines, key, line) == lines
  {
    hide LineKey;
    if lines != [] && !Binds(lines, key) {
      forall k | 0 <= k < |lines| - 1 ensures LineKey(lines[1..][k]) != Some(key) {
        assert lines[1..][k] == lines[k + 1];
      }
      NoKeyNoReplacement(lines[1..], key, line);
    }
  }

  // ---- What Load reads from it ----

  predicate IsTop(ev: Event, key: string) {
    ev.Binding? && ev.section == None && ev.key == key
  }

  function TopEvents(events: seq<Event>, key: string, val: string): (r: seq<Event>)
    ensures |r| == |events|
    ensures forall k :: 0 <= k < |r| ==> r[k] == if IsTop(events[k], key) then events[k].(val := val) else events[k]
  {
    seq(|events|, k requires 0 <= k < |events| => if IsTop(events[k], key) then events[k].(val := val) else events[k])
  }

  ghost predicate NoTop(events: seq<Event>, key: string) {
    forall k :: 0 <= k < |events| ==> !IsTop(events[k], key)
  }

  lemma {:induction false} ReplacedReads(top: seq<string>, key: string, line: string, val: string)
    requires ReadLine(line) == KeyLine(key, val) && forall k :: 0 <= k < |top| ==> !HeaderLine(top[k])
    ensures Read(Replaced(top, key, line), None) == TopEvents(Read(top, None), key, val)
    ensures SectionAfter(Replaced(top, key, line), None) == None == SectionAfter(top, None)
    ensures Binds(top, key) <==> !NoTop(Read(top, None), key)
  {
    hide ReadLine;
    if top != [] {
      var rest := top[1..];
      ReplacedReads(rest, key, line, val);
      assert !HeaderLine(top[0]);
      BindsCons(top, key);
      match ReadLine(top[0])
      case Other =>
      case KeyLine(k, v) =>
        var tail := Read(rest, None);
        assert Read(top, None) == [Binding(None, k, v)] + tail;
        NoTopCons(Binding(None, k, v), tail, key, val);
    }
  }

  lemma BindsCons(lines: seq<string>, key: string)
    requires lines != []
    ensures Binds(lines, key) <==> LineKey(lines[0]) == Some(key) || Binds(lines[1..], key)
  {
    hide LineKey;
    if Binds(lines[1..], key) {
      var k :| 0 <= k < |lines| - 1 && LineKey(lines[1..][k]) == Some(key);
      assert LineKey(lines[k + 1]) == Some(key);
    }
    if Binds(lines, key) {
      var k :| 0 <= k < |lines| && LineKey(lines[k]) == Some(key);
      if k > 0 {
        assert LineKey(lines[1..][k - 1]) == Some(key);
      }
    }
  }

  lemma NoTopCons(ev: Event, events: seq<Event>, key: string, val: string)
    ensures NoTop([ev] + events, key) <==> !IsTop(ev, key) && NoTop(events, key)
    ensures TopEvents([ev] + events, key, val) == TopEvents([ev], key, val) + TopEvents(events, key, val)
  {
    NoTopConcat([ev], events, key);
    TopEventsConcat([ev], events, key, val);
    assert [ev][0] == ev;
  }

  /** Behind a header no binding is top-level. */
  lemma {:induction false} NoTopInSection(lines: seq<string>, name: string, key: string)
    ensures NoTop(Read(lines, Some(name)), key)
  {
    hide ReadLine;
    if lines != [] {
      match ReadLine(lines[0])
      case Other => NoTopInSection(lines[1..], name, key);
      case Header(n) => NoTopInSection(lines[1..], CanonicalSection(n), key);
      case KeyLine(k, v) => NoTopInSection(lines[1..], name, key);
    }
  }

  lemma NoTopRest(rest: seq<string>, key: string)
    requires rest == [] || HeaderLine(rest[0])
    ensures NoTop(Read(rest, None), key)
  {
    hide ReadLine;
    if rest != [] {
      NoTopInSection(rest[1..], CanonicalSection(ReadLine(rest[0]).name), key);
    }
  }

  lemma TopEventsConcat(a: seq<Event>, b: seq<Event>, key: string, val: string)
    ensures TopEvents(a + b, key, val) == TopEvents(a, key, val) + TopEvents(b, key, val)
    ensures NoTop(b, key) ==> TopEvents(b, key, val) == b
  {
  }

  lemma EndWithBlankReads(lines: seq<string>)
    requires lines != []
    ensures Read(EndWithBlank(lines), None) == Read(lines, None)
  {
    hide Read, SectionAfter, ReadLine, TrimSpace;
    BlankIsBlank();
    ReadConcat(lines, [""], None);
    ReadBlank("", SectionAfter(lines, None));
  }

  lemma BlankIsBlank()
    ensures TrimSpace("") == ""
  {
  }

  lemma {:induction false} NoHeaderSection(lines: seq<string>)
    requires forall k :: 0 <= k < |lines| ==> !HeaderLine(lines[k])
    ensures SectionAfter(lines, None) == None
  {
    hide ReadLine;
    if lines != [] {
      assert !HeaderLine(lines[0]);
      NoHeaderSection(lines[1..]);
    }
  }

  /** The promise of editTopLevel on the events: one top-level key set, everything else as it was. */
  ghost predicate TopEdited(key: string, val: string, before: seq<Event>, after: seq<Event>) {
    if NoTop(before, key) then
      exists at :: 0 <= at <= |before| && after == before[..at] + [Binding(None, key, val)] + before[at..]
    else after == TopEvents(before, key, val)
  }

  lemma EditTopLinesRead(lines: seq<string>, key: string, line: string, val: string)
    requires lines != [] && ReadLine(line) == KeyLine(key, val)
    ensures TopEdited(key, val, Read(lines, None), Read(EditTopLines(lines, key, line), None))
  {
    hide Read, SectionAfter, ReadLine, TopPart, Replaced, Binds, NoTop, TopEvents, InsertAt, EndWithBlank;
    var top := TopPart(lines);
    var rest := lines[|top|..];
    var edited, at := Replaced(top, key, line) + rest, InsertAt(lines);
    assert lines == top + rest;
    ReplacedTop(lines, key, line, val);
    if Binds(top, key) {
      EndWithBlankReads(edited);
    } else {
      NoKeyNoReplacement(top, key, line);
      NewKeyReads(lines, key, line, val);
      EndWithBlankReads(lines[..at] + [line] + lines[at..]);
    }
  }

  lemma ReplacedTop(lines: seq<string>, key: string, line: string, val: string)
    requires ReadLine(line) == KeyLine(key, val)
    ensures var top := TopPart(lines);
            && Read(Replaced(top, key, line) + lines[|top|..], None) == TopEvents(Read(lines, None), key, val)
            && (Binds(top, key) <==> !NoTop(Read(lines, None), key))
  {
    hide Read, SectionAfter, ReadLine, TopPart, Replaced, Binds, NoTop, TopEvents, HeaderLine;
    var top := TopPart(lines);
    var rest := lines[|top|..];
    assert lines == top + rest;
    assert rest != [] ==> rest[0] == lines[|top|];
    TopPartIs(lines);
    ReplacedReads(top, key, line, val);
    NoTopRest(rest, key);
    ReadConcat(top, rest, None);
    ReadConcat(Replaced(top, key, line), rest, None);
    var a, b := Read(top, None), Read(rest, None);
    TopEventsConcat(a, b, key, val);
    NoTopConcat(a, b, key);
  }

  lemma NoTopConcat(a: seq<Event>, b: seq<Event>, key: string)
    ensures NoTop(a + b, key) <==> NoTop(a, key) && NoTop(b, key)
  {
    var ab := a + b;
    assert forall k :: 0 <= k < |a| ==> ab[k] == a[k];
    assert forall k :: 0 <= k < |b| ==> ab[|a| + k] == b[k];
  }

  lemma NewKeyReads(lines: seq<string>, key: string, line: string, val: string)
    requires lines != [] && ReadLine(line) == KeyLine(key, val)
    ensures var at := InsertAt(lines);
            exists n :: 0 <= n <= |Read(lines, None)| &&
              Read(lines[..at] + [line] + lines[at..], None)
              == Read(lines, None)[..n] + [Binding(None, key, val)] + Read(lines, None)[n..]
  {
    ReadOne(line, None);
    hide Read, SectionAfter, ReadLine, TopPart, InsertAt, HeaderLine;
    var at := InsertAt(lines);
    var head, tail := lines[..at], lines[at..];
    TopPartIs(lines);
    assert head == TopPart(lines)[..at];
    NoHeaderSection(head);
    assert head + tail == lines;
    ReadConcat(head, tail, None);
    ReadConcat(head, [line], None);
    ReadConcat(head + [line], tail, None);
    var all, n := Read(lines, None), |Read(head, None)|;
    assert all[..n] == Read(head, None) && all[n..] == Read(tail, None);
  }
}
