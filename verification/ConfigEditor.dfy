/**
 The line editors of config/config.go, judged by the reader in Load.

 The reader turns a file into events: the section headers and the key bindings in order, each binding with the
 section it stands in. `None` is the section before the first header.
 */
module ConfigEditor {
  import opened Common
  import opened ConfigText
  import opened ConfigCodec

  // ---- Reading a file ----

  function LowerChar(c: char): char {
    if 'A' <= c <= 'Z' then ((c as int) + 32) as char else c
  }

  function Lower(s: string): (r: string)
    ensures |r| == |s|
  {
    seq(|s|, k requires 0 <= k < |s| => LowerChar(s[k]))
  }

  function CanonicalSection(name: string): string {
    var lower := Lower(name);
    if lower == "yt" || lower == "youtube" then "ytmusic" else lower
  }

  function SectionHeader(line: string): Option<string> {
    if !HasPrefix(line, '[') then None
    else
      var end := IndexOf(line, ']');
      if end > 0 && AfterClose(line[end + 1..]) then Some(line[1..end])
      else if line[|line| - 1] == ']' then Some(line[1..|line| - 1])
      else None
  }

  datatype Line = Other | Header(name: string) | KeyLine(key: string, val: string)

  /** What Load makes of one line. */
  function ReadLine(line: string): Line {
    var t := TrimSpace(line);
    if t == "" || HasPrefix(t, '#') then Other
    else
      match SectionHeader(t)
      case Some(name) => Header(name)
      case None =>
        match Cut(t)
        case None => Other
        case Some((key, val)) => KeyLine(TrimSpace(key), TrimSpace(val))
  }

  datatype Event = Section(name: string) | Binding(section: Option<string>, key: string, val: string)

  function Read(lines: seq<string>, section: Option<string>): seq<Event> {
    if lines == [] then []
    else
      match ReadLine(lines[0])
      case Other => Read(lines[1..], section)
      case Header(name) => [Section(CanonicalSection(name))] + Read(lines[1..], Some(CanonicalSection(name)))
      case KeyLine(key, val) => [Binding(section, key, val)] + Read(lines[1..], section)
  }

  function SectionAfter(lines: seq<string>, section: Option<string>): Option<string> {
    if lines == [] then section
    else
      match ReadLine(lines[0])
      case Header(name) => SectionAfter(lines[1..], Some(CanonicalSection(name)))
      case _ => SectionAfter(lines[1..], section)
  }

  /** The events of a whole file. */
  function ReadFile(data: string): seq<Event> {
    Read(Split(data), None)
  }

  /** The value Load ends up with for a key: the last one bound. */
  function LastValue(events: seq<Event>, section: Option<string>, key: string): Option<string> {
    if events == [] then None
    else
      var e := events[|events| - 1];
      if e.Binding? && e.section == section && e.key == key then Some(e.val)
      else LastValue(events[..|events| - 1], section, key)
  }

  lemma {:induction false} ReadConcat(a: seq<string>, b: seq<string>, section: Option<string>)
    ensures Read(a + b, section) == Read(a, section) + Read(b, SectionAfter(a, section))
    ensures SectionAfter(a + b, section) == SectionAfter(b, SectionAfter(a, section))
  {
    hide ReadLine;
    if a == [] {
      assert a + b == b;
    } else {
      hide CanonicalSection;
      assert (a + b)[0] == a[0] && (a + b)[1..] == a[1..] + b;
      ReadConcat(a[1..], b, match ReadLine(a[0]) case Header(name) => Some(CanonicalSection(name)) case _ => section);
    }
  }

  // ---- Editing a section ----

  datatype KeyValue = KeyValue(key: string, value: string)

  /** The last value kv holds for each key. */
  function Values(kv: seq<KeyValue>): (m: map<string, string>)
    ensures forall k :: 0 <= k < |kv| ==> kv[k].key in m
    ensures forall key :: key in m ==> exists k :: 0 <= k < |kv| && kv[k] == KeyValue(key, m[key])
  {
    if kv == [] then map[]
    else
      var last := kv[|kv| - 1];
      var m := Values(kv[..|kv| - 1]);
      assert kv == kv[..|kv| - 1] + [last];
      m[last.key := last.value]
  }

  /** A section edit: the section as Load names it, the values to set, the keys to remove otherwise. */
  datatype Edit = Edit(target: string, values: map<string, string>, owned: seq<string>)

  function IsHeader(line: string): bool {
    SectionHeader(TrimSpace(line)).Some?
  }

  function HeaderName(line: string): string
    requires IsHeader(line)
  {
    CanonicalSection(SectionHeader(TrimSpace(line)).value)
  }

  /** The text before the '=' of a key line inside the section being edited. */
  function KeyPart(line: string): Option<string> {
    if HasPrefix(TrimSpace(line), '#') then None
    else
      match Cut(line)
      case None => None
      case Some((before, _)) => Some(before)
  }

  /** before, ending in white space. */
  function Widen(before: string): string {
    if before != "" && (before[|before| - 1] == ' ' || before[|before| - 1] == '\t') then before else before + " "
  }

  function Rewrite(before: string, value: string): string {
    Widen(before) + "=" + (" " + value)
  }

  /** The lines that take the place of one line: none if its key is removed. */
  function EditLine(e: Edit, line: string, inSection: bool): (r: seq<string>)
    ensures |r| <= 1
  {
    if IsHeader(line) || !inSection then [line]
    else
      match KeyPart(line)
      case None => [line]
      case Some(before) =>
        var key := TrimSpace(before);
        if key in e.values then [Rewrite(before, e.values[key])]
        else if key in e.owned then []
        else [line]
  }

  function InSection(e: Edit, line: string, inSection: bool): bool {
    if IsHeader(line) then HeaderName(line) == e.target else inSection
  }

  function EditLines(e: Edit, lines: seq<string>, inSection: bool): seq<string> {
    if lines == [] then []
    else EditLine(e, lines[0], inSection) + EditLines(e, lines[1..], InSection(e, lines[0], inSection))
  }

  function WrittenKey(e: Edit, line: string, inSection: bool): set<string> {
    if IsHeader(line) || !inSection then {}
    else
      match KeyPart(line)
      case None => {}
      case Some(before) => if TrimSpace(before) in e.values then {TrimSpace(before)} else {}
  }

  function Written(e: Edit, lines: seq<string>, inSection: bool): set<string> {
    if lines == [] then {}
    else WrittenKey(e, lines[0], inSection) + Written(e, lines[1..], InSection(e, lines[0], inSection))
  }

  /** Where missing keys go: behind the last kept key, else the header, of the first matching block. */
  datatype Place = Place(block: nat, at: int)

  function PlaceAfter(e: Edit, line: string, inSection: bool, n: nat, p: Place): Place {
    if IsHeader(line) then
      if HeaderName(line) == e.target then Place(p.block + 1, if p.block == 0 then n + 1 else p.at) else p
    else if inSection && KeyPart(line).Some? && EditLine(e, line, inSection) != [] && p.block == 1 then p.(at := n + 1)
    else p
  }

  function PlaceFor(e: Edit, lines: seq<string>, inSection: bool, n: nat, p: Place): Place {
    if lines == [] then p
    else PlaceFor(e, lines[1..], InSection(e, lines[0], inSection), n + |EditLine(e, lines[0], inSection)|,
                  PlaceAfter(e, lines[0], inSection, n, p))
  }

  function NewLine(key: string, value: string): string {
    (key + " ") + "=" + (" " + value)
  }

  /** The lines for the keys of kv not written yet, in order, each key once. */
  function Missing(kv: seq<KeyValue>, values: map<string, string>, written: set<string>): seq<string>
    requires forall k :: 0 <= k < |kv| ==> kv[k].key in values
  {
    if kv == [] then []
    else if kv[0].key in written then Missing(kv[1..], values, written)
    else [NewLine(kv[0].key, values[kv[0].key])] + Missing(kv[1..], values, written + {kv[0].key})
  }

  function DropBlankEnd(lines: seq<string>): (r: seq<string>)
    ensures |r| <= |lines| && r == lines[..|r|]
  {
    if lines != [] && TrimSpace(lines[|lines| - 1]) == "" then DropBlankEnd(lines[..|lines| - 1]) else lines
  }

  function LinesOf(data: string): seq<string> {
    if data == "" then [] else Split(data)
  }

  function Assemble(section: string, out: seq<string>, at: int, missing: seq<string>): seq<string>
    requires at <= |out|
  {
    if missing == [] then out
    else if at >= 0 then out[..at] + missing + out[at..]
    else
      var kept := DropBlankEnd(out);
      kept + (if kept == [] then [] else [""]) + ["[" + section + "]"] + missing + [""]
  }

  lemma {:induction false} PlaceInRange(e: Edit, lines: seq<string>, inSection: bool, n: nat, p: Place)
    requires -1 <= p.at <= n
    ensures -1 <= PlaceFor(e, lines, inSection, n, p).at <= n + |EditLines(e, lines, inSection)|
  {
    hide EditLine, PlaceAfter, InSection;
    if lines != [] {
      var inside, p' := InSection(e, lines[0], inSection), PlaceAfter(e, lines[0], inSection, n, p);
      var n' := n + |EditLine(e, lines[0], inSection)|;
      PlaceAfterInRange(e, lines[0], inSection, n, p);
      PlaceInRange(e, lines[1..], inside, n', p');
      assert PlaceFor(e, lines, inSection, n, p) == PlaceFor(e, lines[1..], inside, n', p');
    }
  }

  lemma PlaceAfterInRange(e: Edit, line: string, inSection: bool, n: nat, p: Place)
    requires -1 <= p.at <= n
    ensures -1 <= PlaceAfter(e, line, inSection, n, p).at <= n + |EditLine(e, line, inSection)|
  {
  }

  function EditOf(section: string, kv: seq<KeyValue>, owned: seq<string>): Edit {
    Edit(CanonicalSection(section), Values(kv), owned)
  }

  function EditSectionLines(lines: seq<string>, section: string, kv: seq<KeyValue>, owned: seq<string>): seq<string> {
    var e := EditOf(section, kv, owned);
    PlaceInRange(e, lines, false, 0, Place(0, -1));
    Assemble(section, EditLines(e, lines, false), PlaceFor(e, lines, false, 0, Place(0, -1)).at,
             Missing(kv, e.values, Written(e, lines, false)))
  }

  /** The text editSection returns. */
  function EditSection(data: string, section: string, kv: seq<KeyValue>, owned: seq<string>): string {
    Join(EditSectionLines(LinesOf(data), section, kv, owned))
  }

  lemma {:induction false} EditLinesConcat(e: Edit, a: seq<string>, b: seq<string>, inSection: bool)
    ensures EditLines(e, a + b, inSection)
            == EditLines(e, a, inSection) + EditLines(e, b, InSectionAfter(e, a, inSection))
  {
    hide EditLine, InSection;
    if a == [] {
      assert a + b == b;
    } else {
      assert (a + b)[1..] == a[1..] + b;
      EditLinesConcat(e, a[1..], b, InSection(e, a[0], inSection));
    }
  }

  function InSectionAfter(e: Edit, lines: seq<string>, inSection: bool): bool {
    if lines == [] then inSection else InSectionAfter(e, lines[1..], InSection(e, lines[0], inSection))
  }

  lemma {:induction false} WrittenConcat(e: Edit, a: seq<string>, b: seq<string>, inSection: bool)
    ensures Written(e, a + b, inSection) == Written(e, a, inSection) + Written(e, b, InSectionAfter(e, a, inSection))
    ensures InSectionAfter(e, a + b, inSection) == InSectionAfter(e, b, InSectionAfter(e, a, inSection))
  {
    hide WrittenKey, InSection;
    if a == [] {
      assert a + b == b;
    } else {
      assert (a + b)[1..] == a[1..] + b;
      WrittenConcat(e, a[1..], b, InSection(e, a[0], inSection));
    }
  }
}
