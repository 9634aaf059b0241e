/** Where new keys go, told by the lines around them. */
module ConfigPlacement {
  import opened Common
  import opened ConfigText
  import opened ConfigEditor
  import opened ConfigSectionEdit
  import opened ConfigSectionResult
  import opened ConfigSectionTheorem
  import opened ConfigTopLevel
  import opened ConfigTopLevelTwice

  // ---- In a section ----

  ghost predicate NoHeaderIn(lines: seq<string>, from: int, end: int)
    requires 0 <= from && end <= |lines|
  {
    forall k :: from <= k < end ==> !IsHeader(lines[k])
  }

  ghost predicate BindsKey(line: string) {
    !IsHeader(line) && KeyPart(line).Some?
  }

  /** The place at is behind the section's first header and its last key, with no key left until the next header. */
  ghost predicate BehindLastKey(e: Edit, lines: seq<string>, header: int, at: int) {
    && 0 <= header < at <= |lines|
    && TargetHeader(e, lines[header]) && (forall k :: 0 <= k < header ==> !TargetHeader(e, lines[k]))
    && NoHeaderIn(lines, header + 1, at)
    && (at - 1 == header || BindsKey(lines[at - 1]))
    && forall k :: at <= k < |lines| && NoHeaderIn(lines, at, k + 1) ==> !BindsKey(lines[k])
  }

  /** The loop so far: the first block not seen, still open, or closed by a header. */
  ghost predicate PlaceSoFar(e: Edit, out: seq<string>, inSection: bool, p: Place, header: int) {
    if p.block == 0 then p.at == -1 && !inSection && forall k :: 0 <= k < |out| ==> !TargetHeader(e, out[k])
    else BehindLastKey(e, out, header, p.at) && (p.block == 1 && inSection <==> NoHeaderIn(out, p.at, |out|))
  }

  lemma KeptLine(e: Edit, line: string, inSection: bool)
    requires PlainEdit(e)
    ensures IsHeader(line) ==> EditLine(e, line, inSection) == [line]
    ensures var kept := EditLine(e, line, inSection);
            !IsHeader(line) && kept != [] ==>
              !IsHeader(kept[0]) && (KeyPart(kept[0]).Some? <==> KeyPart(line).Some?)
  {
    hide IsHeader, TrimSpace, Rewrite, Bindable, ReadLine;
    if !IsHeader(line) && inSection && KeyPart(line).Some? {
      hide KeyPart;
      KeyPartPlain(line);
      var before := KeyPart(line).value;
      if TrimSpace(before) in e.values {
        ReadRewrite(before, e.values[TrimSpace(before)]);
      }
    }
  }

  lemma StepHeader(e: Edit, line: string, out: seq<string>, inSection: bool, p: Place, header: int)
    requires PlaceSoFar(e, out, inSection, p, header) && IsHeader(line)
    ensures var first := p.block == 0 && TargetHeader(e, line);
            PlaceSoFar(e, out + [line], InSection(e, line, inSection), PlaceAfter(e, line, inSection, |out|, p),
                       if first then |out| else header)
  {
    hide IsHeader, HeaderName, KeyPart;
    var longer := out + [line];
    assert forall k :: 0 <= k < |out| ==> longer[k] == out[k];
    if p.block > 0 {
      assert !NoHeaderIn(longer, p.at, |longer|) by {
        assert IsHeader(longer[|out|]);
      }
      forall k | p.at <= k < |longer| && NoHeaderIn(longer, p.at, k + 1) ensures !BindsKey(longer[k]) {
        if k < |out| {
          assert NoHeaderIn(out, p.at, k + 1) by {
            assert forall j :: p.at <= j < k + 1 ==> longer[j] == out[j];
          }
        }
      }
    }
  }

  lemma StepOther(e: Edit, line: string, kept: seq<string>, out: seq<string>, inSection: bool, p: Place, header: int)
    requires PlaceSoFar(e, out, inSection, p, header) && !IsHeader(line) && kept == EditLine(e, line, inSection)
    requires kept != [] ==> !IsHeader(kept[0]) && (KeyPart(kept[0]).Some? <==> KeyPart(line).Some?)
    ensures PlaceSoFar(e, out + kept, inSection, PlaceAfter(e, line, inSection, |out|, p), header)
  {
    hide IsHeader, HeaderName, KeyPart, EditLine;
    if kept == [] {
      assert out + kept == out;
    } else {
      assert kept == [kept[0]];
      OtherKept(e, kept[0], out, inSection, p, header);
    }
  }

  lemma OtherKept(e: Edit, line: string, out: seq<string>, inSection: bool, p: Place, header: int)
    requires PlaceSoFar(e, out, inSection, p, header) && !IsHeader(line)
    ensures var q := if inSection && KeyPart(line).Some? && p.block == 1 then p.(at := |out| + 1) else p;
            PlaceSoFar(e, out + [line], inSection, q, header)
  {
    hide IsHeader, HeaderName, KeyPart;
    var longer, n := out + [line], |out|;
    assert forall k :: 0 <= k < n ==> longer[k] == out[k];
    assert longer[n] == line && !TargetHeader(e, line);
    if p.block > 0 {
      assert NoHeaderIn(out, p.at, n) <==> NoHeaderIn(longer, p.at, n + 1);
      if !(inSection && KeyPart(line).Some? && p.block == 1) {
        forall k | p.at <= k < n + 1 && NoHeaderIn(longer, p.at, k + 1) ensures !BindsKey(longer[k]) {
          assert NoHeaderIn(out, p.at, if k < n then k + 1 else n);
        }
      }
    }
  }

  lemma {:induction false} PlaceFollows(
    e: Edit, lines: seq<string>, out: seq<string>, inSection: bool, p: Place, header: int)
    returns (first: int)
    requires PlainEdit(e) && PlaceSoFar(e, out, inSection, p, header)
    ensures PlaceSoFar(e, out + EditLines(e, lines, inSection), InSectionAfter(e, lines, inSection),
                       PlaceFor(e, lines, inSection, |out|, p), first)
    decreases |lines|
  {
    hide PlainEdit, EditLine, InSection, PlaceAfter, IsHeader, PlaceSoFar;
    if lines == [] {
      first := header;
      assert out + [] == out;
    } else {
      var line, rest := lines[0], lines[1..];
      var kept, inside := EditLine(e, line, inSection), InSection(e, line, inSection);
      var q := PlaceAfter(e, line, inSection, |out|, p);
      KeptLine(e, line, inSection);
      var next := header;
      if IsHeader(line) {
        StepHeader(e, line, out, inSection, p, header);
        next := if p.block == 0 && TargetHeader(e, line) then |out| else header;
      } else {
        StepOther(e, line, kept, out, inSection, p, header);
        StaysInside(e, line, inSection);
      }
      first := PlaceFollows(e, rest, out + kept, inside, q, next);
      assert out + kept + EditLines(e, rest, inside) == out + (kept + EditLines(e, rest, inside));
    }
  }

  lemma StaysInside(e: Edit, line: string, inSection: bool)
    requires !IsHeader(line)
    ensures InSection(e, line, inSection) == inSection
  {
  }

  /**
   Missing keys go behind the last key of the first block of the section, or behind its header if it has no key. They
   stand together, in the order in which they are given.
   */
  lemma MissingKeysPlaced(lines: seq<string>, section: string, kv: seq<KeyValue>, owned: seq<string>)
    returns (header: int)
    requires PlainEdit(EditOf(section, kv, owned)) && Section(CanonicalSection(section)) in Read(lines, None)
    ensures var e := EditOf(section, kv, owned);
            var out, at := EditLines(e, lines, false), PlaceFor(e, lines, false, 0, Place(0, -1)).at;
            && BehindLastKey(e, out, header, at)
            && EditSectionLines(lines, section, kv, owned)
               == out[..at] + Missing(kv, e.values, Written(e, lines, false)) + out[at..]
  {
    hide *;
    var e := EditOf(section, kv, owned);
    TargetOf(section, kv, owned);
    PlaceSeen(e, lines, false, 0, Place(0, -1), None);
    NothingSoFar(e);
    header := PlaceFollows(e, lines, [], false, Place(0, -1), 0);
    assert [] + EditLines(e, lines, false) == EditLines(e, lines, false);
    FoundBehind(e, EditLines(e, lines, false), InSectionAfter(e, lines, false),
                PlaceFor(e, lines, false, 0, Place(0, -1)), header);
    InsertedAt(lines, section, kv, owned);
  }

  lemma TargetOf(section: string, kv: seq<KeyValue>, owned: seq<string>)
    ensures EditOf(section, kv, owned).target == CanonicalSection(section)
    ensures EditOf(section, kv, owned).values == Values(kv)
  {
  }

  lemma NothingSoFar(e: Edit)
    ensures PlaceSoFar(e, [], false, Place(0, -1), 0)
  {
  }

  lemma FoundBehind(e: Edit, out: seq<string>, inSection: bool, p: Place, header: int)
    requires PlaceSoFar(e, out, inSection, p, header) && p.at >= 0
    ensures BehindLastKey(e, out, header, p.at)
  {
    hide BehindLastKey;
  }

  lemma InsertedAt(lines: seq<string>, section: string, kv: seq<KeyValue>, owned: seq<string>)
    requires PlaceFor(EditOf(section, kv, owned), lines, false, 0, Place(0, -1)).at >= 0
    ensures var e := EditOf(section, kv, owned);
            var out, at := EditLines(e, lines, false), PlaceFor(e, lines, false, 0, Place(0, -1)).at;
            && at <= |out|
            && EditSectionLines(lines, section, kv, owned)
               == out[..at] + Missing(kv, e.values, Written(e, lines, false)) + out[at..]
  {
    hide EditLines, Missing, Written, PlaceFor, EditOf;
    var e := EditOf(section, kv, owned);
    TargetOf(section, kv, owned);
    PlaceInRange(e, lines, false, 0, Place(0, -1));
    var out, at := EditLines(e, lines, false), PlaceFor(e, lines, false, 0, Place(0, -1)).at;
    assert out[..at] + [] + out[at..] == out;
  }

  /** Keys given once each, none of them written yet: one line each, in the order given. */
  lemma {:induction false} MissingInOrder(kv: seq<KeyValue>, values: map<string, string>, written: set<string>)
    requires forall k :: 0 <= k < |kv| ==> kv[k].key in values && kv[k].key !in written
    requires forall j, k :: 0 <= j < k < |kv| ==> kv[j].key != kv[k].key
    ensures var missing := Missing(kv, values, written);
            && |missing| == |kv|
            && forall k :: 0 <= k < |kv| ==> missing[k] == kv[k].key + " = " + values[kv[k].key]
    decreases |kv|
  {
    hide NewLine;
    if kv != [] {
      MissingInOrder(kv[1..], values, written + {kv[0].key});
      NewLineText(kv[0].key, values[kv[0].key]);
    }
  }

  lemma NewLineText(key: string, value: string)
    ensures NewLine(key, value) == key + " = " + value
  {
    assert (key + " ") + "=" + (" " + value) == key + " = " + value;
  }

  /** A key that is given more than once gets its last value. */
  lemma {:induction false} LastGiven(kv: seq<KeyValue>, k: nat)
    requires k < |kv| && forall j :: k < j < |kv| ==> kv[j].key != kv[k].key
    ensures Values(kv)[kv[k].key] == kv[k].value
    decreases |kv|
  {
    if k < |kv| - 1 {
      LastGiven(kv[..|kv| - 1], k);
    }
  }

  /** Every key that is missing gets one line, and only these do. */
  lemma {:induction false} MissingOnce(
    kv: seq<KeyValue>, values: map<string, string>, written: set<string>, key: string)
    requires forall k :: 0 <= k < |kv| ==> kv[k].key in values
    ensures (exists k :: 0 <= k < |kv| && kv[k].key == key) && key !in written ==>
              NewLine(key, values[key]) in Missing(kv, values, written)
    ensures |Missing(kv, values, written)| == |KeysOf(kv) - written|
    decreases |kv|
  {
    hide NewLine, KeysOf;
    if kv == [] {
      NoKeys();
      assert {} - written == {};
    } else {
      var rest := kv[1..];
      KeysLeft(kv, written);
      if kv[0].key in written {
        MissingOnce(rest, values, written, key);
      } else {
        MissingOnce(rest, values, written + {kv[0].key}, key);
        assert kv[0].key !in KeysOf(rest) - (written + {kv[0].key});
      }
      if k :| 0 <= k < |kv| && kv[k].key == key {
        assert k > 0 ==> rest[k - 1].key == key;
      }
    }
  }

  lemma {:induction false} DropBlankEndIs(lines: seq<string>)
    ensures var kept := DropBlankEnd(lines);
            && kept <= lines && (kept != [] ==> TrimSpace(kept[|kept| - 1]) != "")
            && forall k :: |kept| <= k < |lines| ==> TrimSpace(lines[k]) == ""
    decreases |lines|
  {
    hide TrimSpace;
    if lines != [] && TrimSpace(lines[|lines| - 1]) == "" {
      DropBlankEndIs(lines[..|lines| - 1]);
    }
  }

  // ---- At the top level ----

  predicate BlankOrComment(line: string) {
    var t := TrimSpace(line);
    t == "" || t[0] == '#'
  }

  lemma {:induction false} BeforeCommentsIs(lines: seq<string>)
    ensures var n := BeforeComments(lines);
            && (forall k :: n <= k < |lines| ==> BlankOrComment(lines[k]))
            && (n > 0 ==> !BlankOrComment(lines[n - 1]))
    decreases |lines|
  {
    hide TrimSpace;
    if lines != [] && BlankOrComment(lines[|lines| - 1]) {
      BeforeCommentsIs(lines[..|lines| - 1]);
    }
  }

  lemma {:induction false} LastKeyLineIs(lines: seq<string>)
    ensures var n := LastKeyLine(lines);
            && (forall k :: n < k < |lines| ==> !ReadLine(lines[k]).KeyLine?)
            && (n >= 0 ==> ReadLine(lines[n]).KeyLine?)
    decreases |lines|
  {
    hide ReadLine;
    if lines != [] && !ReadLine(lines[|lines| - 1]).KeyLine? {
      LastKeyLineIs(lines[..|lines| - 1]);
    }
  }

  /**
   A new top-level key. Before the first header it goes behind the last key; without a key, above the blank lines and
   comments that stand right above the header. In a file without headers it goes to the end, before a final newline.
   */
  lemma TopKeyPlaced(lines: seq<string>, header: nat)
    requires lines != [] && header <= |lines| && (forall k :: 0 <= k < header ==> !ReadLine(lines[k]).Header?)
    requires header < |lines| ==> ReadLine(lines[header]).Header?
    ensures var at := InsertAt(lines);
            if header < |lines| then
              && at <= header && (forall k :: at <= k < header ==> !ReadLine(lines[k]).KeyLine?)
              && if exists k :: 0 <= k < header && ReadLine(lines[k]).KeyLine?
                 then at > 0 && ReadLine(lines[at - 1]).KeyLine?
                 else (forall k :: at <= k < header ==> BlankOrComment(lines[k]))
                      && (at > 0 ==> !BlankOrComment(lines[at - 1]))
            else at == if lines[|lines| - 1] == "" then |lines| - 1 else |lines|
  {
    hide ReadLine, TrimSpace;
    TopIsBefore(lines, header);
    LastKeyLineIs(lines[..header]);
    BeforeCommentsIs(lines[..header]);
  }

  lemma TopIsBefore(lines: seq<string>, header: nat)
    requires header <= |lines| && (forall k :: 0 <= k < header ==> !ReadLine(lines[k]).Header?)
    requires header < |lines| ==> ReadLine(lines[header]).Header?
    ensures TopPart(lines) == lines[..header]
  {
    hide ReadLine, TopPart;
    assert lines == lines[..header] + lines[header..];
    TopPartOf(lines[..header], lines[header..]);
  }

  lemma {:induction false} ReplacedLines(lines: seq<string>, key: string, line: string)
    ensures var r := Replaced(lines, key, line);
            && |r| == |lines|
            && forall k :: 0 <= k < |lines| ==> r[k] == if LineKey(lines[k]) == Some(key) then line else lines[k]
  {
    hide LineKey;
    if lines != [] {
      ReplacedLines(lines[1..], key, line);
    }
  }

  /**
   A top-level save: the lines before the first header that bind the key become the new line, or the new line is put in
   if there is none; every other line stays, text for text, and the file ends with a newline.
   */
  lemma TopLevelLines(lines: seq<string>, key: string, line: string, header: nat) returns (edited: seq<string>)
    requires lines != [] && header <= |lines| && (forall k :: 0 <= k < header ==> !ReadLine(lines[k]).Header?)
    requires header < |lines| ==> ReadLine(lines[header]).Header?
    ensures if exists k :: 0 <= k < header && LineKey(lines[k]) == Some(key) then
              && |edited| == |lines|
              && forall k :: 0 <= k < |lines| ==>
                   edited[k] == if k < header && LineKey(lines[k]) == Some(key) then line else lines[k]
            else edited == lines[..InsertAt(lines)] + [line] + lines[InsertAt(lines)..]
    ensures var saved := EditTopLines(lines, key, line);
            saved == (if edited[|edited| - 1] == "" then edited else edited + [""]) && saved[|saved| - 1] == ""
  {
    hide ReadLine, LineKey, InsertAt, Replaced, TopPart, EndWithBlank;
    TopIsBefore(lines, header);
    var top, rest := lines[..header], lines[header..];
    ReplacedLines(top, key, line);
    if Binds(top, key) {
      edited := Replaced(top, key, line) + rest;
      assert EditTopLines(lines, key, line) == EndWithBlank(edited);
    } else {
      NothingReplaced(lines, header, key, line);
      edited := lines[..InsertAt(lines)] + [line] + lines[InsertAt(lines)..];
      assert EditTopLines(lines, key, line) == EndWithBlank(edited);
    }
    EndIsBlank(edited);
  }

  lemma NothingReplaced(lines: seq<string>, header: nat, key: string, line: string)
    requires header <= |lines| && !Binds(lines[..header], key)
    ensures Replaced(lines[..header], key, line) + lines[header..] == lines
  {
    hide LineKey, Replaced;
    ReplacedSame(lines[..header], key, line);
  }

  lemma EndIsBlank(edited: seq<string>)
    requires edited != []
    ensures var saved := EndWithBlank(edited);
            saved == (if edited[|edited| - 1] == "" then edited else edited + [""]) && saved[|saved| - 1] == ""
  {
  }
}
