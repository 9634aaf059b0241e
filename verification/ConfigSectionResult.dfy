/** The result of editSection: what its output reads as, for every file, and that a second edit changes nothing. */
module ConfigSectionResult {
  import opened Common
  import opened ConfigText
  import opened ConfigCodec
  import opened ConfigEditor
  import opened ConfigSectionEdit

  /** The header [name] reads back as name: no ']' inside closes it early. */
  predicate NamesItself(name: string) {
    var i := IndexOf(name, ']');
    OneLine(name) && (i >= 0 ==> !AfterClose(name[i + 1..] + "]"))
  }

  /** What SaveSection checks before it edits. */
  ghost predicate OneLiners(kv: seq<KeyValue>) {
    forall k :: 0 <= k < |kv| ==> OneLine(kv[k].key) && OneLine(kv[k].value)
  }

  /**
   The lines the edit writes say what they should: each key binds, and a header that must be added names the section.
   */
  ghost predicate Takes(e: Edit, section: string, before: seq<Event>) {
    PlainEdit(e) && (e.values == map[] || Section(e.target) in before || NamesItself(section))
  }

  ghost predicate OneLineEdit(e: Edit) {
    forall key :: key in e.values ==> OneLine(key) && OneLine(e.values[key])
  }

  lemma OneLinersEdit(section: string, kv: seq<KeyValue>, owned: seq<string>)
    requires OneLiners(kv)
    ensures OneLineEdit(EditOf(section, kv, owned))
  {
    var m := Values(kv);
    forall key | key in m ensures OneLine(key) && OneLine(m[key]) {
      var k :| 0 <= k < |kv| && kv[k] == KeyValue(key, m[key]);
    }
  }

  // ---- Where missing keys are inserted ----

  /** The insertion point stands inside the section being edited, and exists once a block was seen. */
  ghost predicate PlaceStands(e: Edit, out: seq<string>, p: Place) {
    && -1 <= p.at <= |out|
    && (p.at >= 0 <==> p.block > 0)
    && (p.at >= 0 ==> SectionAfter(out[..p.at], None) == Some(e.target))
  }

  ghost predicate TargetHeader(e: Edit, line: string) {
    IsHeader(line) && HeaderName(line) == e.target
  }

  /** The insertion point either stays or moves behind the line just kept, which is inside the section. */
  lemma PlaceMoves(e: Edit, line: string, inSection: bool, n: nat, p: Place)
    ensures var q := PlaceAfter(e, line, inSection, n, p);
            && ((q.at == p.at && (q.block > 0 <==> p.block > 0))
                || (q.at == n + |EditLine(e, line, inSection)| && q.block > 0 && InSection(e, line, inSection)))
            && (q.block > 0 <==> p.block > 0 || TargetHeader(e, line))
  {
  }

  lemma PlaceStep(e: Edit, line: string, out: seq<string>, p: Place)
    requires LineAgrees(e, line, SectionAfter(out, None)) && PlaceStands(e, out, p)
    ensures var inSection := SectionAfter(out, None) == Some(e.target);
            var q, longer := PlaceAfter(e, line, inSection, |out|, p), out + EditLine(e, line, inSection);
            && PlaceStands(e, longer, q)
            && (q.at >= 0 <==> p.at >= 0 || TargetHeader(e, line))
            && SectionAfter(longer, None) == SectionAfter([line], SectionAfter(out, None))
            && (InSection(e, line, inSection) <==> SectionAfter(longer, None) == Some(e.target))
  {
    var inSection := SectionAfter(out, None) == Some(e.target);
    var edited := EditLine(e, line, inSection);
    ReadConcat(out, edited, None);
    PlaceMoves(e, line, inSection, |out|, p);
    hide Read, SectionAfter, EditEvents, Bound, TargetHeader, EditLine, PlaceAfter, InSection, WrittenKey;
    PlaceStaysInside(e, out, edited, p, PlaceAfter(e, line, inSection, |out|, p));
  }

  lemma PlaceStaysInside(e: Edit, out: seq<string>, edited: seq<string>, p: Place, q: Place)
    requires PlaceStands(e, out, p)
    requires (q.at == p.at && (q.block > 0 <==> p.block > 0))
             || (q.at == |out| + |edited| && q.block > 0 && SectionAfter(out + edited, None) == Some(e.target))
    ensures PlaceStands(e, out + edited, q)
  {
    hide SectionAfter;
    var longer := out + edited;
    if p.at >= 0 {
      assert longer[..p.at] == out[..p.at];
    }
    assert longer[..|longer|] == longer;
  }

  lemma {:induction false} PlaceFound(e: Edit, lines: seq<string>, out: seq<string>, p: Place)
    requires PlainEdit(e) && PlaceStands(e, out, p)
    ensures var inSection := SectionAfter(out, None) == Some(e.target);
            var q := PlaceFor(e, lines, inSection, |out|, p);
            && PlaceStands(e, out + EditLines(e, lines, inSection), q)
            && (q.at >= 0 <==> p.at >= 0 || Section(e.target) in Read(lines, SectionAfter(out, None)))
    decreases |lines|
  {
    var section := SectionAfter(out, None);
    var inSection := section == Some(e.target);
    hide *;
    if lines == [] {
      PlaceUnmoved(e, out, p);
    } else {
      var line, rest := lines[0], lines[1..];
      if IsHeader(line) {
        HeaderLineAgrees(e, line, section);
      } else {
        PlainLineAgrees(e, line, section);
      }
      PlaceStep(e, line, out, p);
      SectionInLines(e, line, rest, section);
      assert [line] + rest == lines;
      var edited, inside := EditLine(e, line, inSection), InSection(e, line, inSection);
      var longer, q := out + edited, PlaceAfter(e, line, inSection, |out|, p);
      PlaceUnfolds(e, lines, inSection, |out|, p);
      PlaceFound(e, rest, longer, q);
      assert longer + EditLines(e, rest, inside) == out + (edited + EditLines(e, rest, inside));
    }
  }

  lemma PlaceUnmoved(e: Edit, out: seq<string>, p: Place)
    requires PlaceStands(e, out, p)
    ensures var inSection := SectionAfter(out, None) == Some(e.target);
            && PlaceFor(e, [], inSection, |out|, p) == p
            && PlaceStands(e, out + EditLines(e, [], inSection), p)
            && Section(e.target) !in Read([], SectionAfter(out, None))
  {
    hide SectionAfter;
    assert out + [] == out;
  }

  lemma PlaceUnfolds(e: Edit, lines: seq<string>, inSection: bool, n: nat, p: Place)
    requires lines != []
    ensures var edited, inside := EditLine(e, lines[0], inSection), InSection(e, lines[0], inSection);
            && EditLines(e, lines, inSection) == edited + EditLines(e, lines[1..], inside)
            && PlaceFor(e, lines, inSection, n, p)
            == PlaceFor(e, lines[1..], inside, n + |edited|, PlaceAfter(e, lines[0], inSection, n, p))
  {
    hide EditLine, InSection, PlaceAfter;
  }

  lemma SectionInLines(e: Edit, line: string, rest: seq<string>, section: Option<string>)
    ensures Section(e.target) in Read([line] + rest, section) <==>
              TargetHeader(e, line) || Section(e.target) in Read(rest, SectionAfter([line], section))
  {
    ReadCons(line, rest, section);
    ReadOne(line, section);
    if IsHeader(line) {
      ReadHeader(line);
    } else {
      ReadKeyLine(line);
    }
  }

  // ---- The missing keys ----

  lemma MissingLine(key: string, value: string)
    requires Bindable(key, value)
    ensures NewLine(key, value) == Rewrite(key, value)
    ensures KeyPart(Rewrite(key, value)) == Some(key + " ") && !IsHeader(Rewrite(key, value))
    ensures ReadLine(Rewrite(key, value)) == KeyLine(key, TrimSpace(value))
  {
    TrimmedAlready(key);
    hide TrimSpace, IsSpace, ReadLine, KeyPart, IsHeader;
    ReadRewrite(key, value);
    assert Widen(key) == key + " ";
  }

  /** Reading lines that only bind keys of the edit, to their new values. */
  ghost predicate BindsOnly(e: Edit, lines: seq<string>, keys: set<string>) {
    var events := Read(lines, Some(e.target));
    && SectionAfter(lines, Some(e.target)) == Some(e.target)
    && Untouched(e, events) == [] && AllSet(e, events) && Bound(e, events) == keys
    && Section(e.target) !in events
  }

  ghost function KeysOf(kv: seq<KeyValue>): set<string> {
    set k | 0 <= k < |kv| :: kv[k].key
  }

  lemma EventsCons(e: Edit, ev: Event, rest: seq<Event>)
    requires Touched(e, ev) && ev.key in e.values && ev.val == TrimSpace(e.values[ev.key])
    requires Untouched(e, rest) == [] && AllSet(e, rest) && Section(e.target) !in rest
    ensures var all := [ev] + rest;
            && Untouched(e, all) == [] && AllSet(e, all) && Section(e.target) !in all
            && Bound(e, all) == {ev.key} + Bound(e, rest)
  {
    hide TrimSpace;
    assert ([ev] + rest)[1..] == rest;
  }

  lemma BindsCons(e: Edit, key: string, rest: seq<string>, keys: set<string>)
    requires PlainEdit(e) && key in e.values && BindsOnly(e, rest, keys)
    ensures BindsOnly(e, [NewLine(key, e.values[key])] + rest, {key} + keys)
  {
    var line, here := Rewrite(key, e.values[key]), Some(e.target);
    MissingLine(key, e.values[key]);
    ReadOne(line, here);
    ReadCons(line, rest, here);
    EventsCons(e, Binding(here, key, TrimSpace(e.values[key])), Read(rest, here));
    hide ReadLine, Rewrite, IsHeader, KeyPart, TrimSpace, SectionAfter, Read, PlainEdit, Untouched, Bound, AllSet;
  }

  lemma KeysLeft(kv: seq<KeyValue>, written: set<string>)
    requires kv != []
    ensures var key, rest := kv[0].key, KeysOf(kv[1..]);
            if key in written then KeysOf(kv) - written == rest - written
            else KeysOf(kv) - written == {key} + (rest - (written + {key}))
    ensures KeysOf(kv) <= written <==> kv[0].key in written && KeysOf(kv[1..]) <= written
  {
    KeysOfCons(kv);
  }

  lemma {:induction false} MissingBinds(e: Edit, kv: seq<KeyValue>, written: set<string>)
    requires PlainEdit(e) && forall k :: 0 <= k < |kv| ==> kv[k].key in e.values
    ensures BindsOnly(e, Missing(kv, e.values, written), KeysOf(kv) - written)
    decreases |kv|
  {
    hide PlainEdit, NewLine, KeysOf, ReadLine, TrimSpace;
    if kv == [] {
      NoKeys();
    } else {
      hide BindsOnly;
      var key, rest := kv[0].key, kv[1..];
      KeysLeft(kv, written);
      if key in written {
        MissingBinds(e, rest, written);
      } else {
        MissingBinds(e, rest, written + {key});
        BindsCons(e, key, Missing(rest, e.values, written + {key}), KeysOf(rest) - (written + {key}));
      }
    }
  }

  lemma NoKeys()
    ensures KeysOf([]) == {}
  {
  }

  lemma {:induction false} NothingMissing(kv: seq<KeyValue>, values: map<string, string>, written: set<string>)
    requires forall k :: 0 <= k < |kv| ==> kv[k].key in values
    ensures Missing(kv, values, written) == [] <==> KeysOf(kv) <= written
    decreases |kv|
  {
    if kv != [] {
      KeysLeft(kv, written);
      if kv[0].key in written {
        NothingMissing(kv[1..], values, written);
      }
    }
  }

  lemma {:induction false} MissingOneLine(e: Edit, kv: seq<KeyValue>, written: set<string>)
    requires OneLineEdit(e) && forall k :: 0 <= k < |kv| ==> kv[k].key in e.values
    ensures AllOneLine(Missing(kv, e.values, written))
    decreases |kv|
  {
    hide TrimSpace;
    if kv != [] {
      var key := kv[0].key;
      assert OneLine(key) && OneLine(e.values[key]);
      hide OneLineEdit;
      MissingOneLine(e, kv[1..], if key in written then written else written + {key});
      assert OneLine(NewLine(key, e.values[key]));
      hide NewLine, OneLine;
    }
  }

  ghost predicate AllOneLine(lines: seq<string>) {
    forall k :: 0 <= k < |lines| ==> OneLine(lines[k])
  }

  lemma KeysOfCons(kv: seq<KeyValue>)
    requires kv != []
    ensures KeysOf(kv) == {kv[0].key} + KeysOf(kv[1..])
  {
    forall key ensures key in KeysOf(kv) <==> key in {kv[0].key} + KeysOf(kv[1..]) {
      if key in KeysOf(kv) {
        var k :| 0 <= k < |kv| && kv[k].key == key;
        if k > 0 {
          assert kv[1..][k - 1].key == key;
        }
      }
      if key in KeysOf(kv[1..]) {
        var k :| 0 <= k < |kv| - 1 && kv[1..][k].key == key;
        assert kv[k + 1].key == key;
      }
    }
  }

  lemma OneLineRewrite(before: string, value: string)
    requires OneLine(before) && OneLine(value)
    ensures OneLine(Rewrite(before, value))
  {
  }

  lemma ValuesKeys(kv: seq<KeyValue>)
    ensures Values(kv).Keys == KeysOf(kv)
  {
    forall key ensures key in Values(kv) <==> key in KeysOf(kv) {
      if key in Values(kv) {
        var k :| 0 <= k < |kv| && kv[k] == KeyValue(key, Values(kv)[key]);
        assert kv[k].key == key;
      }
    }
  }
}
