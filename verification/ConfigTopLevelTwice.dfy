/** Saving the same top-level key again leaves the file as it is, byte for byte. */
module ConfigTopLevelTwice {
  import opened Common
  import opened ConfigText
  import opened ConfigEditor
  import opened ConfigSectionEdit
  import opened ConfigSectionResult
  import opened ConfigTopLevel
  import opened ConfigTopLevelSave

  ghost predicate NoHeader(lines: seq<string>) {
    forall k :: 0 <= k < |lines| ==> !HeaderLine(lines[k])
  }

  /** Every line that binds key is line. */
  ghost predicate OnlyLine(lines: seq<string>, key: string, line: string) {
    forall k :: 0 <= k < |lines| && LineKey(lines[k]) == Some(key) ==> lines[k] == line
  }

  /** A file that the save leaves alone: its top part is top, and it ends with a newline. */
  ghost predicate Saved(top: seq<string>, rest: seq<string>, key: string, line: string) {
    && NoHeader(top) && (rest != [] ==> HeaderLine(rest[0]))
    && OnlyLine(top, key, line) && Binds(top, key)
    && top + rest != [] && (top + rest)[|top + rest| - 1] == ""
  }

  lemma {:induction false} FirstHeaderAt(lines: seq<string>, i: nat, n: nat)
    requires i <= n <= |lines| && (forall k :: i <= k < n ==> !HeaderLine(lines[k]))
    requires (n < |lines| ==> HeaderLine(lines[n]))
    ensures FirstHeader(lines, i) == n
    decreases n - i
  {
    hide HeaderLine;
    if i < n {
      FirstHeaderAt(lines, i + 1, n);
    }
  }

  lemma TopPartOf(top: seq<string>, rest: seq<string>)
    requires NoHeader(top) && (rest != [] ==> HeaderLine(rest[0]))
    ensures TopPart(top + rest) == top && (top + rest)[|top|..] == rest
  {
    hide HeaderLine;
    var lines := top + rest;
    assert rest != [] ==> lines[|top|] == rest[0];
    FirstHeaderAt(lines, 0, |top|);
    assert lines[..|top|] == top;
  }

  lemma {:induction false} ReplacedSame(lines: seq<string>, key: string, line: string)
    requires OnlyLine(lines, key, line)
    ensures Replaced(lines, key, line) == lines
  {
    hide LineKey;
    if lines != [] {
      ReplacedSame(lines[1..], key, line);
    }
  }

  lemma SavedStays(top: seq<string>, rest: seq<string>, key: string, line: string)
    requires Saved(top, rest, key, line)
    ensures EditTopLines(top + rest, key, line) == top + rest
  {
    hide HeaderLine, LineKey, Replaced, TopPart, Binds;
    TopPartOf(top, rest);
    ReplacedSame(top, key, line);
  }

  lemma {:induction false} ReplacedOnly(lines: seq<string>, key: string, line: string)
    requires LineKey(line) == Some(key) && NoHeader(lines)
    ensures NoHeader(Replaced(lines, key, line)) && OnlyLine(Replaced(lines, key, line), key, line)
    ensures Binds(lines, key) ==> Binds(Replaced(lines, key, line), key)
    ensures !Binds(lines, key) ==> Replaced(lines, key, line) == lines
  {
    hide LineKey, HeaderLine, Binds;
    KeyIsNoHeader(key, line);
    if lines == [] {
      NothingBound(key);
    } else {
      var first, rest := if LineKey(lines[0]) == Some(key) then line else lines[0], Replaced(lines[1..], key, line);
      ReplacedOnly(lines[1..], key, line);
      ConfigTopLevel.BindsCons(lines, key);
      ConfigTopLevel.BindsCons([first] + rest, key);
      assert ([first] + rest)[1..] == rest;
    }
  }

  lemma NothingBound(key: string)
    ensures !Binds([], key)
  {
  }

  lemma KeyIsNoHeader(key: string, line: string)
    requires LineKey(line) == Some(key)
    ensures !HeaderLine(line)
  {
  }

  lemma BlankIsNoKey()
    ensures LineKey("") == None && !HeaderLine("")
  {
    BlankIsBlank();
    hide TrimSpace;
  }

  lemma InsertedOnly(top: seq<string>, at: nat, key: string, line: string)
    requires LineKey(line) == Some(key) && NoHeader(top) && !Binds(top, key) && at <= |top|
    ensures var a := top[..at] + [line] + top[at..]; NoHeader(a) && OnlyLine(a, key, line) && Binds(a, key)
  {
    hide LineKey, HeaderLine;
    KeyIsNoHeader(key, line);
    var a := top[..at] + [line] + top[at..];
    assert a[at] == line;
    forall k | 0 <= k < |a| && k != at ensures LineKey(a[k]) != Some(key) && !HeaderLine(a[k]) {
      assert a[k] == top[if k < at then k else k - 1];
    }
  }

  lemma EndedIsSaved(top: seq<string>, rest: seq<string>, key: string, line: string)
    returns (a: seq<string>, b: seq<string>)
    requires NoHeader(top) && (rest != [] ==> HeaderLine(rest[0])) && OnlyLine(top, key, line) && Binds(top, key)
    requires top + rest != []
    ensures EndWithBlank(top + rest) == a + b && Saved(a, b, key, line)
  {
    hide LineKey, HeaderLine;
    if (top + rest)[|top + rest| - 1] == "" {
      a, b := top, rest;
    } else if rest != [] {
      a, b := top, rest + [""];
      assert top + rest + [""] == a + b;
    } else {
      a, b := top + [""], [];
      BlankIsNoKey();
      BindsSnoc(top, "", key);
      assert top + rest + [""] == a + b;
      hide Binds;
    }
  }

  /** Editing the lines again changes nothing. */
  lemma EditTopLinesTwice(lines: seq<string>, key: string, line: string)
    requires lines != [] && LineKey(line) == Some(key)
    ensures EditTopLines(lines, key, line) != []
    ensures EditTopLines(EditTopLines(lines, key, line), key, line) == EditTopLines(lines, key, line)
  {
    hide LineKey, HeaderLine, Replaced, TopPart, InsertAt, Binds, Saved, EndWithBlank;
    var top := TopPart(lines);
    var rest, at := lines[|top|..], InsertAt(lines);
    TopPartIs(lines);
    assert rest != [] ==> rest[0] == lines[|top|];
    assert NoHeader(top);
    ReplacedOnly(top, key, line);
    var edited := Replaced(top, key, line);
    var a, b;
    if Binds(top, key) {
      SomethingBound(edited, key);
      a, b := EndedIsSaved(edited, rest, key, line);
    } else {
      InsertedOnly(top, at, key, line);
      var whole := top[..at] + [line] + top[at..];
      assert (top + rest)[..at] + [line] + (top + rest)[at..] == whole + rest;
      a, b := EndedIsSaved(whole, rest, key, line);
    }
    assert EditTopLines(lines, key, line) == a + b;
    SavedNotEmpty(a, b, key, line);
    SavedStays(a, b, key, line);
  }

  lemma SomethingBound(lines: seq<string>, key: string)
    requires Binds(lines, key)
    ensures lines != []
  {
  }

  lemma SavedNotEmpty(top: seq<string>, rest: seq<string>, key: string, line: string)
    requires Saved(top, rest, key, line)
    ensures top + rest != []
  {
  }

  /** editTopLevel is idempotent on every file, for every key that a line can bind. */
  lemma EditTopLevelTwice(data: string, key: string, value: string)
    requires Bindable(key, value) && OneLine(key) && OneLine(value)
    ensures var once := EditTopLevel(data, key, NewLine(key, value));
            EditTopLevel(once, key, NewLine(key, value)) == once
  {
    hide NewLine, Rewrite, ReadLine, TrimSpace, Split, Join, EditTopLines, Bindable, OneLine;
    var lines, line := Split(data), NewLine(key, value);
    MissingLine(key, value);
    NewLineIsOneLine(key, value);
    EditTopLinesTwice(lines, key, line);
    EditTopOneLine(lines, key, line);
    SplitJoin(EditTopLines(lines, key, line));
  }
}
