/** How Load reads a line as people type it: with indentation, blanks around the '=', comments and CR line ends. */
module ConfigLines {
  import opened Common
  import opened ConfigText
  import opened ConfigCodec
  import opened ConfigEditor
  import opened ConfigTyped

  /** Blanks, tabs and carriage returns. */
  ghost predicate White(s: string) {
    forall k :: 0 <= k < |s| ==> s[k] == ' ' || s[k] == '\t' || s[k] == '\r'
  }

  lemma {:induction false} WhiteTrimsLeft(w: string, text: string)
    requires White(w) && (text != "" ==> !IsSpace(text[0]))
    ensures TrimLeft(w + text) == text
  {
    if w == "" {
      assert w + text == text;
    } else {
      assert (w + text)[1..] == w[1..] + text;
      WhiteTrimsLeft(w[1..], text);
    }
  }

  lemma {:induction false} WhiteTrimsRight(text: string, w: string)
    requires White(w) && (text != "" ==> !IsSpace(text[|text| - 1]))
    ensures TrimRight(text + w) == text
    decreases |w|
  {
    if w == "" {
      assert text + w == text;
    } else {
      var n := |w| - 1;
      assert (text + w)[..|text| + n] == text + w[..n];
      WhiteTrimsRight(text, w[..n]);
    }
  }

  lemma WhiteTrims(before: string, text: string, after: string)
    requires White(before) && White(after) && Trimmed(text)
    ensures TrimSpace(before + text + after) == text
  {
    if text == "" {
      assert before + text + after == (before + after) + "";
      WhiteTrimsLeft(before + after, "");
      assert TrimSpace("") == "";
    } else {
      assert before + text + after == before + (text + after);
      WhiteTrimsLeft(before, text + after);
      WhiteTrimsRight(text, after);
    }
  }

  /** A key and its value, whatever white space stands around them, a CR at the end included. */
  lemma KeyLineReads(indent: string, key: string, a: string, b: string, val: string, end: string)
    requires White(indent) && White(a) && White(b) && White(end) && Trimmed(key) && Trimmed(val)
    requires key != "" && key[0] != '#' && key[0] != '[' && '=' !in key
    ensures ReadLine(indent + key + a + "=" + b + val + end) == KeyLine(key, val)
  {
    hide *;
    var line := indent + key + a + "=" + b + val + end;
    assert line == (indent + key + a) + "=" + (b + val + end);
    KeySide(indent, key, a);
    WhiteTrims(b, val, end);
    TrimKeyLine(indent + key + a, b + val + end);
    NoEquals(key, a);
    KeyLineIs(line, key + a, TrimRight(b + val + end), key, val);
  }

  lemma KeySide(indent: string, key: string, a: string)
    requires White(indent) && White(a) && Trimmed(key) && key != ""
    ensures TrimLeft(indent + key + a) == key + a && TrimSpace(indent + key + a) == key
    ensures TrimSpace(key + a) == key
  {
    hide TrimLeft, TrimRight, TrimSpace, IsSpace;
    WhiteTrims(indent, key, a);
    WhiteTrims("", key, a);
    assert "" + key + a == key + a;
    assert indent + key + a == indent + (key + a);
    StartsInk(key, a);
    WhiteTrimsLeft(indent, key + a);
  }

  lemma StartsInk(key: string, a: string)
    requires Trimmed(key) && key != ""
    ensures !IsSpace((key + a)[0])
  {
  }

  lemma KeyLineIs(line: string, left: string, right: string, key: string, val: string)
    requires TrimSpace(line) == left + "=" + right && TrimSpace(left) == key && TrimSpace(right) == val
    requires '=' !in left && left != "" && left[0] != '#' && left[0] != '['
    ensures ReadLine(line) == KeyLine(key, val)
  {
    CutAt(left, right);
    hide TrimSpace, Cut;
    assert (left + "=" + right)[0] == left[0];
  }

  lemma NoEquals(key: string, a: string)
    requires '=' !in key && White(a)
    ensures '=' !in key + a
  {
  }

  /** A line whose first character is a # holds nothing. */
  lemma CommentReads(indent: string, text: string)
    requires White(indent)
    ensures ReadLine(indent + "#" + text) == Other
  {
    var line := indent + "#" + text;
    assert line == indent + ("#" + text);
    WhiteTrimsLeft(indent, "#" + text);
    assert "#" + text == ['#'] + text;
    TrimRightTo(['#'], text);
    hide TrimLeft, TrimRight, IsSpace;
  }

  lemma BlankReads(line: string)
    requires White(line)
    ensures ReadLine(line) == Other
  {
    assert line == line + "" + "";
    WhiteTrims(line, "", "");
  }

  /** A name in brackets is a header, with or without a comment behind it. */
  lemma HeaderReads(indent: string, name: string, remark: string, end: string)
    requires White(indent) && White(end) && ']' !in name && Remark(remark) && Trimmed("[" + name + "]" + remark)
    ensures ReadLine(indent + "[" + name + "]" + remark + end) == Header(name)
  {
    hide TrimSpace, AfterClose, Remark, Trimmed, IsSpace, SectionHeader;
    var t := "[" + name + "]" + remark;
    assert indent + "[" + name + "]" + remark + end == indent + t + end;
    WhiteTrims(indent, t, end);
    NameIn(name, remark);
  }

  lemma NameIn(name: string, remark: string)
    requires ']' !in name && Remark(remark)
    ensures SectionHeader("[" + name + "]" + remark) == Some(name)
  {
    var t, end := "[" + name + "]" + remark, 1 + |name|;
    AfterCloseIs(remark);
    hide AfterClose, Remark, IndexOf;
    assert t[..end] == "[" + name && t[end] == ']';
    FirstAt(t, ']', end);
    assert t[end + 1..] == remark && t[1..end] == name;
  }

  /**
   With text behind the bracket the line is a header only if it ends in a bracket, too, and then all between the outer
   brackets is its name. A line whose bracket is never closed is none.
   */
  lemma TextBehindHeader(name: string, rest: string)
    requires ']' !in name && rest != "" && !Remark(rest) && Trimmed("[" + name + "]" + rest)
    ensures var line := ReadLine("[" + name + "]" + rest);
            if rest[|rest| - 1] == ']' then line == Header(name + "]" + rest[..|rest| - 1]) else !line.Header?
  {
    hide TrimSpace, AfterClose, Remark, Trimmed, IsSpace, IndexOf;
    var t, end := "[" + name + "]" + rest, 1 + |name|;
    AfterCloseIs(rest);
    assert t[..end] == "[" + name && t[end] == ']' && t[end + 1..] == rest;
    FirstAt(t, ']', end);
    TrimOfTrimmed(t);
    assert t[|t| - 1] == rest[|rest| - 1] && t[1..|t| - 1] == name + "]" + rest[..|rest| - 1];
  }

  lemma TrimOfTrimmed(t: string)
    requires Trimmed(t)
    ensures TrimSpace(t) == t
  {
    hide IsSpace;
  }

  lemma OpenHeader(name: string)
    requires ']' !in name && Trimmed("[" + name)
    ensures !ReadLine("[" + name).Header?
  {
    hide TrimSpace, AfterClose, Trimmed, IsSpace;
    TrimOfTrimmed("[" + name);
  }

  // ---- Lines of a text ----

  /** A text is its lines with newlines between them, and has one line more than it has newlines. */
  lemma {:induction false} LinesOfText(s: string)
    ensures Join(Split(s)) == s && |Split(s)| == multiset(s)['\n'] + 1
    decreases |s|
  {
    hide Split, Join, IndexOf;
    var i := IndexOf(s, '\n');
    SplitParts(s);
    if i < 0 {
      NotThere(s);
    } else {
      LinesOfText(s[i + 1..]);
      JoinParts(s[..i], Split(s[i + 1..]));
      Counted(s, i);
    }
  }

  lemma SplitParts(s: string)
    ensures var i := IndexOf(s, '\n');
            && Join([s]) == s
            && Split(s) == if i < 0 then [s] else [s[..i]] + Split(s[i + 1..])
  {
  }

  lemma JoinParts(head: string, rest: seq<string>)
    requires rest != []
    ensures Join([head] + rest) == head + "\n" + Join(rest)
  {
    assert ([head] + rest)[1..] == rest;
  }

  lemma NotThere(s: string)
    requires forall k :: 0 <= k < |s| ==> s[k] != '\n'
    ensures multiset(s)['\n'] == 0
  {
    assert '\n' !in s;
  }

  lemma Counted(s: string, i: nat)
    requires i < |s| && s[i] == '\n' && forall k :: 0 <= k < i ==> s[k] != '\n'
    ensures s == s[..i] + "\n" + s[i + 1..]
    ensures multiset(s)['\n'] == 1 + multiset(s[i + 1..])['\n']
  {
    var head, rest := s[..i], s[i + 1..];
    assert s == head + "\n" + rest;
    NotThere(head);
    assert multiset(head + "\n" + rest) == multiset(head) + multiset("\n") + multiset(rest);
  }
}
