/** The string operations config/config.go is written with, on sequences of characters. */
module ConfigText {
  import opened Common

  /** The white space that strings.TrimSpace removes. */
  predicate IsSpace(c: char) {
    || c == ' ' || '\t' <= c <= '\r' || c == '\U{0085}' || c == '\U{00A0}' || c == '\U{1680}'
    || '\U{2000}' <= c <= '\U{200A}' || c == '\U{2028}' || c == '\U{2029}' || c == '\U{202F}'
    || c == '\U{205F}' || c == '\U{3000}'
  }

  function TrimLeft(s: string): (r: string)
    ensures |r| <= |s| && (r != "" ==> !IsSpace(r[0]))
  {
    if s != "" && IsSpace(s[0]) then TrimLeft(s[1..]) else s
  }

  function TrimRight(s: string): (r: string)
    ensures |r| <= |s| && (r != "" ==> !IsSpace(r[|r| - 1]))
  {
    if s != "" && IsSpace(s[|s| - 1]) then TrimRight(s[..|s| - 1]) else s
  }

  function TrimSpace(s: string): string {
    TrimRight(TrimLeft(s))
  }

  predicate Trimmed(s: string) {
    s != "" ==> !IsSpace(s[0]) && !IsSpace(s[|s| - 1])
  }

  /** s without the blanks and tabs at its start. */
  function TrimBlanks(s: string): (r: string)
    ensures |r| <= |s|
  {
    if s != "" && (s[0] == ' ' || s[0] == '\t') then TrimBlanks(s[1..]) else s
  }

  /** The first index of c in s, or -1. */
  function IndexOf(s: string, c: char): (r: int)
    ensures -1 <= r < |s|
    ensures r >= 0 ==> s[r] == c
    ensures forall k :: 0 <= k < (if r < 0 then |s| else r) ==> s[k] != c
  {
    if s == "" then -1
    else if s[0] == c then 0
    else
      var r := IndexOf(s[1..], c);
      if r < 0 then -1 else r + 1
  }

  lemma FirstAt(s: string, c: char, i: nat)
    requires i < |s| && s[i] == c && c !in s[..i]
    ensures IndexOf(s, c) == i
  {
    assert forall k :: 0 <= k < i ==> s[k] == s[..i][k];
  }

  predicate HasPrefix(s: string, c: char) {
    s != "" && s[0] == c
  }

  /** The parts of s around its first '='. */
  function Cut(s: string): (r: Option<(string, string)>)
    ensures r.None? <==> '=' !in s
    ensures r.Some? ==> '=' !in r.value.0 && s == r.value.0 + "=" + r.value.1
  {
    var i := IndexOf(s, '=');
    if i < 0 then None else Some((s[..i], s[i + 1..]))
  }

  lemma CutAt(before: string, after: string)
    requires '=' !in before
    ensures Cut(before + "=" + after) == Some((before, after))
  {
    var s := before + "=" + after;
    assert s[..|before|] == before && s[|before| + 1..] == after;
    FirstAt(s, '=', |before|);
  }

  // ---- Lines ----

  predicate OneLine(s: string) {
    '\n' !in s
  }

  /** strings.Split(s, "\n"). */
  function Split(s: string): (r: seq<string>)
    ensures |r| >= 1
    ensures forall k :: 0 <= k < |r| ==> OneLine(r[k])
    decreases |s|
  {
    var i := IndexOf(s, '\n');
    if i < 0 then [s]
    else
      var head, rest := s[..i], Split(s[i + 1..]);
      assert OneLine(head);
      [head] + rest
  }

  /** strings.Join(lines, "\n"). */
  function Join(lines: seq<string>): string {
    if lines == [] then ""
    else if |lines| == 1 then lines[0]
    else lines[0] + "\n" + Join(lines[1..])
  }

  lemma {:induction false} SplitJoin(lines: seq<string>)
    requires lines != [] && forall k :: 0 <= k < |lines| ==> OneLine(lines[k])
    ensures Split(Join(lines)) == lines
  {
    var s := Join(lines);
    assert OneLine(lines[0]);
    if |lines| > 1 {
      SplitJoin(lines[1..]);
      var head, tail := lines[0], Join(lines[1..]);
      assert s[..|head|] == head && s[|head| + 1..] == tail;
      FirstAt(s, '\n', |head|);
    }
  }

  // ---- Trimming ----

  lemma {:induction false} TrimLeftTo(s: string, c: char, t: string)
    requires !IsSpace(c)
    ensures TrimLeft(s + [c] + t) == TrimLeft(s) + [c] + t
  {
    var u := s + [c] + t;
    if s == "" {
      assert u[0] == c;
    } else if IsSpace(s[0]) {
      assert u[1..] == s[1..] + [c] + t;
      TrimLeftTo(s[1..], c, t);
    }
  }

  lemma {:induction false} TrimRightTo(s: string, t: string)
    requires s != "" && !IsSpace(s[|s| - 1])
    ensures TrimRight(s + t) == s + TrimRight(t)
    decreases |t|
  {
    hide IsSpace;
    if t == "" {
      assert s + t == s;
    } else if IsSpace(t[|t| - 1]) {
      assert (s + t)[..|s + t| - 1] == s + t[..|t| - 1];
      TrimRightTo(s, t[..|t| - 1]);
    }
  }

  /** The two trims commute. */
  lemma {:induction false} TrimsCommute(s: string)
    ensures TrimLeft(TrimRight(s)) == TrimRight(TrimLeft(s))
    decreases |s|
  {
    hide IsSpace;
    if s != "" && IsSpace(s[0]) {
      TrimsCommute(s[1..]);
      TrimRightDropFirst(s);
    } else if s != "" {
      assert s == [s[0]] + s[1..];
      TrimRightTo([s[0]], s[1..]);
    }
  }

  lemma {:induction false} TrimRightDropFirst(s: string)
    requires s != "" && IsSpace(s[0])
    ensures TrimLeft(TrimRight(s)) == TrimLeft(TrimRight(s[1..]))
    decreases |s|
  {
    hide IsSpace, TrimLeft;
    if |s| == 1 {
      assert s[..0] == "" && s[1..] == "";
    } else if IsSpace(s[|s| - 1]) {
      var short := s[..|s| - 1];
      assert short[1..] == s[1..][..|s| - 2];
      TrimRightDropFirst(short);
    } else {
      TrimLeftDropFirst(s);
    }
  }

  lemma TrimLeftDropFirst(s: string)
    requires s != "" && IsSpace(s[0])
    ensures TrimLeft(s) == TrimLeft(s[1..])
  {
  }

  /** Trimming a line with an '=' trims its key and value sides apart. */
  lemma TrimKeyLine(before: string, after: string)
    ensures TrimSpace(before + "=" + after) == TrimLeft(before) + "=" + TrimRight(after)
    ensures TrimSpace(TrimLeft(before)) == TrimSpace(before)
    ensures TrimSpace(TrimRight(after)) == TrimSpace(after)
  {
    TrimLeftTo(before, '=', after);
    TrimRightTo(TrimLeft(before) + "=", after);
    TrimsCommute(after);
    TrimsCommute(TrimRight(after));
  }

  /** A text that neither starts nor ends with white space is its own trim. */
  lemma TrimmedAlready(s: string)
    requires Trimmed(s)
    ensures TrimSpace(s) == s
  {
  }

  lemma {:induction false} TrimRightKeeps(s: string)
    ensures var r := TrimRight(s);
            (r != "" ==> s != "" && r[0] == s[0]) && forall c :: c in r ==> c in s
    decreases |s|
  {
    hide IsSpace;
    if s != "" && IsSpace(s[|s| - 1]) {
      TrimRightKeeps(s[..|s| - 1]);
    }
  }

  lemma {:induction false} TrimLeftKeeps(s: string)
    ensures forall c :: c in TrimLeft(s) ==> c in s
  {
    hide IsSpace;
    if s != "" && IsSpace(s[0]) {
      TrimLeftKeeps(s[1..]);
    }
  }

  lemma TrimSpaceEnds(s: string)
    ensures var t := TrimSpace(s); t != "" ==> !IsSpace(t[0]) && !IsSpace(t[|t| - 1])
    ensures TrimSpace(TrimSpace(s)) == TrimSpace(s)
    ensures forall c :: c in TrimSpace(s) ==> c in s
  {
    TrimLeftKeeps(s);
    TrimRightKeeps(TrimLeft(s));
    TrimmedAlready(TrimSpace(s));
  }
}
