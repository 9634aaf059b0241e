/**
 What Load makes of values as people type them. Each law describes the typed text piece by piece and gives the value
 it stands for: strings in either quotes, strings with a quote missing or text behind it, and lists.
 */
module ConfigTyped {
  import opened ConfigCodec

  // ---- What may follow a closing quote or bracket ----

  predicate Blank(c: char) {
    c == ' ' || c == '\t'
  }

  ghost predicate Blanks(s: string) {
    forall k :: 0 <= k < |s| ==> Blank(s[k])
  }

  /** Blanks, and then nothing or a comment. */
  ghost predicate Remark(s: string) {
    exists n :: 0 <= n <= |s| && Blanks(s[..n]) && (n == |s| || s[n] == '#')
  }

  lemma {:induction false} AfterCloseIs(s: string)
    ensures AfterClose(s) <==> Remark(s)
  {
    if s == "" {
      assert Blanks(s[..0]);
    } else if Blank(s[0]) {
      AfterCloseIs(s[1..]);
      if Remark(s[1..]) {
        var n :| 0 <= n <= |s| - 1 && Blanks(s[1..][..n]) && (n == |s| - 1 || s[1..][n] == '#');
        assert s[..n + 1] == [s[0]] + s[1..][..n];
        assert Blanks(s[..n + 1]);
      }
      if Remark(s) {
        var n :| 0 <= n <= |s| && Blanks(s[..n]) && (n == |s| || s[n] == '#');
        assert n > 0;
        assert s[1..][..n - 1] == s[..n][1..];
        assert Blanks(s[1..][..n - 1]);
      }
    } else {
      if s[0] == '#' {
        assert Blanks(s[..0]);
      }
      forall n | 0 < n <= |s| ensures !Blanks(s[..n]) {
        assert s[..n][0] == s[0];
      }
    }
  }

  // ---- Text in double quotes ----

  /** A piece of it: a character, an escaped quote or backslash, or a backslash in front of anything else. */
  datatype Piece = Plain(c: char) | Escaped(c: char) | Kept(c: char)

  predicate Special(c: char) {
    c == '\"' || c == '\\'
  }

  predicate IsPiece(p: Piece) {
    if p.Escaped? then Special(p.c) else !Special(p.c)
  }

  ghost predicate Pieces(ps: seq<Piece>) {
    forall k :: 0 <= k < |ps| ==> IsPiece(ps[k])
  }

  function TypedPiece(p: Piece): string {
    if p.Plain? then [p.c] else ['\\', p.c]
  }

  /** Only an escape loses its backslash. */
  function MeantPiece(p: Piece): string {
    if p.Kept? then ['\\', p.c] else [p.c]
  }

  function Typed(ps: seq<Piece>): string {
    if ps == [] then "" else TypedPiece(ps[0]) + Typed(ps[1..])
  }

  function Meant(ps: seq<Piece>): string {
    if ps == [] then "" else MeantPiece(ps[0]) + Meant(ps[1..])
  }

  lemma ScanPiece(s: string, i: nat, text: string, p: Piece)
    requires s != "" && s[0] == QUOTE && IsPiece(p) && At(s, i, TypedPiece(p))
    ensures ScanQuoted(s, i, text) == ScanQuoted(s, i + |TypedPiece(p)|, text + MeantPiece(p))
  {
    AtFirst(s, i, TypedPiece(p));
    if p.Kept? {
      assert ScanQuoted(s, i, text) == ScanQuoted(s, i + 1, text + ['\\']);
      assert text + ['\\'] + [p.c] == text + ['\\', p.c];
    }
  }

  lemma {:induction false} ScanTyped(s: string, i: nat, text: string, ps: seq<Piece>)
    requires s != "" && s[0] == QUOTE && Pieces(ps) && At(s, i, Typed(ps))
    ensures ScanQuoted(s, i, text) == ScanQuoted(s, i + |Typed(ps)|, text + Meant(ps))
    decreases |ps|
  {
    hide ScanQuoted, At, Typed, Meant, TypedPiece, MeantPiece;
    TypedParts(ps);
    if ps == [] {
      assert text + "" == text;
    } else {
      var first, rest := TypedPiece(ps[0]), ps[1..];
      AtParts(s, i, first, Typed(rest));
      ScanPiece(s, i, text, ps[0]);
      ScanTyped(s, i + |first|, text + MeantPiece(ps[0]), rest);
      assert text + MeantPiece(ps[0]) + Meant(rest) == text + (MeantPiece(ps[0]) + Meant(rest));
    }
  }

  lemma TypedParts(ps: seq<Piece>)
    ensures ps == [] ==> Typed(ps) == Meant(ps) == ""
    ensures ps != [] ==>
              Typed(ps) == TypedPiece(ps[0]) + Typed(ps[1..]) && Meant(ps) == MeantPiece(ps[0]) + Meant(ps[1..])
              && |Typed(ps)| == |TypedPiece(ps[0])| + |Typed(ps[1..])|
  {
  }

  /** Text in double quotes, with or without a comment: only escapes lose their backslash, and nothing else changes. */
  lemma DoubleQuotedReads(ps: seq<Piece>, remark: string)
    requires Pieces(ps) && Remark(remark)
    ensures Unquoted("\"" + Typed(ps) + "\"" + remark) == Meant(ps)
  {
    var s, close := "\"" + Typed(ps) + "\"" + remark, 1 + |Typed(ps)|;
    assert s[1..close] == Typed(ps) && s[close] == QUOTE && s[close + 1..] == remark;
    ScanTyped(s, 1, "", ps);
    AfterCloseIs(remark);
    hide Typed, Meant, AfterClose;
    assert "" + Meant(ps) == Meant(ps);
    ScanStops(s, close, Meant(ps));
  }

  /** The pieces of a text in which every backslash stands in front of something that needs no escape. */
  function AsTyped(text: string): seq<Piece> {
    if text == "" then []
    else if text[0] == '\\' && |text| > 1 then [Kept(text[1])] + AsTyped(text[2..])
    else [Plain(text[0])] + AsTyped(text[1..])
  }

  ghost predicate LooseBackslashes(text: string) {
    && '\"' !in text
    && forall k :: 0 <= k < |text| && text[k] == '\\' ==> k + 1 < |text| && text[k + 1] != '\\'
  }

  lemma {:induction false} AsTypedIs(text: string)
    requires LooseBackslashes(text)
    ensures Pieces(AsTyped(text)) && Typed(AsTyped(text)) == text == Meant(AsTyped(text))
  {
    if text != "" {
      if text[0] == '\\' {
        assert LooseBackslashes(text[2..]);
        AsTypedIs(text[2..]);
        assert text == ['\\', text[1]] + text[2..];
      } else {
        AsTypedIs(text[1..]);
        assert text == [text[0]] + text[1..];
      }
    }
  }

  /** So a Windows path in double quotes is read as typed. */
  lemma PathReads(text: string, remark: string)
    requires LooseBackslashes(text) && Remark(remark)
    ensures Unquoted("\"" + text + "\"" + remark) == text
  {
    hide Unquoted, LooseBackslashes, Remark, AsTyped;
    AsTypedIs(text);
    DoubleQuotedReads(AsTyped(text), remark);
  }

  // ---- Text in single quotes, and without quotes ----

  lemma {:induction false} ScanSingle(s: string, i: nat, text: string, part: string)
    requires s != "" && s[0] == '\'' && '\'' !in part && At(s, i, part)
    ensures ScanQuoted(s, i, text) == ScanQuoted(s, i + |part|, text + part)
    decreases |part|
  {
    if part == "" {
      assert text + "" == text;
    } else {
      AtParts(s, i, part[..1], part[1..]);
      AtFirst(s, i, part);
      assert part == part[..1] + part[1..];
      ScanSingle(s, i + 1, text + [part[0]], part[1..]);
      assert text + [part[0]] + part[1..] == text + part;
    }
  }

  /** Text in single quotes is literal. */
  lemma SingleQuotedReads(text: string, remark: string)
    requires '\'' !in text && Remark(remark)
    ensures Unquoted("'" + text + "'" + remark) == text
  {
    var s, close := "'" + text + "'" + remark, 1 + |text|;
    assert s[1..close] == text && s[close] == '\'' && s[close + 1..] == remark;
    ScanSingle(s, 1, "", text);
    AfterCloseIs(remark);
    hide AfterClose;
    assert "" + text == text;
  }

  /** A value that does not start with a quote is read as it is, its # included. */
  lemma UnquotedReads(val: string)
    requires val == "" || (val[0] != '\"' && val[0] != '\'')
    ensures Unquoted(val) == val
  {
  }

  // ---- A quote that is missing or in the wrong place ----

  ghost predicate Quotes(s: string) {
    forall k :: 0 <= k < |s| ==> s[k] == '\"' || s[k] == '\''
  }

  lemma {:induction false} QuotesTrimmed(s: string)
    ensures var r := TrimQuotesRight(s);
            && r <= s && Quotes(s[|r|..])
            && (r != "" ==> r[|r| - 1] != '\"' && r[|r| - 1] != '\'')
    decreases |s|
  {
    if s != "" && IsQuote(s[|s| - 1]) {
      var head := s[..|s| - 1];
      QuotesTrimmed(head);
      var r := TrimQuotesRight(head);
      assert s[|r|..] == head[|r|..] + [s[|s| - 1]];
    }
  }

  /** text can stand behind an opening quote q and does not close it: a quote in it is of the other kind or escaped. */
  ghost predicate Within(q: char, text: string) {
    if q == '\'' then '\'' !in text else q == '\"' && exists ps :: Pieces(ps) && Typed(ps) == text
  }

  /** The same, but for a last backslash that has nothing left to stand in front of. */
  ghost predicate Unended(q: char, text: string) {
    || Within(q, text)
    || (q == '\"' && text != "" && text[|text| - 1] == '\\' && Within(q, text[..|text| - 1]))
  }

  /**
   Without a closing quote the value is the rest of the line as typed, escapes included, but for stray quotes at its
   end. A quote alone is read as it is.
   */
  lemma MissingCloseReads(q: char, text: string)
    requires Unended(q, text)
    ensures var r := Unquoted([q] + text);
            if text == "" then r == [q]
            else r <= text && Quotes(text[|r|..]) && (r != "" ==> r[|r| - 1] != '\"' && r[|r| - 1] != '\'')
  {
    var s := [q] + text;
    assert s[1..] == text;
    NeverCloses(q, text);
    hide ScanQuoted;
    QuotesTrimmed(text);
  }

  /** The scan passes over such a text; it collects what it means, which is not what is kept here. */
  lemma ScanWithin(s: string, q: char, text: string) returns (meant: string)
    requires Within(q, text) && s != "" && s[0] == q && At(s, 1, text)
    ensures ScanQuoted(s, 1, "") == ScanQuoted(s, 1 + |text|, meant)
  {
    hide ScanQuoted, At;
    if q == '\'' {
      ScanSingle(s, 1, "", text);
      meant := "" + text;
    } else {
      var ps :| Pieces(ps) && Typed(ps) == text;
      ScanTyped(s, 1, "", ps);
      meant := "" + Meant(ps);
    }
  }

  lemma NeverCloses(q: char, text: string)
    requires Unended(q, text)
    ensures ScanQuoted([q] + text, 1, "").1 == -1
  {
    hide Within;
    var s := [q] + text;
    if Within(q, text) {
      assert s[1..1 + |text|] == text;
      var meant := ScanWithin(s, q, text);
    } else {
      var part := text[..|text| - 1];
      assert s[1..1 + |part|] == part;
      var meant := ScanWithin(s, q, part);
    }
  }

  /** With text behind the closing quote, the outer pair of quotes goes if there is one; otherwise nothing does. */
  lemma TextBehindReads(q: char, text: string, rest: string)
    requires Within(q, text) && rest != "" && !Remark(rest)
    ensures Unquoted([q] + text + [q] + rest) ==
            if rest[|rest| - 1] == q then text + [q] + rest[..|rest| - 1] else [q] + text + [q] + rest
  {
    hide AfterClose, ScanQuoted, Remark;
    var s, close := [q] + text + [q] + rest, 1 + |text|;
    ClosesBehind(q, text, rest);
    AfterCloseIs(rest);
    assert s[close + 1..] == rest;
    assert s[1..|s| - 1] == text + [q] + rest[..|rest| - 1];
  }

  lemma ClosesBehind(q: char, text: string, rest: string)
    requires Within(q, text)
    ensures ScanQuoted([q] + text + [q] + rest, 1, "").1 == 1 + |text|
  {
    hide Within;
    var s, close := [q] + text + [q] + rest, 1 + |text|;
    assert s[1..close] == text && s[close] == q;
    var meant := ScanWithin(s, q, text);
    assert q == '\"' || q == '\'' by { OneQuote(q, text); }
    ClosesAt(s, close, meant);
  }

  lemma OneQuote(q: char, text: string)
    requires Within(q, text)
    ensures q == '\"' || q == '\''
  {
  }

  lemma ClosesAt(s: string, close: nat, text: string)
    requires 0 < close < |s| && s[close] == s[0] && s[0] != '\\'
    ensures ScanQuoted(s, close, text) == (text, close)
  {
  }
}
