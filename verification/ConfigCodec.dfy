/**
 Strings and lists of strings as values of config.toml: what QuoteString and SaveMixcloudStyles write is what
 unquote and parseStringSlice read back.
 */
module ConfigCodec {
  import opened ConfigText

  const QUOTE := '\"'
  const BACKSLASH := '\\'
  const NO_QUOTE := '\0'

  predicate IsQuote(c: char) {
    c == QUOTE || c == '\''
  }

  // ---- Positions ----

  /** From index i on, val starts with part. */
  predicate At(val: string, i: nat, part: string) {
    i + |part| <= |val| && val[i..i + |part|] == part
  }

  lemma AtParts(val: string, i: nat, a: string, b: string)
    requires At(val, i, a + b)
    ensures At(val, i, a) && At(val, i + |a|, b)
  {
    var ab := val[i..i + |a| + |b|];
    assert ab[..|a|] == val[i..i + |a|];
    assert ab[|a|..] == val[i + |a|..i + |a| + |b|];
  }

  lemma SuffixParts(val: string, i: nat, a: string, b: string)
    requires i <= |val| && val[i..] == a + b
    ensures At(val, i, a) && val[i + |a|..] == b
  {
    assert val[i..][..|a|] == val[i..i + |a|];
    assert val[i..][|a|..] == val[i + |a|..];
  }

  lemma AtFirst(val: string, i: nat, part: string)
    requires At(val, i, part) && part != ""
    ensures val[i] == part[0]
    ensures |part| > 1 ==> val[i + 1] == part[1]
  {
    assert val[i..i + |part|][0] == val[i];
  }

  // ---- Writing ----

  function Escape(s: string): string {
    if s == "" then ""
    else (if s[0] == BACKSLASH || s[0] == QUOTE then [BACKSLASH, s[0]] else [s[0]]) + Escape(s[1..])
  }

  function QuoteString(s: string): (r: string)
    ensures |r| >= 2 && r[0] == QUOTE && r[|r| - 1] == QUOTE
  {
    [QUOTE] + Escape(s) + [QUOTE]
  }

  function JoinItems(items: seq<string>): string {
    if items == [] then ""
    else if |items| == 1 then items[0]
    else items[0] + ", " + JoinItems(items[1..])
  }

  function QuoteAll(items: seq<string>): (r: seq<string>)
    ensures |r| == |items|
  {
    seq(|items|, k requires 0 <= k < |items| => QuoteString(items[k]))
  }

  /** The list value SaveMixcloudStyles writes. */
  function FormatList(items: seq<string>): string {
    "[" + JoinItems(QuoteAll(items)) + "]"
  }

  // ---- Reading a string ----

  /** Whether rest, the text after a closing quote or bracket, is empty or a comment. */
  predicate AfterClose(rest: string) {
    var t := TrimBlanks(rest);
    t == "" || t[0] == '#'
  }

  /** The text from index i of s up to the quote s[0] that ends it, and the index of that quote or -1. */
  function ScanQuoted(s: string, i: nat, text: string): (r: (string, int))
    requires s != ""
    ensures -1 <= r.1 < |s| && (r.1 >= 0 ==> i <= r.1)
    decreases |s| - i
  {
    if i >= |s| then (text, -1)
    else if s[0] == QUOTE && s[i] == BACKSLASH && i + 1 < |s| && (s[i + 1] == BACKSLASH || s[i + 1] == QUOTE) then
      ScanQuoted(s, i + 2, text + [s[i + 1]])
    else if s[i] == s[0] then (text, i)
    else ScanQuoted(s, i + 1, text + [s[i]])
  }

  function TrimQuotesRight(s: string): string {
    if s != "" && IsQuote(s[|s| - 1]) then TrimQuotesRight(s[..|s| - 1]) else s
  }

  function Unquoted(s: string): string {
    if |s| < 2 || !IsQuote(s[0]) then s
    else
      var (text, close) := ScanQuoted(s, 1, "");
      if close >= 0 && AfterClose(s[close + 1..]) then text
      else if close < 0 then TrimQuotesRight(s[1..])
      else if s[|s| - 1] == s[0] then s[1..|s| - 1]
      else s
  }

  method Unquote(s: string) returns (r: string)
    ensures r == Unquoted(s)
  {
    if |s| < 2 || !IsQuote(s[0]) {
      return s;
    }
    var q, b, closed, i := s[0], "", false, 1;
    while i < |s|
      invariant 1 <= i
      invariant !closed && ScanQuoted(s, 1, "") == ScanQuoted(s, i, b)
      decreases |s| - i
    {
      var c := s[i];
      if q == QUOTE && c == BACKSLASH && i + 1 < |s| && (s[i + 1] == BACKSLASH || s[i + 1] == QUOTE) {
        i := i + 1;
        b := b + [s[i]];
        i := i + 1;
        continue;
      }
      if c == q {
        if AfterClose(s[i + 1..]) {
          return b;
        }
        closed := true;
        break;
      }
      b := b + [c];
      i := i + 1;
    }
    if !closed {
      return TrimQuotesRight(s[1..]);
    }
    if s[|s| - 1] == q {
      return s[1..|s| - 1];
    }
    return s;
  }

  /** The first character of t as Escape writes it. */
  function EscapeFirst(t: string): (r: string)
    requires t != ""
    ensures Escape(t) == r + Escape(t[1..])
  {
    if t[0] == BACKSLASH || t[0] == QUOTE then [BACKSLASH, t[0]] else [t[0]]
  }

  lemma ScanOne(s: string, i: nat, text: string, c: char)
    requires s != "" && s[0] == QUOTE && At(s, i, EscapeFirst([c]))
    ensures ScanQuoted(s, i, text) == ScanQuoted(s, i + |EscapeFirst([c])|, text + [c])
  {
    AtFirst(s, i, EscapeFirst([c]));
  }

  /** Scanning over an escaped text collects the text and stops at the quote behind it. */
  lemma {:induction false} ScanEscaped(s: string, i: nat, text: string, t: string)
    requires s != "" && s[0] == QUOTE
    requires At(s, i, Escape(t)) && i + |Escape(t)| < |s| && s[i + |Escape(t)|] == QUOTE
    ensures ScanQuoted(s, i, text) == (text + t, i + |Escape(t)|)
    decreases |t|
  {
    hide Escape, ScanQuoted;
    if t == "" {
      NothingEscaped();
      ScanStops(s, i, text);
    } else {
      EscapeOne(t);
      var first, rest := EscapeFirst(t), t[1..];
      AtParts(s, i, first, Escape(rest));
      hide At, EscapeFirst;
      ScanOne(s, i, text, t[0]);
      ScanEscaped(s, i + |first|, text + [t[0]], rest);
      assert t == [t[0]] + rest;
      assert text + ([t[0]] + rest) == text + [t[0]] + rest;
    }
  }

  lemma ScanStops(s: string, i: nat, text: string)
    requires i < |s| && s[0] == s[i] == QUOTE
    ensures ScanQuoted(s, i, text) == (text, i) && text + "" == text
  {
  }

  lemma NothingEscaped()
    ensures Escape("") == ""
  {
  }

  lemma EscapeOne(t: string)
    requires t != ""
    ensures Escape(t) == EscapeFirst(t) + Escape(t[1..]) && EscapeFirst([t[0]]) == EscapeFirst(t)
    ensures |Escape(t)| == |EscapeFirst(t)| + |Escape(t[1..])|
  {
  }

  /** A quoted string, with or without a comment behind it, reads back as the string. */
  lemma QuoteRoundTrip(s: string, comment: string)
    requires AfterClose(comment)
    ensures Unquoted(QuoteString(s) + comment) == s
  {
    var v := QuoteString(s) + comment;
    var close := 1 + |Escape(s)|;
    assert v[1..close] == Escape(s);
    assert v[close + 1..] == comment;
    ScanEscaped(v, 1, "", s);
  }

  // ---- Reading a list ----

  /** The first ] at or after i that is outside quotes, or -1; quote is the open quote. */
  function ListEndFrom(val: string, i: nat, quote: char): (r: int)
    ensures r == -1 || (i <= r < |val| && val[r] == ']')
    decreases |val| - i
  {
    if i >= |val| then -1
    else
      var c := val[i];
      if quote == QUOTE && c == BACKSLASH then ListEndFrom(val, i + 2, quote)
      else if quote != NO_QUOTE then ListEndFrom(val, i + 1, if c == quote then NO_QUOTE else quote)
      else if IsQuote(c) then ListEndFrom(val, i + 1, c)
      else if c == ']' then i
      else ListEndFrom(val, i + 1, NO_QUOTE)
  }

  method ListEnd(val: string) returns (r: int)
    ensures r == ListEndFrom(val, 1, NO_QUOTE)
  {
    var quote, i := NO_QUOTE, 1;
    while i < |val|
      invariant 1 <= i
      invariant ListEndFrom(val, 1, NO_QUOTE) == ListEndFrom(val, i, quote)
      decreases |val| - i
    {
      var c := val[i];
      if quote == QUOTE && c == BACKSLASH {
        i := i + 1;
      } else if quote != NO_QUOTE {
        if c == quote {
          quote := NO_QUOTE;
        }
      } else if IsQuote(c) {
        quote := c;
      } else if c == ']' {
        return i;
      }
      i := i + 1;
    }
    return -1;
  }

  function TrimBrackets(s: string): string
    decreases |s|
  {
    if s != "" && (s[0] == '[' || s[0] == ']') then TrimBrackets(s[1..])
    else if s != "" && (s[|s| - 1] == '[' || s[|s| - 1] == ']') then TrimBrackets(s[..|s| - 1])
    else s
  }

  function ListItems(val: string): string {
    if !HasPrefix(val, '[') then val
    else
      var end := ListEndFrom(val, 1, NO_QUOTE);
      if end > 0 && AfterClose(val[end + 1..]) then val[1..end] else TrimBrackets(val)
  }

  /** The index of the quote c that ends the quoted text at i, or past the end. */
  function SkipQuoted(items: string, i: nat, c: char): (r: nat)
    ensures r >= i
    decreases |items| - i
  {
    if i >= |items| || items[i] == c then i
    else SkipQuoted(items, i + (if c == QUOTE && items[i] == BACKSLASH then 2 else 1), c)
  }

  /** The items from start on, with the scan at i; atStart says nothing but white space was seen since start. */
  function SplitFrom(items: string, start: nat, i: nat, atStart: bool): seq<string>
    requires start <= i && start <= |items|
    decreases |items| - i
  {
    if i >= |items| then [items[start..]]
    else if items[i] == ',' then [items[start..i]] + SplitFrom(items, i + 1, i + 1, true)
    else if items[i] == ' ' || items[i] == '\t' then SplitFrom(items, start, i + 1, atStart)
    else if atStart && IsQuote(items[i]) then SplitFrom(items, start, SkipQuoted(items, i + 1, items[i]) + 1, false)
    else SplitFrom(items, start, i + 1, false)
  }

  method SplitItems(items: string) returns (parts: seq<string>)
    ensures parts == SplitFrom(items, 0, 0, true)
  {
    parts := [];
    var start, atStart, i := 0, true, 0;
    while i < |items|
      invariant start <= i && start <= |items|
      invariant SplitFrom(items, 0, 0, true) == parts + SplitFrom(items, start, i, atStart)
      decreases |items| - i
    {
      var c := items[i];
      if c == ',' {
        parts := parts + [items[start..i]];
        start, atStart := i + 1, true;
      } else if c == ' ' || c == '\t' {
      } else if atStart && IsQuote(c) {
        ghost var open := i;
        i := i + 1;
        while i < |items| && items[i] != c
          invariant open < i
          invariant SkipQuoted(items, open + 1, c) == SkipQuoted(items, i, c)
          decreases |items| - i
        {
          if c == QUOTE && items[i] == BACKSLASH {
            i := i + 1;
          }
          i := i + 1;
        }
        atStart := false;
      } else {
        atStart := false;
      }
      i := i + 1;
    }
    parts := parts + [items[start..]];
  }

  function NonEmpty(items: seq<string>): seq<string> {
    if items == [] then [] else (if items[0] == "" then [] else [items[0]]) + NonEmpty(items[1..])
  }

  function UnquoteAll(parts: seq<string>): (r: seq<string>)
    ensures |r| == |parts|
  {
    if parts == [] then [] else [Unquoted(TrimSpace(parts[0]))] + UnquoteAll(parts[1..])
  }

  function ParsedList(val: string): seq<string> {
    NonEmpty(UnquoteAll(SplitFrom(ListItems(val), 0, 0, true)))
  }

  method ParseStringSlice(val: string) returns (result: seq<string>)
    ensures result == ParsedList(val)
  {
    var items := ListItems(val);
    var parts := SplitItems(items);
    result := [];
    assert parts[0..] == parts;
    for k := 0 to |parts|
      invariant NonEmpty(UnquoteAll(parts)) == result + NonEmpty(UnquoteAll(parts[k..]))
    {
      var p := Unquote(TrimSpace(parts[k]));
      CleanStep(parts, k, result);
      hide NonEmpty, UnquoteAll, Unquoted;
      if p != "" {
        result := result + [p];
      }
    }
  }

  lemma CleanStep(parts: seq<string>, k: nat, result: seq<string>)
    requires k < |parts|
    ensures var p := Unquoted(TrimSpace(parts[k]));
            var next := if p != "" then result + [p] else result;
            result + NonEmpty(UnquoteAll(parts[k..])) == next + NonEmpty(UnquoteAll(parts[k + 1..]))
  {
    hide Unquoted, TrimSpace, NonEmpty;
    var p, rest := Unquoted(TrimSpace(parts[k])), UnquoteAll(parts[k + 1..]);
    assert parts[k..][1..] == parts[k + 1..];
    assert UnquoteAll(parts[k..]) == [p] + rest;
    NonEmptyCons(p, rest);
    assert result + ((if p == "" then [] else [p]) + NonEmpty(rest))
           == (result + (if p == "" then [] else [p])) + NonEmpty(rest);
  }

  lemma NonEmptyCons(p: string, rest: seq<string>)
    ensures NonEmpty([p] + rest) == (if p == "" then [] else [p]) + NonEmpty(rest)
  {
    assert ([p] + rest)[1..] == rest;
  }

  // ---- The list round trip ----

  lemma {:induction false} ListEndInQuotes(val: string, i: nat, t: string)
    requires At(val, i, Escape(t))
    ensures ListEndFrom(val, i, QUOTE) == ListEndFrom(val, i + |Escape(t)|, QUOTE)
    decreases |t|
  {
    if t != "" {
      var first := EscapeFirst(t);
      AtParts(val, i, first, Escape(t[1..]));
      AtFirst(val, i, first);
      ListEndInQuotes(val, i + |first|, t[1..]);
    }
  }

  /** Looking for the closing bracket jumps over a quoted string, whatever it holds. */
  lemma ListEndSkipsQuoted(val: string, i: nat, t: string)
    requires At(val, i, QuoteString(t))
    ensures ListEndFrom(val, i, NO_QUOTE) == ListEndFrom(val, i + |QuoteString(t)|, NO_QUOTE)
  {
    AtParts(val, i, [QUOTE] + Escape(t), [QUOTE]);
    AtParts(val, i, [QUOTE], Escape(t));
    var close := i + 1 + |Escape(t)|;
    AtFirst(val, i, [QUOTE]);
    AtFirst(val, close, [QUOTE]);
    ListEndInQuotes(val, i + 1, t);
  }

  lemma {:induction false} ListEndSkipsItems(val: string, i: nat, items: seq<string>)
    requires At(val, i, JoinItems(QuoteAll(items)))
    ensures ListEndFrom(val, i, NO_QUOTE) == ListEndFrom(val, i + |JoinItems(QuoteAll(items))|, NO_QUOTE)
    decreases |items|
  {
    hide QuoteString, QuoteAll, ListEndFrom, JoinItems;
    if |items| > 1 {
      JoinQuoted(items);
      var q, rest := QuoteString(items[0]), JoinItems(QuoteAll(items[1..]));
      AtParts(val, i, q + ", ", rest);
      AtParts(val, i, q, ", ");
      ListEndSkipsQuoted(val, i, items[0]);
      ListEndSkipsComma(val, i + |q|);
      ListEndSkipsItems(val, i + |q| + 2, items[1..]);
    } else {
      JoinFew(items);
      if items != [] {
        ListEndSkipsQuoted(val, i, items[0]);
      }
    }
  }

  lemma ListEndSkipsComma(val: string, i: nat)
    requires At(val, i, ", ")
    ensures ListEndFrom(val, i, NO_QUOTE) == ListEndFrom(val, i + 2, NO_QUOTE)
  {
    AtFirst(val, i, ", ");
  }

  lemma JoinFew(items: seq<string>)
    requires |items| <= 1
    ensures JoinItems(QuoteAll(items)) == if items == [] then "" else QuoteString(items[0])
  {
  }

  lemma JoinQuoted(items: seq<string>)
    requires |items| > 1
    ensures JoinItems(QuoteAll(items)) == QuoteString(items[0]) + ", " + JoinItems(QuoteAll(items[1..]))
  {
    assert QuoteAll(items)[1..] == QuoteAll(items[1..]);
  }

  lemma {:induction false} SkipEscaped(val: string, i: nat, t: string)
    requires At(val, i, Escape(t)) && i + |Escape(t)| < |val| && val[i + |Escape(t)|] == QUOTE
    ensures SkipQuoted(val, i, QUOTE) == i + |Escape(t)|
    decreases |t|
  {
    if t != "" {
      var first := EscapeFirst(t);
      AtParts(val, i, first, Escape(t[1..]));
      AtFirst(val, i, first);
      SkipEscaped(val, i + |first|, t[1..]);
    }
  }

  /** The scan for commas jumps over a quoted item. */
  lemma SplitSkipsQuoted(val: string, start: nat, i: nat, t: string)
    requires start <= i && At(val, i, QuoteString(t))
    ensures SplitFrom(val, start, i, true) == SplitFrom(val, start, i + |QuoteString(t)|, false)
  {
    AtParts(val, i, [QUOTE] + Escape(t), [QUOTE]);
    AtParts(val, i, [QUOTE], Escape(t));
    var close := i + 1 + |Escape(t)|;
    AtFirst(val, i, [QUOTE]);
    AtFirst(val, close, [QUOTE]);
    SkipEscaped(val, i + 1, t);
  }

  /** The parts of a written list: each quoted item, with the space that follows a comma. */
  function Parts(items: seq<string>, lead: string): seq<string> {
    if items == [] then [] else [lead + QuoteString(items[0])] + Parts(items[1..], " ")
  }

  lemma SplitFirst(val: string, start: nat, t: string, lead: string)
    requires lead == "" || lead == " "
    requires At(val, start, lead + QuoteString(t))
    ensures SplitFrom(val, start, start, true) == SplitFrom(val, start, start + |lead + QuoteString(t)|, false)
  {
    AtParts(val, start, lead, QuoteString(t));
    if lead == " " {
      AtFirst(val, start, lead);
    }
    SplitSkipsQuoted(val, start, start + |lead|, t);
  }

  lemma {:induction false} SplitQuoted(val: string, start: nat, items: seq<string>, lead: string)
    requires items != [] && (lead == "" || lead == " ")
    requires start <= |val| && val[start..] == lead + JoinItems(QuoteAll(items))
    ensures SplitFrom(val, start, start, true) == Parts(items, lead)
    decreases |items|
  {
    hide QuoteString, QuoteAll, JoinItems, SplitFrom;
    var part := lead + QuoteString(items[0]);
    var i := start + |part|;
    if |items| == 1 {
      JoinFew(items);
      assert val[start..] == part + "";
      SuffixParts(val, start, part, "");
      SplitFirst(val, start, items[0], lead);
      SplitLast(val, start, part);
      assert Parts(items[1..], " ") == [];
    } else {
      JoinQuoted(items);
      var rest := " " + JoinItems(QuoteAll(items[1..]));
      assert val[start..] == part + ("," + rest);
      SuffixParts(val, start, part, "," + rest);
      SuffixParts(val, i, ",", rest);
      SplitFirst(val, start, items[0], lead);
      SplitAtComma(val, start, part);
      SplitQuoted(val, i + 1, items[1..], " ");
    }
  }

  lemma SplitLast(val: string, start: nat, part: string)
    requires At(val, start, part) && start + |part| == |val|
    ensures SplitFrom(val, start, start + |part|, false) == [part]
  {
    assert val[start..] == val[start..start + |part|];
  }

  lemma SplitAtComma(val: string, start: nat, part: string)
    requires At(val, start, part) && At(val, start + |part|, ",")
    ensures SplitFrom(val, start, start + |part|, false)
         == [part] + SplitFrom(val, start + |part| + 1, start + |part| + 1, true)
  {
    AtFirst(val, start + |part|, ",");
  }

  lemma PartReads(lead: string, t: string)
    requires lead == "" || lead == " "
    ensures Unquoted(TrimSpace(lead + QuoteString(t))) == t
  {
    QuoteRoundTrip(t, "");
    hide Unquoted, Escape, TrimLeft, TrimRight;
    var q := QuoteString(t);
    assert q + "" == q;
    TrimQuoted(q, lead);
  }

  lemma TrimQuoted(q: string, lead: string)
    requires |q| >= 2 && q[0] == QUOTE && q[|q| - 1] == QUOTE && (lead == "" || lead == " ")
    ensures TrimSpace(lead + q) == q
  {
    if lead == "" {
      assert lead + q == q;
    } else {
      assert (lead + q)[0] == ' ' && (lead + q)[1..] == q;
      assert TrimLeft(q) == q;
    }
  }

  lemma {:induction false} PartsRead(items: seq<string>, lead: string)
    requires lead == "" || lead == " "
    ensures UnquoteAll(Parts(items, lead)) == items
    decreases |items|
  {
    if items != [] {
      var first, rest := lead + QuoteString(items[0]), Parts(items[1..], " ");
      assert Parts(items, lead) == [first] + rest;
      hide Parts, UnquoteAll, Unquoted, QuoteString, TrimSpace;
      PartReads(lead, items[0]);
      PartsRead(items[1..], " ");
      UnquoteCons(first, rest);
    }
  }

  lemma UnquoteCons(first: string, rest: seq<string>)
    ensures UnquoteAll([first] + rest) == [Unquoted(TrimSpace(first))] + UnquoteAll(rest)
  {
    assert ([first] + rest)[1..] == rest;
  }

  /** A written list, with or without a comment behind it, reads back as its non-empty strings in order. */
  lemma ListRoundTrip(items: seq<string>, comment: string)
    requires AfterClose(comment)
    ensures ParsedList(FormatList(items) + comment) == NonEmpty(items)
  {
    hide ListItems, SplitFrom, UnquoteAll, FormatList, JoinItems, QuoteAll;
    ListBody(items, comment);
    if items == [] {
      NothingListed();
    } else {
      var body := JoinItems(QuoteAll(items));
      assert body[0..] == "" + body;
      SplitQuoted(body, 0, items, "");
      PartsRead(items, "");
    }
  }

  lemma NothingListed()
    ensures NonEmpty(UnquoteAll(SplitFrom(JoinItems(QuoteAll([])), 0, 0, true))) == []
  {
    assert SplitFrom("", 0, 0, true) == [""];
    assert UnquoteAll([""]) == [""];
  }

  /** The text between the brackets of a written list. */
  lemma ListBody(items: seq<string>, comment: string)
    requires AfterClose(comment)
    ensures ListItems(FormatList(items) + comment) == JoinItems(QuoteAll(items))
  {
    hide JoinItems, QuoteAll, AfterClose;
    var body := JoinItems(QuoteAll(items));
    var val := FormatList(items) + comment;
    var end := 1 + |body|;
    assert val[1..end] == body && val[end] == ']' && val[end + 1..] == comment;
    ListEndSkipsItems(val, 1, items);
  }
}
