/** What Load makes of lists as people type them: bare, single-quoted and double-quoted items, blanks around them. */
module ConfigTypedList {
  import opened ConfigText
  import opened ConfigCodec
  import opened ConfigTyped

  datatype Item = Bare(text: string) | Single(text: string) | Double(pieces: seq<Piece>)

  /** An item with the blanks before and after it. */
  datatype Entry = Entry(before: string, item: Item, after: string)

  ghost predicate IsItem(item: Item) {
    match item
    case Bare(text) => Trimmed(text) && ',' !in text && (text != "" ==> text[0] != '\"' && text[0] != '\'')
    case Single(text) => '\'' !in text
    case Double(pieces) => Pieces(pieces)
  }

  ghost predicate IsEntry(e: Entry) {
    Blanks(e.before) && IsItem(e.item) && Blanks(e.after)
  }

  ghost predicate Entries(es: seq<Entry>) {
    forall k :: 0 <= k < |es| ==> IsEntry(es[k])
  }

  function Spelled(item: Item): string {
    match item
    case Bare(text) => text
    case Single(text) => "'" + text + "'"
    case Double(pieces) => "\"" + Typed(pieces) + "\""
  }

  function Meaning(item: Item): string {
    match item
    case Bare(text) => text
    case Single(text) => text
    case Double(pieces) => Meant(pieces)
  }

  function Part(e: Entry): string {
    e.before + Spelled(e.item) + e.after
  }

  /** The entries with commas between them. */
  function List(es: seq<Entry>): string {
    if es == [] then ""
    else if |es| == 1 then Part(es[0])
    else Part(es[0]) + "," + List(es[1..])
  }

  /** What the entries stand for; items of no text are left out. */
  function Texts(es: seq<Entry>): seq<string> {
    if es == [] then []
    else (if Meaning(es[0].item) == "" then [] else [Meaning(es[0].item)]) + Texts(es[1..])
  }

  // ---- Splitting ----

  lemma {:induction false} SplitOverText(val: string, start: nat, i: nat, w: string)
    requires start <= i && start <= |val| && At(val, i, w) && ',' !in w
    ensures SplitFrom(val, start, i, false) == SplitFrom(val, start, i + |w|, false)
    decreases |w|
  {
    if w != "" {
      assert w == w[..1] + w[1..];
      AtParts(val, i, w[..1], w[1..]);
      AtFirst(val, i, w);
      SplitOverText(val, start, i + 1, w[1..]);
    }
  }

  lemma {:induction false} SplitOverBlanks(val: string, start: nat, i: nat, w: string, atStart: bool)
    requires start <= i && start <= |val| && At(val, i, w) && Blanks(w)
    ensures SplitFrom(val, start, i, atStart) == SplitFrom(val, start, i + |w|, atStart)
    decreases |w|
  {
    if w != "" {
      assert w == w[..1] + w[1..];
      AtParts(val, i, w[..1], w[1..]);
      AtFirst(val, i, w);
      SplitOverBlanks(val, start, i + 1, w[1..], atStart);
    }
  }

  lemma {:induction false} SkipSingle(val: string, i: nat, text: string)
    requires '\'' !in text && At(val, i, text) && i + |text| < |val| && val[i + |text|] == '\''
    ensures SkipQuoted(val, i, '\'') == i + |text|
    decreases |text|
  {
    if text != "" {
      assert text == text[..1] + text[1..];
      AtParts(val, i, text[..1], text[1..]);
      AtFirst(val, i, text);
      SkipSingle(val, i + 1, text[1..]);
    }
  }

  lemma SkipPiece(val: string, i: nat, p: Piece)
    requires IsPiece(p) && At(val, i, TypedPiece(p))
    ensures SkipQuoted(val, i, QUOTE) == SkipQuoted(val, i + |TypedPiece(p)|, QUOTE)
  {
    AtFirst(val, i, TypedPiece(p));
  }

  lemma {:induction false} SkipDouble(val: string, i: nat, ps: seq<Piece>)
    requires Pieces(ps) && At(val, i, Typed(ps)) && i + |Typed(ps)| < |val| && val[i + |Typed(ps)|] == QUOTE
    ensures SkipQuoted(val, i, QUOTE) == i + |Typed(ps)|
    decreases |ps|
  {
    hide SkipQuoted, At, Typed, TypedPiece;
    TypedParts(ps);
    if ps == [] {
      SkipStops(val, i, QUOTE);
    } else {
      AtParts(val, i, TypedPiece(ps[0]), Typed(ps[1..]));
      SkipPiece(val, i, ps[0]);
      SkipDouble(val, i + |TypedPiece(ps[0])|, ps[1..]);
    }
  }

  lemma SkipStops(val: string, i: nat, c: char)
    requires i < |val| && val[i] == c
    ensures SkipQuoted(val, i, c) == i
  {
  }

  lemma Opens(val: string, start: nat, i: nat, c: char, end: nat)
    requires start <= i < |val| && val[i] == c && IsQuote(c) && SkipQuoted(val, i + 1, c) == end
    ensures SplitFrom(val, start, i, true) == SplitFrom(val, start, end + 1, false)
  {
    hide SkipQuoted;
  }

  lemma Starts(val: string, start: nat, i: nat)
    requires start <= i < |val| && val[i] != ',' && !Blank(val[i]) && !IsQuote(val[i])
    ensures SplitFrom(val, start, i, true) == SplitFrom(val, start, i + 1, false)
  {
  }

  lemma SplitOverBare(val: string, start: nat, i: nat, text: string)
    requires start <= i && start <= |val| && IsItem(Bare(text)) && At(val, i, text) && text != ""
    ensures SplitFrom(val, start, i, true) == SplitFrom(val, start, i + |text|, false)
  {
    hide SplitFrom;
    AtFirst(val, i, text);
    AtParts(val, i, text[..1], text[1..]) by {
      assert text == text[..1] + text[1..];
    }
    assert text[0] in text;
    hide At;
    Starts(val, start, i);
    SplitOverText(val, start, i + 1, text[1..]);
  }

  lemma SplitOverSingle(val: string, start: nat, i: nat, text: string)
    requires start <= i && start <= |val| && '\'' !in text && At(val, i, "'" + text + "'")
    ensures SplitFrom(val, start, i, true) == SplitFrom(val, start, i + |text| + 2, false)
  {
    hide At, SplitFrom, SkipQuoted;
    AtQuoted(val, i, '\'', text);
    SkipSingle(val, i + 1, text);
    Opens(val, start, i, '\'', i + 1 + |text|);
  }

  lemma SplitOverDouble(val: string, start: nat, i: nat, ps: seq<Piece>)
    requires start <= i && start <= |val| && Pieces(ps) && At(val, i, "\"" + Typed(ps) + "\"")
    ensures SplitFrom(val, start, i, true) == SplitFrom(val, start, i + |Typed(ps)| + 2, false)
  {
    hide At, SplitFrom, SkipQuoted, Typed;
    AtQuoted(val, i, '\"', Typed(ps));
    SkipDouble(val, i + 1, ps);
    Opens(val, start, i, '\"', i + 1 + |Typed(ps)|);
  }

  /** The scan passes over an item; only an empty one leaves it at the start of a part. */
  lemma SplitOverItem(val: string, start: nat, i: nat, item: Item)
    requires start <= i && start <= |val| && IsItem(item) && At(val, i, Spelled(item))
    ensures SplitFrom(val, start, i, true) == SplitFrom(val, start, i + |Spelled(item)|, Spelled(item) == "")
  {
    hide At, SplitFrom, Typed;
    match item
    case Bare(text) =>
      if text != "" {
        SplitOverBare(val, start, i, text);
      }
    case Single(text) => SplitOverSingle(val, start, i, text);
    case Double(pieces) => SplitOverDouble(val, start, i, pieces);
  }

  lemma AtQuoted(val: string, i: nat, q: char, text: string)
    requires At(val, i, [q] + text + [q])
    ensures At(val, i + 1, text) && i + 1 + |text| < |val| && val[i] == q && val[i + 1 + |text|] == q
  {
    AtParts(val, i, [q] + text, [q]);
    AtParts(val, i, [q], text);
    AtFirst(val, i, [q]);
    AtFirst(val, i + 1 + |text|, [q]);
  }

  /** And over a whole entry. */
  lemma SplitOverEntry(val: string, start: nat, e: Entry)
    requires start <= |val| && IsEntry(e) && At(val, start, Part(e))
    ensures SplitFrom(val, start, start, true) == SplitFrom(val, start, start + |Part(e)|, Spelled(e.item) == "")
  {
    hide SplitFrom, At, Spelled, IsItem;
    EntryAt(val, start, e);
    SplitOverBlanks(val, start, start, e.before, true);
    SplitOverItem(val, start, start + |e.before|, e.item);
    SplitOverBlanks(val, start, start + |e.before| + |Spelled(e.item)|, e.after, Spelled(e.item) == "");
  }

  lemma SplitEnds(val: string, start: nat, part: string, atStart: bool)
    requires start <= |val| && val[start..] == part
    ensures SplitFrom(val, start, start + |part|, atStart) == [part]
  {
  }

  lemma SplitComma(val: string, start: nat, part: string, atStart: bool)
    requires At(val, start, part) && At(val, start + |part|, ",")
    ensures SplitFrom(val, start, start + |part|, atStart)
         == [part] + SplitFrom(val, start + |part| + 1, start + |part| + 1, true)
  {
    AtFirst(val, start + |part|, ",");
  }

  function PartsOf(es: seq<Entry>): seq<string> {
    if es == [] then [] else [Part(es[0])] + PartsOf(es[1..])
  }

  lemma {:induction false} SplitList(val: string, start: nat, es: seq<Entry>)
    requires es != [] && Entries(es) && start <= |val| && val[start..] == List(es)
    ensures SplitFrom(val, start, start, true) == PartsOf(es)
    decreases |es|
  {
    hide SplitFrom, Part, IsEntry;
    var part := Part(es[0]);
    if |es| == 1 {
      assert val[start..] == part + "";
      SuffixParts(val, start, part, "");
      SplitOverEntry(val, start, es[0]);
      SplitEnds(val, start, part, Spelled(es[0].item) == "");
      assert PartsOf(es[1..]) == [];
    } else {
      var rest := List(es[1..]);
      assert val[start..] == part + ("," + rest);
      SuffixParts(val, start, part, "," + rest);
      SuffixParts(val, start + |part|, ",", rest);
      SplitOverEntry(val, start, es[0]);
      SplitComma(val, start, part, Spelled(es[0].item) == "");
      SplitList(val, start + |part| + 1, es[1..]);
    }
  }

  // ---- Reading the parts ----

  lemma {:induction false} BlanksTrim(before: string, text: string)
    requires Blanks(before) && (text != "" ==> !IsSpace(text[0]))
    ensures TrimLeft(before + text) == text
  {
    if before == "" {
      assert before + text == text;
    } else {
      assert (before + text)[1..] == before[1..] + text;
      BlanksTrim(before[1..], text);
    }
  }

  lemma {:induction false} BlanksTrimRight(text: string, after: string)
    requires Blanks(after) && (text != "" ==> !IsSpace(text[|text| - 1]))
    ensures TrimRight(text + after) == text
    decreases |after|
  {
    if after == "" {
      assert text + after == text;
    } else {
      var n := |after| - 1;
      assert (text + after)[..|text| + n] == text + after[..n];
      BlanksTrimRight(text, after[..n]);
    }
  }

  lemma TrimAround(before: string, text: string, after: string)
    requires Blanks(before) && Blanks(after) && Trimmed(text)
    ensures TrimSpace(before + text + after) == text
  {
    if text == "" {
      assert before + text + after == (before + after) + "";
      BlanksTrim(before + after, "");
      assert TrimSpace("") == "";
    } else {
      assert before + text + after == before + (text + after);
      BlanksTrim(before, text + after);
      BlanksTrimRight(text, after);
    }
  }

  lemma SpelledTrimmed(item: Item)
    requires IsItem(item)
    ensures Trimmed(Spelled(item))
  {
  }

  lemma ItemReads(item: Item)
    requires IsItem(item)
    ensures Unquoted(Spelled(item)) == Meaning(item)
  {
    hide Unquoted, Typed, Meant, Remark;
    NoRemark();
    match item
    case Bare(text) => UnquotedReads(text);
    case Single(text) =>
      SingleQuotedReads(text, "");
      assert "'" + text + "'" + "" == "'" + text + "'";
    case Double(pieces) =>
      DoubleQuotedReads(pieces, "");
      assert "\"" + Typed(pieces) + "\"" + "" == "\"" + Typed(pieces) + "\"";
  }

  lemma NoRemark()
    ensures Remark("")
  {
    assert Blanks(""[..0]);
  }

  lemma EntryReads(e: Entry)
    requires IsEntry(e)
    ensures Unquoted(TrimSpace(Part(e))) == Meaning(e.item)
  {
    hide Unquoted, TrimSpace, Spelled, Meaning, IsItem, Trimmed;
    SpelledTrimmed(e.item);
    TrimAround(e.before, Spelled(e.item), e.after);
    ItemReads(e.item);
  }

  lemma {:induction false} PartsMean(es: seq<Entry>)
    requires Entries(es)
    ensures NonEmpty(UnquoteAll(PartsOf(es))) == Texts(es)
    decreases |es|
  {
    hide Unquoted, TrimSpace, Part, IsEntry, Meaning;
    if es != [] {
      EntryReads(es[0]);
      PartsMean(es[1..]);
      UnquoteCons(Part(es[0]), PartsOf(es[1..]));
      NonEmptyCons(Meaning(es[0].item), UnquoteAll(PartsOf(es[1..])));
    }
  }

  /** A list without brackets, such as `Jazz's, Rock`: its items in order, without those of no text. */
  lemma ListReads(es: seq<Entry>)
    requires es != [] && Entries(es) && (List(es) != "" ==> List(es)[0] != '[')
    ensures ParsedList(List(es)) == Texts(es)
  {
    hide SplitFrom, UnquoteAll, NonEmpty, List, Texts, Entries;
    assert List(es)[0..] == List(es);
    SplitList(List(es), 0, es);
    PartsMean(es);
  }

  // ---- Lists in brackets ----

  /** A bare item that may stand in brackets with a comment behind them: no bracket and no quote in it. */
  ghost predicate Enclosed(es: seq<Entry>) {
    forall k :: 0 <= k < |es| && es[k].item.Bare? ==>
      ']' !in es[k].item.text && '\"' !in es[k].item.text && '\'' !in es[k].item.text
  }

  lemma {:induction false} EndOverText(val: string, i: nat, w: string)
    requires At(val, i, w) && ']' !in w && '\"' !in w && '\'' !in w
    ensures ListEndFrom(val, i, NO_QUOTE) == ListEndFrom(val, i + |w|, NO_QUOTE)
    decreases |w|
  {
    if w != "" {
      assert w == w[..1] + w[1..];
      AtParts(val, i, w[..1], w[1..]);
      AtFirst(val, i, w);
      EndOverText(val, i + 1, w[1..]);
    }
  }

  lemma {:induction false} EndOverSingle(val: string, i: nat, text: string)
    requires '\'' !in text && At(val, i, text)
    ensures ListEndFrom(val, i, '\'') == ListEndFrom(val, i + |text|, '\'')
    decreases |text|
  {
    if text != "" {
      assert text == text[..1] + text[1..];
      AtParts(val, i, text[..1], text[1..]);
      AtFirst(val, i, text);
      EndOverSingle(val, i + 1, text[1..]);
    }
  }

  lemma EndOverPiece(val: string, i: nat, p: Piece)
    requires IsPiece(p) && At(val, i, TypedPiece(p))
    ensures ListEndFrom(val, i, QUOTE) == ListEndFrom(val, i + |TypedPiece(p)|, QUOTE)
  {
    AtFirst(val, i, TypedPiece(p));
  }

  lemma {:induction false} EndOverDouble(val: string, i: nat, ps: seq<Piece>)
    requires Pieces(ps) && At(val, i, Typed(ps))
    ensures ListEndFrom(val, i, QUOTE) == ListEndFrom(val, i + |Typed(ps)|, QUOTE)
    decreases |ps|
  {
    hide ListEndFrom, At, Typed, TypedPiece;
    TypedParts(ps);
    if ps != [] {
      AtParts(val, i, TypedPiece(ps[0]), Typed(ps[1..]));
      EndOverPiece(val, i, ps[0]);
      EndOverDouble(val, i + |TypedPiece(ps[0])|, ps[1..]);
    }
  }

  lemma EndOpens(val: string, i: nat, c: char)
    requires i < |val| && val[i] == c && IsQuote(c)
    ensures ListEndFrom(val, i, NO_QUOTE) == ListEndFrom(val, i + 1, c)
    ensures ListEndFrom(val, i, c) == ListEndFrom(val, i + 1, NO_QUOTE)
  {
  }

  lemma EndOverSingleItem(val: string, i: nat, text: string)
    requires '\'' !in text && At(val, i, "'" + text + "'")
    ensures ListEndFrom(val, i, NO_QUOTE) == ListEndFrom(val, i + |text| + 2, NO_QUOTE)
  {
    hide At, ListEndFrom;
    AtQuoted(val, i, '\'', text);
    EndOpens(val, i, '\'');
    EndOverSingle(val, i + 1, text);
    EndOpens(val, i + 1 + |text|, '\'');
  }

  lemma EndOverDoubleItem(val: string, i: nat, ps: seq<Piece>)
    requires Pieces(ps) && At(val, i, "\"" + Typed(ps) + "\"")
    ensures ListEndFrom(val, i, NO_QUOTE) == ListEndFrom(val, i + |Typed(ps)| + 2, NO_QUOTE)
  {
    hide At, ListEndFrom, Typed, Pieces;
    AtQuoted(val, i, '\"', Typed(ps));
    EndOpens(val, i, '\"');
    EndOverDouble(val, i + 1, ps);
    EndOpens(val, i + 1 + |Typed(ps)|, '\"');
  }

  lemma EndOverItem(val: string, i: nat, item: Item)
    requires IsItem(item) && At(val, i, Spelled(item))
    requires item.Bare? ==> ']' !in item.text && '\"' !in item.text && '\'' !in item.text
    ensures ListEndFrom(val, i, NO_QUOTE) == ListEndFrom(val, i + |Spelled(item)|, NO_QUOTE)
  {
    hide At, ListEndFrom, Typed, Pieces, Trimmed;
    match item
    case Bare(text) => EndOverText(val, i, text);
    case Single(text) => EndOverSingleItem(val, i, text);
    case Double(pieces) => EndOverDoubleItem(val, i, pieces);
  }

  lemma BlanksHoldNothing(s: string)
    requires Blanks(s)
    ensures ']' !in s && '\"' !in s && '\'' !in s
  {
  }

  lemma EntryAt(val: string, i: nat, e: Entry)
    requires At(val, i, Part(e))
    ensures var w := Spelled(e.item);
            At(val, i, e.before) && At(val, i + |e.before|, w) && At(val, i + |e.before| + |w|, e.after)
  {
    hide At, Spelled;
    AtParts(val, i, e.before + Spelled(e.item), e.after);
    AtParts(val, i, e.before, Spelled(e.item));
  }

  lemma EndOverEntry(val: string, i: nat, e: Entry)
    requires IsEntry(e) && At(val, i, Part(e))
    requires e.item.Bare? ==> ']' !in e.item.text && '\"' !in e.item.text && '\'' !in e.item.text
    ensures ListEndFrom(val, i, NO_QUOTE) == ListEndFrom(val, i + |Part(e)|, NO_QUOTE)
  {
    hide ListEndFrom, At, Spelled, IsItem, Blanks;
    BlanksHoldNothing(e.before);
    BlanksHoldNothing(e.after);
    EntryAt(val, i, e);
    EndOverText(val, i, e.before);
    EndOverItem(val, i + |e.before|, e.item);
    EndOverText(val, i + |e.before| + |Spelled(e.item)|, e.after);
  }

  lemma {:induction false} EndOverList(val: string, i: nat, es: seq<Entry>)
    requires Entries(es) && Enclosed(es) && At(val, i, List(es))
    ensures ListEndFrom(val, i, NO_QUOTE) == ListEndFrom(val, i + |List(es)|, NO_QUOTE)
    decreases |es|
  {
    hide ListEndFrom, At, Part, IsEntry;
    if es != [] {
      if |es| == 1 {
        EndOverEntry(val, i, es[0]);
      } else {
        AtParts(val, i, Part(es[0]) + ",", List(es[1..]));
        AtParts(val, i, Part(es[0]), ",");
        EndOverEntry(val, i, es[0]);
        EndOverText(val, i + |Part(es[0])|, ",");
        EndOverList(val, i + |Part(es[0])| + 1, es[1..]);
      }
    }
  }

  /** A list in brackets, with or without a comment behind it. */
  lemma BracketedListReads(es: seq<Entry>, remark: string)
    requires es != [] && Entries(es) && Enclosed(es) && Remark(remark)
    ensures ParsedList("[" + List(es) + "]" + remark) == Texts(es)
  {
    hide SplitFrom, UnquoteAll, NonEmpty, List, Texts, Entries, Enclosed;
    var val, body := "[" + List(es) + "]" + remark, List(es);
    var end := 1 + |body|;
    assert val[1..end] == body && val[end] == ']' && val[end + 1..] == remark;
    EndOverList(val, 1, es);
    AfterCloseIs(remark);
    hide AfterClose, Remark;
    assert ListItems(val) == body;
    assert body[0..] == body;
    SplitList(body, 0, es);
    PartsMean(es);
  }

  // ---- An apostrophe in brackets ----

  lemma {:induction false} NeverEnds(val: string, i: nat, quote: char)
    requires IsQuote(quote) && (forall k :: i <= k < |val| ==> val[k] != quote)
    ensures ListEndFrom(val, i, quote) == -1
    decreases |val| - i
  {
    if i < |val| {
      NeverEnds(val, if quote == QUOTE && val[i] == BACKSLASH then i + 2 else i + 1, quote);
    }
  }

  lemma OpenEnds(a: string, b: string)
    requires ']' !in a && '\"' !in a && '\'' !in a && '\'' !in b
    ensures ListEndFrom("[" + a + "'" + b + "]", 1, NO_QUOTE) == -1
  {
    var val, i := "[" + a + "'" + b + "]", 1 + |a|;
    assert val[1..i] == a && val[i] == '\'';
    EndOverText(val, 1, a);
    EndOpens(val, i, '\'');
    forall k | i + 1 <= k < |val| ensures val[k] != '\'' {
      assert val[k] == (b + "]")[k - i - 1];
    }
    hide ListEndFrom, At;
    NeverEnds(val, i + 1, '\'');
  }

  lemma BracketsTrim(body: string)
    requires body != "" && body[0] != '[' && body[0] != ']' && body[|body| - 1] != '[' && body[|body| - 1] != ']'
    ensures TrimBrackets("[" + body + "]") == body
  {
    var val := "[" + body + "]";
    assert val[1..] == body + "]" && (body + "]")[..|body|] == body;
    assert TrimBrackets(body) == body;
    assert TrimBrackets(body + "]") == body;
  }

  /** An apostrophe in a bare item, as in `[Jazz's, Rock]`, hides the closing bracket; the list reads all the same. */
  lemma ApostropheListReads(es: seq<Entry>, a: string, b: string)
    requires es != [] && Entries(es) && List(es) == a + "'" + b
    requires ']' !in a && '\"' !in a && '\'' !in a && '\'' !in b
    requires List(es)[0] != '[' && List(es)[|List(es)| - 1] !in {'[', ']'}
    ensures ParsedList("[" + List(es) + "]") == Texts(es)
  {
    hide SplitFrom, UnquoteAll, NonEmpty, List, Texts, Entries, TrimBrackets, ListEndFrom;
    var body := List(es);
    assert "[" + body + "]" == "[" + a + "'" + b + "]";
    OpenEnds(a, b);
    assert body[0] == (if a == "" then '\'' else a[0]);
    BracketsTrim(body);
    assert ListItems("[" + body + "]") == body;
    assert body[0..] == body;
    SplitList(body, 0, es);
    PartsMean(es);
  }

  /** A list without its closing bracket is read to the end of the line. */
  lemma UnclosedListReads(es: seq<Entry>)
    requires es != [] && Entries(es) && Enclosed(es) && List(es) != ""
    requires List(es)[0] !in {'[', ']'} && List(es)[|List(es)| - 1] !in {'[', ']'}
    ensures ParsedList("[" + List(es)) == Texts(es)
  {
    hide SplitFrom, UnquoteAll, NonEmpty, List, Texts, Entries, Enclosed;
    var val, body := "[" + List(es), List(es);
    assert val[1..1 + |body|] == body;
    EndOverList(val, 1, es);
    NoEndAtEnd(val);
    hide ListEndFrom;
    assert val[1..] == body;
    assert TrimBrackets(val) == TrimBrackets(body) == body;
    assert body[0..] == body;
    SplitList(body, 0, es);
    PartsMean(es);
  }

  lemma NoEndAtEnd(val: string)
    ensures ListEndFrom(val, |val|, NO_QUOTE) == -1
  {
  }
}
