/**
 Which titles are reported: what a metadata block says in each of its forms, and that the reads of a stream whose
 blocks announce titles report those titles, in their order.
 */
module IcyTitles {
  import opened Common
  import opened Icy

  /** part does not occur in s. */
  ghost predicate Free(s: string, part: string) {
    forall k :: 0 <= k < |s| ==> !StartsAt(s, k, part)
  }

  /** The prefix that ends lead is the first one in lead + behind. */
  ghost predicate FirstPrefix(lead: string, behind: string) {
    forall k :: 0 <= k < |lead| ==> !StartsAt(lead + "StreamTitle='" + behind, k, "StreamTitle='")
  }

  // ---- Padding ----

  /** Trimming goes no further than a part that does not end in NUL. */
  lemma {:induction false} TrimBehind(s: string, behind: string)
    requires s != "" && s[|s| - 1] != '\0'
    ensures TrimNul(s + behind) == s + TrimNul(behind) && TrimNul(behind) <= behind
    decreases |behind|
  {
    if behind == "" {
      assert s + behind == s;
    } else if behind[|behind| - 1] == '\0' {
      assert (s + behind)[..|s + behind| - 1] == s + behind[..|behind| - 1];
      TrimBehind(s, behind[..|behind| - 1]);
    } else {
      assert (s + behind)[|s + behind| - 1] == behind[|behind| - 1];
    }
  }

  lemma StartsInLonger(s: string, k: nat, part: string, behind: string)
    requires StartsAt(s, k, part)
    ensures StartsAt(s + behind, k, part)
  {
    assert (s + behind)[k..k + |part|] == s[k..k + |part|];
  }

  /** What stands before the first prefix, and the padding behind a part that is none, do not count. */
  lemma TitleIsBehindPrefix(lead: string, kept: string, behind: string)
    requires FirstPrefix(lead, kept + behind) && (kept == "" || kept[|kept| - 1] != '\0')
    ensures TitleOf(lead + "StreamTitle='" + (kept + behind))
            == (var title := ParseStreamTitle(TITLE_PREFIX + (kept + TrimNul(behind)));
                if title == "" then [] else [title])
    ensures TrimNul(behind) <= behind
  {
    hide ParseStreamTitle, TrimNul, StartsAt, TITLE_PREFIX;
    var after := kept + TrimNul(behind);
    var all := lead + TITLE_PREFIX + kept;
    PrefixEnds();
    assert lead + "StreamTitle='" + (kept + behind) == all + behind;
    TrimBehind(all, behind);
    assert all + TrimNul(behind) == lead + TITLE_PREFIX + after;
    LeadDrops(lead, after, behind[|TrimNul(behind)|..]) by {
      assert after + behind[|TrimNul(behind)|..] == kept + behind;
    }
  }

  lemma PrefixEnds()
    ensures |TITLE_PREFIX| > 0 && TITLE_PREFIX[|TITLE_PREFIX| - 1] != '\0' && TITLE_PREFIX == "StreamTitle='"
  {
  }

  lemma LeadDrops(lead: string, after: string, cut: string)
    requires FirstPrefix(lead, after + cut)
    ensures ParseStreamTitle(lead + TITLE_PREFIX + after) == ParseStreamTitle(TITLE_PREFIX + after)
  {
    hide Find, StartsAt, TITLE_PREFIX, LastQuote;
    PrefixEnds();
    var meta := lead + TITLE_PREFIX + after;
    assert meta + cut == lead + "StreamTitle='" + (after + cut);
    forall k | 0 <= k < |lead| ensures !StartsAt(meta, k, TITLE_PREFIX) {
      if StartsAt(meta, k, TITLE_PREFIX) {
        StartsInLonger(meta, k, TITLE_PREFIX, cut);
      }
    }
    Here(lead, TITLE_PREFIX, after);
    assert meta[|lead| + |TITLE_PREFIX|..] == after;
    PrefixComesFirst(after);
    assert (TITLE_PREFIX + after)[|TITLE_PREFIX|..] == after;
  }

  lemma Here(lead: string, part: string, behind: string)
    ensures StartsAt(lead + part + behind, |lead|, part)
  {
  }

  // ---- The forms of a block ----

  /** A closed title is reported as it is, unless it is empty; what follows it does not count. */
  lemma ClosedTitle(lead: string, title: string, behind: string)
    requires FirstPrefix(lead, title + "';" + behind) && Free(title, "';")
    ensures TitleOf(lead + "StreamTitle='" + (title + "';" + behind)) == if title == "" then [] else [title]
  {
    hide ParseStreamTitle, TrimNul, StartsAt, TitleOf;
    TitleIsBehindPrefix(lead, title + "';", behind);
    assert TITLE_PREFIX + (title + "';" + TrimNul(behind)) == TITLE_PREFIX + title + TITLE_END + TrimNul(behind);
    TitleReadsBack(title, TrimNul(behind));
  }

  /** Without the semicolon the title goes up to the last quote. */
  lemma UnclosedTitle(lead: string, title: string, behind: string)
    requires FirstPrefix(lead, title + "'" + behind) && Free(title + "'" + behind, "';") && '\'' !in behind
    ensures TitleOf(lead + "StreamTitle='" + (title + "'" + behind)) == if title == "" then [] else [title]
  {
    hide ParseStreamTitle, TrimNul, StartsAt, TitleOf;
    TitleIsBehindPrefix(lead, title + "'", behind);
    var rest := TrimNul(behind);
    var after := title + "'" + rest;
    assert after + behind[|rest|..] == title + "'" + behind;
    assert after[|title|] == '\'' && forall k :: |title| < k < |after| ==> after[k] == rest[k - |title| - 1];
    UpToLastQuote(after, behind[|rest|..], |title|);
    assert after[..|title|] == title;
  }

  /** Without any quote behind the prefix nothing is reported. */
  lemma NoQuoteNoTitle(lead: string, behind: string)
    requires FirstPrefix(lead, behind) && '\'' !in behind
    ensures TitleOf(lead + "StreamTitle='" + behind) == []
  {
    hide ParseStreamTitle, TrimNul, StartsAt, TitleOf;
    assert "" + behind == behind;
    TitleIsBehindPrefix(lead, "", behind);
    var rest := TrimNul(behind);
    assert "" + rest == rest && rest + "" == rest;
    forall k | 0 <= k < |rest| ensures !StartsAt(rest, k, "';") {
      MarkIsQuote(rest, k);
    }
    UpToLastQuote(rest, "", -1);
  }

  /** Without the prefix nothing is reported. */
  lemma NoPrefixNoTitle(meta: string)
    requires Free(meta, "StreamTitle='")
    ensures TitleOf(meta) == []
  {
    hide TrimNul, StartsAt, Find, LastQuote, TITLE_PREFIX;
    PrefixEnds();
    TrimIsPrefix(meta);
    var kept := TrimNul(meta);
    var at := Find(kept, 0, TITLE_PREFIX);
    assert kept + meta[|kept|..] == meta;
    if at >= 0 {
      StartsBefore(kept, at, TITLE_PREFIX);
      StartsInLonger(kept, at, TITLE_PREFIX, meta[|kept|..]);
      assert false;
    }
  }

  lemma StartsBefore(s: string, k: nat, part: string)
    requires StartsAt(s, k, part) && part != ""
    ensures k < |s|
  {
  }

  lemma {:induction false} TrimIsPrefix(s: string)
    ensures TrimNul(s) <= s
    decreases |s|
  {
    if s != "" && s[|s| - 1] == '\0' {
      TrimIsPrefix(s[..|s| - 1]);
    }
  }

  lemma MarkIsQuote(s: string, k: nat)
    requires k < |s|
    ensures StartsAt(s, k, "';") ==> s[k] == '\''
  {
    if StartsAt(s, k, "';") {
      assert s[k] == s[k..k + 2][0];
    }
  }

  /** The title in after, if it holds no end mark and its last quote is at at, or it has none and at is -1. */
  lemma UpToLastQuote(after: string, cut: string, at: int)
    requires Free(after + cut, "';") && -1 <= at < |after| && (at >= 0 ==> after[at] == '\'')
    requires forall k :: at < k < |after| ==> after[k] != '\''
    ensures ParseStreamTitle(TITLE_PREFIX + after) == if at < 0 then "" else after[..at]
  {
    hide StartsAt, Find, LastQuote, TITLE_PREFIX;
    PrefixComesFirst(after);
    assert (TITLE_PREFIX + after)[|TITLE_PREFIX|..] == after;
    var j := Find(after, 0, TITLE_END);
    if j >= 0 {
      StartsBefore(after, j, TITLE_END);
      StartsInLonger(after, j, TITLE_END, cut);
      assert false;
    }
    LastQuoteAt(after, at);
  }

  lemma {:induction false} LastQuoteAt(s: string, at: int)
    requires -1 <= at < |s| && (at >= 0 ==> s[at] == '\'') && forall k :: at < k < |s| ==> s[k] != '\''
    ensures LastQuote(s) == at
    decreases |s|
  {
    if s != "" && s[|s| - 1] != '\'' {
      LastQuoteAt(s[..|s| - 1], at);
    }
  }

  // ---- The stream ----

  /** The block says nothing, and title is empty, or it announces title, closed by its end mark. */
  ghost predicate Announces(block: Block, title: string) {
    || (block.meta == "" && title == "")
    || exists lead, behind :: AnnouncesBetween(block.meta, lead, title, behind)
  }

  ghost predicate AnnouncesBetween(meta: string, lead: string, title: string, behind: string) {
    && meta == lead + "StreamTitle='" + (title + "';" + behind)
    && FirstPrefix(lead, title + "';" + behind) && Free(title, "';")
  }

  function NonEmpty(titles: seq<string>): seq<string> {
    if titles == [] then []
    else (if titles[0] == "" then [] else [titles[0]]) + NonEmpty(titles[1..])
  }

  lemma {:induction false} AnnouncedTitles(blocks: seq<Block>, titles: seq<string>)
    requires |blocks| == |titles| && forall k :: 0 <= k < |blocks| ==> Announces(blocks[k], titles[k])
    ensures AllTitles(blocks) == NonEmpty(titles)
    decreases |blocks|
  {
    hide TitleOf, Announces;
    if blocks != [] {
      AnnouncedTitle(blocks[0], titles[0]);
      AnnouncedTitles(blocks[1..], titles[1..]);
    }
  }

  lemma AnnouncedTitle(block: Block, title: string)
    requires Announces(block, title)
    ensures (if block.meta == "" then [] else TitleOf(block.meta)) == if title == "" then [] else [title]
  {
    hide TitleOf, FirstPrefix, Free;
    if block.meta != "" {
      var lead, behind :| AnnouncesBetween(block.meta, lead, title, behind);
      ClosedTitle(lead, title, behind);
    }
  }

  /**
   Reading a stream whose blocks announce titles, however long the reads and whatever the stream below does, gives a
   first part of its audio and reports a first part of the titles that are not empty; by a clean end, all of both.
   */
  lemma TitlesReported(blocks: seq<Block>, titles: seq<string>, tail: string, metaInt: nat, calls: seq<Call>)
    requires metaInt > 0 && |tail| <= metaInt && |blocks| == |titles|
    requires forall k :: 0 <= k < |blocks| ==> Framed(blocks[k], metaInt) && Announces(blocks[k], titles[k])
    ensures var (t, got, err) := ReadAll(State(Mux(blocks, tail, metaInt), metaInt, []), metaInt, calls);
            && got <= AllAudio(blocks, tail) && t.titles <= NonEmpty(titles)
            && (err == EndOfStream ==> got == AllAudio(blocks, tail) && t.titles == NonEmpty(titles))
  {
    hide ReadAll, Mux, AllAudio, AllTitles, NonEmpty, Announces;
    MuxedReads(blocks, tail, metaInt, calls);
    AnnouncedTitles(blocks, titles);
  }

  // ---- Progress ----

  /** Away from the metadata, a read gives as much of what is left as it asks for and the stream below hands out. */
  lemma ReadTakes(s: State, metaInt: nat, call: Call)
    requires s.remaining > 0 && call.fault.None?
    ensures var n := Min(Min(call.len, s.remaining), Min(call.chunk, |s.left|));
            var (t, got, err) := ReadOnce(s, metaInt, call);
            && got == s.left[..n] && t == State(s.left[n..], s.remaining - n, s.titles)
            && (err == Fine || (err == EndOfStream && t.left == ""))
            && (s.left == "" && call.len > 0 ==> err == EndOfStream)
  {
    hide ConsumeMeta;
    assert Later(call.fault, 0).None? && Reach(s.left, call.fault) == |s.left|;
  }

  /** No read stands still without an error, and none reports a fault that is not there. */
  lemma ReadProgresses(s: State, metaInt: nat, call: Call)
    requires metaInt > 0 && call.len > 0 && call.chunk > 0
    ensures var (t, got, err) := ReadOnce(s, metaInt, call);
            && (got != "" || err != Fine)
            && (got != "" ==> |t.left| < |s.left|)
            && (err == Broken ==> call.fault.Some?)
  {
    hide TitleOf;
  }
}
