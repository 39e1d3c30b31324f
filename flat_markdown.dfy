/** `OpenRussian.make_word_markdown` of the script front end (openrussian.py):
    the response's first word entry carries its translations directly; the
    heading is the searched term as given, followed by an "English
    Translations" section built from `tls2`, or else from the older `tls`
    lists, and up to six example sentences under "Example Sentences". */
module FlatMarkdown {
  import opened PyText
  import opened Accent
  import opened Payload
  import opened Document

  /** An element of `tls`: a list of JSON scalars, or something else, which the
      `isinstance(group, list)` test skips. */
  datatype TlsGroup = ListGroup(items: seq<Atom>) | NotAList

  /** `words[0]`. `tls2` is tested for truthiness only; `tls` is iterated, so a
      null or a number there raises. A string or an object held in `tls`
      iterates as items that are not lists and is a sequence of `NotAList`. */
  datatype FlatWord = FlatWord(tls2: seq<MeaningGroup>, tls: Field<seq<TlsGroup>>)

  /** `results["result"]`; an entry of `words` is `None` when it is not an
      object, and `.get` on it raises. */
  datatype ResultData = ResultData(term: Field<string>, words: seq<Option<FlatWord>>, sentences: seq<Sentence>)

  const TranslationsHeading: string := "## English Translations"
  const SentencesHeading: string := "## Example Sentences"

  // When the Python code raises.

  /** What the translations stage reads of the first entry: it must be an
      object, and its `tls` must be iterable when `tls2` is empty. */
  predicate EntryRaises(e: Option<FlatWord>)
  {
    e.None? || (e.value.tls2 == [] && e.value.tls.Mistyped?)
  }

  predicate BodyRaises(d: ResultData)
  {
    (|d.words| > 0 && EntryRaises(d.words[0])) || ShownRaise(d.sentences)
  }

  /** The call raises: `results["result"]` is not an object, `term` is not a
      string, or, for a non-empty term, the first word entry or one of the
      first six sentences is malformed as described above. */
  predicate Raises(resp: Response<ResultData>)
  {
    WellShaped(resp)
    && (resp.result.Mistyped?
        || resp.result.value.term.Mistyped?
        || (StrippedText(resp.result.value.term) != "" && BodyRaises(resp.result.value)))
  }

  // The lines, as a function of the response.

  /** `str(t) for t in group`, one printed item per element. */
  function Printed(items: seq<Atom>): (r: seq<string>)
    ensures |r| == |items|
    ensures forall k :: 0 <= k < |items| ==> r[k] == PyStr(items[k])
  {
    if items == [] then [] else [PyStr(items[0])] + Printed(items[1..])
  }

  /** What one element of `tls` contributes to `all_trans`. */
  function GroupStrings(g: TlsGroup): seq<string>
  {
    if g.ListGroup? then Printed(g.items) else []
  }

  /** `all_trans` after the loop over `tls`: the printed items of every list,
      in order. */
  function Flatten(tls: seq<TlsGroup>): seq<string>
  {
    if tls == [] then [] else GroupStrings(tls[0]) + Flatten(tls[1..])
  }

  /** `first_word.get("tls", [])` for a `tls` that does not raise. */
  function TlsGroups(f: Field<seq<TlsGroup>>): seq<TlsGroup>
  {
    if f.Present? then f.value else []
  }

  /** One `tls2` group: a `- ` line with its translations joined by commas,
      when it has any. */
  function DashLine(g: MeaningGroup): seq<string>
  {
    if |g.translation| > 0 then ["- " + Join(", ", g.translation)] else []
  }

  function DashLines(gs: seq<MeaningGroup>): seq<string>
  {
    if gs == [] then [] else DashLine(gs[0]) + DashLines(gs[1..])
  }

  /** The "English Translations" section: from `tls2` when it is not empty,
      otherwise from `tls` when that yields any translation, otherwise
      nothing. */
  function TranslationSection(w: FlatWord): seq<string>
    requires !EntryRaises(Some(w))
  {
    if w.tls2 != [] then [TranslationsHeading, ""] + DashLines(w.tls2) + [""]
    else
      var all := Flatten(TlsGroups(w.tls));
      if all != [] then [TranslationsHeading, "", Join(", ", all), ""] else []
  }

  /** `if words:` the first entry only. */
  function WordsLines(words: seq<Option<FlatWord>>): seq<string>
    requires words == [] || !EntryRaises(words[0])
  {
    if words == [] then [] else TranslationSection(words[0].value)
  }

  /** The term heading and a blank line, the translations, the sentences. */
  function BodyLines(term: string, d: ResultData): seq<string>
    requires !BodyRaises(d)
  {
    ["# " + term, ""] + WordsLines(d.words) + SentenceSection(SentencesHeading, d.sentences)
  }

  function DocLines(resp: Response<ResultData>): seq<string>
    requires !Raises(resp)
  {
    if !WellShaped(resp) then ErrorLines
    else
      var term := StrippedText(resp.result.value.term);
      if term == "" then NotFoundLines
      else WithPlaceholder(BodyLines(term, resp.result.value))
  }

  /** What a call returns: the lines joined with newlines, or an exception. */
  function Markdown(resp: Response<ResultData>): Outcome
  {
    if Raises(resp) then Raised else Returned(Join("\n", DocLines(resp)))
  }

  // The builder, appending to `lines` as the Python code does.

  method MakeWordMarkdown(resp: Response<ResultData>) returns (out: Outcome)
    ensures out == Markdown(resp)
  {
    var lines: seq<string> := [];
    if !resp.Object? || resp.result.Missing? {
      lines := lines + ["# Error"];
      lines := lines + ["Invalid response from dictionary API."];
      return Returned(Join("\n", lines));
    }
    if resp.result.Mistyped? {
      return Raised;
    }
    var resultData := resp.result.value;
    if resultData.term.Mistyped? {
      return Raised;
    }
    var term := StrippedText(resultData.term);
    if term == "" {
      lines := lines + ["# No word found"];
      return Returned(Join("\n", lines));
    }
    lines := lines + ["# " + term];
    lines := lines + [""];
    assert lines == ["# " + term, ""];
    var raised;
    raised, lines := AppendBody(lines, resultData);
    if raised {
      return Raised;
    }
    assert !Raises(resp);
    assert lines == BodyLines(term, resultData);
    if |lines| <= 2 {
      lines := lines + [Placeholder];
    }
    assert lines == DocLines(resp);
    return Returned(Join("\n", lines));
  }

  /** The translations and then the sentences, after the heading. */
  method AppendBody(lines: seq<string>, resultData: ResultData) returns (raised: bool, r: seq<string>)
    ensures raised == BodyRaises(resultData)
    ensures !raised ==> r == lines + WordsLines(resultData.words) + SentenceSection(SentencesHeading, resultData.sentences)
  {
    r := lines;
    raised := false;
    var words := resultData.words;
    if |words| > 0 {
      raised, r := AppendTranslations(r, words[0]);
      if raised {
        return true, r;
      }
    } else {
      assert r == lines + WordsLines(words);
    }
    raised, r := AppendSentences(r, SentencesHeading, resultData.sentences);
  }

  /** The `if words:` branch for the first entry. */
  method AppendTranslations(lines: seq<string>, firstWord: Option<FlatWord>) returns (raised: bool, r: seq<string>)
    ensures raised == EntryRaises(firstWord)
    ensures !raised ==> r == lines + TranslationSection(firstWord.value)
  {
    r := lines;
    if firstWord.None? {
      return true, r;
    }
    var word := firstWord.value;
    var tls2 := word.tls2;
    if |tls2| > 0 {
      r := r + [TranslationsHeading];
      r := r + [""];
      r := AppendDashes(r, tls2);
      r := r + [""];
      AppendAssoc(lines + [TranslationsHeading, ""], DashLines(tls2), [""]);
      AppendAssoc(lines, [TranslationsHeading, ""], DashLines(tls2));
      AppendAssoc(lines, [TranslationsHeading, ""] + DashLines(tls2), [""]);
    } else {
      if word.tls.Mistyped? {
        return true, r;
      }
      r := AppendFallback(r, TlsGroups(word.tls));
    }
    return false, r;
  }

  /** The `else` branch: the translations collected from `tls`, on one line. */
  method AppendFallback(lines: seq<string>, tls: seq<TlsGroup>) returns (r: seq<string>)
    ensures var all := Flatten(tls);
            r == lines + (if all != [] then [TranslationsHeading, "", Join(", ", all), ""] else [])
  {
    r := lines;
    var allTrans := CollectTranslations(tls);
    if |allTrans| > 0 {
      r := r + [TranslationsHeading];
      r := r + [""];
      r := r + [Join(", ", allTrans)];
      r := r + [""];
    }
  }

  /** The loop over `tls2`: one `- ` line per group that has translations. */
  method AppendDashes(lines: seq<string>, tls2: seq<MeaningGroup>) returns (r: seq<string>)
    ensures r == lines + DashLines(tls2)
  {
    r := lines;
    var i := 0;
    while i < |tls2|
      invariant 0 <= i <= |tls2|
      invariant r == lines + DashLines(tls2[..i])
    {
      var group := tls2[i];
      var translations := group.translation;
      ghost var done := DashLines(tls2[..i]);
      if |translations| > 0 {
        var transStr := Join(", ", translations);
        r := r + ["- " + transStr];
      }
      DashLinesSnoc(tls2, i);
      AppendAssoc(lines, done, DashLine(group));
      i := i + 1;
    }
    assert tls2[..i] == tls2;
  }

  /** The loop over `tls` that extends `all_trans` with the printed items of
      every list. */
  method CollectTranslations(tls: seq<TlsGroup>) returns (allTrans: seq<string>)
    ensures allTrans == Flatten(tls)
  {
    allTrans := [];
    var i := 0;
    while i < |tls|
      invariant 0 <= i <= |tls|
      invariant allTrans == Flatten(tls[..i])
    {
      var group := tls[i];
      ghost var done := allTrans;
      if group.ListGroup? {
        var k := 0;
        while k < |group.items|
          invariant 0 <= k <= |group.items|
          invariant allTrans == done + Printed(group.items[..k])
        {
          allTrans := allTrans + [PyStr(group.items[k])];
          PrintedSnoc(group.items, k);
          AppendAssoc(done, Printed(group.items[..k]), [PyStr(group.items[k])]);
          k := k + 1;
        }
        assert group.items[..k] == group.items;
      } else {
        assert done + GroupStrings(group) == done;
      }
      FlattenSnoc(tls, i);
      i := i + 1;
    }
    assert tls[..i] == tls;
  }

  lemma PrintedSnoc(items: seq<Atom>, k: nat)
    requires k < |items|
    ensures Printed(items[..k + 1]) == Printed(items[..k]) + [PyStr(items[k])]
  {
    assert forall j :: 0 <= j < k ==> items[..k + 1][j] == items[..k][j];
  }

  lemma DashLinesSnoc(gs: seq<MeaningGroup>, i: nat)
    requires i < |gs|
    ensures DashLines(gs[..i + 1]) == DashLines(gs[..i]) + DashLine(gs[i])
  {
    assert gs[..i + 1] == gs[..i] + [gs[i]];
    DashLinesAppend(gs[..i], [gs[i]]);
    assert DashLines([gs[i]]) == DashLine(gs[i]) + DashLines([]);
  }

  lemma {:induction false} DashLinesAppend(a: seq<MeaningGroup>, b: seq<MeaningGroup>)
    ensures DashLines(a + b) == DashLines(a) + DashLines(b)
  {
    if a == [] {
      assert a + b == b;
    } else {
      assert (a + b)[0] == a[0];
      assert (a + b)[1..] == a[1..] + b;
      DashLinesAppend(a[1..], b);
      AppendAssoc(DashLine(a[0]), DashLines(a[1..]), DashLines(b));
    }
  }

  lemma FlattenSnoc(tls: seq<TlsGroup>, i: nat)
    requires i < |tls|
    ensures Flatten(tls[..i + 1]) == Flatten(tls[..i]) + GroupStrings(tls[i])
  {
    assert tls[..i + 1] == tls[..i] + [tls[i]];
    FlattenAppend(tls[..i], [tls[i]]);
    assert Flatten([tls[i]]) == GroupStrings(tls[i]) + Flatten([]);
  }

  /** Flattening distributes over concatenation of the `tls` lists. */
  lemma {:induction false} FlattenAppend(a: seq<TlsGroup>, b: seq<TlsGroup>)
    ensures Flatten(a + b) == Flatten(a) + Flatten(b)
  {
    if a == [] {
      assert a + b == b;
    } else {
      assert (a + b)[0] == a[0];
      assert (a + b)[1..] == a[1..] + b;
      FlattenAppend(a[1..], b);
      AppendAssoc(GroupStrings(a[0]), Flatten(a[1..]), Flatten(b));
    }
  }

  /** A string is collected exactly when it is the printed form of an item of
      one of the lists in `tls`; non-list elements contribute nothing. */
  lemma {:induction false} FlattenMembers(tls: seq<TlsGroup>, x: string)
    ensures x in Flatten(tls)
            <==> exists i, k :: 0 <= i < |tls| && tls[i].ListGroup? && 0 <= k < |tls[i].items|
                                && x == PyStr(tls[i].items[k])
  {
    if tls != [] {
      FlattenMembers(tls[1..], x);
      var head := GroupStrings(tls[0]);
      assert x in Flatten(tls) <==> x in head || x in Flatten(tls[1..]);
      if x in head {
        var k :| 0 <= k < |head| && head[k] == x;
        assert tls[0].ListGroup? && x == PyStr(tls[0].items[k]);
      }
      if x in Flatten(tls[1..]) {
        var i, k :| 0 <= i < |tls[1..]| && tls[1..][i].ListGroup? && 0 <= k < |tls[1..][i].items|
                    && x == PyStr(tls[1..][i].items[k]);
        assert tls[i + 1] == tls[1..][i];
      }
      if exists i, k :: 0 <= i < |tls| && tls[i].ListGroup? && 0 <= k < |tls[i].items|
                        && x == PyStr(tls[i].items[k]) {
        var i, k :| 0 <= i < |tls| && tls[i].ListGroup? && 0 <= k < |tls[i].items|
                    && x == PyStr(tls[i].items[k]);
        if i == 0 {
          assert head[k] == x;
        } else {
          assert tls[1..][i - 1] == tls[i];
        }
      }
    }
  }

  /** `all_trans` is empty exactly when no list in `tls` has an item. */
  lemma FlattenEmptyIff(tls: seq<TlsGroup>)
    ensures Flatten(tls) == [] <==> forall i :: 0 <= i < |tls| && tls[i].ListGroup? ==> tls[i].items == []
  {
    if Flatten(tls) != [] {
      FlattenMembers(tls, Flatten(tls)[0]);
    } else {
      forall i | 0 <= i < |tls| && tls[i].ListGroup?
        ensures tls[i].items == []
      {
        if tls[i].items != [] {
          FlattenMembers(tls, PyStr(tls[i].items[0]));
        }
      }
    }
  }

  // Reading the translation lines back.

  predicate IsDashLine(line: string)
  {
    |line| >= 2 && line[0] == '-' && line[1] == ' '
  }

  /** Recovers the joined translations from `- ` lines; other lines are
      skipped. */
  function ParseDashLines(lines: seq<string>): seq<string>
  {
    if lines == [] then []
    else if IsDashLine(lines[0]) then [lines[0][2..]] + ParseDashLines(lines[1..])
    else ParseDashLines(lines[1..])
  }

  /** Reference definition of what the `tls2` section lists: every group's
      translations joined with commas, skipping the groups without any, in
      order. */
  function Translated(gs: seq<MeaningGroup>): (r: seq<string>)
    ensures |r| <= |gs|
  {
    if gs == [] then []
    else (if |gs[0].translation| > 0 then [Join(", ", gs[0].translation)] else []) + Translated(gs[1..])
  }

  lemma ParseDashLine(g: MeaningGroup, rest: seq<string>, shown: seq<string>)
    requires ParseDashLines(rest) == shown
    ensures ParseDashLines(DashLine(g) + rest)
            == (if |g.translation| > 0 then [Join(", ", g.translation)] else []) + shown
  {
    if |g.translation| > 0 {
      var line := "- " + Join(", ", g.translation);
      assert line[2..] == Join(", ", g.translation);
      assert ([line] + rest)[1..] == rest;
    } else {
      assert DashLine(g) + rest == rest;
    }
  }

  /** Round trip: the `- ` lines, followed by any further lines, read back as
      the joined translations of the groups that have any, followed by
      whatever the further lines read as. */
  lemma {:induction false} DashLinesRoundTrip(gs: seq<MeaningGroup>, rest: seq<string>)
    ensures ParseDashLines(DashLines(gs) + rest) == Translated(gs) + ParseDashLines(rest)
  {
    if gs == [] {
      assert DashLines(gs) + rest == rest;
    } else {
      var shown := Translated(gs[1..]);
      var head := if |gs[0].translation| > 0 then [Join(", ", gs[0].translation)] else [];
      DashLinesRoundTrip(gs[1..], rest);
      AppendAssoc(DashLine(gs[0]), DashLines(gs[1..]), rest);
      ParseDashLine(gs[0], DashLines(gs[1..]) + rest, shown + ParseDashLines(rest));
      AppendAssoc(head, shown, ParseDashLines(rest));
    }
  }

  /** The translations section: from `tls2` it is the heading, a blank line,
      lines that read back as the joined translations of every group that has
      any, and a blank line; without `tls2` it is nothing when `tls` yields no
      item and otherwise the heading, a blank line, every collected item
      joined by commas, and a blank line. */
  lemma TranslationSectionContents(w: FlatWord)
    requires !EntryRaises(Some(w))
    ensures var t := TranslationSection(w);
            w.tls2 != [] ==>
              && |t| >= 3 && t[..2] == [TranslationsHeading, ""] && t[|t| - 1] == ""
              && ParseDashLines(t[2..|t| - 1]) == Translated(w.tls2)
    ensures var t := TranslationSection(w);
            var all := Flatten(TlsGroups(w.tls));
            w.tls2 == [] ==>
              && (t == [] <==> forall i :: (0 <= i < |TlsGroups(w.tls)| && TlsGroups(w.tls)[i].ListGroup?)
                                            ==> TlsGroups(w.tls)[i].items == [])
              && (t != [] ==> t == [TranslationsHeading, "", Join(", ", all), ""])
  {
    if w.tls2 != [] {
      var t := TranslationSection(w);
      assert t[2..|t| - 1] == DashLines(w.tls2) + [];
      DashLinesRoundTrip(w.tls2, []);
    } else {
      FlattenEmptyIff(TlsGroups(w.tls));
    }
  }

  /** When `tls2` has groups, `tls` is never read: replacing it, even by a
      value that would raise, changes nothing. */
  lemma TlsIgnoredWithTls2(d: ResultData, tls: Field<seq<TlsGroup>>)
    requires |d.words| > 0 && d.words[0].Some? && d.words[0].value.tls2 != []
    ensures var e := Some(d.words[0].value.(tls := tls));
            Markdown(Object(Present(d.(words := [e] + d.words[1..])))) == Markdown(Object(Present(d)))
  {
    var e := Some(d.words[0].value.(tls := tls));
    var d2 := d.(words := [e] + d.words[1..]);
    assert WordsLines(d2.words) == WordsLines(d.words);
    assert BodyRaises(d2) == BodyRaises(d);
    if !BodyRaises(d) && !d.term.Mistyped? && StrippedText(d.term) != "" {
      assert BodyLines(StrippedText(d.term), d2) == BodyLines(StrippedText(d.term), d);
    }
  }

  // What the markdown says, stated about the response.

  predicate ReachesBody(resp: Response<ResultData>)
  {
    WellShaped(resp) && resp.result.Present? && !resp.result.value.term.Mistyped?
    && StrippedText(resp.result.value.term) != ""
  }

  /** A response that is not an object with a "result" key gets the error
      text, and no other response gets those lines. */
  lemma InvalidResponse(resp: Response<ResultData>)
    ensures !WellShaped(resp) ==> Markdown(resp) == Returned("# Error" + "\n" + "Invalid response from dictionary API.")
    ensures !Raises(resp) ==> (DocLines(resp) == ErrorLines <==> !WellShaped(resp))
  {
    if !WellShaped(resp) {
      assert ErrorLines[1..] == ["Invalid response from dictionary API."];
    } else if !Raises(resp) && StrippedText(resp.result.value.term) != "" {
      TermHeading(resp);
      assert "Invalid response from dictionary API."[0] != "# "[0];
    }
  }

  /** A well-shaped response whose term is missing, empty or only white space
      gets the not-found heading, and no other response gets it. */
  lemma NoWordFound(resp: Response<ResultData>)
    requires WellShaped(resp) && !Raises(resp)
    ensures StrippedText(resp.result.value.term) == "" ==> Markdown(resp) == Returned("# No word found")
    ensures DocLines(resp) == NotFoundLines <==> StrippedText(resp.result.value.term) == ""
  {
    if StrippedText(resp.result.value.term) != "" {
      TermHeading(resp);
    }
  }

  /** Once the body is reached, the document opens with the stripped term as
      given, not accented, as a level-one heading and a blank line, and has
      at least three lines. */
  lemma TermHeading(resp: Response<ResultData>)
    requires ReachesBody(resp) && !Raises(resp)
    ensures var ls := DocLines(resp);
            |ls| >= 3 && ls[0] == "# " + StrippedText(resp.result.value.term) && ls[1] == ""
  {
    var d := resp.result.value;
    var term := StrippedText(d.term);
    var head := ["# " + term, ""];
    var body := BodyLines(term, d);
    AppendAssoc(head, WordsLines(d.words), SentenceSection(SentencesHeading, d.sentences));
    assert body == head + (WordsLines(d.words) + SentenceSection(SentencesHeading, d.sentences));
    assert body[..2] == head;
    WithPlaceholderExtends(body);
    assert DocLines(resp) == WithPlaceholder(body);
    assert DocLines(resp)[..2] == body[..2];
  }

  /** The placeholder is added exactly when there are no sentences and the
      first word entry, if any, yields no translations section: an empty
      "English Translations" or "Example Sentences" heading suppresses it. */
  lemma PlaceholderIff(resp: Response<ResultData>)
    requires ReachesBody(resp) && !Raises(resp)
    ensures var d := resp.result.value;
            var term := StrippedText(d.term);
            (DocLines(resp) == BodyLines(term, d) + [Placeholder]
             <==> WordsLines(d.words) == [] && d.sentences == [])
    ensures var d := resp.result.value;
            var term := StrippedText(d.term);
            DocLines(resp) == BodyLines(term, d) || DocLines(resp) == BodyLines(term, d) + [Placeholder]
  {
    var d := resp.result.value;
    var term := StrippedText(d.term);
    var words := WordsLines(d.words);
    var section := SentenceSection(SentencesHeading, d.sentences);
    assert |BodyLines(term, d)| == 2 + |words| + |section|;
    if d.sentences != [] {
      assert |section| >= 2;
    }
  }

  /** The first word entry with no translations in either form counts as no
      translations section. */
  lemma NoTranslationsIff(w: FlatWord)
    requires !EntryRaises(Some(w))
    ensures TranslationSection(w) == []
            <==> w.tls2 == [] && forall i :: (0 <= i < |TlsGroups(w.tls)| && TlsGroups(w.tls)[i].ListGroup?)
                                               ==> TlsGroups(w.tls)[i].items == []
  {
    TranslationSectionContents(w);
  }

  /** The sentence part of the document: after the heading and the
      translations come the sentence heading and a blank line, and what
      follows reads back as the non-blank sentences among the first six. */
  lemma DocumentSentences(resp: Response<ResultData>)
    requires ReachesBody(resp) && !Raises(resp) && resp.result.value.sentences != []
    ensures var d := resp.result.value;
            var k := 2 + |WordsLines(d.words)|;
            var ls := DocLines(resp);
            && |ls| >= k + 2 && ls[k..k + 2] == [SentencesHeading, ""]
            && ParseSentenceLines(ls[k + 2..]) == Listed(Shown(d.sentences))
  {
    var d := resp.result.value;
    var term := StrippedText(d.term);
    var before := ["# " + term, ""] + WordsLines(d.words);
    var blocks := SentenceBlocks(Shown(d.sentences));
    assert BodyLines(term, d) == before + ([SentencesHeading, ""] + blocks);
    AppendAssoc(before, [SentencesHeading, ""], blocks);
    assert DocLines(resp) == before + [SentencesHeading, ""] + blocks;
    SliceThree(before, [SentencesHeading, ""], blocks);
    SentenceBlocksRoundTrip(Shown(d.sentences), []);
    assert blocks + [] == blocks;
  }

  /** Only the first word entry is read: appending further entries, even
      malformed ones, changes nothing. */
  lemma LaterWordsIgnored(d: ResultData, extra: seq<Option<FlatWord>>)
    requires |d.words| > 0
    ensures Markdown(Object(Present(d.(words := d.words + extra)))) == Markdown(Object(Present(d)))
  {
    var d2 := d.(words := d.words + extra);
    assert d2.words[0] == d.words[0];
    assert BodyRaises(d2) == BodyRaises(d);
    if !BodyRaises(d) && !d.term.Mistyped? && StrippedText(d.term) != "" {
      assert BodyLines(StrippedText(d.term), d2) == BodyLines(StrippedText(d.term), d);
    }
  }

  /** A payload with a term and nothing else, `{"result": {"term": t}}`:
      the stripped term as heading, a blank line and the placeholder. */
  lemma TermOnlyPayload(t: string)
    requires Strip(t) != ""
    ensures Markdown(Object(Present(ResultData(Present(t), [], []))))
            == Returned("# " + Strip(t) + "\n" + "" + "\n" + Placeholder)
  {
    TermOnlyLines(t);
    JoinThree("\n", "# " + Strip(t), "", Placeholder);
  }

  /** The concrete case `{"result": {"term": "стол"}}`. */
  lemma TermOnlyExample()
    ensures Markdown(Object(Present(ResultData(Present("стол"), [], []))))
            == Returned("# стол\n\n" + Placeholder)
  {
    assert !IsSpace("стол"[0]) && !IsSpace("стол"[3]);
    StripKeepsUnpadded("стол");
    TermOnlyPayload("стол");
    assert "# стол" + "\n" + "" + "\n" == "# стол\n\n";
  }

  lemma TermOnlyLines(t: string)
    requires Strip(t) != ""
    ensures !Raises(Object(Present(ResultData(Present(t), [], []))))
    ensures DocLines(Object(Present(ResultData(Present(t), [], [])))) == ["# " + Strip(t), "", Placeholder]
  {
    var d := ResultData(Present(t), [], []);
    assert !BodyRaises(d) by {
      assert Shown(d.sentences) == [];
    }
    assert WordsLines(d.words) == [];
    assert SentenceSection(SentencesHeading, d.sentences) == [];
    assert BodyLines(Strip(t), d) == ["# " + Strip(t), ""];
    assert StrippedText(d.term) == Strip(t);
  }
}
