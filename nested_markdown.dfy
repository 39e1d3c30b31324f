/** `OpenRussian.make_word_markdown` of the packaged front end
    (src/openrussian_tui/openrussian.py): the response's first word entry
    nests its data under `word`; the heading is that word's accented `ru` form,
    followed by its grammar (verb aspect and partner, or just the type), a
    "Meanings" section with one example per group, and up to six example
    sentences under "More Example Sentences". */
module NestedMarkdown {
  import opened PyText
  import opened Accent
  import opened Payload
  import opened Document

  /** An element of `verb.partners2`; `['accented']` raises when missing, the
      annotator raises when it is null. */
  datatype Partner = Partner(accented: Option<string>)

  /** `word.verb` when truthy. `aspect` is appended to the lines as read, so a
      missing or null aspect makes the final join raise. */
  datatype Verb = Verb(aspect: Option<string>, partners2: seq<Partner>)

  /** `words[0].word`. `type` and `ru` are read with `.get`: a missing value is
      `None`, and `None` in the lines (type) or in the annotator (ru) raises. */
  datatype WordInfo = WordInfo(
    wordType: Option<string>,
    ru: Option<string>,
    verb: Option<Verb>,
    tls2: seq<MeaningGroup>)

  /** An element of `words`; `.get("word")` gives `None` when absent. */
  datatype WordEntry = WordEntry(word: Option<WordInfo>)

  /** `results["result"]` */
  datatype ResultData = ResultData(term: Field<string>, words: seq<WordEntry>, sentences: seq<Sentence>)

  const MeaningsHeading: string := "## Meanings"
  const SentencesHeading: string := "## More Example Sentences"

  // When the Python code raises.

  predicate VerbRaises(v: Verb)
  {
    v.aspect.None? || |v.partners2| == 0 || v.partners2[0].accented.None?
  }

  /** `exmaple[0]['native']` and `exmaple[0]['translated']` of a group with examples. */
  predicate GroupRaises(g: MeaningGroup)
  {
    |g.examples| > 0 && (g.examples[0].native.None? || g.examples[0].translated.None?)
  }

  predicate GroupsOk(gs: seq<MeaningGroup>)
  {
    forall i :: 0 <= i < |gs| ==> !GroupRaises(gs[i])
  }

  /** What the heading and grammar lines read. */
  predicate HeadRaises(w: WordInfo)
  {
    w.wordType.None? || w.ru.None? || (w.verb.Some? && VerbRaises(w.verb.value))
  }

  predicate WordRaises(w: WordInfo)
  {
    HeadRaises(w) || !GroupsOk(w.tls2)
  }

  predicate EntryRaises(e: WordEntry)
  {
    e.word.None? || WordRaises(e.word.value)
  }

  /** What is read once the term is known to be non-empty. */
  predicate BodyRaises(d: ResultData)
  {
    (|d.words| > 0 && EntryRaises(d.words[0])) || ShownRaise(d.sentences)
  }

  /** The call raises: `results["result"]` is not an object, `term` is not a
      string, or, for a non-empty term, the first word entry or one of the
      first six sentences is malformed as described above. */
  predicate Raises(resp: Response<ResultData>)
  {
    WellShaped(resp)
    && (resp.result.Mistyped?
        || resp.result.value.term.Mistyped?
        || (StrippedText(resp.result.value.term) != "" && BodyRaises(resp.result.value)))
  }

  // The lines, as a function of the response.

  /** One group of `tls2`: its bold translations, then its first example. */
  function GroupLines(g: MeaningGroup): seq<string>
    requires !GroupRaises(g)
  {
    TranslationLines(g) + ExampleLines(g)
  }

  /** `if translations:` the bold comma-joined translations and a blank line. */
  function TranslationLines(g: MeaningGroup): seq<string>
  {
    if |g.translation| > 0 then ["- **" + Join(", ", g.translation) + "**", ""] else []
  }

  /** `if exmaple:` the first example, accented and code-quoted, and its
      translation in italics. */
  function ExampleLines(g: MeaningGroup): seq<string>
    requires !GroupRaises(g)
  {
    if |g.examples| > 0 then
      ["  `" + AddAcuteAccent(g.examples[0].native.value) + "`",
       "*" + PyStr(g.examples[0].translated.value) + "*"]
    else []
  }

  function GroupsLines(gs: seq<MeaningGroup>): seq<string>
    requires GroupsOk(gs)
  {
    if gs == [] then [] else GroupLines(gs[0]) + GroupsLines(gs[1..])
  }

  /** `if tls2:` the "Meanings" heading, a blank line, the groups, a blank line. */
  function MeaningsSection(gs: seq<MeaningGroup>): seq<string>
    requires GroupsOk(gs)
  {
    if gs == [] then [] else [MeaningsHeading, ""] + GroupsLines(gs) + [""]
  }

  /** The verb / non-verb branch. */
  function GrammarLines(w: WordInfo): seq<string>
    requires !HeadRaises(w)
  {
    if w.verb.Some? then
      [w.verb.value.aspect.value, w.wordType.value,
       "\npartner: **" + AddAcuteAccent(w.verb.value.partners2[0].accented.value) + "**"]
    else [w.wordType.value]
  }

  function WordLines(w: WordInfo): seq<string>
    requires !WordRaises(w)
  {
    ["# " + AddAcuteAccent(w.ru.value), ""] + GrammarLines(w) + MeaningsSection(w.tls2)
  }

  /** `if words:` the first entry only. */
  function WordsLines(words: seq<WordEntry>): seq<string>
    requires words == [] || !EntryRaises(words[0])
  {
    if words == [] then [] else WordLines(words[0].word.value)
  }

  function BodyLines(d: ResultData): seq<string>
    requires !BodyRaises(d)
  {
    WordsLines(d.words) + SentenceSection(SentencesHeading, d.sentences)
  }

  function DocLines(resp: Response<ResultData>): seq<string>
    requires !Raises(resp)
  {
    if !WellShaped(resp) then ErrorLines
    else if StrippedText(resp.result.value.term) == "" then NotFoundLines
    else WithPlaceholder(BodyLines(resp.result.value))
  }

  /** What a call returns: the lines joined with newlines, or an exception. */
  function Markdown(resp: Response<ResultData>): Outcome
  {
    if Raises(resp) then Raised else Returned(Join("\n", DocLines(resp)))
  }

  // The builder, appending to `lines` as the Python code does. Each stage is
  // a method that takes the lines so far and returns them extended, or reports
  // that the Python code raises at that stage.

  method MakeWordMarkdown(resp: Response<ResultData>) returns (out: Outcome)
    ensures out == Markdown(resp)
  {
    var lines: seq<string> := [];
    if !resp.Object? || resp.result.Missing? {
      lines := lines + ["# Error"];
      lines := lines + ["Invalid response from dictionary API."];
      return Returned(Join("\n", lines));
    }
    if resp.result.Mistyped? {
      return Raised;
    }
    var resultData := resp.result.value;
    if resultData.term.Mistyped? {
      return Raised;
    }
    var term := StrippedText(resultData.term);
    if term == "" {
      lines := lines + ["# No word found"];
      return Returned(Join("\n", lines));
    }
    var raised;
    raised, lines := AppendBody(lines, resultData);
    if raised {
      return Raised;
    }
    assert !Raises(resp);
    assert lines == BodyLines(resultData);
    if |lines| <= 2 {
      lines := lines + [Placeholder];
    }
    assert lines == DocLines(resp);
    return Returned(Join("\n", lines));
  }

  /** The word entry and then the sentences. */
  method AppendBody(lines: seq<string>, resultData: ResultData) returns (raised: bool, r: seq<string>)
    ensures raised == BodyRaises(resultData)
    ensures !raised ==> r == lines + BodyLines(resultData)
  {
    r := lines;
    raised := false;
    var words := resultData.words;
    if |words| > 0 {
      raised, r := AppendWord(r, words[0]);
      if raised {
        return true, r;
      }
    } else {
      assert r == lines + WordsLines(words);
    }
    raised, r := AppendSentences(r, SentencesHeading, resultData.sentences);
    if !raised {
      AppendAssoc(lines, WordsLines(words), SentenceSection(SentencesHeading, resultData.sentences));
    }
  }

  /** The `if words:` branch for the first entry. */
  method AppendWord(lines: seq<string>, mainTranslation: WordEntry) returns (raised: bool, r: seq<string>)
    ensures raised == EntryRaises(mainTranslation)
    ensures !raised ==> r == lines + WordLines(mainTranslation.word.value)
  {
    r := lines;
    if mainTranslation.word.None? {
      return true, r;
    }
    var word := mainTranslation.word.value;
    var wordType := word.wordType;
    var verbInfo := word.verb;
    if word.ru.None? {
      return true, r;
    }
    r := r + ["# " + AddAcuteAccent(word.ru.value)];
    r := r + [""];
    if verbInfo.Some? {
      var verb := verbInfo.value;
      if |verb.partners2| == 0 || verb.partners2[0].accented.None? {
        return true, r;
      }
      var partner := verb.partners2[0].accented.value;
      if verb.aspect.None? || wordType.None? {
        return true, r;
      }
      r := r + [verb.aspect.value];
      r := r + [wordType.value];
      r := r + ["\npartner: **" + AddAcuteAccent(partner) + "**"];
    } else {
      if wordType.None? {
        return true, r;
      }
      r := r + [wordType.value];
    }
    ghost var heading := ["# " + AddAcuteAccent(word.ru.value), ""] + GrammarLines(word);
    assert r == lines + heading;
    raised, r := AppendMeanings(r, word.tls2);
    if !raised {
      AppendAssoc(lines, heading, MeaningsSection(word.tls2));
    }
  }

  /** `if tls2:` the "Meanings" section, one loop iteration per group. */
  method AppendMeanings(lines: seq<string>, tls2: seq<MeaningGroup>) returns (raised: bool, r: seq<string>)
    ensures raised == !GroupsOk(tls2)
    ensures !raised ==> r == lines + MeaningsSection(tls2)
  {
    r := lines;
    if |tls2| > 0 {
      r := r + [MeaningsHeading];
      r := r + [""];
      var i := 0;
      while i < |tls2|
        invariant 0 <= i <= |tls2|
        invariant GroupsOk(tls2[..i])
        invariant r == lines + [MeaningsHeading, ""] + GroupsLines(tls2[..i])
      {
        var group := tls2[i];
        ghost var done := GroupsLines(tls2[..i]);
        raised, r := AppendGroup(r, group);
        if raised {
          assert !GroupsOk(tls2) by {
            assert GroupRaises(tls2[i]);
          }
          return true, r;
        }
        GroupsLinesSnoc(tls2, i);
        AppendAssoc(lines + [MeaningsHeading, ""], done, GroupLines(group));
        i := i + 1;
      }
      assert tls2[..i] == tls2;
      r := r + [""];
      AppendAssoc(lines, [MeaningsHeading, ""], GroupsLines(tls2));
      AppendAssoc(lines, [MeaningsHeading, ""] + GroupsLines(tls2), [""]);
    }
    return false, r;
  }

  /** One iteration of the `tls2` loop. */
  method AppendGroup(lines: seq<string>, group: MeaningGroup) returns (raised: bool, r: seq<string>)
    ensures raised == GroupRaises(group)
    ensures !raised ==> r == lines + GroupLines(group)
  {
    r := lines;
    var translations := group.translation;
    var exmaple := group.examples;
    if |translations| > 0 {
      var transStr := Join(", ", translations);
      r := r + ["- **" + transStr + "**"];
      r := r + [""];
    }
    if |exmaple| > 0 {
      if exmaple[0].native.None? || exmaple[0].translated.None? {
        return true, r;
      }
      r := r + ["  `" + AddAcuteAccent(exmaple[0].native.value) + "`"];
      r := r + ["*" + PyStr(exmaple[0].translated.value) + "*"];
    }
    return false, r;
  }

  lemma GroupsLinesSnoc(gs: seq<MeaningGroup>, i: nat)
    requires i < |gs| && GroupsOk(gs[..i]) && !GroupRaises(gs[i])
    ensures GroupsOk(gs[..i + 1])
    ensures GroupsLines(gs[..i + 1]) == GroupsLines(gs[..i]) + GroupLines(gs[i])
  {
    assert gs[..i + 1] == gs[..i] + [gs[i]];
    GroupsLinesAppend(gs[..i], [gs[i]]);
    assert GroupsLines([gs[i]]) == GroupLines(gs[i]) + GroupsLines([]);
  }

  lemma {:induction false} GroupsLinesAppend(a: seq<MeaningGroup>, b: seq<MeaningGroup>)
    requires GroupsOk(a) && GroupsOk(b)
    ensures GroupsOk(a + b)
    ensures GroupsLines(a + b) == GroupsLines(a) + GroupsLines(b)
  {
    if a == [] {
      assert a + b == b;
    } else {
      assert (a + b)[0] == a[0];
      assert (a + b)[1..] == a[1..] + b;
      GroupsLinesAppend(a[1..], b);
      AppendAssoc(GroupLines(a[0]), GroupsLines(a[1..]), GroupsLines(b));
    }
  }

  // What the markdown says, stated about the response.

  /** The response is well shaped and its stripped term is not empty, so the
      body is built. */
  predicate ReachesBody(resp: Response<ResultData>)
  {
    WellShaped(resp) && resp.result.Present? && !resp.result.value.term.Mistyped?
    && StrippedText(resp.result.value.term) != ""
  }

  /** A response that is not an object with a "result" key gets the error
      text, and no other response gets those lines. */
  lemma InvalidResponse(resp: Response<ResultData>)
    ensures !WellShaped(resp) ==> Markdown(resp) == Returned("# Error" + "\n" + "Invalid response from dictionary API.")
    ensures !Raises(resp) ==> (DocLines(resp) == ErrorLines <==> !WellShaped(resp))
  {
    if !WellShaped(resp) {
      assert ErrorLines[1..] == ["Invalid response from dictionary API."];
    } else if !Raises(resp) && StrippedText(resp.result.value.term) != "" {
      BodyNotFixedText(resp);
    }
  }

  /** A well-shaped response whose term is missing, empty or only white space
      gets the not-found heading, and no other response gets it. */
  lemma NoWordFound(resp: Response<ResultData>)
    requires WellShaped(resp) && !Raises(resp)
    ensures StrippedText(resp.result.value.term) == "" ==> Markdown(resp) == Returned("# No word found")
    ensures DocLines(resp) == NotFoundLines <==> StrippedText(resp.result.value.term) == ""
  {
    if StrippedText(resp.result.value.term) != "" {
      BodyNotFixedText(resp);
    }
  }

  /** The body never coincides with the error or not-found lines: it starts
      with a word heading followed by a blank line, with the sentence heading,
      or is the placeholder alone. */
  lemma BodyNotFixedText(resp: Response<ResultData>)
    requires ReachesBody(resp) && !Raises(resp)
    ensures DocLines(resp) != ErrorLines && DocLines(resp) != NotFoundLines
  {
    var d := resp.result.value;
    var body := BodyLines(d);
    if |d.words| > 0 {
      assert body[1] == "";
    } else if d.sentences != [] {
      assert body[0] == SentencesHeading;
    } else {
      assert DocLines(resp) == [Placeholder];
    }
  }

  /** With a first word entry, the document opens with that word's `ru` form
      accented as a level-one heading and a blank line, then the verb's aspect,
      the word type and the accented aspect partner for a verb, or just the
      word type otherwise. */
  lemma WordHeading(resp: Response<ResultData>)
    requires ReachesBody(resp) && !Raises(resp) && |resp.result.value.words| > 0
    ensures var w := resp.result.value.words[0].word.value;
            var ls := DocLines(resp);
            && |ls| >= 3
            && ls[0] == "# " + AddAcuteAccent(w.ru.value) && ls[1] == ""
            && (w.verb.Some? ==>
                  |ls| >= 5
                  && ls[2] == w.verb.value.aspect.value && ls[3] == w.wordType.value
                  && ls[4] == "\npartner: **" + AddAcuteAccent(w.verb.value.partners2[0].accented.value) + "**")
            && (w.verb.None? ==> ls[2] == w.wordType.value)
  {
    var d := resp.result.value;
    var w := d.words[0].word.value;
    var head := ["# " + AddAcuteAccent(w.ru.value), ""] + GrammarLines(w);
    var more := MeaningsSection(w.tls2) + SentenceSection(SentencesHeading, d.sentences);
    AppendAssoc(head, MeaningsSection(w.tls2), SentenceSection(SentencesHeading, d.sentences));
    assert BodyLines(d) == head + more;
    assert DocLines(resp) == head + more;
    assert forall i :: 0 <= i < |head| ==> (head + more)[i] == head[i];
  }

  /** The placeholder is added exactly when there is no word entry and no
      sentence among the first six has any text; otherwise the document is the
      body lines as built. */
  lemma PlaceholderIff(resp: Response<ResultData>)
    requires ReachesBody(resp) && !Raises(resp)
    ensures var d := resp.result.value;
            (DocLines(resp) == BodyLines(d) + [Placeholder]
             <==> |d.words| == 0 && forall i :: 0 <= i < |Shown(d.sentences)| ==> IsBlank(Shown(d.sentences)[i]))
    ensures var d := resp.result.value;
            DocLines(resp) == BodyLines(d) || DocLines(resp) == BodyLines(d) + [Placeholder]
  {
    var d := resp.result.value;
    if |d.words| > 0 {
      assert |BodyLines(d)| >= 3 by {
        WordHeading(resp);
      }
    } else if d.sentences != [] {
      SentenceSectionBare(SentencesHeading, d.sentences);
    }
  }

  /** With neither words nor sentences, the whole answer is the placeholder:
      the term itself is never printed. */
  lemma TermOnlyPayload(term: string)
    requires Strip(term) != ""
    ensures Markdown(Object(Present(ResultData(Present(term), [], [])))) == Returned(Placeholder)
  {
  }

  /** The concrete case `{"result": {"term": "стол"}}`. */
  lemma TermOnlyExample()
    ensures Markdown(Object(Present(ResultData(Present("стол"), [], [])))) == Returned(Placeholder)
  {
    assert !AllSpace("стол") by {
      assert !IsSpace("стол"[0]);
    }
    TermOnlyPayload("стол");
  }

  /** Any two non-empty terms give the same answer: the term decides only
      whether the body is built. */
  lemma TermNotShown(d: ResultData, t1: string, t2: string)
    requires Strip(t1) != "" && Strip(t2) != ""
    ensures Markdown(Object(Present(d.(term := Present(t1))))) == Markdown(Object(Present(d.(term := Present(t2)))))
  {
    var d1 := d.(term := Present(t1));
    var d2 := d.(term := Present(t2));
    MarkdownOfBody(Object(Present(d1)));
    MarkdownOfBody(Object(Present(d2)));
    assert BodyRaises(d1) == BodyRaises(d2) == BodyRaises(d);
    if !BodyRaises(d) {
      assert BodyLines(d1) == BodyLines(d) by {
        assert d1.words == d.words && d1.sentences == d.sentences;
      }
      assert BodyLines(d2) == BodyLines(d) by {
        assert d2.words == d.words && d2.sentences == d.sentences;
      }
    }
  }

  /** Once the body is reached, the answer depends only on the word entries and
      the sentences. */
  lemma MarkdownOfBody(resp: Response<ResultData>)
    requires ReachesBody(resp)
    ensures Raises(resp) == BodyRaises(resp.result.value)
    ensures !Raises(resp) ==> Markdown(resp) == Returned(Join("\n", WithPlaceholder(BodyLines(resp.result.value))))
  {
  }

  /** Only the first word entry is read: appending further entries, even
      malformed ones, changes nothing. */
  lemma LaterWordsIgnored(d: ResultData, extra: seq<WordEntry>)
    requires |d.words| > 0
    ensures Markdown(Object(Present(d.(words := d.words + extra)))) == Markdown(Object(Present(d)))
  {
    assert (d.words + extra)[0] == d.words[0];
  }

  /** The sentence part of the document: after the word lines come the
      sentence heading and a blank line, and what follows reads back as the
      non-blank sentences among the first six, in order. */
  lemma DocumentSentences(resp: Response<ResultData>)
    requires ReachesBody(resp) && !Raises(resp) && resp.result.value.sentences != []
    ensures var d := resp.result.value;
            var k := |WordsLines(d.words)|;
            var ls := DocLines(resp);
            && |ls| >= k + 2 && ls[k..k + 2] == [SentencesHeading, ""]
            && ParseSentenceLines(ls[k + 2..]) == Listed(Shown(d.sentences))
  {
    var d := resp.result.value;
    var words := WordsLines(d.words);
    var blocks := SentenceBlocks(Shown(d.sentences));
    var tail := if |BodyLines(d)| <= 2 then blocks + [Placeholder] else blocks;
    assert BodyLines(d) == words + ([SentencesHeading, ""] + blocks);
    AppendAssoc(words, [SentencesHeading, ""], blocks);
    if |BodyLines(d)| <= 2 {
      AppendAssoc(words + [SentencesHeading, ""], blocks, [Placeholder]);
    }
    assert DocLines(resp) == words + [SentencesHeading, ""] + tail;
    SliceThree(words, [SentencesHeading, ""], tail);
    if |BodyLines(d)| <= 2 {
      SentenceBlocksRoundTrip(Shown(d.sentences), [Placeholder]);
      PlaceholderNotSentence();
    } else {
      SentenceBlocksRoundTrip(Shown(d.sentences), []);
      assert blocks + [] == blocks;
    }
  }

  // Reading the meaning lines back.

  /** What the "Meanings" section shows of one group. */
  datatype MeaningItem = Translations(joined: string) | Usage(native: string, translated: string)

  predicate IsTranslationLine(line: string)
  {
    |line| >= 6 && line[0] == '-'
  }

  predicate IsExampleLine(line: string)
  {
    |line| >= 4 && line[0] == ' '
  }

  /** Recovers the items from meaning lines: a bold `- **...**` line is a list
      of translations; a code-quoted example line and the line after it are an
      example and its translation; other lines are skipped. */
  function ParseMeaningLines(lines: seq<string>): seq<MeaningItem>
  {
    if lines == [] then []
    else if IsTranslationLine(lines[0]) then
      [Translations(lines[0][4..|lines[0]| - 2])] + ParseMeaningLines(lines[1..])
    else if IsExampleLine(lines[0]) && |lines| > 1 && |lines[1]| >= 2 then
      [Usage(lines[0][3..|lines[0]| - 1], lines[1][1..|lines[1]| - 1])] + ParseMeaningLines(lines[2..])
    else ParseMeaningLines(lines[1..])
  }

  /** Reference definition of what one group shows: its translations joined
      with commas when it has any, and its first example, accented, with the
      printed form of that example's translation when it has examples. */
  function GroupItems(g: MeaningGroup): (r: seq<MeaningItem>)
    requires !GroupRaises(g)
    ensures |r| <= 2
  {
    (if |g.translation| > 0 then [Translations(Join(", ", g.translation))] else [])
    + ExampleItems(g)
  }

  function ExampleItems(g: MeaningGroup): (r: seq<MeaningItem>)
    requires !GroupRaises(g)
    ensures |r| <= 1
  {
    if |g.examples| > 0 then
      [Usage(AddAcuteAccent(g.examples[0].native.value), PyStr(g.examples[0].translated.value))]
    else []
  }

  function MeaningItems(gs: seq<MeaningGroup>): (r: seq<MeaningItem>)
    requires GroupsOk(gs)
    ensures |r| <= 2 * |gs|
  {
    if gs == [] then [] else GroupItems(gs[0]) + MeaningItems(gs[1..])
  }

  lemma ParseTranslationLine(line: string, rest: seq<string>)
    requires IsTranslationLine(line)
    ensures ParseMeaningLines([line, ""] + rest)
            == [Translations(line[4..|line| - 2])] + ParseMeaningLines(rest)
  {
    assert ([line, ""] + rest)[1..] == [""] + rest;
    assert ([""] + rest)[1..] == rest;
  }

  lemma ParseExampleLines(native: string, translated: string, rest: seq<string>)
    requires IsExampleLine(native) && |translated| >= 2
    ensures ParseMeaningLines([native, translated] + rest)
            == [Usage(native[3..|native| - 1], translated[1..|translated| - 1])] + ParseMeaningLines(rest)
  {
    assert ([native, translated] + rest)[2..] == rest;
  }

  lemma ParseExampleOf(g: MeaningGroup, rest: seq<string>)
    requires !GroupRaises(g)
    ensures ParseMeaningLines(ExampleLines(g) + rest) == ExampleItems(g) + ParseMeaningLines(rest)
  {
    if |g.examples| > 0 {
      var native := ExampleLines(g)[0];
      var translated := ExampleLines(g)[1];
      assert native[3..|native| - 1] == AddAcuteAccent(g.examples[0].native.value);
      assert translated[1..|translated| - 1] == PyStr(g.examples[0].translated.value);
      ParseExampleLines(native, translated, rest);
      assert ExampleLines(g) + rest == [native, translated] + rest;
    } else {
      assert ExampleLines(g) + rest == rest;
    }
  }

  lemma ParseTranslationsOf(g: MeaningGroup, rest: seq<string>)
    ensures ParseMeaningLines(TranslationLines(g) + rest)
            == (if |g.translation| > 0 then [Translations(Join(", ", g.translation))] else [])
               + ParseMeaningLines(rest)
  {
    if |g.translation| > 0 {
      var line := "- **" + Join(", ", g.translation) + "**";
      assert line[4..|line| - 2] == Join(", ", g.translation);
      ParseTranslationLine(line, rest);
      assert TranslationLines(g) + rest == [line, ""] + rest;
    } else {
      assert TranslationLines(g) + rest == rest;
    }
  }

  lemma ParseGroupLines(g: MeaningGroup, rest: seq<string>)
    requires !GroupRaises(g)
    ensures ParseMeaningLines(GroupLines(g) + rest) == GroupItems(g) + ParseMeaningLines(rest)
  {
    ParseExampleOf(g, rest);
    ParseTranslationsOf(g, ExampleLines(g) + rest);
    AppendAssoc(TranslationLines(g), ExampleLines(g), rest);
    AppendAssoc(if |g.translation| > 0 then [Translations(Join(", ", g.translation))] else [],
                ExampleItems(g), ParseMeaningLines(rest));
  }

  lemma ParseGroupThen(g: MeaningGroup, tail: seq<string>, rest: seq<string>, shown: seq<MeaningItem>)
    requires !GroupRaises(g)
    requires ParseMeaningLines(tail + rest) == shown + ParseMeaningLines(rest)
    ensures ParseMeaningLines(GroupLines(g) + tail + rest) == GroupItems(g) + shown + ParseMeaningLines(rest)
  {
    ParseGroupLines(g, tail + rest);
    AppendAssoc(GroupLines(g), tail, rest);
  }

  /** Round trip: the group lines, followed by any further lines, read back as
      each group's items in order, followed by whatever the further lines read
      as. */
  lemma {:induction false} GroupsLinesRoundTrip(gs: seq<MeaningGroup>, rest: seq<string>)
    requires GroupsOk(gs)
    ensures ParseMeaningLines(GroupsLines(gs) + rest) == MeaningItems(gs) + ParseMeaningLines(rest)
  {
    if gs == [] {
      assert GroupsLines(gs) + rest == rest;
    } else {
      GroupsLinesRoundTrip(gs[1..], rest);
      ParseGroupThen(gs[0], GroupsLines(gs[1..]), rest, MeaningItems(gs[1..]));
    }
  }

  /** The "Meanings" section: nothing without groups; otherwise its heading, a
      blank line, lines that read back as every group's items, and a closing
      blank line. */
  lemma MeaningsSectionContents(gs: seq<MeaningGroup>)
    requires GroupsOk(gs)
    ensures gs == [] ==> MeaningsSection(gs) == []
    ensures var m := MeaningsSection(gs);
            gs != [] ==>
              && |m| >= 3 && m[..2] == [MeaningsHeading, ""] && m[|m| - 1] == ""
              && ParseMeaningLines(m[2..|m| - 1]) == MeaningItems(gs)
  {
    if gs != [] {
      var m := MeaningsSection(gs);
      assert m[2..|m| - 1] == GroupsLines(gs) + [];
      GroupsLinesRoundTrip(gs, []);
    }
  }
}
