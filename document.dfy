/** What the two markdown builders share: the fixed error and fallback lines,
    the outcome of a call, and the example-sentence section (the `sentences[:6]`
    loop is the same code in both front ends). */
module Document {
  import opened PyText
  import opened Accent
  import opened Payload

  /** A call of `make_word_markdown` either returns its markdown or raises. */
  datatype Outcome = Returned(markdown: string) | Raised

  const ErrorLines: seq<string> := ["# Error", "Invalid response from dictionary API."]
  const NotFoundLines: seq<string> := ["# No word found"]
  const Placeholder: string := "_No translations or examples available._"
  const MaxSentences: nat := 6

  /** The final fallback: `if len(lines) <= 2: lines.append(placeholder)`. */
  function WithPlaceholder(lines: seq<string>): seq<string>
  {
    if |lines| <= 2 then lines + [Placeholder] else lines
  }

  /** The placeholder only ever adds a line at the end. */
  lemma WithPlaceholderExtends(lines: seq<string>)
    ensures |WithPlaceholder(lines)| >= |lines| && |WithPlaceholder(lines)| > 0
    ensures WithPlaceholder(lines)[..|lines|] == lines
    ensures |lines| <= 2 <==> WithPlaceholder(lines) == lines + [Placeholder]
  {
  }

  /** `sentences[:6]` */
  function Shown(ss: seq<Sentence>): (r: seq<Sentence>)
    ensures |r| <= MaxSentences && |r| <= |ss| && r == ss[..|r|]
    ensures |r| == if |ss| < MaxSentences then |ss| else MaxSentences
    ensures |ss| >= MaxSentences || r == ss
  {
    if |ss| <= MaxSentences then ss else ss[..MaxSentences]
  }

  /** `sent.get("ru", "").strip()` raises when `ru` is null or not a string;
      likewise `tl`. */
  predicate SentenceRaises(s: Sentence)
  {
    s.ru.Mistyped? || s.tl.Mistyped?
  }

  /** No sentence of the run raises, checked front to back as the loop reads
      them. */
  predicate NoneRaise(ss: seq<Sentence>)
  {
    ss == [] || (!SentenceRaises(ss[0]) && NoneRaise(ss[1..]))
  }

  /** Some sentence among the first six raises. */
  predicate ShownRaise(ss: seq<Sentence>)
  {
    !NoneRaise(Shown(ss))
  }

  /** The front-to-back check agrees with "no sentence raises". */
  lemma {:induction false} NoneRaiseIff(ss: seq<Sentence>)
    ensures NoneRaise(ss) <==> forall i :: 0 <= i < |ss| ==> !SentenceRaises(ss[i])
  {
    if ss != [] {
      NoneRaiseIff(ss[1..]);
      assert forall i :: 1 <= i < |ss| ==> ss[i] == ss[1..][i - 1];
    }
  }

  /** The section raises exactly when one of the first six sentences does. */
  lemma ShownRaiseIff(ss: seq<Sentence>)
    ensures ShownRaise(ss) <==> exists i :: 0 <= i < |ss| && i < MaxSentences && SentenceRaises(ss[i])
  {
    NoneRaiseIff(Shown(ss));
    if exists i :: 0 <= i < |ss| && i < MaxSentences && SentenceRaises(ss[i]) {
      var i :| 0 <= i < |ss| && i < MaxSentences && SentenceRaises(ss[i]);
      assert Shown(ss)[i] == ss[i];
    }
    if ShownRaise(ss) {
      var i :| 0 <= i < |Shown(ss)| && SentenceRaises(Shown(ss)[i]);
      assert Shown(ss)[i] == ss[i];
    }
  }

  /** `not (ru or en)` after stripping. */
  predicate IsBlank(s: Sentence)
  {
    StrippedText(s.ru) == "" && StrippedText(s.tl) == ""
  }

  /** The lines one sentence adds. */
  function SentenceBlock(s: Sentence): seq<string>
  {
    BlockOf(StrippedText(s.ru), StrippedText(s.tl))
  }

  /** `if ru or en:` the accented bold `ru` line, when `ru` is not empty, the
      indented `en` line, when `en` is not empty, and a blank line. */
  function BlockOf(ru: string, en: string): seq<string>
  {
    if ru == "" && en == "" then []
    else
      (if ru != "" then ["+ **" + AddAcuteAccent(ru) + "**"] else [])
      + (if en != "" then ["\n   " + en] else [])
      + [""]
  }

  /** The lines a run of sentences adds, in order. */
  function SentenceBlocks(ss: seq<Sentence>): seq<string>
  {
    if ss == [] then [] else SentenceBlock(ss[0]) + SentenceBlocks(ss[1..])
  }

  /** `if sentences:` a heading, a blank line and the first six sentences. */
  function SentenceSection(heading: string, ss: seq<Sentence>): seq<string>
  {
    if ss == [] then [] else [heading, ""] + SentenceBlocks(Shown(ss))
  }

  /** The `if sentences:` stage: the heading, a blank line, and one loop
      iteration for each of `sentences[:6]`. */
  method AppendSentences(lines: seq<string>, heading: string, sentences: seq<Sentence>)
    returns (raised: bool, r: seq<string>)
    ensures raised == ShownRaise(sentences)
    ensures !raised ==> r == lines + SentenceSection(heading, sentences)
  {
    raised, r := false, lines;
    if |sentences| > 0 {
      r := r + [heading];
      r := r + [""];
      assert r == lines + [heading, ""];
      var shown := if |sentences| <= MaxSentences then sentences else sentences[..MaxSentences];
      assert shown == Shown(sentences);
      raised, r := AppendShown(r, shown);
      if !raised {
        AppendAssoc(lines, [heading, ""], SentenceBlocks(shown));
      }
    }
  }

  /** The `for sent in sentences[:6]` loop itself. */
  method AppendShown(lines: seq<string>, shown: seq<Sentence>) returns (raised: bool, r: seq<string>)
    ensures raised == !NoneRaise(shown)
    ensures !raised ==> r == lines + SentenceBlocks(shown)
  {
    r := lines;
    var j := 0;
    while j < |shown|
      invariant 0 <= j <= |shown|
      invariant NoneRaise(shown) == NoneRaise(shown[j..])
      invariant r + SentenceBlocks(shown[j..]) == lines + SentenceBlocks(shown)
    {
      var sent := shown[j];
      ghost var before := r;
      raised, r := AppendSentence(r, sent);
      AppendShownStep(before, shown, j);
      if raised {
        return true, r;
      }
      j := j + 1;
    }
    assert shown[j..] == [];
    return false, r;
  }

  /** One iteration of the `sentences[:6]` loop. */
  method AppendSentence(lines: seq<string>, sent: Sentence) returns (raised: bool, r: seq<string>)
    ensures raised == SentenceRaises(sent)
    ensures !raised ==> r == lines + SentenceBlock(sent)
  {
    r := lines;
    if sent.ru.Mistyped? || sent.tl.Mistyped? {
      return true, r;
    }
    var ru := StrippedText(sent.ru);
    var en := StrippedText(sent.tl);
    assert SentenceBlock(sent) == BlockOf(ru, en);
    if ru != "" || en != "" {
      ghost var bold: seq<string> := [];
      ghost var indented: seq<string> := [];
      if ru != "" {
        var ruFormatted := AddAcuteAccent(ru);
        bold := ["+ **" + ruFormatted + "**"];
        r := r + ["+ **" + ruFormatted + "**"];
      }
      assert r == lines + bold;
      if en != "" {
        indented := ["\n   " + en];
        r := r + ["\n   " + en];
      }
      assert r == lines + bold + indented;
      r := r + [""];
      assert BlockOf(ru, en) == bold + indented + [""];
      AppendAssoc(lines, bold + indented, [""]);
      AppendAssoc(lines, bold, indented);
    } else {
      assert BlockOf(ru, en) == [];
    }
    return false, r;
  }

  /** The `AppendShown` loop body: taking sentence `j` off the front of what
      is left. */
  lemma AppendShownStep(r: seq<string>, shown: seq<Sentence>, j: nat)
    requires j < |shown|
    ensures NoneRaise(shown[j..]) == (!SentenceRaises(shown[j]) && NoneRaise(shown[j + 1..]))
    ensures r + SentenceBlocks(shown[j..]) == (r + SentenceBlock(shown[j])) + SentenceBlocks(shown[j + 1..])
  {
    assert shown[j..][1..] == shown[j + 1..];
    AppendAssoc(r, SentenceBlock(shown[j]), SentenceBlocks(shown[j + 1..]));
  }

  lemma AppendAssoc<T>(a: seq<T>, b: seq<T>, c: seq<T>)
    ensures (a + b) + c == a + (b + c)
  {
  }

  lemma SliceThree<T>(a: seq<T>, b: seq<T>, c: seq<T>)
    ensures (a + b + c)[|a|..|a| + |b|] == b && (a + b + c)[|a| + |b|..] == c
  {
  }

  /** A run of sentences adds no line exactly when every one of them is blank. */
  lemma {:induction false} SentenceBlocksEmptyIff(ss: seq<Sentence>)
    ensures SentenceBlocks(ss) == [] <==> forall i :: 0 <= i < |ss| ==> IsBlank(ss[i])
  {
    if ss != [] {
      SentenceBlocksEmptyIff(ss[1..]);
      assert forall i :: 1 <= i < |ss| ==> ss[i] == ss[1..][i - 1];
    }
  }

  // Reading the sentence lines back.

  predicate IsBoldLine(line: string)
  {
    |line| >= 6 && line[0] == '+'
  }

  predicate IsIndentedLine(line: string)
  {
    |line| >= 4 && line[0] == '\n'
  }

  /** Recovers `(ru, tl)` pairs from sentence lines: a bold `+ **ru**` line,
      optionally followed by an indented translation line, or an indented line
      alone; blank separator lines are skipped. */
  function ParseSentenceLines(lines: seq<string>): seq<(string, string)>
  {
    if lines == [] then []
    else if IsBoldLine(lines[0]) then
      var ru := lines[0][4..|lines[0]| - 2];
      if |lines| > 1 && IsIndentedLine(lines[1]) then
        [(ru, lines[1][4..])] + ParseSentenceLines(lines[2..])
      else [(ru, "")] + ParseSentenceLines(lines[1..])
    else if IsIndentedLine(lines[0]) then
      [("", lines[0][4..])] + ParseSentenceLines(lines[1..])
    else ParseSentenceLines(lines[1..])
  }

  /** Reference definition of what the section shows: for every sentence that
      is not blank, its stripped `ru` with stress marks applied and its stripped
      `tl` as is, in input order. */
  function Listed(ss: seq<Sentence>): (r: seq<(string, string)>)
    ensures |r| <= |ss|
  {
    if ss == [] then [] else ListedOne(ss[0]) + Listed(ss[1..])
  }

  function ListedOne(s: Sentence): (r: seq<(string, string)>)
    ensures |r| <= 1
  {
    if IsBlank(s) then [] else [(AddAcuteAccent(StrippedText(s.ru)), StrippedText(s.tl))]
  }

  lemma ParseBoldThenIndented(bold: string, ind: string, rest: seq<string>)
    requires IsBoldLine(bold) && IsIndentedLine(ind)
    ensures ParseSentenceLines([bold, ind, ""] + rest)
            == [(bold[4..|bold| - 2], ind[4..])] + ParseSentenceLines(rest)
  {
    assert ([bold, ind, ""] + rest)[2..] == [""] + rest;
    assert ([""] + rest)[1..] == rest;
  }

  lemma ParseBoldAlone(bold: string, rest: seq<string>)
    requires IsBoldLine(bold)
    ensures ParseSentenceLines([bold, ""] + rest)
            == [(bold[4..|bold| - 2], "")] + ParseSentenceLines(rest)
  {
    assert ([bold, ""] + rest)[1..] == [""] + rest;
    assert ([""] + rest)[1..] == rest;
  }

  lemma ParseIndentedAlone(ind: string, rest: seq<string>)
    requires IsIndentedLine(ind)
    ensures ParseSentenceLines([ind, ""] + rest)
            == [("", ind[4..])] + ParseSentenceLines(rest)
  {
    assert ([ind, ""] + rest)[1..] == [""] + rest;
    assert ([""] + rest)[1..] == rest;
  }

  lemma ParseSentenceBlock(s: Sentence, rest: seq<string>)
    ensures ParseSentenceLines(SentenceBlock(s) + rest)
            == ListedOne(s) + ParseSentenceLines(rest)
  {
    ParseBlockOf(StrippedText(s.ru), StrippedText(s.tl), rest);
  }

  lemma ParseBlockOf(ru: string, en: string, rest: seq<string>)
    ensures ParseSentenceLines(BlockOf(ru, en) + rest)
            == (if ru == "" && en == "" then [] else [(AddAcuteAccent(ru), en)]) + ParseSentenceLines(rest)
  {
    if ru == "" && en == "" {
      assert BlockOf(ru, en) + rest == rest;
    } else {
      var acc := AddAcuteAccent(ru);
      var bold := "+ **" + acc + "**";
      var ind := "\n   " + en;
      assert bold[4..|bold| - 2] == acc;
      assert ind[4..] == en;
      if ru != "" && en != "" {
        assert BlockOf(ru, en) == [bold, ind, ""];
        ParseBoldThenIndented(bold, ind, rest);
      } else if ru != "" {
        assert BlockOf(ru, en) == [bold, ""];
        ParseBoldAlone(bold, rest);
      } else {
        assert acc == "";
        assert BlockOf(ru, en) == [ind, ""];
        ParseIndentedAlone(ind, rest);
      }
    }
  }

  /** The placeholder line reads as no sentence. */
  lemma PlaceholderNotSentence()
    ensures ParseSentenceLines([Placeholder]) == []
  {
    assert Placeholder[0] == '_';
    assert [Placeholder][1..] == [];
  }

  /** Round trip: the sentence lines, followed by any further lines, read
      back as exactly the non-blank sentences, in order, `ru` accented and `tl`
      untouched, followed by whatever the further lines read as. */
  lemma {:induction false} SentenceBlocksRoundTrip(ss: seq<Sentence>, rest: seq<string>)
    ensures ParseSentenceLines(SentenceBlocks(ss) + rest) == Listed(ss) + ParseSentenceLines(rest)
  {
    if ss == [] {
      assert SentenceBlocks(ss) + rest == rest;
    } else {
      SentenceBlocksRoundTrip(ss[1..], rest);
      ParseSentenceThen(ss[0], SentenceBlocks(ss[1..]), rest, Listed(ss[1..]));
    }
  }

  lemma ParseSentenceThen(s: Sentence, tail: seq<string>, rest: seq<string>, shown: seq<(string, string)>)
    requires ParseSentenceLines(tail + rest) == shown + ParseSentenceLines(rest)
    ensures ParseSentenceLines(SentenceBlock(s) + tail + rest)
            == ListedOne(s) + shown + ParseSentenceLines(rest)
  {
    ParseSentenceBlock(s, tail + rest);
    AppendAssoc(SentenceBlock(s), tail, rest);
  }

  /** The section: nothing for no sentences; otherwise the heading, a blank
      line, and lines that read back as the non-blank sentences among the
      first six, so at most six are shown and none after the sixth. */
  lemma SentenceSectionContents(heading: string, ss: seq<Sentence>)
    ensures ss == [] ==> SentenceSection(heading, ss) == []
    ensures ss != [] ==> SentenceSection(heading, ss)[..2] == [heading, ""]
    ensures ss != [] ==> ParseSentenceLines(SentenceSection(heading, ss)[2..]) == Listed(Shown(ss))
    ensures ss != [] ==> |ParseSentenceLines(SentenceSection(heading, ss)[2..])| <= MaxSentences
  {
    if ss != [] {
      SentenceBlocksRoundTrip(Shown(ss), []);
      assert SentenceSection(heading, ss)[2..] == SentenceBlocks(Shown(ss));
      assert SentenceBlocks(Shown(ss)) + [] == SentenceBlocks(Shown(ss));
    }
  }

  /** The section has no line beyond its heading exactly when every sentence
      among the first six is blank. */
  lemma SentenceSectionBare(heading: string, ss: seq<Sentence>)
    requires ss != []
    ensures |SentenceSection(heading, ss)| == 2
            <==> forall i :: 0 <= i < |Shown(ss)| ==> IsBlank(Shown(ss)[i])
  {
    SentenceBlocksEmptyIff(Shown(ss));
  }

  /** Sentences after the sixth are never read: appending entries to a list of
      six or more changes nothing, even entries that would raise. */
  lemma LaterSentencesIgnored(heading: string, ss: seq<Sentence>, extra: seq<Sentence>)
    requires |ss| >= MaxSentences
    ensures ShownRaise(ss + extra) == ShownRaise(ss)
    ensures SentenceSection(heading, ss + extra) == SentenceSection(heading, ss)
  {
    assert Shown(ss + extra) == Shown(ss);
  }
}
