# openrussian-tui: the response-to-markdown core

openrussian-tui is a terminal dictionary. It sends the word typed by the user
to the OpenRussian suggestions API and shows the answer as markdown. This
project models the two pieces of it that hold logic. Both appear, in slightly
different versions, in `src/openrussian_tui/openrussian.py` (the packaged front
end) and in `openrussian.py` (the script front end):

- `add_acute_accent`, the stress-mark annotator. It turns every `X'` (with `X`
  not an apostrophe) into `X` followed by the combining acute accent U+0301,
  scanning left to right without overlap (`Accent`, shared by both files).
- `OpenRussian.make_word_markdown`. It turns one decoded JSON response into a
  list of markdown lines joined with `"\n"`:
  - `NestedMarkdown` models the packaged front end. It reads the nested
    `words[0].word` entry, uses its accented `ru` form as the heading, shows the
    verb or non-verb grammar, a "Meanings" section and "More Example
    Sentences".
  - `FlatMarkdown` models the script front end. It reads the flat `words[0]`
    entry, uses the plain term as the heading, shows "English Translations"
    from `tls2` (falling back to the `tls` lists) and "Example Sentences".

Shared pieces:

- `PyText`: `str.strip()`, `sep.join(...)` and `str()` of an integer.
- `Payload`: the typed view of the response.
- `Document`: the fixed error lines, the final placeholder rule and the
  `sentences[:6]` loop, which is identical in both files.

## How the model is built

- **The response.** A response is a `Payload.Response`: either not an object,
  or an object whose `"result"` entry is missing, present, or of the wrong
  type.
- **Field shapes.** A key read with `.get(k, default)` and then used as a
  string, or iterated as `tls` is in the flat schema, is a `Field`: `Missing`, `Present(v)` or `Mistyped` (null or another
  JSON type, on which Python raises). A key that is tested for truthiness before use
  (`words`, `tls2`, `sentences`, `examples`, `translation`, `verb`) is a
  sequence or an `Option`. A falsy value there (absent, null, empty list or
  empty object) reads as empty.
- **Raising.** The Python code raises on some malformed inputs. It is not made
  total here. Each builder has a `Raises` predicate listing exactly those
  inputs, and its result is an `Outcome`: `Returned(markdown)` or `Raised`.
- **Builder shape.** Each `make_word_markdown` is a `method` that grows a
  `lines` sequence stage by stage, as the Python appends do. The loops over
  `tls2`, `tls` and `sentences[:6]` carry invariants. The method is proved
  equal to a functional specification `Markdown`. The lemmas about `Markdown`
  state what the document contains.
- **Parse-back partners.** Several lemmas read rendered lines back:
  `ParseSentenceLines`, `ParseMeaningLines` and `ParseDashLines`. The
  round-trip lemmas show that the lines hold exactly the intended data, in
  order, with accents where the source puts them and nowhere else.

## Behaviour of the code worth knowing

- **Raising.** The builder is not total. It raises, for example, on
  `{"result": null}`, a non-string `term`, a `words[0]` without `word`, a null
  `ru`, an empty `partners2`, or an example without `native`. Those inputs
  give `Raised`.
- **Nested heading.** In the packaged front end no heading is produced from
  `term`: line 84 is only a comment. The heading comes from `words[0].word.ru`,
  so a term-only payload yields just the placeholder line
  (`NestedMarkdown.TermOnlyPayload`). The "at most 2 lines" rule therefore
  fires exactly when there is no word entry and the first six sentences are
  all blank.
- **Flat placeholder.** In the script front end the placeholder depends only
  on whether a translation section was emitted and whether `sentences` is
  empty. It appears exactly when no translation section was emitted and
  `sentences` is empty. A sentence list whose entries are all blank
  still adds its heading and suppresses the placeholder
  (`FlatMarkdown.PlaceholderIff`).
- **Schema choice.** The schema is not detected from the fields present. Each
  front end assumes its own schema.
- **Idempotence.** `add_acute_accent` is not idempotent in general. `"a''"`
  becomes `"á'"`, and a second pass consumes the remaining apostrophe
  (`Accent.AccentNotIdempotent`). It is the identity on text without a marked
  apostrophe (`Accent.AccentIdentityIff`).

## Model

| member | source | states |
|---|---|---|
| `Accent.AddAcuteAccent` | src/openrussian_tui/openrussian.py:15-24 | the substitution keeps the text's length: each `X'` match becomes `X` + U+0301, two characters for two |
| `Accent.AccentPointwise` | src/openrussian_tui/openrussian.py:20-24 | the left-to-right, non-overlapping scan equals the position-local rule: position `i` becomes U+0301 exactly when it is an apostrophe whose left neighbour is not one, otherwise it is unchanged |
| `Accent.AccentIdentityIff` | src/openrussian_tui/openrussian.py:24 | the annotator leaves the text unchanged if and only if no apostrophe follows a non-apostrophe |
| `Accent.AccentIdentityWithoutApostrophe` | openrussian.py:15-24 | text with no apostrophe comes back unchanged |
| `Accent.AccentKeepsUnmarkedApostrophes` | src/openrussian_tui/openrussian.py:24 | an apostrophe at index 0 or after another apostrophe is kept; every marked one becomes U+0301; no apostrophe appears in the output that was not in the input |
| `Accent.AccentExamples` | src/openrussian_tui/openrussian.py:17-18 | `Челове'к` becomes `Челове` + U+0301 + `к`; `a''` becomes `a` + U+0301 + `'` |
| `Accent.AccentNotIdempotent` | src/openrussian_tui/openrussian.py:24 | applying the annotator twice can differ from applying it once |
| `PyText.TrimStartSpec` | openrussian.py:77 | `lstrip` keeps a suffix, drops only white space and leaves no leading white space |
| `PyText.TrimEndSpec` | openrussian.py:77 | `rstrip` keeps a prefix, drops only white space and leaves no trailing white space |
| `PyText.StripSpec` | openrussian.py:77-79 | `strip()` is empty exactly when the text is all white space, and otherwise has no white space at either end |
| `PyText.StripIsSlice` | openrussian.py:77 | `strip()` is a contiguous slice of the input with only white space dropped on both sides |
| `PyText.StripKeepsUnpadded` | openrussian.py:77 | text with no white space at either end is stripped to itself |
| `PyText.JoinLength` | openrussian.py:135 | `sep.join(xs)` is as long as the items plus one separator between each neighbouring pair |
| `PyText.JoinSnoc` | openrussian.py:135 | joining one more line adds the separator and that line at the end |
| `PyText.IntRoundTrip` | openrussian.py:108 | the digits printed by `str(n)` read back as `n` |
| `Document.WithPlaceholderExtends` | src/openrussian_tui/openrussian.py:142-143 | the final fallback only appends, and appends the placeholder exactly when at most two lines were produced |
| `Document.Shown` | src/openrussian_tui/openrussian.py:130 | `sentences[:6]` is a prefix of at most six entries and is the whole list when it is shorter |
| `Document.NoneRaiseIff` | src/openrussian_tui/openrussian.py:131-132 | the front-to-back raise check of the loop agrees with "no sentence has a non-string `ru` or `tl`" |
| `Document.ShownRaiseIff` | src/openrussian_tui/openrussian.py:130-132 | the sentence stage raises exactly when one of the first six entries has a non-string `ru` or `tl` |
| `Document.AppendSentences` | src/openrussian_tui/openrussian.py:126-139 | the `if sentences:` stage raises exactly as specified and otherwise appends precisely the sentence section to the lines so far |
| `Document.AppendShown` | src/openrussian_tui/openrussian.py:130-139 | the `for sent in sentences[:6]` loop appends each sentence's block in order, or reports the first raising entry |
| `Document.AppendSentence` | src/openrussian_tui/openrussian.py:131-139 | one loop iteration: nothing for a blank pair, else the bold accented `ru` line when `ru` is not blank, the indented `tl` line when `tl` is not blank, and a blank line |
| `Document.SentenceBlocksEmptyIff` | src/openrussian_tui/openrussian.py:133 | a run of sentences adds no line exactly when every entry is blank after strip |
| `Document.SentenceBlocksRoundTrip` | src/openrussian_tui/openrussian.py:130-139 | the sentence lines read back as exactly the non-blank sentences, in order, `ru` accented and `tl` untouched |
| `Document.SentenceSectionContents` | src/openrussian_tui/openrussian.py:126-139 | no sentences give no section; otherwise the heading and a blank line come first, even when every entry is blank, and the rest reads back as the non-blank entries among the first six |
| `Document.SentenceSectionBare` | src/openrussian_tui/openrussian.py:133-139 | the section is only its heading and blank line exactly when the first six entries are all blank |
| `Document.LaterSentencesIgnored` | src/openrussian_tui/openrussian.py:130 | entries after the sixth are never read: appending any, even malformed ones, to six or more changes neither whether the sentence stage raises nor the section it renders |
| `NestedMarkdown.MakeWordMarkdown` | src/openrussian_tui/openrussian.py:66-145 | the imperative builder returns exactly the specification `Markdown(resp)`: the joined lines, or `Raised` on the inputs where Python raises |
| `NestedMarkdown.AppendBody` | src/openrussian_tui/openrussian.py:86-139 | the word stage and then the sentence stage append the body lines, or report the raise |
| `NestedMarkdown.AppendWord` | src/openrussian_tui/openrussian.py:87-123 | for `words[0]`: the accented `ru` heading, a blank line, the grammar lines and the meanings section, or a raise when `word`, `ru`, `type` or the verb's fields are missing |
| `NestedMarkdown.AppendMeanings` | src/openrussian_tui/openrussian.py:108-123 | the `tls2` loop appends the "Meanings" heading, each group's lines in order and a closing blank line, or reports a group whose first example is malformed |
| `NestedMarkdown.AppendGroup` | src/openrussian_tui/openrussian.py:113-122 | one group: the bold comma-joined translations and a blank line when there are any, then the accented first example and its italic translation when there are examples |
| `NestedMarkdown.InvalidResponse` | src/openrussian_tui/openrussian.py:71-74 | a non-object or a response without `"result"` yields exactly `# Error\nInvalid response from dictionary API.`, and no other response yields those lines |
| `NestedMarkdown.NoWordFound` | src/openrussian_tui/openrussian.py:77-81 | a term that is missing or blank after strip yields exactly `# No word found`, and no other well-shaped response does |
| `NestedMarkdown.BodyNotFixedText` | src/openrussian_tui/openrussian.py:83-143 | a rendered body never coincides with the error or not-found lines |
| `NestedMarkdown.WordHeading` | src/openrussian_tui/openrussian.py:94-106 | with a word entry the document opens with `# ` + accented `ru` and a blank line; then aspect, type and `\npartner: **accented partner**` for a verb, or only the type otherwise |
| `NestedMarkdown.PlaceholderIff` | src/openrussian_tui/openrussian.py:142-143 | the placeholder is appended exactly when there is no word entry and the first six sentences are all blank; otherwise the body is returned as built |
| `NestedMarkdown.TermOnlyPayload` | src/openrussian_tui/openrussian.py:83-84 | a payload with only a non-blank term yields just the placeholder line; the term itself is never printed |
| `NestedMarkdown.TermOnlyExample` | src/openrussian_tui/openrussian.py:142-143 | `{"result": {"term": "стол"}}` yields only the placeholder |
| `NestedMarkdown.TermNotShown` | src/openrussian_tui/openrussian.py:77-84 | any two non-blank terms give the same output: the term only decides whether the body is built |
| `NestedMarkdown.LaterWordsIgnored` | src/openrussian_tui/openrussian.py:88 | only `words[0]` is read: further entries, even malformed ones, change nothing |
| `NestedMarkdown.DocumentSentences` | src/openrussian_tui/openrussian.py:126-139 | after the word lines come `## More Example Sentences` and a blank line, and the rest reads back as the non-blank sentences among the first six |
| `NestedMarkdown.GroupsLinesRoundTrip` | src/openrussian_tui/openrussian.py:113-122 | the group lines read back as each group's joined translations (never accented) and its accented first example with its translation, in order |
| `NestedMarkdown.MeaningsSectionContents` | src/openrussian_tui/openrussian.py:108-123 | an empty `tls2` gives no section; otherwise `## Meanings`, a blank line, lines that read back as every group's items, and a closing blank line |
| `FlatMarkdown.MakeWordMarkdown` | openrussian.py:66-135 | the imperative builder returns exactly the specification `Markdown(resp)`: the joined lines, or `Raised` on the inputs where Python raises |
| `FlatMarkdown.AppendBody` | openrussian.py:87-129 | the translation stage and then the sentence stage append their sections, or report the raise |
| `FlatMarkdown.AppendTranslations` | openrussian.py:88-113 | for `words[0]`: the `tls2` section when `tls2` is non-empty, otherwise the `tls` fallback; raises when the entry is not an object or `tls` is not iterable |
| `FlatMarkdown.AppendFallback` | openrussian.py:102-113 | the fallback appends the heading, a blank line, all collected items comma-joined and a blank line when any item was collected, and nothing otherwise |
| `FlatMarkdown.AppendDashes` | openrussian.py:96-100 | the `tls2` loop appends one `- a, b` line per group that has translations, in order |
| `FlatMarkdown.CollectTranslations` | openrussian.py:105-108 | the `extend` loop over `tls` builds exactly the flattening of the list groups, each item printed with `str` |
| `FlatMarkdown.Printed` | openrussian.py:108 | `str(t) for t in group` gives one printed item per element, in order |
| `FlatMarkdown.FlattenAppend` | openrussian.py:106-108 | flattening distributes over concatenation of `tls` |
| `FlatMarkdown.FlattenMembers` | openrussian.py:105-108 | a string is collected exactly when it is the printed form of an item of a list element of `tls`; non-list elements contribute nothing |
| `FlatMarkdown.FlattenEmptyIff` | openrussian.py:109 | nothing is collected exactly when every list element of `tls` is empty |
| `FlatMarkdown.DashLinesRoundTrip` | openrussian.py:96-100 | the `- ` lines read back as the comma-joined translations of the groups that have any, in order |
| `FlatMarkdown.TranslationSectionContents` | openrussian.py:89-113 | with `tls2`, the heading, a blank line, the groups' lines and a blank line, even when no group has translations; without `tls2`, nothing or exactly the heading, a blank line, one comma-joined line and a blank line |
| `FlatMarkdown.TlsIgnoredWithTls2` | openrussian.py:93-104 | when `tls2` is non-empty, `tls` is never read: replacing it, even by a raising value, changes nothing |
| `FlatMarkdown.InvalidResponse` | openrussian.py:71-74 | a non-object or a response without `"result"` yields exactly `# Error\nInvalid response from dictionary API.`, and no other response yields those lines |
| `FlatMarkdown.NoWordFound` | openrussian.py:77-81 | a term that is missing or blank after strip yields exactly `# No word found`, and no other well-shaped response does |
| `FlatMarkdown.TermHeading` | openrussian.py:84-85 | for a non-blank term the document opens with `# ` + the stripped term (not accented) and a blank line |
| `FlatMarkdown.PlaceholderIff` | openrussian.py:132-133 | the placeholder is appended exactly when no translation section was emitted and `sentences` is empty |
| `FlatMarkdown.NoTranslationsIff` | openrussian.py:89-113 | the translation stage emits nothing exactly when `tls2` is empty and every list in `tls` is empty |
| `FlatMarkdown.DocumentSentences` | openrussian.py:116-129 | after the heading and translations come `## Example Sentences` and a blank line, and the rest reads back as the non-blank sentences among the first six |
| `FlatMarkdown.LaterWordsIgnored` | openrussian.py:90 | only `words[0]` is read: further entries, even malformed ones, change nothing |
| `FlatMarkdown.TermOnlyPayload` | openrussian.py:132-133 | a payload with only a non-blank term yields `# term`, an empty line and the placeholder |
| `FlatMarkdown.TermOnlyExample` | openrussian.py:132-133 | `{"result": {"term": "стол"}}` yields `# стол\n\n_No translations or examples available._` |

## Left out

- `compose`, `action_toggle_dark`, `BINDINGS`, `CSS_PATH`, `on_input_changed`, and the header, footer and input widgets are left out. They are Textual UI and hold no logic of the core.
- `lookup_word` is left out. It is network I/O and worker concurrency: the HTTP GET with its 10 s timeout, `raise_for_status`, the "Failed to fetch data" rendering and `@work(exclusive=True)` cancellation. Its staleness check reads live widget state.
- The `httpx` import guard and the `__main__` bootstrap are left out, as is the display widget's markdown rendering.
- Python's regular-expression engine is not modelled. `add_acute_accent` is modelled by direct recursion on characters, which is what `([^'])'` matches.
- `PyText.IsSpace` lists the characters for which `str.isspace()` holds, including the Unicode space separators. No other Unicode property is modelled.
- Inputs of a JSON type that the typed records cannot hold are not modelled. This covers a non-object `words[0]` in the nested schema, a non-object group or sentence, non-string items in `translation`, floats, and nested lists or objects printed by `str()`. Also not modelled are truthy non-list values where a list is iterated (a non-empty object in `words`, `tls2` or `sentences`) and a non-list `partners2`. On each of these the Python code raises or behaves in a way specific to the type.
- The model's outcome `Raised` does not say which exception Python raises.
