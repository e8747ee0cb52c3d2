# Section ranking for persona-driven PDF analysis, in Dafny

The pipeline reads a directory of PDF files, cuts each document into sections
(a heading line and the body lines under it), keeps the sections worth ranking,
scores them against a query built from a persona and a job to be done, drops
near-duplicate headings, and reports at most five sections, spread over the
documents, each with a short "refined text".

This project models the deterministic part of that pipeline and proves what it
promises:

- `text.dfy` (`Text`): the string operations the pipeline leans on: `str.strip`,
  `str.split()`, `" ".join`, `str.lower`, and `re.sub(r'\s+', ' ', …)`. They work on
  ASCII characters.
- `records.dfy` (`Records`): a section record with optional fields. Python's
  `dict.get` becomes `Get(field, default)`. A ranked entry is a
  `(score, section)` pair.
- `pdf_parser.dfy` (`PdfParser`): `is_bullet_point` and the nested `is_heading`.
  - The font statistics and the body font.
  - The collection loop over lines and spans.
  - The streaming section assembler, proved equal to a cut-by-heading
    definition.
  - The final five-word filter.
- `summarizer.dfy` (`Summarizer`): `clean_text`, and the choice of
  the top sentences by importance, put back in reading order.
- `relevance.dfy` (`Relevance`): the parts of `score_sections` around the
  machine-learning scores:
  - dropping blank headings;
  - the position, heading, length and keyword bonuses;
  - the weighted sum and the stable descending sort.
  - The greedy Jaccard duplicate filter.
- `output_generator.dfy` (`OutputGenerator`): the two-pass diversity selection with
  its per-document quota and its seen-key set, the 1-based ranks and the
  `refined_text` rule.
- `pipeline.dfy` (`Pipeline`): `validate_section`, the per-file tagging loop, the
  directory loop, the enhanced query, the 0.5 fallback when scoring raises, and
  the whole `main` run as one method.

Loops of the source are methods with loop invariants. Each is proved equal to a
specification function, and the properties are lemmas about those functions.

## Model

| member | source | states |
|---|---|---|
| `Summarizer.CleanText` | summarizer.py:8-10 | The result has no leading or trailing whitespace, no two whitespace characters in a row and no whitespace but blanks; it is no longer than the input; it has the same words (`split()`) as the input and equals `" ".join(text.split())` |
| `Text.WordsOfCollapse` | summarizer.py:9 | Replacing every whitespace run by one blank keeps the words |
| `Text.WordsOfStrip` | summarizer.py:10 | Stripping keeps the words |
| `Text.NormalisedIsJoin` | summarizer.py:8-10 | A string without outer, doubled or non-blank whitespace is its words joined by single blanks |
| `Text.WordsOfJoinAll` | summarizer.py:28 | The words of `" ".join(parts)` are the words of the parts, one part after the other |
| `Summarizer.CleanTextIdempotent` | summarizer.py:8-10 | Cleaning a cleaned text changes nothing |
| `Summarizer.RankDescProperties` | summarizer.py:24 | The descending argsort lists every sentence index exactly once, by non-increasing importance |
| `Summarizer.InOriginalOrder` | summarizer.py:27 | `sorted(...)` of the chosen indices: strictly increasing, every element is a chosen index in range |
| `Summarizer.KeepsAllChosen` | summarizer.py:27 | Restoring reading order loses none of a list of distinct indices (same multiset) |
| `Summarizer.SelectIndices` | summarizer.py:24-27 | Exactly k indices are kept, strictly increasing, in range, and no sentence left out is more important than a kept one |
| `Summarizer.TopInOrder` | summarizer.py:24-27 | The top k of the ranking, put back in order, are k indices and none of the rest beats them |
| `Summarizer.TopOfAnyRanking` | summarizer.py:24-27 | The same for every ranking that lists each index once by non-increasing importance, whatever order it gives to equal importances |
| `Summarizer.Summarize` | summarizer.py:12-28 | At most `max_sentences` sentences: the cleaned text, with the text's words. Otherwise exactly the words of the sentences `SelectIndices` keeps, in reading order. The result is always whitespace-normalised |
| `PdfParser.IsBulletPoint` | pdf_parser.py:7-15 | A stripped text starting with a bullet glyph, or matching the number or letter markers, is a bullet. A bullet is non-empty and starts with a glyph, "(", a digit or a letter followed by ")" |
| `PdfParser.IsHeading` | pdf_parser.py:70-143 | Accepted exactly when every rejection passes and a positive pattern matches, or the first span is larger and either emphasised or of at most 8 words. An accepted line is 3+ characters and at most 20 words, with no terminal `.!?;` and no footer keyword. Without a positive pattern it must be larger |
| `PdfParser.GlueBlank` | pdf_parser.py:33-53 | The glued `line_text` of a line is blank exactly when no span of it has text |
| `PdfParser.BuildLineShape` | pdf_parser.py:53-59 | A line is kept exactly when it has a span with text; a kept line has non-blank text and a first span |
| `PdfParser.AddWords` | pdf_parser.py:49-51 | `font_stats[key] += n` on a defaultdict: the key's count grows by n (from 0 when new, appended to the key order), nothing else changes, and the dictionary stays well formed |
| `PdfParser.Tally` | pdf_parser.py:37-51 | The statistics of a span list are a well-formed dictionary |
| `PdfParser.TallyCounts` | pdf_parser.py:37-51 | A key is in the statistics exactly when some span with text has it, and its count is the sum of those spans' word counts |
| `PdfParser.TallyPermutation` | pdf_parser.py:37-51 | Reordering the spans leaves every key and count unchanged |
| `PdfParser.FirstMaxIndex` | pdf_parser.py:66 | `max(keys, key=count)`: no key has a larger count, and every earlier key a strictly smaller one, so the first maximum wins |
| `PdfParser.BodyFont` | pdf_parser.py:61-67 | No body font exactly when the statistics are empty, otherwise a key whose word count no other key exceeds |
| `PdfParser.BodyFontUniqueMax` | pdf_parser.py:61-67 | A key with strictly more words than every other key is the body font |
| `PdfParser.BodyFontOrderFree` | pdf_parser.py:37-67 | Without a tie for the most words, every reordering of the spans gives the same body font |
| `PdfParser.ScanSpans` | pdf_parser.py:37-51 | The inner span loop yields the glued text, the kept spans, and the statistics extended by the line's spans |
| `PdfParser.CollectLines` | pdf_parser.py:25-59 | The collection loop yields exactly the built lines and the statistics of all spans |
| `PdfParser.NextHeading` | pdf_parser.py:150-174 | The first heading line at or after i: no line between is a heading, and the one found is |
| `PdfParser.CutsAt` | pdf_parser.py:146-187 | From a heading on, the cuts tile the stream: each runs from a heading to the next heading or the end, consecutive cuts meet, and the last one ends the stream |
| `PdfParser.SectionOfShape` | pdf_parser.py:156-171 | A section closed at the end of a cut was opened by the cut's heading line (title, text and page from it, context the joined lines up to the next heading) and obeys the 40-word summary rule |
| `PdfParser.SectionsComeFromHeadings` | pdf_parser.py:146-187 | Every assembled section was opened by a heading line at or after the start, so lines before the first heading open nothing, and it has a non-blank context |
| `PdfParser.AssembledSectionShape` | pdf_parser.py:146-187 | Each assembled section was opened by a heading line and its summary is its context when that has at most 40 words |
| `PdfParser.KeepSubstantial` | pdf_parser.py:189-190 | Exactly the sections whose context has at least 5 words are kept |
| `PdfParser.ExtractedSectionShape` | pdf_parser.py:17-193 | Every returned section comes from a document with a body font, was opened by a line the body font's heading test accepted, has at least 5 context words, and has summary = context when the context has at most 40 words |
| `PdfParser.CloseStep` | pdf_parser.py:154-171 | Closing the open heading when the next heading (or the end) arrives extends the cuts done so far by that heading's cut |
| `PdfParser.NothingClosed` | pdf_parser.py:146-150 | Before the first heading no section is closed |
| `PdfParser.StreamNextHeading` | pdf_parser.py:154-171 | A later heading closes the open section and opens its own |
| `PdfParser.StreamText` | pdf_parser.py:173-174 | A non-heading line joins the open section's context |
| `PdfParser.StreamEnd` | pdf_parser.py:176-187 | At the end of the stream, closing the open section gives all the sections of the cut-by-heading definition |
| `PdfParser.Feed` | pdf_parser.py:150-174 | One line of the streaming loop keeps the loop's invariant |
| `PdfParser.AssembleSections` | pdf_parser.py:146-187 | The streaming loop over `current_heading`/`current_context`/`current_page` returns exactly the sections of the cut-by-heading definition |
| `PdfParser.ExtractSections` | pdf_parser.py:17-193 | `extract_headings_with_context` returns exactly `ExtractedSections` of its lines |
| `Relevance.TopKeywords` | relevance_model.py:46 | `keywords[:10]`: a prefix of the matches, at most ten long, all of them when there are fewer than ten |
| `Relevance.PageBonus` | relevance_model.py:53 | Never negative, zero from page 10 on, positive before it, at most 0.1 for a non-negative page |
| `Relevance.OrderBonus` | relevance_model.py:55 | In (0, 0.05] |
| `Relevance.OrderBonusDecreases` | relevance_model.py:55 | A later position earns strictly less |
| `Relevance.PositionBonus` | relevance_model.py:51-56 | Positive, and in (0, 0.15] when the page is not negative |
| `Relevance.PositionBonuses` | relevance_model.py:48-57 | The dictionary has exactly the keys 0..n-1, each holding its position's bonus |
| `Relevance.HeadingBonus` | relevance_model.py:130-135 | One of 0, 0.05, 0.1 or 0.15. It includes 0.05 exactly when the heading has two words or more, and it is at least 0.1 exactly when the lowered heading names a quality word |
| `Relevance.LengthBonus` | relevance_model.py:138-139 | In [0, 0.1], and exactly 0.1 from ten words on |
| `Relevance.KeywordOverlap` | relevance_model.py:111-124 | In [0, 1]: 0 exactly when the word sets are disjoint, 1 exactly when every query word occurs in the section text |
| `Relevance.BonusesAreSmall` | relevance_model.py:141-149 | For a non-negative page, the bonuses add between 0 (exclusive) and 0.0475 to the weighted library scores |
| `Relevance.Clean` | relevance_model.py:68-81 | No longer than the input; every kept section has a non-blank stripped heading |
| `Relevance.CleanDropsExactlyBlankHeadings` | relevance_model.py:68-73 | A section is scored as often as it occurs, unless its stripped heading is blank, and then never |
| `Relevance.SortByScore` | relevance_model.py:154 | The sort is a permutation of its input |
| `Relevance.SortedByScore` | relevance_model.py:154 | The sorted list is non-increasing in score |
| `Relevance.SortIsStable` | relevance_model.py:154 | Entries of equal score keep their input order |
| `Relevance.EnhanceAll` | relevance_model.py:68-81 | The first loop keeps exactly the sections with a heading, each with its matching text |
| `Relevance.ScoreAll` | relevance_model.py:114-151 | The scoring loop gives each clean section its score, in order |
| `Relevance.ScoreSections` | relevance_model.py:59-156 | `score_sections` returns the stable sort of the scored clean sections, with zeros for a raising vectorizer and the TF-IDF scores when no semantic model is loaded or it raises |
| `Relevance.ScoredSectionsShape` | relevance_model.py:59-156 | One entry per section with a heading, as a permutation of the unsorted scores, non-increasing, ties in input order |
| `Relevance.IsDuplicate` | relevance_model.py:170-179 | The inner loop reports a duplicate exactly when some kept heading is too similar |
| `Relevance.FilterDuplicates` | relevance_model.py:158-185 | `filter_duplicates` returns exactly `Dedup` |
| `Relevance.SurvivorsNoneSimilar` | relevance_model.py:163-183 | No kept heading is similar to an earlier kept one |
| `Relevance.DedupIsSubsequence` | relevance_model.py:158-185 | The output is the input at strictly increasing positions (an order-preserving subsequence) |
| `Relevance.DedupKeepsFirst` | relevance_model.py:166-183 | The first entry is always kept |
| `Relevance.DedupKeepsWordless` | relevance_model.py:175 | An entry whose heading has no words is always kept |
| `Relevance.SurvivorsDropOnlySimilar` | relevance_model.py:166-183 | The greedy filter drops a position only when its heading is similar to that of a position kept before it |
| `Relevance.DedupDropsOnlySimilar` | relevance_model.py:166-183 | An entry is dropped only when its heading is too similar to that of an entry kept before it |
| `Relevance.WordlessNeverDuplicate` | relevance_model.py:171-179 | A wordless heading is never judged a duplicate |
| `Relevance.DedupPairwise` | relevance_model.py:170-183 | Any two kept headings that both have words have Jaccard similarity at most the threshold |
| `Relevance.NoneSimilarKeepsAll` | relevance_model.py:158-185 | A list with no similar pair is kept whole |
| `Relevance.DedupIdempotent` | relevance_model.py:158-185 | Filtering twice at the same threshold equals filtering once |
| `OutputGenerator.MaxPerDoc` | output_generator.py:32 | The quota is between 1 and 5 |
| `OutputGenerator.MaxPerDocValues` | output_generator.py:31-32 | By floor division: 5 for at most one document, 2 for two, 1 from three on |
| `OutputGenerator.SelectFirst` | output_generator.py:34-60 | The first loop ends in the state of `FirstPass`, and its list holds the ranked entries at the picked positions |
| `OutputGenerator.ConsiderFirst` | output_generator.py:34-56 | One iteration: skip a seen key, a full quota or a short title, else pick (one `FirstStep`) |
| `OutputGenerator.SelectSecond` | output_generator.py:63-82 | The second loop picks exactly what `SecondPass` picks |
| `OutputGenerator.SelectSections` | output_generator.py:26-82 | Both loops together select exactly `Selected` |
| `OutputGenerator.FirstPassStops` | output_generator.py:59-60 | After the fifth pick the first pass changes nothing (the break) |
| `OutputGenerator.SecondPassStops` | output_generator.py:67-68 | Once no slot remains the second pass changes nothing |
| `OutputGenerator.FirstPassOrdered` | output_generator.py:34-60 | First-pass picks are at strictly increasing positions |
| `OutputGenerator.FirstPassSound` | output_generator.py:40-56 | First pass: at most five picks, each with an acceptable title, distinct keys, seen = their keys |
| `OutputGenerator.FirstPassQuota` | output_generator.py:47-55 | First pass: each document's count is its number of picks and never exceeds the quota |
| `OutputGenerator.PickKeepsQuota` | output_generator.py:47-55 | Picking an entry under quota keeps every document within the quota |
| `OutputGenerator.SecondPassOrdered` | output_generator.py:63-82 | The second pass appends strictly increasing positions to the first pass's picks |
| `OutputGenerator.SecondPassSound` | output_generator.py:73-82 | The second pass keeps at most five picks, acceptable titles and distinct keys |
| `OutputGenerator.PicksProperties` | output_generator.py:26-82 | At most five picks with distinct keys and acceptable titles. First-pass picks come first, in input order, within the quota. Second-pass picks follow in input order. Without relaxation, the selection is the first pass |
| `OutputGenerator.SelectionProperties` | output_generator.py:26-82 | At most five selected entries, titles of 3+ characters once stripped, no two sharing `(document, lowered title, page)` |
| `OutputGenerator.SelectedFromRanked` | output_generator.py:26-82 | Every selected entry is a ranked entry |
| `OutputGenerator.SelectionOfNothing` | output_generator.py:19-24 | An empty ranked list selects nothing |
| `OutputGenerator.TruncateShape` | output_generator.py:107-109 | At most 100 words. A text of at most 100 words is unchanged. A longer one keeps its first 99 words, and its hundredth word gets "..." |
| `OutputGenerator.FallbackWords` | output_generator.py:103-104 | The fallback is "Section", "covering:" and the title's words |
| `OutputGenerator.RefinedTextShape` | output_generator.py:94-109 | The refined text has 2 to 100 words. A source of 5 to 100 words is used unchanged. A shorter source becomes the fallback phrase |
| `OutputGenerator.ExtractAll` | output_generator.py:85-91 | The "extracted_sections" loop builds exactly `ExtractedOf` |
| `OutputGenerator.AnalyseAll` | output_generator.py:94-115 | The "subsection_analysis" loop builds exactly `AnalysisOf` |
| `OutputGenerator.GenerateCombinedOutput` | output_generator.py:5-115 | The metadata is the given documents, persona and job, and the two arrays are those of the selection (empty for an empty ranking) |
| `OutputGenerator.OutputShape` | output_generator.py:5-115 | Equal-length arrays of at most five entries. Ranks run 1..n without gaps. Documents and pages match pairwise. Every refined text has 2 to 100 words. An empty ranking gives empty arrays |
| `Pipeline.ValidateSectionExact` | main.py:8-36 | Valid exactly when the stripped heading has 2+ words, the stripped context 10+ words, and the lowered heading is not on the skip list |
| `Pipeline.SkipListIsExact` | main.py:26-34 | Among sections long enough, "table of contents" is rejected but "appendix tables" passes: the match is exact, not a substring |
| `Pipeline.Tag` | main.py:59-61 | Tagging sets "document" to the file name and fills a missing "text", changing nothing else, the heading included |
| `Pipeline.TagKeepsVerdict` | main.py:56-62 | Tagging does not change the validator's verdict |
| `Pipeline.PositionsExact` | main.py:56-57 | The kept positions are increasing and are exactly the positions whose section the validator accepts |
| `Pipeline.ValidatedShape` | main.py:55-62 | Every kept section names its file, has a "text" field and passes the validator |
| `Pipeline.TagValidSections` | main.py:55-62 | The tagging loop returns exactly the validator-accepted sections, tagged, in order |
| `Pipeline.CollectedFromListed` | main.py:46-70 | Every listed document ends in ".pdf". Every collected section names a listed document and passes the validator |
| `Pipeline.CollectSections` | main.py:46-70 | The directory loop builds exactly `AllSections` and `Documents`; non-PDF names and files whose parsing raised are skipped |
| `Pipeline.EnhancedQuery` | main.py:82 | The query is "Persona: ", the persona, ". Task: ", the job; both can be read back at fixed offsets |
| `Pipeline.Fallback` | main.py:98-100 | Every collected section in order, each with score 0.5 |
| `Pipeline.FallbackIsRanked` | main.py:100 | The fallback ranking is non-increasing |
| `Pipeline.RankedFromSections` | main.py:84-100 | Whether scoring raises or not, every ranked entry is one of the collected sections |
| `Pipeline.RankedFromListed` | main.py:84-100 | Every ranked entry carries the name of a listed document |
| `Pipeline.RunPipeline` | main.py:38-103 | The output's metadata lists the processed PDFs, persona and job, and its arrays are those of the selection from the ranking (empty when no section was collected) |
| `Pipeline.PipelineOutputShape` | main.py:38-103 | At most five extracted sections, ranked 1..n, each from a listed PDF, paired with an analysis entry of the same document and page |

## Left out

- PDF reading is not modelled. `fitz.open`, `get_text("dict")` and `doc.close` are replaced by an input sequence of raw lines, each with its page and spans (text, size, flag bits). `BuildLine` keeps a line's spans with text; the line's bounding box is not modelled.
- The sentence tokeniser, the TF-IDF weighting and `argsort` are not modelled; summarisation takes the sentence list and importance vector as inputs. `np.argsort` (quicksort) leaves the order of equal importances unspecified. `RankDesc` fixes one order, so which of several tied sentences `SelectIndices` keeps may differ from numpy's. `Summarizer.TopOfAnyRanking` proves the top-k and reading-order properties for every ranking by non-increasing importance; the other `SelectIndices` and `Summarize` properties are proved only for `RankDesc`'s order.
- Inside the parser, the summariser is a function parameter `summarize`.
- `SentenceTransformer`, `TfidfVectorizer` and cosine similarity are not modelled. Their score vectors are inputs, as `Option<seq<real>>`: `None` when the vectorizer raises, or when no model is loaded or encoding raises. The regular-expression matches of `extract_keywords` are not computed: they are a `matcher` function parameter, and only the cap at ten is modelled.
- Floating point is modelled as exact `real` arithmetic, so the weighted sum has no rounding.
- Regular expressions, `str.lower`, `isupper`, `isdigit` and whitespace are ASCII only. Whitespace is the blank, tab, line feed, carriage return, vertical tab, form feed and the separators 0x1C to 0x1F. Non-ASCII whitespace such as U+00A0 or U+2028 is not treated as whitespace. The nine bullet glyphs and "©" are the only non-ASCII characters handled.
- The directory listing is an input sequence of entries, in the order `os.listdir` returns them. A file whose extraction raised has `extracted == None`. Whether `score_sections`/`filter_duplicates` raise is the parameter `scoringRaises`.
- JSON writing, `os.makedirs`, the UTC timestamp and all printing are not modelled. The command-line and environment handling are not modelled either.
- Section records are immutable values. `main` updates the extracted dictionaries in place (`section["document"] = filename`), and `Tag` returns an updated copy instead, so aliasing between the parser's list and `all_sections` is not captured.
- `Pipeline.TagValidSections`: the method takes the validator as a parameter, and `main` passes `ValidateSection`. `Pipeline.Validated` ties the two together for the properties.
- `Pipeline.SkipListIsExact`: the exact-match behaviour of the skip list is shown on two concrete headings rather than for every heading that contains a skip word.
- `PdfParser.IsBulletPoint`: the contract states that glyphs and markers each make a bullet, and the shape of a bullet's first character. That a bullet always matches one of the three patterns is stated only through that shape.
- `PdfParser.KeepSubstantial`: the contract states membership in both directions; that the filter keeps the input order is only in its definition.
- `Relevance.ScoreSections`: the scores are compared as computed. How the weighted sum rounds in floating point is not modelled.
- `OutputGenerator.RefinedTextShape`: the fallback case is stated for titles of at most 98 words. For a longer title, the truncation rule covers the result.
- The first pass's quota is computed by floor division (`max_per_doc`), so two documents get a quota of 2 and not 3. The model follows the code.
- Body-font selection breaks ties by the first key in dictionary insertion order, as `max` does. `PdfParser.TallyPermutation` shows that the keys and counts do not depend on the order of the spans. `PdfParser.BodyFontOrderFree` shows the body font does not either when one key has strictly the most words. With a tie, the chosen font can depend on the order of the lines; the model follows the code.
