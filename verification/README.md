# CV keyword matcher: a Dafny model

This project models the matching core of a CV analyser. Recruiters type comma-separated
keywords. Every CV text is searched for them, first exactly with Knuth-Morris-Pratt and
then, for keywords with no exact hit, approximately over word n-grams by edit-distance
similarity. The CVs are ranked by their number of matches. Before a CV is searched,
its text is cleaned by one of two extractors: a whitespace-collapsing one, and a
regex-based one that also groups the education and experience sections.

The model has seven modules, one per concern:

- `Text`: the Python string operations the code relies on, over ASCII. It covers
  `isspace` and `\s` (space, `\t`-`\r` and the separators `\x1c`-`\x1f`), `isupper`, `\w`, `lower`, `upper`, `strip`, `split()`,
  `split(sep)` and `sep.join`.
- `Kmp` (`src/algorithm/kmp.py`): the class `KMP_ATS`. Its prefix table is an array
  filled by the source's loop and proved to hold the longest proper borders. Its
  search loop is proved to count every occurrence, overlapping ones included. The
  per-keyword exact-then-fuzzy search updates the object's fields.
- `Fuzzy` (`src/algorithm/fuzzy.py`):
  - the n-grams, and the bottom-up edit-distance table, proved equal to the recursive
    Levenshtein distance;
  - the similarity ratio;
  - the threshold search, whose result is sorted with Python's tuple order in
    reverse. The sort is a permutation, and it is the only descending arrangement of
    the matches.
- `AtsProcessor` (`src/ats_processor.py`): the class `ATSProcessor`. It covers keyword
  parsing, CV normalisation, the choice of exact matcher, and the two result
  dictionaries. Each dictionary is an insertion-ordered association list.
- `Ranking` (`src/ui/GUI.py`): the search callback. It parses the "top matches"
  field, collects the CVs with matches, ranks them with a stable sort by count
  (highest first) and keeps the first `top_n`. It then fills the grid and sizes it.
- `PdfMatch` (`src/utils/extract_pdf_match.py`): `_clean_text`, proved equal to
  joining the whitespace-separated words with single spaces.
- `PdfRegex` (`src/utils/extract_pdf_regex.py`):
  - `_clean_text`, which removes blank lines;
  - `group_education`;
  - `group_experience`, with its line classifiers `is_title_case_line`,
    `is_sentence` and `is_invalid_title`.

Where the code as written differs from what it evidently means, the model follows
the code. One such place is `set_algorithm("Aho-Corasick")`, which stores
`"AHO-CORASICK"`, so the Aho-Corasick branch of `search_keywords` is never taken
after it; `AtsProcessor.Processor.SetAlgorithm` states this. The one place where
the code cannot run at all is listed under Findings. The search at the level of
the processor and the GUI uses the corrected behaviour.

## Model

| member | source | states |
|---|---|---|
| Text.Lower | src/algorithm/kmp.py:75 | `lower()` keeps the length and lowercases every character, leaving non-letters alone |
| Text.LowerIsLowerCase | src/ats_processor.py:29 | a lowered string is lower case, and lowering a lower-case string changes nothing |
| Text.Upper | src/ats_processor.py:22 | `upper()` keeps the length and maps every character to a non-lowercase one |
| Text.Strip | src/ats_processor.py:29 | `strip()` leaves no whitespace at either end and never lengthens the string |
| Text.TrimStart | src/ats_processor.py:29 | only whitespace is removed from the front, and the result starts with a non-space |
| Text.TrimEnd | src/ats_processor.py:29 | the result is a prefix, only whitespace is cut, and it ends with a non-space |
| Text.StripKeepsNonSpace | src/ats_processor.py:37 | stripping keeps every non-whitespace character in order |
| Text.StripOfStripped | src/ats_processor.py:29 | stripping a stripped string changes nothing |
| Text.LowerKeepsStripped | src/ats_processor.py:29 | lowering a stripped string keeps it stripped |
| Text.WordsAreWords | src/algorithm/fuzzy.py:12 | every piece of `split()` is a non-empty run without whitespace |
| Text.WordsOfJoin | src/algorithm/fuzzy.py:13 | splitting the space-joined words gives the words back |
| Text.SplitOn | src/ats_processor.py:37 | `split(',')` gives at least one piece, and no piece holds the separator |
| Text.JoinOfSplitOn | src/ats_processor.py:37 | joining the pieces of `split(sep)` with `sep` gives the string back |
| Text.SplitOnAround | src/ats_processor.py:37 | splitting around one separator is splitting each side |
| Text.Repeat | src/ats_processor.py:125 | `[keyword] * count` has `count` copies of the keyword |
| Kmp.BorderAtMost | src/algorithm/kmp.py:11-33 | the longest border no longer than `k`: it is a border and no longer one up to `k` is |
| Kmp.LongestBorder | src/algorithm/kmp.py:11-33 | the longest proper border, with no longer border |
| Kmp.ExtendBorder | src/algorithm/kmp.py:22-25 | a border grows by one exactly when the next characters agree |
| Kmp.BorderOfBorder | src/algorithm/kmp.py:28 | a border of a border is a border |
| Kmp.ShorterBorder | src/algorithm/kmp.py:28 | a shorter border is a border of the longer one |
| Kmp.NoLongerBorder | src/algorithm/kmp.py:21-31 | a border can grow by at most one character per step |
| Kmp.LongestBorderUnique | src/algorithm/kmp.py:11-33 | a border with none longer is the longest border |
| Kmp.LpsExtend | src/algorithm/kmp.py:22-25 | on a match the table entry is `length + 1` and the loop invariant holds at `i + 1` |
| Kmp.LpsZero | src/algorithm/kmp.py:29-31 | on a mismatch at length 0 the entry is 0 |
| Kmp.LpsFallback | src/algorithm/kmp.py:27-28 | falling back to `lps[length - 1]` skips no candidate border |
| Kmp.ComputeLps | src/algorithm/kmp.py:11-33 | `compute_lps` fills `lps[q]` with the longest proper border of `pattern[..q+1]` |
| Kmp.OccurrencesBeforeCountsPositions | src/algorithm/kmp.py:35-69 | the running count is the number of match positions so far |
| Kmp.PositionsStep | src/algorithm/kmp.py:58-60 | one more text position adds one match exactly when an occurrence ends there |
| Kmp.CountIsNumberOfPositions | src/algorithm/kmp.py:35-69 | the count is the number of positions where the pattern occurs (0 for an empty pattern) |
| Kmp.PartialStep | src/algorithm/kmp.py:54-56 | a partial match grows by one exactly when the next characters agree |
| Kmp.ShorterPartialIsBorder | src/algorithm/kmp.py:61-65 | the shorter partial matches are the borders of the current one |
| Kmp.Advance | src/algorithm/kmp.py:54-56 | advancing both indices keeps the scan invariant |
| Kmp.NoAdvance | src/algorithm/kmp.py:53-57 | not advancing keeps the scan invariant |
| Kmp.OccurrenceStep | src/algorithm/kmp.py:58-60 | the occurrences up to `i + 1` add one when a full match ends there |
| Kmp.AfterMatch | src/algorithm/kmp.py:58-61 | after a full match the count goes up and `j` falls back to the pattern's longest border |
| Kmp.Fallback | src/algorithm/kmp.py:62-65 | on a mismatch `j = lps[j - 1]` loses no occurrence |
| Kmp.Skip | src/algorithm/kmp.py:66-67 | on a mismatch at `j == 0` the text index moves on |
| Kmp.Keep | src/algorithm/kmp.py:53-67 | when neither branch applies the invariant holds |
| Kmp.KmpSearch | src/algorithm/kmp.py:35-69 | `kmp_search` returns the number of (possibly overlapping) occurrences, 0 for an empty pattern |
| Kmp.FuzzyResultOf | src/algorithm/kmp.py:103-108 | the fuzzy result's count is the number of its matches, at most the number of phrases of the keyword's word count; the matches are best first, and each is such a phrase with its similarity to the keyword, at or above the threshold |
| Kmp.LowerAllIsLowerCase | src/algorithm/kmp.py:81 | the keywords are lowered one by one and are all lower case |
| Kmp.ExactStep | src/algorithm/kmp.py:92-97 | each keyword stores its count and adds it to the exact total |
| Kmp.FuzzyStep | src/algorithm/kmp.py:99-109 | the fuzzy table and total change only for a keyword without an exact hit |
| Kmp.SearchedTables | src/algorithm/kmp.py:89-109 | after `i` keywords the loop state is the tables and totals of the first `i` keywords |
| Kmp.SearchedAll | src/algorithm/kmp.py:89-116 | after the loop the state is the tables and totals of all the keywords |
| Kmp.SearchRound | src/algorithm/kmp.py:89-109 | one loop pass is one step of the loop specification |
| Kmp.TotalsAdd | src/algorithm/kmp.py:97 | both totals add up over concatenated keyword lists |
| Kmp.FuzzyTotalOnlyWithoutExact | src/algorithm/kmp.py:99-100 | when every keyword has an exact hit, there is no fuzzy entry and no fuzzy total, and the exact total is at least the number of keywords |
| Kmp.KmpAts.constructor | src/algorithm/kmp.py:4-9 | the object starts empty with threshold 0.65 |
| Kmp.KmpAts.ProcessCv | src/algorithm/kmp.py:71-75 | stores the lowered CV and changes nothing else |
| Kmp.KmpAts.SearchKeywords | src/algorithm/kmp.py:77-116 | stores the lowered keywords, the exact table, and the fuzzy table of the keywords without a hit; returns both totals and both tables |
| Fuzzy.WindowsOfWords | src/algorithm/fuzzy.py:13 | there are `len(words) - n + 1` windows (none if negative), and window `i` splits back into `words[i..i+n]` |
| Fuzzy.NgramWords | src/algorithm/fuzzy.py:7-19 | `get_ngrams` gives the windows of `n` consecutive lowered words |
| Fuzzy.LevenshteinDropB | src/algorithm/fuzzy.py:40-62 | dropping one character of the second word moves the distance by at most one |
| Fuzzy.LevenshteinDropA | src/algorithm/fuzzy.py:40-62 | dropping one character of the first word moves the distance by at most one |
| Fuzzy.SuffixDistanceIsLevenshtein | src/algorithm/fuzzy.py:54-61 | the table's recurrence (equal characters copy the diagonal) is the Levenshtein distance of the suffixes |
| Fuzzy.SuffixDistanceBounds | src/algorithm/fuzzy.py:47-61 | the distance is at least the length difference and at most the longer length |
| Fuzzy.SuffixDistanceZero | src/algorithm/fuzzy.py:54-61 | the distance is 0 exactly for equal suffixes |
| Fuzzy.SuffixDistanceSymmetric | src/algorithm/fuzzy.py:54-61 | the distance is symmetric |
| Fuzzy.EditDistanceProperties | src/algorithm/fuzzy.py:40-62 | the edit distance is a metric-like measure: its value against the empty word, zero iff equal, symmetric, and bounded by the lengths |
| Fuzzy.FillRow | src/algorithm/fuzzy.py:53-61 | the inner loop fills row `i` with the suffix distances and touches no other row |
| Fuzzy.LevenshteinDistance | src/algorithm/fuzzy.py:40-62 | `levenshtein_distance` returns the edit distance of the two words |
| Fuzzy.Similarity | src/algorithm/fuzzy.py:22-37 | the similarity lies in [0, 1] and is 1 exactly for equal words |
| Fuzzy.RatioInUnit | src/algorithm/fuzzy.py:36 | `distance / max_len` lies in [0, 1] and is 0 only for distance 0 |
| Fuzzy.CalculateSimilarity | src/algorithm/fuzzy.py:22-37 | `calculate_similarity` returns the similarity, a value in [0, 1] |
| Fuzzy.StrLessIrreflexive | src/algorithm/fuzzy.py:84 | Python's string order is irreflexive |
| Fuzzy.StrLessTransitive | src/algorithm/fuzzy.py:84 | Python's string order is transitive |
| Fuzzy.StrLessTotal | src/algorithm/fuzzy.py:84 | Python's string order is total and antisymmetric |
| Fuzzy.AtLeastTotalOrder | src/algorithm/fuzzy.py:84 | the reversed tuple order on (similarity, phrase) is a total order |
| Fuzzy.InsertDescending | src/algorithm/fuzzy.py:84 | inserting one match keeps the list descending and adds exactly that match |
| Fuzzy.SortDescending | src/algorithm/fuzzy.py:84 | `sort(reverse=True)` gives a descending permutation |
| Fuzzy.DescendingPermutationUnique | src/algorithm/fuzzy.py:84 | two descending lists with the same elements are equal, so the sorted result is unique |
| Fuzzy.DescendingHeadsEqual | src/algorithm/fuzzy.py:84 | two descending permutations start with the same match |
| Fuzzy.ScoredExactly | src/algorithm/fuzzy.py:76-82 | a kept pair is a phrase with its own similarity at or above the threshold, each phrase is kept as often as it occurs when it qualifies, and never more pairs than phrases |
| Fuzzy.ScoredStep | src/algorithm/fuzzy.py:76-82 | each phrase adds its pair exactly when its similarity reaches the threshold |
| Fuzzy.FuzzyMatchesSound | src/algorithm/fuzzy.py:64-86 | the matches are descending, at most one per n-gram, and each is an n-gram of the keyword's word count scoring at or above the threshold |
| Fuzzy.FuzzySearch | src/algorithm/fuzzy.py:64-86 | `fuzzy_search` returns the sorted qualifying pairs and their number |
| AtsProcessor.StrItems | src/ats_processor.py:37 | the split pieces are the list of Python strings, in order |
| AtsProcessor.ParseItemsAppend | src/ats_processor.py:37-39 | the comprehension distributes over concatenation |
| AtsProcessor.StrItemsAppend | src/ats_processor.py:37 | the pieces distribute over concatenation |
| AtsProcessor.StripChars | src/ats_processor.py:37 | every character of a stripped keyword comes from the raw keyword |
| AtsProcessor.NormaliseKeepsOut | src/ats_processor.py:37 | `strip().lower()` adds no character that is not a lowercase letter |
| AtsProcessor.ParseItemsClean | src/ats_processor.py:39 | every parsed list item is non-empty, stripped and lower case, and holds no character absent from all the items |
| AtsProcessor.ParsedKeywordsClean | src/ats_processor.py:31-41 | every parsed keyword is non-empty, stripped and lower case, and a parsed string yields no comma |
| AtsProcessor.ParseAroundComma | src/ats_processor.py:37 | parsing around a comma is parsing each side |
| AtsProcessor.NormaliseCv | src/ats_processor.py:27-29 | the loaded CV is stripped and lower case (empty for `None` or "") |
| AtsProcessor.NormaliseCvIdempotent | src/ats_processor.py:27-29 | loading a loaded CV changes nothing |
| AtsProcessor.GetInKeys | src/ats_processor.py:84 | `get` finds a value exactly for the keys of the dictionary |
| AtsProcessor.PutSpec | src/ats_processor.py:123-126 | assignment sets the key, keeps the other keys, keeps keys distinct, and appends a new key at the end |
| AtsProcessor.PutSame | src/ats_processor.py:123-126 | assigning a key its current value changes nothing |
| AtsProcessor.PutPositive | src/ats_processor.py:122-126 | assigning a positive entry keeps every count positive |
| AtsProcessor.HoldsStep | src/ats_processor.py:122-140 | storing a selected keyword under its value keeps the dictionary holding exactly the selected keywords, once each |
| AtsProcessor.ExactPhaseHolds | src/ats_processor.py:113-126 | after each keyword the exact dictionary holds exactly the keywords so far with a positive count, with positive counts |
| AtsProcessor.FuzzyPhaseHolds | src/ats_processor.py:133-140 | after each keyword the fuzzy dictionary holds exactly the keywords so far without an exact hit and with fuzzy matches |
| AtsProcessor.ExactPhaseContents | src/ats_processor.py:113-126 | the exact dictionary holds exactly the keywords with a positive count, each with its count and that many copies of itself |
| AtsProcessor.FuzzyPhaseContents | src/ats_processor.py:133-140 | the fuzzy dictionary holds exactly the keywords without an exact hit whose fuzzy count is positive, each with its fuzzy result |
| AtsProcessor.SearchResultsSound | src/ats_processor.py:70-147 | the two dictionaries have distinct keys and positive counts, never share a key, and hold exactly the keywords found exactly, and those found only approximately |
| AtsProcessor.DuplicateCountedOnce | src/ats_processor.py:113-140 | a repeated keyword leaves both dictionaries unchanged |
| AtsProcessor.UpperAhoCountsWithKmp | src/ats_processor.py:19-22 | after `set_algorithm("Aho-Corasick")` the exact pass counts with KMP, since the stored name is neither "Aho-Corasick" nor "BM" |
| AtsProcessor.NoKeywordsNoTotals | src/ats_processor.py:78-79 | without keywords the totals are (0, 0) |
| AtsProcessor.SearchAsWritten | src/ats_processor.py:113-121 | as written, the KMP path raises; any totals it does return are the intended ones |
| AtsProcessor.KmpPathRaises | src/ats_processor.py:119-121 | with the default algorithm, keyword "a" in CV "a" raises where (1, 0) is meant |
| AtsProcessor.ExactRound | src/ats_processor.py:113-126 | one exact pass records the keyword's KMP or BM count when it is positive |
| AtsProcessor.FuzzyRound | src/ats_processor.py:133-140 | one fuzzy pass records the keyword's fuzzy result when it was not found exactly and has matches |
| AtsProcessor.RunSearch | src/ats_processor.py:76-140 | the loops build the exact and fuzzy dictionaries of the chosen algorithm |
| AtsProcessor.Processor.constructor | src/ats_processor.py:7-15 | a processor starts with no CV, no keywords and empty results |
| AtsProcessor.Processor.SetAlgorithm | src/ats_processor.py:19-25 | a known name is stored upper-cased, anything else gives "KMP", so "Aho-Corasick" is never stored |
| AtsProcessor.Processor.LoadCv | src/ats_processor.py:27-29 | stores the normalised CV and changes nothing else |
| AtsProcessor.Processor.SearchKeywords | src/ats_processor.py:70-147 | stores the parsed keywords and both dictionaries, and returns their totals |
| Ranking.DigitChar | src/ui/GUI.py:227 | each digit character stands for its value |
| Ranking.ShowNatDigits | src/ui/GUI.py:227 | `str()` of a natural number is digits worth that number |
| Ranking.ShowIntShape | src/ui/GUI.py:227 | `str()` of an integer is a minus sign for negatives, then digits |
| Ranking.ParseShowInt | src/ui/GUI.py:181 | `int(str(n)) == n` |
| Ranking.ParseIntNeedsDigit | src/ui/GUI.py:181-185 | `int()` succeeds only on text holding a digit |
| Ranking.CollectedStep | src/ui/GUI.py:199-220 | each CV adds its result exactly when its match count is positive |
| Ranking.CollectedAppend | src/ui/GUI.py:199-220 | collecting distributes over concatenated datasets |
| Ranking.CollectedPositive | src/ui/GUI.py:199-220 | each collected result has a positive count and is the name and count of a CV of the dataset |
| Ranking.InsertMembers | src/ui/GUI.py:223 | inserting one result adds exactly it |
| Ranking.InsertNonIncreasing | src/ui/GUI.py:223 | inserting keeps the counts non-increasing |
| Ranking.InsertWithCount | src/ui/GUI.py:223 | an inserted result goes after every earlier result of equal count |
| Ranking.SortByCountSpec | src/ui/GUI.py:223 | `sorted(key=count, reverse=True)` is non-increasing, a permutation, and stable |
| Ranking.SortNonIncreasing | src/ui/GUI.py:223 | the sorted counts never increase |
| Ranking.SortPermutes | src/ui/GUI.py:223 | sorting is a permutation |
| Ranking.SortStable | src/ui/GUI.py:223 | results of equal count keep their order |
| Ranking.StableOrderUnique | src/ui/GUI.py:223 | two non-increasing lists with the same results, in the same order within each count, are equal |
| Ranking.SortByCountUnique | src/ui/GUI.py:223 | the stable descending sort is the only non-increasing order that keeps equal counts in order |
| Ranking.TopLength | src/ui/GUI.py:224 | `s[:n]` is a prefix of length `min(n, len)`, and a negative `n` drops `-n` from the end |
| Ranking.TopIsBest | src/ui/GUI.py:224 | the kept results are non-increasing and none beats a kept one |
| Ranking.TopSound | src/ui/GUI.py:223-224 | the kept results come from the collected ones, and every dropped result scores no more than every kept one |
| Ranking.RankedSound | src/ui/GUI.py:193-224 | the shown CVs are matched CVs, best first, and no dropped CV beats a shown one |
| Ranking.RowsNeeded | src/ui/GUI.py:243 | the rows are the ceiling of controls over columns: enough for every control, and no empty row |
| Ranking.Cards | src/ui/GUI.py:234-240 | one card per shown result, with its name and count, in order |
| Ranking.CardsOf | src/ui/GUI.py:234-240 | the card loop builds one card per shown result |
| Ranking.GridNeverEmpty | src/ui/GUI.py:228-244 | the grid always holds a control and at least one row |
| Ranking.SearchPage.constructor | src/ui/GUI.py:22-95 | the page holds the dataset and a processor with threshold 0.65 and algorithm "KMP", selects "KMP", and shows the prompt |
| Ranking.SearchPage.OnAlgoChange | src/ui/GUI.py:139-144 | the pressed label is remembered and handed to `set_algorithm`, which never leaves "Aho-Corasick" in the processor; the processor's CV, keywords, both result dictionaries and threshold and the results grid are untouched |
| Ranking.SearchPage.SearchCv | src/ui/GUI.py:200-202 | loading and searching one CV gives its total match count and leaves the processor holding that CV's normalised text, the parsed keywords and that search's two dictionaries, with algorithm and threshold unchanged |
| Ranking.SearchPage.CollectResults | src/ui/GUI.py:193-220 | the loop collects the CVs with matches, in dataset order; afterwards the processor holds the last CV and its search, or is untouched when the dataset is empty |
| Ranking.SearchPage.SearchClicked | src/ui/GUI.py:172-245 | a non-number leaves the search untouched with its message; no keywords gives the prompt; otherwise the status counts the ranked CVs, the grid shows their cards or the no-match notice, and the height is the rows times 380, and the processor holds the last CV and its search (untouched for an empty dataset); the selected algorithm never changes |
| PdfMatch.SpaceIf | src/utils/extract_pdf_match.py:114 | the collapsed trailing run is at most one space |
| PdfMatch.SkipSpaces | src/utils/extract_pdf_match.py:117 | skipping the leading whitespace run is stripping the front |
| PdfMatch.StripAround | src/utils/extract_pdf_match.py:117 | stripping whitespace around a stripped string gives it back |
| PdfMatch.CollapseAfterWord | src/utils/extract_pdf_match.py:114 | text without whitespace is copied by the substitution |
| PdfMatch.WordStart | src/utils/extract_pdf_match.py:114 | a text starting with a word collapses to that word then the rest |
| PdfMatch.RunAfterWord | src/utils/extract_pdf_match.py:114 | a whitespace run becomes one space and holds no word |
| PdfMatch.CollapseFromWord | src/utils/extract_pdf_match.py:114 | collapsing is the words joined by spaces, plus one space if the text ends in whitespace |
| PdfMatch.JoinedWordsStripped | src/utils/extract_pdf_match.py:114-117 | words joined by single spaces are stripped and have only single spaces |
| PdfMatch.SkipLeadingRun | src/utils/extract_pdf_match.py:114 | a leading whitespace run collapses to one space |
| PdfMatch.CleanTextIsJoinedWords | src/utils/extract_pdf_match.py:99-119 | `_clean_text(t)` is `' '.join(t.split())` |
| PdfMatch.CollapseKeepsNonSpace | src/utils/extract_pdf_match.py:114 | collapsing keeps every non-whitespace character in order |
| PdfMatch.CleanTextSpec | src/utils/extract_pdf_match.py:99-119 | empty or `None` gives ""; the result is stripped, has only single spaces, and keeps every other character in order |
| PdfMatch.CleanTextKeepsWords | src/utils/extract_pdf_match.py:99-119 | cleaning keeps the words |
| PdfMatch.CleanTextIdempotent | src/utils/extract_pdf_match.py:99-119 | cleaning twice is cleaning once |
| PdfRegex.LastBreak | src/utils/extract_pdf_regex.py:38 | the last line break of the leading whitespace run, if any |
| PdfRegex.BlankEnd | src/utils/extract_pdf_regex.py:38 | the `\n\s*\n` match at a line break: it exists exactly when the run holds a second line break, is whitespace, ends at a line break, and leaves no line break in the following run |
| PdfRegex.SplitBlank | src/utils/extract_pdf_regex.py:279 | `re.split` gives at least one part |
| PdfRegex.JoinSplitBlank | src/utils/extract_pdf_regex.py:279 | joining the parts of `re.split` with a line break is the `re.sub` of the same pattern |
| PdfRegex.ConsLead | src/utils/extract_pdf_regex.py:38 | a character that is no line break keeps the leading run free of line breaks |
| PdfRegex.ConsNoBlank | src/utils/extract_pdf_regex.py:38 | prepending a character keeps the text without blank lines |
| PdfRegex.BlankRunsKeepsLead | src/utils/extract_pdf_regex.py:38 | the substitution keeps a leading run free of line breaks |
| PdfRegex.BlankRunsNoBlank | src/utils/extract_pdf_regex.py:38 | after the substitution no blank line is left |
| PdfRegex.NoBlankOfSlice | src/utils/extract_pdf_regex.py:40 | a slice of a text without blank lines has none |
| PdfRegex.StripIsSlice | src/utils/extract_pdf_regex.py:40 | stripping gives a slice |
| PdfRegex.StripNoBlank | src/utils/extract_pdf_regex.py:40 | stripping keeps a text without blank lines |
| PdfRegex.BlankRunsKeepsNonSpace | src/utils/extract_pdf_regex.py:38 | the substitution keeps every non-whitespace character in order |
| PdfRegex.BlankRunsOfNoBlank | src/utils/extract_pdf_regex.py:38 | a text without blank lines is unchanged by the substitution |
| PdfRegex.CleanBlankLinesSpec | src/utils/extract_pdf_regex.py:24-41 | empty or `None` gives ""; the result is stripped with no blank line, and keeps every non-whitespace character in order |
| PdfRegex.CleanBlankLinesIdempotent | src/utils/extract_pdf_regex.py:24-41 | on text without blank lines it only strips, and cleaning twice is cleaning once |
| PdfRegex.GroupEducation | src/utils/extract_pdf_regex.py:266-287 | the loop gives one entry per non-blank paragraph |
| PdfRegex.FlattenAppend | src/utils/extract_pdf_regex.py:281-285 | each paragraph appends its entry, if any |
| PdfRegex.CollapseJoinLines | src/utils/extract_pdf_regex.py:283-284 | the second substitution makes the first one redundant |
| PdfRegex.EntryFlat | src/utils/extract_pdf_regex.py:282-285 | a paragraph's entry is one non-empty line, stripped, with single spaces |
| PdfRegex.FlattenFlat | src/utils/extract_pdf_regex.py:281-285 | every entry is such a line |
| PdfRegex.NonSpaceOfJoin | src/utils/extract_pdf_regex.py:279 | joining with whitespace adds no other character |
| PdfRegex.EntryKeepsNonSpace | src/utils/extract_pdf_regex.py:282-285 | an entry keeps its paragraph's non-whitespace characters |
| PdfRegex.FlattenKeepsNonSpace | src/utils/extract_pdf_regex.py:281-285 | the entries keep all the paragraphs' non-whitespace characters in order |
| PdfRegex.EducationEntriesSpec | src/utils/extract_pdf_regex.py:266-287 | empty text gives no entry; each entry is a flat line; together they keep every non-whitespace character in order |
| PdfRegex.NonBlank | src/utils/extract_pdf_regex.py:182-183 | the kept lines are non-empty and stripped |
| PdfRegex.NonBlankLines | src/utils/extract_pdf_regex.py:182-183 | the lines of the text are non-empty and stripped |
| PdfRegex.WordAndSpace | src/utils/extract_pdf_regex.py:198 | removing `[^\w\s]` leaves word characters and whitespace only |
| PdfRegex.CapitalisedCount | src/utils/extract_pdf_regex.py:203 | no more capitalised words than words |
| PdfRegex.TimePlaceEnd | src/utils/extract_pdf_regex.py:228-242 | the time-and-place lines stop at the first sentence or the end |
| PdfRegex.PointFrom | src/utils/extract_pdf_regex.py:248-253 | the point loop ends within the lines |
| PdfRegex.Step | src/utils/extract_pdf_regex.py:211-257 | each pass of the outer loop moves forward |
| PdfRegex.GroupExperience | src/utils/extract_pdf_regex.py:169-263 | the parser returns the experiences of its specification |
| PdfRegex.ParseLine | src/utils/extract_pdf_regex.py:212-257 | one pass: a title starts a new experience and saves the previous one if it has points; a sentence adds a point |
| PdfRegex.TimePlaceLines | src/utils/extract_pdf_regex.py:228-243 | the time-and-place lines are all lines up to the next sentence |
| PdfRegex.ExtendPoint | src/utils/extract_pdf_regex.py:248-253 | lines are appended to the point until it ends with '.' |
| PdfRegex.PointFromSpec | src/utils/extract_pdf_regex.py:248-255 | a point is its first line and the next lines concatenated, up to the first that ends it with '.', or to the last line |
| PdfRegex.StepKeepsGood | src/utils/extract_pdf_regex.py:211-257 | each pass keeps every experience titled by a title line and its points capitalised |
| PdfRegex.RunKeepsGood | src/utils/extract_pdf_regex.py:210-257 | the whole loop keeps that invariant |
| PdfRegex.ClassifyPoints | src/utils/extract_pdf_regex.py:206-208 | a line classed as a point starts with a capital |
| PdfRegex.ParseLinesGood | src/utils/extract_pdf_regex.py:210-263 | every returned experience is titled by a title line and has points |
| PdfRegex.TitledByClassify | src/utils/extract_pdf_regex.py:215 | a title is a title-case line and not a sentence |
| PdfRegex.GroupedExperiencesSpec | src/utils/extract_pdf_regex.py:169-263 | empty text gives nothing; each experience has a point, a title that is a title-case non-sentence line of the text, and points starting with a capital |
| PdfRegex.WordAndSpaceKeeps | src/utils/extract_pdf_regex.py:198 | text of word characters and whitespace is unchanged by the removal |
| PdfRegex.CapitalisedWordIsTitle | src/utils/extract_pdf_regex.py:193-208 | one capitalised word of at most 50 characters is a title and not a sentence |
| PdfRegex.WordAndSpaceAppend | src/utils/extract_pdf_regex.py:198 | the removal distributes over concatenation |
| PdfRegex.OnlyLastTitleChecked | src/utils/extract_pdf_regex.py:217-261 | for title, point, title, point, the first experience is kept whatever its title, and the second is dropped exactly when its title starts with a section word |
| PdfRegex.SecondSkillsDropped | src/utils/extract_pdf_regex.py:187-261 | on the lines "Skills", "Ab cd.", "Skills", "Ab cd." the parser keeps one experience titled "Skills" and drops the second as a section heading |
| PdfRegex.SecondAbKept | src/utils/extract_pdf_regex.py:187-261 | on the lines "Skills", "Ab cd.", "Ab", "Ab cd." the parser keeps both experiences, each with the point "Ab cd." |
| PdfRegex.RunStep | src/utils/extract_pdf_regex.py:210-257 | the loop from `i` continues from the next pass |
| PdfRegex.StepOfTitle | src/utils/extract_pdf_regex.py:215-244 | a title followed by a sentence opens an experience with no time and place |
| PdfRegex.StepOfPoint | src/utils/extract_pdf_regex.py:247-255 | a sentence ending in '.' is added as one point |

## Left out

- The Boyer-Moore and Aho-Corasick matchers (`algorithm/bm.py`, `algorithm/aho.py`) are not part of this model. The processor receives them as function values when it is built.
- The class `FuzzyMatcher` that `src/ats_processor.py` imports is not part of this model. It is taken to hold the threshold and to call `fuzzy_search`.
- Printing, debug output, `display_results` and `print_results` are left out: they only produce console output.
- `main`, the example inputs and `input()` are left out; they are console drivers.
- `Fuzzy.Similarity` is exact real arithmetic, not IEEE floating point. Rounding can only matter for ratios that sit exactly on the threshold.
- PdfRegex.IsTitleCaseLine: the `capital / len >= 0.7` test is `10 * capital >= 7 * len` over integers, so floating-point rounding at the boundary is not modelled.
- Text.IsSpace: whitespace, `\w`, `isupper`, `lower` and `upper` are ASCII only. Whitespace above U+007F (such as U+0085 and U+00A0), Unicode case mapping and digits are not modelled, nor is `(?i)` matching characters such as the long s or the Kelvin sign.
- Python dictionaries are association lists in insertion order, and `KMP_ATS`'s tables are maps. Aliasing of the dictionary objects is not modelled.
- AtsProcessor.Processor.SearchKeywords: it states the corrected counting of the KMP path (see Findings), not the `TypeError` the code raises there.
- Ranking.SearchPage.SearchClicked: the per-keyword summary strings of lines 205-213 are left out. Line 208 compares a dictionary with 0, which raises in Python 3 once a CV has an exact hit. The rest of the callback is modelled.
- Ranking.SearchPage.SearchClicked: widgets, colours, `page.update` and the card layout are not modelled. The two text fields' values are parameters, and the grid is the list of controls placed in it.
- The algorithm buttons' styling (`update_algo_buttons`) is not modelled. The search uses whatever algorithm the processor holds.
- `_extract_cv_sections` and the other section-finding regexes of `src/utils/extract_pdf_regex.py` are left out. So are PDF reading, file lookup, the database, the seeders and RSA. They are I/O or outside the matching core.
- PdfRegex.OnlyLastTitleChecked: it is stated for the four-line pattern title, point, title, point. The general fact that only the last title is checked is not stated for every input.
- PdfRegex.GroupedExperiencesSpec: the parser lemmas are proved for any line classifier that classes only capitalised lines as points, then instantiated with the source's classifier.

## Findings

| source | as written | input that shows it | evidently intended | confidence | as-written member | corrected member |
|---|---|---|---|---|---|---|
| src/ats_processor.py:119-121 | `count = len(indexes)` where `indexes = self.kmp.kmp_search(...)`, which returns an integer count (src/algorithm/kmp.py:35-69), so `len()` raises `TypeError` on the default KMP path | algorithm "KMP", keywords "a", CV text "a" | the number of occurrences `kmp_search` returns is the exact count, giving totals (1, 0) | not executed | AtsProcessor.KmpPathRaises | AtsProcessor.Processor.SearchKeywords |
