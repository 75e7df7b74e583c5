# wordsearch — a verified model of the invoice supplier-name search

The wordsearch program looks for a supplier's name in the words of a scanned invoice.
This project models its matching core in Dafny and proves what each step promises:

- the invoice's words are grouped into pages;
- each page is sorted by line and position and indexed by word text;
- a supplier name matches a page when its space-separated tokens occur on the page in
  order. There are three matchers:
  - V1 is a greedy two-pointer scan;
  - V2 binary-searches a position index;
  - V3 is a backtracking search that also requires consecutive tokens to be at most one
    line apart.
- the catalog index (`BuildIndex`) groups suppliers by the first word of their name. It
  writes every group as one contiguous block of `id,name` lines and records each block's
  byte offset.
- `filterPotentialSuppliersForPage` reads, for every invoice word that is an index key,
  the first line at that word's offset and parses it into a candidate supplier.

Modules:

- `Wrappers` holds `Option` and `Result`.
- `Text` models `strings.Split(s, " ")` and its inverse.
- `Layout` holds words, the `Page` class, grouping, sorting and the two word maps.
- `Matcher` holds the three matchers, `sort.Search` and `sort.SearchInts`.
- `SupplierSearch` holds the `SearchSupplierFromPage*` wrappers.
- `SearchTest` holds the single-threaded `Search` helper of the test file and its test
  tables as scenarios.
- `Catalog` holds `BuildIndex`, reading and parsing a line of the flattened catalog, and
  candidate gathering.
- `Pipeline` holds the two search commands with their worker-count guard.
- `PipelineScenarios` states the outcome of the indexed search on the test file's sample invoice.

A `Page` is a class because the program updates `*Page` in place:

- `sortWordsInPage` sorts `Words` in place;
- the word maps are built into the page's fields.

Sorting is an in-place insertion sort on an array.

Files are replaced by values:

- The flattened catalog is a string.
- The JSON index is a `map<string, nat>` of offsets.
- The invoice and the catalog are given as already-parsed sequences.
- Go's random iteration order over the supplier map is a parameter `order`: any
  duplicate-free listing of the keys. Every property of the index holds for every such
  order.

## Model

| member | source | states |
|---|---|---|
| Text.Split | solution/main.go:57-60 | splitting a name on spaces always yields at least one piece, so element 0 (the first word) always exists |
| Text.SplitPiecesHaveNoSpace | solution/search.go:35 | no piece of a split name contains a space |
| Text.JoinSplit | solution/search.go:35 | joining the pieces with single spaces gives back the name, so splitting loses nothing |
| Text.FirstWord | solution/main.go:57-61 | the first word of a name is its longest prefix without a space: it contains no space, is a prefix of the name, and is followed by a space unless it is the whole name |
| Text.SplitHead | solution/main.go:57-61 | element 0 of the split is the name up to its first space |
| Text.SplitJoin | solution/search.go:35 | splitting a space-joined list of space-free tokens gives back exactly those tokens |
| Layout.Before | solution/search.go:218-222 | `byPosAndLine.Less`: lines are compared first, then positions within a line; Layout.BeforeOrdersKeys states the order properties the sort relies on |
| Layout.BeforeOrdersKeys | solution/search.go:218-222 | `Less` is a strict, transitive order on the (line, position) key, and any two words are comparable: when x is not before y, y is at or before x |
| Layout.Page.constructor | solution/search.go:77 | a new page has no words and empty word maps |
| Layout.PageIdsExact | solution/search.go:71-84 | the page ids of a word list have no duplicates and are exactly the ids that occur among the words |
| Layout.OnPageIsFilter | solution/search.go:74-81 | a page holds exactly the input words with its page id; the words of a prefix form a prefix of the page |
| Layout.FirstOccurrenceOrder | solution/search.go:75-80 | pages are listed in order of the first occurrence of their id: an earlier page's id occurs before any word of a later page |
| Layout.GroupedIsPermutation | solution/search.go:71-84 | the pages, concatenated, are a permutation of the input words |
| Layout.GroupInvoiceWords | solution/search.go:71-84 | returns one fresh, distinct page per page id, in first-occurrence order; page k holds exactly the words with the k-th id, in input order; its word maps are empty |
| Layout.OpenPage | solution/search.go:75-80 | an unseen page id gets a fresh page holding the word, which is appended to the page list and entered in the lookup map |
| Layout.AddToPage | solution/search.go:81 | appending a word changes only the group of the page it belongs to |
| Layout.SortByLineAndPos | solution/search.go:173 | after the sort the array is ordered by `(LineId, PosId)` and is a permutation of its old contents |
| Layout.InsertLast | solution/search.go:214-221 | one insertion step extends the sorted prefix by one element, keeps the contents as a permutation, and leaves everything after the inserted element in place |
| Layout.SwapDown | solution/search.go:214-216 | `Swap` of two neighbours: the array afterwards is the old contents with those two elements exchanged |
| Layout.SwappedKeepsRest | solution/search.go:214-216 | exchanging two neighbours is a permutation and leaves every later element in place |
| Layout.InsertingStep | solution/search.go:218-222 | swapping the moving word past a word that sorts after it keeps the insertion loop's state |
| Layout.InsertingDone | solution/search.go:218-222 | once the moving word meets the front or a word not after it, the prefix up to the inserted element is sorted |
| Layout.SortWordsInPage | solution/search.go:169-175 | returns the same page; its words are sorted by `(LineId, PosId)` and form a permutation of the old words; both maps are unchanged; an empty page stays empty; a nil page is returned as is |
| Layout.PositionsExact | solution/search.go:182-189 | a word's position list holds exactly the indices of that word, in strictly increasing order |
| Layout.OccurrencesAtPositions | solution/search.go:197-203 | the record list of a word holds the words at the indices of its position list, in the same order |
| Layout.PositionIndexPartition | solution/search.go:177-190 | every index of `Words` appears in the list of its own text and in no other list |
| Layout.PositionIndexAscending | solution/search.go:177-190 | every position list is strictly increasing and in range |
| Layout.OccurrenceIndexSorted | solution/search.go:192-205 | on a sorted page every record list is sorted by `(LineId, PosId)` and holds only words of the page with that text |
| Layout.PositionIndexSnoc | solution/search.go:183-188 | adding one word appends its index to its own text's list and leaves the other lists alone |
| Layout.OccurrenceIndexSnoc | solution/search.go:198-203 | adding one word appends its record to its own text's list and leaves the other lists alone |
| Layout.BuildWordMapInPage | solution/search.go:177-190 | `WordMap` becomes the position index of the page's words; the words and `WordMapV2` are unchanged |
| Layout.BuildWordMapV2InPage | solution/search.go:192-205 | `WordMapV2` becomes the record index of the page's words; the words and `WordMap` are unchanged |
| Matcher.GreedyWitness | solution/search.go:96-104 | when the greedy scan succeeds, it yields strictly increasing indices at which the page's words spell the name |
| Matcher.EmbedsGreedy | solution/search.go:96-104 | whenever such indices exist, the greedy scan succeeds |
| Matcher.GreedyIsSubsequence | solution/search.go:96-104 | the greedy scan succeeds iff the name's tokens are a subsequence of the page's words |
| Matcher.MatchSupplierNameInPage | solution/search.go:87-105 | returns true iff the page is non-nil, the name and the page are non-empty, and the name's tokens are a subsequence of the page's word texts |
| Matcher.SortSearch | solution/search.go:148-152 | for a predicate that stays true once true, returns the smallest index at which it holds (n if none) |
| Matcher.SortSearchInts | solution/search.go:121 | on a non-decreasing list, returns the first index whose value is at least the target |
| Matcher.NextPosIsLeast | solution/search.go:121-125 | the next position is the least listed position greater than the cursor, and there is none iff every listed position is at or before the cursor |
| Matcher.SearchIntsFindsNextPos | solution/search.go:121-125 | the binary search result followed by the `res == len` test gives exactly the next position |
| Matcher.MatchSupplierNameInPageV2 | solution/search.go:108-128 | the loop's answer equals the cursor-jumping specification: false for a nil page, an empty name, an empty map or a missing token; otherwise each token moves the cursor to its next listed position |
| Matcher.NoNextPos | solution/search.go:122-124 | when a token has no occurrence after the cursor, the rest of the name cannot be matched after the cursor |
| Matcher.AtNextPos | solution/search.go:125 | jumping to the nearest occurrence of the first token loses no match for the rest of the name |
| Matcher.AbsentPositions | solution/search.go:117-120 | a text that occurs on no word has no positions |
| Matcher.MatchV2FromIsGreedy | solution/search.go:115-127 | over a position index built from the words, V2 from any cursor agrees with the greedy scan of the words after the cursor |
| Matcher.V2AgreesWithV1 | solution/search.go:87-128 | when `WordMap` is built from the same words, V2 accepts iff V1 accepts |
| Matcher.MatchSupplierNameInPageV3 | solution/search.go:131-166 | returns true iff the recursive specification accepts: a nil page gives false; an empty name gives true; a non-empty name with an empty `WordMapV2` gives false; otherwise some record of the first token lies strictly after the start word, at most one line below it, and the rest of the name matches from that record |
| Matcher.SortedBefore | solution/search.go:218-222 | on a page sorted by `Less`, a word that is `Less` than another has the smaller index |
| Matcher.LinkedCons | solution/search.go:157-163 | a first word placed before the head of a linked match for the rest of the name gives a linked match for the whole name |
| Matcher.V3Witness | solution/search.go:131-166 | on a sorted page, every V3 acceptance yields indices that spell the name, go strictly forward, and are never more than one line apart |
| Matcher.LinkedEmbeddingAccepted | solution/search.go:131-166 | conversely, any such linked placement is accepted by V3 |
| Matcher.V3AcceptsLinkedEmbeddings | solution/search.go:131-166 | on a sorted page V3 accepts iff a linked placement of the name exists |
| Matcher.V3RefinesV1 | solution/search.go:131-166 | a V3 acceptance of a non-empty name implies that V1 also accepts it (the page is non-empty and the name is a subsequence) |
| SupplierSearch.SearchSupplierFromPage | solution/search.go:33-41 | returns the supplier iff V1 matches its name on some page, otherwise nothing |
| SupplierSearch.SearchSupplierFromPageV2 | solution/search.go:45-53 | returns the supplier iff V2 matches its name on some page, otherwise nothing |
| SupplierSearch.SearchSupplierFromPageV3 | solution/search.go:57-68 | returns nothing iff no candidate matches its paired page; otherwise returns the first candidate that matches, in page-then-candidate order |
| SearchTest.Search | solution/search_test.go:8-20 | the pages are the groups of the invoice, each sorted and a permutation of its group; the result is the first supplier in list order that V1 matches on some page, or nothing if none does |
| SearchTest.FirstSupplierOnPages | solution/search_test.go:13-19 | the supplier loop returns the first supplier that matches some page, and nothing iff none matches |
| SearchTest.SortPages | solution/search_test.go:10-12 | every page ends up sorted and a permutation of its own group; each page's `WordMap` and `WordMapV2` are unchanged |
| SearchTest.SinglePage | solution/search.go:71-84 | words that all share one page id form exactly one page, which holds all of them |
| SearchTest.PairOnSortedPage | solution/search.go:87-105 | two words of a sorted page, the first `Less` than the second, form a two-token subsequence |
| SearchTest.AbsentToken | solution/search.go:98-104 | a token that occurs on no word of the page makes V1 reject the name |
| SearchTest.DemoCompanyTokens | solution/search.go:35 | "Demo Company" splits into ["Demo", "Company"] |
| SearchTest.DemoCompanyFound | solution/search_test.go:32-48 | a sorted page holding "Demo" before "Company" matches "Demo Company" |
| SearchTest.ScenarioGivenSample | solution/search_test.go:32-48 | the given sample finds supplier 123 |
| SearchTest.DifferentPagesLayout | solution/search_test.go:49-62 | with "Demo" on page 2, the invoice groups into page 1 {INVOICE, Company} and page 2 {Demo} |
| SearchTest.DemoCompanyNowhere | solution/search_test.go:49-62 | neither of those pages matches "Demo Company" |
| SearchTest.ScenarioDifferentPages | solution/search_test.go:49-62 | the search returns nothing when the two words are on different pages |
| SearchTest.ScenarioDifferentLines | solution/search_test.go:63-80 | "Demo" on line 3, an intervening word, then "Company" on line 4 still finds supplier 123 |
| SearchTest.ScenarioV2ExactMatch | solution/search_test.go:315-327 | V2 with Demo→{1,3} and Company→{2} matches |
| SearchTest.ScenarioV2NotMatch | solution/search_test.go:328-340 | V2 with Demo→{3,4} and Company→{2} does not match |
| SearchTest.ScenarioV2Rejects | solution/search_test.go:341-361 | V2 rejects a nil page and an empty name |
| SearchTest.ScenarioV3FarApart | solution/search_test.go:383-405 | V3 rejects Demo on line 0 with Company on line 20 |
| SearchTest.ScenarioV3Adjacent | solution/search_test.go:406-431 | V3 accepts once another Demo appears on line 19 |
| Catalog.GroupOfIsFilter | solution/main.go:55-68 | a group holds exactly the suppliers whose first word is its key, and it is non-empty iff the key occurs |
| Catalog.KeysSnoc | solution/main.go:62-67 | one more supplier adds exactly its own first word to the keys |
| Catalog.BuildIndex | solution/main.go:55-91 | for any key order, the file is the concatenation of the groups' blocks in that order; the index maps each distinct first word to the total length of the blocks written before its own; its keys are exactly the first words |
| Catalog.GroupByFirstWord | solution/main.go:55-68 | the supplier map holds, for each first word, exactly the suppliers with that first word, in arrival order |
| Catalog.WriteBlocks | solution/main.go:76-91 | the written file and the offsets are those of the blocks in key order |
| Catalog.WriteGroup | solution/main.go:78-84 | the buffer of one group is its block: its suppliers' lines in group order |
| Catalog.GroupMapStep | solution/main.go:57-67 | appending one supplier to its first word's group keeps the map a grouping of the suppliers seen so far |
| Catalog.OrderSnoc | solution/main.go:85-90 | one more group appends its block and records the current length as its offset, so `currentIdx` grows by exactly the block length |
| Catalog.OffsetOfKey | solution/main.go:89-90 | the offset of the i-th key equals the total length of the blocks before it |
| Catalog.OffsetsKeys | solution/main.go:77-90 | every key in the order, and nothing else, gets an offset |
| Catalog.Line | solution/main.go:80 | `fmt.Sprintf("%s,%s\n", Id, SupplierName)`: one written line; Catalog.ReadLineRoundTrip and Catalog.ParseRoundTrip show that it reads and parses back to its supplier |
| Catalog.BlockStartsWithHead | solution/main.go:79-84 | a group's block begins with the line of its first supplier |
| Catalog.BlocksPrefix | solution/main.go:85-90 | what has been written so far is a prefix of the final file |
| Catalog.BlockAtOffset | solution/main.go:85-90 | each group's block lies in the file exactly at its recorded offset |
| Catalog.IndexKeys | solution/main.go:77-89 | the index has exactly one entry per distinct first word |
| Catalog.KeyPosition | solution/main.go:77-89 | every index key is one of the keys in the order |
| Catalog.BlockNonEmpty | solution/main.go:79-84 | a key that occurs has a non-empty group and a non-empty block |
| Catalog.BlocksGrow | solution/main.go:85-90 | a later group starts at or after the end of an earlier group's block |
| Catalog.OffsetsIncrease | solution/main.go:76-91 | blocks have no gaps: offsets strictly increase in key order and lie inside the file |
| Catalog.LineEnd | solution/main.go:155-156 | a scanned line ends at the first newline, or at the end of the file |
| Catalog.ReadLineAt | solution/main.go:149-156 | the first line scanned at an offset: nothing exactly when the offset is at or past the end; otherwise a prefix of the rest of the file with no newline, ending at the next newline or the end, less at most one carriage return before it |
| Catalog.DigitRunEnd | solution/main.go:153 | `\d+` covers a maximal run of digits |
| Catalog.Captures | solution/main.go:157-163 | the two submatches of a match: a non-empty run of digits, and a non-empty rest of the line without a newline |
| Catalog.ParseLine | solution/main.go:157-161 | `FindStringSubmatch` on a line: nothing exactly when no position starts a match of `(\d+),(.+)`; otherwise a non-empty all-digit id and a non-empty name without a newline |
| Catalog.ParseFromLeftmost | solution/main.go:153-157 | the regex finds the leftmost starting point at which `(\d+),(.+)` matches, and finds nothing iff no starting point matches |
| Catalog.TextHasNoBreak | solution/main.go:80 | for a valid supplier, the written `id,name` text has no newline |
| Catalog.ReadLineRoundTrip | solution/main.go:149-156 | the line scanned at the start of a written line is that line's `id,name` |
| Catalog.DigitsEndAtComma | solution/main.go:153 | for a valid supplier, the digit run of its line is exactly its id |
| Catalog.ParseRoundTrip | solution/main.go:153-163 | parsing a written `id,name` line gives back exactly that id and that name |
| Catalog.HeadAtBlock | solution/main.go:79-84 | the file read from a block's offset starts with the line of the group's first supplier |
| Catalog.HeadLineAt | solution/main.go:77-91 | for every index key, the file at its offset starts with the line of that key's first supplier |
| Catalog.GroupHead | solution/main.go:55-68 | a key that occurs has a first supplier, and that supplier is in the catalog |
| Catalog.ReadHeadAtOffset | solution/main.go:145-163 | reading and parsing at a key's offset yields exactly the first supplier of that key's group |
| Catalog.Fetch | solution/main.go:145-168 | one page word: a word that is not a key adds nothing; an error arises only for a key; a supplier fetched for a key comes from a line inside the file, with a non-empty all-digit id and a non-empty name |
| Catalog.Candidates | solution/main.go:144-169 | what the word loop of one page returns: at most one supplier per word, or the first error; Catalog.CandidatesAreHeads states which suppliers they are on a built index |
| Catalog.CandidatesNeedKeys | solution/main.go:145-148 | a page none of whose words is a key gathers nothing and cannot fail; an error always comes from a word that is a key |
| Catalog.PageEntries | solution/main.go:142-177 | what the page loop returns: at most one entry per page, or the first error; Catalog.EntriesFollowPages relates the entries to the pages |
| Catalog.EntriesSnoc | solution/main.go:171-176 | one more page adds its entry after the earlier pages' entries exactly when it gathered candidates |
| Catalog.CandidatesPrefixFailure | solution/main.go:149-161 | an error on an earlier word aborts the whole page with that error |
| Catalog.PageEntriesPrefixFailure | solution/main.go:149-161 | an error on an earlier page aborts the whole call with that error |
| Catalog.FilterPotentialSuppliersForPage | solution/main.go:140-179 | the nested loops compute the candidate specification: one supplier per word that is an index key (non-keys add nothing, repeats add duplicates); only pages that collected a candidate are kept, in order; an offset with no line left after it adds nothing; a seek to a negative offset or a line the regex rejects is an error |
| Catalog.CandidatesAreHeads | solution/main.go:144-169 | on an index built from valid suppliers, a page's candidates are exactly the first suppliers of the groups of its words that are keys, in word order |
| Catalog.EntriesFollowPages | solution/main.go:141-177 | each entry pairs a page with its own non-empty candidates; entries keep page order; a page without an entry collected no candidate |
| Pipeline.PreparePages | solution/main.go:115-119 | every page is fresh and distinct, holds a sorted permutation of its group, and has `WordMap` built from its words; `WordMapV2` stays empty |
| Pipeline.PreparePage | solution/main.go:116-119 | sorting and then indexing one page leaves it sorted, a permutation of its words and indexed by position; `WordMapV2` is unchanged |
| Pipeline.IndexedPagesSearchable | solution/search.go:112-125 | pages whose `WordMap` is built from their words satisfy V2's binary-search precondition |
| Pipeline.V2FindsWhatV1Finds | solution/search.go:45-53 | on such pages, some page matches with V2 iff some page matches with V1 |
| Pipeline.RunWorker | solution/main.go:244-259 | a single worker returns the first supplier, in arrival order, that matches some page, and nothing iff none matches |
| Pipeline.TrySupplier | solution/main.go:250-256 | one loop step reports the supplier iff V2 finds it on some page |
| Pipeline.FindSupplierName | solution/main.go:200-241 | zero workers is rejected with "invalid worker num", and nothing else is; otherwise the pages are prepared and the result is the first matching supplier, or not found |
| Pipeline.NothingMatchesWithoutOccurrences | solution/search.go:138-140 | with `WordMapV2` empty, V3 can be run on every entry and no candidate matches |
| Pipeline.FindSupplierNameV2 | solution/main.go:105-138 | as written: zero workers is an error; otherwise the pages are prepared without `WordMapV2`; a candidate-gathering error is returned unchanged; and every successful search reports "not found" |
| Pipeline.BuildOccurrenceIndexes | solution/search.go:192-205 | every page gets `WordMapV2` built from its words; its words and `WordMap` are unchanged |
| Pipeline.EntriesSearchable | solution/search.go:57-68 | fully indexed pages satisfy V3's binary-search precondition for every entry |
| Pipeline.MatchedCandidateOnItsPage | solution/search.go:57-68 | a candidate that V3 matches on its entry's page was gathered from that page, and V1 matches it there too |
| Pipeline.FindSupplierNameV2Fixed | solution/main.go:105-138 | corrected: zero workers is an error; the pages are prepared and fully indexed; a gathering error is returned unchanged; otherwise the result is the first candidate, in page-then-candidate order, that V3 matches on its page, and not found iff none matches; a reported supplier was gathered from some page and V1 matches it there |
| Pipeline.SearchIndexedPages | solution/main.go:125-130 | over fully indexed pages: the gathering error, or the first candidate in page-then-candidate order that V3 matches on its page, and not found iff none matches |
| Pipeline.BuiltIndexNeverFails | solution/main.go:140-179 | over a file and an index written by `BuildIndex` from valid suppliers, candidate gathering never fails |
| PipelineScenarios.SingleGroup | solution/main.go:55-68 | a one-supplier catalog has one group, under the supplier's first word |
| PipelineScenarios.SingleCatalogLayout | solution/main.go:76-91 | that catalog is laid out as the supplier's line alone |
| PipelineScenarios.SingleCatalog | solution/main.go:55-91 | building the index of a one-supplier catalog gives a built file and index of seekable size |
| PipelineScenarios.DemoSupplierValid | solution/main.go:153 | supplier 123 "Demo Company" is a line the regex parses back |
| PipelineScenarios.SortedThree | solution/search.go:169-175 | sorting three words that are already in `Less` order leaves them in that order |
| PipelineScenarios.HeadsOfMiddle | solution/main.go:144-169 | when only the middle word is a key, the page's candidates are that key's first supplier |
| PipelineScenarios.SingleEntry | solution/main.go:171-176 | a single page with candidates gives exactly one entry |
| PipelineScenarios.LinkedPair | solution/search.go:157-163 | two words of a sorted page, the second after the first and at most one line below it, are accepted by V3 |
| PipelineScenarios.SamplePage | solution/search.go:71-84 | the sample invoice prepares into one page holding INVOICE, Demo, Company in that order |
| PipelineScenarios.ScenarioIndexedSampleAsWritten | solution/main.go:116-119 | on the sample invoice and an index holding supplier 123, the as-written indexed search reports not found |
| PipelineScenarios.SampleFixedEntries | solution/main.go:140-179 | on the sample, gathering gives one entry with supplier 123 as its only candidate, and that candidate matches |
| PipelineScenarios.SampleCandidates | solution/main.go:144-169 | on the sample page, only "Demo" is a key, so the candidates are [supplier 123] |
| PipelineScenarios.SampleGroups | solution/main.go:55-68 | in that catalog, "Demo" has group [supplier 123]; "INVOICE" and "Company" have no group |
| PipelineScenarios.SampleMatch | solution/search.go:131-166 | V3 matches "Demo Company" on the fully indexed sample page |
| PipelineScenarios.ScenarioIndexedSampleFixed | solution/main.go:105-138 | on the same inputs, the corrected indexed search finds supplier 123 |

## Left out

- The worker pool is left out: goroutines, `sync.WaitGroup`, the `done` channel and the early stop (solution/main.go:222-240, 246-249). `FindSupplierName` runs one worker over the whole supplier sequence.
- FindSupplierName: with several workers the program may report any matching supplier, whichever worker finishes first. The model states the one-worker result, the first match in catalog order. A multi-worker run in which two workers each find a match can block forever: the `done` channel has a one-slot buffer (solution/main.go:223), so the second `done <- true` (solution/main.go:248, 254) waits, and `wg.Wait()` (solution/main.go:233) never returns. The model does not capture this hang.
- RunWorker: the check of the `done` channel before each supplier is not modelled, because only one worker exists in the model.
- File and JSON I/O are left out: `os.Create`/`Open`, `json.Marshal`/`Unmarshal` and `loadSupplierNameFileWithIndex` (solution/main.go:71-75, 92-101, 181-196). The flattened catalog is a string and the index is a map. Write and open errors therefore do not arise.
- `loadInvoiceFile` and `loadSupplierNameFile` are not part of this model: their regex parsing, the header line skipped by the supplier loader, and its producer goroutine. The invoice words and the supplier sequence are parameters. On a malformed catalog line that loader's producer logs the line and returns without closing its channel (solution/main.go:277-280, 288). Its consumers, `runWorker` (solution/main.go:245) and `BuildIndex` (solution/main.go:56), then wait forever once the buffer drains. The model does not capture this hang.
- Seeking is modelled only as far as the program can reach it: a negative `int64` offset (2^63 or more) is an error. Other seek errors cannot be produced by an in-memory string.
- `bufio.Scanner` is modelled as reading up to the next newline and dropping one trailing carriage return. Its 64 KiB token limit is not modelled.
- Word ids are unbounded `nat`s. The `uint32` wrap-around of `LineId+1` in V3 (solution/search.go:159) is not modelled. Neither is the `uint64` wrap-around of `currentIdx` (solution/main.go:90), which needs a file of 2^64 bytes.
- Text is a sequence of characters, not of UTF-8 bytes. Block lengths and offsets therefore count characters. For ASCII names they agree with the byte counts.
- SortWordsInPage: `sort.Sort` is not stable, and the model promises no particular order among words with equal `(LineId, PosId)`. Only sortedness and permutation are stated.
- Logging of the result and of errors (solution/main.go:132-135, 238, 253) is left out. The result is returned instead.
- Pointer identity is not modelled: a word is a value record, so two `*Word` with equal fields are equal in the model.
- SearchSupplierFromPageV2 and MatchSupplierNameInPageV2 require `WordMap` lists to be non-decreasing. MatchSupplierNameInPageV3 requires `WordMapV2` lists to be sorted by `(LineId, PosId)`. These are the documented preconditions of `sort.SearchInts` and `sort.Search`. Every page the program builds meets them, as Pipeline.IndexedPagesSearchable and Pipeline.EntriesSearchable show.

## Findings

| source | as written | input that shows it | evidently intended | confidence | as-written member | corrected member |
|---|---|---|---|---|---|---|
| solution/main.go:116-119 | `FindSupplierNameV2` prepares each page with `buildWordMapInPage` only, but its matcher V3 reads `WordMapV2`, which stays empty. V3 then rejects every non-empty name (solution/search.go:138-140), and a name split on spaces is never empty. So the indexed search reports "supplier name not found" on every invoice. | The test file's sample invoice (INVOICE, Demo, Company on page 1, with Demo and Company on line 4) and a catalog index built from supplier 123 "Demo Company": the result is not found. | The pages also get `buildWordMapV2InPage`, so V3 finds supplier 123, as the exhaustive search does on the same sample. | high (follows from the code; not executed) | Pipeline.FindSupplierNameV2, PipelineScenarios.ScenarioIndexedSampleAsWritten | Pipeline.FindSupplierNameV2Fixed, PipelineScenarios.ScenarioIndexedSampleFixed |
