/** The two top-level searches of solution/main.go. `FindSupplierName` prepares the pages
    and lets workers try every catalog supplier with the V2 matcher; `FindSupplierNameV2`
    prepares the pages, gathers candidates through the catalog index and tries them with
    the V3 matcher. Reading the input files is left to the caller: the invoice words, the
    supplier list, the index map and the flattened catalog file are parameters, and the
    logged outcome is the returned supplier. */
module Pipeline {
  import opened Wrappers
  import opened Text
  import opened Layout
  import opened Matcher
  import opened SupplierSearch
  import opened Catalog

  /** A page as both searches leave it after their preprocessing loop: its words are a
      rearrangement of its group sorted by line and position, and `WordMap` indexes them. */
  ghost predicate Prepared(page: Page, group: seq<Word>)
    reads page
  {
    Sorted(page.words) && multiset(page.words) == multiset(group) && page.wordMap == PositionIndex(page.words)
  }

  /** The preprocessing of both searches: `groupInvoiceWords`, then `sortWordsInPage` and
      `buildWordMapInPage` on every page. `WordMapV2` is left empty. */
  method PreparePages(words: seq<Word>) returns (pages: seq<Page>)
    ensures |pages| == |PageIds(words)|
    ensures forall k :: 0 <= k < |pages| ==>
      fresh(pages[k]) && Prepared(pages[k], OnPage(words, PageIds(words)[k])) && pages[k].wordMapV2 == map[]
    ensures forall k, l :: 0 <= k < l < |pages| ==> pages[k] != pages[l]
  {
    pages := GroupInvoiceWords(words);
    for k := 0 to |pages|
      invariant forall k' :: 0 <= k' < k ==>
        Prepared(pages[k'], OnPage(words, PageIds(words)[k'])) && pages[k'].wordMapV2 == map[]
      invariant forall k' :: k <= k' < |pages| ==>
        pages[k'].words == OnPage(words, PageIds(words)[k']) && pages[k'].wordMapV2 == map[]
    {
      PreparePage(pages[k]);
    }
  }

  /** The body of the preprocessing loop for one page: `sortWordsInPage`, then
      `buildWordMapInPage`. */
  method PreparePage(page: Page)
    modifies page
    ensures Prepared(page, old(page.words)) && page.wordMapV2 == old(page.wordMapV2)
  {
    var _ := SortWordsInPage(page);
    BuildWordMapInPage(page);
  }

  /** Pages whose `WordMap` indexes their own words satisfy what `sort.SearchInts` needs:
      every position list is sorted. */
  lemma IndexedPagesSearchable(pages: seq<Page>)
    requires forall k :: 0 <= k < |pages| ==> pages[k].wordMap == PositionIndex(pages[k].words)
    ensures forall k :: 0 <= k < |pages| ==> SearchableV2(pages[k])
  {
    forall k | 0 <= k < |pages| ensures SearchableV2(pages[k]) {
      var page := pages[k];
      PositionIndexAscending(page.words);
      forall t | t in page.wordMap ensures NonDecreasing(page.wordMap[t]) {
        var list := page.wordMap[t];
        forall i, j | 0 <= i < j < |list| ensures list[i] <= list[j] {
        }
      }
    }
  }

  /** On pages whose `WordMap` indexes their own words, V2 finds a name on some page
      exactly when V1 does. */
  lemma V2FindsWhatV1Finds(name: string, pages: seq<Page>)
    requires forall k :: 0 <= k < |pages| ==> pages[k].wordMap == PositionIndex(pages[k].words)
    ensures (exists k :: 0 <= k < |pages| && MatchesV2(Split(name), pages[k])) <==> OnSomePage(name, pages)
  {
    forall k | 0 <= k < |pages| ensures MatchesV2(Split(name), pages[k]) <==> MatchesV1(Split(name), pages[k]) {
      V2AgreesWithV1(Split(name), pages[k].words);
    }
  }

  /** `runWorker` with a single worker draining the supplier channel: the first supplier,
      in list order, that `SearchSupplierFromPageV2` reports. On indexed pages that is the
      first supplier whose name V1 finds on some page. */
  method RunWorker(pages: seq<Page>, suppliers: seq<Supplier>) returns (r: Option<Supplier>)
    requires forall k :: 0 <= k < |pages| ==> pages[k].wordMap == PositionIndex(pages[k].words)
    ensures r.None? <==> forall i :: 0 <= i < |suppliers| ==> !OnSomePage(suppliers[i].name, pages)
    ensures r.Some? ==>
      exists i :: (0 <= i < |suppliers| && r.value == suppliers[i] && OnSomePage(suppliers[i].name, pages) &&
                   forall i' :: 0 <= i' < i ==> !OnSomePage(suppliers[i'].name, pages))
  {
    for i := 0 to |suppliers|
      invariant forall i' :: 0 <= i' < i ==> !OnSomePage(suppliers[i'].name, pages)
    {
      r := TrySupplier(pages, suppliers[i]);
      if r.Some? {
        return;
      }
    }
    r := None;
  }

  /** One supplier taken from the channel by `runWorker`: `SearchSupplierFromPageV2`
      reports it exactly when V1 finds its name on some indexed page. */
  method TrySupplier(pages: seq<Page>, supplier: Supplier) returns (r: Option<Supplier>)
    requires forall k :: 0 <= k < |pages| ==> pages[k].wordMap == PositionIndex(pages[k].words)
    ensures r.Some? <==> OnSomePage(supplier.name, pages)
    ensures r.Some? ==> r.value == supplier
  {
    IndexedPagesSearchable(pages);
    r := SearchSupplierFromPageV2(pages, supplier);
    V2FindsWhatV1Finds(supplier.name, pages);
  }

  /** `FindSupplierName`: no workers is an error; otherwise the pages are prepared and
      the catalog suppliers are tried in list order. The pages are returned as a ghost
      result so that the contract can speak about them. */
  method FindSupplierName(workerNum: nat, invoiceWords: seq<Word>, suppliers: seq<Supplier>)
    returns (r: Result<Option<Supplier>>, ghost pages: seq<Page>)
    ensures workerNum == 0 <==> r.Failure?
    ensures r.Failure? ==> r.error == "invalid worker num"
    ensures r.Success? ==>
      |pages| == |PageIds(invoiceWords)| &&
      forall k :: 0 <= k < |pages| ==>
        fresh(pages[k]) && Prepared(pages[k], OnPage(invoiceWords, PageIds(invoiceWords)[k]))
    ensures r.Success? ==>
      (r.value.None? <==> forall i :: 0 <= i < |suppliers| ==> !OnSomePage(suppliers[i].name, pages))
    ensures r.Success? && r.value.Some? ==>
      exists i :: (0 <= i < |suppliers| && r.value.value == suppliers[i] && OnSomePage(suppliers[i].name, pages) &&
                   forall i' :: 0 <= i' < i ==> !OnSomePage(suppliers[i'].name, pages))
  {
    if workerNum == 0 {
      pages := [];
      return Failure("invalid worker num"), pages;
    }
    var ps := PreparePages(invoiceWords);
    pages := ps;
    var found := RunWorker(ps, suppliers);
    r := Success(found);
  }

  // ---------------------------------------------------------------------------------------
  // FindSupplierNameV2, as written and corrected
  // ---------------------------------------------------------------------------------------

  /** On pages with an empty `WordMapV2`, every entry is searchable and no candidate is
      ever matched: V3 needs a record for the name's first token. */
  lemma NothingMatchesWithoutOccurrences(pages: seq<Page>, index: map<string, nat>, file: string)
    requires forall k :: 0 <= k < |pages| ==> pages[k].wordMapV2 == map[]
    requires PageEntries(pages, index, file).Success?
    ensures var es := PageEntries(pages, index, file).value;
      (forall k :: 0 <= k < |es| ==> SearchableV3(es[k].page)) && NoMatchBefore(es, |es|)
  {
    var es := PageEntries(pages, index, file).value;
    var idx := EntriesFollowPages(pages, index, file);
    forall k, j | 0 <= k < |es| && 0 <= j < |es[k].suppliers| ensures !MatchesCandidate(es[k], j) {
      assert es[k].page == pages[idx[k]];
    }
  }

  /** `FindSupplierNameV2` as written: the pages get only `WordMap`, so `WordMapV2` stays
      empty and the V3 search never finds a supplier; errors from gathering candidates are
      passed on. */
  method FindSupplierNameV2(workerNum: nat, invoiceWords: seq<Word>, index: map<string, nat>, file: string)
    returns (r: Result<Option<Supplier>>, ghost pages: seq<Page>)
    ensures workerNum == 0 ==> r == Failure("invalid worker num")
    ensures workerNum != 0 ==>
      |pages| == |PageIds(invoiceWords)| &&
      (forall k :: 0 <= k < |pages| ==>
        fresh(pages[k]) && Prepared(pages[k], OnPage(invoiceWords, PageIds(invoiceWords)[k])) &&
        pages[k].wordMapV2 == map[]) &&
      match PageEntries(pages, index, file)
      case Failure(e) => r == Failure(e)
      case Success(_) => r.Success?
    ensures r.Success? ==> r.value == None
  {
    if workerNum == 0 {
      pages := [];
      return Failure("invalid worker num"), pages;
    }
    var ps := PreparePages(invoiceWords);
    pages := ps;
    var entries := FilterPotentialSuppliersForPage(ps, index, file);
    if entries.Failure? {
      return Failure(entries.error), pages;
    }
    NothingMatchesWithoutOccurrences(ps, index, file);
    var supplier := SearchSupplierFromPageV3(entries.value);
    r := Success(supplier);
  }

  /** The preprocessing loop of `FindSupplierNameV2` with the missing step added:
      `buildWordMapV2InPage` on every prepared page. */
  method BuildOccurrenceIndexes(pages: seq<Page>)
    requires forall k, l :: 0 <= k < l < |pages| ==> pages[k] != pages[l]
    modifies pages
    ensures forall k :: 0 <= k < |pages| ==>
      pages[k].words == old(pages[k].words) && pages[k].wordMap == old(pages[k].wordMap) &&
      pages[k].wordMapV2 == OccurrenceIndex(pages[k].words)
  {
    for k := 0 to |pages|
      invariant forall k' :: 0 <= k' < |pages| ==>
        pages[k'].words == old(pages[k'].words) && pages[k'].wordMap == old(pages[k'].wordMap)
      invariant forall k' :: 0 <= k' < k ==> pages[k'].wordMapV2 == OccurrenceIndex(pages[k'].words)
    {
      BuildWordMapV2InPage(pages[k]);
    }
  }

  /** A page that both indexes describe: sorted, with `WordMapV2` built from its words. */
  ghost predicate FullyIndexed(page: Page)
    reads page
  {
    Sorted(page.words) && page.wordMapV2 == OccurrenceIndex(page.words)
  }

  /** On fully indexed pages every entry is searchable by V3. */
  lemma EntriesSearchable(pages: seq<Page>, index: map<string, nat>, file: string)
    requires forall k :: 0 <= k < |pages| ==> FullyIndexed(pages[k])
    requires PageEntries(pages, index, file).Success?
    ensures var es := PageEntries(pages, index, file).value;
      forall k :: 0 <= k < |es| ==> SearchableV3(es[k].page)
  {
    var es := PageEntries(pages, index, file).value;
    var idx := EntriesFollowPages(pages, index, file);
    forall k | 0 <= k < |es| ensures SearchableV3(es[k].page) {
      assert es[k].page == pages[idx[k]];
      OccurrenceIndexSorted(pages[idx[k]].words);
    }
  }

  /** On fully indexed pages, a candidate V3 matches on its entry's page was gathered from
      one of the pages, and V1 finds its name on that page. */
  lemma MatchedCandidateOnItsPage(pages: seq<Page>, index: map<string, nat>, file: string, k: nat, j: nat)
    requires forall p :: 0 <= p < |pages| ==> FullyIndexed(pages[p])
    requires PageEntries(pages, index, file).Success?
    requires var es := PageEntries(pages, index, file).value;
      k < |es| && j < |es[k].suppliers| && MatchesCandidate(es[k], j)
    ensures var s := PageEntries(pages, index, file).value[k].suppliers[j];
      exists p :: 0 <= p < |pages| && Candidates(pages[p].words, index, file).Success? &&
        s in Candidates(pages[p].words, index, file).value && MatchesV1(Split(s.name), pages[p])
  {
    var es := PageEntries(pages, index, file).value;
    var idx := EntriesFollowPages(pages, index, file);
    var p := idx[k];
    var s := es[k].suppliers[j];
    assert es[k].page == pages[p];
    V3RefinesV1(Split(s.name), pages[p].words);
    assert s in Candidates(pages[p].words, index, file).value;
  }

  /** `FindSupplierNameV2` with `buildWordMapV2InPage` added to the preprocessing: the
      first candidate, in page-then-candidate order, that V3 matches on its page; nothing
      exactly when no candidate matches; and a supplier found is one gathered for a page on
      which V1 finds its name. */
  method FindSupplierNameV2Fixed(workerNum: nat, invoiceWords: seq<Word>, index: map<string, nat>, file: string)
    returns (r: Result<Option<Supplier>>, ghost pages: seq<Page>)
    ensures workerNum == 0 ==> r == Failure("invalid worker num")
    ensures workerNum != 0 ==>
      |pages| == |PageIds(invoiceWords)| &&
      (forall k :: 0 <= k < |pages| ==>
        fresh(pages[k]) && Prepared(pages[k], OnPage(invoiceWords, PageIds(invoiceWords)[k])) &&
        FullyIndexed(pages[k])) &&
      match PageEntries(pages, index, file)
      case Failure(e) => r == Failure(e)
      case Success(es) =>
        && r.Success? && (r.value.None? <==> NoMatchBefore(es, |es|))
        && (r.value.Some? ==>
              exists k, j :: (0 <= k < |es| && 0 <= j < |es[k].suppliers| &&
                              r.value.value == es[k].suppliers[j] && MatchesCandidate(es[k], j) &&
                              NoMatchBefore(es, k) &&
                              forall j' :: 0 <= j' < j ==> !MatchesCandidate(es[k], j')))
    ensures r.Success? && r.value.Some? ==>
      exists p :: 0 <= p < |pages| && Candidates(pages[p].words, index, file).Success? &&
        r.value.value in Candidates(pages[p].words, index, file).value && MatchesV1(Split(r.value.value.name), pages[p])
  {
    if workerNum == 0 {
      pages := [];
      return Failure("invalid worker num"), pages;
    }
    var ps := PreparePages(invoiceWords);
    BuildOccurrenceIndexes(ps);
    pages := ps;
    r := SearchIndexedPages(ps, index, file);
  }

  /** Candidate gathering followed by V3 over fully indexed pages: the first candidate, in
      page-then-candidate order, that V3 matches on its page, or the gathering error. */
  method SearchIndexedPages(pages: seq<Page>, index: map<string, nat>, file: string)
    returns (r: Result<Option<Supplier>>)
    requires forall k :: 0 <= k < |pages| ==> FullyIndexed(pages[k])
    ensures match PageEntries(pages, index, file)
      case Failure(e) => r == Failure(e)
      case Success(es) =>
        && r.Success? && (r.value.None? <==> NoMatchBefore(es, |es|))
        && (r.value.Some? ==>
              exists k, j :: (0 <= k < |es| && 0 <= j < |es[k].suppliers| &&
                              r.value.value == es[k].suppliers[j] && MatchesCandidate(es[k], j) &&
                              NoMatchBefore(es, k) &&
                              forall j' :: 0 <= j' < j ==> !MatchesCandidate(es[k], j')))
    ensures r.Success? && r.value.Some? ==>
      exists p :: 0 <= p < |pages| && Candidates(pages[p].words, index, file).Success? &&
        r.value.value in Candidates(pages[p].words, index, file).value && MatchesV1(Split(r.value.value.name), pages[p])
  {
    var entries := FilterPotentialSuppliersForPage(pages, index, file);
    if entries.Failure? {
      return Failure(entries.error);
    }
    EntriesSearchable(pages, index, file);
    var supplier := SearchSupplierFromPageV3(entries.value);
    if supplier.Some? {
      var es := entries.value;
      ghost var k, j :| 0 <= k < |es| && 0 <= j < |es[k].suppliers| &&
        supplier.value == es[k].suppliers[j] && MatchesCandidate(es[k], j);
      MatchedCandidateOnItsPage(pages, index, file, k, j);
    }
    r := Success(supplier);
  }

  /** With an index built over valid suppliers and a file `Seek` can address, gathering
      candidates never fails: every line at an offset parses. */
  lemma {:induction false} BuiltIndexNeverFails(ss: seq<Supplier>, order: seq<string>, file: string,
                                                index: map<string, nat>, pages: seq<Page>)
    requires IsBuilt(ss, order, file, index) && |file| <= SeekLimit
    requires forall s :: s in ss ==> ValidSupplier(s)
    ensures PageEntries(pages, index, file).Success?
  {
    if pages != [] {
      BuiltIndexNeverFails(ss, order, file, index, pages[..|pages| - 1]);
      CandidatesAreHeads(ss, order, file, index, pages[|pages| - 1].words);
    }
  }
}
