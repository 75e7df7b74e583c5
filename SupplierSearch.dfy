/** The supplier records and the three `SearchSupplierFromPage*` wrappers of
    solution/search.go, which try a supplier name against pages and report the first hit. */
module SupplierSearch {
  import opened Wrappers
  import opened Text
  import opened Layout
  import opened Matcher

  /** `Supplier`: one catalog entry, its name and its identifier. */
  datatype Supplier = Supplier(name: string, id: string)

  /** `SuppliersForPage`: a page with the candidate suppliers gathered for it. */
  datatype SuppliersForPage = SuppliersForPage(page: Page?, suppliers: seq<Supplier>)

  /** V1 matches the tokens of `name` on one of the pages. */
  ghost predicate OnSomePage(name: string, pages: seq<Page?>)
    reads pages
  {
    exists k :: 0 <= k < |pages| && MatchesV1(Split(name), pages[k])
  }

  /** `SearchSupplierFromPage`: the supplier when V1 matches its name on some page,
      otherwise nothing. */
  method SearchSupplierFromPage(pages: seq<Page?>, supplier: Supplier) returns (r: Option<Supplier>)
    ensures r.Some? <==> OnSomePage(supplier.name, pages)
    ensures r.Some? ==> r.value == supplier
  {
    for k := 0 to |pages|
      invariant forall k' :: 0 <= k' < k ==> !MatchesV1(Split(supplier.name), pages[k'])
    {
      var canMatch := MatchSupplierNameInPage(Split(supplier.name), pages[k]);
      if canMatch {
        return Some(supplier);
      }
    }
    return None;
  }

  /** `SearchSupplierFromPageV2`: the supplier when V2 matches its name on some page,
      otherwise nothing. */
  method SearchSupplierFromPageV2(pages: seq<Page?>, supplier: Supplier) returns (r: Option<Supplier>)
    requires forall k :: 0 <= k < |pages| ==> SearchableV2(pages[k])
    ensures r.Some? <==> exists k :: 0 <= k < |pages| && MatchesV2(Split(supplier.name), pages[k])
    ensures r.Some? ==> r.value == supplier
  {
    for k := 0 to |pages|
      invariant forall k' :: 0 <= k' < k ==> !MatchesV2(Split(supplier.name), pages[k'])
    {
      var canMatch := MatchSupplierNameInPageV2(Split(supplier.name), pages[k]);
      if canMatch {
        return Some(supplier);
      }
    }
    return None;
  }

  /** V3 matches the `j`-th candidate of `entry` on the entry's page. */
  predicate MatchesCandidate(entry: SuppliersForPage, j: nat)
    requires j < |entry.suppliers|
    reads entry.page
  {
    entry.page != null && AcceptsV3(Split(entry.suppliers[j].name), entry.page.wordMapV2, None)
  }

  /** The pages the entries point to. */
  function EntryPages(entries: seq<SuppliersForPage>): set<Page?>
  {
    set k | 0 <= k < |entries| :: entries[k].page
  }

  /** No candidate of the first `k` entries is matched on its page. */
  predicate NoMatchBefore(entries: seq<SuppliersForPage>, k: nat)
    requires k <= |entries|
    reads EntryPages(entries)
  {
    forall k', j :: 0 <= k' < k && 0 <= j < |entries[k'].suppliers| ==> !MatchesCandidate(entries[k'], j)
  }

  /** `SearchSupplierFromPageV3`: the first candidate, in page-then-candidate order, that
      V3 matches on its own page; nothing when none does. */
  method SearchSupplierFromPageV3(entries: seq<SuppliersForPage>) returns (r: Option<Supplier>)
    requires forall k :: 0 <= k < |entries| ==> SearchableV3(entries[k].page)
    ensures r.None? <==> NoMatchBefore(entries, |entries|)
    ensures r.Some? ==>
      exists k, j :: (0 <= k < |entries| && 0 <= j < |entries[k].suppliers| &&
                      r.value == entries[k].suppliers[j] && MatchesCandidate(entries[k], j) &&
                      NoMatchBefore(entries, k) &&
                      forall j' :: 0 <= j' < j ==> !MatchesCandidate(entries[k], j'))
  {
    for k := 0 to |entries|
      invariant NoMatchBefore(entries, k)
    {
      var suppliersForPage := entries[k];
      for j := 0 to |suppliersForPage.suppliers|
        invariant forall j' :: 0 <= j' < j ==> !MatchesCandidate(suppliersForPage, j')
      {
        var supplier := suppliersForPage.suppliers[j];
        var page := suppliersForPage.page;
        var canMatch := MatchSupplierNameInPageV3(Split(supplier.name), page, None);
        if canMatch {
          assert MatchesCandidate(entries[k], j);
          return Some(supplier);
        }
      }
    }
    return None;
  }
}
