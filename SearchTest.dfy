/** The single-threaded search pipeline `Search` of solution/search_test.go, and the
    concrete cases of its test tables for the pipeline and the V2 and V3 matchers. */
module SearchTest {
  import opened Wrappers
  import opened Text
  import opened Layout
  import opened Matcher
  import opened SupplierSearch

  /** `Search`: groups the invoice words into pages, sorts every page, then returns the
      first supplier, in list order, whose name V1 finds on some page. The pages it built
      are returned as a ghost result so that the contract can speak about them. */
  method Search(invoiceWords: seq<Word>, suppliers: seq<Supplier>) returns (r: Option<Supplier>, ghost pages: seq<Page>)
    ensures |pages| == |PageIds(invoiceWords)|
    ensures forall k :: 0 <= k < |pages| ==>
      fresh(pages[k]) && Sorted(pages[k].words) &&
      multiset(pages[k].words) == multiset(OnPage(invoiceWords, PageIds(invoiceWords)[k]))
    ensures r.None? <==> forall i :: 0 <= i < |suppliers| ==> !OnSomePage(suppliers[i].name, pages)
    ensures r.Some? ==>
      exists i :: (0 <= i < |suppliers| && r.value == suppliers[i] && OnSomePage(suppliers[i].name, pages) &&
                   forall i' :: 0 <= i' < i ==> !OnSomePage(suppliers[i'].name, pages))
  {
    var ps := GroupInvoiceWords(invoiceWords);
    SortPages(ps, Grouped(invoiceWords));
    pages := ps;
    r := FirstSupplierOnPages(ps, suppliers);
  }

  /** The supplier loop of `Search`: the first supplier, in list order, that
      `SearchSupplierFromPage` reports. */
  method FirstSupplierOnPages(pages: seq<Page?>, suppliers: seq<Supplier>) returns (r: Option<Supplier>)
    ensures r.None? <==> forall i :: 0 <= i < |suppliers| ==> !OnSomePage(suppliers[i].name, pages)
    ensures r.Some? ==>
      exists i :: (0 <= i < |suppliers| && r.value == suppliers[i] && OnSomePage(suppliers[i].name, pages) &&
                   forall i' :: 0 <= i' < i ==> !OnSomePage(suppliers[i'].name, pages))
  {
    for i := 0 to |suppliers|
      invariant forall i' :: 0 <= i' < i ==> !OnSomePage(suppliers[i'].name, pages)
    {
      r := SearchSupplierFromPage(pages, suppliers[i]);
      if r.Some? {
        return;
      }
    }
    r := None;
  }

  /** The sorting loop of `Search`: every page is sorted in place by `sortWordsInPage`. */
  method SortPages(pages: seq<Page>, ghost groups: seq<seq<Word>>)
    requires |pages| == |groups|
    requires forall k :: 0 <= k < |pages| ==> pages[k].words == groups[k]
    requires forall k, l :: 0 <= k < l < |pages| ==> pages[k] != pages[l]
    modifies pages
    ensures forall k :: 0 <= k < |pages| ==>
      Sorted(pages[k].words) && multiset(pages[k].words) == multiset(groups[k]) &&
      pages[k].wordMap == old(pages[k].wordMap) && pages[k].wordMapV2 == old(pages[k].wordMapV2)
  {
    for k := 0 to |pages|
      invariant forall k' :: 0 <= k' < k ==>
        Sorted(pages[k'].words) && multiset(pages[k'].words) == multiset(groups[k'])
      invariant forall k' :: k <= k' < |pages| ==> pages[k'].words == groups[k']
      invariant forall k' :: 0 <= k' < |pages| ==>
        pages[k'].wordMap == old(pages[k'].wordMap) && pages[k'].wordMapV2 == old(pages[k'].wordMapV2)
    {
      var sorted := SortWordsInPage(pages[k]);
    }
  }

  /** Words that all carry page identifier `id` form that single page. */
  lemma {:induction false} SinglePage(ws: seq<Word>, id: nat)
    requires |ws| > 0 && forall w :: w in ws ==> w.pageId == id
    ensures PageIds(ws) == [id] && OnPage(ws, id) == ws
  {
    var init := ws[..|ws| - 1];
    assert ws == init + [ws[|ws| - 1]];
    if |init| > 0 {
      SinglePage(init, id);
    }
  }

  /** Two words of a sorted page, one strictly before the other, give a two-token
      subsequence of the page's texts. */
  lemma PairOnSortedPage(ws: seq<Word>, x: Word, y: Word)
    requires Sorted(ws) && x in ws && y in ws && Before(x, y)
    ensures |ws| > 0 && IsSubsequence([x.text, y.text], Texts(ws))
  {
    var i :| 0 <= i < |ws| && ws[i] == x;
    var j :| 0 <= j < |ws| && ws[j] == y;
    SortedBefore(ws, i, j);
    assert Embeds([x.text, y.text], Texts(ws), [i, j]);
  }

  /** A page holding a rearrangement of `group`, where no word has text `t`, does not
      match a name containing `t`. */
  lemma AbsentToken(name: seq<string>, page: Page, group: seq<Word>, t: string)
    requires t in name && multiset(page.words) == multiset(group)
    requires forall w :: w in group ==> w.text != t
    ensures !MatchesV1(name, page)
  {
    forall w | w in page.words ensures w.text != t {
      assert w in multiset(group);
    }
  }

  lemma DemoCompanyTokens()
    ensures Split("Demo Company") == ["Demo", "Company"]
  {
    assert Join(["Demo", "Company"]) == "Demo Company";
    SplitJoin(["Demo", "Company"]);
  }

  /** A first page sorted by line and position and holding a Demo word before a Company
      word carries "Demo Company". */
  lemma DemoCompanyFound(pages: seq<Page>, demo: Word, company: Word)
    requires demo.text == "Demo" && company.text == "Company" && Before(demo, company)
    requires |pages| > 0 && Sorted(pages[0].words)
    requires demo in multiset(pages[0].words) && company in multiset(pages[0].words)
    ensures OnSomePage("Demo Company", pages)
  {
    PairOnSortedPage(pages[0].words, demo, company);
    DemoCompanyTokens();
    assert MatchesV1(Split("Demo Company"), pages[0]);
  }

  /** Test "given sample": INVOICE, Demo and Company on page 1, Demo and Company on line
      4, find supplier 123. */
  method ScenarioGivenSample() returns (r: Option<Supplier>)
    ensures r == Some(Supplier("Demo Company", "123"))
  {
    var invoice, demo, company := Word("INVOICE", 1, 1, 0), Word("Demo", 0, 1, 4), Word("Company", 1, 1, 4);
    var words := [invoice, demo, company];
    var supplier := Supplier("Demo Company", "123");
    SinglePage(words, 1);
    ghost var pages;
    r, pages := Search(words, [supplier]);
    DemoCompanyFound(pages, demo, company);
    assert [supplier][0] == supplier;
    assert r.Some?;
  }

  /** The pages of test "Words in different page": INVOICE and Company on page 1, Demo
      alone on page 2. */
  lemma DifferentPagesLayout(invoice: Word, demo: Word, company: Word)
    requires invoice.pageId == 1 && demo.pageId == 2 && company.pageId == 1
    ensures PageIds([invoice, demo, company]) == [1, 2]
    ensures OnPage([invoice, demo, company], 1) == [invoice, company]
    ensures OnPage([invoice, demo, company], 2) == [demo]
  {
    PageIdsSnoc([], invoice);
    OnPageSnoc([], invoice);
    assert [] + [invoice] == [invoice] && [invoice] + [demo] == [invoice, demo];
    assert [invoice, demo] + [company] == [invoice, demo, company];
    PageIdsSnoc([invoice], demo);
    OnPageSnoc([invoice], demo);
    PageIdsSnoc([invoice, demo], company);
    OnPageSnoc([invoice, demo], company);
  }

  /** The two pages of test "Words in different page", the first holding INVOICE and
      Company and the second Demo, carry no "Demo Company". */
  lemma DemoCompanyNowhere(pages: seq<Page>, invoice: Word, demo: Word, company: Word)
    requires invoice.text == "INVOICE" && demo.text == "Demo" && company.text == "Company"
    requires |pages| == 2
    requires multiset(pages[0].words) == multiset([invoice, company])
    requires multiset(pages[1].words) == multiset([demo])
    ensures !OnSomePage("Demo Company", pages)
  {
    DemoCompanyTokens();
    AbsentToken(["Demo", "Company"], pages[0], [invoice, company], "Demo");
    AbsentToken(["Demo", "Company"], pages[1], [demo], "Company");
    forall k | 0 <= k < |pages| ensures !MatchesV1(Split("Demo Company"), pages[k]) {
      assert k == 0 || k == 1;
    }
  }

  /** Test "Words in different page": Demo alone on page 2, so no page carries the name. */
  method ScenarioDifferentPages() returns (r: Option<Supplier>)
    ensures r == None
  {
    var invoice, demo, company := Word("INVOICE", 1, 1, 0), Word("Demo", 0, 2, 4), Word("Company", 1, 1, 4);
    var supplier := Supplier("Demo Company", "123");
    DifferentPagesLayout(invoice, demo, company);
    ghost var pages;
    r, pages := Search([invoice, demo, company], [supplier]);
    DemoCompanyNowhere(pages, invoice, demo, company);
    assert [supplier][0] == supplier;
  }

  /** Test "Words in different line": Demo on line 3, another word, Company on line 4;
      the name is still found. */
  method ScenarioDifferentLines() returns (r: Option<Supplier>)
    ensures r == Some(Supplier("Demo Company", "123"))
  {
    var invoice, demo, other, company :=
      Word("INVOICE", 1, 1, 0), Word("Demo", 2, 1, 3), Word("invoice", 3, 1, 3), Word("Company", 1, 1, 4);
    var words := [invoice, demo, other, company];
    var supplier := Supplier("Demo Company", "123");
    SinglePage(words, 1);
    ghost var pages;
    r, pages := Search(words, [supplier]);
    DemoCompanyFound(pages, demo, company);
    assert [supplier][0] == supplier;
    assert r.Some?;
  }

  /** V2 test "exact match": Demo at 1 and 3, Company at 2. */
  method ScenarioV2ExactMatch() returns (canMatch: bool)
    ensures canMatch
  {
    var page := new Page();
    page.wordMap := map["Demo" := [1, 3], "Company" := [2]];
    assert NextPos([1, 3], -1) == Some(1);
    assert NextPos([2], 1) == Some(2);
    canMatch := MatchSupplierNameInPageV2(["Demo", "Company"], page);
  }

  /** V2 test "not match": Demo only at 3 and 4, after Company at 2. */
  method ScenarioV2NotMatch() returns (canMatch: bool)
    ensures !canMatch
  {
    var page := new Page();
    page.wordMap := map["Demo" := [3, 4], "Company" := [2]];
    assert NextPos([3, 4], -1) == Some(3);
    assert NextPos([2], 3) == None;
    canMatch := MatchSupplierNameInPageV2(["Demo", "Company"], page);
  }

  /** V2 tests "invalid page" and "empty supplier name". */
  method ScenarioV2Rejects() returns (noPage: bool, noName: bool)
    ensures !noPage && !noName
  {
    noPage := MatchSupplierNameInPageV2(["Demo", "Company"], null);
    var page := new Page();
    page.wordMap := map["Demo" := [1, 3], "Company" := [2]];
    noName := MatchSupplierNameInPageV2([], page);
  }

  /** V3 test "not match": Demo on line 0 and Company on line 20 are too far apart. */
  method ScenarioV3FarApart() returns (canMatch: bool)
    ensures !canMatch
  {
    var demo, company := Word("", 0, 0, 0), Word("", 0, 0, 20);
    var page := new Page();
    page.wordMapV2 := map["Demo" := [demo], "Company" := [company]];
    assert !AcceptsV3(["Company"], page.wordMapV2, Some(demo));
    assert ["Demo", "Company"][1..] == ["Company"];
    canMatch := MatchSupplierNameInPageV3(["Demo", "Company"], page, None);
  }

  /** V3 test "can match": a second Demo on line 19 sits right above Company on line 20. */
  method ScenarioV3Adjacent() returns (canMatch: bool)
    ensures canMatch
  {
    var demo0, demo19, company := Word("", 0, 0, 0), Word("", 0, 0, 19), Word("", 0, 0, 20);
    var page := new Page();
    page.wordMapV2 := map["Demo" := [demo0, demo19], "Company" := [company]];
    assert ["Company"][1..] == [];
    assert AcceptsV3(["Company"], page.wordMapV2, Some(demo19)) by {
      assert company in page.wordMapV2["Company"];
    }
    assert ["Demo", "Company"][1..] == ["Company"];
    assert demo19 in page.wordMapV2["Demo"];
    canMatch := MatchSupplierNameInPageV3(["Demo", "Company"], page, None);
  }
}
