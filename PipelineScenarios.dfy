/** The invoice of test "given sample" of solution/search_test.go searched through a
    catalog index holding the one supplier "123,Demo Company": `FindSupplierNameV2` as
    written misses it, and the corrected pipeline finds it. */
module PipelineScenarios {
  import opened Wrappers
  import opened Text
  import opened Layout
  import opened Matcher
  import opened SupplierSearch
  import opened SearchTest
  import opened Catalog
  import opened Pipeline

  /** A one-supplier catalog has one group, keyed by the supplier's first word. */
  lemma SingleGroup(s: Supplier, t: string)
    ensures GroupOf([s], t) == if Key(s) == t then [s] else []
  {
    assert [s][..0] == [];
  }

  /** A one-supplier catalog ranges over its one key, and its file is the supplier's line. */
  lemma SingleCatalogLayout(s: Supplier)
    ensures KeyOrder([s], [Key(s)])
    ensures Blocks([s], [Key(s)]) == Line(s)
  {
    assert Keys([s]) == {Key(s)};
    SingleGroup(s, Key(s));
    assert [Key(s)][..0] == [];
    assert Blocks([s], []) == "";
    assert Block([s]) == Line(s) by {
      assert [s][..0] == [];
      assert Block([]) == "";
    }
  }

  /** `BuildIndex` over a one-supplier catalog. */
  method SingleCatalog(s: Supplier) returns (file: string, index: map<string, nat>)
    requires |Line(s)| <= SeekLimit
    ensures IsBuilt([s], [Key(s)], file, index) && |file| <= SeekLimit
  {
    SingleCatalogLayout(s);
    file, index := BuildIndex([s], [Key(s)]);
  }

  /** The sample's supplier can be written to the catalog and read back. */
  lemma DemoSupplierValid(s: Supplier)
    requires s == Supplier("Demo Company", "123")
    ensures forall x :: x in [s] ==> ValidSupplier(x)
    ensures |Line(s)| <= SeekLimit
  {
    assert s.id == "123" && s.name == "Demo Company";
  }

  /** A sorted rearrangement of three words in strict (line, position) order is those
      words in that order. */
  lemma SortedThree(ws: seq<Word>, a: Word, b: Word, c: Word)
    requires Before(a, b) && Before(b, c)
    requires Sorted(ws) && multiset(ws) == multiset([a, b, c])
    ensures ws == [a, b, c]
  {
    assert |ws| == 3 by {
      assert |multiset(ws)| == |ws|;
    }
    assert a in multiset(ws) && c in multiset(ws);
    var i :| 0 <= i < 3 && ws[i] == a;
    var j :| 0 <= j < 3 && ws[j] == c;
    assert forall k :: 0 <= k < 3 ==> ws[k] in multiset([a, b, c]);
    assert ws[0] == a;
    assert ws[2] == c;
    assert ws[1] == b by {
      assert multiset(ws) == multiset([ws[0], ws[1], ws[2]]) by {
        assert ws == [ws[0], ws[1], ws[2]];
      }
    }
  }

  /** Of three words only the middle one is a key: the heads are that key's group head. */
  lemma HeadsOfMiddle(ss: seq<Supplier>, w0: Word, w1: Word, w2: Word, s: Supplier)
    requires GroupOf(ss, w0.text) == [] && GroupOf(ss, w1.text) == [s] && GroupOf(ss, w2.text) == []
    ensures Heads(ss, [w0, w1, w2]) == [s]
  {
    assert Heads(ss, [w0]) == [] by {
      assert [w0][..0] == [];
    }
    assert Heads(ss, [w0, w1]) == [s] by {
      assert [w0, w1][..1] == [w0];
    }
    assert [w0, w1, w2][..2] == [w0, w1];
  }

  /** A single page with candidates is a single entry. */
  lemma SingleEntry(pages: seq<Page>, index: map<string, nat>, file: string, cs: seq<Supplier>)
    requires |pages| == 1 && Candidates(pages[0].words, index, file) == Success(cs) && cs != []
    ensures PageEntries(pages, index, file) == Success([SuppliersForPage(pages[0], cs)])
  {
    assert pages[..0] == [];
    assert PageEntries([], index, file) == Success([]);
    assert [] + [SuppliersForPage(pages[0], cs)] == [SuppliersForPage(pages[0], cs)];
  }

  /** Two tokens carried by words `i < j` of a sorted page, the second strictly after the
      first and at most one line below it, are accepted by V3 over the page's adjacency
      index. */
  lemma LinkedPair(ws: seq<Word>, i: nat, j: nat)
    requires Sorted(ws) && i < j < |ws|
    requires Before(ws[i], ws[j]) && ws[j].lineId <= ws[i].lineId + 1
    ensures AcceptsV3([ws[i].text, ws[j].text], OccurrenceIndex(ws), None)
  {
    var name := [ws[i].text, ws[j].text];
    assert Embeds(name, Texts(ws), [i, j]);
    assert LinkedEmbedding(name, ws, [i, j]);
    V3AcceptsLinkedEmbeddings(name, ws);
  }

  /** The sample invoice is one page, prepared into the sample words in order. */
  lemma SamplePage(pages: seq<Page>, invoice: Word, demo: Word, company: Word)
    requires invoice.pageId == 1 && demo.pageId == 1 && company.pageId == 1
    requires Before(invoice, demo) && Before(demo, company)
    requires |pages| == |PageIds([invoice, demo, company])|
    requires forall k :: 0 <= k < |pages| ==>
      Prepared(pages[k], OnPage([invoice, demo, company], PageIds([invoice, demo, company])[k]))
    ensures |pages| == 1 && pages[0].words == [invoice, demo, company]
  {
    SinglePage([invoice, demo, company], 1);
    SortedThree(pages[0].words, invoice, demo, company);
  }

  /** What `FindSupplierNameV2` promises when gathering candidates succeeds: nothing is
      found. */
  lemma NoFailureOutcome(r: Result<Option<Supplier>>, pages: seq<Page>, index: map<string, nat>, file: string)
    requires PageEntries(pages, index, file).Success?
    requires match PageEntries(pages, index, file)
      case Failure(e) => r == Failure(e)
      case Success(_) => r.Success?
    requires r.Success? ==> r.value == None
    ensures r == Success(None)
  {
  }

  /** `FindSupplierNameV2` as written finds nothing for the sample, although the catalog
      holds the supplier whose name is on the page. */
  method ScenarioIndexedSampleAsWritten() returns (r: Result<Option<Supplier>>)
    ensures r == Success(None)
  {
    var supplier := Supplier("Demo Company", "123");
    var invoice, demo, company := Word("INVOICE", 1, 1, 0), Word("Demo", 0, 1, 4), Word("Company", 1, 1, 4);
    DemoSupplierValid(supplier);
    var file, index := SingleCatalog(supplier);
    ghost var pages;
    r, pages := FindSupplierNameV2(1, [invoice, demo, company], index, file);
    BuiltIndexNeverFails([supplier], [Key(supplier)], file, index, pages);
    NoFailureOutcome(r, pages, index, file);
  }

  /** The sample's single page, fully indexed, gathers the supplier as its only
      candidate, and V3 matches it there. */
  lemma SampleFixedEntries(pages: seq<Page>, file: string, index: map<string, nat>, supplier: Supplier,
                           invoice: Word, demo: Word, company: Word)
    requires supplier.name == "Demo Company" && ValidSupplier(supplier)
    requires IsBuilt([supplier], [Key(supplier)], file, index) && |file| <= SeekLimit
    requires invoice.text == "INVOICE" && demo.text == "Demo" && company.text == "Company"
    requires invoice.pageId == 1 && demo.pageId == 1 && company.pageId == 1
    requires Before(invoice, demo) && Before(demo, company) && company.lineId <= demo.lineId + 1
    requires |pages| == |PageIds([invoice, demo, company])|
    requires forall k :: 0 <= k < |pages| ==>
      Prepared(pages[k], OnPage([invoice, demo, company], PageIds([invoice, demo, company])[k])) &&
      FullyIndexed(pages[k])
    ensures |pages| == 1
    ensures var es := [SuppliersForPage(pages[0], [supplier])];
      PageEntries(pages, index, file) == Success(es) && MatchesCandidate(es[0], 0)
    ensures Candidates(pages[0].words, index, file) == Success([supplier])
  {
    SamplePage(pages, invoice, demo, company);
    SampleCandidates(file, index, supplier, invoice, demo, company);
    SingleEntry(pages, index, file, [supplier]);
    SampleMatch(pages[0], supplier, invoice, demo, company);
  }

  /** Only the Demo word of the sample is a key of the one-supplier catalog. */
  lemma SampleCandidates(file: string, index: map<string, nat>, supplier: Supplier,
                         invoice: Word, demo: Word, company: Word)
    requires supplier.name == "Demo Company" && ValidSupplier(supplier)
    requires IsBuilt([supplier], [Key(supplier)], file, index) && |file| <= SeekLimit
    requires invoice.text == "INVOICE" && demo.text == "Demo" && company.text == "Company"
    ensures Candidates([invoice, demo, company], index, file) == Success([supplier])
  {
    SampleGroups(supplier, invoice, demo, company);
    HeadsOfMiddle([supplier], invoice, demo, company, supplier);
    CandidatesAreHeads([supplier], [Key(supplier)], file, index, [invoice, demo, company]);
  }

  /** The one-supplier catalog's only group is keyed "Demo". */
  lemma SampleGroups(supplier: Supplier, invoice: Word, demo: Word, company: Word)
    requires supplier.name == "Demo Company"
    requires invoice.text == "INVOICE" && demo.text == "Demo" && company.text == "Company"
    ensures GroupOf([supplier], invoice.text) == [] && GroupOf([supplier], demo.text) == [supplier]
    ensures GroupOf([supplier], company.text) == []
  {
    DemoCompanyTokens();
    SingleGroup(supplier, invoice.text);
    SingleGroup(supplier, demo.text);
    SingleGroup(supplier, company.text);
  }

  /** V3 matches "Demo Company" on the fully indexed sample page. */
  lemma SampleMatch(page: Page, supplier: Supplier, invoice: Word, demo: Word, company: Word)
    requires supplier.name == "Demo Company" && demo.text == "Demo" && company.text == "Company"
    requires FullyIndexed(page) && page.words == [invoice, demo, company]
    requires Before(demo, company) && company.lineId <= demo.lineId + 1
    ensures MatchesCandidate(SuppliersForPage(page, [supplier]), 0)
  {
    DemoCompanyTokens();
    LinkedPair(page.words, 1, 2);
  }

  /** What `FindSupplierNameV2Fixed` promises, on a single page whose only candidate V3
      matches: that candidate is the answer. */
  lemma SingleMatchOutcome(r: Result<Option<Supplier>>, pages: seq<Page>, file: string, index: map<string, nat>,
                           supplier: Supplier)
    requires |pages| == 1
    requires PageEntries(pages, index, file) == Success([SuppliersForPage(pages[0], [supplier])])
    requires MatchesCandidate(SuppliersForPage(pages[0], [supplier]), 0)
    requires Candidates(pages[0].words, index, file) == Success([supplier])
    requires match PageEntries(pages, index, file)
      case Failure(e) => r == Failure(e)
      case Success(es) => r.Success? && (r.value.None? <==> NoMatchBefore(es, |es|))
    requires r.Success? && r.value.Some? ==>
      exists p :: 0 <= p < |pages| && Candidates(pages[p].words, index, file).Success? &&
        r.value.value in Candidates(pages[p].words, index, file).value
    ensures r == Success(Some(supplier))
  {
    var es := [SuppliersForPage(pages[0], [supplier])];
    assert MatchesCandidate(es[0], 0);
    assert !NoMatchBefore(es, |es|);
    var p :| 0 <= p < |pages| && Candidates(pages[p].words, index, file).Success? &&
      r.value.value in Candidates(pages[p].words, index, file).value;
    assert p == 0;
    assert r.value.value in [supplier];
  }

  /** With `WordMapV2` built, the sample's supplier is found. */
  method ScenarioIndexedSampleFixed() returns (r: Result<Option<Supplier>>)
    ensures r == Success(Some(Supplier("Demo Company", "123")))
  {
    var supplier := Supplier("Demo Company", "123");
    var invoice, demo, company := Word("INVOICE", 1, 1, 0), Word("Demo", 0, 1, 4), Word("Company", 1, 1, 4);
    DemoSupplierValid(supplier);
    var file, index := SingleCatalog(supplier);
    ghost var pages;
    r, pages := FindSupplierNameV2Fixed(1, [invoice, demo, company], index, file);
    SampleFixedEntries(pages, file, index, supplier, invoice, demo, company);
    SingleMatchOutcome(r, pages, file, index, supplier);
  }
}
