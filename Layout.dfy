/** The token layout of an invoice: words, pages, the grouping of words into pages, the
    line-major sort of a page and the two per-page lookup indexes (solution/search.go). */
module Layout {

  /** One positioned token of the invoice (`Word`). The identifiers are unsigned 32-bit
      integers in the source; here they are unbounded. */
  datatype Word = Word(text: string, posId: nat, pageId: nat, lineId: nat)

  /** `byPosAndLine.Less`: `x` sorts strictly before `y`, comparing lines first and then
      positions within a line. */
  predicate Before(x: Word, y: Word)
  {
    x.lineId < y.lineId || (x.lineId == y.lineId && x.posId < y.posId)
  }

  /** `Before` is a strict order on the (line, position) key, and any two words are
      comparable: when `x` is not before `y`, `y` is at or before `x`. */
  lemma BeforeOrdersKeys(x: Word, y: Word, z: Word)
    ensures Before(x, y) ==> x.lineId <= y.lineId && (x.lineId, x.posId) != (y.lineId, y.posId)
    ensures !Before(x, y) ==> y.lineId <= x.lineId && (y.lineId == x.lineId ==> y.posId <= x.posId)
    ensures Before(x, y) && Before(y, z) ==> Before(x, z)
  {
  }

  /** Every pair of words is in non-decreasing (line, position) order. */
  predicate Sorted(ws: seq<Word>)
  {
    forall i, j :: 0 <= i < j < |ws| ==> !Before(ws[j], ws[i])
  }

  /** The texts of the words, in order. */
  function Texts(ws: seq<Word>): seq<string>
  {
    seq(|ws|, i requires 0 <= i < |ws| => ws[i].text)
  }

  /** `Page`: the words of one page and the two indexes built over them. A `nil` Go map is
      the empty map here. */
  class Page {
    var words: seq<Word>
    var wordMap: map<string, seq<int>>
    var wordMapV2: map<string, seq<Word>>

    constructor ()
      ensures words == [] && wordMap == map[] && wordMapV2 == map[]
    {
      words := [];
      wordMap := map[];
      wordMapV2 := map[];
    }
  }

  // ---------------------------------------------------------------------------------------
  // Grouping words into pages (groupInvoiceWords)
  // ---------------------------------------------------------------------------------------

  /** The distinct page identifiers of `ws`, in order of first appearance. */
  function PageIds(ws: seq<Word>): seq<nat>
  {
    if ws == [] then []
    else
      var ids := PageIds(ws[..|ws| - 1]);
      var id := ws[|ws| - 1].pageId;
      if id in ids then ids else ids + [id]
  }

  /** The words of `ws` that lie on page `id`, in input order. */
  function OnPage(ws: seq<Word>, id: nat): seq<Word>
  {
    if ws == [] then []
    else OnPage(ws[..|ws| - 1], id) + (if ws[|ws| - 1].pageId == id then [ws[|ws| - 1]] else [])
  }

  /** The pages of `ws`, one word list per identifier of `PageIds(ws)`. */
  function Grouped(ws: seq<Word>): seq<seq<Word>>
  {
    var ids := PageIds(ws);
    seq(|ids|, k requires 0 <= k < |ids| => OnPage(ws, ids[k]))
  }

  function Concat(pages: seq<seq<Word>>): seq<Word>
  {
    if pages == [] then [] else Concat(pages[..|pages| - 1]) + pages[|pages| - 1]
  }

  /** A page identifier is listed exactly when some word carries it, and no identifier is
      listed twice. */
  lemma {:induction false} PageIdsExact(ws: seq<Word>)
    ensures forall i, j :: 0 <= i < j < |PageIds(ws)| ==> PageIds(ws)[i] != PageIds(ws)[j]
    ensures forall id :: id in PageIds(ws) <==> exists i :: 0 <= i < |ws| && ws[i].pageId == id
  {
    if ws != [] {
      var init := ws[..|ws| - 1];
      PageIdsExact(init);
      forall id | id in PageIds(ws) ensures exists i :: 0 <= i < |ws| && ws[i].pageId == id {
        if id in PageIds(init) {
          var i :| 0 <= i < |init| && init[i].pageId == id;
          assert ws[i] == init[i];
        } else {
          assert ws[|ws| - 1].pageId == id;
        }
      }
      forall id | exists i :: 0 <= i < |ws| && ws[i].pageId == id ensures id in PageIds(ws) {
        var i :| 0 <= i < |ws| && ws[i].pageId == id;
        if i < |ws| - 1 {
          assert init[i] == ws[i];
        }
      }
    }
  }

  /** The words of a page identifier that no word carries: none. */
  lemma {:induction false} OnPageAbsent(ws: seq<Word>, id: nat)
    requires forall i :: 0 <= i < |ws| ==> ws[i].pageId != id
    ensures OnPage(ws, id) == []
  {
    if ws != [] {
      OnPageAbsent(ws[..|ws| - 1], id);
    }
  }

  lemma PageIdsSnoc(ws: seq<Word>, x: Word)
    ensures PageIds(ws + [x]) == if x.pageId in PageIds(ws) then PageIds(ws) else PageIds(ws) + [x.pageId]
  {
    assert (ws + [x])[..|ws|] == ws;
  }

  /** The page built from the input extended by one word. */
  lemma OnPageSnoc(ws: seq<Word>, x: Word)
    ensures forall id :: OnPage(ws + [x], id) == OnPage(ws, id) + (if x.pageId == id then [x] else [])
  {
    assert (ws + [x])[..|ws|] == ws;
  }

  /** Each page holds exactly the words with its identifier, in input order: all its words
      carry the identifier, every such word is on it, and the page built from a prefix of
      the input is a prefix of the page built from the whole input. */
  lemma {:induction false} OnPageIsFilter(ws: seq<Word>, id: nat)
    ensures forall w :: w in OnPage(ws, id) ==> w.pageId == id
    ensures forall i :: 0 <= i < |ws| && ws[i].pageId == id ==> ws[i] in OnPage(ws, id)
    ensures forall n :: 0 <= n <= |ws| ==> OnPage(ws[..n], id) <= OnPage(ws, id)
  {
    if ws != [] {
      var init := ws[..|ws| - 1];
      OnPageIsFilter(init, id);
      forall i | 0 <= i < |ws| && ws[i].pageId == id ensures ws[i] in OnPage(ws, id) {
        if i < |ws| - 1 {
          assert init[i] == ws[i];
        }
      }
      forall n | 0 <= n <= |ws| ensures OnPage(ws[..n], id) <= OnPage(ws, id) {
        if n < |ws| {
          assert ws[..n] == init[..n];
          assert OnPage(init[..n], id) <= OnPage(init, id);
        } else {
          assert ws[..n] == ws;
        }
      }
    }
  }

  /** The identifiers of a prefix of the input are a prefix of the identifiers. */
  lemma {:induction false} PageIdsPrefix(ws: seq<Word>, n: nat)
    requires n <= |ws|
    ensures PageIds(ws[..n]) <= PageIds(ws)
    decreases |ws|
  {
    if n == |ws| {
      assert ws[..n] == ws;
    } else {
      var init := ws[..|ws| - 1];
      PageIdsPrefix(init, n);
      assert init[..n] == ws[..n];
    }
  }

  /** Pages come in the order in which their identifiers first appear: before any word of
      page `l` there is a word of every earlier page `k`. */
  lemma FirstOccurrenceOrder(ws: seq<Word>, k: nat, l: nat, j: nat)
    requires k < l < |PageIds(ws)|
    requires j < |ws| && ws[j].pageId == PageIds(ws)[l]
    ensures exists i :: 0 <= i < j && ws[i].pageId == PageIds(ws)[k]
  {
    var ids := PageIds(ws);
    var pre := ws[..j + 1];
    PageIdsPrefix(ws, j + 1);
    PageIdsExact(pre);
    PageIdsExact(ws);
    var pids := PageIds(pre);
    assert pre[j].pageId == ids[l];
    assert ids[l] in pids;
    var p :| 0 <= p < |pids| && pids[p] == ids[l];
    assert ids[p] == ids[l];
    assert k < l == p < |pids|;
    assert ids[k] == pids[k];
    assert pids[k] in pids;
    var i :| 0 <= i < |pre| && pre[i].pageId == ids[k];
    assert i != j;
    assert ws[i] == pre[i];
  }

  lemma {:induction false} ConcatAppend(pages: seq<seq<Word>>, k: nat, w: Word)
    requires k < |pages|
    ensures multiset(Concat(pages[k := pages[k] + [w]])) == multiset(Concat(pages)) + multiset{w}
    decreases |pages|
  {
    var updated := pages[k := pages[k] + [w]];
    var n := |pages| - 1;
    if k < n {
      ConcatAppend(pages[..n], k, w);
      assert updated[..n] == pages[..n][k := pages[k] + [w]];
    } else {
      assert updated[..n] == pages[..n];
    }
  }

  /** A word for a page already seen joins the end of that page's group. */
  lemma GroupedSnocOld(ws: seq<Word>, w: Word, k: nat)
    requires k < |PageIds(ws)| && PageIds(ws)[k] == w.pageId
    ensures PageIds(ws + [w]) == PageIds(ws)
    ensures Grouped(ws + [w]) == Grouped(ws)[k := Grouped(ws)[k] + [w]]
  {
    var ids, g := PageIds(ws), Grouped(ws);
    PageIdsExact(ws);
    PageIdsSnoc(ws, w);
    OnPageSnoc(ws, w);
    forall k' | 0 <= k' < |ids| ensures Grouped(ws + [w])[k'] == g[k := g[k] + [w]][k'] {
      if k' != k {
        assert ids[k'] != w.pageId;
      }
    }
  }

  /** A word for a new page opens a group of its own at the end. */
  lemma GroupedSnocNew(ws: seq<Word>, w: Word)
    requires w.pageId !in PageIds(ws)
    ensures PageIds(ws + [w]) == PageIds(ws) + [w.pageId]
    ensures Grouped(ws + [w]) == Grouped(ws) + [[w]]
  {
    var ids, g := PageIds(ws), Grouped(ws);
    PageIdsExact(ws);
    OnPageAbsent(ws, w.pageId);
    PageIdsSnoc(ws, w);
    OnPageSnoc(ws, w);
    forall k' | 0 <= k' <= |ids| ensures Grouped(ws + [w])[k'] == (g + [[w]])[k'] {
      if k' < |ids| {
        assert ids[k'] != w.pageId;
      }
    }
  }

  /** Putting all pages back together gives a permutation of the input words. */
  lemma {:induction false} GroupedIsPermutation(ws: seq<Word>)
    ensures multiset(Concat(Grouped(ws))) == multiset(ws)
  {
    if ws != [] {
      var init := ws[..|ws| - 1];
      var w := ws[|ws| - 1];
      assert ws == init + [w];
      GroupedIsPermutation(init);
      var ids := PageIds(init);
      var g := Grouped(init);
      if w.pageId in ids {
        var k :| 0 <= k < |ids| && ids[k] == w.pageId;
        GroupedSnocOld(init, w, k);
        ConcatAppend(g, k, w);
      } else {
        GroupedSnocNew(init, w);
        assert (g + [[w]])[..|g|] == g;
      }
    }
  }

  /** The loop invariant of `GroupInvoiceWords` after the words `seen`: one page per
      identifier of `PageIds(seen)`, reachable through `pageMap`, all distinct. */
  ghost predicate PageTable(ids: seq<nat>, pages: seq<Page>, pageMap: map<nat, Page>)
  {
    && |pages| == |ids|
    && (forall id :: id in pageMap <==> id in ids)
    && (forall k :: 0 <= k < |ids| ==> pageMap[ids[k]] == pages[k])
    && (forall k, l :: 0 <= k < l < |pages| ==> pages[k] != pages[l])
  }

  /** The pages hold `groups`, one group each, and have no indexes yet. */
  ghost predicate Holding(pages: seq<Page>, groups: seq<seq<Word>>)
    reads pages
  {
    && |pages| == |groups|
    && (forall k :: 0 <= k < |pages| ==> pages[k].words == groups[k])
    && (forall k :: 0 <= k < |pages| ==> pages[k].wordMap == map[] && pages[k].wordMapV2 == map[])
  }

  /** `groupInvoiceWords`: one fresh page per distinct page identifier, in order of first
      appearance, each holding the words with that identifier in input order. */
  method GroupInvoiceWords(words: seq<Word>) returns (pages: seq<Page>)
    ensures |pages| == |PageIds(words)|
    ensures forall k :: 0 <= k < |pages| ==>
      fresh(pages[k]) && pages[k].words == OnPage(words, PageIds(words)[k]) &&
      pages[k].wordMap == map[] && pages[k].wordMapV2 == map[]
    ensures forall k, l :: 0 <= k < l < |pages| ==> pages[k] != pages[l]
  {
    pages := [];
    var pageMap: map<nat, Page> := map[];
    for i := 0 to |words|
      invariant PageTable(PageIds(words[..i]), pages, pageMap)
      invariant Holding(pages, Grouped(words[..i]))
      invariant forall k :: 0 <= k < |pages| ==> fresh(pages[k])
    {
      var word := words[i];
      assert words[..i + 1] == words[..i] + [word];
      ghost var ids := PageIds(words[..i]);
      if word.pageId in pageMap {
        ghost var k :| 0 <= k < |ids| && ids[k] == word.pageId;
        GroupedSnocOld(words[..i], word, k);
        var page := pageMap[word.pageId];
        AddToPage(pages, Grouped(words[..i]), k, page, word);
      } else {
        GroupedSnocNew(words[..i], word);
        var page := OpenPage(ids, pages, pageMap, Grouped(words[..i]), word);
        pageMap := pageMap[word.pageId := page];
        pages := pages + [page];
      }
    }
    assert words[..|words|] == words;
  }

  /** A fresh page for the first word with a new page identifier, entered in the table. */
  method OpenPage(ghost ids: seq<nat>, ghost pages: seq<Page>, ghost pageMap: map<nat, Page>,
                  ghost groups: seq<seq<Word>>, word: Word) returns (page: Page)
    requires PageTable(ids, pages, pageMap) && Holding(pages, groups)
    requires word.pageId !in pageMap
    ensures fresh(page)
    ensures PageTable(ids + [word.pageId], pages + [page], pageMap[word.pageId := page])
    ensures Holding(pages + [page], groups + [[word]])
  {
    page := new Page();
    page.words := page.words + [word];
    forall k | 0 <= k < |ids| ensures pageMap[word.pageId := page][ids[k]] == (pages + [page])[k] {
      assert ids[k] in pageMap;
    }
  }

  /** Appending a word to the `k`-th of the pages holding `groups`. */
  method AddToPage(pages: seq<Page>, ghost groups: seq<seq<Word>>, ghost k: nat, page: Page, word: Word)
    requires Holding(pages, groups)
    requires forall k, l :: 0 <= k < l < |pages| ==> pages[k] != pages[l]
    requires k < |pages| && pages[k] == page
    modifies page
    ensures Holding(pages, groups[k := groups[k] + [word]])
  {
    page.words := page.words + [word];
    forall l | 0 <= l < |pages| ensures pages[l].words == groups[k := groups[k] + [word]][l] {
      if l != k {
        assert pages[l] != page;
      }
    }
  }

  // ---------------------------------------------------------------------------------------
  // Sorting a page (sortWordsInPage, sort.Sort(byPosAndLine(...)))
  // ---------------------------------------------------------------------------------------

  /** `sort.Sort(byPosAndLine(a))`: sorts `a` in place into non-decreasing (line, position)
      order. Go's sort is not stable, and no order among equal keys is promised here either;
      an insertion sort by adjacent swaps stands in for Go's algorithm. */
  method SortByLineAndPos(a: array<Word>)
    modifies a
    ensures Sorted(a[..])
    ensures multiset(a[..]) == multiset(old(a[..]))
  {
    if a.Length <= 1 {
      return;
    }
    for i := 1 to a.Length
      invariant Sorted(a[..i])
      invariant multiset(a[..]) == multiset(old(a[..]))
    {
      InsertLast(a, i);
    }
  }

  /** One insertion step: with `a[..i]` sorted, `a[i]` is swapped leftwards past the words
      that sort after it, leaving `a[..i + 1]` sorted and the rest of `a` in place. */
  method InsertLast(a: array<Word>, i: nat)
    requires i < a.Length && Sorted(a[..i])
    modifies a
    ensures Sorted(a[..i + 1])
    ensures multiset(a[..]) == multiset(old(a[..]))
    ensures a[i + 1..] == old(a[i + 1..])
  {
    var j := i;
    while j > 0 && Before(a[j], a[j - 1])
      invariant 0 <= j <= i
      invariant Inserting(a[..], i, j)
      invariant multiset(a[..]) == multiset(old(a[..]))
      invariant a[i + 1..] == old(a[i + 1..])
    {
      ghost var s := a[..];
      SwapDown(a, j);
      SwappedKeepsRest(s, j, i);
      InsertingStep(s, i, j);
      j := j - 1;
    }
    InsertingDone(a[..], i, j);
  }

  /** The state of the insertion loop: apart from the moving word at `j`, `s[..i + 1]` is
      sorted, and the words after `j` do not sort before it. */
  ghost predicate Inserting(s: seq<Word>, i: nat, j: nat)
    requires j <= i < |s|
  {
    && (forall p, q :: 0 <= p < q <= i && p != j && q != j ==> !Before(s[q], s[p]))
    && (forall q :: j < q <= i ==> !Before(s[q], s[j]))
  }

  /** Swapping the moving word down past a word that sorts after it keeps the loop state. */
  lemma InsertingStep(s: seq<Word>, i: nat, j: nat)
    requires 0 < j <= i < |s| && Inserting(s, i, j) && Before(s[j], s[j - 1])
    ensures Inserting(Swapped(s, j), i, j - 1)
  {
  }

  /** Once the moving word has reached the front or a word that does not sort after it,
      `s[..i + 1]` is sorted. */
  lemma InsertingDone(s: seq<Word>, i: nat, j: nat)
    requires j <= i < |s| && Inserting(s, i, j)
    requires j == 0 || !Before(s[j], s[j - 1])
    ensures Sorted(s[..i + 1])
  {
  }

  /** `s[i], s[j] = s[j], s[i]` of `byPosAndLine.Swap`, for the neighbours `j - 1` and `j`. */
  method SwapDown(a: array<Word>, j: nat)
    requires 0 < j < a.Length
    modifies a
    ensures a[..] == Swapped(old(a[..]), j)
  {
    a[j - 1], a[j] := a[j], a[j - 1];
  }

  /** `s` with the neighbours at `j - 1` and `j` exchanged. */
  function Swapped(s: seq<Word>, j: nat): seq<Word>
    requires 0 < j < |s|
  {
    s[j - 1 := s[j]][j := s[j - 1]]
  }

  /** Exchanging two neighbours at or before `i` permutes the sequence and leaves
      everything after `i` in place. */
  lemma SwappedKeepsRest(s: seq<Word>, j: nat, i: nat)
    requires 0 < j <= i < |s|
    ensures multiset(Swapped(s, j)) == multiset(s)
    ensures Swapped(s, j)[i + 1..] == s[i + 1..]
  {
  }

  /** `sortWordsInPage`: a `nil` or empty page is returned unchanged; otherwise the page's
      words are rearranged into non-decreasing (line, position) order, a permutation of the
      words it had. The indexes are not touched. */
  method SortWordsInPage(page: Page?) returns (r: Page?)
    modifies page
    ensures r == page
    ensures page != null ==>
      Sorted(page.words) && multiset(page.words) == multiset(old(page.words)) &&
      page.wordMap == old(page.wordMap) && page.wordMapV2 == old(page.wordMapV2)
    ensures page != null && old(page.words) == [] ==> page.words == []
  {
    if page == null || |page.words| == 0 {
      return page;
    }
    var ws := page.words;
    var a := new Word[|ws|](i requires 0 <= i < |ws| => ws[i]);
    assert a[..] == ws;
    SortByLineAndPos(a);
    page.words := a[..];
    return page;
  }

  // ---------------------------------------------------------------------------------------
  // The two per-page indexes (buildWordMapInPage, buildWordMapV2InPage)
  // ---------------------------------------------------------------------------------------

  /** The positions in `ws` of the words whose text is `t`, ascending. */
  function Positions(ws: seq<Word>, t: string): seq<int>
  {
    if ws == [] then []
    else Positions(ws[..|ws| - 1], t) + (if ws[|ws| - 1].text == t then [|ws| - 1] else [])
  }

  /** The word records of `ws` whose text is `t`, in the order of `ws`. */
  function Occurrences(ws: seq<Word>, t: string): seq<Word>
  {
    if ws == [] then []
    else Occurrences(ws[..|ws| - 1], t) + (if ws[|ws| - 1].text == t then [ws[|ws| - 1]] else [])
  }

  /** `Page.WordMap` as built from `ws`: text to the positions carrying it. */
  function PositionIndex(ws: seq<Word>): map<string, seq<int>>
  {
    map t | t in Texts(ws) :: Positions(ws, t)
  }

  /** `Page.WordMapV2` as built from `ws`: text to the word records carrying it. */
  function OccurrenceIndex(ws: seq<Word>): map<string, seq<Word>>
  {
    map t | t in Texts(ws) :: Occurrences(ws, t)
  }

  /** `Positions(ws, t)` is the strictly increasing list of exactly those indices of `ws`
      whose word has text `t`. */
  lemma {:induction false} PositionsExact(ws: seq<Word>, t: string)
    ensures forall p :: p in Positions(ws, t) ==> 0 <= p < |ws| && ws[p].text == t
    ensures forall i :: 0 <= i < |ws| && ws[i].text == t ==> i in Positions(ws, t)
    ensures forall k, l :: 0 <= k < l < |Positions(ws, t)| ==> Positions(ws, t)[k] < Positions(ws, t)[l]
  {
    if ws != [] {
      var init := ws[..|ws| - 1];
      PositionsExact(init, t);
      var pi := Positions(init, t);
      forall k | 0 <= k < |pi| ensures pi[k] < |ws| - 1 {
        assert pi[k] in pi;
      }
      forall p | p in Positions(ws, t) ensures 0 <= p < |ws| && ws[p].text == t {
        if p in Positions(init, t) {
          assert init[p] == ws[p];
        }
      }
      forall i | 0 <= i < |ws| && ws[i].text == t ensures i in Positions(ws, t) {
        if i < |ws| - 1 {
          assert init[i] == ws[i];
        }
      }
    }
  }

  /** `Occurrences(ws, t)` lists the words at `Positions(ws, t)`, in the same order. */
  lemma {:induction false} OccurrencesAtPositions(ws: seq<Word>, t: string)
    ensures |Occurrences(ws, t)| == |Positions(ws, t)|
    ensures forall k :: 0 <= k < |Positions(ws, t)| ==>
      0 <= Positions(ws, t)[k] < |ws| && Occurrences(ws, t)[k] == ws[Positions(ws, t)[k]]
  {
    if ws != [] {
      var init := ws[..|ws| - 1];
      OccurrencesAtPositions(init, t);
      PositionsExact(init, t);
      forall k | 0 <= k < |Positions(ws, t)|
        ensures 0 <= Positions(ws, t)[k] < |ws| && Occurrences(ws, t)[k] == ws[Positions(ws, t)[k]]
      {
        if k < |Positions(init, t)| {
          assert Positions(init, t)[k] in Positions(init, t);
          assert init[Positions(init, t)[k]] == ws[Positions(init, t)[k]];
        }
      }
    }
  }

  /** Every index of the page appears in exactly one list of the position index: the one
      of its own text. */
  lemma PositionIndexPartition(ws: seq<Word>)
    ensures forall i :: 0 <= i < |ws| ==>
      ws[i].text in PositionIndex(ws) && i in PositionIndex(ws)[ws[i].text]
    ensures forall i, t :: 0 <= i < |ws| && t in PositionIndex(ws) && i in PositionIndex(ws)[t] ==>
      t == ws[i].text
  {
    forall i | 0 <= i < |ws|
      ensures ws[i].text in PositionIndex(ws) && i in PositionIndex(ws)[ws[i].text]
    {
      assert Texts(ws)[i] == ws[i].text;
      PositionsExact(ws, ws[i].text);
    }
    forall i, t | 0 <= i < |ws| && t in PositionIndex(ws) && i in PositionIndex(ws)[t]
      ensures t == ws[i].text
    {
      PositionsExact(ws, t);
    }
  }

  /** Every list of the position index is strictly increasing and stays inside the page. */
  lemma PositionIndexAscending(ws: seq<Word>)
    ensures forall t :: t in PositionIndex(ws) ==>
      (forall k, l :: 0 <= k < l < |PositionIndex(ws)[t]| ==> PositionIndex(ws)[t][k] < PositionIndex(ws)[t][l]) &&
      (forall k :: 0 <= k < |PositionIndex(ws)[t]| ==> 0 <= PositionIndex(ws)[t][k] < |ws|)
  {
    forall t | t in PositionIndex(ws)
      ensures (forall k, l :: 0 <= k < l < |PositionIndex(ws)[t]| ==> PositionIndex(ws)[t][k] < PositionIndex(ws)[t][l]) &&
              (forall k :: 0 <= k < |PositionIndex(ws)[t]| ==> 0 <= PositionIndex(ws)[t][k] < |ws|)
    {
      PositionsExact(ws, t);
      forall k | 0 <= k < |Positions(ws, t)| ensures 0 <= Positions(ws, t)[k] < |ws| {
        assert Positions(ws, t)[k] in Positions(ws, t);
      }
    }
  }

  /** On a sorted page every list of the adjacency index lists exactly the records with
      its text, in page order, and is itself sorted by (line, position). */
  lemma OccurrenceIndexSorted(ws: seq<Word>)
    requires Sorted(ws)
    ensures forall t :: t in OccurrenceIndex(ws) ==> Sorted(OccurrenceIndex(ws)[t])
    ensures forall t, x :: t in OccurrenceIndex(ws) && x in OccurrenceIndex(ws)[t] ==> x in ws && x.text == t
  {
    forall t | t in OccurrenceIndex(ws)
      ensures Sorted(OccurrenceIndex(ws)[t])
      ensures forall x :: x in OccurrenceIndex(ws)[t] ==> x in ws && x.text == t
    {
      OccurrencesAtPositions(ws, t);
      PositionsExact(ws, t);
      var occ := Occurrences(ws, t);
      var pos := Positions(ws, t);
      forall i, j | 0 <= i < j < |occ| ensures !Before(occ[j], occ[i]) {
        assert pos[i] < pos[j];
      }
      forall x | x in occ ensures x in ws && x.text == t {
        var k :| 0 <= k < |occ| && occ[k] == x;
        assert pos[k] in pos;
      }
    }
  }

  lemma TextsSnoc(ws: seq<Word>, x: Word)
    ensures forall t :: t in Texts(ws + [x]) <==> t in Texts(ws) || t == x.text
  {
    assert Texts(ws + [x]) == Texts(ws) + [x.text];
  }

  /** No word has text `t`: no positions and no occurrences. */
  lemma {:induction false} AbsentText(ws: seq<Word>, t: string)
    requires forall i :: 0 <= i < |ws| ==> ws[i].text != t
    ensures Positions(ws, t) == [] && Occurrences(ws, t) == []
  {
    if ws != [] {
      AbsentText(ws[..|ws| - 1], t);
    }
  }

  lemma PositionIndexSnoc(ws: seq<Word>, x: Word)
    ensures PositionIndex(ws + [x]) ==
      PositionIndex(ws)[x.text := (if x.text in PositionIndex(ws) then PositionIndex(ws)[x.text] else []) + [|ws|]]
  {
    var ws' := ws + [x];
    assert ws'[..|ws'| - 1] == ws;
    var lhs := PositionIndex(ws');
    var rhs := PositionIndex(ws)[x.text := (if x.text in PositionIndex(ws) then PositionIndex(ws)[x.text] else []) + [|ws|]];
    TextsSnoc(ws, x);
    assert lhs.Keys == rhs.Keys;
    forall t | t in lhs ensures lhs[t] == rhs[t] {
      assert Positions(ws', t) == Positions(ws, t) + (if x.text == t then [|ws|] else []);
      if t == x.text && t !in Texts(ws) {
        forall i | 0 <= i < |ws| ensures ws[i].text != t {
          assert Texts(ws)[i] == ws[i].text;
        }
        AbsentText(ws, t);
      }
    }
  }

  lemma OccurrenceIndexSnoc(ws: seq<Word>, x: Word)
    ensures OccurrenceIndex(ws + [x]) ==
      OccurrenceIndex(ws)[x.text := (if x.text in OccurrenceIndex(ws) then OccurrenceIndex(ws)[x.text] else []) + [x]]
  {
    var ws' := ws + [x];
    assert ws'[..|ws'| - 1] == ws;
    var lhs := OccurrenceIndex(ws');
    var rhs := OccurrenceIndex(ws)[x.text := (if x.text in OccurrenceIndex(ws) then OccurrenceIndex(ws)[x.text] else []) + [x]];
    TextsSnoc(ws, x);
    assert lhs.Keys == rhs.Keys;
    forall t | t in lhs ensures lhs[t] == rhs[t] {
      assert Occurrences(ws', t) == Occurrences(ws, t) + (if x.text == t then [x] else []);
      if t == x.text && t !in Texts(ws) {
        forall i | 0 <= i < |ws| ensures ws[i].text != t {
          assert Texts(ws)[i] == ws[i].text;
        }
        AbsentText(ws, t);
      }
    }
  }

  /** `buildWordMapInPage`: a `nil` page is left alone; otherwise `WordMap` becomes the
      position index of the page's words, and nothing else changes. */
  method BuildWordMapInPage(page: Page?)
    modifies page
    ensures page != null ==>
      page.wordMap == PositionIndex(page.words) &&
      page.words == old(page.words) && page.wordMapV2 == old(page.wordMapV2)
  {
    if page == null {
      return;
    }
    page.wordMap := map[];
    for idx := 0 to |page.words|
      invariant page.words == old(page.words) && page.wordMapV2 == old(page.wordMapV2)
      invariant page.wordMap == PositionIndex(page.words[..idx])
    {
      var w := page.words[idx];
      var wordList: seq<int>;
      if w.text in page.wordMap {
        wordList := page.wordMap[w.text];
      } else {
        wordList := [];
      }
      wordList := wordList + [idx];
      PositionIndexSnoc(page.words[..idx], w);
      assert page.words[..idx + 1] == page.words[..idx] + [w];
      page.wordMap := page.wordMap[w.text := wordList];
    }
    assert page.words[..|page.words|] == page.words;
  }

  /** `buildWordMapV2InPage`: a `nil` page is left alone; otherwise `WordMapV2` becomes the
      adjacency index of the page's words, and nothing else changes. */
  method BuildWordMapV2InPage(page: Page?)
    modifies page
    ensures page != null ==>
      page.wordMapV2 == OccurrenceIndex(page.words) &&
      page.words == old(page.words) && page.wordMap == old(page.wordMap)
  {
    if page == null {
      return;
    }
    page.wordMapV2 := map[];
    for idx := 0 to |page.words|
      invariant page.words == old(page.words) && page.wordMap == old(page.wordMap)
      invariant page.wordMapV2 == OccurrenceIndex(page.words[..idx])
    {
      var w := page.words[idx];
      var wordList: seq<Word>;
      if w.text in page.wordMapV2 {
        wordList := page.wordMapV2[w.text];
      } else {
        wordList := [];
      }
      wordList := wordList + [w];
      OccurrenceIndexSnoc(page.words[..idx], w);
      assert page.words[..idx + 1] == page.words[..idx] + [w];
      page.wordMapV2 := page.wordMapV2[w.text := wordList];
    }
    assert page.words[..|page.words|] == page.words;
  }
}
