/** The three page matchers of solution/search.go, together with the binary search of Go's
    `sort.Search` that two of them use. Each matcher answers whether the space-separated
    tokens of a supplier name occur on one page. */
module Matcher {
  import opened Wrappers
  import opened Layout

  // ---------------------------------------------------------------------------------------
  // Subsequences
  // ---------------------------------------------------------------------------------------

  /** `idx` places every token of `a` at an index of `b` holding it, at strictly increasing
      indices. */
  ghost predicate Embeds(a: seq<string>, b: seq<string>, idx: seq<int>)
  {
    && |idx| == |a|
    && (forall k :: 0 <= k < |idx| ==> 0 <= idx[k] < |b| && b[idx[k]] == a[k])
    && (forall k, l :: 0 <= k < l < |idx| ==> idx[k] < idx[l])
  }

  /** `a` is a (not necessarily contiguous) subsequence of `b`. */
  ghost predicate IsSubsequence(a: seq<string>, b: seq<string>)
  {
    exists idx :: Embeds(a, b, idx)
  }

  /** The greedy left-to-right scan: the first token of `a` is matched against the first
      element of `b` that equals it. */
  function Greedy(a: seq<string>, b: seq<string>): bool
    decreases |b|
  {
    if a == [] then true
    else if b == [] then false
    else if a[0] == b[0] then Greedy(a[1..], b[1..])
    else Greedy(a, b[1..])
  }

  function Shift(idx: seq<int>, d: int): seq<int>
  {
    seq(|idx|, k requires 0 <= k < |idx| => idx[k] + d)
  }

  /** When the greedy scan succeeds, it has found an embedding. */
  lemma {:induction false} GreedyWitness(a: seq<string>, b: seq<string>) returns (idx: seq<int>)
    requires Greedy(a, b)
    ensures Embeds(a, b, idx)
    decreases |b|
  {
    if a == [] {
      idx := [];
    } else if a[0] == b[0] {
      var rest := GreedyWitness(a[1..], b[1..]);
      idx := [0] + Shift(rest, 1);
      forall k | 0 <= k < |idx| ensures 0 <= idx[k] < |b| && b[idx[k]] == a[k] {
        if k > 0 {
          assert idx[k] == rest[k - 1] + 1;
        }
      }
    } else {
      var rest := GreedyWitness(a, b[1..]);
      idx := Shift(rest, 1);
    }
  }

  /** Whenever an embedding exists, the greedy scan succeeds. */
  lemma {:induction false} EmbedsGreedy(a: seq<string>, b: seq<string>, idx: seq<int>)
    requires Embeds(a, b, idx)
    ensures Greedy(a, b)
    decreases |b|
  {
    if a != [] {
      assert 0 <= idx[0] < |b|;
      if a[0] == b[0] {
        var rest := Shift(idx[1..], -1);
        forall k | 0 <= k < |rest| ensures 0 <= rest[k] < |b[1..]| && b[1..][rest[k]] == a[1..][k] {
          assert idx[0] < idx[k + 1];
        }
        EmbedsGreedy(a[1..], b[1..], rest);
      } else {
        var rest := Shift(idx, -1);
        forall k | 0 <= k < |rest| ensures 0 <= rest[k] < |b[1..]| && b[1..][rest[k]] == a[k] {
          if k > 0 {
            assert idx[0] < idx[k];
          }
        }
        EmbedsGreedy(a, b[1..], rest);
      }
    }
  }

  /** The greedy scan decides the subsequence relation. */
  lemma GreedyIsSubsequence(a: seq<string>, b: seq<string>)
    ensures Greedy(a, b) <==> IsSubsequence(a, b)
  {
    if Greedy(a, b) {
      var idx := GreedyWitness(a, b);
    }
    if IsSubsequence(a, b) {
      var idx :| Embeds(a, b, idx);
      EmbedsGreedy(a, b, idx);
    }
  }

  /** Elements that differ from the first token can be skipped by the greedy scan. */
  lemma {:induction false} GreedySkip(a: seq<string>, b: seq<string>, i: nat, j: nat)
    requires a != [] && i <= j <= |b|
    requires forall k :: i <= k < j ==> b[k] != a[0]
    ensures Greedy(a, b[i..]) == Greedy(a, b[j..])
    decreases j - i
  {
    if i < j {
      assert b[i..][1..] == b[i + 1..];
      GreedySkip(a, b, i + 1, j);
    }
  }

  // ---------------------------------------------------------------------------------------
  // matchSupplierNameInPage (V1)
  // ---------------------------------------------------------------------------------------

  /** The page exists, neither the name nor the page is empty, and the name tokens form a
      subsequence of the page's word texts. */
  ghost predicate MatchesV1(nameTokens: seq<string>, page: Page?)
    reads page
  {
    page != null && |nameTokens| > 0 && |page.words| > 0 && IsSubsequence(nameTokens, Texts(page.words))
  }

  /** `matchSupplierNameInPage`: the two-index scan answers `MatchesV1`. */
  method MatchSupplierNameInPage(nameTokens: seq<string>, page: Page?) returns (canMatch: bool)
    ensures canMatch <==> MatchesV1(nameTokens, page)
  {
    if page == null {
      return false;
    }
    var lenName := |nameTokens|;
    var lenPage := |page.words|;
    if lenName == 0 || lenPage == 0 {
      return false;
    }
    ghost var texts := Texts(page.words);
    var idxName, idxWord := 0, 0;
    while idxName < lenName && idxWord < lenPage
      invariant 0 <= idxName <= lenName && 0 <= idxWord <= lenPage
      invariant Greedy(nameTokens[idxName..], texts[idxWord..]) == Greedy(nameTokens, texts)
      decreases lenPage - idxWord
    {
      assert texts[idxWord..][0] == page.words[idxWord].text;
      assert texts[idxWord..][1..] == texts[idxWord + 1..];
      assert nameTokens[idxName..][1..] == nameTokens[idxName + 1..];
      if nameTokens[idxName] == page.words[idxWord].text {
        idxName := idxName + 1;
      }
      idxWord := idxWord + 1;
    }
    canMatch := idxName == lenName;
    GreedyIsSubsequence(nameTokens, texts);
  }

  // ---------------------------------------------------------------------------------------
  // sort.Search and sort.SearchInts
  // ---------------------------------------------------------------------------------------

  /** Go's `sort.Search(n, f)`: for an `f` that is false and then true on `[0, n)`, the
      binary search returns the first index where it holds, or `n` if there is none. */
  method SortSearch(n: nat, f: nat -> bool) returns (r: nat)
    requires forall i, j :: 0 <= i <= j < n && f(i) ==> f(j)
    ensures r <= n
    ensures forall i :: 0 <= i < r ==> !f(i)
    ensures forall i :: r <= i < n ==> f(i)
  {
    var i, j := 0, n;
    while i < j
      invariant 0 <= i <= j <= n
      invariant forall k :: 0 <= k < i ==> !f(k)
      invariant forall k :: j <= k < n ==> f(k)
    {
      var h := (i + j) / 2;
      if !f(h) {
        i := h + 1;
      } else {
        j := h;
      }
    }
    return i;
  }

  /** The list never decreases, as `sort.SearchInts` demands. */
  predicate NonDecreasing(list: seq<int>)
  {
    forall k, l :: 0 <= k < l < |list| ==> list[k] <= list[l]
  }

  /** Go's `sort.SearchInts(list, x)`: the index of the first element at least `x`, or the
      length of the list if there is none. */
  method SortSearchInts(list: seq<int>, x: int) returns (r: nat)
    requires NonDecreasing(list)
    ensures r <= |list|
    ensures forall k :: 0 <= k < r ==> list[k] < x
    ensures forall k :: r <= k < |list| ==> list[k] >= x
  {
    var atLeast := (i: nat) => i < |list| && list[i] >= x;
    r := SortSearch(|list|, atLeast);
    assert forall k :: 0 <= k < |list| ==> atLeast(k) == (list[k] >= x);
  }

  // ---------------------------------------------------------------------------------------
  // matchSupplierNameInPageV2
  // ---------------------------------------------------------------------------------------

  /** The first listed position after the cursor `cur`. */
  function NextPos(list: seq<int>, cur: int): Option<int>
  {
    if list == [] then None
    else if list[0] > cur then Some(list[0])
    else NextPos(list[1..], cur)
  }

  /** On a non-decreasing list, `NextPos` is the smallest listed position strictly greater
      than the cursor, and there is none exactly when it is `None`. */
  lemma {:induction false} NextPosIsLeast(list: seq<int>, cur: int)
    requires NonDecreasing(list)
    ensures NextPos(list, cur).None? <==> forall q :: q in list ==> q <= cur
    ensures NextPos(list, cur).Some? ==>
      var p := NextPos(list, cur).value;
      p in list && p > cur && forall q :: q in list && q > cur ==> p <= q
  {
    if list != [] {
      if list[0] <= cur {
        NextPosIsLeast(list[1..], cur);
        assert NextPos(list, cur) == NextPos(list[1..], cur);
        assert forall q :: q in list <==> q == list[0] || q in list[1..];
      } else {
        assert list[0] in list;
        assert forall q :: q in list ==> list[0] <= q;
      }
    }
  }

  /** The answer of `sort.SearchInts(list, cur + 1)` is the position `NextPos` picks. */
  lemma {:induction false} SearchIntsFindsNextPos(list: seq<int>, cur: int, r: nat)
    requires NonDecreasing(list) && r <= |list|
    requires forall k :: 0 <= k < r ==> list[k] < cur + 1
    requires forall k :: r <= k < |list| ==> list[k] >= cur + 1
    ensures NextPos(list, cur) == if r == |list| then None else Some(list[r])
  {
    if list != [] && list[0] <= cur {
      SearchIntsFindsNextPos(list[1..], cur, r - 1);
    }
  }

  /** The cursor walk of `matchSupplierNameInPageV2` from cursor `cur`: each token moves
      the cursor to the next position listed for it, and fails when there is none. */
  function MatchV2From(name: seq<string>, wordMap: map<string, seq<int>>, cur: int): bool
    decreases |name|
  {
    if name == [] then true
    else if name[0] !in wordMap then false
    else match NextPos(wordMap[name[0]], cur)
      case None => false
      case Some(p) => MatchV2From(name[1..], wordMap, p)
  }

  /** The page exists, neither the name nor `WordMap` is empty, and the cursor walk from
      before the first position succeeds. */
  predicate MatchesV2(nameTokens: seq<string>, page: Page?)
    reads page
  {
    page != null && |nameTokens| > 0 && |page.wordMap| > 0 && MatchV2From(nameTokens, page.wordMap, -1)
  }

  /** Every position list of the page is sorted, as `sort.SearchInts` requires. */
  predicate SearchableV2(page: Page?)
    reads page
  {
    page != null ==> forall t :: t in page.wordMap ==> NonDecreasing(page.wordMap[t])
  }

  /** `matchSupplierNameInPageV2`: false for a missing page, an empty name or an empty
      `WordMap`; otherwise the cursor walk from before the first position decides. */
  method MatchSupplierNameInPageV2(nameTokens: seq<string>, page: Page?) returns (canMatch: bool)
    requires SearchableV2(page)
    ensures canMatch <==> MatchesV2(nameTokens, page)
  {
    if page == null {
      return false;
    }
    if |nameTokens| == 0 || |page.wordMap| == 0 {
      return false;
    }
    var idxWord := -1;
    for n := 0 to |nameTokens|
      invariant MatchV2From(nameTokens[n..], page.wordMap, idxWord) == MatchV2From(nameTokens, page.wordMap, -1)
    {
      var token := nameTokens[n];
      assert nameTokens[n..][0] == token && nameTokens[n..][1..] == nameTokens[n + 1..];
      if token !in page.wordMap {
        return false;
      }
      var wordList := page.wordMap[token];
      var res := SortSearchInts(wordList, idxWord + 1);
      SearchIntsFindsNextPos(wordList, idxWord, res);
      if res == |wordList| {
        return false;
      }
      idxWord := wordList[res];
    }
    return true;
  }

  /** When the first token occurs nowhere after `cur`, the greedy scan of the texts after
      `cur` fails. */
  lemma NoNextPos(name: seq<string>, ws: seq<Word>, cur: int)
    requires name != [] && -1 <= cur < |ws|
    requires NextPos(Positions(ws, name[0]), cur).None?
    ensures !Greedy(name, Texts(ws)[cur + 1..])
  {
    var t, texts := name[0], Texts(ws);
    PositionsExact(ws, t);
    NextPosIsLeast(Positions(ws, t), cur);
    forall k | cur + 1 <= k < |texts| ensures texts[k] != t {
      assert texts[k] == ws[k].text;
    }
    GreedySkip(name, texts, cur + 1, |texts|);
  }

  /** When the next occurrence of the first token after `cur` is at `p`, the greedy scan
      of the texts after `cur` takes it and goes on after `p`. */
  lemma AtNextPos(name: seq<string>, ws: seq<Word>, cur: int, p: int)
    requires name != [] && -1 <= cur < |ws|
    requires NextPos(Positions(ws, name[0]), cur) == Some(p)
    ensures cur < p < |ws| && Greedy(name, Texts(ws)[cur + 1..]) == Greedy(name[1..], Texts(ws)[p + 1..])
  {
    var t, texts := name[0], Texts(ws);
    PositionsExact(ws, t);
    NextPosIsLeast(Positions(ws, t), cur);
    forall k | cur + 1 <= k < p ensures texts[k] != t {
      assert texts[k] == ws[k].text;
    }
    GreedySkip(name, texts, cur + 1, p);
    assert texts[p..][0] == t && texts[p..][1..] == texts[p + 1..];
  }

  /** A text absent from the page has no positions. */
  lemma {:induction false} AbsentPositions(ws: seq<Word>, t: string)
    requires t !in Texts(ws)
    ensures Positions(ws, t) == []
  {
    if ws != [] {
      var init := ws[..|ws| - 1];
      forall i | 0 <= i < |init| ensures Texts(init)[i] == Texts(ws)[i] { }
      assert Texts(ws)[|ws| - 1] == ws[|ws| - 1].text;
      AbsentPositions(init, t);
    }
  }

  /** On a page whose `WordMap` was built from its own words, the cursor walk from `cur`
      agrees with the greedy scan of the texts after `cur`. */
  lemma {:induction false} MatchV2FromIsGreedy(name: seq<string>, ws: seq<Word>, cur: int)
    requires -1 <= cur < |ws|
    ensures MatchV2From(name, PositionIndex(ws), cur) == Greedy(name, Texts(ws)[cur + 1..])
    decreases |name|
  {
    if name != [] {
      var t := name[0];
      if t !in PositionIndex(ws) {
        AbsentPositions(ws, t);
        NoNextPos(name, ws, cur);
      } else {
        match NextPos(Positions(ws, t), cur)
        case None =>
          NoNextPos(name, ws, cur);
        case Some(p) =>
          AtNextPos(name, ws, cur, p);
          MatchV2FromIsGreedy(name[1..], ws, p);
      }
    }
  }

  /** With `WordMap` built from the page's own words, V2 gives the same answer as V1. */
  lemma V2AgreesWithV1(name: seq<string>, ws: seq<Word>)
    ensures (|name| > 0 && |PositionIndex(ws)| > 0 && MatchV2From(name, PositionIndex(ws), -1))
        <==> (|name| > 0 && |ws| > 0 && IsSubsequence(name, Texts(ws)))
  {
    if |ws| > 0 {
      assert Texts(ws)[0] in PositionIndex(ws);
    }
    MatchV2FromIsGreedy(name, ws, -1);
    assert Texts(ws)[0..] == Texts(ws);
    GreedyIsSubsequence(name, Texts(ws));
  }

  // ---------------------------------------------------------------------------------------
  // matchSupplierNameInPageV3
  // ---------------------------------------------------------------------------------------

  /** There is no start word, or `w` sorts strictly after it in (line, position) order. */
  predicate After(start: Option<Word>, w: Word)
  {
    start.None? || Before(start.value, w)
  }

  /** There is no start word, or `w` lies on its line or an earlier one, or the next one. */
  predicate Near(start: Option<Word>, w: Word)
  {
    start.None? || w.lineId <= start.value.lineId + 1
  }

  /** What `matchSupplierNameInPageV3` accepts after `start`: the empty name always; else
      a record for the first token that comes after `start` and at most one line below it,
      from which the remaining tokens are accepted. */
  function AcceptsV3(name: seq<string>, wordMapV2: map<string, seq<Word>>, start: Option<Word>): bool
    decreases |name|
  {
    if name == [] then true
    else if |wordMapV2| == 0 || name[0] !in wordMapV2 then false
    else exists w :: w in wordMapV2[name[0]] && After(start, w) && Near(start, w) &&
                     AcceptsV3(name[1..], wordMapV2, Some(w))
  }

  /** Every record list of the page is sorted by (line, position), the order in which the
      binary search of `sort.Search` looks for the first record after the start word. */
  predicate SearchableV3(page: Page?)
    reads page
  {
    page != null ==> forall t :: t in page.wordMapV2 ==> Sorted(page.wordMapV2[t])
  }

  /** `matchSupplierNameInPageV3`: false for a missing page; otherwise what `AcceptsV3`
      says. */
  method MatchSupplierNameInPageV3(nameTokens: seq<string>, page: Page?, startWord: Option<Word>)
    returns (canMatch: bool)
    requires SearchableV3(page)
    ensures canMatch <==> page != null && AcceptsV3(nameTokens, page.wordMapV2, startWord)
    decreases |nameTokens|
  {
    if page == null {
      return false;
    }
    if |nameTokens| == 0 {
      return true;
    }
    if |page.wordMapV2| == 0 {
      return false;
    }
    var token := nameTokens[0];
    if token !in page.wordMapV2 {
      return false;
    }
    var wordList := page.wordMapV2[token];
    var after := (i: nat) => i < |wordList| && After(startWord, wordList[i]);
    var res := SortSearch(|wordList|, after);
    assert forall k :: 0 <= k < |wordList| ==> after(k) == After(startWord, wordList[k]);
    if res == |wordList| {
      return false;
    }
    for i := res to |wordList|
      invariant forall k :: res <= k < i ==>
        !(Near(startWord, wordList[k]) && AcceptsV3(nameTokens[1..], page.wordMapV2, Some(wordList[k])))
    {
      var nextStartWord := wordList[i];
      if startWord.None? || startWord.value.lineId + 1 >= nextStartWord.lineId {
        canMatch := MatchSupplierNameInPageV3(nameTokens[1..], page, Some(nextStartWord));
        if canMatch {
          return true;
        }
      }
    }
    forall w | w in wordList
      ensures !(After(startWord, w) && Near(startWord, w) && AcceptsV3(nameTokens[1..], page.wordMapV2, Some(w)))
    {
      var k :| 0 <= k < |wordList| && wordList[k] == w;
    }
    return false;
  }

  /** `idx` embeds the name in the texts of `ws`, and each matched word comes strictly
      after the previous one and at most one line below it. */
  ghost predicate LinkedEmbedding(name: seq<string>, ws: seq<Word>, idx: seq<int>)
  {
    && Embeds(name, Texts(ws), idx)
    && (forall k :: 0 <= k < |idx| - 1 ==>
          After(Some(ws[idx[k]]), ws[idx[k + 1]]) && Near(Some(ws[idx[k]]), ws[idx[k + 1]]))
  }

  /** In a sorted sequence, a word that sorts strictly before another comes earlier. */
  lemma SortedBefore(ws: seq<Word>, i: nat, j: nat)
    requires Sorted(ws) && i < |ws| && j < |ws|
    requires Before(ws[i], ws[j])
    ensures i < j
  {
  }

  /** A linked embedding of the tail extends to the whole name by a word for its first
      token that precedes and links to the tail's first word. */
  lemma LinkedCons(name: seq<string>, ws: seq<Word>, p: nat, rest: seq<int>)
    requires name != [] && p < |ws| && ws[p].text == name[0]
    requires LinkedEmbedding(name[1..], ws, rest)
    requires |rest| > 0 ==> p < rest[0] && After(Some(ws[p]), ws[rest[0]]) && Near(Some(ws[p]), ws[rest[0]])
    ensures LinkedEmbedding(name, ws, [p] + rest)
  {
    var idx := [p] + rest;
    assert Texts(ws)[p] == name[0];
    forall k, l | 0 <= k < l < |idx| ensures idx[k] < idx[l] {
      if k > 0 {
        assert rest[k - 1] < rest[l - 1];
      } else if l > 1 {
        assert rest[0] < rest[l - 1];
      }
    }
    forall k | 0 <= k < |idx| - 1
      ensures After(Some(ws[idx[k]]), ws[idx[k + 1]]) && Near(Some(ws[idx[k]]), ws[idx[k + 1]])
    {
      if k > 0 {
        assert idx[k] == rest[k - 1] && idx[k + 1] == rest[k];
      }
    }
  }

  /** On a sorted page whose `WordMapV2` was built from its own words, what V3 accepts
      after `start` is matched by a linked embedding whose first word fits `start`. */
  lemma {:induction false} V3Witness(name: seq<string>, ws: seq<Word>, start: Option<Word>)
    returns (idx: seq<int>)
    requires Sorted(ws)
    requires AcceptsV3(name, OccurrenceIndex(ws), start)
    ensures LinkedEmbedding(name, ws, idx)
    ensures |idx| > 0 ==> After(start, ws[idx[0]]) && Near(start, ws[idx[0]])
    decreases |name|
  {
    if name == [] {
      return [];
    }
    var wm := OccurrenceIndex(ws);
    var w :| w in wm[name[0]] && After(start, w) && Near(start, w) && AcceptsV3(name[1..], wm, Some(w));
    OccurrenceIndexSorted(ws);
    var p :| 0 <= p < |ws| && ws[p] == w;
    var rest := V3Witness(name[1..], ws, Some(w));
    if |rest| > 0 {
      SortedBefore(ws, p, rest[0]);
    }
    LinkedCons(name, ws, p, rest);
    idx := [p] + rest;
  }

  /** Conversely, a linked embedding whose first word fits `start` is accepted by V3 on the
      index built from the same words. */
  lemma {:induction false} LinkedEmbeddingAccepted(name: seq<string>, ws: seq<Word>, idx: seq<int>, start: Option<Word>)
    requires LinkedEmbedding(name, ws, idx)
    requires |idx| > 0 ==> After(start, ws[idx[0]]) && Near(start, ws[idx[0]])
    ensures AcceptsV3(name, OccurrenceIndex(ws), start)
    decreases |name|
  {
    if name != [] {
      var wm := OccurrenceIndex(ws);
      var w := ws[idx[0]];
      var t := name[0];
      assert Texts(ws)[idx[0]] == t;
      assert t in wm;
      PositionsExact(ws, t);
      OccurrencesAtPositions(ws, t);
      var k :| 0 <= k < |Positions(ws, t)| && Positions(ws, t)[k] == idx[0];
      assert w == wm[t][k];
      var rest := idx[1..];
      assert LinkedEmbedding(name[1..], ws, rest) by {
        forall k | 0 <= k < |rest| - 1
          ensures After(Some(ws[rest[k]]), ws[rest[k + 1]]) && Near(Some(ws[rest[k]]), ws[rest[k + 1]])
        {
          assert rest[k] == idx[k + 1] && rest[k + 1] == idx[k + 2];
        }
      }
      LinkedEmbeddingAccepted(name[1..], ws, rest, Some(w));
    }
  }

  /** On a sorted page, V3 over the index built from its words accepts a name exactly when
      the name has a linked embedding in the page. */
  lemma V3AcceptsLinkedEmbeddings(name: seq<string>, ws: seq<Word>)
    requires Sorted(ws)
    ensures AcceptsV3(name, OccurrenceIndex(ws), None) <==> exists idx :: LinkedEmbedding(name, ws, idx)
  {
    if AcceptsV3(name, OccurrenceIndex(ws), None) {
      var idx := V3Witness(name, ws, None);
    }
    if exists idx :: LinkedEmbedding(name, ws, idx) {
      var idx :| LinkedEmbedding(name, ws, idx);
      LinkedEmbeddingAccepted(name, ws, idx, None);
    }
  }

  /** Whatever V3 accepts on a sorted page, V1 accepts as well. */
  lemma V3RefinesV1(name: seq<string>, ws: seq<Word>)
    requires Sorted(ws) && |name| > 0
    requires AcceptsV3(name, OccurrenceIndex(ws), None)
    ensures |ws| > 0 && IsSubsequence(name, Texts(ws))
  {
    var idx := V3Witness(name, ws, None);
    assert 0 <= idx[0] < |Texts(ws)|;
  }
}
