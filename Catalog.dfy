/** The supplier catalog index of solution/main.go. `BuildIndex` groups the suppliers by the
    first word of their names and writes the groups out as contiguous blocks of `id,name`
    lines, remembering where each group's block starts; `filterPotentialSuppliersForPage`
    seeks to that offset for every page word that is a key and reads one line back. The
    flattened `.indexed` file is a string here and the `.idx` JSON map a Dafny map. */
module Catalog {
  import opened Wrappers
  import opened Text
  import opened Layout
  import opened SupplierSearch

  // ---------------------------------------------------------------------------------------
  // Grouping by first word (BuildIndex, first loop)
  // ---------------------------------------------------------------------------------------

  /** The group key of a supplier: element 0 of `strings.Split(name, " ")`, which is `""`
      for an empty name. */
  function Key(s: Supplier): string
  {
    FirstWord(s.name)
  }

  /** The suppliers whose key is `k`, in list order. */
  function GroupOf(ss: seq<Supplier>, k: string): seq<Supplier>
  {
    if ss == [] then []
    else GroupOf(ss[..|ss| - 1], k) + (if Key(ss[|ss| - 1]) == k then [ss[|ss| - 1]] else [])
  }

  /** The keys the suppliers fall under. */
  function Keys(ss: seq<Supplier>): set<string>
  {
    set s | s in ss :: Key(s)
  }

  /** `m` is `supplierMap` for `ss`: one entry per key, holding that key's group. */
  ghost predicate IsGroupMap(m: map<string, seq<Supplier>>, ss: seq<Supplier>)
  {
    m.Keys == Keys(ss) && forall k :: k in m ==> m[k] == GroupOf(ss, k)
  }

  /** A group holds exactly the suppliers with its key, and every key has a non-empty
      group. */
  lemma {:induction false} GroupOfIsFilter(ss: seq<Supplier>, k: string)
    ensures forall s :: s in GroupOf(ss, k) <==> s in ss && Key(s) == k
    ensures GroupOf(ss, k) != [] <==> k in Keys(ss)
  {
    if ss != [] {
      var init, last := ss[..|ss| - 1], ss[|ss| - 1];
      GroupOfIsFilter(init, k);
      assert ss == init + [last];
      if k in Keys(ss) && Key(last) != k {
        var s :| s in ss && Key(s) == k;
        assert s in init;
      }
    }
  }

  lemma KeysSnoc(ss: seq<Supplier>, s: Supplier)
    ensures Keys(ss + [s]) == Keys(ss) + {Key(s)}
  {
    assert forall x :: x in ss + [s] <==> x in ss || x == s;
  }

  // ---------------------------------------------------------------------------------------
  // Blocks and offsets (BuildIndex, second loop)
  // ---------------------------------------------------------------------------------------

  /** `fmt.Sprintf("%s,%s\n", Id, SupplierName)`: one line of the flattened file. */
  function Line(s: Supplier): string
  {
    s.id + "," + s.name + "\n"
  }

  /** A group's block: its lines in group order. */
  function Block(group: seq<Supplier>): string
  {
    if group == [] then "" else Block(group[..|group| - 1]) + Line(group[|group| - 1])
  }

  /** The flattened file: the blocks of the groups keyed by `order`, one after another. */
  function Blocks(ss: seq<Supplier>, order: seq<string>): string
  {
    if order == [] then "" else Blocks(ss, order[..|order| - 1]) + Block(GroupOf(ss, order[|order| - 1]))
  }

  /** No key is listed twice. */
  predicate Distinct(order: seq<string>)
  {
    forall a, b :: 0 <= a < b < |order| ==> order[a] != order[b]
  }

  /** `order` is an order in which Go may range over `supplierMap`: every key exactly once. */
  ghost predicate KeyOrder(ss: seq<Supplier>, order: seq<string>)
  {
    Distinct(order) && forall k :: k in order <==> k in Keys(ss)
  }

  /** `indexMap` after writing the blocks of the keys in `order`: each key mapped to the
      length of what was written before its block. */
  function Offsets(ss: seq<Supplier>, order: seq<string>): map<string, nat>
  {
    if order == [] then map[]
    else
      var init := order[..|order| - 1];
      Offsets(ss, init)[order[|order| - 1] := |Blocks(ss, init)|]
  }

  /** `file` and `index` are what `BuildIndex` writes for `ss` when it ranges over the keys
      in `order`. */
  ghost predicate IsBuilt(ss: seq<Supplier>, order: seq<string>, file: string, index: map<string, nat>)
  {
    KeyOrder(ss, order) && file == Blocks(ss, order) && index == Offsets(ss, order)
  }

  /** `BuildIndex`: groups the suppliers by first word, then writes each group's block,
      ranging over the groups in `order` (Go's map iteration order), and records each
      block's starting offset. */
  method BuildIndex(suppliers: seq<Supplier>, order: seq<string>) returns (file: string, index: map<string, nat>)
    requires KeyOrder(suppliers, order)
    ensures IsBuilt(suppliers, order, file, index)
    ensures index.Keys == Keys(suppliers)
  {
    var supplierMap := GroupByFirstWord(suppliers);
    file, index := WriteBlocks(suppliers, supplierMap, order);
    OffsetsKeys(suppliers, order);
  }

  /** The first loop of `BuildIndex`: `supplierMap`, appending each supplier to the group
      of its first word. */
  method GroupByFirstWord(suppliers: seq<Supplier>) returns (supplierMap: map<string, seq<Supplier>>)
    ensures IsGroupMap(supplierMap, suppliers)
  {
    supplierMap := map[];
    for i := 0 to |suppliers|
      invariant IsGroupMap(supplierMap, suppliers[..i])
    {
      var supplier := suppliers[i];
      var firstName := FirstWord(supplier.name);
      var group: seq<Supplier> := if firstName in supplierMap then supplierMap[firstName] else [];
      GroupMapStep(supplierMap, suppliers, i);
      supplierMap := supplierMap[firstName := group + [supplier]];
    }
    assert suppliers[..|suppliers|] == suppliers;
  }

  /** The second loop of `BuildIndex`: each group's lines, block after block in `order`,
      with `currentIdx` counting what has been written. */
  method WriteBlocks(suppliers: seq<Supplier>, supplierMap: map<string, seq<Supplier>>, order: seq<string>)
    returns (file: string, index: map<string, nat>)
    requires IsGroupMap(supplierMap, suppliers) && KeyOrder(suppliers, order)
    ensures file == Blocks(suppliers, order) && index == Offsets(suppliers, order)
  {
    file := "";
    index := map[];
    var currentIdx: nat := 0;
    for i := 0 to |order|
      invariant file == Blocks(suppliers, order[..i]) && currentIdx == |file|
      invariant index == Offsets(suppliers, order[..i])
    {
      var firstName := order[i];
      var buf := WriteGroup(supplierMap[firstName]);
      OrderSnoc(suppliers, order, i);
      file := file + buf;
      index := index[firstName := currentIdx];
      currentIdx := currentIdx + |buf|;
    }
    assert order[..|order|] == order;
  }

  /** The buffer of one group: each supplier's line written in group order. */
  method WriteGroup(group: seq<Supplier>) returns (buf: string)
    ensures buf == Block(group)
  {
    buf := "";
    for j := 0 to |group|
      invariant buf == Block(group[..j])
    {
      assert group[..j + 1][..j] == group[..j];
      buf := buf + Line(group[j]);
    }
    assert group[..|group|] == group;
  }

  /** Adding the next supplier to the group of its first word keeps `supplierMap` the
      grouping of the suppliers seen so far. */
  lemma GroupMapStep(m: map<string, seq<Supplier>>, ss: seq<Supplier>, i: nat)
    requires i < |ss| && IsGroupMap(m, ss[..i])
    ensures var k := FirstWord(ss[i].name);
      IsGroupMap(m[k := (if k in m then m[k] else []) + [ss[i]]], ss[..i + 1])
  {
    var init, s := ss[..i], ss[i];
    var k := Key(s);
    assert ss[..i + 1] == init + [s];
    var m' := m[k := (if k in m then m[k] else []) + [s]];
    KeysSnoc(init, s);
    forall k' | k' in m' ensures m'[k'] == GroupOf(init + [s], k') {
      assert (init + [s])[..|init|] == init;
      if k' == k && k !in m {
        GroupOfIsFilter(init, k);
      }
    }
  }

  /** One more key of the order adds its block to the file and its offset to the index. */
  lemma OrderSnoc(ss: seq<Supplier>, order: seq<string>, i: nat)
    requires i < |order|
    ensures Blocks(ss, order[..i + 1]) == Blocks(ss, order[..i]) + Block(GroupOf(ss, order[i]))
    ensures Offsets(ss, order[..i + 1]) == Offsets(ss, order[..i])[order[i] := |Blocks(ss, order[..i])|]
  {
    assert order[..i + 1][..i] == order[..i];
  }

  /** The offset recorded for the `i`-th key is the length of the blocks before it. */
  lemma {:induction false} OffsetOfKey(ss: seq<Supplier>, order: seq<string>, i: nat)
    requires Distinct(order) && i < |order|
    ensures order[i] in Offsets(ss, order) && Offsets(ss, order)[order[i]] == |Blocks(ss, order[..i])|
  {
    var init := order[..|order| - 1];
    if i < |order| - 1 {
      assert Distinct(init) by {
        forall a, b | 0 <= a < b < |init| ensures init[a] != init[b] {
          assert init[a] == order[a] && init[b] == order[b];
        }
      }
      OffsetOfKey(ss, init, i);
      assert init[..i] == order[..i];
      assert order[i] != order[|order| - 1];
    }
  }

  /** Every key gets exactly one index entry and nothing else gets one. */
  lemma {:induction false} OffsetsKeys(ss: seq<Supplier>, order: seq<string>)
    ensures Offsets(ss, order).Keys == set k | k in order
  {
    if order != [] {
      var init := order[..|order| - 1];
      OffsetsKeys(ss, init);
      assert order == init + [order[|order| - 1]];
    }
  }

  /** A non-empty group's block begins with the line of its first member. */
  lemma {:induction false} BlockStartsWithHead(group: seq<Supplier>)
    requires group != []
    ensures Block(group) == Line(group[0]) + Block(group[1..])
  {
    var n := |group|;
    if n > 1 {
      var init, rest := group[..n - 1], group[1..];
      BlockStartsWithHead(init);
      assert init[0] == group[0];
      assert rest[..n - 2] == init[1..];
      assert Block(rest) == Block(init[1..]) + Line(group[n - 1]);
      calc {
        Block(group);
        Block(init) + Line(group[n - 1]);
        (Line(group[0]) + Block(init[1..])) + Line(group[n - 1]);
        Line(group[0]) + (Block(init[1..]) + Line(group[n - 1]));
      }
    } else {
      assert group[1..] == [];
      assert group[..0] == [];
    }
  }

  /** The blocks of a prefix of the key order are a prefix of the blocks of the whole. */
  lemma {:induction false} BlocksPrefix(ss: seq<Supplier>, order: seq<string>, n: nat)
    requires n <= |order|
    ensures Blocks(ss, order[..n]) <= Blocks(ss, order)
    decreases |order|
  {
    if n < |order| {
      var init := order[..|order| - 1];
      BlocksPrefix(ss, init, n);
      assert init[..n] == order[..n];
    } else {
      assert order[..n] == order;
    }
  }

  /** Every key's block lies in the file at the key's offset: blocks are contiguous. */
  lemma BlockAtOffset(ss: seq<Supplier>, order: seq<string>, file: string, index: map<string, nat>, i: nat)
    requires IsBuilt(ss, order, file, index) && i < |order|
    ensures order[i] in index
    ensures var off, b := index[order[i]], Block(GroupOf(ss, order[i]));
      off + |b| <= |file| && file[off..off + |b|] == b
  {
    OffsetOfKey(ss, order, i);
    var before, upTo := Blocks(ss, order[..i]), Blocks(ss, order[..i + 1]);
    var b := Block(GroupOf(ss, order[i]));
    assert order[..i + 1][..i] == order[..i];
    assert upTo == before + b;
    BlocksPrefix(ss, order, i + 1);
    assert file[..|upTo|] == upTo;
    assert file[|before|..|upTo|] == upTo[|before|..] == b;
  }

  /** A built index has an entry for exactly the keys. */
  lemma IndexKeys(ss: seq<Supplier>, order: seq<string>, file: string, index: map<string, nat>)
    requires IsBuilt(ss, order, file, index)
    ensures index.Keys == Keys(ss)
  {
    OffsetsKeys(ss, order);
  }

  /** Where a key of a built index sits in the key order. */
  lemma KeyPosition(ss: seq<Supplier>, order: seq<string>, file: string, index: map<string, nat>, k: string)
    returns (i: nat)
    requires IsBuilt(ss, order, file, index) && k in index
    ensures i < |order| && order[i] == k
  {
    OffsetsKeys(ss, order);
    i :| 0 <= i < |order| && order[i] == k;
  }

  /** A key's block is non-empty: its group holds at least one supplier. */
  lemma BlockNonEmpty(ss: seq<Supplier>, k: string)
    requires k in Keys(ss)
    ensures GroupOf(ss, k) != [] && |Block(GroupOf(ss, k))| > 0
  {
    GroupOfIsFilter(ss, k);
    BlockStartsWithHead(GroupOf(ss, k));
  }

  /** Everything written up to the end of the `i`-th block precedes the blocks after it. */
  lemma BlocksGrow(ss: seq<Supplier>, order: seq<string>, i: nat, j: nat)
    requires i < j <= |order|
    ensures |Blocks(ss, order[..i])| + |Block(GroupOf(ss, order[i]))| <= |Blocks(ss, order[..j])|
  {
    BlocksPrefix(ss, order[..j], i + 1);
    assert order[..j][..i + 1] == order[..i + 1];
    assert order[..i + 1][..i] == order[..i];
  }

  /** Offsets strictly increase along the key order and each lies inside the file: every
      block is non-empty and none overlaps the next. */
  lemma OffsetsIncrease(ss: seq<Supplier>, order: seq<string>, file: string, index: map<string, nat>, i: nat, j: nat)
    requires IsBuilt(ss, order, file, index) && i < j < |order|
    ensures order[i] in index && order[j] in index
    ensures index[order[i]] < index[order[j]] < |file|
  {
    BlockNonEmpty(ss, order[i]);
    BlockNonEmpty(ss, order[j]);
    OffsetOfKey(ss, order, i);
    OffsetOfKey(ss, order, j);
    BlocksGrow(ss, order, i, j);
    BlocksGrow(ss, order, j, |order|);
    assert order[..|order|] == order;
  }

  // ---------------------------------------------------------------------------------------
  // Reading one line back (bufio.Scanner after Seek) and parsing it (`(\d+),(.+)`)
  // ---------------------------------------------------------------------------------------

  /** Where the first line of `s` ends: the first '\n', or the end of `s`. */
  function LineEnd(s: string): (n: nat)
    ensures n <= |s|
    ensures forall i :: 0 <= i < n ==> s[i] != '\n'
    ensures n < |s| ==> s[n] == '\n'
  {
    if s == [] || s[0] == '\n' then 0 else 1 + LineEnd(s[1..])
  }

  /** `bufio.ScanLines` drops one trailing carriage return from a line. */
  function DropCR(s: string): string
  {
    if |s| > 0 && s[|s| - 1] == '\r' then s[..|s| - 1] else s
  }

  /** The first token `bufio.Scanner` yields after seeking to `off`: nothing at or past the
      end of the file, otherwise the text up to the next '\n' or the end, without one
      trailing '\r'. */
  function ReadLineAt(file: string, off: nat): (r: Option<string>)
    ensures r.None? <==> off >= |file|
    ensures r.Some? ==>
      && off < |file| && r.value <= file[off..]
      && (forall i :: 0 <= i < |r.value| ==> r.value[i] != '\n')
      && (|r.value| == LineEnd(file[off..]) ||
          (|r.value| + 1 == LineEnd(file[off..]) && file[off + |r.value|] == '\r'))
  {
    if off >= |file| then None else Some(DropCR(file[off..][..LineEnd(file[off..])]))
  }

  predicate IsDigit(c: char)
  {
    '0' <= c <= '9'
  }

  /** The end of the run of ASCII digits starting at `i`. */
  function DigitRunEnd(line: string, i: nat): (e: nat)
    requires i <= |line|
    ensures i <= e <= |line|
    ensures forall k :: i <= k < e ==> IsDigit(line[k])
    ensures e < |line| ==> !IsDigit(line[e])
    decreases |line| - i
  {
    if i < |line| && IsDigit(line[i]) then DigitRunEnd(line, i + 1) else i
  }

  /** `(\d+),(.+)` matches starting at `s`: the digit run from `s` is followed by a comma
      and at least one character other than '\n'. */
  predicate MatchesAt(line: string, s: nat)
    requires s < |line|
  {
    IsDigit(line[s]) &&
    var e := DigitRunEnd(line, s);
    e + 1 < |line| && line[e] == ',' && line[e + 1] != '\n'
  }

  /** The two submatches of the match starting at `s`: the digit run and what follows the
      comma up to the end of the line. */
  function Captures(line: string, s: nat): (c: (string, string))
    requires s < |line| && MatchesAt(line, s)
    ensures c.0 != [] && forall i :: 0 <= i < |c.0| ==> IsDigit(c.0[i])
    ensures c.1 != [] && forall i :: 0 <= i < |c.1| ==> c.1[i] != '\n'
  {
    var e := DigitRunEnd(line, s);
    (line[s..e], line[e + 1..][..LineEnd(line[e + 1..])])
  }

  /** `reg.FindStringSubmatch(line)` from position `s` on: the leftmost match. */
  function ParseFrom(line: string, s: nat): Option<(string, string)>
    requires s <= |line|
    decreases |line| - s
  {
    if s == |line| then None
    else if MatchesAt(line, s) then Some(Captures(line, s))
    else ParseFrom(line, s + 1)
  }

  /** The `(id, name)` submatches of a catalog line, or nothing when the line does not
      match (`len(match) != 3`). */
  function ParseLine(line: string): (r: Option<(string, string)>)
    ensures r.None? <==> forall p :: 0 <= p < |line| ==> !MatchesAt(line, p)
    ensures r.Some? ==>
      && r.value.0 != [] && (forall i :: 0 <= i < |r.value.0| ==> IsDigit(r.value.0[i]))
      && r.value.1 != [] && (forall i :: 0 <= i < |r.value.1| ==> r.value.1[i] != '\n')
  {
    ParseFromLeftmost(line, 0);
    ParseFrom(line, 0)
  }

  /** `ParseLine` finds the leftmost match: it answers nothing exactly when no position
      starts a match, and otherwise the captures of the first position that does. */
  lemma {:induction false} ParseFromLeftmost(line: string, s: nat)
    requires s <= |line|
    ensures ParseFrom(line, s).None? <==> forall p :: s <= p < |line| ==> !MatchesAt(line, p)
    ensures ParseFrom(line, s).Some? ==>
      exists p :: s <= p < |line| && MatchesAt(line, p) && ParseFrom(line, s).value == Captures(line, p) &&
        forall q :: s <= q < p ==> !MatchesAt(line, q)
    decreases |line| - s
  {
    if s < |line| && !MatchesAt(line, s) {
      ParseFromLeftmost(line, s + 1);
      if ParseFrom(line, s).Some? {
        var p :| s + 1 <= p < |line| && MatchesAt(line, p) && ParseFrom(line, s + 1).value == Captures(line, p) &&
          forall q :: s + 1 <= q < p ==> !MatchesAt(line, q);
        assert forall q :: s <= q < p ==> !MatchesAt(line, q);
      }
    }
  }

  /** What `loadSupplierNameFile` can produce and the line format can carry back: a
      non-empty all-digit identifier and a non-empty name without line breaks that does
      not end in a carriage return. */
  predicate ValidSupplier(s: Supplier)
  {
    && |s.id| > 0 && (forall i :: 0 <= i < |s.id| ==> IsDigit(s.id[i]))
    && |s.name| > 0 && (forall i :: 0 <= i < |s.name| ==> s.name[i] != '\n')
    && s.name[|s.name| - 1] != '\r'
  }

  /** The text of a valid supplier's line, before its '\n', has no line break. */
  lemma TextHasNoBreak(s: Supplier)
    requires ValidSupplier(s)
    ensures var text := s.id + "," + s.name;
      forall i :: 0 <= i < |text| ==> text[i] != '\n'
  {
    var text := s.id + "," + s.name;
    forall i | 0 <= i < |text| ensures text[i] != '\n' {
      if i < |s.id| { assert text[i] == s.id[i]; }
      else if i > |s.id| { assert text[i] == s.name[i - |s.id| - 1]; }
    }
  }

  /** Reading from where a valid supplier's line was written gives that line without its
      '\n', whatever follows it. */
  lemma ReadLineRoundTrip(s: Supplier, file: string, off: nat, rest: string)
    requires ValidSupplier(s) && off <= |file| && file[off..] == Line(s) + rest
    ensures ReadLineAt(file, off) == Some(s.id + "," + s.name)
  {
    var text := s.id + "," + s.name;
    var all := file[off..];
    assert all == text + "\n" + rest;
    TextHasNoBreak(s);
    assert forall i :: 0 <= i < |text| ==> all[i] == text[i];
    assert all[|text|] == '\n';
    assert LineEnd(all) == |text|;
    assert all[..|text|] == text;
    assert text[|text| - 1] == s.name[|s.name| - 1];
  }

  /** The identifier's digits end exactly at the comma of a valid supplier's line. */
  lemma DigitsEndAtComma(s: Supplier)
    requires ValidSupplier(s)
    ensures DigitRunEnd(s.id + "," + s.name, 0) == |s.id|
  {
    var text := s.id + "," + s.name;
    assert text[|s.id|] == ',';
    assert forall k :: 0 <= k < |s.id| ==> text[k] == s.id[k];
  }

  /** A valid supplier's line text parses back into its identifier and name. */
  lemma ParseRoundTrip(s: Supplier)
    requires ValidSupplier(s)
    ensures ParseLine(s.id + "," + s.name) == Some((s.id, s.name))
  {
    var text := s.id + "," + s.name;
    DigitsEndAtComma(s);
    assert text[|s.id| + 1..] == s.name;
    assert text[0] == s.id[0];
    assert text[|s.id| + 1] == s.name[0];
    assert MatchesAt(text, 0);
    assert LineEnd(s.name) == |s.name|;
    assert s.name[..|s.name|] == s.name;
    assert text[0..|s.id|] == s.id;
  }

  /** A slice of `file` known to equal `b` splits the suffix from its start. */
  lemma SuffixAt(file: string, off: nat, b: string)
    requires off + |b| <= |file| && file[off..off + |b|] == b
    ensures file[off..] == b + file[off + |b|..]
  {
  }

  /** Where a non-empty group's block was written, the file goes on with its first line. */
  lemma HeadAtBlock(file: string, off: nat, group: seq<Supplier>) returns (rest: string)
    requires group != [] && off + |Block(group)| <= |file| && file[off..off + |Block(group)|] == Block(group)
    ensures file[off..] == Line(group[0]) + rest
  {
    BlockStartsWithHead(group);
    SuffixAt(file, off, Block(group));
    rest := Block(group[1..]) + file[off + |Block(group)|..];
  }

  /** In a built index, the file from a key's offset on starts with the line of the first
      supplier of that key's group. */
  lemma HeadLineAt(ss: seq<Supplier>, order: seq<string>, file: string, index: map<string, nat>, k: string)
    returns (rest: string)
    requires IsBuilt(ss, order, file, index) && k in index
    ensures GroupOf(ss, k) != [] && GroupOf(ss, k)[0] in ss && index[k] < |file|
    ensures file[index[k]..] == Line(GroupOf(ss, k)[0]) + rest
  {
    IndexKeys(ss, order, file, index);
    GroupHead(ss, k);
    var i := KeyPosition(ss, order, file, index, k);
    BlockAtOffset(ss, order, file, index, i);
    rest := HeadAtBlock(file, index[k], GroupOf(ss, k));
  }

  /** A key's group is non-empty and its first member is in the catalog. */
  lemma GroupHead(ss: seq<Supplier>, k: string)
    requires k in Keys(ss)
    ensures GroupOf(ss, k) != [] && GroupOf(ss, k)[0] in ss
  {
    GroupOfIsFilter(ss, k);
    assert GroupOf(ss, k)[0] in GroupOf(ss, k);
  }

  /** With a built index over valid suppliers, the line at a key's offset reads and
      parses back as the first supplier of that key's group. */
  lemma ReadHeadAtOffset(ss: seq<Supplier>, order: seq<string>, file: string, index: map<string, nat>, k: string)
    requires IsBuilt(ss, order, file, index) && k in index
    requires forall s :: s in ss ==> ValidSupplier(s)
    ensures GroupOf(ss, k) != [] && index[k] < |file|
    ensures var head := GroupOf(ss, k)[0];
      ReadLineAt(file, index[k]) == Some(head.id + "," + head.name) &&
      ParseLine(head.id + "," + head.name) == Some((head.id, head.name))
  {
    var rest := HeadLineAt(ss, order, file, index, k);
    var head := GroupOf(ss, k)[0];
    ReadLineRoundTrip(head, file, index[k], rest);
    ParseRoundTrip(head);
  }

  // ---------------------------------------------------------------------------------------
  // Gathering candidates (filterPotentialSuppliersForPage)
  // ---------------------------------------------------------------------------------------

  /** `int64(idx)` is negative from here on, and `Seek` then fails. */
  const SeekLimit: nat := 0x8000_0000_0000_0000

  /** One page word in `filterPotentialSuppliersForPage`: no index entry adds nothing; an
      offset `Seek` refuses is an error; otherwise the first line at the offset, if any,
      is parsed into one supplier, and a line that does not parse is an error. */
  function Fetch(word: string, index: map<string, nat>, file: string): (r: Result<Option<Supplier>>)
    ensures word !in index ==> r == Success(None)
    ensures r.Failure? ==> word in index
    ensures r.Success? && r.value.Some? ==>
      word in index && index[word] < |file| && r.value.value.id != [] && r.value.value.name != [] &&
      forall i :: 0 <= i < |r.value.value.id| ==> IsDigit(r.value.value.id[i])
  {
    if word !in index then Success(None)
    else if index[word] >= SeekLimit then Failure("invalid argument")
    else match ReadLineAt(file, index[word])
      case None => Success(None)
      case Some(line) =>
        match ParseLine(line)
        case None => Failure("invalid supplier name text")
        case Some(m) => Success(Some(Supplier(m.1, m.0)))
  }

  /** The suppliers gathered for a page's words, in word order, or the first error. */
  function Candidates(ws: seq<Word>, index: map<string, nat>, file: string): (r: Result<seq<Supplier>>)
    ensures r.Success? ==> |r.value| <= |ws|
  {
    if ws == [] then Success([])
    else match Candidates(ws[..|ws| - 1], index, file)
      case Failure(e) => Failure(e)
      case Success(cs) =>
        match Fetch(ws[|ws| - 1].text, index, file)
        case Failure(e) => Failure(e)
        case Success(None) => Success(cs)
        case Success(Some(s)) => Success(cs + [s])
  }

  /** The pages that gathered at least one candidate, in page order, each paired with its
      candidates, or the first error. */
  function PageEntries(pages: seq<Page>, index: map<string, nat>, file: string): (r: Result<seq<SuppliersForPage>>)
    reads pages
    ensures r.Success? ==> |r.value| <= |pages|
  {
    if pages == [] then Success([])
    else match PageEntries(pages[..|pages| - 1], index, file)
      case Failure(e) => Failure(e)
      case Success(es) =>
        var page := pages[|pages| - 1];
        match Candidates(page.words, index, file)
        case Failure(e) => Failure(e)
        case Success(cs) => Success(if cs == [] then es else es + [SuppliersForPage(page, cs)])
  }

  /** Only index keys reach the catalog file: a page none of whose words is a key gathers
      nothing and cannot fail, and an error always comes from a word that is a key. */
  lemma {:induction false} CandidatesNeedKeys(ws: seq<Word>, index: map<string, nat>, file: string)
    ensures (forall i :: 0 <= i < |ws| ==> ws[i].text !in index) ==> Candidates(ws, index, file) == Success([])
    ensures Candidates(ws, index, file).Failure? ==> exists i :: 0 <= i < |ws| && ws[i].text in index
  {
    if ws != [] {
      var init := ws[..|ws| - 1];
      CandidatesNeedKeys(init, index, file);
      if Candidates(init, index, file).Failure? {
        var i :| 0 <= i < |init| && init[i].text in index;
        assert ws[i] == init[i];
      }
      if forall i :: 0 <= i < |ws| ==> ws[i].text !in index {
        assert forall i :: 0 <= i < |init| ==> init[i] == ws[i];
      }
    }
  }

  /** An error on a prefix of the words is the error of all of them. */
  lemma {:induction false} CandidatesPrefixFailure(ws: seq<Word>, n: nat, index: map<string, nat>, file: string, e: string)
    requires n <= |ws| && Candidates(ws[..n], index, file) == Failure(e)
    ensures Candidates(ws, index, file) == Failure(e)
    decreases |ws|
  {
    if n < |ws| {
      var init := ws[..|ws| - 1];
      assert init[..n] == ws[..n];
      CandidatesPrefixFailure(init, n, index, file, e);
    } else {
      assert ws[..n] == ws;
    }
  }

  /** An error on a prefix of the pages is the error of all of them. */
  lemma {:induction false} PageEntriesPrefixFailure(pages: seq<Page>, n: nat, index: map<string, nat>, file: string, e: string)
    requires n <= |pages| && PageEntries(pages[..n], index, file) == Failure(e)
    ensures PageEntries(pages, index, file) == Failure(e)
    decreases |pages|
  {
    if n < |pages| {
      var init := pages[..|pages| - 1];
      assert init[..n] == pages[..n];
      PageEntriesPrefixFailure(init, n, index, file, e);
    } else {
      assert pages[..n] == pages;
    }
  }

  /** `filterPotentialSuppliersForPage`: for every page, the suppliers fetched for its
      words, keeping the pages that gathered any; the first error aborts the call. */
  method FilterPotentialSuppliersForPage(pages: seq<Page>, index: map<string, nat>, file: string)
    returns (r: Result<seq<SuppliersForPage>>)
    ensures r == PageEntries(pages, index, file)
  {
    var suppliersForPage: seq<SuppliersForPage> := [];
    for i := 0 to |pages|
      invariant PageEntries(pages[..i], index, file) == Success(suppliersForPage)
    {
      var page := pages[i];
      assert pages[..i + 1][..i] == pages[..i];
      var suppliers: seq<Supplier> := [];
      for j := 0 to |page.words|
        invariant Candidates(page.words[..j], index, file) == Success(suppliers)
      {
        var word := page.words[j];
        assert page.words[..j + 1][..j] == page.words[..j];
        if word.text !in index {
          continue;
        }
        var idx := index[word.text];
        if idx >= SeekLimit {
          CandidatesPrefixFailure(page.words, j + 1, index, file, "invalid argument");
          PageEntriesPrefixFailure(pages, i + 1, index, file, "invalid argument");
          return Failure("invalid argument");
        }
        var line := ReadLineAt(file, idx);
        if line.Some? {
          var m := ParseLine(line.value);
          if m.None? {
            CandidatesPrefixFailure(page.words, j + 1, index, file, "invalid supplier name text");
            PageEntriesPrefixFailure(pages, i + 1, index, file, "invalid supplier name text");
            return Failure("invalid supplier name text");
          }
          suppliers := suppliers + [Supplier(m.value.1, m.value.0)];
        }
      }
      assert page.words[..|page.words|] == page.words;
      if |suppliers| > 0 {
        suppliersForPage := suppliersForPage + [SuppliersForPage(page, suppliers)];
      }
    }
    assert pages[..|pages|] == pages;
    return Success(suppliersForPage);
  }

  /** The first supplier of each page word's group, in word order, for the words that are
      keys; repeated words repeat their candidate. */
  function Heads(ss: seq<Supplier>, ws: seq<Word>): seq<Supplier>
  {
    if ws == [] then []
    else
      var t := ws[|ws| - 1].text;
      Heads(ss, ws[..|ws| - 1]) + (if GroupOf(ss, t) != [] then [GroupOf(ss, t)[0]] else [])
  }

  /** With a built index over valid suppliers, the candidates of a page are exactly the
      group heads of its key words, in word order: one per index hit, none for other
      words, and never a later member of a group. */
  lemma {:induction false} CandidatesAreHeads(ss: seq<Supplier>, order: seq<string>, file: string, index: map<string, nat>, ws: seq<Word>)
    requires IsBuilt(ss, order, file, index) && |file| <= SeekLimit
    requires forall s :: s in ss ==> ValidSupplier(s)
    ensures Candidates(ws, index, file) == Success(Heads(ss, ws))
  {
    if ws != [] {
      var init, t := ws[..|ws| - 1], ws[|ws| - 1].text;
      CandidatesAreHeads(ss, order, file, index, init);
      GroupOfIsFilter(ss, t);
      IndexKeys(ss, order, file, index);
      assert ws[..|ws| - 1] == init;
      if t in index {
        ReadHeadAtOffset(ss, order, file, index, t);
        var head := GroupOf(ss, t)[0];
        assert Supplier(head.name, head.id) == head;
        assert Fetch(t, index, file) == Success(Some(head));
      } else {
        assert t !in Keys(ss);
        assert GroupOf(ss, t) == [];
        assert Fetch(t, index, file) == Success(None);
        assert Heads(ss, ws) == Heads(ss, init);
      }
    }
  }

  /** The entries pair pages with their own non-empty candidate lists, keep the page
      order, and leave out exactly the pages that gathered nothing. */
  lemma {:induction false} EntriesFollowPages(pages: seq<Page>, index: map<string, nat>, file: string) returns (idx: seq<nat>)
    requires PageEntries(pages, index, file).Success?
    ensures var es := PageEntries(pages, index, file).value;
      && |idx| == |es|
      && (forall k :: 0 <= k < |es| ==>
            idx[k] < |pages| && es[k].page == pages[idx[k]] && es[k].suppliers != [] &&
            Candidates(pages[idx[k]].words, index, file) == Success(es[k].suppliers))
      && (forall k, l :: 0 <= k < l < |idx| ==> idx[k] < idx[l])
      && (forall i :: 0 <= i < |pages| && i !in idx ==> Candidates(pages[i].words, index, file) == Success([]))
  {
    if pages == [] {
      idx := [];
    } else {
      var init, n := pages[..|pages| - 1], |pages| - 1;
      EntriesSnoc(pages, index, file);
      idx := EntriesFollowPages(init, index, file);
      assert forall k :: 0 <= k < |idx| ==> idx[k] < n;
      if Candidates(pages[n].words, index, file).value != [] {
        idx := idx + [n];
      }
    }
  }

  /** One more page: the entries of the earlier pages, then the last page's entry when it
      gathered candidates. */
  lemma EntriesSnoc(pages: seq<Page>, index: map<string, nat>, file: string)
    requires pages != [] && PageEntries(pages, index, file).Success?
    ensures var init, last := pages[..|pages| - 1], pages[|pages| - 1];
      && PageEntries(init, index, file).Success?
      && Candidates(last.words, index, file).Success?
      && var cs := Candidates(last.words, index, file).value;
         PageEntries(pages, index, file).value ==
           PageEntries(init, index, file).value + (if cs == [] then [] else [SuppliersForPage(last, cs)])
  {
  }
}
