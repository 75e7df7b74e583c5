/** Go's `strings.Split(s, " ")`, the only string splitting the matcher and the index use,
    together with its inverse `Join`. */
module Text {

  /** `strings.Split(s, " ")`: the pieces of `s` between single spaces. Two adjacent spaces
      give an empty piece, and the empty string gives one empty piece, so the result is
      never empty. */
  function Split(s: string): (parts: seq<string>)
    ensures |parts| >= 1
    decreases |s|
  {
    if s == [] then [""]
    else
      var rest := Split(s[1..]);
      if s[0] == ' ' then [""] + rest
      else [[s[0]] + rest[0]] + rest[1..]
  }

  /** The pieces joined back with single spaces (`strings.Join(parts, " ")`). */
  function Join(parts: seq<string>): string
  {
    if parts == [] then ""
    else if |parts| == 1 then parts[0]
    else parts[0] + " " + Join(parts[1..])
  }

  /** The leading word of a name: element 0 of `strings.Split(name, " ")`. It is the
      longest prefix of the name without a space. */
  function FirstWord(name: string): (w: string)
    ensures NoSpace(w) && w <= name
    ensures |w| < |name| ==> name[|w|] == ' '
  {
    SplitHead(name);
    Split(name)[0]
  }

  /** The first piece of a split is the name up to its first space. */
  lemma {:induction false} SplitHead(s: string)
    ensures NoSpace(Split(s)[0]) && Split(s)[0] <= s
    ensures |Split(s)[0]| < |s| ==> s[|Split(s)[0]|] == ' '
    decreases |s|
  {
    if s != [] && s[0] != ' ' {
      SplitHead(s[1..]);
      assert s == [s[0]] + s[1..];
    }
  }

  predicate NoSpace(w: string)
  {
    forall i :: 0 <= i < |w| ==> w[i] != ' '
  }

  /** No piece of a split contains the separator. */
  lemma {:induction false} SplitPiecesHaveNoSpace(s: string)
    ensures forall k :: 0 <= k < |Split(s)| ==> NoSpace(Split(s)[k])
    decreases |s|
  {
    if s != [] {
      SplitPiecesHaveNoSpace(s[1..]);
      var rest := Split(s[1..]);
      if s[0] != ' ' {
        var head := [s[0]] + rest[0];
        assert NoSpace(head) by {
          forall i | 0 <= i < |head| ensures head[i] != ' ' {
            if i > 0 { assert head[i] == rest[0][i - 1]; }
          }
        }
        var parts := [head] + rest[1..];
        forall k | 0 <= k < |parts| ensures NoSpace(parts[k]) {
          if k > 0 { assert parts[k] == rest[k]; }
        }
      }
    }
  }

  /** Joining the pieces of a split gives back the original string. */
  lemma {:induction false} JoinSplit(s: string)
    ensures Join(Split(s)) == s
    decreases |s|
  {
    if s != [] {
      JoinSplit(s[1..]);
      var rest := Split(s[1..]);
      if s[0] == ' ' {
        assert Split(s) == [""] + rest;
        assert ([""] + rest)[1..] == rest;
        assert Join(Split(s)) == "" + " " + Join(rest);
        assert s == [s[0]] + s[1..];
      } else {
        var parts := [[s[0]] + rest[0]] + rest[1..];
        assert Split(s) == parts;
        if |rest| == 1 {
          assert Join(parts) == [s[0]] + rest[0];
          assert Join(rest) == rest[0];
        } else {
          assert parts[1..] == rest[1..];
          assert Join(parts) == [s[0]] + rest[0] + " " + Join(rest[1..]);
          assert Join(rest) == rest[0] + " " + Join(rest[1..]);
        }
        assert s == [s[0]] + s[1..];
      }
    }
  }

  /** Splitting a space-free word followed by more text: the word heads the first piece. */
  lemma {:induction false} SplitWordPrefix(w: string, t: string)
    requires NoSpace(w)
    ensures Split(w + t) == [w + Split(t)[0]] + Split(t)[1..]
    decreases |w|
  {
    if w != [] {
      assert (w + t)[1..] == w[1..] + t;
      assert NoSpace(w[1..]) by {
        forall i | 0 <= i < |w[1..]| ensures w[1..][i] != ' ' { assert w[1..][i] == w[i + 1]; }
      }
      SplitWordPrefix(w[1..], t);
      assert (w + t)[0] == w[0] && w[0] != ' ';
      assert [w[0]] + (w[1..] + Split(t)[0]) == w + Split(t)[0];
    } else {
      assert w + t == t;
      assert w + Split(t)[0] == Split(t)[0];
      assert Split(t) == [Split(t)[0]] + Split(t)[1..];
    }
  }

  /** Splitting the join of space-free pieces gives back the pieces. */
  lemma {:induction false} SplitJoin(parts: seq<string>)
    requires |parts| >= 1
    requires forall k :: 0 <= k < |parts| ==> NoSpace(parts[k])
    ensures Split(Join(parts)) == parts
    decreases |parts|
  {
    if |parts| == 1 {
      SplitWordPrefix(parts[0], "");
      assert parts[0] + "" == parts[0];
      assert Split("") == [""];
    } else {
      var tail := parts[1..];
      SplitJoin(tail);
      var t := " " + Join(tail);
      assert Join(parts) == parts[0] + t;
      SplitWordPrefix(parts[0], t);
      assert t[1..] == Join(tail);
      assert Split(t) == [""] + tail;
      assert parts[0] + "" == parts[0];
      assert Split(Join(parts)) == [parts[0]] + tail;
    }
  }
}
