/** The live search filter: items are kept when their lower-cased display text
    contains every space-separated token of the search query. */
module Search {

  predicate IsUpper(c: char)
  {
    'A' <= c <= 'Z'
  }

  /** ASCII lower-casing of one character. */
  function ToLower(c: char): (r: char)
    ensures !IsUpper(r)
    ensures IsUpper(c) ==> r as int == c as int + ('a' as int - 'A' as int)
    ensures !IsUpper(c) ==> r == c
  {
    if IsUpper(c) then (c as int + ('a' as int - 'A' as int)) as char else c
  }

  /** ASCII lower-casing of a string: same length, character by character, and
      no upper-case letter is left. */
  function Lowercase(s: string): (r: string)
    ensures |r| == |s|
    ensures forall i :: 0 <= i < |s| ==> r[i] == ToLower(s[i])
    ensures forall i :: 0 <= i < |r| ==> !IsUpper(r[i])
  {
    seq(|s|, i requires 0 <= i < |s| => ToLower(s[i]))
  }

  /** Lower-casing twice is lower-casing once. */
  lemma LowercaseIdempotent(s: string)
    ensures Lowercase(Lowercase(s)) == Lowercase(s)
  {
  }

  // ---------------------------------------------------------------------------
  // Splitting on a separator character

  /** The pieces joined back with the separator between them. */
  function Join(tokens: seq<string>, sep: char): string
    requires |tokens| > 0
  {
    if |tokens| == 1 then tokens[0] else tokens[0] + [sep] + Join(tokens[1..], sep)
  }

  /** `str::split(sep)`: the pieces between separators, empty pieces included
      (the empty string gives one empty piece). The pieces hold no separator and
      joining them back gives the input. */
  function Split(s: string, sep: char): (tokens: seq<string>)
    ensures |tokens| > 0
    ensures forall k :: 0 <= k < |tokens| ==> sep !in tokens[k]
    ensures Join(tokens, sep) == s
    decreases |s|
  {
    if |s| == 0 then [""]
    else
      var rest := Split(s[1..], sep);
      if s[0] == sep then
        assert ([""] + rest)[1..] == rest;
        [""] + rest
      else
        var tokens := [[s[0]] + rest[0]] + rest[1..];
        assert tokens[1..] == rest[1..];
        assert |rest| > 1 ==> Join(rest, sep) == rest[0] + [sep] + Join(rest[1..], sep);
        assert s == [s[0]] + s[1..];
        tokens
  }

  lemma {:induction false} JoinAppend(a: seq<string>, b: seq<string>, sep: char)
    requires |a| > 0 && |b| > 0
    ensures Join(a + b, sep) == Join(a, sep) + [sep] + Join(b, sep)
  {
    if |a| == 1 {
      assert (a + b)[1..] == b;
    } else {
      assert (a + b)[1..] == a[1..] + b;
      JoinAppend(a[1..], b, sep);
    }
  }

  /** A piece without a separator splits into itself. */
  lemma {:induction false} SplitPiece(t: string, sep: char)
    requires sep !in t
    ensures Split(t, sep) == [t]
    decreases |t|
  {
    if |t| > 0 {
      SplitPiece(t[1..], sep);
      assert [t[0]] + t[1..] == t;
    }
  }

  /** A separator-free piece followed by a separator splits off as the first token. */
  lemma {:induction false} SplitPieceThenSeparator(t: string, rest: string, sep: char)
    requires sep !in t
    ensures Split(t + [sep] + rest, sep) == [t] + Split(rest, sep)
    decreases |t|
  {
    var s := t + [sep] + rest;
    if |t| == 0 {
      assert s[1..] == rest;
    } else {
      assert s[1..] == t[1..] + [sep] + rest;
      SplitPieceThenSeparator(t[1..], rest, sep);
      assert [t[0]] + t[1..] == t;
    }
  }

  /** `Split` is the inverse of `Join` on separator-free pieces. */
  lemma {:induction false} SplitJoin(tokens: seq<string>, sep: char)
    requires |tokens| > 0
    requires forall k :: 0 <= k < |tokens| ==> sep !in tokens[k]
    ensures Split(Join(tokens, sep), sep) == tokens
  {
    if |tokens| == 1 {
      SplitPiece(tokens[0], sep);
    } else {
      SplitPieceThenSeparator(tokens[0], Join(tokens[1..], sep), sep);
      SplitJoin(tokens[1..], sep);
      assert tokens == [tokens[0]] + tokens[1..];
    }
  }

  /** Joining separator-free pieces loses nothing: equal joins come from equal pieces. */
  lemma JoinInjective(a: seq<string>, b: seq<string>, sep: char)
    requires |a| > 0 && |b| > 0
    requires forall k :: 0 <= k < |a| ==> sep !in a[k]
    requires forall k :: 0 <= k < |b| ==> sep !in b[k]
    requires Join(a, sep) == Join(b, sep)
    ensures a == b
  {
    SplitJoin(a, sep);
    SplitJoin(b, sep);
  }

  /** Splitting text glued at a separator splits each side. */
  lemma SplitAtSeparator(s: string, t: string, sep: char)
    ensures Split(s + [sep] + t, sep) == Split(s, sep) + Split(t, sep)
  {
    var tokens := Split(s, sep) + Split(t, sep);
    JoinAppend(Split(s, sep), Split(t, sep), sep);
    SplitJoin(tokens, sep);
  }

  // ---------------------------------------------------------------------------
  // Substring search

  /** `str::contains`: `t` occurs in `s`, scanning from the left. */
  predicate Contains(s: string, t: string): (r: bool)
    ensures t <= s ==> r
    ensures r ==> |t| <= |s|
    decreases |s|
  {
    t <= s || (|s| > 0 && Contains(s[1..], t))
  }

  ghost predicate OccursAt(s: string, t: string, i: int)
  {
    0 <= i && i + |t| <= |s| && s[i..i + |t|] == t
  }

  /** An occurrence at position `i` is found by the scan. */
  lemma {:induction false} OccurrenceFound(s: string, t: string, i: int)
    requires OccursAt(s, t, i)
    ensures Contains(s, t)
    decreases i
  {
    if i == 0 {
      assert s[..|t|] == t;
    } else {
      assert s[1..][i - 1..i - 1 + |t|] == s[i..i + |t|];
      OccurrenceFound(s[1..], t, i - 1);
    }
  }

  /** What the scan finds occurs at some position. */
  lemma {:induction false} ContainsLocated(s: string, t: string) returns (i: int)
    requires Contains(s, t)
    ensures OccursAt(s, t, i)
    decreases |s|
  {
    if t <= s {
      i := 0;
      assert s[..|t|] == t;
    } else {
      var j := ContainsLocated(s[1..], t);
      assert s[1..][j..j + |t|] == s[j + 1..j + 1 + |t|];
      i := j + 1;
    }
  }

  /** The scan finds `t` exactly when `t` occurs at some position of `s`. */
  lemma ContainsIff(s: string, t: string)
    ensures Contains(s, t) <==> exists i :: OccursAt(s, t, i)
  {
    if Contains(s, t) {
      var i := ContainsLocated(s, t);
    }
    if exists i :: OccursAt(s, t, i) {
      var i :| OccursAt(s, t, i);
      OccurrenceFound(s, t, i);
    }
  }

  /** Every string contains the empty string. */
  lemma ContainsEmpty(s: string)
    ensures Contains(s, "")
  {
  }

  /** A string holding a character that `s` lacks does not occur in `s`. */
  lemma AbsentCharacterNotContained(s: string, t: string, j: int)
    requires 0 <= j < |t| && t[j] !in s
    ensures !Contains(s, t)
  {
    if Contains(s, t) {
      var i := ContainsLocated(s, t);
      assert false;
    }
  }

  /** Text without upper-case letters contains no string that has one. */
  lemma NoUpperContainsNoUpper(s: string, t: string, j: int)
    requires forall i :: 0 <= i < |s| ==> !IsUpper(s[i])
    requires 0 <= j < |t| && IsUpper(t[j])
    ensures !Contains(s, t)
  {
    AbsentCharacterNotContained(s, t, j);
  }

  // ---------------------------------------------------------------------------
  // Query matching

  /** The fold `fold(acc, |acc, cur| acc & s.contains(cur))` over the tokens. */
  function MatchFold(s: string, tokens: seq<string>, acc: bool): (r: bool)
    ensures r ==> acc
    ensures r ==> forall k :: 0 <= k < |tokens| ==> Contains(s, tokens[k])
  {
    if |tokens| == 0 then acc else MatchFold(s, tokens[1..], acc && Contains(s, tokens[0]))
  }

  lemma {:induction false} MatchFoldAll(s: string, tokens: seq<string>, acc: bool)
    ensures MatchFold(s, tokens, acc) <==> acc && forall k :: 0 <= k < |tokens| ==> Contains(s, tokens[k])
  {
    if |tokens| > 0 {
      MatchFoldAll(s, tokens[1..], acc && Contains(s, tokens[0]));
      assert forall k :: 1 <= k < |tokens| ==> tokens[k] == tokens[1..][k - 1];
    }
  }

  /** `query_match`: the text contains every space-separated token of the query.
      The query is used as it is: it is not lower-cased. */
  function QueryMatch(s: string, query: string): (r: bool)
    ensures r <==> forall t :: t in Split(query, ' ') ==> Contains(s, t)
  {
    var tokens := Split(query, ' ');
    MatchFoldAll(s, tokens, true);
    MatchFold(s, tokens, true)
  }

  /** The empty query matches every text. */
  lemma EmptyQueryMatchesAll(s: string)
    ensures QueryMatch(s, "")
  {
    assert Split("", ' ') == [""];
    ContainsEmpty(s);
  }

  /** Only the non-empty tokens constrain the match: the empty ones that
      leading, trailing or repeated spaces produce are always satisfied. */
  lemma OnlyNonEmptyTokensMatter(s: string, query: string)
    ensures QueryMatch(s, query) <==> forall t :: t in Split(query, ' ') && t != "" ==> Contains(s, t)
  {
    var tokens := Split(query, ' ');
    if forall t :: t in tokens && t != "" ==> Contains(s, t) {
      forall t | t in tokens
        ensures Contains(s, t)
      {
        if t == "" {
          ContainsEmpty(s);
        }
      }
      assert QueryMatch(s, query);
    } else {
      var t :| t in tokens && t != "" && !Contains(s, t);
      assert !QueryMatch(s, query);
    }
  }

  /** Two queries glued with a space match exactly when both do; so token order
      is irrelevant and extra spaces change nothing. */
  lemma QueryConjunction(s: string, q1: string, q2: string)
    ensures QueryMatch(s, q1 + " " + q2) <==> QueryMatch(s, q1) && QueryMatch(s, q2)
    ensures QueryMatch(s, q1 + " " + q2) <==> QueryMatch(s, q2 + " " + q1)
    ensures QueryMatch(s, " " + q1) <==> QueryMatch(s, q1)
  {
    SplitAtSeparator(q1, q2, ' ');
    SplitAtSeparator(q2, q1, ' ');
    SplitAtSeparator("", q1, ' ');
    assert "" + " " + q1 == " " + q1;
    EmptyQueryMatchesAll(s);
  }

  /** A query token with an upper-case letter matches no lower-cased text. */
  lemma UppercaseTokenMatchesNothing(x: string, query: string, t: string, j: int)
    requires t in Split(query, ' ')
    requires 0 <= j < |t| && IsUpper(t[j])
    ensures !QueryMatch(Lowercase(x), query)
  {
    NoUpperContainsNoUpper(Lowercase(x), t, j);
  }

  // ---------------------------------------------------------------------------
  // Filtering

  /** A text matches a query exactly when every space-separated token of the
      query occurs in it at some position. */
  lemma QueryMatchOccurs(query: string)
    ensures forall s :: QueryMatch(s, query) <==>
      forall t :: t in Split(query, ' ') ==> exists i :: OccursAt(s, t, i)
  {
    forall s
      ensures QueryMatch(s, query) <==>
        forall t :: t in Split(query, ' ') ==> exists i :: OccursAt(s, t, i)
    {
      forall t | t in Split(query, ' ') {
        ContainsIff(s, t);
      }
    }
  }

  /** The filter's test on one item: every space-separated token of the query
      occurs somewhere in the item's lower-cased display text. */
  function Matcher<T(!new)>(display: T -> string, query: string): (r: T -> bool)
    ensures forall x :: r(x) <==>
      forall t :: t in Split(query, ' ') ==> exists i :: OccursAt(Lowercase(display(x)), t, i)
  {
    QueryMatchOccurs(query);
    x => QueryMatch(Lowercase(display(x)), query)
  }

  /** `items.iter().filter(keep).collect()`: the items `keep` accepts, in their
      order. Nothing but accepted items, and every accepted item. */
  function Filter<T>(items: seq<T>, keep: T -> bool): (r: seq<T>)
    ensures |r| <= |items|
    ensures forall x :: x in r ==> x in items && keep(x)
    ensures forall x :: x in items && keep(x) ==> x in r
  {
    if |items| == 0 then []
    else
      var rest := Filter(items[1..], keep);
      assert forall x :: x in items ==> x == items[0] || x in items[1..];
      if keep(items[0]) then [items[0]] + rest else rest
  }

  /** `idx` lists, in increasing order, exactly the positions of `items` that
      `keep` accepts, and `r` holds the items at those positions. */
  ghost predicate SelectsInOrder<T>(r: seq<T>, items: seq<T>, idx: seq<int>, keep: T -> bool)
  {
    && |idx| == |r|
    && (forall k :: 0 <= k < |idx| ==> 0 <= idx[k] < |items| && r[k] == items[idx[k]])
    && (forall k, l :: 0 <= k < l < |idx| ==> idx[k] < idx[l])
    && (forall i :: 0 <= i < |items| ==> (i in idx <==> keep(items[i])))
  }

  /** Every position moved up by one. */
  function Shift(idx: seq<int>): (r: seq<int>)
    ensures |r| == |idx|
    ensures forall k :: 0 <= k < |r| ==> r[k] == idx[k] + 1
  {
    seq(|idx|, k requires 0 <= k < |idx| => idx[k] + 1)
  }

  lemma ShiftMembership(idx: seq<int>, i: int)
    ensures i in Shift(idx) <==> i - 1 in idx
  {
    if i in Shift(idx) {
      var k :| 0 <= k < |idx| && Shift(idx)[k] == i;
      assert idx[k] == i - 1;
    }
    if i - 1 in idx {
      var k :| 0 <= k < |idx| && idx[k] == i - 1;
      assert Shift(idx)[k] == i;
    }
  }

  /** The positions found for the tail of `items`, moved up by one: the same
      selection, read as positions of `items` itself. */
  lemma ShiftSelection<T>(items: seq<T>, idx': seq<int>, keep: T -> bool)
    requires |items| > 0
    requires SelectsInOrder(Filter(items[1..], keep), items[1..], idx', keep)
    ensures forall k :: 0 <= k < |idx'| ==> 1 <= Shift(idx')[k] < |items| && Filter(items[1..], keep)[k] == items[Shift(idx')[k]]
    ensures forall i :: 1 <= i < |items| ==> (i in Shift(idx') <==> keep(items[i]))
    ensures 0 !in Shift(idx')
  {
    forall i | 1 <= i < |items|
      ensures i in Shift(idx') <==> keep(items[i])
    {
      assert items[i] == items[1..][i - 1];
      ShiftMembership(idx', i);
    }
    ShiftMembership(idx', 0);
  }

  /** Accepted first item: position 0 goes in front of the tail's positions. */
  lemma PrependSelection<T>(items: seq<T>, rest: seq<T>, shifted: seq<int>, keep: T -> bool)
    requires |items| > 0 && keep(items[0])
    requires |shifted| == |rest|
    requires forall k :: 0 <= k < |shifted| ==> 1 <= shifted[k] < |items| && rest[k] == items[shifted[k]]
    requires forall k, l :: 0 <= k < l < |shifted| ==> shifted[k] < shifted[l]
    requires forall i :: 1 <= i < |items| ==> (i in shifted <==> keep(items[i]))
    ensures SelectsInOrder([items[0]] + rest, items, [0] + shifted, keep)
  {
    var idx, r := [0] + shifted, [items[0]] + rest;
    forall k | 0 <= k < |idx|
      ensures 0 <= idx[k] < |items| && r[k] == items[idx[k]]
    {
      if k > 0 {
        assert idx[k] == shifted[k - 1] && r[k] == rest[k - 1];
      }
    }
    forall i | 0 <= i < |items|
      ensures i in idx <==> keep(items[i])
    {
      assert i in idx <==> i == 0 || i in shifted;
    }
  }

  /** One more item in front: the shifted positions of the tail, after
      position 0 when the new item is accepted. */
  lemma ExtendSelection<T>(items: seq<T>, idx': seq<int>, keep: T -> bool) returns (idx: seq<int>)
    requires |items| > 0
    requires SelectsInOrder(Filter(items[1..], keep), items[1..], idx', keep)
    ensures SelectsInOrder(Filter(items, keep), items, idx, keep)
  {
    var rest := Filter(items[1..], keep);
    var shifted := Shift(idx');
    ShiftSelection(items, idx', keep);
    if keep(items[0]) {
      idx := [0] + shifted;
      PrependSelection(items, rest, shifted, keep);
    } else {
      idx := shifted;
    }
  }

  /** The filter is the order-preserving sub-sequence of exactly the accepted positions. */
  lemma {:induction false} FilterSelectsInOrder<T>(items: seq<T>, keep: T -> bool)
    ensures exists idx :: SelectsInOrder(Filter(items, keep), items, idx, keep)
  {
    if |items| == 0 {
      assert SelectsInOrder(Filter(items, keep), items, [], keep);
    } else {
      FilterSelectsInOrder(items[1..], keep);
      var idx' :| SelectsInOrder(Filter(items[1..], keep), items[1..], idx', keep);
      var idx := ExtendSelection(items, idx', keep);
    }
  }

  /** Filtering distributes over concatenation, so it keeps relative order. */
  lemma {:induction false} FilterAppend<T>(a: seq<T>, b: seq<T>, keep: T -> bool)
    ensures Filter(a + b, keep) == Filter(a, keep) + Filter(b, keep)
  {
    if |a| > 0 {
      assert (a + b)[1..] == a[1..] + b;
      FilterAppend(a[1..], b, keep);
    } else {
      assert a + b == b;
    }
  }

  /** Filtering what was already filtered changes nothing. */
  lemma {:induction false} FilterIdempotent<T>(items: seq<T>, keep: T -> bool)
    ensures Filter(Filter(items, keep), keep) == Filter(items, keep)
  {
    if |items| > 0 {
      FilterIdempotent(items[1..], keep);
      var rest := Filter(items[1..], keep);
      if keep(items[0]) {
        assert ([items[0]] + rest)[1..] == rest;
      }
    }
  }

  /** A filter that accepts every item returns the items unchanged. */
  lemma {:induction false} FilterAcceptingAll<T>(items: seq<T>, keep: T -> bool)
    requires forall x :: x in items ==> keep(x)
    ensures Filter(items, keep) == items
  {
    if |items| > 0 {
      FilterAcceptingAll(items[1..], keep);
      assert items == [items[0]] + items[1..];
    }
  }

  /** A filter that rejects every item returns nothing. */
  lemma {:induction false} FilterRejectingAll<T>(items: seq<T>, keep: T -> bool)
    requires forall x :: x in items ==> !keep(x)
    ensures Filter(items, keep) == []
  {
    if |items| > 0 {
      FilterRejectingAll(items[1..], keep);
    }
  }

  /** Applying the matcher runs the filter's test. */
  lemma MatcherApplies<T(!new)>(display: T -> string, query: string, x: T)
    ensures Matcher(display, query)(x) == QueryMatch(Lowercase(display(x)), query)
  {
  }

  /** Filtering three items, spelled out. */
  lemma FilterOfThree<T>(a: T, b: T, c: T, keep: T -> bool)
    ensures Filter([a, b, c], keep)
         == (if keep(a) then [a] else []) + (if keep(b) then [b] else []) + (if keep(c) then [c] else [])
  {
    assert [c][1..] == [];
    assert Filter([c], keep) == if keep(c) then [c] else [];
    assert [b, c][1..] == [c];
    assert Filter([b, c], keep) == (if keep(b) then [b] else []) + Filter([c], keep);
    assert [a, b, c][1..] == [b, c];
  }
}
