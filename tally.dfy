/** The counting behind the statistics: players ranked by sort code, the pairs the river
    tally credits, and how many times each class appears. */
module Tally {

  /** A player as the tally sees it: the sort code of its hand and a tag carried through
      the ranking (the hole-hand class at the river). */
  datatype Standing = Standing(code: int, tag: int)

  /** Highest code first. */
  predicate SortedDesc(s: seq<Standing>)
  {
    forall i, j :: 0 <= i < j < |s| ==> s[i].code >= s[j].code
  }

  /** Inserts x after every standing whose code is at least x's. */
  function Insert(s: seq<Standing>, x: Standing): (r: seq<Standing>)
    requires SortedDesc(s)
    ensures SortedDesc(r) && |r| == |s| + 1
    ensures multiset(r) == multiset(s) + multiset{x}
    ensures forall k :: 0 <= k < |r| ==> r[k] in s || r[k] == x
  {
    if s == [] then [x]
    else if s[0].code >= x.code then
      var rest := Insert(s[1..], x);
      assert s == [s[0]] + s[1..];
      InsertBehind(s[0], s[1..], x, rest);
      [s[0]] + rest
    else [x] + s
  }

  /** Putting h, whose code is at least x's, in front of an insertion of x into t is an
      insertion of x into [h] + t. */
  lemma InsertBehind(h: Standing, t: seq<Standing>, x: Standing, rest: seq<Standing>)
    requires SortedDesc([h] + t) && h.code >= x.code
    requires SortedDesc(rest) && |rest| == |t| + 1
    requires multiset(rest) == multiset(t) + multiset{x}
    requires forall k :: 0 <= k < |rest| ==> rest[k] in t || rest[k] == x
    ensures SortedDesc([h] + rest)
    ensures multiset([h] + rest) == multiset([h] + t) + multiset{x}
    ensures forall k :: 0 <= k < |rest| + 1 ==> ([h] + rest)[k] in [h] + t || ([h] + rest)[k] == x
  {
    forall k | 0 <= k < |rest|
      ensures rest[k].code <= h.code
    {
      if rest[k] in t {
        var i :| 0 <= i < |t| && t[i] == rest[k];
        assert ([h] + t)[0] == h && ([h] + t)[i + 1] == t[i];
      }
    }
    SortedCons(h, rest);
    forall k | 0 <= k < |rest| + 1
      ensures ([h] + rest)[k] in [h] + t || ([h] + rest)[k] == x
    {
      if k > 0 {
        assert ([h] + rest)[k] == rest[k - 1];
      }
    }
  }

  lemma SortedCons(h: Standing, t: seq<Standing>)
    requires SortedDesc(t) && forall k :: 0 <= k < |t| ==> t[k].code <= h.code
    ensures SortedDesc([h] + t)
  {
    forall i, j | 0 <= i < j < |t| + 1
      ensures ([h] + t)[i].code >= ([h] + t)[j].code
    {
      if i > 0 {
        assert ([h] + t)[i] == t[i - 1];
      }
      assert ([h] + t)[j] == t[j - 1];
    }
  }

  /** The players ranked by code, highest first: a permutation of the input. The order of
      equal codes is not specified by the ranking the source delegates to; this one keeps
      earlier players first. */
  function RankByCode(s: seq<Standing>): (r: seq<Standing>)
    ensures SortedDesc(r) && multiset(r) == multiset(s) && |r| == |s|
    ensures forall k :: 0 <= k < |r| ==> r[k] in s
  {
    if s == [] then []
    else
      assert s == s[..|s| - 1] + [s[|s| - 1]];
      Insert(RankByCode(s[..|s| - 1]), s[|s| - 1])
  }

  /** The highest code of the players. */
  function MaxCode(s: seq<Standing>): (m: int)
    requires |s| > 0
    ensures exists k :: 0 <= k < |s| && s[k].code == m
    ensures forall k :: 0 <= k < |s| ==> s[k].code <= m
  {
    if |s| == 1 then s[0].code
    else
      var m := MaxCode(s[1..]);
      assert forall k :: 1 <= k < |s| ==> s[k] == s[1..][k - 1];
      if s[0].code >= m then s[0].code else m
  }

  /** The first of a ranking holds the highest code of all players. */
  lemma RankTop(s: seq<Standing>)
    requires |s| > 0
    ensures RankByCode(s)[0] in s && RankByCode(s)[0].code == MaxCode(s)
    ensures forall k :: 0 <= k < |s| ==> RankByCode(s)[0].code >= s[k].code
  {
    var r := RankByCode(s);
    assert r[0] in multiset(r);
    forall k | 0 <= k < |s|
      ensures r[0].code >= s[k].code
    {
      assert s[k] in multiset(s);
      var l :| 0 <= l < |r| && r[l] == s[k];
    }
  }

  /** The position among the players of the first of the ranking. */
  lemma RankTopIndex(s: seq<Standing>) returns (i: int)
    requires |s| > 0
    ensures 0 <= i < |s| && s[i] == RankByCode(s)[0] && s[i].code == MaxCode(s)
  {
    RankTop(s);
    i :| 0 <= i < |s| && s[i] == RankByCode(s)[0];
  }

  // ---------------------------------------------------------------------------
  // The river tally, as the source writes it: a pair i < j of the ranking is credited to
  // (tag of i, tag of j) when the codes differ.

  /** Whether x followed by y is credited to cell (a, b). */
  predicate Credited(x: Standing, y: Standing, a: int, b: int)
  {
    x.code != y.code && x.tag == a && y.tag == b
  }

  /** The credits x earns against the standings after it. */
  function Against(x: Standing, t: seq<Standing>, a: int, b: int): nat
  {
    if t == [] then 0 else (if Credited(x, t[0], a, b) then 1 else 0) + Against(x, t[1..], a, b)
  }

  /** The credits to cell (a, b) over all pairs i < j of a ranking. */
  function PairCount(s: seq<Standing>, a: int, b: int): nat
  {
    if s == [] then 0 else Against(s[0], s[1..], a, b) + PairCount(s[1..], a, b)
  }

  lemma {:induction false} AgainstAppend(x: Standing, t: seq<Standing>, y: Standing, a: int, b: int)
    ensures Against(x, t + [y], a, b) == Against(x, t, a, b) + if Credited(x, y, a, b) then 1 else 0
  {
    if t != [] {
      assert (t + [y])[1..] == t[1..] + [y];
      AgainstAppend(x, t[1..], y, a, b);
    }
  }

  // ---------------------------------------------------------------------------
  // The same counts without reference to any order: every two players with different
  // codes give one win to the class of the higher code over the class of the lower.

  /** 1 when the pair {x, y} is a win of class a over class b. */
  function Win(x: Standing, y: Standing, a: int, b: int): nat
  {
    if (x.code > y.code && x.tag == a && y.tag == b) || (y.code > x.code && y.tag == a && x.tag == b)
    then 1 else 0
  }

  /** The wins of class a over class b in the pairs of x with each of t. */
  function Wins(x: Standing, t: seq<Standing>, a: int, b: int): nat
  {
    if t == [] then 0 else Win(x, t[0], a, b) + Wins(x, t[1..], a, b)
  }

  /** The wins of class a over class b over all pairs of players. */
  function Beats(s: seq<Standing>, a: int, b: int): nat
  {
    if s == [] then 0 else Wins(s[0], s[1..], a, b) + Beats(s[1..], a, b)
  }

  /** Against a ranking's later players, a credit is exactly a win. */
  lemma {:induction false} AgainstIsWins(x: Standing, t: seq<Standing>, a: int, b: int)
    requires forall k :: 0 <= k < |t| ==> x.code >= t[k].code
    ensures Against(x, t, a, b) == Wins(x, t, a, b)
  {
    if t != [] {
      AgainstIsWins(x, t[1..], a, b);
    }
  }

  /** On a ranking, the source's pair credits are the order-free wins. */
  lemma {:induction false} RankedCreditsAreWins(s: seq<Standing>, a: int, b: int)
    requires SortedDesc(s)
    ensures PairCount(s, a, b) == Beats(s, a, b)
  {
    if s != [] {
      AgainstIsWins(s[0], s[1..], a, b);
      RankedCreditsAreWins(s[1..], a, b);
    }
  }

  lemma {:induction false} WinsSplit(x: Standing, u: seq<Standing>, v: seq<Standing>, a: int, b: int)
    ensures Wins(x, u + v, a, b) == Wins(x, u, a, b) + Wins(x, v, a, b)
  {
    if u == [] {
      assert u + v == v;
    } else {
      assert (u + v)[1..] == u[1..] + v;
      WinsSplit(x, u[1..], v, a, b);
    }
  }

  /** Wins against t depend on t only as a multiset. */
  lemma {:induction false} WinsPermutation(x: Standing, u: seq<Standing>, v: seq<Standing>, a: int, b: int)
    requires multiset(u) == multiset(v)
    ensures Wins(x, u, a, b) == Wins(x, v, a, b)
    decreases |u|
  {
    if u != [] {
      assert u[0] in multiset(v);
      var m :| 0 <= m < |v| && v[m] == u[0];
      var rest := v[..m] + v[m + 1..];
      assert v == v[..m] + [v[m]] + v[m + 1..];
      assert u == [u[0]] + u[1..];
      RemoveOne(u, v, m);
      WinsSplit(x, v[..m] + [v[m]], v[m + 1..], a, b);
      WinsSplit(x, v[..m], [v[m]], a, b);
      WinsSplit(x, v[..m], v[m + 1..], a, b);
      WinsPermutation(x, u[1..], rest, a, b);
    }
  }

  /** Removing the element of t that equals the head of s keeps the multisets equal. */
  lemma RemoveOne(s: seq<Standing>, t: seq<Standing>, m: nat)
    requires multiset(s) == multiset(t) && s != [] && m < |t| && t[m] == s[0]
    ensures multiset(s[1..]) == multiset(t[..m] + t[m + 1..])
  {
    assert t == t[..m] + [t[m]] + t[m + 1..];
    assert s == [s[0]] + s[1..];
    assert multiset(t) == multiset(t[..m]) + multiset{t[m]} + multiset(t[m + 1..]);
    assert multiset(s[1..]) == multiset(s) - multiset{s[0]};
    assert multiset(t[..m] + t[m + 1..]) == multiset(t) - multiset{t[m]};
  }

  /** Any one player's pairs can be counted first. */
  lemma {:induction false} BeatsRemove(t: seq<Standing>, k: nat, a: int, b: int)
    requires k < |t|
    ensures Beats(t, a, b) == Wins(t[k], t[..k] + t[k + 1..], a, b) + Beats(t[..k] + t[k + 1..], a, b)
  {
    if k == 0 {
      assert t[..0] + t[1..] == t[1..];
    } else {
      var rest' := t[1..][..k - 1] + t[1..][k..];
      BeatsRemove(t[1..], k - 1, a, b);
      assert t[1..][k - 1] == t[k];
      var rest := t[..k] + t[k + 1..];
      assert rest == [t[0]] + rest' && rest[1..] == rest';
      assert t[1..] == t[1..][..k - 1] + [t[k]] + t[1..][k..];
      WinsSplit(t[0], t[1..][..k - 1] + [t[k]], t[1..][k..], a, b);
      WinsSplit(t[0], t[1..][..k - 1], [t[k]], a, b);
      WinsSplit(t[0], t[1..][..k - 1], t[1..][k..], a, b);
      WinsSplit(t[k], [t[0]], rest', a, b);
    }
  }

  /** The wins of any class over any other do not depend on the order of the players. */
  lemma {:induction false} BeatsPermutation(s: seq<Standing>, t: seq<Standing>, a: int, b: int)
    requires multiset(s) == multiset(t)
    ensures Beats(s, a, b) == Beats(t, a, b)
    decreases |s|
  {
    if s != [] {
      assert s[0] in multiset(t);
      var m :| 0 <= m < |t| && t[m] == s[0];
      var rest := t[..m] + t[m + 1..];
      assert t == t[..m] + [t[m]] + t[m + 1..];
      assert s == [s[0]] + s[1..];
      RemoveOne(s, t, m);
      BeatsRemove(t, m, a, b);
      WinsPermutation(s[0], s[1..], rest, a, b);
      BeatsPermutation(s[1..], rest, a, b);
    }
  }

  /** Whatever the order the ranking gives tied players, the credits are the wins. */
  lemma RankCredits(s: seq<Standing>, a: int, b: int)
    ensures PairCount(RankByCode(s), a, b) == Beats(s, a, b)
  {
    RankedCreditsAreWins(RankByCode(s), a, b);
    BeatsPermutation(RankByCode(s), s, a, b);
  }

  /** Players with equal codes credit nothing. */
  lemma {:induction false} TiesCreditNothing(s: seq<Standing>, a: int, b: int)
    requires forall k :: 0 <= k < |s| ==> s[k].code == s[0].code
    ensures PairCount(s, a, b) == 0
  {
    if s != [] {
      NoCreditsAgainstTies(s[0], s[1..], a, b);
      TiesCreditNothing(s[1..], a, b);
    }
  }

  lemma {:induction false} NoCreditsAgainstTies(x: Standing, t: seq<Standing>, a: int, b: int)
    requires forall k :: 0 <= k < |t| ==> t[k].code == x.code
    ensures Against(x, t, a, b) == 0
  {
    if t != [] {
      NoCreditsAgainstTies(x, t[1..], a, b);
    }
  }

  /** Players with equal codes win nothing over one another. */
  lemma {:induction false} TiesWinNothing(s: seq<Standing>, a: int, b: int)
    requires forall k :: 0 <= k < |s| ==> s[k].code == s[0].code
    ensures Beats(s, a, b) == 0
  {
    if s != [] {
      NoWinsAgainstTies(s[0], s[1..], a, b);
      TiesWinNothing(s[1..], a, b);
    }
  }

  lemma {:induction false} NoWinsAgainstTies(x: Standing, t: seq<Standing>, a: int, b: int)
    requires forall k :: 0 <= k < |t| ==> t[k].code == x.code
    ensures Wins(x, t, a, b) == 0
  {
    if t != [] {
      NoWinsAgainstTies(x, t[1..], a, b);
    }
  }

  /** A player whose code is above another's gives at least one win to their class over the
      other's class. */
  lemma HigherCodeWins(s: seq<Standing>, i: int, j: int)
    requires 0 <= i < |s| && 0 <= j < |s| && s[i].code > s[j].code
    ensures Beats(s, s[i].tag, s[j].tag) >= 1
  {
    var a, b := s[i].tag, s[j].tag;
    var rest := s[..i] + s[i + 1..];
    var m := if j < i then j else j - 1;
    assert rest[m] == s[j];
    BeatsRemove(s, i, a, b);
    WinsAtLeast(s[i], rest, m, a, b);
  }

  /** The wins of x over a list are at least its win over any one of it. */
  lemma {:induction false} WinsAtLeast(x: Standing, t: seq<Standing>, m: int, a: int, b: int)
    requires 0 <= m < |t|
    ensures Wins(x, t, a, b) >= Win(x, t[m], a, b)
    decreases m
  {
    if m > 0 {
      WinsAtLeast(x, t[1..], m - 1, a, b);
    }
  }

  /** Two players of one class with different codes credit the diagonal cell. */
  lemma SharedClassOnDiagonal(x: Standing, y: Standing)
    requires x.code > y.code && x.tag == y.tag
    ensures Beats([x, y], x.tag, x.tag) == 1
  {
    assert [x, y][1..] == [y] && [y][1..] == [];
    assert Wins(x, [y], x.tag, x.tag) == 1;
    assert Beats([y], x.tag, x.tag) == 0;
  }

  /** Identical hands are not merged: two winners of one class over two losers of another
      credit the cell four times, and the diagonal not at all. */
  lemma DuplicatesAllCount(w: Standing, l: Standing)
    requires w.code > l.code && w.tag != l.tag
    ensures PairCount([w, w, l, l], w.tag, l.tag) == 4
    ensures PairCount([w, w, l, l], w.tag, w.tag) == 0
  {
    var s := [w, w, l, l];
    assert s[1..] == [w, l, l] && [w, l, l][1..] == [l, l] && [l, l][1..] == [l] && [l][1..] == [];
    TiesCreditNothing([l, l], w.tag, l.tag);
    TiesCreditNothing([l, l], w.tag, w.tag);
    assert Against(w, [l], w.tag, l.tag) == 1 && Against(w, [l], w.tag, w.tag) == 0;
    assert Against(w, [l, l], w.tag, l.tag) == 2 && Against(w, [l, l], w.tag, w.tag) == 0;
    assert Against(w, [w, l, l], w.tag, l.tag) == 2 && Against(w, [w, l, l], w.tag, w.tag) == 0;
  }

  // ---------------------------------------------------------------------------
  // Appearances: how many standings carry each tag.

  /** The number of standings tagged c. */
  function TagCount(s: seq<Standing>, c: int): nat
  {
    if s == [] then 0 else TagCount(s[..|s| - 1], c) + if s[|s| - 1].tag == c then 1 else 0
  }

  lemma {:induction false} TagCountSplit(u: seq<Standing>, v: seq<Standing>, c: int)
    ensures TagCount(u + v, c) == TagCount(u, c) + TagCount(v, c)
    decreases |v|
  {
    if v == [] {
      assert u + v == u;
    } else {
      assert (u + v)[..|u + v| - 1] == u + v[..|v| - 1];
      TagCountSplit(u, v[..|v| - 1], c);
    }
  }

  /** Tag counts do not depend on the order of the standings. */
  lemma {:induction false} TagCountPermutation(s: seq<Standing>, t: seq<Standing>, c: int)
    requires multiset(s) == multiset(t)
    ensures TagCount(s, c) == TagCount(t, c)
    decreases |s|
  {
    if s != [] {
      assert s[0] in multiset(t);
      var m :| 0 <= m < |t| && t[m] == s[0];
      var rest := t[..m] + t[m + 1..];
      assert t == t[..m] + [t[m]] + t[m + 1..];
      assert s == [s[0]] + s[1..];
      RemoveOne(s, t, m);
      TagCountSplit([s[0]], s[1..], c);
      TagCountSplit(t[..m] + [t[m]], t[m + 1..], c);
      TagCountSplit(t[..m], [t[m]], c);
      TagCountSplit(t[..m], t[m + 1..], c);
      assert TagCount([s[0]], c) == if s[0].tag == c then 1 else 0 by {
        assert [s[0]][..0] == [];
      }
      TagCountPermutation(s[1..], rest, c);
    }
  }

  /** The total of a counter vector. */
  function Sum(v: seq<int>): int
  {
    if v == [] then 0 else Sum(v[..|v| - 1]) + v[|v| - 1]
  }

  /** Adding d to one entry adds d to the total. */
  lemma {:induction false} SumUpdate(v: seq<int>, c: int, d: int)
    requires 0 <= c < |v|
    ensures Sum(v[c := v[c] + d]) == Sum(v) + d
    decreases |v|
  {
    var w := v[c := v[c] + d];
    if c < |v| - 1 {
      assert w[..|w| - 1] == v[..|v| - 1][c := v[c] + d];
      SumUpdate(v[..|v| - 1], c, d);
    } else {
      assert w[..|w| - 1] == v[..|v| - 1];
    }
  }
}
