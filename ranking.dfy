/** The feature-importance chart: the fetched list is sorted in place by
    descending importance with a stable sort, and its first ten entries are drawn. */
module FeatureRanking {

  datatype Importance = Importance(feature: string, importance: real)

  const TOP_COUNT: nat := 10

  // ---------------------------------------------------------------------------
  // The order the sort produces

  /** Places x after every entry at least as important as x, before the first
      strictly less important one: one entry longer than s. */
  function InsertDesc(s: seq<Importance>, x: Importance): (r: seq<Importance>)
    ensures |r| == |s| + 1
  {
    if s == [] then [x]
    else if s[0].importance < x.importance then [x] + s
    else [s[0]] + InsertDesc(s[1..], x)
  }

  /** The stable sort by descending importance, inserting entries from the
      left: a rearrangement of s. */
  function SortDesc(s: seq<Importance>): (r: seq<Importance>)
    ensures |r| == |s|
    ensures multiset(r) == multiset(s)
  {
    if s == [] then []
    else
      assert s == s[..|s| - 1] + [s[|s| - 1]];
      InsertDescPermutes(SortDesc(s[..|s| - 1]), s[|s| - 1]);
      InsertDesc(SortDesc(s[..|s| - 1]), s[|s| - 1])
  }

  /** `data.sort(...).slice(0, 10)` as a value: min(10, n) entries. */
  function TopTen(s: seq<Importance>): (r: seq<Importance>)
    ensures |r| == Min(TOP_COUNT, |s|)
  {
    var r := SortDesc(s);
    r[..Min(TOP_COUNT, |r|)]
  }

  function Min(a: int, b: int): int
  {
    if a <= b then a else b
  }

  predicate NonIncreasing(s: seq<Importance>)
  {
    forall i, j :: 0 <= i < j < |s| ==> s[i].importance >= s[j].importance
  }

  /** The entries of importance exactly v, in their order in s. */
  function WithImportance(s: seq<Importance>, v: real): seq<Importance>
  {
    if s == [] then []
    else (if s[0].importance == v then [s[0]] else []) + WithImportance(s[1..], v)
  }

  // ---------------------------------------------------------------------------
  // Properties of the order

  lemma {:induction false} WithImportanceAppend(a: seq<Importance>, b: seq<Importance>, v: real)
    ensures WithImportance(a + b, v) == WithImportance(a, v) + WithImportance(b, v)
  {
    if a == [] {
      assert a + b == b;
    } else {
      var t := a[1..];
      WithImportanceAppend(t, b, v);
      assert a == [a[0]] + t;
      assert a + b == [a[0]] + (t + b);
      WithImportanceCons(a[0], t, v);
      WithImportanceCons(a[0], t + b, v);
    }
  }

  lemma WithImportanceCons(h: Importance, s: seq<Importance>, v: real)
    ensures WithImportance([h] + s, v) == (if h.importance == v then [h] else []) + WithImportance(s, v)
  {
    assert ([h] + s)[0] == h;
    assert ([h] + s)[1..] == s;
  }

  lemma {:induction false} WithImportanceNone(s: seq<Importance>, v: real)
    requires forall i :: 0 <= i < |s| ==> s[i].importance < v
    ensures WithImportance(s, v) == []
  {
    if s != [] {
      WithImportanceNone(s[1..], v);
    }
  }

  /** Inserting adds x and keeps every entry of s. */
  lemma {:induction false} InsertDescPermutes(s: seq<Importance>, x: Importance)
    ensures multiset(InsertDesc(s, x)) == multiset(s) + multiset{x}
  {
    if s != [] && s[0].importance >= x.importance {
      InsertDescPermutes(s[1..], x);
      assert s == [s[0]] + s[1..];
    }
  }

  lemma NonIncreasingTail(s: seq<Importance>)
    requires NonIncreasing(s) && s != []
    ensures NonIncreasing(s[1..])
    ensures forall i :: 0 <= i < |s| ==> s[i].importance <= s[0].importance
  {
    forall i, j | 0 <= i < j < |s| - 1 ensures s[1..][i].importance >= s[1..][j].importance {
      assert s[1..][i] == s[i + 1] && s[1..][j] == s[j + 1];
    }
  }

  lemma {:induction false} InsertDescSorted(s: seq<Importance>, x: Importance)
    requires NonIncreasing(s)
    ensures NonIncreasing(InsertDesc(s, x))
  {
    if s != [] && s[0].importance >= x.importance {
      var t := s[1..];
      NonIncreasingTail(s);
      InsertDescSorted(t, x);
      InsertDescPermutes(t, x);
      var r := InsertDesc(s, x);
      assert r == [s[0]] + InsertDesc(t, x);
      forall j | 0 < j < |r| ensures s[0].importance >= r[j].importance {
        assert r[j] == InsertDesc(t, x)[j - 1];
        assert r[j] in multiset(InsertDesc(t, x));
        assert r[j] in t || r[j] == x;
      }
    }
  }

  lemma {:induction false} InsertDescStable(s: seq<Importance>, x: Importance, v: real)
    requires NonIncreasing(s)
    ensures WithImportance(InsertDesc(s, x), v) == WithImportance(s, v) + WithImportance([x], v)
  {
    if s == [] {
      assert InsertDesc(s, x) == [x];
    } else if s[0].importance < x.importance {
      assert InsertDesc(s, x) == [x] + s;
      StableAtFront(s, x, v);
    } else {
      var t := s[1..];
      NonIncreasingTail(s);
      InsertDescStable(t, x, v);
      assert InsertDesc(s, x) == [s[0]] + InsertDesc(t, x);
      StableBehindHead(s, InsertDesc(t, x), v);
    }
  }

  /** x placed before entries all less important than it keeps the order of
      every importance. */
  lemma StableAtFront(s: seq<Importance>, x: Importance, v: real)
    requires NonIncreasing(s) && s != [] && s[0].importance < x.importance
    ensures WithImportance([x] + s, v) == WithImportance(s, v) + WithImportance([x], v)
  {
    WithImportanceAppend([x], s, v);
    if x.importance == v {
      NonIncreasingTail(s);
      WithImportanceNone(s, v);
    } else {
      assert WithImportance([x], v) == [];
    }
  }

  lemma StableBehindHead(s: seq<Importance>, r: seq<Importance>, v: real)
    requires s != []
    ensures WithImportance([s[0]] + r, v) == WithImportance([s[0]], v) + WithImportance(r, v)
    ensures WithImportance(s, v) == WithImportance([s[0]], v) + WithImportance(s[1..], v)
  {
    WithImportanceAppend([s[0]], r, v);
    WithImportanceAppend([s[0]], s[1..], v);
    assert s == [s[0]] + s[1..];
  }

  /** The sort yields a permutation of its input in non-increasing importance,
      and entries of equal importance keep their input order. */
  lemma {:induction false} SortDescSpec(s: seq<Importance>)
    ensures |SortDesc(s)| == |s|
    ensures multiset(SortDesc(s)) == multiset(s)
    ensures NonIncreasing(SortDesc(s))
    ensures forall v :: WithImportance(SortDesc(s), v) == WithImportance(s, v)
  {
    if s != [] {
      var p, x := s[..|s| - 1], s[|s| - 1];
      assert s == p + [x];
      SortDescSpec(p);
      InsertDescSorted(SortDesc(p), x);
      forall v ensures WithImportance(SortDesc(s), v) == WithImportance(s, v) {
        InsertDescStable(SortDesc(p), x, v);
        WithImportanceAppend(p, [x], v);
      }
    }
  }

  /** The drawn list has min(10, n) entries in non-increasing importance; each
      is at least as important as every entry left out; together with the left-out
      entries it is the input rearranged; and entries of equal importance appear
      in input order, the first ones of each importance being the ones kept. */
  lemma TopTenSpec(s: seq<Importance>)
    ensures |TopTen(s)| == Min(TOP_COUNT, |s|)
    ensures NonIncreasing(TopTen(s))
    ensures var dropped := SortDesc(s)[|TopTen(s)|..];
      && multiset(TopTen(s)) + multiset(dropped) == multiset(s)
      && forall i, j :: 0 <= i < |TopTen(s)| && 0 <= j < |dropped| ==>
           TopTen(s)[i].importance >= dropped[j].importance
    ensures forall v :: WithImportance(TopTen(s), v) <= WithImportance(s, v)
  {
    SortDescSpec(s);
    var r := SortDesc(s);
    var k := Min(TOP_COUNT, |r|);
    assert TopTen(s) == r[..k];
    TopTenSplit(r, k);
    PrefixKeepsOrder(s, r, k);
  }

  /** A prefix of a stable rearrangement of s holds, for each importance, a
      prefix of s's entries of that importance. */
  lemma PrefixKeepsOrder(s: seq<Importance>, r: seq<Importance>, k: nat)
    requires k <= |r|
    requires forall v :: WithImportance(r, v) == WithImportance(s, v)
    ensures forall v :: WithImportance(r[..k], v) <= WithImportance(s, v)
  {
    forall v ensures WithImportance(r[..k], v) <= WithImportance(s, v) {
      assert r[..k] + r[k..] == r;
      WithImportanceAppend(r[..k], r[k..], v);
    }
  }

  lemma TopTenSplit(r: seq<Importance>, k: nat)
    requires NonIncreasing(r) && k <= |r|
    ensures NonIncreasing(r[..k])
    ensures multiset(r[..k]) + multiset(r[k..]) == multiset(r)
    ensures forall i, j :: 0 <= i < k && 0 <= j < |r| - k ==> r[..k][i].importance >= r[k..][j].importance
  {
    assert r[..k] + r[k..] == r;
    forall i, j | 0 <= i < k && 0 <= j < |r| - k ensures r[..k][i].importance >= r[k..][j].importance {
      assert r[..k][i] == r[i] && r[k..][j] == r[k + j];
    }
  }

  /** Three importances 0.1, 0.9, 0.5 are drawn most important first. */
  lemma ThreeFeaturesExample()
    ensures TopTen([Importance("a", 0.1), Importance("b", 0.9), Importance("c", 0.5)])
         == [Importance("b", 0.9), Importance("c", 0.5), Importance("a", 0.1)]
  {
    var s := [Importance("a", 0.1), Importance("b", 0.9), Importance("c", 0.5)];
    assert s[..2] == [Importance("a", 0.1), Importance("b", 0.9)];
    assert s[..2][..1] == [Importance("a", 0.1)];
    assert SortDesc(s[..2][..1]) == [Importance("a", 0.1)];
    assert SortDesc(s[..2]) == [Importance("b", 0.9), Importance("a", 0.1)];
    assert InsertDesc([Importance("a", 0.1)], Importance("c", 0.5)) == [Importance("c", 0.5), Importance("a", 0.1)];
    assert SortDesc(s) == [Importance("b", 0.9), Importance("c", 0.5), Importance("a", 0.1)];
  }

  // ---------------------------------------------------------------------------
  // The sort, in place

  /** Where the shifting loop stops inserting x is where InsertDesc puts it:
      after every entry at least as important, before a less important one. */
  lemma {:induction false} InsertDescAt(p: seq<Importance>, x: Importance, j: nat)
    requires j <= |p|
    requires forall k :: 0 <= k < j ==> p[k].importance >= x.importance
    requires j < |p| ==> p[j].importance < x.importance
    ensures InsertDesc(p, x) == p[..j] + [x] + p[j..]
  {
    if j == 0 {
      assert p[..0] == [] && p[0..] == p;
      if p != [] {
        assert p[0].importance < x.importance;
      }
    } else {
      var t := p[1..];
      assert forall k :: 0 <= k < j - 1 ==> t[k] == p[k + 1];
      assert j - 1 < |t| ==> t[j - 1] == p[j];
      InsertDescAt(t, x, j - 1);
      assert p[0].importance >= x.importance;
      assert InsertDesc(p, x) == [p[0]] + InsertDesc(t, x);
      ConsSplice(p, x, j);
    }
  }

  /** Splicing x into the tail at j - 1 and putting the head back in front is
      splicing x into the whole at j. */
  lemma ConsSplice(p: seq<Importance>, x: Importance, j: nat)
    requires 1 <= j <= |p|
    ensures [p[0]] + (p[1..][..j - 1] + [x] + p[1..][j - 1..]) == p[..j] + [x] + p[j..]
  {
    assert p[1..][..j - 1] == p[1..j] && p[1..][j - 1..] == p[j..];
    assert p[..j] == [p[0]] + p[1..j];
  }

  /** A sequence agreeing with p before j, holding x at j and p shifted by one
      after j is p with x spliced in at j. */
  lemma SplicedAt(r: seq<Importance>, p: seq<Importance>, x: Importance, j: nat)
    requires j <= |p| && |r| == |p| + 1
    requires forall k :: 0 <= k < j ==> r[k] == p[k]
    requires r[j] == x
    requires forall k :: j < k < |r| ==> r[k] == p[k - 1]
    ensures r == p[..j] + [x] + p[j..]
  {
    var q := p[..j] + [x] + p[j..];
    forall k | 0 <= k < |r| ensures r[k] == q[k] {
      if k < j { assert q[k] == p[k]; }
      else if k > j { assert q[k] == p[j..][k - j - 1]; }
    }
  }

  /** One step of the insertion sort: the entry at i moves left past every
      strictly less important entry before it. */
  method InsertLast(a: array<Importance>, i: int)
    requires 0 <= i < a.Length && NonIncreasing(a[..i])
    modifies a
    ensures a[..i + 1] == InsertDesc(old(a[..i]), old(a[i]))
    ensures a[i + 1..] == old(a[i + 1..])
  {
    ghost var p := a[..i];
    var x := a[i];
    var j := ShiftRight(a, i, x);
    a[j] := x;
    ShiftedIsInserted(a[..i + 1], p, x, j);
    assert a[i + 1..] == old(a[i + 1..]);
  }

  /** The shifting loop: moves each entry before i that is strictly less
      important than x one place right, stopping at the first that is not, and
      returns the hole left behind. */
  method ShiftRight(a: array<Importance>, i: int, x: Importance) returns (j: int)
    requires 0 <= i < a.Length
    modifies a
    ensures 0 <= j <= i
    ensures forall k :: 0 <= k < j ==> a[k] == old(a[k])
    ensures forall k :: j < k <= i ==> a[k] == old(a[k - 1])
    ensures forall k :: j <= k < i ==> old(a[k]).importance < x.importance
    ensures j > 0 ==> old(a[j - 1]).importance >= x.importance
    ensures forall k :: i < k < a.Length ==> a[k] == old(a[k])
  {
    j := i;
    while j > 0 && a[j - 1].importance < x.importance
      invariant 0 <= j <= i
      invariant forall k :: 0 <= k < j ==> a[k] == old(a[k])
      invariant forall k :: j < k <= i ==> a[k] == old(a[k - 1])
      invariant forall k :: j <= k < i ==> old(a[k]).importance < x.importance
      invariant forall k :: i < k < a.Length ==> a[k] == old(a[k])
    {
      a[j] := a[j - 1];
      j := j - 1;
    }
  }

  /** What the shifting loop leaves behind is InsertDesc's result. */
  lemma ShiftedIsInserted(r: seq<Importance>, p: seq<Importance>, x: Importance, j: nat)
    requires NonIncreasing(p) && j <= |p| && |r| == |p| + 1
    requires j > 0 ==> p[j - 1].importance >= x.importance
    requires forall k :: j <= k < |p| ==> p[k].importance < x.importance
    requires forall k :: 0 <= k < j ==> r[k] == p[k]
    requires r[j] == x
    requires forall k :: j < k < |r| ==> r[k] == p[k - 1]
    ensures r == InsertDesc(p, x)
  {
    assert forall k :: 0 <= k < j ==> p[k].importance >= p[j - 1].importance;
    InsertDescAt(p, x, j);
    SplicedAt(r, p, x, j);
  }

  /** `data.sort((a, b) => b.importance - a.importance)`: an insertion sort
      that shifts strictly less important entries one place to the right. */
  method SortByImportance(a: array<Importance>)
    modifies a
    ensures a[..] == SortDesc(old(a[..]))
    ensures multiset(a[..]) == multiset(old(a[..]))
  {
    ghost var orig := a[..];
    var i := 0;
    while i < a.Length
      invariant 0 <= i <= a.Length
      invariant a[..i] == SortDesc(orig[..i])
      invariant a[i..] == orig[i..]
    {
      SortDescSpec(orig[..i]);
      assert a[i] == orig[i];
      ghost var rest := a[i + 1..];
      assert rest == orig[i + 1..] by {
        assert a[i..][1..] == rest && orig[i..][1..] == orig[i + 1..];
      }
      InsertLast(a, i);
      assert orig[..i + 1][..i] == orig[..i] && orig[..i + 1][i] == orig[i];
      assert SortDesc(orig[..i + 1]) == InsertDesc(SortDesc(orig[..i]), orig[i]);
      i := i + 1;
    }
    assert a[..] == a[..a.Length] && orig == orig[..a.Length];
    SortDescSpec(orig);
  }

  /** The feature-importance chart's data: sorts the fetched array in place and
      returns its first ten entries. */
  method RankFeatures(a: array<Importance>) returns (top: seq<Importance>)
    modifies a
    ensures a[..] == SortDesc(old(a[..]))
    ensures top == TopTen(old(a[..]))
  {
    SortByImportance(a);
    top := a[..Min(TOP_COUNT, a.Length)];
  }
}
