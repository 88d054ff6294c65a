/** The dashboard's cost histogram: $200-wide bins starting at 0, as many as
    `ceil(max / 200)`, the last one open-ended above, and the number of costs
    falling into each. */
module CostHistogram {
  import Charts
  import Numeric

  const BIN_SIZE: nat := 200

  /** The lower edge of each bar and the number of costs it counts. */
  datatype Histogram = Histogram(edges: seq<int>, counts: seq<nat>)

  /** `data.map(d => d.maintenance_cost)`. */
  function Costs(data: seq<Charts.Sample>): (cs: seq<real>)
    ensures |cs| == |data| && forall i :: 0 <= i < |data| ==> cs[i] == data[i].maintenanceCost
  {
    seq(|data|, i requires 0 <= i < |data| => data[i].maintenanceCost)
  }

  /** `Math.max(...cs)` for a non-empty list. */
  function MaxOf(cs: seq<real>): (m: real)
    requires cs != []
    ensures exists i :: 0 <= i < |cs| && cs[i] == m
    ensures forall i :: 0 <= i < |cs| ==> cs[i] <= m
  {
    if |cs| == 1 then cs[0]
    else
      var rest := MaxOf(cs[1..]);
      assert forall i :: 1 <= i < |cs| ==> cs[i] == cs[1..][i - 1];
      if cs[0] >= rest then cs[0] else rest
  }

  /** `Math.ceil(Math.max(...cs) / 200)`, taken as an array length: the maximum
      of no costs is -Infinity and a length that is not positive makes no bins.
      With at least one bin, the maximum lies above the last bin's lower edge
      and at most 200 past it. */
  function BinCount(cs: seq<real>): (n: nat)
    ensures cs == [] ==> n == 0
    ensures n >= 1 ==> cs != [] && ((n - 1) * 200) as real < MaxOf(cs) <= (n * 200) as real
  {
    if cs == [] then 0
    else
      var c := Numeric.Ceil(MaxOf(cs) / BIN_SIZE as real);
      if c <= 0 then 0 else c
  }

  /** Bin i of n holds the costs from its lower edge up to the next bin's edge;
      the last bin's upper edge is `bins[n] || Infinity`, that is, none. */
  predicate InBin(c: real, i: nat, n: nat)
  {
    (i * BIN_SIZE) as real <= c && (i + 1 < n ==> c < ((i + 1) * BIN_SIZE) as real)
  }

  /** `cs.filter(c => c >= bin && c < nextBin).length`. */
  function CountIn(cs: seq<real>, i: nat, n: nat): nat
  {
    if cs == [] then 0
    else CountIn(cs[..|cs| - 1], i, n) + (if InBin(cs[|cs| - 1], i, n) then 1 else 0)
  }

  /** The count of every bin; with at least one bin, every non-negative cost
      is counted exactly once, so the counts add up to their number. */
  function Counts(cs: seq<real>, n: nat): (r: seq<nat>)
    ensures |r| == n && forall i :: 0 <= i < n ==> r[i] == CountIn(cs, i, n)
    ensures n >= 1 ==> SumNat(r) == NonNegative(cs)
  {
    var r := seq(n, i requires 0 <= i < n => CountIn(cs, i, n));
    if n >= 1 then CountsAddUp(cs, n, r); r else r
  }

  /** The histogram the chart is drawn from: edges 0, 200, 400, ... with one
      count per edge, and no bins at all for no data. */
  function Build(data: seq<Charts.Sample>): (h: Histogram)
    ensures |h.edges| == |h.counts| == BinCount(Costs(data))
    ensures forall i :: 0 <= i < |h.edges| ==> h.edges[i] == 200 * i
    ensures data == [] ==> h.edges == [] && h.counts == []
  {
    var cs := Costs(data);
    var n := BinCount(cs);
    Histogram(seq(n, i requires 0 <= i < n => i * BIN_SIZE), Counts(cs, n))
  }

  /** The number of costs that are not negative. */
  function NonNegative(cs: seq<real>): nat
  {
    if cs == [] then 0
    else NonNegative(cs[..|cs| - 1]) + (if cs[|cs| - 1] >= 0.0 then 1 else 0)
  }

  function SumNat(s: seq<nat>): nat
  {
    if s == [] then 0 else SumNat(s[..|s| - 1]) + s[|s| - 1]
  }

  // ---------------------------------------------------------------------------
  // Shape

  /** For a positive maximum there are ceil(max / 200) bins, so the maximum lies
      above the last bin's lower edge and at most 200 past it; otherwise none. */
  lemma BinCountSpec(cs: seq<real>)
    ensures cs != [] && MaxOf(cs) > 0.0 ==>
      var n := BinCount(cs);
      && n == Numeric.Ceil(MaxOf(cs) / 200.0)
      && n >= 1
      && ((n - 1) * 200) as real < MaxOf(cs) <= (n * 200) as real
    ensures cs == [] || MaxOf(cs) <= 0.0 ==> BinCount(cs) == 0
  {
    if cs != [] {
      var m := MaxOf(cs);
      var c := Numeric.Ceil(m / 200.0);
      assert m / 200.0 <= c as real < m / 200.0 + 1.0;
      if m > 0.0 {
        assert c >= 1;
      } else {
        assert c <= 0;
      }
    }
  }

  // ---------------------------------------------------------------------------
  // Every non-negative cost lands in exactly one bin

  /** The bin a non-negative cost belongs to: floor(c / 200), or the last bin. */
  function BinOf(c: real, n: nat): (b: nat)
    requires c >= 0.0 && n >= 1
    ensures b < n
  {
    var f := (c / 200.0).Floor;
    if f >= n - 1 then n - 1 else f
  }

  lemma ExactlyOneBin(c: real, n: nat)
    requires n >= 1
    ensures c >= 0.0 ==> InBin(c, BinOf(c, n), n)
    ensures c >= 0.0 ==> forall i :: 0 <= i < n && InBin(c, i, n) ==> i == BinOf(c, n)
    ensures c < 0.0 ==> forall i :: 0 <= i < n ==> !InBin(c, i, n)
  {
    if c >= 0.0 {
      var f := (c / 200.0).Floor;
      assert (f * 200) as real <= c < ((f + 1) * 200) as real;
      var b := BinOf(c, n);
      forall i | 0 <= i < n && InBin(c, i, n) ensures i == b {
      }
    }
  }

  /** Which bins of n the single cost c adds one to. */
  function Indicator(c: real, n: nat): (r: seq<nat>)
    ensures |r| == n && forall i :: 0 <= i < n ==> r[i] == if InBin(c, i, n) then 1 else 0
  {
    seq(n, i requires 0 <= i < n => if InBin(c, i, n) then 1 else 0)
  }

  lemma {:induction false} SumPointwise(a: seq<nat>, b: seq<nat>, s: seq<nat>)
    requires |a| == |b| == |s|
    requires forall i :: 0 <= i < |s| ==> s[i] == a[i] + b[i]
    ensures SumNat(s) == SumNat(a) + SumNat(b)
  {
    if s != [] {
      var k := |s| - 1;
      SumPointwise(a[..k], b[..k], s[..k]);
    }
  }

  lemma {:induction false} SumZeros(s: seq<nat>)
    requires forall i :: 0 <= i < |s| ==> s[i] == 0
    ensures SumNat(s) == 0
  {
    if s != [] {
      SumZeros(s[..|s| - 1]);
    }
  }

  lemma {:induction false} SumOneHot(s: seq<nat>, b: nat)
    requires b < |s| && s[b] == 1
    requires forall i :: 0 <= i < |s| && i != b ==> s[i] == 0
    ensures SumNat(s) == 1
  {
    var k := |s| - 1;
    if b == k {
      SumZeros(s[..k]);
    } else {
      SumOneHot(s[..k], b);
    }
  }

  lemma SumIndicator(c: real, n: nat)
    requires n >= 1
    ensures SumNat(Indicator(c, n)) == if c >= 0.0 then 1 else 0
  {
    ExactlyOneBin(c, n);
    if c >= 0.0 {
      SumOneHot(Indicator(c, n), BinOf(c, n));
    } else {
      SumZeros(Indicator(c, n));
    }
  }

  /** With at least one bin, the counts add up to the number of non-negative costs. */
  lemma {:induction false} CountsAddUp(cs: seq<real>, n: nat, r: seq<nat>)
    requires n >= 1
    requires |r| == n && forall i :: 0 <= i < n ==> r[i] == CountIn(cs, i, n)
    ensures SumNat(r) == NonNegative(cs)
  {
    if cs == [] {
      SumZeros(r);
    } else {
      var p, c := cs[..|cs| - 1], cs[|cs| - 1];
      var rp := seq(n, i requires 0 <= i < n => CountIn(p, i, n));
      CountsAddUp(p, n, rp);
      SumPointwise(rp, Indicator(c, n), r);
      SumIndicator(c, n);
    }
  }

  /** Every non-negative cost is counted once when the maximum is positive: the
      counts sum to the number of non-negative costs. */
  lemma BuildCountsEveryCost(data: seq<Charts.Sample>)
    requires data != [] && MaxOf(Costs(data)) > 0.0
    ensures SumNat(Build(data).counts) == NonNegative(Costs(data))
  {
    BinCountSpec(Costs(data));
  }

  /** If every cost is at least some positive amount, every record is counted. */
  lemma {:induction false} BuildCountsAllPositiveCosts(data: seq<Charts.Sample>, floor: real)
    requires floor > 0.0
    requires forall i :: 0 <= i < |data| ==> data[i].maintenanceCost >= floor
    ensures SumNat(Build(data).counts) == |data|
  {
    if data == [] {
      return;
    }
    var cs := Costs(data);
    assert cs[0] <= MaxOf(cs);
    BuildCountsEveryCost(data);
    AllNonNegative(cs);
  }

  lemma {:induction false} AllNonNegative(cs: seq<real>)
    requires forall i :: 0 <= i < |cs| ==> cs[i] >= 0.0
    ensures NonNegative(cs) == |cs|
  {
    if cs != [] {
      AllNonNegative(cs[..|cs| - 1]);
    }
  }

  /** The last bin is open above: a maximum that lies exactly on a multiple of
      200 falls into it rather than past it. */
  lemma MaximumOnEdgeFallsInLastBin(cs: seq<real>)
    requires cs != [] && MaxOf(cs) > 0.0
    ensures InBin(MaxOf(cs), BinCount(cs) - 1, BinCount(cs))
  {
    BinCountSpec(cs);
  }

  /** Costs 100, 250, 199, 400 make two bins, [0, 200) with two costs and
      [200, ...) with the other two. */
  lemma FourCostsExample()
    ensures Build([Charts.Sample("", "", 0, 100.0), Charts.Sample("", "", 0, 250.0),
                   Charts.Sample("", "", 0, 199.0), Charts.Sample("", "", 0, 400.0)])
         == Histogram([0, 200], [2, 2])
  {
    var data := [Charts.Sample("", "", 0, 100.0), Charts.Sample("", "", 0, 250.0),
                 Charts.Sample("", "", 0, 199.0), Charts.Sample("", "", 0, 400.0)];
    var cs := Costs(data);
    assert cs == [100.0, 250.0, 199.0, 400.0];
    FourCostsBinCount(cs);
    FourCostsCounts(cs);
    var h := Build(data);
    assert h.edges == [0, 200];
    assert h.counts == [2, 2];
  }

  lemma FourCostsBinCount(cs: seq<real>)
    requires cs == [100.0, 250.0, 199.0, 400.0]
    ensures BinCount(cs) == 2
  {
    assert cs[3] <= MaxOf(cs);
    var j :| 0 <= j < 4 && cs[j] == MaxOf(cs);
    assert MaxOf(cs) == 400.0;
  }

  lemma FourCostsCounts(cs: seq<real>)
    requires cs == [100.0, 250.0, 199.0, 400.0]
    ensures CountIn(cs, 0, 2) == 2 && CountIn(cs, 1, 2) == 2
  {
    var p3, p2, p1 := cs[..3], cs[..3][..2], cs[..3][..2][..1];
    assert p3 == [100.0, 250.0, 199.0] && p2 == [100.0, 250.0] && p1 == [100.0] && p1[..0] == [];
    assert CountIn(p1, 0, 2) == 1 && CountIn(p1, 1, 2) == 0;
    assert CountIn(p2, 0, 2) == 1 && CountIn(p2, 1, 2) == 1;
    assert CountIn(p3, 0, 2) == 2 && CountIn(p3, 1, 2) == 1;
  }

  /** A lone cost of 0 makes no bins at all: ceil(0 / 200) is 0, so that
      non-negative cost is not counted anywhere. */
  lemma ZeroMaximumMakesNoBins()
    ensures Build([Charts.Sample("", "", 0, 0.0)]) == Histogram([], [])
  {
    assert MaxOf([0.0]) == 0.0;
  }
}
