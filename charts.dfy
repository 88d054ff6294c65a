/** The grouping and averaging behind the dashboard's make, driving-condition
    and vehicle-age charts: the data each chart hands to the charting library,
    without the drawing itself. */
module Charts {
  import Numeric

  /** One record of the sample dataset, restricted to the fields the charts read. */
  datatype Sample = Sample(make: string, drivingCondition: string, vehicleAge: int, maintenanceCost: real)

  /** A JavaScript number produced by `sum / length`: finite, or NaN for `0 / 0`. */
  datatype Num = Finite(value: real) | NaN

  /** A chart's labels and the values drawn against them. */
  datatype Series<L> = Series(labels: seq<L>, values: seq<Num>)

  /** The field a chart filters on and the value it must be strictly equal to. */
  datatype Key = MakeIs(make: string) | ConditionIs(condition: string) | AgeIs(age: int)

  predicate Matches(d: Sample, k: Key)
  {
    match k
    case MakeIs(m) => d.make == m
    case ConditionIs(c) => d.drivingCondition == c
    case AgeIs(a) => d.vehicleAge == a
  }

  // ---------------------------------------------------------------------------
  // Filtering and averaging

  /** `data.filter(d => d.<field> === value)`: the matching records, in order. */
  function Group(data: seq<Sample>, k: Key): (g: seq<Sample>)
    ensures |g| <= |data|
  {
    if data == [] then []
    else
      var last := data[|data| - 1];
      Group(data[..|data| - 1], k) + (if Matches(last, k) then [last] else [])
  }

  /** The filtered records are exactly the records that match. */
  lemma {:induction false} GroupMembers(data: seq<Sample>, k: Key)
    ensures forall d :: d in Group(data, k) ==> d in data && Matches(d, k)
    ensures forall d :: d in data && Matches(d, k) ==> d in Group(data, k)
  {
    if data != [] {
      var p, last := data[..|data| - 1], data[|data| - 1];
      GroupMembers(p, k);
      assert data == p + [last];
    }
  }

  /** `g.reduce((sum, d) => sum + d.maintenance_cost, 0)`. */
  function SumCosts(g: seq<Sample>): real
  {
    if g == [] then 0.0 else SumCosts(g[..|g| - 1]) + g[|g| - 1].maintenanceCost
  }

  /** The sum of costs divided by the number of records; `0 / 0` is NaN. */
  function Average(g: seq<Sample>): (r: Num)
    ensures r.NaN? <==> g == []
  {
    if |g| == 0 then NaN else Finite(SumCosts(g) / |g| as real)
  }

  /** The average cost of the records matching a key. */
  function GroupMean(data: seq<Sample>, k: Key): Num
  {
    Average(Group(data, k))
  }

  function MinCost(g: seq<Sample>): (m: real)
    requires g != []
    ensures exists i :: 0 <= i < |g| && g[i].maintenanceCost == m
    ensures forall i :: 0 <= i < |g| ==> m <= g[i].maintenanceCost
  {
    if |g| == 1 then g[0].maintenanceCost
    else
      var rest := MinCost(g[1..]);
      assert forall i :: 1 <= i < |g| ==> g[i] == g[1..][i - 1];
      if g[0].maintenanceCost <= rest then g[0].maintenanceCost else rest
  }

  function MaxCost(g: seq<Sample>): (m: real)
    requires g != []
    ensures exists i :: 0 <= i < |g| && g[i].maintenanceCost == m
    ensures forall i :: 0 <= i < |g| ==> g[i].maintenanceCost <= m
  {
    if |g| == 1 then g[0].maintenanceCost
    else
      var rest := MaxCost(g[1..]);
      assert forall i :: 1 <= i < |g| ==> g[i] == g[1..][i - 1];
      if g[0].maintenanceCost >= rest then g[0].maintenanceCost else rest
  }

  lemma {:induction false} SumCostsBounds(g: seq<Sample>, lo: real, hi: real)
    requires forall i :: 0 <= i < |g| ==> lo <= g[i].maintenanceCost <= hi
    ensures lo * |g| as real <= SumCosts(g) <= hi * |g| as real
  {
    if g != [] {
      SumCostsBounds(g[..|g| - 1], lo, hi);
    }
  }

  /** A non-empty group's average is a number between its cheapest and dearest record. */
  lemma AverageBetween(g: seq<Sample>)
    requires g != []
    ensures Average(g).Finite?
    ensures MinCost(g) <= Average(g).value <= MaxCost(g)
  {
    MeanOfBounded(g, MinCost(g), MaxCost(g));
  }

  lemma MeanOfBounded(g: seq<Sample>, lo: real, hi: real)
    requires g != []
    requires forall i :: 0 <= i < |g| ==> lo <= g[i].maintenanceCost <= hi
    ensures lo <= SumCosts(g) / |g| as real <= hi
  {
    SumCostsBounds(g, lo, hi);
    Numeric.DivideBounds(SumCosts(g), |g| as real, lo, hi);
  }

  /** A key some record carries has a defined average, bounded by that group's costs. */
  lemma GroupMeanOfPresentKey(data: seq<Sample>, k: Key, j: int)
    requires 0 <= j < |data| && Matches(data[j], k)
    ensures Group(data, k) != []
    ensures GroupMean(data, k).Finite?
    ensures MinCost(Group(data, k)) <= GroupMean(data, k).value <= MaxCost(Group(data, k))
  {
    GroupMembers(data, k);
    assert data[j] in data;
    AverageBetween(Group(data, k));
  }

  /** No record matches exactly when the group is empty. */
  lemma {:induction false} GroupEmpty(data: seq<Sample>, k: Key)
    ensures Group(data, k) == [] <==> forall j :: 0 <= j < |data| ==> !Matches(data[j], k)
  {
    if data != [] {
      var p, last := data[..|data| - 1], data[|data| - 1];
      GroupEmpty(p, k);
      assert Group(data, k) == Group(p, k) + (if Matches(last, k) then [last] else []);
      assert forall j :: 0 <= j < |p| ==> data[j] == p[j];
    }
  }

  /** Filtering distributes over concatenation. */
  lemma {:induction false} GroupAppend(a: seq<Sample>, b: seq<Sample>, k: Key)
    ensures Group(a + b, k) == Group(a, k) + Group(b, k)
  {
    if b == [] {
      assert a + b == a;
    } else {
      var b' := b[..|b| - 1];
      GroupAppend(a, b', k);
      assert (a + b)[..|a + b| - 1] == a + b';
    }
  }

  // ---------------------------------------------------------------------------
  // Distinct values in first-occurrence order: `[...new Set(xs)]`

  predicate NoDuplicates<T(==)>(s: seq<T>)
  {
    forall i, j :: 0 <= i < j < |s| ==> s[i] != s[j]
  }

  /** The position of the first occurrence of x. */
  function FirstIndex<T(==)>(xs: seq<T>, x: T): (k: nat)
    requires x in xs
    ensures k < |xs| && xs[k] == x
    ensures forall j :: 0 <= j < k ==> xs[j] != x
  {
    if xs[0] == x then 0 else 1 + FirstIndex(xs[1..], x)
  }

  /** A set fed left to right, then spread into an array: no longer than xs
      and holding exactly the values of xs. */
  function Distinct<T(==)>(xs: seq<T>): (r: seq<T>)
    ensures |r| <= |xs|
    ensures forall i :: 0 <= i < |r| ==> r[i] in xs
    ensures forall i :: 0 <= i < |xs| ==> xs[i] in r
  {
    if xs == [] then []
    else
      var seen := Distinct(xs[..|xs| - 1]);
      assert xs == xs[..|xs| - 1] + [xs[|xs| - 1]];
      if xs[|xs| - 1] in seen then seen else seen + [xs[|xs| - 1]]
  }

  lemma FirstIndexOfExtended<T>(p: seq<T>, y: T, z: T)
    requires z in p
    ensures FirstIndex(p + [y], z) == FirstIndex(p, z)
  {
    var k, k' := FirstIndex(p + [y], z), FirstIndex(p, z);
    assert (p + [y])[k'] == z;
  }

  /** `[...new Set(xs)]` lists each value of xs once, in order of first appearance. */
  lemma {:induction false} DistinctSpec<T>(xs: seq<T>)
    ensures NoDuplicates(Distinct(xs))
    ensures forall x :: x in Distinct(xs) ==> x in xs
    ensures forall x :: x in xs ==> x in Distinct(xs)
    ensures forall i, j :: 0 <= i < j < |Distinct(xs)| ==>
      FirstIndex(xs, Distinct(xs)[i]) < FirstIndex(xs, Distinct(xs)[j])
  {
    if xs != [] {
      var p, y := xs[..|xs| - 1], xs[|xs| - 1];
      assert xs == p + [y];
      DistinctSpec(p);
      var seen := Distinct(p);
      forall z | z in seen ensures z in p && FirstIndex(xs, z) == FirstIndex(p, z) {
        FirstIndexOfExtended(p, y, z);
      }
      if y !in seen {
        assert FirstIndex(xs, y) == |p|;
      }
    }
  }

  // ---------------------------------------------------------------------------
  // Sorting numbers ascending: `.sort((a, b) => a - b)`

  predicate StrictlyIncreasing(s: seq<int>)
  {
    forall i, j :: 0 <= i < j < |s| ==> s[i] < s[j]
  }

  /** Places x before the first element not below it: s with x added. */
  function Insert(s: seq<int>, x: int): (r: seq<int>)
    ensures multiset(r) == multiset(s) + multiset{x}
  {
    if s == [] then [x]
    else if x <= s[0] then [x] + s
    else
      assert s == [s[0]] + s[1..];
      [s[0]] + Insert(s[1..], x)
  }

  /** The numbers of xs rearranged in ascending order. */
  function SortAscending(xs: seq<int>): (r: seq<int>)
    ensures multiset(r) == multiset(xs)
  {
    if xs == [] then []
    else
      assert xs == [xs[0]] + xs[1..];
      Insert(SortAscending(xs[1..]), xs[0])
  }

  lemma {:induction false} InsertIntoIncreasing(s: seq<int>, x: int)
    requires StrictlyIncreasing(s) && x !in s
    ensures |Insert(s, x)| == |s| + 1
    ensures forall y :: y in Insert(s, x) <==> y in s || y == x
    ensures StrictlyIncreasing(Insert(s, x))
  {
    if s != [] && x > s[0] {
      InsertIntoIncreasing(s[1..], x);
      assert forall y :: y in s <==> y == s[0] || y in s[1..];
      var r := Insert(s, x);
      assert r == [s[0]] + Insert(s[1..], x);
      forall j | 0 < j < |r| ensures s[0] < r[j] {
        assert r[j] in Insert(s[1..], x);
      }
    }
  }

  /** Sorting distinct numbers yields them in strictly increasing order. */
  lemma {:induction false} SortDistinct(xs: seq<int>)
    requires NoDuplicates(xs)
    ensures |SortAscending(xs)| == |xs|
    ensures forall y :: y in SortAscending(xs) <==> y in xs
    ensures StrictlyIncreasing(SortAscending(xs))
  {
    if xs != [] {
      assert NoDuplicates(xs[1..]) by {
        forall i, j | 0 <= i < j < |xs[1..]| ensures xs[1..][i] != xs[1..][j] {
          assert xs[1..][i] == xs[i + 1] && xs[1..][j] == xs[j + 1];
        }
      }
      SortDistinct(xs[1..]);
      assert xs[0] !in xs[1..] by {
        forall j | 0 <= j < |xs[1..]| ensures xs[1..][j] != xs[0] {
          assert xs[1..][j] == xs[j + 1];
        }
      }
      InsertIntoIncreasing(SortAscending(xs[1..]), xs[0]);
      assert forall y :: y in xs <==> y == xs[0] || y in xs[1..];
    }
  }

  // ---------------------------------------------------------------------------
  // The make chart

  /** `data.map(d => d.make)`. */
  function Makes(data: seq<Sample>): (ms: seq<string>)
    ensures |ms| == |data| && forall i :: 0 <= i < |data| ==> ms[i] == data[i].make
  {
    seq(|data|, i requires 0 <= i < |data| => data[i].make)
  }

  /** The distinct makes, and for each the average cost of that make's records:
      one value per label, no more labels than records, and the labels are
      exactly the makes present. */
  function MakeChart(data: seq<Sample>): (s: Series<string>)
    ensures |s.values| == |s.labels| <= |data|
    ensures forall m :: m in s.labels <==> m in Makes(data)
  {
    var makes := Distinct(Makes(data));
    Series(makes, seq(|makes|, i requires 0 <= i < |makes| => GroupMean(data, MakeIs(makes[i]))))
  }

  /** The make chart's labels are the makes present, each once, in order of
      first appearance, with exactly one value per label. */
  lemma MakeChartLabels(data: seq<Sample>)
    ensures NoDuplicates(MakeChart(data).labels)
    ensures forall m :: m in MakeChart(data).labels <==> exists j :: 0 <= j < |data| && data[j].make == m
    ensures forall m :: m in MakeChart(data).labels <==> m in Makes(data)
    ensures forall i, j :: 0 <= i < j < |MakeChart(data).labels| ==>
      FirstIndex(Makes(data), MakeChart(data).labels[i]) < FirstIndex(Makes(data), MakeChart(data).labels[j])
    ensures |MakeChart(data).values| == |MakeChart(data).labels|
  {
    var ms := Makes(data);
    DistinctSpec(ms);
    forall m ensures m in ms <==> exists j :: 0 <= j < |data| && data[j].make == m {
      if m in ms {
        var j :| 0 <= j < |ms| && ms[j] == m;
        assert data[j].make == m;
      }
    }
  }

  /** Every make group is non-empty, so its average is a number lying between
      that make's cheapest and dearest record. */
  lemma MakeChartAverages(data: seq<Sample>, i: int)
    requires 0 <= i < |MakeChart(data).labels|
    ensures |MakeChart(data).values| == |MakeChart(data).labels|
    ensures MakeChart(data).values[i] == GroupMean(data, MakeIs(MakeChart(data).labels[i]))
    ensures MakeChart(data).values[i].Finite?
    ensures var g := Group(data, MakeIs(MakeChart(data).labels[i]));
      g != [] && MinCost(g) <= MakeChart(data).values[i].value <= MaxCost(g)
  {
    var m := MakeChart(data).labels[i];
    MakeChartLabels(data);
    assert m in MakeChart(data).labels;
    var j :| 0 <= j < |data| && data[j].make == m;
    GroupMeanOfPresentKey(data, MakeIs(m), j);
  }

  /** Two Toyota records of 500 and 700 and a Ford record of 300 chart as
      Toyota 600 and Ford 300; a make with no records gets no label at all. */
  lemma MakeChartExample()
    ensures MakeChart([Sample("Toyota", "", 0, 500.0), Sample("Toyota", "", 0, 700.0), Sample("Ford", "", 0, 300.0)])
         == Series(["Toyota", "Ford"], [Finite(600.0), Finite(300.0)])
  {
    var data := [Sample("Toyota", "", 0, 500.0), Sample("Toyota", "", 0, 700.0), Sample("Ford", "", 0, 300.0)];
    var ms := Makes(data);
    assert ms == ["Toyota", "Toyota", "Ford"];
    ExampleMakes(ms);
    var labels := Distinct(ms);
    ExampleGroups(data);
    ExampleSums(data[0], data[1], data[2]);
    var c := MakeChart(data);
    assert c.labels == labels;
    assert c.values[0] == GroupMean(data, MakeIs("Toyota")) == Finite(600.0);
    assert c.values[1] == GroupMean(data, MakeIs("Ford")) == Finite(300.0);
    assert c.values == [Finite(600.0), Finite(300.0)];
  }

  lemma ExampleMakes(ms: seq<string>)
    requires ms == ["Toyota", "Toyota", "Ford"]
    ensures Distinct(ms) == ["Toyota", "Ford"]
  {
    assert ms[..2] == ["Toyota", "Toyota"] && ms[..2][..1] == ["Toyota"] && ms[..2][..1][..0] == [];
    assert Distinct(ms[..2][..1]) == ["Toyota"];
    assert Distinct(ms[..2]) == ["Toyota"];
  }

  lemma ExampleGroups(data: seq<Sample>)
    requires data == [Sample("Toyota", "", 0, 500.0), Sample("Toyota", "", 0, 700.0), Sample("Ford", "", 0, 300.0)]
    ensures Group(data, MakeIs("Toyota")) == [data[0], data[1]]
    ensures Group(data, MakeIs("Ford")) == [data[2]]
  {
    assert data[..2] == [data[0], data[1]] && data[..2][..1] == [data[0]] && data[..2][..1][..0] == [];
    assert Group(data[..2][..1], MakeIs("Toyota")) == [data[0]];
    assert Group(data[..2][..1], MakeIs("Ford")) == [];
    assert Group(data[..2], MakeIs("Toyota")) == [data[0], data[1]];
    assert Group(data[..2], MakeIs("Ford")) == [];
  }

  lemma ExampleSums(a: Sample, b: Sample, c: Sample)
    requires a.maintenanceCost == 500.0 && b.maintenanceCost == 700.0 && c.maintenanceCost == 300.0
    ensures Average([a, b]) == Finite(600.0) && Average([c]) == Finite(300.0)
  {
    assert [a, b][..1] == [a] && [a][..0] == [] && [c][..0] == [];
    assert SumCosts([a]) == SumCosts([]) + a.maintenanceCost == 500.0;
    assert SumCosts([c]) == SumCosts([]) + c.maintenanceCost == 300.0;
    assert SumCosts([a, b]) == SumCosts([a]) + b.maintenanceCost == 1200.0;
  }

  // ---------------------------------------------------------------------------
  // The driving-condition chart

  const CONDITIONS: seq<string> := ["city", "highway", "mixed"]

  /** `toUpperCase` on a single character, for the ASCII letters. */
  function UpperAscii(c: char): char
  {
    if 'a' <= c <= 'z' then (c as int - 'a' as int + 'A' as int) as char else c
  }

  /** `c.charAt(0).toUpperCase() + c.slice(1)`. */
  function Capitalize(s: string): (r: string)
    ensures |r| == |s|
    ensures s != [] ==> r[0] == UpperAscii(s[0]) && r[1..] == s[1..]
  {
    if s == [] then [] else [UpperAscii(s[0])] + s[1..]
  }

  /** A pie of the three fixed conditions, each with its records' average
      cost: three labels and three values, whatever the data. */
  function ConditionChart(data: seq<Sample>): (s: Series<string>)
    ensures |s.labels| == |s.values| == |CONDITIONS|
  {
    Series(seq(|CONDITIONS|, i requires 0 <= i < |CONDITIONS| => Capitalize(CONDITIONS[i])),
           seq(|CONDITIONS|, i requires 0 <= i < |CONDITIONS| => GroupMean(data, ConditionIs(CONDITIONS[i]))))
  }

  /** Exactly three entries, labelled City, Highway, Mixed in that order, each
      the average cost of the records of that condition; a condition with no
      records gives NaN (not 0), and otherwise a number between that
      condition's cheapest and dearest record. */
  lemma ConditionChartSpec(data: seq<Sample>)
    ensures ConditionChart(data).labels == ["City", "Highway", "Mixed"]
    ensures |ConditionChart(data).values| == 3
    ensures forall i :: 0 <= i < 3 ==>
      ConditionChart(data).values[i] == GroupMean(data, ConditionIs(CONDITIONS[i]))
    ensures forall i :: 0 <= i < 3 ==>
      (ConditionChart(data).values[i].NaN? <==>
        forall j :: 0 <= j < |data| ==> data[j].drivingCondition != CONDITIONS[i])
    ensures forall i :: 0 <= i < 3 && ConditionChart(data).values[i].Finite? ==>
      var g := Group(data, ConditionIs(CONDITIONS[i]));
      g != [] && MinCost(g) <= ConditionChart(data).values[i].value <= MaxCost(g)
  {
    var s := ConditionChart(data);
    assert Capitalize("city") == "City";
    assert Capitalize("highway") == "Highway";
    assert Capitalize("mixed") == "Mixed";
    forall i | 0 <= i < 3
      ensures s.values[i].NaN? <==> forall j :: 0 <= j < |data| ==> data[j].drivingCondition != CONDITIONS[i]
      ensures s.values[i].Finite? ==>
        var g := Group(data, ConditionIs(CONDITIONS[i]));
        g != [] && MinCost(g) <= s.values[i].value <= MaxCost(g)
    {
      var k := ConditionIs(CONDITIONS[i]);
      if j :| 0 <= j < |data| && data[j].drivingCondition == CONDITIONS[i] {
        GroupMeanOfPresentKey(data, k, j);
      } else {
        GroupEmpty(data, k);
      }
    }
  }

  /** A record whose condition is not one of the three, wherever it stands,
      contributes to none of the averages. */
  lemma ConditionChartIgnoresOtherConditions(data: seq<Sample>, k: int, d: Sample)
    requires 0 <= k <= |data|
    requires d.drivingCondition !in CONDITIONS
    ensures ConditionChart(data[..k] + [d] + data[k..]) == ConditionChart(data)
  {
    var s', s := ConditionChart(data[..k] + [d] + data[k..]), ConditionChart(data);
    forall i | 0 <= i < |CONDITIONS| ensures s'.values[i] == s.values[i] {
      GroupSkipsNonMatching(data, k, d, ConditionIs(CONDITIONS[i]));
    }
    assert s'.values == s.values;
  }

  /** Inserting a record that does not match leaves a group unchanged. */
  lemma GroupSkipsNonMatching(data: seq<Sample>, k: int, d: Sample, key: Key)
    requires 0 <= k <= |data| && !Matches(d, key)
    ensures Group(data[..k] + [d] + data[k..], key) == Group(data, key)
  {
    var a, b := data[..k], data[k..];
    assert a + b == data;
    GroupAppend(a + [d], b, key);
    GroupAppend(a, [d], key);
    GroupOfNonMatching(d, key);
    assert Group(a + [d], key) == Group(a, key);
    GroupAppend(a, b, key);
  }

  lemma GroupOfNonMatching(d: Sample, key: Key)
    requires !Matches(d, key)
    ensures Group([d], key) == []
  {
    assert [d][..0] == [];
  }

  /** With no records at all, every condition's value is NaN. */
  lemma ConditionChartOfNoData()
    ensures ConditionChart([]).values == [NaN, NaN, NaN]
  {
  }

  // ---------------------------------------------------------------------------
  // The vehicle-age chart

  /** `data.map(d => d.vehicle_age)`. */
  function Ages(data: seq<Sample>): (ages: seq<int>)
    ensures |ages| == |data| && forall i :: 0 <= i < |data| ==> ages[i] == data[i].vehicleAge
  {
    seq(|data|, i requires 0 <= i < |data| => data[i].vehicleAge)
  }

  /** The distinct ages in ascending order, each with its records' average
      cost: one value per label, no more labels than records, and the labels
      are exactly the ages present. */
  function AgeChart(data: seq<Sample>): (s: Series<int>)
    ensures |s.values| == |s.labels| <= |data|
    ensures forall a :: a in s.labels <==> a in Ages(data)
  {
    var ages := SortAscending(Distinct(Ages(data)));
    SortedDistinctMembers(Ages(data));
    Series(ages, seq(|ages|, i requires 0 <= i < |ages| => GroupMean(data, AgeIs(ages[i]))))
  }

  /** Sorting the distinct values neither adds nor loses a value. */
  lemma SortedDistinctMembers(xs: seq<int>)
    ensures |SortAscending(Distinct(xs))| <= |xs|
    ensures forall a :: a in SortAscending(Distinct(xs)) <==> a in xs
  {
    var d := Distinct(xs);
    var r := SortAscending(d);
    assert |r| == |multiset(r)| == |multiset(d)| == |d|;
    forall a ensures a in r <==> a in xs {
      assert a in r <==> a in multiset(r);
      assert a in d <==> a in multiset(d);
      if a in d {
        var i :| 0 <= i < |d| && d[i] == a;
      }
      if a in xs {
        var i :| 0 <= i < |xs| && xs[i] == a;
      }
    }
  }

  /** The age labels are exactly the ages present, strictly ascending, each
      paired with the defined mean cost of the records of exactly that age. */
  lemma AgeChartSpec(data: seq<Sample>)
    ensures StrictlyIncreasing(AgeChart(data).labels)
    ensures forall a :: a in AgeChart(data).labels <==> exists j :: 0 <= j < |data| && data[j].vehicleAge == a
    ensures |AgeChart(data).values| == |AgeChart(data).labels|
    ensures forall i :: 0 <= i < |AgeChart(data).labels| ==>
      var g := Group(data, AgeIs(AgeChart(data).labels[i]));
      && AgeChart(data).values[i] == GroupMean(data, AgeIs(AgeChart(data).labels[i]))
      && g != [] && AgeChart(data).values[i].Finite?
      && MinCost(g) <= AgeChart(data).values[i].value <= MaxCost(g)
  {
    var ages := Ages(data);
    DistinctSpec(ages);
    SortDistinct(Distinct(ages));
    var labels := AgeChart(data).labels;
    forall a ensures a in labels <==> exists j :: 0 <= j < |data| && data[j].vehicleAge == a {
      if a in labels {
        assert a in ages;
        var j :| 0 <= j < |ages| && ages[j] == a;
        assert data[j].vehicleAge == a;
      }
    }
    forall i | 0 <= i < |labels|
      ensures var g := Group(data, AgeIs(labels[i]));
        g != [] && AgeChart(data).values[i].Finite? &&
        MinCost(g) <= AgeChart(data).values[i].value <= MaxCost(g)
    {
      assert labels[i] in labels;
      var j :| 0 <= j < |data| && data[j].vehicleAge == labels[i];
      GroupMeanOfPresentKey(data, AgeIs(labels[i]), j);
    }
  }
}
