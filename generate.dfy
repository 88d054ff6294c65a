/** The synthetic training data: per-vehicle characteristics, then per-sample
    columns derived from them, with every random draw taken as an input. */
module Generate {
  import opened Numeric
  import Serializers
  import Charts
  import CostHistogram
  import MlModel

  const CURRENT_YEAR: int := 2024
  const NUM_VEHICLES: nat := 200
  const INTERVALS: seq<int> := [90, 180, 365]
  const MAKES: seq<string> := ["Toyota", "Honda", "Ford", "Chevrolet", "BMW", "Tesla"]
  const ENGINE_TYPES: seq<string> := ["gas", "diesel", "electric"]
  const CONDITIONS: seq<string> := ["city", "highway", "mixed"]

  // ---------------------------------------------------------------------------
  // Oil level

  /** The oil level of one sample: 'N/A' exactly for an electric engine,
      otherwise by how much of the service interval has elapsed; always one of
      the levels the validator accepts. */
  function OilLevel(engine: string, days: int, interval: int): (level: string)
    ensures level == "N/A" <==> engine == "electric"
    ensures level in Serializers.OIL_LEVELS
  {
    if engine == "electric" then "N/A"
    else if days as real > interval as real * 0.75 then "Low"
    else if days as real > interval as real * 0.5 then "Medium"
    else "High"
  }

  /** How worn the oil is: High 0, Medium 1, Low 2. */
  function OilWear(level: string): nat
  {
    if level == "Low" then 2 else if level == "Medium" then 1 else 0
  }

  /** An electric engine is 'N/A' whatever the days; otherwise, for any
      interval that is not negative, the two thresholds are strict. */
  lemma OilLevelSpec(engine: string, days: int, interval: int)
    requires interval >= 0
    ensures engine == "electric" ==> OilLevel(engine, days, interval) == "N/A"
    ensures engine != "electric" ==>
      && (OilLevel(engine, days, interval) == "Low" <==> days as real > interval as real * 0.75)
      && (OilLevel(engine, days, interval) == "Medium" <==>
            interval as real * 0.5 < days as real <= interval as real * 0.75)
      && (OilLevel(engine, days, interval) == "High" <==> days as real <= interval as real * 0.5)
  {
  }

  /** Exactly three quarters of the interval is still 'Medium', exactly half still 'High'. */
  lemma OilThresholdsExample()
    ensures OilLevel("gas", 90, 120) == "Medium"
    ensures OilLevel("gas", 60, 120) == "High"
    ensures OilLevel("gas", 91, 120) == "Low"
  {
  }

  /** For a fixed interval and engine, more days never gives fresher oil. */
  lemma OilLevelMonotone(engine: string, d1: int, d2: int, interval: int)
    requires d1 <= d2
    ensures OilWear(OilLevel(engine, d1, interval)) <= OilWear(OilLevel(engine, d2, interval))
  {
    assert d1 as real <= d2 as real;
  }

  /** The oil-level loop: one label per sample, appended in sample order. */
  method OilLevels(engines: seq<string>, days: seq<int>, intervals: seq<int>) returns (levels: seq<string>)
    requires |engines| == |days| == |intervals|
    ensures |levels| == |engines|
    ensures forall i :: 0 <= i < |levels| ==> levels[i] == OilLevel(engines[i], days[i], intervals[i])
    ensures forall i :: 0 <= i < |levels| ==> levels[i] in Serializers.OIL_LEVELS
  {
    levels := [];
    var i := 0;
    while i < |engines|
      invariant 0 <= i <= |engines|
      invariant |levels| == i
      invariant forall k :: 0 <= k < i ==> levels[k] == OilLevel(engines[k], days[k], intervals[k])
    {
      if engines[i] == "electric" {
        levels := levels + ["N/A"];
      } else {
        if days[i] as real > intervals[i] as real * 0.75 {
          levels := levels + ["Low"];
        } else if days[i] as real > intervals[i] as real * 0.5 {
          levels := levels + ["Medium"];
        } else {
          levels := levels + ["High"];
        }
      }
      i := i + 1;
    }
  }

  // ---------------------------------------------------------------------------
  // Clipped and rounded columns

  /** Mileage: the yearly distance times the age plus noise, rounded to one
      decimal and made non-negative. */
  function Mileage(dailyKm: int, age: int, noise: real): (m: real)
    ensures m >= 0.0
  {
    Abs(Round((dailyKm * 365 * age) as real + noise, 1))
  }

  /** Tire pressure: a normal draw clipped to [25, 40] and rounded to one
      decimal, which stays within [25, 40]. */
  function TirePressure(draw: real): (p: real)
    ensures 25.0 <= p <= 40.0
  {
    RoundStaysWithin(Clip(draw, 25.0, 40.0), 1, 25, 40);
    Round(Clip(draw, 25.0, 40.0), 1)
  }

  /** The driving condition's effect on brake wear: 30% more in the city, 30%
      less on the highway, none otherwise; wear that is not negative stays
      between 70% and 130% of itself. */
  function ConditionWear(wear: real, condition: string): (w: real)
    ensures condition != "city" && condition != "highway" ==> w == wear
    ensures wear >= 0.0 ==> 0.7 * wear <= w <= 1.3 * wear
    ensures condition == "city" && wear > 0.0 ==> w > wear
    ensures condition == "highway" && wear > 0.0 ==> w < wear
  {
    if condition == "city" then wear * 1.3
    else if condition == "highway" then wear * 0.7
    else wear
  }

  /** The brake-wear loop, scaling each sample's wear in place by its condition. */
  method ScaleBrakeWear(wear: array<real>, conditions: seq<string>)
    requires wear.Length == |conditions|
    modifies wear
    ensures forall i :: 0 <= i < wear.Length ==> wear[i] == ConditionWear(old(wear[i]), conditions[i])
  {
    for i := 0 to wear.Length
      invariant forall k :: 0 <= k < i ==> wear[k] == ConditionWear(old(wear[k]), conditions[k])
      invariant forall k :: i <= k < wear.Length ==> wear[k] == old(wear[k])
    {
      if conditions[i] == "city" {
        wear[i] := wear[i] * 1.3;
      } else if conditions[i] == "highway" {
        wear[i] := wear[i] * 0.7;
      }
    }
  }

  /** Brake wear before the condition factor: mileage as a percentage of 50000 km. */
  function BaseBrakeWear(mileage: real): real
  {
    mileage / 50000.0 * 100.0
  }

  /** The final brake wear: scaled wear plus noise, clipped to [0, 100] and
      rounded to one decimal, which stays within [0, 100]. */
  function FinalBrakeWear(scaled: real, noise: real): (w: real)
    ensures 0.0 <= w <= 100.0
  {
    RoundStaysWithin(Clip(scaled + noise, 0.0, 100.0), 1, 0, 100);
    Round(Clip(scaled + noise, 0.0, 100.0), 1)
  }

  /** The maintenance cost: the computed cost rounded to cents, then clipped to
      [50, 2000]. */
  function MaintenanceCost(cost: real): (c: real)
    ensures 50.0 <= c <= 2000.0
    ensures 50.0 <= Round(cost, 2) <= 2000.0 ==> c == Round(cost, 2)
  {
    Clip(Round(cost, 2), 50.0, 2000.0)
  }

  // ---------------------------------------------------------------------------
  // Draws

  /** One vehicle's characteristics, as drawn. */
  datatype Vehicle = Vehicle(
    make: string, modelYear: int, engine: string, dailyKm: int,
    condition: string, serviceInterval: int, reliability: real)

  /** The ranges of the vehicle draws: choices from the generator's own lists,
      inclusive integer ranges for the year and daily distance, and a uniform
      reliability. */
  predicate VehicleDrawn(v: Vehicle)
  {
    && v.make in MAKES
    && 2010 <= v.modelYear <= 2023
    && v.engine in ENGINE_TYPES
    && 20 <= v.dailyKm <= 100
    && v.condition in CONDITIONS
    && v.serviceInterval in INTERVALS
    && 0.8 <= v.reliability <= 1.2
  }

  /** The per-sample draws: which vehicle, the noise terms, the days since
      service, the fault-code count and the cost computed before rounding. */
  datatype SampleDraw = SampleDraw(
    vehicle: int, mileageNoise: real, days: int, tireDraw: real,
    brakeNoise: real, faultCodes: int, cost: real)

  /** The ranges of the sample draws for a given list of vehicles: an index
      into it, days in [0, interval) of that vehicle, a non-negative count. */
  predicate SampleDrawn(vehicles: seq<Vehicle>, d: SampleDraw)
  {
    && 0 <= d.vehicle < |vehicles|
    && 0 <= d.days < vehicles[d.vehicle].serviceInterval
    && d.faultCodes >= 0
  }

  predicate DrawsOk(vehicles: seq<Vehicle>, draws: seq<SampleDraw>)
  {
    && |vehicles| == NUM_VEHICLES
    && (forall j :: 0 <= j < |vehicles| ==> VehicleDrawn(vehicles[j]))
    && (forall i :: 0 <= i < |draws| ==> SampleDrawn(vehicles, draws[i]))
  }

  // ---------------------------------------------------------------------------
  // Rows

  /** One row of the generated data set. */
  datatype Row = Row(
    make: string, modelYear: int, engineType: string, vehicleAge: int, mileage: real,
    drivingCondition: string, serviceInterval: int, daysSinceService: int, oilLevel: string,
    tirePressure: real, brakeWear: real, faultCodes: int, maintenanceCost: real)

  /** The row a sample becomes, given its vehicle and its draws: the vehicle's
      own fields and the sample's days and fault codes carried over, the age
      counted back from 2024, an accepted oil level, and the mileage, tire
      pressure, brake wear and cost within their bounds whatever the draws. */
  function SampleRow(v: Vehicle, d: SampleDraw): (r: Row)
    ensures r.make == v.make && r.modelYear == v.modelYear && r.engineType == v.engine
    ensures r.drivingCondition == v.condition && r.serviceInterval == v.serviceInterval
    ensures r.daysSinceService == d.days && r.faultCodes == d.faultCodes
    ensures r.vehicleAge == CURRENT_YEAR - v.modelYear
    ensures r.oilLevel in Serializers.OIL_LEVELS
    ensures r.mileage >= 0.0
    ensures 25.0 <= r.tirePressure <= 40.0
    ensures 0.0 <= r.brakeWear <= 100.0
    ensures 50.0 <= r.maintenanceCost <= 2000.0
  {
    var age := CURRENT_YEAR - v.modelYear;
    var mileage := Mileage(v.dailyKm, age, d.mileageNoise);
    Row(v.make, v.modelYear, v.engine, age, mileage, v.condition, v.serviceInterval, d.days,
        OilLevel(v.engine, d.days, v.serviceInterval), TirePressure(d.tireDraw),
        FinalBrakeWear(ConditionWear(BaseBrakeWear(mileage), v.condition), d.brakeNoise),
        d.faultCodes, MaintenanceCost(d.cost))
  }

  function Rows(vehicles: seq<Vehicle>, draws: seq<SampleDraw>): seq<Row>
    requires forall i :: 0 <= i < |draws| ==> 0 <= draws[i].vehicle < |vehicles|
  {
    seq(|draws|, i requires 0 <= i < |draws| => SampleRow(vehicles[draws[i].vehicle], draws[i]))
  }

  /** `generate_vehicle_maintenance_data`: the selected vehicles' columns, the
      derived columns, the oil-level loop and the in-place brake-wear loop,
      assembled into rows. */
  method GenerateData(vehicles: seq<Vehicle>, draws: seq<SampleDraw>) returns (rows: seq<Row>)
    requires DrawsOk(vehicles, draws)
    ensures rows == Rows(vehicles, draws)
  {
    var n := |draws|;
    var selected := seq(n, i requires 0 <= i < n => vehicles[draws[i].vehicle]);
    var ages := seq(n, i requires 0 <= i < n => CURRENT_YEAR - selected[i].modelYear);
    var mileage := seq(n, i requires 0 <= i < n => Mileage(selected[i].dailyKm, ages[i], draws[i].mileageNoise));
    var days := seq(n, i requires 0 <= i < n => draws[i].days);
    var oil := OilLevels(seq(n, i requires 0 <= i < n => selected[i].engine), days,
                         seq(n, i requires 0 <= i < n => selected[i].serviceInterval));
    var tire := seq(n, i requires 0 <= i < n => TirePressure(draws[i].tireDraw));
    var brake := BrakeWearColumn(mileage, seq(n, i requires 0 <= i < n => selected[i].condition),
                                 seq(n, i requires 0 <= i < n => draws[i].brakeNoise));
    var cost := seq(n, i requires 0 <= i < n => MaintenanceCost(draws[i].cost));
    var faults := seq(n, i requires 0 <= i < n => draws[i].faultCodes);
    rows := Assemble(selected, ages, mileage, days, oil, tire, brake, faults, cost);
    AssembledRows(vehicles, draws, selected, ages, mileage, days, oil, tire, brake, faults, cost);
  }

  /** The brake-wear column: the base wear of each mileage, scaled in place by
      the sample's condition, then noised, clipped and rounded. */
  method BrakeWearColumn(mileage: seq<real>, conditions: seq<string>, noise: seq<real>) returns (brake: seq<real>)
    requires |mileage| == |conditions| == |noise|
    ensures |brake| == |mileage|
    ensures forall i :: 0 <= i < |brake| ==>
      brake[i] == FinalBrakeWear(ConditionWear(BaseBrakeWear(mileage[i]), conditions[i]), noise[i])
  {
    var n := |mileage|;
    var wear := new real[n](i requires 0 <= i < n => BaseBrakeWear(mileage[i]));
    assert forall i :: 0 <= i < n ==> wear[i] == BaseBrakeWear(mileage[i]);
    ScaleBrakeWear(wear, conditions);
    var scaled := wear[..];
    brake := seq(n, i requires 0 <= i < n => FinalBrakeWear(scaled[i], noise[i]));
  }

  /** The data frame built from the columns, one row per sample. */
  function Assemble(selected: seq<Vehicle>, ages: seq<int>, mileage: seq<real>, days: seq<int>,
                    oil: seq<string>, tire: seq<real>, brake: seq<real>, faults: seq<int>,
                    cost: seq<real>): (rows: seq<Row>)
    requires |ages| == |mileage| == |days| == |oil| == |tire| == |brake| == |faults| == |cost| == |selected|
    ensures |rows| == |selected|
  {
    seq(|selected|, i requires 0 <= i < |selected| =>
      var v := selected[i];
      Row(v.make, v.modelYear, v.engine, ages[i], mileage[i], v.condition, v.serviceInterval, days[i],
          oil[i], tire[i], brake[i], faults[i], cost[i]))
  }

  /** Columns computed sample by sample as SampleRow does assemble into
      exactly the rows SampleRow gives. */
  lemma AssembledRows(vehicles: seq<Vehicle>, draws: seq<SampleDraw>, selected: seq<Vehicle>,
                      ages: seq<int>, mileage: seq<real>, days: seq<int>, oil: seq<string>,
                      tire: seq<real>, brake: seq<real>, faults: seq<int>, cost: seq<real>)
    requires forall i :: 0 <= i < |draws| ==> 0 <= draws[i].vehicle < |vehicles|
    requires |ages| == |mileage| == |days| == |oil| == |tire| == |brake| == |faults| == |cost| == |selected| == |draws|
    requires forall i :: 0 <= i < |draws| ==> selected[i] == vehicles[draws[i].vehicle]
    requires forall i :: 0 <= i < |draws| ==> ages[i] == CURRENT_YEAR - selected[i].modelYear
    requires forall i :: 0 <= i < |draws| ==> mileage[i] == Mileage(selected[i].dailyKm, ages[i], draws[i].mileageNoise)
    requires forall i :: 0 <= i < |draws| ==> days[i] == draws[i].days
    requires forall i :: 0 <= i < |draws| ==> oil[i] == OilLevel(selected[i].engine, days[i], selected[i].serviceInterval)
    requires forall i :: 0 <= i < |draws| ==> tire[i] == TirePressure(draws[i].tireDraw)
    requires forall i :: 0 <= i < |draws| ==>
      brake[i] == FinalBrakeWear(ConditionWear(BaseBrakeWear(mileage[i]), selected[i].condition), draws[i].brakeNoise)
    requires forall i :: 0 <= i < |draws| ==> faults[i] == draws[i].faultCodes
    requires forall i :: 0 <= i < |draws| ==> cost[i] == MaintenanceCost(draws[i].cost)
    ensures Assemble(selected, ages, mileage, days, oil, tire, brake, faults, cost) == Rows(vehicles, draws)
  {
    var rows := Assemble(selected, ages, mileage, days, oil, tire, brake, faults, cost);
    var expected := Rows(vehicles, draws);
    forall i | 0 <= i < |draws| ensures rows[i] == expected[i] {
      assert expected[i] == SampleRow(vehicles[draws[i].vehicle], draws[i]);
    }
  }

  // ---------------------------------------------------------------------------
  // What every generated row satisfies

  /** The validator's view of a row: every column but the age and the cost. */
  function AsInput(r: Row): Serializers.PredictionInput
  {
    Serializers.PredictionInput(r.make, r.modelYear, r.engineType, r.mileage, r.drivingCondition,
      r.serviceInterval, r.daysSinceService, r.oilLevel, r.tirePressure, r.brakeWear, r.faultCodes)
  }

  /** The dashboard's view of a row. */
  function AsSample(r: Row): Charts.Sample
  {
    Charts.Sample(r.make, r.drivingCondition, r.vehicleAge, r.maintenanceCost)
  }

  /** Each row lies within the generator's ranges: age 1..14, an interval of
      90, 180 or 365 days, days in [0, interval), tire pressure in [25, 40],
      brake wear in [0, 100] and cost in [50, 2000]. */
  lemma SampleRowRanges(v: Vehicle, d: SampleDraw)
    requires VehicleDrawn(v) && 0 <= d.days < v.serviceInterval && d.faultCodes >= 0
    ensures var r := SampleRow(v, d);
      && 1 <= r.vehicleAge <= 14
      && r.serviceInterval in {90, 180, 365}
      && 0 <= r.daysSinceService < r.serviceInterval
      && 25.0 <= r.tirePressure <= 40.0
      && 0.0 <= r.brakeWear <= 100.0
      && 50.0 <= r.maintenanceCost <= 2000.0
  {
  }

  /** Every generated row passes the prediction endpoint's validator. */
  lemma SampleRowValid(v: Vehicle, d: SampleDraw)
    requires VehicleDrawn(v) && 0 <= d.days < v.serviceInterval && d.faultCodes >= 0
    ensures Serializers.IsValid(AsInput(SampleRow(v, d)))
  {
    SampleRowRanges(v, d);
    Serializers.IsValidIff(AsInput(SampleRow(v, d)));
  }

  lemma GeneratedRowsValid(vehicles: seq<Vehicle>, draws: seq<SampleDraw>)
    requires DrawsOk(vehicles, draws)
    ensures forall i :: 0 <= i < |draws| ==> Serializers.IsValid(AsInput(Rows(vehicles, draws)[i]))
  {
    forall i | 0 <= i < |draws| ensures Serializers.IsValid(AsInput(Rows(vehicles, draws)[i])) {
      assert SampleDrawn(vehicles, draws[i]);
      SampleRowValid(vehicles[draws[i].vehicle], draws[i]);
    }
  }

  /** The dashboard's view of a data set. */
  function Samples(rows: seq<Row>): (data: seq<Charts.Sample>)
    ensures |data| == |rows| && forall i :: 0 <= i < |rows| ==> data[i] == AsSample(rows[i])
  {
    seq(|rows|, i requires 0 <= i < |rows| => AsSample(rows[i]))
  }

  /** Since every generated cost is at least 50, the dashboard's histogram of
      a non-empty generated data set counts every row. */
  lemma GeneratedCostsAllBinned(vehicles: seq<Vehicle>, draws: seq<SampleDraw>)
    requires DrawsOk(vehicles, draws)
    ensures CostHistogram.SumNat(CostHistogram.Build(Samples(Rows(vehicles, draws))).counts) == |draws|
  {
    var data := Samples(Rows(vehicles, draws));
    forall i | 0 <= i < |data| ensures data[i].maintenanceCost >= 50.0 {
      assert SampleDrawn(vehicles, draws[i]);
      SampleRowRanges(vehicles[draws[i].vehicle], draws[i]);
    }
    CostHistogram.BuildCountsAllPositiveCosts(data, 50.0);
  }

  /** The age column of the training data is the age the prediction service
      computes from the same row's model year. */
  lemma TrainingAgeMatchesPrediction(v: Vehicle, d: SampleDraw)
    ensures SampleRow(v, d).vehicleAge == MlModel.BuildRow(AsInput(SampleRow(v, d))).vehicleAge
  {
  }
}
