/** The prediction endpoint's input validator: eleven fields, each either one
    of a fixed list of strings or a number within inclusive bounds, and the
    lengths of the database columns the accepted strings are stored in. */
module Serializers {

  /** A request after each field has been parsed to its declared type. */
  datatype PredictionInput = PredictionInput(
    make: string,
    modelYear: int,
    engineType: string,
    mileage: real,
    drivingCondition: string,
    serviceInterval: int,
    daysSinceService: int,
    oilLevel: string,
    tirePressure: real,
    brakeWear: real,
    faultCodes: int)

  const MAKES: seq<string> := ["Toyota", "Honda", "Ford", "Chevrolet", "BMW", "Tesla"]
  const ENGINE_TYPES: seq<string> := ["gas", "diesel", "electric"]
  const DRIVING_CONDITIONS: seq<string> := ["city", "highway", "mixed"]
  const OIL_LEVELS: seq<string> := ["Low", "Medium", "High", "N/A"]

  /** The serializer's fields, in declaration order. */
  datatype Field =
    | Make | ModelYear | EngineType | Mileage | DrivingCondition | ServiceInterval
    | DaysSinceService | OilLevel | TirePressure | BrakeWear | FaultCodes

  const FIELDS: seq<Field> := [Make, ModelYear, EngineType, Mileage, DrivingCondition,
    ServiceInterval, DaysSinceService, OilLevel, TirePressure, BrakeWear, FaultCodes]

  /** The check each field applies on its own. */
  predicate FieldOk(x: PredictionInput, f: Field)
  {
    match f
    case Make => x.make in MAKES
    case ModelYear => 2010 <= x.modelYear <= 2024
    case EngineType => x.engineType in ENGINE_TYPES
    case Mileage => x.mileage >= 0.0
    case DrivingCondition => x.drivingCondition in DRIVING_CONDITIONS
    case ServiceInterval => 90 <= x.serviceInterval <= 365
    case DaysSinceService => x.daysSinceService >= 0
    case OilLevel => x.oilLevel in OIL_LEVELS
    case TirePressure => 25.0 <= x.tirePressure <= 40.0
    case BrakeWear => 0.0 <= x.brakeWear <= 100.0
    case FaultCodes => x.faultCodes >= 0
  }

  /** The fields among fs that reject x, in the order of fs. */
  function Failing(x: PredictionInput, fs: seq<Field>): (errs: seq<Field>)
    ensures |errs| <= |fs|
    ensures forall f :: f in errs ==> f in fs && !FieldOk(x, f)
    ensures forall f :: f in fs && !FieldOk(x, f) ==> f in errs
  {
    if fs == [] then []
    else (if FieldOk(x, fs[0]) then [] else [fs[0]]) + Failing(x, fs[1..])
  }

  /** The fields reported as errors, in declaration order: exactly the fields
      whose own check fails. */
  function Errors(x: PredictionInput): (errs: seq<Field>)
    ensures forall f: Field :: f in errs <==> !FieldOk(x, f)
  {
    AllFieldsListed();
    Failing(x, FIELDS)
  }

  /** `is_valid()`: no field reports an error, that is, every field passes its
      own check, so one failing field rejects the whole input. */
  predicate IsValid(x: PredictionInput)
    ensures IsValid(x) <==> forall f: Field :: FieldOk(x, f)
  {
    var errs := Errors(x);
    assert errs != [] ==> errs[0] in errs;
    errs == []
  }

  /** The list of fields the validator runs through misses none. */
  lemma AllFieldsListed()
    ensures forall f: Field :: f in FIELDS
  {
    forall f: Field ensures f in FIELDS {
      FieldListed(f);
    }
  }

  lemma FieldListed(f: Field)
    ensures f in FIELDS
  {
  }

  /** An input is accepted exactly when every one of the field constraints,
      written out, holds. */
  lemma IsValidIff(x: PredictionInput)
    ensures IsValid(x) <==>
      && x.make in ["Toyota", "Honda", "Ford", "Chevrolet", "BMW", "Tesla"]
      && 2010 <= x.modelYear <= 2024
      && x.engineType in ["gas", "diesel", "electric"]
      && x.mileage >= 0.0
      && x.drivingCondition in ["city", "highway", "mixed"]
      && 90 <= x.serviceInterval <= 365
      && x.daysSinceService >= 0
      && x.oilLevel in ["Low", "Medium", "High", "N/A"]
      && 25.0 <= x.tirePressure <= 40.0
      && 0.0 <= x.brakeWear <= 100.0
      && x.faultCodes >= 0
  {
    if IsValid(x) {
      assert FieldOk(x, Make) && FieldOk(x, ModelYear) && FieldOk(x, EngineType) && FieldOk(x, Mileage)
        && FieldOk(x, DrivingCondition) && FieldOk(x, ServiceInterval) && FieldOk(x, DaysSinceService)
        && FieldOk(x, OilLevel) && FieldOk(x, TirePressure) && FieldOk(x, BrakeWear) && FieldOk(x, FaultCodes);
    }
  }

  /** The choice fields compare exactly: a make written in another case is rejected. */
  lemma ChoicesAreCaseSensitive(x: PredictionInput)
    requires x.make == "toyota"
    ensures !IsValid(x) && Make in Errors(x)
  {
    assert "toyota" != "Toyota";
  }

  /** Mileage, days since service and fault codes have no upper bound. */
  lemma NoUpperBounds(x: PredictionInput, bigMileage: real, bigDays: int, bigFaults: int)
    requires IsValid(x)
    requires bigMileage >= x.mileage && bigDays >= x.daysSinceService && bigFaults >= x.faultCodes
    ensures IsValid(x.(mileage := bigMileage, daysSinceService := bigDays, faultCodes := bigFaults))
  {
  }

  // ---------------------------------------------------------------------------
  // The columns the accepted values are stored in

  const MAKE_MAX_LENGTH: nat := 20
  const ENGINE_TYPE_MAX_LENGTH: nat := 10
  const DRIVING_CONDITION_MAX_LENGTH: nat := 10
  const OIL_LEVEL_MAX_LENGTH: nat := 10

  /** Every string the validator accepts fits its column. */
  lemma ChoicesFitColumns(x: PredictionInput)
    requires IsValid(x)
    ensures |x.make| <= MAKE_MAX_LENGTH
    ensures |x.engineType| <= ENGINE_TYPE_MAX_LENGTH
    ensures |x.drivingCondition| <= DRIVING_CONDITION_MAX_LENGTH
    ensures |x.oilLevel| <= OIL_LEVEL_MAX_LENGTH
  {
    assert FieldOk(x, Make) && FieldOk(x, EngineType) && FieldOk(x, DrivingCondition) && FieldOk(x, OilLevel);
  }
}
