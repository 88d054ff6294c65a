/** The prediction service: a lazily loaded, cached model and the one-row
    feature table handed to it. */
module MlModel {
  import opened Wrappers
  import Numeric
  import Serializers

  const CURRENT_YEAR: int := 2024

  /** Whatever the model file deserialises to; nothing is known of it. */
  datatype ModelHandle = ModelHandle(id: nat)

  /** The feature table's single row: the eleven input fields and the age. */
  datatype FeatureRow = FeatureRow(input: Serializers.PredictionInput, vehicleAge: int)

  /** The row `predict` builds: the input fields unchanged, plus
      `vehicle_age = 2024 - model_year`. */
  function BuildRow(features: Serializers.PredictionInput): (r: FeatureRow)
    ensures r.input == features
    ensures r.vehicleAge + features.modelYear == CURRENT_YEAR
  {
    FeatureRow(features, CURRENT_YEAR - features.modelYear)
  }

  /** For a validated input the age is between 0 and 14 years. */
  lemma ValidatedAge(features: Serializers.PredictionInput)
    requires Serializers.IsValid(features)
    ensures 0 <= BuildRow(features).vehicleAge <= 14
  {
    Serializers.IsValidIff(features);
  }

  /** The class and its class-level model cache. */
  class VehicleMaintenanceManagement {
    /** The cached model, None until first loaded. */
    var model: Option<ModelHandle>
    /** How many times the file has been loaded. */
    ghost var loads: nat

    constructor()
      ensures model == None && loads == 0
    {
      model := None;
      loads := 0;
    }

    /** `get_model`: loads (yielding `loaded`) only while nothing is cached,
        and afterwards returns the cached model. */
    method GetModel(loaded: ModelHandle) returns (m: ModelHandle)
      modifies this
      ensures model == Some(m)
      ensures old(model).None? ==> m == loaded && loads == old(loads) + 1
      ensures old(model).Some? ==> m == old(model).value && loads == old(loads)
    {
      if model.None? {
        model := Some(loaded);
        loads := loads + 1;
      }
      m := model.value;
    }

    /** `predict`: fetches the model, builds the row and rounds the model's
        estimate to two decimals. */
    method Predict(features: Serializers.PredictionInput, loaded: ModelHandle,
                   estimate: (ModelHandle, FeatureRow) -> real) returns (prediction: real)
      modifies this
      ensures model.Some?
      ensures old(model).Some? ==> model == old(model) && loads == old(loads)
      ensures old(model).None? ==> model == Some(loaded) && loads == old(loads) + 1
      ensures prediction == Numeric.Round(estimate(model.value, BuildRow(features)), 2)
    {
      var m := GetModel(loaded);
      var df := BuildRow(features);
      prediction := Numeric.Round(estimate(m, df), 2);
    }
  }

  /** On a fresh class, two predictions load the model once and both use it,
      whatever a second load would have returned. */
  method TwoPredictions(features: Serializers.PredictionInput, first: ModelHandle, second: ModelHandle,
                        estimate: (ModelHandle, FeatureRow) -> real) returns (p1: real, p2: real)
    ensures p1 == p2 == Numeric.Round(estimate(first, BuildRow(features)), 2)
  {
    var service := new VehicleMaintenanceManagement();
    p1 := service.Predict(features, first, estimate);
    p2 := service.Predict(features, second, estimate);
    assert service.loads == 1;
  }
}
