# Vehicle maintenance prediction: a verified model of its deterministic core

The system predicts vehicle maintenance costs. It has five parts:

- a synthetic data generator;
- a trained regression model served behind a validated JSON endpoint;
- a prediction form in the browser, which classifies the estimate and sends the CSRF cookie;
- a dashboard that aggregates the sample data set into charts;
- the model's feature importances.

This project models the rules of those parts that are deterministic and states what they guarantee:

- **Dashboard aggregations** (`charts.dfy`, `histogram.dfy`, `ranking.dfy`):
  - average cost per make, with the makes in order of first appearance;
  - average cost per driving condition, over the fixed list city, highway, mixed, where an empty group is `0 / 0`, i.e. NaN;
  - average cost per distinct vehicle age, in ascending order;
  - a histogram of costs in $200 bins;
  - the ten most important features, sorted in place by a stable descending sort.
- **Prediction form helpers** (`predictor.dfy`):
  - the three-way cost category;
  - `getCookie`: split on `;`, trim with JavaScript's white-space set, match the `name=` prefix, and take the first match.
- **Input validator** (`serializers.dfy`): the eleven field constraints of the prediction input, with the database column lengths checked against them.
- **Data generator** (`generate.dfy`):
  - oil-level loop;
  - in-place brake-wear scaling;
  - clip-and-round of tire pressure, brake wear and cost;
  - the ranges of every drawn value.

  Every random draw is an input. The rows it produces are proved to pass the validator, and to be binned completely by the histogram.
- **Prediction service** (`ml_model.dfy`): the class-level model cache, which loads once, and the feature row built from a validated input, including `vehicle_age = 2024 - model_year`.
- **Shared numerics** (`numeric.dfy`): numpy's `clip` and `round` (round half to even after scaling by 10^d), and ceiling on reals.

Numbers are Dafny reals. A JavaScript `0 / 0` is the explicit value `Num.NaN`.

### Behaviour worth knowing

- **Empty condition group.** A condition with no records averages to `0 / 0`, i.e. NaN, not 0 (`Charts.ConditionChartSpec`).
- **Make chart labels.** The labels come from the data, so a make with no records has no label at all (`Charts.MakeChartExample`).
- **Histogram shape.** The bins always start at 0, and there are `ceil(max/200)` of them. The last bin is open above (`bins[i+1] || Infinity`). A maximum of 0 or less gives no bins at all. Costs 100, 250, 199 and 400 give two bins with counts `2, 2` (`CostHistogram.FourCostsExample`).
- **Feature ranking.** `data.sort(...)` sorts the fetched array in place (`FeatureRanking.RankFeatures`).

## Model

| member | source | states |
|---|---|---|
| Charts.Group | vmms/static/js/visualization.js:75 | the filter never yields more records than its input |
| Charts.GroupMembers | vmms/static/js/visualization.js:75 | the filtered records are exactly the input records matching the key |
| Charts.GroupAppend | vmms/static/js/visualization.js:75 | filtering the concatenation of two lists is the concatenation of the filtered lists |
| Charts.Average | vmms/static/js/visualization.js:76 | `sum / length` is NaN exactly when the group is empty |
| Charts.SumCostsBounds | vmms/static/js/visualization.js:76 | the reduced sum lies between n·lo and n·hi when every cost lies in [lo, hi] |
| Charts.AverageBetween | vmms/static/js/visualization.js:76 | a non-empty group's average is finite and lies between its cheapest and dearest cost |
| Charts.GroupMeanOfPresentKey | vmms/static/js/visualization.js:74-76 | a key that some record carries has a non-empty group and a finite average bounded by that group's costs |
| Charts.GroupEmpty | vmms/static/js/visualization.js:104-105 | a group is empty exactly when no record matches its key |
| Charts.Distinct | vmms/static/js/visualization.js:73 | `[...new Set(xs)]` is no longer than xs and holds exactly the values of xs |
| Charts.DistinctSpec | vmms/static/js/visualization.js:73 | `[...new Set(xs)]` has no duplicates, contains exactly the values of xs, and lists them in order of first occurrence |
| Charts.Insert | vmms/static/js/visualization.js:152 | inserting x into a list adds exactly x to its elements |
| Charts.SortAscending | vmms/static/js/visualization.js:152 | `.sort((a, b) => a - b)` rearranges the numbers: the result holds the same numbers, each as often |
| Charts.SortDistinct | vmms/static/js/visualization.js:152 | sorting distinct numbers with `(a, b) => a - b` keeps the same values and makes them strictly increasing |
| Charts.MakeChart | vmms/static/js/visualization.js:73-77 | one value per label, no more labels than records, and the labels are exactly the makes present |
| Charts.MakeChartLabels | vmms/static/js/visualization.js:73-77 | the make labels are the makes present in the data, each once, in first-occurrence order, with exactly one average per label |
| Charts.MakeChartAverages | vmms/static/js/visualization.js:74-77 | every make's group is non-empty, so its average is finite and lies between that make's minimum and maximum cost |
| Charts.MakeChartExample | vmms/static/js/visualization.js:73-77 | Toyota 500, Toyota 700 and Ford 300 chart as Toyota 600 and Ford 300, with no label for absent makes |
| Charts.Capitalize | vmms/static/js/visualization.js:111 | the label has the same length, its first character upper-cased and the rest unchanged |
| Charts.ConditionChart | vmms/static/js/visualization.js:102-111 | three labels and three values, whatever the data |
| Charts.ConditionChartSpec | vmms/static/js/visualization.js:102-111 | labels are exactly City, Highway, Mixed in that order with three values; each value is the mean cost of the records of exactly that condition; it is NaN exactly when no record has that condition, and otherwise finite and bounded by the group's costs |
| Charts.ConditionChartIgnoresOtherConditions | vmms/static/js/visualization.js:102-105 | inserting a record of any other condition anywhere in the data changes nothing in the chart |
| Charts.GroupSkipsNonMatching | vmms/static/js/visualization.js:104 | inserting a non-matching record anywhere leaves the filtered list unchanged |
| Charts.ConditionChartOfNoData | vmms/static/js/visualization.js:103-105 | with no data, all three values are NaN (not 0) |
| Charts.AgeChart | vmms/static/js/visualization.js:152-156 | one value per label, no more labels than records, and the labels are exactly the ages present |
| Charts.AgeChartSpec | vmms/static/js/visualization.js:152-156 | age labels are exactly the ages present, strictly ascending, each paired with the finite mean of the records of exactly that age, bounded by their costs |
| CostHistogram.MaxOf | vmms/static/js/visualization.js:212 | `Math.max(...costs)` is one of the costs and no cost exceeds it |
| CostHistogram.BinCount | vmms/static/js/visualization.js:211-213 | no costs give no bins; with n ≥ 1 bins the maximum lies in (200·(n−1), 200·n] |
| CostHistogram.Counts | vmms/static/js/visualization.js:215-219 | with at least one bin, the bin counts sum to the number of non-negative costs: each such cost is counted once |
| CostHistogram.Build | vmms/static/js/visualization.js:208-219 | bin edges are 0, 200, 400, …, with one count per edge and ceil(max / 200) bins; no data gives no bins |
| CostHistogram.BinCountSpec | vmms/static/js/visualization.js:211-213 | for a positive maximum there are ceil(max / 200) ≥ 1 bins and the maximum lies in (200·(n−1), 200·n]; an empty list or a maximum ≤ 0 gives 0 bins |
| CostHistogram.ExactlyOneBin | vmms/static/js/visualization.js:216-218 | a non-negative cost lies in exactly one bin (the last bin open above); a negative cost lies in none |
| CostHistogram.CountsAddUp | vmms/static/js/visualization.js:216-219 | with at least one bin, the counts sum to the number of non-negative costs |
| CostHistogram.BuildCountsEveryCost | vmms/static/js/visualization.js:208-219 | for non-empty data with a positive maximum, the histogram's counts sum to the number of non-negative costs |
| CostHistogram.BuildCountsAllPositiveCosts | vmms/static/js/visualization.js:208-219 | when every cost is at least some positive amount, the counts sum to the number of records |
| CostHistogram.MaximumOnEdgeFallsInLastBin | vmms/static/js/visualization.js:217-218 | the maximum, even on a multiple of 200, is counted in the last bin |
| CostHistogram.FourCostsExample | vmms/static/js/visualization.js:208-219 | costs 100, 250, 199, 400 give edges [0, 200] with counts [2, 2] |
| CostHistogram.ZeroMaximumMakesNoBins | vmms/static/js/visualization.js:212-213 | a single cost of 0 gives no bins at all |
| FeatureRanking.SortDescSpec | vmms/static/js/visualization.js:182 | the sort is a permutation of its input, non-increasing in importance, and stable (entries of each importance keep their input order) |
| FeatureRanking.TopTenSpec | vmms/static/js/visualization.js:182 | the drawn list has min(10, n) entries, non-increasing; with the dropped entries it is the input rearranged; each kept entry is at least as important as each dropped one; for each importance the kept entries are a prefix of the input's entries of that importance |
| FeatureRanking.ThreeFeaturesExample | vmms/static/js/visualization.js:182 | importances 0.1, 0.9, 0.5 are drawn as 0.9, 0.5, 0.1 |
| FeatureRanking.InsertDesc | vmms/static/js/visualization.js:182 | inserting an entry into the sorted list makes it one entry longer |
| FeatureRanking.InsertDescPermutes | vmms/static/js/visualization.js:182 | inserting adds exactly that entry and keeps every other |
| FeatureRanking.SortDesc | vmms/static/js/visualization.js:182 | the sort keeps the length and is a rearrangement (same multiset) of its input |
| FeatureRanking.TopTen | vmms/static/js/visualization.js:182 | `slice(0, 10)` of the sort has min(10, n) entries |
| FeatureRanking.InsertLast | vmms/static/js/visualization.js:182 | one insertion step: the array's first i + 1 entries become the old entry i inserted into the sorted first i, after every entry at least as important; the rest is unchanged |
| FeatureRanking.SortByImportance | vmms/static/js/visualization.js:182 | sorting the array in place leaves it equal to the stable descending sort of its old contents, a permutation of them |
| FeatureRanking.RankFeatures | vmms/static/js/visualization.js:182 | the caller's array is left sorted, and the result is the first ten entries of that sort |
| Predictor.CostCategory | vmms/static/js/predictor.js:81-85 | high priority exactly above 1000, moderate exactly in (500, 1000], routine exactly at or below 500 |
| Predictor.CostCategoryText | vmms/static/js/predictor.js:81-85 | the three returned strings for the three cost ranges |
| Predictor.CostCategoryMonotone | vmms/static/js/predictor.js:81-85 | a higher cost never gives a less urgent category |
| Predictor.CategoryLabelsDistinct | vmms/static/js/predictor.js:82-84 | the returned text determines the category |
| Predictor.Split | vmms/static/js/predictor.js:117 | `split(";")` yields at least one piece and no piece contains the separator |
| Predictor.JoinSplit | vmms/static/js/predictor.js:117 | joining the pieces with the separator gives the string back |
| Predictor.SplitAfterFirst | vmms/static/js/predictor.js:117 | a piece without the separator, followed by the separator, is split off as the first entry and the rest is split on its own |
| Predictor.SplitWithoutSeparator | vmms/static/js/predictor.js:117 | a string without the separator splits into itself alone |
| Predictor.TrimSpec | vmms/static/js/predictor.js:119 | `trim()` returns a contiguous part of the string, and everything before and after that part is white space |
| Predictor.Trim | vmms/static/js/predictor.js:119 | `trim()` is no longer than the string and neither starts nor ends with white space |
| Predictor.TrimUnpadded | vmms/static/js/predictor.js:119 | trimming a string with no white space at either end leaves it unchanged |
| Predictor.NamesCookieIff | vmms/static/js/predictor.js:120 | `substring(0, name.length + 1) === name + "="` holds exactly when the entry starts with the name immediately followed by `=` |
| Predictor.FirstNamed | vmms/static/js/predictor.js:117-123 | the search finds nothing exactly when no trimmed entry starts with `name=` |
| Predictor.CookieValue | vmms/static/js/predictor.js:114-127 | `getCookie` gives null exactly when the cookie string is empty or none of its `;`-separated, trimmed entries starts with `name=` |
| Predictor.FirstNamedStep | vmms/static/js/predictor.js:118-123 | one loop step: the search from entry i is entry i's value if it matches, else the search from entry i + 1 |
| Predictor.FirstNamedFirst | vmms/static/js/predictor.js:117-123 | a non-null result is the decoded value of the first trimmed entry that starts with `name=`; no earlier entry does |
| Predictor.GetCookie | vmms/static/js/predictor.js:114-127 | the loop with its early exit returns null for an empty cookie string and otherwise the first match's decoded value |
| Predictor.LongerNameDoesNotMatch | vmms/static/js/predictor.js:120 | an entry `csrftoken2=abc` gives null for the name `csrftoken` |
| Predictor.FirstOfTwoEntries | vmms/static/js/predictor.js:117-123 | in `b=0; a=1; a=2` the entry `b=0` is passed over, ` a=1` names the cookie once its leading space is trimmed, and it wins over the later `a=2` |
| Serializers.Failing | vmms/predictor/serializers.py:5-16 | the reported fields are exactly the listed fields whose own check fails |
| Serializers.Errors | vmms/predictor/serializers.py:5-16 | the reported errors are exactly the fields whose own check fails |
| Serializers.IsValid | vmms/predictor/serializers.py:5-16 | accepted exactly when every field passes its own check; one failing field rejects the whole input |
| Serializers.AllFieldsListed | vmms/predictor/serializers.py:5-16 | the validator checks all eleven fields; none is skipped |
| Serializers.IsValidIff | vmms/predictor/serializers.py:5-16 | an input is accepted exactly when all eleven constraints hold: the four exact, case-sensitive choice lists, years 2010..2024, intervals 90..365, mileage, days and fault codes ≥ 0, tire pressure in [25, 40] and brake wear in [0, 100], all bounds inclusive |
| Serializers.ChoicesAreCaseSensitive | vmms/predictor/serializers.py:6 | the make `toyota` is rejected and reported |
| Serializers.NoUpperBounds | vmms/predictor/serializers.py:9-16 | raising mileage, days since service or fault codes keeps a valid input valid |
| Serializers.ChoicesFitColumns | vmms/predictor/models.py:5-12 | every accepted make, engine type, driving condition and oil level fits the max_length (20, 10, 10, 10) of its column |
| Generate.OilLevelSpec | generate.py:65-74 | electric is always N/A; otherwise Low exactly when days > 0.75 · interval, Medium exactly in (0.5 · interval, 0.75 · interval], High exactly at or below 0.5 · interval |
| Generate.OilLevel | generate.py:64-74 | the level is N/A exactly for an electric engine, and always one of the four levels the validator accepts |
| Generate.OilThresholdsExample | generate.py:69-74 | on a 120-day interval, 90 days is Medium, 60 days High, 91 days Low |
| Generate.OilLevelMonotone | generate.py:69-74 | more days since service never gives fresher oil |
| Generate.OilLevels | generate.py:64-74 | the loop appends one level per sample, index-aligned with its inputs, each accepted by the validator |
| Generate.Mileage | generate.py:58-59 | the mileage is never negative |
| Generate.TirePressure | generate.py:77 | clip to [25, 40] then round to one decimal stays in [25, 40] |
| Generate.ConditionWear | generate.py:81-85 | conditions other than city and highway leave the wear unchanged; city raises positive wear and highway lowers it; non-negative wear stays within 70%–130% of itself |
| Generate.FinalBrakeWear | generate.py:86-87 | clip to [0, 100] then round to one decimal stays in [0, 100] |
| Generate.BrakeWearColumn | generate.py:79-87 | each sample's brake wear is its mileage as a percentage of 50000 km, scaled by its condition, noised, clipped to [0, 100] and rounded to one decimal |
| Generate.ScaleBrakeWear | generate.py:81-85 | each entry is multiplied by 1.3 for city and 0.7 for highway, and left unchanged otherwise |
| Generate.MaintenanceCost | generate.py:124 | the cost is in [50, 2000], and equals the cost rounded to cents whenever that is already in range |
| Generate.GenerateData | generate.py:11-141 | the column computations, the oil-level loop and the in-place brake loop together produce exactly the per-sample rows |
| Generate.SampleRow | generate.py:44-141 | the row carries its vehicle's fields and its own days and fault codes; its age is 2024 minus the model year; its oil level is accepted; mileage ≥ 0, tire pressure in [25, 40], brake wear in [0, 100] and cost in [50, 2000], whatever the draws |
| Generate.SampleRowRanges | generate.py:24-124 | vehicle age 1..14, interval 90, 180 or 365, days in [0, interval), tire pressure in [25, 40], brake wear in [0, 100], cost in [50, 2000] |
| Generate.SampleRowValid | generate.py:20-141 | every generated row passes the prediction input validator; the make, engine type and condition come from the generator's own lists, which the proof checks against the validator's choices |
| Generate.GeneratedRowsValid | generate.py:44-141 | the same for every row of a generated data set |
| Generate.GeneratedCostsAllBinned | generate.py:124 | because costs are at least 50, the dashboard histogram of generated data counts every row |
| Generate.TrainingAgeMatchesPrediction | generate.py:57 | the training data's age column equals the age the prediction service computes from the same model year |
| MlModel.BuildRow | vmms/predictor/ml_model.py:25-40 | the row carries the eleven input fields unchanged, and its age plus the model year is 2024 |
| MlModel.ValidatedAge | vmms/predictor/ml_model.py:40 | for a validated input the age is in 0..14 |
| MlModel.VehicleMaintenanceManagement.constructor | vmms/predictor/ml_model.py:9 | the cache starts empty |
| MlModel.VehicleMaintenanceManagement.GetModel | vmms/predictor/ml_model.py:11-17 | loads only while nothing is cached; afterwards returns the cached model without loading; the cache is always filled afterwards |
| MlModel.VehicleMaintenanceManagement.Predict | vmms/predictor/ml_model.py:19-44 | fetches the model first, leaving it cached, and returns the estimate on the built row rounded to two decimals |
| MlModel.TwoPredictions | vmms/predictor/ml_model.py:11-22 | on a fresh class two predictions use the first loaded model and agree, whatever a second load would return |
| Numeric.Clip | generate.py:77 | `np.clip` returns x inside the range and the nearer end outside it |
| Numeric.Ceil | vmms/static/js/visualization.js:212 | `Math.ceil` is the least integer not below its argument |
| Numeric.RoundHalfEven | generate.py:77 | the nearest integer, ties to even |
| Numeric.Round | generate.py:58-59 | `np.round(x, d)` is a whole number of 10^-d units within half a unit of x |
| Numeric.RoundStaysWithin | generate.py:77-87 | rounding to d decimals never leaves an interval with whole-number ends |

## Left out

- DOM, fetch and Chart.js code are browser and library I/O:
  - chart construction and options;
  - `loadSampleData` and `loadFeatureImportance`;
  - `submitPredictionForm` and `updatePredictionChart` (with `window.predictionChart`);
  - the cost-range bar labels at vmms/static/js/visualization.js:224.
- `renderActualVsPredicted` draws its data from `Math.random`.
- `renderMileageChart` only maps records to points.
- `decodeURIComponent` is a parameter, `decode`, of the cookie functions. The URIError it throws on malformed input is not modelled.
- Predictor.GetCookie: takes the cookie string as a parameter instead of reading `document.cookie`.
- Charts.UpperAscii: `toUpperCase` is modelled for ASCII letters only. The labels it is applied to are ASCII.
- IEEE-754 arithmetic is not modelled:
  - sums, averages, `np.round`, `round(x, 2)` and the products in the generator are exact real arithmetic;
  - Numeric.Round rounds the exact real value half to even;
  - `Infinity` is modelled only as "no upper edge".
- Charts.SortDistinct, FeatureRanking.SortDescSpec: the sorts are specified by insertion-sort functions. Any stable sort agrees with them on the properties proved, but the engine's particular algorithm is not modelled.
- Generate.GenerateData:
  - every random draw is an input, with its documented range as a precondition: `random.choice`, `random.randint`, `random.uniform`, `np.random.choice`, `np.random.randint` with its exclusive upper bound, `np.random.normal` and `np.random.poisson`;
  - the seeds are not modelled;
  - the cost formula at generate.py:93-122 is not modelled, except that its result is an input rounded and clipped at generate.py:124;
  - the fault-code Poisson draw is only known to be non-negative;
  - the CSV write and the statistics printed at generate.py:146-165 are I/O.
- MlModel.VehicleMaintenanceManagement.Predict:
  - `joblib.load` and `model.predict` are external calls: the loaded model is a parameter and the estimate a function parameter;
  - a failing load is not modelled;
  - the class-level field is modelled as one object standing for the class;
  - the pandas DataFrame is a single record.
- MlModel.VehicleMaintenanceManagement.GetModel, MlModel.TwoPredictions: calls are sequential; concurrency is not modelled. The cached model is a class attribute shared by every request thread, so two concurrent first calls can both see an empty cache, both load, and return different objects. The single load holds only for calls made one after another.
- Serializers: parsing request JSON into typed fields is Django REST framework behaviour and is not modelled. The validator is stated on already-typed values. The output serializer is a schema declaration.
- Serializers.IsValidIff: the float fields are real numbers, so NaN is not modelled. A form-encoded `nan` parses as a float, and the min/max validators reject only when a comparison holds, so NaN passes the mileage, tire-pressure and brake-wear bounds at vmms/predictor/serializers.py:9,14,15. IsValidIff says nothing about that input.
- train.py, views.py, urls.py, the migration and the rest of models.py are training, request handling, routing and schema code. They are not part of this model.
