/**
 * The web server (server.py): locating the saved artifacts and the dataset
 * at start-up, and the two JSON handlers, `/api/predict` and `/api/search`,
 * as functions from the parsed request to a status and a body.
 */
module Server {
  import opened Wrappers
  import opened Config
  import opened Frame
  import opened Text
  import opened Bands
  import opened Ranking
  import opened NameSearch
  import App

  /** The candidate locations, in search order (`os.path.join` with `/`). */
  const MODEL_PATHS: seq<string> := [
    "linear_regression_model.joblib",
    "models/linear_regression_model.joblib",
    "outputs/models/linear_regression_model.joblib"]
  const SCALER_PATHS: seq<string> := ["scaler.joblib", "models/scaler.joblib", "outputs/models/scaler.joblib"]
  const FEATURES_PATHS: seq<string> := ["features.joblib", "models/features.joblib", "outputs/models/features.joblib"]
  const DATASET_PATHS: seq<string> := [
    "Indian_Food_Nutrition_Processed.csv",
    "Indian_Food_Nutrition_Predicted.csv",
    "nutrition_regression_project/Indian_Food_Nutrition_Processed.csv"]

  /** The earliest path of the list that exists, if any. */
  function FirstExisting(paths: seq<string>, pathExists: string -> bool): (r: Option<string>)
    ensures r.None? <==> forall k :: 0 <= k < |paths| ==> !pathExists(paths[k])
    ensures r.Some? ==> exists k :: 0 <= k < |paths| && paths[k] == r.value && pathExists(paths[k])
                                     && forall j :: 0 <= j < k ==> !pathExists(paths[j])
  {
    if paths == [] then None
    else if pathExists(paths[0]) then Some(paths[0])
    else
      var r := FirstExisting(paths[1..], pathExists);
      if r.Some? then
        var k :| 0 <= k < |paths[1..]| && paths[1..][k] == r.value && pathExists(paths[1..][k])
                 && forall j :: 0 <= j < k ==> !pathExists(paths[1..][j]);
        assert paths[k + 1] == r.value;
        r
      else
        r
  }

  /** `_locate(paths)`: tries the paths in order and returns the first that exists. */
  method Locate(paths: seq<string>, pathExists: string -> bool) returns (r: Option<string>)
    ensures r == FirstExisting(paths, pathExists)
  {
    for i := 0 to |paths|
      invariant FirstExisting(paths[i..], pathExists) == FirstExisting(paths, pathExists)
    {
      if pathExists(paths[i]) {
        return Some(paths[i]);
      }
      assert paths[i..][1..] == paths[i + 1..];
    }
    return None;
  }

  /** The model, the scaler and the training feature list, as the server holds them. */
  datatype Artifacts = Artifacts(predictor: App.Predictor, features: seq<string>)

  /** The module-level globals: the artifacts (`model`, `scaler`, `FEATURES`) and `DF`. */
  datatype ServerState = ServerState(artifacts: Option<Artifacts>, df: Option<Table>)

  /**
   * The start-up code over given candidate lists: the artifacts are loaded
   * only when all three files are found; the dataset when one of its paths
   * exists. `pathExists` stands for `os.path.exists`, the `load…` functions
   * for `joblib.load` and `read` for `pd.read_csv`.
   */
  method StartupAt(modelPaths: seq<string>, scalerPaths: seq<string>, featuresPaths: seq<string>,
                   datasetPaths: seq<string>, pathExists: string -> bool,
                   loadModel: string -> (seq<real> -> real), loadScaler: string -> (seq<real> -> seq<real>),
                   loadFeatures: string -> seq<string>, read: string -> Table)
    returns (st: ServerState)
    ensures st.artifacts.Some? <==>
      && FirstExisting(modelPaths, pathExists).Some?
      && FirstExisting(scalerPaths, pathExists).Some?
      && FirstExisting(featuresPaths, pathExists).Some?
    ensures st.artifacts.Some? ==>
      st.artifacts.value == Artifacts(
        App.Predictor(loadScaler(FirstExisting(scalerPaths, pathExists).value),
                      loadModel(FirstExisting(modelPaths, pathExists).value)),
        loadFeatures(FirstExisting(featuresPaths, pathExists).value))
    ensures st.df.Some? <==> FirstExisting(datasetPaths, pathExists).Some?
    ensures st.df.Some? ==> st.df.value == read(FirstExisting(datasetPaths, pathExists).value)
  {
    var modelFile := Locate(modelPaths, pathExists);
    var scalerFile := Locate(scalerPaths, pathExists);
    var featuresFile := Locate(featuresPaths, pathExists);
    var artifacts: Option<Artifacts> := None;
    if modelFile.Some? && scalerFile.Some? && featuresFile.Some? {
      artifacts := Some(Artifacts(App.Predictor(loadScaler(scalerFile.value), loadModel(modelFile.value)),
                                  loadFeatures(featuresFile.value)));
    }
    var datasetFile := Locate(datasetPaths, pathExists);
    var df: Option<Table> := None;
    if datasetFile.Some? {
      df := Some(read(datasetFile.value));
    }
    st := ServerState(artifacts, df);
  }

  /** The module-level start-up of the server, over its own candidate lists. */
  method Startup(pathExists: string -> bool,
                 loadModel: string -> (seq<real> -> real), loadScaler: string -> (seq<real> -> seq<real>),
                 loadFeatures: string -> seq<string>, read: string -> Table)
    returns (st: ServerState)
    ensures st.artifacts.Some? <==>
      && FirstExisting(MODEL_PATHS, pathExists).Some?
      && FirstExisting(SCALER_PATHS, pathExists).Some?
      && FirstExisting(FEATURES_PATHS, pathExists).Some?
    ensures st.artifacts.Some? ==>
      st.artifacts.value == Artifacts(
        App.Predictor(loadScaler(FirstExisting(SCALER_PATHS, pathExists).value),
                      loadModel(FirstExisting(MODEL_PATHS, pathExists).value)),
        loadFeatures(FirstExisting(FEATURES_PATHS, pathExists).value))
    ensures st.df.Some? <==> FirstExisting(DATASET_PATHS, pathExists).Some?
    ensures st.df.Some? ==> st.df.value == read(FirstExisting(DATASET_PATHS, pathExists).value)
  {
    st := StartupAt(MODEL_PATHS, SCALER_PATHS, FEATURES_PATHS, DATASET_PATHS, pathExists,
                    loadModel, loadScaler, loadFeatures, read);
  }

  /** The server's `interpret_score`: the plain category name of the score's band. */
  function InterpretScore(score: real): (category: string)
    ensures category == Name(OfRank(CountReached(THRESHOLDS, score)))
  {
    CountReachedThresholds(score);
    if score >= 80.0 then "Excellent"
    else if score >= 70.0 then "Very Good"
    else if score >= 60.0 then "Good"
    else if score >= 50.0 then "Fair"
    else if score >= 40.0 then "Poor"
    else "Very Poor"
  }

  /** The server and the CLI put every score in the same band. */
  lemma InterpretMatchesCli(score: real)
    ensures InterpretScore(score) == Name(App.Interpret(score))
  {
    OfRankOfCategory(App.Interpret(score));
  }

  /** A JSON value as `request.get_json` returns it. */
  datatype Json = JNull | JBool(b: bool) | JNumber(n: real) | JString(s: string) | JArray(items: seq<Json>)
                | JObject(fields: map<string, Json>)

  /**
   * Python's `float(v)` on a JSON value: booleans are 1.0 and 0.0, numbers
   * are kept, strings go through `parseFloat` (`None` when `float()` raises)
   * and null, arrays and objects raise.
   */
  function ToFloat(v: Json, parseFloat: string -> Option<real>): (r: Option<real>)
    ensures r.None? <==> v.JNull? || v.JArray? || v.JObject? || (v.JString? && parseFloat(v.s).None?)
    ensures v.JNumber? ==> r == Some(v.n)
    ensures v.JBool? ==> r == Some(if v.b then 1.0 else 0.0)
  {
    match v
    case JBool(b) => Some(if b then 1.0 else 0.0)
    case JNumber(n) => Some(n)
    case JString(s) => parseFloat(s)
    case _ => None
  }

  /** The request fields, in the order they are read. */
  const FIELDS: seq<string> := ["calories", "protein", "carbs", "sugar"]

  /** `data.get(key, 0)` */
  function ReadField(fields: map<string, Json>, key: string): (v: Json)
    ensures key in fields ==> v == fields[key]
    ensures key !in fields ==> v == JNumber(0.0)
  {
    if key in fields then fields[key] else JNumber(0.0)
  }

  /**
   * The `try` block of `api_predict`: the four values, or `None` when the
   * body is not an object (it has no `get`) or a field does not convert.
   */
  function ParseInput(data: Json, parseFloat: string -> Option<real>): (r: Option<seq<real>>)
    ensures r.Some? <==> data.JObject? && forall j :: 0 <= j < |FIELDS| ==> ToFloat(ReadField(data.fields, FIELDS[j]), parseFloat).Some?
    ensures r.Some? ==> |r.value| == |FIELDS|
                        && forall j :: 0 <= j < |FIELDS| ==> Some(r.value[j]) == ToFloat(ReadField(data.fields, FIELDS[j]), parseFloat)
  {
    if !data.JObject? then None
    else
      var calories := ToFloat(ReadField(data.fields, "calories"), parseFloat);
      var protein := ToFloat(ReadField(data.fields, "protein"), parseFloat);
      var carbs := ToFloat(ReadField(data.fields, "carbs"), parseFloat);
      var sugar := ToFloat(ReadField(data.fields, "sugar"), parseFloat);
      assert ToFloat(ReadField(data.fields, FIELDS[0]), parseFloat) == calories;
      assert ToFloat(ReadField(data.fields, FIELDS[1]), parseFloat) == protein;
      assert ToFloat(ReadField(data.fields, FIELDS[2]), parseFloat) == carbs;
      assert ToFloat(ReadField(data.fields, FIELDS[3]), parseFloat) == sugar;
      if calories.None? || protein.None? || carbs.None? || sugar.None? then None
      else Some([calories.value, protein.value, carbs.value, sugar.value])
  }

  /** A field the request leaves out is read as 0. */
  lemma MissingFieldsDefaultToZero(fields: map<string, Json>, parseFloat: string -> Option<real>, j: nat)
    requires j < |FIELDS| && FIELDS[j] !in fields
    requires ParseInput(JObject(fields), parseFloat).Some?
    ensures ParseInput(JObject(fields), parseFloat).value[j] == 0.0
  {
    assert ToFloat(ReadField(fields, FIELDS[j]), parseFloat) == Some(0.0);
  }

  /** One entry of `matches`. */
  datatype Match = Match(name: Option<string>, calories: real, protein: real, carbs: real, sugar: real,
                         score: real, distance: real)

  /** One entry of the search results: the name and the score column. */
  datatype SearchHit = SearchHit(name: Option<string>, score: real)

  /**
   * A response body: an error object, Flask's own error page (an exception
   * the handler does not catch, or a body that is not JSON), a prediction,
   * or search results.
   */
  datatype Body =
    | Error(message: string)
    | Aborted
    | Prediction(score: real, category: string, matches: seq<Match>)
    | Results(results: seq<SearchHit>)

  datatype Response = Response(status: nat, body: Body)

  /**
   * Row `i` of `DF[FEATURES].values` as it is subtracted from the four input
   * values: a single feature column is broadcast across all four.
   */
  function FeatureRow(row: Row, features: seq<string>): (v: seq<real>)
    requires |features| == 1 || |features| == 4
    ensures |v| == 4
  {
    if |features| == 1 then [Get(row, features[0]), Get(row, features[0]), Get(row, features[0]), Get(row, features[0])]
    else Vector(row, features)
  }

  /** `dists`, squared: the distance of every row to the input. */
  function RowDistances(t: Table, features: seq<string>, x: seq<real>): (ds: seq<real>)
    requires |x| == 4 && (|features| == 1 || |features| == 4)
    ensures |ds| == |t.rows|
    ensures forall i :: 0 <= i < |t.rows| ==> ds[i] == SqDist(x, FeatureRow(t.rows[i], features)) && ds[i] >= 0.0
  {
    seq(|t.rows|, i requires 0 <= i < |t.rows| => SqDist(x, FeatureRow(t.rows[i], features)))
  }

  /** `row_out` for a row: its name (`''` without a name column), its nutrients, its score and its distance. */
  function MatchOf(t: Table, row: Row, distance: real): (m: Match)
    ensures [m.calories, m.protein, m.carbs, m.sugar] == Vector(row, FEATURE_COLUMNS)
    ensures m.score == Get(row, TARGET_COLUMN) && m.distance == distance
    ensures t.hasNames ==> m.name == row.name
    ensures !t.hasNames ==> m.name == Some("")
  {
    Match(if t.hasNames then row.name else Some(""),
          Get(row, CALORIES), Get(row, PROTEIN), Get(row, CARBOHYDRATES), Get(row, FREE_SUGAR),
          Get(row, TARGET_COLUMN), distance)
  }

  /** NumPy's broadcast of the row vectors against the four input values succeeds. */
  predicate Broadcasts(features: seq<string>)
  {
    |features| == 1 || |features| == 4
  }

  /** The entries `row_out` for the chosen rows, in the order chosen. */
  function MatchList(t: Table, ds: seq<real>, chosen: seq<nat>): (ms: seq<Match>)
    requires |ds| == |t.rows| && forall a :: 0 <= a < |chosen| ==> chosen[a] < |t.rows|
    ensures |ms| == |chosen|
    ensures forall a :: 0 <= a < |chosen| ==> ms[a].distance == ds[chosen[a]]
  {
    seq(|chosen|, a requires 0 <= a < |chosen| => MatchOf(t, t.rows[chosen[a]], ds[chosen[a]]))
  }

  /** `argsort(dists)[:2]` */
  function TopTwo(order: seq<nat>): (top: seq<nat>)
    ensures |top| == MinNat(2, |order|) && top <= order
  {
    order[..MinNat(2, |order|)]
  }

  /**
   * With any admissible `argsort`, `matches` holds min(2, n) rows at
   * non-decreasing distance, and no row left out is nearer than one kept.
   */
  lemma NearestMatches(t: Table, features: seq<string>, x: seq<real>, order: seq<nat>)
    requires |x| == 4 && Broadcasts(features)
    requires IsArgsortOf(order, RowDistances(t, features, x))
    ensures var ds := RowDistances(t, features, x);
      var chosen := TopTwo(order);
      var ms := MatchList(t, ds, chosen);
      && |ms| == MinNat(2, |t.rows|)
      && (forall a, b :: 0 <= a < b < |ms| ==> ms[a].distance <= ms[b].distance)
      && (forall j, a :: 0 <= j < |t.rows| && j !in chosen && 0 <= a < |ms| ==> ms[a].distance <= ds[j])
      && (forall a :: 0 <= a < |ms| ==> ms[a].distance == SqDist(x, FeatureRow(t.rows[chosen[a]], features)))
  {
    var ds := RowDistances(t, features, x);
    ArgsortPrefixIsNearest(ds, order, MinNat(2, |order|));
  }

  /** The loop of `api_predict` that appends `row_out` for each chosen row, in order. */
  method CollectMatches(t: Table, ds: seq<real>, chosen: seq<nat>) returns (matches: seq<Match>)
    requires |ds| == |t.rows| && forall a :: 0 <= a < |chosen| ==> chosen[a] < |t.rows|
    ensures matches == MatchList(t, ds, chosen)
  {
    matches := [];
    for a := 0 to |chosen|
      invariant matches == MatchList(t, ds, chosen[..a])
    {
      assert chosen[..a + 1] == chosen[..a] + [chosen[a]];
      matches := matches + [MatchOf(t, t.rows[chosen[a]], ds[chosen[a]])];
    }
    assert chosen[..|chosen|] == chosen;
  }

  /**
   * `POST /api/predict`. `body` is the request body as parsed JSON (`None`
   * when it is not JSON); `parseFloat` is `float()` on a string; `argsort`
   * is NumPy's `argsort`, of which only its contract is assumed.
   */
  method ApiPredict(st: ServerState, body: Option<Json>, parseFloat: string -> Option<real>,
                    argsort: seq<real> -> seq<nat>)
    returns (resp: Response)
    requires forall ds :: IsArgsortOf(argsort(ds), ds)
    ensures body.None? ==> resp == Response(400, Aborted)
    ensures body.Some? && ParseInput(body.value, parseFloat).None? ==> resp == Response(400, Error("invalid input"))
    ensures body.Some? && ParseInput(body.value, parseFloat).Some? && st.artifacts.None? ==>
      resp.status == 500 && resp.body.Error?
    ensures body.Some? && ParseInput(body.value, parseFloat).Some? && st.artifacts.Some? ==>
      var x := ParseInput(body.value, parseFloat).value;
      var score := App.PredictScore(st.artifacts.value.predictor, x);
      var features := st.artifacts.value.features;
      && (st.df.None? ==> resp == Response(200, Prediction(score, InterpretScore(score), [])))
      && (st.df.Some? && (!HasColumns(st.df.value, features) || !Broadcasts(features)) ==> resp == Response(500, Aborted))
      && (st.df.Some? && HasColumns(st.df.value, features) && Broadcasts(features) ==>
            var ds := RowDistances(st.df.value, features, x);
            IsArgsortOf(argsort(ds), ds)
            && resp == Response(200, Prediction(score, InterpretScore(score), MatchList(st.df.value, ds, TopTwo(argsort(ds))))))
  {
    if body.None? {
      return Response(400, Aborted);
    }
    var input := ParseInput(body.value, parseFloat);
    if input.None? {
      return Response(400, Error("invalid input"));
    }
    if st.artifacts.None? {
      return Response(500, Error("model not loaded. Run training and place model files in project root or outputs/models."));
    }
    var x := input.value;
    var score := App.PredictScore(st.artifacts.value.predictor, x);
    var category := InterpretScore(score);
    var matches: seq<Match> := [];
    if st.df.Some? {
      var t := st.df.value;
      var features := st.artifacts.value.features;
      if !HasColumns(t, features) || !Broadcasts(features) {
        return Response(500, Aborted);
      }
      var ds := RowDistances(t, features, x);
      assert IsArgsortOf(argsort(ds), ds);
      matches := CollectMatches(t, ds, TopTwo(argsort(ds)));
    }
    resp := Response(200, Prediction(score, category, matches));
  }

  /** The dish name column lower-cased contains the normalised query. */
  function SearchHits(t: Table, q: string): (hits: seq<SearchHit>)
    ensures |hits| <= 10
  {
    var h := Head(Matches(t.rows, row => LowerNameHit(q, row)), 10);
    seq(|h|, a requires 0 <= a < |h| => SearchHit(h[a].row.name, Get(h[a].row, TARGET_COLUMN)))
  }

  /** `request.args.get('q', '').strip().lower()` */
  function SearchQuery(query: Option<string>): (q: string)
    ensures query.None? ==> q == []
  {
    Lower(Strip(if query.Some? then query.value else ""))
  }

  /**
   * `GET /api/search?q=…`: a missing dataset is an error whatever the query;
   * a blank query finds nothing; otherwise the first ten rows
   * whose lower-cased name contains the stripped, lower-cased query, each as
   * its name and score. A frame without the name or the score column raises.
   */
  function ApiSearch(st: ServerState, query: Option<string>): (resp: Response)
    ensures st.df.None? ==> resp == Response(500, Error("dataset not loaded"))
    ensures st.df.Some? && query.None? ==> resp == Response(200, Results([]))
    ensures resp.status == 200 ==> resp.body.Results? && |resp.body.results| <= 10
  {
    var q := SearchQuery(query);
    if st.df.None? then Response(500, Error("dataset not loaded"))
    else if q == [] then Response(200, Results([]))
    else if !st.df.value.hasNames || TARGET_COLUMN !in st.df.value.numericColumns then Response(500, Aborted)
    else Response(200, Results(SearchHits(st.df.value, q)))
  }

  /** A query made only of whitespace finds nothing, whatever the frame holds. */
  lemma BlankQueryFindsNothing(st: ServerState, q: string)
    requires st.df.Some?
    requires forall i :: 0 <= i < |q| ==> IsSpace(q[i])
    ensures ApiSearch(st, Some(q)) == Response(200, Results([]))
  {
    StripEmptyIffBlank(q);
  }

  /**
   * A non-blank query returns, in dataset order, the name and score of the
   * first ten rows whose lower-cased name contains it; a matching row is
   * left out only when ten were returned.
   */
  lemma SearchReturnsFirstTen(t: Table, raw: string)
    requires t.hasNames && TARGET_COLUMN in t.numericColumns && SearchQuery(Some(raw)) != []
    ensures var q := SearchQuery(Some(raw));
            var h := Head(Matches(t.rows, row => LowerNameHit(q, row)), 10);
            var results := ApiSearch(ServerState(None, Some(t)), Some(raw)).body.results;
            && |results| == |h| <= 10
            && (forall a :: 0 <= a < |h| ==> h[a].index < |t.rows| && LowerNameHit(q, t.rows[h[a].index]))
            && (forall a :: 0 <= a < |h| ==>
                  results[a] == SearchHit(t.rows[h[a].index].name, Get(t.rows[h[a].index], TARGET_COLUMN)))
            && (forall a, b :: 0 <= a < b < |h| ==> h[a].index < h[b].index)
            && (forall i :: 0 <= i < |t.rows| && LowerNameHit(q, t.rows[i]) && !Listed(h, i) ==> |results| == 10)
  {
    var q := SearchQuery(Some(raw));
    var hit := row => LowerNameHit(q, row);
    HeadOfMatches(t.rows, hit, 10);
    assert ApiSearch(ServerState(None, Some(t)), Some(raw)) == Response(200, Results(SearchHits(t, q)));
  }

  /**
   * The server's results and the CLI's search agree: on the stripped query,
   * the CLI finds nothing exactly when the server returns no results, and
   * otherwise its dishes are the first five the server returns.
   */
  lemma SearchMatchesCli(t: Table, raw: string)
    requires t.hasNames && TARGET_COLUMN in t.numericColumns && Lower(Strip(raw)) != []
    ensures var server := ApiSearch(ServerState(None, Some(t)), Some(raw)).body.results;
            var cli := App.SearchTable(t, Strip(raw)).value;
            && (cli.None? <==> server == [])
            && (cli.Some? ==> |cli.value| == MinNat(5, |server|))
            && (cli.Some? ==> forall a :: 0 <= a < |cli.value| ==> cli.value[a].row.name == server[a].name)
  {
    var q := Lower(Strip(raw));
    HitsAgree(Strip(raw), t.rows);
  }
}
