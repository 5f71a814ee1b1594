/**
 * The dataset loader (data_loader.py): the nutritional score every dish is
 * given, and `DataLoader`, which holds the data frame and extends it in place
 * with the score column.
 */
module DataLoading {
  import opened Wrappers
  import opened Config
  import opened Frame

  /** The four nutrient values the score reads from a row. */
  datatype Nutrients = Nutrients(calories: real, protein: real, carbs: real, sugar: real)

  /** Each value read with `row.get(column, 0)`. */
  function ReadNutrients(row: Row): Nutrients
  {
    Nutrients(Get(row, CALORIES), Get(row, PROTEIN), Get(row, CARBOHYDRATES), Get(row, FREE_SUGAR))
  }

  predicate NonNegative(n: Nutrients)
  {
    n.calories >= 0.0 && n.protein >= 0.0 && n.carbs >= 0.0 && n.sugar >= 0.0
  }

  /** Higher protein is better, up to 20 g. */
  function ProteinScore(protein: real): (s: real)
    ensures 0.0 <= protein ==> 0.0 <= s <= 100.0
    ensures protein >= 20.0 ==> s == 100.0
    ensures protein == 0.0 ==> s == 0.0
  {
    Min(protein, 20.0) / 20.0 * 100.0
  }

  /** Fewer calories are better, down from 500 kcal. */
  function CalorieScore(calories: real): (s: real)
    ensures 0.0 <= calories ==> 0.0 <= s <= 100.0
    ensures calories >= 500.0 ==> s == 0.0
    ensures calories == 0.0 ==> s == 100.0
  {
    (1.0 - Min(calories, 500.0) / 500.0) * 100.0
  }

  /** Carbohydrates are best between 30 g and 50 g and fall off linearly on either side. */
  function CarbScore(carbs: real): (s: real)
    ensures s <= 100.0
    ensures 0.0 <= carbs ==> 0.0 <= s
    ensures carbs >= 80.0 ==> s == 0.0
  {
    if 30.0 <= carbs <= 50.0 then 100.0
    else if carbs < 30.0 then carbs / 30.0 * 100.0
    else Max(0.0, 100.0 - (carbs - 50.0) / 30.0 * 100.0)
  }

  /** Less free sugar is better, down from 15 g. */
  function SugarScore(sugar: real): (s: real)
    ensures 0.0 <= sugar ==> 0.0 <= s <= 100.0
    ensures sugar >= 15.0 ==> s == 0.0
    ensures sugar == 0.0 ==> s == 100.0
  {
    (1.0 - Min(sugar, 15.0) / 15.0) * 100.0
  }

  /**
   * The sub-scores weighted 35/25/25/15, before clamping. The weights sum to
   * one: four equal sub-scores give that sub-score back.
   */
  function WeightedSum(n: Nutrients): (w: real)
    ensures NonNegative(n) ==> 0.0 <= w <= 100.0
    ensures ProteinScore(n.protein) == CalorieScore(n.calories) == CarbScore(n.carbs) == SugarScore(n.sugar)
            ==> w == ProteinScore(n.protein)
  {
    ProteinScore(n.protein) * 0.35 + CalorieScore(n.calories) * 0.25
    + CarbScore(n.carbs) * 0.25 + SugarScore(n.sugar) * 0.15
  }

  /** `calculate_score` on a row's nutrient values: always between 0 and 100. */
  function NutritionalScore(n: Nutrients): (s: real)
    ensures 0.0 <= s <= 100.0
  {
    Min(100.0, Max(0.0, WeightedSum(n)))
  }

  /** `DataLoader.calculate_score(row)` */
  function CalculateScore(row: Row): (s: real)
    ensures 0.0 <= s <= 100.0
  {
    NutritionalScore(ReadNutrients(row))
  }

  /** For non-negative amounts every sub-score lies in [0, 100]. */
  lemma SubScoresBounded(n: Nutrients)
    requires NonNegative(n)
    ensures 0.0 <= ProteinScore(n.protein) <= 100.0
    ensures 0.0 <= CalorieScore(n.calories) <= 100.0
    ensures 0.0 <= CarbScore(n.carbs) <= 100.0
    ensures 0.0 <= SugarScore(n.sugar) <= 100.0
  {
  }

  /**
   * The weights sum to one, so for non-negative amounts the weighted sum is
   * already in [0, 100] and the final clamp changes nothing.
   */
  lemma ClampInactive(n: Nutrients)
    requires NonNegative(n)
    ensures 0.0 <= WeightedSum(n) <= 100.0
    ensures NutritionalScore(n) == WeightedSum(n)
  {
    SubScoresBounded(n);
  }

  /** The carbohydrate sub-score is 100 exactly on the 30..50 g band. */
  lemma CarbPlateau(carbs: real)
    ensures CarbScore(carbs) == 100.0 <==> 30.0 <= carbs <= 50.0
  {
  }

  /** Below the band the sub-score rises strictly; above it, it falls until it reaches 0 at 80 g. */
  lemma CarbSlopes(c: real, d: real)
    ensures c < d <= 30.0 ==> CarbScore(c) < CarbScore(d)
    ensures 50.0 <= c < d <= 80.0 ==> CarbScore(c) > CarbScore(d)
    ensures 80.0 <= c ==> CarbScore(c) == 0.0
  {
  }

  /** For a non-negative amount the carbohydrate sub-score is 0 exactly at 0 g and from 80 g on. */
  lemma CarbZero(carbs: real)
    requires carbs >= 0.0
    ensures CarbScore(carbs) == 0.0 <==> carbs == 0.0 || carbs >= 80.0
  {
  }

  /** Protein above 20 g, calories above 500 kcal and sugar above 15 g score as the cap does. */
  lemma CapsSaturate(n: Nutrients)
    ensures n.protein >= 20.0 ==> NutritionalScore(n) == NutritionalScore(n.(protein := 20.0))
    ensures n.calories >= 500.0 ==> NutritionalScore(n) == NutritionalScore(n.(calories := 500.0))
    ensures n.sugar >= 15.0 ==> NutritionalScore(n) == NutritionalScore(n.(sugar := 15.0))
  {
  }

  /** A row without any of the four nutrient columns reads as all zeros and scores 25 + 15 = 40. */
  lemma MissingFieldsReadAsZero(row: Row)
    requires CALORIES !in row.values && PROTEIN !in row.values
    requires CARBOHYDRATES !in row.values && FREE_SUGAR !in row.values
    ensures ReadNutrients(row) == Nutrients(0.0, 0.0, 0.0, 0.0)
    ensures CalculateScore(row) == 40.0
  {
    var zero := Nutrients(0.0, 0.0, 0.0, 0.0);
    assert ReadNutrients(row) == zero;
    assert CarbScore(0.0) == 0.0;
    assert WeightedSum(zero) == 0.0 * 0.35 + 100.0 * 0.25 + 0.0 * 0.25 + 100.0 * 0.15;
  }

  /** The best score: protein at least 20 g, no calories, carbohydrates in the band and no sugar. */
  lemma BestScore(n: Nutrients)
    requires NonNegative(n)
    ensures NutritionalScore(n) == 100.0
        <==> n.protein >= 20.0 && n.calories == 0.0 && 30.0 <= n.carbs <= 50.0 && n.sugar == 0.0
  {
    ClampInactive(n);
  }

  /** The worst score: no protein, at least 500 kcal, no carbohydrates or at least 80 g, at least 15 g sugar. */
  lemma WorstScore(n: Nutrients)
    requires NonNegative(n)
    ensures NutritionalScore(n) == 0.0
        <==> n.protein == 0.0 && n.calories >= 500.0 && (n.carbs == 0.0 || n.carbs >= 80.0) && n.sugar >= 15.0
  {
    ClampInactive(n);
    CarbZero(n.carbs);
  }

  /** More protein, fewer calories and less sugar never lower the score. */
  lemma ScoreMonotone(n: Nutrients, m: Nutrients)
    requires n.carbs == m.carbs
    requires n.protein <= m.protein && m.calories <= n.calories && m.sugar <= n.sugar
    ensures NutritionalScore(n) <= NutritionalScore(m)
  {
    assert ProteinScore(n.protein) <= ProteinScore(m.protein);
    assert CalorieScore(n.calories) <= CalorieScore(m.calories);
    assert SugarScore(n.sugar) <= SugarScore(m.sugar);
  }

  /** `X, y, dishes` as `prepare_data` returns them. */
  datatype Prepared = Prepared(x: seq<seq<real>>, y: seq<real>, dishes: seq<Option<string>>)

  /** `df[TARGET_COLUMN] = df.apply(calculate_score, axis=1)` */
  function WithScoreColumn(t: Table): (u: Table)
    ensures u.numericColumns == t.numericColumns + {TARGET_COLUMN} && u.hasNames == t.hasNames
    ensures |u.rows| == |t.rows|
    ensures forall i :: 0 <= i < |t.rows| ==> u.rows[i].name == t.rows[i].name
    ensures forall i :: 0 <= i < |t.rows| ==> TARGET_COLUMN in u.rows[i].values
    ensures forall i, c :: 0 <= i < |t.rows| && c != TARGET_COLUMN ==> Get(u.rows[i], c) == Get(t.rows[i], c)
  {
    Table(t.numericColumns + {TARGET_COLUMN}, t.hasNames,
          seq(|t.rows|, i requires 0 <= i < |t.rows| =>
            Row(t.rows[i].name, t.rows[i].values[TARGET_COLUMN := CalculateScore(t.rows[i])])))
  }

  /** The score only reads the nutrient columns, never the score column itself. */
  lemma ScoreIgnoresTarget(row: Row, v: real)
    ensures CalculateScore(Row(row.name, row.values[TARGET_COLUMN := v])) == CalculateScore(row)
  {
    var r := Row(row.name, row.values[TARGET_COLUMN := v]);
    assert ReadNutrients(r) == ReadNutrients(row);
  }

  /** Every row's score column holds its score, and that score lies in [0, 100]. */
  lemma ScoreColumnHoldsScores(t: Table)
    ensures forall i :: 0 <= i < |t.rows| ==>
      Get(WithScoreColumn(t).rows[i], TARGET_COLUMN) == CalculateScore(t.rows[i])
      && 0.0 <= Get(WithScoreColumn(t).rows[i], TARGET_COLUMN) <= 100.0
  {
  }

  /** Scoring a table that was already scored changes nothing. */
  lemma ScoreColumnIdempotent(t: Table)
    ensures WithScoreColumn(WithScoreColumn(t)) == WithScoreColumn(t)
  {
    var u := WithScoreColumn(t);
    var w := WithScoreColumn(u);
    forall i | 0 <= i < |t.rows| ensures w.rows[i] == u.rows[i] {
      var s := CalculateScore(t.rows[i]);
      assert u.rows[i] == Row(t.rows[i].name, t.rows[i].values[TARGET_COLUMN := s]);
      ScoreIgnoresTarget(t.rows[i], s);
      assert w.rows[i] == Row(u.rows[i].name, u.rows[i].values[TARGET_COLUMN := s]);
      assert t.rows[i].values[TARGET_COLUMN := s][TARGET_COLUMN := s] == t.rows[i].values[TARGET_COLUMN := s];
    }
    assert w.rows == u.rows;
  }

  /**
   * `X = df[FEATURE_COLUMNS]`, `y = df[TARGET_COLUMN]`, `dishes = df[DISH_NAME_COLUMN]`:
   * a KeyError when a feature column or the name column is missing.
   */
  function Extract(t: Table): (r: Result<Prepared, PyError>)
    ensures r.Failure? ==> r.error == KeyError
    ensures r.Success? ==> t.hasNames && HasColumns(t, FEATURE_COLUMNS)
    ensures r.Success? ==> |r.value.x| == |r.value.y| == |r.value.dishes| == |t.rows|
    ensures r.Success? ==> forall i :: 0 <= i < |t.rows| ==> |r.value.x[i]| == |FEATURE_COLUMNS|
  {
    if !HasColumns(t, FEATURE_COLUMNS) || TARGET_COLUMN !in t.numericColumns || !t.hasNames then Failure(KeyError)
    else
      Success(Prepared(
        seq(|t.rows|, i requires 0 <= i < |t.rows| => Vector(t.rows[i], FEATURE_COLUMNS)),
        seq(|t.rows|, i requires 0 <= i < |t.rows| => Get(t.rows[i], TARGET_COLUMN)),
        seq(|t.rows|, i requires 0 <= i < |t.rows| => t.rows[i].name)))
  }

  /**
   * Extracting from a scored table fails exactly when a feature column or the
   * name column is missing; otherwise X, y and dishes have one entry per row,
   * X is read in FEATURE_COLUMNS order and y is the row's score.
   */
  lemma PreparedAligned(t: Table)
    ensures Extract(WithScoreColumn(t)).Success? <==> HasColumns(t, FEATURE_COLUMNS) && t.hasNames
    ensures Extract(WithScoreColumn(t)).Failure? ==> Extract(WithScoreColumn(t)).error == KeyError
    ensures Extract(WithScoreColumn(t)).Success? ==>
      var p := Extract(WithScoreColumn(t)).value;
      && |p.x| == |p.y| == |p.dishes| == |t.rows|
      && (forall i :: 0 <= i < |t.rows| ==> p.x[i] == Vector(t.rows[i], FEATURE_COLUMNS))
      && (forall i :: 0 <= i < |t.rows| ==> p.y[i] == CalculateScore(t.rows[i]) && 0.0 <= p.y[i] <= 100.0)
      && (forall i :: 0 <= i < |t.rows| ==> p.dishes[i] == t.rows[i].name)
  {
    var u := WithScoreColumn(t);
    assert HasColumns(u, FEATURE_COLUMNS) <==> HasColumns(t, FEATURE_COLUMNS);
    if Extract(u).Success? {
      var p := Extract(u).value;
      forall i | 0 <= i < |t.rows| ensures p.x[i] == Vector(t.rows[i], FEATURE_COLUMNS) {
        ScoredFeatures(t, i);
      }
    }
  }

  /** Adding the score column leaves a row's feature vector as it was. */
  lemma ScoredFeatures(t: Table, i: nat)
    requires i < |t.rows|
    ensures Vector(WithScoreColumn(t).rows[i], FEATURE_COLUMNS) == Vector(t.rows[i], FEATURE_COLUMNS)
  {
    TargetIsNoFeature();
  }

  /** The score column is none of the feature columns. */
  lemma TargetIsNoFeature()
    ensures forall j :: 0 <= j < |FEATURE_COLUMNS| ==> FEATURE_COLUMNS[j] != TARGET_COLUMN
  {
    forall j | 0 <= j < |FEATURE_COLUMNS| ensures FEATURE_COLUMNS[j] != TARGET_COLUMN {
      assert FEATURE_COLUMNS[j][0] != TARGET_COLUMN[0];
    }
  }

  /** The table `prepare_data` works on: the frame already held, else the file just read. */
  function Loaded(df: Option<Table>, csv: Option<Table>): (r: Option<Table>)
    ensures r.None? <==> df.None? && csv.None?
    ensures df.Some? ==> r == df
    ensures df.None? ==> r == csv
  {
    if df.Some? then df else csv
  }

  /**
   * The loader holds the data frame, `None` until `Load` reads the file.
   * `csv` stands for the dataset file: its contents when it exists, `None`
   * when it does not.
   */
  class DataLoader {
    var df: Option<Table>

    constructor()
      ensures df == None
    {
      df := None;
    }

    /** `load()`: FileNotFoundError when the file is missing, otherwise the frame is replaced. */
    method Load(csv: Option<Table>) returns (r: Result<Table, PyError>)
      modifies this
      ensures csv.None? ==> r == Failure(FileNotFoundError) && df == old(df)
      ensures csv.Some? ==> r == Success(csv.value) && df == csv
    {
      if csv.None? {
        return Failure(FileNotFoundError);
      }
      df := csv;
      r := Success(csv.value);
    }

    /**
     * `prepare_data()`: loads the frame if none is held, adds the score
     * column to it in place (before any KeyError from the column selection)
     * and returns X, y and the dish names.
     */
    method PrepareData(csv: Option<Table>) returns (r: Result<Prepared, PyError>)
      modifies this
      ensures Loaded(old(df), csv).None? ==> r == Failure(FileNotFoundError) && df == old(df)
      ensures Loaded(old(df), csv).Some? ==>
        df == Some(WithScoreColumn(Loaded(old(df), csv).value)) && r == Extract(df.value)
    {
      if df.None? {
        var loaded := Load(csv);
        if loaded.Failure? {
          return Failure(loaded.error);
        }
      }
      df := Some(WithScoreColumn(df.value));
      r := Extract(df.value);
    }
  }

  /** Preparing twice leaves the frame as preparing once did. */
  lemma PrepareTwice(df: Option<Table>, csv: Option<Table>)
    requires Loaded(df, csv).Some?
    ensures var once := Some(WithScoreColumn(Loaded(df, csv).value));
            Loaded(once, csv) == once
            && Some(WithScoreColumn(Loaded(once, csv).value)) == once
  {
    ScoreColumnIdempotent(Loaded(df, csv).value);
  }
}
