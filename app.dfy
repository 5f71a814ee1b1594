/**
 * The interactive prediction app (app.py): reading the nutrient values,
 * predicting and interpreting a score, searching dishes by name and finding
 * the dishes nearest to the entered values.
 */
module App {
  import opened Wrappers
  import opened Frame
  import opened Text
  import opened Bands
  import opened Ranking
  import opened NameSearch
  import opened DataLoading

  /** The fitted scaler and regression model, as functions on a nutrient vector. */
  datatype Predictor = Predictor(scale: seq<real> -> seq<real>, predict: seq<real> -> real)

  /** `predict_score`: the model's output on the scaled input, clamped to [0, 100]. */
  function PredictScore(p: Predictor, x: seq<real>): (s: real)
    ensures 0.0 <= s <= 100.0
    ensures 0.0 <= p.predict(p.scale(x)) <= 100.0 ==> s == p.predict(p.scale(x))
  {
    Clamp(p.predict(p.scale(x)))
  }

  /** The category ladder of `interpret_score`. */
  function Interpret(score: real): (c: Category)
    ensures Rank(c) == CountReached(THRESHOLDS, score)
  {
    CountReachedThresholds(score);
    if score >= 80.0 then Excellent
    else if score >= 70.0 then VeryGood
    else if score >= 60.0 then Good
    else if score >= 50.0 then Fair
    else if score >= 40.0 then Poor
    else VeryPoor
  }

  /** The CLI's label: the category name followed by an emoji. */
  function Label(c: Category): string
  {
    match c
    case Excellent => "Excellent \U{1F31F}"
    case VeryGood => "Very Good \U{2705}"
    case Good => "Good \U{1F44D}"
    case Fair => "Fair \U{2696}\U{FE0F}"
    case Poor => "Poor \U{26A0}\U{FE0F}"
    case VeryPoor => "Very Poor \U{274C}"
  }

  function Message(c: Category): string
  {
    match c
    case Excellent => "Outstanding nutritional quality!"
    case VeryGood => "Very good nutritional value"
    case Good => "Good nutritional quality"
    case Fair => "Moderate nutritional quality"
    case Poor => "Low nutritional quality"
    case VeryPoor => "Very low nutritional quality"
  }

  /**
   * `interpret_score(score)`: the label and the message of the category
   * whose rank is the number of thresholds the score reaches.
   */
  function InterpretScore(score: real): (r: (string, string))
    ensures Name(OfRank(CountReached(THRESHOLDS, score))) + " " <= r.0
    ensures r.0 == Label(OfRank(CountReached(THRESHOLDS, score)))
    ensures r.1 == Message(OfRank(CountReached(THRESHOLDS, score)))
  {
    OfRankOfCategory(Interpret(score));
    LabelsNameTheCategory(Interpret(score), Interpret(score));
    (Label(Interpret(score)), Message(Interpret(score)))
  }

  /** Each label starts with the plain category name, and different categories get different labels. */
  lemma LabelsNameTheCategory(c: Category, d: Category)
    ensures Name(c) + " " <= Label(c)
    ensures c != d ==> Label(c) != Label(d) && Message(c) != Message(d)
  {
  }

  /** A higher score never gets a lower category. */
  lemma InterpretMonotone(s: real, t: real)
    requires s <= t
    ensures Rank(Interpret(s)) <= Rank(Interpret(t))
  {
    CountReachedMonotone(THRESHOLDS, s, t);
  }

  /** The thresholds are inclusive: a score equal to one is in the higher band, anything below it is not. */
  lemma InclusiveThresholds(k: nat, s: real)
    requires k < |THRESHOLDS|
    ensures Rank(Interpret(THRESHOLDS[k])) == k + 1
    ensures s < THRESHOLDS[k] ==> Rank(Interpret(s)) <= k
  {
  }

  /** One value typed at the prompt: a number, or text that `float()` rejects. */
  datatype Entry = Number(value: real) | NotANumber

  /** The values the prompt accepts from what was typed, in order: the non-negative numbers. */
  function Accepted(input: seq<Entry>): (acc: seq<real>)
    ensures |acc| <= |input|
    ensures forall j :: 0 <= j < |acc| ==> acc[j] >= 0.0
  {
    if input == [] then []
    else
      var last := input[|input| - 1];
      Accepted(input[..|input| - 1]) + (if last.Number? && last.value >= 0.0 then [last.value] else [])
  }

  /** What a prefix of the input yields is a prefix of what the whole input yields. */
  lemma {:induction false} AcceptedPrefix(input: seq<Entry>, p: nat)
    requires p <= |input|
    ensures Accepted(input[..p]) <= Accepted(input)
  {
    if p < |input| {
      var n := |input| - 1;
      assert input[..n][..p] == input[..p];
      AcceptedPrefix(input[..n], p);
    } else {
      assert input[..p] == input;
    }
  }

  /** A Python dict as its items in insertion order. */
  type Dict = seq<(string, real)>

  /** The keys of `d` are pairwise different, as in any Python dict. */
  predicate UniqueKeys(d: Dict)
  {
    forall i, j :: 0 <= i < j < |d| ==> d[i].0 != d[j].0
  }

  /**
   * `d[k] = v`: the first item with key `k` takes the new value in its old
   * position and nothing else changes; without such an item, the pair is
   * appended.
   */
  function Put(d: Dict, k: string, v: real): (e: Dict)
    ensures |e| == |d| || e == d + [(k, v)]
    ensures forall i :: 0 <= i < |d| && d[i].0 == k && (forall j :: 0 <= j < i ==> d[j].0 != k) ==> e == d[i := (k, v)]
    ensures (forall i :: 0 <= i < |d| ==> d[i].0 != k) ==> e == d + [(k, v)]
  {
    if d == [] then [(k, v)]
    else if d[0].0 == k then
      assert [(k, v)] + d[1..] == d[0 := (k, v)];
      [(k, v)] + d[1..]
    else
      [d[0]] + Put(d[1..], k, v)
  }

  /**
   * After `d[k] = v` every position holds the key it held before, or `k`;
   * a dict with unique keys keeps them unique.
   */
  lemma {:induction false} PutKeys(d: Dict, k: string, v: real)
    ensures forall a :: 0 <= a < |Put(d, k, v)| ==> Put(d, k, v)[a].0 == k || (a < |d| && Put(d, k, v)[a].0 == d[a].0)
    ensures UniqueKeys(d) ==> UniqueKeys(Put(d, k, v))
  {
    if d != [] && d[0].0 != k {
      PutKeys(d[1..], k, v);
      var rest := Put(d[1..], k, v);
      assert Put(d, k, v) == [d[0]] + rest;
      forall a | 1 <= a < |Put(d, k, v)|
        ensures Put(d, k, v)[a].0 == k || (a < |d| && Put(d, k, v)[a].0 == d[a].0)
      {
        assert Put(d, k, v)[a] == rest[a - 1];
      }
    }
  }

  /** The dict built by storing `vals[i]` under `keys[i]`, in order: its keys are unique and all among `keys`. */
  function Fill(keys: seq<string>, vals: seq<real>): (d: Dict)
    requires |keys| == |vals|
    ensures |d| <= |keys|
    ensures forall i :: 0 <= i < |d| ==> d[i].0 in keys
    ensures UniqueKeys(d)
  {
    if keys == [] then []
    else
      var n := |keys| - 1;
      var front := Fill(keys[..n], vals[..n]);
      PutKeys(front, keys[n], vals[n]);
      assert forall i :: 0 <= i < |front| ==> front[i].0 in keys;
      Put(front, keys[n], vals[n])
  }

  /** Storing one more pair extends the fill by one `Put`. */
  lemma FillSnoc(keys: seq<string>, vals: seq<real>, k: string, v: real)
    requires |keys| == |vals|
    ensures Fill(keys + [k], vals + [v]) == Put(Fill(keys, vals), k, v)
  {
    assert (keys + [k])[..|keys|] == keys;
    assert (vals + [v])[..|vals|] == vals;
  }

  /** Storing the value of feature `i` extends the fill of the first `i` features by one. */
  lemma StoreNext(features: seq<string>, i: nat, acc: seq<real>, v: real)
    requires i < |features| && |acc| == i
    ensures Put(Fill(features[..i], acc), features[i], v) == Fill(features[..i + 1], acc + [v])
  {
    var keys := features[..i] + [features[i]];
    assert keys == features[..i + 1];
    FillSnoc(features[..i], acc, features[i], v);
  }

  /** Once every feature has a value, the fill is the one over the first accepted values. */
  lemma AllStored(features: seq<string>, input: seq<Entry>, pos: nat)
    requires pos <= |input| && |Accepted(input[..pos])| == |features|
    ensures |Accepted(input)| >= |features|
    ensures Fill(features[..|features|], Accepted(input[..pos])) == Fill(features, Accepted(input)[..|features|])
  {
    AcceptedPrefix(input, pos);
    assert Accepted(input[..pos]) == Accepted(input)[..|features|];
    assert features[..|features|] == features;
  }

  /** `list(d.values())` */
  function DictValues(d: Dict): (vs: seq<real>)
    ensures |vs| == |d|
  {
    seq(|d|, i requires 0 <= i < |d| => d[i].1)
  }

  predicate Distinct(keys: seq<string>)
  {
    forall i, j :: 0 <= i < j < |keys| ==> keys[i] != keys[j]
  }

  /** A key the dict does not hold yet is appended. */
  lemma {:induction false} PutNew(d: Dict, k: string, v: real)
    requires forall i :: 0 <= i < |d| ==> d[i].0 != k
    ensures Put(d, k, v) == d + [(k, v)]
  {
    if d != [] {
      PutNew(d[1..], k, v);
    }
  }

  /** With distinct keys the dict holds every pair, in the order stored. */
  lemma {:induction false} FillDistinct(keys: seq<string>, vals: seq<real>)
    requires |keys| == |vals| && Distinct(keys)
    ensures Fill(keys, vals) == seq(|keys|, i requires 0 <= i < |keys| => (keys[i], vals[i]))
  {
    if keys != [] {
      var n := |keys| - 1;
      FillDistinct(keys[..n], vals[..n]);
      PutNew(Fill(keys[..n], vals[..n]), keys[n], vals[n]);
    }
  }

  /** Storing a non-negative value keeps every value of the dict non-negative. */
  lemma {:induction false} PutNonNegative(d: Dict, k: string, v: real)
    requires v >= 0.0 && forall i :: 0 <= i < |d| ==> d[i].1 >= 0.0
    ensures forall i :: 0 <= i < |Put(d, k, v)| ==> Put(d, k, v)[i].1 >= 0.0
  {
    if d != [] && d[0].0 != k {
      PutNonNegative(d[1..], k, v);
    }
  }

  /** Filling with non-negative values gives a dict of non-negative values. */
  lemma {:induction false} FillNonNegative(keys: seq<string>, vals: seq<real>)
    requires |keys| == |vals| && forall j :: 0 <= j < |vals| ==> vals[j] >= 0.0
    ensures forall i :: 0 <= i < |Fill(keys, vals)| ==> Fill(keys, vals)[i].1 >= 0.0
  {
    if keys != [] {
      var n := |keys| - 1;
      FillNonNegative(keys[..n], vals[..n]);
      PutNonNegative(Fill(keys[..n], vals[..n]), keys[n], vals[n]);
    }
  }

  /**
   * The `while True` prompt of `get_user_input` for one feature, reading the
   * input from `pos`: text that is not a number and negative numbers are
   * skipped, the first non-negative number is taken. Running out of input
   * (the interrupt) yields None.
   */
  method PromptValue(input: seq<Entry>, pos: nat) returns (value: Option<real>, next: nat)
    requires pos <= |input|
    ensures pos <= next <= |input|
    ensures value.None? ==> next == |input| && Accepted(input[..next]) == Accepted(input[..pos])
    ensures value.Some? ==> value.value >= 0.0 && Accepted(input[..next]) == Accepted(input[..pos]) + [value.value]
  {
    next := pos;
    while next < |input|
      invariant pos <= next <= |input|
      invariant Accepted(input[..next]) == Accepted(input[..pos])
    {
      var entry := input[next];
      next := next + 1;
      assert input[..next][..next - 1] == input[..next - 1];
      if entry.Number? && entry.value >= 0.0 {
        return Some(entry.value), next;
      }
    }
    return None, next;
  }

  /**
   * `get_user_input(features)`: for each feature, prompts until a
   * non-negative number is typed. `input` is everything typed before an
   * interrupt; running out of it is the KeyboardInterrupt, which yields None.
   */
  method GetUserInput(features: seq<string>, input: seq<Entry>) returns (r: Option<seq<real>>)
    ensures r.None? <==> |Accepted(input)| < |features|
    ensures r.Some? ==> r.value == DictValues(Fill(features, Accepted(input)[..|features|]))
  {
    var values: Dict := [];
    var pos := 0;
    for i := 0 to |features|
      invariant pos <= |input|
      invariant |Accepted(input[..pos])| == i
      invariant values == Fill(features[..i], Accepted(input[..pos]))
    {
      var value, next := PromptValue(input, pos);
      if value.None? {
        assert input[..next] == input;
        return None;
      }
      StoreNext(features, i, Accepted(input[..pos]), value.value);
      values := Put(values, features[i], value.value);
      pos := next;
    }
    AllStored(features, input, pos);
    r := Some(DictValues(values));
  }


  /**
   * What `get_user_input` returns holds only non-negative numbers; with
   * distinct feature names it holds one per feature, in feature order: the
   * first accepted values.
   */
  lemma UserInputValues(features: seq<string>, input: seq<Entry>)
    requires |Accepted(input)| >= |features|
    ensures var v := DictValues(Fill(features, Accepted(input)[..|features|]));
      && (forall j :: 0 <= j < |v| ==> v[j] >= 0.0)
      && (Distinct(features) ==> v == Accepted(input)[..|features|])
  {
    var vals := Accepted(input)[..|features|];
    FillNonNegative(features, vals);
    if Distinct(features) {
      FillDistinct(features, vals);
    }
  }

  /**
   * The name search on a loaded frame: a KeyError without a name column,
   * None when no name contains the query (ignoring case), otherwise the
   * first five matching rows.
   */
  function SearchTable(t: Table, query: string): (r: Result<Option<seq<Indexed>>, PyError>)
    ensures r.Failure? <==> !t.hasNames
    ensures r.Failure? ==> r.error == KeyError
  {
    if !t.hasNames then Failure(KeyError)
    else
      var m := Matches(t.rows, row => NameHit(query, row));
      if |m| == 0 then Success(None) else Success(Some(Head(m, 5)))
  }

  /** The search yields None exactly when no row's name contains the query. */
  lemma SearchNoneIffNoMatch(t: Table, query: string)
    requires t.hasNames
    ensures SearchTable(t, query).value.None? <==> forall i :: 0 <= i < |t.rows| ==> !NameHit(query, t.rows[i])
  {
    var hit := row => NameHit(query, row);
    var m := Matches(t.rows, hit);
    assert SearchTable(t, query).value.None? <==> |m| == 0;
    if |m| == 0 {
      forall i | 0 <= i < |t.rows| ensures !hit(t.rows[i]) {
        MatchesExactly(t.rows, hit, i);
      }
    } else {
      assert hit(t.rows[m[0].index]);
    }
  }

  /**
   * Otherwise it yields between one and five matching rows, in dataset
   * order, and leaves a matching row out only when five earlier matches were
   * returned.
   */
  lemma SearchReturnsFirstMatches(t: Table, query: string)
    requires t.hasNames && SearchTable(t, query).value.Some?
    ensures var h := SearchTable(t, query).value.value;
      && 1 <= |h| <= 5
      && (forall a :: 0 <= a < |h| ==> h[a].index < |t.rows| && h[a].row == t.rows[h[a].index] && NameHit(query, h[a].row))
      && (forall a, b :: 0 <= a < b < |h| ==> h[a].index < h[b].index)
      && (forall i :: 0 <= i < |t.rows| && NameHit(query, t.rows[i]) && !Listed(h, i) ==> |h| == 5 && h[4].index < i)
  {
    HeadOfMatches(t.rows, row => NameHit(query, row), 5);
  }

  /** A candidate of `find_matching_dishes`: a dataset row and its distance to the input. */
  datatype Candidate = Candidate(index: nat, row: Row, distance: real)

  function Indices(cs: seq<Candidate>): (idx: seq<nat>)
    ensures |idx| == |cs| && forall a :: 0 <= a < |cs| ==> idx[a] == cs[a].index
  {
    seq(|cs|, a requires 0 <= a < |cs| => cs[a].index)
  }

  /**
   * The loop of `find_matching_dishes` over a loaded frame, then
   * `nsmallest(top_n, 'distance')`. Reading a feature the frame lacks raises
   * a KeyError on the first row, so an empty frame raises nothing.
   */
  method NearestRows(t: Table, features: seq<string>, x: seq<real>, topN: nat) returns (r: Result<seq<Candidate>, PyError>)
    requires |x| == |features|
    ensures r.Failure? <==> |t.rows| > 0 && !HasColumns(t, features)
    ensures r.Failure? ==> r.error == KeyError
    ensures r.Success? ==>
      var ds := Distances(t.rows, features, x);
      && StableSmallest(ds, Indices(r.value), topN)
      && (forall a :: 0 <= a < |r.value| ==>
            r.value[a].index < |t.rows| && r.value[a].row == t.rows[r.value[a].index]
            && r.value[a].distance == ds[r.value[a].index])
  {
    var distances: seq<real> := [];
    for i := 0 to |t.rows|
      invariant distances == Distances(t.rows[..i], features, x)
      invariant i > 0 ==> HasColumns(t, features)
    {
      if !HasColumns(t, features) {
        return Failure(KeyError);
      }
      assert t.rows[..i + 1][..i] == t.rows[..i];
      distances := distances + [SqDist(x, Vector(t.rows[i], features))];
    }
    assert t.rows[..|t.rows|] == t.rows;
    var order := NSmallest(distances, topN);
    NSmallestIsStableSmallest(distances, topN);
    var found := seq(|order|, a requires 0 <= a < |order| => Candidate(order[a], t.rows[order[a]], distances[order[a]]));
    assert Indices(found) == order;
    r := Success(found);
  }

  /**
   * A dish whose nutrient vector equals the input is at distance 0, so the
   * first candidate is the earliest such dish.
   */
  lemma IdenticalDishFirst(rows: seq<Row>, features: seq<string>, x: seq<real>, topN: nat, j: nat)
    requires |x| == |features| && 1 <= topN
    requires j < |rows| && Vector(rows[j], features) == x
    ensures var idx := NSmallest(Distances(rows, features, x), topN);
      && |idx| >= 1 && idx[0] < |rows| && Vector(rows[idx[0]], features) == x
      && forall i :: 0 <= i < idx[0] ==> Vector(rows[i], features) != x
  {
    var ds := Distances(rows, features, x);
    var idx := NSmallest(ds, topN);
    NSmallestIsStableSmallest(ds, topN);
    ExactMatchFirst(ds, idx, topN, j);
    forall i | 0 <= i < idx[0] ensures Vector(rows[i], features) != x {
      assert ds[i] != 0.0;
    }
  }

  /**
   * `search_similar_dishes(dish_name, loader)`. With a frame already loaded
   * it only reads it. Without one it loads the file and then calls
   * `loader.calculate_scores()`, which `DataLoader` does not define: an
   * AttributeError once the frame is loaded.
   */
  method SearchSimilarDishes(query: string, loader: DataLoader, csv: Option<Table>)
    returns (r: Result<Option<seq<Indexed>>, PyError>)
    modifies loader
    ensures old(loader.df).Some? ==> r == SearchTable(old(loader.df).value, query) && loader.df == old(loader.df)
    ensures old(loader.df).None? && csv.None? ==> r == Failure(FileNotFoundError) && loader.df == None
    ensures old(loader.df).None? && csv.Some? ==> r == Failure(AttributeError("calculate_scores")) && loader.df == csv
  {
    if loader.df.None? {
      var loaded := loader.Load(csv);
      if loaded.Failure? {
        return Failure(loaded.error);
      }
      return Failure(AttributeError("calculate_scores"));
    }
    r := SearchTable(loader.df.value, query);
  }

  /**
   * `find_matching_dishes(X_input, features, loader, top_n)`: the lazy
   * branch as in `SearchSimilarDishes`; with a frame loaded, the nearest
   * rows, and the loader's frame is left as it was.
   */
  method FindMatchingDishes(x: seq<real>, features: seq<string>, loader: DataLoader, csv: Option<Table>, topN: nat)
    returns (r: Result<seq<Candidate>, PyError>)
    requires |x| == |features|
    modifies loader
    ensures old(loader.df).None? && csv.None? ==> r == Failure(FileNotFoundError) && loader.df == None
    ensures old(loader.df).None? && csv.Some? ==> r == Failure(AttributeError("calculate_scores")) && loader.df == csv
    ensures old(loader.df).Some? ==> loader.df == old(loader.df)
    ensures old(loader.df).Some? ==>
      var t := old(loader.df).value;
      var ds := Distances(t.rows, features, x);
      && (r.Failure? <==> |t.rows| > 0 && !HasColumns(t, features))
      && (r.Failure? ==> r.error == KeyError)
      && (r.Success? ==> StableSmallest(ds, Indices(r.value), topN))
      && (r.Success? ==> forall a :: 0 <= a < |r.value| ==>
            r.value[a].row == t.rows[r.value[a].index] && r.value[a].distance == ds[r.value[a].index])
  {
    if loader.df.None? {
      var loaded := loader.Load(csv);
      if loaded.Failure? {
        return Failure(loaded.error);
      }
      return Failure(AttributeError("calculate_scores"));
    }
    r := NearestRows(loader.df.value, features, x, topN);
  }
}
