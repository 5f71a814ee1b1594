# Nutrition score regression: a Dafny model of its core

The project scores Indian dishes by their nutrient values. It trains a
regression model on those scores and serves predictions two ways: an
interactive command-line app and a small Flask server. This Dafny project
models the three files that hold the behaviour:

- **`data_loader.py`**
  - `DataLoader` holds the data frame, loads it lazily and adds the
    `Nutritional_Score` column in place.
  - `calculate_score` is the scoring formula. It has four sub-scores
    (protein, calories, carbohydrates, free sugar), weighted 35/25/25/15 and
    clamped to [0, 100].
- **`app.py`**
  - Prompting for the four values until each is a non-negative number.
  - Clamping the model's prediction and naming its category band.
  - Searching dishes by name: a case-insensitive substring test, first five
    matches.
  - Finding the dishes nearest to the entered values by Euclidean distance,
    with pandas' `nsmallest`.
- **`server.py`**
  - Locating the saved artifacts and the dataset at start-up.
  - `POST /api/predict`: the score, its category and the two nearest dishes.
  - `GET /api/search`: the first ten dishes whose lower-cased name contains
    the stripped, lower-cased query.

## Modules

| module | file | holds |
|---|---|---|
| `Wrappers` | wrappers.dfy | `Option`, `Result` |
| `Config` | config.dfy | the column names of `config.py` |
| `Frame` | frame.dfy | a data frame as rows. Each row has an optional dish name and a map from numeric column to value. `row.get(c, 0)` reads a cell. The Python exceptions that can be raised. |
| `Text` | text.dfy | `str.strip`, ASCII lower-casing, and substring containment |
| `Bands` | bands.dfy | the [0, 100] clamp and the six category bands at 80/70/60/50/40 |
| `Ranking` | ranking.dfy | squared Euclidean distance, and `nsmallest(keep='first')` as a stable insertion ranking. The contract of NumPy's `argsort`. |
| `NameSearch` | name_search.dfy | boolean-mask row selection (`df[mask]`) and `.head(k)` |
| `DataLoading` | data_loader.dfy | the score formula, the score column, and the `DataLoader` class |
| `App` | app.dfy | the CLI functions |
| `Server` | server.dfy | start-up and the two JSON handlers |

Some things are parameters of the model:

- `csv: Option<Table>` is the dataset file: its contents, or `None` when it
  does not exist.
- `pathExists`, `loadModel`, `loadScaler`, `loadFeatures` and `read` stand for
  `os.path.exists`, `joblib.load` and `pd.read_csv`.
- The fitted scaler and the regression model are the two functions of
  `App.Predictor`.
- What the user types is a sequence of `App.Entry` values. When the sequence
  runs out, that is the KeyboardInterrupt.
- `parseFloat` is `float()` on a string.
- `argsort` is any function meeting NumPy's `argsort` contract, which
  `Ranking.IsArgsortOf` states.

The model follows the code in three places where a reader might expect
otherwise:

- In `app.py`, the lazy-loading branch of `search_similar_dishes` and
  `find_matching_dishes` calls `loader.calculate_scores()`. `DataLoader` has
  no such method, so once the file has loaded, that branch raises an
  AttributeError. `App.SearchSimilarDishes` and `App.FindMatchingDishes`
  model this as `Failure(AttributeError("calculate_scores"))`.
- `prepare_data` writes the score column into the held frame before it
  selects `X`, `y` and `dishes`. A missing feature column or name column
  therefore raises a KeyError only after the frame has been changed.
- In `api_predict`, `DF[FEATURES].values` minus the four input values
  broadcasts in two cases: `FEATURES` has one column, or it has four. Any
  other count raises outside the `try`, so Flask answers 500.
  `Server.FeatureRow` and `Server.Broadcasts` model this.

## Model

| member | source | states |
|---|---|---|
| `Frame.Get` | data_loader.py:37 | `row.get(c, 0)`: the row's cell when the row has the column, otherwise 0. |
| `Text.Lower` | server.py:138 | The result has the input's length, and each character is that input character lower-cased. |
| `Text.LowerIdempotent` | server.py:143 | Lower-casing an already lower-cased string changes nothing. |
| `Text.TrimStart` | server.py:138 | The result is a suffix of the input. Only whitespace was dropped, and the result does not start with whitespace. |
| `Text.TrimEnd` | server.py:138 | The result is a prefix of the input. Only whitespace was dropped, and the result does not end with whitespace. |
| `Text.Strip` | server.py:138 | The result is no longer than the input and starts and ends with a non-whitespace character, or is empty. |
| `Text.StripEmptyIffBlank` | server.py:138-141 | A query strips to the empty string exactly when every character is whitespace. |
| `Text.StripIdempotent` | server.py:138 | Stripping twice is stripping once. |
| `Text.ContainsAt` | app.py:94 | The substring test holds exactly when the query occurs at some position of the name. |
| `Text.EmptyQueryOccursEverywhere` | app.py:94 | The empty query is contained in every name, so an empty CLI search matches every named dish. |
| `Bands.Clamp` | app.py:67 | The result is in [0, 100]. It is the raw score when that is in range, 0 below the range and 100 above it. |
| `Bands.ClampStable` | server.py:110 | Clamping is idempotent and monotone. |
| `Bands.CountReachedThresholds` | app.py:72-83 | The reference count, written out over the thresholds 40, 50, 60, 70, 80: 5 from 80 on, 4 from 70, and so on down to 0 below 40. `App.Interpret` ties the ladder to it. |
| `Bands.CountReachedMonotone` | app.py:72-83 | A higher score reaches at least as many thresholds. |
| `Ranking.SqDist` | app.py:118 | The squared distance is non-negative, and it is zero exactly when the two vectors are equal. |
| `Ranking.Distances` | app.py:114-119 | There is one distance per row, in row order. Each is the distance from the input to that row's feature vector. |
| `Ranking.Insert` | app.py:126 | Inserting an index adds exactly that index: the multiset grows by it. |
| `Ranking.InsertMembers` | app.py:126 | After an insertion, the members are the old members plus the inserted index. |
| `Ranking.InsertRanked` | app.py:126 | Inserting a later index into a ranked list keeps it ranked: by distance, ties by position. |
| `Ranking.StableOrder` | app.py:126 | The result is a permutation of the first `n` row positions, ranked by distance and then by position. |
| `Ranking.NSmallest` | app.py:126 | `nsmallest(k)` returns min(k, n) row positions, all in range, nearest first, ties in dataset order. |
| `Ranking.NSmallestIsStableSmallest` | app.py:126 | `nsmallest(k)` returns min(k, n) distinct rows in increasing distance, ties in dataset order. No row left out is nearer than one kept, or equally near and earlier. |
| `Ranking.ExactMatchFirst` | app.py:126 | When some row is at distance 0, the first row returned is the earliest row at distance 0. |
| `Ranking.RankedIsSorted` | app.py:126 | A ranked list has distinct rows at non-decreasing distance. |
| `Ranking.StableOrderIsArgsort` | server.py:119 | The stable order meets the `argsort` contract, so the contract can be met. |
| `Ranking.ArgsortPrefixIsNearest` | server.py:119 | Any `argsort(d)[:m]` is at non-decreasing distance, and no row left out is nearer than a row kept. |
| `NameSearch.Matches` | app.py:94 | `df[mask]` keeps only rows whose mask is true. It keeps their index labels and rows, in strictly increasing order. |
| `NameSearch.MatchesComplete` | app.py:94 | Every row whose mask is true is kept. |
| `NameSearch.MatchesExactly` | app.py:94 | A row is kept exactly when its mask is true. |
| `NameSearch.Head` | app.py:99 | `.head(k)` is the prefix of length min(k, n). |
| `NameSearch.HeadOfHead` | app.py:99 | Taking the first `j` of the first `k` is taking the first `j`. |
| `NameSearch.HeadOfMatches` | app.py:94-99 | The first `k` matches are matches, in dataset order. A matching row is left out only when `k` earlier matches were kept. |
| `NameSearch.LowerNameHit` | server.py:143 | A row matches the server search exactly when it has a name and the query occurs at some position of its lower-cased name. |
| `NameSearch.NameHit` | app.py:94 | A row matches the CLI search exactly when it matches the server test on the lower-cased query. The empty query matches every named dish. |
| `NameSearch.HitsAgree` | server.py:143 | The CLI's case-insensitive test on a query selects the same rows as the server's test on the lower-cased query. |
| `DataLoading.ProteinScore` | data_loader.py:37-38 | For non-negative protein the sub-score is in [0, 100]. It is 100 from 20 g on and 0 at 0 g. |
| `DataLoading.CalorieScore` | data_loader.py:42-43 | For non-negative calories the sub-score is in [0, 100]. It is 100 at 0 kcal and 0 from 500 kcal on. |
| `DataLoading.CarbScore` | data_loader.py:47-53 | The sub-score is at most 100, non-negative for non-negative carbohydrates, and 0 from 80 g on. |
| `DataLoading.SugarScore` | data_loader.py:57-58 | For non-negative sugar the sub-score is in [0, 100]. It is 100 at 0 g and 0 from 15 g on. |
| `DataLoading.WeightedSum` | data_loader.py:34-59 | For non-negative amounts the sum is in [0, 100]. The weights sum to one: four equal sub-scores give that sub-score back. |
| `DataLoading.NutritionalScore` | data_loader.py:34-61 | The score lies in [0, 100] for any amounts. |
| `DataLoading.CalculateScore` | data_loader.py:25-61 | A row's score lies in [0, 100]. |
| `DataLoading.SubScoresBounded` | data_loader.py:36-59 | For non-negative amounts, each of the four sub-scores lies in [0, 100]. |
| `DataLoading.ClampInactive` | data_loader.py:61 | For non-negative amounts the weighted sum is already in [0, 100], so the final clamp changes nothing. |
| `DataLoading.CarbPlateau` | data_loader.py:47-54 | The carbohydrate sub-score is 100 exactly when carbohydrates are in 30–50 g. |
| `DataLoading.CarbSlopes` | data_loader.py:47-54 | The carbohydrate sub-score rises strictly up to 30 g and falls strictly from 50 g to 80 g. From 80 g on it is 0. |
| `DataLoading.CarbZero` | data_loader.py:47-54 | For non-negative carbohydrates, the sub-score is 0 exactly at 0 g and from 80 g on. |
| `DataLoading.CapsSaturate` | data_loader.py:37-57 | Protein above 20 g, calories above 500 kcal and sugar above 15 g score the same as the cap. |
| `DataLoading.MissingFieldsReadAsZero` | data_loader.py:37-58 | A row with none of the four columns reads as zeros and scores 40. |
| `DataLoading.BestScore` | data_loader.py:34-61 | For non-negative amounts, the score is 100 exactly when protein ≥ 20 g, calories = 0, carbohydrates are in 30–50 g and sugar = 0. |
| `DataLoading.WorstScore` | data_loader.py:34-61 | For non-negative amounts, the score is 0 exactly when protein = 0, calories ≥ 500, carbohydrates are 0 or ≥ 80 g, and sugar ≥ 15 g. |
| `DataLoading.ScoreMonotone` | data_loader.py:34-61 | With carbohydrates fixed, the score never drops for more protein, fewer calories or less sugar. |
| `DataLoading.WithScoreColumn` | data_loader.py:69 | Adding the score column adds it to every row. Names, row count and every other cell are unchanged. |
| `DataLoading.ScoreIgnoresTarget` | data_loader.py:36-59 | A row's score does not depend on its own score cell. |
| `DataLoading.ScoreColumnHoldsScores` | data_loader.py:69 | Each row's score cell holds that row's score, which is in [0, 100]. |
| `DataLoading.ScoreColumnIdempotent` | data_loader.py:69 | Recomputing the score column of a scored frame changes nothing. |
| `DataLoading.Extract` | data_loader.py:72-74 | Selection fails only with a KeyError. On success the frame has the name and feature columns, and X, y and dishes have one entry per row, each X row with one value per feature column. |
| `DataLoading.PreparedAligned` | data_loader.py:69-76 | Selection fails with a KeyError exactly when a feature column or the name column is missing. Otherwise X, y and dishes have one entry per row: X in `FEATURE_COLUMNS` order, y each row's score in [0, 100], and dishes the names. |
| `DataLoading.Loaded` | data_loader.py:65-66 | The frame `prepare_data` works on is the one held, and only when none is held the file's contents. There is none exactly when neither exists. |
| `DataLoading.DataLoader.constructor` | data_loader.py:14-15 | A new loader holds no frame. |
| `DataLoading.DataLoader.Load` | data_loader.py:17-23 | A missing file raises FileNotFoundError and leaves the frame alone. Otherwise the frame becomes the file's contents. |
| `DataLoading.DataLoader.PrepareData` | data_loader.py:63-76 | If no frame is held and the file is missing, it raises FileNotFoundError. Otherwise the held frame, or the one just loaded, gets the score column in place, and the result is the selection from it. |
| `DataLoading.PrepareTwice` | data_loader.py:63-69 | Preparing a second time leaves the frame exactly as the first time did. |
| `App.PredictScore` | app.py:63-67 | The prediction is in [0, 100], and it is the model's output whenever that is in range. |
| `App.Interpret` | app.py:70-83 | The category's rank is the number of thresholds the score reaches. |
| `App.LabelsNameTheCategory` | app.py:70-83 | Each label begins with the category's plain name. Different categories get different labels and messages. |
| `App.InterpretScore` | app.py:70-83 | The label and the message are those of the category whose rank is the number of thresholds reached. The label begins with that category's plain name. |
| `App.InterpretMonotone` | app.py:70-83 | A higher score never gets a lower category. |
| `App.InclusiveThresholds` | app.py:72-83 | A score equal to a threshold falls in the band above it. Anything below the threshold does not. |
| `App.PromptValue` | app.py:46-55 | One prompt reads on until a non-negative number is typed and takes it, adding exactly that value to the accepted ones. Running out of input yields None with nothing accepted. |
| `App.Accepted` | app.py:46-53 | Of the entries the model can express (numbers and non-numbers, no NaN), the prompt accepts only non-negative numbers, and never more values than were typed. |
| `App.AcceptedPrefix` | app.py:45-53 | What a prefix of the typing yields is a prefix of what the whole typing yields. |
| `App.Put` | app.py:52 | When the key is present, its first item takes the new value in its old position and nothing else changes. When it is absent, the pair is appended. |
| `App.PutKeys` | app.py:52 | After a store, every position holds the key it held before, or the stored key. Unique keys stay unique. |
| `App.Fill` | app.py:44-53 | The dict filled from the features has at most one item per feature, its keys are unique, and each key is one of the features. |
| `App.PutNew` | app.py:52 | A key the dict does not hold is appended at the end. |
| `App.FillDistinct` | app.py:44-57 | With distinct feature names, the dict holds every (feature, value) pair in feature order. |
| `App.PutNonNegative` | app.py:49-52 | Storing a non-negative value keeps all values non-negative. |
| `App.FillNonNegative` | app.py:44-57 | A dict filled with non-negative values holds only non-negative values. |
| `App.DictValues` | app.py:57 | `values()` has one entry per item. |
| `App.StoreNext` | app.py:45-53 | Storing the next feature's value extends the dict of the earlier features by one store. |
| `App.AllStored` | app.py:44-57 | Once every feature has a value, enough values were accepted, and the dict is the one filled from the first accepted values. |
| `App.GetUserInput` | app.py:39-60 | The result is None (the interrupt) exactly when fewer values were accepted than there are features. Otherwise it is the dict's values filled from the first accepted values. |
| `App.UserInputValues` | app.py:44-57 | The returned values are non-negative. With distinct features they are exactly the first accepted values, one per feature, in order. |
| `App.SearchTable` | app.py:94-99 | The search raises a KeyError exactly when the frame has no name column. |
| `App.SearchNoneIffNoMatch` | app.py:94-97 | The search returns None exactly when no dish name contains the query, ignoring case. |
| `App.SearchReturnsFirstMatches` | app.py:94-99 | Otherwise it returns 1 to 5 matching rows in dataset order. A match is left out only when five earlier ones were returned. |
| `App.NearestRows` | app.py:110-128 | It raises a KeyError exactly when the frame has rows but lacks a feature column. Otherwise the candidates are the `nsmallest` rows by distance, each with its row and distance. |
| `App.IdenticalDishFirst` | app.py:113-126 | A dish whose values equal the input comes first: the earliest such dish. |
| `App.SearchSimilarDishes` | app.py:86-99 | With a frame held, this is the name search on it, and the loader is unchanged. Otherwise it raises FileNotFoundError, or AttributeError after loading. |
| `App.FindMatchingDishes` | app.py:102-128 | With a frame held, the loader is unchanged. The result is a KeyError exactly when the frame has rows but lacks a feature column; otherwise it is the nearest rows with their distances. Without a frame it raises FileNotFoundError, or AttributeError after loading. |
| `Server.FirstExisting` | server.py:46-50 | The result is None exactly when no path exists. Otherwise it is an existing path with no existing path before it. |
| `Server.Locate` | server.py:46-50 | The loop returns the earliest existing path. |
| `Server.StartupAt` | server.py:52-70 | Over any candidate lists: the artifacts load exactly when all three files are found, each from its first existing path. The dataset loads exactly when one of its paths exists. |
| `Server.Startup` | server.py:52-70 | The same over the server's own candidate lists. |
| `Server.InterpretScore` | server.py:78-90 | The category is the plain name of the band given by the number of thresholds reached. |
| `Server.InterpretMatchesCli` | server.py:78-90 | The server and the CLI put every score in the same band. |
| `Server.ToFloat` | server.py:97-100 | `float(v)` fails exactly on null, arrays, objects and strings `float()` rejects. A number is kept, and a boolean is 1 or 0. |
| `Server.ReadField` | server.py:97-100 | `data.get(key, 0)`: the field's value when present, otherwise the number 0. |
| `Server.ParseInput` | server.py:95-102 | Parsing succeeds exactly when the body is a JSON object whose four fields all convert with `float()`. The values are then those conversions, in field order. |
| `Server.MissingFieldsDefaultToZero` | server.py:97-100 | A field the request leaves out is read as 0. |
| `Server.FeatureRow` | server.py:116-118 | A row's feature vector, broadcast against the four inputs, always has four entries. |
| `Server.RowDistances` | server.py:116-118 | There is one non-negative distance per row, from the input to that row's broadcast feature vector. |
| `Server.MatchOf` | server.py:121-130 | The entry's four nutrients are the row's feature cells in `FEATURE_COLUMNS` order, and its score and distance are the row's. Its name is the row's, or `''` without a name column. |
| `Server.TopTwo` | server.py:119 | `[:2]` keeps the first min(2, n) entries of the order. |
| `Server.CollectMatches` | server.py:120-131 | The loop appends one entry per chosen row, in the order chosen: the match list. |
| `Server.MatchList` | server.py:120-131 | There is one entry per chosen row, carrying that row's distance. |
| `Server.NearestMatches` | server.py:113-131 | `matches` holds min(2, n) rows at non-decreasing distance. No row left out is nearer. |
| `Server.ApiPredict` | server.py:93-133 | Status and body for each case: a non-JSON body, a bad field, missing artifacts, no dataset, and bad feature columns. Otherwise 200 with the clamped score, its category and the two nearest rows. |
| `Server.SearchHits` | server.py:143 | The search returns at most ten results. |
| `Server.SearchQuery` | server.py:138 | A missing `q` is the empty query. |
| `Server.ApiSearch` | server.py:136-144 | No dataset gives 500 `dataset not loaded`, whatever the query. No query gives 200 with no results. Any 200 holds at most ten results. |
| `Server.BlankQueryFindsNothing` | server.py:138-142 | A whitespace-only query returns 200 with no results. |
| `Server.SearchReturnsFirstTen` | server.py:143-144 | A non-blank query returns the name and score of the first ten matching rows, in dataset order. A match is left out only when ten were returned. |
| `Server.SearchMatchesCli` | server.py:143 | On the stripped query, the CLI finds nothing exactly when the server returns nothing. Otherwise the CLI's dishes are the server's first five. |

## Left out

- Training (`model_trainer.py`, `main.py`): the scaler and the regression model are opaque functions in `App.Predictor`. The model proves nothing about what they compute.
- File I/O (`joblib.load`, `pd.read_csv`, `Path.exists`, `os.path.exists`): these are parameters. CSV parsing, column types and dtype inference are not modelled. A frame is a set of numeric columns, plus an optional name column that may hold missing names.
- Flask: routing, CORS, static file serving and JSON encoding of responses are not modelled. An uncaught exception and a body that is not JSON both become `Body.Aborted`. The `detail: str(e)` of the 400 answer is not modelled.
- Floating point: numbers are reals. Rounding, overflow, infinities and NaN are not modelled; the NaN cases are listed below.
- NaN cells: pandas reads an empty CSV cell as NaN, and `row.get(c, 0)` returns that NaN. `calculate_score` then gives a whole score of 0 for a NaN protein, calorie or sugar cell (`max(0, nan)` is 0), and a carbohydrate sub-score of 0 for a NaN carbohydrate cell. `find_matching_dishes` gets a NaN distance. The model has no NaN. A cell absent from a row's map reads as 0, which matches pandas only for a column the frame does not have. A row missing one of its own frame's columns stands for no pandas frame.
- Ranking.NSmallest: ties come out in dataset order for every `top_n`. pandas keeps that order (`keep='first'`) when `top_n` is below the number of rows. For `top_n` at or above it, pandas falls back to an unstable sort, so the order among equal distances is not promised there; the model's order is one pandas may produce.
- Ranking.SqDist: the distance is the squared Euclidean distance. `np.sqrt` is monotone, so the order and the nearest rows are the same. `App.Candidate.distance` and `Server.Match.distance` hold the square, not the root.
- Server.ApiPredict: the score is not rounded to four decimals (`round(score, 4)`), and `distance` is the squared distance.
- App.SearchTable: the query is matched as a plain substring. pandas' `str.contains` treats it as a regular expression, so a query such as `.` or `(` behaves differently there.
- Server.ApiSearch: the same plain-substring reading of `str.contains`.
- App.SearchTable: a frame with rows whose every dish name is missing is not told apart from one with some names. `read_csv` gives such a name column a float dtype, so `.str` raises AttributeError at app.py:94; the model instead finds no match and returns None.
- Server.ApiSearch: the same all-names-missing frame makes `.str` raise at server.py:143, so Flask answers 500. The model answers 200 with no results.
- App.Accepted: a typed `nan` is a number to `float()`, and `nan < 0` is false, so app.py:48-52 stores it. `Entry` has no NaN, so the model cannot express that input, and its claim that every stored value is non-negative holds only for the inputs it can express.
- Server.ParseInput: `float()` also accepts the string `"nan"` and a JSON `NaN` at server.py:97-100, and the predictor then receives NaN. `parseFloat` returns reals only, so this case is not modelled.
- Text.Lower: only ASCII letters are lower-cased. Python's Unicode case mapping and the `case=False` regular-expression flag are not modelled.
- App.NearestRows: requires one input value per feature, as `get_user_input` produces when the feature names are distinct. NumPy's broadcast error for other lengths is not modelled.
- App.FindMatchingDishes: the same one-value-per-feature requirement. `top_n` is a natural number, so a negative `top_n` is not modelled.
- App.GetUserInput: the end of input is the KeyboardInterrupt. An EOFError from `input()` is not distinguished from it. The prompts and messages printed are not modelled.
- pandas index labels are row positions, which is what `read_csv` produces.
- The score column of a frame with no rows is an empty column. pandas' own handling of `apply` on an empty frame is not modelled.
- `DataLoader.get_summary`, `calculate_nutritional_score_row` in `server.py` (never called), the CLI main loop, the printing helpers, `load_model`, `config.py`'s directory creation and the frontend are not part of this model.
