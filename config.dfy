/** Column names shared by the loader, the CLI and the server (config.py). */
module Config {

  const CALORIES: string := "Calories (kcal)"
  const PROTEIN: string := "Protein (g)"
  const CARBOHYDRATES: string := "Carbohydrates (g)"
  const FREE_SUGAR: string := "Free Sugar (g)"

  /** The feature order used for training and for every nutrient vector. */
  const FEATURE_COLUMNS: seq<string> := [CALORIES, PROTEIN, CARBOHYDRATES, FREE_SUGAR]

  /** The derived score column. */
  const TARGET_COLUMN: string := "Nutritional_Score"

  /**
   * The dish name column. A frame's name column is `Table.hasNames` and
   * each row's `name`; this constant only records the name `config.py` gives it.
   */
  const DISH_NAME_COLUMN: string := "Dish Name"
}
