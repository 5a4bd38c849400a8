/**
 * The rows the client reads from and writes to the hosted tables (`recipes`,
 * `favorites`, `meal_plans`), with the columns the core uses. Nullable columns are
 * `Option`s; the `ingredients` JSON column is the list of strings the client stores.
 */
module Rows {
  import opened Wrappers

  type UserId = string
  type RecipeId = string
  type MealPlanId = string

  /** A calendar day, counted in days from 1970-01-01 (negative before it). */
  type Day = int

  datatype Recipe = Recipe(
    id: RecipeId,
    userId: UserId,
    title: string,
    description: Option<string>,
    ingredients: seq<string>,
    instructions: string,
    imageUrl: Option<string>,
    category: Option<string>,
    createdAt: string,
    updatedAt: string)

  /** The columns the create-recipe form sends; the table fills in the rest. */
  datatype RecipeInsert = RecipeInsert(
    userId: UserId,
    title: string,
    description: Option<string>,
    category: Option<string>,
    ingredients: seq<string>,
    instructions: string,
    imageUrl: Option<string>)

  /** A `favorites` row, reduced to the pair the client filters on. */
  datatype FavoriteKey = FavoriteKey(userId: UserId, recipeId: RecipeId)

  /** A `meal_plans` row; `date` is the calendar day its `yyyy-MM-dd` text denotes. */
  datatype MealPlan = MealPlan(
    id: MealPlanId,
    userId: UserId,
    date: Day,
    recipeId: Option<RecipeId>,
    title: Option<string>,
    mealType: string,
    createdAt: string)

  datatype MealPlanInsert = MealPlanInsert(
    userId: UserId,
    date: Day,
    mealType: string,
    title: Option<string>)
}
