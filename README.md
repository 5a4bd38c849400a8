# Recipe sharing and meal planning client — a Dafny model of its logic

The application is a React client over a hosted table-and-auth backend. This project
models the few pieces of it that compute or change state step by step, and proves what
they promise:

- **Weekly planner** (`MealPlanner`): the Monday-start week around an anchor day, the
  seven-days-by-three-meal-types grid built from the fetched `meal_plans` rows, the add,
  delete and refetch handlers, and Previous/Next Week navigation. Days are whole day
  numbers counted from 1970-01-01. `Weekday` is JavaScript's `getDay`. `StartOfWeek` is
  the date-fns computation with `weekStartsOn: 1`.
- **Recipe discovery filter** (`RecipeSearch`): case-insensitive search over title or
  description, combined with an optional exact category.
- **Create-recipe form** (`CreateRecipe`): the ingredient list editor (append, replace,
  remove), the blank-entry filter, the empty-URL-to-null rule, and the submit handler.
- **Favourite button** (`Favorites`): the status check, and the toggle that deletes or
  inserts the (user, recipe) row. The flag follows the table only on success.
- **Route guard and routes** (`Routing`): the loading / signed-out / signed-in decision,
  the route table, and the login page's return to the requested path.
- **Recipe detail** (`RecipeDetail`): fetch outcome handling, owner-only controls, and
  the confirmed delete.

Shared modules: `Wrappers` (`Option`, for nullable values), `Seqs` (`Filter`, which is
`Array.prototype.filter`, plus subsequence and multiplicity lemmas), `Text` (ASCII
lower-casing, `includes`, `trim`) and `Rows` (the row shapes of `src/types/supabase.ts`).

Every call to the backend is replaced by its outcome, passed in as a parameter: success
or failure, and the rows returned. The request the client would send is returned as an
out-parameter (the inserted row, the delete key, the range query). Navigation is returned
as the target path. The browser's `confirm` answer is a boolean parameter.

In these places the model follows the code as written:
- The planner shows a fetched row only if the render-time filter places it in a slot:
  exact day and exact meal type. The range query is not the only filter.
- A successful favourite toggle sets the flag according to the request it issued: `false`
  after a delete, `true` after an insert. It does not negate whatever the flag holds.
- JavaScript truthiness is kept. An empty-string category filter filters nothing. An
  empty-string category is shown as "Uncategorized". An empty carried path name makes
  login return to "/".

## Model

| member | source | states |
|---|---|---|
| MealPlanner.Weekday | src/pages/MealPlanner.tsx:22 | the day of the week is one of seven values, numbered as `getDay` numbers them |
| MealPlanner.WeekdayIsGetDay | src/pages/MealPlanner.tsx:22 | day 0 (1970-01-01) is a Thursday (4), each next day is the next weekday with Saturday (6) wrapping to Sunday (0), and the numbering repeats every 7 days |
| MealPlanner.StartOfWeek | src/pages/MealPlanner.tsx:22 | the start of the week is a Monday on or before the anchor, fewer than seven days before it |
| MealPlanner.MondayOnOrBeforeIsUnique | src/pages/MealPlanner.tsx:22 | any Monday whose seven days include the anchor is the start of the anchor's week |
| MealPlanner.StartOfWeekShift | src/pages/MealPlanner.tsx:22 | moving the anchor by k weeks moves the start of its week by exactly 7k days |
| MealPlanner.WeekDays | src/pages/MealPlanner.tsx:22-23 | the window has exactly 7 days, day i is day 0 plus i, day 0 is a Monday, and the anchor lies in the window |
| MealPlanner.WeekDaysStartOnTheMondayOnOrBefore | src/pages/MealPlanner.tsx:22-23 | the first day of the window is the Monday on or before the anchor and no other day |
| MealPlanner.WeekNavigationShiftsWindow | src/pages/MealPlanner.tsx:79-80 | after Next Week every day of the window is 7 days later; after Previous Week, 7 days earlier |
| MealPlanner.MealsForSlot | src/pages/MealPlanner.tsx:100-102 | a slot holds only fetched rows of its day and type, and holds every fetched row of that day and type |
| MealPlanner.SlotKeepsFetchOrder | src/pages/MealPlanner.tsx:100-102 | a slot lists its rows as a subsequence of the fetched rows, each matching row as often as it was fetched, and no other row |
| MealPlanner.SlotsAreDisjoint | src/pages/MealPlanner.tsx:100-102 | two different (day, type) slots share no row |
| MealPlanner.Grid | src/pages/MealPlanner.tsx:69-102 | the grid has seven days of three slots each |
| MealPlanner.RenderedIffInWindow | src/pages/MealPlanner.tsx:69-102 | a fetched row is rendered iff its type is Breakfast, Lunch or Dinner and its day is in the window, and then only in the slot of its own day and type |
| MealPlanner.StaleRowsHiddenAfterNavigation | src/pages/MealPlanner.tsx:79-102 | rows of the previous window are rendered in no slot once the anchor moves by a week, before the refetch arrives |
| MealPlanner.Planner.constructor | src/pages/MealPlanner.tsx:15-20 | the page starts at today with no rows, loading, no open slot and an empty title |
| MealPlanner.Planner.Shown | src/pages/MealPlanner.tsx:84-89 | nothing is shown while loading; otherwise exactly the week's grid of the current rows and anchor |
| MealPlanner.Planner.FetchWeekMeals | src/pages/MealPlanner.tsx:29-43 | queries the user's rows from the window's first day to its last day; any returned list, the empty one included, replaces the rows, and a failed query keeps them; loading ends |
| MealPlanner.Planner.OpenAddForm | src/pages/MealPlanner.tsx:136 | the Add button opens its own slot |
| MealPlanner.Planner.TypeMealTitle | src/pages/MealPlanner.tsx:127 | the title field holds the typed text |
| MealPlanner.Planner.BlurMealTitle | src/pages/MealPlanner.tsx:128 | leaving the title field closes the slot only when the title is empty |
| MealPlanner.Planner.HandleAddMeal | src/pages/MealPlanner.tsx:45-61 | no-op without an open slot or a user; otherwise inserts (user, slot day, slot type, title); on success clears the slot and title and refetches, on failure changes nothing |
| MealPlanner.Planner.HandleDeleteMeal | src/pages/MealPlanner.tsx:63-67 | declining changes nothing and deletes nothing; confirming deletes the given id and refetches whatever the delete's outcome |
| MealPlanner.Planner.PreviousWeek | src/pages/MealPlanner.tsx:79 | the anchor moves back exactly 7 days and so does the start of the week |
| MealPlanner.Planner.NextWeek | src/pages/MealPlanner.tsx:80 | the anchor moves on exactly 7 days and so does the start of the week |
| MealPlanner.PreviousThenNextRestoresWindow | src/pages/MealPlanner.tsx:79-80 | Previous Week then Next Week shows the same seven days again |
| Seqs.Filter | src/pages/Recipes.tsx:32-37 | `filter` keeps every entry that passes, and only entries of the input that pass, and never lengthens the list |
| Seqs.FilterIsSubsequence | src/pages/Recipes.tsx:32-37 | `filter` keeps the input's order: its result is a subsequence of the input |
| Seqs.FilterMultiplicity | src/pages/CreateRecipe.tsx:45 | `filter` keeps a passing value as often as it occurs and drops a failing one entirely |
| Seqs.FilterAllPass | src/pages/Recipes.tsx:32-37 | filtering a list whose entries all pass returns it unchanged |
| Seqs.FilterIdempotent | src/pages/Recipes.tsx:32-37 | filtering twice with the same predicate equals filtering once |
| Seqs.FilterCongruent | src/pages/Recipes.tsx:32-37 | predicates that agree on every entry give the same result |
| Seqs.FilterMonotone | src/pages/Recipes.tsx:35-36 | a stronger predicate keeps a subsequence of what a weaker one keeps |
| Text.LowerChar | src/pages/Recipes.tsx:33 | `toLowerCase` maps an upper-case ASCII letter to its lower-case letter and leaves every other character unchanged |
| Text.Lower | src/pages/Recipes.tsx:33-34 | `toLowerCase` keeps the length and lower-cases each character in place |
| Text.LowerEqualIffSameUpToCase | src/pages/Recipes.tsx:33-34 | two strings have the same lower-case form iff they are equal up to letter case |
| Text.Includes | src/pages/Recipes.tsx:33-34 | a string includes only terms no longer than itself, and always includes the empty term |
| Text.IncludesIffOccurs | src/pages/Recipes.tsx:33-34 | `includes` holds iff the term occurs at some position |
| Text.OccursInTail | src/pages/Recipes.tsx:33-34 | an occurrence in the tail of a string is an occurrence one position later in the whole string |
| Text.TrimStart | src/pages/CreateRecipe.tsx:45 | the result is a suffix of the input that does not start with whitespace, and everything it drops is whitespace |
| Text.TrimEnd | src/pages/CreateRecipe.tsx:45 | the result is a prefix of the input that does not end with whitespace, and everything it drops is whitespace |
| Text.Trim | src/pages/CreateRecipe.tsx:45 | `trim()` never lengthens a string and leaves one that neither starts nor ends with whitespace |
| Text.TrimEmptyIffBlank | src/pages/CreateRecipe.tsx:45 | `trim()` returns "" iff every character is whitespace |
| Text.TrimStartEmptyIffBlank | src/pages/CreateRecipe.tsx:45 | dropping the leading whitespace leaves nothing iff every character is whitespace |
| RecipeSearch.MatchesSearch | src/pages/Recipes.tsx:33-34 | the empty term matches every recipe; a recipe with a null description matches only through its title |
| RecipeSearch.MatchesCategory | src/pages/Recipes.tsx:35 | no filter, or the empty string, lets every recipe pass; a non-empty filter passes exactly the recipes of that category |
| RecipeSearch.Matches | src/pages/Recipes.tsx:33-36 | with no term and "All" every recipe passes; with a category chosen a passing recipe has that category |
| RecipeSearch.FilteredRecipes | src/pages/Recipes.tsx:32-37 | a recipe is shown iff it was fetched and matches the search (title, or a non-null description) and the category |
| RecipeSearch.FilteredIsSubsequence | src/pages/Recipes.tsx:32-37 | the shown list is a subsequence of the fetched list, in fetch order |
| RecipeSearch.EmptySearchShowsAll | src/pages/Recipes.tsx:33-35 | an empty search with no category shows the whole fetched list |
| RecipeSearch.SearchIgnoresCase | src/pages/Recipes.tsx:33-34 | search terms that differ only in letter case show the same list |
| RecipeSearch.CategoryFilterIsExact | src/pages/Recipes.tsx:35 | with a category chosen, every shown recipe has exactly that category, so recipes with a null category are excluded |
| RecipeSearch.CategoryFilterNarrows | src/pages/Recipes.tsx:35-36 | choosing a category shows a subsequence of what "All" shows |
| RecipeSearch.FilterIsIdempotent | src/pages/Recipes.tsx:32-37 | applying the same search and category to the shown list returns it unchanged |
| RecipeSearch.TitleOccurrenceMatches | src/pages/Recipes.tsx:33 | a term found in the title, in any letter case, always matches |
| CreateRecipe.AppendBlank | src/pages/CreateRecipe.tsx:22-24 | adding appends exactly one "" and leaves every existing entry unchanged |
| CreateRecipe.ReplaceAt | src/pages/CreateRecipe.tsx:26-30 | a change replaces only the entry at the index; the length and all other entries stay |
| CreateRecipe.RemoveAt | src/pages/CreateRecipe.tsx:32-35 | removal is the list without the entry at the index; an index past the end removes nothing |
| CreateRecipe.RemoveUndoesAppend | src/pages/CreateRecipe.tsx:22-35 | removing the entry just added restores the list |
| CreateRecipe.RemoveAtDropsOneEntry | src/pages/CreateRecipe.tsx:32-35 | removal shortens the list by one, removes exactly one occurrence of the entry at the index, and keeps the others in order |
| CreateRecipe.ValidIngredientsAreTheNonBlankEntries | src/pages/CreateRecipe.tsx:45 | the submitted ingredients are the non-blank entries, each as often as typed, in typed order; no blank survives and re-filtering changes nothing |
| CreateRecipe.ImageUrlToSubmit | src/pages/CreateRecipe.tsx:54 | an empty image URL is sent as null, a non-empty one unchanged |
| CreateRecipe.TeaSubmission | src/pages/CreateRecipe.tsx:15-16 | a "Tea" recipe with an untouched category and a blank line among its ingredients is sent with two ingredients, category "Breakfast" and a null image |
| CreateRecipe.StartsWithTextHasText | src/pages/CreateRecipe.tsx:45 | an entry that starts with a non-whitespace character is kept |
| CreateRecipe.ValidIngredients | src/pages/CreateRecipe.tsx:45 | the valid ingredients are entries of the form that have text, and every entry with text is among them |
| CreateRecipe.Submission | src/pages/CreateRecipe.tsx:47-55 | the inserted row carries the user, title, description, category and instructions as typed, only ingredients with text (every one of them), and never an empty image URL |
| CreateRecipe.CreateRecipeForm.constructor | src/pages/CreateRecipe.tsx:13-20 | the form starts empty with category "Breakfast" and one empty ingredient |
| CreateRecipe.CreateRecipeForm.AddIngredient | src/pages/CreateRecipe.tsx:22-24 | the list gets a new empty entry and stays non-empty |
| CreateRecipe.CreateRecipeForm.ChangeIngredient | src/pages/CreateRecipe.tsx:26-30 | the list becomes the replacement at the index and stays non-empty |
| CreateRecipe.CreateRecipeForm.ClickRemoveIngredient | src/pages/CreateRecipe.tsx:148 | with one entry left the disabled button does nothing; otherwise the entry is removed; the list is never empty |
| CreateRecipe.CreateRecipeForm.HandleSubmit | src/pages/CreateRecipe.tsx:37-64 | no-op without a user; otherwise inserts the normalised row; success navigates to /recipes with no error, failure sets the message and stays; loading is false after both |
| Favorites.RequestFor | src/components/FavoriteButton.tsx:41-55 | a saved recipe is un-saved by a delete of (user, recipe), an unsaved one saved by an insert of it |
| Favorites.TableAfter | src/components/FavoriteButton.tsx:41-52 | a successful delete removes the pair, a successful insert adds it, a failed call changes nothing, and other pairs never change |
| Favorites.FavoriteAfter | src/components/FavoriteButton.tsx:47-55 | a successful delete sets the flag false, a successful insert sets it true, a failure keeps it |
| Favorites.Toggle | src/components/FavoriteButton.tsx:41-55 | a toggle keeps the flag equal to the row's presence; success flips the flag; failure leaves flag and table alone; other pairs never change |
| Favorites.TwoSuccessfulTogglesRestore | src/components/FavoriteButton.tsx:41-55 | two successful toggles restore the original flag and the original table |
| Favorites.FavoriteButton.constructor | src/components/FavoriteButton.tsx:14-17 | the button starts unsaved and not loading |
| Favorites.FavoriteButton.View | src/components/FavoriteButton.tsx:59-85 | nothing is rendered without a user; otherwise the heart is filled iff saved and the button is disabled iff loading |
| Favorites.FavoriteButton.CheckFavoriteStatus | src/components/FavoriteButton.tsx:19-34 | with a user, the flag becomes true iff the query succeeded and a (user, recipe) row exists |
| Favorites.FavoriteButton.BeginToggle | src/components/FavoriteButton.tsx:36-46 | no request without a user or while loading; otherwise loading starts and the delete or insert for (user, recipe) is issued |
| Favorites.FavoriteButton.FinishToggle | src/components/FavoriteButton.tsx:47-56 | the flag follows a successful call and stays on failure; the table changes as the request says; loading ends |
| Favorites.ClickAndRespond | src/components/FavoriteButton.tsx:36-57 | a click and its response change the button and the table exactly as one toggle does |
| Routing.Guard | src/components/ProtectedRoute.tsx:5-21 | spinner iff loading; redirect to /login iff not loading and signed out, carrying the location and replacing history; otherwise the child route |
| Routing.LoginReturnPath | src/pages/Login.tsx:11 | login returns to the carried path name when it is non-empty; without one, or with an empty one, to "/" |
| Routing.Resolve | src/App.tsx:21-33 | each fixed page (home, login, register, recipes, create-recipe, planner, profile) is reached by its own path and no other; a detail page is reached only by "/recipes/" followed by one segment, its id |
| Routing.DetailPathRoundTrip | src/App.tsx:25 | "/recipes/" followed by any one-segment id opens the detail page of that id |
| Routing.Dispatch | src/App.tsx:21-33 | public pages render whatever the session; a guarded page waits while loading, redirects iff not loading and signed out, and renders only when not loading and signed in |
| Routing.GuardedPaths | src/App.tsx:22-33 | exactly /create-recipe, /planner and /profile are behind the guard |
| Routing.LoginReturnsToGuardedPage | src/pages/Login.tsx:11-30 | a signed-out visitor to a guarded page is sent to the unguarded login page and returned to that page after signing in |
| RecipeDetail.CategoryLabel | src/pages/RecipeDetail.tsx:82 | a null or empty category is shown as "Uncategorized"; any other category as itself |
| RecipeDetail.IsOwner | src/pages/RecipeDetail.tsx:62 | the viewer owns the recipe iff signed in with the recipe's user id; a signed-out viewer never does |
| RecipeDetail.ViewOf | src/pages/RecipeDetail.tsx:52-97 | spinner while loading, nothing without a recipe; the Edit and Delete controls appear iff the viewer owns the recipe, and Edit is always disabled |
| RecipeDetail.DeleteOfferedOnlyToOwner | src/pages/RecipeDetail.tsx:62 | a signed-out viewer, or one with a different id, is never offered Delete |
| RecipeDetail.HandleDelete | src/pages/RecipeDetail.tsx:45-50 | a delete is issued iff confirmed, for the page's id; the page navigates to /recipes iff the confirmed delete succeeded |
| RecipeDetail.RecipeDetailPage.constructor | src/pages/RecipeDetail.tsx:17-18 | the page starts with no recipe, loading |
| RecipeDetail.RecipeDetailPage.FetchRecipe | src/pages/RecipeDetail.tsx:24-43 | a fetch error navigates to /recipes and stores nothing; a found row is stored; loading is false after either |

## Left out

- Remote calls: every table and auth call is reduced to its outcome, passed in as a parameter. Row-level security, the server-side ordering of the recipe list and the contents of the week's range query belong to the backend. The model holds the rows the backend returns, not how it chose them.
- Dates: calendar days are day numbers. The `yyyy-MM-dd` text, `toISOString` bounds, time zones and time of day are not modelled. A row's `date` column is held as the day its text denotes, so comparing the formatted text becomes comparing days. The week query's bounds are the window's first and last days.
- Text.LowerChar: lower-cases ASCII letters only; JavaScript's full Unicode `toLowerCase` is not modelled.
- Favorites.FavoriteButton.CheckFavoriteStatus: the `favorites` table is a set of (user, recipe) pairs, so the case where `.single()` fails on duplicate rows cannot arise.
- Concurrency: overlapping fetches, stale responses overwriting newer state, and a status check landing while a toggle is in flight are not modelled. Each handler runs to completion, and the refetch after an add or delete happens inside that handler.
- The planner's inline add form is shown only when `addingMeal?.day === day` (src/pages/MealPlanner.tsx:120), which compares `Date` objects by reference. `weekDays` is rebuilt with new `Date` objects on every render (src/pages/MealPlanner.tsx:22-23), so after the render that opening a slot causes, that test is false and the form never appears. In the page as written, typing the title, leaving the field and submitting (`TypeMealTitle`, `BlurMealTitle`, `HandleAddMeal`) therefore cannot happen, and opening a slot has no visible effect. The model compares days by value and treats the add path as reachable.
- The planner's entry label (`meal.recipes?.title || meal.title`), the joined `recipes(title, id)` columns and the today highlight, which reads the clock, are not modelled.
- MealPlanner.Planner.PreviousWeek: moving the anchor does not refetch. In the page, the effect on `[user, currentDate]` refetches; here that refetch is a separate `FetchWeekMeals` call.
- CreateRecipe.CreateRecipeForm.HandleSubmit: the browser's `required` check on title and instructions, which blocks a submit while either is empty, is not modelled; the model lets an empty title or empty instructions through to the insert.
- The session is fixed for each page object (`user` is a constant). Effects re-running when the user signs in or out are not modelled.
- Text inputs (title, description, category, instructions, image URL) are assigned directly to the form's fields. Their `onChange` setters are not separate operations.
- Routing: only the path name of a location is modelled. Route matching is exact, so react-router's case-insensitive and trailing-slash matching are not modelled.
- RecipeDetail.RecipeDetailPage.FetchRecipe: the effect's `if (id)` guard is not modelled, because the `/recipes/:id` route always supplies a non-empty id.
- Error messages: a thrown value without a `message` is not modelled; the failed insert carries its message.
- Layout, Home, RecipeCard, Register and Profile (presentational pages and pass-through fetches) are not part of this model. Login's sign-in call is outside it too; only where Login returns to is modelled. The backend client setup and the `profiles` row are also left out.
