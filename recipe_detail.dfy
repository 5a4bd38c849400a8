/**
 * The recipe detail page: loading one recipe by id, the owner-only edit and delete
 * controls, and the confirmed delete.
 */
module RecipeDetail {
  import opened Wrappers
  import opened Rows
  import Routing

  const Uncategorized: string := "Uncategorized"

  /** `user?.id === recipe.user_id`. */
  predicate IsOwner(user: Option<UserId>, recipe: Recipe)
    ensures user.None? ==> !IsOwner(user, recipe)
    ensures IsOwner(user, recipe) <==> user == Some(recipe.userId)
  {
    user.Some? && user.value == recipe.userId
  }

  /** `recipe.category || "Uncategorized"`: a null or empty category shows as "Uncategorized". */
  function CategoryLabel(category: Option<string>): (text: string)
    ensures text != ""
    ensures category.Some? && category.value != "" ==> text == category.value
    ensures category.None? || category.value == "" ==> text == Uncategorized
  {
    if category.Some? && category.value != "" then category.value else Uncategorized
  }

  /** The owner's buttons: Edit is rendered disabled, Delete is live. */
  datatype OwnerControls = OwnerControls(editEnabled: bool, deleteEnabled: bool)

  datatype DetailView =
    | Spinning
    | Blank
    | Shown(recipe: Recipe, categoryLabel: string, controls: Option<OwnerControls>)

  /**
   * What the page renders: a spinner while loading, nothing when no recipe was stored,
   * otherwise the recipe, with the Edit and Delete controls exactly when the viewer
   * owns it.
   */
  function ViewOf(loading: bool, recipe: Option<Recipe>, user: Option<UserId>): (v: DetailView)
    ensures v.Spinning? <==> loading
    ensures v.Blank? <==> !loading && recipe.None?
    ensures v.Shown? ==> v.recipe == recipe.value && v.categoryLabel == CategoryLabel(recipe.value.category)
    ensures v.Shown? ==> (v.controls.Some? <==> user.Some? && user.value == recipe.value.userId)
    ensures v.Shown? && v.controls.Some? ==> !v.controls.value.editEnabled && v.controls.value.deleteEnabled
  {
    if loading then Spinning
    else if recipe.None? then Blank
    else
      var r := recipe.value;
      Shown(r, CategoryLabel(r.category), if IsOwner(user, r) then Some(OwnerControls(false, true)) else None)
  }

  /** A viewer who is signed out, or signed in as someone else, is never offered the delete control. */
  lemma DeleteOfferedOnlyToOwner(loading: bool, recipe: Recipe, user: Option<UserId>)
    requires user.None? || user.value != recipe.userId
    ensures !ViewOf(loading, Some(recipe), user).Shown? || ViewOf(loading, Some(recipe), user).controls.None?
  {
  }

  /** The response to the single-row fetch by id. */
  datatype FetchResult = Found(recipe: Recipe) | FetchFailed

  /**
   * `handleDelete`: a declined confirmation does nothing; a confirmed one deletes the
   * recipe with the page's id, and only a successful delete leaves for the recipe list.
   */
  method HandleDelete(id: RecipeId, confirmed: bool, deleteOk: bool) returns (deleteRequest: Option<RecipeId>, navigateTo: Option<string>)
    ensures deleteRequest.Some? <==> confirmed
    ensures deleteRequest.Some? ==> deleteRequest.value == id
    ensures navigateTo.Some? <==> confirmed && deleteOk
    ensures navigateTo.Some? ==> navigateTo.value == Routing.RecipesPath
  {
    if !confirmed {
      return None, None;
    }
    deleteRequest := Some(id);
    navigateTo := if deleteOk then Some(Routing.RecipesPath) else None;
  }

  /** The detail page's component state. */
  class RecipeDetailPage {
    const id: RecipeId
    const user: Option<UserId>
    var recipe: Option<Recipe>
    var loading: bool

    constructor (id: RecipeId, user: Option<UserId>)
      ensures this.id == id && this.user == user && recipe.None? && loading
    {
      this.id, this.user := id, user;
      recipe, loading := None, true;
    }

    /**
     * `fetchRecipe`: an error (a missing row included) sends the visitor back to the
     * recipe list; a found row is stored; loading ends either way.
     */
    method FetchRecipe(result: FetchResult) returns (navigateTo: Option<string>)
      modifies this`recipe, this`loading
      ensures result.FetchFailed? ==> navigateTo == Some(Routing.RecipesPath) && recipe == old(recipe)
      ensures result.Found? ==> navigateTo.None? && recipe == Some(result.recipe)
      ensures !loading
    {
      loading := true;
      if result.FetchFailed? {
        navigateTo := Some(Routing.RecipesPath);
      } else {
        recipe := Some(result.recipe);
        navigateTo := None;
      }
      loading := false;
    }
  }
}
