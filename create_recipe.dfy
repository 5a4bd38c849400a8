/**
 * The create-recipe form: the ingredient list editor, and the normalisation the
 * submit handler applies before inserting the recipe row.
 */
module CreateRecipe {
  import opened Wrappers
  import opened Seqs
  import opened Text
  import opened Rows
  import Routing

  /** The first option of the category select, the form's initial category. */
  const DefaultCategory: string := "Breakfast"

  /** `handleAddIngredient`: a new empty entry at the end. */
  function AppendBlank(ingredients: seq<string>): (r: seq<string>)
    ensures |r| == |ingredients| + 1 && r[..|ingredients|] == ingredients && r[|ingredients|] == ""
  {
    ingredients + [""]
  }

  /** `handleIngredientChange`: the entry at `index` takes the typed text. */
  function ReplaceAt(ingredients: seq<string>, index: nat, value: string): (r: seq<string>)
    requires index < |ingredients|
    ensures |r| == |ingredients| && r[index] == value
    ensures forall k :: 0 <= k < |r| && k != index ==> r[k] == ingredients[k]
  {
    ingredients[index := value]
  }

  /**
   * `handleRemoveIngredient`: the entries whose position differs from `index`
   * (`filter((_, i) => i !== index)`), so an index past the end removes nothing.
   */
  function RemoveAt(ingredients: seq<string>, index: nat): (r: seq<string>)
    ensures index < |ingredients| ==> r == ingredients[..index] + ingredients[index + 1..]
    ensures index >= |ingredients| ==> r == ingredients
    decreases |ingredients|
  {
    if ingredients == [] then []
    else if index == 0 then ingredients[1..]
    else
      var rest := RemoveAt(ingredients[1..], index - 1);
      assert index < |ingredients| ==> ingredients[..index] == [ingredients[0]] + ingredients[1..][..index - 1];
      assert ingredients == [ingredients[0]] + ingredients[1..];
      [ingredients[0]] + rest
  }

  /** Removing the entry just added gives back the list before the add. */
  lemma RemoveUndoesAppend(ingredients: seq<string>)
    ensures RemoveAt(AppendBlank(ingredients), |ingredients|) == ingredients
  {
    var xs := AppendBlank(ingredients);
    assert xs[..|ingredients|] == ingredients && xs[|ingredients| + 1..] == [];
  }

  /** Removal drops exactly the one entry at `index`; the others keep their order. */
  lemma RemoveAtDropsOneEntry(ingredients: seq<string>, index: nat)
    requires index < |ingredients|
    ensures |RemoveAt(ingredients, index)| == |ingredients| - 1
    ensures IsSubsequence(RemoveAt(ingredients, index), ingredients)
    ensures multiset(RemoveAt(ingredients, index)) == multiset(ingredients) - multiset{ingredients[index]}
  {
    var before, x, after := ingredients[..index], ingredients[index], ingredients[index + 1..];
    assert ingredients == before + [x] + after;
    MultisetWithout(before, x, after);
    RemovalIsSubsequence(ingredients, index);
  }

  lemma MultisetWithout(before: seq<string>, x: string, after: seq<string>)
    ensures multiset(before + [x] + after) - multiset{x} == multiset(before + after)
  {
    assert multiset(before + [x] + after) == multiset(before) + multiset{x} + multiset(after);
    assert multiset(before + after) == multiset(before) + multiset(after);
  }

  lemma {:induction false} RemovalIsSubsequence(s: seq<string>, index: nat)
    requires index < |s|
    ensures IsSubsequence(s[..index] + s[index + 1..], s)
    decreases |s|
  {
    var r := s[..index] + s[index + 1..];
    if index == 0 {
      assert r == s[1..];
      SelfSubsequence(s[1..]);
    } else {
      RemovalIsSubsequence(s[1..], index - 1);
      assert r[0] == s[0] && r[1..] == s[1..][..index - 1] + s[1..][index..];
    }
  }

  lemma {:induction false} SelfSubsequence(s: seq<string>)
    ensures IsSubsequence(s, s)
    decreases |s|
  {
    if s != [] {
      SelfSubsequence(s[1..]);
    }
  }

  /** An entry that is not all whitespace: `i.trim() !== ""`. */
  predicate HasText(ingredient: string) {
    Trim(ingredient) != ""
  }

  /** `validIngredients`: the entries with text, in the order they were typed. */
  function ValidIngredients(ingredients: seq<string>): (valid: seq<string>)
    ensures |valid| <= |ingredients|
    ensures forall i :: 0 <= i < |valid| ==> valid[i] in ingredients && HasText(valid[i])
    ensures forall i :: 0 <= i < |ingredients| && HasText(ingredients[i]) ==> ingredients[i] in valid
  {
    Filter(ingredients, HasText)
  }

  /**
   * The submitted ingredients are the entries that are not blank, each as often as it
   * was typed and in the typed order; no blank entry survives and filtering again
   * changes nothing.
   */
  lemma ValidIngredientsAreTheNonBlankEntries(ingredients: seq<string>, x: string)
    ensures forall i :: 0 <= i < |ValidIngredients(ingredients)| ==> !IsBlank(ValidIngredients(ingredients)[i])
    ensures multiset(ValidIngredients(ingredients))[x] == if IsBlank(x) then 0 else multiset(ingredients)[x]
    ensures IsSubsequence(ValidIngredients(ingredients), ingredients)
    ensures ValidIngredients(ValidIngredients(ingredients)) == ValidIngredients(ingredients)
  {
    var v := ValidIngredients(ingredients);
    forall i | 0 <= i < |v| ensures !IsBlank(v[i]) {
      TrimEmptyIffBlank(v[i]);
    }
    TrimEmptyIffBlank(x);
    FilterMultiplicity(ingredients, HasText, x);
    FilterIsSubsequence(ingredients, HasText);
    FilterIdempotent(ingredients, HasText);
  }

  /** `imageUrl || null`: an empty URL is sent as null, any other unchanged. */
  function ImageUrlToSubmit(imageUrl: string): (r: Option<string>)
    ensures r.None? <==> imageUrl == ""
    ensures r.Some? ==> r.value == imageUrl
  {
    if imageUrl == "" then None else Some(imageUrl)
  }

  /**
   * The row the submit handler inserts for the signed-in user from the form's fields:
   * the text fields as typed, only ingredients with text, and no empty image URL.
   */
  function Submission(userId: UserId, title: string, description: string, category: string,
                      ingredients: seq<string>, instructions: string, imageUrl: string): (row: RecipeInsert)
    ensures row.userId == userId && row.title == title && row.instructions == instructions
    ensures row.description == Some(description) && row.category == Some(category)
    ensures forall i :: 0 <= i < |row.ingredients| ==> HasText(row.ingredients[i])
    ensures forall i :: 0 <= i < |ingredients| && HasText(ingredients[i]) ==> ingredients[i] in row.ingredients
    ensures row.imageUrl != Some("")
    ensures imageUrl != "" ==> row.imageUrl == Some(imageUrl)
  {
    RecipeInsert(userId, title, Some(description), Some(category), ValidIngredients(ingredients),
                 instructions, ImageUrlToSubmit(imageUrl))
  }

  /**
   * Publishing "Tea" ("Boil water") with the ingredients "Water", a blank line and
   * "Tea bag", an untouched category and no image URL sends two ingredients, the
   * default category and a null image.
   */
  lemma TeaSubmission(userId: UserId)
    ensures Submission(userId, "Tea", "", DefaultCategory, ["Water", " ", "Tea bag"], "Boil water", "")
              == RecipeInsert(userId, "Tea", Some(""), Some("Breakfast"), ["Water", "Tea bag"], "Boil water", None)
  {
    StartsWithTextHasText("Water");
    StartsWithTextHasText("Tea bag");
    assert !HasText(" ") by { TrimEmptyIffBlank(" "); }
    FilterDropsMiddle("Water", " ", "Tea bag", HasText);
  }

  lemma StartsWithTextHasText(s: string)
    requires s != [] && !IsWhitespace(s[0])
    ensures HasText(s)
  {
    TrimEmptyIffBlank(s);
  }

  /** The result of the `recipes` insert. */
  datatype InsertResult = InsertOk | InsertFailed(message: string)

  /** The create-recipe page's component state. */
  class CreateRecipeForm {
    const user: Option<UserId>
    var title: string
    var description: string
    var category: string
    var ingredients: seq<string>
    var instructions: string
    var imageUrl: string
    var loading: bool
    var error: Option<string>

    /** The editor always holds at least one ingredient entry. */
    ghost predicate Valid()
      reads this
    {
      |ingredients| >= 1
    }

    constructor (user: Option<UserId>)
      ensures Valid() && this.user == user
      ensures title == "" && description == "" && category == DefaultCategory
      ensures ingredients == [""] && instructions == "" && imageUrl == ""
      ensures !loading && error == None
    {
      this.user := user;
      title, description, category := "", "", DefaultCategory;
      ingredients := [""];
      instructions, imageUrl := "", "";
      loading, error := false, None;
    }

    method AddIngredient()
      requires Valid()
      modifies this`ingredients
      ensures Valid() && ingredients == AppendBlank(old(ingredients))
    {
      ingredients := AppendBlank(ingredients);
    }

    method ChangeIngredient(index: nat, value: string)
      requires Valid() && index < |ingredients|
      modifies this`ingredients
      ensures Valid() && ingredients == ReplaceAt(old(ingredients), index, value)
    {
      ingredients := ReplaceAt(ingredients, index, value);
    }

    /** The remove button of entry `index`; it is disabled while only one entry is left. */
    method ClickRemoveIngredient(index: nat)
      requires Valid() && index < |ingredients|
      modifies this`ingredients
      ensures Valid()
      ensures ingredients == if |old(ingredients)| == 1 then old(ingredients) else RemoveAt(old(ingredients), index)
    {
      if |ingredients| != 1 {
        ingredients := RemoveAt(ingredients, index);
      }
    }

    /**
     * `handleSubmit`: without a signed-in user nothing happens. Otherwise the normalised
     * row is inserted; success navigates to the recipe list, failure shows the error's
     * message and stays; loading is over in both cases.
     */
    method HandleSubmit(result: InsertResult) returns (insert: Option<RecipeInsert>, navigateTo: Option<string>)
      modifies this`loading, this`error
      ensures user.None? ==> insert.None? && navigateTo.None? && unchanged(this)
      ensures user.Some? ==>
                insert == Some(Submission(user.value, title, description, category, ingredients, instructions, imageUrl))
      ensures user.Some? && result.InsertOk? ==> navigateTo == Some(Routing.RecipesPath) && error.None?
      ensures user.Some? && result.InsertFailed? ==> navigateTo.None? && error == Some(result.message)
      ensures user.Some? ==> !loading
    {
      if user.None? {
        return None, None;
      }
      loading := true;
      error := None;
      insert := Some(Submission(user.value, title, description, category, ingredients, instructions, imageUrl));
      if result.InsertOk? {
        navigateTo := Some(Routing.RecipesPath);
      } else {
        error := Some(result.message);
        navigateTo := None;
      }
      loading := false;
    }
  }
}
