/**
 * The recipe discovery page's client-side filter: a case-insensitive search over
 * title and description, combined with an optional category filter.
 */
module RecipeSearch {
  import opened Wrappers
  import opened Seqs
  import opened Text
  import opened Rows

  /**
   * `matchesSearch`: the lower-cased term occurs in the lower-cased title or in the
   * lower-cased description, if any. The empty term matches every recipe, and a recipe
   * without a description can match only through its title.
   */
  predicate MatchesSearch(r: Recipe, term: string)
    ensures term == "" ==> MatchesSearch(r, term)
    ensures r.description.None? ==> (MatchesSearch(r, term) <==> Includes(Lower(r.title), Lower(term)))
  {
    Includes(Lower(r.title), Lower(term)) ||
    (r.description.Some? && Includes(Lower(r.description.value), Lower(term)))
  }

  /**
   * `matchesCategory`: a filter holding a non-empty category (the only truthy values)
   * demands exactly that category; no filter, or the empty string, lets everything pass.
   */
  predicate MatchesCategory(r: Recipe, filter: Option<string>)
    ensures filter.None? || filter == Some("") ==> MatchesCategory(r, filter)
    ensures MatchesCategory(r, filter) && filter.Some? && filter.value != "" ==> r.category == filter
    ensures r.category == filter ==> MatchesCategory(r, filter)
  {
    if filter.Some? && filter.value != "" then r.category == filter else true
  }

  /** `matchesSearch && matchesCategory`: with no term and "All", every recipe passes. */
  predicate Matches(r: Recipe, term: string, filter: Option<string>)
    ensures term == "" && filter.None? ==> Matches(r, term, filter)
    ensures Matches(r, term, filter) && filter.Some? && filter.value != "" ==> r.category == filter
  {
    MatchesSearch(r, term) && MatchesCategory(r, filter)
  }

  /** `filteredRecipes`: the fetched recipes that match, in fetch order. */
  function FilteredRecipes(recipes: seq<Recipe>, term: string, filter: Option<string>): (shown: seq<Recipe>)
    ensures forall i :: 0 <= i < |shown| ==> shown[i] in recipes && Matches(shown[i], term, filter)
    ensures forall i :: 0 <= i < |recipes| && Matches(recipes[i], term, filter) ==> recipes[i] in shown
  {
    Filter(recipes, (r: Recipe) => Matches(r, term, filter))
  }

  /** The shown list keeps the fetched order and drops only non-matching recipes. */
  lemma FilteredIsSubsequence(recipes: seq<Recipe>, term: string, filter: Option<string>)
    ensures IsSubsequence(FilteredRecipes(recipes, term, filter), recipes)
  {
    FilterIsSubsequence(recipes, (r: Recipe) => Matches(r, term, filter));
  }

  /** An empty search with no category shows every fetched recipe. */
  lemma EmptySearchShowsAll(recipes: seq<Recipe>)
    ensures FilteredRecipes(recipes, "", None) == recipes
  {
    FilterAllPass(recipes, (r: Recipe) => Matches(r, "", None));
  }

  /** Search terms that differ only in letter case show the same recipes. */
  lemma SearchIgnoresCase(recipes: seq<Recipe>, term1: string, term2: string, filter: Option<string>)
    requires SameUpToCase(term1, term2)
    ensures FilteredRecipes(recipes, term1, filter) == FilteredRecipes(recipes, term2, filter)
  {
    LowerEqualIffSameUpToCase(term1, term2);
    FilterCongruent(recipes, (r: Recipe) => Matches(r, term1, filter), (r: Recipe) => Matches(r, term2, filter));
  }

  /** With a category chosen, every shown recipe has exactly that category (so none without one). */
  lemma CategoryFilterIsExact(recipes: seq<Recipe>, term: string, category: string, r: Recipe)
    requires category != ""
    requires r in FilteredRecipes(recipes, term, Some(category))
    ensures r.category == Some(category)
  {
    var shown := FilteredRecipes(recipes, term, Some(category));
    var i :| 0 <= i < |shown| && shown[i] == r;
  }

  /** Choosing a category never shows a recipe that "All" would not show, and keeps their order. */
  lemma CategoryFilterNarrows(recipes: seq<Recipe>, term: string, filter: Option<string>)
    ensures IsSubsequence(FilteredRecipes(recipes, term, filter), FilteredRecipes(recipes, term, None))
  {
    FilterMonotone(recipes, (r: Recipe) => Matches(r, term, filter), (r: Recipe) => Matches(r, term, None));
  }

  /** Filtering the shown list again with the same search and category changes nothing. */
  lemma FilterIsIdempotent(recipes: seq<Recipe>, term: string, filter: Option<string>)
    ensures FilteredRecipes(FilteredRecipes(recipes, term, filter), term, filter) == FilteredRecipes(recipes, term, filter)
  {
    FilterIdempotent(recipes, (r: Recipe) => Matches(r, term, filter));
  }

  /** A term that occurs in the title, in any letter case, always matches the search. */
  lemma TitleOccurrenceMatches(r: Recipe, term: string, i: nat)
    requires OccursAt(Lower(r.title), Lower(term), i)
    ensures MatchesSearch(r, term)
  {
    IncludesIffOccurs(Lower(r.title), Lower(term));
  }
}
