/**
 * The favourite button: whether the signed-in user has saved a recipe, and the toggle
 * that deletes or inserts the (user, recipe) row in the `favorites` table, changing
 * the local state only when the call succeeds.
 */
module Favorites {
  import opened Wrappers
  import opened Rows

  /** The two writes the toggle issues. */
  datatype FavoriteRequest = DeleteFavorite(key: FavoriteKey) | InsertFavorite(key: FavoriteKey)

  /** What the toggle asks for: a saved recipe is un-saved, an unsaved one saved. */
  function RequestFor(isFavorite: bool, key: FavoriteKey): (req: FavoriteRequest)
    ensures req.key == key
    ensures req.DeleteFavorite? <==> isFavorite
  {
    if isFavorite then DeleteFavorite(key) else InsertFavorite(key)
  }

  /**
   * The `favorites` rows, as (user, recipe) pairs, after a request: a successful delete
   * removes the rows matching both columns, a successful insert adds the pair, and a
   * failed call changes nothing.
   */
  function TableAfter(rows: set<FavoriteKey>, req: FavoriteRequest, ok: bool): (after: set<FavoriteKey>)
    ensures forall k :: k != req.key ==> (k in after <==> k in rows)
    ensures req.key in after <==> if ok then req.InsertFavorite? else req.key in rows
  {
    if !ok then rows
    else if req.DeleteFavorite? then rows - {req.key}
    else rows + {req.key}
  }

  /** `isFavorite` after the call: set to false by a successful delete, true by a successful insert, else kept. */
  function FavoriteAfter(isFavorite: bool, req: FavoriteRequest, ok: bool): (after: bool)
    ensures ok && req.DeleteFavorite? ==> !after
    ensures ok && req.InsertFavorite? ==> after
    ensures !ok ==> after == isFavorite
  {
    if ok then req.InsertFavorite? else isFavorite
  }

  /**
   * One toggle, request and response, on the button's flag and the table. It keeps the
   * flag in step with the table: if the flag said whether the row existed before, it
   * says so after, whatever the outcome; a success flips the flag and a failure leaves
   * flag and table as they were.
   */
  function Toggle(isFavorite: bool, rows: set<FavoriteKey>, key: FavoriteKey, ok: bool): (after: (bool, set<FavoriteKey>))
    ensures (isFavorite <==> key in rows) ==> (after.0 <==> key in after.1)
    ensures ok ==> after.0 == !isFavorite
    ensures !ok ==> after == (isFavorite, rows)
    ensures forall k :: k != key ==> (k in after.1 <==> k in rows)
  {
    var req := RequestFor(isFavorite, key);
    (FavoriteAfter(isFavorite, req, ok), TableAfter(rows, req, ok))
  }

  /**
   * Two successful toggles from a state where the flag matches the table bring back
   * both the flag and the presence of the (user, recipe) row.
   */
  lemma TwoSuccessfulTogglesRestore(isFavorite: bool, rows: set<FavoriteKey>, key: FavoriteKey)
    requires isFavorite <==> key in rows
    ensures var (f1, r1) := Toggle(isFavorite, rows, key, true);
            var (f2, r2) := Toggle(f1, r1, key, true);
            f2 == isFavorite && r2 == rows
  {
    var (f1, r1) := Toggle(isFavorite, rows, key, true);
    if isFavorite {
      assert r1 == rows - {key};
      assert r1 + {key} == rows;
    } else {
      assert r1 == rows + {key};
      assert r1 - {key} == rows;
    }
  }

  /** What the button shows: nothing without a user, otherwise a heart filled when saved, disabled while loading. */
  datatype ButtonView = ButtonView(saved: bool, disabled: bool)

  /** The favourite button's component state for one recipe. */
  class FavoriteButton {
    const user: Option<UserId>
    const recipeId: RecipeId
    var isFavorite: bool
    var loading: bool
    /** The write in flight, if any: the toggle between its call and its response. */
    var pending: Option<FavoriteRequest>

    ghost predicate Valid()
      reads this
    {
      && (loading <==> pending.Some?)
      && (pending.Some? ==> user.Some? && pending.value.key == FavoriteKey(user.value, recipeId))
    }

    constructor (user: Option<UserId>, recipeId: RecipeId)
      ensures Valid() && this.user == user && this.recipeId == recipeId
      ensures !isFavorite && !loading && pending.None?
    {
      this.user := user;
      this.recipeId := recipeId;
      isFavorite, loading, pending := false, false, None;
    }

    function View(): (view: Option<ButtonView>)
      reads this
      ensures view.None? <==> user.None?
      ensures view.Some? ==> view.value.saved == isFavorite && view.value.disabled == loading
    {
      if user.None? then None else Some(ButtonView(isFavorite, loading))
    }

    /**
     * `checkFavoriteStatus`, run when a user is signed in: the button shows as saved
     * exactly when the query succeeded and a row for (user, recipe) exists.
     */
    method CheckFavoriteStatus(rows: set<FavoriteKey>, queryOk: bool)
      requires Valid()
      modifies this`isFavorite
      ensures Valid()
      ensures user.None? ==> isFavorite == old(isFavorite)
      ensures user.Some? ==> (isFavorite <==> queryOk && FavoriteKey(user.value, recipeId) in rows)
    {
      if user.Some? {
        isFavorite := queryOk && FavoriteKey(user.value, recipeId) in rows;
      }
    }

    /**
     * A click on the button. Without a user, or while a call is in flight (the button
     * is disabled), nothing happens; otherwise loading starts and the delete or insert
     * for (user, recipe) is issued.
     */
    method BeginToggle() returns (request: Option<FavoriteRequest>)
      requires Valid()
      modifies this`loading, this`pending
      ensures Valid()
      ensures request.None? <==> user.None? || old(loading)
      ensures request.None? ==> unchanged(this)
      ensures request.Some? ==>
                && request.value == RequestFor(isFavorite, FavoriteKey(user.value, recipeId))
                && loading && pending == request
    {
      if user.None? || loading {
        return None;
      }
      request := Some(RequestFor(isFavorite, FavoriteKey(user.value, recipeId)));
      loading := true;
      pending := request;
    }

    /**
     * The response to the write in flight, which finds the table as `rows`: the flag
     * follows a success, stays on a failure, and loading ends either way.
     */
    method FinishToggle(rows: set<FavoriteKey>, ok: bool) returns (rowsAfter: set<FavoriteKey>)
      requires Valid() && pending.Some?
      modifies this`isFavorite, this`loading, this`pending
      ensures Valid() && !loading
      ensures isFavorite == FavoriteAfter(old(isFavorite), old(pending).value, ok)
      ensures rowsAfter == TableAfter(rows, old(pending).value, ok)
    {
      var req := pending.value;
      if ok {
        isFavorite := req.InsertFavorite?;
      }
      rowsAfter := TableAfter(rows, req, ok);
      loading, pending := false, None;
    }
  }

  /** A click and its response on the button follow `Toggle`. */
  method ClickAndRespond(b: FavoriteButton, rows: set<FavoriteKey>, ok: bool) returns (rowsAfter: set<FavoriteKey>)
    requires b.Valid() && b.user.Some? && !b.loading
    modifies b
    ensures b.Valid() && !b.loading
    ensures (b.isFavorite, rowsAfter) == Toggle(old(b.isFavorite), rows, FavoriteKey(b.user.value, b.recipeId), ok)
  {
    var _ := b.BeginToggle();
    rowsAfter := b.FinishToggle(rows, ok);
  }
}
