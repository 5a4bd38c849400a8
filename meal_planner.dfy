/**
 * The weekly planner page: the Monday-start week around an anchor day, the grid of
 * (day, meal type) slots the page renders from the fetched rows, and the handlers
 * that add and remove entries and move between weeks.
 */
module MealPlanner {
  import opened Wrappers
  import opened Seqs
  import opened Rows

  /** The day of the week as JavaScript's `getDay` numbers it: 0 is Sunday, 1 Monday, ... 6 Saturday. Day 0 (1970-01-01) was a Thursday. */
  function Weekday(d: Day): (w: nat)
    ensures w < 7
  {
    (d + 4) % 7
  }

  /** The numbering is `getDay`'s: 1970-01-01 was a Thursday (4), and each next day is the next weekday, Saturday (6) wrapping to Sunday (0). */
  lemma WeekdayIsGetDay(d: Day)
    ensures Weekday(0) == 4
    ensures Weekday(d + 1) == (Weekday(d) + 1) % 7
    ensures Weekday(d + 7) == Weekday(d)
  {
    var q := (d + 4) / 7;
    assert d + 4 == 7 * q + Weekday(d);
    assert d + 5 == 7 * q + (Weekday(d) + 1);
    assert d + 11 == 7 * (q + 1) + Weekday(d);
  }

  /** The planner's `weekStartsOn` option: weeks begin on Monday. */
  const WeekStartsOn: nat := 1

  /** date-fns `startOfWeek(date, { weekStartsOn: 1 })`, on whole days. */
  function StartOfWeek(d: Day): (m: Day)
    ensures Weekday(m) == WeekStartsOn
    ensures m <= d < m + 7
  {
    var day := Weekday(d);
    var diff := (if day < WeekStartsOn then 7 else 0) + day - WeekStartsOn;
    assert d - diff + 4 == 7 * ((d + 4) / 7) + (if day < WeekStartsOn then -6 else 1);
    d - diff
  }

  /** The start of the week is the only Monday that has `d` among its seven days. */
  lemma MondayOnOrBeforeIsUnique(m: Day, d: Day)
    requires Weekday(m) == WeekStartsOn && m <= d < m + 7
    ensures m == StartOfWeek(d)
  {
    var s := StartOfWeek(d);
    assert (m + 4) % 7 == (s + 4) % 7;
    assert (m + 4) / 7 * 7 - (s + 4) / 7 * 7 == m - s;
  }

  /** Moving the anchor by whole weeks moves the start of its week by the same amount. */
  lemma StartOfWeekShift(d: Day, k: int)
    ensures StartOfWeek(d + 7 * k) == StartOfWeek(d) + 7 * k
  {
    var m := StartOfWeek(d) + 7 * k;
    var s := StartOfWeek(d);
    assert s + 7 * k + 4 == (s + 4) + 7 * k;
    assert Weekday(m) == Weekday(s);
    MondayOnOrBeforeIsUnique(m, d + 7 * k);
  }

  /** `weekDays`: the seven days from the Monday of the anchor's week. */
  function WeekDays(anchor: Day): (days: seq<Day>)
    ensures |days| == 7
    ensures forall i :: 0 <= i < 7 ==> days[i] == days[0] + i
    ensures Weekday(days[0]) == WeekStartsOn
    ensures days[0] <= anchor <= days[6]
  {
    var monday := StartOfWeek(anchor);
    seq(7, i requires 0 <= i < 7 => monday + i)
  }

  /** The first day of the window is the Monday on or before the anchor, and no other day. */
  lemma WeekDaysStartOnTheMondayOnOrBefore(anchor: Day, m: Day)
    requires Weekday(m) == WeekStartsOn && m <= anchor < m + 7
    ensures WeekDays(anchor)[0] == m
  {
    MondayOnOrBeforeIsUnique(m, anchor);
  }

  /** Previous and Next Week move every day of the window by exactly seven. */
  lemma WeekNavigationShiftsWindow(anchor: Day)
    ensures forall i :: 0 <= i < 7 ==> WeekDays(anchor + 7)[i] == WeekDays(anchor)[i] + 7
    ensures forall i :: 0 <= i < 7 ==> WeekDays(anchor - 7)[i] == WeekDays(anchor)[i] - 7
  {
    StartOfWeekShift(anchor, 1);
    StartOfWeekShift(anchor, -1);
  }

  /** The meal types the grid renders, in column order. */
  const MealTypes: seq<string> := ["Breakfast", "Lunch", "Dinner"]

  /** The entries the page renders in the slot of `day` and `mealType`: the fetched rows of that day and type. */
  function MealsForSlot(meals: seq<MealPlan>, day: Day, mealType: string): (slot: seq<MealPlan>)
    ensures forall i :: 0 <= i < |slot| ==> slot[i] in meals && slot[i].date == day && slot[i].mealType == mealType
    ensures forall i :: 0 <= i < |meals| && meals[i].date == day && meals[i].mealType == mealType ==> meals[i] in slot
  {
    Filter(meals, (m: MealPlan) => m.date == day && m.mealType == mealType)
  }

  /** A slot lists its entries in the order of the fetched rows, each as often as it was fetched. */
  lemma SlotKeepsFetchOrder(meals: seq<MealPlan>, day: Day, mealType: string, m: MealPlan)
    ensures IsSubsequence(MealsForSlot(meals, day, mealType), meals)
    ensures multiset(MealsForSlot(meals, day, mealType))[m] ==
              if m.date == day && m.mealType == mealType then multiset(meals)[m] else 0
  {
    FilterIsSubsequence(meals, (m: MealPlan) => m.date == day && m.mealType == mealType);
    FilterMultiplicity(meals, (m: MealPlan) => m.date == day && m.mealType == mealType, m);
  }

  /** No entry is listed in two different slots. */
  lemma SlotsAreDisjoint(meals: seq<MealPlan>, d1: Day, t1: string, d2: Day, t2: string)
    requires d1 != d2 || t1 != t2
    ensures forall i, j :: 0 <= i < |MealsForSlot(meals, d1, t1)| && 0 <= j < |MealsForSlot(meals, d2, t2)| ==>
              MealsForSlot(meals, d1, t1)[i] != MealsForSlot(meals, d2, t2)[j]
  {
  }

  /** The rendered week: for each of the seven days, its three slots in `MealTypes` order. */
  function Grid(meals: seq<MealPlan>, anchor: Day): (grid: seq<seq<seq<MealPlan>>>)
    ensures |grid| == 7 && forall i :: 0 <= i < 7 ==> |grid[i]| == |MealTypes|
  {
    var days := WeekDays(anchor);
    seq(7, i requires 0 <= i < 7 => seq(|MealTypes|, j requires 0 <= j < |MealTypes| => MealsForSlot(meals, days[i], MealTypes[j])))
  }

  ghost predicate RenderedAt(meals: seq<MealPlan>, anchor: Day, m: MealPlan, i: nat, j: nat) {
    i < 7 && j < |MealTypes| && m in Grid(meals, anchor)[i][j]
  }

  /**
   * A fetched entry is rendered exactly when its type is one of the three meal types
   * and its day lies in the window, and then only in the slot of its own day and type.
   */
  lemma RenderedIffInWindow(meals: seq<MealPlan>, anchor: Day, m: MealPlan)
    requires m in meals
    ensures (exists i: nat, j: nat :: RenderedAt(meals, anchor, m, i, j)) <==>
              m.mealType in MealTypes && StartOfWeek(anchor) <= m.date < StartOfWeek(anchor) + 7
    ensures forall i: nat, j: nat :: RenderedAt(meals, anchor, m, i, j) ==>
              i == m.date - StartOfWeek(anchor) && MealTypes[j] == m.mealType
  {
    var start := StartOfWeek(anchor);
    if m.mealType in MealTypes && start <= m.date < start + 7 {
      var j :| 0 <= j < |MealTypes| && MealTypes[j] == m.mealType;
      var i := m.date - start;
      assert RenderedAt(meals, anchor, m, i, j);
    }
  }

  /**
   * Rows left over from the previous week (before the refetch lands) are not rendered
   * once the anchor has moved a week on or back.
   */
  lemma StaleRowsHiddenAfterNavigation(meals: seq<MealPlan>, anchor: Day, moved: Day, m: MealPlan)
    requires moved == anchor + 7 || moved == anchor - 7
    requires m in meals && StartOfWeek(anchor) <= m.date < StartOfWeek(anchor) + 7
    ensures forall i: nat, j: nat :: !RenderedAt(meals, moved, m, i, j)
  {
    StartOfWeekShift(anchor, (moved - anchor) / 7);
    RenderedIffInWindow(meals, moved, m);
  }

  /** The slot whose inline add form is open. */
  datatype Slot = Slot(day: Day, mealType: string)

  /** The range query `fetchWeekMeals` issues: this user's rows dated within the window. */
  datatype WeekQuery = WeekQuery(userId: UserId, from: Day, to: Day)

  /** The planner page's component state. */
  class Planner {
    const user: Option<UserId>
    var currentDate: Day
    var weekMeals: seq<MealPlan>
    var loading: bool
    var addingMeal: Option<Slot>
    var mealTitle: string

    constructor (user: Option<UserId>, today: Day)
      ensures this.user == user && currentDate == today
      ensures weekMeals == [] && loading && addingMeal == None && mealTitle == ""
    {
      this.user := user;
      currentDate := today;
      weekMeals := [];
      loading := true;
      addingMeal := None;
      mealTitle := "";
    }

    /** The rows the page shows: none while loading, otherwise the week's grid. */
    function Shown(): (grid: Option<seq<seq<seq<MealPlan>>>>)
      reads this
      ensures grid.None? <==> loading
      ensures grid.Some? ==> grid.value == Grid(weekMeals, currentDate)
    {
      if loading then None else Some(Grid(weekMeals, currentDate))
    }

    /**
     * `fetchWeekMeals`: asks for the signed-in user's rows between the first and last
     * day of the window; any returned list, the empty one included, replaces
     * `weekMeals`, and a failed query (`None`, no data) leaves them; either way loading
     * ends.
     */
    method FetchWeekMeals(response: Option<seq<MealPlan>>) returns (query: WeekQuery)
      requires user.Some?
      modifies this`weekMeals, this`loading
      ensures query.userId == user.value
      ensures query.from == StartOfWeek(currentDate) && query.to == query.from + 6
      ensures weekMeals == (if response.Some? then response.value else old(weekMeals))
      ensures !loading
    {
      loading := true;
      var days := WeekDays(currentDate);
      query := WeekQuery(user.value, days[0], days[6]);
      if response.Some? {
        weekMeals := response.value;
      }
      loading := false;
    }

    /** The "Add" button of a slot opens that slot's form. */
    method OpenAddForm(day: Day, mealType: string)
      modifies this`addingMeal
      ensures addingMeal == Some(Slot(day, mealType))
    {
      addingMeal := Some(Slot(day, mealType));
    }

    method TypeMealTitle(title: string)
      modifies this`mealTitle
      ensures mealTitle == title
    {
      mealTitle := title;
    }

    /** Leaving the title field closes the form only when nothing was typed. */
    method BlurMealTitle()
      modifies this`addingMeal
      ensures addingMeal == if mealTitle == "" then None else old(addingMeal)
    {
      if mealTitle == "" {
        addingMeal := None;
      }
    }

    /**
     * `handleAddMeal`: with an open slot and a signed-in user, inserts an entry for that
     * slot's day and type titled with the typed text. When the insert succeeds, the form
     * closes, the title clears and the week is refetched; when it fails, nothing changes.
     */
    method HandleAddMeal(insertOk: bool, refetched: Option<seq<MealPlan>>) returns (insert: Option<MealPlanInsert>)
      modifies this`addingMeal, this`mealTitle, this`weekMeals, this`loading
      ensures insert.None? <==> old(addingMeal).None? || user.None?
      ensures insert.Some? ==>
                insert.value == MealPlanInsert(user.value, old(addingMeal).value.day, old(addingMeal).value.mealType, Some(old(mealTitle)))
      ensures insert.None? || !insertOk ==> unchanged(this)
      ensures insert.Some? && insertOk ==>
                && addingMeal.None? && mealTitle == "" && !loading
                && weekMeals == (if refetched.Some? then refetched.value else old(weekMeals))
    {
      if addingMeal.None? || user.None? {
        return None;
      }
      insert := Some(MealPlanInsert(user.value, addingMeal.value.day, addingMeal.value.mealType, Some(mealTitle)));
      if insertOk {
        addingMeal := None;
        mealTitle := "";
        var _ := FetchWeekMeals(refetched);
      }
    }

    /**
     * `handleDeleteMeal`: only a confirmed removal issues the delete; the week is then
     * refetched whatever the delete's outcome.
     */
    method HandleDeleteMeal(id: MealPlanId, confirmed: bool, refetched: Option<seq<MealPlan>>) returns (deleted: Option<MealPlanId>)
      requires confirmed ==> user.Some?
      modifies this`weekMeals, this`loading
      ensures !confirmed ==> deleted.None? && unchanged(this)
      ensures confirmed ==> deleted == Some(id) && !loading
      ensures confirmed ==> weekMeals == (if refetched.Some? then refetched.value else old(weekMeals))
    {
      if !confirmed {
        return None;
      }
      deleted := Some(id);
      var _ := FetchWeekMeals(refetched);
    }

    method PreviousWeek()
      modifies this`currentDate
      ensures currentDate == old(currentDate) - 7
      ensures StartOfWeek(currentDate) == StartOfWeek(old(currentDate)) - 7
    {
      currentDate := currentDate - 7;
      StartOfWeekShift(old(currentDate), -1);
    }

    method NextWeek()
      modifies this`currentDate
      ensures currentDate == old(currentDate) + 7
      ensures StartOfWeek(currentDate) == StartOfWeek(old(currentDate)) + 7
    {
      currentDate := currentDate + 7;
      StartOfWeekShift(old(currentDate), 1);
    }
  }

  /** Previous Week followed by Next Week shows the same window again. */
  method PreviousThenNextRestoresWindow(p: Planner)
    modifies p
    ensures WeekDays(p.currentDate) == WeekDays(old(p.currentDate))
  {
    p.PreviousWeek();
    p.NextWeek();
  }
}
