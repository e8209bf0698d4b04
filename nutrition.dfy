/** The nutrition tracker of the site's front page (assets/js/main.js):
    a map from ISO dates to day records of macro goals and logged meals,
    updated in place, and the progress bars drawn from a day. */
module Nutrition {
  import opened Wrappers
  import opened JsMath

  /** Calories and the three macros in grams. A field is None when
      `Number(...)` of the stored value is NaN. */
  datatype Nutrients = Nutrients(calories: Option<real>, protein: Option<real>,
                                 carbs: Option<real>, fat: Option<real>)

  datatype Meal = Meal(id: string, name: string, amounts: Nutrients)

  datatype Day = Day(goals: Nutrients, meals: seq<Meal>)

  /** `Number(v) || 0` on each field. */
  function Numbers(n: Nutrients): (r: Nutrients)
    ensures r.calories.Some? && r.protein.Some? && r.carbs.Some? && r.fat.Some?
    ensures n.calories.Some? ==> r.calories == n.calories
    ensures n.protein.Some? ==> r.protein == n.protein
    ensures n.carbs.Some? ==> r.carbs == n.carbs
    ensures n.fat.Some? ==> r.fat == n.fat
  {
    Nutrients(Some(n.calories.GetOr(0.0)), Some(n.protein.GetOr(0.0)),
              Some(n.carbs.GetOr(0.0)), Some(n.fat.GetOr(0.0)))
  }

  const Zero: Nutrients := Nutrients(Some(0.0), Some(0.0), Some(0.0), Some(0.0))

  /** A fresh day: zero goals, no meals. */
  const EmptyDay: Day := Day(Zero, [])

  /** The day a date shows: its record, or a fresh one when it has none. */
  function DayOf(days: map<string, Day>, date: string): Day {
    if date in days then days[date] else EmptyDay
  }

  /** The meal the add button logs: an empty name becomes "Meal" and each
      amount becomes a number. */
  function NewMeal(id: string, name: string, input: Nutrients): (m: Meal)
    ensures m.id == id && m.amounts == Numbers(input)
    ensures m.name == if name == "" then "Meal" else name
  {
    Meal(id, if name == "" then "Meal" else name, Numbers(input))
  }

  /** `meals.filter(x => x.id !== id)`. */
  function WithoutId(meals: seq<Meal>, id: string): (r: seq<Meal>)
    ensures |r| <= |meals|
    ensures forall i :: 0 <= i < |r| ==> r[i].id != id && r[i] in meals
    ensures forall m :: m in meals && m.id != id ==> m in r
  {
    if |meals| == 0 then []
    else
      var rest := WithoutId(meals[..|meals| - 1], id);
      var last := meals[|meals| - 1];
      assert forall m :: m in meals[..|meals| - 1] ==> m in meals;
      assert forall m :: m in meals ==> m in meals[..|meals| - 1] || m == last;
      if last.id == id then rest else rest + [last]
  }

  /** Filtering a day with one more meal at the end: that meal is kept
      exactly when its id differs. */
  lemma WithoutIdSnoc(front: seq<Meal>, m: Meal, id: string)
    ensures WithoutId(front + [m], id) == if m.id == id then WithoutId(front, id) else WithoutId(front, id) + [m]
  {
    assert (front + [m])[..|front + [m]| - 1] == front;
  }

  /** Deleting an id no meal carries changes nothing. */
  lemma {:induction false} WithoutAbsentId(meals: seq<Meal>, id: string)
    requires forall i :: 0 <= i < |meals| ==> meals[i].id != id
    ensures WithoutId(meals, id) == meals
  {
    if |meals| > 0 {
      var front, last := meals[..|meals| - 1], meals[|meals| - 1];
      assert meals == front + [last];
      WithoutAbsentId(front, id);
      WithoutIdSnoc(front, last, id);
    }
  }

  /** Deleting a meal just logged under a new id gives the day back its
      meals as they were. */
  lemma {:induction false} DeleteUndoesAdd(meals: seq<Meal>, m: Meal)
    requires forall i :: 0 <= i < |meals| ==> meals[i].id != m.id
    ensures WithoutId(meals + [m], m.id) == meals
  {
    WithoutIdSnoc(meals, m, m.id);
    WithoutAbsentId(meals, m.id);
  }

  // ---------------------------------------------------------------------
  // The tracker

  class NutritionTracker {
    /** The `nutrition` object, keyed by ISO date. */
    var days: map<string, Day>

    /** The tracker over the records `loadNutrition` read back. */
    constructor(saved: map<string, Day>)
      ensures days == saved
    {
      days := saved;
    }

    /** `getDayData`: a date without a record gets a fresh one; a date with
        one keeps it as it is. */
    method GetDayData(date: string) returns (day: Day)
      modifies this
      ensures date in old(days) ==> days == old(days)
      ensures date !in old(days) ==> days == old(days)[date := EmptyDay]
      ensures date in days && day == days[date] && day == DayOf(old(days), date)
    {
      if date !in days {
        days := days[date := EmptyDay];
      }
      day := days[date];
    }

    /** Saving goals: the day's goals become the entered numbers, with its
        meals and every other date untouched. */
    method SaveGoals(date: string, input: Nutrients)
      modifies this
      ensures days == old(days)[date := DayOf(old(days), date).(goals := Numbers(input))]
      ensures forall d :: d in old(days) && d != date ==> d in days && days[d] == old(days)[d]
    {
      var day := GetDayData(date);
      days := days[date := day.(goals := Numbers(input))];
    }

    /** Adding a meal appends exactly one record to the day. */
    method AddMeal(date: string, id: string, name: string, input: Nutrients)
      modifies this
      ensures days == old(days)[date := DayOf(old(days), date).(meals := DayOf(old(days), date).meals + [NewMeal(id, name, input)])]
      ensures |days[date].meals| == |DayOf(old(days), date).meals| + 1
      ensures forall d :: d in old(days) && d != date ==> d in days && days[d] == old(days)[d]
    {
      var day := GetDayData(date);
      days := days[date := day.(meals := day.meals + [NewMeal(id, name, input)])];
    }

    /** Deleting removes every meal of the day with that id and keeps the
        others in order; the delete buttons exist only for a shown day. */
    method DeleteMeal(date: string, id: string)
      requires date in days
      modifies this
      ensures days == old(days)[date := old(days)[date].(meals := WithoutId(old(days)[date].meals, id))]
      ensures forall m :: m in days[date].meals ==> m.id != id
      ensures forall d :: d in old(days) && d != date ==> d in days && days[d] == old(days)[d]
    {
      var day := days[date];
      days := days[date := day.(meals := WithoutId(day.meals, id))];
    }

    /** Resetting replaces the chosen date's record with a fresh one. */
    method ResetDay(date: string)
      modifies this
      ensures days == old(days)[date := EmptyDay]
      ensures forall d :: d in old(days) && d != date ==> d in days && days[d] == old(days)[d]
    {
      days := days[date := EmptyDay];
    }

    /** `{ ...nutrition, ...data }`: the imported dates overwrite, every
        other date stays. */
    method Import(data: map<string, Day>)
      modifies this
      ensures days.Keys == old(days).Keys + data.Keys
      ensures forall d :: d in data ==> days[d] == data[d]
      ensures forall d :: d in old(days) && d !in data ==> days[d] == old(days)[d]
    {
      days := days + data;
    }
  }

  // ---------------------------------------------------------------------
  // Progress bars

  /** Sums of the four amounts over the meals, a non-numeric amount
      counting 0. */
  datatype Totals = Totals(calories: real, protein: real, carbs: real, fat: real)

  function Plus(t: Totals, n: Nutrients): Totals {
    Totals(t.calories + n.calories.GetOr(0.0), t.protein + n.protein.GetOr(0.0),
           t.carbs + n.carbs.GetOr(0.0), t.fat + n.fat.GetOr(0.0))
  }

  /** The `reduce` over the meals, from the first. */
  function SumMeals(meals: seq<Meal>): Totals {
    if |meals| == 0 then Totals(0.0, 0.0, 0.0, 0.0)
    else Plus(SumMeals(meals[..|meals| - 1]), meals[|meals| - 1].amounts)
  }

  /** Logging a meal adds exactly its amounts to the totals. */
  lemma TotalsAfterAdd(meals: seq<Meal>, m: Meal)
    ensures SumMeals(meals + [m]) == Plus(SumMeals(meals), m.amounts)
  {
    assert (meals + [m])[..|meals|] == meals;
  }

  /** A goal as the bars read it: a number, never below 0. */
  function Goal(v: Option<real>): (g: real)
    ensures g >= 0.0
    ensures v.Some? && v.value >= 0.0 ==> g == v.value
  {
    Max(0.0, v.GetOr(0.0))
  }

  /** A bar's width in percent: the total as a share of the goal, clamped
      to [0, 100], and 0 when the goal is 0. */
  function BarWidth(total: real, goal: real): (w: real)
    requires goal >= 0.0
    ensures 0.0 <= w <= 100.0
    ensures goal == 0.0 ==> w == 0.0
    ensures goal > 0.0 && 0.0 <= total <= goal ==> w * goal == total * 100.0
    ensures goal > 0.0 && total >= goal ==> w == 100.0
    ensures goal > 0.0 && total <= 0.0 ==> w == 0.0
  {
    var pct := if goal != 0.0 then (total / goal) * 100.0 else 0.0;
    ShareAtLeastOne(total, goal);
    Clamp(pct, 0.0, 100.0)
  }

  lemma ShareAtLeastOne(total: real, goal: real)
    ensures goal > 0.0 && total >= goal ==> total / goal >= 1.0
  {
    if goal > 0.0 && total >= goal {
      assert total / goal * goal == total;
    }
  }

  datatype Bars = Bars(calories: real, protein: real, carbs: real, fat: real)

  /** `updateProgressBars`: the four widths of a day. */
  function ProgressBars(day: Day): (b: Bars)
    ensures 0.0 <= b.calories <= 100.0 && 0.0 <= b.protein <= 100.0
    ensures 0.0 <= b.carbs <= 100.0 && 0.0 <= b.fat <= 100.0
    ensures Goal(day.goals.calories) == 0.0 ==> b.calories == 0.0
    ensures Goal(day.goals.protein) == 0.0 ==> b.protein == 0.0
    ensures Goal(day.goals.carbs) == 0.0 ==> b.carbs == 0.0
    ensures Goal(day.goals.fat) == 0.0 ==> b.fat == 0.0
  {
    var t := SumMeals(day.meals);
    Bars(BarWidth(t.calories, Goal(day.goals.calories)), BarWidth(t.protein, Goal(day.goals.protein)),
         BarWidth(t.carbs, Goal(day.goals.carbs)), BarWidth(t.fat, Goal(day.goals.fat)))
  }

  /** A fresh day shows four empty bars. */
  lemma EmptyDayShowsNoProgress()
    ensures ProgressBars(EmptyDay) == Bars(0.0, 0.0, 0.0, 0.0)
  {
  }
}
