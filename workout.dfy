/** The workout plan generator of the site's front page
    (assets/js/main.js): a day split per number of training days, the
    muscle groups each split tag stands for, and the plan of exercises
    drawn from a fixed catalogue. */
module Workout {
  import opened Text

  // ---------------------------------------------------------------------
  // Catalogue

  /** Three exercises per muscle group and equipment kind. */
  const Catalogue: map<string, map<string, seq<string>>> := map[
    "chest" := map[
      "bodyweight" := ["Push-up", "Incline push-up", "Decline push-up"],
      "dumbbells" := ["DB bench press", "DB incline press", "DB fly"],
      "gym" := ["Barbell bench press", "Incline bench press", "Cable fly"]],
    "back" := map[
      "bodyweight" := ["Inverted row", "Superman", "Prone Y-T-W"],
      "dumbbells" := ["DB row", "DB pullover", "DB deadlift"],
      "gym" := ["Lat pulldown", "Seated row", "Barbell row"]],
    "legs" := map[
      "bodyweight" := ["Bodyweight squat", "Reverse lunge", "Glute bridge"],
      "dumbbells" := ["Goblet squat", "DB lunge", "DB RDL"],
      "gym" := ["Back squat", "Leg press", "Romanian deadlift"]],
    "shoulders" := map[
      "bodyweight" := ["Pike push-up", "Wall walk", "Handstand hold"],
      "dumbbells" := ["DB shoulder press", "Lateral raise", "Rear delt raise"],
      "gym" := ["Overhead press", "Cable lateral raise", "Face pull"]],
    "arms" := map[
      "bodyweight" := ["Diamond push-up", "Chin-up hold", "Bench dip"],
      "dumbbells" := ["DB curl", "DB hammer curl", "DB triceps extension"],
      "gym" := ["Cable curl", "EZ-bar curl", "Cable pushdown"]],
    "core" := map[
      "bodyweight" := ["Plank", "Dead bug", "Hollow body hold"],
      "dumbbells" := ["DB side bend", "Weighted sit-up", "Russian twist"],
      "gym" := ["Cable crunch", "Hanging knee raise", "Ab rollout"]],
    "fullbody" := map[
      "bodyweight" := ["Burpee", "Bear crawl", "Lunge to knee drive"],
      "dumbbells" := ["DB thruster", "DB snatch (alt)", "DB clean"],
      "gym" := ["Barbell complex", "Kettlebell swing", "Row + push-up circuit"]]
  ]

  /** `EXERCISES[group]?.[equipment] || []`. */
  function Lookup(group: string, equipment: string): seq<string> {
    if group in Catalogue && equipment in Catalogue[group] then Catalogue[group][equipment] else []
  }

  // ---------------------------------------------------------------------
  // Split and groups

  /** `makeSplit`: the split tags of each training day. */
  function MakeSplit(days: int): (split: seq<seq<string>>)
    ensures |split| == if 3 <= days <= 6 then days else 1
    ensures !(3 <= days <= 6) ==> split == [["fullbody"]]
    ensures forall i :: 0 <= i < |split| ==> |split[i]| >= 1
  {
    match days
    case 3 => [["push"], ["pull"], ["legs"]]
    case 4 => [["upper"], ["lower"], ["upper"], ["lower"]]
    case 5 => [["chest", "triceps"], ["back", "biceps"], ["legs"], ["shoulders", "core"], ["fullbody"]]
    case 6 => [["push"], ["pull"], ["legs"], ["push"], ["pull"], ["legs"]]
    case _ => [["fullbody"]]
  }

  /** `resolveGroups`: the muscle groups a split tag stands for. */
  function ResolveGroups(tag: string): (groups: seq<string>)
    ensures |groups| >= 1 && forall i :: 0 <= i < |groups| ==> groups[i] in Catalogue
    ensures tag in Catalogue ==> groups == [tag]
    ensures tag !in Catalogue && tag != "push" && tag != "pull" && tag != "upper" && tag != "lower"
            ==> groups == ["fullbody"]
  {
    if tag == "push" then ["chest", "shoulders", "arms"]
    else if tag == "pull" then ["back", "arms"]
    else if tag == "upper" then ["chest", "back", "shoulders", "arms"]
    else if tag == "lower" then ["legs", "core"]
    else if tag == "chest" then ["chest"]
    else if tag == "back" then ["back"]
    else if tag == "legs" then ["legs"]
    else if tag == "shoulders" then ["shoulders"]
    else if tag == "arms" then ["arms"]
    else if tag == "core" then ["core"]
    else if tag == "fullbody" then ["fullbody"]
    else ["fullbody"]
  }

  /** As written, the 5-day split's "triceps" and "biceps" tags are not
      among the resolved tags, so those days train the full body rather
      than the arms. */
  lemma FiveDaySplitArmTags()
    ensures MakeSplit(5)[0] == ["chest", "triceps"] && MakeSplit(5)[1] == ["back", "biceps"]
    ensures ResolveGroups("triceps") == ["fullbody"] && ResolveGroups("biceps") == ["fullbody"]
  {
  }

  /** `dayTags.flatMap(resolveGroups)`. */
  function ResolveAll(tags: seq<string>): (groups: seq<string>)
    ensures forall i :: 0 <= i < |groups| ==> groups[i] in Catalogue
  {
    if |tags| == 0 then [] else ResolveAll(tags[..|tags| - 1]) + ResolveGroups(tags[|tags| - 1])
  }

  /** Position of the first occurrence of `x` in `s`. */
  function FirstIndex(s: seq<string>, x: string): (i: nat)
    requires x in s
    ensures i < |s| && s[i] == x && forall j :: 0 <= j < i ==> s[j] != x
  {
    if s[0] == x then 0 else 1 + FirstIndex(s[1..], x)
  }

  predicate Distinct(s: seq<string>) {
    forall i, j :: 0 <= i < j < |s| ==> s[i] != s[j]
  }

  /** `[...new Set(s)]`: each element once, in the order of its first
      occurrence. */
  function Dedup(s: seq<string>): (u: seq<string>)
    ensures Distinct(u)
    ensures forall x :: x in u <==> x in s
    ensures forall i, j :: 0 <= i < j < |u| ==> FirstIndex(s, u[i]) < FirstIndex(s, u[j])
  {
    if |s| == 0 then []
    else
      var front := s[..|s| - 1];
      var u := Dedup(front);
      var last := s[|s| - 1];
      FirstIndexOfPrefix(s, front);
      if last in u then u
      else
        assert last !in front;
        assert FirstIndex(s, last) == |s| - 1;
        u + [last]
  }

  /** First occurrences in a prefix stay first occurrences in the whole. */
  lemma FirstIndexOfPrefix(s: seq<string>, front: seq<string>)
    requires |s| >= 1 && front == s[..|s| - 1]
    ensures forall x :: x in front ==> x in s && FirstIndex(s, x) == FirstIndex(front, x)
  {
    forall x | x in front
      ensures x in s && FirstIndex(s, x) == FirstIndex(front, x)
    {
      var i := FirstIndex(front, x);
      assert s[i] == x;
      var k := FirstIndex(s, x);
      assert k <= i;
      assert front[k] == x;
    }
  }

  // ---------------------------------------------------------------------
  // Plans

  /** Sets and repetitions of every exercise of a plan. */
  datatype Prescription = Prescription(sets: nat, reps: string)

  /** The prescription for a goal: "muscle" 4 x 8-12, "fatloss" 3 x 12-15,
      "endurance" 3 x 15-20, anything else 3 x 10-12 (ranges written with an
      en dash). */
  function SetsReps(goal: string): (p: Prescription)
    ensures p.sets == if goal == "muscle" then 4 else 3
    ensures goal == "muscle" ==> p.reps == "8\U{2013}12"
    ensures goal == "fatloss" ==> p.reps == "12\U{2013}15"
    ensures goal == "endurance" ==> p.reps == "15\U{2013}20"
    ensures goal != "muscle" && goal != "fatloss" && goal != "endurance" ==> p.reps == "10\U{2013}12"
  {
    if goal == "muscle" then Prescription(4, "8\U{2013}12")
    else if goal == "fatloss" then Prescription(3, "12\U{2013}15")
    else if goal == "endurance" then Prescription(3, "15\U{2013}20")
    else Prescription(3, "10\U{2013}12")
  }

  datatype Exercise = Exercise(name: string, group: string, sets: nat, reps: string)

  datatype PlanDay = PlanDay(day: string, tags: string, exercises: seq<Exercise>)

  /** "Day n" for the day at position `idx`. */
  function DayLabel(idx: nat): string {
    "Day " + NatToString(idx + 1)
  }

  /** `list.slice(0, n)`. */
  function Slice(list: seq<string>, n: nat): seq<string> {
    if |list| <= n then list else list[..n]
  }

  /** The first three catalogue exercises of a group, with the prescription. */
  function GroupExercises(group: string, equipment: string, p: Prescription): (es: seq<Exercise>)
    ensures |es| == if |Lookup(group, equipment)| < 3 then |Lookup(group, equipment)| else 3
    ensures forall i :: 0 <= i < |es| ==>
              es[i] == Exercise(Lookup(group, equipment)[i], group, p.sets, p.reps)
  {
    Prescribe(Slice(Lookup(group, equipment), 3), group, p)
  }

  /** Each listed exercise of a group with the goal's sets and reps. */
  function Prescribe(list: seq<string>, group: string, p: Prescription): (es: seq<Exercise>)
    ensures |es| == |list|
    ensures forall i :: 0 <= i < |es| ==> es[i] == Exercise(list[i], group, p.sets, p.reps)
  {
    seq(|list|, i requires 0 <= i < |list| => Exercise(list[i], group, p.sets, p.reps))
  }

  /** The exercises of a day: each group's exercises, group after group. */
  function DayExercises(groups: seq<string>, equipment: string, p: Prescription): seq<Exercise> {
    if |groups| == 0 then []
    else DayExercises(groups[..|groups| - 1], equipment, p)
         + GroupExercises(groups[|groups| - 1], equipment, p)
  }

  /** The groups a day of the split trains, each once. */
  function DayGroups(tags: seq<string>): seq<string> {
    Dedup(ResolveAll(tags))
  }

  /** Every exercise of a day carries the goal's prescription and belongs
      to one of the day's groups. */
  lemma {:induction false} DayExercisesFacts(groups: seq<string>, equipment: string, p: Prescription)
    ensures forall e :: e in DayExercises(groups, equipment, p) ==>
              e.sets == p.sets && e.reps == p.reps && e.group in groups
  {
    if |groups| > 0 {
      DayExercisesFacts(groups[..|groups| - 1], equipment, p);
    }
  }

  function CountGroup(es: seq<Exercise>, group: string): nat {
    if |es| == 0 then 0
    else CountGroup(es[..|es| - 1], group) + (if es[|es| - 1].group == group then 1 else 0)
  }

  lemma {:induction false} CountGroupAppend(a: seq<Exercise>, b: seq<Exercise>, group: string)
    ensures CountGroup(a + b, group) == CountGroup(a, group) + CountGroup(b, group)
    decreases |b|
  {
    if |b| > 0 {
      assert (a + b)[..|a + b| - 1] == a + b[..|b| - 1];
      assert (a + b)[|a + b| - 1] == b[|b| - 1];
      CountGroupAppend(a, b[..|b| - 1], group);
    } else {
      assert a + b == a;
    }
  }

  lemma {:induction false} CountOtherGroup(es: seq<Exercise>, group: string)
    requires forall i :: 0 <= i < |es| ==> es[i].group != group
    ensures CountGroup(es, group) == 0
  {
    if |es| > 0 {
      CountOtherGroup(es[..|es| - 1], group);
    }
  }

  lemma {:induction false} CountBound(es: seq<Exercise>, group: string)
    ensures CountGroup(es, group) <= |es|
  {
    if |es| > 0 {
      CountBound(es[..|es| - 1], group);
    }
  }

  /** When each group is listed once, a day holds at most three exercises
      of any group. */
  lemma {:induction false} AtMostThreePerGroup(groups: seq<string>, equipment: string, p: Prescription, group: string)
    requires Distinct(groups)
    ensures CountGroup(DayExercises(groups, equipment, p), group) <= 3
  {
    if |groups| > 0 {
      var front := groups[..|groups| - 1];
      var last := groups[|groups| - 1];
      var es := GroupExercises(last, equipment, p);
      CountGroupAppend(DayExercises(front, equipment, p), es, group);
      CountBound(es, group);
      if last == group {
        assert group !in front;
        NoExercisesOfAbsentGroup(front, equipment, p, group);
      } else {
        CountOtherGroup(es, group);
        AtMostThreePerGroup(front, equipment, p, group);
      }
    }
  }

  lemma NoExercisesOfAbsentGroup(groups: seq<string>, equipment: string, p: Prescription, group: string)
    requires group !in groups
    ensures CountGroup(DayExercises(groups, equipment, p), group) == 0
  {
    var es := DayExercises(groups, equipment, p);
    DayExercisesFacts(groups, equipment, p);
    assert forall i :: 0 <= i < |es| ==> es[i] in es;
    CountOtherGroup(es, group);
  }

  /** Equipment outside the catalogue gives days without exercises. */
  lemma {:induction false} UnknownEquipmentGivesEmptyDays(groups: seq<string>, equipment: string, p: Prescription)
    requires equipment != "bodyweight" && equipment != "dumbbells" && equipment != "gym"
    ensures DayExercises(groups, equipment, p) == []
  {
    if |groups| > 0 {
      UnknownEquipmentGivesEmptyDays(groups[..|groups| - 1], equipment, p);
      UnknownEquipmentLookup(groups[|groups| - 1], equipment);
    }
  }

  /** The catalogue lists exercises for three kinds of equipment only. */
  lemma UnknownEquipmentLookup(group: string, equipment: string)
    requires equipment != "bodyweight" && equipment != "dumbbells" && equipment != "gym"
    ensures Lookup(group, equipment) == []
  {
  }

  /** `generatePlan`: one entry per split day, in order, labelled "Day 1"
      to "Day n", listing the day's tags and the exercises of its groups. */
  method GeneratePlan(goal: string, days: int, equipment: string) returns (plan: seq<PlanDay>)
    ensures var split := MakeSplit(days);
            && |plan| == |split|
            && forall i :: 0 <= i < |plan| ==>
                 plan[i] == PlanDay(DayLabel(i), Join(split[i], ", "),
                                    DayExercises(DayGroups(split[i]), equipment, SetsReps(goal)))
  {
    plan := PlanDays(MakeSplit(days), equipment, SetsReps(goal));
  }

  /** The loop of `generatePlan` over the days of a split. */
  method PlanDays(split: seq<seq<string>>, equipment: string, p: Prescription) returns (plan: seq<PlanDay>)
    ensures |plan| == |split|
    ensures forall i :: 0 <= i < |plan| ==>
              plan[i] == PlanDay(DayLabel(i), Join(split[i], ", "), DayExercises(DayGroups(split[i]), equipment, p))
  {
    plan := [];
    for idx := 0 to |split|
      invariant |plan| == idx
      invariant forall i :: 0 <= i < idx ==>
                  plan[i] == PlanDay(DayLabel(i), Join(split[i], ", "), DayExercises(DayGroups(split[i]), equipment, p))
    {
      var uniqueGroups := DayGroups(split[idx]);
      var exercises := DayPlan(uniqueGroups, equipment, p);
      plan := plan + [PlanDay(DayLabel(idx), Join(split[idx], ", "), exercises)];
    }
  }

  /** The `forEach` over a day's groups, pushing each group's exercises. */
  method DayPlan(groups: seq<string>, equipment: string, p: Prescription) returns (exercises: seq<Exercise>)
    ensures exercises == DayExercises(groups, equipment, p)
  {
    exercises := [];
    for gi := 0 to |groups|
      invariant exercises == DayExercises(groups[..gi], equipment, p)
    {
      exercises := PushGroup(exercises, Slice(Lookup(groups[gi], equipment), 3), groups[gi], p);
      assert groups[..gi + 1][..gi] == groups[..gi];
    }
    assert groups[..|groups|] == groups;
  }

  /** The inner `forEach`: one push per listed exercise of the group. */
  method PushGroup(before: seq<Exercise>, list: seq<string>, group: string, p: Prescription)
    returns (exercises: seq<Exercise>)
    ensures exercises == before + Prescribe(list, group, p)
  {
    exercises := before;
    for k := 0 to |list|
      invariant exercises == before + Prescribe(list, group, p)[..k]
    {
      assert Prescribe(list, group, p)[..k + 1] == Prescribe(list, group, p)[..k] + [Exercise(list[k], group, p.sets, p.reps)];
      exercises := exercises + [Exercise(list[k], group, p.sets, p.reps)];
    }
  }
}
