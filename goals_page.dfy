/** The goals page: the all / active / completed filter, the summary counts
    and the completion toggle that rewrites the page's list of goals. */
module GoalsPage {
  import opened Common
  import opened Entities

  /** The selection behind `filteredGoals` for one goal. */
  predicate ShownUnder(filter: string, g: Goal) {
    if filter == "active" then !g.completed
    else if filter == "completed" then g.completed
    else true
  }

  /** `filteredGoals`: "active" keeps the open goals, "completed" the
      finished ones, anything else keeps every goal; order is kept. */
  function FilterGoals(goals: seq<Goal>, filter: string): (r: seq<Goal>)
    ensures IsSubsequence(r, goals)
    ensures filter == "active" ==>
      (forall i :: 0 <= i < |r| ==> !r[i].completed) &&
      (forall i :: 0 <= i < |goals| && !goals[i].completed ==> goals[i] in r)
    ensures filter == "completed" ==>
      (forall i :: 0 <= i < |r| ==> r[i].completed) &&
      (forall i :: 0 <= i < |goals| && goals[i].completed ==> goals[i] in r)
    ensures filter != "active" && filter != "completed" ==> r == goals
  {
    var keep := (g: Goal) => ShownUnder(filter, g);
    if filter != "active" && filter != "completed" then
      FilterAll(goals, keep);
      Filter(goals, keep)
    else
      Filter(goals, keep)
  }

  datatype GoalStats = GoalStats(total: nat, completed: nat, active: nat, highPriority: nat)

  /** `getGoalStats`. */
  function GetGoalStats(goals: seq<Goal>): (st: GoalStats)
    ensures st.total == |goals|
    ensures st.active == |FilterGoals(goals, "active")|
    ensures st.completed == |FilterGoals(goals, "completed")|
    ensures st.highPriority == |Filter(FilterGoals(goals, "active"), (g: Goal) => g.priority == "high")|
  {
    FilterCongruent(goals, (g: Goal) => !g.completed, (g: Goal) => ShownUnder("active", g));
    FilterCongruent(goals, (g: Goal) => g.completed, (g: Goal) => ShownUnder("completed", g));
    FilterFilter(goals, (g: Goal) => ShownUnder("active", g), (g: Goal) => g.priority == "high",
                 (g: Goal) => !g.completed && g.priority == "high");
    GoalStats(
      |goals|,
      |Filter(goals, (g: Goal) => g.completed)|,
      |Filter(goals, (g: Goal) => !g.completed)|,
      |Filter(goals, (g: Goal) => !g.completed && g.priority == "high")|)
  }

  /** Every goal is either active or completed, and the high-priority count
      only counts active goals. */
  lemma GoalStatsConsistent(goals: seq<Goal>)
    ensures var st := GetGoalStats(goals);
      st.active + st.completed == st.total && st.highPriority <= st.active
  {
    FilterPartition(goals, (g: Goal) => g.completed, (g: Goal) => !g.completed);
    FilterCountMonotone(goals, (g: Goal) => !g.completed && g.priority == "high", (g: Goal) => !g.completed);
  }

  /** The stats agree with the filter: the active and completed counts are
      the lengths of the "active" and "completed" views. */
  lemma GoalStatsMatchFilter(goals: seq<Goal>)
    ensures GetGoalStats(goals).active == |FilterGoals(goals, "active")|
    ensures GetGoalStats(goals).completed == |FilterGoals(goals, "completed")|
  {
    FilterCongruent(goals, (g: Goal) => !g.completed, (g: Goal) => ShownUnder("active", g));
    FilterCongruent(goals, (g: Goal) => g.completed, (g: Goal) => ShownUnder("completed", g));
  }

  /** One goal after its toggle: the flag flips; completing sets the
      progress to 100, reopening keeps it. */
  function Toggled(g: Goal): Goal {
    g.(completed := !g.completed, progress := if g.completed then g.progress else 100)
  }

  /** `prev.map(goal => goal.id === goalId ? toggled : goal)`. */
  function ToggleInList(goals: seq<Goal>, goalId: Id): (r: seq<Goal>)
    ensures |r| == |goals|
  {
    seq(|goals|, i requires 0 <= i < |goals| => if goals[i].id == goalId then Toggled(goals[i]) else goals[i])
  }

  /** The toggle flips `completed` of the matching goal, sets its progress
      to 100 when it becomes completed and keeps it when it is reopened;
      every other field and every other goal is unchanged. */
  lemma ToggleInListEffect(goals: seq<Goal>, goalId: Id, i: nat)
    requires i < |goals|
    ensures var r := ToggleInList(goals, goalId);
      if goals[i].id == goalId then
        r[i].completed == !goals[i].completed
        && (r[i].completed ==> r[i].progress == 100)
        && (!r[i].completed ==> r[i].progress == goals[i].progress)
        && r[i].(completed := goals[i].completed, progress := goals[i].progress) == goals[i]
      else r[i] == goals[i]
  {
  }

  /** An id no goal has leaves the list as it was. */
  lemma ToggleUnknownId(goals: seq<Goal>, goalId: Id)
    requires forall i :: 0 <= i < |goals| ==> goals[i].id != goalId
    ensures ToggleInList(goals, goalId) == goals
  {
  }

  /** Toggling twice restores every completion flag. */
  lemma ToggleTwiceFlags(goals: seq<Goal>, goalId: Id)
    ensures var r := ToggleInList(ToggleInList(goals, goalId), goalId);
      |r| == |goals| && forall i :: 0 <= i < |goals| ==> r[i].completed == goals[i].completed
  {
  }

  /** The body of the PATCH request the toggle sends. */
  datatype GoalPatch = GoalPatch(completed: bool, progress: int)

  /** The state of the goals page. */
  class GoalsView {
    var goals: seq<Goal>

    constructor (initial: seq<Goal>)
      ensures goals == initial
    {
      goals := initial;
    }

    /** `toggleComplete`: find the goal, send the PATCH for the flipped flag
        (progress 100 when completing), and rewrite the list only when the
        server answers ok. `serverOk` is that answer; a failed request is
        caught and changes nothing either. */
    method ToggleComplete(goalId: Id, serverOk: bool) returns (sent: Option<GoalPatch>)
      modifies this
      ensures match FindFirst(old(goals), (g: Goal) => g.id == goalId)
        case None => sent == None
        case Some(i) => sent == Some(GoalPatch(!old(goals)[i].completed,
                                               if old(goals)[i].completed then old(goals)[i].progress else 100))
      ensures goals == if sent.Some? && serverOk then ToggleInList(old(goals), goalId) else old(goals)
    {
      var found := FindFirst(goals, (g: Goal) => g.id == goalId);
      if found.None? {
        return None;
      }
      var goal := goals[found.value];
      sent := Some(GoalPatch(!goal.completed, if goal.completed then goal.progress else 100));
      if serverOk {
        goals := ToggleInList(goals, goalId);
      }
    }
  }
}
