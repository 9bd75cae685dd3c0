/** The Goals screen (src/pages/Goals.tsx): a list of goals, at most one of
    them marked active (the one the chat is bound to), and the create-goal
    form. */
module GoalList {
  import opened JsText

  datatype Goal = Goal(
    id: string,
    title: string,
    description: string,
    isActive: bool,
    progress: nat,
    tasksCompleted: nat,
    totalTasks: nat)

  /** The create-goal form: `newGoal`. */
  datatype GoalForm = GoalForm(title: string, description: string)

  /** The list the screen starts from (its progress figures are constants). */
  function MockGoals(): seq<Goal> {
    [ Goal("1", "Learn TypeScript",
           "Master TypeScript fundamentals and advanced patterns to improve code quality",
           true, 65, 8, 12),
      Goal("2", "Build Workout Habit",
           "Exercise 30 minutes daily, 5 days per week",
           false, 40, 6, 15),
      Goal("3", "Read 2 Books per Month",
           "Develop consistent reading habit for personal growth",
           false, 80, 16, 20) ]
  }

  /** No two goals share an id. */
  predicate UniqueIds(goals: seq<Goal>) {
    forall i, j :: 0 <= i < j < |goals| ==> goals[i].id != goals[j].id
  }

  /** At most one goal is active. */
  predicate AtMostOneActive(goals: seq<Goal>) {
    forall i, j :: 0 <= i < j < |goals| ==> !(goals[i].isActive && goals[j].isActive)
  }

  /** The id of the active goal, if there is one. */
  predicate IsActiveId(goals: seq<Goal>, id: string) {
    exists i :: 0 <= i < |goals| && goals[i].isActive && goals[i].id == id
  }

  /** `goals.map(goal => ({ ...goal, isActive: goal.id === goalId }))` */
  function Selected(goals: seq<Goal>, goalId: string): (r: seq<Goal>)
    ensures |r| == |goals|
    ensures forall i :: 0 <= i < |goals| ==> r[i] == goals[i].(isActive := goals[i].id == goalId)
  {
    if goals == [] then []
    else [goals[0].(isActive := goals[0].id == goalId)] + Selected(goals[1..], goalId)
  }

  /** Selecting a goal whose id is unique makes it the one active goal; an id
      no goal has leaves none active. */
  lemma SelectedActivatesExactly(goals: seq<Goal>, goalId: string)
    requires UniqueIds(goals)
    ensures AtMostOneActive(Selected(goals, goalId))
    ensures UniqueIds(Selected(goals, goalId))
    ensures forall i :: 0 <= i < |goals| ==> (Selected(goals, goalId)[i].isActive <==> goals[i].id == goalId)
    ensures forall id :: IsActiveId(Selected(goals, goalId), id) <==> id == goalId && exists i :: 0 <= i < |goals| && goals[i].id == goalId
  {
    var r := Selected(goals, goalId);
    forall id | IsActiveId(r, id)
      ensures id == goalId
    {
      var i :| 0 <= i < |r| && r[i].isActive && r[i].id == id;
    }
    forall id | id == goalId && exists i :: 0 <= i < |goals| && goals[i].id == goalId
      ensures IsActiveId(r, id)
    {
      var i :| 0 <= i < |goals| && goals[i].id == goalId;
      assert r[i].isActive && r[i].id == id;
    }
  }

  /** Only the last selection matters: choosing `x` and then `y` is choosing `y`. */
  lemma {:induction false} SelectedTwice(goals: seq<Goal>, x: string, y: string)
    ensures Selected(Selected(goals, x), y) == Selected(goals, y)
  {
    if goals != [] {
      SelectedTwice(goals[1..], x, y);
      assert Selected(goals, x)[1..] == Selected(goals[1..], x);
    }
  }

  /** The goal `handleCreateGoal` builds from the form. */
  function NewGoal(id: string, form: GoalForm): (g: Goal)
    ensures !g.isActive && g.progress == 0 && g.tasksCompleted == 0 && g.totalTasks == 0
    ensures g.id == id && g.title == form.title && g.description == form.description
  {
    Goal(id, form.title, form.description, false, 0, 0, 0)
  }

  /** Putting an inactive goal in front changes neither which goal is active
      nor whether at most one is. */
  lemma PrependInactiveKeepsActive(goals: seq<Goal>, g: Goal)
    requires !g.isActive
    ensures AtMostOneActive([g] + goals) <==> AtMostOneActive(goals)
    ensures forall id :: IsActiveId([g] + goals, id) <==> IsActiveId(goals, id)
  {
    var r := [g] + goals;
    assert forall i :: 0 <= i < |goals| ==> r[i + 1] == goals[i];
    forall id | IsActiveId(r, id)
      ensures IsActiveId(goals, id)
    {
      var i :| 0 <= i < |r| && r[i].isActive && r[i].id == id;
      assert goals[i - 1] == r[i];
    }
    if AtMostOneActive(goals) {
      forall i, j | 0 <= i < j < |r|
        ensures !(r[i].isActive && r[j].isActive)
      {
        if i > 0 {
          assert r[i] == goals[i - 1] && r[j] == goals[j - 1];
        }
      }
    }
  }

  /** A fresh id keeps the ids unique. */
  lemma PrependFreshKeepsUnique(goals: seq<Goal>, g: Goal)
    requires UniqueIds(goals)
    requires forall i :: 0 <= i < |goals| ==> goals[i].id != g.id
    ensures UniqueIds([g] + goals)
  {
    var r := [g] + goals;
    forall i, j | 0 <= i < j < |r|
      ensures r[i].id != r[j].id
    {
      assert r[j] == goals[j - 1];
      if i > 0 {
        assert r[i] == goals[i - 1];
      }
    }
  }

  /** The starting list has unique ids and exactly one active goal, "1". */
  lemma MockGoalsValid()
    ensures UniqueIds(MockGoals()) && AtMostOneActive(MockGoals())
    ensures forall id :: IsActiveId(MockGoals(), id) <==> id == "1"
  {
    var gs := MockGoals();
    assert gs[0].id[0] == '1' && gs[1].id[0] == '2' && gs[2].id[0] == '3';
    assert IsActiveId(gs, "1") by {
      assert gs[0].isActive && gs[0].id == "1";
    }
  }

  /** The screen's state: `goals`, `newGoal` and the create dialog's
      `isCreateOpen`. */
  class Goals {
    var goals: seq<Goal>
    var newGoal: GoalForm
    var isCreateOpen: bool

    /** Goal ids are unique and at most one goal is active. */
    ghost predicate Valid()
      reads this
    {
      UniqueIds(goals) && AtMostOneActive(goals)
    }

    constructor ()
      ensures Valid()
      ensures goals == MockGoals() && newGoal == GoalForm("", "") && !isCreateOpen
    {
      goals := MockGoals();
      newGoal := GoalForm("", "");
      isCreateOpen := false;
      MockGoalsValid();
    }

    /** `handleGoalSelect(goalId)`: the goal with that id becomes the active
        one and every other goal becomes inactive; nothing else changes. */
    method HandleGoalSelect(goalId: string)
      requires Valid()
      modifies this
      ensures Valid()
      ensures goals == Selected(old(goals), goalId)
      ensures forall id :: IsActiveId(goals, id) <==> id == goalId && exists i :: 0 <= i < |goals| && goals[i].id == goalId
      ensures newGoal == old(newGoal) && isCreateOpen == old(isCreateOpen)
    {
      SelectedActivatesExactly(goals, goalId);
      goals := Selected(goals, goalId);
    }

    /** `handleCreateGoal()`, with `freshId` standing for
        `Date.now().toString()`: a blank title changes nothing; otherwise
        an inactive, zero-progress goal goes in front and the form is reset. */
    method HandleCreateGoal(freshId: string)
      requires Valid()
      requires forall i :: 0 <= i < |goals| ==> goals[i].id != freshId
      modifies this
      ensures Valid()
      ensures forall id :: IsActiveId(goals, id) <==> IsActiveId(old(goals), id)
      ensures IsBlank(old(newGoal.title)) ==>
        goals == old(goals) && newGoal == old(newGoal) && isCreateOpen == old(isCreateOpen)
      ensures !IsBlank(old(newGoal.title)) ==>
        && goals == [NewGoal(freshId, old(newGoal))] + old(goals)
        && newGoal == GoalForm("", "")
        && !isCreateOpen
    {
      if Trim(newGoal.title) != "" {
        var goal := NewGoal(freshId, newGoal);
        PrependInactiveKeepsActive(goals, goal);
        PrependFreshKeepsUnique(goals, goal);
        goals := [goal] + goals;
        newGoal := GoalForm("", "");
        isCreateOpen := false;
      }
    }

    /** Typing into the title field. */
    method SetTitle(title: string)
      modifies this
      ensures newGoal == old(newGoal).(title := title)
      ensures goals == old(goals) && isCreateOpen == old(isCreateOpen)
    {
      newGoal := newGoal.(title := title);
    }

    /** Typing into the description field. */
    method SetDescription(description: string)
      modifies this
      ensures newGoal == old(newGoal).(description := description)
      ensures goals == old(goals) && isCreateOpen == old(isCreateOpen)
    {
      newGoal := newGoal.(description := description);
    }

    /** Opening or closing the create dialog. */
    method SetCreateOpen(open: bool)
      modifies this
      ensures isCreateOpen == open
      ensures goals == old(goals) && newGoal == old(newGoal)
    {
      isCreateOpen := open;
    }
  }
}
