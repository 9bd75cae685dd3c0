/** The Tasks screen (src/pages/Tasks.tsx): an ordered list of tasks shared by
    all goals, the goal whose tasks are shown, the rule that the shown goal
    always has a blank row to type into, and the completion percentage. */
module TaskBoard {
  import opened JsText
  import opened Seqs
  import opened Percent

  datatype Task = Task(id: string, goalId: string, text: string, completed: bool)

  /** The two partial updates the screen merges into a task: `{ text }` and
      `{ completed }`. */
  datatype Patch = SetText(text: string) | SetCompleted(completed: bool)

  /** `{ ...task, ...updates }`: the field the patch carries is overwritten,
      every other field is kept. */
  function Apply(t: Task, p: Patch): (u: Task)
    ensures u.id == t.id && u.goalId == t.goalId
    ensures p.SetText? ==> u.text == p.text && u.completed == t.completed
    ensures p.SetCompleted? ==> u.completed == p.completed && u.text == t.text
  {
    match p
    case SetText(s) => t.(text := s)
    case SetCompleted(b) => t.(completed := b)
  }

  /** `task.text.trim() === ''` */
  predicate IsBlankTask(t: Task) {
    IsBlank(t.text)
  }

  /** `task.text.trim()` is truthy. */
  predicate HasText(t: Task) {
    !IsBlank(t.text)
  }

  /** Membership test of the "completed" list: `t.completed && t.text.trim()`. */
  predicate IsDone(t: Task) {
    t.completed && HasText(t)
  }

  /** Membership test of the "incomplete" list: `!t.completed`. */
  predicate IsOpen(t: Task) {
    !t.completed
  }

  /** The row `addNewTask` appends. */
  function Placeholder(id: string, goalId: string): (t: Task)
    ensures t.id == id && t.goalId == goalId
    ensures IsBlankTask(t) && IsOpen(t)
  {
    Task(id, goalId, "", false)
  }

  /** The list the screen starts from. */
  function MockTasks(): seq<Task> {
    [ Task("1", "1", "Complete TypeScript handbook chapter 1", true),
      Task("2", "1", "Build a simple TypeScript project", false),
      Task("3", "1", "Practice generic types exercises", false),
      Task("4", "1", "", false) ]
  }

  /** `tasks.filter(t => t.goalId === goalId)`: the tasks of one goal. */
  function GoalTasks(tasks: seq<Task>, goalId: string): (r: seq<Task>)
    ensures forall i :: 0 <= i < |r| ==> r[i] in tasks && r[i].goalId == goalId
    ensures forall i :: 0 <= i < |tasks| && tasks[i].goalId == goalId ==> tasks[i] in r
  {
    FilterMembers(tasks, (t: Task) => t.goalId == goalId);
    Filter(tasks, (t: Task) => t.goalId == goalId)
  }

  /** The tasks of a goal keep their order in the whole list: a task added at
      the end of the list shows up at the end of its goal's list, and nowhere
      else. */
  lemma GoalTasksOfAppend(tasks: seq<Task>, t: Task, goalId: string)
    ensures GoalTasks(tasks + [t], goalId)
         == GoalTasks(tasks, goalId) + (if t.goalId == goalId then [t] else [])
  {
    FilterConcat(tasks, [t], (t: Task) => t.goalId == goalId);
  }

  /** `tasks.map(task => task.id === taskId ? { ...task, ...updates } : task)` */
  function Updated(tasks: seq<Task>, taskId: string, p: Patch): (r: seq<Task>)
    ensures |r| == |tasks|
    ensures forall i :: 0 <= i < |tasks| && tasks[i].id == taskId ==> r[i] == Apply(tasks[i], p)
    ensures forall i :: 0 <= i < |tasks| && tasks[i].id != taskId ==> r[i] == tasks[i]
  {
    if tasks == [] then []
    else [if tasks[0].id == taskId then Apply(tasks[0], p) else tasks[0]] + Updated(tasks[1..], taskId, p)
  }

  /** An update never changes which task has which id and goal. */
  lemma UpdatedKeepsIdentity(tasks: seq<Task>, taskId: string, p: Patch)
    ensures forall i :: 0 <= i < |tasks| ==>
      Updated(tasks, taskId, p)[i].id == tasks[i].id &&
      Updated(tasks, taskId, p)[i].goalId == tasks[i].goalId
  {
  }

  /** `tasks.filter(task => task.id !== taskId)` */
  function Without(tasks: seq<Task>, taskId: string): (r: seq<Task>)
    ensures forall i :: 0 <= i < |r| ==> r[i] in tasks && r[i].id != taskId
    ensures forall i :: 0 <= i < |tasks| && tasks[i].id != taskId ==> tasks[i] in r
  {
    FilterMembers(tasks, (t: Task) => t.id != taskId);
    Filter(tasks, (t: Task) => t.id != taskId)
  }

  /** Deleting splits over any cut of the list, so the tasks that remain stay
      in their relative order; deleting an id no task has changes nothing. */
  lemma WithoutKeepsOrder(a: seq<Task>, b: seq<Task>, taskId: string)
    ensures Without(a + b, taskId) == Without(a, taskId) + Without(b, taskId)
    ensures (forall i :: 0 <= i < |a| ==> a[i].id != taskId) ==> Without(a, taskId) == a
  {
    FilterConcat(a, b, (t: Task) => t.id != taskId);
    FilterKeepsAll(a, (t: Task) => t.id != taskId);
  }

  /** The goal's list has a row whose text is blank. */
  predicate HasBlankTask(goalTasks: seq<Task>) {
    exists i :: 0 <= i < |goalTasks| && IsBlankTask(goalTasks[i])
  }

  /** The list after the placeholder effect: when the goal has no blank row
      (`emptyTasks.length === 0`), one is appended for it. */
  function WithPlaceholder(tasks: seq<Task>, goalId: string, freshId: string): (r: seq<Task>)
    ensures HasBlankTask(GoalTasks(r, goalId))
    ensures HasBlankTask(GoalTasks(tasks, goalId)) ==> r == tasks
    ensures !HasBlankTask(GoalTasks(tasks, goalId)) ==> r == tasks + [Placeholder(freshId, goalId)]
  {
    var emptyTasks := Filter(GoalTasks(tasks, goalId), IsBlankTask);
    FilterEmpty(GoalTasks(tasks, goalId), IsBlankTask);
    if |emptyTasks| == 0 then
      var r := tasks + [Placeholder(freshId, goalId)];
      GoalTasksOfAppend(tasks, Placeholder(freshId, goalId), goalId);
      assert IsBlankTask(GoalTasks(r, goalId)[|GoalTasks(r, goalId)| - 1]);
      r
    else
      tasks
  }

  /** The percentage shown in the progress bar:
      `Math.round(completed / Math.max(completed + nonBlankIncomplete, 1) * 100)`. */
  function CompletionRate(goalTasks: seq<Task>): (r: nat)
    ensures r <= 100
  {
    var completedTasks := Filter(goalTasks, IsDone);
    var incompleteTasks := Filter(goalTasks, IsOpen);
    var denominator := |completedTasks| + |Filter(incompleteTasks, HasText)|;
    var d := if denominator > 1 then denominator else 1;
    RoundedPercentAtMost100(|completedTasks|, d);
    RoundedPercent(|completedTasks|, d)
  }

  /** The denominator counts every task with text once: a task with text is
      either completed or incomplete. */
  lemma {:induction false} CountsSplitByCompletion(goalTasks: seq<Task>)
    ensures |Filter(goalTasks, IsDone)| + |Filter(Filter(goalTasks, IsOpen), HasText)|
         == |Filter(goalTasks, HasText)|
  {
    if goalTasks != [] {
      CountsSplitByCompletion(goalTasks[1..]);
    }
  }

  /** The rate is (completed tasks with text) out of (tasks with text), or 0
      when no task has text; blank rows count in neither. */
  lemma CompletionRateIsShareOfNonBlank(goalTasks: seq<Task>)
    ensures var done, nonBlank := |Filter(goalTasks, IsDone)|, |Filter(goalTasks, HasText)|;
      CompletionRate(goalTasks) == RoundedPercent(done, if nonBlank > 1 then nonBlank else 1)
  {
    CountsSplitByCompletion(goalTasks);
  }

  /** Dropping the blank rows does not change the rate. */
  lemma CompletionRateIgnoresBlank(goalTasks: seq<Task>)
    ensures CompletionRate(Filter(goalTasks, HasText)) == CompletionRate(goalTasks)
  {
    var nonBlank := Filter(goalTasks, HasText);
    CompletionRateIsShareOfNonBlank(goalTasks);
    CompletionRateIsShareOfNonBlank(nonBlank);
    FilterKeepsAll(nonBlank, HasText);
    FilterCountMono(nonBlank, nonBlank, IsDone, IsDone);
    DoneAmongNonBlank(goalTasks);
  }

  /** Filtering the tasks with text first leaves the completed ones alone. */
  lemma {:induction false} DoneAmongNonBlank(goalTasks: seq<Task>)
    ensures Filter(Filter(goalTasks, HasText), IsDone) == Filter(goalTasks, IsDone)
  {
    if goalTasks != [] {
      DoneAmongNonBlank(goalTasks[1..]);
    }
  }

  /** With no completed task that has text, the rate is 0 (in particular when
      every row is blank). */
  lemma CompletionRateZero(goalTasks: seq<Task>)
    requires forall i :: 0 <= i < |goalTasks| ==> !IsDone(goalTasks[i])
    ensures CompletionRate(goalTasks) == 0
  {
    FilterEmpty(goalTasks, IsDone);
    CompletionRateIsShareOfNonBlank(goalTasks);
    var n := |Filter(goalTasks, HasText)|;
    RoundedPercentEnds(if n > 1 then n else 1);
  }

  /** When at least one task has text and every task with text is completed,
      the rate is 100. */
  lemma CompletionRateFull(goalTasks: seq<Task>)
    requires exists i :: 0 <= i < |goalTasks| && HasText(goalTasks[i])
    requires forall i :: 0 <= i < |goalTasks| && HasText(goalTasks[i]) ==> goalTasks[i].completed
    ensures CompletionRate(goalTasks) == 100
  {
    FilterAgree(goalTasks, IsDone, HasText);
    FilterEmpty(goalTasks, HasText);
    CompletionRateIsShareOfNonBlank(goalTasks);
    RoundedPercentEnds(|Filter(goalTasks, HasText)|);
  }

  /** Ticking a task off never lowers the rate. */
  lemma CompletionRateMonotone(goalTasks: seq<Task>, taskId: string)
    ensures CompletionRate(goalTasks) <= CompletionRate(Updated(goalTasks, taskId, SetCompleted(true)))
  {
    var after := Updated(goalTasks, taskId, SetCompleted(true));
    forall i | 0 <= i < |goalTasks|
      ensures after[i].text == goalTasks[i].text
      ensures IsDone(goalTasks[i]) ==> IsDone(after[i])
    {
    }
    SameTextSameCount(goalTasks, after);
    FilterCountMono(goalTasks, after, IsDone, IsDone);
    CompletionRateIsShareOfNonBlank(goalTasks);
    CompletionRateIsShareOfNonBlank(after);
    var n := |Filter(goalTasks, HasText)|;
    RoundedPercentMonotone(|Filter(goalTasks, IsDone)|, |Filter(after, IsDone)|, if n > 1 then n else 1);
  }

  /** Updating the whole list and then taking a goal's tasks is updating the
      goal's tasks: an update never moves a task between goals. */
  lemma {:induction false} GoalTasksOfUpdated(tasks: seq<Task>, taskId: string, p: Patch, goalId: string)
    ensures GoalTasks(Updated(tasks, taskId, p), goalId) == Updated(GoalTasks(tasks, goalId), taskId, p)
  {
    if tasks != [] {
      GoalTasksOfUpdated(tasks[1..], taskId, p, goalId);
      assert Updated(tasks, taskId, p)[1..] == Updated(tasks[1..], taskId, p);
    }
  }

  /** Ticking off any task of the list never lowers the bar of any goal. */
  lemma TickingOffNeverLowersProgress(tasks: seq<Task>, taskId: string, goalId: string)
    ensures CompletionRate(GoalTasks(tasks, goalId))
         <= CompletionRate(GoalTasks(Updated(tasks, taskId, SetCompleted(true)), goalId))
  {
    GoalTasksOfUpdated(tasks, taskId, SetCompleted(true), goalId);
    CompletionRateMonotone(GoalTasks(tasks, goalId), taskId);
  }

  /** Typing whitespace into a blank row of the list leaves the bar of every
      goal as it was. */
  lemma BlankEditKeepsProgress(tasks: seq<Task>, taskId: string, text: string, goalId: string)
    requires IsBlank(text)
    requires forall i :: 0 <= i < |tasks| && tasks[i].id == taskId ==> IsBlankTask(tasks[i])
    ensures CompletionRate(GoalTasks(Updated(tasks, taskId, SetText(text)), goalId))
         == CompletionRate(GoalTasks(tasks, goalId))
  {
    var shown := GoalTasks(tasks, goalId);
    forall i | 0 <= i < |shown| && shown[i].id == taskId
      ensures IsBlankTask(shown[i])
    {
      var j :| 0 <= j < |tasks| && tasks[j] == shown[i];
    }
    GoalTasksOfUpdated(tasks, taskId, SetText(text), goalId);
    CompletionRateBlankEdit(shown, taskId, text);
  }

  /** Two lists whose rows carry the same texts have equally many rows with text. */
  lemma SameTextSameCount(s: seq<Task>, t: seq<Task>)
    requires |s| == |t|
    requires forall i :: 0 <= i < |s| ==> s[i].text == t[i].text
    ensures |Filter(s, HasText)| == |Filter(t, HasText)|
  {
    FilterCountMono(s, t, HasText, HasText);
    FilterCountMono(t, s, HasText, HasText);
  }

  /** Typing whitespace into blank rows leaves the rate as it was. */
  lemma CompletionRateBlankEdit(goalTasks: seq<Task>, taskId: string, text: string)
    requires IsBlank(text)
    requires forall i :: 0 <= i < |goalTasks| && goalTasks[i].id == taskId ==> IsBlankTask(goalTasks[i])
    ensures CompletionRate(Updated(goalTasks, taskId, SetText(text))) == CompletionRate(goalTasks)
  {
    var after := Updated(goalTasks, taskId, SetText(text));
    forall i | 0 <= i < |goalTasks|
      ensures IsDone(after[i]) == IsDone(goalTasks[i])
      ensures HasText(after[i]) == HasText(goalTasks[i])
    {
      if goalTasks[i].id == taskId {
        assert after[i].text == text;
      } else {
        assert after[i] == goalTasks[i];
      }
    }
    assert |Filter(after, IsDone)| == |Filter(goalTasks, IsDone)| by {
      FilterCountMono(goalTasks, after, IsDone, IsDone);
      FilterCountMono(after, goalTasks, IsDone, IsDone);
    }
    assert |Filter(after, HasText)| == |Filter(goalTasks, HasText)| by {
      FilterCountMono(goalTasks, after, HasText, HasText);
      FilterCountMono(after, goalTasks, HasText, HasText);
    }
    SameCountsSameRate(goalTasks, after);
  }

  /** The rate depends only on the two counts. */
  lemma SameCountsSameRate(s: seq<Task>, t: seq<Task>)
    requires |Filter(s, IsDone)| == |Filter(t, IsDone)|
    requires |Filter(s, HasText)| == |Filter(t, HasText)|
    ensures CompletionRate(s) == CompletionRate(t)
  {
    CompletionRateIsShareOfNonBlank(s);
    CompletionRateIsShareOfNonBlank(t);
  }

  /** One completed task with text shows 100%; adding an incomplete task
      with text halves it to 50%. */
  lemma CompletionRateOneThenTwo(done: Task, open: Task)
    requires done.completed && HasText(done)
    requires !open.completed && HasText(open)
    ensures CompletionRate([done]) == 100
    ensures CompletionRate([done, open]) == 50
  {
    CompletionRateFull([done]);
    var two := [done, open];
    assert two[1..][1..] == [];
    assert |Filter(two, IsDone)| == 1 && |Filter(two, HasText)| == 2;
    CompletionRateIsShareOfNonBlank(two);
    RoundedPercentUnique(1, 2, 50);
  }

  /** The list the screen starts from has a blank row for goal "1", and the
      bar shows 33% (one of three tasks with text is done). */
  lemma MockTasksFacts()
    ensures HasBlankTask(GoalTasks(MockTasks(), "1"))
    ensures CompletionRate(GoalTasks(MockTasks(), "1")) == 33
  {
    MockGoalTasks();
    MockTaskTexts();
    assert IsBlankTask(MockTasks()[3]);
    MockTasksRate();
  }

  /** Every starting task belongs to goal "1". */
  lemma MockGoalTasks()
    ensures GoalTasks(MockTasks(), "1") == MockTasks()
  {
    var ts := MockTasks();
    assert forall i :: 0 <= i < |ts| ==> ts[i].goalId == "1";
    GoalTasksOfOneGoal(ts, "1");
  }

  /** One of three tasks with text is done: 33%. */
  lemma MockTasksRate()
    ensures CompletionRate(MockTasks()) == 33
  {
    MockTaskCounts();
    CompletionRateIsShareOfNonBlank(MockTasks());
    RoundedPercentUnique(1, 3, 33);
  }

  /** Which rows of the starting list have text. */
  lemma MockTaskTexts()
    ensures HasText(MockTasks()[0]) && HasText(MockTasks()[1]) && HasText(MockTasks()[2])
    ensures IsBlankTask(MockTasks()[3])
  {
    var ts := MockTasks();
    assert !IsWhitespace(ts[0].text[0]) && !IsWhitespace(ts[1].text[0]) && !IsWhitespace(ts[2].text[0]);
  }

  /** One completed task with text, three tasks with text. */
  lemma MockTaskCounts()
    ensures |Filter(MockTasks(), IsDone)| == 1 && |Filter(MockTasks(), HasText)| == 3
  {
    MockTaskTexts();
    CountsOfShape(MockTasks());
  }

  /** The counts for any list shaped like the starting one: a completed row
      with text, two open rows with text, then a blank row. */
  lemma CountsOfShape(ts: seq<Task>)
    requires |ts| == 4
    requires HasText(ts[0]) && HasText(ts[1]) && HasText(ts[2]) && IsBlankTask(ts[3])
    requires ts[0].completed && !ts[1].completed && !ts[2].completed
    ensures |Filter(ts, IsDone)| == 1 && |Filter(ts, HasText)| == 3
  {
    assert ts[3..][1..] == [] && ts[2..][1..] == ts[3..] && ts[1..][1..] == ts[2..];
    assert |Filter(ts[3..], IsDone)| == 0 && |Filter(ts[3..], HasText)| == 0;
    assert |Filter(ts[2..], IsDone)| == 0 && |Filter(ts[2..], HasText)| == 1;
    assert |Filter(ts[1..], IsDone)| == 0 && |Filter(ts[1..], HasText)| == 2;
  }

  /** A list whose tasks all belong to one goal is that goal's whole list. */
  lemma GoalTasksOfOneGoal(tasks: seq<Task>, goalId: string)
    requires forall i :: 0 <= i < |tasks| ==> tasks[i].goalId == goalId
    ensures GoalTasks(tasks, goalId) == tasks
  {
    FilterKeepsAll(tasks, (t: Task) => t.goalId == goalId);
  }

  /** The board: component state `tasks` and `selectedGoalId`. Each handler
      replaces the list the way its `setTasks` call does. */
  class Board {
    var tasks: seq<Task>
    var selectedGoalId: string

    /** `useState('1')` and `useState(mockTasks)` */
    constructor ()
      ensures tasks == MockTasks() && selectedGoalId == "1"
    {
      tasks := MockTasks();
      selectedGoalId := "1";
    }

    /** The tasks of the selected goal, in list order. */
    function ShownTasks(): (r: seq<Task>)
      reads this
      ensures forall i :: 0 <= i < |r| ==> r[i] in tasks && r[i].goalId == selectedGoalId
    {
      GoalTasks(tasks, selectedGoalId)
    }

    /** `updateTask(taskId, updates)` */
    method UpdateTask(taskId: string, p: Patch)
      modifies this
      ensures tasks == Updated(old(tasks), taskId, p)
      ensures selectedGoalId == old(selectedGoalId)
    {
      tasks := Updated(tasks, taskId, p);
    }

    /** `deleteTask(taskId)` */
    method DeleteTask(taskId: string)
      modifies this
      ensures tasks == Without(old(tasks), taskId)
      ensures selectedGoalId == old(selectedGoalId)
    {
      tasks := Without(tasks, taskId);
    }

    /** `addNewTask()`, with `freshId` standing for `Date.now().toString()`. */
    method AddNewTask(freshId: string)
      modifies this
      ensures tasks == old(tasks) + [Placeholder(freshId, selectedGoalId)]
      ensures selectedGoalId == old(selectedGoalId)
    {
      tasks := tasks + [Placeholder(freshId, selectedGoalId)];
    }

    /** `handleKeyDown`: Enter appends a blank row whatever the current row holds. */
    method HandleKeyDown(key: string, taskId: string, freshId: string)
      modifies this
      ensures key == "Enter" ==> tasks == old(tasks) + [Placeholder(freshId, selectedGoalId)]
      ensures key != "Enter" ==> tasks == old(tasks)
      ensures selectedGoalId == old(selectedGoalId)
    {
      if key == "Enter" {
        AddNewTask(freshId);
      }
    }

    /** `handleBlur`: a row left with blank text is deleted. */
    method HandleBlur(taskId: string, text: string)
      modifies this
      ensures IsBlank(text) ==> tasks == Without(old(tasks), taskId)
      ensures !IsBlank(text) ==> tasks == old(tasks)
      ensures selectedGoalId == old(selectedGoalId)
    {
      if Trim(text) == "" {
        DeleteTask(taskId);
      }
    }

    /** `handleTextChange` */
    method HandleTextChange(taskId: string, text: string)
      modifies this
      ensures tasks == Updated(old(tasks), taskId, SetText(text))
      ensures selectedGoalId == old(selectedGoalId)
      ensures IsBlank(text) && (forall i :: 0 <= i < |old(tasks)| && old(tasks)[i].id == taskId ==> IsBlankTask(old(tasks)[i]))
        ==> Progress() == old(Progress())
    {
      if IsBlank(text) && (forall i :: 0 <= i < |tasks| && tasks[i].id == taskId ==> IsBlankTask(tasks[i])) {
        BlankEditKeepsProgress(tasks, taskId, text, selectedGoalId);
      }
      UpdateTask(taskId, SetText(text));
    }

    /** `handleToggleComplete` */
    method HandleToggleComplete(taskId: string, completed: bool)
      modifies this
      ensures tasks == Updated(old(tasks), taskId, SetCompleted(completed))
      ensures selectedGoalId == old(selectedGoalId)
      ensures completed ==> old(Progress()) <= Progress()
    {
      TickingOffNeverLowersProgress(tasks, taskId, selectedGoalId);
      UpdateTask(taskId, SetCompleted(completed));
    }

    /** Picking a goal in the drop-down. */
    method SelectGoal(goalId: string)
      modifies this
      ensures selectedGoalId == goalId && tasks == old(tasks)
    {
      selectedGoalId := goalId;
    }

    /** The effect that keeps a blank row for the selected goal. */
    method EnsurePlaceholder(freshId: string)
      modifies this
      ensures tasks == WithPlaceholder(old(tasks), selectedGoalId, freshId)
      ensures HasBlankTask(ShownTasks())
      ensures selectedGoalId == old(selectedGoalId)
    {
      var emptyTasks := Filter(GoalTasks(tasks, selectedGoalId), IsBlankTask);
      if |emptyTasks| == 0 {
        AddNewTask(freshId);
      }
    }

    /** The number in the progress bar. */
    function Progress(): (r: nat)
      reads this
      ensures r <= 100
    {
      CompletionRate(ShownTasks())
    }
  }
}
