# productiv-chat: a Dafny model of the client's state logic

productiv-chat is a goal-coaching web client. The user keeps a list of
goals, breaks each goal into a checklist of tasks, talks to a (simulated)
AI coach, and looks at a weekly analytics rollup. All data is mock data
held in component state. This project models the logic behind the
screens' event handlers and derived figures. The markup is not modelled.

- `TaskBoard` (`tasks.dfy`) models the task board. The list and the
  selected goal are the fields of the class `Board`, and each handler is a
  method whose new list is a pure function of the old one (`Updated`,
  `Without`, `WithPlaceholder`). The progress percentage is the pure
  `CompletionRate`, and the lemmas beside it prove what it means:
  - it is the rounded share of completed rows among rows with text;
  - blank rows never count;
  - it is 0 with nothing done and 100 with everything done;
  - it never drops when a task is ticked off.
- `GoalList` (`goals.dfy`) models the goal list. The class `Goals` holds
  the list and the create form. Its invariant is "ids are unique and at
  most one goal is active". Both handlers keep it: selection activates
  exactly the chosen goal, and creation prepends an inactive goal.
- `ChatSession` (`chat.dfy`) models the coach chat. The class `Session`
  is an append-only message log with an idle/loading state machine. The
  two `setTimeout` callbacks are separate methods, `Resolve` and
  `ResolveFollowUp`, counted by `pendingReplies` and `pendingFollowUps`.
- `Analytics` (`analytics.dfy`) models the weekly rollup. It covers:
  - the sums of the seven daily buckets;
  - the rounded weekly and daily rates, including JavaScript's `NaN`,
    `Infinity` and `-Infinity` outcomes;
  - the best streak;
  - the figures the screen shows for its data.
- `Navigation` (`navigation.dfy`) models the bottom bar's `isActive` test
  and its four items. At most one item is highlighted for any location.
- Shared pieces:
  - `JsText` (`js_text.dfy`): ECMAScript `String.prototype.trim` with its
    whitespace set, `startsWith`, and decimal rendering of counts.
  - `Seqs` (`seqs.dfy`): `Array.prototype.filter` and its laws.
  - `Percent` (`percent.dfy`): `Math.round(a / b * 100)` on counts, in
    exact integer arithmetic as `(200a + b) / (2b)`.

Where the behaviour described for the product and the code differ, the
model follows the code:
- The placeholder rule looks only at the text of the selected goal's
  rows. A completed row with blank text counts as the blank row.
- Enter in a task row appends a new blank row even when the current row is
  blank itself.
- Selecting an id that no goal has leaves every goal inactive.
- A blank goal title is ignored silently. The dialog stays open and the
  form keeps its text.
- The chat keeps one message log. Switching to another goal's coach, or to
  the master coach, neither clears nor swaps it.
- "Add all to tasks" only appends a confirmation message. No task is
  created, and pressing it twice appends two confirmations. With the master
  coach selected the confirmation names the goal "undefined".
- Both emoji in the chat text are stored double-encoded in `src/pages/Chat.tsx`
  (for example 🎉 is written as the four characters U+00F0 U+0178 U+017D
  U+2030). The model keeps those characters as written.
- An empty week gives `NaN` for the weekly rate, and an empty list of goal
  figures gives `-Infinity` for the best streak.

## Model

| member | source | states |
|---|---|---|
| JsText.LeadingWhitespace | src/pages/Tasks.tsx:97 | the length of the longest run of whitespace that `s` starts with |
| JsText.TrailingWhitespace | src/pages/Tasks.tsx:97 | where the longest run of whitespace that `s` ends with begins |
| JsText.WhitespaceRunsMeet | src/pages/Tasks.tsx:97 | the leading and trailing runs overlap or touch exactly when `s` is all whitespace |
| JsText.Trim | src/pages/Tasks.tsx:97 | `trim()` is the piece of `s` right after its leading whitespace, followed in `s` only by whitespace; that piece neither starts nor ends with whitespace, and it is empty exactly when every character is whitespace |
| JsText.IsBlank | src/pages/Tasks.tsx:97 | `s.trim() === ''` holds exactly when every character of `s` is whitespace |
| JsText.StartsWith | src/components/BottomNavigation.tsx:39 | `s.startsWith(prefix)` holds exactly when `s` is `prefix` followed by some rest |
| JsText.PrefixesAreNested | src/components/BottomNavigation.tsx:39 | two prefixes of the same string are prefixes of one another |
| JsText.NatToString | src/pages/Chat.tsx:121 | a count renders as a non-empty string of decimal digits without a leading zero |
| JsText.DecimalRoundTrip | src/pages/Chat.tsx:121 | reading back the digits of a rendered count gives the count |
| Percent.RoundedPercent | src/pages/Tasks.tsx:136 | `Math.round(a / b * 100)`: the result is the integer within a half of `100a/b`, halves rounding up |
| Percent.RoundedPercentUnique | src/pages/Tasks.tsx:136 | the rounding bounds determine the rounded percentage uniquely |
| Percent.RoundedPercentAtMost100 | src/pages/Tasks.tsx:136 | a part of at most the whole rounds to at most 100 |
| Percent.RoundedPercentEnds | src/pages/Tasks.tsx:136 | none of the whole is 0, all of it is 100 |
| Percent.RoundedPercentMonotone | src/pages/Tasks.tsx:136 | a larger part never rounds to a smaller percentage |
| Percent.RoundedRatioPercent | src/pages/Analytics.tsx:76 | a positive divisor gives the integer within a half of `100a/b`, halves rounding up, and at most 100 when `a <= b`; 0/0 gives `NaN`; a positive count over 0 gives `Infinity` |
| Seqs.Filter | src/pages/Tasks.tsx:61 | `filter` keeps only elements that pass the test and is no longer than its input |
| Seqs.FilterMembers | src/pages/Tasks.tsx:61 | every element of the result is from the input, and every input element that passes is in the result |
| Seqs.FilterConcat | src/pages/Tasks.tsx:70 | filtering a concatenation is concatenating the filtered parts, so order is kept |
| Seqs.FilterKeepsAll | src/pages/Tasks.tsx:70 | filtering returns its input exactly when every element passes |
| Seqs.FilterEmpty | src/pages/Tasks.tsx:113 | the result is empty exactly when no element passes |
| Seqs.FilterCountMono | src/pages/Tasks.tsx:134-136 | a pointwise weaker test never keeps fewer elements |
| Seqs.FilterAgree | src/pages/Tasks.tsx:134-136 | pointwise equal tests give equal results |
| TaskBoard.Apply | src/pages/Tasks.tsx:65 | the field the patch carries is overwritten; id, goal and the other field are kept |
| TaskBoard.GoalTasks | src/pages/Tasks.tsx:61 | the goal's list holds only the goal's tasks and all of them |
| TaskBoard.GoalTasksOfAppend | src/pages/Tasks.tsx:61 | a task appended to the whole list appears last in its own goal's list and in no other |
| TaskBoard.GoalTasksOfOneGoal | src/pages/Tasks.tsx:61 | when every task belongs to the goal, the goal's list is the whole list in order |
| TaskBoard.Updated | src/pages/Tasks.tsx:63-67 | length is kept; each task with the id gets the patch merged in and every other task is unchanged |
| TaskBoard.UpdatedKeepsIdentity | src/pages/Tasks.tsx:63-67 | an update never changes any task's id or goal |
| TaskBoard.Without | src/pages/Tasks.tsx:69-71 | every remaining task comes from the list and lacks the id, and every task without the id remains |
| TaskBoard.WithoutKeepsOrder | src/pages/Tasks.tsx:69-71 | deletion splits over any cut of the list, so the remaining tasks keep their order; deleting an absent id changes nothing |
| TaskBoard.Placeholder | src/pages/Tasks.tsx:74-79 | the row `addNewTask` appends has the given id and goal, is blank and is not completed |
| TaskBoard.WithPlaceholder | src/pages/Tasks.tsx:112-117 | afterwards the goal has a blank row; a goal that already had one is left alone; otherwise exactly one blank placeholder is appended |
| TaskBoard.CompletionRate | src/pages/Tasks.tsx:134-136 | the progress percentage is at most 100 |
| TaskBoard.CountsSplitByCompletion | src/pages/Tasks.tsx:136 | the denominator counts each task with text exactly once |
| TaskBoard.CompletionRateIsShareOfNonBlank | src/pages/Tasks.tsx:134-136 | the rate is the rounded share of completed tasks with text among tasks with text (divisor at least 1) |
| TaskBoard.DoneAmongNonBlank | src/pages/Tasks.tsx:134 | dropping blank rows keeps every completed task with text |
| TaskBoard.CompletionRateIgnoresBlank | src/pages/Tasks.tsx:134-136 | removing every blank row leaves the rate unchanged |
| TaskBoard.CompletionRateZero | src/pages/Tasks.tsx:134-136 | with no completed task with text (for instance all rows blank) the rate is 0 |
| TaskBoard.CompletionRateFull | src/pages/Tasks.tsx:134-136 | with at least one task with text, all of them completed, the rate is 100 |
| TaskBoard.CompletionRateMonotone | src/pages/Tasks.tsx:107-109 | ticking a task off never lowers the rate |
| TaskBoard.GoalTasksOfUpdated | src/pages/Tasks.tsx:61-67 | updating the whole list and then taking a goal's tasks is the same as updating that goal's tasks |
| TaskBoard.TickingOffNeverLowersProgress | src/pages/Tasks.tsx:107-109 | ticking off any task of the whole list never lowers any goal's bar |
| TaskBoard.BlankEditKeepsProgress | src/pages/Tasks.tsx:103-105 | typing whitespace into blank rows of the whole list leaves every goal's bar unchanged |
| TaskBoard.SameTextSameCount | src/pages/Tasks.tsx:136 | lists with the same texts row by row have equally many rows with text |
| TaskBoard.CompletionRateBlankEdit | src/pages/Tasks.tsx:103-105 | typing whitespace into a blank row leaves the rate unchanged |
| TaskBoard.SameCountsSameRate | src/pages/Tasks.tsx:134-136 | the rate depends only on the two counts |
| TaskBoard.CompletionRateOneThenTwo | src/pages/Tasks.tsx:134-136 | one completed task shows 100%, and adding an incomplete task with text gives 50% |
| TaskBoard.MockTasksFacts | src/pages/Tasks.tsx:21-46 | the starting list has a blank row for goal "1", and the bar shows 33% |
| TaskBoard.MockTaskTexts | src/pages/Tasks.tsx:21-46 | the first three starting rows have text and the fourth is blank |
| TaskBoard.MockTaskCounts | src/pages/Tasks.tsx:21-46 | the starting list has one completed task with text and three tasks with text |
| TaskBoard.CountsOfShape | src/pages/Tasks.tsx:134-136 | the counts for any list shaped like the starting one |
| TaskBoard.Board.constructor | src/pages/Tasks.tsx:56-57 | the board starts on goal "1" with the mock tasks |
| TaskBoard.Board.ShownTasks | src/pages/Tasks.tsx:61 | the rows shown all belong to the selected goal |
| TaskBoard.Board.UpdateTask | src/pages/Tasks.tsx:63-67 | the list becomes `Updated(old list)`; the selected goal is kept |
| TaskBoard.Board.DeleteTask | src/pages/Tasks.tsx:69-71 | the list becomes `Without(old list)`; the selected goal is kept |
| TaskBoard.Board.AddNewTask | src/pages/Tasks.tsx:73-80 | exactly one blank, incomplete task of the selected goal is appended; existing tasks are untouched |
| TaskBoard.Board.HandleKeyDown | src/pages/Tasks.tsx:89-94 | Enter appends a placeholder whatever the row holds; other keys change nothing |
| TaskBoard.Board.HandleBlur | src/pages/Tasks.tsx:96-101 | leaving a row with blank text deletes it; otherwise nothing changes |
| TaskBoard.Board.HandleTextChange | src/pages/Tasks.tsx:103-105 | only the text of the task with the id changes; whitespace typed into a blank row leaves the bar unchanged |
| TaskBoard.Board.HandleToggleComplete | src/pages/Tasks.tsx:107-109 | only the completed flag of the task with the id changes; ticking a task off never lowers the bar |
| TaskBoard.Board.SelectGoal | src/pages/Tasks.tsx:160 | the selected goal changes and the list does not |
| TaskBoard.Board.EnsurePlaceholder | src/pages/Tasks.tsx:112-117 | the list becomes `WithPlaceholder(old list)`, after which the shown goal has a blank row |
| TaskBoard.Board.Progress | src/pages/Tasks.tsx:134-136 | the progress bar value is between 0 and 100 |
| GoalList.Selected | src/pages/Goals.tsx:51 | length, order and every field but `isActive` are kept; a goal is active exactly when its id is the chosen one |
| GoalList.SelectedActivatesExactly | src/pages/Goals.tsx:49-53 | with unique ids, the chosen goal (if present) becomes the only active goal, and no goal is active otherwise |
| GoalList.SelectedTwice | src/pages/Goals.tsx:51 | only the last selection matters |
| GoalList.NewGoal | src/pages/Goals.tsx:57-65 | the new goal copies title and description and is inactive with zero progress and zero tasks |
| GoalList.PrependInactiveKeepsActive | src/pages/Goals.tsx:66 | prepending an inactive goal changes neither which goal is active nor the at-most-one-active property |
| GoalList.PrependFreshKeepsUnique | src/pages/Goals.tsx:66 | prepending a goal with a fresh id keeps ids unique |
| GoalList.MockGoalsValid | src/pages/Goals.tsx:13-41 | the starting goals have unique ids and exactly one active goal, "1" |
| GoalList.Goals.constructor | src/pages/Goals.tsx:45-47 | the screen starts valid, with the mock goals, an empty form and the dialog closed |
| GoalList.Goals.HandleGoalSelect | src/pages/Goals.tsx:49-53 | the list becomes `Selected(old list)`, the invariant holds, and the active id is the chosen one if a goal has it |
| GoalList.Goals.HandleCreateGoal | src/pages/Goals.tsx:55-70 | a blank title changes nothing; otherwise the new goal goes in front of the unchanged old goals, the form resets and the dialog closes; the active goal never changes |
| GoalList.Goals.SetTitle | src/pages/Goals.tsx:98 | only the form's title changes |
| GoalList.Goals.SetDescription | src/pages/Goals.tsx:108 | only the form's description changes |
| GoalList.Goals.SetCreateOpen | src/pages/Goals.tsx:81 | only the dialog flag changes |
| ChatSession.CanSend | src/pages/Chat.tsx:74 | sending is allowed exactly when the input has a non-whitespace character and no reply is pending |
| ChatSession.ReplyMessage | src/pages/Chat.tsx:89-102 | the simulated reply is an assistant message with an add-tasks action of three items |
| ChatSession.IsSendKey | src/pages/Chat.tsx:109 | only Enter sends, and never while Shift is held |
| ChatSession.UserMessage | src/pages/Chat.tsx:76-81 | a user message with the given id and no action, whose content is exactly what was typed |
| ChatSession.FollowUpMessage | src/pages/Chat.tsx:134-139 | the answer to "Okay" is an assistant message with the given id and no action |
| ChatSession.GoalTitleText | src/pages/Chat.tsx:121 | `${selectedGoal?.title}` is the goal's title when a goal is selected and the text "undefined" for the master coach |
| ChatSession.AddedAllText | src/pages/Chat.tsx:121 | the confirmation starts with its fixed opening; right after it come exactly the decimal digits of the item count, which read back as that count, and a space ends them |
| ChatSession.Session.constructor | src/pages/Chat.tsx:58-61 | the chat starts idle, with the mock conversation, an empty input and the active goal selected |
| ChatSession.Session.SetInput | src/pages/Chat.tsx:318 | only the input changes |
| ChatSession.Session.HandleSend | src/pages/Chat.tsx:73-86 | blank input or a pending reply changes nothing; otherwise one user message with the untrimmed input is appended, the input clears and loading starts |
| ChatSession.Session.Resolve | src/pages/Chat.tsx:88-105 | exactly the reply message is appended and loading ends |
| ChatSession.Session.HandleKeyDown | src/pages/Chat.tsx:108-113 | Enter without Shift sends as `HandleSend` does; any other key changes nothing |
| ChatSession.Session.HandleQuickAction | src/pages/Chat.tsx:115-142 | "add_all_tasks" with items appends the count confirmation; "okay" appends the user's "Okay" and schedules one follow-up; anything else, "add_task" included, changes nothing; loading is never touched |
| ChatSession.Session.ResolveFollowUp | src/pages/Chat.tsx:133-140 | exactly the follow-up assistant message is appended |
| ChatSession.Session.SelectGoal | src/pages/Chat.tsx:197 | only the selected goal changes; the message log is kept |
| Analytics.Sum | src/pages/Analytics.tsx:74-75 | the `reduce` sum is at least each day's value, and 0 exactly when every day's value is 0 |
| Analytics.TotalCompleted | src/pages/Analytics.tsx:74 | no day completed more than the week, and the week is 0 exactly when no day completed anything |
| Analytics.TotalTasks | src/pages/Analytics.tsx:75 | no day planned more than the week, and the week is 0 exactly when no day planned anything |
| Analytics.SumConcat | src/pages/Analytics.tsx:74-75 | a daily sum splits over any cut of the week |
| Analytics.SumMono | src/pages/Analytics.tsx:74-75 | summing a pointwise smaller field gives a smaller total |
| Analytics.WeekConsistent | src/pages/Analytics.tsx:74-75 | when each day has completed at most total, so does the week |
| Analytics.WeekSums | src/pages/Analytics.tsx:9-17 | the shown week sums to 22 completed out of 34 |
| Analytics.WeeklyCompletionRate | src/pages/Analytics.tsx:76 | with tasks planned, the integer within a half of `100 * totalCompleted / totalTasks`; an empty week is `NaN` |
| Analytics.WeeklyCompletionRateBounds | src/pages/Analytics.tsx:76 | with tasks planned and consistent days, the weekly rate is finite and within 0..100 |
| Analytics.DailyRate | src/pages/Analytics.tsx:190 | with tasks planned, the integer within a half of `100 * completed / total`, within 0..100 for a consistent day; a day with nothing planned is `NaN` exactly when nothing was completed |
| Analytics.MaxStreak | src/pages/Analytics.tsx:77 | the maximum is at least every streak and equals one of them |
| Analytics.BestStreak | src/pages/Analytics.tsx:77 | finite exactly when there are goals, then the maximum streak; `-Infinity` otherwise |
| Analytics.ActiveGoalsCount | src/pages/Analytics.tsx:239 | the count is 0 exactly when the best streak is `-Infinity`, and positive exactly when it is finite |
| Analytics.ShownFigures | src/pages/Analytics.tsx:51 | the shown data gives 22 of 34 tasks, a 65% rate, a best streak of 12 and 3 active goals, and every daily rate is within 0..100 |
| Navigation.NavigationItems | src/components/BottomNavigation.tsx:6-31 | the bar shows exactly the four items of `Items`; their ids are distinct, no path is "/", and no item's path is a prefix of another's |
| Navigation.IsActive | src/components/BottomNavigation.tsx:37-40 | "/" is active only at "/"; any other path is active exactly when the location is that path followed by some rest |
| Navigation.ItemsDiffer | src/components/BottomNavigation.tsx:6-31 | the four ids of `Items` differ at their first character and the four paths at their second, so the ids are distinct and no path starts with another |
| Navigation.IsActiveUnder | src/components/BottomNavigation.tsx:37-40 | a location at or under a path other than "/" highlights it; "/" highlights only at "/" itself |
| Navigation.AtMostOneActive | src/components/BottomNavigation.tsx:37-40 | whatever the location, at most one item is highlighted |
| Navigation.OwnPageHighlightsOnlyItself | src/components/BottomNavigation.tsx:37-40 | on an item's own path exactly that item is highlighted |

## Left out

- Rendering is not modelled: JSX, CSS classes, icons, and the sheet, dialog and drop-down widgets. The "No Goals" screens are render branches only.
- `src/App.tsx` and `tailwind.config.ts` are not part of this model. They hold router wiring and styling.
- Timers become explicit steps. The delay of each `setTimeout` is not modelled, and neither are focus and scroll effects (`focus()`, `scrollIntoView`).
- `Date.now()` ids and `new Date()` timestamps become parameters, and messages carry no timestamp. Goal creation asks for an id that no goal has; the clock is what promises that in the app.
- `formatTime` is not modelled. It calls the locale library's `toLocaleTimeString`.
- Percent.RoundedPercent: computes `Math.round(a / b * 100)` exactly, a half always rounding up. JavaScript computes `a / b * 100` in double precision first, and an exact half can then fall just below it and round down. The first case is 23 of 40: `23 / 40 * 100` is 57.49999999999999, so the app shows 57 where the model gives 58. The same happens for 46 of 80, 29 of 200 and 57 of 200. The task bar and the analytics rates inherit this difference.
- TaskBoard.Board.EnsurePlaceholder: the effect is modelled as a step that the caller runs. React re-runs it only when the number of the goal's rows or the selected goal changes, and that dependency rule is not modelled. For example, typing into the placeholder does not re-run it.
- `navigate()` calls are router side effects and are left out (`src/pages/Goals.tsx:52`, `src/components/BottomNavigation.tsx:52`).
- Strings are sequences of Unicode scalar values, not UTF-16 code units. `trim` and `startsWith` agree on both for the characters involved.
- The stored `progress`, `streak` and `trend` figures in the goal and analytics data are constants and are copied as given. The per-goal progress on the Goals screen is never derived from tasks.
