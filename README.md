# To-do list components, modelled in Dafny

This project models the state handling of a browser to-do list. The list exists in two variants.

- `TodoList` is the richer variant. Each task has a priority and a creation time. One input either adds a task or updates the task under edit. The list view applies a status filter ("all", "completed", "pending") and a case-insensitive search. The component shows the total, completed and pending counts.
- `TodoApp` is the minimal variant. It has numeric ids, one add input, and a two-stage view: the status filter ("All", "Active", "Completed"), then the search.
- `TodoItem` is one row of the minimal list. It supports rename in place through a row-local `isEditing` flag and a `newText` draft, and it calls the parent through callback props.

Each stateful component is a class. Its `useState` fields are class fields, and each handler is a method. A method's `ensures` gives the whole new state in terms of the old one. A functional update `setX(prev => f(prev))` becomes `x := F(x)`, where `F` is a pure function on sequences. The derived views (`visibleTodos`, `filteredTasks`, `searchedTasks`), the counts and `priorityLabel` are pure functions. Lemmas prove their properties: order-preserving subsequence, exactly which tasks are kept, toggling twice is the identity, counts add up, and every handler keeps "ids are unique and the edit cursor is null or names a task".

Files:

- `wrappers.dfy`: `Option`.
- `seqs.dfy`: `Filter` and `Map` (that is, `Array.prototype.filter` and `Array.prototype.map`).
  - `Filter` is specified by the subsequence relation and by element multiplicities.
  - The file also holds the "unique key" lemmas.
- `strings.dfy`: the JavaScript string built-ins the components use.
  - `trim` covers the exact ECMAScript white-space and line-terminator set.
  - `toLowerCase` covers ASCII only.
  - `includes` is substring search.
- `todo_list.dfy`, `todo_app.dfy`, `todo_item.dfy`: one module per component.

Modelling choices:

- **Inputs standing in for I/O.** Clock reads are method parameters: `freshId` and `now` replace `Date.now()` and `new Date().toISOString()`. The add handlers require that the fresh id is not already in the list. That requirement is what keeps ids unique.
- **`editingId` truthiness.** The component tests `if (editingId)`, and an empty-string id is falsy in JavaScript. So `InUpdateMode` is true only when the cursor is set and its id is not `""`.
- **`t.priority || "low"`.** A stored task with no priority is modelled with `priority == ""`. `PriorityOrLow` maps that to `"low"`.
- **Row callbacks.** A row does not run the parent's callbacks itself. Each row handler returns the calls it makes, as values of `TodoItem.Call`. `TodoItem.Deliver` applies one call to a `TodoApp` object, the way the parent's props wire them.
- **Behaviour kept from the code.**
  - Committing a rename stores the draft untrimmed. Only the blank test trims it (src/components/TodoItem.jsx:8).
  - `handleAddOrUpdate` in update mode clears the cursor and resets the input even when no task has the cursor's id (src/components/TodoList.jsx:51-58, 70-71).
  - `deleteTask` cancels the edit only when `editingId === id` (src/components/TodoList.jsx:96).

## Model

| member | source | states |
|---|---|---|
| `Seqs.Filter` | src/components/TodoList.jsx:105-112 | the filtered list is an order-preserving subsequence of the input. Every element appears as often as in the input when it satisfies the predicate, and not at all otherwise |
| `Seqs.Map` | src/components/TodoList.jsx:101 | the mapped list has the same length, and each position holds the transformed element |
| `Seqs.FilterKeepsAll` | src/components/TodoApp.jsx:56 | a filter whose test holds for every element returns the whole list |
| `Seqs.FilterSamePredicate` | src/components/TodoList.jsx:105-112 | two tests that agree on every element of the list filter it to the same result |
| `Seqs.FilterFilter` | src/components/TodoApp.jsx:53-61 | filtering twice equals one filter by the conjunction |
| `Seqs.FilterPartitionLength` | src/components/TodoList.jsx:115-117 | the sizes of a predicate's filter and its negation's filter add up to the list length |
| `Seqs.SubsequenceTransitive` | src/components/TodoApp.jsx:59 | a subsequence of a subsequence is a subsequence |
| `Seqs.FilterKeepsUniqueKeys` | src/components/TodoApp.jsx:42 | filtering never creates a duplicate id |
| `Seqs.PrependKeepsUniqueKeys` | src/components/TodoApp.jsx:30 | prepending an element whose key is new keeps keys unique |
| `Strings.IsWhite` | src/components/TodoList.jsx:49 | on ASCII, exactly tab, line feed, vertical tab, form feed, carriage return and space are white. No digit or Latin letter is white |
| `Strings.SkipWhite` | src/components/TodoList.jsx:49 | scanning forward from `i`, every character skipped is white, and the scan stops at the end or at a non-white character |
| `Strings.SkipWhiteBack` | src/components/TodoList.jsx:49 | scanning back from `j` but not below `i`, every character skipped is white, and the scan stops at `i` or just after a non-white character |
| `Strings.Trim` | src/components/TodoList.jsx:49 | `s.trim()` is the middle of `s` between a white prefix and a white suffix, and neither of its ends is white |
| `Strings.IsBlank` | src/components/TodoList.jsx:49-50 | the blank test holds exactly when every character is white space. The same test guards `addTask` (src/components/TodoApp.jsx:24) and the row's rename (src/components/TodoItem.jsx:8) |
| `Strings.BlankIffAllWhite` | src/components/TodoApp.jsx:24 | `s.trim() === ""` holds exactly when every character of `s` is white space |
| `Strings.TrimIdempotent` | src/components/TodoList.jsx:49 | trimming twice equals trimming once |
| `Strings.LowerChar` | src/components/TodoList.jsx:107 | A to Z become a to z (code point plus 32), and every other character is kept |
| `Strings.Lower` | src/components/TodoList.jsx:107 | the lowered string has the same length and is lowered character by character |
| `Strings.LowerIdempotent` | src/components/TodoList.jsx:107 | lowering twice equals lowering once |
| `Strings.Includes` | src/components/TodoApp.jsx:60 | `s.includes(q)` is true exactly when `q` occurs at some position of `s` |
| `Strings.OccursInTail` | src/components/TodoApp.jsx:60 | when `q` is not a prefix of `s`, `q` occurs in `s` exactly when it occurs in the tail of `s` |
| `Strings.IncludesEmpty` | src/components/TodoList.jsx:107 | every string includes the empty string |
| `Strings.CaseInsensitiveMatchExample` | src/components/TodoList.jsx:107 | query "TASK" matches text "My task one" |
| `TodoList.Find` | src/components/TodoList.jsx:76 | the result is none exactly when no task has the id. Otherwise it is the first task with that id |
| `TodoList.PriorityOrLow` | src/components/TodoList.jsx:79 | a missing priority becomes "low", and any other priority is kept |
| `TodoList.Update` | src/components/TodoList.jsx:53-57 | only tasks with the edited id change, taking the new text and priority. Every task keeps its id, `completed` and `time`. Length and order are unchanged |
| `TodoList.Toggle` | src/components/TodoList.jsx:100-102 | `completed` flips exactly on the tasks with the id. Every other field stays, and so do length and order |
| `TodoList.Remove` | src/components/TodoList.jsx:95 | the result is an order-preserving subsequence with no task of that id, and every other task appears exactly as often as before |
| `TodoList.Shown` | src/components/TodoList.jsx:105-112 | a shown task's lowered text contains the lowered query. Under "completed" a shown task is done, and under "pending" it is open. With no query and any other filter every task is shown |
| `TodoList.Visible` | src/components/TodoList.jsx:105-112 | the visible list is an order-preserving subsequence. Every visible task's lowered text contains the lowered query. "completed" keeps only done tasks and "pending" only open ones. A task that passes both tests appears as often as in the list, and any other task not at all |
| `TodoList.CompletedCount` | src/components/TodoList.jsx:116 | the completed count is at most the total |
| `TodoList.Total` | src/components/TodoList.jsx:115 | the total is the number of completed tasks plus the number of open ones |
| `TodoList.PendingCount` | src/components/TodoList.jsx:117 | `total - completedCount` is never negative and equals the number of open tasks |
| `TodoList.PriorityLabel` | src/components/TodoList.jsx:130-134 | "high" gives "High", "medium" gives "Medium", and anything else gives "Low", in both directions |
| `TodoList.ToggleTwice` | src/components/TodoList.jsx:100-102 | toggling one id twice gives back the list |
| `TodoList.ToggleUnknown` | src/components/TodoList.jsx:100-102 | toggling an id that no task has leaves the list equal |
| `TodoList.MapsKeepIds` | src/components/TodoList.jsx:53-57 | toggle and update keep the set of present ids and keep ids unique |
| `TodoList.RemoveHasId` | src/components/TodoList.jsx:95 | after a delete, an id is present exactly when it was present before and differs from the deleted one |
| `TodoList.RemoveKeepsIdsUnique` | src/components/TodoList.jsx:95 | a delete keeps ids unique |
| `TodoList.CountsPartition` | src/components/TodoList.jsx:115-117 | `0 <= completedCount <= total`, `pendingCount` is the number of open tasks, and `completedCount + pendingCount == total` |
| `TodoList.VisibleAll` | src/components/TodoList.jsx:105-112 | with no query and filter "all", every task is visible in order |
| `TodoList.VisibleOtherFilter` | src/components/TodoList.jsx:105-112 | any filter value other than "completed" and "pending" applies only the query |
| `TodoList.VisibleCompletedExample` | src/components/TodoList.jsx:109-110 | from one done task and one open task, "completed" shows exactly the done one and "pending" exactly the open one |
| `TodoList.AddKeepsConsistent` | src/components/TodoList.jsx:61-68 | prepending a task with a fresh id keeps ids unique and the cursor valid |
| `TodoList.UpdateKeepsConsistent` | src/components/TodoList.jsx:51-58 | updating the edited task and clearing the cursor keeps the invariant |
| `TodoList.ToggleKeepsConsistent` | src/components/TodoList.jsx:100-102 | a toggle keeps the invariant |
| `TodoList.RemoveKeepsConsistent` | src/components/TodoList.jsx:94-97 | a delete keeps the invariant when the cursor is cleared in the case where it named the deleted id |
| `TodoList.TodoList.constructor` | src/components/TodoList.jsx:6-16 | the starting state is no tasks, empty input, no cursor, empty query, filter "all" and priority "low" |
| `TodoList.TodoList.InUpdateMode` | src/components/TodoList.jsx:51 | `if (editingId)` holds exactly when the cursor is set to a non-empty id, so an empty-string id counts as add mode. In a valid state, update mode means the cursor names a task in the list |
| `TodoList.TodoList.HandleAddOrUpdate` | src/components/TodoList.jsx:48-72 | blank input changes nothing. In update mode, only the edited task changes to the trimmed text and the selected priority, and the cursor is cleared. In add mode, exactly one new open task with the trimmed text and the selected priority is prepended, and the old list follows. Unless the input was blank, it is cleared and the priority resets to "low". The invariant is kept |
| `TodoList.TodoList.StartEdit` | src/components/TodoList.jsx:75-80 | an unknown id changes nothing. Otherwise the first task with the id loads its text and its priority (or "low") into the input, and the cursor is set to the id |
| `TodoList.TodoList.CancelEdit` | src/components/TodoList.jsx:87-91 | the cursor is cleared, the input is emptied and the priority resets to "low" |
| `TodoList.TodoList.DeleteTask` | src/components/TodoList.jsx:94-97 | every task with the id is removed. Deleting the edited task also cancels the edit. The invariant is kept |
| `TodoList.TodoList.ToggleComplete` | src/components/TodoList.jsx:100-102 | the list is toggled at the id, and no other field changes |
| `TodoList.TodoList.SetTaskText` | src/components/TodoList.jsx:166 | only the input text changes |
| `TodoList.TodoList.SetPriority` | src/components/TodoList.jsx:170 | only the priority changes |
| `TodoList.TodoList.SetQuery` | src/components/TodoList.jsx:191 | only the query changes |
| `TodoList.TodoList.SetFilter` | src/components/TodoList.jsx:194 | only the filter changes |
| `TodoList.TodoList.ResetControls` | src/components/TodoList.jsx:200-204 | the query becomes empty and the filter "all", and nothing else changes |
| `TodoApp.Toggle` | src/components/TodoApp.jsx:34-39 | `completed` flips exactly on the tasks with the id. Ids and texts stay, and so do length and order |
| `TodoApp.Remove` | src/components/TodoApp.jsx:41-44 | the result is an order-preserving subsequence with no task of that id, and every other task appears exactly as often as before |
| `TodoApp.Edit` | src/components/TodoApp.jsx:46-51 | only tasks with the id change, and their text becomes the given text verbatim. Ids and `completed` are kept, and so are length and order |
| `TodoApp.PassesFilter` | src/components/TodoApp.jsx:53-57 | "Active" passes exactly the open tasks and "Completed" exactly the done ones. Any other value passes every task |
| `TodoApp.Filtered` | src/components/TodoApp.jsx:53-57 | the result is an order-preserving subsequence. "Active" keeps exactly the open tasks and "Completed" exactly the done ones, each as often as in the list. Any other value keeps the list unchanged |
| `TodoApp.MatchesSearch` | src/components/TodoApp.jsx:60 | an empty search matches every task, and a match needs text at least as long as the search |
| `TodoApp.Searched` | src/components/TodoApp.jsx:59-61 | the result is an order-preserving subsequence of the filtered list, holding exactly the tasks whose lowered text contains the lowered search, each as often as in the filtered list. An empty search returns the filtered list |
| `TodoApp.Shown` | src/components/TodoApp.jsx:53-61 | a rendered task's lowered text contains the lowered search. Under "Active" it is open, and under "Completed" it is done. With an empty search and any other filter every task is rendered |
| `TodoApp.ViewIsOneFilter` | src/components/TodoApp.jsx:53-61 | filter then search equals one filter by both tests, and the result is a subsequence of the tasks |
| `TodoApp.ToggleTwice` | src/components/TodoApp.jsx:34-39 | toggling one id twice gives back the list |
| `TodoApp.ToggleUnknown` | src/components/TodoApp.jsx:34-39 | toggling an unknown id yields an equal list |
| `TodoApp.EditUnknown` | src/components/TodoApp.jsx:46-51 | editing an unknown id yields an equal list |
| `TodoApp.OperationsKeepIdsUnique` | src/components/TodoApp.jsx:23-51 | add with a fresh id, toggle, edit and delete all keep ids unique |
| `TodoApp.TodoApp.constructor` | src/components/TodoApp.jsx:7-10 | the starting state is empty input, no tasks, filter "All" and empty search |
| `TodoApp.TodoApp.AddTask` | src/components/TodoApp.jsx:23-32 | blank input leaves the tasks and the input unchanged. Otherwise `{id, trimmed text, completed false}` is prepended, the old tasks follow in order, and the input is cleared |
| `TodoApp.TodoApp.ToggleComplete` | src/components/TodoApp.jsx:34-39 | the tasks are toggled at the id, and nothing else changes |
| `TodoApp.TodoApp.DeleteTask` | src/components/TodoApp.jsx:41-44 | every task with the id is removed, and nothing else changes |
| `TodoApp.TodoApp.EditTask` | src/components/TodoApp.jsx:46-51 | the tasks are edited at the id, and nothing else changes |
| `TodoApp.TodoApp.SetTask` | src/components/TodoApp.jsx:72 | only the input text changes |
| `TodoApp.TodoApp.SetSearch` | src/components/TodoApp.jsx:83 | only the search changes |
| `TodoApp.TodoApp.SetFilter` | src/components/TodoFilters.jsx:4-7 | a filter button sets the filter to its own label, and nothing else changes |
| `TodoApp.TodoApp.ShownTasks` | src/components/TodoApp.jsx:89-90 | the rendered tasks are an order-preserving subsequence of the tasks, holding exactly those that pass both the status test and the search, each as often as in the tasks |
| `TodoItem.Deliver` | src/components/TodoApp.jsx:94-96 | a row's call runs the matching parent handler, so the parent's tasks become its effect |
| `TodoItem.Effect` | src/components/TodoApp.jsx:94-96 | the wiring of the row's callback props: a toggle call runs `toggleComplete`, a delete call runs `deleteTask` and a rename call runs `editTask` on the parent's list. None of them adds tasks |
| `TodoItem.CommitRenamesTask` | src/components/TodoItem.jsx:8 | after a rename is delivered, the row's task has the draft as its text, and its other fields are unchanged |
| `TodoItem.TodoItem.constructor` | src/components/TodoItem.jsx:4-5 | a new row is not editing, and its draft is the task's text |
| `TodoItem.TodoItem.HandleEdit` | src/components/TodoItem.jsx:7-10 | `isEditing` always flips, and the draft is kept. Opening calls nothing. Closing with a blank draft calls nothing. Closing with a non-blank draft calls `editTask(task.id, newText)` exactly once with the untrimmed draft |
| `TodoItem.TodoItem.ChangeDraft` | src/components/TodoItem.jsx:18 | typing in the field replaces the draft |
| `TodoItem.TodoItem.KeyDown` | src/components/TodoItem.jsx:19 | Enter behaves as `handleEdit`, and any other key does nothing |
| `TodoItem.TodoItem.ClickLabel` | src/components/TodoItem.jsx:22 | clicking the label calls `toggleComplete(task.id)` once |
| `TodoItem.TodoItem.ClickDelete` | src/components/TodoItem.jsx:27 | the delete button calls `deleteTask(task.id)` once, with no condition |
| `TodoItem.TodoItem.Receive` | src/components/TodoItem.jsx:3-5 | a re-render with the current task keeps `isEditing` and the draft, so re-entering edit mode shows the previous draft |

## Left out

- Loading from and saving to `localStorage`, and the JSON encoding. This is browser I/O. The uncaught `JSON.parse` error in the minimal variant's load, and the logged one in the richer variant, belong to it (src/components/TodoList.jsx:24-45, src/components/TodoApp.jsx:13-21).
- The clock. `Date.now()` and `toISOString()` are parameters of the add handlers.
- `formatTime`, because it depends on the locale and on `Date` parsing.
- The input focus in `startEdit`, which is a DOM effect.
- All rendering, CSS classes and the dark-mode flag. The flag only affects styling and storage.
- `toLowerCase` beyond ASCII. Non-ASCII letters are kept as they are.
- The filter buttons component. It is reduced to the label constant `TodoApp.FilterLabels`, which `SetFilter` requires.
- React's re-render scheduling. A handler's `setState` calls are modelled as applied in order within one event. Within one event this gives the state React commits.
- Rows leaving and re-entering the shown list. React keys rows by `t.id` (src/components/TodoApp.jsx:89-92). A row that drops out of `searchedTasks`, for example a toggled row under filter "Active", is unmounted. When it comes back it is mounted afresh with `isEditing = false` and `newText = task.text`. `TodoItem.TodoItem.Receive` models only a row that stays in the list.
- Numeric or otherwise non-string ids in the richer variant's stored data. Ids are strings there.
- `TodoList.TodoList.HandleAddOrUpdate`: it requires the fresh id to be absent from the list even though the source leaves freshness to the clock. Two adds in the same millisecond would break uniqueness in the source.
- `TodoApp.TodoApp.AddTask`: it requires the fresh id to be absent from the list, for the same reason.
