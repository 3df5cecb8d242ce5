/**
 * The richer to-do component (`TodoList`): tasks with a priority and a creation time,
 * one input that either adds a task or updates the task being edited, a status filter,
 * a search query and the task counts.
 */
module TodoList {
  import opened Wrappers
  import opened Seqs
  import opened Strings

  /** One task. `time` is the ISO creation timestamp; a stored task without a priority has `priority == ""`. */
  datatype Todo = Todo(id: string, text: string, completed: bool, time: string, priority: string)

  function IdOf(t: Todo): string { t.id }

  predicate HasId(todos: seq<Todo>, id: string) {
    HasKey(todos, IdOf, id)
  }

  ghost predicate IdsUnique(todos: seq<Todo>) {
    UniqueKeys(todos, IdOf)
  }

  /** `t` is the first task of `todos` whose id is `id`. */
  ghost predicate IsFirstWithId(todos: seq<Todo>, id: string, t: Todo) {
    exists i :: 0 <= i < |todos| && todos[i] == t && t.id == id && forall j :: 0 <= j < i ==> todos[j].id != id
  }

  /** The lookup in `startEdit`: the first task carrying `id`, or nothing when no task does. */
  function Find(todos: seq<Todo>, id: string): (r: Option<Todo>)
    ensures r.None? <==> !HasId(todos, id)
    ensures r.Some? ==> IsFirstWithId(todos, id, r.value)
  {
    if todos == [] then None
    else if todos[0].id == id then
      assert todos[0].id == IdOf(todos[0]);
      Some(todos[0])
    else
      var r := Find(todos[1..], id);
      assert HasId(todos, id) <==> HasId(todos[1..], id) by {
        if HasId(todos, id) {
          var i :| 0 <= i < |todos| && IdOf(todos[i]) == id;
          assert todos[1..][i - 1] == todos[i];
        }
        if HasId(todos[1..], id) {
          var i :| 0 <= i < |todos[1..]| && IdOf(todos[1..][i]) == id;
          assert todos[i + 1] == todos[1..][i];
        }
      }
      assert r.Some? ==> IsFirstWithId(todos, id, r.value) by {
        if r.Some? {
          var i :| 0 <= i < |todos[1..]| && todos[1..][i] == r.value && r.value.id == id
            && forall j :: 0 <= j < i ==> todos[1..][j].id != id;
          assert todos[i + 1] == r.value;
          forall j | 0 <= j < i + 1 ensures todos[j].id != id {
            if j > 0 { assert todos[j] == todos[1..][j - 1]; }
          }
        }
      }
      r
  }

  /** `t.priority || "low"`: a missing priority reads as low. */
  function PriorityOrLow(p: string): (r: string)
    ensures r != ""
    ensures p != "" ==> r == p
    ensures p == "" ==> r == "low"
  {
    if p == "" then "low" else p
  }

  /** The update branch of `handleAddOrUpdate`: the tasks with `id` take the new text and priority; every other task is kept. */
  function Update(todos: seq<Todo>, id: string, text: string, priority: string): (r: seq<Todo>)
    ensures |r| == |todos|
    ensures forall i :: 0 <= i < |todos| ==>
      r[i].id == todos[i].id && r[i].completed == todos[i].completed && r[i].time == todos[i].time
    ensures forall i :: 0 <= i < |todos| && todos[i].id == id ==> r[i].text == text && r[i].priority == priority
    ensures forall i :: 0 <= i < |todos| && todos[i].id != id ==> r[i] == todos[i]
  {
    Map(todos, (t: Todo) => if t.id == id then t.(text := text, priority := priority) else t)
  }

  /** `toggleComplete`: the tasks with `id` have `completed` flipped; every other task is kept. */
  function Toggle(todos: seq<Todo>, id: string): (r: seq<Todo>)
    ensures |r| == |todos|
    ensures forall i :: 0 <= i < |todos| ==>
      r[i].id == todos[i].id && r[i].text == todos[i].text && r[i].time == todos[i].time
      && r[i].priority == todos[i].priority
    ensures forall i :: 0 <= i < |todos| ==> r[i].completed == (todos[i].completed != (todos[i].id == id))
  {
    Map(todos, (t: Todo) => if t.id == id then t.(completed := !t.completed) else t)
  }

  /** `deleteTask`: the tasks with `id` are dropped; the others stay in order. */
  function Remove(todos: seq<Todo>, id: string): (r: seq<Todo>)
    ensures IsSubsequence(r, todos)
    ensures forall t :: multiset(r)[t] == if t.id == id then 0 else multiset(todos)[t]
    ensures forall t :: t in r <==> t in todos && t.id != id
  {
    Filter(todos, (t: Todo) => t.id != id)
  }

  /** The predicate of `visibleTodos`: the search query first, then the status filter. */
  function Shown(t: Todo, query: string, filter: string): (b: bool)
    ensures b ==> Includes(Lower(t.text), Lower(query))
    ensures b && filter == "completed" ==> t.completed
    ensures b && filter == "pending" ==> !t.completed
    ensures query == "" && filter != "completed" && filter != "pending" ==> b
  {
    IncludesEmpty();
    if query != "" && !Includes(Lower(t.text), Lower(query)) then false
    else if filter == "completed" then t.completed
    else if filter == "pending" then !t.completed
    else true
  }

  /** `visibleTodos`: the tasks, in order, that match the query and the status filter. */
  function Visible(todos: seq<Todo>, query: string, filter: string): (r: seq<Todo>)
    ensures IsSubsequence(r, todos)
    ensures forall t :: multiset(r)[t] == if Shown(t, query, filter) then multiset(todos)[t] else 0
    ensures forall t :: t in r ==> Includes(Lower(t.text), Lower(query))
    ensures filter == "completed" ==> forall t :: t in r ==> t.completed
    ensures filter == "pending" ==> forall t :: t in r ==> !t.completed
    ensures forall t ::
      (t in todos && Includes(Lower(t.text), Lower(query))
       && (filter == "completed" ==> t.completed) && (filter == "pending" ==> !t.completed)) ==> t in r
  {
    IncludesEmpty();
    Filter(todos, (t: Todo) => Shown(t, query, filter))
  }

  predicate IsDone(t: Todo) { t.completed }
  predicate IsPending(t: Todo) { !t.completed }

  /** `total`. */
  function Total(todos: seq<Todo>): (n: nat)
    ensures n == |Filter(todos, IsDone)| + |Filter(todos, IsPending)|
  {
    FilterPartitionLength(todos, IsDone, IsPending);
    |todos|
  }

  /** `completedCount`: the number of completed tasks, never more than the total. */
  function CompletedCount(todos: seq<Todo>): (n: nat)
    ensures n <= Total(todos)
  {
    |Filter(todos, IsDone)|
  }

  /** `pendingCount`, computed as `total - completedCount`: never negative, and exactly the number of open tasks. */
  function PendingCount(todos: seq<Todo>): (n: int)
    ensures 0 <= n == |Filter(todos, IsPending)|
  {
    Total(todos) - CompletedCount(todos)
  }

  /** `priorityLabel`: "high" and "medium" get their capitalised names, anything else reads "Low". */
  function PriorityLabel(p: string): (l: string)
    ensures p == "high" <==> l == "High"
    ensures p == "medium" <==> l == "Medium"
    ensures p != "high" && p != "medium" <==> l == "Low"
  {
    if p == "high" then "High" else if p == "medium" then "Medium" else "Low"
  }

  // ---- Properties of the list transformations ----

  /** Toggling the same id twice gives back the original list. */
  lemma ToggleTwice(todos: seq<Todo>, id: string)
    ensures Toggle(Toggle(todos, id), id) == todos
  {
  }

  /** Toggling an id no task has leaves the list as it was. */
  lemma ToggleUnknown(todos: seq<Todo>, id: string)
    requires !HasId(todos, id)
    ensures Toggle(todos, id) == todos
  {
    forall i | 0 <= i < |todos| ensures Toggle(todos, id)[i] == todos[i] {
      assert IdOf(todos[i]) != id;
    }
  }

  /** Toggling and updating keep the ids in place, so they keep the ids unique and present. */
  lemma MapsKeepIds(todos: seq<Todo>, id: string, text: string, priority: string, x: string)
    ensures HasId(Toggle(todos, id), x) <==> HasId(todos, x)
    ensures HasId(Update(todos, id, text, priority), x) <==> HasId(todos, x)
    ensures IdsUnique(todos) ==> IdsUnique(Toggle(todos, id)) && IdsUnique(Update(todos, id, text, priority))
  {
    var a, b := Toggle(todos, id), Update(todos, id, text, priority);
    assert forall i :: 0 <= i < |todos| ==> IdOf(a[i]) == IdOf(todos[i]) && IdOf(b[i]) == IdOf(todos[i]);
  }

  /** After `Remove(todos, id)` an id is present exactly when it was present before and is not `id`. */
  lemma RemoveHasId(todos: seq<Todo>, id: string, x: string)
    ensures HasId(Remove(todos, id), x) <==> HasId(todos, x) && x != id
  {
    var r := Remove(todos, id);
    if HasId(r, x) {
      var i :| 0 <= i < |r| && IdOf(r[i]) == x;
      assert r[i] in todos;
      var j :| 0 <= j < |todos| && todos[j] == r[i];
      assert IdOf(todos[j]) == x;
    }
    if HasId(todos, x) && x != id {
      var j :| 0 <= j < |todos| && IdOf(todos[j]) == x;
      assert todos[j] in r;
      var i :| 0 <= i < |r| && r[i] == todos[j];
      assert IdOf(r[i]) == x;
    }
  }

  /** Removing tasks keeps the ids unique. */
  lemma RemoveKeepsIdsUnique(todos: seq<Todo>, id: string)
    requires IdsUnique(todos)
    ensures IdsUnique(Remove(todos, id))
  {
    FilterKeepsUniqueKeys(todos, (t: Todo) => t.id != id, IdOf);
  }

  /** `completedCount + pendingCount == total`, and `pendingCount` counts exactly the uncompleted tasks. */
  lemma CountsPartition(todos: seq<Todo>)
    ensures 0 <= CompletedCount(todos) <= Total(todos)
    ensures PendingCount(todos) == |Filter(todos, IsPending)|
    ensures CompletedCount(todos) + PendingCount(todos) == Total(todos)
  {
    FilterPartitionLength(todos, IsDone, IsPending);
  }

  /** With no query and the filter "all", every task is visible, in order. */
  lemma VisibleAll(todos: seq<Todo>)
    ensures Visible(todos, "", "all") == todos
  {
    FilterKeepsAll(todos, (t: Todo) => Shown(t, "", "all"));
  }

  /** Any filter value other than "completed" and "pending" applies the query alone. */
  lemma VisibleOtherFilter(todos: seq<Todo>, query: string, filter: string)
    requires filter != "completed" && filter != "pending"
    ensures Visible(todos, query, filter) == Filter(todos, (t: Todo) => Includes(Lower(t.text), Lower(query)))
  {
    IncludesEmpty();
    FilterSamePredicate(todos, (t: Todo) => Shown(t, query, filter), (t: Todo) => Includes(Lower(t.text), Lower(query)));
  }

  /** With the filter "completed", a done and an open task give exactly the done one. */
  lemma VisibleCompletedExample(a: Todo, b: Todo)
    requires a.completed && !b.completed
    ensures Visible([a, b], "", "completed") == [a]
    ensures Visible([a, b], "", "pending") == [b]
  {
    assert [a, b][1..] == [b];
  }

  /** The component's invariant on its list and its edit cursor: ids are unique and the cursor is empty or names a task. */
  ghost predicate Consistent(todos: seq<Todo>, editingId: Option<string>) {
    IdsUnique(todos) && (editingId.Some? ==> HasId(todos, editingId.value))
  }

  /** Prepending a task with a fresh id keeps the invariant. */
  lemma AddKeepsConsistent(t: Todo, todos: seq<Todo>, editingId: Option<string>)
    requires Consistent(todos, editingId) && !HasId(todos, t.id)
    ensures Consistent([t] + todos, editingId)
  {
    PrependKeepsUniqueKeys(t, todos, IdOf);
    if editingId.Some? {
      var i :| 0 <= i < |todos| && IdOf(todos[i]) == editingId.value;
      assert ([t] + todos)[i + 1] == todos[i];
    }
  }

  /** Updating the edited task and clearing the cursor keeps the invariant. */
  lemma UpdateKeepsConsistent(todos: seq<Todo>, editingId: Option<string>, text: string, priority: string)
    requires Consistent(todos, editingId) && editingId.Some?
    ensures Consistent(Update(todos, editingId.value, text, priority), None)
  {
    MapsKeepIds(todos, editingId.value, text, priority, "");
  }

  /** Toggling keeps the invariant. */
  lemma ToggleKeepsConsistent(todos: seq<Todo>, editingId: Option<string>, id: string)
    requires Consistent(todos, editingId)
    ensures Consistent(Toggle(todos, id), editingId)
  {
    MapsKeepIds(todos, id, "", "", if editingId.Some? then editingId.value else "");
  }

  /** Removing tasks keeps the invariant provided the cursor is cleared when it named the removed id. */
  lemma RemoveKeepsConsistent(todos: seq<Todo>, editingId: Option<string>, id: string)
    requires Consistent(todos, editingId)
    ensures Consistent(Remove(todos, id), if editingId == Some(id) then None else editingId)
  {
    RemoveKeepsIdsUnique(todos, id);
    if editingId.Some? {
      RemoveHasId(todos, id, editingId.value);
    }
  }

  // ---- The component's state ----

  class TodoList {
    var todos: seq<Todo>
    var taskText: string
    var editingId: Option<string>
    var query: string
    var filter: string
    var priority: string

    /** No two tasks share an id, and the edit cursor is empty or names a task in the list. */
    ghost predicate Valid()
      reads this
    {
      Consistent(todos, editingId)
    }

    /** `if (editingId)`: the cursor is set and, being a string id, not "". */
    function InUpdateMode(): (b: bool)
      reads this
      ensures b ==> editingId.Some? && editingId.value != ""
      ensures editingId == Some("") ==> !b
      ensures editingId.Some? && editingId.value != "" ==> b
      ensures b && Valid() ==> HasId(todos, editingId.value)
    {
      editingId.Some? && editingId.value != ""
    }

    /** The initial state: no tasks, empty input, no cursor, empty search, filter "all", priority "low". */
    constructor ()
      ensures Valid()
      ensures todos == [] && taskText == "" && editingId == None
      ensures query == "" && filter == "all" && priority == "low"
    {
      todos := [];
      taskText := "";
      editingId := None;
      query := "";
      filter := "all";
      priority := "low";
    }

    /** `handleAddOrUpdate`. `freshId` and `now` stand for `Date.now().toString()` and the ISO time. */
    method HandleAddOrUpdate(freshId: string, now: string)
      requires !HasId(todos, freshId)
      modifies this
      ensures query == old(query) && filter == old(filter)
      ensures IsBlank(old(taskText)) ==>
        todos == old(todos) && taskText == old(taskText) && editingId == old(editingId) && priority == old(priority)
      ensures !IsBlank(old(taskText)) ==> taskText == "" && priority == "low"
      ensures !IsBlank(old(taskText)) && old(InUpdateMode()) ==>
        todos == Update(old(todos), old(editingId).value, Trim(old(taskText)), old(priority)) && editingId == None
      ensures !IsBlank(old(taskText)) && !old(InUpdateMode()) ==>
        todos == [Todo(freshId, Trim(old(taskText)), false, now, old(priority))] + old(todos)
        && editingId == old(editingId)
      ensures old(Valid()) ==> Valid()
    {
      var text := Trim(taskText);
      assert IsBlank(taskText) <==> text == "";
      if text == "" {
        return;
      }
      if InUpdateMode() {
        if Valid() { UpdateKeepsConsistent(todos, editingId, text, priority); }
        todos := Update(todos, editingId.value, text, priority);
        editingId := None;
      } else {
        var t := Todo(freshId, text, false, now, priority);
        if Valid() { AddKeepsConsistent(t, todos, editingId); }
        todos := [t] + todos;
      }
      taskText := "";
      priority := "low";
    }

    /** `startEdit`: load the task's text and priority into the input and point the cursor at it. */
    method StartEdit(id: string)
      modifies this
      ensures query == old(query) && filter == old(filter) && todos == old(todos)
      ensures !HasId(todos, id) ==>
        taskText == old(taskText) && priority == old(priority) && editingId == old(editingId)
      ensures HasId(todos, id) ==>
        editingId == Some(id)
        && exists t :: IsFirstWithId(todos, id, t) && taskText == t.text && priority == PriorityOrLow(t.priority)
      ensures old(Valid()) ==> Valid()
    {
      var found := Find(todos, id);
      if found.None? {
        return;
      }
      var t := found.value;
      taskText := t.text;
      priority := PriorityOrLow(t.priority);
      editingId := Some(id);
    }

    /** `cancelEdit`: clear the cursor and reset the input. */
    method CancelEdit()
      modifies this
      ensures editingId == None && taskText == "" && priority == "low"
      ensures todos == old(todos) && query == old(query) && filter == old(filter)
      ensures old(Valid()) ==> Valid()
    {
      editingId := None;
      taskText := "";
      priority := "low";
    }

    /** `deleteTask`: drop every task with `id`; deleting the task under edit also cancels the edit. */
    method DeleteTask(id: string)
      modifies this
      ensures todos == Remove(old(todos), id)
      ensures query == old(query) && filter == old(filter)
      ensures old(editingId) == Some(id) ==> editingId == None && taskText == "" && priority == "low"
      ensures old(editingId) != Some(id) ==>
        editingId == old(editingId) && taskText == old(taskText) && priority == old(priority)
      ensures old(Valid()) ==> Valid()
    {
      if Valid() { RemoveKeepsConsistent(todos, editingId, id); }
      todos := Remove(todos, id);
      if editingId == Some(id) {
        CancelEdit();
      }
    }

    /** `toggleComplete`: flip `completed` on the tasks with `id`. */
    method ToggleComplete(id: string)
      modifies this
      ensures todos == Toggle(old(todos), id)
      ensures taskText == old(taskText) && editingId == old(editingId) && priority == old(priority)
      ensures query == old(query) && filter == old(filter)
      ensures old(Valid()) ==> Valid()
    {
      if Valid() { ToggleKeepsConsistent(todos, editingId, id); }
      todos := Toggle(todos, id);
    }

    /** The task input's `onChange`. */
    method SetTaskText(value: string)
      modifies this
      ensures taskText == value
      ensures todos == old(todos) && editingId == old(editingId) && priority == old(priority)
      ensures query == old(query) && filter == old(filter)
    {
      taskText := value;
    }

    /** The priority select's `onChange`. */
    method SetPriority(value: string)
      modifies this
      ensures priority == value
      ensures todos == old(todos) && editingId == old(editingId) && taskText == old(taskText)
      ensures query == old(query) && filter == old(filter)
    {
      priority := value;
    }

    /** The search input's `onChange`. */
    method SetQuery(value: string)
      modifies this
      ensures query == value
      ensures todos == old(todos) && editingId == old(editingId) && taskText == old(taskText)
      ensures priority == old(priority) && filter == old(filter)
    {
      query := value;
    }

    /** The status select's `onChange`. */
    method SetFilter(value: string)
      modifies this
      ensures filter == value
      ensures todos == old(todos) && editingId == old(editingId) && taskText == old(taskText)
      ensures priority == old(priority) && query == old(query)
    {
      filter := value;
    }

    /** The "Reset" button: clear the query and show all tasks. */
    method ResetControls()
      modifies this
      ensures query == "" && filter == "all"
      ensures todos == old(todos) && editingId == old(editingId) && taskText == old(taskText)
      ensures priority == old(priority)
    {
      query := "";
      filter := "all";
    }
  }
}
