/**
 * The minimal to-do component (`TodoApp`): tasks with numeric ids, one input that adds,
 * and a two-stage view: first the status filter, then the search.
 */
module TodoApp {
  import opened Seqs
  import opened Strings

  datatype Task = Task(id: int, text: string, completed: bool)

  function IdOf(t: Task): int { t.id }

  predicate HasId(tasks: seq<Task>, id: int) {
    HasKey(tasks, IdOf, id)
  }

  ghost predicate IdsUnique(tasks: seq<Task>) {
    UniqueKeys(tasks, IdOf)
  }

  /** The labels the filter buttons pass to `setFilter`. */
  const FilterLabels: seq<string> := ["All", "Active", "Completed"]

  /** `toggleComplete`: the tasks with `id` have `completed` flipped; every other task is kept. */
  function Toggle(tasks: seq<Task>, id: int): (r: seq<Task>)
    ensures |r| == |tasks|
    ensures forall i :: 0 <= i < |tasks| ==> r[i].id == tasks[i].id && r[i].text == tasks[i].text
    ensures forall i :: 0 <= i < |tasks| ==> r[i].completed == (tasks[i].completed != (tasks[i].id == id))
  {
    Map(tasks, (t: Task) => if t.id == id then t.(completed := !t.completed) else t)
  }

  /** `deleteTask`: the tasks with `id` are dropped; the others stay in order. */
  function Remove(tasks: seq<Task>, id: int): (r: seq<Task>)
    ensures IsSubsequence(r, tasks)
    ensures forall t :: multiset(r)[t] == if t.id == id then 0 else multiset(tasks)[t]
    ensures forall t :: t in r <==> t in tasks && t.id != id
  {
    Filter(tasks, (t: Task) => t.id != id)
  }

  /** `editTask`: the matching tasks take `newText` exactly as given, untrimmed. */
  function Edit(tasks: seq<Task>, id: int, newText: string): (r: seq<Task>)
    ensures |r| == |tasks|
    ensures forall i :: 0 <= i < |tasks| ==> r[i].id == tasks[i].id && r[i].completed == tasks[i].completed
    ensures forall i :: 0 <= i < |tasks| && tasks[i].id == id ==> r[i].text == newText
    ensures forall i :: 0 <= i < |tasks| && tasks[i].id != id ==> r[i] == tasks[i]
  {
    Map(tasks, (t: Task) => if t.id == id then t.(text := newText) else t)
  }

  /** The status test of `filteredTasks`. */
  function PassesFilter(t: Task, filter: string): (b: bool)
    ensures filter == "Active" ==> (b <==> !t.completed)
    ensures filter == "Completed" ==> (b <==> t.completed)
    ensures filter != "Active" && filter != "Completed" ==> b
  {
    if filter == "Active" then !t.completed
    else if filter == "Completed" then t.completed
    else true
  }

  /** `filteredTasks`: "Active" keeps the open tasks, "Completed" the done ones, anything else keeps all. */
  function Filtered(tasks: seq<Task>, filter: string): (r: seq<Task>)
    ensures IsSubsequence(r, tasks)
    ensures forall t :: multiset(r)[t] == if PassesFilter(t, filter) then multiset(tasks)[t] else 0
    ensures filter == "Active" ==> forall t :: t in r <==> t in tasks && !t.completed
    ensures filter == "Completed" ==> forall t :: t in r <==> t in tasks && t.completed
    ensures filter != "Active" && filter != "Completed" ==> r == tasks
  {
    var p := (t: Task) => PassesFilter(t, filter);
    var r := Filter(tasks, p);
    assert filter != "Active" && filter != "Completed" ==> r == tasks by {
      if filter != "Active" && filter != "Completed" { FilterKeepsAll(tasks, p); }
    }
    r
  }

  /** The search test of `searchedTasks`: case-insensitive substring match. */
  function MatchesSearch(t: Task, search: string): (b: bool)
    ensures search == "" ==> b
    ensures b ==> |search| <= |t.text|
  {
    IncludesEmpty();
    Includes(Lower(t.text), Lower(search))
  }

  /** `searchedTasks`: the tasks of `filtered`, in order, whose lowered text contains the lowered search. */
  function Searched(filtered: seq<Task>, search: string): (r: seq<Task>)
    ensures IsSubsequence(r, filtered)
    ensures forall t :: multiset(r)[t] == if MatchesSearch(t, search) then multiset(filtered)[t] else 0
    ensures forall t :: t in r <==> t in filtered && Includes(Lower(t.text), Lower(search))
    ensures search == "" ==> r == filtered
  {
    var p := (t: Task) => MatchesSearch(t, search);
    var r := Filter(filtered, p);
    assert search == "" ==> r == filtered by {
      if search == "" {
        IncludesEmpty();
        FilterKeepsAll(filtered, p);
      }
    }
    r
  }

  /** The one test the rendered list applies: the status filter and the search together. */
  function Shown(t: Task, filter: string, search: string): (b: bool)
    ensures b ==> Includes(Lower(t.text), Lower(search))
    ensures b && filter == "Active" ==> !t.completed
    ensures b && filter == "Completed" ==> t.completed
    ensures search == "" && filter != "Active" && filter != "Completed" ==> b
  {
    PassesFilter(t, filter) && MatchesSearch(t, search)
  }

  /** What the list renders is an order-preserving subsequence of the tasks, picked by both tests at once. */
  lemma ViewIsOneFilter(tasks: seq<Task>, filter: string, search: string)
    ensures Searched(Filtered(tasks, filter), search) == Filter(tasks, (t: Task) => Shown(t, filter, search))
    ensures IsSubsequence(Searched(Filtered(tasks, filter), search), tasks)
  {
    FilterFilter(tasks, (t: Task) => PassesFilter(t, filter), (t: Task) => MatchesSearch(t, search),
      (t: Task) => Shown(t, filter, search));
    SubsequenceTransitive(Searched(Filtered(tasks, filter), search), Filtered(tasks, filter), tasks);
  }

  /** Toggling the same id twice gives back the original list. */
  lemma ToggleTwice(tasks: seq<Task>, id: int)
    ensures Toggle(Toggle(tasks, id), id) == tasks
  {
  }

  /** Toggling an id no task has yields an equal list. */
  lemma ToggleUnknown(tasks: seq<Task>, id: int)
    requires !HasId(tasks, id)
    ensures Toggle(tasks, id) == tasks
  {
    forall i | 0 <= i < |tasks| ensures Toggle(tasks, id)[i] == tasks[i] {
      assert IdOf(tasks[i]) != id;
    }
  }

  /** Editing an id no task has yields an equal list. */
  lemma EditUnknown(tasks: seq<Task>, id: int, newText: string)
    requires !HasId(tasks, id)
    ensures Edit(tasks, id, newText) == tasks
  {
    forall i | 0 <= i < |tasks| ensures Edit(tasks, id, newText)[i] == tasks[i] {
      assert IdOf(tasks[i]) != id;
    }
  }

  /** Every update keeps ids unique: add with a fresh id, toggle, edit and delete. */
  lemma OperationsKeepIdsUnique(tasks: seq<Task>, t: Task, id: int, newText: string)
    requires IdsUnique(tasks)
    ensures !HasId(tasks, t.id) ==> IdsUnique([t] + tasks)
    ensures IdsUnique(Toggle(tasks, id))
    ensures IdsUnique(Edit(tasks, id, newText))
    ensures IdsUnique(Remove(tasks, id))
  {
    if !HasId(tasks, t.id) { PrependKeepsUniqueKeys(t, tasks, IdOf); }
    var a, b := Toggle(tasks, id), Edit(tasks, id, newText);
    assert forall i :: 0 <= i < |tasks| ==> IdOf(a[i]) == IdOf(tasks[i]) && IdOf(b[i]) == IdOf(tasks[i]);
    FilterKeepsUniqueKeys(tasks, (t: Task) => t.id != id, IdOf);
  }

  class TodoApp {
    var task: string
    var tasks: seq<Task>
    var filter: string
    var search: string

    /** No two tasks share an id. */
    ghost predicate Valid()
      reads this
    {
      IdsUnique(tasks)
    }

    /** The initial state: empty input, no tasks, filter "All", empty search. */
    constructor ()
      ensures Valid()
      ensures task == "" && tasks == [] && filter == "All" && search == ""
    {
      task := "";
      tasks := [];
      filter := "All";
      search := "";
    }

    /** `addTask`. `now` stands for `Date.now()`. */
    method AddTask(now: int)
      requires !HasId(tasks, now)
      modifies this
      ensures filter == old(filter) && search == old(search)
      ensures IsBlank(old(task)) ==> tasks == old(tasks) && task == old(task)
      ensures !IsBlank(old(task)) ==>
        tasks == [Task(now, Trim(old(task)), false)] + old(tasks) && task == ""
      ensures old(Valid()) ==> Valid()
    {
      if IsBlank(task) {
        return;
      }
      var newTask := Task(now, Trim(task), false);
      if Valid() { OperationsKeepIdsUnique(tasks, newTask, 0, ""); }
      tasks := [newTask] + tasks;
      task := "";
    }

    /** `toggleComplete`. */
    method ToggleComplete(id: int)
      modifies this
      ensures tasks == Toggle(old(tasks), id)
      ensures task == old(task) && filter == old(filter) && search == old(search)
      ensures old(Valid()) ==> Valid()
    {
      if Valid() { OperationsKeepIdsUnique(tasks, Task(0, "", false), id, ""); }
      tasks := Toggle(tasks, id);
    }

    /** `deleteTask`. */
    method DeleteTask(id: int)
      modifies this
      ensures tasks == Remove(old(tasks), id)
      ensures task == old(task) && filter == old(filter) && search == old(search)
      ensures old(Valid()) ==> Valid()
    {
      if Valid() { OperationsKeepIdsUnique(tasks, Task(0, "", false), id, ""); }
      tasks := Remove(tasks, id);
    }

    /** `editTask`. */
    method EditTask(id: int, newText: string)
      modifies this
      ensures tasks == Edit(old(tasks), id, newText)
      ensures task == old(task) && filter == old(filter) && search == old(search)
      ensures old(Valid()) ==> Valid()
    {
      if Valid() { OperationsKeepIdsUnique(tasks, Task(0, "", false), id, newText); }
      tasks := Edit(tasks, id, newText);
    }

    /** The task input's `onChange`. */
    method SetTask(value: string)
      modifies this
      ensures task == value
      ensures tasks == old(tasks) && filter == old(filter) && search == old(search)
    {
      task := value;
    }

    /** The search input's `onChange`. */
    method SetSearch(value: string)
      modifies this
      ensures search == value
      ensures tasks == old(tasks) && task == old(task) && filter == old(filter)
    {
      search := value;
    }

    /** `setFilter`, called by a filter button with its label. */
    method SetFilter(choice: string)
      requires choice in FilterLabels
      modifies this
      ensures filter == choice
      ensures tasks == old(tasks) && task == old(task) && search == old(search)
    {
      filter := choice;
    }

    /** The tasks the list renders: `searchedTasks`. */
    function ShownTasks(): (r: seq<Task>)
      reads this
      ensures IsSubsequence(r, tasks)
      ensures forall t :: multiset(r)[t] == if Shown(t, filter, search) then multiset(tasks)[t] else 0
      ensures forall t :: t in r <==> t in tasks && PassesFilter(t, filter) && MatchesSearch(t, search)
    {
      ViewIsOneFilter(tasks, filter, search);
      Searched(Filtered(tasks, filter), search)
    }
  }
}
