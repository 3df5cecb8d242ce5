/**
 * One row of the minimal list (`TodoItem`): a label that toggles the task, a delete button,
 * and an inline rename controlled by the row-local `isEditing` and `newText`.
 * The parent's callbacks are not run here; each handler returns the callbacks it fires, in order.
 */
module TodoItem {
  import opened Strings
  import TodoApp

  /** A call from the row to one of the parent's callback props. */
  datatype Call = ToggleComplete(id: int) | DeleteTask(id: int) | EditTask(id: int, text: string)

  /** What the parent's list becomes when it receives `c` (the props wired in the parent's render). */
  function Effect(tasks: seq<TodoApp.Task>, c: Call): (r: seq<TodoApp.Task>)
    ensures |r| <= |tasks|
    ensures c.ToggleComplete? ==> r == TodoApp.Toggle(tasks, c.id)
    ensures c.DeleteTask? ==> r == TodoApp.Remove(tasks, c.id)
    ensures c.EditTask? ==> r == TodoApp.Edit(tasks, c.id, c.text)
  {
    match c
    case ToggleComplete(id) => TodoApp.Toggle(tasks, id)
    case DeleteTask(id) => TodoApp.Remove(tasks, id)
    case EditTask(id, text) => TodoApp.Edit(tasks, id, text)
  }

  /** Hands a row's call to the parent component. */
  method Deliver(app: TodoApp.TodoApp, c: Call)
    modifies app
    ensures app.tasks == Effect(old(app.tasks), c)
    ensures app.task == old(app.task) && app.filter == old(app.filter) && app.search == old(app.search)
    ensures old(app.Valid()) ==> app.Valid()
  {
    match c
    case ToggleComplete(id) => app.ToggleComplete(id);
    case DeleteTask(id) => app.DeleteTask(id);
    case EditTask(id, text) => app.EditTask(id, text);
  }

  /** Renaming through a row changes only the text of that row's task, with the draft as typed. */
  lemma CommitRenamesTask(tasks: seq<TodoApp.Task>, id: int, draft: string, i: nat)
    requires i < |tasks| && tasks[i].id == id
    ensures Effect(tasks, EditTask(id, draft))[i] == tasks[i].(text := draft)
  {
  }

  class TodoItem {
    var task: TodoApp.Task
    var isEditing: bool
    var newText: string

    /** A new row: not editing, with the draft set to the task's text. */
    constructor (task: TodoApp.Task)
      ensures this.task == task && !isEditing && newText == task.text
    {
      this.task := task;
      isEditing := false;
      newText := task.text;
    }

    /**
     * `handleEdit`: the edit button, or Enter in the field. Always flips `isEditing`; when it
     * closes a non-blank draft it calls `editTask(task.id, newText)` once with the untrimmed draft.
     */
    method HandleEdit() returns (calls: seq<Call>)
      modifies this
      ensures isEditing == !old(isEditing)
      ensures task == old(task) && newText == old(newText)
      ensures !old(isEditing) ==> calls == []
      ensures old(isEditing) && IsBlank(newText) ==> calls == []
      ensures old(isEditing) && !IsBlank(newText) ==> calls == [EditTask(task.id, newText)]
    {
      calls := [];
      if isEditing && !IsBlank(newText) {
        calls := [EditTask(task.id, newText)];
      }
      isEditing := !isEditing;
    }

    /** The field's `onChange`: the field exists only while editing. */
    method ChangeDraft(value: string)
      requires isEditing
      modifies this
      ensures newText == value && isEditing && task == old(task)
    {
      newText := value;
    }

    /** The field's `onKeyDown`: Enter commits as `handleEdit` does, any other key does nothing. */
    method KeyDown(key: string) returns (calls: seq<Call>)
      requires isEditing
      modifies this
      ensures task == old(task) && newText == old(newText)
      ensures key != "Enter" ==> calls == [] && isEditing
      ensures key == "Enter" ==> !isEditing
      ensures key == "Enter" && IsBlank(newText) ==> calls == []
      ensures key == "Enter" && !IsBlank(newText) ==> calls == [EditTask(task.id, newText)]
    {
      calls := [];
      if key == "Enter" {
        calls := HandleEdit();
      }
    }

    /** Clicking the label, which is shown only when not editing, toggles the task. */
    method ClickLabel() returns (calls: seq<Call>)
      requires !isEditing
      ensures calls == [ToggleComplete(task.id)]
    {
      calls := [ToggleComplete(task.id)];
    }

    /** The delete button: always deletes the task, with no confirmation. */
    method ClickDelete() returns (calls: seq<Call>)
      ensures calls == [DeleteTask(task.id)]
    {
      calls := [DeleteTask(task.id)];
    }

    /**
     * The parent re-renders the row with the current task (same key, same id). The row-local
     * state survives: the draft is not reset to the new text, so re-entering edit mode shows the old draft.
     */
    method Receive(current: TodoApp.Task)
      requires current.id == task.id
      modifies this
      ensures task == current && isEditing == old(isEditing) && newText == old(newText)
    {
      task := current;
    }
  }
}
