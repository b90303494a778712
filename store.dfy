/**
 * The task list's state: the list of tasks and the active filter, the
 * operations the event handlers perform on them, and the view model that
 * `render` derives.
 */
module Store {
  import opened Wrappers
  import opened JsValues
  import opened Tasks
  import opened Escape
  import opened Import

  /** One rendered list item: its id, its title as escaped markup, and whether it
      is drawn as completed (checked box, `completed` class). */
  datatype Row = Row(id: string, titleHtml: string, done: bool)

  /** The list body: the "no tasks" placeholder, or one row per visible task. */
  datatype Listing = Placeholder | Rows(rows: seq<Row>)

  /** What `render` draws: the list body and the two counters. */
  datatype View = View(listing: Listing, total: nat, doneCount: nat)

  /** The row drawn for a task: same id and flag, and a title that is safe markup
      and reads back as the task's title. */
  function RowOf(t: Task): (row: Row)
    ensures row.id == t.id && row.done == t.done
    ensures Safe(row.titleHtml) && Unescape(row.titleHtml) == t.title
  {
    Row(t.id, EscapeHtml(t.title), t.done)
  }

  /** `rows` draws `ts`: one row per task, in order, each with the task's id and
      flag and its escaped title. */
  predicate RowsOf(rows: seq<Row>, ts: seq<Task>) {
    |rows| == |ts| && forall i :: 0 <= i < |ts| ==> rows[i] == RowOf(ts[i])
  }

  /** The task the add form creates: id from the clock in milliseconds, not done,
      stamped with the clock's ISO form. */
  function NewTask(title: string, now: nat, iso: string): (t: Task)
    ensures t.title == title && !t.done && t.createdAt == JStr(iso)
    ensures |t.id| >= 1 && (forall i :: 0 <= i < |t.id| ==> IsDigit(t.id[i]))
    ensures DigitsValue(t.id) == now
  {
    NatStringValue(now);
    Task(NatString(now), title, false, JStr(iso))
  }

  class TaskList {
    var tasks: seq<Task>
    var filter: string

    /** The page starts from the loaded list with the filter at "all". */
    constructor(loaded: seq<Task>)
      ensures tasks == loaded && filter == AllFilter
    {
      tasks := loaded;
      filter := AllFilter;
    }

    /** `addTask`: the new task goes to the top of the list. */
    method AddTask(title: string, now: nat, iso: string)
      modifies this
      ensures tasks == [NewTask(title, now, iso)] + old(tasks)
      ensures |tasks| == |old(tasks)| + 1 && !tasks[0].done && tasks[0].title == title
      ensures filter == old(filter)
    {
      tasks := [NewTask(title, now, iso)] + tasks;
    }

    /** The add form's submit handler: text that is blank once trimmed is ignored;
        otherwise the trimmed text is added. */
    method Submit(text: string, now: nat, iso: string)
      modifies this
      ensures AllSpace(text) ==> tasks == old(tasks)
      ensures !AllSpace(text) ==> tasks == [NewTask(Trim(text), now, iso)] + old(tasks)
      ensures filter == old(filter)
    {
      var title := Trim(text);
      if title == [] {
        return;
      }
      AddTask(title, now, iso);
    }

    /** `toggleDone`. */
    method ToggleDone(id: string)
      modifies this
      ensures tasks == Toggled(old(tasks), id)
      ensures filter == old(filter)
    {
      tasks := Toggled(tasks, id);
    }

    /** `removeTask`: nothing happens unless the user confirms. */
    method RemoveTask(id: string, confirmed: bool)
      modifies this
      ensures !confirmed ==> tasks == old(tasks)
      ensures confirmed ==> tasks == Without(old(tasks), id)
      ensures filter == old(filter)
    {
      if !confirmed {
        return;
      }
      tasks := Without(tasks, id);
    }

    /** `finishEdit`: a missing or empty id does nothing, an empty value deletes
        the task without asking, any other value becomes the title. */
    method FinishEdit(id: Option<string>, newValue: string)
      modifies this
      ensures (id.None? || id == Some("")) ==> tasks == old(tasks)
      ensures id.Some? && id.value != "" && newValue == "" ==> tasks == Without(old(tasks), id.value)
      ensures id.Some? && id.value != "" && newValue != "" ==> tasks == Retitled(old(tasks), id.value, newValue)
      ensures filter == old(filter)
    {
      if id.None? || id.value == "" {
        return;
      }
      if newValue == "" {
        tasks := Without(tasks, id.value);
      } else {
        tasks := Retitled(tasks, id.value, newValue);
      }
    }

    /** The edit field's focus-out handler: the field's text is trimmed before
        `finishEdit` sees it, so a blank edit deletes the task. */
    method CommitEdit(id: Option<string>, text: string)
      modifies this
      ensures (id.None? || id == Some("")) ==> tasks == old(tasks)
      ensures id.Some? && id.value != "" && AllSpace(text) ==> tasks == Without(old(tasks), id.value)
      ensures id.Some? && id.value != "" && !AllSpace(text) ==> tasks == Retitled(old(tasks), id.value, Trim(text))
      ensures filter == old(filter)
    {
      FinishEdit(id, Trim(text));
    }

    /** The "clear completed" handler. */
    method ClearCompleted()
      modifies this
      ensures tasks == Pending(old(tasks))
      ensures filter == old(filter)
    {
      tasks := Pending(tasks);
    }

    /** A filter button: the filter changes, the tasks do not. */
    method SelectFilter(f: string)
      modifies this
      ensures filter == f && tasks == old(tasks)
    {
      filter := f;
    }

    /** The import handler, given the parse result of the file's text: on a refusal
        the list is left as it was and the reason is reported; otherwise the
        normalised records replace the whole list. */
    method ImportList(parsed: Option<Json>, now: nat -> nat, iso: nat -> string)
      returns (failure: Option<ImportError>)
      modifies this
      ensures failure.Some? <==> ImportTasks(parsed, now, iso).Err?
      ensures failure.Some? ==> failure.value == ImportTasks(parsed, now, iso).error && tasks == old(tasks)
      ensures failure.None? ==> tasks == ImportTasks(parsed, now, iso).value
      ensures filter == old(filter)
    {
      match ImportTasks(parsed, now, iso)
      case Err(e) =>
        failure := Some(e);
      case Ok(ts) =>
        tasks := ts;
        failure := None;
    }

    /** `render`: the rows of the tasks the filter shows, in list order and with
        escaped titles, or the placeholder when none is shown; both counters are
        taken over the whole list, whatever the filter. */
    method Render() returns (view: View)
      ensures view.total == |tasks| && view.doneCount == DoneCount(tasks)
      ensures Visible(tasks, filter) == [] <==> view.listing == Placeholder
      ensures view.listing.Rows? ==> RowsOf(view.listing.rows, Visible(tasks, filter))
    {
      var visible := Visible(tasks, filter);
      var listing := Placeholder;
      if |visible| != 0 {
        var rows: seq<Row> := [];
        var i := 0;
        while i < |visible|
          invariant 0 <= i <= |visible|
          invariant |rows| == i
          invariant forall k :: 0 <= k < i ==> rows[k] == RowOf(visible[k])
        {
          var row := RowOf(visible[i]);
          rows := rows + [row];
          i := i + 1;
        }
        listing := Rows(rows);
      }
      view := View(listing, |tasks|, DoneCount(tasks));
    }
  }

  /** Clearing the completed tasks and then choosing "completed" draws the
      placeholder and a done counter of zero. */
  method ClearThenShowCompleted(list: TaskList) returns (view: View)
    modifies list
    ensures list.tasks == Pending(old(list.tasks)) && list.filter == CompletedFilter
    ensures view.listing == Placeholder && view.doneCount == 0
    ensures view.total == |old(list.tasks)| - DoneCount(old(list.tasks))
  {
    ClearCompletedEffect(list.tasks);
    list.ClearCompleted();
    list.SelectFilter(CompletedFilter);
    view := list.Render();
  }

  /** A click on a row's checkbox, as the handlers are wired: the checkbox's own
      listener toggles the task, then the click bubbles to the list, whose delegated
      listener still finds the row of the (now detached) checkbox and toggles the
      task again. The click has no effect; one toggle, as `ToggleDone` performs,
      is what the listener was added for. */
  method ClickCheckboxAsWritten(list: TaskList, id: string)
    modifies list
    ensures list.tasks == old(list.tasks) && list.filter == old(list.filter)
  {
    ToggleTwice(list.tasks, id);
    list.ToggleDone(id);
    list.ToggleDone(id);
  }

  /** A task not done stays not done after a checkbox click as wired, while one
      toggle marks it done. */
  lemma CheckboxClickLost()
    ensures var ts := [Task("1", "buy milk", false, JStr("2024-01-01T00:00:00.000Z"))];
            && !Toggled(Toggled(ts, "1"), "1")[0].done
            && Toggled(ts, "1")[0].done
  {
    var ts := [Task("1", "buy milk", false, JStr("2024-01-01T00:00:00.000Z"))];
    ToggleTwice(ts, "1");
  }
}
