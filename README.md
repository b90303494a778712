# Listas task list — a Dafny model of its state and view logic

Listas is a single-page to-do list. One script keeps an ordered list of task
records `{ id, title, done, createdAt }` and a filter (`all`, `active` or
`completed`), changes them in response to the page's events, stores the list
in the browser's local storage, and redraws the list after every change.

This project models the part of that script that is logic rather than page
wiring:

- the store: the list and the filter as the fields of a class `TaskList`,
  with one method per handler — add (and the submit handler's blank-input
  guard), toggle, delete with its confirmation, finish an edit (an empty value
  deletes), clear completed, choose a filter, and import;
- the pure list transformations these handlers apply (`filter` and `map` over
  the list), proved to keep order, to touch only the entries with the given id,
  to partition the list between "active" and "completed", and so on;
- the view model `render` derives: the visible rows in list order with their
  titles escaped, the "no tasks" placeholder, and the total and done counters,
  both taken over the whole list;
- `escapeHtml`, proved to leave no `<`, `>` or `"` and no `&` except at the
  start of one of its own entities, and to be undone by reading the entities
  back;
- import normalisation of each record of a parsed JSON array, with its failure
  cases, the export record shape and the round trip export → import;
- the shape check of the load from storage.

Modules: `Wrappers` (Option, Result), `JsValues` (a parsed JSON value and the
JavaScript coercions `String(v)`, `Boolean(v)`, `trim()` the script relies on),
`Escape`, `Tasks`, `Import`, `Store`.

Where the code and its description differ, the model follows the code:

- Import does not coerce `createdAt`: a present value of any type is kept
  (`t.createdAt ?? …`), so `Task.createdAt` is a JSON value; tasks created by
  the add form hold a string.
- Ids are not unique by construction, so toggling, editing and deleting act on
  every entry with the given id, not on a single one.
- The filter is whatever string the button carries; any value other than
  `active` and `completed` shows the whole list.
- An imported array is refused as a whole when the `map` callback throws on
  one of its elements, and the handler's `catch` alerts and leaves the list as
  it was. It throws on a `null` element, whose `id` read fails, and on an
  element whose id or title `String()` cannot convert: an object with its own
  `toString` key, or an array holding one at any depth.

Clock values (`Date.now()`, `new Date().toISOString()`) and the answer of the
confirmation dialog are parameters. During import the clock is read inside the
callback, only for an element whose id is absent or null (`Date.now()`) or whose
timestamp is absent or null (`new Date()`), so zero to two readings per element; the model takes
both readings as functions of the element's index and uses them only where the
callback reads them.

## Model

| member | source | states |
|---|---|---|
| `JsValues.Trim` | script.js:26-27 | `trim()` gives the empty text exactly when the text is all white space (when the submit handler returns early); otherwise the piece between the leading and trailing white space, which neither starts nor ends with white space |
| `JsValues.NatString` | script.js:119 | `String(Date.now())` is a non-empty string of decimal digits without a leading zero |
| `JsValues.NatStringValue` | script.js:119 | reading the digits of the generated id back gives the clock value |
| `JsValues.JsString` | script.js:101-102 | `String(v)` keeps a string as it is, prints a number as its decimal digits without a leading zero (after a minus sign when negative) whose value is the number, a boolean as `true`/`false`, an object as `[object Object]` and an empty array as the empty text; it is defined only where `String` does not throw |
| `JsValues.JsStringArrayAppend` | script.js:101-102 | `String` of an array joins its elements' texts with commas: appending an element appends a comma (none after an empty array) and the element's text, empty for `null` |
| `JsValues.Truthy` | script.js:103 | `Boolean(v)` is false exactly for `null`, `false`, `0` and the empty string; arrays and objects, even empty, are true |
| `Escape.ReplaceAll` | script.js:233-236 | one `replaceAll` pass leaves text without the character unchanged |
| `Escape.ReplaceAllAppend` | script.js:233-236 | a `replaceAll` pass distributes over concatenation |
| `Escape.EscapePassesAreEscaped` | script.js:231-237 | the four passes in their order (`&` first) equal escaping each character on its own |
| `Escape.EscapeHtml` | script.js:231-237 | `escapeHtml` escapes each character on its own; its result has no `<`, `>` or `"`, each `&` in it starts `&amp;`, `&lt;`, `&gt;` or `&quot;`, and reading the entities back gives the original title |
| `Tasks.Shows` | script.js:168-172 | a done task is visible under every filter but "active", a task not done under every filter but "completed" |
| `Tasks.Keep` | script.js:168-172 | `filter` returns only entries the predicate keeps, contains every kept entry of the list, and is no longer than the list |
| `Tasks.KeepSubseq` | script.js:168-172 | `filter` keeps list order: its result is a subsequence of the list |
| `Tasks.KeepCount` | script.js:168-172 | `filter` keeps every occurrence of a kept entry and none of the others |
| `Tasks.KeepSplit` | script.js:168-172 | filtering by a predicate and by its negation splits the list: lengths add up and the multisets add up to the list's |
| `Tasks.Update` | script.js:130 | the id-matching `map` keeps the length, changes exactly the entries with the id and leaves the others equal |
| `Tasks.Toggled` | script.js:130 | toggling keeps length, ids, titles and timestamps, flips `done` exactly on the entries with the id and leaves the rest equal |
| `Tasks.ToggleTwice` | script.js:129-130 | toggling the same id twice restores the list |
| `Tasks.Retitled` | script.js:160 | a non-empty edit keeps the length and changes only the titles of the entries with the id, to the new value |
| `Tasks.RetitleIdempotent` | script.js:160 | committing the same edit twice equals committing it once |
| `Tasks.Without` | script.js:137 | after deleting, no entry has the id, every entry with another id is still there, and a list without the id is unchanged |
| `Tasks.WithoutExact` | script.js:137 | deleting keeps the other entries in their order, each as often as before |
| `Tasks.Pending` | script.js:74 | clearing completed leaves only undone tasks and keeps every undone one |
| `Tasks.ClearCompletedEffect` | script.js:74 | clearing completed keeps exactly the undone tasks in order, removes as many as the done counter said, and leaves "completed" empty and the done counter at zero |
| `Tasks.Visible` | script.js:168-172 | the visible tasks are the ones the filter shows, all of them |
| `Tasks.DoneCount` | script.js:205 | the done counter is at most the number of tasks |
| `Tasks.DoneCountIsCompleted` | script.js:204-205 | the done counter equals the number of tasks "completed" shows and is at most the total |
| `Tasks.Partition` | script.js:167-172 | "active" and "completed" are disjoint, together are the whole list (multisets and lengths), each keeps list order; "all" and any unknown filter show the whole list |
| `Import.Field` | script.js:101-104 | reading a field yields a value only for an object that has that key, and then yields its value |
| `Import.FieldOr` | script.js:101-104 | `??` yields the field when it is present and not null, and the fallback otherwise |
| `Import.Normalized` | script.js:100-105 | for an element the callback accepts, a present id and title become their `String` (a string stays as it is), an absent or null id becomes `imp-<clock>-<index>`, an absent or null title `""`, done is the field's truth, a present timestamp is kept as it is and an absent or null one is the clock's ISO string |
| `Import.FirstRejected` | script.js:100-105 | finds the first element the callback throws on (null, or an id or title `String` cannot convert), and finds none exactly when it accepts every element |
| `Import.NormalizeAll` | script.js:100-105 | the `map` succeeds exactly when the callback accepts every element, giving one normalised task per element at the same index; otherwise it fails at the first element it throws on, as a null record when that element is null and otherwise naming the field (`id` before `title`) that `String` could not convert |
| `Import.ImportTasks` | script.js:97-105 | a parse failure and a non-array are refused; an array is refused exactly when the callback throws on one of its elements, reporting the first, and otherwise gives a list of the same length, element by element normalised |
| `Import.Record` | script.js:80 | the exported record of a task has exactly the keys `id`, `title`, `done` and `createdAt`, holding the task's id and title as strings, its flag as a boolean and its timestamp as it is |
| `Import.Exported` | script.js:80 | the export writes one record per task, in order |
| `Import.RecordRoundTrip` | script.js:100-105 | normalising the exported record of a task with a non-null timestamp gives the task back |
| `Import.ExportImportRoundTrip` | script.js:97-105 | importing an exported list whose timestamps are not null gives the same list |
| `Import.LoadTasks` | script.js:217-228 | loading yields the stored array's elements when the item is a non-empty text that parses to an array, and the empty list otherwise |
| `Store.NewTask` | script.js:118-123 | the added task has the given title, is not done, carries the clock's ISO timestamp, and its id is a non-empty digit string that reads back as the clock value |
| `Store.RowOf` | script.js:183-194 | the row drawn for a task carries its id and done flag, and a title that is safe markup and reads back as the task's title |
| `Store.TaskList.constructor` | script.js:17-18 | the page starts from the loaded list with the filter at "all" |
| `Store.TaskList.AddTask` | script.js:117-127 | the new task, not done, with the given title and clock-derived id and timestamp, is put in front; the list grows by one |
| `Store.TaskList.Submit` | script.js:24-31 | blank input leaves the list unchanged; other input adds its trimmed text in front |
| `Store.TaskList.ToggleDone` | script.js:129-133 | the list becomes the toggled list |
| `Store.TaskList.RemoveTask` | script.js:135-140 | a declined confirmation leaves the list unchanged; a confirmed one deletes the entries with the id |
| `Store.TaskList.FinishEdit` | script.js:154-164 | a missing or empty id does nothing; an empty value deletes the entries with the id; any other value retitles them |
| `Store.TaskList.CommitEdit` | script.js:55-59 | the edit field's text is trimmed first, so a blank edit deletes and any other edit sets the trimmed title |
| `Store.TaskList.ClearCompleted` | script.js:73-77 | the list becomes its undone tasks |
| `Store.TaskList.SelectFilter` | script.js:61-71 | the filter takes the button's value and the list is untouched |
| `Store.TaskList.ImportList` | script.js:95-111 | a refused import reports its reason and leaves the list unchanged; an accepted one replaces the whole list with the normalised records |
| `Store.TaskList.Render` | script.js:167-206 | the placeholder exactly when nothing is visible, else one row per visible task in order, with id, done flag and escaped (safe, reversible) title; total and done counters over the whole list |
| `Store.ClickCheckboxAsWritten` | script.js:197-199 | a checkbox click, toggled by the checkbox's listener and again by the list's delegated one, leaves the list as it was |
| `Store.CheckboxClickLost` | script.js:197-199 | for a one-task list the wired click leaves the task not done where one toggle marks it done |
| `Store.ClearThenShowCompleted` | script.js:73-77 | after clearing completed and choosing "completed", the view is the placeholder with a done counter of zero and a total of the undone tasks |

## Left out

- Page wiring: element lookup, markup construction, event listeners, class and
  `aria-selected` toggling, and the list's click delegation (its "no id, do
  nothing" guard included); toggle and delete are modelled from the id on,
  apart from the double toggle of a checkbox click (see Findings).
- `startEdit` (the edit field, focus and caret) and the Escape key that cancels
  an edit by redrawing: both only touch the page.
- Local storage writes and `console.error`: the model does not follow what is
  stored after each change, nor the swallowed write failures.
- JSON text: `JSON.parse` and `JSON.stringify` are not modelled; import starts
  from the parse result (or its failure), export ends at the record values.
  The download of `todos.json` and the asynchronous file read are left out.
- Numbers in JSON are modelled as integers; fractional numbers and the
  exponent form `String` uses from 1e21 on are left out.
- JsValues.JsString: prints every integer with all its digits, while
  `JSON.parse` reads numbers as doubles, so an integer beyond 2^53 prints as
  its nearest double (`String(2**60)` is `"1152921504606847000"`, not
  `"1152921504606846976"`).
- Import.Normalized: a numeric id or title beyond 2^53 becomes the text
  `JsString` gives, not the double's text the script produces (see the line
  above).
- Records loaded from storage are not normalised by the script; `LoadTasks`
  returns them as raw values, but the store holds `Task` records only, so a
  malformed stored record cannot be represented.
- Text is a sequence of Unicode scalar values, not UTF-16 code units, so lone
  surrogates in titles are not represented.
- `escapeHtml` applies `String()` to its argument; titles in the model are
  already strings.

## Findings

| source | as written | input that shows it | evidently intended | confidence | as-written member | corrected member |
|---|---|---|---|---|---|---|
| script.js:197-199 | a click on a row's checkbox runs the checkbox's listener, which toggles the task and redraws, and then bubbles to the list, whose delegated listener finds the detached row by `closest('.task-item')` and toggles the task back | a list with one task not done; click its checkbox | the click toggles the task once | medium, not executed | `Store.ClickCheckboxAsWritten`, `Store.CheckboxClickLost` | `Store.TaskList.ToggleDone` |
