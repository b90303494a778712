/**
 * Reading task lists from JSON: the normalisation the import handler applies
 * to each record of an imported array, the record shape the export writes,
 * and the shape check of the load from storage.
 */
module Import {
  import opened Wrappers
  import opened JsValues
  import opened Tasks

  /** Why an import is refused; each one reaches the user as an alert. */
  datatype ImportError =
    | Unparseable           // `JSON.parse` threw
    | NotAnArray            // the top-level value is not an array
    | NullRecord(index: nat) // reading `t.id` of a `null` element threw
    | UnconvertibleField(index: nat, key: string) // `String()` of its id or title threw

  /** `v[key]` for a value that is not null: only objects have the fields asked for. */
  function Field(v: Json, key: string): (r: Option<Json>)
    ensures r.Some? ==> v.JObj? && key in v.fields && r.value == v.fields[key]
    ensures v.JObj? && key in v.fields ==> r.Some?
  {
    if v.JObj? && key in v.fields then Some(v.fields[key]) else None
  }

  /** The field is there and is not null: what `??` tests. */
  predicate Present(v: Json, key: string) {
    Field(v, key).Some? && Field(v, key).value != JNull
  }

  /** `v[key] ?? fallback`. */
  function FieldOr(v: Json, key: string, fallback: Json): (r: Json)
    ensures Present(v, key) ==> r == v.fields[key]
    ensures !Present(v, key) ==> r == fallback
  {
    if Present(v, key) then Field(v, key).value else fallback
  }

  /** The id given to an imported record without one: `imp-<clock>-<index>`. */
  function DefaultId(now: nat, i: nat): string {
    "imp-" + NatString(now) + "-" + NatString(i)
  }

  /** `String(v[key] ?? …)` does not throw: the field is absent, null, or a value
      `String` converts. */
  predicate Converts(v: Json, key: string) {
    !StringThrows(FieldOr(v, key, JNull))
  }

  /** The `map` callback returns for this element: it is not null, and its id and
      title convert to strings. */
  predicate Accepted(v: Json) {
    v != JNull && Converts(v, "id") && Converts(v, "title")
  }

  /** The task the `map` callback builds from the element at index `i`, with the
      clock values `now` (milliseconds) and `iso` (its ISO form): a present id and
      title are turned into strings (a string stays as it is), an absent or null id
      gets the default, an absent or null title becomes empty, done is the truth of
      the field (false when absent), and a present timestamp is kept as it is while
      an absent or null one is the clock's. */
  function Normalized(v: Json, i: nat, now: nat, iso: string): (t: Task)
    requires Accepted(v)
    ensures Present(v, "id") ==> t.id == JsString(v.fields["id"])
    ensures Present(v, "id") && v.fields["id"].JStr? ==> t.id == v.fields["id"].s
    ensures !Present(v, "id") ==> t.id == DefaultId(now, i)
    ensures Present(v, "title") ==> t.title == JsString(v.fields["title"])
    ensures !Present(v, "title") ==> t.title == ""
    ensures t.done <==> Field(v, "done").Some? && Truthy(v.fields["done"])
    ensures Present(v, "createdAt") ==> t.createdAt == v.fields["createdAt"]
    ensures !Present(v, "createdAt") ==> t.createdAt == JStr(iso)
  {
    Task(
      id := JsString(FieldOr(v, "id", JStr(DefaultId(now, i)))),
      title := JsString(FieldOr(v, "title", JStr(""))),
      done := match Field(v, "done") case Some(x) => Truthy(x) case None => false,
      createdAt := FieldOr(v, "createdAt", JStr(iso)))
  }

  /** The first element from index `k` on that the callback throws on, if any. */
  function FirstRejected(items: seq<Json>, k: nat): (r: Option<nat>)
    requires k <= |items|
    ensures r.None? <==> forall j :: k <= j < |items| ==> Accepted(items[j])
    ensures r.Some? ==>
              && k <= r.value < |items| && !Accepted(items[r.value])
              && forall j :: k <= j < r.value ==> Accepted(items[j])
    decreases |items| - k
  {
    if k == |items| then None
    else if !Accepted(items[k]) then Some(k)
    else FirstRejected(items, k + 1)
  }

  /** What the callback throws on the element at index `i`: a null element fails
      at its `id` read; otherwise the id is converted before the title. */
  function RecordError(v: Json, i: nat): ImportError
    requires !Accepted(v)
  {
    if v == JNull then NullRecord(i)
    else if !Converts(v, "id") then UnconvertibleField(i, "id")
    else UnconvertibleField(i, "title")
  }

  /** `items.map(...)`: the callback runs on the elements in order, so the first
      element it throws on makes the whole map throw; when none throws, element `j`
      becomes the normalised record `j`. */
  function NormalizeAll(items: seq<Json>, now: nat -> nat, iso: nat -> string)
    : (r: Result<seq<Task>, ImportError>)
    ensures r.Ok? <==> forall j :: 0 <= j < |items| ==> Accepted(items[j])
    ensures r.Ok? ==>
              && |r.value| == |items|
              && forall j :: 0 <= j < |items| ==>
                   r.value[j] == Normalized(items[j], j, now(j), iso(j))
    ensures r.Err? ==>
              && (r.error.NullRecord? || r.error.UnconvertibleField?)
              && r.error.index < |items|
              && !Accepted(items[r.error.index])
              && (forall j :: 0 <= j < r.error.index ==> Accepted(items[j]))
              && (r.error.NullRecord? <==> items[r.error.index] == JNull)
              && (r.error.UnconvertibleField? ==>
                    r.error.key == if Converts(items[r.error.index], "id") then "title" else "id")
  {
    match FirstRejected(items, 0)
    case Some(i) => Err(RecordError(items[i], i))
    case None =>
      Ok(seq(|items|, j requires 0 <= j < |items| && Accepted(items[j]) =>
               Normalized(items[j], j, now(j), iso(j))))
  }

  /** The import handler's result for the parse result `parsed` (`None` when
      `JSON.parse` threw): a refusal, or the list that replaces the old one. The
      clock is read inside the callback, so its readings are functions of the
      element's index. */
  function ImportTasks(parsed: Option<Json>, now: nat -> nat, iso: nat -> string)
    : (r: Result<seq<Task>, ImportError>)
    ensures parsed.None? ==> r == Err(Unparseable)
    ensures parsed.Some? && !parsed.value.JArr? ==> r == Err(NotAnArray)
    ensures parsed.Some? && parsed.value.JArr? ==>
              (r.Ok? <==> forall j :: 0 <= j < |parsed.value.items| ==> Accepted(parsed.value.items[j]))
    ensures r.Err? && (r.error.NullRecord? || r.error.UnconvertibleField?) ==>
              && parsed.Some? && parsed.value.JArr?
              && r.error.index < |parsed.value.items|
              && !Accepted(parsed.value.items[r.error.index])
              && forall j :: 0 <= j < r.error.index ==> Accepted(parsed.value.items[j])
    ensures r.Ok? ==>
              && parsed.Some? && parsed.value.JArr?
              && |r.value| == |parsed.value.items|
              && forall j :: 0 <= j < |r.value| ==>
                   r.value[j] == Normalized(parsed.value.items[j], j, now(j), iso(j))
  {
    match parsed
    case None => Err(Unparseable)
    case Some(v) =>
      if !v.JArr? then Err(NotAnArray) else NormalizeAll(v.items, now, iso)
  }

  /** The record `JSON.stringify` writes for a task, as a value. */
  function Record(t: Task): (r: Json)
    ensures r.JObj? && r.fields.Keys == {"id", "title", "done", "createdAt"}
    ensures r.fields["id"] == JStr(t.id) && r.fields["title"] == JStr(t.title)
    ensures r.fields["done"] == JBool(t.done) && r.fields["createdAt"] == t.createdAt
  {
    JObj(map["id" := JStr(t.id), "title" := JStr(t.title), "done" := JBool(t.done),
             "createdAt" := t.createdAt])
  }

  /** The exported list, as a value. */
  function Exported(ts: seq<Task>): (r: Json)
    ensures r.JArr? && |r.items| == |ts|
    ensures forall i :: 0 <= i < |ts| ==> r.items[i] == Record(ts[i])
  {
    JArr(seq(|ts|, i requires 0 <= i < |ts| => Record(ts[i])))
  }

  /** Importing an exported list gives the same list back, provided no timestamp
      is null (a null one is replaced by the import clock). */
  lemma ExportImportRoundTrip(ts: seq<Task>, now: nat -> nat, iso: nat -> string)
    requires forall i :: 0 <= i < |ts| ==> ts[i].createdAt != JNull
    ensures ImportTasks(Some(Exported(ts)), now, iso) == Ok(ts)
  {
    var e := Exported(ts);
    forall i | 0 <= i < |ts| ensures Accepted(e.items[i]) && Normalized(e.items[i], i, now(i), iso(i)) == ts[i] {
      RecordRoundTrip(ts[i], i, now(i), iso(i));
    }
    var r := ImportTasks(Some(e), now, iso);
    assert r.Ok?;
    assert r.value == ts;
  }

  /** Normalising the exported record of a task gives the task back when its
      timestamp is not null. */
  lemma RecordRoundTrip(t: Task, i: nat, now: nat, iso: string)
    requires t.createdAt != JNull
    ensures Accepted(Record(t))
    ensures Normalized(Record(t), i, now, iso) == t
  {
    var v := Record(t);
    assert Present(v, "id") && Present(v, "title") && Present(v, "createdAt");
  }

  /** What the storage key holds: nothing, or a text with its parse result
      (`None` when `JSON.parse` throws). */
  datatype StoredItem = Missing | Stored(text: string, parsed: Option<Json>)

  /** The item is a non-empty text that parses to an array. */
  predicate HoldsArray(item: StoredItem) {
    item.Stored? && item.text != "" && item.parsed.Some? && item.parsed.value.JArr?
  }

  /** `loadTasks`: the stored array's elements, taken as they are; anything else
      (no item, an empty text, a parse failure, another value) gives the empty list. */
  function LoadTasks(item: StoredItem): (r: seq<Json>)
    ensures HoldsArray(item) ==> r == item.parsed.value.items
    ensures !HoldsArray(item) ==> r == []
  {
    match item
    case Missing => []
    case Stored(text, parsed) =>
      if text == "" then []
      else match parsed
        case None => []
        case Some(v) => if v.JArr? then v.items else []
  }
}
