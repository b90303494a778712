/**
 * The task list and the pure transformations the handlers apply to it:
 * `Array.prototype.filter` and `map` over the tasks, the filter that picks
 * the visible tasks, and the done counter.
 */
module Tasks {
  import opened JsValues

  /** A task record `{ id, title, done, createdAt }`. `createdAt` is whatever
      value the record carried: tasks made by the add form hold an ISO
      timestamp string, and import keeps a present value without coercing it. */
  datatype Task = Task(id: string, title: string, done: bool, createdAt: Json)

  /** The filter values the filter buttons carry. */
  const AllFilter: string := "all"
  const ActiveFilter: string := "active"
  const CompletedFilter: string := "completed"

  /** Whether a task is visible under `filter`: a done task under every filter
      but "active", a task not done under every filter but "completed". */
  function Shows(filter: string, t: Task): (b: bool)
    ensures t.done ==> (b <==> filter != ActiveFilter)
    ensures !t.done ==> (b <==> filter != CompletedFilter)
  {
    if filter == ActiveFilter then !t.done
    else if filter == CompletedFilter then t.done
    else true
  }

  /** `a` is `b` with some elements deleted, the rest in their order. */
  predicate SubseqOf(a: seq<Task>, b: seq<Task>)
    decreases |b|
  {
    if b == [] then a == []
    else (a != [] && a[0] == b[0] && SubseqOf(a[1..], b[1..])) || SubseqOf(a, b[1..])
  }

  /** `ts.filter(keep)`. */
  function Keep(ts: seq<Task>, keep: Task -> bool): (r: seq<Task>)
    ensures |r| <= |ts|
    ensures forall i :: 0 <= i < |r| ==> keep(r[i])
    ensures forall t :: t in r <==> t in ts && keep(t)
  {
    if ts == [] then []
    else (if keep(ts[0]) then [ts[0]] else []) + Keep(ts[1..], keep)
  }

  /** The filter keeps order: its result is a subsequence of the list. */
  lemma {:induction false} KeepSubseq(ts: seq<Task>, keep: Task -> bool)
    ensures SubseqOf(Keep(ts, keep), ts)
  {
    if ts != [] {
      KeepSubseq(ts[1..], keep);
      var r := Keep(ts, keep);
      if keep(ts[0]) {
        assert r[0] == ts[0] && r[1..] == Keep(ts[1..], keep);
      } else {
        assert r == Keep(ts[1..], keep);
      }
    }
  }

  /** The filter keeps every occurrence of a kept task and none of the others. */
  lemma {:induction false} KeepCount(ts: seq<Task>, keep: Task -> bool, t: Task)
    ensures multiset(Keep(ts, keep))[t] == if keep(t) then multiset(ts)[t] else 0
  {
    if ts != [] {
      KeepCount(ts[1..], keep, t);
      assert ts == [ts[0]] + ts[1..];
    }
  }

  /** Filtering by a predicate and by its negation splits the list in two. */
  lemma {:induction false} KeepSplit(ts: seq<Task>, p: Task -> bool, q: Task -> bool)
    requires forall t :: q(t) == !p(t)
    ensures |Keep(ts, p)| + |Keep(ts, q)| == |ts|
    ensures multiset(Keep(ts, p)) + multiset(Keep(ts, q)) == multiset(ts)
  {
    if ts != [] {
      KeepSplit(ts[1..], p, q);
      assert ts == [ts[0]] + ts[1..];
    }
  }

  /** Filtering by predicates that agree on the list gives the same list. */
  lemma {:induction false} KeepExt(ts: seq<Task>, p: Task -> bool, q: Task -> bool)
    requires forall t :: t in ts ==> p(t) == q(t)
    ensures Keep(ts, p) == Keep(ts, q)
  {
    if ts != [] {
      KeepExt(ts[1..], p, q);
    }
  }

  /** `ts.map((t: Task) => t.id === id ? change(t) : t)`. */
  function Update(ts: seq<Task>, id: string, change: Task -> Task): (r: seq<Task>)
    ensures |r| == |ts|
    ensures forall i :: 0 <= i < |ts| ==> r[i] == if ts[i].id == id then change(ts[i]) else ts[i]
  {
    if ts == [] then []
    else [if ts[0].id == id then change(ts[0]) else ts[0]] + Update(ts[1..], id, change)
  }

  /** The list after `toggleDone(id)`: the flag flips exactly on the entries with
      that id; ids, titles, timestamps and all other entries stay as they were. */
  function Toggled(ts: seq<Task>, id: string): (r: seq<Task>)
    ensures |r| == |ts|
    ensures forall i :: 0 <= i < |ts| ==>
              r[i].id == ts[i].id && r[i].title == ts[i].title && r[i].createdAt == ts[i].createdAt
              && (r[i].done <==> (ts[i].done != (ts[i].id == id)))
    ensures forall i :: 0 <= i < |ts| && ts[i].id != id ==> r[i] == ts[i]
  {
    Update(ts, id, (t: Task) => t.(done := !t.done))
  }

  /** Toggling the same id twice restores the list. */
  lemma ToggleTwice(ts: seq<Task>, id: string)
    ensures Toggled(Toggled(ts, id), id) == ts
  {
    var r := Toggled(Toggled(ts, id), id);
    assert forall i :: 0 <= i < |ts| ==> r[i] == ts[i];
  }

  /** The list after a non-empty edit: only the titles of the entries with that id
      change, to the new value. */
  function Retitled(ts: seq<Task>, id: string, title: string): (r: seq<Task>)
    ensures |r| == |ts|
    ensures forall i :: 0 <= i < |ts| ==>
              r[i].id == ts[i].id && r[i].done == ts[i].done && r[i].createdAt == ts[i].createdAt
              && r[i].title == (if ts[i].id == id then title else ts[i].title)
    ensures forall i :: 0 <= i < |ts| && ts[i].id != id ==> r[i] == ts[i]
  {
    Update(ts, id, (t: Task) => t.(title := title))
  }

  /** Committing the same edit twice changes nothing the second time. */
  lemma RetitleIdempotent(ts: seq<Task>, id: string, title: string)
    ensures Retitled(Retitled(ts, id, title), id, title) == Retitled(ts, id, title)
  {
    var once := Retitled(ts, id, title);
    var twice := Retitled(once, id, title);
    assert forall i :: 0 <= i < |ts| ==> twice[i] == once[i];
  }

  /** The list after deleting id: no entry has it, and every other entry is kept. */
  function Without(ts: seq<Task>, id: string): (r: seq<Task>)
    ensures forall i :: 0 <= i < |r| ==> r[i].id != id
    ensures forall t :: t in ts && t.id != id ==> t in r
    ensures (forall t :: t in ts ==> t.id != id) ==> r == ts
  {
    var r := Keep(ts, (t: Task) => t.id != id);
    assert (forall t :: t in ts ==> t.id != id) ==> r == ts by {
      if forall t :: t in ts ==> t.id != id {
        KeepExt(ts, (t: Task) => t.id != id, (t: Task) => true);
        KeepAll(ts);
      }
    }
    r
  }

  lemma {:induction false} KeepAll(ts: seq<Task>)
    ensures Keep(ts, (t: Task) => true) == ts
  {
    if ts != [] {
      KeepAll(ts[1..]);
    }
  }

  /** Deleting keeps the other entries in their order, each as often as before. */
  lemma WithoutExact(ts: seq<Task>, id: string)
    ensures SubseqOf(Without(ts, id), ts)
    ensures forall t :: multiset(Without(ts, id))[t] == if t.id != id then multiset(ts)[t] else 0
  {
    KeepSubseq(ts, (t: Task) => t.id != id);
    forall t ensures multiset(Without(ts, id))[t] == if t.id != id then multiset(ts)[t] else 0 {
      KeepCount(ts, (t: Task) => t.id != id, t);
    }
  }

  /** The list after "clear completed": the tasks not done. */
  function Pending(ts: seq<Task>): (r: seq<Task>)
    ensures forall i :: 0 <= i < |r| ==> !r[i].done
    ensures forall t :: t in ts && !t.done ==> t in r
  {
    Keep(ts, (t: Task) => !t.done)
  }

  /** The tasks `render` shows under `filter`. */
  function Visible(ts: seq<Task>, filter: string): (r: seq<Task>)
    ensures forall i :: 0 <= i < |r| ==> Shows(filter, r[i])
    ensures forall t :: t in ts && Shows(filter, t) ==> t in r
  {
    Keep(ts, (t: Task) => Shows(filter, t))
  }

  /** The done counter: `tasks.filter((t: Task) => t.done).length`. It takes no filter. */
  function DoneCount(ts: seq<Task>): (n: nat)
    ensures n <= |ts|
  {
    |Keep(ts, (t: Task) => t.done)|
  }

  /** The done counter is the number of tasks "completed" shows, and never exceeds the total. */
  lemma DoneCountIsCompleted(ts: seq<Task>)
    ensures DoneCount(ts) == |Visible(ts, CompletedFilter)| <= |ts|
  {
    KeepExt(ts, (t: Task) => t.done, (t: Task) => Shows(CompletedFilter, t));
  }

  /** "active" and "completed" partition "all": disjoint, together exactly the list
      (as a multiset, so also in number), each in list order; any other filter shows
      the whole list. */
  lemma Partition(ts: seq<Task>, other: string)
    requires other != ActiveFilter && other != CompletedFilter
    ensures Visible(ts, other) == ts && Visible(ts, AllFilter) == ts
    ensures forall t :: !(t in Visible(ts, ActiveFilter) && t in Visible(ts, CompletedFilter))
    ensures |Visible(ts, ActiveFilter)| + |Visible(ts, CompletedFilter)| == |ts|
    ensures multiset(Visible(ts, ActiveFilter)) + multiset(Visible(ts, CompletedFilter)) == multiset(ts)
    ensures SubseqOf(Visible(ts, ActiveFilter), ts) && SubseqOf(Visible(ts, CompletedFilter), ts)
  {
    KeepExt(ts, (t: Task) => Shows(other, t), (t: Task) => true);
    KeepExt(ts, (t: Task) => Shows(AllFilter, t), (t: Task) => true);
    KeepAll(ts);
    KeepSplit(ts, (t: Task) => Shows(ActiveFilter, t), (t: Task) => Shows(CompletedFilter, t));
    KeepSubseq(ts, (t: Task) => Shows(ActiveFilter, t));
    KeepSubseq(ts, (t: Task) => Shows(CompletedFilter, t));
  }

  /** Filtering out everything leaves nothing. */
  lemma {:induction false} KeepNone(ts: seq<Task>, keep: Task -> bool)
    requires forall i :: 0 <= i < |ts| ==> !keep(ts[i])
    ensures Keep(ts, keep) == []
  {
    if ts != [] {
      KeepNone(ts[1..], keep);
    }
  }

  /** "Clear completed" keeps exactly the undone tasks in order, and afterwards
      "completed" shows nothing and the done counter is zero. */
  lemma ClearCompletedEffect(ts: seq<Task>)
    ensures Pending(ts) == Visible(ts, ActiveFilter)
    ensures SubseqOf(Pending(ts), ts)
    ensures |Pending(ts)| == |ts| - DoneCount(ts)
    ensures Visible(Pending(ts), CompletedFilter) == []
    ensures DoneCount(Pending(ts)) == 0
  {
    KeepExt(ts, (t: Task) => !t.done, (t: Task) => Shows(ActiveFilter, t));
    KeepSubseq(ts, (t: Task) => !t.done);
    KeepSplit(ts, (t: Task) => t.done, (t: Task) => !t.done);
    var p := Pending(ts);
    KeepNone(p, (t: Task) => Shows(CompletedFilter, t));
    KeepNone(p, (t: Task) => t.done);
  }
}
