/**
 * The task records and the array operations the store and the list page apply to
 * them: `filter`, `find`, `findIndex`, `splice` and the object spreads that build
 * and merge tasks.
 */
module Tasks {
  import opened Wrappers
  import opened Text

  datatype TaskStatus = Todo | InProgress | Done

  /** A stored task; `description` and `dueDate` may be absent. */
  datatype Task = Task(
    id: string,
    title: string,
    description: Option<string>,
    status: TaskStatus,
    dueDate: Option<string>,
    createdAt: string,
    updatedAt: string)

  /** The fields a client may supply on create or update; each may be absent. */
  datatype TaskInput = TaskInput(
    title: Option<string>,
    description: Option<string>,
    status: Option<TaskStatus>,
    dueDate: Option<string>)

  const EmptyInput := TaskInput(None, None, None, None)

  // ---------------------------------------------------------------------------
  // Array.prototype.filter

  function Filter<T>(s: seq<T>, keep: T -> bool): (r: seq<T>)
    ensures |r| <= |s|
  {
    if s == [] then []
    else if keep(s[0]) then [s[0]] + Filter(s[1..], keep)
    else Filter(s[1..], keep)
  }

  /** `filter` keeps every occurrence of what passes and no occurrence of what fails. */
  lemma {:induction false} FilterCounts<T(!new)>(s: seq<T>, keep: T -> bool)
    ensures forall x :: multiset(Filter(s, keep))[x] == if keep(x) then multiset(s)[x] else 0
  {
    if s != [] {
      FilterCounts(s[1..], keep);
      assert s == [s[0]] + s[1..];
    }
  }

  /** What `filter` returns passes the test, and everything that passes is returned. */
  lemma FilterMembers<T(!new)>(s: seq<T>, keep: T -> bool)
    ensures forall x :: x in Filter(s, keep) <==> x in s && keep(x)
  {
    FilterCounts(s, keep);
    forall x ensures x in Filter(s, keep) <==> x in s && keep(x) {
      assert x in Filter(s, keep) <==> multiset(Filter(s, keep))[x] > 0;
      assert x in s <==> multiset(s)[x] > 0;
    }
  }

  /** `a` is `b` with some elements left out, the others in their original order. */
  ghost predicate IsSubsequence<T>(a: seq<T>, b: seq<T>)
    decreases |b|
  {
    a == [] ||
    (b != [] && ((a[0] == b[0] && IsSubsequence(a[1..], b[1..])) || IsSubsequence(a, b[1..])))
  }

  lemma {:induction false} SubsequenceTransitive<T>(a: seq<T>, b: seq<T>, c: seq<T>)
    requires IsSubsequence(a, b) && IsSubsequence(b, c)
    ensures IsSubsequence(a, c)
    decreases |c|
  {
    if a != [] {
      if IsSubsequence(b, c[1..]) {
        SubsequenceTransitive(a, b, c[1..]);
      } else if a[0] == b[0] && IsSubsequence(a[1..], b[1..]) {
        SubsequenceTransitive(a[1..], b[1..], c[1..]);
      } else {
        SubsequenceTransitive(a, b[1..], c[1..]);
      }
    }
  }

  /** `filter` keeps the order of what it keeps. */
  lemma {:induction false} FilterIsSubsequence<T(!new)>(s: seq<T>, keep: T -> bool)
    ensures IsSubsequence(Filter(s, keep), s)
  {
    if s != [] {
      FilterIsSubsequence(s[1..], keep);
      var rest := Filter(s[1..], keep);
      if !keep(s[0]) && rest != [] {
        FilterMembers(s[1..], keep);
        assert rest[0] in rest;
      }
    }
  }

  /** A filter whose predicate holds everywhere returns its input. */
  lemma {:induction false} FilterKeepsAll<T(!new)>(s: seq<T>, keep: T -> bool)
    requires forall x :: x in s ==> keep(x)
    ensures Filter(s, keep) == s
  {
    if s != [] {
      FilterKeepsAll(s[1..], keep);
    }
  }

  // ---------------------------------------------------------------------------
  // Lookup by id: Array.prototype.findIndex and Array.prototype.find

  /** `task.id === id`, where an absent `id` (undefined) matches no task. */
  predicate HasId(t: Task, id: Option<string>) {
    id == Some(t.id)
  }

  /** `findIndex`: the first index whose task has `id`, or -1. */
  function FindIndex(ts: seq<Task>, id: Option<string>): (k: int)
    ensures -1 <= k < |ts|
    ensures k == -1 <==> forall i :: 0 <= i < |ts| ==> !HasId(ts[i], id)
    ensures k >= 0 ==> HasId(ts[k], id) && forall i :: 0 <= i < k ==> !HasId(ts[i], id)
  {
    if ts == [] then -1
    else if HasId(ts[0], id) then 0
    else
      var k := FindIndex(ts[1..], id);
      if k == -1 then -1 else k + 1
  }

  /** `find`: the first task with `id`, which is the one at `findIndex`. */
  function Find(ts: seq<Task>, id: Option<string>): (r: Option<Task>)
    ensures r == if FindIndex(ts, id) == -1 then None else Some(ts[FindIndex(ts, id)])
  {
    if ts == [] then None
    else if HasId(ts[0], id) then Some(ts[0])
    else Find(ts[1..], id)
  }

  /** `splice(k, 1)`. */
  function RemoveAt(ts: seq<Task>, k: nat): seq<Task>
    requires k < |ts|
  {
    ts[..k] + ts[k + 1..]
  }

  // ---------------------------------------------------------------------------
  // Building and merging task records

  /**
   * The record `createTask` builds: `title: input.title || ""`,
   * `status: input.status || "TODO"`, the optional fields copied, both timestamps `now`.
   */
  function NewTask(id: string, input: TaskInput, now: string): (t: Task)
    ensures t.id == id
    ensures t.title == input.title.GetOr("")
    ensures t.status == input.status.GetOr(Todo)
    ensures t.description == input.description && t.dueDate == input.dueDate
    ensures t.createdAt == now && t.updatedAt == now
  {
    Task(
      id,
      if input.title.Some? && input.title.value != "" then input.title.value else "",
      input.description,
      if input.status.Some? then input.status.value else Todo,
      input.dueDate,
      now,
      now)
  }

  /** `{...t, ...input, updatedAt: now}`: fields present in `input` overwrite. */
  function Merge(t: Task, input: TaskInput, now: string): Task {
    t.(
      title := if input.title.Some? then input.title.value else t.title,
      description := if input.description.Some? then input.description else t.description,
      status := if input.status.Some? then input.status.value else t.status,
      dueDate := if input.dueDate.Some? then input.dueDate else t.dueDate,
      updatedAt := now)
  }

  /**
   * A merge keeps the identity and creation time, stamps `now`, takes every field
   * the input supplies and keeps every field it leaves out.
   */
  lemma MergeFields(t: Task, input: TaskInput, now: string)
    ensures var m := Merge(t, input, now);
      && m.id == t.id && m.createdAt == t.createdAt && m.updatedAt == now
      && m.title == input.title.GetOr(t.title)
      && m.status == input.status.GetOr(t.status)
      && (input.description.Some? ==> m.description == input.description)
      && (input.description.None? ==> m.description == t.description)
      && (input.dueDate.Some? ==> m.dueDate == input.dueDate)
      && (input.dueDate.None? ==> m.dueDate == t.dueDate)
  {
  }

  /** Merging the same input twice is merging it once. */
  lemma MergeIdempotent(t: Task, input: TaskInput, now: string)
    ensures Merge(Merge(t, input, now), input, now) == Merge(t, input, now)
  {
  }

  /** An update with an empty input only refreshes `updatedAt`. */
  lemma MergeEmpty(t: Task, now: string)
    ensures Merge(t, EmptyInput, now) == t.(updatedAt := now)
  {
  }

  // ---------------------------------------------------------------------------
  // The store's id discipline

  /** No two tasks share an id. */
  ghost predicate UniqueIds(ts: seq<Task>) {
    forall i, j :: 0 <= i < j < |ts| ==> ts[i].id != ts[j].id
  }

  /** Every id is a string of decimal digits whose value is below the counter `next`. */
  ghost predicate IdsBelow(ts: seq<Task>, next: nat) {
    forall i :: 0 <= i < |ts| ==> IsDecimal(ts[i].id) && ParseDecimal(ts[i].id) < next
  }

  /** Prepending a task whose id is `String(next)` and bumping the counter keeps both invariants. */
  lemma CreateKeepsIds(ts: seq<Task>, next: nat, t: Task)
    requires UniqueIds(ts) && IdsBelow(ts, next)
    requires t.id == DecimalString(next)
    ensures UniqueIds([t] + ts) && IdsBelow([t] + ts, next + 1)
  {
    ParseDecimalString(next);
    var ts' := [t] + ts;
    forall i, j | 0 <= i < j < |ts'|
      ensures ts'[i].id != ts'[j].id
    {
      if i == 0 {
        assert ParseDecimal(ts'[j].id) < next;
      }
    }
  }

  /** Removing one task keeps both invariants. */
  lemma RemoveKeepsIds(ts: seq<Task>, next: nat, k: nat)
    requires k < |ts|
    requires UniqueIds(ts) && IdsBelow(ts, next)
    ensures UniqueIds(RemoveAt(ts, k)) && IdsBelow(RemoveAt(ts, k), next)
  {
    var r := RemoveAt(ts, k);
    assert forall i :: 0 <= i < |r| ==> r[i] == ts[if i < k then i else i + 1];
  }

  /** With unique ids, once the task with `id` is spliced out no task has that id. */
  lemma RemoveFindsNothing(ts: seq<Task>, id: Option<string>)
    requires UniqueIds(ts) && FindIndex(ts, id) >= 0
    ensures FindIndex(RemoveAt(ts, FindIndex(ts, id)), id) == -1
  {
    var k := FindIndex(ts, id);
    var r := RemoveAt(ts, k);
    assert forall i :: 0 <= i < |r| ==> r[i] == ts[if i < k then i else i + 1];
  }
}
