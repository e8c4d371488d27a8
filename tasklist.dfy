/**
 * The task list page: the status and search filter, the per-status counts, and the
 * local list updates it applies after the server confirms a change.
 */
module TaskList {
  import opened Wrappers
  import opened Text
  import opened Tasks
  import opened Store
  import opened TaskForm

  /** The status selector: "ALL" or one status. */
  datatype StatusFilter = AllStatuses | Only(status: TaskStatus)

  predicate PassesStatus(filter: StatusFilter, t: Task) {
    filter.AllStatuses? || t.status == filter.status
  }

  /** The lower-cased title, or the lower-cased description when there is one, includes the lower-cased query. */
  predicate MatchesSearch(t: Task, query: string) {
    Contains(ToLower(t.title), ToLower(query)) ||
    (t.description.Some? && Contains(ToLower(t.description.value), ToLower(query)))
  }

  /** The empty search matches every task. */
  lemma EmptySearchMatchesAll()
    ensures forall t :: MatchesSearch(t, "")
  {
    forall t: Task ensures MatchesSearch(t, "") {
      ContainsEmpty(ToLower(t.title));
      assert ToLower("") == "";
    }
  }

  /** The search test as the predicate passed to `filter`. */
  function SearchHit(search: string): Task -> bool {
    (t: Task) => MatchesSearch(t, search)
  }

  /**
   * `filterTasks`: a status filter unless "ALL", then a search filter unless the query
   * is empty. The result keeps, in order, exactly the tasks that pass both tests.
   */
  function FilterTasks(tasks: seq<Task>, statusFilter: StatusFilter, search: string): (r: seq<Task>)
    ensures IsSubsequence(r, tasks)
    ensures forall t ::
      multiset(r)[t] == (if PassesStatus(statusFilter, t) && MatchesSearch(t, search) then multiset(tasks)[t] else 0)
    ensures statusFilter == AllStatuses && search == "" ==> r == tasks
  {
    EmptySearchMatchesAll();
    var byStatus := ByStatusFilter(tasks, statusFilter);
    if search == "" then byStatus
    else
      var r := Filter(byStatus, SearchHit(search));
      FilterCounts(byStatus, SearchHit(search));
      FilterIsSubsequence(byStatus, SearchHit(search));
      SubsequenceTransitive(r, byStatus, tasks);
      r
  }

  /** The first stage of `filterTasks`. */
  function ByStatusFilter(tasks: seq<Task>, statusFilter: StatusFilter): (r: seq<Task>)
    ensures IsSubsequence(r, tasks)
    ensures forall t :: multiset(r)[t] == (if PassesStatus(statusFilter, t) then multiset(tasks)[t] else 0)
  {
    match statusFilter
    case AllStatuses =>
      FilterKeepsAll(tasks, (t: Task) => true);
      FilterIsSubsequence(tasks, (t: Task) => true);
      tasks
    case Only(status) =>
      FilterCounts(tasks, StatusIs(Some(status)));
      FilterIsSubsequence(tasks, StatusIs(Some(status)));
      Filter(tasks, StatusIs(Some(status)))
  }

  /** `getStatusCounts`. */
  datatype StatusCounts = StatusCounts(total: nat, todo: nat, inProgress: nat, done: nat)

  function CountStatuses(tasks: seq<Task>): (c: StatusCounts)
    ensures c.total == |tasks|
    ensures c.todo + c.inProgress + c.done == c.total
    ensures c.todo == |Filter(tasks, StatusIs(Some(Todo)))|
    ensures c.inProgress == |Filter(tasks, StatusIs(Some(InProgress)))|
    ensures c.done == |Filter(tasks, StatusIs(Some(Done)))|
  {
    CountsPartition(tasks);
    StatusCounts(
      |tasks|,
      |Filter(tasks, StatusIs(Some(Todo)))|,
      |Filter(tasks, StatusIs(Some(InProgress)))|,
      |Filter(tasks, StatusIs(Some(Done)))|)
  }

  /** Every task has exactly one of the three statuses, so the three counts add up. */
  lemma {:induction false} CountsPartition(tasks: seq<Task>)
    ensures |Filter(tasks, StatusIs(Some(Todo)))| + |Filter(tasks, StatusIs(Some(InProgress)))|
      + |Filter(tasks, StatusIs(Some(Done)))| == |tasks|
  {
    if tasks != [] {
      CountsPartition(tasks[1..]);
      FilterStep(tasks, StatusIs(Some(Todo)));
      FilterStep(tasks, StatusIs(Some(InProgress)));
      FilterStep(tasks, StatusIs(Some(Done)));
      assert StatusIs(Some(Todo))(tasks[0]) <==> tasks[0].status == Todo;
      assert StatusIs(Some(InProgress))(tasks[0]) <==> tasks[0].status == InProgress;
      assert StatusIs(Some(Done))(tasks[0]) <==> tasks[0].status == Done;
    }
  }

  /** How many elements `filter` keeps of a non-empty sequence, one element at a time. */
  lemma FilterStep(s: seq<Task>, keep: Task -> bool)
    requires s != []
    ensures |Filter(s, keep)| == |Filter(s[1..], keep)| + (if keep(s[0]) then 1 else 0)
  {
  }

  /** The `map` after a status change: tasks with `taskId` get `newStatus`. */
  function SetStatusWhere(prev: seq<Task>, taskId: string, newStatus: TaskStatus): (r: seq<Task>)
    ensures |r| == |prev|
    ensures forall i :: 0 <= i < |prev| ==> r[i].(status := prev[i].status) == prev[i]
    ensures forall i :: 0 <= i < |prev| ==>
      r[i].status == if prev[i].id == taskId then newStatus else prev[i].status
  {
    if prev == [] then []
    else
      [if prev[0].id == taskId then prev[0].(status := newStatus) else prev[0]]
      + SetStatusWhere(prev[1..], taskId, newStatus)
  }

  /** `data.updateTask` is truthy: the response carries the updated task. */
  predicate UpdateConfirmed(resp: Response) {
    resp.Data? && resp.payload.UpdateTaskData? && resp.payload.updated.Some?
  }

  /** `data.deleteTask` is truthy. */
  predicate DeleteConfirmed(resp: Response) {
    resp.Data? && resp.payload.DeleteTaskData? && resp.payload.deleted
  }

  /** `updateTaskStatus` after the response: the local list changes only on confirmation. */
  function AfterStatusUpdate(prev: seq<Task>, taskId: string, newStatus: TaskStatus, resp: Response): (r: seq<Task>)
    ensures |r| == |prev|
    ensures forall i :: 0 <= i < |prev| ==> r[i].(status := prev[i].status) == prev[i]
    ensures resp.Errors? || resp == Data(UpdateTaskData(None)) ==> r == prev
    ensures !UpdateConfirmed(resp) ==> r == prev
    ensures UpdateConfirmed(resp) ==> forall i :: 0 <= i < |prev| ==>
      r[i].status == if prev[i].id == taskId then newStatus else prev[i].status
  {
    if UpdateConfirmed(resp) then SetStatusWhere(prev, taskId, newStatus) else prev
  }

  /** `task.id !== taskId`. */
  function IdIsNot(taskId: string): Task -> bool {
    (t: Task) => t.id != taskId
  }

  /** `deleteTask` after the response: on confirmation every task with `taskId` leaves the local list. */
  function AfterDelete(prev: seq<Task>, taskId: string, resp: Response): (r: seq<Task>)
    ensures DeleteConfirmed(resp) ==>
      && IsSubsequence(r, prev)
      && (forall t :: t in r ==> t.id != taskId)
      && (forall t :: t in prev && t.id != taskId ==> t in r)
      && (forall t :: multiset(r)[t] == if t.id != taskId then multiset(prev)[t] else 0)
    ensures !DeleteConfirmed(resp) ==> r == prev
  {
    if DeleteConfirmed(resp) then
      var r := Filter(prev, IdIsNot(taskId));
      FilterIsSubsequence(prev, IdIsNot(taskId));
      FilterMembers(prev, IdIsNot(taskId));
      FilterCounts(prev, IdIsNot(taskId));
      r
    else prev
  }

  /** `handleTaskCreated`: the new task goes first, the previous list follows unchanged. */
  function Prepend(prev: seq<Task>, newTask: Task): (r: seq<Task>)
    ensures |r| == |prev| + 1 && r[0] == newTask && r[1..] == prev
  {
    [newTask] + prev
  }

  /** An update whose input carries only a status, as the status buttons send it. */
  function StatusChange(newStatus: TaskStatus): TaskInput {
    TaskInput(None, None, Some(newStatus), None)
  }

  /**
   * With unique ids, the local status update mirrors what `updateTask` did to the
   * store: both lists agree everywhere except on the server's fresh `updatedAt`.
   */
  lemma StatusUpdateMirrorsServer(ts: seq<Task>, taskId: string, newStatus: TaskStatus, now: string)
    requires UniqueIds(ts)
    ensures var k := FindIndex(ts, Some(taskId));
      var server := if k == -1 then ts else ts[k := Merge(ts[k], StatusChange(newStatus), now)];
      var resp := Data(UpdateTaskData(if k == -1 then None else Some(server[k])));
      var local := AfterStatusUpdate(ts, taskId, newStatus, resp);
      |local| == |server| && forall i :: 0 <= i < |server| ==> local[i] == server[i].(updatedAt := ts[i].updatedAt)
  {
    var k := FindIndex(ts, Some(taskId));
    if k >= 0 {
      var local := SetStatusWhere(ts, taskId, newStatus);
      forall i | 0 <= i < |ts| && i != k
        ensures ts[i].id != taskId
      {
        if i > k {
          assert ts[k].id != ts[i].id;
        }
      }
    }
  }

  /** With unique ids, filtering out an id removes exactly the task `findIndex` finds. */
  lemma {:induction false} FilterOutUniqueId(ts: seq<Task>, taskId: string)
    requires UniqueIds(ts) && FindIndex(ts, Some(taskId)) >= 0
    ensures Filter(ts, IdIsNot(taskId)) == RemoveAt(ts, FindIndex(ts, Some(taskId)))
  {
    var k := FindIndex(ts, Some(taskId));
    if k == 0 {
      assert forall t :: t in ts[1..] ==> IdIsNot(taskId)(t);
      FilterKeepsAll(ts[1..], IdIsNot(taskId));
    } else {
      assert FindIndex(ts[1..], Some(taskId)) == k - 1;
      FilterOutUniqueId(ts[1..], taskId);
      assert RemoveAt(ts, k) == [ts[0]] + RemoveAt(ts[1..], k - 1);
    }
  }

  /**
   * With unique ids, the local delete mirrors `deleteTask`: on a confirmed delete the
   * local list equals the store's, and on a refused one neither changes.
   */
  lemma DeleteMirrorsServer(ts: seq<Task>, taskId: string)
    requires UniqueIds(ts)
    ensures var k := FindIndex(ts, Some(taskId));
      var server := if k == -1 then ts else RemoveAt(ts, k);
      AfterDelete(ts, taskId, Data(DeleteTaskData(k >= 0))) == server
  {
    if FindIndex(ts, Some(taskId)) >= 0 {
      FilterOutUniqueId(ts, taskId);
    }
  }
}
