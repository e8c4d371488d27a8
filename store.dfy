/**
 * The GraphQL-like endpoint: a process-wide task list with an id counter, the six
 * resolvers, and the dispatcher that picks a resolver by substring tests on the
 * query text.
 */
module Store {
  import opened Wrappers
  import opened Text
  import opened Tasks

  // ---------------------------------------------------------------------------
  // Requests and responses

  /** The `query` member of the request body; anything but a string has no `includes`. */
  datatype Query = StringQuery(text: string) | NotText

  /** The `variables` member: `null`, or an object whose members may each be absent. */
  datatype Variables =
    | NullVariables
    | Variables(id: Option<string>, status: Option<TaskStatus>, input: Option<TaskInput>)

  const NoVariables := Variables(None, None, None)

  /** The resolver a query text selects. */
  datatype Operation =
    | ListQuery | TaskQuery | ByStatusQuery
    | CreateMutation | UpdateMutation | DeleteMutation
    | UnknownOperation

  /** What the dispatcher ends up doing, with the variables it reads. */
  datatype Request =
    | ListAll
    | Get(id: Option<string>)
    | ByStatus(status: Option<TaskStatus>)
    | Create(input: Option<TaskInput>)
    | Update(id: Option<string>, input: Option<TaskInput>)
    | Delete(id: Option<string>)
    | Unrecognised
    | Throws

  /** The value under `data`, one constructor per key. */
  datatype Payload =
    | TasksData(tasks: seq<Task>)
    | TaskData(task: Option<Task>)
    | TasksByStatusData(tasks: seq<Task>)
    | CreateTaskData(created: Task)
    | UpdateTaskData(updated: Option<Task>)
    | DeleteTaskData(deleted: bool)

  /** `{data: {...}}` or `{errors: [{message}]}`. */
  datatype Response = Data(payload: Payload) | Errors(message: string)

  const UnknownQuery := "Unknown query"
  const QueryFailed := "Query execution failed"

  /** The key under which a payload sits in `data`. */
  function Key(p: Payload): string {
    match p
    case TasksData(_) => "tasks"
    case TaskData(_) => "task"
    case TasksByStatusData(_) => "tasksByStatus"
    case CreateTaskData(_) => "createTask"
    case UpdateTaskData(_) => "updateTask"
    case DeleteTaskData(_) => "deleteTask"
  }

  // ---------------------------------------------------------------------------
  // Dispatch

  /**
   * The if-chain of the executor, in its order. A mutation is reached only by a text
   * that mentions neither "tasks" nor "task(", and "task(" wins over "tasksByStatus".
   */
  function Classify(q: string): (op: Operation)
    ensures op == ListQuery <==>
      Contains(q, "tasks") && !Contains(q, "tasksByStatus") && !Contains(q, "task(")
    ensures op == TaskQuery <==> Contains(q, "task(")
    ensures op == ByStatusQuery <==> Contains(q, "tasksByStatus") && !Contains(q, "task(")
    ensures op == CreateMutation <==>
      !Contains(q, "tasks") && !Contains(q, "task(") && Contains(q, "createTask")
    ensures op == UpdateMutation <==>
      !Contains(q, "tasks") && !Contains(q, "task(") && !Contains(q, "createTask") &&
      Contains(q, "updateTask")
    ensures op == DeleteMutation <==>
      !Contains(q, "tasks") && !Contains(q, "task(") && !Contains(q, "createTask") &&
      !Contains(q, "updateTask") && Contains(q, "deleteTask")
    ensures op == UnknownOperation <==>
      !Contains(q, "tasks") && !Contains(q, "task(") && !Contains(q, "createTask") &&
      !Contains(q, "updateTask") && !Contains(q, "deleteTask")
  {
    ByStatusMentionsTasks(q);
    if Contains(q, "tasks") && !Contains(q, "tasksByStatus") && !Contains(q, "task(") then ListQuery
    else if Contains(q, "task(") then TaskQuery
    else if Contains(q, "tasksByStatus") then ByStatusQuery
    else if Contains(q, "createTask") then CreateMutation
    else if Contains(q, "updateTask") then UpdateMutation
    else if Contains(q, "deleteTask") then DeleteMutation
    else UnknownOperation
  }

  /** A text that mentions "tasksByStatus" also mentions "tasks". */
  lemma ByStatusMentionsTasks(q: string)
    ensures Contains(q, "tasksByStatus") ==> Contains(q, "tasks")
  {
    if Contains(q, "tasksByStatus") {
      assert OccursAt("tasksByStatus", "tasks", 0);
      ContainsTransitive(q, "tasksByStatus", "tasks");
    }
  }

  /**
   * The request the executor carries out. Reading a member of `null` variables
   * throws, as does calling `includes` on a query that is not a string.
   */
  function Route(query: Query, vars: Variables): (req: Request)
    ensures query.NotText? ==> req == Throws
    ensures req == Unrecognised <==> query.StringQuery? && Classify(query.text) == UnknownOperation
    ensures req == ListAll <==> query.StringQuery? && Classify(query.text) == ListQuery
    ensures req == Throws <==>
      query.NotText? ||
      (vars.NullVariables? && Classify(query.text) !in {ListQuery, UnknownOperation})
    ensures query.StringQuery? && vars.Variables? ==>
      match Classify(query.text)
      case TaskQuery => req == Get(vars.id)
      case ByStatusQuery => req == ByStatus(vars.status)
      case CreateMutation => req == Create(vars.input)
      case UpdateMutation => req == Update(vars.id, vars.input)
      case DeleteMutation => req == Delete(vars.id)
      case _ => true
  {
    match query
    case NotText => Throws
    case StringQuery(q) =>
      var op := Classify(q);
      if op == ListQuery then ListAll
      else if op == UnknownOperation then Unrecognised
      else
        match vars
        case NullVariables => Throws
        case Variables(id, status, input) =>
          if op == TaskQuery then Get(id)
          else if op == ByStatusQuery then ByStatus(status)
          else if op == CreateMutation then Create(input)
          else if op == UpdateMutation then Update(id, input)
          else Delete(id)
  }

  /** `task.status === status`, where an absent status matches nothing. */
  function StatusIs(status: Option<TaskStatus>): Task -> bool {
    (t: Task) => status == Some(t.status)
  }

  /**
   * `tasksByStatus` returns, in store order, exactly the tasks with that status,
   * each as often as it occurs in the store.
   */
  lemma ByStatusIsExactSubsequence(ts: seq<Task>, status: TaskStatus)
    ensures var r := Filter(ts, StatusIs(Some(status)));
      && IsSubsequence(r, ts)
      && (forall t :: multiset(r)[t] == if t.status == status then multiset(ts)[t] else 0)
      && (forall t :: t in r <==> t in ts && t.status == status)
  {
    FilterIsSubsequence(ts, StatusIs(Some(status)));
    FilterCounts(ts, StatusIs(Some(status)));
    FilterMembers(ts, StatusIs(Some(status)));
  }

  /** `task(id)` finds nothing when there is no task with that id, and otherwise the first one. */
  lemma FindIsFirstMatch(ts: seq<Task>, id: string)
    ensures Find(ts, Some(id)).None? <==> forall t :: t in ts ==> t.id != id
    ensures Find(ts, Some(id)).Some? ==>
      exists k :: 0 <= k < |ts| && ts[k] == Find(ts, Some(id)).value && ts[k].id == id &&
        forall j :: 0 <= j < k ==> ts[j].id != id
  {
    var k := FindIndex(ts, Some(id));
    if k == -1 {
      forall t | t in ts ensures t.id != id {
        var i :| 0 <= i < |ts| && ts[i] == t;
        assert !HasId(ts[i], Some(id));
      }
    } else {
      assert HasId(ts[k], Some(id));
    }
  }

  /** The four tasks the process starts with. */
  const Seed: seq<Task> := [
    Task("1", "Setup project repository",
      Some("Initialize the Git repository and setup the basic project structure"),
      Done, Some("2024-01-15"), "2024-01-10T10:00:00Z", "2024-01-12T14:30:00Z"),
    Task("2", "Design database schema",
      Some("Create the database schema for the task management system"),
      InProgress, Some("2024-01-20"), "2024-01-12T09:00:00Z", "2024-01-12T09:00:00Z"),
    Task("3", "Implement user authentication",
      Some("Add user registration, login, and session management"),
      Todo, Some("2024-01-25"), "2024-01-12T11:00:00Z", "2024-01-12T11:00:00Z"),
    Task("4", "Create task CRUD operations",
      Some("Implement create, read, update, and delete operations for tasks"),
      Todo, None, "2024-01-12T12:00:00Z", "2024-01-12T12:00:00Z")
  ]

  // ---------------------------------------------------------------------------
  // The store

  class TaskStore {
    var tasks: seq<Task>
    var nextId: nat

    /** Ids are unique and all were issued before the counter's current value. */
    ghost predicate Valid()
      reads this
    {
      UniqueIds(tasks) && IdsBelow(tasks, nextId)
    }

    constructor ()
      ensures Valid()
      ensures tasks == Seed && nextId == 5
    {
      tasks := Seed;
      nextId := 5;
      new;
      ParseDecimalString(1);
      ParseDecimalString(2);
      ParseDecimalString(3);
      ParseDecimalString(4);
    }

    /**
     * `createTask`: takes `String(nextId++)` as the id and prepends the new task.
     * With the input absent, reading `input.title` throws after the counter moved.
     */
    method CreateTask(input: Option<TaskInput>, now: string) returns (created: Option<Task>)
      requires Valid()
      modifies this
      ensures Valid()
      ensures nextId == old(nextId) + 1
      ensures created.Some? <==> input.Some?
      ensures input.None? ==> tasks == old(tasks)
      ensures input.Some? ==>
        && created.value == NewTask(DecimalString(old(nextId)), input.value, now)
        && tasks == [created.value] + old(tasks)
    {
      var id := DecimalString(nextId);
      nextId := nextId + 1;
      if input.None? {
        return None;
      }
      var t := NewTask(id, input.value, now);
      CreateKeepsIds(tasks, nextId - 1, t);
      tasks := [t] + tasks;
      created := Some(t);
    }

    /**
     * `updateTask`: merges the input into the first task with `id` and refreshes
     * `updatedAt`; no match leaves the store as it was. An absent input spreads
     * nothing.
     */
    method UpdateTask(id: Option<string>, input: Option<TaskInput>, now: string)
      returns (updated: Option<Task>)
      requires Valid()
      modifies this
      ensures Valid() && nextId == old(nextId)
      ensures var k := FindIndex(old(tasks), id);
        if k == -1 then updated.None? && tasks == old(tasks)
        else
          && updated == Some(Merge(old(tasks)[k], input.GetOr(EmptyInput), now))
          && tasks == old(tasks)[k := updated.value]
    {
      var k := FindIndex(tasks, id);
      if k == -1 {
        return None;
      }
      var t := Merge(tasks[k], input.GetOr(EmptyInput), now);
      tasks := tasks[k := t];
      updated := Some(t);
    }

    /** `deleteTask`: splices out the first task with `id`; reports whether there was one. */
    method DeleteTask(id: Option<string>) returns (deleted: bool)
      requires Valid()
      modifies this
      ensures Valid() && nextId == old(nextId)
      ensures var k := FindIndex(old(tasks), id);
        && (deleted <==> k >= 0)
        && tasks == if k == -1 then old(tasks) else RemoveAt(old(tasks), k)
      ensures FindIndex(tasks, id) == -1
    {
      var k := FindIndex(tasks, id);
      if k == -1 {
        return false;
      }
      RemoveKeepsIds(tasks, nextId, k);
      RemoveFindsNothing(tasks, id);
      tasks := RemoveAt(tasks, k);
      deleted := true;
    }

    /** `executeGraphQL`: routes the request, runs the resolver and wraps its result. */
    method Execute(query: Query, vars: Variables, now: string) returns (resp: Response)
      requires Valid()
      modifies this
      ensures Valid()
      ensures var req := Route(query, vars);
        match req
        case ListAll =>
          resp == Data(TasksData(old(tasks))) && tasks == old(tasks) && nextId == old(nextId)
        case Get(id) =>
          resp == Data(TaskData(Find(old(tasks), id))) && tasks == old(tasks) && nextId == old(nextId)
        case ByStatus(status) =>
          && resp == Data(TasksByStatusData(Filter(old(tasks), StatusIs(status))))
          && tasks == old(tasks) && nextId == old(nextId)
        case Create(input) =>
          && nextId == old(nextId) + 1
          && (input.None? ==> resp == Errors(QueryFailed) && tasks == old(tasks))
          && (input.Some? ==>
                var t := NewTask(DecimalString(old(nextId)), input.value, now);
                resp == Data(CreateTaskData(t)) && tasks == [t] + old(tasks))
        case Update(id, input) =>
          && nextId == old(nextId)
          && var k := FindIndex(old(tasks), id);
             if k == -1 then resp == Data(UpdateTaskData(None)) && tasks == old(tasks)
             else
               var t := Merge(old(tasks)[k], input.GetOr(EmptyInput), now);
               resp == Data(UpdateTaskData(Some(t))) && tasks == old(tasks)[k := t]
        case Delete(id) =>
          && nextId == old(nextId)
          && var k := FindIndex(old(tasks), id);
             if k == -1 then resp == Data(DeleteTaskData(false)) && tasks == old(tasks)
             else resp == Data(DeleteTaskData(true)) && tasks == RemoveAt(old(tasks), k)
        case Unrecognised =>
          resp == Errors(UnknownQuery) && tasks == old(tasks) && nextId == old(nextId)
        case Throws =>
          resp == Errors(QueryFailed) && tasks == old(tasks) && nextId == old(nextId)
    {
      match Route(query, vars)
      case ListAll =>
        resp := Data(TasksData(tasks));
      case Get(id) =>
        resp := Data(TaskData(Find(tasks, id)));
      case ByStatus(status) =>
        resp := Data(TasksByStatusData(Filter(tasks, StatusIs(status))));
      case Create(input) =>
        var created := CreateTask(input, now);
        resp := if created.Some? then Data(CreateTaskData(created.value)) else Errors(QueryFailed);
      case Update(id, input) =>
        var updated := UpdateTask(id, input, now);
        resp := Data(UpdateTaskData(updated));
      case Delete(id) =>
        var deleted := DeleteTask(id);
        resp := Data(DeleteTaskData(deleted));
      case Unrecognised =>
        resp := Errors(UnknownQuery);
      case Throws =>
        resp := Errors(QueryFailed);
    }
  }

  /**
   * Starting from the seed, creating a task with only a title gives it id "5",
   * status TODO and equal timestamps, puts it first and leaves five tasks; deleting
   * it succeeds the first time and reports false the second time.
   */
  method SeedScenario(now: string) returns (first: Task, count: nat, deletedOnce: bool, deletedAgain: bool)
    ensures first.id == "5" && first.title == "Write tests" && first.status == Todo
    ensures first.description.None? && first.dueDate.None? && first.createdAt == first.updatedAt
    ensures count == 5
    ensures deletedOnce && !deletedAgain
  {
    var store := new TaskStore();
    var input := TaskInput(Some("Write tests"), None, None, None);
    var created := store.CreateTask(Some(input), now);
    first := store.tasks[0];
    count := |store.tasks|;
    deletedOnce := store.DeleteTask(Some("5"));
    deletedAgain := store.DeleteTask(Some("5"));
  }
}
