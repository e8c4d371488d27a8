# Task manager: store, dispatcher and list/form logic in Dafny

This project models the core of a small task-tracking web application. It has three parts:

- **The server endpoint.** A process-wide list of tasks and an id counter sit behind a GraphQL-like executor. The executor picks one of six resolvers by case-sensitive substring tests on the query text: list, get by id, list by status, create, update and delete.
- **The list page.** It filters the list by status and by a search text, counts tasks per status, and updates its local copy of the list after the server confirms a change.
- **The task form.** It derives its initial state from an optional task and validates the title. It then sends either a `createTask` or an `updateTask` mutation, and passes the returned task to its callback.

Modules, one per source file or shared concern:

| module | file | models |
|---|---|---|
| `Wrappers` | wrappers.dfy | `Option`, standing for a JavaScript value that may be `undefined` |
| `Text` | text.dfy | `includes`, `toLowerCase`, `trim`, `split(sep)[0]`, `String(n)` |
| `Tasks` | tasks.dfy | the `Task`/`TaskInput`/`TaskStatus` types, `filter`/`find`/`findIndex`/`splice`, and building and merging task records |
| `Store` | store.dfy | the seeded store (class `TaskStore`), its resolvers, request routing and the response envelope |
| `TaskForm` | taskform.dfy | the form's initial state, `validateForm`, the mutation choice and the callback |
| `TaskList` | tasklist.dfy | `filterTasks`, `getStatusCounts` and the local list updates |

The store is a class with `tasks: seq<Task>` and `nextId: nat`. Its mutating methods say exactly what the new list and counter are. `Valid()` is the id invariant, which every method preserves:

- ids are unique;
- every id is a string of decimal digits whose value is below `nextId`.

The executor's postcondition is stated per routed request. It gives the response, the new list and the new counter for each of the eight outcomes. The list-page lemmas show that the confirmed local status change and delete agree with what the store did, when ids are unique.

Two behaviours of the code are easy to misread; the model follows the code:

- **Check order.** The executor tests `"task("` before `"tasksByStatus"`, and takes the list branch only when the text has neither of those (app/api/graphql/route.ts:96-108). So a text containing both `"task("` and `"tasksByStatus"` goes to the single-task branch.
- **`createTask` without `variables.input`.** `String(nextId++)` is evaluated before `input.title` throws. The counter therefore moves although no task is added, and the response is "Query execution failed" (app/api/graphql/route.ts:56-57).

## Model

| member | source | states |
|---|---|---|
| `Text.Contains` | task-manager/app/api/graphql/route.ts:96-120 | `includes` is true exactly when the substring occurs at some index of the text |
| `Text.IsBlank` | task-manager/components/task-form.tsx:31 | the trimmed title is empty exactly when every character is whitespace |
| `Text.BeforeFirst` | task-manager/components/task-form.tsx:23 | `split("T")[0]` is the longest prefix without "T": the rest is empty or starts with "T" |
| `Text.BeforeFirstIdempotent` | task-manager/components/task-form.tsx:23 | cutting a date a second time at "T" changes nothing |
| `Text.ParseDecimalString` | task-manager/app/api/graphql/route.ts:56 | `String(n)` reads back as `n`, so the id issued from the counter denotes the counter's value |
| `Tasks.FindIndex` | task-manager/app/api/graphql/route.ts:68 | `findIndex` returns -1 exactly when no task has the id, and otherwise the first index with the id |
| `Tasks.Find` | task-manager/app/api/graphql/route.ts:49 | `find` returns nothing when `findIndex` gives -1, and otherwise the task at that index |
| `Tasks.FilterCounts` | task-manager/app/api/graphql/route.ts:50 | `filter` keeps every occurrence of each element that passes and no occurrence of one that fails |
| `Tasks.FilterMembers` | task-manager/app/api/graphql/route.ts:50 | an element is in the filtered list exactly when it is in the list and passes |
| `Tasks.FilterIsSubsequence` | task-manager/app/api/graphql/route.ts:50 | `filter` keeps its survivors in their original order |
| `Tasks.NewTask` | task-manager/app/api/graphql/route.ts:55-63 | a created task has the given id; its title is the input title or ""; its status is the input status or TODO; description and due date are copied; createdAt = updatedAt = now |
| `Tasks.MergeFields` | task-manager/app/api/graphql/route.ts:71-75 | an update keeps id and createdAt and sets updatedAt to now; supplied fields overwrite and absent fields keep their old values |
| `Tasks.MergeIdempotent` | task-manager/app/api/graphql/route.ts:71-75 | applying the same update twice equals applying it once |
| `Tasks.MergeEmpty` | task-manager/app/api/graphql/route.ts:71-75 | an update with no fields only refreshes updatedAt |
| `Tasks.CreateKeepsIds` | task-manager/app/api/graphql/route.ts:56-64 | prepending a task with id `String(nextId)` and bumping the counter keeps ids unique and below the counter |
| `Tasks.RemoveKeepsIds` | task-manager/app/api/graphql/route.ts:83 | splicing out one task keeps ids unique and below the counter |
| `Tasks.RemoveFindsNothing` | task-manager/app/api/graphql/route.ts:79-85 | with unique ids, after the matching task is spliced out no task has that id, so a second delete finds nothing |
| `Store.Classify` | task-manager/app/api/graphql/route.ts:96-125 | each branch holds exactly when its keyword tests hold, in the code's order. "task(" wins over "tasksByStatus". A mutation is reached only if the text has neither "tasks" nor "task(". "Unknown query" is chosen exactly when no keyword occurs |
| `Store.ByStatusMentionsTasks` | task-manager/app/api/graphql/route.ts:96-105 | a text containing "tasksByStatus" contains "tasks", so the list branch never takes a by-status query |
| `Store.Route` | task-manager/app/api/graphql/route.ts:90-128 | the list and unknown branches are chosen from the text alone. Every other branch throws when the variables are null. A query that is not a string always throws. With variables present, the single-task and delete branches receive `variables.id`, the by-status branch `variables.status`, create `variables.input` and update both the id and the input |
| `Store.ByStatusIsExactSubsequence` | task-manager/app/api/graphql/route.ts:50 | `tasksByStatus` returns, in store order, each task with that status as often as it occurs, and nothing else |
| `Store.FindIsFirstMatch` | task-manager/app/api/graphql/route.ts:49 | `task(id)` finds nothing exactly when no task has the id, and otherwise a task with the id that no earlier task shares |
| `Store.TaskStore.constructor` | task-manager/app/api/graphql/route.ts:5-43 | the store starts with the four seed tasks, ids "1" to "4", and `nextId` = 5, and satisfies the id invariant |
| `Store.TaskStore.CreateTask` | task-manager/app/api/graphql/route.ts:53-66 | the counter moves by one. With an input, the new task (id `String(old nextId)`) becomes element 0 and the old list follows. Without one, the call fails and the list is unchanged |
| `Store.TaskStore.UpdateTask` | task-manager/app/api/graphql/route.ts:67-78 | an unknown id gives null and no change. Otherwise only the first match is replaced, by the merged task, which is also returned |
| `Store.TaskStore.DeleteTask` | task-manager/app/api/graphql/route.ts:79-85 | an unknown id gives false and no change. Otherwise the first match is spliced out and the result is true. Afterwards no task has the id |
| `Store.TaskStore.Execute` | task-manager/app/api/graphql/route.ts:90-129 | reads return their data and change nothing. Mutations wrap the resolver's result under its key. The unknown branch gives "Unknown query" and the throwing cases give "Query execution failed", both with the list unchanged |
| `Store.SeedScenario` | task-manager/app/api/graphql/route.ts:5-85 | from the seed, creating with only a title gives id "5", status TODO, no description or due date and equal timestamps, and leaves five tasks. The first delete of "5" returns true and the second returns false |
| `TaskForm.InitialForm` | task-manager/components/task-form.tsx:19-24 | without a task the form is blank with status TODO. With one, it shows the title, the description or "", the status, and the due date cut at its first "T" (or unchanged if there is no "T", or "" if it is missing) |
| `TaskForm.Validate` | task-manager/components/task-form.tsx:28-41 | the error map holds "Title is required" exactly when the title is blank, and the past-date error exactly when a non-empty date is past. Validation succeeds exactly when the map is empty |
| `TaskForm.BuildSubmission` | task-manager/components/task-form.tsx:51-52 | editing sends "updateTask" with the task's id and the form as input; creating sends "createTask" with the input only |
| `TaskForm.Submit` | task-manager/components/task-form.tsx:43-52 | a submission is sent exactly when validation passes, and it is the one `BuildSubmission` chooses |
| `TaskForm.AfterSubmit` | task-manager/components/task-form.tsx:75-82 | a response with errors never reaches the callback. Otherwise the callback receives a task only when the data sits under the mutation's own key: the created task after `createTask`, and the updated task or null after `updateTask` |
| `TaskForm.UpdateThenReopen` | task-manager/components/task-form.tsx:19-52 | reopening the form on a task updated from form f shows f, with its due date cut at "T" |
| `TaskForm.CreateThenReopen` | task-manager/components/task-form.tsx:19-52 | reopening the form on a task created from form f shows f, with its due date cut at "T" |
| `TaskForm.SaveUnchangedIsStable` | task-manager/components/task-form.tsx:19-52 | saving an unchanged edit form and reopening it shows the same form |
| `TaskList.EmptySearchMatchesAll` | task-manager/app/page.tsx:80-86 | the empty search text matches every task |
| `TaskList.FilterTasks` | task-manager/app/page.tsx:73-89 | the result keeps, in order, each task that passes the status and search tests as often as it occurs, and nothing else. With "ALL" and an empty search it is the whole list |
| `TaskList.ByStatusFilter` | task-manager/app/page.tsx:76-78 | the status stage keeps, in order, exactly the tasks with the chosen status, or all tasks for "ALL" |
| `TaskList.CountStatuses` | task-manager/app/page.tsx:150-157 | total is the list length, each count is the size of that status's filter, and the three counts add up to the total |
| `TaskList.CountsPartition` | task-manager/app/page.tsx:150-157 | the TODO, IN_PROGRESS and DONE filters together have as many elements as the list |
| `TaskList.SetStatusWhere` | task-manager/app/page.tsx:113 | length and order are kept and only the status field can change. Tasks with the id get the new status; all others keep theirs |
| `TaskList.AfterStatusUpdate` | task-manager/app/page.tsx:111-114 | at most the statuses change. On a confirmed update exactly the tasks with the id get the new status and every other task keeps its own. Any other response leaves the list as it was |
| `TaskList.AfterDelete` | task-manager/app/page.tsx:136-139 | on a confirmed delete, every task with the id goes and every other task stays, in order and with its number of copies. Otherwise the list is unchanged |
| `TaskList.Prepend` | task-manager/app/page.tsx:145-148 | the created task is element 0 and the previous list follows unchanged |
| `TaskList.StatusUpdateMirrorsServer` | task-manager/app/page.tsx:111-114 | with unique ids, the local list after a status change equals the store's list after `updateTask`, except for the server's new updatedAt |
| `TaskList.FilterOutUniqueId` | task-manager/app/page.tsx:138 | with unique ids, removing every task with the id is the same as splicing out the first match |
| `TaskList.DeleteMirrorsServer` | task-manager/app/page.tsx:136-139 | with unique ids, the local list after the delete response equals the store's list after `deleteTask` |

## Left out

- HTTP plumbing is not modelled: the `POST` handler, `request.json()`, `NextResponse` and the 400 "Invalid request" response for an unparseable body (app/api/graphql/route.ts:131-139). The model starts from the parsed `query` and `variables`.
- Missing `variables` are the default `{}` (`Store.NoVariables`). `null` variables are `Store.NullVariables`.
- Variables are assumed to have their declared types: ids are strings and statuses are one of the three values. Other JSON values (numbers, `null` members, unknown status strings) are not modelled. An unknown status string would match no task, like an absent one.
- A query that is an array has its own `includes` method; the model treats every non-string query as throwing.
- `Tasks.MergeFields`: the input is limited to the four `TaskInput` fields. At run time the spread copies any key of the input, so a client could overwrite `id` or `createdAt`.
- Timestamps are the parameter `now`, taken once for each resolver call. The model makes no claim that `updatedAt` increases or that `updatedAt >= createdAt`.
- `TaskForm.Validate`: whether a due date lies in the past (`new Date(...) < new Date()`) is the parameter `dueDateBeforeNow`; date parsing and the clock are not modelled.
- `Text.ToLower` maps only ASCII letters, whereas `toLowerCase` applies full Unicode case mapping. `Text.IsWhitespace` is the fixed set of ECMAScript WhiteSpace and LineTerminator characters.
- The counter is an unbounded natural number. JavaScript numbers lose integer precision above 2^53, which is not modelled.
- The network is not modelled: every `fetch` in the page and the form. Server responses are inputs of the client-side functions.
- React is not modelled: state hooks, `useEffect`, `confirm`, rendering, icons and colours.
- The page's initial `fetchTasks` is not modelled.
- The unused `isQuery`/`isMutation` locals of the executor have no effect and are not modelled.
- Concurrent requests against the shared list are not modelled; each request runs to completion.
- The executor's classification is stated over the keywords a text contains. The routing of the application's own multi-line query texts is not proved, because it would need the absence of each keyword in a long literal.
