# TaskMasterAPI task store, modelled in Dafny

TaskMasterAPI is a small HTTP service over one collection of task records,
kept as a JSON document `{ "tasks": [...] }` on disk. This project models the
logic of its six handlers and of the request-body validator:

- `GET /tasks`: the tasks whose `completed` equals a flag decoded from the
  query, optionally sorted newest first by `createdAt`;
- `GET /tasks/:id`: the first task carrying the id, or 404;
- `GET /tasks/priority/:level`: the tasks with exactly that `priority`;
- `POST /tasks`, `PUT /tasks/:id`, `DELETE /tasks/:id`: validate, change a
  copy of the collection, and overwrite the document with the copy.

The collection read at startup (`tasksData`) is never changed. Each mutation
deep-copies it, changes the copy and writes the copy to disk. The class
`Handlers.TaskStore` therefore has a `const mem` (the startup collection) and
a `var disk` (the document as last written), and each mutation sets `disk`
to `mem` plus one change. Later reads still see the startup collection, and
each write starts again from it, so earlier writes are lost (see
`Scenarios`).

Modules, one per component:

- `Json` (json.dfy): JSON values and `Option`.
- `Schema` (schema.dfy): the JSON Schema keywords the task schema uses,
  interpreted as the validator library does, and the task schema as a
  constant.
- `Tasks` (tasks.dfy): tasks as JSON objects, the `filter` / `find` /
  `findIndex` callbacks, and the decoding of the `completed` parameter.
- `Listing` (listing.dfy): `new Date(createdAt)`, the sort comparator, and
  the in-place sort of the filtered array.
- `Handlers` (handlers.dfy): responses, the store class, its handlers, and
  lemmas about the tasks the mutations write.
- `Scenarios` (scenarios.dfy): request sequences that show the consequences of
  the in-memory collection never changing.

Consequences of the code as written:

- The handlers never change `tasksData` (src/app.js:79, 100, 114): each
  mutation writes a changed copy. So a created task is never visible to reads,
  and a deleted task stays visible. When the save after a create fails, the
  response is 500 and nothing changes in memory; the model takes a failed
  write to leave the document unchanged (see "## Left out").
- Every task that POST creates carries `createdAt` (src/app.js:83-84), which
  the schema rejects (`additionalProperties: false`). So a created task is not
  itself an acceptable body: sending it back unchanged with PUT gets 400
  (`Handlers.StampedRejected`).
- The `completed` flag compares the lower-cased value with `"false"`
  (src/app.js:40-43). So every other string, including `""` and `"yes"`,
  means true.

## Model

| member | source | states |
|---|---|---|
| Schema.IsValidTask | src/app.js:17-28 | whether the validator (`ajv.validate`, src/app.js:80, 115) accepts a body: `Validates` of the task schema, where `Validates` checks the object type, `properties` through `ConformsTo` (type, `minLength`, `enum`), `required` and `additionalProperties`; characterised by `Schema.TaskSchemaMeaning` |
| Schema.TaskSchemaMeaning | src/app.js:17-28 | the schema accepts a body iff it is an object with only the keys id/title/description/completed/priority; title and description are non-empty strings; completed is a boolean; priority is low, medium or high; any id is a non-empty string |
| Schema.CreatedAtRejected | src/app.js:17-28 | an object carrying `createdAt` is rejected (no additional properties) |
| Schema.PriorityOfValid | src/app.js:24-26 | an accepted body's priority is one of the three enumerated levels |
| Schema.SchemaExamples | src/app.js:17-28 | the complete sample body is accepted; `{title:"A"}`, priority `urgent`, an empty title and an array are rejected |
| Tasks.Matches | src/app.js:117-118 | the strict-equality callbacks of `filter` / `find` / `findIndex` (also src/app.js:46, 59, 71, 99): the key is present and its value equals the given string or boolean; used by `Tasks.Filter`, `Tasks.FindIndex` and the handlers |
| Tasks.Filter | src/app.js:45-47 | the filter result is no longer than the input and every element matches the callback |
| Tasks.PositionsSpec | src/app.js:45-47 | the positions used to state selections are strictly increasing indices of matching tasks, and every matching index is among them |
| Tasks.FilterSelects | src/app.js:70-72 | filtering yields exactly the matching tasks in stored order (an order-preserving subsequence) |
| Tasks.FilterConcat | src/app.js:45-47 | filtering distributes over concatenation |
| Tasks.FilterEmptyIff | src/app.js:70-73 | the filter result is empty iff no task matches, e.g. a level such as `urgent` |
| Tasks.FindIndex | src/app.js:99-101 | `findIndex` gives the first matching index, and None (-1) iff no task matches |
| Tasks.FindIsFirstOfFilter | src/app.js:59-60 | `find` finds nothing iff the filter is empty, and otherwise finds its first element |
| Tasks.RemoveAtFilter | src/app.js:102 | the selection of the collection with one index removed is the selection of the part before it followed by that of the part after it; it is one task shorter than the original selection exactly when the removed task matched |
| Tasks.CompletedFlag | src/app.js:40-43 | the filter value decoded from `completed`: false when missing, otherwise whether the lower-cased text differs from "false", and no value (a TypeError) for an array or object; characterised by `Tasks.CompletedFlagFalse` |
| Tasks.CompletedFlagFalse | src/app.js:40-43 | the flag is false iff the parameter is missing or is "false" in any letter case; an array or object parameter raises an error |
| Tasks.CompletedFlagExamples | src/app.js:40-43 | missing, "false", "False" give false; "true", "TRUE", "yes" and "" give true |
| Listing.Stamp | src/app.js:50 | the time value of a task's `createdAt` read as a date: a number within 8.64e15 ms, null as 0, a boolean as 0 or 1, and no valid date otherwise; used by `Listing.CompareDated` and `Handlers.StampedIsDated` |
| Listing.Compare | src/app.js:50 | the comparator: the second task's time value minus the first's, and 0 when either is not a valid date; characterised by `Listing.CompareDated` |
| Listing.ExchangeDown | src/app.js:50 | one exchange of the sort: the inserted task and its older neighbour change places and nothing else moves, so the multiset and the part after the pass are kept and the newest-first insertion invariant moves one place towards the front |
| Listing.Swap | src/app.js:50 | an exchange step of the sort: exactly the two elements are exchanged |
| Listing.CompareDated | src/app.js:50 | between two valid dates the comparator is the difference of the time values, so it is positive exactly when the first task is older |
| Listing.DatedPermutation | src/app.js:50 | reordering keeps whether every task has a valid date |
| Listing.InsertAt | src/app.js:50 | one pass of the sort keeps the multiset, leaves the elements after the pass unchanged, and extends a newest-first prefix by one task when all dates are valid |
| Listing.SortNewestFirst | src/app.js:49-51 | the in-place sort leaves a permutation, newest `createdAt` first when every task has a valid date |
| Handlers.Stamped | src/app.js:83-84 | the created task is the body plus `createdAt` = now, all other keys unchanged |
| Handlers.Revised | src/app.js:121-123 | the updated task is the body with `id` forced to the path id and `createdAt` taken from the replaced task (dropped if that had none) |
| Handlers.StampedRoundTrip | src/app.js:80-84 | removing `createdAt` from a created task gives back the accepted body |
| Handlers.StampedRejected | src/app.js:83-84 | a task that POST creates is not itself an acceptable body, because of its `createdAt` |
| Handlers.StampedIsDated | src/app.js:83 | a created task's `createdAt` is a valid date whenever the clock reading is one |
| Handlers.StampedPriority | src/app.js:68-74 | a created task matches a priority query only for low, medium or high |
| Handlers.RevisedKeepsIdentity | src/app.js:117-123 | update never changes the id or the `createdAt` of the task it replaces |
| Handlers.RemovedFirstMatch | src/app.js:99-103 | the document delete writes holds one task fewer with the id, and none if the id was unique |
| Handlers.TaskStore.constructor | src/app.js:13-15 | memory and disk both hold the loaded tasks |
| Handlers.TaskStore.List | src/app.js:38-54 | 500 for an array/object `completed`; otherwise 200 with exactly the tasks whose `completed` equals the flag, in stored order when `sort` is absent, and, when `sort` is present, a permutation of them that is newest first when every selected task has a valid date |
| Handlers.TaskStore.Get | src/app.js:57-65 | 200 with the first task carrying the id; 404 "Task not found" iff none does |
| Handlers.TaskStore.ByPriority | src/app.js:68-74 | always 200, with exactly the tasks whose priority equals the level in stored order; empty iff none matches |
| Handlers.TaskStore.Create | src/app.js:77-94 | invalid body: 400, nothing written; write failure: 500, nothing written; otherwise the document becomes mem + [body with createdAt = now] and the response is 201 with that task |
| Handlers.TaskStore.Delete | src/app.js:97-108 | no match: 404, nothing written; otherwise the document becomes mem without its first match (500 and nothing written on a write failure) |
| Handlers.TaskStore.Update | src/app.js:111-132 | invalid body: 400 even for an unknown id; no match: 404; otherwise the document becomes mem with its first match replaced by the revised task, rest and length unchanged, and the response is 200 with it |
| Scenarios.DeleteTwice | src/app.js:97-108 | deleting the same id twice succeeds both times |
| Scenarios.CreateThenGet | src/app.js:57-94 | a task created with a new id is not found by a later GET |
| Scenarios.DeleteThenGet | src/app.js:57-108 | a deleted task is still found by a later GET |
| Scenarios.CreateTwice | src/app.js:77-94 | after two creations the document holds only the second new task |

## Left out

- Express, body-parser and the listening socket: requests are method
  parameters, responses are `Response` values. Bodies that body-parser itself
  rejects (malformed JSON, a bare primitive) never reach a handler.
- Reading and parsing the document at startup: the constructor takes the
  parsed tasks. The document is modelled as its `tasks` array. The model
  assumes every element is a JSON object. A `null` element would make
  `GET /tasks` and `GET /tasks/priority/:level` throw, since `filter` reads
  every element (src/app.js:45, 70). A lookup by id would throw only when the
  `null` comes before the first match or nothing matches, since `find` and
  `findIndex` stop at the first match. POST never reads the elements, and PUT
  with an invalid body answers 400 before it looks.
- File writes: a write is an assignment to `disk`. A failed write is the
  `writeFails` parameter; the model assumes it leaves the document unchanged,
  though a real failure may leave it truncated. Create reports the failure
  from its own `catch`; delete and update report it through the error
  middleware as 500.
- `Date.now()`: the `now` parameter.
- JSON numbers are integers here, not doubles. Date-string parsing in
  `new Date(...)` of a string, array or object `createdAt` is not modelled:
  such a date counts as invalid.
- Lower-casing maps only A-Z. No other character lower-cases to a letter of
  "false", so the flag decoding is exact.
- The validator library is modelled only for the keywords the task schema
  uses.
- The error middleware's logging, and all console output.
- Listing.SortNewestFirst: the contract states a permutation that is newest
  first, not that the sort is stable. When some task lacks a valid date, the
  comparator is not a consistent order and the source promises only a
  permutation. The model's insertion sort is one admissible outcome.
- Concurrency between requests: handlers run one at a time.
