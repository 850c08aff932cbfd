# Webhook relay service, modelled in Dafny

The service keeps two tables. The **projects** table maps a project id to an
optional target URL. The **webhook** table is an append-only list of
`(id, project_id, payload)` rows; the store assigns the id on insert. Five
HTTP handlers act on them:

- register a project;
- set its target URL;
- receive a hook, which logs the payload and forwards it to the target;
- list a project's logged hooks;
- replay every logged hook of a project to its current target.

Outbound POSTs are best effort: their outcome is caught and discarded.

The model has three modules:

- `Models` (`models.dfy`) holds the record shapes. `Project` has a primary-key
  `id` and a nullable `targetUrl`. `WebhookLog` has an `id` that is unset
  until insert, a plain-string `projectId` and a text `payload`. The module
  also has the predicates that say a table is stored with strictly
  increasing ids, and `NextRowId`, the store's rule for the next id.
- `Webhooks` (`webhooks.dfy`) holds the class `WebhookService`. Its fields
  are `projects: map<string, Project>`, `log: seq<WebhookLog>` and
  `outbox: seq<Delivery>`. Every outbound POST the service has attempted is
  recorded in the outbox. The five handlers are methods that return a
  `Response`. The module also holds the query functions (`Select`, `Rows`,
  `Attempts`) and the lemmas about them.
- `Scenarios` (`scenarios.dfy`) holds request sequences against a fresh
  service, with the answers that the handlers' contracts determine.

`WebhookService.Valid()` is the store invariant that every handler keeps:

- each project is filed under its own id;
- every row has an id, and ids strictly increase along the table;
- every row names a registered project.

The table declares no foreign key. Referential integrity holds only because
`Receive` checks that the project exists before it appends.

Python truthiness decides whether a target is set. `Models.HasTarget` is
false both for `None` and for the empty string. `SetTarget` still stores an
empty string, and that project is then neither forwarded to nor replayable.

In four places the model keeps the code's behaviour where a reader might
expect otherwise:

- The payload is stored as decoded text, not as raw bytes.
- `set_target` accepts any string, the empty string included.
- Listing an unknown project returns an empty list, not an error.
- Replay reports how many rows it attempted, not how many were delivered.

Row ids follow SQLite's rowid rule for a table without AUTOINCREMENT. While
the largest id is below 2^63−1, a new row gets one more than the largest id
in the table, or 1 if the table is empty. Rows are never deleted, so this is
`NextRowId`.

## Model

| member | source | states |
|---|---|---|
| Models.NewProject | models.py:9-11 | a new project record carries the given key and no target (`targetUrl` is None, so it is not forwarded to) |
| Models.IncreasingIdsUnique | models.py:5 | in a table with strictly increasing ids, two different rows never share an id (the id is a key) |
| Models.NextRowId | models.py:5 | the id the store assigns on insert is greater than every id already in the table, and is 1 for an empty table |
| Models.InsertKeepsIncreasing | models.py:4-7 | appending a new record under the assigned id keeps every row's id set and the ids strictly increasing |
| Webhooks.Rows | main.py:61 | the listing has one `(id, payload)` pair per selected row, position by position |
| Webhooks.Attempts | main.py:70-74 | replay makes one POST per selected row, in order, each to the same URL and carrying that row's payload |
| Webhooks.SelectAppend | main.py:60 | selecting from a table with one more row adds that row at the end exactly when it belongs to the project |
| Webhooks.SelectMembers | main.py:60 | a row is selected if and only if it is in the table and its project id matches |
| Webhooks.SelectKeepsIncreasing | main.py:60 | the selection keeps table order: selected rows keep their ids, still strictly increasing |
| Webhooks.SelectAbsent | main.py:57-61 | a project with no rows in the table selects nothing |
| Webhooks.AttemptsAppend | main.py:70-74 | the deliveries for one more row are the earlier deliveries followed by exactly one to the same URL with that row's payload |
| Webhooks.LogsAfterInsert | main.py:45-47 | after a hook is logged, that project's listing gains one pair at its end, with the new id and the payload received, and every other project's listing is unchanged |
| Webhooks.WebhookService.constructor | main.py:8-9 | a first start on an empty webhooks.db: no projects, no rows and no delivery attempts |
| Webhooks.WebhookService.Post | main.py:50-54 | an outbound POST is recorded in the outbox; its outcome is arbitrary and changes nothing else |
| Webhooks.WebhookService.Register | main.py:17-25 | a taken id gives AlreadyExists and changes nothing; otherwise the id is added with no target, and the other projects, the table and the outbox are unchanged |
| Webhooks.WebhookService.SetTarget | main.py:27-36 | an unknown id gives ProjectNotFound and changes nothing; otherwise that project's target becomes the given string, even an empty one, and nothing else changes |
| Webhooks.WebhookService.Receive | main.py:38-55 | an unknown project gives ProjectNotFound with no row logged and no POST made; otherwise exactly one row is appended with that project id, that payload and an id above all earlier ids, and earlier rows are unchanged; one POST of the payload to the target is recorded if and only if the target is set and non-empty; the answer is Received either way |
| Webhooks.WebhookService.GetLogs | main.py:57-61 | the result is the selected rows in table order as `(id, payload)` pairs; every row of the project appears; an unknown project gives the empty list; no state changes |
| Webhooks.WebhookService.Replay | main.py:63-75 | an unknown project, or one whose target is None or empty, gives ProjectOrTargetNotFound with no POST; otherwise one POST per selected row is appended, in table order, all to the current target; the answer counts the selected rows whatever the POSTs did; the projects and the table are unchanged |
| Scenarios.ReceiveThenList | main.py:17-61 | register, set a target, receive "hello": the listing is `[(1, "hello")]` and the one POST went to the target |
| Scenarios.ReceiveUnknown | main.py:42-44 | a hook for an unregistered project is refused, and its listing is empty |
| Scenarios.RegisterTwice | main.py:20-21 | registering the same id twice succeeds once and then gives AlreadyExists |
| Scenarios.ReplayWithoutTarget | main.py:66-68 | a project that never got a target logs both hooks, and replay is refused with no POST |
| Scenarios.EmptyTarget | main.py:33 | an empty target is stored, but nothing is forwarded and replay is refused |
| Scenarios.TargetSetBetweenHooks | main.py:27-55 | a hook logged before any target is set is not forwarded; after set-target, the next hook goes to the new target; both rows are kept, with ids 1 and 2 |
| Scenarios.ReplayCurrentTarget | main.py:69-75 | replay sends every row to the target as it is now, including the row logged before any target existed, and answers Replayed(2) |

## Left out

- Models.NextRowId: ids are unbounded integers. SQLite's rowid is a signed
  64-bit integer. Once the largest rowid is 2^63−1, SQLite picks a random
  unused positive rowid, which is smaller than the current maximum, or the
  insert fails with SQLITE_FULL. Past that point the strictly increasing ids
  of `Valid()`, and `Receive`'s "new id above all earlier ids", no longer
  hold. The model assumes the largest id stays below 2^63−1.
- Row order of the listing queries is an assumption about the store. The
  queries have no ORDER BY, so SQL leaves their order undefined. SQLite
  scans this unindexed table in rowid order, and the model returns rows in
  that order, which is insertion order.
- HTTP routing, status codes and request-body classes are left out. Each
  handler returns a `Response` value instead. `AlreadyExists` stands for the
  400 reply. `ProjectNotFound` and `ProjectOrTargetNotFound` stand for the
  two 404 replies.
- The SQL engine, sessions and commit durability are left out. Each table is
  an in-memory field, and each handler's changes happen at once. A restart
  on an existing webhooks.db, which keeps its projects and rows, is not
  modelled: the service always starts empty.
- Network I/O is left out. Each outbound POST is only an entry appended to
  the outbox. Its result, whether a response or an exception, is an
  arbitrary value that the handlers discard.
- Decoding the request body as UTF-8 is left out. The payload arrives as an
  already-decoded string. A body that fails to decode raises before anything
  is logged, so the model has no such path.
- Receive forwards the raw body bytes, and replay sends the stored string.
  The model does not tell these apart: both deliveries carry the payload
  string.
- async/await and concurrent requests are left out. Handlers run one after
  another.
- Webhooks.WebhookService.Receive: logging comes before the forward attempt
  in the code. The contract describes only the state after the call, so this
  order is not stated. No outcome of the attempt can undo the log entry,
  since the outcome is discarded.
