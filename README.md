# Vacancy and subscriber record layer

A model of the record layer of a job-postings backend. The backend stores vacancies
(job postings) and subscribers (a user's interest in one tag) in a relational
store. The model covers:

- The vacancy repository (`Vacancies`): insert, get, the optimistic-concurrency
  update, delete, and the field checks of `ValidateVacancy`.
  - The `vacancies` table is a class: a map from id to row, plus the counter that
    fresh ids come from.
  - `Update` is a compare-and-swap on `(id, version)`. It writes only when the stored
    version equals the caller's, and then raises the version by one.
  - A missing id and a stale version both give `EditConflict`.
- The subscriber repository (`Subscribers`): insert, the lookup by owner, the lookup by
  tag joined with the `users` table, delete, and `ValidateSubscriber`.
- The vacancy handlers (`VacancyHandlers`):
  - the `id < 1` guards of show, update and delete;
  - validate-then-insert on create;
  - the partial-update merge, then validation, then the compare-and-swap update;
  - the notification fan-out that a successful create starts.
- The fan-out: for each tag in order it looks up the matching subscribers, then makes
  one send per subscriber. Its result is stated as "the sends are the concatenation,
  over tags, of the subscribers each lookup found".

Modelling choices:

- Strings are byte sequences (`Text`), because Go's `len` counts bytes.
- A Go slice is `Slice<T>`, which keeps `nil` distinct from an empty slice. The
  validation check `Tags != nil` and the merge's `input.Tags != nil` depend on this.
- The store's errors (timeouts, lost connections, rejected statements) are a
  `fault: Option<StoreFault>` parameter. When it is `Some`, the operation returns
  `Store(fault)` and changes nothing.
- The store's clock is the `now` parameter.
- The full-text match of the store is the `TagMatch` parameter.
- `users` is the id-to-email map of the user table, which this layer only reads.
- The mail transport's answer to send attempt number `k` is `sendFails(k)`.
- The store's failure for the lookup of tag number `i` is `lookupFault(i)`.

Points of the code the model keeps as written:

- `Update` has no `id < 1` guard. No row has such an id, so it returns `EditConflict`.
  Only the handlers' guards turn a bad id into "not found".
- `Get`'s column list leaves out `active`, so the record it returns always has
  `active == false` (see Findings).
- The insert does not write `version` or `active`; the table's column defaults give new
  rows `version = 1` and `active = false`. The model writes those defaults in.

## Model

| member | source | states |
|---|---|---|
| `Vacancies.ValidateVacancyAccepts` | internal/data/vacancy.go:191-200 | a vacancy passes every check exactly when its title and company have 1 to 500 bytes and its tags are a non-nil slice of 1 to 5 values with no repeats |
| `Vacancies.ValidateVacancyFields` | internal/data/vacancy.go:191-200 | each of title, company and tags is reported exactly when its own constraint fails; no other field is ever reported |
| `Vacancies.VacancyModel.Insert` | internal/data/vacancy.go:27-40 | on success, exactly one row is added under a fresh id, holding the record's title, company and tags, `active` false and version 1; only id, creation time and version are written back; a store error changes nothing |
| `Vacancies.VacancyModel.Get` | internal/data/vacancy.go:42-77 | an id below 1 is not found whatever the table and the store; an id with no row is not found; otherwise the row's fields come back with `active` false, because it is not selected |
| `Vacancies.VacancyModel.Update` | internal/data/vacancy.go:127-157 | writes only when a row with the same id and version exists; then only that row changes, to the record's title, company, tags and active, with version old+1 (written back) and its creation time kept; a missing id or stale version gives EditConflict and leaves the table unchanged |
| `Vacancies.VacancyModel.Delete` | internal/data/vacancy.go:159-189 | an id below 1 is not found with no change; otherwise exactly that row is removed, or "not found" with no change when there is no such row |
| `Vacancies.InsertThenGet` | internal/data/vacancy.go:27-77 | reading back an inserted vacancy gives its title, company and tags, a fresh positive id, the insert's timestamp, version 1 and `active` false |
| `Vacancies.RacingUpdates` | internal/data/vacancy.go:128-151 | of two updates sent with the same starting version, the first is applied in full and the second gets EditConflict and changes nothing |
| `Vacancies.DeleteTwice` | internal/data/vacancy.go:159-189 | deleting the same id twice removes the row once and fails the second time with "not found" |
| `Vacancies.VacancyModel.GetWithActive` | internal/data/vacancy.go:42-77 | the corrected lookup: as `Get`, but the record carries the stored `active` |
| `Subscribers.ValidateSubscriberAccepts` | internal/data/subscriber.go:151-154 | a subscription is valid exactly when its tag has 1 to 500 bytes; an invalid one gets one message naming the broken bound |
| `Subscribers.SubscriberModel.Insert` | internal/data/subscriber.go:22-35 | on success, one row is added under a fresh id, holding owner, tag and timestamp; only id and creation time are written back; the email is not stored; a store error changes nothing |
| `Subscribers.SubscriberModel.GetAllById` | internal/data/subscriber.go:37-75 | lists exactly the rows owned by the user, each once, in id order, none with an email; when there are none the list is empty and no error is returned |
| `Subscribers.ByOwnerMember` | internal/data/subscriber.go:38-41 | a record is in the lookup by owner exactly when it is a stored row owned by that user, scanned without an email |
| `Subscribers.ByOwnerIncreasing` | internal/data/subscriber.go:55-68 | the lookup by owner lists rows in strictly increasing id order, so none appears twice |
| `Subscribers.SubscriberModel.GetAllByTag` | internal/data/subscriber.go:77-117 | lists exactly the rows whose tag matches the query and whose owner has a user row, each once, with that user's email |
| `Subscribers.ByTagMember` | internal/data/subscriber.go:78-82 | a record is in the lookup by tag exactly when its row matches the query and survives the join, and its email is the owner's |
| `Subscribers.ByTagIncreasing` | internal/data/subscriber.go:96-110 | the lookup by tag lists rows in strictly increasing id order, so none appears twice |
| `Subscribers.SubscriberModel.Delete` | internal/data/subscriber.go:119-149 | an id below 1 is not found with no change; otherwise exactly that row is removed, or "not found" with no change when there is no such row |
| `Subscribers.InsertThenList` | internal/data/subscriber.go:22-75 | an inserted subscription is listed by its owner's lookup with its tag and timestamp and without an email |
| `VacancyHandlers.Merge` | src/api/vacancies.go:134-148 | each field present in the request overwrites the fetched one, an absent field keeps the fetched value, and id, creation time and version are never touched |
| `VacancyHandlers.MergeIdempotent` | src/api/vacancies.go:134-148 | applying the same partial update twice gives the same record as applying it once |
| `VacancyHandlers.SendToEach` | src/api/vacancies.go:65-70 | one send per subscriber found, in order, numbered on from the earlier attempts; a failed send is logged and the loop goes on |
| `VacancyHandlers.NotifyTag` | src/api/vacancies.go:60-70 | one tag's turn: the sends are one per subscriber the lookup found, numbered on from the earlier attempts; a failed lookup adds one log entry and no send; a failed send adds one log entry |
| `VacancyHandlers.NotifySubscribers` | src/api/vacancies.go:54-72 | the sends are, in order, one per subscriber found for each tag in turn, each with template `new_vacancy.tmpl` and the vacancy's title, company and tags; a failed lookup logs an error and sends nothing for its tag; the log holds exactly the failed lookups and failed sends |
| `VacancyHandlers.FailedLookupSendsNothing` | src/api/vacancies.go:60-65 | a failed lookup for one tag gives the same sends as a lookup that found nobody; the tags before and after it send as they would have |
| `VacancyHandlers.SendsPerSubscriber` | src/api/vacancies.go:60-66 | a subscriber gets exactly one send per tag whose lookup succeeds and matches their subscription, and never more |
| `VacancyHandlers.SendFailuresDoNotChangeSends` | src/api/vacancies.go:66-69 | which sends fail changes only what is logged: the sends made are the same |
| `VacancyHandlers.QuietFanOut` | src/api/vacancies.go:60-70 | when every lookup and every send succeeds, the fan-out logs nothing |
| `VacancyHandlers.CreateVacancyHandler` | src/api/vacancies.go:12-73 | the table is written only when the record built from the request validates; an invalid request gets its violations and neither rows nor id counter change; a successful insert advances the counter by one; after a successful insert the response carries the stored record and the fan-out runs for it; a failed insert sends nothing |
| `VacancyHandlers.ShowVacancyHandler` | src/api/vacancies.go:176-201 | a bad id is not found whatever the table or the store holds; otherwise the response is what `Get` returns, with "not found" and store errors kept apart |
| `VacancyHandlers.DeleteVacancyHandler` | src/api/vacancies.go:75-92 | a bad id is not found with no change; otherwise the row is deleted, or "not found" when it does not exist; the id counter never moves |
| `VacancyHandlers.ApplyUpdate` | src/api/vacancies.go:134-166 | the merged record is sent to the update only when it validates, with the fetched version; a stale version gives the edit-conflict response and no change; the id counter never moves |
| `VacancyHandlers.UpdateVacancyHandler` | src/api/vacancies.go:101-166 | a bad id or a missing row is not found with no change; otherwise the stored row becomes the merge of the request into what `Get` returned, with version +1; `active` ends up true only when the request sets it true; the id counter never moves |
| `VacancyHandlers.PartialUpdateClearsActive` | src/api/vacancies.go:109-157 | an update that changes only the title of an active vacancy stores it as inactive |
| `VacancyHandlers.UpdateVacancyHandlerFixed` | src/api/vacancies.go:101-166 | with `active` fetched too, every field the request leaves out keeps its stored value, the version goes up by one, no other row changes and the id counter never moves |

## Left out

- `VacancyModel.GetAll` and the filter and pagination code it uses are not modelled.
  - `Filters` and `calculateMetadata` are not part of this model.
  - The query filters on a `genres` column rather than `tags`.
  - Its total is always 0, because `totalRecords` is never assigned.
  - It selects seven columns (a window count first) but scans six, so every row's
    `Scan` fails and `GetAll` returns an error whenever any row matches.
- The store's full-text matching and tokenisation are a given predicate (`TagMatch`).
- Context deadlines and `cancel` are not modelled. A timeout is one of the `fault` values.
- The fan-out really runs as a background goroutine that graceful shutdown waits for.
  The model runs its body sequentially, after the create's response.
- HTTP and JSON plumbing is not modelled: reading the body, writing responses, the
  `Location` header, and failures of `writeJSON`.
  - Some error branches of the update and delete handlers have no `return`, so they
    go on to write a success response too. These are: `EditConflict` and a failed
    `Update` in the update handler, and "not found" and a failed `Delete` in the delete
    handler. The model records only the first response.
  - In the fan-out, a failed lookup's server-error call is recorded as a log entry.
- `src/api/subscribers.go` (request glue around the subscriber model) and
  `src/api/routes.go` (routing and middleware) are not part of this model.
- Some foreign pieces are not modelled:
  - the mail transport (only its answer, `sendFails`);
  - the encoding done by `pq.Array`;
  - the inside of the validator. The model keeps the failed checks in order. The
    field-keyed error map the validator builds from them is not modelled, and
    `Unique` is taken as "no value twice".
- The `*Vacancy` and `*Subscriber` pointers are not modelled. Records are values, and
  what the store writes back is returned as `written`. The source never shares these
  records between callers, so aliasing is not lost.
- The source's queries have no `ORDER BY`, so the store may return rows in any order.
  The model scans rows in id order.
- Ids (`int64`) and versions (`int32`) are unbounded integers. The store's refusal to
  raise a version past 2^31-1 is not modelled.
- A failure of `RowsAffected` after a delete has run is modelled like a failed statement
  (table unchanged).
- Other requests running between the update handler's `Get` and `Update` are not
  modelled inside the handler. `RacingUpdates` shows at the repository level what the
  version check does when they happen.
- Constraint violations such as an unknown subscriber owner arrive through `fault`; the
  schema itself is not part of this model.

## Findings

| source | as written | input that shows it | evidently intended | confidence | as-written member | corrected member |
|---|---|---|---|---|---|---|
| internal/data/vacancy.go:47-50 | `Get` does not select `active`, and the update handler merges the request into that record and writes every field back | a stored vacancy with `active = true`, patched with a body of only `{"title": "..."}` (a valid title) | a field the request leaves out keeps its stored value, `active` included | high, not executed | `VacancyHandlers.PartialUpdateClearsActive` | `VacancyHandlers.UpdateVacancyHandlerFixed` |
