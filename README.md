# Issue tracker: the in-memory store and its four handlers

This project models the core of a small issue-tracking API. The core is one
component: a process-wide object `issues` that maps a project name to the
ordered list of that project's issues, and the four request handlers of
`/api/issues/:project`:

- GET lists a project's issues, filtered by the query parameters.
- POST creates an issue and appends it to the project's list.
- PUT merges the supplied fields into the first issue with the given `_id`.
- DELETE splices that issue out of the list.

GET only reads the registry. POST, PUT and DELETE either answer with an error
body and leave the registry as it was, or change it in one step.

Modules:

- `values.dfy` (`JsValues`): the JavaScript side of things. It covers missing
  request fields (`Option`), truthiness, the property values an issue can hold
  (`Str | Bool | Date | Inherited`), and the names every object literal
  inherits from `Object.prototype`.
- `issue.dfy` (`Issues`): the issue record, the destructured request bodies,
  the response bodies and the exact error and result strings.
- `filter.dfy` (`IssueFilter`): the GET filter. `Select` is
  `Array.prototype.filter`. `Passes` is the predicate at routes/api.js:23-30.
  The file also has lemmas on ordering, composition, and the surprising cases
  of booleans and dates.
- `handlers.dfy` (`Handlers`): the four handlers as pure transitions of the
  registry value (`Query`, `Create`, `Update`, `Remove`). Each one says, in its
  `ensures`, which check fails first and what the new registry is.
- `handler_lemmas.dfy` (`HandlerLemmas`): properties that relate several
  requests (GET after POST, DELETE after POST, DELETE twice, PUT twice). It
  also has the invariants every handler keeps: unique `_id`s and
  `created_on <= updated_on <= clock`.
- `store.dfy` (`Store`): the class `IssueStore` with the field `issues`. Its
  methods run the handlers imperatively: lazy initialisation and push,
  `findIndex` as a loop, field-by-field assignment, and splice. Each method is
  proved equal to its transition in `Handlers`.

Behaviour of the code that a reader might not expect, which the model keeps:

- The failing GET answers with HTTP status 400 (routes/api.js:16). It is the
  only response in the file that sets a status.
- `updated_on` only increases strictly when the clock has advanced. A PUT in
  the same millisecond as the previous request keeps the timestamps ordered
  but need not move `updated_on` forward (`UpdateKeepsChronological`).
- The code does not enforce unique `_id`s. Uniqueness is an invariant that
  holds when every POST is given an unused id.
- Unknown query keys have no effect, except for names inherited from
  `Object.prototype` (see Findings).

## Model

| member | source | states |
|---|---|---|
| `Issues.OwnProperty` | routes/api.js:52-62 | an issue has exactly the nine own properties of the record built by POST; `open` is a boolean, the two dates are `Date` values, the rest are strings |
| `Issues.PropertyAsWritten` | routes/api.js:25 | `issue[key]` is the own property for the nine field names; for any other key it is defined exactly for the `Object.prototype` member names, and then truthy |
| `IssueFilter.Select` | routes/api.js:23 | `filter` never lengthens the list and keeps exactly the elements the predicate accepts |
| `IssueFilter.SelectIsSubsequence` | routes/api.js:23-30 | `filter` keeps the surviving elements in their original order |
| `IssueFilter.SelectCounts` | routes/api.js:23-30 | `filter` keeps every copy of an accepted element and none of a rejected one |
| `IssueFilter.FilterIssues` | routes/api.js:19-31 | the GET result is an order-preserving subsequence of the project's list; an issue is dropped if and only if some query key names a truthy property of it that is not strictly equal to the query value; multiplicities are kept. The predicate is `IssueFilter.Passes` (routes/api.js:23-30), whose test for one key is `IssueFilter.Rejects` (routes/api.js:25); this row covers both |
| `IssueFilter.NonFieldKeysKeepAll` | routes/api.js:24-25 | query keys that are not issue properties drop nothing |
| `IssueFilter.EmptyFilterKeepsAll` | routes/api.js:19-33 | a GET without query parameters returns the project's whole list unchanged |
| `IssueFilter.FilterAppend` | routes/api.js:23-30 | filtering distributes over concatenation, so an appended issue appears at the end of a result if it passes |
| `IssueFilter.FilterIdempotent` | routes/api.js:23-30 | filtering a result again by the same query changes nothing |
| `IssueFilter.FilterConjunction` | routes/api.js:24-28 | query keys combine with AND: filtering by two queries with distinct keys at once equals filtering by one and then the other |
| `IssueFilter.OpenQuery` | routes/api.js:25 | since `open` is a boolean, an `open` query drops every open issue and keeps every closed one, whatever the query value |
| `IssueFilter.DateQueryDropsAll` | routes/api.js:25 | a query on `created_on` or `updated_on` drops every issue, since a `Date` is truthy and never equals a string |
| `IssueFilter.ReturnedIssuesMatch` | routes/api.js:25 | each issue returned has, for every queried string field, either the queried value or the empty string (the check in tests/2_functional-tests.js:133-169) |
| `IssueFilter.FilterIssuesAsWritten` | routes/api.js:23-30 | the filter as written, reading inherited members too: an order-preserving subsequence that drops an issue if and only if some key rejects it, and keeps every copy of a passing one. Its predicate is `IssueFilter.PassesAsWritten` (routes/api.js:23-30), whose test for one key is `IssueFilter.RejectsAsWritten` (routes/api.js:25); this row covers both |
| `IssueFilter.InheritedKeyDropsAll` | routes/api.js:25 | as written, a query key naming an `Object.prototype` member drops every issue |
| `IssueFilter.InheritedKeyExample` | routes/api.js:25 | for `?toString=x` the filter as written returns nothing, while the own-property filter returns the whole list |
| `IssueFilter.AsWrittenAgrees` | routes/api.js:25 | the two filters agree on every query whose keys avoid the `Object.prototype` members |
| `Handlers.FirstIndex` | routes/api.js:138 | `findIndex` gives -1 exactly when no issue has the id, and otherwise the first position that has it |
| `Handlers.Query` | routes/api.js:11-34 | a project without an entry gives `{error: "No issues for this project"}`; otherwise the result is an order-preserving subsequence of the list that drops exactly the rejected issues and keeps every copy of a passing one |
| `Handlers.Create` | routes/api.js:37-69 | a missing or empty title, text or author gives `{error: "required field(s) missing"}` and an unchanged registry, with no project entry created; otherwise exactly one issue is appended to the project's list (created if absent). The returned issue is the appended one: it has the given id, the supplied strings, `""` for an undefined `assigned_to` or `status_text`, `open` true and `created_on = updated_on = now`. Other projects are unchanged. This row also covers the helpers `Handlers.HasRequiredFields` (routes/api.js:48) and `Handlers.OrEmpty` (routes/api.js:43-44) |
| `Handlers.Merge` | routes/api.js:111-119 | each string field is overwritten only by a non-empty supplied value; `open` is overwritten whenever it is supplied, `false` included; `updated_on` becomes `now`; `_id` and `created_on` are kept. This row also covers the helper `Handlers.Overwrite` (routes/api.js:112-116) |
| `Handlers.Update` | routes/api.js:72-122 | checks run in order: missing `_id`, then no update field, then an unknown project or id; the first failure wins, the later two failures echo `_id`, and every failure leaves the registry unchanged. On success only the first issue with the id is replaced by its merge, the list length and all other issues and projects are kept, and the response is `{result: "successfully updated", _id}`. This row also covers the helper `Handlers.NoUpdateFields` (routes/api.js:90-97) |
| `Handlers.Remove` | routes/api.js:125-148 | a missing `_id` gives "missing _id"; an unknown project or id gives `{error: "could not delete", _id}`; both leave the registry unchanged. On success exactly the first matching issue is spliced out, the rest keep their order, the length drops by one, and the project keeps its entry |
| `Handlers.QueryAsWritten` | routes/api.js:11-34 | the GET handler as written throws exactly for a project named after an unowned `Object.prototype` member, and reports "No issues for this project" exactly for the other unowned names; a project with an own entry gets the as-written filter of its list. The lookup `issues[project]` (routes/api.js:15) is the helper `Handlers.LookupAsWritten`: the own entry, else an inherited member for the `Object.prototype` names, else `undefined`; this row covers it |
| `HandlerLemmas.QueryAfterCreate` | routes/api.js:19-31 | a GET after a successful POST returns the earlier passing issues followed by the new issue if it passes the query |
| `HandlerLemmas.ListAfterCreate` | routes/api.js:65-66 | after a successful POST, an unfiltered GET returns the old list plus the new issue, so at least one issue (tests/2_functional-tests.js:83-104) |
| `HandlerLemmas.CreateThenRemove` | routes/api.js:138-145 | given an id not already in the project, deleting the id just created restores the registry, except that a new project keeps an empty entry |
| `HandlerLemmas.RemoveLeavesNoMatch` | routes/api.js:138-145 | with unique ids in the project, a successful DELETE leaves no issue with that id |
| `HandlerLemmas.RemoveTwice` | routes/api.js:138-142 | with unique ids, repeating a successful DELETE gives `{error: "could not delete", _id}` and changes nothing |
| `HandlerLemmas.QueryAfterRemove` | routes/api.js:19-31 | with unique ids in the project, after a successful DELETE a GET filtered on that `_id` returns no issue carrying it |
| `HandlerLemmas.MergeIdempotent` | routes/api.js:112-119 | applying the same field assignments twice at the same time equals applying them once |
| `HandlerLemmas.UpdateIdempotent` | routes/api.js:105-121 | sending the same PUT twice at the same time gives the same response and registry as sending it once |
| `HandlerLemmas.UpdateCanClose` | routes/api.js:96 | a PUT with only `open: false` counts as an update field, succeeds, and closes the first matching issue |
| `HandlerLemmas.EmptyStringsAreNotUpdates` | routes/api.js:90-98 | a PUT whose string fields are all empty and whose `open` is undefined gives "no update field(s) sent" with `_id` and changes nothing |
| `HandlerLemmas.CreateKeepsIdsUnique` | routes/api.js:52-66 | a POST given an unused id keeps `_id`s unique across the store |
| `HandlerLemmas.UpdateKeepsIdsUnique` | routes/api.js:112-119 | a PUT never changes an `_id`, so it keeps them unique |
| `HandlerLemmas.RemoveKeepsIdsUnique` | routes/api.js:145 | a DELETE keeps `_id`s unique |
| `HandlerLemmas.CreateKeepsChronological` | routes/api.js:59-60 | with a clock that does not go back, every issue still has `created_on <= updated_on <=` the clock after a POST |
| `HandlerLemmas.UpdateKeepsChronological` | routes/api.js:119 | with a clock that does not go back, a PUT keeps `created_on <= updated_on <=` the clock for every issue, even within the same millisecond; on success it keeps `created_on` of the updated issue and, when the clock has advanced, moves its `updated_on` strictly forward |
| `HandlerLemmas.RemoveKeepsChronological` | routes/api.js:145 | a DELETE keeps the timestamps ordered |
| `HandlerLemmas.InheritedProjectThrows` | routes/api.js:15-23 | for an unowned `Object.prototype` name, GET as written throws, while the own-key model reports "No issues for this project" |
| `HandlerLemmas.ConstructorProjectExample` | routes/api.js:15-23 | on a fresh store, GET `/api/issues/constructor` throws as written, while the own-key model answers with the "No issues" error |
| `HandlerLemmas.QueryAsWrittenAgrees` | routes/api.js:11-34 | GET as written and the own-key model agree whenever the project name and query keys avoid the `Object.prototype` members |
| `Store.FindIndex` | routes/api.js:138 | the loop returns the first index whose `_id` matches, or -1 |
| `Store.IssueStore.constructor` | routes/api.js:4 | the store starts empty |
| `Store.IssueStore.Get` | routes/api.js:11-34 | GET changes nothing and returns what `Query` gives: the "No issues" error or an order-preserving subsequence of the list |
| `Store.IssueStore.Post` | routes/api.js:37-69 | the new registry and the response are those of `Create`; given an unused id, `_id`s stay unique |
| `Store.IssueStore.Put` | routes/api.js:72-122 | the new registry and the response are those of `Update`; `_id`s stay unique |
| `Store.IssueStore.Delete` | routes/api.js:125-148 | the new registry and the response are those of `Remove`; `_id`s stay unique; in a store with unique `_id`s, a successful DELETE leaves no issue with that id, so repeating it answers `{error: "could not delete", _id}` and changes nothing |

## Findings

| source | as written | input that shows it | evidently intended | confidence | as-written member | corrected member |
|---|---|---|---|---|---|---|
| routes/api.js:15-23 | `issues` is a plain object, so `issues[project]` is a truthy inherited member for names such as `constructor`. The guard lets it through and `.filter` then throws a TypeError | GET `/api/issues/constructor` on a store with no such project | answer `{error: "No issues for this project"}`, as for any project without issues | not executed; high | `Handlers.QueryAsWritten` | `Handlers.Query` |
| routes/api.js:25 | `issue[key]` also finds inherited members, so a query key such as `toString` gives a truthy function that never equals the query string, and every issue is dropped | GET `/api/issues/test?toString=x` | query keys that are not issue fields have no effect | not executed; medium | `IssueFilter.FilterIssuesAsWritten` | `IssueFilter.FilterIssues` |

For the first row:

- `HandlerLemmas.ConstructorProjectExample` and
  `HandlerLemmas.InheritedProjectThrows` exhibit the throw.
- `Handlers.Query` is the corrected handler, and `IssueStore.Get` uses it. Its
  `ensures` states that every project without an entry gets the "No issues"
  error.

For the second row:

- `IssueFilter.InheritedKeyDropsAll` and `IssueFilter.InheritedKeyExample`
  exhibit the drop.
- `IssueFilter.NonFieldKeysKeepAll` proves the intended behaviour of the
  own-property filter that the rest of the model uses.

`HandlerLemmas.QueryAsWrittenAgrees` shows that the two versions of GET differ
only on these names.

## Left out

- HTTP plumbing is not modelled: routing, reading `req.params`, `req.query` and
  `req.body`, JSON serialisation and status codes. The GET error is sent with
  status 400 (routes/api.js:16); every other response sets no status and so
  goes out as 200; a thrown TypeError becomes the framework's 500 page.
- The clock and the id generator (`new Date()`, `Date.now().toString()`) are
  parameters `now` and `id`. Uniqueness of ids is a precondition of the
  invariant lemmas, not a property of a millisecond timestamp.
- Handlers.Create: takes one clock reading for both `created_on` and
  `updated_on`. The source calls `new Date()` twice (routes/api.js:59-60), so
  the two can differ by a millisecond.
- Request values other than strings are not modelled: numbers, arrays, `null`,
  or a non-boolean `open` such as the string `"false"` from a form-encoded
  body. Query values are taken to be strings.
- The throw on inherited project names is modelled for GET only. POST, PUT and
  DELETE read `issues[project]` the same way and would throw at `push`, `find`
  and `findIndex`. Their models use the own-key lookup.
- GET returns a new array holding the live issue objects, and PUT mutates the found record object in
  place. Every response is serialised at once and no other code keeps a
  reference, so issues are values here, and PUT replaces the element at the
  found index.
- `if (filter)` (routes/api.js:22) is always taken, because the framework
  always supplies a query object. Query keys are a map: the `for…in` order does
  not matter to a conjunction of tests.
- Concurrency is not modelled: every handler runs to completion without
  interleaving.
- The chai-http test file (tests/2_functional-tests.js) is not modelled. Its
  assertions appear as lemmas above.
