# Repository registry

A model of the in-memory repository registry of a small Express service
(`src/app.js`). The service keeps one ordered array of repository records
(`id`, `title`, `url`, `techs`, `likes`) in process memory and exposes five
routes: list, create, update, delete and like. Two request gates run before
the handlers. One checks the creation payload. The other checks that a
`/repositories/:id` path names an existing, UUID-shaped id.

Layout:

- `values.dfy` (`JsonValues`): the JSON values a request body can carry.
  Also JavaScript truthiness on them: `null`, `false`, `0` and `""` are
  falsy, and every array and object is truthy, `[]` included.
- `records.dfy` (`Records`): the record type and the body type. Also the
  `some` and `findIndex` lookups and the two gates.
- `handlers.dfy` (`Handlers`): each route as a function from the current
  collection to a reply and the next collection. Lemmas relate several
  requests.
- `app.dfy` (`App`): the `repositories` array as a `seq` field of a
  `RepositoryStore` class. Its methods change the array the way the source
  does (`push`, index assignment, `splice`). Create, update, delete and like
  are each proved equal to the matching `Handlers` function; list returns
  the collection and changes nothing.

Foreign calls become parameters. `isUuid` is a function value
`isUuid: string -> bool`, kept as a constant of the store. The id that
`uuid()` generates is the `newId` argument of `Create`, which must be
UUID-shaped.

The id gate is mounted with `app.use("/repositories/:id", …)`. That is a path
prefix, so it also guards `/repositories/:id/like`, as well as PUT and
DELETE. The model therefore runs the gate at the start of update, delete and
like.

## Model

| member | source | states |
|---|---|---|
| `Records.Contains` | src/app.js:31 | true exactly when some record in the collection has the id |
| `Records.IndexOf` | src/app.js:107-109 | the result is -1 or an index holding the id; every record before it (every record, when -1) has a different id, so it is the first match and -1 means absent |
| `Records.IndexOfSameIds` | src/app.js:107-109 | the lookup depends only on which id sits at which index |
| `JsonValues.Truthy` | src/app.js:21 | a value is falsy exactly when it is `null`, `false`, `0` or `""`; every array and object, `[]` included, is truthy |
| `JsonValues.Supplied` | src/app.js:74-76 | a body field passes a truthiness test exactly when it is present and not one of the falsy values |
| `Records.CreationValid` | src/app.js:18-26 | the creation gate passes exactly when title, url and techs are all present and none of them is a falsy value |
| `Records.IdValid` | src/app.js:28-38 | the id gate passes exactly when the id is UUID-shaped and the handlers' lookup finds an index, so a guarded handler never sees -1 |
| `Handlers.Create` | src/app.js:18-26 | a payload with a falsy or missing title, url or techs gives InvalidParams and leaves the collection unchanged |
| `App.RepositoryStore.Create` | src/app.js:50-64 | on a valid payload the old records stay as they were and one record is appended: the generated id, the three supplied values and likes 0; it is the record returned and its id is UUID-shaped |
| `Handlers.Merge` | src/app.js:72-77 | each of title, url and techs is replaced only by a truthy supplied value; id and likes are always kept |
| `Handlers.Update` | src/app.js:66-81 | a gate failure gives NotFound with no change; otherwise only the record at the found index changes, to its merge with the body, the length is kept and that record is returned |
| `App.RepositoryStore.Update` | src/app.js:66-81 | the in-place update of the array leaves it and the reply exactly as `Handlers.Update` says |
| `Handlers.SpliceOne` | src/app.js:87 | `splice(start, 1)` at an index inside the array removes exactly that record and keeps the order of the rest; a start past the end removes nothing |
| `Handlers.SpliceMinusOneDropsLast` | src/app.js:86-87 | an unguarded `splice(-1, 1)` would remove the last record |
| `Handlers.Delete` | src/app.js:83-90 | a gate failure gives NotFound with no change; otherwise the reply is empty, the length drops by one and the records before and after the found index keep their order |
| `App.RepositoryStore.Delete` | src/app.js:83-90 | the splice on the array leaves it and the reply exactly as `Handlers.Delete` says |
| `Handlers.Like` | src/app.js:92-104 | a gate failure gives NotFound with no change; otherwise only the found record changes, and only its likes, by exactly one; that record is returned |
| `App.RepositoryStore.Like` | src/app.js:92-104 | the in-place like leaves the array and the reply exactly as `Handlers.Like` says |
| `App.RepositoryStore.List` | src/app.js:46-48 | returns the whole collection in order, and changes nothing |
| `App.RepositoryStore.constructor` | src/app.js:6 | the collection starts empty |
| `Handlers.CreateThenFound` | src/app.js:28-38 | after a create with a fresh UUID-shaped id, the lookup finds the new record at the end and the id gate accepts its id |
| `Handlers.CreateKeepsDistinct` | src/app.js:53-61 | a create with an unused id keeps all ids distinct |
| `Handlers.UpdateLikeKeepIds` | src/app.js:72-78 | update and like never change which id sits at which index |
| `Handlers.DeleteRemovesId` | src/app.js:83-90 | with distinct ids, a successful delete leaves no record with that id, and the ids stay distinct |
| `Handlers.UpdateIdempotent` | src/app.js:66-81 | updating twice with the same body leaves the same collection as updating once |
| `Handlers.LikeRepeated` | src/app.js:92-104 | n likes of an accepted id add exactly n to that record's likes and change nothing else, and the record stays at the same index |
| `Handlers.CreateLikeLikeDelete` | src/app.js:50-104 | create, two likes and delete on an empty collection: the record reaches two likes and the collection ends empty |
| `Handlers.CreateTruthiness` | src/app.js:18-26 | a body with a truthy title and url but no techs is refused and nothing is stored; an empty techs array is truthy and accepted |
| `App.LikeTwiceThenDelete` | src/app.js:46-104 | driving the store itself through create, like, like, delete and list gives two likes and then an empty list |

## Left out

- Express setup, JSON body parsing, CORS and route dispatch (src/app.js:1-5, 40-42): framework plumbing. Only the gate's placement on `/repositories/:id` is kept.
- The request log middleware (src/app.js:9-16): it only writes to the console.
- HTTP status codes and JSON encoding: a reply is a datatype (`Json`, `NoContent`, `InvalidParams`, `NotFound`).
- The body of `isUuid` and the randomness of `uuid()`: library calls. The first is a function parameter. The second is a supplied id, assumed UUID-shaped. That it is unused is a lemma hypothesis, not a check the code makes.
- JSON numbers are modelled as reals. `NaN` cannot come out of a JSON body. A `-0` can, but it is falsy like `0`, so one `Num(0.0)` stands for both.
- `likes` is an unbounded natural. In JavaScript it is a Number (a double), so above 2^53 the `+ 1` at src/app.js:99 is lost; `LikeRepeated` holds in the source only below that bound.
- Request bodies that are not objects, and body fields other than title, url and techs. Express yields an object, and the handlers read only those three fields.
- What a handler would do with index -1 if it ran without the gate. `repositories[-1]` reads `undefined`, and the record that would be built from it is not modelled. The gate makes this unreachable. `SpliceMinusOneDropsLast` records the delete case.
- Concurrent requests: the source handles one request at a time on one array.
