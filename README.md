# RERUM inbox: announcement validation, normalisation and listing

This project models the decision logic of the RERUM inbox, an LDP-style
inbox for Activity-Streams announcements backed by a Firebase store. The
logic exists twice, and each version is modelled as written:

- `server.js`, the Express service, is modelled in module `Server`
  (`server.dfy`).
- `src/java/io/rerum/messages/MessagesResource.java`, the legacy JAX-RS
  resource, is modelled in module `MessagesResource`
  (`messages_resource.dfy`).

Supporting modules:

- `Json` (`json.dfy`) holds JSON values. Objects are association lists of
  entries in insertion order. `WellFormed` means the keys are distinct.
  `Lookup` reads a key, `Assign` is JavaScript's `obj[k] = v`, `Without`
  drops a key, and `TruthyAt` is JavaScript truthiness of `obj[k]`.
- `Text` (`text.dfy`) is substring containment.
- `Filtering` (`filtering.dfy`) is the listing loop both services run. Each
  store entry becomes a `Step`: a stamped item plus a decision (`Keep`,
  `Skip` or `Throw`). `Collect` keeps the kept items in order. It yields
  `None` once a decision throws.
- `Divergence` (`divergence.dfy`) relates the two services: where they
  agree, and the inputs that tell them apart.

The Firebase store is never called directly. Each operation takes it as a
function-typed parameter: `create`/`post` for the POST, `read` for a single
message, `list`/`fetch` for the listing. The POST methods also return
`sent`, the document the store received; it is `None` when the store is not
called. The timestamp (`new Date().toString()`) is a string parameter.
The server.js handlers take the root of their identifiers as `idRoot`.
The service computes it once, as `IdRoot(env)` of the `ID_ROOT`
environment variable.
`Message.generate`, which the Java resource calls, has no source here. It is
a function parameter of type `Generate`. The lemmas that depend on its
behaviour assume `IsInsert(generate)`: the key gets the value and every
other key is left alone.

How the two services behave differently, with the lemmas that show it:

- Presence checks differ. server.js tests truthiness, so `"@id": ""` passes
  validation. It is stored and then survives `addIdToObject`, because the
  spread lets an existing `@id` win. The Java resource tests `containsKey`,
  so it refuses any `@id` (`FalsyIdSplitsTheGuards`,
  `EmptyStringsSplitTheChecks`).
- The motivation filters run in opposite directions. server.js asks whether
  the item's motivation contains the query. Java asks whether the query
  contains the item's motivation (`FilterDirectionsDiffer`). Java also
  compares against `toString()` of a `JsonString`, which is the quoted JSON
  literal. So a non-empty filter with no `"` in it keeps nothing
  (`UnquotedFilterKeepsNothing`).
- The query strings differ. With exactly one of `type` and `target` set,
  both services build the same clause before percent-encoding
  (`QueriesAgreeOnOneFilter`). On the wire they still differ, because
  `URLSearchParams` percent-encodes `"` and the Java resource sends it raw. With both
  set, Java concatenates the two clauses with no separator
  (`QueriesDivergeWhenBothSet`). A motivation-only query becomes a lone `?`
  in Java and the empty string in server.js
  (`QueriesDivergeOnMotivationOnly`).
- With `ID_ROOT` unset, the container server.js builds equals Java's
  `formatList` exactly (`ContainersAgreeOnDefaultRoot`). A stored item
  without `@id` is listed with the same `@id` by both services
  (`ItemIdsAgreeOnDefaultRoot`).
- A stored item with `"@id": ""` is listed differently. server.js's own
  `POST` can store such an item. server.js keeps the empty `@id`, because
  the spread lets the existing value win. Java's `generate` can overwrite it
  with `http://inbox.rerum.io/id/<key>` (`FalsyStoredIdSplitsTheIds`).
- Java's `postJson` returns the store's reply (`{"name": …}`) when the store
  call succeeds. It returns the normalised document only when that call
  throws. The two `Response.status(...)` lines on its error paths build a
  response and discard it, so the error texts go out as ordinary return
  values.

Some behaviour of the code is easy to misread. The model follows the code
in each case:

- A `GET /id/:noteId` whose store value is the empty object `{}` is found,
  not missing. Only a `null` reply is a 404 (`EmptyObjectIsFound`).
- After creation, the `@id` is not overwritten unconditionally. An existing
  `@id` wins (`AddIdToObject`, `PostMessages`).
- The missing-motivation message of server.js reads "Announcements", while
  the Java resource's reads "Annoucements".
- PUT and DELETE are refused only on `/messages`.
- An item whose `motivation` is not a string does not simply fail the
  filter. In server.js a number, boolean or object makes `includes` throw,
  and the listing becomes a 500 reply. In Java a missing or non-string
  motivation throws whenever a filter is set.

## Model

| member | source | states |
|---|---|---|
| `Json.Assign` | server.js:97-102 | `obj[k] = v`: afterwards `k` maps to `v` and every other key keeps its value; an existing key is overwritten where it stands, a new key is appended at the end; distinct keys stay distinct |
| `Server.IdRoot` | server.js:9 | a set, non-empty `ID_ROOT` is used as is; an unset or empty one falls back to `http://inbox.rerum.io`; the root is never empty |
| `Server.AddIdToObject` | server.js:16-21 | the result starts with `@id`; `@id` maps to the given id when the object has no `@id`, otherwise the object's own value (whatever it is) wins; every other key keeps its value; the keys are the object's plus `@id`; with no `@id` present the result is exactly `@id` followed by the object's entries in order |
| `Server.AddIdToObjectIdempotent` | server.js:16-21 | stamping an already stamped object with any id changes nothing |
| `Server.BuildFirebaseQuery` | server.js:24-34 | a non-empty `type` gives exactly the `orderBy="type"`/`equalTo="<type>"` pair and `target` is ignored; otherwise a non-empty `target` gives the `target` pair; otherwise no parameters; `motivation` is never used |
| `Server.QueryText` | server.js:33 | the query text is empty exactly when there are no parameters; otherwise it is `?` followed by the `name=value` pairs joined by `&` |
| `Server.Container` | server.js:63-68 | the container has exactly the keys `@context`, `@type`, `@id`, `contains`: the LDP context, `ldp:Container`, `<root>/messages?target=<target>` (also for an empty target) and the messages in listing order |
| `Server.GetMessages` | server.js:37-75 | the loop's reply is 200 with the container of `Listing` of the store's answer to the built query; when the motivation filter throws it is the 500 `Failed to fetch messages` reply |
| `Filtering.CollectFailsIffSomeThrow` | server.js:50-60 | a listing fails exactly when the filter throws on one of its entries |
| `Filtering.CollectIsOrderedSubsequence` | server.js:50-60 | the kept items are the stamped entries with some left out, in store order |
| `Filtering.CollectIsKept` | server.js:50-60 | a listing that does not fail equals the kept items: in order and each as often as kept. `Kept` is an independent definition built from the last step backwards |
| `Filtering.CollectKeepsExactlyKept` | server.js:50-60 | every entry the filter keeps is listed, and every listed item comes from an entry the filter kept |
| `Server.MotivationFilter` | server.js:55 | with no query motivation the message is kept. With one, it throws exactly when the message's motivation is present and not `null`, a string or an array. An absent or `null` motivation is skipped. A string motivation is kept exactly when it contains the query. An array is kept exactly when it holds the query string |
| `Server.ListingFailsOnOtherMotivation` | server.js:50-60 | with a query motivation set, one entry whose motivation is a number, a boolean or an object makes the whole listing fail, which is the 500 of `GET /messages` |
| `Server.ListingStampsCanonicalIds` | server.js:51-52 | every listed message is a store entry stamped by `addIdToObject`; its `@id` is the entry's own when the entry has one, even a falsy one, and otherwise `<root>/id/<key>`, put in front of the entry's keys |
| `Server.ListingPreservesOrder` | server.js:50-60 | the listing is an order-preserving subsequence of the stamped store entries |
| `Server.ListingKeepsMatchingMotivations` | server.js:54-59 | over entries whose motivation is absent, `null` or a string, the listing never fails; an entry is listed exactly when the query motivation is empty or the entry has a motivation containing it as a substring, so an entry with no motivation is left out whenever a filter is set |
| `Server.MissingMotivationExcluded` | server.js:55 | with a filter set, a message without `motivation` is skipped |
| `Server.SupplementExample` | server.js:55 | the motivation `iiif:supplement:range` is kept under the query `supplement` and skipped under `zzz` |
| `Server.PostMessages` | server.js:78-122 | a truthy `@id` gives 400 with the duplicate-id message, then a falsy `motivation` gives 400 with the missing-motivation message, and in both cases the store is never called; otherwise the store gets the document with `@context` defaulted only when falsy, `published` set to the timestamp and every other key unchanged; an invalid store reply gives 500; otherwise 201 with the document stamped with `<root>/id/<name>`, which is its `@id` whenever the body had no `@id` key |
| `Server.CreatedKey` | server.js:108-111 | no reply, or a reply without a truthy `name`, gives no key; a reply whose `name` is a non-empty string gives exactly that string as the key; any key is the non-empty string in the reply's `name` |
| `Server.GetMessage` | server.js:125-140 | a `null` store reply gives 404 `No message found`; otherwise 200 with every non-`@id` key unchanged; the `@id` is the stored document's own when it has one, even a falsy one, and otherwise `<root>/id/<noteId>`, put in front of the stored keys |
| `Server.EmptyObjectIsFound` | server.js:133-138 | a stored `{}` is returned as 200 carrying only the stamped `@id` |
| `Server.PutMessages` | server.js:148-150 | `PUT /messages` is always 405 with the fixed error body |
| `Server.DeleteMessages` | server.js:153-155 | `DELETE /messages` is always 405 with the fixed error body |
| `MessagesResource.PutPending` | src/java/io/rerum/messages/MessagesResource.java:84-88 | always status 405 with the fixed PUT entity |
| `MessagesResource.DeletePending` | src/java/io/rerum/messages/MessagesResource.java:167-171 | always status 405 with the fixed DELETE entity |
| `MessagesResource.PostJson` | src/java/io/rerum/messages/MessagesResource.java:98-133 | any `@id` key gives the `@id` error text before the motivation check, then a missing `motivation` key gives the missing-motivation text, and in both cases nothing is posted; otherwise the store is called, and with an inserting `generate` the posted document has `@context` added only when the key is absent, `published` set to the timestamp and every other key unchanged; the result is the store's reply when it carries a string `name`, otherwise the normalised document |
| `MessagesResource.JsonText` | src/java/io/rerum/messages/MessagesResource.java:195 | the rendered motivation is a quoted JSON string literal: it starts and ends with `"` |
| `MessagesResource.MotivationDecision` | src/java/io/rerum/messages/MessagesResource.java:195 | with an empty `MOTIVATION` the item is kept. With one set, it throws exactly when the item's motivation is missing or not a string. Otherwise it is kept exactly when `MOTIVATION` contains the quoted rendering of the motivation |
| `MessagesResource.EntryStep` | src/java/io/rerum/messages/MessagesResource.java:192-195 | an entry whose value is not an object throws. With an inserting `generate`, the item has `@id = http://inbox.rerum.io/id/<key>` and the entry's other keys. It throws exactly when a filter is set and the entry has no string motivation |
| `MessagesResource.ReadMessages` | src/java/io/rerum/messages/MessagesResource.java:182-201 | the `forEach` builds exactly `Messages` of the reply: the entries stamped through `generate` and filtered in order, or an exception for a non-object reply, a non-object entry or an unreadable motivation |
| `MessagesResource.MessagesStampIds` | src/java/io/rerum/messages/MessagesResource.java:194 | with an inserting `generate`, every listed item is a store entry with `@id = http://inbox.rerum.io/id/<key>` and its other keys unchanged |
| `MessagesResource.MessagesPreserveOrder` | src/java/io/rerum/messages/MessagesResource.java:190-198 | the array is an order-preserving subsequence of the stamped entries |
| `MessagesResource.EntryDecision` | src/java/io/rerum/messages/MessagesResource.java:195 | with an inserting `generate`, an entry with a string motivation is kept exactly when `MOTIVATION` is empty or contains its rendered motivation, and skipped otherwise |
| `MessagesResource.MessagesKeepContainedMotivations` | src/java/io/rerum/messages/MessagesResource.java:190-198 | over object entries with string motivations the listing never throws, and an entry is listed exactly when `MOTIVATION` is empty or contains the entry's rendered motivation (the reverse of server.js) |
| `MessagesResource.UnquotedFilterKeepsNothing` | src/java/io/rerum/messages/MessagesResource.java:195 | a non-empty `MOTIVATION` without a `"` character lists nothing: the array is empty or the listing throws |
| `MessagesResource.FormatList` | src/java/io/rerum/messages/MessagesResource.java:203-212 | the container has exactly the fixed `@context`, `@type` `ldp:Container`, `@id = http://inbox.rerum.io/messages?target=<TARGET>` and `contains`, which is exactly the input array |
| `MessagesResource.BuildQuery` | src/java/io/rerum/messages/MessagesResource.java:214-231 | the query is empty exactly when all three fields are empty, and otherwise starts with `?`; after the `?` comes the `type` clause exactly when `Q_TYPE` is set, then the `target` clause exactly when `TARGET` is set, with no separator |
| `MessagesResource.MotivationOnlyQuery` | src/java/io/rerum/messages/MessagesResource.java:215-218 | a motivation-only query is a lone `?` |
| `MessagesResource.MotivationAddsNoClause` | src/java/io/rerum/messages/MessagesResource.java:224-226 | any two non-empty motivations give the same query |
| `MessagesResource.GetJson` | src/java/io/rerum/messages/MessagesResource.java:173-180 | the listing is `formatList` of `readMessages` of the store's answer to `buildQuery`; an exception in `readMessages` is an exception of the whole read |
| `Divergence.FalsyIdSplitsTheGuards` | server.js:83-94 | a document with `"@id": ""` and a motivation passes both server.js checks while it carries the `@id` key that the Java resource refuses |
| `Divergence.TruthyIdIsPresentId` | src/java/io/rerum/messages/MessagesResource.java:106-110 | every `@id` that server.js refuses is also refused by the Java presence test |
| `Divergence.EmptyStringsSplitTheChecks` | server.js:90-99 | a key holding `""` is present for Java's `containsKey` but falsy for server.js, so an empty `motivation` or `@context` is treated differently |
| `Divergence.FilterDirectionsDiffer` | src/java/io/rerum/messages/MessagesResource.java:195 | the item with motivation `iiif:supplement:range` is kept by server.js under the query `supplement` and skipped by the Java resource |
| `Divergence.QueriesAgreeOnOneFilter` | server.js:24-34 | with exactly one of `type` and `target` set, server.js's query text, before percent-encoding, equals the Java query string |
| `Divergence.QueriesDivergeWhenBothSet` | src/java/io/rerum/messages/MessagesResource.java:219-229 | with both set, server.js sends only the `type` clause and Java sends `?`, the `type` clause and the `target` clause back to back |
| `Divergence.QueriesDivergeOnMotivationOnly` | src/java/io/rerum/messages/MessagesResource.java:216-218 | a motivation-only listing sends no query in server.js and a lone `?` in Java |
| `Divergence.ContainersAgreeOnDefaultRoot` | src/java/io/rerum/messages/MessagesResource.java:203-212 | with `ID_ROOT` unset (`IdRoot(None)`), server.js's container equals the Java `formatList`, entry for entry |
| `Divergence.ItemIdsAgreeOnDefaultRoot` | src/java/io/rerum/messages/MessagesResource.java:194 | with `ID_ROOT` unset and an inserting `generate`, a stored object without `@id` gets the same `@id` in the server.js listing step and in the Java listing step |
| `Divergence.FalsyStoredIdSplitsTheIds` | server.js:17-20 | with an inserting `generate`, an item stored with `"@id": ""` keeps the empty `@id` in server.js's stamped item, and the Java listing step gives it `http://inbox.rerum.io/id/<key>` |

## Left out

- HTTP plumbing is not modelled: Express and JAX-RS routing and annotations, `res.status(...).json`, the axios and `HttpURLConnection` calls, stream reading and logging. The store is a function parameter instead.
- Network failures and the `catch` paths they reach are not modelled: the 500 replies of `POST`/`GET /messages`, and the 404 of `GET /id/:noteId`'s `catch`. Only exceptions caused by the data itself are modelled.
- JSON parsing and printing are not modelled: `express.json`, `JsonReader`, `toString()` of the results, and the percent-encoding that `URLSearchParams.toString` applies to `"`. Query parameters are name/value pairs rendered unencoded.
- The clock is not modelled: `new Date().toString()` is the `time` parameter.
- Store values that are not JSON objects are not modelled: the entries of a listing and the value read by `GET /id/:noteId` are objects, or `null`. The store only ever receives objects from `POST`. A `null` listing is the empty listing (`response.data || {}`).
- POST bodies that are JSON arrays are not modelled. Neither service would store one.
- Query parameters given more than once, which Express turns into arrays, are not modelled.
- `Server.CreatedKey`: a truthy `name` that is not a string is treated as an invalid reply. The code would render it into the `@id` with JavaScript string conversion. The Firebase push reply always carries a string `name`.
- JavaScript's own-key order puts integer-like keys first; the model keeps insertion order for every key.
- JSON numbers are reals here; only whether they are zero matters, for truthiness.
- `MessagesResource.PostJson`, `MessagesResource.MessagesStampIds` and `MessagesResource.MessagesKeepContainedMotivations` state what they say about the normalised document only for an inserting `generate` (`IsInsert`). `Message.generate` is not part of this model, so its exact behaviour and key order are not assumed.
- `MessagesResource.ReadMessages`: an entry whose value is not an object is taken to make `generate` throw. The string overload of `generate` used there is not part of this model.
- `MessagesResource.JsonText` escapes the way the reference implementation of JSON-P renders a `JsonString`. Other JSON-P providers may escape differently.
- `src/java/io/rerum/messages/Message.java` is not part of this model: `getMessage` is a raw fetch and `putJson` is an echo. `ecosystem.config.js` is deployment configuration only, and the `/health` endpoint of server.js holds no decision logic.
