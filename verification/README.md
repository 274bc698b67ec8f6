# Task tracker request handling, modelled in Dafny

This project models the request-handling core of a small multi-user task
tracker. Users register and log in. They then create, read, update and delete
their own tasks through an authenticated router. Every reply is a uniform
envelope `{success, statusCode, message, data}`. The client also has a mock
task service that keeps tasks in an in-memory list.

The persistence layer becomes two immutable maps:

- `TaskStore` maps a task id to a `Task`, and each task is stored under its own id.
- `UserStore` maps a username to a `User`, and each user is stored under its own username.

Every handler is a pure function, or a method when it needs a loop. It takes
the store and returns the new store together with a `Reply`. A `Reply` holds
the transport (HTTP) status and the envelope. Things the code gets from its
environment are explicit parameters:

- the caller's user id, which the authentication middleware resolves;
- the current time in milliseconds;
- the id the store assigns to a new document;
- the bcrypt salt;
- a `fault` flag, or for the auth handlers the exception message, saying that a store call throws.

Password hashing, password comparison and token signing are the three
functions of a `Crypto` value (`hash`, `compare`, `sign`). The signing
secret is hidden inside `sign`.

Modules, one per source file:

| module | file | models |
|---|---|---|
| `Wrappers` | wrappers.dfy | `Option` (absent request field, `null` payload) |
| `Response` | response.dfy | `server/src/utility/Response.js` and the two ways controllers send it |
| `TaskModel` | task_model.dfy | `server/src/models/Task.js`: validators and defaults |
| `TaskController` | task_controller.dfy | `server/src/controllers/taskController.js` |
| `TaskProperties` | task_properties.dfy | laws relating several task-handler calls |
| `AuthController` | auth_controller.dfy | `server/src/controllers/authController.js` |
| `AuthProperties` | auth_properties.dfy | laws relating registration and login |
| `TaskRoutes` | task_routes.dfy | `server/src/routes/taskRoutes.js` |
| `Walkthrough` | walkthrough.dfy | one session across registration, task creation, login and reading |
| `ClientApi` | client_api.dfy | `client/src/services/api.js` (the mock, not the commented-out axios client) |
| `Sequences` | sequences.dfy | two facts about concatenation used by the list proofs |

Behaviour that comes from the libraries the code relies on is modelled as those libraries behave by default:

- `save` runs the schema validators, and a failed validation throws, so `createTask` answers with transport status 500 and "Server Error".
- A required string is missing when it is absent or empty.
- `maxlength` counts UTF-16 code units.
- `findByIdAndUpdate` does not run validators.
- The schema's `timestamps` option sets `createdAt` on a new document unless it is given. It sets the new document's `updatedAt` to that `createdAt`, overwriting any value supplied.
- Route matching ignores ASCII case in literal segments and accepts one optional trailing slash.
- A `:id` segment is any non-empty text without `/`.

Behaviours of the code worth noting:

- Someone else's task is refused with semantic code 401 "Not authorized", not 403.
- An update overwrites the four string fields only when they are truthy. A present but empty string is ignored.
- A missing title on create is not a separate validation error. It is the generic 500 "Server Error".
- Login signs its token for "1h" but reports `expirationTime: "24h"`.

## Model

| member | source | states |
|---|---|---|
| Response.Ok | server/src/utility/Response.js:2-9 | `success` is true and `statusCode` is 200. `data` passes through unchanged. The message defaults to "OK" only when it is absent. |
| Response.Created | server/src/utility/Response.js:11-18 | `success` is true and `statusCode` is 201. `data` passes through unchanged. The message defaults to "Created". |
| Response.Error | server/src/utility/Response.js:20-27 | `success` is false, with the given code and message. `data` is always null. |
| Response.Json | server/src/controllers/taskController.js:22 | `res.json` sends the envelope with transport status 200, whatever its semantic code. |
| Response.ServerError | server/src/controllers/taskController.js:25 | The catch path is the only reply with transport status 500. Its semantic code is also 500, it has no data, and it carries the given message. |
| Response.SuccessIdentifiesConstructor | server/src/utility/Response.js:4-22 | An `error` envelope never equals an `ok` or `created` one. Envelopes from `ok`/`created` are well formed (success iff the code is 200/201, no payload on failure). An `error` envelope is well formed exactly when its code is not 200/201. |
| TaskModel.Utf16Length | server/src/models/Task.js:5 | A description's length is counted as JavaScript counts it. It lies between the number of characters and twice that. |
| TaskModel.Save | server/src/models/Task.js:3-12 | Saving succeeds iff `title` is present and non-empty, the description fits in 500 units, and `completed` and `user` are present. The saved task holds exactly the draft's fields. `createdAt` defaults to now, and `updatedAt` equals `createdAt` whatever the draft carried. The result satisfies the validators. |
| TaskModel.TitleRequired | server/src/models/Task.js:4 | A draft without a title, or with an empty title, is rejected. |
| TaskModel.DescriptionLimit | server/src/models/Task.js:5 | When the other fields are valid, saving succeeds iff the description is absent or at most 500 long. |
| TaskModel.LongDescriptionRejected | server/src/models/Task.js:5 | Any description of more than 500 characters exceeds the limit. |
| TaskController.CreateDraft | server/src/controllers/taskController.js:12-19 | The document built by create has `completed` true only when the body says `true`, so an absent or false value becomes false. Its owner is the caller, and its timestamps are left to the defaults. |
| TaskController.CreateTask | server/src/controllers/taskController.js:4-27 | Transport status is 200 iff there is no fault, the id is fresh and the draft validates. On 200, exactly the new task is added under the new id. Its owner is the caller and its `completed` is `body.completed == true`. Both timestamps are now. The reply is `ok` with "Task created successfully". Otherwise the store is unchanged and the reply is 500 "Server Error". |
| TaskController.Guard | server/src/controllers/taskController.js:71-76 | Existence is checked first and ownership second. Missing iff the id is absent, foreign iff another user owns the task, owned iff the caller owns it. |
| TaskController.Refusal | server/src/controllers/taskController.js:72-75 | A missing task gets semantic 404 "Task not found" and a foreign task gets 401 "Not authorized". Both go out with transport status 200 and no data. |
| TaskController.GetTaskById | server/src/controllers/taskController.js:69-82 | A fault gives 500, a missing id gives 404, and someone else's task gives 401. The owner gets `ok` with the stored task and message "OK". |
| TaskController.Merge | server/src/controllers/taskController.js:35-41 | Title, description, subject and dueDate are overwritten only by truthy values. `completed` is overwritten whenever present, `false` included. `updatedAt` becomes now. Id, owner and `createdAt` are kept. |
| TaskController.UpdateTask | server/src/controllers/taskController.js:29-57 | Missing and foreign ids give 404 and 401 with the store unchanged. On the owner's update only that id changes, to the merged task. The reply carries the post-update record. |
| TaskController.DeleteTask | server/src/controllers/taskController.js:84-99 | Missing and foreign ids give 404 and 401 with the store unchanged. The owner's delete removes exactly that id and replies `ok` with null data and "Task removed". |
| TaskController.InsertNewestFirst | server/src/controllers/taskController.js:61 | Inserting into a newest-first sequence keeps it newest first, with one more element: the new one. |
| TaskController.InsertKeepsDistinctIds | server/src/controllers/taskController.js:61 | Inserting a task whose id is new keeps the ids distinct. |
| TaskController.FindTasks | server/src/controllers/taskController.js:61 | The query result has each matching task of the store exactly once, no other task, and is ordered by `createdAt` descending. |
| TaskController.GetAllMyTasks | server/src/controllers/taskController.js:59-67 | Without a fault the reply is `ok` with "OK" and exactly the caller's tasks, newest first. A fault gives 500. |
| TaskController.GetMyTasksByCompletionStatus | server/src/controllers/taskController.js:101-111 | The flag is true iff the query value is exactly the string "true". The reply holds exactly the caller's tasks with that `completed` value, newest first. |
| TaskProperties.CreateIgnoresClaimedOwner | server/src/controllers/taskController.js:7-18 | A `user` claimed in the body has no effect. The stored owner is the caller. |
| TaskProperties.MissingIdIgnoresCaller | server/src/controllers/taskController.js:71-72 | For a missing id, get, update and delete answer the same 404 to every caller and leave the store unchanged. The existence check precedes the ownership check, here and in the same guards of update (lines 44-45) and delete (lines 86-87). |
| TaskProperties.ForeignTaskUntouchable | server/src/controllers/taskController.js:74-76 | On another user's task, get, update and delete answer 401 "Not authorized" and leave the store unchanged. Update and delete repeat the same guard at lines 47-49 and 89-91. |
| TaskProperties.DeleteThenGet | server/src/controllers/taskController.js:93-94 | After the owner deletes a task, `getTaskById` on that id answers 404 for the owner and for anyone else. |
| TaskProperties.DeleteTwice | server/src/controllers/taskController.js:86-93 | A second delete of the same id answers 404 and changes nothing. |
| TaskProperties.UpdateIdempotent | server/src/controllers/taskController.js:35-52 | Repeating an update with the same body at the same time gives the same store and reply. |
| TaskProperties.UpdateTruthiness | server/src/controllers/taskController.js:36-40 | An empty body, or one with only empty strings, changes only `updatedAt`. `completed: false` is applied. |
| TaskProperties.PartialUpdateExample | server/src/controllers/taskController.js:35-52 | `{completed: true}` on a task titled "X" changes the stored record only in `completed`, now true, and `updatedAt`, now later. Title, description, subject, due date, creation time and owner are kept. The reply carries the new record. |
| TaskProperties.CreateKeepsValid | server/src/models/Task.js:3-12 | When every stored task satisfies the validators, they still do after any create. |
| TaskProperties.DeleteKeepsValid | server/src/controllers/taskController.js:93 | Deleting never makes a stored task invalid. |
| TaskProperties.UpdateKeepsValidIff | server/src/controllers/taskController.js:35-52 | Because update skips the validators, an owner's update keeps a valid store valid iff the description it sets (if any) fits in 500 units. |
| TaskProperties.FilterCompleted | server/src/controllers/taskController.js:105 | Filtering keeps exactly the tasks with the given `completed` value; FilterDistributes states that they keep their order. |
| TaskProperties.FilterDistributes | server/src/controllers/taskController.js:105 | Filtering a concatenation is the concatenation of the filtered parts, so the kept tasks stay in their order and the result is a subsequence of the input. |
| TaskProperties.FilterKeepsNewestFirst | server/src/controllers/taskController.js:105 | Filtering keeps the newest-first order. |
| TaskProperties.FilterKeepsDistinctIds | server/src/controllers/taskController.js:105 | Filtering keeps ids distinct. |
| TaskProperties.FilterOfListing | server/src/controllers/taskController.js:101-105 | Filtering the full listing by `completed` gives a valid answer to the status query. By FilterDistributes, that answer is a subsequence of the full listing. |
| TaskProperties.StrictOrderUnique | server/src/controllers/taskController.js:61 | Two strictly newest-first sequences with the same elements are equal. |
| TaskProperties.ListingStrict | server/src/controllers/taskController.js:61 | When no two tasks share a creation time, any listing is strictly newest first. |
| TaskProperties.StatusListingIsFilterOfAll | server/src/controllers/taskController.js:101-105 | With distinct creation times, the status listing equals the full listing filtered by `completed`. |
| TaskProperties.RepliesWellFormed | server/src/controllers/taskController.js:4-111 | Every task reply is a well-formed envelope. For get, update and delete, transport status is 500 iff a store call threw, and 200 otherwise. For create, a thrown store call gives 500 and every other reply is 200 or 500. |
| AuthController.Register | server/src/controllers/authController.js:6-40 | A fault gives 500 "Server error: " plus the message. A taken username gives 400 "User already exists" with the store unchanged. A new id that another user already has makes `save` throw the duplicate-key error, answered with 500 and the store unchanged. Otherwise exactly one user is added, with the hashed password and role "USER". The reply is `ok` with a token signed over {id, "USER"} for "1h", role "USER" and `expirationTime` "1h". |
| AuthController.Login | server/src/controllers/authController.js:42-72 | A fault gives 500 "Server error". An unknown username gives 404 "User not found". A failed `compare` gives 400 "Invalid credentials". Otherwise the reply is `ok` with a token signed over the stored {id, role} for "1h", that role, and `expirationTime` "24h". |
| AuthProperties.RegisterAddsOneUser | server/src/controllers/authController.js:9-22 | Registration succeeds iff there is no fault, the name is new and the id is free. It then adds exactly one username. Otherwise the users are unchanged. |
| AuthProperties.RegisterTwice | server/src/controllers/authController.js:9-12 | A second registration under the same name is refused with 400 and changes nothing, whatever its password. |
| AuthProperties.StoredPasswordIsDigest | server/src/controllers/authController.js:14-20 | The stored password is `hash(password, salt)`. It equals the plaintext iff the hash returns its input unchanged. |
| AuthProperties.UnknownUserIgnoresPassword | server/src/controllers/authController.js:46-52 | For an unknown user the login reply depends neither on the password nor on `compare`. The lookup comes first. |
| AuthProperties.LoginReportsLongerExpiry | server/src/controllers/authController.js:58-65 | Login issues the same "1h" token that registration issues, but reports "24h" where registration reports "1h". |
| AuthProperties.RegisterThenLogin | server/src/controllers/authController.js:14-67 | Assume `compare` accepts the digest `hash` made. Then login after registration succeeds with a token for the new id and role "USER", and a password `compare` rejects gets 400. |
| AuthProperties.RegisterKeepsIdsDistinct | server/src/controllers/authController.js:17-22 | When no two users share an id, none do after any registration, so a token's `userId` names one user. |
| AuthProperties.AuthRepliesWellFormed | server/src/controllers/authController.js:6-71 | Register and login replies are well formed. Transport status is 500 iff an exception occurred (a store fault, or for register a taken id), and then the semantic code is 500. Expected failures use transport status 200. |
| TaskRoutes.SegmentOf | server/src/routes/taskRoutes.js:11-13 | A `:id` capture is non-empty, has no slash, and is the whole path after the leading slash, with one optional trailing slash. |
| TaskRoutes.FirstMatch | server/src/routes/taskRoutes.js:8-13 | It returns the first position whose route matches, with no earlier match. If it finds none, no route matches. |
| TaskRoutes.Dispatch | server/src/routes/taskRoutes.js:6-13 | Without a caller every request is refused by the middleware. A dispatched request goes to the first matching route, with its captured parameters. "No route" holds iff nothing matches. |
| TaskRoutes.FirstMatchAt | server/src/routes/taskRoutes.js:8-13 | A route that matches, with no earlier route matching, is the one chosen. |
| TaskRoutes.DispatchAt | server/src/routes/taskRoutes.js:6-13 | An authenticated request goes to the first route that matches it, with the parameters its pattern captures. |
| TaskRoutes.RootRoutes | server/src/routes/taskRoutes.js:8-9 | `GET /` goes to getAllMyTasks and `POST /` goes to createTask. |
| TaskRoutes.StatusBeforeId | server/src/routes/taskRoutes.js:10-11 | `GET` on any path the status route accepts goes to getMyTasksByCompletionStatus, never to getTaskById. |
| TaskRoutes.StatusSpellings | server/src/routes/taskRoutes.js:10 | The status route accepts "/status", "/status/" and "/Status". |
| TaskRoutes.SegmentIsNotLiteral | server/src/routes/taskRoutes.js:8-11 | Any other segment matches neither the root nor "/status", and is captured as the id. |
| TaskRoutes.IdPattern | server/src/routes/taskRoutes.js:8-11 | Any other single segment s makes "/s" miss the root and "/status" patterns and be captured by "/:id" as the id. |
| TaskRoutes.IdRoutesGet | server/src/routes/taskRoutes.js:11 | `GET` on "/s", for any other single segment s, goes to getTaskById with id s. |
| TaskRoutes.IdRoutesPut | server/src/routes/taskRoutes.js:12 | `PUT` on "/s" goes to updateTask with id s. |
| TaskRoutes.IdRoutesDelete | server/src/routes/taskRoutes.js:13 | `DELETE` on "/s" goes to deleteTask with id s. |
| TaskRoutes.StatusIsAnIdForWrites | server/src/routes/taskRoutes.js:10-13 | `PUT` and `DELETE` on "/status" go to the id handlers with id "status". |
| TaskRoutes.UnlistedMethod | server/src/routes/taskRoutes.js:6-13 | An unlisted method matches no route, but the middleware runs first. |
| Walkthrough.RegisterCreateLoginRead | server/src/controllers/taskController.js:69-77 | A user registers, creates a task titled "Buy milk", and logs in again, assuming `compare` accepts the digest `hash` made. The task has `completed` false and that user as owner. The new login's token names the same user id. That user reads the task back, and any other user gets 401. |
| ClientApi.ReplaceById | client/src/services/api.js:79 | The length is kept. Each element whose id equals `data.id` becomes `data`, and every other element is unchanged. |
| ClientApi.RemoveById | client/src/services/api.js:84 | Exactly the elements whose id differs from the given id remain. |
| ClientApi.GetAllTasks | client/src/services/api.js:70 | The call resolves with the current list and leaves it unchanged. |
| ClientApi.CreateTask | client/src/services/api.js:72-76 | Exactly one element is appended at the end, and the earlier elements keep their order. The new task has every field of `data` plus `id`. Its `id` is the timestamp unless `data` has its own. |
| ClientApi.UpdateTask | client/src/services/api.js:78-81 | The length is kept. Elements with `data`'s id become `data` and the others are unchanged. The call resolves with `data`. |
| ClientApi.DeleteTask | client/src/services/api.js:83-86 | Exactly the elements without the given id remain. The call resolves with `{message: "Deleted"}`. |
| ClientApi.UpdateUnknownIdUnchanged | client/src/services/api.js:79 | An update whose id no element carries leaves the list unchanged. |
| ClientApi.UpdateIdempotent | client/src/services/api.js:79 | Updating twice with the same object is the same as updating once. |
| ClientApi.RemoveDistributes | client/src/services/api.js:84 | Removal works piecewise on a concatenation, so the remaining elements keep their order. |
| ClientApi.RemoveAbsent | client/src/services/api.js:84 | Removing an id that no element carries leaves the list unchanged. |
| ClientApi.DeleteIdempotent | client/src/services/api.js:84 | Deleting twice is the same as deleting once. |
| ClientApi.ReadAfterCreate | client/src/services/api.js:70-76 | Reading after a create resolves with the old list followed by the created object. |
| ClientApi.SampleList | client/src/services/api.js:64-86 | On the starting list of two sample tasks, deleting id 1 leaves only the second, and updating id 1 replaces only the first. |
| ClientApi.CreateThenDelete | client/src/services/api.js:72-86 | Deleting a just-created task by its id restores the list, when no earlier task had that id. |

## Left out

- Transport and process: Express request parsing, CORS, logging, `dotenv`, the MongoDB connection and the listen call in `server/index.js`. None of these decides a reply.
- The authentication middleware's own logic (`server/src/utility/authMiddleware.js`) is not part of this model. Token verification and expiry are not modelled. The router only sees the resolved caller id, or none, and `Unauthenticated` stands for whatever the middleware replies.
- The user schema (`server/src/models/User.js`) and the auth routes file are not part of this model. Missing or non-string `username`/`password` bodies are not modelled. Neither is a unique index on usernames.
- bcrypt and JWT internals are not modelled: `hash`, `compare` and `sign` are uninterpreted. So successful login after registration is proved only under the stated assumption about `compare`.
- Real time and randomness are not modelled: `Date.now()`, the salt and the store-assigned ids are parameters.
- Store failures are not modelled at a finer grain than one whole call. One `fault` input makes the first store call throw. A failure after a successful write is not modelled, for example signing after `user.save()`. Neither is the concurrent-deletion race, in which `findByIdAndUpdate` returns null.
- Mongoose casting is not modelled. A malformed ObjectId in the URL throws a CastError (500) in the running system, while here any absent id gets 404. Non-boolean `completed` values and `null` body fields are not representable. `dueDate` is kept as the client's text rather than parsed into a Date.
- Express routing details beyond the defaults above are not modelled: percent-decoding of `:id`, `HEAD` being served by `GET` routes, and the 404 page for unmatched paths.
- A repeated or nested `completed` query parameter arrives as an array or object. Such a value is never `=== 'true'`, so it reads as false, which is represented here by any value other than `Some("true")`.
- Client mock: JavaScript numbers are modelled as integers. Object-valued fields and `NaN` ids are not modelled, nor are the Promise wrappers. `client/src/pages/Login.js` is presentation and is not modelled.
- TaskController.FindTasks: tasks with equal `createdAt` may come in any order, as with the store's sort. So the listing is pinned down only up to ties. Equality with the filtered full listing (`StatusListingIsFilterOfAll`) is stated for stores whose creation times are distinct.
- AuthController.Register: the duplicate-key reply carries only the start of the store's message, "E11000 duplicate key error"; the rest of that message names the collection and key and is not modelled.
- Client mock sharing: lists and objects are modelled as values. `getAllTasks` resolves with the live `mockTasks` array, which a later `createTask` grows in place with `push`, while `updateTask` and `deleteTask` rebind `mockTasks` to a new array. `createTask` resolves with the very object it stored, and `updateTask` stores the caller's own `data` object. Such aliasing, and any later mutation of those objects by the caller, is not shown.
- TaskController.CreateTask: a store-assigned id that is already taken is modelled as a thrown duplicate-key error (500). Store-generated ids never collide.
