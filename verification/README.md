# Task manager: users, tokens and owner-scoped tasks

A model of the decision layer of a small FastAPI task manager (`main.py`).
Users register and log in. Login issues a bearer token with a 30-minute
lifetime. With that token, a user creates, lists, reads, updates and deletes
their own tasks.

The model has two collections:
- `users`: documents `{_id, username, hashed_password}`.
- `tasks`: documents `{_id, title, description, status, user_id}`.

Both are kept as sequences in the store's natural order, so `find_one`,
`update_one` and `delete_one` act on the first matching document, as MongoDB
does. Ids come from a counter, one fresh value for each inserted document.
Two collaborators are kept abstract:
- The password hasher is a pair of functions, `hash` and `verify`.
- The token codec is a pair `encode`/`decode` over claim sets, where `decode`
  either recovers a claim set or rejects the token.

Lemmas that need these collaborators to behave take the property as a
precondition:
- `Hasher.Sound`: a password verifies against its own hash.
- `TokenCodec.RoundTrips`: `decode(encode(c)) == Some(c)`.

The clock is a parameter `now`, in whole seconds.

Modules, leaf first:
- `Http`: results and the API errors. Each error has the status code and
  `detail` the handlers raise:
  - 400 "Username already exists"
  - 401 "Invalid credentials"
  - 401 "Invalid token"
  - 404 "Task not found"
  - 422 for a bad `status` field
- `Passwords`: the abstract hasher.
- `Tokens`: the claim set `create_access_token` builds. The `exp` claim is
  defined in section 4.1.4 of RFC 7519. Also the checks
  `decode_access_token` applies, including the registered-claim checks that
  `jwt.decode` itself makes:
  - an `exp` in the past is refused;
  - a `sub` (section 4.1.2 of RFC 7519) must be a string.
- `Users`: `get_user`, and username uniqueness.
- `Tasks`: the status enum, the owner-scoped filter `{_id, user_id}`, and
  `update_one`/`delete_one`/`find` on the tasks collection. Also the
  isolation and frame lemmas.
- `Server`: the class `TaskManager`:
  - the two collections are its fields;
  - one function per read-only endpoint (`get_current_user`, login, list,
    get);
  - one method per writing endpoint (register, create, update, delete).

  The class invariant `Valid()` says:
  - usernames are unique;
  - ids are unique and below the counter;
  - every task's `user_id` names a registered user.

  Every writer preserves `Valid()`.

The properties proved:
- A duplicate registration is refused with 400 and changes nothing, so
  usernames stay unique.
- A successful registration stores `hash(password)` and makes the password
  log in.
- Login succeeds exactly when the user exists and the password verifies. The
  token then carries `sub = username` and `exp = now + 30 min`.
- A login token resolves to its user until it expires. It never resolves for
  the empty username, because `decode_access_token` refuses an empty subject
  even though registration accepts the empty name.
- Every token failure is the same 401 "Invalid token".
- A write by one user leaves every other user's task list unchanged.
- Whatever the caller reads depends only on the caller's own tasks.
- A task owned by someone else gets the same 404 as an absent one.
- Update overwrites exactly title, description and status of the one
  matching task.
- Delete removes exactly that task, and nothing changes when nothing matches.

## Model

| member | source | states |
|---|---|---|
| `Tasks.ParseStatus` | main.py:35-38 | a status is accepted exactly when it is one of "Pending", "In Progress", "Completed", and then it is the enum value with that label |
| `Tasks.StatusLabelRoundTrip` | main.py:35-38 | each status is accepted under its own label and under no other string |
| `Tokens.AccessClaims` | main.py:71-74 | the claim set keeps every input claim, adds `exp`, and sets `exp` to now + expires_delta, or now + 15 min when the delta is missing or zero (a falsy timedelta) |
| `Tokens.CreateAccessToken` | main.py:71-75 | under a round-tripping codec the token decodes to exactly that claim set |
| `Tokens.DecodeAccessToken` | main.py:77-85 | every failure is 401 "Invalid token"; success means the token decoded, has not expired, and carries a non-empty string `sub`, which is returned |
| `Tokens.IssuedTokenDecodes` | main.py:71-85 | a token issued for a subject decodes to that subject exactly when the subject is non-empty and now <= issue time + lifetime, and otherwise fails with "Invalid token" |
| `Users.FindUser` | main.py:87-91 | returns nothing exactly when no document has the username; otherwise a stored document with that username |
| `Users.FindUserFindsTheOne` | main.py:87-91 | with unique usernames, looking up a stored user's name returns that very user |
| `Users.FindUserAfterInsert` | main.py:105-107 | after an insert every name found before is found the same; an absent name finds the new document exactly when it is the new username |
| `Users.InsertKeepsUsernamesUnique` | main.py:103-107 | inserting a username that get_user does not find keeps usernames unique |
| `Tasks.FirstMatch` | main.py:145-150 | the first position whose document has both the task id and the owner; nothing exactly when no document matches both |
| `Tasks.FindOwned` | main.py:138-140 | finds a task exactly when some stored task has both the id and the caller as owner, and what it finds is such a task |
| `Tasks.OwnedBy` | main.py:123 | the result holds exactly the stored tasks whose user_id is the owner |
| `Tasks.OwnedByCounts` | main.py:123 | each of the owner's stored tasks appears in the result as often as it is stored, and no other task appears |
| `Tasks.Views` | main.py:124-127 | one response item per task, each the task's id, title, description and status |
| `Tasks.UpdateOne` | main.py:145-148 | same number of tasks, and each keeps its id and user_id |
| `Tasks.DeleteOne` | main.py:155 | removes at most one task |
| `Tasks.DeleteOneSubMultiset` | main.py:155 | a delete adds no task and duplicates none: the result is a sub-multiset of the stored tasks |
| `Tasks.DeleteOneMembers` | main.py:155 | every task after a delete was there before, and every task the filter does not match is still there |
| `Tasks.UpdateOneFrame` | main.py:145-150 | with no match nothing changes; otherwise only the first match changes, to the new title, description and status with its id and owner kept |
| `Tasks.DeleteOneFrame` | main.py:155-157 | with no match nothing changes; otherwise exactly the first match is removed and the rest keep their order |
| `Tasks.UpdateOneKeepsIdsAndOwners` | main.py:145-148 | every task after an update has the id and owner of a task before it; unique ids stay unique |
| `Tasks.UpdateOneEffect` | main.py:145-148 | with unique ids, a task changes exactly when it has the id and the caller as owner, and then holds the payload |
| `Tasks.DeleteOneEffect` | main.py:155-157 | with unique ids, no task with that id and owner remains, every other task remains, and ids stay unique |
| `Tasks.ForeignIdMatchesNothing` | main.py:138-140 | with unique ids, a task id held by another user's task matches nothing for the caller, the same as an id that does not exist |
| `Tasks.CallerSeesOnlyOwnTasks` | main.py:136-141 | the caller's lookup gives the same answer on the whole collection as on the caller's own tasks alone |
| `Tasks.SameOwnTasksSameAnswers` | main.py:136-150 | two collections with the same tasks for the caller give the caller the same get, update and delete answers |
| `Tasks.OwnedByAfterInsert` | main.py:131-133 | an inserted task is appended to its owner's list and to no other |
| `Tasks.UpdateOneIsolated` | main.py:145-148 | an update by one owner leaves every other owner's task list unchanged |
| `Tasks.DeleteOneIsolated` | main.py:155 | a delete by one owner leaves every other owner's task list unchanged |
| `Server.RegisterKeepsValid` | main.py:103-107 | inserting an absent username under the next id keeps usernames and ids unique and every task's owner registered |
| `Server.CreateKeepsValid` | main.py:131-133 | inserting a task under the next id for a registered owner keeps task ids unique and below the next id |
| `Server.UpdateKeepsValid` | main.py:145-148 | an owner-scoped update keeps task ids unique and every owner registered |
| `Server.DeleteKeepsValid` | main.py:155 | an owner-scoped delete keeps task ids unique and every owner registered |
| `Server.TaskManager.constructor` | main.py:18-21 | a service starts with both collections empty and its invariant holding |
| `Server.TaskManager.CurrentUser` | main.py:93-98 | the user named by the token's subject; fails with 401 "Invalid token" exactly when the token is refused or the subject names no user |
| `Server.TaskManager.Login` | main.py:110-119 | 401 "Invalid credentials" unless the user exists and the password verifies; otherwise a "bearer" token whose claims are `sub` = username and `exp` = now + 30 min |
| `Server.TaskManager.GetTasks` | main.py:121-127 | 401 on a bad token; otherwise one view per stored task of the caller, in stored order, each listed once per document |
| `Server.TaskManager.GetTask` | main.py:136-141 | 401 on a bad token; otherwise a view of a task with that id and the caller as owner, or 404 "Task not found" exactly when there is none |
| `Server.TaskManager.Register` | main.py:101-108 | a taken username gives 400 and changes nothing; otherwise exactly one user with the new id, the username and hash(password) is appended, the id and username are returned, and with a sound hasher that password then logs in |
| `Server.TaskManager.CreateTask` | main.py:129-134 | 401 or 422 change nothing; otherwise exactly one task with a fresh id, the payload and the caller as owner is appended and echoed back, and no other user's tasks change |
| `Server.TaskManager.UpdateTask` | main.py:143-151 | 401 or 422 change nothing; otherwise the caller's matching task gets the payload, "Task updated" exactly when such a task exists, 404 and no change otherwise; no other user's tasks change |
| `Server.TaskManager.DeleteTask` | main.py:153-158 | 401 changes nothing; otherwise the caller's matching task is removed, "Task deleted" exactly when such a task existed, 404 and no change otherwise; no other user's tasks change |
| `Server.LoginTokenResolves` | main.py:93-119 | a login token resolves to the logged-in user exactly while now <= issue + 30 min and the username is non-empty; otherwise 401 "Invalid token" |
| `Server.ForeignTaskIsNotFound` | main.py:136-158 | another user's task is 404 to get_task, and update_task and delete_task find nothing to change |
| `Server.SignUpAliceAndBob` | main.py:101-119 | two users register (a repeated name is refused), log in, and each token resolves to its own user |
| `Server.OthersCannotTouch` | main.py:129-151 | a created task is echoed with its new id and status Pending, stored for its owner and read back unchanged by the owner; a "Done" status is refused with status 422; another user gets 404 on reading or updating it |
| `Server.OwnerCompletesAndDeletes` | main.py:136-158 | the owner updates the task to Completed and reads that back, deletes it, and then gets 404 |
| `Server.Walkthrough` | main.py:101-158 | the whole register, login, create, read, update, delete session on a fresh service: the created task is echoed and read back, the other user gets 404, the owner reads Completed after updating and 404 after deleting |

## Left out

- MongoDB client and connection setup. The collections are in-memory
  sequences.
- Store errors are not modelled; the service does not handle them either.
- `ObjectId(task_id)` parsing: a malformed id raises an uncaught library
  error, which FastAPI turns into a server error. Task ids are abstract, so
  that path is not modelled.
- bcrypt through passlib is modelled as abstract, deterministic `hash` and
  `verify` functions, so salting, cost and bcrypt's 72-byte password
  truncation are not modelled. Login is stated in terms of `verify`, not
  password equality.
- Whether the stored hash differs from the plaintext is not stated. The model
  only says that the stored value is `hash(password)`.
- JWT signing with HS256 (section 3.2 of RFC 7518) and the random secret
  drawn at startup are not modelled. The codec is abstract, so forged
  tokens are not modelled beyond "decode refuses or recovers claims", and
  restarting does not invalidate tokens.
- Only the `exp` and `sub` checks of `jwt.decode` are modelled. Its other
  registered-claim checks (`nbf`, `iat`, `aud`, `iss`, `jti`) are not,
  because this service never issues those claims.
- A non-numeric `exp` is treated as malformed. The library's coercion of
  numeric strings is not modelled.
- Time is whole seconds, matching the integer timestamps a JWT carries. The
  microsecond part of `datetime.now` is dropped, and `now` is a parameter.
- FastAPI routing, `Depends`, and extraction of the `Authorization: Bearer`
  header are not modelled. A missing header, which answers 401 "Not
  authenticated", is not modelled.
- The authentication dependency is resolved before the body is validated,
  so a bad token answers 401 even when the body is also invalid.
- Pydantic validation is modelled only for the three-valued `status` field.
  Missing or mistyped fields are not modelled, and the 422 body is reduced
  to the field's location.
- The HTML template routes are not modelled.
- The check-then-insert race in `register` between concurrent requests is
  not modelled. The model is sequential, and uniqueness holds for
  sequential runs only. A unique index on `username` in the store would
  close this race; `main.py` relies on the pre-check alone, and so does the
  model.
