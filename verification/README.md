# Task service (lab4) — a Dafny model

The service keeps two in-memory task lists, one per API version (v1, v2).
Each list starts with one seed task of id 1. Every route is guarded by a
static API key. This project models the key check `verify_api_key`, the
four shared list helpers (`get_task_by_id`, `create_task`, `delete_task`,
`update_task`) and the route handlers that combine them, all from `main.py`.

Layout:

- `options.dfy`: `Option`, Python's "value or None".
- `auth.dfy`: module `Auth`. The key check is a pure function of the header
  value, the query value and the configured key.
- `task_db.dfy`: module `TaskDb`. The task record and the list helpers as
  functions from the old list to the new one.
- `task_laws.dfy`: module `TaskLaws`. Lemmas that relate several helper calls.
- `task_store.dfy`: module `Store`. Class `TaskStore` holds one list in a
  `seq` field, and its methods change that field in place. Each method is
  specified by the matching `TaskDb` function.
- `service.dfy`: module `Api`. Class `Service` holds the configured key and
  the two stores. Each route method runs the key check, then applies one
  helper to its own version's store.

Behaviour kept as the code has it:

- A task gets id `len(list) + 1`. After a delete, a new task can therefore
  take an id that an existing task still holds. `TaskLaws.IdCollisionAfterDelete`
  shows that this always happens after deleting anything but the last task
  of a list numbered 1..n. `TaskLaws.SeededScenario` walks through the
  concrete case.
- An empty header counts as absent: `header or query` falls through to the
  query parameter. An empty key, or no key at all, is reported as missing.
  When no key is configured, every request is rejected.
- `delete_task` calls `list.remove(task)`, which removes the first element
  *equal* to the task found. `TaskDb.RemovedIsFirstMatch` proves that this
  element is the first task with the requested id.
- `if not task` at main.py:32, 39, 66 and 87 tests a four-key dictionary,
  which is always truthy. Only a lookup that found nothing fails there.

Consequences of the code as written:

- The v1 create route is gated like the others: main.py:71 declares
  `api_key: str = Depends(verify_api_key)`. `Api.Service.CreateTask` is
  gated for both versions.
- Looking up a just-created task's id returns that task only when no
  earlier task already holds the id (`TaskLaws.CreateThenGet`). Otherwise
  the lookup returns the earlier task.
- After a delete, a lookup of the same id finds the next task with that id
  (`TaskLaws.DeleteThenGet`). With unique ids it finds nothing
  (`TaskLaws.DeleteThenGetUnique`).
- Updating `is_finished` sets the flag to the given value
  (`TaskLaws.UpdateFinishedOnly`).

## Model

| member | source | states |
|---|---|---|
| `Auth.VerifyApiKey` | main.py:13-19 | Missing exactly when neither the header nor the query holds a non-empty key. Accepted exactly when the chosen key (a non-empty header first, otherwise the query) equals the configured key. An accepted key is non-empty and is the configured key. With no configured key, everything is rejected. |
| `Auth.HeaderTakesPrecedence` | main.py:14-18 | With a non-empty header, the query value never affects the result. The result is accept or invalid, depending on the header alone. |
| `Auth.EmptyHeaderFallsThrough` | main.py:14-18 | An empty header behaves exactly like no header. The query decides: missing, accepted or invalid. |
| `TaskDb.FirstIndex` | main.py:23 | None exactly when no task has the id. Otherwise, the position of a task with that id, before which no task has it. |
| `TaskDb.GetTaskById` | main.py:22-23 | None exactly when no task has the id. Otherwise, a member of the list with that id, sitting at the first position holding the id. |
| `TaskDb.IndexOf` | main.py:34 | The search of `list.remove`: a position holding the task, before which no element equals it. |
| `TaskDb.Without` | main.py:34 | Removing one position shortens the list by one and keeps every other element in order. The multiset loses exactly the removed task. |
| `TaskDb.RemovedIsFirstMatch` | main.py:31-34 | `remove` of the task found by lookup removes the first task with the id. |
| `TaskDb.Delete` | main.py:30-35 | Not found exactly when no task has the id. Otherwise, the list without its first id match. |
| `TaskDb.Apply` | main.py:41-46 | The id is kept. Case by case: a field whose argument is given takes that value, and a field whose argument is None keeps its old value. An all-None patch leaves the task as it was. |
| `TaskDb.Update` | main.py:37-47 | Not found exactly when no task has the id. Otherwise, the length is kept, the first match is patched, and every other position is unchanged. |
| `TaskLaws.FirstIndexOfAppend` | main.py:22-28 | After appending a task, its id is first found at an earlier position if one holds that id. Otherwise it is found at the new last position. |
| `TaskLaws.CreateThenGet` | main.py:22-28 | Looking up a new task's id returns that task exactly when no earlier task holds the id. Otherwise it returns the earlier task. |
| `TaskLaws.CreateKeepsSequential` | main.py:25-28 | On a list numbered 1..n, create gives a fresh id n+1. The list stays numbered 1..n+1, and the new task can be found. |
| `TaskLaws.DeleteLastKeepsSequential` | main.py:30-35 | Deleting id n from a list numbered 1..n drops the last task and keeps the numbering. |
| `TaskLaws.DeleteFromSequential` | main.py:30-35 | On a list numbered 1..n, deleting id k removes position k-1. Every later id sits one place earlier. |
| `TaskLaws.IdCollisionAfterDelete` | main.py:22-34 | In a list numbered 1..n, delete any id but n, then create. The new task gets id n, which a remaining task already holds. A lookup of n returns that old task, at position n-2 and never at the new position. |
| `TaskLaws.FirstIndexWithout` | main.py:30-35 | After the first match is removed, the next match (if any) is found one place earlier than it was. |
| `TaskLaws.DeleteThenGet` | main.py:22-35 | After a delete, looking up the same id returns the next task with that id after the removed one, or None. |
| `TaskLaws.DeleteThenGetUnique` | main.py:22-35 | With unique ids, a deleted id can no longer be found. |
| `TaskLaws.UpdateKeepsIds` | main.py:41-46 | An update keeps the length and every id. It therefore keeps the 1..n numbering and id uniqueness. |
| `TaskLaws.SameIdsSameFirstIndex` | main.py:23 | Two lists with the same ids at the same positions give the same first-match position. |
| `TaskLaws.UpdateThenGet` | main.py:37-47 | After an update, a lookup returns the patched version of the task the lookup returned before. |
| `TaskLaws.UpdateNoChange` | main.py:41-46 | An update with every argument None leaves the list identical, or reports not found. |
| `TaskLaws.UpdateFinishedOnly` | main.py:45-46 | An update of `is_finished` alone sets the flag on the first match and keeps its title and description. |
| `TaskLaws.UpdateIdempotent` | main.py:37-47 | Applying the same update twice gives the same list as applying it once. |
| `TaskLaws.SeededScenario` | main.py:25-34 | From a seed with id 1: create ("A","B") gets id 2. Delete 1 leaves only that task. Create ("C","D") gets id 2 again, and a lookup of 2 returns ("A","B"). |
| `Store.TaskStore.constructor` | main.py:50-56 | A store starts with exactly its seed list. |
| `Store.TaskStore.CreateTask` | main.py:25-28 | Appends exactly one task: id = old length + 1, the given title and description, not finished. Earlier tasks are unchanged, and the new task is returned. |
| `Store.TaskStore.DeleteTask` | main.py:30-35 | Reports not found and changes nothing when no task has the id. Otherwise, removes exactly the first match (`TaskDb.Delete`). |
| `Store.TaskStore.UpdateTask` | main.py:37-47 | Reports not found and changes nothing when no task has the id. Otherwise, the list becomes `TaskDb.Update` of the old list. The returned task is the patched first match, and a lookup now finds it. |
| `Api.Service.constructor` | main.py:50-56 | Two distinct stores, each seeded with its one task of id 1, and the configured key. |
| `Api.Service.Root` | main.py:59-61 | Welcome exactly when the key is accepted. Otherwise unauthorized, with the reason. |
| `Api.Service.GetTask` | main.py:63-68 | Unauthorized exactly when the key is rejected, with the reason. Otherwise not found exactly when the version's list lacks the id, and a found task is the first match. The same holds for v2 (main.py:84-89). |
| `Api.Service.CreateTask` | main.py:70-73 | Gated for both versions, including v1 (main.py:71). A rejected key changes nothing. An accepted key appends the new task to its own version's store only. The same holds for v2 (main.py:91-94). |
| `Api.Service.DeleteTask` | main.py:75-77 | Unauthorized exactly when the key is rejected. A rejected key or an absent id changes nothing. Otherwise the first match is removed from its own version's store, and the other store is unchanged. The same holds for v2 (main.py:96-98). |
| `Api.Service.UpdateTask` | main.py:79-81 | Unauthorized exactly when the key is rejected. A rejected key or an absent id changes nothing. Otherwise the first match in its own version's store is patched and returned, and the other store is unchanged. The same holds for v2 (main.py:100-102). |

## Left out

- FastAPI itself: building the app, the route decorators, dependency
  injection, query and path parameter parsing and validation (for example
  a 422 for a non-integer id), and HTTP status codes. Responses are reduced
  to the `Response` datatype: `Unauthorized` stands for 401, `TaskNotFound`
  for 404, and the rest are success bodies.
- The JSON shape of responses and the message texts ("Invalid API Key:
  Missing API Key", "Task not found", and the others). Only the distinction
  between missing and invalid keys is kept.
- Loading `API_KEY` with `load_dotenv` / `os.getenv`. This is environment
  I/O, so the configured key is the constructor's `Option<string>` parameter.
- Concurrent requests. The lists have no locking, and the model runs
  operations one at a time.
- Tasks are modelled as values in a `seq`, not as shared dictionary
  objects. The dictionary that `create_task` returns (or `update_task`
  patches) is the same object as the one in the list. No route keeps that
  reference after responding, so the value view loses nothing the service
  can observe.
- `list.remove` raising `ValueError` when the element is absent. It is
  only ever called on a task that was just found, so `TaskDb.IndexOf`
  requires the task to be present.
