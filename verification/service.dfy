/**
 * The routes of main.py: every handler first runs the API-key check
 * (`verify_api_key`, attached as a dependency or, for the v1 create
 * route, as a parameter) and only then touches the task list of its own
 * API version.  HTTP status codes and response dictionaries are reduced
 * to the `Response` datatype.
 */
module Api {
  import opened Options
  import opened Auth
  import opened TaskDb
  import opened Store

  datatype Version = V1 | V2

  /** Where a request may carry its key: the `X-API-KEY` header and the `api_key` query parameter. */
  datatype Credentials = Credentials(header: Option<string>, query: Option<string>)

  /** 401 with its reason, 404, or one of the success bodies. */
  datatype Response =
    | Unauthorized(error: AuthError)
    | TaskNotFound
    | Welcome
    | TaskBody(task: Task)
    | Deleted

  /** The single record each list starts with. */
  const SeedV1 := Task(1, "Test 1", "Complete FastAPI basics", false)
  const SeedV2 := Task(1, "Test 2", "Revise To-Do API", false)

  /** The application: the configured key and the two independent task lists. */
  class Service {
    const apiKey: Option<string>
    const v1: TaskStore
    const v2: TaskStore

    ghost predicate Valid() {
      v1 != v2
    }

    /** Start-up: `configured` is the value of `API_KEY` in the environment, if any. */
    constructor (configured: Option<string>)
      ensures Valid() && fresh(v1) && fresh(v2)
      ensures apiKey == configured
      ensures v1.tasks == [SeedV1] && v2.tasks == [SeedV2]
    {
      apiKey := configured;
      v1 := new TaskStore([SeedV1]);
      v2 := new TaskStore([SeedV2]);
    }

    function StoreOf(v: Version): TaskStore {
      if v == V1 then v1 else v2
    }

    function OtherStore(v: Version): TaskStore {
      if v == V1 then v2 else v1
    }

    function Authorize(c: Credentials): AuthResult {
      VerifyApiKey(c.header, c.query, apiKey)
    }

    /** GET /apiv1/: a greeting for an accepted key. */
    method Root(c: Credentials) returns (r: Response)
      ensures r == Welcome <==> Authorize(c).Accepted?
      ensures Authorize(c).Rejected? ==> r == Unauthorized(Authorize(c).error)
    {
      var auth := VerifyApiKey(c.header, c.query, apiKey);
      if auth.Rejected? {
        return Unauthorized(auth.error);
      }
      r := Welcome;
    }

    /** GET /apivN/tasks/{id}: the first task with that id in the version's list. */
    method GetTask(v: Version, c: Credentials, id: int) returns (r: Response)
      ensures r.Unauthorized? <==> Authorize(c).Rejected?
      ensures Authorize(c).Rejected? ==> r == Unauthorized(Authorize(c).error)
      ensures Authorize(c).Accepted? ==> (r == TaskNotFound <==> !HasId(StoreOf(v).tasks, id))
      ensures r.TaskBody? ==>
                Authorize(c).Accepted? && GetTaskById(id, StoreOf(v).tasks) == Some(r.task)
      ensures r.Unauthorized? || r.TaskNotFound? || r.TaskBody?
    {
      var auth := VerifyApiKey(c.header, c.query, apiKey);
      if auth.Rejected? {
        return Unauthorized(auth.error);
      }
      var task := GetTaskById(id, StoreOf(v).tasks);
      if task.None? {
        return TaskNotFound;
      }
      r := TaskBody(task.value);
    }

    /** POST /apivN/tasks/: append a new task to the version's list. */
    method CreateTask(v: Version, c: Credentials, title: string, desc: string) returns (r: Response)
      requires Valid()
      modifies StoreOf(v)
      ensures unchanged(OtherStore(v))
      ensures Authorize(c).Rejected? ==>
                r == Unauthorized(Authorize(c).error) && unchanged(StoreOf(v))
      ensures Authorize(c).Accepted? ==>
                r == TaskBody(NewTask(old(StoreOf(v).tasks), title, desc)) &&
                StoreOf(v).tasks == old(StoreOf(v).tasks) + [r.task]
    {
      var auth := VerifyApiKey(c.header, c.query, apiKey);
      if auth.Rejected? {
        return Unauthorized(auth.error);
      }
      var task := StoreOf(v).CreateTask(title, desc);
      r := TaskBody(task);
    }

    /** DELETE /apivN/tasks/{id}: remove the first task with that id from the version's list. */
    method DeleteTask(v: Version, c: Credentials, id: int) returns (r: Response)
      requires Valid()
      modifies StoreOf(v)
      ensures unchanged(OtherStore(v))
      ensures r.Unauthorized? <==> Authorize(c).Rejected?
      ensures Authorize(c).Rejected? ==>
                r == Unauthorized(Authorize(c).error) && unchanged(StoreOf(v))
      ensures Authorize(c).Accepted? ==>
                (r == TaskNotFound <==> !HasId(old(StoreOf(v).tasks), id))
      ensures r == TaskNotFound ==> unchanged(StoreOf(v))
      ensures r == Deleted ==> Delete(old(StoreOf(v).tasks), id) == Ok(StoreOf(v).tasks)
      ensures r.Unauthorized? || r.TaskNotFound? || r.Deleted?
    {
      var auth := VerifyApiKey(c.header, c.query, apiKey);
      if auth.Rejected? {
        return Unauthorized(auth.error);
      }
      var store := StoreOf(v);
      var deleted := store.DeleteTask(id);
      r := if deleted then Deleted else TaskNotFound;
    }

    /** PATCH /apivN/tasks/{id}: overwrite the given fields of the first task with that id. */
    method UpdateTask(v: Version, c: Credentials, id: int,
                      title: Option<string>, desc: Option<string>, finished: Option<bool>)
      returns (r: Response)
      requires Valid()
      modifies StoreOf(v)
      ensures unchanged(OtherStore(v))
      ensures r.Unauthorized? <==> Authorize(c).Rejected?
      ensures Authorize(c).Rejected? ==>
                r == Unauthorized(Authorize(c).error) && unchanged(StoreOf(v))
      ensures Authorize(c).Accepted? ==>
                (r == TaskNotFound <==> !HasId(old(StoreOf(v).tasks), id))
      ensures r == TaskNotFound ==> unchanged(StoreOf(v))
      ensures r.TaskBody? ==>
                Update(old(StoreOf(v).tasks), id, Patch(title, desc, finished)) == Ok(StoreOf(v).tasks) &&
                GetTaskById(id, StoreOf(v).tasks) == Some(r.task)
      ensures r.Unauthorized? || r.TaskNotFound? || r.TaskBody?
    {
      var auth := VerifyApiKey(c.header, c.query, apiKey);
      if auth.Rejected? {
        return Unauthorized(auth.error);
      }
      var store := StoreOf(v);
      var updated := store.UpdateTask(id, title, desc, finished);
      r := if updated.Ok? then TaskBody(updated.value) else TaskNotFound;
    }
  }
}
