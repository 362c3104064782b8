/**
 * The task list of main.py as a value: the shared helpers
 * `get_task_by_id`, `create_task`, `delete_task` and `update_task`
 * stated as functions from the old list to the new one.  The class
 * `Store.TaskStore` performs the same operations in place and is
 * specified by these functions.
 */
module TaskDb {
  import opened Options

  /** One task record `{task_id, task_title, task_desc, is_finished}`. */
  datatype Task = Task(id: int, title: string, desc: string, finished: bool)

  /** The optional arguments of `update_task`; None leaves a field as it is. */
  datatype Patch = Patch(title: Option<string>, desc: Option<string>, finished: Option<bool>)

  /** A helper's result: its value, or the "Task not found" (404) error. */
  datatype Outcome<+T> = Ok(value: T) | NotFound

  const NoChange := Patch(None, None, None)

  predicate HasId(db: seq<Task>, id: int) {
    exists i :: 0 <= i < |db| && db[i].id == id
  }

  /** Position `k` holds the first task whose id is `id`. */
  predicate IsFirstMatch(db: seq<Task>, id: int, k: int) {
    0 <= k < |db| && db[k].id == id && forall j :: 0 <= j < k ==> db[j].id != id
  }

  /** Ids are 1, 2, ..., n in list order: the numbering create_task aims for. */
  predicate Sequential(db: seq<Task>) {
    forall i :: 0 <= i < |db| ==> db[i].id == i + 1
  }

  predicate UniqueIds(db: seq<Task>) {
    forall i, j :: 0 <= i < j < |db| ==> db[i].id != db[j].id
  }

  /** Position of the first task with the given id: the scan behind `next(...)`. */
  function FirstIndex(db: seq<Task>, id: int): (r: Option<nat>)
    ensures r.None? <==> !HasId(db, id)
    ensures r.Some? ==> IsFirstMatch(db, id, r.value)
  {
    if db == [] then None
    else if db[0].id == id then Some(0)
    else match FirstIndex(db[1..], id)
      case None =>
        assert forall i :: 1 <= i < |db| ==> db[i] == db[1..][i - 1];
        None
      case Some(k) => Some(k + 1)
  }

  /** `get_task_by_id`: the first task with that id, or None. */
  function GetTaskById(id: int, db: seq<Task>): (r: Option<Task>)
    ensures r.None? <==> !HasId(db, id)
    ensures r.Some? ==> r.value.id == id && r.value in db
    ensures r.Some? ==> exists k :: IsFirstMatch(db, id, k) && db[k] == r.value
  {
    match FirstIndex(db, id)
    case None => None
    case Some(k) => Some(db[k])
  }

  /** The record `create_task` appends: id is the current length plus one. */
  function NewTask(db: seq<Task>, title: string, desc: string): Task {
    Task(|db| + 1, title, desc, false)
  }

  /** Position of the first task equal to `t`: the search of `list.remove`. */
  function IndexOf(db: seq<Task>, t: Task): (k: nat)
    requires t in db
    ensures k < |db| && db[k] == t
    ensures forall j :: 0 <= j < k ==> db[j] != t
  {
    if db[0] == t then 0 else 1 + IndexOf(db[1..], t)
  }

  /** The list without its element at position `k`, every other element kept in order. */
  function Without(db: seq<Task>, k: nat): (r: seq<Task>)
    requires k < |db|
    ensures |r| == |db| - 1
    ensures forall j :: 0 <= j < k ==> r[j] == db[j]
    ensures forall j :: k <= j < |r| ==> r[j] == db[j + 1]
    ensures multiset(r) + multiset{db[k]} == multiset(db)
  {
    assert db == db[..k] + [db[k]] + db[k + 1..];
    db[..k] + db[k + 1..]
  }

  /**
   * `list.remove` of the task that `get_task_by_id` found removes the
   * first id match: no earlier element can equal it, as its id differs.
   */
  lemma RemovedIsFirstMatch(db: seq<Task>, id: int)
    requires HasId(db, id)
    ensures GetTaskById(id, db).value in db
    ensures IndexOf(db, GetTaskById(id, db).value) == FirstIndex(db, id).value
  {
    var k := FirstIndex(db, id).value;
    var i := IndexOf(db, db[k]);
    assert db[i].id == id;
  }

  /** `delete_task`: remove the first task with that id, or report it missing. */
  function Delete(db: seq<Task>, id: int): (r: Outcome<seq<Task>>)
    ensures r.NotFound? <==> !HasId(db, id)
    ensures r.Ok? ==> r.value == Without(db, FirstIndex(db, id).value)
  {
    match GetTaskById(id, db)
    case None => NotFound
    case Some(t) =>
      RemovedIsFirstMatch(db, id);
      Ok(Without(db, IndexOf(db, t)))
  }

  /** The fields of `t` after `update_task` has applied `p`. */
  function Apply(t: Task, p: Patch): (r: Task)
    ensures r.id == t.id
    ensures p.title.Some? ==> r.title == p.title.value
    ensures p.title.None? ==> r.title == t.title
    ensures p.desc.Some? ==> r.desc == p.desc.value
    ensures p.desc.None? ==> r.desc == t.desc
    ensures p.finished.Some? ==> r.finished == p.finished.value
    ensures p.finished.None? ==> r.finished == t.finished
    ensures p == NoChange ==> r == t
  {
    Task(t.id, p.title.GetOr(t.title), p.desc.GetOr(t.desc), p.finished.GetOr(t.finished))
  }

  /** `update_task`: patch the first task with that id, or report it missing. */
  function Update(db: seq<Task>, id: int, p: Patch): (r: Outcome<seq<Task>>)
    ensures r.NotFound? <==> !HasId(db, id)
    ensures r.Ok? ==> |r.value| == |db|
    ensures r.Ok? ==> var k := FirstIndex(db, id).value;
              r.value[k] == Apply(db[k], p) &&
              forall j :: 0 <= j < |db| && j != k ==> r.value[j] == db[j]
  {
    match FirstIndex(db, id)
    case None => NotFound
    case Some(k) => Ok(db[k := Apply(db[k], p)])
  }
}
