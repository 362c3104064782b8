/**
 * Properties of the task-list helpers that relate several calls:
 * lookup after create, delete and update, the effect of size-based id
 * assignment after a delete, and the update laws.
 */
module TaskLaws {
  import opened Options
  import opened TaskDb

  /** Appending a task: its id is first found earlier if some task already holds it, else at the end. */
  lemma {:induction false} FirstIndexOfAppend(db: seq<Task>, t: Task)
    ensures FirstIndex(db + [t], t.id) ==
            if HasId(db, t.id) then FirstIndex(db, t.id) else Some(|db|)
  {
    var e := db + [t];
    assert e[|db|].id == t.id;
    match FirstIndex(db, t.id)
    case None =>
    case Some(k) =>
      assert e[k] == db[k];
      assert forall j :: 0 <= j < k ==> e[j] == db[j];
      assert IsFirstMatch(e, t.id, k);
      FirstMatchUnique(e, t.id, k, FirstIndex(e, t.id).value);
  }

  /** At most one position is the first match of an id. */
  lemma FirstMatchUnique(db: seq<Task>, id: int, k1: int, k2: int)
    requires IsFirstMatch(db, id, k1) && IsFirstMatch(db, id, k2)
    ensures k1 == k2
  {
  }

  /**
   * Looking up the id of a freshly created task finds that task exactly
   * when no earlier task already holds the id; otherwise it finds the
   * earlier one.
   */
  lemma CreateThenGet(db: seq<Task>, title: string, desc: string)
    ensures var t := NewTask(db, title, desc);
            GetTaskById(t.id, db + [t]) ==
            if HasId(db, t.id) then GetTaskById(t.id, db) else Some(t)
  {
    var t := NewTask(db, title, desc);
    FirstIndexOfAppend(db, t);
    assert forall k :: 0 <= k < |db| ==> (db + [t])[k] == db[k];
  }

  /** On a list numbered 1..n, create keeps the numbering and its new id is fresh. */
  lemma CreateKeepsSequential(db: seq<Task>, title: string, desc: string)
    requires Sequential(db)
    ensures !HasId(db, |db| + 1)
    ensures Sequential(db + [NewTask(db, title, desc)])
    ensures GetTaskById(|db| + 1, db + [NewTask(db, title, desc)]) == Some(NewTask(db, title, desc))
  {
    CreateThenGet(db, title, desc);
  }

  /** Deleting the last task of a list numbered 1..n keeps the numbering. */
  lemma DeleteLastKeepsSequential(db: seq<Task>)
    requires Sequential(db) && |db| > 0
    ensures Delete(db, |db|) == Ok(db[..|db| - 1])
    ensures Sequential(db[..|db| - 1])
  {
    assert IsFirstMatch(db, |db|, |db| - 1);
    FirstMatchUnique(db, |db|, |db| - 1, FirstIndex(db, |db|).value);
    assert Without(db, |db| - 1) == db[..|db| - 1];
  }

  /**
   * Ids collide after a delete.  In a list numbered 1..n, deleting any task
   * but the last and then creating one gives the new task the id n, which
   * the old last task still holds; looking that id up then returns the old
   * task, at position n - 2, never the new one at n - 1.
   */
  lemma IdCollisionAfterDelete(db: seq<Task>, id: int, title: string, desc: string)
    requires Sequential(db)
    requires 1 <= id < |db|
    ensures Delete(db, id).Ok?
    ensures var rest := Delete(db, id).value;
            var t := NewTask(rest, title, desc);
            t.id == |db| &&
            HasId(rest, t.id) &&
            FirstIndex(rest + [t], t.id) == Some(|db| - 2) &&
            GetTaskById(t.id, rest + [t]) == Some(db[|db| - 1])
  {
    var n := |db|;
    DeleteFromSequential(db, id);
    var rest := Delete(db, id).value;
    var t := NewTask(rest, title, desc);
    assert rest[n - 2].id == n;
    forall j | 0 <= j < n - 2 ensures rest[j].id != n { }
    assert IsFirstMatch(rest, n, n - 2);
    FirstMatchUnique(rest, n, n - 2, FirstIndex(rest, n).value);
    FirstIndexOfAppend(rest, t);
    assert (rest + [t])[n - 2] == rest[n - 2] == db[n - 1];
  }

  /** Deleting id `id` from a list numbered 1..n removes position id - 1; later ids shift down a place. */
  lemma DeleteFromSequential(db: seq<Task>, id: int)
    requires Sequential(db)
    requires 1 <= id <= |db|
    ensures Delete(db, id) == Ok(Without(db, id - 1))
    ensures var rest := Without(db, id - 1);
            forall j :: 0 <= j < |rest| ==> rest[j].id == if j < id - 1 then j + 1 else j + 2
  {
    assert IsFirstMatch(db, id, id - 1);
    FirstMatchUnique(db, id, id - 1, FirstIndex(db, id).value);
  }

  /**
   * After deleting the first task with an id, looking the id up finds the
   * next task with that id, if any: the one after the removed position.
   */
  lemma DeleteThenGet(db: seq<Task>, id: int)
    requires HasId(db, id)
    ensures var k := FirstIndex(db, id).value;
            GetTaskById(id, Delete(db, id).value) == GetTaskById(id, db[k + 1..])
  {
    var k := FirstIndex(db, id).value;
    var rest := Delete(db, id).value;
    assert rest == Without(db, k);
    FirstIndexWithout(db, id, k);
    var tail := db[k + 1..];
    match FirstIndex(tail, id)
    case None =>
      assert GetTaskById(id, rest) == None;
    case Some(m) =>
      assert rest[k + m] == tail[m];
  }

  /** Removing the first match leaves the matches after it, shifted down by one. */
  lemma FirstIndexWithout(db: seq<Task>, id: int, k: nat)
    requires IsFirstMatch(db, id, k)
    ensures FirstIndex(Without(db, k), id) ==
            match FirstIndex(db[k + 1..], id)
            case None => None
            case Some(m) => Some(k + m)
  {
    var rest := Without(db, k);
    var tail := db[k + 1..];
    match FirstIndex(tail, id)
    case None =>
      forall i | 0 <= i < |rest| ensures rest[i].id != id {
        if i >= k { assert rest[i] == tail[i - k]; }
      }
    case Some(m) =>
      assert rest[k + m] == tail[m];
      forall j | 0 <= j < k + m ensures rest[j].id != id {
        if j >= k { assert rest[j] == tail[j - k]; }
      }
      assert IsFirstMatch(rest, id, k + m);
      FirstMatchUnique(rest, id, k + m, FirstIndex(rest, id).value);
  }

  /** With unique ids a deleted task can no longer be found. */
  lemma DeleteThenGetUnique(db: seq<Task>, id: int)
    requires UniqueIds(db) && HasId(db, id)
    ensures GetTaskById(id, Delete(db, id).value) == None
  {
    var k := FirstIndex(db, id).value;
    DeleteThenGet(db, id);
    var tail := db[k + 1..];
    assert forall i :: 0 <= i < |tail| ==> tail[i] == db[k + 1 + i];
  }

  /** Update never changes an id, so the ids of the list stay as they were. */
  lemma UpdateKeepsIds(db: seq<Task>, id: int, p: Patch)
    requires HasId(db, id)
    ensures var db' := Update(db, id, p).value;
            |db'| == |db| && forall i :: 0 <= i < |db| ==> db'[i].id == db[i].id
    ensures Sequential(db) ==> Sequential(Update(db, id, p).value)
    ensures UniqueIds(db) ==> UniqueIds(Update(db, id, p).value)
  {
  }

  /** Lookups on the updated list see the same positions as before. */
  lemma SameIdsSameFirstIndex(db: seq<Task>, db': seq<Task>, id: int)
    requires |db'| == |db|
    requires forall i :: 0 <= i < |db| ==> db'[i].id == db[i].id
    ensures FirstIndex(db', id) == FirstIndex(db, id)
  {
    match FirstIndex(db, id)
    case None =>
      assert !HasId(db', id);
    case Some(k) =>
      assert IsFirstMatch(db', id, k);
      FirstMatchUnique(db', id, k, FirstIndex(db', id).value);
  }

  /** After an update the lookup returns the patched task. */
  lemma UpdateThenGet(db: seq<Task>, id: int, p: Patch)
    requires HasId(db, id)
    ensures GetTaskById(id, Update(db, id, p).value) == Some(Apply(GetTaskById(id, db).value, p))
  {
    UpdateKeepsIds(db, id, p);
    SameIdsSameFirstIndex(db, Update(db, id, p).value, id);
  }

  /** Update with every argument absent leaves the list identical. */
  lemma UpdateNoChange(db: seq<Task>, id: int)
    ensures Update(db, id, NoChange) == if HasId(db, id) then Ok(db) else NotFound
  {
    if HasId(db, id) {
      var k := FirstIndex(db, id).value;
      assert Apply(db[k], NoChange) == db[k];
      assert db[k := db[k]] == db;
    }
  }

  /** Update of `is_finished` alone sets the flag and keeps title and description. */
  lemma UpdateFinishedOnly(db: seq<Task>, id: int, finished: bool)
    requires HasId(db, id)
    ensures var k := FirstIndex(db, id).value;
            Update(db, id, Patch(None, None, Some(finished))) == Ok(db[k := db[k].(finished := finished)])
  {
  }

  /** Applying the same update twice is the same as applying it once. */
  lemma UpdateIdempotent(db: seq<Task>, id: int, p: Patch)
    ensures Update(db, id, p).Ok? ==> Update(Update(db, id, p).value, id, p) == Update(db, id, p)
  {
    if HasId(db, id) {
      var db' := Update(db, id, p).value;
      UpdateKeepsIds(db, id, p);
      SameIdsSameFirstIndex(db, db', id);
      var k := FirstIndex(db, id).value;
      assert Apply(db'[k], p) == db'[k];
      assert db'[k := db'[k]] == db';
    }
  }

  /**
   * The id-reuse scenario: from one seed task, create ("A","B")
   * gets id 2; delete 1 leaves that task alone; create ("C","D") gets id 2
   * again, so the list holds two tasks with id 2 and lookup returns "A".
   */
  lemma SeededScenario(seed: Task)
    requires seed.id == 1
    ensures [seed] + [NewTask([seed], "A", "B")] == [seed, Task(2, "A", "B", false)]
    ensures Delete([seed, Task(2, "A", "B", false)], 1) == Ok([Task(2, "A", "B", false)])
    ensures NewTask([Task(2, "A", "B", false)], "C", "D") == Task(2, "C", "D", false)
    ensures GetTaskById(2, [Task(2, "A", "B", false), Task(2, "C", "D", false)]) == Some(Task(2, "A", "B", false))
  {
    var a := Task(2, "A", "B", false);
    assert IsFirstMatch([seed, a], 1, 0);
    FirstMatchUnique([seed, a], 1, 0, FirstIndex([seed, a], 1).value);
    assert Without([seed, a], 0) == [a];
    var s2 := [a, Task(2, "C", "D", false)];
    assert IsFirstMatch(s2, 2, 0);
    FirstMatchUnique(s2, 2, 0, FirstIndex(s2, 2).value);
  }
}
