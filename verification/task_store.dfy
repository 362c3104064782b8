/**
 * One module-level task list of main.py (`task_db_v1` or `task_db_v2`)
 * as an object whose list the helpers change in place.  Each method is
 * specified by the matching function of `TaskDb`.
 */
module Store {
  import opened Options
  import opened TaskDb
  import TaskLaws

  class TaskStore {
    var tasks: seq<Task>

    constructor (seed: seq<Task>)
      ensures tasks == seed
    {
      tasks := seed;
    }

    /** `create_task`: append a task numbered one past the current length and return it. */
    method CreateTask(title: string, desc: string) returns (t: Task)
      modifies this
      ensures t.id == |old(tasks)| + 1 && t.title == title && t.desc == desc && !t.finished
      ensures t == NewTask(old(tasks), title, desc)
      ensures tasks == old(tasks) + [t]
    {
      t := NewTask(tasks, title, desc);
      tasks := tasks + [t];
    }

    /**
     * `delete_task`: find the task, report "not found" if there is none,
     * otherwise `list.remove` it (the first element equal to it).
     */
    method DeleteTask(id: int) returns (deleted: bool)
      modifies this
      ensures deleted <==> HasId(old(tasks), id)
      ensures !deleted ==> unchanged(this)
      ensures deleted ==> Delete(old(tasks), id) == Ok(tasks)
      ensures deleted ==> tasks == Without(old(tasks), FirstIndex(old(tasks), id).value)
    {
      var task := GetTaskById(id, tasks);
      if task.None? {
        return false;
      }
      RemovedIsFirstMatch(tasks, id);
      tasks := Without(tasks, IndexOf(tasks, task.value));
      deleted := true;
    }

    /**
     * `update_task`: find the task, report "not found" if there is none,
     * otherwise overwrite each field whose argument is not None and
     * return the updated task.
     */
    method UpdateTask(id: int, title: Option<string>, desc: Option<string>, finished: Option<bool>)
      returns (r: Outcome<Task>)
      modifies this
      ensures r.NotFound? <==> !HasId(old(tasks), id)
      ensures r.NotFound? ==> unchanged(this)
      ensures r.Ok? ==> Update(old(tasks), id, Patch(title, desc, finished)) == Ok(tasks)
      ensures r.Ok? ==> GetTaskById(id, tasks) == Some(r.value)
      ensures r.Ok? ==> r.value == Apply(GetTaskById(id, old(tasks)).value, Patch(title, desc, finished))
    {
      var found := FirstIndex(tasks, id);
      if found.None? {
        return NotFound;
      }
      var k := found.value;
      var task := tasks[k];
      if title.Some? {
        task := task.(title := title.value);
      }
      if desc.Some? {
        task := task.(desc := desc.value);
      }
      if finished.Some? {
        task := task.(finished := finished.value);
      }
      ghost var before := tasks;
      tasks := tasks[k := task];
      TaskLaws.UpdateThenGet(before, id, Patch(title, desc, finished));
      r := Ok(task);
    }
  }
}
